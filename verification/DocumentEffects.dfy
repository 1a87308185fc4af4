/** What each request of src/dem/json.c answers and changes, said of the places in the document
    that it is about: what is added, replaced or taken away there, and that all else stays. */
module DocumentEffects {
  import opened CTypes
  import opened Options
  import opened Document
  import opened DocumentRefs

  // What else stays.

  ghost predicate OnlyGroups(d: Doc, e: Doc) {
    e.hosts == d.hosts && e.targets == d.targets
  }

  ghost predicate OnlyTargets(d: Doc, e: Doc) {
    e.hosts == d.hosts && e.groups == d.groups
  }

  /** Nothing changes outside target i, and in it neither alias nor ports nor the other
      subsystems. */
  ghost predicate OnlySub(d: Doc, e: Doc, i: nat, j: nat) {
    && OnlyTargets(d, e) && i < |d.targets| == |e.targets|
    && (forall n :: 0 <= n < |d.targets| && n != i ==> e.targets[n] == d.targets[n])
    && e.targets[i].alias == d.targets[i].alias && e.targets[i].ports == d.targets[i].ports
    && j < |d.targets[i].subsystems| == |e.targets[i].subsystems|
    && (forall n :: 0 <= n < |d.targets[i].subsystems| && n != j ==>
         e.targets[i].subsystems[n] == d.targets[i].subsystems[n])
  }

  ghost predicate OnlyTarget(d: Doc, e: Doc, i: nat) {
    && OnlyTargets(d, e) && i < |d.targets| == |e.targets|
    && (forall n :: 0 <= n < |d.targets| && n != i ==> e.targets[n] == d.targets[n])
  }

  ghost predicate OnlyGroup(d: Doc, e: Doc, i: nat) {
    && OnlyGroups(d, e) && i < |d.groups| == |e.groups|
    && (forall n :: 0 <= n < |d.groups| && n != i ==> e.groups[n] == d.groups[n])
  }

  /** The element at k has gone, and the others stay in order. */
  ghost predicate GoneAt<T>(s: seq<T>, now: seq<T>, k: nat) {
    && k < |s| && |now| == |s| - 1
    && forall n :: 0 <= n < |now| ==> now[n] == s[if n < k then n else n + 1]
  }

  /** One element more, at the end. */
  ghost predicate Appended<T>(s: seq<T>, now: seq<T>, x: T) {
    |now| == |s| + 1 && s <= now && now[|s|] == x
  }

  // Finding by a unique name.

  lemma IndexIs<T>(s: seq<T>, i: nat)
    requires NoDup(s) && i < |s|
    ensures IndexOf(s, s[i]) == i
  {
  }

  lemma IndexNone<T>(s: seq<T>, v: T)
    requires forall i :: 0 <= i < |s| ==> s[i] != v
    ensures IndexOf(s, v) == |s| && v !in s
  {
  }

  lemma HostFound(d: Doc, i: nat)
    requires Inv(d) && i < |d.hosts|
    ensures FindHost(d, d.hosts[i].alias) == i && d.hosts[i].alias in HostNames(d.hosts)
  {
    assert HostNames(d.hosts)[i] == d.hosts[i].alias;
    IndexIs(HostNames(d.hosts), i);
  }

  lemma TargetFound(d: Doc, i: nat)
    requires Inv(d) && i < |d.targets|
    ensures FindTarget(d, d.targets[i].alias) == i && d.targets[i].alias in TargetNames(d.targets)
  {
    assert TargetNames(d.targets)[i] == d.targets[i].alias;
    IndexIs(TargetNames(d.targets), i);
  }

  lemma GroupFound(d: Doc, i: nat)
    requires Inv(d) && i < |d.groups|
    ensures FindGroup(d, d.groups[i].name) == i && d.groups[i].name in GroupNames(d.groups)
  {
    assert GroupNames(d.groups)[i] == d.groups[i].name;
    IndexIs(GroupNames(d.groups), i);
  }

  lemma SubFound(d: Doc, i: nat, j: nat)
    requires Inv(d) && i < |d.targets| && j < |d.targets[i].subsystems|
    ensures FindTarget(d, d.targets[i].alias) == i && FindSub(d.targets[i], d.targets[i].subsystems[j].nqn) == j
    ensures Locate(d, d.targets[i].alias, d.targets[i].subsystems[j].nqn) == Some((i, j))
    ensures d.targets[i].subsystems[j].nqn in SubNames(d.targets[i].subsystems)
    ensures SubOk(HostNames(d.hosts), d.targets[i].subsystems[j])
  {
    TargetFound(d, i);
    assert SubNames(d.targets[i].subsystems)[j] == d.targets[i].subsystems[j].nqn;
    IndexIs(SubNames(d.targets[i].subsystems), j);
  }

  ghost predicate HostKnown(d: Doc, alias: string) {
    exists k :: 0 <= k < |d.hosts| && d.hosts[k].alias == alias
  }

  ghost predicate TargetKnown(d: Doc, alias: string) {
    exists k :: 0 <= k < |d.targets| && d.targets[k].alias == alias
  }

  ghost predicate GroupKnown(d: Doc, name: string) {
    exists k :: 0 <= k < |d.groups| && d.groups[k].name == name
  }

  ghost predicate SubKnown(d: Doc, alias: string, nqn: string) {
    exists i, j :: 0 <= i < |d.targets| && 0 <= j < |d.targets[i].subsystems| &&
      d.targets[i].alias == alias && d.targets[i].subsystems[j].nqn == nqn
  }

  lemma Known(d: Doc, name: string)
    ensures name in HostNames(d.hosts) <==> HostKnown(d, name)
    ensures name in TargetNames(d.targets) <==> TargetKnown(d, name)
    ensures name in GroupNames(d.groups) <==> GroupKnown(d, name)
  {
    assert forall k :: 0 <= k < |d.hosts| ==> HostNames(d.hosts)[k] == d.hosts[k].alias;
    assert forall k :: 0 <= k < |d.targets| ==> TargetNames(d.targets)[k] == d.targets[k].alias;
    assert forall k :: 0 <= k < |d.groups| ==> GroupNames(d.groups)[k] == d.groups[k].name;
  }

  lemma SubNamed(t: TargetObj, nqn: string)
    ensures nqn in SubNames(t.subsystems) <==> exists j :: 0 <= j < |t.subsystems| && t.subsystems[j].nqn == nqn
  {
    assert forall k :: 0 <= k < |t.subsystems| ==> SubNames(t.subsystems)[k] == t.subsystems[k].nqn;
  }

  // Requests about what is not there.

  lemma MissingGroup(d: Doc, name: string, kind: Kind, data: Body<Option<string>>, alias: string)
    requires !GroupKnown(d, name)
    ensures Step(d, DelGroup(name)) == (d, NoEntry)
    ensures Step(d, SetMember(name, kind, data)) == (d, NoEntry)
    ensures Step(d, DelMember(name, kind, alias)) == (d, NoEntry)
    ensures !data.Empty? ==> Step(d, UpdateGroup(Some(name), data)) == (d, NoEntry)
  {
    Known(d, name);
  }

  lemma MissingHost(d: Doc, alias: string, data: Body<HostData>)
    requires !HostKnown(d, alias)
    ensures Step(d, DelHost(alias)) == (d, NoEntry)
    ensures !data.Empty? ==> Step(d, UpdateHost(Some(alias), data)) == (d, NoEntry)
  {
    Known(d, alias);
  }

  lemma MissingTarget(d: Doc, alias: string, subnqn: Option<string>, id: Int32,
                      subsys: Body<SubsysData>, port: Body<PortData>, data: Body<Option<string>>)
    requires !TargetKnown(d, alias)
    ensures Step(d, DelTarget(alias)) == (d, NoEntry) && Step(d, DelPort(alias, id)) == (d, NoEntry)
    ensures Step(d, SetSubsys(alias, subnqn, subsys)) == (d, NoEntry)
    ensures Step(d, SetPort(alias, id, port)) == (d, NoEntry)
    ensures !data.Empty? ==> Step(d, UpdateTarget(Some(alias), data)) == (d, NoEntry)
  {
    Known(d, alias);
  }

  lemma MissingSubsys(d: Doc, alias: string, nqn: string, nsid: Int32, host: string,
                      subsys: Body<SubsysData>, ns: Body<NsData>, acl: Body<Option<string>>)
    requires !SubKnown(d, alias, nqn)
    ensures Step(d, SetSubsys(alias, Some(nqn), subsys)) == (d, NoEntry) && Step(d, DelSubsys(alias, nqn)) == (d, NoEntry)
    ensures Step(d, SetNs(alias, nqn, ns)) == (d, NoEntry) && Step(d, DelNs(alias, nqn, nsid)) == (d, NoEntry)
    ensures Step(d, SetAcl(alias, nqn, acl)) == (d, NoEntry) && Step(d, DelAcl(alias, nqn, host)) == (d, NoEntry)
  {
    NotLocated(d, alias, nqn);
  }

  lemma NotLocated(d: Doc, alias: string, nqn: string)
    requires !SubKnown(d, alias, nqn)
    ensures Locate(d, alias, nqn) == None
    ensures var i := FindTarget(d, alias); i < |d.targets| ==> nqn !in SubNames(d.targets[i].subsystems)
  {
    var i := FindTarget(d, alias);
    if i < |d.targets| {
      assert d.targets[i].alias == TargetNames(d.targets)[i];
      SubNamed(d.targets[i], nqn);
    }
  }

  // Groups.

  lemma AddGroupIs(d: Doc, name: string)
    ensures var (e, code) := Step(d, AddGroup(name));
      if GroupKnown(d, name) then (e, code) == (d, Exists)
      else code.Ok? && OnlyGroups(d, e) && Appended(d.groups, e.groups, GroupObj(name, [], []))
  {
    Known(d, name);
  }

  /** Posting a group is adding it, but that a group without a name is added in any case. */
  lemma NewGroupIs(d: Doc, data: Body<Option<string>>)
    ensures var (e, code) := Step(d, UpdateGroup(None, data));
      if !data.Json? || data.value.None? then (e, code) == (d, Invalid)
      else if data.value != Some("") && GroupKnown(d, data.value.value) then (e, code) == (d, Exists)
      else code.Ok? && OnlyGroups(d, e) && Appended(d.groups, e.groups, GroupObj(data.value.value, [], []))
  {
    if data.Json? && data.value.Some? {
      Known(d, data.value.value);
    }
  }

  lemma RenameGroupIs(d: Doc, i: nat, data: Body<Option<string>>)
    requires Inv(d) && i < |d.groups|
    ensures var (e, code) := Step(d, UpdateGroup(Some(d.groups[i].name), data));
      if !data.Json? || data.value.None? then (e, code) == (d, Invalid)
      else if data.value.value != d.groups[i].name && GroupKnown(d, data.value.value) then (e, code) == (d, Exists)
      else code.Ok? && OnlyGroup(d, e, i) && e.groups[i] == GroupObj(data.value.value, d.groups[i].targets, d.groups[i].hosts)
  {
    GroupFound(d, i);
    if data.Json? && data.value.Some? {
      Known(d, data.value.value);
    }
  }

  lemma DelGroupIs(d: Doc, i: nat)
    requires Inv(d) && i < |d.groups|
    ensures var (e, code) := Step(d, DelGroup(d.groups[i].name));
      code.Ok? && OnlyGroups(d, e) && GoneAt(d.groups, e.groups, i)
  {
    GroupFound(d, i);
  }

  /** A member that exists joins the list of its kind, at the end and once. */
  lemma SetMemberIs(d: Doc, i: nat, kind: Kind, data: Body<Option<string>>)
    requires Inv(d) && i < |d.groups|
    ensures var (e, code) := Step(d, SetMember(d.groups[i].name, kind, data));
      if !data.Json? || data.value.None? then (e, code) == (d, Invalid)
      else
        var g, alias := d.groups[i], data.value.value;
        if !(if kind.HostMember? then HostKnown(d, alias) else TargetKnown(d, alias)) then (e, code) == (d, NoEntry)
        else if alias in (if kind.HostMember? then g.hosts else g.targets) then (e, code) == (d, Ok)
        else
          && code.Ok? && OnlyGroup(d, e, i) && e.groups[i].name == g.name
          && (if kind.HostMember? then Appended(g.hosts, e.groups[i].hosts, alias) && e.groups[i].targets == g.targets
              else Appended(g.targets, e.groups[i].targets, alias) && e.groups[i].hosts == g.hosts)
  {
    GroupFound(d, i);
    if data.Json? && data.value.Some? {
      Known(d, data.value.value);
    }
  }

  /** A member leaves the list of its kind, and nothing else. */
  lemma DelMemberIs(d: Doc, i: nat, kind: Kind, k: nat)
    requires Inv(d) && i < |d.groups| && k < |if kind.HostMember? then d.groups[i].hosts else d.groups[i].targets|
    ensures var g := d.groups[i];
      var (e, code) := Step(d, DelMember(g.name, kind, if kind.HostMember? then g.hosts[k] else g.targets[k]));
      && code.Ok? && OnlyGroup(d, e, i) && e.groups[i].name == g.name
      && (if kind.HostMember? then GoneAt(g.hosts, e.groups[i].hosts, k) && e.groups[i].targets == g.targets
          else GoneAt(g.targets, e.groups[i].targets, k) && e.groups[i].hosts == g.hosts)
  {
    GroupFound(d, i);
    assert GroupOk(HostNames(d.hosts), TargetNames(d.targets), d.groups[i]);
    IndexIs(if kind.HostMember? then d.groups[i].hosts else d.groups[i].targets, k);
  }

  lemma DelMemberMissing(d: Doc, i: nat, kind: Kind, alias: string)
    requires Inv(d) && i < |d.groups| && alias !in if kind.HostMember? then d.groups[i].hosts else d.groups[i].targets
    ensures Step(d, DelMember(d.groups[i].name, kind, alias)) == (d, NoEntry)
  {
    GroupFound(d, i);
  }

  // Hosts.

  lemma AddHostIs(d: Doc, alias: string)
    ensures var (e, code) := Step(d, AddHost(alias));
      if HostKnown(d, alias) then (e, code) == (d, Exists)
      else
        code.Ok? && e.targets == d.targets && e.groups == d.groups && Appended(d.hosts, e.hosts, HostObj(alias, None))
  {
    Known(d, alias);
  }

  lemma NewHostIs(d: Doc, data: Body<HostData>)
    ensures var (e, code) := Step(d, UpdateHost(None, data));
      if !data.Json? || data.value.alias.None? then (e, code) == (d, Invalid)
      else if data.value.alias == Some("") then (e, code) == (d, Fault)
      else if HostKnown(d, data.value.alias.value) then (e, code) == (d, Exists)
      else
        && code.Ok? && e.targets == d.targets && e.groups == d.groups
        && Appended(d.hosts, e.hosts, HostObj(data.value.alias.value, data.value.nqn))
  {
    if data.Json? && data.value.alias.Some? {
      Known(d, data.value.alias.value);
    }
  }

  /** Wherever a group or a subsystem lists the host by the old alias, it lists it by the new one
      afterwards, and is otherwise the same. */
  ghost predicate Carried(d: Doc, e: Doc, was: string, now: string) {
    && |e.groups| == |d.groups| && |e.targets| == |d.targets|
    && (forall n :: 0 <= n < |d.groups| ==>
         e.groups[n].name == d.groups[n].name && e.groups[n].targets == d.groups[n].targets &&
         Substituted(d.groups[n].hosts, e.groups[n].hosts, was, now))
    && (forall n :: 0 <= n < |d.targets| ==>
         e.targets[n].alias == d.targets[n].alias && e.targets[n].ports == d.targets[n].ports &&
         |e.targets[n].subsystems| == |d.targets[n].subsystems|)
    && (forall n, j :: 0 <= n < |d.targets| && 0 <= j < |d.targets[n].subsystems| ==>
         e.targets[n].subsystems[j] == d.targets[n].subsystems[j].(hosts := e.targets[n].subsystems[j].hosts) &&
         Substituted(d.targets[n].subsystems[j].hosts, e.targets[n].subsystems[j].hosts, was, now))
  }

  lemma RenamedCarries(d: Doc, i: nat, alias: string)
    requires Inv(d) && i < |d.hosts| && alias !in HostNames(d.hosts)
    ensures Carried(d, RenamedHost(d, i, alias), d.hosts[i].alias, alias)
  {
    RenameHostCarries(d, i, alias);
  }

  lemma NothingCarried(d: Doc, e: Doc, alias: string)
    requires e.groups == d.groups && e.targets == d.targets
    ensures Carried(d, e, alias, alias)
  {
  }

  /** An update replaces the alias and the NQN where the body has them, and carries the alias
      along. */
  lemma UpdateHostIs(d: Doc, i: nat, data: Body<HostData>)
    requires Inv(d) && i < |d.hosts|
    ensures var (e, code) := Step(d, UpdateHost(Some(d.hosts[i].alias), data));
      if !data.Json? then (e, code) == (d, Invalid)
      else
        var h := d.hosts[i];
        var alias := if data.value.alias.Some? then data.value.alias.value else h.alias;
        if alias != h.alias && HostKnown(d, alias) then (e, code) == (d, Exists)
        else
          && code.Ok? && e.hosts == d.hosts[i := HostObj(alias, if data.value.nqn.Some? then data.value.nqn else h.nqn)]
          && Carried(d, e, h.alias, alias)
  {
    HostFound(d, i);
    if data.Json? {
      var h, e := d.hosts[i], Step(d, UpdateHost(Some(d.hosts[i].alias), data)).0;
      var alias := if data.value.alias.Some? then data.value.alias.value else h.alias;
      Known(d, alias);
      if alias == h.alias {
        NothingCarried(d, e, alias);
      } else if !HostKnown(d, alias) {
        RenamedCarries(d, i, alias);
        var f := RenamedHost(d, i, alias);
        assert e.groups == f.groups && e.targets == f.targets;
      }
    }
  }

  /** The host goes, and every group loses it; what happens to the subsystems is said where the
      removal is described. */
  lemma DelHostIs(d: Doc, i: nat)
    requires Inv(d) && i < |d.hosts|
    ensures var (e, code) := Step(d, DelHost(d.hosts[i].alias));
      && code.Ok? && GoneAt(d.hosts, e.hosts, i) && |e.groups| == |d.groups| && |e.targets| == |d.targets|
      && (forall n :: 0 <= n < |d.groups| ==>
           e.groups[n].name == d.groups[n].name && e.groups[n].targets == d.groups[n].targets &&
           forall x :: x in e.groups[n].hosts <==> x in d.groups[n].hosts && x != d.hosts[i].alias)
      && (forall n :: 0 <= n < |d.targets| ==>
           e.targets[n].alias == d.targets[n].alias && e.targets[n].ports == d.targets[n].ports)
  {
    HostFound(d, i);
    forall n | 0 <= n < |d.groups|
      ensures forall x :: x in Without(d.groups[n].hosts, d.hosts[i].alias) <==> x in d.groups[n].hosts && x != d.hosts[i].alias
    {
      assert GroupOk(HostNames(d.hosts), TargetNames(d.targets), d.groups[n]);
      WithoutKeeps(d.groups[n].hosts, d.hosts[i].alias);
    }
  }

  // Targets.

  lemma AddTargetIs(d: Doc, alias: string)
    ensures var (e, code) := Step(d, AddTarget(alias));
      if TargetKnown(d, alias) then (e, code) == (d, Exists)
      else code.Ok? && OnlyTargets(d, e) && Appended(d.targets, e.targets, TargetObj(alias, [], []))
  {
    Known(d, alias);
  }

  lemma NewTargetIs(d: Doc, data: Body<Option<string>>)
    ensures var (e, code) := Step(d, UpdateTarget(None, data));
      if !data.Json? || data.value.None? then (e, code) == (d, Invalid)
      else if data.value == Some("") then (e, code) == (d, Fault)
      else if TargetKnown(d, data.value.value) then (e, code) == (d, Exists)
      else code.Ok? && OnlyTargets(d, e) && Appended(d.targets, e.targets, TargetObj(data.value.value, [], []))
  {
    if data.Json? && data.value.Some? {
      Known(d, data.value.value);
    }
  }

  /** A rename replaces the alias, here and in every group that lists the target. */
  lemma RenameTargetIs(d: Doc, i: nat, data: Body<Option<string>>)
    requires Inv(d) && i < |d.targets|
    ensures var (e, code) := Step(d, UpdateTarget(Some(d.targets[i].alias), data));
      if !data.Json? then (e, code) == (d, Invalid)
      else
        var t := d.targets[i];
        var alias := if data.value.Some? then data.value.value else t.alias;
        if alias == t.alias then (e, code) == (d, Ok)
        else if TargetKnown(d, alias) then (e, code) == (d, Exists)
        else
          && code.Ok? && e.hosts == d.hosts && e.targets == d.targets[i := TargetObj(alias, t.ports, t.subsystems)]
          && |e.groups| == |d.groups|
          && forall n :: 0 <= n < |d.groups| ==>
               e.groups[n].name == d.groups[n].name && e.groups[n].hosts == d.groups[n].hosts &&
               Substituted(d.groups[n].targets, e.groups[n].targets, t.alias, alias)
  {
    TargetFound(d, i);
    if data.Json? {
      var alias := if data.value.Some? then data.value.value else d.targets[i].alias;
      Known(d, alias);
      if !TargetKnown(d, alias) {
        RenameTargetCarries(d, i, alias);
      }
    }
  }

  lemma DelTargetIs(d: Doc, i: nat)
    requires Inv(d) && i < |d.targets|
    ensures var (e, code) := Step(d, DelTarget(d.targets[i].alias));
      && code.Ok? && e.hosts == d.hosts && GoneAt(d.targets, e.targets, i) && |e.groups| == |d.groups|
      && forall n :: 0 <= n < |d.groups| ==>
           e.groups[n].name == d.groups[n].name && e.groups[n].hosts == d.groups[n].hosts &&
           forall x :: x in e.groups[n].targets <==> x in d.groups[n].targets && x != d.targets[i].alias
  {
    TargetFound(d, i);
    forall n | 0 <= n < |d.groups|
      ensures forall x ::
        x in Without(d.groups[n].targets, d.targets[i].alias) <==> x in d.groups[n].targets && x != d.targets[i].alias
    {
      assert GroupOk(HostNames(d.hosts), TargetNames(d.targets), d.groups[n]);
      WithoutKeeps(d.groups[n].targets, d.targets[i].alias);
    }
  }

  // Subsystems.

  lemma NewSubsysIs(d: Doc, i: nat, data: Body<SubsysData>)
    requires Inv(d) && i < |d.targets|
    ensures var t := d.targets[i];
      var (e, code) := Step(d, SetSubsys(t.alias, None, data));
      if !data.Json? || data.value.nqn.None? then (e, code) == (d, Invalid)
      else if exists j :: 0 <= j < |t.subsystems| && t.subsystems[j].nqn == data.value.nqn.value then (e, code) == (d, Exists)
      else
        && code.Ok? && OnlyTarget(d, e, i) && e.targets[i].alias == t.alias && e.targets[i].ports == t.ports
        && Appended(t.subsystems, e.targets[i].subsystems, SubsysObj(data.value.nqn.value, data.value.allowAny, [], []))
  {
    TargetFound(d, i);
    if data.Json? && data.value.nqn.Some? {
      SubNamed(d.targets[i], data.value.nqn.value);
    }
  }

  /** An update replaces name and access where the body has them. Only one that says that the
      access is restricted keeps the list of hosts. */
  lemma SetSubsysIs(d: Doc, i: nat, j: nat, data: Body<SubsysData>)
    requires Inv(d) && i < |d.targets| && j < |d.targets[i].subsystems|
    ensures var t, s := d.targets[i], d.targets[i].subsystems[j];
      var (e, code) := Step(d, SetSubsys(t.alias, Some(s.nqn), data));
      if data.Empty? then (e, code) == (d, Ok)
      else if data.Malformed? then (e, code) == (d, Invalid)
      else if exists n :: 0 <= n < |t.subsystems| && n != j && data.value.nqn == Some(t.subsystems[n].nqn) then (e, code) == (d, Exists)
      else
        && code.Ok? && OnlySub(d, e, i, j)
        && e.targets[i].subsystems[j].nqn == (if data.value.nqn.Some? then data.value.nqn.value else s.nqn)
        && e.targets[i].subsystems[j].allowAny == (if data.value.allowAny.Some? then data.value.allowAny else s.allowAny)
        && e.targets[i].subsystems[j].namespaces == s.namespaces
        && e.targets[i].subsystems[j].hosts ==
             (if data.value.allowAny.Some? && ToInt32(data.value.allowAny.value) == 0 then s.hosts else [])
  {
    SubFound(d, i, j);
    if data.Json? && data.value.nqn.Some? {
      SubNamed(d.targets[i], data.value.nqn.value);
      OthersNamed(d, i, j);
    }
  }

  lemma OthersNamed(d: Doc, i: nat, j: nat)
    requires Inv(d) && i < |d.targets| && j < |d.targets[i].subsystems|
    ensures forall n :: 0 <= n < |d.targets[i].subsystems| && n != j ==>
      d.targets[i].subsystems[n].nqn != d.targets[i].subsystems[j].nqn
  {
    var names := SubNames(d.targets[i].subsystems);
    assert forall n :: 0 <= n < |names| ==> names[n] == d.targets[i].subsystems[n].nqn;
  }

  lemma DelSubsysIs(d: Doc, i: nat, j: nat)
    requires Inv(d) && i < |d.targets| && j < |d.targets[i].subsystems|
    ensures var t := d.targets[i];
      var (e, code) := Step(d, DelSubsys(t.alias, t.subsystems[j].nqn));
      && code.Ok? && OnlyTarget(d, e, i) && e.targets[i].alias == t.alias && e.targets[i].ports == t.ports
      && GoneAt(t.subsystems, e.targets[i].subsystems, j)
  {
    SubFound(d, i, j);
  }

  // Namespaces.

  /** A namespace that is there takes the device members that the body has; another is added. */
  lemma SetNsIs(d: Doc, i: nat, j: nat, data: Body<NsData>)
    requires Inv(d) && i < |d.targets| && j < |d.targets[i].subsystems|
    ensures var s := d.targets[i].subsystems[j];
      var (e, code) := Step(d, SetNs(d.targets[i].alias, s.nqn, data));
      if !data.Json? || data.value.nsid.None? then (e, code) == (d, Invalid)
      else
        && code.Ok? && OnlySub(d, e, i, j)
        && e.targets[i].subsystems[j] == s.(namespaces := e.targets[i].subsystems[j].namespaces)
        && NsSet(s.namespaces, e.targets[i].subsystems[j].namespaces, ToInt32(data.value.nsid.value), data.value)
  {
    SubFound(d, i, j);
    if data.Json? && data.value.nsid.Some? {
      SetNamespaceIs(d.targets[i].subsystems[j].namespaces, ToInt32(data.value.nsid.value), data.value);
    }
  }

  ghost predicate NsSet(was: seq<NsObj>, now: seq<NsObj>, nsid: int, data: NsData) {
    && (forall k :: 0 <= k < |was| && was[k].nsid == nsid ==>
         now == was[k := NsObj(nsid, if data.devid.Some? then data.devid else was[k].devid,
                               if data.devns.Some? then data.devns else was[k].devns)])
    && ((forall k :: 0 <= k < |was| ==> was[k].nsid != nsid) ==> Appended(was, now, NsObj(nsid, data.devid, data.devns)))
  }

  lemma SetNamespaceIs(nss: seq<NsObj>, nsid: int, data: NsData)
    requires NoDup(NsIds(nss))
    ensures NsSet(nss, SetNamespace(nss, nsid, data), nsid, data)
  {
    assert forall k :: 0 <= k < |nss| ==> NsIds(nss)[k] == nss[k].nsid;
    if k :| 0 <= k < |nss| && nss[k].nsid == nsid {
      IndexIs(NsIds(nss), k);
    } else {
      IndexNone(NsIds(nss), nsid);
    }
  }

  lemma DelNsIs(d: Doc, i: nat, j: nat, k: nat, nsid: Int32)
    requires Inv(d) && i < |d.targets| && j < |d.targets[i].subsystems|
    requires k < |d.targets[i].subsystems[j].namespaces| && d.targets[i].subsystems[j].namespaces[k].nsid == nsid
    ensures var s := d.targets[i].subsystems[j];
      var (e, code) := Step(d, DelNs(d.targets[i].alias, s.nqn, nsid));
      && code.Ok? && OnlySub(d, e, i, j)
      && e.targets[i].subsystems[j] == s.(namespaces := e.targets[i].subsystems[j].namespaces)
      && GoneAt(s.namespaces, e.targets[i].subsystems[j].namespaces, k)
  {
    SubFound(d, i, j);
    var nss := d.targets[i].subsystems[j].namespaces;
    assert NsIds(nss)[k] == nsid;
    IndexIs(NsIds(nss), k);
  }

  lemma DelNsMissing(d: Doc, i: nat, j: nat, nsid: Int32)
    requires Inv(d) && i < |d.targets| && j < |d.targets[i].subsystems|
    requires forall n <- d.targets[i].subsystems[j].namespaces :: n.nsid != nsid
    ensures Step(d, DelNs(d.targets[i].alias, d.targets[i].subsystems[j].nqn, nsid)) == (d, NoEntry)
  {
    SubFound(d, i, j);
    var nss := d.targets[i].subsystems[j].namespaces;
    assert forall k :: 0 <= k < |nss| ==> NsIds(nss)[k] == nss[k].nsid && nss[k] in nss;
    IndexNone(NsIds(nss), nsid);
  }

  // Access lists.

  /** A host that exists and has an NQN joins the list of a subsystem, at the end and once. */
  lemma SetAclIs(d: Doc, i: nat, j: nat, data: Body<Option<string>>)
    requires Inv(d) && i < |d.targets| && j < |d.targets[i].subsystems|
    ensures var s := d.targets[i].subsystems[j];
      var (e, code) := Step(d, SetAcl(d.targets[i].alias, s.nqn, data));
      if !data.Json? || data.value.None? then (e, code) == (d, Invalid)
      else
        var host := data.value.value;
        if !HostKnown(d, host) then (e, code) == (d, NoEntry)
        else if host in s.hosts then (e, code) == (d, Exists)
        else if exists k :: 0 <= k < |d.hosts| && d.hosts[k] == HostObj(host, None) then (e, code) == (d, Invalid)
        else
          && code.Ok? && OnlySub(d, e, i, j)
          && e.targets[i].subsystems[j] == s.(hosts := e.targets[i].subsystems[j].hosts)
          && Appended(s.hosts, e.targets[i].subsystems[j].hosts, host)
  {
    SubFound(d, i, j);
    if data.Json? && data.value.Some? {
      Known(d, data.value.value);
      if k :| 0 <= k < |d.hosts| && d.hosts[k].alias == data.value.value {
        HostFound(d, k);
        forall n | 0 <= n < |d.hosts| && d.hosts[n].alias == data.value.value
          ensures n == k
        {
          HostFound(d, n);
        }
      }
    }
  }

  lemma DelAclIs(d: Doc, i: nat, j: nat, k: nat)
    requires Inv(d) && i < |d.targets| && j < |d.targets[i].subsystems| && k < |d.targets[i].subsystems[j].hosts|
    ensures var s := d.targets[i].subsystems[j];
      var (e, code) := Step(d, DelAcl(d.targets[i].alias, s.nqn, s.hosts[k]));
      && code.Ok? && OnlySub(d, e, i, j)
      && e.targets[i].subsystems[j] == s.(hosts := e.targets[i].subsystems[j].hosts)
      && GoneAt(s.hosts, e.targets[i].subsystems[j].hosts, k)
  {
    SubFound(d, i, j);
    IndexIs(d.targets[i].subsystems[j].hosts, k);
  }

  lemma DelAclMissing(d: Doc, i: nat, j: nat, host: string)
    requires Inv(d) && i < |d.targets| && j < |d.targets[i].subsystems| && host !in d.targets[i].subsystems[j].hosts
    ensures Step(d, DelAcl(d.targets[i].alias, d.targets[i].subsystems[j].nqn, host)) == (d, NoEntry)
  {
    SubFound(d, i, j);
  }

  // Ports.

  ghost predicate PortSet(was: seq<PortObj>, now: seq<PortObj>, id: int, data: PortData) {
    var given := if data.portid.Some? then data.portid.value else id;
    && (forall k :: 0 <= k < |was| && was[k].portid == id ==>
         now == was[k := PortObj(given, if data.address.Some? then data.address else was[k].address)])
    && ((forall k :: 0 <= k < |was| ==> was[k].portid != id) ==> Appended(was, now, PortObj(given, data.address)))
  }

  lemma SetPortIdIs(ports: seq<PortObj>, id: int, data: PortData)
    requires NoDup(PortIds(ports))
    ensures PortSet(ports, SetPortId(ports, id, data), id, data)
  {
    assert forall k :: 0 <= k < |ports| ==> PortIds(ports)[k] == ports[k].portid;
    if k :| 0 <= k < |ports| && ports[k].portid == id {
      IndexIs(PortIds(ports), k);
    } else {
      IndexNone(PortIds(ports), id);
    }
  }

  /** A port that is there, by the id of the path or else of the body, takes what the body has,
      even another id; another is added. */
  lemma SetPortIs(d: Doc, i: nat, id: Int32, data: Body<PortData>)
    requires Inv(d) && i < |d.targets|
    ensures var t := d.targets[i];
      var (e, code) := Step(d, SetPort(t.alias, id, data));
      if !data.Json? || (id == 0 && (data.value.portid.None? || ToInt32(data.value.portid.value) == 0)) then (e, code) == (d, Invalid)
      else
        && code.Ok? && OnlyTarget(d, e, i) && e.targets[i].alias == t.alias && e.targets[i].subsystems == t.subsystems
        && PortSet(t.ports, e.targets[i].ports, if id != 0 then id else ToInt32(data.value.portid.value), data.value)
  {
    TargetFound(d, i);
    if data.Json? && !(id == 0 && (data.value.portid.None? || ToInt32(data.value.portid.value) == 0)) {
      SetPortIdIs(d.targets[i].ports, if id != 0 then id else ToInt32(data.value.portid.value), data.value);
    }
  }

  lemma DelPortIs(d: Doc, i: nat, k: nat, id: Int32)
    requires Inv(d) && i < |d.targets| && k < |d.targets[i].ports| && d.targets[i].ports[k].portid == id
    ensures var t := d.targets[i];
      var (e, code) := Step(d, DelPort(t.alias, id));
      && code.Ok? && OnlyTarget(d, e, i) && e.targets[i].alias == t.alias && e.targets[i].subsystems == t.subsystems
      && GoneAt(t.ports, e.targets[i].ports, k)
  {
    TargetFound(d, i);
    assert PortIds(d.targets[i].ports)[k] == id;
    IndexIs(PortIds(d.targets[i].ports), k);
  }

  lemma DelPortMissing(d: Doc, i: nat, id: Int32)
    requires Inv(d) && i < |d.targets| && forall p <- d.targets[i].ports :: p.portid != id
    ensures Step(d, DelPort(d.targets[i].alias, id)) == (d, NoEntry)
  {
    TargetFound(d, i);
    var ports := d.targets[i].ports;
    assert forall k :: 0 <= k < |ports| ==> PortIds(ports)[k] == ports[k].portid && ports[k] in ports;
    IndexNone(PortIds(ports), id);
  }
}
