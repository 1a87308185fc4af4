/** The names and cross references of the configuration document, and exactly which requests
    keep them. */
module DocumentRefs {
  import opened CTypes
  import opened Options
  import opened Document

  predicate NoDup<T(==)>(s: seq<T>) {
    forall i, j :: 0 <= i < j < |s| ==> s[i] != s[j]
  }

  /** Every element of s is in t. */
  predicate Within<T(==)>(s: seq<T>, t: seq<T>) {
    forall i :: 0 <= i < |s| ==> s[i] in t
  }

  ghost predicate SubOk(hosts: seq<string>, s: SubsysObj) {
    NoDup(s.hosts) && Within(s.hosts, hosts) && NoDup(NsIds(s.namespaces))
  }

  ghost predicate TargetOk(hosts: seq<string>, t: TargetObj) {
    && NoDup(SubNames(t.subsystems)) && NoDup(PortIds(t.ports))
    && forall j :: 0 <= j < |t.subsystems| ==> SubOk(hosts, t.subsystems[j])
  }

  ghost predicate GroupOk(hosts: seq<string>, targets: seq<string>, g: GroupObj) {
    NoDup(g.hosts) && Within(g.hosts, hosts) && NoDup(g.targets) && Within(g.targets, targets)
  }

  ghost predicate TargetsOk(hosts: seq<string>, targets: seq<TargetObj>) {
    forall i :: 0 <= i < |targets| ==> TargetOk(hosts, targets[i])
  }

  ghost predicate GroupsOk(hosts: seq<string>, targets: seq<string>, groups: seq<GroupObj>) {
    forall i :: 0 <= i < |groups| ==> GroupOk(hosts, targets, groups[i])
  }

  /** Host aliases, target aliases and group names are unique; within a target the SUBNQNs
      and port ids are, within a subsystem the NSIDs; every group member and every allowed
      host names an existing object, and does so once. */
  ghost predicate Inv(d: Doc) {
    && NoDup(HostNames(d.hosts)) && NoDup(TargetNames(d.targets)) && NoDup(GroupNames(d.groups))
    && TargetsOk(HostNames(d.hosts), d.targets)
    && GroupsOk(HostNames(d.hosts), TargetNames(d.targets), d.groups)
  }

  // Sequences without duplicates.

  lemma RemovedKeeps<T>(s: seq<T>, i: nat)
    requires NoDup(s) && i < |s|
    ensures NoDup(Removed(s, i))
    ensures forall x :: x in Removed(s, i) <==> x in s && x != s[i]
  {
    var r := Removed(s, i);
    forall x | x in s && x != s[i]
      ensures x in r
    {
      var k :| 0 <= k < |s| && s[k] == x;
      assert r[if k < i then k else k - 1] == x;
    }
  }

  lemma WithoutKeeps<T>(s: seq<T>, v: T)
    requires NoDup(s)
    ensures NoDup(Without(s, v))
    ensures forall x :: x in Without(s, v) <==> x in s && x != v
  {
    var i := IndexOf(s, v);
    if i < |s| {
      RemovedKeeps(s, i);
    }
  }

  lemma RenamedKeeps<T>(s: seq<T>, v: T, w: T)
    requires NoDup(s) && w !in s
    ensures NoDup(Renamed(s, v, w))
    ensures |Renamed(s, v, w)| == |s|
    ensures forall k :: 0 <= k < |s| ==> Renamed(s, v, w)[k] == if s[k] == v then w else s[k]
  {
  }

  lemma UpdatedKeeps<T>(s: seq<T>, i: nat, x: T)
    requires NoDup(s) && i < |s| && (x == s[i] || x !in s)
    ensures NoDup(s[i := x])
  {
  }

  // Changing one part.

  lemma TargetChanged(d: Doc, i: nat, t: TargetObj)
    requires Inv(d) && i < |d.targets|
    requires t.alias == d.targets[i].alias && TargetOk(HostNames(d.hosts), t)
    ensures Inv(d.(targets := d.targets[i := t]))
  {
    assert TargetNames(d.targets[i := t]) == TargetNames(d.targets);
  }

  lemma SubChanged(d: Doc, i: nat, j: nat, s: SubsysObj)
    requires Inv(d) && i < |d.targets| && j < |d.targets[i].subsystems|
    requires s.nqn == d.targets[i].subsystems[j].nqn || s.nqn !in SubNames(d.targets[i].subsystems)
    requires SubOk(HostNames(d.hosts), s)
    ensures Inv(WithSub(d, i, j, s))
  {
    var t := d.targets[i];
    var subs := t.subsystems[j := s];
    assert SubNames(subs) == SubNames(t.subsystems)[j := s.nqn];
    UpdatedKeeps(SubNames(t.subsystems), j, s.nqn);
    TargetChanged(d, i, t.(subsystems := subs));
  }

  lemma GroupChanged(d: Doc, i: nat, g: GroupObj)
    requires Inv(d) && i < |d.groups|
    requires g.name == d.groups[i].name || g.name !in GroupNames(d.groups)
    requires GroupOk(HostNames(d.hosts), TargetNames(d.targets), g)
    ensures Inv(d.(groups := d.groups[i := g]))
  {
    assert GroupNames(d.groups[i := g]) == GroupNames(d.groups)[i := g.name];
    UpdatedKeeps(GroupNames(d.groups), i, g.name);
  }

  // Groups.

  lemma UpdateGroupKeeps(d: Doc, was: Option<string>, data: Body<Option<string>>)
    requires Inv(d)
    ensures Inv(StepUpdateGroup(d, was, data).0) <==>
      !(was == None && data == Json(Some("")) && "" in GroupNames(d.groups))
  {
    var (after, code) := StepUpdateGroup(d, was, data);
    if code.Ok? {
      var name := data.value.value;
      if was.Some? {
        var i := FindGroup(d, was.value);
        GroupChanged(d, i, d.groups[i].(name := name));
      } else {
        assert GroupNames(after.groups) == GroupNames(d.groups) + [name];
        if name in GroupNames(d.groups) {
          var k :| 0 <= k < |d.groups| && GroupNames(d.groups)[k] == name;
          assert GroupNames(after.groups)[k] == GroupNames(after.groups)[|d.groups|];
        }
      }
    }
  }

  lemma DelGroupKeeps(d: Doc, name: string)
    requires Inv(d)
    ensures Inv(Step(d, DelGroup(name)).0)
  {
    var i := FindGroup(d, name);
    if i < |d.groups| {
      assert GroupNames(Removed(d.groups, i)) == Removed(GroupNames(d.groups), i);
      RemovedKeeps(GroupNames(d.groups), i);
    }
  }

  lemma SetMemberKeeps(d: Doc, name: string, kind: Kind, data: Body<Option<string>>)
    requires Inv(d)
    ensures Inv(StepSetMember(d, name, kind, data).0)
  {
    var (after, code) := StepSetMember(d, name, kind, data);
    var i := FindGroup(d, name);
    if code.Ok? {
      GroupChanged(d, i, after.groups[i]);
      assert after.groups == d.groups[i := after.groups[i]];
    }
  }

  lemma DelFromGroupKeeps(hosts: seq<string>, targets: seq<string>, g: GroupObj, kind: Kind, v: string)
    requires GroupOk(hosts, targets, g)
    ensures GroupOk(hosts, targets, DelFromGroup(g, kind, v))
    ensures v !in Members(DelFromGroup(g, kind, v), kind)
  {
    WithoutKeeps(Members(g, kind), v);
    assert forall x :: x in Without(Members(g, kind), v) ==> x in Members(g, kind);
  }

  lemma DelMemberKeeps(d: Doc, name: string, kind: Kind, alias: string)
    requires Inv(d)
    ensures Inv(StepDelMember(d, name, kind, alias).0)
  {
    var i := FindGroup(d, name);
    if i < |d.groups| {
      DelFromGroupKeeps(HostNames(d.hosts), TargetNames(d.targets), d.groups[i], kind, alias);
      GroupChanged(d, i, DelFromGroup(d.groups[i], kind, alias));
    }
  }

  // Hosts.

  /** A rename replaces the old name by the new one wherever it occurs, and nothing else. */
  ghost predicate Substituted<T>(s: seq<T>, t: seq<T>, v: T, w: T) {
    |t| == |s| && forall k :: 0 <= k < |s| ==> t[k] == if s[k] == v then w else s[k]
  }

  lemma RenameMembers(names: seq<string>, members: seq<string>, v: string, w: string, i: nat)
    requires NoDup(names) && i < |names| && names[i] == v && w !in names
    requires NoDup(members) && Within(members, names)
    ensures var now := Renamed(members, v, w);
      NoDup(now) && Within(now, names[i := w]) && Substituted(members, now, v, w)
  {
    RenamedKeeps(members, v, w);
    var now := Renamed(members, v, w);
    forall k | 0 <= k < |now|
      ensures now[k] in names[i := w]
    {
      if members[k] == v {
        assert names[i := w][i] == now[k];
      } else {
        var n :| 0 <= n < |names| && names[n] == members[k];
        assert names[i := w][n] == now[k];
      }
    }
  }

  lemma RenamedTargetOk(names: seq<string>, t: TargetObj, v: string, w: string, i: nat)
    requires NoDup(names) && i < |names| && names[i] == v && w !in names && TargetOk(names, t)
    ensures TargetOk(names[i := w], RenameInTarget(t, v, w))
    ensures forall j :: 0 <= j < |t.subsystems| ==>
      Substituted(t.subsystems[j].hosts, RenameInTarget(t, v, w).subsystems[j].hosts, v, w)
  {
    var now := RenameInTarget(t, v, w);
    assert SubNames(now.subsystems) == SubNames(t.subsystems);
    forall j | 0 <= j < |t.subsystems|
      ensures SubOk(names[i := w], now.subsystems[j])
      ensures Substituted(t.subsystems[j].hosts, now.subsystems[j].hosts, v, w)
    {
      RenameMembers(names, t.subsystems[j].hosts, v, w, i);
    }
  }

  /** A rename of a host takes every reference along: each group and each subsystem lists the
      new name exactly where it listed the old one. */
  lemma RenameHostCarries(d: Doc, i: nat, alias: string)
    requires Inv(d) && i < |d.hosts| && alias !in HostNames(d.hosts)
    ensures var after, was := RenamedHost(d, i, alias), d.hosts[i].alias;
      && Inv(after)
      && (forall n :: 0 <= n < |d.groups| ==>
           after.groups[n].targets == d.groups[n].targets &&
           Substituted(d.groups[n].hosts, after.groups[n].hosts, was, alias))
      && (forall n :: 0 <= n < |d.targets| ==>
           |after.targets[n].subsystems| == |d.targets[n].subsystems| &&
           forall j :: 0 <= j < |d.targets[n].subsystems| ==>
             Substituted(d.targets[n].subsystems[j].hosts, after.targets[n].subsystems[j].hosts, was, alias))
  {
    var after, names, was := RenamedHost(d, i, alias), HostNames(d.hosts), d.hosts[i].alias;
    assert HostNames(after.hosts) == names[i := alias];
    assert TargetNames(after.targets) == TargetNames(d.targets);
    assert GroupNames(after.groups) == GroupNames(d.groups);
    forall n | 0 <= n < |d.targets|
      ensures TargetOk(names[i := alias], after.targets[n])
      ensures |after.targets[n].subsystems| == |d.targets[n].subsystems|
      ensures forall j :: 0 <= j < |d.targets[n].subsystems| ==>
        Substituted(d.targets[n].subsystems[j].hosts, after.targets[n].subsystems[j].hosts, was, alias)
    {
      RenamedTargetOk(names, d.targets[n], was, alias, i);
    }
    forall n | 0 <= n < |d.groups|
      ensures GroupOk(names[i := alias], TargetNames(d.targets), after.groups[n])
      ensures after.groups[n].targets == d.groups[n].targets
      ensures Substituted(d.groups[n].hosts, after.groups[n].hosts, was, alias)
    {
      RenameMembers(names, d.groups[n].hosts, was, alias, i);
    }
  }

  lemma HostsGrow(d: Doc, h: HostObj)
    requires Inv(d) && h.alias !in HostNames(d.hosts)
    ensures Inv(d.(hosts := d.hosts + [h]))
  {
    assert HostNames(d.hosts + [h]) == HostNames(d.hosts) + [h.alias];
    var names := HostNames(d.hosts + [h]);
    forall n | 0 <= n < |d.targets|
      ensures TargetOk(names, d.targets[n])
    {
      assert forall j :: 0 <= j < |d.targets[n].subsystems| ==> SubOk(HostNames(d.hosts), d.targets[n].subsystems[j]);
    }
    forall n | 0 <= n < |d.groups|
      ensures GroupOk(names, TargetNames(d.targets), d.groups[n])
    {
      assert GroupOk(HostNames(d.hosts), TargetNames(d.targets), d.groups[n]);
    }
  }

  lemma NqnChanged(d: Doc, i: nat, nqn: Option<string>)
    requires Inv(d) && i < |d.hosts|
    ensures Inv(d.(hosts := d.hosts[i := d.hosts[i].(nqn := nqn)]))
  {
    assert HostNames(d.hosts[i := d.hosts[i].(nqn := nqn)]) == HostNames(d.hosts);
  }

  lemma UpdateHostKeeps(d: Doc, was: Option<string>, data: Body<HostData>)
    requires Inv(d)
    ensures Inv(StepUpdateHost(d, was, data).0)
  {
    var (after, code) := StepUpdateHost(d, was, data);
    if code.Ok? {
      var alias := if data.value.alias.Some? then data.value.alias.value else was.value;
      if was.None? {
        HostsGrow(d, HostObj(alias, data.value.nqn));
      } else {
        var i := FindHost(d, was.value);
        assert d.hosts[i].alias == HostNames(d.hosts)[i] == was.value;
        var e := if alias != was.value then RenamedHost(d, i, alias) else d;
        if alias != was.value {
          RenameHostCarries(d, i, alias);
        }
        NqnChanged(e, i, Or(data.value.nqn, e.hosts[i].nqn));
      }
    }
  }

  // Deleting a host.

  /** Where the subsystems that list the host form one run that starts at the index of the
      target, and each has the host at that very place of its list. */
  predicate Cleared(subs: seq<SubsysObj>, i: nat, v: string) {
    forall j :: 0 <= j < |subs| ==> ClearedAt(subs, i, j, v)
  }

  predicate ClearedAt(subs: seq<SubsysObj>, i: nat, j: nat, v: string)
    requires j < |subs|
  {
    v in subs[j].hosts ==> i <= j && IndexOf(subs[j].hosts, v) == i && AllList(subs, i, j, v)
  }

  predicate AllList(subs: seq<SubsysObj>, i: nat, j: nat, v: string)
    requires j < |subs|
  {
    forall n :: i <= n <= j ==> v in subs[n].hosts
  }

  /** Where the first look at target i finds a subsystem to remove. */
  predicate Loses(subs: seq<SubsysObj>, i: nat, v: string) {
    i < |subs| && v in subs[i].hosts && IndexOf(subs[i].hosts, v) < |subs|
  }

  predicate Unlisted(subs: seq<SubsysObj>, v: string) {
    forall j :: 0 <= j < |subs| ==> v !in subs[j].hosts
  }

  lemma {:induction false} VisitsStuck(subs: seq<SubsysObj>, i: nat, v: string, times: nat)
    requires !Loses(subs, i, v)
    ensures DelVisits(subs, i, v, times) == subs
    decreases times
  {
    if times > 0 {
      VisitsStuck(subs, i, v, times - 1);
    }
  }

  lemma AllListBack(subs: seq<SubsysObj>, i: nat, j: nat, v: string)
    requires i < j < |subs| && v in subs[i].hosts && AllList(Removed(subs, i), i, j - 1, v)
    ensures AllList(subs, i, j, v)
  {
    forall n | i <= n <= j
      ensures v in subs[n].hosts
    {
      assert i < n ==> subs[n] == Removed(subs, i)[n - 1];
    }
  }

  lemma ClearedBack(subs: seq<SubsysObj>, i: nat, j: nat, v: string)
    requires i < |subs| && v in subs[i].hosts && IndexOf(subs[i].hosts, v) == i && j < |subs|
    requires Cleared(Removed(subs, i), i, v)
    ensures ClearedAt(subs, i, j, v)
  {
    var now := Removed(subs, i);
    if j < i {
      assert ClearedAt(now, i, j, v);
      assert now[j] == subs[j];
    } else if i < j && v in subs[j].hosts {
      assert ClearedAt(now, i, j - 1, v);
      assert now[j - 1] == subs[j];
      AllListBack(subs, i, j, v);
    }
  }

  lemma RunShortened(subs: seq<SubsysObj>, i: nat, v: string)
    requires i < |subs| && v in subs[i].hosts && IndexOf(subs[i].hosts, v) == i
    ensures Cleared(Removed(subs, i), i, v) <==> Cleared(subs, i, v)
  {
    var now := Removed(subs, i);
    if Cleared(now, i, v) {
      forall j | 0 <= j < |subs|
        ensures ClearedAt(subs, i, j, v)
      {
        ClearedBack(subs, i, j, v);
      }
    }
    if Cleared(subs, i, v) {
      assert forall n :: i < n < |subs| ==> now[n - 1] == subs[n];
      forall j | 0 <= j < |now|
        ensures ClearedAt(now, i, j, v)
      {
        assert ClearedAt(subs, i, if j < i then j else j + 1, v);
      }
    }
  }

  lemma VisitCleared(subs: seq<SubsysObj>, i: nat, v: string)
    ensures Cleared(DelVisit(subs, i, v), i, v) <==> Cleared(subs, i, v)
  {
    if Loses(subs, i, v) {
      var k, now := IndexOf(subs[i].hosts, v), DelVisit(subs, i, v);
      if k == i {
        RunShortened(subs, i, v);
      } else {
        var there := if k < i then i - 1 else i;
        assert now[there] == subs[i];
        assert !ClearedAt(now, i, there, v) && !ClearedAt(subs, i, i, v);
      }
    }
  }

  lemma StuckCleared(subs: seq<SubsysObj>, i: nat, v: string)
    requires !Loses(subs, i, v)
    ensures Unlisted(subs, v) <==> Cleared(subs, i, v)
  {
    if Unlisted(subs, v) {
      assert forall j :: 0 <= j < |subs| ==> ClearedAt(subs, i, j, v);
    }
    if Cleared(subs, i, v) {
      if i < |subs| {
        assert ClearedAt(subs, i, i, v);
      }
      forall j | 0 <= j < |subs|
        ensures v !in subs[j].hosts
      {
        assert ClearedAt(subs, i, j, v);
      }
    }
  }

  lemma {:induction false} VisitsCleared(subs: seq<SubsysObj>, i: nat, v: string, times: nat)
    ensures Cleared(DelVisits(subs, i, v, times), i, v) <==> Cleared(subs, i, v)
    decreases times
  {
    if times > 0 {
      var next := DelVisit(subs, i, v);
      VisitCleared(subs, i, v);
      VisitsCleared(next, i, v, times - 1);
      assert DelVisits(subs, i, v, times) == DelVisits(next, i, v, times - 1);
    }
  }

  lemma {:induction false} VisitsEnd(subs: seq<SubsysObj>, i: nat, v: string, times: nat)
    requires times >= |subs|
    ensures !Loses(DelVisits(subs, i, v, times), i, v)
    decreases times
  {
    if Loses(subs, i, v) {
      var next := DelVisit(subs, i, v);
      assert |next| == |subs| - 1;
      VisitsEnd(next, i, v, times - 1);
      assert DelVisits(subs, i, v, times) == DelVisits(next, i, v, times - 1);
    } else {
      VisitsStuck(subs, i, v, times);
    }
  }

  /** After as many looks as there are subsystems, no subsystem lists the host if and only if
      the list had that shape. */
  lemma VisitsClear(subs: seq<SubsysObj>, i: nat, v: string)
    ensures Unlisted(DelVisits(subs, i, v, |subs|), v) <==> Cleared(subs, i, v)
  {
    VisitsEnd(subs, i, v, |subs|);
    VisitsCleared(subs, i, v, |subs|);
    StuckCleared(DelVisits(subs, i, v, |subs|), i, v);
  }

  lemma VisitLeaves(subs: seq<SubsysObj>, i: nat, v: string)
    ensures var now := DelVisit(subs, i, v);
      && |now| == (if Loses(subs, i, v) then |subs| - 1 else |subs|)
      && (forall s <- now :: s in subs)
      && (NoDup(SubNames(subs)) ==> NoDup(SubNames(now)))
  {
    if Loses(subs, i, v) {
      var k := IndexOf(subs[i].hosts, v);
      assert SubNames(DelVisit(subs, i, v)) == Removed(SubNames(subs), k);
      if NoDup(SubNames(subs)) {
        RemovedKeeps(SubNames(subs), k);
      }
    }
  }

  lemma {:induction false} VisitsWithin(subs: seq<SubsysObj>, i: nat, v: string, times: nat, s: SubsysObj)
    requires s in DelVisits(subs, i, v, times)
    ensures s in subs
    decreases times
  {
    if times > 0 {
      VisitsWithin(DelVisit(subs, i, v), i, v, times - 1, s);
      VisitLeaves(subs, i, v);
    }
  }

  lemma {:induction false} VisitsNames(subs: seq<SubsysObj>, i: nat, v: string, times: nat)
    requires NoDup(SubNames(subs))
    ensures NoDup(SubNames(DelVisits(subs, i, v, times)))
    decreases times
  {
    if times > 0 {
      VisitLeaves(subs, i, v);
      VisitsNames(DelVisit(subs, i, v), i, v, times - 1);
    }
  }

  lemma {:induction false} VisitsCount(subs: seq<SubsysObj>, i: nat, v: string, times: nat)
    ensures |DelVisits(subs, i, v, times)| <= |subs|
    ensures times > 0 && Loses(subs, i, v) ==> |DelVisits(subs, i, v, times)| < |subs|
    decreases times
  {
    if times > 0 {
      VisitLeaves(subs, i, v);
      VisitsCount(DelVisit(subs, i, v), i, v, times - 1);
    }
  }

  /** What the looks leave was there before, in the same order, and only where the first look
      removes nothing is nothing lost. */
  lemma VisitsLeave(subs: seq<SubsysObj>, i: nat, v: string, times: nat)
    ensures var now := DelVisits(subs, i, v, times);
      && |now| <= |subs| && (forall s <- now :: s in subs)
      && (NoDup(SubNames(subs)) ==> NoDup(SubNames(now)))
      && (times > 0 ==> (|now| == |subs| <==> !Loses(subs, i, v)))
  {
    forall s <- DelVisits(subs, i, v, times)
      ensures s in subs
    {
      VisitsWithin(subs, i, v, times, s);
    }
    if NoDup(SubNames(subs)) {
      VisitsNames(subs, i, v, times);
    }
    VisitsCount(subs, i, v, times);
    if !Loses(subs, i, v) {
      VisitsStuck(subs, i, v, times);
    }
  }

  lemma SubWithout(hosts: seq<string>, s: SubsysObj, left: seq<string>, v: string)
    requires SubOk(hosts, s)
    requires forall x :: x in left <==> x in hosts && x != v
    ensures SubOk(left, s.(hosts := Without(s.hosts, v)))
    ensures SubOk(left, s) <==> v !in s.hosts
  {
    WithoutKeeps(s.hosts, v);
    forall k | 0 <= k < |Without(s.hosts, v)|
      ensures Without(s.hosts, v)[k] in left
    {
      assert Without(s.hosts, v)[k] in s.hosts;
    }
  }

  lemma SomeIndex<T>(s: seq<T>, x: T) returns (n: nat)
    requires x in s
    ensures n < |s| && s[n] == x
  {
    n :| n < |s| && s[n] == x;
  }

  lemma DelInTargetKeeps(hosts: seq<string>, t: TargetObj, i: nat, left: seq<string>, v: string)
    requires TargetOk(hosts, t)
    requires forall x :: x in left <==> x in hosts && x != v
    ensures TargetOk(left, DelInTarget(t, i, v)) <==> Cleared(t.subsystems, i, v)
  {
    var now := DelInTarget(t, i, v).subsystems;
    VisitsLeave(t.subsystems, i, v, |t.subsystems|);
    VisitsClear(t.subsystems, i, v);
    forall j | 0 <= j < |now|
      ensures SubOk(left, now[j]) <==> v !in now[j].hosts
    {
      assert now[j] in t.subsystems;
      var n := SomeIndex(t.subsystems, now[j]);
      SubWithout(hosts, t.subsystems[n], left, v);
    }
  }

  lemma DelHostGroups(d: Doc, i: nat)
    requires Inv(d) && i < |d.hosts|
    ensures var left, v := HostNames(Removed(d.hosts, i)), d.hosts[i].alias;
      && NoDup(left) && (forall x :: x in left <==> x in HostNames(d.hosts) && x != v)
      && GroupsOk(left, TargetNames(d.targets), DelFromGroups(d.groups, HostMember, v))
      && GroupNames(DelFromGroups(d.groups, HostMember, v)) == GroupNames(d.groups)
  {
    var left, v := HostNames(Removed(d.hosts, i)), d.hosts[i].alias;
    assert left == Removed(HostNames(d.hosts), i);
    RemovedKeeps(HostNames(d.hosts), i);
    forall n | 0 <= n < |d.groups|
      ensures GroupOk(left, TargetNames(d.targets), DelFromGroup(d.groups[n], HostMember, v))
    {
      var g := d.groups[n];
      WithoutKeeps(g.hosts, v);
      forall k | 0 <= k < |Without(g.hosts, v)|
        ensures Without(g.hosts, v)[k] in left
      {
        assert Without(g.hosts, v)[k] in g.hosts;
      }
    }
  }

  /** Whether the deletion takes every reference to the host away: a condition on each target's
      subsystems and the index of the target. */
  predicate AllCleared(d: Doc, alias: string) {
    forall i :: 0 <= i < |d.targets| ==> Cleared(d.targets[i].subsystems, i, alias)
  }

  predicate NoneLost(d: Doc, alias: string) {
    forall i :: 0 <= i < |d.targets| ==> !Loses(d.targets[i].subsystems, i, alias)
  }

  /** Deleting a host keeps the references valid if and only if in each target the subsystems
      that list it are a run from the target's index on, each with the host at that place. */
  lemma DelHostKeeps(d: Doc, alias: string)
    requires Inv(d)
    ensures Inv(StepDelHost(d, alias).0) <==> alias !in HostNames(d.hosts) || AllCleared(d, alias)
  {
    var i := FindHost(d, alias);
    if i < |d.hosts| {
      var after := StepDelHost(d, alias).0;
      var left := HostNames(after.hosts);
      assert d.hosts[i].alias == HostNames(d.hosts)[i];
      DelHostGroups(d, i);
      assert TargetNames(after.targets) == TargetNames(d.targets);
      forall n | 0 <= n < |d.targets|
        ensures TargetOk(left, after.targets[n]) <==> Cleared(d.targets[n].subsystems, n, alias)
      {
        DelInTargetKeeps(HostNames(d.hosts), d.targets[n], n, left, alias);
      }
    }
  }

  /** It leaves every target as it was if and only if no first look finds a subsystem to remove. */
  lemma DelHostLoses(d: Doc, alias: string)
    requires alias in HostNames(d.hosts)
    ensures StepDelHost(d, alias).0.targets == d.targets <==> NoneLost(d, alias)
  {
    var now := StepDelHost(d, alias).0.targets;
    forall n | 0 <= n < |d.targets|
      ensures now[n] == d.targets[n] <==> !Loses(d.targets[n].subsystems, n, alias)
    {
      var subs := d.targets[n].subsystems;
      if Loses(subs, n, alias) {
        VisitsLeave(subs, n, alias, |subs|);
      } else {
        VisitsStuck(subs, n, alias, |subs|);
      }
    }
    if NoneLost(d, alias) {
      assert now == d.targets;
    }
  }

  /** So it does what a deletion is for, and loses no subsystem over it, if and only if there was
      nothing to do: no subsystem lists the host. */
  lemma DelHostMeetsIntent(d: Doc, alias: string)
    requires Inv(d) && alias in HostNames(d.hosts)
    ensures Inv(StepDelHost(d, alias).0) && StepDelHost(d, alias).0.targets == d.targets <==>
      forall i :: 0 <= i < |d.targets| ==> Unlisted(d.targets[i].subsystems, alias)
  {
    DelHostKeeps(d, alias);
    DelHostLoses(d, alias);
    forall i | 0 <= i < |d.targets|
      ensures Cleared(d.targets[i].subsystems, i, alias) && !Loses(d.targets[i].subsystems, i, alias) <==>
        Unlisted(d.targets[i].subsystems, alias)
    {
      var subs := d.targets[i].subsystems;
      if Cleared(subs, i, alias) && !Unlisted(subs, alias) {
        var j :| 0 <= j < |subs| && alias in subs[j].hosts;
        assert ClearedAt(subs, i, j, alias) && alias in subs[i].hosts;
        assert ClearedAt(subs, i, i, alias);
      } else if Unlisted(subs, alias) {
        StuckCleared(subs, i, alias);
      }
    }
  }

  /** A document with one target and the hosts "x" and "h". */
  function OneTarget(subs: seq<SubsysObj>): Doc {
    Doc([HostObj("x", Some("m")), HostObj("h", Some("n"))], [TargetObj("t", [], subs)], [])
  }

  lemma OneTargetOk(subs: seq<SubsysObj>)
    requires TargetOk(["x", "h"], TargetObj("t", [], subs))
    ensures Inv(OneTarget(subs))
  {
    assert HostNames(OneTarget(subs).hosts) == ["x", "h"];
    assert TargetNames(OneTarget(subs).targets) == ["t"];
  }

  lemma OneTargetDeleted(subs: seq<SubsysObj>)
    ensures StepDelHost(OneTarget(subs), "h").0 ==
      Doc([HostObj("x", Some("m"))], [TargetObj("t", [], DelVisits(subs, 0, "h", |subs|))], [])
  {
    var d := OneTarget(subs);
    var names := HostNames(d.hosts);
    assert names[0] == "x" && names[1] == "h";
    var i := FindHost(d, "h");
    assert i == 1;
    assert Removed(d.hosts, i) == [HostObj("x", Some("m"))];
    assert DelFromAllowedHosts(d.targets, "h") == [DelInTarget(d.targets[0], 0, "h")];
    assert DelFromGroups(d.groups, HostMember, "h") == [];
  }

  /** The host is second in its list, there is no second subsystem, and it stays listed. */
  lemma DelHostRemovesNothing()
    ensures var d := OneTarget([SubsysObj("a", Some(0), ["x", "h"], [])]);
      var after := StepDelHost(d, "h").0;
      Inv(d) && after.targets == d.targets && "h" !in HostNames(after.hosts) && !Inv(after)
  {
    var subs := [SubsysObj("a", Some(0), ["x", "h"], [])];
    assert SubOk(["x", "h"], subs[0]);
    OneTargetOk(subs);
    OneTargetDeleted(subs);
    var after := StepDelHost(OneTarget(subs), "h").0;
    assert IndexOf(["x", "h"], "h") == 1;
    VisitsStuck(subs, 0, "h", 1);
    assert HostNames(after.hosts) == ["x"];
    assert subs[0].hosts[1] == "h";
    assert !SubOk(["x"], after.targets[0].subsystems[0]);
    assert !TargetOk(["x"], after.targets[0]);
  }

  /** The host is first in the list of the first subsystem, which goes with its namespaces. */
  lemma DelHostRemovesSubsystem(nss: seq<NsObj>)
    requires NoDup(NsIds(nss))
    ensures var d := OneTarget([SubsysObj("a", Some(0), ["h"], nss)]);
      var after := StepDelHost(d, "h").0;
      Inv(d) && Inv(after) && after.targets[0].subsystems == []
  {
    var subs := [SubsysObj("a", Some(0), ["h"], nss)];
    assert SubOk(["x", "h"], subs[0]);
    OneTargetOk(subs);
    OneTargetDeleted(subs);
    assert DelVisit(subs, 0, "h") == [];
    VisitsStuck([], 0, "h", 0);
    var after := StepDelHost(OneTarget(subs), "h").0;
    assert DelVisits(subs, 0, "h", 1) == DelVisits(DelVisit(subs, 0, "h"), 0, "h", 0);
    assert TargetNames(after.targets) == ["t"];
  }

  /** The second subsystem of the first target keeps a host that no longer exists. */
  lemma DelHostLeavesReference()
    ensures var d := OneTarget([SubsysObj("a", Some(0), [], []), SubsysObj("b", Some(0), ["h"], [])]);
      var after := StepDelHost(d, "h").0;
      Inv(d) && after.targets[0].subsystems[1].hosts == ["h"] && "h" !in HostNames(after.hosts) && !Inv(after)
  {
    var subs := [SubsysObj("a", Some(0), [], []), SubsysObj("b", Some(0), ["h"], [])];
    assert SubNames(subs) == ["a", "b"];
    assert SubOk(["x", "h"], subs[0]) && SubOk(["x", "h"], subs[1]);
    OneTargetOk(subs);
    OneTargetDeleted(subs);
    VisitsStuck(subs, 0, "h", 2);
    var after := StepDelHost(OneTarget(subs), "h").0;
    assert HostNames(after.hosts) == ["x"];
    assert subs[1].hosts[0] == "h";
    assert !SubOk(["x"], after.targets[0].subsystems[1]);
    assert !TargetOk(["x"], after.targets[0]);
  }

  // Targets.

  lemma RenameTargetCarries(d: Doc, i: nat, alias: string)
    requires Inv(d) && i < |d.targets| && alias !in TargetNames(d.targets)
    ensures var was := d.targets[i].alias;
      var after := Doc(d.hosts, d.targets[i := d.targets[i].(alias := alias)],
        RenameInGroups(d.groups, TargetMember, was, alias));
      && Inv(after)
      && (forall n :: 0 <= n < |d.groups| ==>
           after.groups[n].hosts == d.groups[n].hosts &&
           Substituted(d.groups[n].targets, after.groups[n].targets, was, alias))
  {
    var names, was := TargetNames(d.targets), d.targets[i].alias;
    var now := d.targets[i := d.targets[i].(alias := alias)];
    var groups := RenameInGroups(d.groups, TargetMember, was, alias);
    assert TargetNames(now) == names[i := alias];
    assert GroupNames(groups) == GroupNames(d.groups);
    forall n | 0 <= n < |d.groups|
      ensures GroupOk(HostNames(d.hosts), names[i := alias], groups[n])
      ensures groups[n].hosts == d.groups[n].hosts
      ensures Substituted(d.groups[n].targets, groups[n].targets, was, alias)
    {
      RenameMembers(names, d.groups[n].targets, was, alias, i);
    }
  }

  lemma TargetsGrow(d: Doc, t: TargetObj)
    requires Inv(d) && t.alias !in TargetNames(d.targets) && TargetOk(HostNames(d.hosts), t)
    ensures Inv(d.(targets := d.targets + [t]))
  {
    assert TargetNames(d.targets + [t]) == TargetNames(d.targets) + [t.alias];
    forall n | 0 <= n < |d.groups|
      ensures GroupOk(HostNames(d.hosts), TargetNames(d.targets + [t]), d.groups[n])
    {
      assert GroupOk(HostNames(d.hosts), TargetNames(d.targets), d.groups[n]);
    }
  }

  lemma UpdateTargetKeeps(d: Doc, was: Option<string>, data: Body<Option<string>>)
    requires Inv(d)
    ensures Inv(StepUpdateTarget(d, was, data).0)
  {
    var (after, code) := StepUpdateTarget(d, was, data);
    if code.Ok? && after != d {
      var alias := data.value.value;
      if was.None? {
        TargetsGrow(d, TargetObj(alias, [], []));
      } else {
        var i := FindTarget(d, was.value);
        assert d.targets[i].alias == TargetNames(d.targets)[i];
        RenameTargetCarries(d, i, alias);
      }
    }
  }

  lemma DelTargetKeeps(d: Doc, alias: string)
    requires Inv(d)
    ensures Inv(StepDelTarget(d, alias).0)
    ensures forall n :: 0 <= n < |StepDelTarget(d, alias).0.groups| ==>
      alias in TargetNames(d.targets) ==> alias !in StepDelTarget(d, alias).0.groups[n].targets
  {
    var i := FindTarget(d, alias);
    if i < |d.targets| {
      var after := StepDelTarget(d, alias).0;
      var left := TargetNames(after.targets);
      assert left == Removed(TargetNames(d.targets), i);
      RemovedKeeps(TargetNames(d.targets), i);
      assert GroupNames(after.groups) == GroupNames(d.groups);
      forall n | 0 <= n < |d.groups|
        ensures GroupOk(HostNames(d.hosts), left, after.groups[n]) && alias !in after.groups[n].targets
      {
        var g := d.groups[n];
        WithoutKeeps(g.targets, alias);
        forall k | 0 <= k < |Without(g.targets, alias)|
          ensures Without(g.targets, alias)[k] in left
        {
          assert Without(g.targets, alias)[k] in g.targets;
        }
      }
    }
  }

  // Subsystems.

  lemma SetSubsysKeeps(d: Doc, alias: string, subnqn: Option<string>, data: Body<SubsysData>)
    requires Inv(d)
    ensures Inv(StepSetSubsys(d, alias, subnqn, data).0)
  {
    var (after, code) := StepSetSubsys(d, alias, subnqn, data);
    if code.Ok? && data.Json? {
      var i := FindTarget(d, alias);
      var t := d.targets[i];
      if subnqn.None? {
        var s := Updated(SubsysObj(data.value.nqn.value, None, [], []), data.value);
        assert SubNames(t.subsystems + [s]) == SubNames(t.subsystems) + [s.nqn];
        TargetChanged(d, i, t.(subsystems := t.subsystems + [s]));
      } else {
        var j := FindSub(t, subnqn.value);
        assert t.subsystems[j].nqn == SubNames(t.subsystems)[j];
        assert SubOk(HostNames(d.hosts), t.subsystems[j]);
        SubChanged(d, i, j, Updated(t.subsystems[j], data.value));
      }
    }
  }

  lemma DelSubsysKeeps(d: Doc, alias: string, nqn: string)
    requires Inv(d)
    ensures Inv(StepDelSubsys(d, alias, nqn).0)
  {
    match Locate(d, alias, nqn)
    case None =>
    case Some((i, j)) =>
      var t := d.targets[i];
      assert SubNames(Removed(t.subsystems, j)) == Removed(SubNames(t.subsystems), j);
      RemovedKeeps(SubNames(t.subsystems), j);
      TargetChanged(d, i, t.(subsystems := Removed(t.subsystems, j)));
  }

  lemma SetNsKeeps(d: Doc, alias: string, nqn: string, data: Body<NsData>)
    requires Inv(d)
    ensures Inv(StepSetNs(d, alias, nqn, data).0)
  {
    match Locate(d, alias, nqn)
    case None =>
    case Some((i, j)) =>
      if data.Json? && data.value.nsid.Some? {
        var s, nsid := d.targets[i].subsystems[j], ToInt32(data.value.nsid.value);
        var now := SetNamespace(s.namespaces, nsid, data.value);
        var k := IndexOf(NsIds(s.namespaces), nsid);
        assert SubOk(HostNames(d.hosts), s);
        if k < |s.namespaces| {
          assert NsIds(now) == NsIds(s.namespaces);
        } else {
          assert NsIds(now) == NsIds(s.namespaces) + [nsid];
        }
        SubChanged(d, i, j, s.(namespaces := now));
      }
  }

  lemma DelNsKeeps(d: Doc, alias: string, nqn: string, nsid: int)
    requires Inv(d)
    ensures Inv(StepDelNs(d, alias, nqn, nsid).0)
  {
    match Locate(d, alias, nqn)
    case None =>
    case Some((i, j)) =>
      var s := d.targets[i].subsystems[j];
      var k := IndexOf(NsIds(s.namespaces), nsid);
      assert SubOk(HostNames(d.hosts), s);
      if k < |s.namespaces| {
        assert NsIds(Removed(s.namespaces, k)) == Removed(NsIds(s.namespaces), k);
        SubChanged(d, i, j, s.(namespaces := Removed(s.namespaces, k)));
      }
  }

  lemma SetAclKeeps(d: Doc, alias: string, nqn: string, data: Body<Option<string>>)
    requires Inv(d)
    ensures Inv(StepSetAcl(d, alias, nqn, data).0)
  {
    match Locate(d, alias, nqn)
    case None =>
    case Some((i, j)) =>
      if StepSetAcl(d, alias, nqn, data).1.Ok? {
        var s := d.targets[i].subsystems[j];
        assert SubOk(HostNames(d.hosts), s);
        SubChanged(d, i, j, s.(hosts := s.hosts + [data.value.value]));
      }
  }

  lemma DelAclKeeps(d: Doc, alias: string, nqn: string, host: string)
    requires Inv(d)
    ensures Inv(StepDelAcl(d, alias, nqn, host).0)
  {
    match Locate(d, alias, nqn)
    case None =>
    case Some((i, j)) =>
      var s := d.targets[i].subsystems[j];
      assert SubOk(HostNames(d.hosts), s);
      WithoutKeeps(s.hosts, host);
      assert forall k :: 0 <= k < |Without(s.hosts, host)| ==> Without(s.hosts, host)[k] in s.hosts;
      SubChanged(d, i, j, s.(hosts := Without(s.hosts, host)));
  }

  // Ports.

  /** A port may be given the id of another one: the ids stay unique if and only if the body
      names no id, the one the port has, or one that no port has. */
  predicate PortIdFree(ports: seq<PortObj>, id: int, data: PortData) {
    data.portid.None? || data.portid.value == id || data.portid.value !in PortIds(ports)
  }

  lemma SetPortIdKeeps(ports: seq<PortObj>, id: int, data: PortData)
    requires NoDup(PortIds(ports))
    ensures NoDup(PortIds(SetPortId(ports, id, data))) <==> PortIdFree(ports, id, data)
  {
    var ids, now := PortIds(ports), PortIds(SetPortId(ports, id, data));
    var k := IndexOf(ids, id);
    var given := if data.portid.Some? then data.portid.value else id;
    assert now == if k < |ids| then ids[k := given] else ids + [given];
    if !PortIdFree(ports, id, data) {
      var n := IndexOf(ids, given);
      assert now[n] == now[k] && n != k;
    }
  }

  lemma SetPortKeeps(d: Doc, alias: string, id: Int32, data: Body<PortData>)
    requires Inv(d)
    ensures Inv(StepSetPort(d, alias, id, data).0) <==>
      !(data.Json? && IdOf(id, data.value) != 0 && FindTarget(d, alias) < |d.targets| &&
        !PortIdFree(d.targets[FindTarget(d, alias)].ports, IdOf(id, data.value), data.value))
  {
    var i := FindTarget(d, alias);
    if i < |d.targets| && data.Json? && IdOf(id, data.value) != 0 {
      var t := d.targets[i];
      var now := t.(ports := SetPortId(t.ports, IdOf(id, data.value), data.value));
      SetPortIdKeeps(t.ports, IdOf(id, data.value), data.value);
      if PortIdFree(t.ports, IdOf(id, data.value), data.value) {
        TargetChanged(d, i, now);
      } else {
        assert !TargetOk(HostNames(d.hosts), d.targets[i := now][i]);
      }
    }
  }

  lemma DelPortKeeps(d: Doc, alias: string, id: int)
    requires Inv(d)
    ensures Inv(StepDelPort(d, alias, id).0)
  {
    var i := FindTarget(d, alias);
    if i < |d.targets| {
      var t := d.targets[i];
      var k := IndexOf(PortIds(t.ports), id);
      if k < |t.ports| {
        assert PortIds(Removed(t.ports, k)) == Removed(PortIds(t.ports), k);
        RemovedKeeps(PortIds(t.ports), k);
        TargetChanged(d, i, t.(ports := Removed(t.ports, k)));
      }
    }
  }

  // Any request.

  /** What a caller can check before a request that could break the document. */
  predicate Safe(d: Doc, r: Request) {
    match r
    case UpdateGroup(was, data) => !(was == None && data == Json(Some("")) && "" in GroupNames(d.groups))
    case DelHost(alias) => alias !in HostNames(d.hosts) || AllCleared(d, alias)
    case SetPort(alias, id, data) =>
      !(data.Json? && IdOf(id, data.value) != 0 && FindTarget(d, alias) < |d.targets| &&
        !PortIdFree(d.targets[FindTarget(d, alias)].ports, IdOf(id, data.value), data.value))
    case _ => true
  }

  lemma AddKeeps(d: Doc, r: Request)
    requires Inv(d) && (r.AddGroup? || r.AddHost? || r.AddTarget?)
    ensures Inv(Step(d, r).0)
  {
    if Step(d, r).1.Ok? {
      match r
      case AddGroup(name) =>
        assert GroupNames(d.groups + [GroupObj(name, [], [])]) == GroupNames(d.groups) + [name];
      case AddHost(alias) => HostsGrow(d, HostObj(alias, None));
      case AddTarget(alias) => TargetsGrow(d, TargetObj(alias, [], []));
    }
  }

  lemma GroupRequestKeeps(d: Doc, r: Request)
    requires Inv(d) && (r.UpdateGroup? || r.DelGroup? || r.SetMember? || r.DelMember?)
    ensures Inv(Step(d, r).0) <==> Safe(d, r)
  {
    match r
    case UpdateGroup(was, data) => UpdateGroupKeeps(d, was, data);
    case DelGroup(name) => DelGroupKeeps(d, name);
    case SetMember(name, kind, data) => SetMemberKeeps(d, name, kind, data);
    case DelMember(name, kind, alias) => DelMemberKeeps(d, name, kind, alias);
  }

  lemma SubsysRequestKeeps(d: Doc, r: Request)
    requires Inv(d) && (r.SetSubsys? || r.DelSubsys? || r.SetNs? || r.DelNs? || r.SetAcl? || r.DelAcl?)
    ensures Inv(Step(d, r).0)
  {
    match r
    case SetSubsys(alias, subnqn, data) => SetSubsysKeeps(d, alias, subnqn, data);
    case DelSubsys(alias, nqn) => DelSubsysKeeps(d, alias, nqn);
    case SetNs(alias, nqn, data) => SetNsKeeps(d, alias, nqn, data);
    case DelNs(alias, nqn, nsid) => DelNsKeeps(d, alias, nqn, nsid);
    case SetAcl(alias, nqn, data) => SetAclKeeps(d, alias, nqn, data);
    case DelAcl(alias, nqn, host) => DelAclKeeps(d, alias, nqn, host);
  }

  /** From a document that satisfies the invariant, every request leads to one that does, if
      and only if it is none of the three that the caller has to look at. */
  lemma RequestKeeps(d: Doc, r: Request)
    requires Inv(d)
    ensures Inv(Step(d, r).0) <==> Safe(d, r)
  {
    match r
    case UpdateHost(was, data) => UpdateHostKeeps(d, was, data);
    case DelHost(alias) => DelHostKeeps(d, alias);
    case UpdateTarget(was, data) => UpdateTargetKeeps(d, was, data);
    case DelTarget(alias) => DelTargetKeeps(d, alias);
    case SetPort(alias, id, data) => SetPortKeeps(d, alias, id, data);
    case DelPort(alias, id) => DelPortKeeps(d, alias, id);
    case AddGroup(_) => AddKeeps(d, r);
    case AddHost(_) => AddKeeps(d, r);
    case AddTarget(_) => AddKeeps(d, r);
    case UpdateGroup(_, _) => GroupRequestKeeps(d, r);
    case DelGroup(_) => GroupRequestKeeps(d, r);
    case SetMember(_, _, _) => GroupRequestKeeps(d, r);
    case DelMember(_, _, _) => GroupRequestKeeps(d, r);
    case SetSubsys(_, _, _) => SubsysRequestKeeps(d, r);
    case DelSubsys(_, _) => SubsysRequestKeeps(d, r);
    case SetNs(_, _, _) => SubsysRequestKeeps(d, r);
    case DelNs(_, _, _) => SubsysRequestKeeps(d, r);
    case SetAcl(_, _, _) => SubsysRequestKeeps(d, r);
    case DelAcl(_, _, _) => SubsysRequestKeeps(d, r);
  }

  function Run(d: Doc, requests: seq<Request>): Doc {
    if requests == [] then d
    else Step(Run(d, requests[..|requests| - 1]), requests[|requests| - 1]).0
  }

  /** Every request of the run was safe when it came. */
  ghost predicate AllSafe(d: Doc, requests: seq<Request>) {
    requests == [] ||
    var n := |requests| - 1;
    AllSafe(d, requests[..n]) && Safe(Run(d, requests[..n]), requests[n])
  }

  /** Every document of the run satisfies the invariant. */
  ghost predicate AllHold(d: Doc, requests: seq<Request>) {
    Inv(Run(d, requests)) && (requests == [] || AllHold(d, requests[..|requests| - 1]))
  }

  lemma {:induction false} AllHoldIffSafe(d: Doc, requests: seq<Request>)
    requires Inv(d)
    ensures AllHold(d, requests) <==> AllSafe(d, requests)
  {
    if requests != [] {
      var n := |requests| - 1;
      AllHoldIffSafe(d, requests[..n]);
      if AllHold(d, requests[..n]) {
        RequestKeeps(Run(d, requests[..n]), requests[n]);
      }
    }
  }

  /** Over any run that starts from an empty document, every document on the way satisfies the
      invariant if and only if every request was safe. */
  lemma RunKeeps(requests: seq<Request>)
    ensures AllHold(Doc([], [], []), requests) <==> AllSafe(Doc([], [], []), requests)
  {
    AllHoldIffSafe(Doc([], [], []), requests);
  }
}
