/** The configuration document in memory, changed in place by the command functions of
    src/dem/json.c. Each is the step that the Document module gives for its request. */
module DocumentStore {
  import opened CTypes
  import opened Options
  import opened Document

  /** find_array, find_array_int and find_array_string, over the values of one tag. */
  method FindArray<T(==)>(values: seq<T>, v: T) returns (i: nat)
    ensures i == IndexOf(values, v)
  {
    i := 0;
    while i < |values| && values[i] != v
      invariant i <= |values| && IndexOf(values, v) == i + IndexOf(values[i..], v)
    {
      assert values[i..][1..] == values[i + 1..];
      i := i + 1;
    }
  }

  /** The inner loop of rename_in_allowed_hosts. */
  method RenameInSubs(given: seq<SubsysObj>, was: string, alias: string) returns (subs: seq<SubsysObj>)
    ensures subs == seq(|given|, j requires 0 <= j < |given| => RenameInSub(given[j], was, alias))
  {
    subs := given;
    for j := 0 to |subs|
      invariant |subs| == |given|
      invariant forall k :: 0 <= k < j ==> subs[k] == RenameInSub(given[k], was, alias)
      invariant forall k :: j <= k < |subs| ==> subs[k] == given[k]
    {
      var n := FindArray(subs[j].hosts, was);
      if n < |subs[j].hosts| {
        subs := subs[j := subs[j].(hosts := subs[j].hosts[n := alias])];
      }
    }
  }

  /** The inner loop of del_from_allowed_hosts, which runs to the number of subsystems there
      were, looks at subsystem i, not j, and removes from the array of subsystems. */
  method DelInSubs(given: seq<SubsysObj>, i: nat, alias: string) returns (subs: seq<SubsysObj>)
    ensures subs == DelVisits(given, i, alias, |given|)
  {
    subs := given;
    for j := 0 to |given|
      invariant DelVisits(subs, i, alias, |given| - j) == DelVisits(given, i, alias, |given|)
    {
      if i < |subs| {
        var idx := FindArray(subs[i].hosts, alias);
        if idx < |subs[i].hosts| && idx < |subs| {
          subs := Removed(subs, idx);
        }
      }
    }
  }

  class JsonDocument {
    var hosts: seq<HostObj>
    var targets: seq<TargetObj>
    var groups: seq<GroupObj>

    function Root(): Doc
      reads this
    {
      Doc(hosts, targets, groups)
    }

    // References in groups and allowed hosts.

    method RenameMembersInGroups(kind: Kind, member: string, alias: string)
      modifies `groups
      ensures groups == RenameInGroups(old(groups), kind, member, alias)
    {
      for i := 0 to |groups|
        invariant |groups| == |old(groups)|
        invariant forall k :: 0 <= k < i ==> groups[k] == RenameInGroup(old(groups)[k], kind, member, alias)
        invariant forall k :: i <= k < |groups| ==> groups[k] == old(groups)[k]
      {
        var j := FindArray(Members(groups[i], kind), member);
        if j < |Members(groups[i], kind)| {
          groups := groups[i := WithMembers(groups[i], kind, Members(groups[i], kind)[j := alias])];
        }
      }
    }

    method DelMembersFromGroups(kind: Kind, member: string)
      modifies `groups
      ensures groups == DelFromGroups(old(groups), kind, member)
    {
      for i := 0 to |groups|
        invariant |groups| == |old(groups)|
        invariant forall k :: 0 <= k < i ==> groups[k] == DelFromGroup(old(groups)[k], kind, member)
        invariant forall k :: i <= k < |groups| ==> groups[k] == old(groups)[k]
      {
        var j := FindArray(Members(groups[i], kind), member);
        if j < |Members(groups[i], kind)| {
          groups := groups[i := WithMembers(groups[i], kind, Removed(Members(groups[i], kind), j))];
        }
      }
    }

    method RenameAllowedHosts(was: string, alias: string)
      modifies `targets
      ensures targets == RenameInAllowedHosts(old(targets), was, alias)
    {
      for i := 0 to |targets|
        invariant |targets| == |old(targets)|
        invariant forall k :: 0 <= k < i ==> targets[k] == RenameInTarget(old(targets)[k], was, alias)
        invariant forall k :: i <= k < |targets| ==> targets[k] == old(targets)[k]
      {
        var subs := RenameInSubs(targets[i].subsystems, was, alias);
        targets := targets[i := targets[i].(subsystems := subs)];
      }
    }

    method DelAllowedHosts(alias: string)
      modifies `targets
      ensures targets == DelFromAllowedHosts(old(targets), alias)
    {
      for i := 0 to |targets|
        invariant |targets| == |old(targets)|
        invariant forall k :: 0 <= k < i ==> targets[k] == DelInTarget(old(targets)[k], k, alias)
        invariant forall k :: i <= k < |targets| ==> targets[k] == old(targets)[k]
      {
        var subs := DelInSubs(targets[i].subsystems, i, alias);
        targets := targets[i := targets[i].(subsystems := subs)];
      }
    }

    // Groups.

    method AddGroup(name: string) returns (code: Code)
      modifies this
      ensures (Root(), code) == Step(old(Root()), Request.AddGroup(name))
    {
      var i := FindArray(GroupNames(groups), name);
      if i < |groups| {
        return Exists;
      }
      groups := groups + [GroupObj(name, [], [])];
      return Ok;
    }

    method UpdateGroup(was: Option<string>, data: Body<Option<string>>) returns (code: Code)
      modifies this
      ensures (Root(), code) == StepUpdateGroup(old(Root()), was, data)
    {
      if data.Empty? {
        return Invalid;
      }
      var i := 0;
      if was.Some? {
        i := FindArray(GroupNames(groups), was.value);
        if i == |groups| {
          return NoEntry;
        }
      }
      if data.Malformed? || data.value.None? {
        return Invalid;
      }
      var name := data.value.value;
      if (was.None? && name != "") || (was.Some? && was.value != name) {
        var k := FindArray(GroupNames(groups), name);
        if k < |groups| {
          return Exists;
        }
      }
      if was.Some? {
        groups := groups[i := groups[i].(name := name)];
      } else {
        groups := groups + [GroupObj(name, [], [])];
      }
      return Ok;
    }

    method DelGroup(name: string) returns (code: Code)
      modifies this
      ensures (Root(), code) == Step(old(Root()), Request.DelGroup(name))
    {
      var i := FindArray(GroupNames(groups), name);
      if i == |groups| {
        return NoEntry;
      }
      groups := Removed(groups, i);
      return Ok;
    }

    method SetGroupMember(name: string, kind: Kind, data: Body<Option<string>>) returns (code: Code)
      modifies this
      ensures (Root(), code) == StepSetMember(old(Root()), name, kind, data)
    {
      var i := FindArray(GroupNames(groups), name);
      if i == |groups| {
        return NoEntry;
      }
      if !data.Json? || data.value.None? {
        return Invalid;
      }
      var alias := data.value.value;
      var names := if kind.HostMember? then HostNames(hosts) else TargetNames(targets);
      var k := FindArray(names, alias);
      if k == |names| {
        return NoEntry;
      }
      k := FindArray(Members(groups[i], kind), alias);
      if k == |Members(groups[i], kind)| {
        groups := groups[i := WithMembers(groups[i], kind, Members(groups[i], kind) + [alias])];
      }
      return Ok;
    }

    method DelGroupMember(name: string, kind: Kind, member: string) returns (code: Code)
      modifies this
      ensures (Root(), code) == StepDelMember(old(Root()), name, kind, member)
    {
      var i := FindArray(GroupNames(groups), name);
      if i == |groups| {
        return NoEntry;
      }
      var k := FindArray(Members(groups[i], kind), member);
      if k == |Members(groups[i], kind)| {
        return NoEntry;
      }
      groups := groups[i := WithMembers(groups[i], kind, Removed(Members(groups[i], kind), k))];
      return Ok;
    }

    // Hosts.

    method AddHost(alias: string) returns (code: Code)
      modifies this
      ensures (Root(), code) == Step(old(Root()), Request.AddHost(alias))
    {
      var i := FindArray(HostNames(hosts), alias);
      if i < |hosts| {
        return Exists;
      }
      hosts := hosts + [HostObj(alias, None)];
      return Ok;
    }

    method UpdateHost(was: Option<string>, data: Body<HostData>) returns (code: Code)
      modifies this
      ensures (Root(), code) == StepUpdateHost(old(Root()), was, data)
    {
      if data.Empty? {
        return Invalid;
      }
      var i := |hosts|;
      if was.Some? {
        i := FindArray(HostNames(hosts), was.value);
        if i == |hosts| {
          return NoEntry;
        }
        assert HostNames(hosts)[i] == hosts[i].alias;
      }
      if data.Malformed? {
        return Invalid;
      }
      if data.value.alias.Some? {
        var alias := data.value.alias.value;
        if (was.None? && alias != "") || (was.Some? && was.value != alias) {
          var k := FindArray(HostNames(hosts), alias);
          if k < |hosts| {
            return Exists;
          }
          if was.Some? {
            hosts := hosts[i := hosts[i].(alias := alias)];
            RenameAllowedHosts(was.value, alias);
            RenameMembersInGroups(HostMember, was.value, alias);
          } else {
            hosts := hosts + [HostObj(alias, None)];
          }
        }
      } else if was.None? {
        return Invalid;
      }
      if i == |hosts| {
        return Fault;
      }
      ghost var before := Root();
      if data.value.nqn.Some? {
        hosts := hosts[i := hosts[i].(nqn := data.value.nqn)];
      }
      assert hosts == before.hosts[i := before.hosts[i].(nqn := Or(data.value.nqn, before.hosts[i].nqn))];
      if was.None? {
        assert hosts == old(hosts) + [HostObj(data.value.alias.value, data.value.nqn)];
      }
      return Ok;
    }

    method DelHost(alias: string) returns (code: Code)
      modifies this
      ensures (Root(), code) == StepDelHost(old(Root()), alias)
    {
      var i := FindArray(HostNames(hosts), alias);
      if i == |hosts| {
        return NoEntry;
      }
      hosts := Removed(hosts, i);
      DelAllowedHosts(alias);
      DelMembersFromGroups(HostMember, alias);
      return Ok;
    }

    // Targets.

    method AddTarget(alias: string) returns (code: Code)
      modifies this
      ensures (Root(), code) == Step(old(Root()), Request.AddTarget(alias))
    {
      var i := FindArray(TargetNames(targets), alias);
      if i < |targets| {
        return Exists;
      }
      targets := targets + [TargetObj(alias, [], [])];
      return Ok;
    }

    method UpdateTarget(was: Option<string>, data: Body<Option<string>>) returns (code: Code)
      modifies this
      ensures (Root(), code) == StepUpdateTarget(old(Root()), was, data)
    {
      if data.Empty? {
        return Invalid;
      }
      var i := |targets|;
      if was.Some? {
        i := FindArray(TargetNames(targets), was.value);
        if i == |targets| {
          return NoEntry;
        }
      }
      if data.Malformed? {
        return Invalid;
      }
      if data.value.Some? {
        var alias := data.value.value;
        if (was.None? && alias != "") || (was.Some? && was.value != alias) {
          var k := FindArray(TargetNames(targets), alias);
          if k < |targets| {
            return Exists;
          }
          if was.Some? {
            targets := targets[i := targets[i].(alias := alias)];
            RenameMembersInGroups(TargetMember, was.value, alias);
          } else {
            targets := targets + [TargetObj(alias, [], [])];
          }
        }
      } else if was.None? {
        return Invalid;
      }
      if i == |targets| {
        return Fault;
      }
      return Ok;
    }

    /** Where a subsystem is, or the error. */
    method LocateSubsys(alias: string, nqn: string) returns (code: Code, i: nat, j: nat)
      ensures Locate(Root(), alias, nqn) == if code.Ok? then Some((i, j)) else None
      ensures code.Ok? || code.NoEntry?
    {
      j := 0;
      i := FindArray(TargetNames(targets), alias);
      if i == |targets| {
        return NoEntry, i, j;
      }
      j := FindArray(SubNames(targets[i].subsystems), nqn);
      code := if j == |targets[i].subsystems| then NoEntry else Ok;
    }

    method DelSubsys(alias: string, nqn: string) returns (code: Code)
      modifies `targets
      ensures (Root(), code) == StepDelSubsys(old(Root()), alias, nqn)
    {
      var i, j;
      code, i, j := LocateSubsys(alias, nqn);
      if code.Ok? {
        targets := targets[i := targets[i].(subsystems := Removed(targets[i].subsystems, j))];
      }
    }

    /** Deletes the subsystems one by one, each time the first one by its name. */
    method DelTarget(alias: string) returns (code: Code)
      modifies this
      ensures (Root(), code) == StepDelTarget(old(Root()), alias)
    {
      var i := FindArray(TargetNames(targets), alias);
      if i == |targets| {
        return NoEntry;
      }
      var n := |targets[i].subsystems|;
      for k := 0 to n
        invariant hosts == old(hosts) && groups == old(groups) && |targets| == |old(targets)|
        invariant TargetNames(targets) == TargetNames(old(targets))
        invariant targets[..i] == old(targets)[..i] && targets[i + 1..] == old(targets)[i + 1..]
        invariant |targets[i].subsystems| == n - k
      {
        assert SubNames(targets[i].subsystems)[0] == targets[i].subsystems[0].nqn;
        var _ := DelSubsys(alias, targets[i].subsystems[0].nqn);
      }
      targets := Removed(targets, i);
      DelMembersFromGroups(TargetMember, alias);
      return Ok;
    }

    // Subsystems and what they contain.

    method SetSubsys(alias: string, subnqn: Option<string>, data: Body<SubsysData>) returns (code: Code)
      modifies this
      ensures (Root(), code) == StepSetSubsys(old(Root()), alias, subnqn, data)
    {
      var i := FindArray(TargetNames(targets), alias);
      if i == |targets| {
        return NoEntry;
      }
      var t, j := targets[i], 0;
      if subnqn.Some? {
        j := FindArray(SubNames(t.subsystems), subnqn.value);
        if j == |t.subsystems| {
          return NoEntry;
        }
        if data.Empty? {
          return Ok;
        }
      } else if data.Empty? {
        return Invalid;
      }
      if data.Malformed? {
        return Invalid;
      }
      if data.value.nqn.Some? {
        var k := FindArray(SubNames(t.subsystems), data.value.nqn.value);
        if k < |t.subsystems| && (subnqn.None? || subnqn != data.value.nqn) {
          return Exists;
        }
      }
      var s;
      if subnqn.None? {
        if data.value.nqn.None? {
          return Invalid;
        }
        s := SubsysObj(data.value.nqn.value, None, [], []);
      } else {
        s := t.subsystems[j];
        if data.value.nqn.Some? {
          s := s.(nqn := data.value.nqn.value);
        }
      }
      var access: Int32 := UNDEFINED_ACCESS;
      if data.value.allowAny.Some? {
        s := s.(allowAny := data.value.allowAny);
        access := ToInt32(data.value.allowAny.value);
      }
      if access != 0 {
        s := s.(hosts := []);
      }
      var subs := if subnqn.None? then t.subsystems + [s] else t.subsystems[j := s];
      targets := targets[i := t.(subsystems := subs)];
      return Ok;
    }

    method UpdateSub(i: nat, j: nat, s: SubsysObj)
      requires i < |targets| && j < |targets[i].subsystems|
      modifies `targets
      ensures Root() == WithSub(old(Root()), i, j, s)
    {
      targets := targets[i := targets[i].(subsystems := targets[i].subsystems[j := s])];
    }

    method SetNs(alias: string, nqn: string, data: Body<NsData>) returns (code: Code)
      modifies this
      ensures (Root(), code) == StepSetNs(old(Root()), alias, nqn, data)
    {
      var i, j;
      code, i, j := LocateSubsys(alias, nqn);
      if code.NoEntry? {
        return;
      }
      if !data.Json? || data.value.nsid.None? {
        return Invalid;
      }
      var s, nsid := targets[i].subsystems[j], ToInt32(data.value.nsid.value);
      var nss := s.namespaces;
      var k := FindArray(NsIds(nss), nsid);
      if k == |nss| {
        nss := nss + [NsObj(nsid, None, None)];
      }
      assert nss[k].nsid == nsid by {
        assert k < |s.namespaces| ==> NsIds(s.namespaces)[k] == s.namespaces[k].nsid;
      }
      if data.value.devid.Some? {
        nss := nss[k := nss[k].(devid := data.value.devid)];
      }
      if data.value.devns.Some? {
        nss := nss[k := nss[k].(devns := data.value.devns)];
      }
      assert nss == SetNamespace(s.namespaces, nsid, data.value);
      UpdateSub(i, j, s.(namespaces := nss));
    }

    method DelNs(alias: string, nqn: string, nsid: Int32) returns (code: Code)
      modifies this
      ensures (Root(), code) == StepDelNs(old(Root()), alias, nqn, nsid)
    {
      var i, j;
      code, i, j := LocateSubsys(alias, nqn);
      if code.NoEntry? {
        return;
      }
      var s := targets[i].subsystems[j];
      var k := FindArray(NsIds(s.namespaces), nsid);
      if k == |s.namespaces| {
        return NoEntry;
      }
      UpdateSub(i, j, s.(namespaces := Removed(s.namespaces, k)));
    }

    method SetAcl(alias: string, nqn: string, data: Body<Option<string>>) returns (code: Code)
      modifies this
      ensures (Root(), code) == StepSetAcl(old(Root()), alias, nqn, data)
    {
      var i, j;
      code, i, j := LocateSubsys(alias, nqn);
      if code.NoEntry? {
        return;
      }
      if !data.Json? || data.value.None? {
        return Invalid;
      }
      var s, host := targets[i].subsystems[j], data.value.value;
      var k := FindArray(HostNames(hosts), host);
      if k == |hosts| {
        return NoEntry;
      }
      var n := FindArray(s.hosts, host);
      if n < |s.hosts| {
        return Exists;
      }
      if hosts[k].nqn.None? {
        return Invalid;
      }
      UpdateSub(i, j, s.(hosts := s.hosts + [host]));
    }

    method DelAcl(alias: string, nqn: string, host: string) returns (code: Code)
      modifies `targets
      ensures (Root(), code) == StepDelAcl(old(Root()), alias, nqn, host)
    {
      var i, j;
      code, i, j := LocateSubsys(alias, nqn);
      if code.NoEntry? {
        return;
      }
      var s := targets[i].subsystems[j];
      var k := FindArray(s.hosts, host);
      if k == |s.hosts| {
        return NoEntry;
      }
      UpdateSub(i, j, s.(hosts := Removed(s.hosts, k)));
    }

    // Ports.

    method SetPort(alias: string, id: Int32, data: Body<PortData>) returns (code: Code)
      modifies this
      ensures (Root(), code) == StepSetPort(old(Root()), alias, id, data)
    {
      var i := FindArray(TargetNames(targets), alias);
      if i == |targets| {
        return NoEntry;
      }
      if !data.Json? {
        return Invalid;
      }
      var n := id;
      if n == 0 {
        n := if data.value.portid.Some? then ToInt32(data.value.portid.value) else 0;
        if n == 0 {
          return Invalid;
        }
      }
      var ports := targets[i].ports;
      var k := FindArray(PortIds(ports), n);
      if k == |ports| {
        ports := ports + [PortObj(n, None)];
      }
      assert ports[k].portid == n by {
        assert k < |targets[i].ports| ==> PortIds(targets[i].ports)[k] == targets[i].ports[k].portid;
      }
      if data.value.portid.Some? {
        ports := ports[k := ports[k].(portid := data.value.portid.value)];
      }
      if data.value.address.Some? {
        ports := ports[k := ports[k].(address := data.value.address)];
      }
      assert ports == SetPortId(targets[i].ports, n, data.value);
      targets := targets[i := targets[i].(ports := ports)];
      return Ok;
    }

    method DelPort(alias: string, id: Int32) returns (code: Code)
      modifies this
      ensures (Root(), code) == StepDelPort(old(Root()), alias, id)
    {
      var i := FindArray(TargetNames(targets), alias);
      if i == |targets| {
        return NoEntry;
      }
      var k := FindArray(PortIds(targets[i].ports), id);
      if k == |targets[i].ports| {
        return NoEntry;
      }
      targets := targets[i := targets[i].(ports := Removed(targets[i].ports, k))];
      return Ok;
    }
  }
}
