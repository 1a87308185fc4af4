/** config_target and target_reconfig: the loops that push a whole target in either
    management mode. */
module ConfigTarget {
  import opened ConfigFs
  import opened DemTypes
  import opened Delivery
  import opened Push
  import InBand
  import Rest

  /** The sends since some point follow a list of operations and stop at the first failure. */
  ghost predicate InOrder(base: seq<Step>, steps: seq<Step>, ops: seq<Op>, ok: bool) {
    && base <= steps
    && Ops(steps[|base|..]) <= ops
    && (ok ==> |steps| == |base| + |ops|)
    && (ok <==> AllOk(steps[|base|..]))
  }

  lemma SentNext(base: seq<Step>, before: seq<Step>, after: seq<Step>, ops: seq<Op>, op: Op, ok: bool)
    requires InOrder(base, before, ops, true)
    requires exists copies :: after == before + [Step(op, copies, ok)]
    ensures InOrder(base, after, ops + [op], ok)
  {
    var copies :| after == before + [Step(op, copies, ok)];
    assert after[|base|..] == before[|base|..] + [Step(op, copies, ok)];
    assert Step(op, copies, ok) in after[|base|..];
  }

  lemma SentMore(base: seq<Step>, before: seq<Step>, after: seq<Step>, x: seq<Op>, y: seq<Op>, ok: bool)
    requires InOrder(base, before, x, true) && InOrder(before, after, y, ok)
    ensures InOrder(base, after, x + y, ok)
  {
    assert after[|base|..] == before[|base|..] + after[|before|..];
    OpsAppend(before[|base|..], after[|before|..]);
  }

  lemma StoppedEarly(base: seq<Step>, steps: seq<Step>, x: seq<Op>, y: seq<Op>)
    requires InOrder(base, steps, x, false) && x <= y
    ensures InOrder(base, steps, y, false)
  {
  }

  lemma {:induction false} HostOpsAppend(s: Subsystem, a: seq<Host>, b: seq<Host>)
    ensures HostOps(s, a + b) == HostOps(s, a) + HostOps(s, b)
    decreases |a|
  {
    if a == [] {
      assert a + b == b;
    } else {
      assert (a + b)[1..] == a[1..] + b;
      HostOpsAppend(s, a[1..], b);
    }
  }

  function HostPair(s: Subsystem, h: Host): seq<Op> {
    [CreateHost(h.nqn), LinkHost(s.nqn, h.nqn)]
  }

  lemma HostOpsSplit(s: Subsystem, i: nat)
    requires i < |s.hosts|
    ensures HostOps(s, s.hosts[..i + 1]) == HostOps(s, s.hosts[..i]) + HostPair(s, s.hosts[i])
    ensures HostOps(s, s.hosts[..i + 1]) <= HostOps(s, s.hosts)
  {
    assert s.hosts[..i + 1] == s.hosts[..i] + [s.hosts[i]];
    HostOpsAppend(s, s.hosts[..i], [s.hosts[i]]);
    assert s.hosts == s.hosts[..i + 1] + s.hosts[i + 1..];
    HostOpsAppend(s, s.hosts[..i + 1], s.hosts[i + 1..]);
  }

  lemma SentOne(before: seq<Step>, after: seq<Step>, op: Op, ok: bool)
    requires exists copies :: after == before + [Step(op, copies, ok)]
    ensures InOrder(before, after, [op], ok)
  {
    SentNext(before, before, after, [], op, ok);
    assert [] + [op] == [op];
  }

  /** A further stretch, which may have stopped early. */
  lemma Continue(base: seq<Step>, before: seq<Step>, after: seq<Step>, x: seq<Op>, y: seq<Op>,
                 all: seq<Op>, ok: bool)
    requires InOrder(base, before, x, true) && InOrder(before, after, y, ok) && x + y <= all
    ensures InOrder(base, after, x + y, ok)
    ensures !ok ==> InOrder(base, after, all, false)
  {
    SentMore(base, before, after, x, y, ok);
  }

  lemma ContinueNext(base: seq<Step>, before: seq<Step>, after: seq<Step>, ops: seq<Op>, i: nat, ok: bool)
    requires i < |ops| && InOrder(base, before, ops[..i], true) && InOrder(before, after, [ops[i]], ok)
    ensures InOrder(base, after, ops[..i + 1], ok)
    ensures !ok ==> InOrder(base, after, ops, false)
  {
    assert ops[..i + 1] == ops[..i] + [ops[i]];
    Continue(base, before, after, ops[..i], [ops[i]], ops, ok);
  }

  /** The host commands of config_target_inb. */
  method PushHostInb(s: Subsystem, h: Host, link: Link) returns (ok: bool)
    requires link.Valid()
    modifies link, link.nvmet
    ensures link.Valid() && InOrder(old(link.steps), link.steps, HostPair(s, h), ok)
  {
    ghost var a := link.steps;
    ok := link.SendInb(InBand.SetHostMsg(h));
    ghost var b := link.steps;
    SentOne(a, b, CreateHost(h.nqn), ok);
    if !ok {
      StoppedEarly(a, b, [CreateHost(h.nqn)], HostPair(s, h));
      return;
    }
    ok := link.SendInb(InBand.LinkHostMsg(s, h));
    SentNext(a, b, link.steps, [CreateHost(h.nqn)], LinkHost(s.nqn, h.nqn), ok);
    assert [CreateHost(h.nqn)] + [LinkHost(s.nqn, h.nqn)] == HostPair(s, h);
  }

  method PushHostsInb(s: Subsystem, link: Link) returns (ok: bool)
    requires link.Valid()
    modifies link, link.nvmet
    ensures link.Valid()
    ensures InOrder(old(link.steps), link.steps, HostOps(s, PushedHosts(s, InBandMgmt)), ok)
  {
    if !IsRestricted(s) {
      return true;
    }
    ghost var base := link.steps;
    for i := 0 to |s.hosts|
      invariant link.Valid() && InOrder(base, link.steps, HostOps(s, s.hosts[..i]), true)
    {
      ghost var a := link.steps;
      ok := PushHostInb(s, s.hosts[i], link);
      HostOpsSplit(s, i);
      Continue(base, a, link.steps, HostOps(s, s.hosts[..i]), HostPair(s, s.hosts[i]), HostOps(s, s.hosts), ok);
      if !ok {
        return;
      }
    }
    ok := true;
    assert s.hosts[..|s.hosts|] == s.hosts;
  }

  /** The namespace loop of config_target_inb. */
  method PushNamespacesInb(s: Subsystem, link: Link) returns (ok: bool)
    requires link.Valid()
    modifies link, link.nvmet
    ensures link.Valid()
    ensures (forall ns <- s.namespaces :: ns.devid != InBand.NVMF_NULLB_DEVID) ==>
      InOrder(old(link.steps), link.steps, NsOps(s), ok)
  {
    ghost var base, ops := link.steps, NsOps(s);
    ghost var exact := forall ns <- s.namespaces :: ns.devid != InBand.NVMF_NULLB_DEVID;
    for i := 0 to |s.namespaces|
      invariant link.Valid() && (exact ==> InOrder(base, link.steps, ops[..i], true))
    {
      var ns := s.namespaces[i];
      ghost var a := link.steps;
      ok := link.SendInb(InBand.SetNsMsg(s, ns));
      if exact {
        InBand.NsMsgExact(s, ns);
        SentOne(a, link.steps, NsOp(s, ns), ok);
        ContinueNext(base, a, link.steps, ops, i, ok);
      }
      if !ok {
        return;
      }
    }
    ok := true;
    assert ops[..|ops|] == ops;
  }

  function GatedLinkOps(t: Target, s: Subsystem): seq<Op> {
    if Reachable(s) then LinkOps(s, t.ports) else []
  }

  /** The port link loop of config_target_inb, behind its gate. */
  method PushLinksInb(t: Target, s: Subsystem, link: Link) returns (ok: bool)
    requires link.Valid()
    modifies link, link.nvmet
    ensures link.Valid()
    ensures Encodable(t, InBandMgmt) ==> InOrder(old(link.steps), link.steps, GatedLinkOps(t, s), ok)
  {
    if IsRestricted(s) && s.hosts == [] {
      return true;
    }
    ghost var base, ops := link.steps, LinkOps(s, t.ports);
    for i := 0 to |t.ports|
      invariant link.Valid() && (Encodable(t, InBandMgmt) ==> InOrder(base, link.steps, ops[..i], true))
    {
      ghost var a := link.steps;
      ok := link.SendInb(InBand.LinkPortMsg(s, t.ports[i]));
      if Encodable(t, InBandMgmt) {
        SentOne(a, link.steps, ops[i], ok);
        ContinueNext(base, a, link.steps, ops, i, ok);
      }
      if !ok {
        return;
      }
    }
    ok := true;
    assert ops[..|ops|] == ops;
  }

  /** The port loop of config_target_inb. */
  method PushPortsInb(t: Target, link: Link) returns (ok: bool)
    requires link.Valid()
    modifies link, link.nvmet
    ensures link.Valid()
    ensures Encodable(t, InBandMgmt) ==>
      InOrder(old(link.steps), link.steps, PortOps(t.ports, InBandMgmt), ok)
  {
    ghost var base, ops := link.steps, PortOps(t.ports, InBandMgmt);
    for i := 0 to |t.ports|
      invariant link.Valid() && (Encodable(t, InBandMgmt) ==> InOrder(base, link.steps, ops[..i], true))
    {
      ghost var a := link.steps;
      ok := link.SendInb(InBand.SetPortMsg(t.ports[i]));
      if Encodable(t, InBandMgmt) {
        InBand.PortMsgExact(t.ports[i]);
        SentOne(a, link.steps, ops[i], ok);
        ContinueNext(base, a, link.steps, ops, i, ok);
      }
      if !ok {
        return;
      }
    }
    ok := true;
    assert ops[..|ops|] == ops;
  }

  /** The hosts and namespaces of one subsystem. */
  method PushMembersInb(s: Subsystem, link: Link) returns (ok: bool)
    requires link.Valid()
    modifies link, link.nvmet
    ensures link.Valid()
    ensures (forall ns <- s.namespaces :: ns.devid != InBand.NVMF_NULLB_DEVID) ==>
      InOrder(old(link.steps), link.steps, MemberOps(s, InBandMgmt), ok)
  {
    ghost var a, hosts := link.steps, HostOps(s, PushedHosts(s, InBandMgmt));
    ok := PushHostsInb(s, link);
    ghost var b := link.steps;
    if !ok {
      StoppedEarly(a, b, hosts, MemberOps(s, InBandMgmt));
      return;
    }
    ok := PushNamespacesInb(s, link);
    if forall ns <- s.namespaces :: ns.devid != InBand.NVMF_NULLB_DEVID {
      SentMore(a, b, link.steps, hosts, NsOps(s), ok);
    }
  }

  /** One pass of the subsystem loop of config_target_inb. */
  method PushSubsysInb(t: Target, s: Subsystem, link: Link) returns (ok: bool)
    requires link.Valid() && s in t.subsystems
    modifies link, link.nvmet
    ensures link.Valid()
    ensures Encodable(t, InBandMgmt) ==>
      InOrder(old(link.steps), link.steps, SubsysOps(t, s, InBandMgmt), ok)
  {
    ghost var a, all := link.steps, SubsysOps(t, s, InBandMgmt);
    ghost var first, members := [SubsysOp(s, InBandMgmt)], MemberOps(s, InBandMgmt);
    ok := link.SendInb(InBand.SetSubsysMsg(s));
    ghost var b := link.steps;
    SentOne(a, b, SubsysOp(s, InBandMgmt), ok);
    if !ok {
      StoppedEarly(a, b, first, all);
      return;
    }
    ok := PushMembersInb(s, link);
    ghost var c := link.steps;
    if Encodable(t, InBandMgmt) {
      Continue(a, b, c, first, members, all, ok);
    }
    if !ok {
      return;
    }
    ok := PushLinksInb(t, s, link);
    if Encodable(t, InBandMgmt) {
      SentMore(a, c, link.steps, first + members, GatedLinkOps(t, s), ok);
    }
  }

  lemma {:induction false} AllSubsysOpsAppend(t: Target, a: seq<Subsystem>, b: seq<Subsystem>, mode: Mode)
    ensures AllSubsysOps(t, a + b, mode) == AllSubsysOps(t, a, mode) + AllSubsysOps(t, b, mode)
    decreases |a|
  {
    if a == [] {
      assert a + b == b;
    } else {
      assert (a + b)[1..] == a[1..] + b;
      AllSubsysOpsAppend(t, a[1..], b, mode);
    }
  }

  lemma SubsysOpsSplit(t: Target, mode: Mode, i: nat)
    requires i < |t.subsystems|
    ensures AllSubsysOps(t, t.subsystems[..i + 1], mode)
      == AllSubsysOps(t, t.subsystems[..i], mode) + SubsysOps(t, t.subsystems[i], mode)
    ensures AllSubsysOps(t, t.subsystems[..i + 1], mode) <= AllSubsysOps(t, t.subsystems, mode)
  {
    assert t.subsystems[..i + 1] == t.subsystems[..i] + [t.subsystems[i]];
    AllSubsysOpsAppend(t, t.subsystems[..i], [t.subsystems[i]], mode);
    assert AllSubsysOps(t, [t.subsystems[i]], mode) == SubsysOps(t, t.subsystems[i], mode);
    assert t.subsystems == t.subsystems[..i + 1] + t.subsystems[i + 1..];
    AllSubsysOpsAppend(t, t.subsystems[..i + 1], t.subsystems[i + 1..], mode);
  }

  method PushSubsystemsInb(t: Target, link: Link) returns (ok: bool)
    requires link.Valid()
    modifies link, link.nvmet
    ensures link.Valid()
    ensures Encodable(t, InBandMgmt) ==>
      InOrder(old(link.steps), link.steps, AllSubsysOps(t, t.subsystems, InBandMgmt), ok)
  {
    ghost var base, ops := link.steps, AllSubsysOps(t, t.subsystems, InBandMgmt);
    for i := 0 to |t.subsystems|
      invariant link.Valid()
      invariant Encodable(t, InBandMgmt) ==>
        InOrder(base, link.steps, AllSubsysOps(t, t.subsystems[..i], InBandMgmt), true)
    {
      ghost var a := link.steps;
      ok := PushSubsysInb(t, t.subsystems[i], link);
      if Encodable(t, InBandMgmt) {
        SubsysOpsSplit(t, InBandMgmt, i);
        Continue(base, a, link.steps, AllSubsysOps(t, t.subsystems[..i], InBandMgmt),
                 SubsysOps(t, t.subsystems[i], InBandMgmt), ops, ok);
      }
      if !ok {
        return;
      }
    }
    ok := true;
    assert t.subsystems[..|t.subsystems|] == t.subsystems;
  }

  /** The target can be pushed, and the endpoint holds at most part of it. */
  ghost predicate Configurable(t: Target, mode: Mode, tree: Tree) {
    UniqueIds(t) && Encodable(t, mode) && Toward(tree, t, mode)
  }

  /** A push between two states of the endpoint. */
  ghost predicate Progress(t: Target, mode: Mode, before: Tree, after: Tree, done: bool) {
    Configurable(t, mode, before) ==>
      && Toward(after, t, mode) && Below(before, after)
      && (done ==> after == Meaning(t, mode))
  }

  lemma InOrderProgress(t: Target, mode: Mode, origin: Tree, base: seq<Step>, steps: seq<Step>, ok: bool)
    requires Possible(origin, steps) && (Encodable(t, mode) ==> InOrder(base, steps, Script(t, mode), ok))
    ensures Progress(t, mode, After(origin, base), After(origin, steps), ok)
    ensures Configurable(t, mode, After(origin, base)) && Reliable(origin, steps) ==> ok
  {
    var tree := After(origin, base);
    if Configurable(t, mode, tree) {
      var more := steps[|base|..];
      assert steps == base + more;
      SplitSteps(origin, base, more);
      SentInOrder(Script(t, mode), more);
      StepsStayBelow(t, mode, tree, more);
      if ok {
        AllSentIsMeaning(t, mode, tree, more);
      } else if Reliable(origin, steps) {
        LosslessSucceeds(t, mode, tree, more);
      }
    }
  }

  method PushAllInb(t: Target, link: Link) returns (ok: bool)
    requires link.Valid()
    modifies link, link.nvmet
    ensures link.Valid()
    ensures Encodable(t, InBandMgmt) ==> InOrder(old(link.steps), link.steps, Script(t, InBandMgmt), ok)
  {
    ghost var a := link.steps;
    ghost var ports, rest := PortOps(t.ports, InBandMgmt), AllSubsysOps(t, t.subsystems, InBandMgmt);
    ok := PushPortsInb(t, link);
    ghost var b := link.steps;
    if !ok {
      if Encodable(t, InBandMgmt) {
        StoppedEarly(a, b, ports, ports + rest);
      }
      return;
    }
    ok := PushSubsystemsInb(t, link);
    if Encodable(t, InBandMgmt) {
      SentMore(a, b, link.steps, ports, rest, ok);
    }
  }

  /** Connects without saying so, so that the first message connects again, and stops at the
      first command that does not get through. Whatever is lost or repeated, the
      endpoint keeps to a sub-configuration of the target; success means all of it is there. */
  method ConfigTargetInb(t: Target, link: Link) returns (ok: bool)
    requires link.Valid()
    modifies link, link.nvmet
    ensures link.Valid()
    ensures Progress(t, InBandMgmt, old(link.nvmet.Value()), link.nvmet.Value(), ok)
    ensures link.lossless ==> Configurable(t, InBandMgmt, old(link.nvmet.Value())) ==> ok
  {
    if !link.connected {
      ok := link.Connect();
      if !ok {
        return;
      }
    }
    ghost var a := link.steps;
    ok := PushAllInb(t, link);
    InOrderProgress(t, InBandMgmt, link.origin, a, link.steps, ok);
  }
}
