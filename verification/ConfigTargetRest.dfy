/** config_target_oob and target_reconfig. Posts of namespaces, hosts and links that fail are
    passed over, so success of the whole does not mean that every part got through. */
module ConfigTargetRest {
  import opened ConfigFs
  import opened DemTypes
  import opened Delivery
  import opened Push
  import opened ConfigTarget
  import InBand
  import Rest

  /** Steps up to and including the first failure. */
  ghost function Leading(steps: seq<Step>): (r: seq<Step>)
    ensures r <= steps && (AllOk(r) ==> r == steps)
  {
    if steps == [] then []
    else if steps[0].ok then [steps[0]] + Leading(steps[1..])
    else assert !AllOk([steps[0]]) by { assert steps[0] in [steps[0]]; } [steps[0]]
  }

  /** Sends of operations from a list, in its order up to the first failure; without failure
      they are the whole list. */
  ghost predicate Tried(base: seq<Step>, steps: seq<Step>, ops: seq<Op>) {
    && base <= steps
    && (forall s <- steps[|base|..] :: s.op in ops)
    && Ops(Leading(steps[|base|..])) <= ops
    && (AllOk(steps[|base|..]) ==> |steps| == |base| + |ops|)
  }

  lemma AllOkCons(a: seq<Step>)
    requires a != []
    ensures AllOk(a) <==> a[0].ok && AllOk(a[1..])
  {
    assert a == [a[0]] + a[1..];
    OpsAppend([a[0]], a[1..]);
    assert a[0] in [a[0]];
  }

  lemma LeadingCons(s: Step, rest: seq<Step>)
    ensures Leading([s] + rest) == if s.ok then [s] + Leading(rest) else [s]
  {
    assert ([s] + rest)[1..] == rest;
  }

  lemma {:induction false} LeadingAppend(a: seq<Step>, b: seq<Step>)
    ensures Leading(a + b) == if AllOk(a) then a + Leading(b) else Leading(a)
    decreases |a|
  {
    if a == [] {
      assert a + b == b;
    } else {
      var rest := a[1..];
      assert (a + b)[1..] == rest + b;
      LeadingAppend(rest, b);
      AllOkCons(a);
      LeadingCons(a[0], rest + b);
      LeadingCons(a[0], rest);
      assert a + b == [a[0]] + (rest + b) && a == [a[0]] + rest;
      if AllOk(a) {
        assert [a[0]] + (rest + Leading(b)) == a + Leading(b);
      }
    }
  }

  lemma TriedOne(before: seq<Step>, after: seq<Step>, op: Op, ok: bool)
    requires exists copies :: after == before + [Step(op, copies, ok)]
    ensures Tried(before, after, [op])
    ensures ok <==> AllOk(after[|before|..])
  {
    var copies :| after == before + [Step(op, copies, ok)];
    var s := Step(op, copies, ok);
    assert after[|before|..] == [s] && s in [s];
    assert Leading([s]) == [s] by {
      assert Leading([s][1..]) == [];
    }
  }

  lemma LeadingAll(a: seq<Step>)
    requires AllOk(a)
    ensures Leading(a) == a
  {
    LeadingAppend(a, []);
    assert a + [] == a;
  }

  /** The steps of two parts, one after the other. */
  lemma TriedBoth(a: seq<Step>, b: seq<Step>, x: seq<Op>, y: seq<Op>)
    requires Ops(Leading(a)) <= x && (AllOk(a) ==> |a| == |x|) && Ops(Leading(b)) <= y
    ensures Ops(Leading(a + b)) <= x + y
  {
    LeadingAppend(a, b);
    if AllOk(a) {
      LeadingAll(a);
      OpsAppend(a, Leading(b));
      assert Ops(a) == x;
    }
  }

  lemma TriedMore(base: seq<Step>, mid: seq<Step>, after: seq<Step>, x: seq<Op>, y: seq<Op>)
    requires Tried(base, mid, x) && Tried(mid, after, y)
    ensures Tried(base, after, x + y)
  {
    var a, b := mid[|base|..], after[|mid|..];
    assert after[|base|..] == a + b;
    TriedBoth(a, b, x, y);
    OpsAppend(a, b);
  }

  lemma TriedNext(base: seq<Step>, mid: seq<Step>, after: seq<Step>, ops: seq<Op>, i: nat)
    requires i < |ops| && Tried(base, mid, ops[..i]) && Tried(mid, after, [ops[i]])
    ensures Tried(base, after, ops[..i + 1])
  {
    TriedMore(base, mid, after, ops[..i], [ops[i]]);
    assert ops[..i + 1] == ops[..i] + [ops[i]];
  }

  lemma TriedSkip(base: seq<Step>, steps: seq<Step>, x: seq<Op>, y: seq<Op>)
    requires Tried(base, steps, x) && !AllOk(steps[|base|..]) && x <= y
    ensures Tried(base, steps, y)
  {
  }

  lemma TriedNothing(steps: seq<Step>)
    ensures Tried(steps, steps, [])
  {
    assert steps[|steps|..] == [];
  }

  /** send_update_subsys_oob with a namespace. */
  method PostNs(s: Subsystem, ns: Ns, link: Link) returns (ok: bool)
    requires link.Valid()
    modifies link, link.nvmet
    ensures link.Valid()
    ensures Rest.Sendable(s) ==> Tried(old(link.steps), link.steps, [NsOp(s, ns)])
  {
    Rest.NsReqExact(s, ns);
    ok := link.SendOob(Rest.SetNsReq(s, ns));
    if Rest.Sendable(s) {
      TriedOne(old(link.steps), link.steps, NsOp(s, ns), ok);
    }
  }

  /** send_link_portid_oob */
  method PostLink(s: Subsystem, p: PortId, link: Link) returns (ok: bool)
    requires link.Valid()
    modifies link, link.nvmet
    ensures link.Valid()
    ensures Rest.Sendable(s) ==> Tried(old(link.steps), link.steps, [LinkPort(s.nqn, p.portid)])
  {
    Rest.LinkPortReqExact(s, p);
    ok := link.SendOob(Rest.LinkPortReq(s, p));
    if Rest.Sendable(s) {
      TriedOne(old(link.steps), link.steps, LinkPort(s.nqn, p.portid), ok);
    }
  }

  method PushNamespacesOob(s: Subsystem, link: Link)
    requires link.Valid()
    modifies link, link.nvmet
    ensures link.Valid()
    ensures Rest.Sendable(s) ==> Tried(old(link.steps), link.steps, NsOps(s))
  {
    ghost var base, ops := link.steps, NsOps(s);
    TriedNothing(base);
    for i := 0 to |s.namespaces|
      invariant link.Valid() && (Rest.Sendable(s) ==> Tried(base, link.steps, ops[..i]))
    {
      var ns := s.namespaces[i];
      ghost var a := link.steps;
      var _ := PostNs(s, ns, link);
      if Rest.Sendable(s) {
        TriedNext(base, a, link.steps, ops, i);
      }
    }
    assert ops[..|ops|] == ops;
  }

  method PushHostOob(s: Subsystem, h: Host, link: Link)
    requires link.Valid() && h in s.hosts
    modifies link, link.nvmet
    ensures link.Valid()
    ensures Rest.Sendable(s) ==> Tried(old(link.steps), link.steps, HostPair(s, h))
  {
    ghost var a, create, allow := link.steps, CreateHost(h.nqn), LinkHost(s.nqn, h.nqn);
    Rest.HostReqExact(h);
    Rest.LinkHostReqExact(s, h);
    var ok := link.SendOob(Rest.SetHostReq(h));
    ghost var b := link.steps;
    if Rest.Sendable(s) {
      TriedOne(a, b, create, ok);
      if !ok {
        TriedSkip(a, b, [create], HostPair(s, h));
      }
    }
    if !ok {
      return;
    }
    ok := link.SendOob(Rest.LinkHostReq(s, h));
    if Rest.Sendable(s) {
      TriedOne(b, link.steps, allow, ok);
      TriedMore(a, b, link.steps, [create], [allow]);
      assert [create] + [allow] == HostPair(s, h);
    }
  }

  method PushHostsOob(s: Subsystem, link: Link)
    requires link.Valid()
    modifies link, link.nvmet
    ensures link.Valid()
    ensures Rest.Sendable(s) ==> Tried(old(link.steps), link.steps, HostOps(s, s.hosts))
  {
    ghost var base := link.steps;
    TriedNothing(base);
    for i := 0 to |s.hosts|
      invariant link.Valid() && (Rest.Sendable(s) ==> Tried(base, link.steps, HostOps(s, s.hosts[..i])))
    {
      ghost var a := link.steps;
      PushHostOob(s, s.hosts[i], link);
      if Rest.Sendable(s) {
        HostOpsSplit(s, i);
        TriedMore(base, a, link.steps, HostOps(s, s.hosts[..i]), HostPair(s, s.hosts[i]));
      }
    }
    assert s.hosts[..|s.hosts|] == s.hosts;
  }

  method PushLinksOob(t: Target, s: Subsystem, link: Link)
    requires link.Valid()
    modifies link, link.nvmet
    ensures link.Valid()
    ensures Rest.Sendable(s) ==> Tried(old(link.steps), link.steps, GatedLinkOps(t, s))
  {
    ghost var base, ops := link.steps, LinkOps(s, t.ports);
    TriedNothing(base);
    if IsRestricted(s) && s.hosts == [] {
      return;
    }
    for i := 0 to |t.ports|
      invariant link.Valid() && (Rest.Sendable(s) ==> Tried(base, link.steps, ops[..i]))
    {
      ghost var a := link.steps;
      var _ := PostLink(s, t.ports[i], link);
      if Rest.Sendable(s) {
        TriedNext(base, a, link.steps, ops, i);
      }
    }
    assert ops[..|ops|] == ops;
  }

  /** config_subsys_oob gives up only when the subsystem itself cannot be set. */
  method ConfigSubsysOob(t: Target, s: Subsystem, link: Link) returns (ok: bool)
    requires link.Valid()
    modifies link, link.nvmet
    ensures link.Valid()
    ensures Rest.Sendable(s) ==>
      && Tried(old(link.steps), link.steps, SubsysOps(t, s, OutOfBandMgmt))
      && (!ok ==> !AllOk(link.steps[|old(link.steps)|..]))
  {
    ghost var a, first := link.steps, [SubsysOp(s, OutOfBandMgmt)];
    Rest.SubsysReqExact(s);
    ok := link.SendOob(Rest.SetSubsysReq(s));
    ghost var b := link.steps;
    if Rest.Sendable(s) {
      TriedOne(a, b, SubsysOp(s, OutOfBandMgmt), ok);
      if !ok {
        TriedSkip(a, b, first, SubsysOps(t, s, OutOfBandMgmt));
      }
    }
    if !ok {
      return;
    }
    PushNamespacesOob(s, link);
    ghost var c := link.steps;
    PushHostsOob(s, link);
    ghost var d := link.steps;
    PushLinksOob(t, s, link);
    if Rest.Sendable(s) {
      TriedMore(b, c, d, NsOps(s), HostOps(s, s.hosts));
      TriedMore(a, b, d, first, MemberOps(s, OutOfBandMgmt));
      TriedMore(a, d, link.steps, first + MemberOps(s, OutOfBandMgmt), GatedLinkOps(t, s));
    }
  }

  method PushPortsOob(t: Target, link: Link) returns (ok: bool)
    requires link.Valid()
    modifies link, link.nvmet
    ensures link.Valid()
    ensures Encodable(t, OutOfBandMgmt) ==>
      && Tried(old(link.steps), link.steps, PortOps(t.ports, OutOfBandMgmt))
      && (!ok ==> !AllOk(link.steps[|old(link.steps)|..]))
  {
    ghost var base, ops := link.steps, PortOps(t.ports, OutOfBandMgmt);
    TriedNothing(base);
    for i := 0 to |t.ports|
      invariant link.Valid() && (Encodable(t, OutOfBandMgmt) ==> Tried(base, link.steps, ops[..i]))
    {
      ghost var a := link.steps;
      ok := link.SendOob(Rest.SetPortReq(t.ports[i]));
      if Encodable(t, OutOfBandMgmt) {
        Rest.PortReqExact(t.ports[i]);
        TriedOne(a, link.steps, ops[i], ok);
        TriedNext(base, a, link.steps, ops, i);
        FailureStays(base, a, link.steps);
      }
      if !ok {
        if Encodable(t, OutOfBandMgmt) {
          TriedSkip(base, link.steps, ops[..i + 1], ops);
        }
        return;
      }
    }
    ok := true;
    assert ops[..|ops|] == ops;
  }

  lemma FailureStays(base: seq<Step>, mid: seq<Step>, after: seq<Step>)
    requires base <= mid <= after
    ensures AllOk(after[|base|..]) ==> AllOk(after[|mid|..])
  {
    assert after[|base|..] == after[|base|..|mid|] + after[|mid|..];
    OpsAppend(after[|base|..|mid|], after[|mid|..]);
  }

  lemma SubsystemTried(t: Target, base: seq<Step>, mid: seq<Step>, after: seq<Step>, i: nat)
    requires i < |t.subsystems|
    requires Tried(base, mid, AllSubsysOps(t, t.subsystems[..i], OutOfBandMgmt))
    requires Tried(mid, after, SubsysOps(t, t.subsystems[i], OutOfBandMgmt))
    ensures Tried(base, after, AllSubsysOps(t, t.subsystems[..i + 1], OutOfBandMgmt))
    ensures AllSubsysOps(t, t.subsystems[..i + 1], OutOfBandMgmt) <= AllSubsysOps(t, t.subsystems, OutOfBandMgmt)
    ensures AllOk(after[|base|..]) ==> AllOk(after[|mid|..])
  {
    SubsysOpsSplit(t, OutOfBandMgmt, i);
    TriedMore(base, mid, after, AllSubsysOps(t, t.subsystems[..i], OutOfBandMgmt),
              SubsysOps(t, t.subsystems[i], OutOfBandMgmt));
    FailureStays(base, mid, after);
  }

  /** One turn of the loop over subsystems. */
  method PushSubsystemOob(t: Target, i: nat, link: Link, ghost base: seq<Step>) returns (ok: bool)
    requires link.Valid() && i < |t.subsystems|
    requires Encodable(t, OutOfBandMgmt) ==>
      Tried(base, link.steps, AllSubsysOps(t, t.subsystems[..i], OutOfBandMgmt))
    modifies link, link.nvmet
    ensures link.Valid()
    ensures Encodable(t, OutOfBandMgmt) ==>
      if ok then Tried(base, link.steps, AllSubsysOps(t, t.subsystems[..i + 1], OutOfBandMgmt))
      else Tried(base, link.steps, AllSubsysOps(t, t.subsystems, OutOfBandMgmt)) && !AllOk(link.steps[|base|..])
  {
    ghost var a := link.steps;
    ok := ConfigSubsysOob(t, t.subsystems[i], link);
    if Encodable(t, OutOfBandMgmt) {
      SubsystemTried(t, base, a, link.steps, i);
      if !ok {
        TriedSkip(base, link.steps, AllSubsysOps(t, t.subsystems[..i + 1], OutOfBandMgmt),
                  AllSubsysOps(t, t.subsystems, OutOfBandMgmt));
      }
    }
  }

  method PushSubsystemsOob(t: Target, link: Link) returns (ok: bool)
    requires link.Valid()
    modifies link, link.nvmet
    ensures link.Valid()
    ensures Encodable(t, OutOfBandMgmt) ==>
      && Tried(old(link.steps), link.steps, AllSubsysOps(t, t.subsystems, OutOfBandMgmt))
      && (!ok ==> !AllOk(link.steps[|old(link.steps)|..]))
  {
    ghost var base := link.steps;
    TriedNothing(base);
    for i := 0 to |t.subsystems|
      invariant link.Valid()
      invariant Encodable(t, OutOfBandMgmt) ==>
        Tried(base, link.steps, AllSubsysOps(t, t.subsystems[..i], OutOfBandMgmt))
    {
      ok := PushSubsystemOob(t, i, link, base);
      if !ok {
        return;
      }
    }
    ok := true;
    assert t.subsystems[..|t.subsystems|] == t.subsystems;
  }

  method PushAllOob(t: Target, link: Link) returns (ok: bool)
    requires link.Valid()
    modifies link, link.nvmet
    ensures link.Valid()
    ensures Encodable(t, OutOfBandMgmt) ==>
      && Tried(old(link.steps), link.steps, Script(t, OutOfBandMgmt))
      && (!ok ==> !AllOk(link.steps[|old(link.steps)|..]))
  {
    ghost var a := link.steps;
    ghost var ports, rest := PortOps(t.ports, OutOfBandMgmt), AllSubsysOps(t, t.subsystems, OutOfBandMgmt);
    ok := PushPortsOob(t, link);
    ghost var b := link.steps;
    if !ok {
      if Encodable(t, OutOfBandMgmt) {
        TriedSkip(a, b, ports, ports + rest);
      }
      return;
    }
    ok := PushSubsystemsOob(t, link);
    if Encodable(t, OutOfBandMgmt) {
      TriedMore(a, b, link.steps, ports, rest);
      FailureStays(a, b, link.steps);
    }
  }

  lemma {:induction false} PossiblePrefix(tree: Tree, a: seq<Step>, b: seq<Step>)
    requires a <= b
    ensures Possible(tree, b) ==> Possible(tree, a)
    ensures Reliable(tree, b) ==> Reliable(tree, a)
    decreases |b|
  {
    if |a| < |b| {
      PossiblePrefix(tree, a, b[..|b| - 1]);
    } else {
      assert a == b;
    }
  }

  /** A lossless link leaves no failure: the first one would be of an operation whose turn it
      was. */
  lemma ReliableTried(t: Target, mode: Mode, tree: Tree, more: seq<Step>)
    requires Configurable(t, mode, tree) && Possible(tree, more) && Reliable(tree, more)
    requires Ops(Leading(more)) <= Script(t, mode)
    ensures AllOk(more)
  {
    PossiblePrefix(tree, Leading(more), more);
    LosslessSucceeds(t, mode, tree, Leading(more));
  }

  /** Without a failure everything was sent. */
  lemma AllTried(t: Target, mode: Mode, tree: Tree, more: seq<Step>)
    requires Configurable(t, mode, tree) && Possible(tree, more) && AllOk(more)
    requires Ops(Leading(more)) <= Script(t, mode) && |more| == |Script(t, mode)|
    ensures After(tree, more) == Meaning(t, mode)
  {
    LeadingAppend(more, []);
    assert more + [] == more;
    AllSentIsMeaning(t, mode, tree, more);
  }

  lemma MoreProgress(t: Target, mode: Mode, tree: Tree, more: seq<Step>)
    requires Possible(tree, more) && Configurable(t, mode, tree)
    requires Ops(Leading(more)) <= Script(t, mode)
    requires (forall s <- more :: s.op in Script(t, mode)) && (AllOk(more) ==> |more| == |Script(t, mode)|)
    ensures Progress(t, mode, tree, After(tree, more), AllOk(more))
    ensures Reliable(tree, more) ==> AllOk(more)
  {
    StepsStayBelow(t, mode, tree, more);
    if Reliable(tree, more) {
      ReliableTried(t, mode, tree, more);
    }
    if AllOk(more) {
      AllTried(t, mode, tree, more);
    }
  }

  lemma TriedProgress(t: Target, mode: Mode, origin: Tree, base: seq<Step>, steps: seq<Step>)
    requires Possible(origin, steps) && Configurable(t, mode, After(origin, base))
    requires Tried(base, steps, Script(t, mode))
    ensures Progress(t, mode, After(origin, base), After(origin, steps), AllOk(steps[|base|..]))
    ensures Reliable(origin, steps) ==> AllOk(steps[|base|..])
  {
    SplitTail(origin, base, steps);
    MoreProgress(t, mode, After(origin, base), steps[|base|..]);
  }

  lemma SplitTail(origin: Tree, base: seq<Step>, steps: seq<Step>)
    requires base <= steps && Possible(origin, steps)
    ensures Possible(After(origin, base), steps[|base|..])
    ensures After(origin, steps) == After(After(origin, base), steps[|base|..])
    ensures Reliable(origin, steps) ==> Reliable(After(origin, base), steps[|base|..])
  {
    assert steps == base + steps[|base|..];
    SplitSteps(origin, base, steps[|base|..]);
  }

  /** Whatever is lost, the endpoint keeps to a sub-configuration of the target; when nothing
      is lost, all of it is there and the push reports success. */
  method ConfigTargetOob(t: Target, link: Link) returns (ok: bool)
    requires link.Valid()
    modifies link, link.nvmet
    ensures link.Valid()
    ensures Progress(t, OutOfBandMgmt, old(link.nvmet.Value()), link.nvmet.Value(), link.lossless)
    ensures link.lossless ==> Configurable(t, OutOfBandMgmt, old(link.nvmet.Value())) ==> ok
  {
    ghost var a := link.steps;
    ok := PushAllOob(t, link);
    if Configurable(t, OutOfBandMgmt, old(link.nvmet.Value())) {
      TriedProgress(t, OutOfBandMgmt, link.origin, a, link.steps);
    }
  }

  /** target_reconfig: a failed reset is not noticed, the push follows in any case. */
  method TargetReconfig(t: Target, mode: Mode, link: Link) returns (reset: bool, ok: bool)
    requires link.Valid()
    modifies link, link.nvmet
    ensures link.Valid()
    ensures UniqueIds(t) && Encodable(t, mode) ==>
      && (link.lossless ==> ok && link.nvmet.Value() == Meaning(t, mode))
      && (reset ==> Toward(link.nvmet.Value(), t, mode))
      && (reset && ok && mode == InBandMgmt ==> link.nvmet.Value() == Meaning(t, mode))
  {
    if mode == InBandMgmt {
      reset := link.SendInb(InBand.ResetMsg);
    } else {
      Rest.ResetReqExact();
      reset := link.SendOob(Rest.ResetReq);
    }
    ResetClears(link.origin, old(link.steps), link.steps, reset);
    if mode == InBandMgmt {
      ok := ConfigTargetInb(t, link);
    } else {
      ok := ConfigTargetOob(t, link);
    }
  }

  lemma ResetClears(origin: Tree, base: seq<Step>, steps: seq<Step>, ok: bool)
    requires Possible(origin, steps)
    requires exists copies :: steps == base + [Step(ResetConfig, copies, ok)]
    ensures ok ==> After(origin, steps) == EMPTY
    ensures Reliable(origin, steps) ==> ok
  {
    var copies :| steps == base + [Step(ResetConfig, copies, ok)];
    assert steps[..|steps| - 1] == base;
  }
}
