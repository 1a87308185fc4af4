/** The full configuration push of src/dem/config.c: what a target means, the operations that
    each management mode sends for it, and why they bring an endpoint to that meaning. */
module Push {
  import opened CTypes
  import opened ConfigFs
  import opened DemTypes
  import InBand
  import Rest

  datatype Mode = InBandMgmt | OutOfBandMgmt

  /** In-band pushes skip the host list of an allow-any subsystem, REST pushes send it. */
  function PushedHosts(s: Subsystem, mode: Mode): seq<Host> {
    if mode == InBandMgmt && !IsRestricted(s) then [] else s.hosts
  }

  /** The gate on port links: nobody could use a restricted subsystem without hosts. */
  predicate Reachable(s: Subsystem) {
    !(IsRestricted(s) && s.hosts == [])
  }

  function PushedTreq(mode: Mode): Int32 {
    if mode == InBandMgmt then InBand.NVMF_TREQ_NOT_REQUIRED else 0
  }

  // The operations that the messages and requests decode to.

  function PortOp(p: PortId, mode: Mode): Op {
    CreatePort(p.portid, p.family, p.typ, PushedTreq(mode), p.address, p.portNum)
  }

  function SubsysOp(s: Subsystem, mode: Mode): Op {
    CreateSubsys(s.nqn, if mode == InBandMgmt then ToU8(s.access) else if s.access != 0 then 1 else 0)
  }

  function NsOp(s: Subsystem, ns: Ns): Op {
    CreateNs(s.nqn, ns.nsid, ns.devid, ns.devns)
  }

  function PortOps(ports: seq<PortId>, mode: Mode): seq<Op> {
    seq(|ports|, i requires 0 <= i < |ports| => PortOp(ports[i], mode))
  }

  function HostOps(s: Subsystem, hosts: seq<Host>): seq<Op> {
    if hosts == [] then []
    else [CreateHost(hosts[0].nqn), LinkHost(s.nqn, hosts[0].nqn)] + HostOps(s, hosts[1..])
  }

  function NsOps(s: Subsystem): seq<Op> {
    seq(|s.namespaces|, i requires 0 <= i < |s.namespaces| => NsOp(s, s.namespaces[i]))
  }

  function LinkOps(s: Subsystem, ports: seq<PortId>): seq<Op> {
    seq(|ports|, i requires 0 <= i < |ports| => LinkPort(s.nqn, ports[i].portid))
  }

  function MemberOps(s: Subsystem, mode: Mode): seq<Op> {
    var hosts := HostOps(s, PushedHosts(s, mode));
    if mode == InBandMgmt then hosts + NsOps(s) else NsOps(s) + hosts
  }

  function SubsysOps(t: Target, s: Subsystem, mode: Mode): seq<Op> {
    [SubsysOp(s, mode)] + MemberOps(s, mode) + if Reachable(s) then LinkOps(s, t.ports) else []
  }

  function AllSubsysOps(t: Target, subsystems: seq<Subsystem>, mode: Mode): seq<Op> {
    if subsystems == [] then []
    else SubsysOps(t, subsystems[0], mode) + AllSubsysOps(t, subsystems[1..], mode)
  }

  /** Everything that one push sends, in order. */
  function Script(t: Target, mode: Mode): seq<Op> {
    PortOps(t.ports, mode) + AllSubsysOps(t, t.subsystems, mode)
  }

  // What a target means.

  /** Equal ids name equal objects. */
  ghost predicate UniqueIds(t: Target) {
    && (forall p <- t.ports, q <- t.ports :: p.portid == q.portid ==> p == q)
    && (forall r <- t.subsystems, s <- t.subsystems :: r.nqn == s.nqn ==> r == s)
    && (forall s <- t.subsystems :: forall m <- s.namespaces, n <- s.namespaces :: m.nsid == n.nsid ==> m == n)
  }

  ghost function PortOf(t: Target, id: Int32): PortId
    requires exists p <- t.ports :: p.portid == id
  {
    var p :| p in t.ports && p.portid == id;
    p
  }

  ghost function SubsysNamed(t: Target, nqn: string): Subsystem
    requires exists s <- t.subsystems :: s.nqn == nqn
  {
    var s :| s in t.subsystems && s.nqn == nqn;
    s
  }

  ghost function NsOf(s: Subsystem, nsid: Int32): Ns
    requires exists n <- s.namespaces :: n.nsid == nsid
  {
    var n :| n in s.namespaces && n.nsid == nsid;
    n
  }

  ghost function PortValue(p: PortId, mode: Mode): Port {
    Port(p.family, p.typ, TreqOf(PushedTreq(mode)), p.address, p.portNum)
  }

  ghost function SubsysValue(s: Subsystem, mode: Mode): Subsys {
    Subsys(s.access != 0,
           map id | id in (set n <- s.namespaces :: n.nsid) :: DeviceOf(NsOf(s, id).devid, NsOf(s, id).devns),
           set h <- PushedHosts(s, mode) :: h.nqn)
  }

  ghost function Meaning(t: Target, mode: Mode): Tree {
    Tree(
      map q | q in (set s <- t.subsystems :: s.nqn) :: SubsysValue(SubsysNamed(t, q), mode),
      map id | id in (set p <- t.ports :: p.portid) :: PortValue(PortOf(t, id), mode),
      set s <- t.subsystems, h <- PushedHosts(s, mode) :: h.nqn,
      set s <- t.subsystems, p <- t.ports | Reachable(s) :: (p.portid, s.nqn))
  }

  // The order on trees along which a push climbs.

  ghost predicate Below(a: Tree, b: Tree) {
    && (forall n <- a.subsystems ::
         && n in b.subsystems
         && a.subsystems[n].allowAny == b.subsystems[n].allowAny
         && a.subsystems[n].allowed <= b.subsystems[n].allowed
         && (forall id <- a.subsystems[n].namespaces ::
              id in b.subsystems[n].namespaces
              && a.subsystems[n].namespaces[id] == b.subsystems[n].namespaces[id]))
    && (forall id <- a.ports :: id in b.ports && a.ports[id] == b.ports[id])
    && a.hosts <= b.hosts
    && a.links <= b.links
  }

  lemma BelowTransitive(a: Tree, b: Tree, c: Tree)
    requires Below(a, b) && Below(b, c)
    ensures Below(a, c)
  {
  }

  /** A sub-configuration of the target with no dangling link. */
  ghost predicate Toward(tree: Tree, t: Target, mode: Mode) {
    WellLinked(tree) && Below(tree, Meaning(t, mode))
  }

  /** The object that an operation puts in place is there. */
  ghost predicate Has(tree: Tree, op: Op) {
    match op
    case CreatePort(id, _, _, _, _, _) => id in tree.ports
    case CreateSubsys(n, _) => n in tree.subsystems
    case CreateNs(n, nsid, _, _) => n in tree.subsystems && nsid in tree.subsystems[n].namespaces
    case CreateHost(h) => h in tree.hosts
    case LinkHost(n, h) => n in tree.subsystems && h in tree.subsystems[n].allowed
    case LinkPort(n, id) => (id, n) in tree.links
    case _ => false
  }

  /** The objects that an operation refers to are there. */
  ghost predicate Ready(tree: Tree, op: Op) {
    match op
    case CreateNs(n, _, _, _) => n in tree.subsystems
    case LinkHost(n, h) => n in tree.subsystems && h in tree.hosts
    case LinkPort(n, id) => n in tree.subsystems && id in tree.ports
    case _ => true
  }

  /** An operation asks for part of a tree, with the values it has there. */
  ghost predicate Belongs(op: Op, m: Tree) {
    match op
    case CreatePort(id, fam, typ, req, addr, svc) =>
      id in m.ports && m.ports[id] == Port(fam, typ, TreqOf(req), addr, svc)
    case CreateSubsys(n, any) => n in m.subsystems && m.subsystems[n].allowAny == (any != 0)
    case CreateNs(n, nsid, devid, devns) =>
      n in m.subsystems && nsid in m.subsystems[n].namespaces
      && m.subsystems[n].namespaces[nsid] == DeviceOf(devid, devns)
    case CreateHost(h) => h in m.hosts
    case LinkHost(n, h) => n in m.subsystems && h in m.subsystems[n].allowed
    case LinkPort(n, id) => (id, n) in m.links
    case _ => false
  }

  lemma HasGrows(a: Tree, b: Tree, op: Op)
    requires Below(a, b)
    ensures Has(a, op) ==> Has(b, op)
    ensures Ready(a, op) ==> Ready(b, op)
  {
  }

  /** One operation of a push never undoes, contradicts or oversteps; it fails only when
      something it refers to is missing, and when it succeeds its object is in place. */
  lemma Climb(tree: Tree, m: Tree, op: Op)
    requires WellLinked(tree) && Below(tree, m) && Belongs(op, m)
    ensures var o := Exec(tree, op);
      && WellLinked(o.tree) && Below(tree, o.tree) && Below(o.tree, m)
      && (o.ok ==> Has(o.tree, op))
      && (Ready(tree, op) ==> o.ok)
  {
    ExecKeepsLinks(tree, op);
    if op.CreateNs? {
      ClimbNs(tree, m, op);
    } else if op.LinkHost? {
      ClimbAllowed(tree, m, op);
    } else if op.CreatePort? {
      ClimbPort(tree, m, op);
    }
  }

  lemma ClimbPort(tree: Tree, m: Tree, op: Op)
    requires Below(tree, m) && Belongs(op, m) && op.CreatePort?
    ensures var o := Exec(tree, op);
      Below(tree, o.tree) && Below(o.tree, m) && o.ok && Has(o.tree, op)
  {
  }

  lemma ClimbNs(tree: Tree, m: Tree, op: Op)
    requires Below(tree, m) && Belongs(op, m) && op.CreateNs?
    ensures var o := Exec(tree, op);
      && Below(tree, o.tree) && Below(o.tree, m)
      && (o.ok ==> Has(o.tree, op)) && (Ready(tree, op) ==> o.ok)
  {
  }

  lemma ClimbAllowed(tree: Tree, m: Tree, op: Op)
    requires Below(tree, m) && Belongs(op, m) && op.LinkHost?
    ensures var o := Exec(tree, op);
      && Below(tree, o.tree) && Below(o.tree, m)
      && (o.ok ==> Has(o.tree, op)) && (Ready(tree, op) ==> o.ok)
  {
  }

  /** Nothing is missing from a sub-configuration that has every object asked for. */
  lemma Complete(tree: Tree, m: Tree)
    requires Below(tree, m) && Below(m, tree)
    ensures tree == m
  {
    forall n <- m.subsystems ensures tree.subsystems[n] == m.subsystems[n] {
      var a, b := tree.subsystems[n], m.subsystems[n];
      assert a.namespaces.Keys == b.namespaces.Keys;
      assert a.namespaces == b.namespaces;
    }
    assert tree.subsystems.Keys == m.subsystems.Keys;
    assert tree.subsystems == m.subsystems;
    assert tree.ports.Keys == m.ports.Keys;
    assert tree.ports == m.ports;
  }

  // What is asked for is what is meant.

  ghost predicate Encodable(t: Target, mode: Mode) {
    && (forall p <- t.ports ::
         if mode == InBandMgmt then
           0 <= p.portid <= 0xffff && InBand.KnownType(p.typ) && InBand.KnownFamily(p.family)
         else Rest.PortSendable(p))
    && (forall s <- t.subsystems ::
         if mode == InBandMgmt then
           && (ToU8(s.access) == 0 ==> s.access == 0)
           && (forall ns <- s.namespaces :: ns.devid != InBand.NVMF_NULLB_DEVID)
         else Rest.Sendable(s))
  }

  lemma PortBelongs(t: Target, mode: Mode, p: PortId)
    requires UniqueIds(t) && p in t.ports
    ensures Belongs(PortOp(p, mode), Meaning(t, mode))
  {
    assert PortOf(t, p.portid) == p;
  }

  lemma SubsysBelongs(t: Target, mode: Mode, s: Subsystem)
    requires UniqueIds(t) && Encodable(t, mode) && s in t.subsystems
    ensures s.nqn in Meaning(t, mode).subsystems
    ensures Meaning(t, mode).subsystems[s.nqn] == SubsysValue(s, mode)
    ensures Belongs(SubsysOp(s, mode), Meaning(t, mode))
  {
    assert SubsysNamed(t, s.nqn) == s;
  }

  lemma NsBelongs(t: Target, mode: Mode, s: Subsystem, ns: Ns)
    requires UniqueIds(t) && Encodable(t, mode) && s in t.subsystems && ns in s.namespaces
    ensures Belongs(NsOp(s, ns), Meaning(t, mode))
  {
    SubsysBelongs(t, mode, s);
    assert NsOf(s, ns.nsid) == ns;
  }

  lemma HostBelongs(t: Target, mode: Mode, s: Subsystem, h: Host)
    requires UniqueIds(t) && Encodable(t, mode) && s in t.subsystems && h in PushedHosts(s, mode)
    ensures Belongs(CreateHost(h.nqn), Meaning(t, mode))
    ensures Belongs(LinkHost(s.nqn, h.nqn), Meaning(t, mode))
  {
    SubsysBelongs(t, mode, s);
  }

  lemma LinkBelongs(t: Target, mode: Mode, s: Subsystem, p: PortId)
    requires s in t.subsystems && p in t.ports && Reachable(s)
    ensures Belongs(LinkPort(s.nqn, p.portid), Meaning(t, mode))
  {
  }

  lemma {:induction false} HostOpsAre(s: Subsystem, hosts: seq<Host>, op: Op)
    ensures op in HostOps(s, hosts) <==>
      exists h <- hosts :: op == CreateHost(h.nqn) || op == LinkHost(s.nqn, h.nqn)
  {
    if hosts != [] {
      HostOpsAre(s, hosts[1..], op);
      assert hosts == [hosts[0]] + hosts[1..];
    }
  }

  lemma InSubsysOps(t: Target, mode: Mode, s: Subsystem, op: Op)
    requires op in SubsysOps(t, s, mode)
    ensures op == SubsysOp(s, mode) || op in HostOps(s, PushedHosts(s, mode)) || op in NsOps(s)
      || (Reachable(s) && op in LinkOps(s, t.ports))
  {
    assert op == SubsysOp(s, mode) || op in MemberOps(s, mode)
      || (Reachable(s) && op in LinkOps(s, t.ports));
  }

  /** Every operation of the script asks for something the target means. */
  lemma SubsysOpsBelong(t: Target, mode: Mode, s: Subsystem, op: Op)
    requires UniqueIds(t) && Encodable(t, mode) && s in t.subsystems && op in SubsysOps(t, s, mode)
    ensures Belongs(op, Meaning(t, mode))
  {
    InSubsysOps(t, mode, s, op);
    if op == SubsysOp(s, mode) {
      SubsysBelongs(t, mode, s);
    } else if op in HostOps(s, PushedHosts(s, mode)) {
      HostOpsBelong(t, mode, s, op);
    } else if op in NsOps(s) {
      NsOpsBelong(t, mode, s, op);
    } else {
      LinkOpsBelong(t, mode, s, op);
    }
  }

  lemma NsOpsBelong(t: Target, mode: Mode, s: Subsystem, op: Op)
    requires UniqueIds(t) && Encodable(t, mode) && s in t.subsystems && op in NsOps(s)
    ensures Belongs(op, Meaning(t, mode))
  {
    var i :| 0 <= i < |s.namespaces| && op == NsOp(s, s.namespaces[i]);
    NsBelongs(t, mode, s, s.namespaces[i]);
  }

  lemma LinkOpsBelong(t: Target, mode: Mode, s: Subsystem, op: Op)
    requires s in t.subsystems && Reachable(s) && op in LinkOps(s, t.ports)
    ensures Belongs(op, Meaning(t, mode))
  {
    var i :| 0 <= i < |t.ports| && op == LinkPort(s.nqn, t.ports[i].portid);
    LinkBelongs(t, mode, s, t.ports[i]);
  }

  lemma HostOpsBelong(t: Target, mode: Mode, s: Subsystem, op: Op)
    requires UniqueIds(t) && Encodable(t, mode) && s in t.subsystems
    requires op in HostOps(s, PushedHosts(s, mode))
    ensures Belongs(op, Meaning(t, mode))
  {
    HostOpsAre(s, PushedHosts(s, mode), op);
    var h :| h in PushedHosts(s, mode) && (op == CreateHost(h.nqn) || op == LinkHost(s.nqn, h.nqn));
    HostBelongs(t, mode, s, h);
  }

  lemma {:induction false} AllSubsysOpsBelong(t: Target, mode: Mode, subsystems: seq<Subsystem>, op: Op)
    requires UniqueIds(t) && Encodable(t, mode)
    requires (forall s <- subsystems :: s in t.subsystems) && op in AllSubsysOps(t, subsystems, mode)
    ensures Belongs(op, Meaning(t, mode))
  {
    if op in SubsysOps(t, subsystems[0], mode) {
      SubsysOpsBelong(t, mode, subsystems[0], op);
    } else {
      AllSubsysOpsBelong(t, mode, subsystems[1..], op);
    }
  }

  lemma ScriptBelongs(t: Target, mode: Mode, op: Op)
    requires UniqueIds(t) && Encodable(t, mode) && op in Script(t, mode)
    ensures Belongs(op, Meaning(t, mode))
  {
    if op in PortOps(t.ports, mode) {
      var i :| 0 <= i < |t.ports| && op == PortOp(t.ports[i], mode);
      PortBelongs(t, mode, t.ports[i]);
    } else {
      AllSubsysOpsBelong(t, mode, t.subsystems, op);
    }
  }

  // Runs.

  /** Whatever operations of a push get through, repeated and in any order, the endpoint holds
      a sub-configuration of the target with no dangling link, and nothing is taken away. */
  lemma {:induction false} AnyDeliveryStaysBelow(t: Target, mode: Mode, tree: Tree, ops: seq<Op>)
    requires UniqueIds(t) && Encodable(t, mode) && Toward(tree, t, mode)
    requires forall op <- ops :: op in Script(t, mode)
    ensures Toward(Run(tree, ops), t, mode) && Below(tree, Run(tree, ops))
    decreases |ops|
  {
    if ops != [] {
      ScriptBelongs(t, mode, ops[0]);
      Climb(tree, Meaning(t, mode), ops[0]);
      var next := Exec(tree, ops[0]).tree;
      AnyDeliveryStaysBelow(t, mode, next, ops[1..]);
      BelowTransitive(tree, next, Run(next, ops[1..]));
    }
  }

  ghost predicate AllSucceed(tree: Tree, ops: seq<Op>)
    decreases |ops|
  {
    ops == [] || (Exec(tree, ops[0]).ok && AllSucceed(Exec(tree, ops[0]).tree, ops[1..]))
  }

  lemma {:induction false} RunAppend(tree: Tree, a: seq<Op>, b: seq<Op>)
    ensures Run(tree, a + b) == Run(Run(tree, a), b)
    ensures AllSucceed(tree, a + b) <==> AllSucceed(tree, a) && AllSucceed(Run(tree, a), b)
    decreases |a|
  {
    if a == [] {
      assert a + b == b;
    } else {
      assert (a + b)[1..] == a[1..] + b;
      RunAppend(Exec(tree, a[0]).tree, a[1..], b);
    }
  }

  /** Operations that are ready from the start all succeed and leave their objects in place. */
  lemma {:induction false} ReadyRun(m: Tree, tree: Tree, ops: seq<Op>)
    requires WellLinked(tree) && Below(tree, m)
    requires forall op <- ops :: Belongs(op, m) && Ready(tree, op)
    ensures AllSucceed(tree, ops) && WellLinked(Run(tree, ops))
    ensures Below(tree, Run(tree, ops)) && Below(Run(tree, ops), m)
    ensures forall op <- ops :: Has(Run(tree, ops), op)
    decreases |ops|
  {
    if ops != [] {
      Climb(tree, m, ops[0]);
      var next := Exec(tree, ops[0]).tree;
      forall op <- ops[1..] ensures Ready(next, op) {
        HasGrows(tree, next, op);
      }
      ReadyRun(m, next, ops[1..]);
      HasGrows(next, Run(tree, ops), ops[0]);
      assert forall op <- ops :: op == ops[0] || op in ops[1..];
    }
  }

  lemma {:induction false} HostRun(m: Tree, tree: Tree, s: Subsystem, hosts: seq<Host>)
    requires WellLinked(tree) && Below(tree, m) && s.nqn in tree.subsystems
    requires forall h <- hosts :: Belongs(CreateHost(h.nqn), m) && Belongs(LinkHost(s.nqn, h.nqn), m)
    ensures var end := Run(tree, HostOps(s, hosts));
      && AllSucceed(tree, HostOps(s, hosts)) && WellLinked(end) && Below(tree, end) && Below(end, m)
      && (forall op <- HostOps(s, hosts) :: Has(end, op))
    decreases |hosts|
  {
    if hosts != [] {
      var create, link := CreateHost(hosts[0].nqn), LinkHost(s.nqn, hosts[0].nqn);
      var rest := HostOps(s, hosts[1..]);
      Climb(tree, m, create);
      var a := Exec(tree, create).tree;
      Climb(a, m, link);
      var b := Exec(a, link).tree;
      HostRun(m, b, s, hosts[1..]);
      var end := Run(b, rest);
      assert HostOps(s, hosts)[1..] == [link] + rest && ([link] + rest)[1..] == rest;
      assert Run(tree, HostOps(s, hosts)) == end;
      HasGrows(a, b, create);
      HasGrows(b, end, create);
      HasGrows(b, end, link);
      BelowTransitive(tree, a, b);
      BelowTransitive(tree, b, end);
    }
  }

  ghost predicate Pushed(m: Tree, tree: Tree, ops: seq<Op>) {
    var end := Run(tree, ops);
    && AllSucceed(tree, ops) && WellLinked(end) && Below(tree, end) && Below(end, m)
    && forall op <- ops :: Has(end, op)
  }

  lemma PushedAppend(m: Tree, tree: Tree, a: seq<Op>, b: seq<Op>)
    requires Pushed(m, tree, a) && Pushed(m, Run(tree, a), b)
    ensures Pushed(m, tree, a + b)
  {
    RunAppend(tree, a, b);
    var mid, end := Run(tree, a), Run(tree, a + b);
    BelowTransitive(tree, mid, end);
    forall op <- a + b ensures Has(end, op) {
      if op in a {
        HasGrows(mid, end, op);
      }
    }
  }

  /** The subsystem and its members. */
  lemma SubsysPushed(t: Target, mode: Mode, tree: Tree, s: Subsystem)
    requires UniqueIds(t) && Encodable(t, mode) && Toward(tree, t, mode) && s in t.subsystems
    ensures var ops := [SubsysOp(s, mode)] + MemberOps(s, mode);
      Pushed(Meaning(t, mode), tree, ops) && s.nqn in Run(tree, ops).subsystems
  {
    var m := Meaning(t, mode);
    var create, members := [SubsysOp(s, mode)], MemberOps(s, mode);
    SubsysBelongs(t, mode, s);
    ReadyRun(m, tree, create);
    assert SubsysOp(s, mode) in create;
    MembersRun(t, mode, Run(tree, create), s);
    PushedAppend(m, tree, create, members);
    assert SubsysOp(s, mode) in create + members;
    assert Has(Run(tree, create + members), SubsysOp(s, mode));
  }

  lemma SubsysRun(t: Target, mode: Mode, tree: Tree, s: Subsystem)
    requires UniqueIds(t) && Encodable(t, mode) && Toward(tree, t, mode) && s in t.subsystems
    requires forall p <- t.ports :: p.portid in tree.ports
    ensures Pushed(Meaning(t, mode), tree, SubsysOps(t, s, mode))
  {
    var ops := [SubsysOp(s, mode)] + MemberOps(s, mode);
    SubsysPushed(t, mode, tree, s);
    if Reachable(s) {
      LinksRun(t, mode, Run(tree, ops), s);
      PushedAppend(Meaning(t, mode), tree, ops, LinkOps(s, t.ports));
    } else {
      assert ops + [] == ops;
    }
  }

  lemma LinksRun(t: Target, mode: Mode, tree: Tree, s: Subsystem)
    requires Toward(tree, t, mode) && s in t.subsystems && Reachable(s)
    requires s.nqn in tree.subsystems && forall p <- t.ports :: p.portid in tree.ports
    ensures Pushed(Meaning(t, mode), tree, LinkOps(s, t.ports))
  {
    var links := LinkOps(s, t.ports);
    forall op <- links ensures Belongs(op, Meaning(t, mode)) && Ready(tree, op) {
      var i :| 0 <= i < |t.ports| && op == LinkPort(s.nqn, t.ports[i].portid);
      LinkBelongs(t, mode, s, t.ports[i]);
    }
    ReadyRun(Meaning(t, mode), tree, links);
  }

  lemma NsRun(t: Target, mode: Mode, tree: Tree, s: Subsystem)
    requires UniqueIds(t) && Encodable(t, mode) && Toward(tree, t, mode) && s in t.subsystems
    requires s.nqn in tree.subsystems
    ensures Pushed(Meaning(t, mode), tree, NsOps(s))
  {
    forall op <- NsOps(s) ensures Belongs(op, Meaning(t, mode)) && Ready(tree, op) {
      var i :| 0 <= i < |s.namespaces| && op == NsOp(s, s.namespaces[i]);
      NsBelongs(t, mode, s, s.namespaces[i]);
    }
    ReadyRun(Meaning(t, mode), tree, NsOps(s));
  }

  lemma HostsRun(t: Target, mode: Mode, tree: Tree, s: Subsystem)
    requires UniqueIds(t) && Encodable(t, mode) && Toward(tree, t, mode) && s in t.subsystems
    requires s.nqn in tree.subsystems
    ensures Pushed(Meaning(t, mode), tree, HostOps(s, PushedHosts(s, mode)))
  {
    var m, hosts := Meaning(t, mode), PushedHosts(s, mode);
    forall h <- hosts ensures Belongs(CreateHost(h.nqn), m) && Belongs(LinkHost(s.nqn, h.nqn), m) {
      HostBelongs(t, mode, s, h);
    }
    HostRun(m, tree, s, hosts);
  }

  lemma MembersRun(t: Target, mode: Mode, tree: Tree, s: Subsystem)
    requires UniqueIds(t) && Encodable(t, mode) && Toward(tree, t, mode) && s in t.subsystems
    requires s.nqn in tree.subsystems
    ensures Pushed(Meaning(t, mode), tree, MemberOps(s, mode))
  {
    var m, hosts := Meaning(t, mode), HostOps(s, PushedHosts(s, mode));
    if mode == InBandMgmt {
      HostsRun(t, mode, tree, s);
      NsRun(t, mode, Run(tree, hosts), s);
      PushedAppend(m, tree, hosts, NsOps(s));
    } else {
      NsRun(t, mode, tree, s);
      HostsRun(t, mode, Run(tree, NsOps(s)), s);
      PushedAppend(m, tree, NsOps(s), hosts);
    }
  }

  lemma {:induction false} AllSubsysRun(t: Target, mode: Mode, tree: Tree, subsystems: seq<Subsystem>)
    requires UniqueIds(t) && Encodable(t, mode) && Toward(tree, t, mode)
    requires forall s <- subsystems :: s in t.subsystems
    requires forall p <- t.ports :: p.portid in tree.ports
    ensures Pushed(Meaning(t, mode), tree, AllSubsysOps(t, subsystems, mode))
    decreases |subsystems|
  {
    var m := Meaning(t, mode);
    if subsystems != [] {
      var first := SubsysOps(t, subsystems[0], mode);
      SubsysRun(t, mode, tree, subsystems[0]);
      AllSubsysRun(t, mode, Run(tree, first), subsystems[1..]);
      PushedAppend(m, tree, first, AllSubsysOps(t, subsystems[1..], mode));
    }
  }

  lemma ScriptRun(t: Target, mode: Mode, tree: Tree)
    requires UniqueIds(t) && Encodable(t, mode) && Toward(tree, t, mode)
    ensures Pushed(Meaning(t, mode), tree, Script(t, mode))
  {
    var m := Meaning(t, mode);
    var ports := PortOps(t.ports, mode);
    forall op <- ports ensures Belongs(op, m) && Ready(tree, op) {
      var i :| 0 <= i < |t.ports| && op == PortOp(t.ports[i], mode);
      PortBelongs(t, mode, t.ports[i]);
    }
    ReadyRun(m, tree, ports);
    var mid := Run(tree, ports);
    forall p <- t.ports ensures p.portid in mid.ports {
      var i :| 0 <= i < |t.ports| && t.ports[i] == p;
      assert ports[i] == PortOp(p, mode);
      assert Has(mid, ports[i]);
    }
    AllSubsysRun(t, mode, mid, t.subsystems);
    PushedAppend(m, tree, ports, AllSubsysOps(t, t.subsystems, mode));
  }

  lemma {:induction false} SubsysOpsListed(t: Target, mode: Mode, subsystems: seq<Subsystem>, s: Subsystem, op: Op)
    requires s in subsystems && op in SubsysOps(t, s, mode)
    ensures op in AllSubsysOps(t, subsystems, mode)
  {
    if s != subsystems[0] {
      SubsysOpsListed(t, mode, subsystems[1..], s, op);
    }
  }

  /** Once everything in the script is in place, everything the target means is. */
  lemma MeaningCovered(t: Target, mode: Mode, tree: Tree)
    requires UniqueIds(t) && Encodable(t, mode) && Toward(tree, t, mode)
    requires forall op <- Script(t, mode) :: Has(tree, op)
    ensures tree == Meaning(t, mode)
  {
    var m := Meaning(t, mode);
    forall id <- m.ports ensures id in tree.ports {
      var i :| 0 <= i < |t.ports| && t.ports[i].portid == id;
      var op := PortOps(t.ports, mode)[i];
      assert op in Script(t, mode);
      assert Has(tree, op);
    }
    forall s <- t.subsystems ensures CoveredSubsys(t, mode, tree, s) {
      forall op <- SubsysOps(t, s, mode) ensures Has(tree, op) {
        SubsysOpsListed(t, mode, t.subsystems, s, op);
        assert op in Script(t, mode);
      }
      SubsysCovered(t, mode, tree, s);
    }
    AllCovered(t, mode, tree);
    Complete(tree, m);
  }

  lemma HostsCovered(t: Target, mode: Mode, tree: Tree)
    requires forall s <- t.subsystems :: CoveredSubsys(t, mode, tree, s)
    ensures Meaning(t, mode).hosts <= tree.hosts
  {
    forall h <- Meaning(t, mode).hosts ensures h in tree.hosts {
      var s, x :| s in t.subsystems && x in PushedHosts(s, mode) && x.nqn == h;
      assert CoveredSubsys(t, mode, tree, s);
    }
  }

  lemma LinksCovered(t: Target, mode: Mode, tree: Tree)
    requires forall s <- t.subsystems :: CoveredSubsys(t, mode, tree, s)
    ensures Meaning(t, mode).links <= tree.links
  {
    forall l <- Meaning(t, mode).links ensures l in tree.links {
      var s, p :| s in t.subsystems && p in t.ports && Reachable(s) && l == (p.portid, s.nqn);
      assert CoveredSubsys(t, mode, tree, s);
    }
  }

  lemma AllCovered(t: Target, mode: Mode, tree: Tree)
    requires Toward(tree, t, mode)
    requires forall id <- Meaning(t, mode).ports :: id in tree.ports
    requires forall s <- t.subsystems :: CoveredSubsys(t, mode, tree, s)
    ensures Below(Meaning(t, mode), tree)
  {
    var m := Meaning(t, mode);
    HostsCovered(t, mode, tree);
    LinksCovered(t, mode, tree);
    forall n <- m.subsystems
      ensures n in tree.subsystems && m.subsystems[n].allowed <= tree.subsystems[n].allowed
      ensures forall id <- m.subsystems[n].namespaces :: id in tree.subsystems[n].namespaces
    {
      assert CoveredSubsys(t, mode, tree, SubsysNamed(t, n));
    }
  }

  ghost predicate CoveredSubsys(t: Target, mode: Mode, tree: Tree, s: Subsystem) {
    && s.nqn in tree.subsystems
    && (forall n <- s.namespaces :: n.nsid in tree.subsystems[s.nqn].namespaces)
    && (forall h <- PushedHosts(s, mode) :: h.nqn in tree.hosts && h.nqn in tree.subsystems[s.nqn].allowed)
    && (Reachable(s) ==> forall p <- t.ports :: (p.portid, s.nqn) in tree.links)
  }

  lemma SubsysCovered(t: Target, mode: Mode, tree: Tree, s: Subsystem)
    requires forall op <- SubsysOps(t, s, mode) :: Has(tree, op)
    ensures CoveredSubsys(t, mode, tree, s)
  {
    var ops := SubsysOps(t, s, mode);
    assert ops[0] == SubsysOp(s, mode);
    assert Has(tree, ops[0]);
    forall n <- s.namespaces ensures n.nsid in tree.subsystems[s.nqn].namespaces {
      var i :| 0 <= i < |s.namespaces| && s.namespaces[i] == n;
      assert NsOps(s)[i] in ops;
    }
    forall h <- PushedHosts(s, mode)
      ensures h.nqn in tree.hosts && h.nqn in tree.subsystems[s.nqn].allowed
    {
      HostOpsAre(s, PushedHosts(s, mode), CreateHost(h.nqn));
      HostOpsAre(s, PushedHosts(s, mode), LinkHost(s.nqn, h.nqn));
      assert CreateHost(h.nqn) in ops && LinkHost(s.nqn, h.nqn) in ops;
    }
    if Reachable(s) {
      forall p <- t.ports ensures (p.portid, s.nqn) in tree.links {
        var i :| 0 <= i < |t.ports| && t.ports[i] == p;
        assert LinkOps(s, t.ports)[i] in ops;
      }
    }
  }

  /** The push converges: from any sub-configuration, in particular from the empty one that a
      reset leaves, every operation succeeds and the endpoint ends at exactly the meaning. */
  lemma PushConverges(t: Target, mode: Mode, tree: Tree)
    requires UniqueIds(t) && Encodable(t, mode) && Toward(tree, t, mode)
    ensures AllSucceed(tree, Script(t, mode))
    ensures Run(tree, Script(t, mode)) == Meaning(t, mode)
  {
    ScriptRun(t, mode, tree);
    MeaningCovered(t, mode, Run(tree, Script(t, mode)));
  }

  /** Reconfigure: reset and push leave the same configuration whatever was there before. */
  lemma ReconfigureConverges(t: Target, mode: Mode, before: Tree)
    requires UniqueIds(t) && Encodable(t, mode)
    ensures Run(before, [ResetConfig] + Script(t, mode)) == Meaning(t, mode)
  {
    RunAppend(before, [ResetConfig], Script(t, mode));
    assert Run(before, [ResetConfig]) == EMPTY;
    PushConverges(t, mode, EMPTY);
  }

  /** Every prefix of a push is well founded and pushing again completes it. */
  lemma PrefixCompletes(t: Target, mode: Mode, tree: Tree, k: nat)
    requires UniqueIds(t) && Encodable(t, mode) && Toward(tree, t, mode)
    requires k <= |Script(t, mode)|
    ensures var cut := Run(tree, Script(t, mode)[..k]);
      && AllSucceed(tree, Script(t, mode)[..k])
      && Toward(cut, t, mode)
      && Run(cut, Script(t, mode)) == Meaning(t, mode)
  {
    var script := Script(t, mode);
    PushConverges(t, mode, tree);
    assert script == script[..k] + script[k..];
    RunAppend(tree, script[..k], script[k..]);
    AnyDeliveryStaysBelow(t, mode, tree, script[..k]);
    PushConverges(t, mode, Run(tree, script[..k]));
  }

  /** A push alone takes nothing away: if the reset before it was lost, whatever does not
      belong to the target stays on the endpoint. */
  lemma {:induction false} PushRemovesNothing(tree: Tree, ops: seq<Op>)
    requires forall op <- ops ::
      op.CreatePort? || op.CreateSubsys? || op.CreateNs? || op.CreateHost? || op.LinkHost? || op.LinkPort?
    ensures var end := Run(tree, ops);
      && tree.ports.Keys <= end.ports.Keys && tree.subsystems.Keys <= end.subsystems.Keys
      && tree.hosts <= end.hosts && tree.links <= end.links
    decreases |ops|
  {
    if ops != [] {
      var op := ops[0];
      assert op in ops;
      PushRemovesNothing(Exec(tree, op).tree, ops[1..]);
    }
  }

  // The meaning, field by field.

  /** A port is linked to a subsystem of that name that is open or lists a host, and to no
      other. */
  lemma MeaningLinks(t: Target, mode: Mode, id: Int32, n: string)
    ensures (id, n) in Meaning(t, mode).links <==>
      exists s, p :: s in t.subsystems && s.nqn == n && (s.access != 0 || s.hosts != []) && p in t.ports && p.portid == id
  {
    if (id, n) in Meaning(t, mode).links {
      var s, p :| s in t.subsystems && p in t.ports && Reachable(s) && (p.portid, s.nqn) == (id, n);
      assert s.nqn == n && (s.access != 0 || s.hosts != []) && p.portid == id;
    }
    if s, p :| s in t.subsystems && s.nqn == n && (s.access != 0 || s.hosts != []) && p in t.ports && p.portid == id {
      assert Reachable(s) && (p.portid, s.nqn) == (id, n);
    }
  }

  /** The same of one subsystem. */
  lemma LinksOfMeaning(t: Target, mode: Mode, s: Subsystem, id: Int32)
    requires UniqueIds(t) && s in t.subsystems
    ensures (id, s.nqn) in Meaning(t, mode).links
      <==> (s.access != 0 || s.hosts != []) && exists p <- t.ports :: p.portid == id
  {
    MeaningLinks(t, mode, id, s.nqn);
  }

  /** What the endpoint can see of the gate: no port leads to a subsystem that allows nobody,
      and every port leads to every other. */
  lemma GateOfMeaning(t: Target, mode: Mode, n: string, id: Int32)
    requires UniqueIds(t) && n in Meaning(t, mode).subsystems && id in Meaning(t, mode).ports
    ensures var s := Meaning(t, mode).subsystems[n];
      (id, n) in Meaning(t, mode).links <==> s.allowAny || s.allowed != {}
  {
    var s := SubsysNamed(t, n);
    MeaningSubsystem(t, mode, s);
    LinksOfMeaning(t, mode, s, id);
    var p :| p in t.ports && p.portid == id;
    var now := Meaning(t, mode).subsystems[n];
    if s.access == 0 && s.hosts != [] {
      assert s.hosts[0] in s.hosts;
      assert s.hosts[0].nqn in now.allowed;
    } else if s.access == 0 {
      assert forall h :: h !in now.allowed;
      assert now.allowed == {};
    }
  }

  lemma MeaningPort(t: Target, mode: Mode, p: PortId)
    requires UniqueIds(t) && p in t.ports
    ensures p.portid in Meaning(t, mode).ports
    ensures var q := Meaning(t, mode).ports[p.portid];
      && q.adrfam == p.family && q.trtype == p.typ && q.traddr == p.address && q.trsvcid == p.portNum
      && q.treq == if mode == InBandMgmt then NotRequired else NotSpecified
  {
    assert PortOf(t, p.portid) == p;
  }

  /** Of a subsystem, the endpoint learns the access, the namespaces with their devices, and
      the hosts; in band, the hosts of an open subsystem are left out. */
  lemma MeaningSubsystem(t: Target, mode: Mode, s: Subsystem)
    requires UniqueIds(t) && s in t.subsystems
    ensures s.nqn in Meaning(t, mode).subsystems
    ensures var now := Meaning(t, mode).subsystems[s.nqn];
      && (now.allowAny <==> s.access != 0)
      && (forall h :: h in now.allowed <==> (mode == OutOfBandMgmt || s.access == 0) && exists x <- s.hosts :: x.nqn == h)
      && (forall id :: id in now.namespaces <==> exists n <- s.namespaces :: n.nsid == id)
      && (forall n <- s.namespaces ::
           now.namespaces[n.nsid] == if n.devid == -1 then NullBlock else NvmeDevice(n.devid, n.devns))
  {
    assert SubsysNamed(t, s.nqn) == s;
    forall n <- s.namespaces
      ensures NsOf(s, n.nsid) == n
    {
    }
    var now := SubsysValue(s, mode);
    forall h
      ensures h in now.allowed <==> (mode == OutOfBandMgmt || s.access == 0) && exists x <- s.hosts :: x.nqn == h
    {
      if (mode == OutOfBandMgmt || s.access == 0) && exists x <- s.hosts :: x.nqn == h {
        var x :| x in s.hosts && x.nqn == h;
        assert x in PushedHosts(s, mode);
      }
    }
  }

  /** And of the target nothing else: its ports, its subsystems, and the hosts of these. */
  lemma MeaningKeys(t: Target, mode: Mode)
    ensures var m := Meaning(t, mode);
      && (forall id :: id in m.ports <==> exists p <- t.ports :: p.portid == id)
      && (forall n :: n in m.subsystems <==> exists s <- t.subsystems :: s.nqn == n)
      && (forall h :: h in m.hosts <==>
           exists s <- t.subsystems :: (mode == OutOfBandMgmt || s.access == 0) && exists x <- s.hosts :: x.nqn == h)
  {
    var m := Meaning(t, mode);
    forall h
      ensures h in m.hosts <==>
        exists s <- t.subsystems :: (mode == OutOfBandMgmt || s.access == 0) && exists x <- s.hosts :: x.nqn == h
    {
      if s :| s in t.subsystems && (mode == OutOfBandMgmt || s.access == 0) && exists x <- s.hosts :: x.nqn == h {
        var x :| x in s.hosts && x.nqn == h;
        assert x in PushedHosts(s, mode);
      }
      if h in m.hosts {
        var s, x :| s in t.subsystems && x in PushedHosts(s, mode) && x.nqn == h;
        assert x in s.hosts;
      }
    }
  }

  function EraseTreq(t: Tree): Tree {
    t.(ports := map id | id in t.ports :: t.ports[id].(treq := NotSpecified))
  }

  /** The two management modes agree, apart from treq, exactly when no allow-any subsystem
      lists hosts. */
  lemma ModesAgree(t: Target)
    requires UniqueIds(t) && Encodable(t, InBandMgmt) && Encodable(t, OutOfBandMgmt)
    ensures EraseTreq(Meaning(t, InBandMgmt)) == EraseTreq(Meaning(t, OutOfBandMgmt))
      <==> forall s <- t.subsystems :: !IsRestricted(s) ==> s.hosts == []
  {
    if s :| s in t.subsystems && !IsRestricted(s) && s.hosts != [] {
      ModesDiffer(t, s);
    } else {
      SameHostsSameMeaning(t);
    }
  }

  lemma ModesDiffer(t: Target, s: Subsystem)
    requires UniqueIds(t) && Encodable(t, InBandMgmt) && Encodable(t, OutOfBandMgmt)
    requires s in t.subsystems && !IsRestricted(s) && s.hosts != []
    ensures Meaning(t, InBandMgmt).subsystems != Meaning(t, OutOfBandMgmt).subsystems
  {
    SubsysBelongs(t, InBandMgmt, s);
    SubsysBelongs(t, OutOfBandMgmt, s);
    assert s.hosts[0].nqn in SubsysValue(s, OutOfBandMgmt).allowed;
    assert s.hosts[0].nqn !in SubsysValue(s, InBandMgmt).allowed;
  }

  lemma SameHostsSameMeaning(t: Target)
    requires forall s <- t.subsystems :: !IsRestricted(s) ==> s.hosts == []
    ensures EraseTreq(Meaning(t, InBandMgmt)) == EraseTreq(Meaning(t, OutOfBandMgmt))
  {
    var a, b := Meaning(t, InBandMgmt), Meaning(t, OutOfBandMgmt);
    assert forall s <- t.subsystems :: PushedHosts(s, InBandMgmt) == PushedHosts(s, OutOfBandMgmt);
    assert a.subsystems == b.subsystems by {
      forall q <- a.subsystems ensures a.subsystems[q] == b.subsystems[q] {
        var s := SubsysNamed(t, q);
        assert SubsysValue(s, InBandMgmt) == SubsysValue(s, OutOfBandMgmt);
      }
    }
    assert a.hosts == b.hosts by {
      forall h | h in a.hosts || h in b.hosts ensures h in a.hosts && h in b.hosts {
        var s, x :| s in t.subsystems && x in s.hosts && x.nqn == h && x in PushedHosts(s, InBandMgmt);
      }
    }
    assert EraseTreq(a).ports == EraseTreq(b).ports;
  }
}
