/** The endpoint manager's target configuration: the nvmet tree of configfs and the
    operations that src/endpoint/configfs.c performs on it.

    A directory is a key of a map or an element of a set, an attribute file is a value,
    and a symbolic link is an element of a relation. */
module ConfigFs {
  import opened CTypes

  const ENOENT := 2
  const EBUSY := 16
  const NULLB_DEVID := -1
  const TREQ_REQUIRED := 1
  const TREQ_NOT_REQUIRED := 2

  datatype Treq = NotSpecified | Required | NotRequired

  datatype Port = Port(adrfam: string, trtype: string, treq: Treq, traddr: string, trsvcid: Int32)

  datatype Device = NullBlock | NvmeDevice(devid: Int32, nsid: Int32)

  datatype Subsys = Subsys(allowAny: bool, namespaces: map<Int32, Device>, allowed: set<string>)

  datatype Tree = Tree(
    subsystems: map<string, Subsys>,
    ports: map<Int32, Port>,
    hosts: set<string>,
    links: set<(Int32, string)>)

  const EMPTY := Tree(map[], map[], {}, {})

  /** One call through the table of endpoint operations. */
  datatype Op =
    | CreateSubsys(nqn: string, allowany: Int32)
    | DeleteSubsys(nqn: string)
    | CreateNs(nqn: string, nsid: Int32, devid: Int32, devnsid: Int32)
    | DeleteNs(nqn: string, nsid: Int32)
    | CreateHost(host: string)
    | DeleteHost(host: string)
    | CreatePort(id: Int32, fam: string, typ: string, req: Int32, addr: string, svcid: Int32)
    | DeletePort(id: Int32)
    | LinkHost(nqn: string, host: string)
    | UnlinkHost(nqn: string, host: string)
    | LinkPort(nqn: string, id: Int32)
    | UnlinkPort(nqn: string, id: Int32)
    | ResetConfig

  datatype Outcome = Outcome(tree: Tree, ok: bool)

  /** No link dangles: every allowed host and every linked port and subsystem exists. */
  ghost predicate WellLinked(t: Tree) {
    && (forall n <- t.subsystems :: t.subsystems[n].allowed <= t.hosts)
    && (forall l <- t.links :: l.0 in t.ports && l.1 in t.subsystems)
  }

  function TreqOf(req: Int32): Treq {
    if req == TREQ_REQUIRED then Required
    else if req == TREQ_NOT_REQUIRED then NotRequired
    else NotSpecified
  }

  function DeviceOf(devid: Int32, devnsid: Int32): Device {
    if devid == NULLB_DEVID then NullBlock else NvmeDevice(devid, devnsid)
  }

  /** A port is enabled, and its attributes frozen, while a subsystem is linked to it. */
  predicate Enabled(t: Tree, id: Int32) {
    exists l <- t.links :: l.0 == id
  }

  predicate Referenced(t: Tree, host: string) {
    exists n <- t.subsystems :: host in t.subsystems[n].allowed
  }

  /** What each operation makes of the tree, and whether it reports success. */
  function Exec(t: Tree, op: Op): Outcome {
    match op
    case CreateSubsys(n, any) =>
      var s := if n in t.subsystems then t.subsystems[n] else Subsys(false, map[], {});
      Outcome(t.(subsystems := t.subsystems[n := s.(allowAny := any != 0)]), true)
    case DeleteSubsys(n) =>
      if n !in t.subsystems then Outcome(t, true)
      else Outcome(t.(subsystems := t.subsystems - {n}, links := set l <- t.links | l.1 != n), true)
    case CreateNs(n, nsid, devid, devnsid) =>
      if n !in t.subsystems then Outcome(t, false)
      else if nsid in t.subsystems[n].namespaces then Outcome(t, true)
      else
        var s := t.subsystems[n];
        var ns := s.namespaces[nsid := DeviceOf(devid, devnsid)];
        Outcome(t.(subsystems := t.subsystems[n := s.(namespaces := ns)]), true)
    case DeleteNs(n, nsid) =>
      if n !in t.subsystems then Outcome(t, true)
      else
        var s := t.subsystems[n];
        Outcome(t.(subsystems := t.subsystems[n := s.(namespaces := s.namespaces - {nsid})]), true)
    case CreateHost(h) =>
      Outcome(t.(hosts := t.hosts + {h}), true)
    case DeleteHost(h) =>
      Outcome(if Referenced(t, h) then t else t.(hosts := t.hosts - {h}), true)
    case CreatePort(id, fam, typ, req, addr, svcid) =>
      var port := Port(fam, typ, TreqOf(req), addr, svcid);
      if id in t.ports && Enabled(t, id) then Outcome(t, t.ports[id] == port)
      else Outcome(t.(ports := t.ports[id := port]), true)
    case DeletePort(id) =>
      if id !in t.ports then Outcome(t, true)
      else Outcome(t.(ports := t.ports - {id}, links := set l <- t.links | l.0 != id), true)
    case LinkHost(n, h) =>
      if n !in t.subsystems then Outcome(t, false)
      else if h in t.subsystems[n].allowed then Outcome(t, true)
      else if h !in t.hosts then Outcome(t, false)
      else
        var s := t.subsystems[n];
        Outcome(t.(subsystems := t.subsystems[n := s.(allowed := s.allowed + {h})]), true)
    case UnlinkHost(n, h) =>
      if n !in t.subsystems then Outcome(t, true)
      else
        var s := t.subsystems[n];
        Outcome(t.(subsystems := t.subsystems[n := s.(allowed := s.allowed - {h})]), true)
    case LinkPort(n, id) =>
      if id !in t.ports then Outcome(t, false)
      else if (id, n) in t.links then Outcome(t, true)
      else if n !in t.subsystems then Outcome(t, false)
      else Outcome(t.(links := t.links + {(id, n)}), true)
    case UnlinkPort(n, id) =>
      Outcome(t.(links := t.links - {(id, n)}), true)
    case ResetConfig =>
      Outcome(EMPTY, true)
  }

  /** Whatever a peer sends, and in whatever order, no link is ever left dangling. */
  lemma ExecKeepsLinks(t: Tree, op: Op)
    requires WellLinked(t)
    ensures WellLinked(Exec(t, op).tree)
  {
    var u := Exec(t, op).tree;
    forall n <- u.subsystems ensures u.subsystems[n].allowed <= u.hosts {
      if op.DeleteHost? && op.host in t.subsystems[n].allowed {
        assert Referenced(t, op.host);
      }
    }
  }

  function Run(t: Tree, ops: seq<Op>): Tree
    decreases |ops|
  {
    if ops == [] then t else Run(Exec(t, ops[0]).tree, ops[1..])
  }

  lemma {:induction false} RunKeepsLinks(t: Tree, ops: seq<Op>)
    requires WellLinked(t)
    ensures WellLinked(Run(t, ops))
    decreases |ops|
  {
    if ops != [] {
      ExecKeepsLinks(t, ops[0]);
      RunKeepsLinks(Exec(t, ops[0]).tree, ops[1..]);
    }
  }

  /** The mounted tree, updated in place by the endpoint manager. */
  class Nvmet {
    var subsystems: map<string, Subsys>
    var ports: map<Int32, Port>
    var hosts: set<string>
    var links: set<(Int32, string)>

    constructor ()
      ensures Value() == EMPTY
    {
      subsystems, ports, hosts, links := map[], map[], {}, {};
    }

    function Value(): Tree
      reads this
    {
      Tree(subsystems, ports, hosts, links)
    }

    method CreateSubsystem(nqn: string, allowany: Int32) returns (ret: int)
      modifies this
      ensures Outcome(Value(), ret == 0) == Exec(old(Value()), CreateSubsys(nqn, allowany))
    {
      if nqn !in subsystems {
        subsystems := subsystems[nqn := Subsys(false, map[], {})];
      }
      subsystems := subsystems[nqn := subsystems[nqn].(allowAny := allowany != 0)];
      ret := 0;
    }

    method DeleteSubsystem(nqn: string) returns (ret: int)
      modifies this
      ensures Outcome(Value(), ret == 0) == Exec(old(Value()), DeleteSubsys(nqn))
      ensures hosts == old(hosts) && ports == old(ports)
      ensures old(WellLinked(Value())) ==> WellLinked(Value())
    {
      ExecKeepsLinksIfAny(Value(), DeleteSubsys(nqn));
      ret := 0;
      if nqn !in subsystems {
        return;
      }
      subsystems := subsystems[nqn := subsystems[nqn].(allowed := {})];
      subsystems := subsystems[nqn := subsystems[nqn].(namespaces := map[])];
      links := set l <- links | l.1 != nqn;
      subsystems := subsystems - {nqn};
    }

    method CreateNamespace(nqn: string, nsid: Int32, devid: Int32, devnsid: Int32) returns (ret: int)
      modifies this
      ensures Outcome(Value(), ret == 0) == Exec(old(Value()), CreateNs(nqn, nsid, devid, devnsid))
    {
      if nqn !in subsystems {
        return -ENOENT;
      }
      var s := subsystems[nqn];
      if nsid !in s.namespaces {
        var device := if devid == NULLB_DEVID then NullBlock else NvmeDevice(devid, devnsid);
        subsystems := subsystems[nqn := s.(namespaces := s.namespaces[nsid := device])];
      }
      ret := 0;
    }

    method DeleteNamespace(nqn: string, nsid: Int32) returns (ret: int)
      modifies this
      ensures Outcome(Value(), ret == 0) == Exec(old(Value()), DeleteNs(nqn, nsid))
    {
      if nqn in subsystems {
        var s := subsystems[nqn];
        subsystems := subsystems[nqn := s.(namespaces := s.namespaces - {nsid})];
      }
      ret := 0;
    }

    method CreateAllowedHost(host: string) returns (ret: int)
      modifies this
      ensures Outcome(Value(), ret == 0) == Exec(old(Value()), CreateHost(host))
    {
      hosts := hosts + {host};
      ret := 0;
    }

    /** rmdir refuses a host directory that an allowed_hosts link still points to. */
    method DeleteAllowedHost(host: string) returns (ret: int)
      modifies this
      ensures Outcome(Value(), ret == 0) == Exec(old(Value()), DeleteHost(host))
      ensures subsystems == old(subsystems) && ports == old(ports) && links == old(links)
    {
      if !Referenced(Value(), host) {
        hosts := hosts - {host};
      }
      ret := 0;
    }

    /** Writes to an enabled port are refused; an existing port is read back and compared. */
    method CreatePortid(id: Int32, fam: string, typ: string, req: Int32, addr: string, svcid: Int32)
      returns (ret: int)
      modifies this
      ensures Outcome(Value(), ret == 0) == Exec(old(Value()), CreatePort(id, fam, typ, req, addr, svcid))
    {
      var existed := id in ports;
      if !existed || !Enabled(Value(), id) {
        ports := ports[id := Port(fam, typ, TreqOf(req), addr, svcid)];
      }
      if !existed {
        return 0;
      }
      ret := -EBUSY;
      var val := ports[id];
      if val.adrfam != fam {
        return;
      }
      if val.trtype != typ {
        return;
      }
      if val.traddr != addr {
        return;
      }
      if val.treq != TreqOf(req) {
        return;
      }
      if val.trsvcid != svcid {
        return;
      }
      ret := 0;
    }

    method DeletePortid(id: Int32) returns (ret: int)
      modifies this
      ensures Outcome(Value(), ret == 0) == Exec(old(Value()), DeletePort(id))
      ensures hosts == old(hosts) && subsystems == old(subsystems)
      ensures old(WellLinked(Value())) ==> WellLinked(Value())
    {
      ExecKeepsLinksIfAny(Value(), DeletePort(id));
      if id in ports {
        links := set l <- links | l.0 != id;
        ports := ports - {id};
      }
      ret := 0;
    }

    method LinkHostToSubsys(nqn: string, host: string) returns (ret: int)
      modifies this
      ensures Outcome(Value(), ret == 0) == Exec(old(Value()), LinkHost(nqn, host))
    {
      if nqn !in subsystems {
        return -ENOENT;
      }
      var s := subsystems[nqn];
      if host in s.allowed {
        return 0;
      }
      if host !in hosts {
        return -ENOENT;
      }
      subsystems := subsystems[nqn := s.(allowed := s.allowed + {host})];
      ret := 0;
    }

    method UnlinkHostFromSubsys(nqn: string, host: string) returns (ret: int)
      modifies this
      ensures Outcome(Value(), ret == 0) == Exec(old(Value()), UnlinkHost(nqn, host))
    {
      if nqn in subsystems {
        var s := subsystems[nqn];
        subsystems := subsystems[nqn := s.(allowed := s.allowed - {host})];
      }
      ret := 0;
    }

    method LinkPortToSubsys(nqn: string, id: Int32) returns (ret: int)
      modifies this
      ensures Outcome(Value(), ret == 0) == Exec(old(Value()), LinkPort(nqn, id))
    {
      if id !in ports {
        return -ENOENT;
      }
      if (id, nqn) in links {
        return 0;
      }
      if nqn !in subsystems {
        return -ENOENT;
      }
      links := links + {(id, nqn)};
      ret := 0;
    }

    method UnlinkPortFromSubsys(nqn: string, id: Int32) returns (ret: int)
      modifies this
      ensures Outcome(Value(), ret == 0) == Exec(old(Value()), UnlinkPort(nqn, id))
    {
      links := links - {(id, nqn)};
      ret := 0;
    }

    method DeleteAllPortids()
      requires WellLinked(Value()) && subsystems == map[]
      modifies this
      ensures Value() == EMPTY.(hosts := old(hosts))
    {
      while ports.Keys != {}
        invariant WellLinked(Value()) && subsystems == map[] && hosts == old(hosts)
        decreases ports.Keys
      {
        var id := NextEntry(ports.Keys);
        var _ := DeletePortid(id);
      }
      assert links == {} by {
        assert forall l <- links :: l.0 in ports;
      }
    }

    /** Directories are visited in whatever order readdir returns them. Subsystems go first,
        so that no allowed_hosts link is left to keep a host directory from being removed. */
    method Reset()
      requires WellLinked(Value())
      modifies this
      ensures Value() == EMPTY
    {
      while subsystems.Keys != {}
        invariant WellLinked(Value())
        decreases subsystems.Keys
      {
        var n := NextEntry(subsystems.Keys);
        var _ := DeleteSubsystem(n);
      }
      DeleteAllPortids();
      while hosts != {}
        invariant Value() == EMPTY.(hosts := hosts)
        decreases hosts
      {
        var h := NextEntry(hosts);
        var _ := DeleteAllowedHost(h);
      }
    }

    /** The dispatch shared by the in-band and the REST front ends. */
    method Call(op: Op) returns (ret: int)
      requires WellLinked(Value())
      modifies this
      ensures Outcome(Value(), ret == 0) == Exec(old(Value()), op)
      ensures WellLinked(Value())
    {
      ExecKeepsLinks(Value(), op);
      match op
      case CreateSubsys(n, any) => ret := CreateSubsystem(n, any);
      case DeleteSubsys(n) => ret := DeleteSubsystem(n);
      case CreateNs(n, nsid, devid, devnsid) => ret := CreateNamespace(n, nsid, devid, devnsid);
      case DeleteNs(n, nsid) => ret := DeleteNamespace(n, nsid);
      case CreateHost(h) => ret := CreateAllowedHost(h);
      case DeleteHost(h) => ret := DeleteAllowedHost(h);
      case CreatePort(id, fam, typ, req, addr, svcid) => ret := CreatePortid(id, fam, typ, req, addr, svcid);
      case DeletePort(id) => ret := DeletePortid(id);
      case LinkHost(n, h) => ret := LinkHostToSubsys(n, h);
      case UnlinkHost(n, h) => ret := UnlinkHostFromSubsys(n, h);
      case LinkPort(n, id) => ret := LinkPortToSubsys(n, id);
      case UnlinkPort(n, id) => ret := UnlinkPortFromSubsys(n, id);
      case ResetConfig => Reset(); ret := 0;
    }
  }

  /** The next entry that readdir returns. */
  method NextEntry<T(==)>(names: set<T>) returns (name: T)
    requires names != {}
    ensures name in names
  {
    name :| name in names;
  }

  lemma ExecKeepsLinksIfAny(t: Tree, op: Op)
    ensures WellLinked(t) ==> WellLinked(Exec(t, op).tree)
  {
    if WellLinked(t) {
      ExecKeepsLinks(t, op);
    }
  }
}
