/** The lists that the endpoint keeps of an SPDK server's configuration, and the server behind
    the RPCs (src/endpoint/spdk_config.c), as values. The server serves every request that its
    state allows; the caller of an operation says whether an NQN is well formed. */
module SpdkModel {
  import opened CTypes

  datatype Addr = Addr(typ: string, family: string, address: string, port: string)

  datatype Port = Port(id: Int32, addr: Addr)

  /** A local subsystem: its hosts, and the ids of the ports it is linked to. */
  datatype Sub = Sub(nqn: string, allowAny: bool, hosts: seq<string>, links: seq<Int32>)

  datatype ServerSub = ServerSub(allowAny: bool, hosts: set<string>, listeners: set<Addr>)

  type Server = map<string, ServerSub>

  datatype State = State(subs: seq<Sub>, ports: seq<Port>, server: Server)

  datatype Code = Ok | NoEntry | Exists | Invalid | Refused

  // The RPCs.

  function CreateRpc(v: Server, nqn: string, allowAny: bool): (Server, bool) {
    if nqn in v then (v, false) else (v[nqn := ServerSub(allowAny, {}, {})], true)
  }

  function DeleteRpc(v: Server, nqn: string): (Server, bool) {
    if nqn in v then (v - {nqn}, true) else (v, false)
  }

  function AddListener(v: Server, nqn: string, a: Addr): (Server, bool) {
    if nqn in v && a !in v[nqn].listeners then (v[nqn := v[nqn].(listeners := v[nqn].listeners + {a})], true)
    else (v, false)
  }

  function RemoveListener(v: Server, nqn: string, a: Addr): (Server, bool) {
    if nqn in v && a in v[nqn].listeners then (v[nqn := v[nqn].(listeners := v[nqn].listeners - {a})], true)
    else (v, false)
  }

  function AddHost(v: Server, nqn: string, host: string): (Server, bool) {
    if nqn in v && host !in v[nqn].hosts then (v[nqn := v[nqn].(hosts := v[nqn].hosts + {host})], true)
    else (v, false)
  }

  function RemoveHost(v: Server, nqn: string, host: string): (Server, bool) {
    if nqn in v && host in v[nqn].hosts then (v[nqn := v[nqn].(hosts := v[nqn].hosts - {host})], true)
    else (v, false)
  }

  // Finding.

  function FindSub(subs: seq<Sub>, nqn: string): (i: nat)
    ensures i <= |subs| && (forall k :: 0 <= k < i ==> subs[k].nqn != nqn)
    ensures i < |subs| ==> subs[i].nqn == nqn
  {
    if subs == [] || subs[0].nqn == nqn then 0 else 1 + FindSub(subs[1..], nqn)
  }

  function FindPort(ports: seq<Port>, id: Int32): (i: nat)
    ensures i <= |ports| && (forall k :: 0 <= k < i ==> ports[k].id != id)
    ensures i < |ports| ==> ports[i].id == id
  {
    if ports == [] || ports[0].id == id then 0 else 1 + FindPort(ports[1..], id)
  }

  function Without<T(==)>(s: seq<T>, v: T): (r: seq<T>)
    ensures |r| <= |s|
  {
    if s == [] then [] else if s[0] == v then s[1..] else [s[0]] + Without(s[1..], v)
  }

  // The operations.

  function CreateSubsys(s: State, nqn: string, allowAny: bool, valid: bool): (State, Code) {
    if !valid then (s, Invalid)
    else if FindSub(s.subs, nqn) < |s.subs| then (s, Exists)
    else
      var (v, ok) := CreateRpc(s.server, nqn, allowAny);
      (State([Sub(nqn, allowAny, [], [])] + s.subs, s.ports, v), if ok then Ok else Refused)
  }

  function DeleteSubsys(s: State, nqn: string): (State, Code) {
    var i := FindSub(s.subs, nqn);
    if i == |s.subs| then (s, NoEntry)
    else (State(s.subs[..i] + s.subs[i + 1..], s.ports, DeleteRpc(s.server, nqn).0), Ok)
  }

  function CreatePortid(s: State, id: Int32, a: Addr): (State, Code) {
    if FindPort(s.ports, id) < |s.ports| then (s, Exists)
    else (s.(ports := [Port(id, a)] + s.ports), Ok)
  }

  /** The address of a linked port, which the link points to. */
  function AddrOf(ports: seq<Port>, id: Int32): Addr {
    var i := FindPort(ports, id);
    if i < |ports| then ports[i].addr else Addr("", "", "", "")
  }

  function RemoveAll(v: Server, nqn: string, links: seq<Int32>, ports: seq<Port>): Server {
    if links == [] then v
    else RemoveListener(RemoveAll(v, nqn, links[..|links| - 1], ports), nqn, AddrOf(ports, links[|links| - 1])).0
  }

  function AddAll(v: Server, nqn: string, links: seq<Int32>, ports: seq<Port>): Server {
    if links == [] then v
    else AddListener(AddAll(v, nqn, links[..|links| - 1], ports), nqn, AddrOf(ports, links[|links| - 1])).0
  }

  /** The server may refuse a host for reasons of its own. */
  function LinkHost(s: State, nqn: string, host: string, valid: bool, accepts: bool): (State, Code) {
    var i := FindSub(s.subs, nqn);
    if !valid then (s, Invalid)
    else if i == |s.subs| then (s, NoEntry)
    else if host in s.subs[i].hosts then (s, Ok)
    else
      var l := s.subs[i];
      var v := if l.hosts == [] then RemoveAll(s.server, nqn, l.links, s.ports) else s.server;
      var (w, ok) := AddHost(v, nqn, host);
      if !ok || !accepts then (s.(server := v), Refused)
      else
        var x := if l.hosts == [] then AddAll(w, nqn, l.links, s.ports) else w;
        (State(s.subs[i := l.(hosts := l.hosts + [host])], s.ports, x), Ok)
  }

  function UnlinkHost(s: State, nqn: string, host: string): (State, Code) {
    var i := FindSub(s.subs, nqn);
    if i == |s.subs| then (s, NoEntry)
    else if host !in s.subs[i].hosts then (s, Ok)
    else
      var l := s.subs[i];
      var (v, ok) := RemoveHost(s.server, nqn, host);
      (State(s.subs[i := l.(hosts := Without(l.hosts, host))], s.ports, v), if ok then Ok else Refused)
  }

  function LinkPort(s: State, nqn: string, id: Int32): (State, Code) {
    var p, i := FindPort(s.ports, id), FindSub(s.subs, nqn);
    if p == |s.ports| || i == |s.subs| then (s, Invalid)
    else if id in s.subs[i].links then (s, Ok)
    else
      var (v, ok) := AddListener(s.server, nqn, s.ports[p].addr);
      if !ok then (s, Refused)
      else (State(s.subs[i := s.subs[i].(links := [id] + s.subs[i].links)], s.ports, v), Ok)
  }

  /** The listener is removed first, whether or not the port is linked. */
  function UnlinkPort(s: State, nqn: string, id: Int32): (State, Code) {
    var p, i := FindPort(s.ports, id), FindSub(s.subs, nqn);
    if p == |s.ports| || i == |s.subs| then (s, NoEntry)
    else
      var (v, ok) := RemoveListener(s.server, nqn, s.ports[p].addr);
      if !ok then (s, Refused)
      else (State(s.subs[i := s.subs[i].(links := Without(s.subs[i].links, id))], s.ports, v), Ok)
  }

  /** The port unlinked from every subsystem from n on. */
  function UnlinkFrom(s: State, id: Int32, n: nat): State
    requires n <= |s.subs|
    decreases |s.subs| - n
  {
    if n == |s.subs| then s else UnlinkFrom(UnlinkPort(s, s.subs[n].nqn, id).0, id, n + 1)
  }

  function DeletePortid(s: State, id: Int32): (State, Code) {
    var p := FindPort(s.ports, id);
    if p == |s.ports| then (s, Ok)
    else
      var t := UnlinkFrom(s, id, 0);
      (t.(ports := s.ports[..p] + s.ports[p + 1..]), Ok)
  }

  function DeletePorts(s: State, ids: seq<Int32>): State
    decreases |ids|
  {
    if ids == [] then s else DeletePorts(DeletePortid(s, ids[0]).0, ids[1..])
  }

  function DeleteSubs(s: State, nqns: seq<string>): State
    decreases |nqns|
  {
    if nqns == [] then s else DeleteSubs(DeleteSubsys(s, nqns[0]).0, nqns[1..])
  }

  function Ids(ports: seq<Port>): seq<Int32> {
    seq(|ports|, i requires 0 <= i < |ports| => ports[i].id)
  }

  function Nqns(subs: seq<Sub>): (r: seq<string>)
    ensures |r| == |subs|
  {
    seq(|subs|, i requires 0 <= i < |subs| => subs[i].nqn)
  }

  function Reset(s: State): State {
    var t := DeletePorts(s, Ids(s.ports));
    DeleteSubs(t, Nqns(t.subs))
  }

  // The mirror.

  predicate NoDup<T(==)>(s: seq<T>) {
    forall i, j :: 0 <= i < j < |s| ==> s[i] != s[j]
  }

  ghost function Addrs(links: seq<Int32>, ports: seq<Port>): set<Addr> {
    set p: nat | p < |ports| && ports[p].id in links :: ports[p].addr
  }

  ghost function Elements(s: seq<string>): set<string> {
    set x | x in s
  }

  /** Port ids are unique, and so are the addresses. */
  ghost predicate PortsOk(ports: seq<Port>) {
    && (forall i, j :: 0 <= i < j < |ports| ==> ports[i].id != ports[j].id)
    && (forall i, j :: 0 <= i < j < |ports| ==> ports[i].addr != ports[j].addr)
  }

  /** The server's subsystem has exactly the local hosts and a listener for exactly the linked
      ports, each of which exists. */
  ghost predicate SubMirrors(l: Sub, ports: seq<Port>, r: ServerSub) {
    && r.allowAny == l.allowAny
    && NoDup(l.hosts) && r.hosts == Elements(l.hosts)
    && NoDup(l.links) && (forall k :: 0 <= k < |l.links| ==> FindPort(ports, l.links[k]) < |ports|)
    && r.listeners == Addrs(l.links, ports)
  }

  ghost predicate AllMirror(subs: seq<Sub>, ports: seq<Port>, v: Server) {
    subs == [] ||
    var n := |subs| - 1;
    AllMirror(subs[..n], ports, v) && subs[n].nqn in v && SubMirrors(subs[n], ports, v[subs[n].nqn])
  }

  /** The local subsystems, with unique names, are those of the server. */
  ghost predicate Mirror(s: State) {
    && PortsOk(s.ports) && NoDup(Nqns(s.subs))
    && s.server.Keys == Elements(Nqns(s.subs))
    && AllMirror(s.subs, s.ports, s.server)
  }
}
