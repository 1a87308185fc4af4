/** After every operation the endpoint's lists and the SPDK server agree. */
module SpdkMirror {
  import opened CTypes
  import opened SpdkModel

  lemma Start()
    ensures Mirror(State([], [], map[]))
  {
    assert Nqns([]) == [];
  }

  lemma InNqns(subs: seq<Sub>, i: nat)
    requires i < |subs|
    ensures subs[i].nqn in Elements(Nqns(subs))
  {
    assert Nqns(subs)[i] == subs[i].nqn;
  }

  lemma {:induction false} AllMirrorAt(subs: seq<Sub>, ports: seq<Port>, v: Server, i: nat)
    requires AllMirror(subs, ports, v) && i < |subs|
    ensures subs[i].nqn in v && SubMirrors(subs[i], ports, v[subs[i].nqn])
  {
    var n := |subs| - 1;
    if i < n {
      AllMirrorAt(subs[..n], ports, v, i);
    }
  }

  lemma {:induction false} AllMirrorFrom(subs: seq<Sub>, ports: seq<Port>, v: Server)
    requires forall i :: 0 <= i < |subs| ==> subs[i].nqn in v && SubMirrors(subs[i], ports, v[subs[i].nqn])
    ensures AllMirror(subs, ports, v)
  {
    if subs != [] {
      var n := |subs| - 1;
      assert forall i :: 0 <= i < n ==> subs[..n][i] == subs[i];
      AllMirrorFrom(subs[..n], ports, v);
    }
  }

  /** The server's side of local subsystem i. */
  ghost function Remote(s: State, i: nat): (r: ServerSub)
    requires Mirror(s) && i < |s.subs|
    ensures s.subs[i].nqn in s.server && r == s.server[s.subs[i].nqn] && SubMirrors(s.subs[i], s.ports, r)
  {
    AllMirrorAt(s.subs, s.ports, s.server, i);
    s.server[s.subs[i].nqn]
  }

  lemma NqnsDiffer(s: State, i: nat, j: nat)
    requires Mirror(s) && i < |s.subs| && j < |s.subs| && i != j
    ensures s.subs[i].nqn != s.subs[j].nqn
  {
    assert Nqns(s.subs)[i] == s.subs[i].nqn && Nqns(s.subs)[j] == s.subs[j].nqn;
  }

  lemma FindSubIs(s: State, i: nat)
    requires Mirror(s) && i < |s.subs|
    ensures FindSub(s.subs, s.subs[i].nqn) == i
  {
    var k := FindSub(s.subs, s.subs[i].nqn);
    if k < i {
      NqnsDiffer(s, k, i);
    }
  }

  /** One subsystem changed here and there. */
  lemma SubChanged(s: State, i: nat, l: Sub, r: ServerSub)
    requires Mirror(s) && i < |s.subs| && l.nqn == s.subs[i].nqn && SubMirrors(l, s.ports, r)
    ensures Mirror(State(s.subs[i := l], s.ports, s.server[l.nqn := r]))
  {
    var subs, v := s.subs[i := l], s.server[l.nqn := r];
    InNqns(s.subs, i);
    assert Nqns(subs) == Nqns(s.subs);
    forall k | 0 <= k < |subs|
      ensures subs[k].nqn in v && SubMirrors(subs[k], s.ports, v[subs[k].nqn])
    {
      if k != i {
        NqnsDiffer(s, i, k);
        assert Remote(s, k) == v[subs[k].nqn];
      }
    }
    AllMirrorFrom(subs, s.ports, v);
  }

  lemma {:induction false} WithoutIs<T>(s: seq<T>, v: T)
    requires NoDup(s)
    ensures NoDup(Without(s, v))
    ensures forall x :: x in Without(s, v) <==> x in s && x != v
  {
    if s != [] {
      WithoutIs(s[1..], v);
      assert forall x :: x in s <==> x == s[0] || x in s[1..];
      if s[0] != v {
        var rest := Without(s[1..], v);
        forall i | 0 <= i < |rest|
          ensures rest[i] != s[0]
        {
          assert rest[i] in rest;
        }
      }
    }
  }

  // Subsystems.

  lemma NewSubsys(s: State, nqn: string, allowAny: bool)
    requires Mirror(s) && nqn !in s.server
    ensures Mirror(State([Sub(nqn, allowAny, [], [])] + s.subs, s.ports, s.server[nqn := ServerSub(allowAny, {}, {})]))
  {
    Unknown(s, nqn);
    var subs, v := [Sub(nqn, allowAny, [], [])] + s.subs, s.server[nqn := ServerSub(allowAny, {}, {})];
    forall k | 0 <= k < |subs|
      ensures subs[k].nqn in v && SubMirrors(subs[k], s.ports, v[subs[k].nqn])
    {
      if k > 0 {
        assert Remote(s, k - 1) == v[subs[k].nqn];
      }
    }
    AllMirrorFrom(subs, s.ports, v);
    assert Nqns(subs) == [nqn] + Nqns(s.subs);
    assert forall k :: 0 <= k < |s.subs| ==> Nqns(s.subs)[k] == s.subs[k].nqn;
  }

  lemma Unknown(s: State, nqn: string)
    requires Mirror(s)
    ensures nqn in s.server <==> FindSub(s.subs, nqn) < |s.subs|
  {
    var i := FindSub(s.subs, nqn);
    assert forall k :: 0 <= k < |s.subs| ==> Nqns(s.subs)[k] == s.subs[k].nqn;
    if i < |s.subs| {
      InNqns(s.subs, i);
    }
  }

  /** A new subsystem stands first in the list, without hosts and links, and on the server
      without hosts and listeners; one that exists, or whose NQN is not well formed, is refused. */
  lemma CreateSubsysIs(s: State, nqn: string, allowAny: bool, valid: bool)
    requires Mirror(s)
    ensures var (t, code) := CreateSubsys(s, nqn, allowAny, valid);
      if valid && forall k :: 0 <= k < |s.subs| ==> s.subs[k].nqn != nqn then
        code.Ok? && t == State([Sub(nqn, allowAny, [], [])] + s.subs, s.ports, s.server[nqn := ServerSub(allowAny, {}, {})])
      else !code.Ok? && t == s
  {
    Unknown(s, nqn);
  }

  lemma CreateSubsysKeeps(s: State, nqn: string, allowAny: bool, valid: bool)
    requires Mirror(s)
    ensures Mirror(CreateSubsys(s, nqn, allowAny, valid).0)
    ensures CreateSubsys(s, nqn, allowAny, valid).1.Ok? <==> valid && nqn !in s.server
  {
    Unknown(s, nqn);
    if valid && nqn !in s.server {
      NewSubsys(s, nqn, allowAny);
    }
  }

  lemma NqnsWithout(subs: seq<Sub>, i: nat)
    requires i < |subs| && NoDup(Nqns(subs))
    ensures NoDup(Nqns(subs[..i] + subs[i + 1..]))
    ensures Elements(Nqns(subs[..i] + subs[i + 1..])) == Elements(Nqns(subs)) - {subs[i].nqn}
  {
    var left := subs[..i] + subs[i + 1..];
    assert forall k :: 0 <= k < |left| ==> Nqns(left)[k] == Nqns(subs)[if k < i then k else k + 1];
    assert Nqns(subs)[i] == subs[i].nqn;
    forall x
      ensures x in Nqns(left) <==> x in Nqns(subs) && x != subs[i].nqn
    {
      if x in Nqns(left) {
        var k :| 0 <= k < |left| && Nqns(left)[k] == x;
        assert Nqns(subs)[if k < i then k else k + 1] == x;
      }
      if x in Nqns(subs) && x != subs[i].nqn {
        var k :| 0 <= k < |subs| && Nqns(subs)[k] == x;
        assert Nqns(left)[if k < i then k else k - 1] == x;
      }
    }
  }

  /** The subsystems other than the one at i still agree with the server without it. */
  lemma OthersMirror(s: State, i: nat)
    requires Mirror(s) && i < |s.subs|
    ensures AllMirror(s.subs[..i] + s.subs[i + 1..], s.ports, s.server - {s.subs[i].nqn})
  {
    var left, v := s.subs[..i] + s.subs[i + 1..], s.server - {s.subs[i].nqn};
    forall k | 0 <= k < |left|
      ensures left[k].nqn in v && SubMirrors(left[k], s.ports, v[left[k].nqn])
    {
      var n := if k < i then k else k + 1;
      NqnsDiffer(s, i, n);
      assert Remote(s, n) == v[left[k].nqn];
    }
    AllMirrorFrom(left, s.ports, v);
  }

  lemma SubGone(s: State, i: nat)
    requires Mirror(s) && i < |s.subs|
    ensures Mirror(State(s.subs[..i] + s.subs[i + 1..], s.ports, s.server - {s.subs[i].nqn}))
  {
    NqnsWithout(s.subs, i);
    OthersMirror(s, i);
  }

  lemma DeleteSubsysIs(s: State, i: nat)
    requires Mirror(s) && i < |s.subs|
    ensures DeleteSubsys(s, s.subs[i].nqn) ==
      (State(s.subs[..i] + s.subs[i + 1..], s.ports, s.server - {s.subs[i].nqn}), Ok)
  {
    FindSubIs(s, i);
    Unknown(s, s.subs[i].nqn);
  }

  lemma DeleteSubsysMissing(s: State, nqn: string)
    requires Mirror(s) && forall k :: 0 <= k < |s.subs| ==> s.subs[k].nqn != nqn
    ensures DeleteSubsys(s, nqn) == (s, NoEntry)
  {
  }

  lemma DeleteSubsysKeeps(s: State, nqn: string)
    requires Mirror(s)
    ensures Mirror(DeleteSubsys(s, nqn).0)
    ensures nqn !in DeleteSubsys(s, nqn).0.server
  {
    var i := FindSub(s.subs, nqn);
    Unknown(s, nqn);
    if i < |s.subs| {
      DeleteSubsysIs(s, i);
      SubGone(s, i);
    }
  }

  // Ports.

  /** A port with a new id stands first in the list; the server hears nothing of it. */
  lemma CreatePortidIs(s: State, id: Int32, a: Addr)
    ensures var (t, code) := CreatePortid(s, id, a);
      if forall p :: 0 <= p < |s.ports| ==> s.ports[p].id != id then
        code.Ok? && t == State(s.subs, [Port(id, a)] + s.ports, s.server)
      else code.Exists? && t == s
  {
  }

  /** A new port keeps the addresses apart if and only if no port has its address. */
  lemma CreatePortidKeeps(s: State, id: Int32, a: Addr)
    requires Mirror(s) && FindPort(s.ports, id) == |s.ports|
    ensures Mirror(CreatePortid(s, id, a).0) <==> forall p :: 0 <= p < |s.ports| ==> s.ports[p].addr != a
  {
    var t := CreatePortid(s, id, a).0;
    assert t.ports == [Port(id, a)] + s.ports;
    assert forall p :: 0 <= p < |s.ports| ==> t.ports[p + 1] == s.ports[p];
    forall i | 0 <= i < |s.subs|
      ensures s.subs[i].nqn in s.server && SubMirrors(s.subs[i], t.ports, s.server[s.subs[i].nqn])
    {
      PortAdded(s.subs[i], s.ports, Port(id, a), Remote(s, i));
    }
    AllMirrorFrom(s.subs, t.ports, s.server);
    if p :| 0 <= p < |s.ports| && s.ports[p].addr == a {
      assert t.ports[0].addr == t.ports[p + 1].addr;
    }
  }

  lemma PortAdded(l: Sub, ports: seq<Port>, port: Port, r: ServerSub)
    requires SubMirrors(l, ports, r) && FindPort(ports, port.id) == |ports|
    ensures SubMirrors(l, [port] + ports, r)
  {
    var now := [port] + ports;
    assert forall p: nat :: p < |ports| ==> now[p + 1] == ports[p];
    assert now[1..] == ports;
    assert port.id !in l.links;
    forall a
      ensures a in Addrs(l.links, now) <==> a in Addrs(l.links, ports)
    {
      if a in Addrs(l.links, now) {
        var p: nat :| p < |now| && now[p].id in l.links && now[p].addr == a;
        assert ports[p - 1].addr == a && ports[p - 1].id in l.links;
      }
      if a in Addrs(l.links, ports) {
        var p: nat :| p < |ports| && ports[p].id in l.links && ports[p].addr == a;
        assert now[p + 1].addr == a && now[p + 1].id in l.links;
      }
    }
  }

  /** With unique ids and addresses, a port has a listener exactly where it is linked. */
  lemma LinkedExactly(l: Sub, ports: seq<Port>, p: nat)
    requires PortsOk(ports) && p < |ports|
    ensures ports[p].addr in Addrs(l.links, ports) <==> ports[p].id in l.links
  {
    if ports[p].addr in Addrs(l.links, ports) {
      var q: nat :| q < |ports| && ports[q].id in l.links && ports[q].addr == ports[p].addr;
      assert q == p;
    }
  }

  lemma LinkMore(links: seq<Int32>, ports: seq<Port>, p: nat)
    requires PortsOk(ports) && p < |ports|
    ensures Addrs([ports[p].id] + links, ports) == Addrs(links, ports) + {ports[p].addr}
  {
    var more := [ports[p].id] + links;
    assert more[0] == ports[p].id;
    forall a
      ensures a in Addrs(more, ports) <==> a in Addrs(links, ports) || a == ports[p].addr
    {
      if a in Addrs(more, ports) {
        var q: nat :| q < |ports| && ports[q].id in more && ports[q].addr == a;
        assert ports[q].id == ports[p].id ==> q == p;
      }
    }
  }

  lemma LinkLess(links: seq<Int32>, ports: seq<Port>, p: nat)
    requires PortsOk(ports) && p < |ports| && NoDup(links)
    ensures Addrs(Without(links, ports[p].id), ports) == Addrs(links, ports) - {ports[p].addr}
  {
    var less := Without(links, ports[p].id);
    WithoutIs(links, ports[p].id);
    forall a
      ensures a in Addrs(less, ports) <==> a in Addrs(links, ports) && a != ports[p].addr
    {
      if a in Addrs(less, ports) {
        var q: nat :| q < |ports| && ports[q].id in less && ports[q].addr == a;
        assert q != p;
      }
      if a in Addrs(links, ports) && a != ports[p].addr {
        var q: nat :| q < |ports| && ports[q].id in links && ports[q].addr == a;
        assert q != p && ports[q].id in less;
      }
    }
  }

  lemma LinkPortKeeps(s: State, nqn: string, id: Int32)
    requires Mirror(s)
    ensures Mirror(LinkPort(s, nqn, id).0)
    ensures LinkPort(s, nqn, id).1.Ok? <==> FindPort(s.ports, id) < |s.ports| && FindSub(s.subs, nqn) < |s.subs|
  {
    var p, i := FindPort(s.ports, id), FindSub(s.subs, nqn);
    if p < |s.ports| && i < |s.subs| && id !in s.subs[i].links {
      var l := s.subs[i];
      LinkedExactly(l, s.ports, p);
      LinkMore(l.links, s.ports, p);
      var r := Remote(s, i).(listeners := Remote(s, i).listeners + {s.ports[p].addr});
      SubChanged(s, i, l.(links := [id] + l.links), r);
    }
  }

  lemma LinkPortAgain(s: State, i: nat, p: nat)
    requires Mirror(s) && i < |s.subs| && p < |s.ports| && s.ports[p].id in s.subs[i].links
    ensures s.ports[p].addr in Remote(s, i).listeners
    ensures LinkPort(s, s.subs[i].nqn, s.ports[p].id) == (s, Ok)
    ensures s == State(s.subs[i := s.subs[i].(links := [] + s.subs[i].links)], s.ports,
      s.server[s.subs[i].nqn := Remote(s, i).(listeners := Remote(s, i).listeners + {s.ports[p].addr})])
  {
    var l, r := s.subs[i], Remote(s, i);
    FindSubIs(s, i);
    LinkedExactly(l, s.ports, p);
    assert FindPort(s.ports, s.ports[p].id) == p;
    assert r.listeners + {s.ports[p].addr} == r.listeners;
    assert s.subs[i := l] == s.subs && s.server[l.nqn := r] == s.server && [] + l.links == l.links;
  }

  /** Linking adds the link and the listener of the port, where they are not there yet, and does
      nothing when the port or the subsystem is missing. */
  lemma LinkPortIs(s: State, nqn: string, id: Int32)
    requires Mirror(s)
    ensures var p, i := FindPort(s.ports, id), FindSub(s.subs, nqn);
      var (t, code) := LinkPort(s, nqn, id);
      if p < |s.ports| && i < |s.subs| then
        && code.Ok? && |t.subs| == |s.subs| && id in t.subs[i].links
        && nqn in t.server && s.ports[p].addr in t.server[nqn].listeners
        && t == State(s.subs[i := s.subs[i].(links := t.subs[i].links)], s.ports,
                      s.server[nqn := Remote(s, i).(listeners := Remote(s, i).listeners + {s.ports[p].addr})])
        && t.subs[i].links == (if id in s.subs[i].links then [] else [id]) + s.subs[i].links
      else !code.Ok? && t == s
  {
    var p, i := FindPort(s.ports, id), FindSub(s.subs, nqn);
    if p < |s.ports| && i < |s.subs| {
      if id in s.subs[i].links {
        LinkPortAgain(s, i, p);
      } else {
        var r := Remote(s, i);
        LinkedExactly(s.subs[i], s.ports, p);
        assert ([id] + s.subs[i].links)[0] == id;
      }
    }
  }

  /** Unlinking takes away the link and the listener of a port that is linked, and does
      nothing otherwise. */
  lemma UnlinkPortIs(s: State, nqn: string, id: Int32)
    requires Mirror(s)
    ensures var p, i := FindPort(s.ports, id), FindSub(s.subs, nqn);
      var (t, code) := UnlinkPort(s, nqn, id);
      if p < |s.ports| && i < |s.subs| && id in s.subs[i].links then
        code.Ok? && t == State(s.subs[i := s.subs[i].(links := Without(s.subs[i].links, id))], s.ports,
          s.server[nqn := Remote(s, i).(listeners := Remote(s, i).listeners - {s.ports[p].addr})])
      else !code.Ok? && t == s
  {
    var p, i := FindPort(s.ports, id), FindSub(s.subs, nqn);
    if p < |s.ports| && i < |s.subs| {
      assert Remote(s, i) == s.server[nqn];
      LinkedExactly(s.subs[i], s.ports, p);
    }
  }

  /** Unlinking keeps the mirror, the ports and the names. */
  lemma UnlinkPortKeeps(s: State, nqn: string, id: Int32)
    requires Mirror(s)
    ensures var t := UnlinkPort(s, nqn, id).0;
      Mirror(t) && t.ports == s.ports && Nqns(t.subs) == Nqns(s.subs)
  {
    var p, i := FindPort(s.ports, id), FindSub(s.subs, nqn);
    UnlinkPortIs(s, nqn, id);
    if p < |s.ports| && i < |s.subs| && id in s.subs[i].links {
      var l := s.subs[i];
      var r := Remote(s, i).(listeners := Remote(s, i).listeners - {s.ports[p].addr});
      WithoutKeeps(l.links, id);
      LinkLess(l.links, s.ports, p);
      var now := l.(links := Without(l.links, id));
      assert forall k :: 0 <= k < |now.links| ==> now.links[k] in l.links;
      SubChanged(s, i, now, r);
      assert Nqns(s.subs[i := now]) == Nqns(s.subs);
    }
  }

  lemma WithoutKeeps(s: seq<Int32>, v: Int32)
    requires NoDup(s)
    ensures NoDup(Without(s, v)) && v !in Without(s, v)
    ensures forall k :: 0 <= k < |Without(s, v)| ==> Without(s, v)[k] in s
  {
    WithoutIs(s, v);
  }

  /** Afterwards the port is not linked there, and no other subsystem has got it. */
  lemma UnlinkPortLinks(s: State, nqn: string, id: Int32)
    requires Mirror(s) && FindPort(s.ports, id) < |s.ports|
    ensures var t := UnlinkPort(s, nqn, id).0;
      && |t.subs| == |s.subs|
      && (forall i :: 0 <= i < |s.subs| && (s.subs[i].nqn == nqn || id !in s.subs[i].links) ==> id !in t.subs[i].links)
  {
    var i := FindSub(s.subs, nqn);
    UnlinkPortIs(s, nqn, id);
    if i < |s.subs| && id in s.subs[i].links {
      assert SubMirrors(s.subs[i], s.ports, Remote(s, i));
      WithoutKeeps(s.subs[i].links, id);
    }
    forall k | 0 <= k < |s.subs| && (s.subs[k].nqn == nqn || id !in s.subs[k].links)
      ensures id !in UnlinkPort(s, nqn, id).0.subs[k].links
    {
      if s.subs[k].nqn == nqn {
        FindSubIs(s, k);
      }
    }
  }

  /** The port is no longer linked in the first n subsystems. */
  ghost predicate Unlinked(subs: seq<Sub>, id: Int32, n: nat) {
    n <= |subs| && forall i :: 0 <= i < n ==> id !in subs[i].links
  }

  lemma UnlinkNext(s: State, id: Int32, n: nat)
    requires Mirror(s) && FindPort(s.ports, id) < |s.ports| && n < |s.subs| && Unlinked(s.subs, id, n)
    ensures var t := UnlinkPort(s, s.subs[n].nqn, id).0;
      && Mirror(t) && t.ports == s.ports && Nqns(t.subs) == Nqns(s.subs) && |t.subs| == |s.subs|
      && Unlinked(t.subs, id, n + 1)
  {
    UnlinkPortKeeps(s, s.subs[n].nqn, id);
    UnlinkPortLinks(s, s.subs[n].nqn, id);
  }

  lemma {:induction false} UnlinkFromKeeps(s: State, id: Int32, n: nat)
    requires Mirror(s) && FindPort(s.ports, id) < |s.ports| && Unlinked(s.subs, id, n)
    ensures var t := UnlinkFrom(s, id, n);
      && Mirror(t) && t.ports == s.ports && Nqns(t.subs) == Nqns(s.subs)
      && Unlinked(t.subs, id, |t.subs|)
    decreases |s.subs| - n
  {
    if n < |s.subs| {
      UnlinkNext(s, id, n);
      UnlinkFromKeeps(UnlinkPort(s, s.subs[n].nqn, id).0, id, n + 1);
    }
  }

  lemma AddrsStay(links: seq<Int32>, ports: seq<Port>, p: nat)
    requires p < |ports| && ports[p].id !in links
    ensures Addrs(links, ports[..p] + ports[p + 1..]) == Addrs(links, ports)
  {
    var now := ports[..p] + ports[p + 1..];
    assert forall q: nat :: q < |now| ==> now[q] == ports[if q < p then q else q + 1];
    forall a
      ensures a in Addrs(links, now) <==> a in Addrs(links, ports)
    {
      if a in Addrs(links, now) {
        var q: nat :| q < |now| && now[q].id in links && now[q].addr == a;
        assert ports[if q < p then q else q + 1].addr == a;
      }
      if a in Addrs(links, ports) {
        var q: nat :| q < |ports| && ports[q].id in links && ports[q].addr == a;
        assert now[if q < p then q else q - 1].addr == a && now[if q < p then q else q - 1].id in links;
      }
    }
  }

  lemma FoundStill(ports: seq<Port>, p: nat, id: Int32)
    requires p < |ports| && FindPort(ports, id) < |ports| && ports[p].id != id
    ensures var now := ports[..p] + ports[p + 1..]; FindPort(now, id) < |now|
  {
    var now, q := ports[..p] + ports[p + 1..], FindPort(ports, id);
    assert now[if q < p then q else q - 1].id == id;
  }

  /** A port that is not linked anywhere can go. */
  lemma PortGone(t: State, p: nat)
    requires Mirror(t) && p < |t.ports| && Unlinked(t.subs, t.ports[p].id, |t.subs|)
    ensures Mirror(t.(ports := t.ports[..p] + t.ports[p + 1..]))
  {
    var now := t.ports[..p] + t.ports[p + 1..];
    assert forall q: nat :: q < |now| ==> now[q] == t.ports[if q < p then q else q + 1];
    forall i | 0 <= i < |t.subs|
      ensures t.subs[i].nqn in t.server && SubMirrors(t.subs[i], now, t.server[t.subs[i].nqn])
    {
      var l := t.subs[i];
      assert SubMirrors(l, t.ports, Remote(t, i));
      AddrsStay(l.links, t.ports, p);
      forall k | 0 <= k < |l.links|
        ensures FindPort(now, l.links[k]) < |now|
      {
        assert l.links[k] in l.links;
        FoundStill(t.ports, p, l.links[k]);
      }
    }
    AllMirrorFrom(t.subs, now, t.server);
  }

  lemma NotFound(ports: seq<Port>, p: nat)
    requires p < |ports| && forall i, j :: 0 <= i < j < |ports| ==> ports[i].id != ports[j].id
    ensures var now := ports[..p] + ports[p + 1..]; FindPort(now, ports[p].id) == |now|
  {
    var now := ports[..p] + ports[p + 1..];
    assert forall q: nat :: q < |now| ==> now[q] == ports[if q < p then q else q + 1];
  }

  /** A deleted port is unlinked everywhere: no link points to a port that is gone. */
  lemma DeletePortidKeeps(s: State, id: Int32)
    requires Mirror(s)
    ensures Mirror(DeletePortid(s, id).0)
    ensures Nqns(DeletePortid(s, id).0.subs) == Nqns(s.subs)
    ensures FindPort(DeletePortid(s, id).0.ports, id) == |DeletePortid(s, id).0.ports|
  {
    var p := FindPort(s.ports, id);
    if p < |s.ports| {
      UnlinkFromKeeps(s, id, 0);
      PortGone(UnlinkFrom(s, id, 0), p);
      NotFound(s.ports, p);
    }
  }

  lemma UnlinkPortLocal(s: State, n: nat, id: Int32)
    requires Mirror(s) && FindPort(s.ports, id) < |s.ports| && n < |s.subs|
    ensures var l := s.subs[n];
      UnlinkPort(s, l.nqn, id).0.subs == s.subs[n := l.(links := Without(l.links, id))]
  {
    FindSubIs(s, n);
    UnlinkPortIs(s, s.subs[n].nqn, id);
    if id !in s.subs[n].links {
      WithoutAbsent(s.subs[n].links, id);
    }
  }

  lemma {:induction false} WithoutAbsent(links: seq<Int32>, id: Int32)
    requires id !in links
    ensures Without(links, id) == links
  {
    if links != [] {
      WithoutAbsent(links[1..], id);
    }
  }

  /** The port's links are gone from the subsystems from n on, and that is all. */
  ghost predicate UnlinkedFrom(a: seq<Sub>, b: seq<Sub>, id: Int32, n: nat) {
    && |a| == |b| && (forall k :: 0 <= k < n && k < |a| ==> b[k] == a[k])
    && (forall k :: n <= k < |a| ==> b[k] == a[k].(links := Without(a[k].links, id)))
  }

  lemma UnlinkedOneMore(a: seq<Sub>, b: seq<Sub>, id: Int32, n: nat)
    requires n < |a| && UnlinkedFrom(a[n := a[n].(links := Without(a[n].links, id))], b, id, n + 1)
    ensures UnlinkedFrom(a, b, id, n)
  {
  }

  lemma {:induction false} UnlinkFromLocal(s: State, id: Int32, n: nat)
    requires Mirror(s) && FindPort(s.ports, id) < |s.ports| && n <= |s.subs|
    ensures UnlinkedFrom(s.subs, UnlinkFrom(s, id, n).subs, id, n)
    decreases |s.subs| - n
  {
    if n < |s.subs| {
      var next := UnlinkPort(s, s.subs[n].nqn, id).0;
      UnlinkPortLocal(s, n, id);
      UnlinkPortKeeps(s, s.subs[n].nqn, id);
      UnlinkFromLocal(next, id, n + 1);
      UnlinkedOneMore(s.subs, UnlinkFrom(next, id, n + 1).subs, id, n);
    }
  }

  /** Deleting a port takes it from the list, and its links from every subsystem, and leaves
      the rest; what the server keeps then follows from the mirror. */
  lemma DeletePortidIs(s: State, id: Int32)
    requires Mirror(s)
    ensures var (t, code) := DeletePortid(s, id);
      && code.Ok? && |t.subs| == |s.subs|
      && (forall k :: 0 <= k < |s.subs| ==>
           t.subs[k] == s.subs[k].(links := t.subs[k].links) &&
           forall x :: x in t.subs[k].links <==> x in s.subs[k].links && x != id)
      && (forall q :: q in t.ports <==> q in s.ports && q.id != id)
  {
    var p, t := FindPort(s.ports, id), DeletePortid(s, id).0;
    if p < |s.ports| {
      UnlinkFromLocal(s, id, 0);
      PortsLess(s.ports, p);
    }
    forall k | 0 <= k < |s.subs|
      ensures forall x :: x in t.subs[k].links <==> x in s.subs[k].links && x != id
    {
      assert SubMirrors(s.subs[k], s.ports, Remote(s, k));
      if p < |s.ports| {
        WithoutIs(s.subs[k].links, id);
      } else {
        assert forall n :: 0 <= n < |s.subs[k].links| ==> FindPort(s.ports, s.subs[k].links[n]) < |s.ports|;
      }
    }
  }

  lemma PortsLess(ports: seq<Port>, p: nat)
    requires PortsOk(ports) && p < |ports|
    ensures forall q :: q in ports[..p] + ports[p + 1..] <==> q in ports && q.id != ports[p].id
  {
    var now := ports[..p] + ports[p + 1..];
    forall q
      ensures q in now <==> q in ports && q.id != ports[p].id
    {
      if q in now {
        var k :| 0 <= k < |now| && now[k] == q;
        assert ports[if k < p then k else k + 1] == q;
      }
      if q in ports && q.id != ports[p].id {
        var k :| 0 <= k < |ports| && ports[k] == q;
        assert now[if k < p then k else k - 1] == q;
      }
    }
  }

  // Hosts.

  lemma {:induction false} RemoveAllIs(v: Server, nqn: string, links: seq<Int32>, ports: seq<Port>)
    requires nqn in v
    ensures RemoveAll(v, nqn, links, ports) ==
      v[nqn := v[nqn].(listeners := v[nqn].listeners - LinkAddrs(links, ports))]
    decreases |links|
  {
    if links != [] {
      var n := |links| - 1;
      RemoveAllIs(v, nqn, links[..n], ports);
      var w := RemoveAll(v, nqn, links[..n], ports);
      assert w[nqn].listeners - {AddrOf(ports, links[n])} == v[nqn].listeners - LinkAddrs(links, ports);
      if AddrOf(ports, links[n]) !in w[nqn].listeners {
        assert w[nqn].listeners == w[nqn].listeners - {AddrOf(ports, links[n])};
      }
    } else {
      assert v[nqn].listeners - {} == v[nqn].listeners;
      assert v[nqn := v[nqn]] == v;
    }
  }

  lemma {:induction false} AddAllIs(v: Server, nqn: string, links: seq<Int32>, ports: seq<Port>)
    requires nqn in v
    ensures AddAll(v, nqn, links, ports) ==
      v[nqn := v[nqn].(listeners := v[nqn].listeners + LinkAddrs(links, ports))]
    decreases |links|
  {
    if links != [] {
      var n := |links| - 1;
      AddAllIs(v, nqn, links[..n], ports);
      var w := AddAll(v, nqn, links[..n], ports);
      assert w[nqn].listeners + {AddrOf(ports, links[n])} == v[nqn].listeners + LinkAddrs(links, ports);
      if AddrOf(ports, links[n]) in w[nqn].listeners {
        assert w[nqn].listeners == w[nqn].listeners + {AddrOf(ports, links[n])};
      }
    } else {
      assert v[nqn].listeners + {} == v[nqn].listeners;
      assert v[nqn := v[nqn]] == v;
    }
  }

  ghost function LinkAddrs(links: seq<Int32>, ports: seq<Port>): set<Addr> {
    if links == [] then {}
    else LinkAddrs(links[..|links| - 1], ports) + {AddrOf(ports, links[|links| - 1])}
  }

  lemma {:induction false} LinkAddrsHas(links: seq<Int32>, ports: seq<Port>, a: Addr)
    ensures a in LinkAddrs(links, ports) <==> exists k :: 0 <= k < |links| && AddrOf(ports, links[k]) == a
    decreases |links|
  {
    if links != [] {
      var n := |links| - 1;
      LinkAddrsHas(links[..n], ports, a);
      assert forall k :: 0 <= k < n ==> links[..n][k] == links[k];
    }
  }

  lemma LinkAddrsAre(l: Sub, ports: seq<Port>)
    requires PortsOk(ports) && forall k :: 0 <= k < |l.links| ==> FindPort(ports, l.links[k]) < |ports|
    ensures LinkAddrs(l.links, ports) == Addrs(l.links, ports)
  {
    forall a
      ensures a in LinkAddrs(l.links, ports) <==> a in Addrs(l.links, ports)
    {
      LinkAddrsHas(l.links, ports, a);
      if k :| 0 <= k < |l.links| && AddrOf(ports, l.links[k]) == a {
        var p := FindPort(ports, l.links[k]);
        assert ports[p].id in l.links && ports[p].addr == a;
      }
      if a in Addrs(l.links, ports) {
        var p: nat :| p < |ports| && ports[p].id in l.links && ports[p].addr == a;
        var k :| 0 <= k < |l.links| && l.links[k] == ports[p].id;
        assert FindPort(ports, l.links[k]) == p;
        assert AddrOf(ports, l.links[k]) == a;
      }
    }
  }

  /** The first host of a subsystem is added while the subsystem has no listener. */
  lemma ListenersDown(s: State, i: nat)
    requires Mirror(s) && i < |s.subs|
    ensures var l := s.subs[i];
      RemoveAll(s.server, l.nqn, l.links, s.ports) == s.server[l.nqn := Remote(s, i).(listeners := {})]
  {
    var l, r := s.subs[i], Remote(s, i);
    LinkAddrsAre(l, s.ports);
    RemoveAllIs(s.server, l.nqn, l.links, s.ports);
    assert r.listeners - LinkAddrs(l.links, s.ports) == {};
  }

  /** Then all of them are back. */
  lemma ListenersBack(s: State, i: nat, hosts: set<string>)
    requires Mirror(s) && i < |s.subs|
    ensures var l := s.subs[i];
      var w := s.server[l.nqn := Remote(s, i).(listeners := {}, hosts := hosts)];
      AddAll(w, l.nqn, l.links, s.ports) == s.server[l.nqn := Remote(s, i).(hosts := hosts)]
  {
    var l, r := s.subs[i], Remote(s, i);
    var w := s.server[l.nqn := r.(listeners := {}, hosts := hosts)];
    LinkAddrsAre(l, s.ports);
    AddAllIs(w, l.nqn, l.links, s.ports);
    assert {} + LinkAddrs(l.links, s.ports) == r.listeners;
    assert w[l.nqn := r.(hosts := hosts)] == s.server[l.nqn := r.(hosts := hosts)];
  }

  /** A host that the server accepts is added here and there, and the listeners end up as
      they were. */
  lemma LinkHostIs(s: State, i: nat, host: string)
    requires Mirror(s) && i < |s.subs| && host !in s.subs[i].hosts
    ensures var l, r := s.subs[i], Remote(s, i);
      LinkHost(s, l.nqn, host, true, true) ==
        (State(s.subs[i := l.(hosts := l.hosts + [host])], s.ports, s.server[l.nqn := r.(hosts := r.hosts + {host})]), Ok)
  {
    var l, r := s.subs[i], Remote(s, i);
    FindSubIs(s, i);
    assert host !in r.hosts;
    if l.hosts == [] {
      ListenersDown(s, i);
      ListenersBack(s, i, r.hosts + {host});
      AddedWhileDown(s.server, l.nqn, host);
    }
  }

  lemma AddedWhileDown(v: Server, nqn: string, host: string)
    requires nqn in v && host !in v[nqn].hosts
    ensures AddHost(v[nqn := v[nqn].(listeners := {})], nqn, host) ==
      (v[nqn := v[nqn].(listeners := {}, hosts := v[nqn].hosts + {host})], true)
  {
    var r := v[nqn].(listeners := {}, hosts := v[nqn].hosts + {host});
    assert v[nqn := v[nqn].(listeners := {})][nqn := r] == v[nqn := r];
  }

  /** When the server refuses the first host, the listeners stay down. */
  lemma LinkHostRefused(s: State, i: nat, host: string)
    requires Mirror(s) && i < |s.subs| && host !in s.subs[i].hosts
    ensures var l, r := s.subs[i], Remote(s, i);
      LinkHost(s, l.nqn, host, true, false) ==
        (s.(server := if l.hosts == [] then s.server[l.nqn := r.(listeners := {})] else s.server), Refused)
  {
    FindSubIs(s, i);
    ListenersDown(s, i);
  }

  /** Linking a host keeps the mirror if and only if the server accepts the host, or the
      listeners were not touched, or there were none. */
  lemma LinkHostKeeps(s: State, nqn: string, host: string, valid: bool, accepts: bool)
    requires Mirror(s)
    ensures var i := FindSub(s.subs, nqn);
      Mirror(LinkHost(s, nqn, host, valid, accepts).0) <==>
        !(valid && !accepts && i < |s.subs| && s.subs[i].hosts == [] && s.subs[i].links != [])
  {
    var i := FindSub(s.subs, nqn);
    if valid && i < |s.subs| && host !in s.subs[i].hosts {
      var l, r := s.subs[i], Remote(s, i);
      if accepts {
        LinkHostIs(s, i, host);
        assert Elements(l.hosts + [host]) == Elements(l.hosts) + {host};
        SubChanged(s, i, l.(hosts := l.hosts + [host]), r.(hosts := r.hosts + {host}));
      } else {
        LinkHostRefused(s, i, host);
        RefusedFirst(s, i);
      }
    }
  }

  lemma RefusedFirst(s: State, i: nat)
    requires Mirror(s) && i < |s.subs|
    ensures var l := s.subs[i];
      Mirror(s.(server := s.server[l.nqn := Remote(s, i).(listeners := {})])) <==> l.links == []
  {
    var l, r := s.subs[i], Remote(s, i);
    var t := s.(server := s.server[l.nqn := r.(listeners := {})]);
    if l.links == [] {
      assert r.listeners == {};
      assert t.server == s.server;
    } else {
      var p := FindPort(s.ports, l.links[0]);
      assert s.ports[p].id in l.links;
      assert s.ports[p].addr in Addrs(l.links, s.ports);
      assert !SubMirrors(l, t.ports, t.server[l.nqn]);
      if Mirror(t) {
        AllMirrorAt(t.subs, t.ports, t.server, i);
      }
    }
  }

  lemma UnlinkHostKeeps(s: State, nqn: string, host: string)
    requires Mirror(s)
    ensures Mirror(UnlinkHost(s, nqn, host).0)
    ensures UnlinkHost(s, nqn, host).1.Ok? <==> FindSub(s.subs, nqn) < |s.subs|
  {
    var i := FindSub(s.subs, nqn);
    if i < |s.subs| && host in s.subs[i].hosts {
      var l, r := s.subs[i], Remote(s, i);
      WithoutIs(l.hosts, host);
      assert Elements(Without(l.hosts, host)) == Elements(l.hosts) - {host};
      SubChanged(s, i, l.(hosts := Without(l.hosts, host)), r.(hosts := r.hosts - {host}));
    }
  }

  /** A host that is removed is in neither list afterwards, and the rest stays. */
  lemma UnlinkHostIs(s: State, nqn: string, host: string)
    requires Mirror(s)
    ensures var i := FindSub(s.subs, nqn);
      var (t, code) := UnlinkHost(s, nqn, host);
      if i < |s.subs| then
        && code.Ok? && |t.subs| == |s.subs| && host !in t.subs[i].hosts
        && nqn in t.server && host !in t.server[nqn].hosts
        && t == State(s.subs[i := s.subs[i].(hosts := t.subs[i].hosts)], s.ports,
                      s.server[nqn := Remote(s, i).(hosts := Remote(s, i).hosts - {host})])
        && (forall x :: x in t.subs[i].hosts <==> x in s.subs[i].hosts && x != host)
      else !code.Ok? && t == s
  {
    var i := FindSub(s.subs, nqn);
    if i < |s.subs| {
      var l, r := s.subs[i], Remote(s, i);
      WithoutIs(l.hosts, host);
      if host !in l.hosts {
        assert r.hosts - {host} == r.hosts;
        assert s.subs[i := l] == s.subs && s.server[nqn := r] == s.server;
      }
    }
  }

  /** Linking a host succeeds when the subsystem exists, the NQN is well formed, and the server
      takes the host or has it; only then is the host in the list. */
  lemma LinkHostAnswers(s: State, nqn: string, host: string, valid: bool, accepts: bool)
    requires Mirror(s)
    ensures var i := FindSub(s.subs, nqn);
      var (t, code) := LinkHost(s, nqn, host, valid, accepts);
      && (code.Ok? <==> valid && i < |s.subs| && (host in s.subs[i].hosts || accepts))
      && (code.Ok? ==> |t.subs| == |s.subs| && host in t.subs[i].hosts && nqn in t.server && host in t.server[nqn].hosts)
      && (!code.Ok? ==> t.subs == s.subs && t.ports == s.ports && (code.Refused? || t == s))
      && (i < |s.subs| && host in s.subs[i].hosts ==> t == s)
  {
    var i := FindSub(s.subs, nqn);
    if valid && i < |s.subs| {
      assert SubMirrors(s.subs[i], s.ports, Remote(s, i));
      if host !in s.subs[i].hosts {
        if accepts {
          LinkHostIs(s, i, host);
        } else {
          LinkHostRefused(s, i, host);
        }
      }
    }
  }

  // Reset.

  lemma SomeId(ports: seq<Port>, ids: seq<Int32>)
    requires ports != [] && forall p :: 0 <= p < |ports| ==> ports[p].id in ids
    ensures ids != []
  {
    assert ports[0].id in ids;
  }

  lemma {:induction false} DeletePortsKeeps(s: State, ids: seq<Int32>)
    requires Mirror(s) && (forall p :: 0 <= p < |s.ports| ==> s.ports[p].id in ids)
    ensures Mirror(DeletePorts(s, ids)) && DeletePorts(s, ids).ports == []
    decreases |ids|
  {
    if ids == [] {
      if s.ports != [] {
        SomeId(s.ports, ids);
      }
    } else {
      var t := DeletePortid(s, ids[0]).0;
      DeletePortidKeeps(s, ids[0]);
      forall p | 0 <= p < |t.ports|
        ensures t.ports[p].id in ids[1..]
      {
        PortStays(s, ids[0], p);
        assert t.ports[p].id != ids[0];
      }
      DeletePortsKeeps(t, ids[1..]);
    }
  }

  lemma PortStays(s: State, id: Int32, p: nat)
    requires p < |DeletePortid(s, id).0.ports|
    ensures exists q :: 0 <= q < |s.ports| && s.ports[q] == DeletePortid(s, id).0.ports[p]
  {
    var n := FindPort(s.ports, id);
    if n < |s.ports| {
      assert DeletePortid(s, id).0.ports[p] == s.ports[if p < n then p else p + 1];
    } else {
      assert DeletePortid(s, id).0.ports[p] == s.ports[p];
    }
  }

  lemma DeleteFirst(s: State)
    requires Mirror(s) && s.subs != []
    ensures var t := DeleteSubsys(s, Nqns(s.subs)[0]).0;
      Mirror(t) && t.ports == s.ports && Nqns(t.subs) == Nqns(s.subs)[1..]
  {
    DeleteSubsysIs(s, 0);
    SubGone(s, 0);
    NqnsTail(s.subs);
  }

  lemma NqnsTail(subs: seq<Sub>)
    requires subs != []
    ensures Nqns(subs[..0] + subs[1..]) == Nqns(subs)[1..]
  {
    assert subs[..0] + subs[1..] == subs[1..];
  }

  lemma {:induction false} DeleteSubsKeeps(s: State, nqns: seq<string>)
    requires Mirror(s) && nqns == Nqns(s.subs)
    ensures var t := DeleteSubs(s, nqns);
      Mirror(t) && Nqns(t.subs) == [] && t.ports == s.ports
    decreases |nqns|
  {
    if nqns != [] {
      DeleteFirst(s);
      DeleteSubsKeeps(DeleteSubsys(s, nqns[0]).0, nqns[1..]);
    }
  }

  /** Reset empties the lists and the server. */
  lemma ResetEmpties(s: State)
    requires Mirror(s)
    ensures Reset(s) == State([], [], map[])
  {
    var ids := Ids(s.ports);
    assert forall p :: 0 <= p < |s.ports| ==> ids[p] == s.ports[p].id;
    DeletePortsKeeps(s, ids);
    var t := DeletePorts(s, ids);
    DeleteSubsKeeps(t, Nqns(t.subs));
    var u := Reset(s);
    assert |Nqns(u.subs)| == |u.subs|;
    assert u.server.Keys == {};
  }

  // Shared addresses.

  /** Two ports with one address: unlinking the one that is not linked takes down the
      listener of the other, and the lists no longer agree with the server. */
  lemma SharedAddressDropsListener(a: Addr, nqn: string)
    ensures var s := State([Sub(nqn, true, [], [1])], [Port(2, a), Port(1, a)], map[nqn := ServerSub(true, {}, {a})]);
      var t := UnlinkPort(s, nqn, 2).0;
      && s.server[nqn].listeners == Addrs(s.subs[0].links, s.ports)
      && t.subs[0].links == [1] && t.server[nqn].listeners == {}
      && Addrs(t.subs[0].links, t.ports) == {a}
  {
    var s := State([Sub(nqn, true, [], [1])], [Port(2, a), Port(1, a)], map[nqn := ServerSub(true, {}, {a})]);
    assert s.ports[1].id in s.subs[0].links;
    assert Addrs([1], s.ports) == {a};
    assert FindPort(s.ports, 2) == 0 && FindSub(s.subs, nqn) == 0;
    assert Without([1], 2) == [1];
    assert {a} - {a} == {};
  }

  /** Whatever mirrors: a new port with the address of a linked one takes that one's listener
      down when it is unlinked, although the new port was never linked. */
  lemma TakenAddressBreaks(s: State, id: Int32, p: nat, i: nat)
    requires Mirror(s) && FindPort(s.ports, id) == |s.ports|
    requires p < |s.ports| && i < |s.subs| && s.ports[p].id in s.subs[i].links
    ensures var t := CreatePortid(s, id, s.ports[p].addr).0;
      var (u, code) := UnlinkPort(t, s.subs[i].nqn, id);
      && s.subs[i].nqn in s.server && s.ports[p].addr in s.server[s.subs[i].nqn].listeners
      && s.subs[i].nqn in u.server && s.ports[p].addr !in u.server[s.subs[i].nqn].listeners
      && code.Ok?
      && |u.subs| == |s.subs| && s.ports[p].id in u.subs[i].links
  {
    var nqn, a := s.subs[i].nqn, s.ports[p].addr;
    FindSubIs(s, i);
    AllMirrorAt(s.subs, s.ports, s.server, i);
    assert a in Addrs(s.subs[i].links, s.ports);
    var t := CreatePortid(s, id, a).0;
    assert t.ports == [Port(id, a)] + s.ports && FindPort(t.ports, id) == 0;
    UnlinkedOther(s.subs[i].links, id, s.ports[p].id);
  }

  lemma {:induction false} UnlinkedOther(links: seq<Int32>, id: Int32, other: Int32)
    requires other in links && other != id
    ensures other in Without(links, id)
  {
    if links[0] != id && links[0] != other {
      UnlinkedOther(links[1..], id, other);
    }
  }

  // Whole runs.

  datatype Op =
    | DoCreateSubsys(nqn: string, allowAny: bool, valid: bool)
    | DoDeleteSubsys(nqn: string)
    | DoCreatePortid(id: Int32, a: Addr)
    | DoDeletePortid(id: Int32)
    | DoLinkHost(nqn: string, host: string, valid: bool, accepts: bool)
    | DoUnlinkHost(nqn: string, host: string)
    | DoLinkPort(nqn: string, id: Int32)
    | DoUnlinkPort(nqn: string, id: Int32)
    | DoReset

  function Exec(s: State, op: Op): State {
    match op
    case DoCreateSubsys(nqn, allowAny, valid) => CreateSubsys(s, nqn, allowAny, valid).0
    case DoDeleteSubsys(nqn) => DeleteSubsys(s, nqn).0
    case DoCreatePortid(id, a) => CreatePortid(s, id, a).0
    case DoDeletePortid(id) => DeletePortid(s, id).0
    case DoLinkHost(nqn, host, valid, accepts) => LinkHost(s, nqn, host, valid, accepts).0
    case DoUnlinkHost(nqn, host) => UnlinkHost(s, nqn, host).0
    case DoLinkPort(nqn, id) => LinkPort(s, nqn, id).0
    case DoUnlinkPort(nqn, id) => UnlinkPort(s, nqn, id).0
    case DoReset => Reset(s)
  }

  /** What can break the mirror: a new port with an address that is taken, and a refused first
      host of a linked subsystem. */
  predicate Safe(s: State, op: Op) {
    match op
    case DoCreatePortid(id, a) =>
      FindPort(s.ports, id) < |s.ports| || forall p :: 0 <= p < |s.ports| ==> s.ports[p].addr != a
    case DoLinkHost(nqn, host, valid, accepts) =>
      var i := FindSub(s.subs, nqn);
      !(valid && !accepts && i < |s.subs| && s.subs[i].hosts == [] && s.subs[i].links != [])
    case _ => true
  }

  /** Every operation leads from agreeing lists to agreeing lists if and only if it is safe. */
  lemma ExecKeeps(s: State, op: Op)
    requires Mirror(s)
    ensures Mirror(Exec(s, op)) <==> Safe(s, op)
  {
    match op
    case DoCreateSubsys(nqn, allowAny, valid) => CreateSubsysKeeps(s, nqn, allowAny, valid);
    case DoDeleteSubsys(nqn) => DeleteSubsysKeeps(s, nqn);
    case DoCreatePortid(id, a) =>
      if FindPort(s.ports, id) == |s.ports| {
        CreatePortidKeeps(s, id, a);
      }
    case DoDeletePortid(id) => DeletePortidKeeps(s, id);
    case DoLinkHost(nqn, host, valid, accepts) => LinkHostKeeps(s, nqn, host, valid, accepts);
    case DoUnlinkHost(nqn, host) => UnlinkHostKeeps(s, nqn, host);
    case DoLinkPort(nqn, id) => LinkPortKeeps(s, nqn, id);
    case DoUnlinkPort(nqn, id) => UnlinkPortKeeps(s, nqn, id);
    case DoReset =>
      ResetEmpties(s);
      Start();
  }

  function Run(s: State, ops: seq<Op>): State {
    if ops == [] then s else Exec(Run(s, ops[..|ops| - 1]), ops[|ops| - 1])
  }

  ghost predicate AllSafe(s: State, ops: seq<Op>) {
    ops == [] ||
    var n := |ops| - 1;
    AllSafe(s, ops[..n]) && Safe(Run(s, ops[..n]), ops[n])
  }

  /** The lists agree with the server after any run of safe operations from an empty start. */
  lemma {:induction false} RunKeeps(ops: seq<Op>)
    requires AllSafe(State([], [], map[]), ops)
    ensures Mirror(Run(State([], [], map[]), ops))
  {
    if ops == [] {
      Start();
    } else {
      var n := |ops| - 1;
      RunKeeps(ops[..n]);
      ExecKeeps(Run(State([], [], map[]), ops[..n]), ops[n]);
    }
  }
}
