/** The SPDK backend of the endpoint (src/endpoint/spdk_config.c): the lists it edits and the
    server it calls. Each operation is the step that SpdkModel gives for it. */
module SpdkConfig {
  import opened CTypes
  import opened SpdkModel

  /** The server, which answers each RPC with success or an error. */
  class SpdkServer {
    var subs: Server

    constructor ()
      ensures subs == map[]
    {
      subs := map[];
    }

    method CreateSubsystem(nqn: string, allowAny: bool) returns (ok: bool)
      modifies this
      ensures (subs, ok) == CreateRpc(old(subs), nqn, allowAny)
    {
      ok := nqn !in subs;
      if ok {
        subs := subs[nqn := ServerSub(allowAny, {}, {})];
      }
    }

    method DeleteSubsystem(nqn: string) returns (ok: bool)
      modifies this
      ensures (subs, ok) == DeleteRpc(old(subs), nqn)
    {
      ok := nqn in subs;
      if ok {
        subs := subs - {nqn};
      }
    }

    method AddListener(nqn: string, a: Addr) returns (ok: bool)
      modifies this
      ensures (subs, ok) == SpdkModel.AddListener(old(subs), nqn, a)
    {
      ok := nqn in subs && a !in subs[nqn].listeners;
      if ok {
        subs := subs[nqn := subs[nqn].(listeners := subs[nqn].listeners + {a})];
      }
    }

    method RemoveListener(nqn: string, a: Addr) returns (ok: bool)
      modifies this
      ensures (subs, ok) == SpdkModel.RemoveListener(old(subs), nqn, a)
    {
      ok := nqn in subs && a in subs[nqn].listeners;
      if ok {
        subs := subs[nqn := subs[nqn].(listeners := subs[nqn].listeners - {a})];
      }
    }

    /** The server may refuse; then nothing changes. */
    method AddHost(nqn: string, host: string, accepts: bool) returns (ok: bool)
      modifies this
      ensures ok == (accepts && SpdkModel.AddHost(old(subs), nqn, host).1)
      ensures subs == if ok then SpdkModel.AddHost(old(subs), nqn, host).0 else old(subs)
    {
      ok := accepts && nqn in subs && host !in subs[nqn].hosts;
      if ok {
        subs := subs[nqn := subs[nqn].(hosts := subs[nqn].hosts + {host})];
      }
    }

    method RemoveHost(nqn: string, host: string) returns (ok: bool)
      modifies this
      ensures (subs, ok) == SpdkModel.RemoveHost(old(subs), nqn, host)
    {
      ok := nqn in subs && host in subs[nqn].hosts;
      if ok {
        subs := subs[nqn := subs[nqn].(hosts := subs[nqn].hosts - {host})];
      }
    }
  }

  /** list_del of the entry that holds a value. */
  method Unlist<T(==)>(s: seq<T>, v: T) returns (r: seq<T>)
    ensures r == Without(s, v)
  {
    var i := 0;
    while i < |s| && s[i] != v
      invariant i <= |s| && Without(s, v) == s[..i] + Without(s[i..], v)
    {
      WithoutStep(s, i, v);
      i := i + 1;
    }
    WithoutStep(s, i, v);
    r := if i < |s| then s[..i] + s[i + 1..] else s;
  }

  lemma WithoutStep<T>(s: seq<T>, i: nat, v: T)
    requires i <= |s|
    ensures i == |s| ==> s[..i] + Without(s[i..], v) == s
    ensures i < |s| && s[i] == v ==> s[..i] + Without(s[i..], v) == s[..i] + s[i + 1..]
    ensures i < |s| && s[i] != v ==> s[..i] + Without(s[i..], v) == s[..i + 1] + Without(s[i + 1..], v)
  {
    if i < |s| {
      assert s[i..][1..] == s[i + 1..] && s[..i + 1] == s[..i] + [s[i]];
    }
  }

  class Spdk {
    const server: SpdkServer
    var subsysList: seq<Sub>
    var portidList: seq<Port>

    constructor (s: SpdkServer)
      ensures server == s && subsysList == [] && portidList == []
    {
      server, subsysList, portidList := s, [], [];
    }

    function View(): State
      reads this, server
    {
      State(subsysList, portidList, server.subs)
    }

    method FindSubsys(nqn: string) returns (i: nat)
      ensures i == FindSub(subsysList, nqn)
    {
      i := 0;
      while i < |subsysList| && subsysList[i].nqn != nqn
        invariant i <= |subsysList| && forall k :: 0 <= k < i ==> subsysList[k].nqn != nqn
      {
        i := i + 1;
      }
      SubIs(subsysList, nqn, i);
    }

    method FindPortid(id: Int32) returns (i: nat)
      ensures i == FindPort(portidList, id)
    {
      i := 0;
      while i < |portidList| && portidList[i].id != id
        invariant i <= |portidList| && forall k :: 0 <= k < i ==> portidList[k].id != id
      {
        i := i + 1;
      }
      PortIs(portidList, id, i);
    }

    method CreateSubsys(nqn: string, allowAny: bool, valid: bool) returns (code: Code)
      modifies this, server
      ensures (View(), code) == SpdkModel.CreateSubsys(old(View()), nqn, allowAny, valid)
    {
      if !valid {
        return Invalid;
      }
      var i := FindSubsys(nqn);
      if i < |subsysList| {
        return Exists;
      }
      subsysList := [Sub(nqn, allowAny, [], [])] + subsysList;
      var ok := server.CreateSubsystem(nqn, allowAny);
      return if ok then Ok else Refused;
    }

    method DeleteSubsys(nqn: string) returns (code: Code)
      modifies this, server
      ensures (View(), code) == SpdkModel.DeleteSubsys(old(View()), nqn)
    {
      var i := FindSubsys(nqn);
      if i == |subsysList| {
        return NoEntry;
      }
      var _ := server.DeleteSubsystem(nqn);
      subsysList := subsysList[..i] + subsysList[i + 1..];
      return Ok;
    }

    method CreatePortid(id: Int32, a: Addr) returns (code: Code)
      modifies this
      ensures (View(), code) == SpdkModel.CreatePortid(old(View()), id, a)
    {
      var i := FindPortid(id);
      if i < |portidList| {
        return Exists;
      }
      portidList := [Port(id, a)] + portidList;
      return Ok;
    }

    method RemoveListeners(nqn: string, links: seq<Int32>)
      modifies server
      ensures server.subs == RemoveAll(old(server.subs), nqn, links, portidList)
    {
      for k := 0 to |links|
        invariant server.subs == RemoveAll(old(server.subs), nqn, links[..k], portidList)
      {
        var _ := server.RemoveListener(nqn, AddrOf(portidList, links[k]));
        assert links[..k + 1][..k] == links[..k];
      }
      assert links[..|links|] == links;
    }

    method AddListeners(nqn: string, links: seq<Int32>)
      modifies server
      ensures server.subs == AddAll(old(server.subs), nqn, links, portidList)
    {
      for k := 0 to |links|
        invariant server.subs == AddAll(old(server.subs), nqn, links[..k], portidList)
      {
        var _ := server.AddListener(nqn, AddrOf(portidList, links[k]));
        assert links[..k + 1][..k] == links[..k];
      }
      assert links[..|links|] == links;
    }

    method LinkHost(nqn: string, host: string, valid: bool, accepts: bool) returns (code: Code)
      modifies this, server
      ensures (View(), code) == SpdkModel.LinkHost(old(View()), nqn, host, valid, accepts)
    {
      if !valid {
        return Invalid;
      }
      var i := FindSubsys(nqn);
      if i == |subsysList| {
        return NoEntry;
      }
      var l := subsysList[i];
      if host in l.hosts {
        return Ok;
      }
      var reconnect := l.hosts == [];
      if reconnect {
        RemoveListeners(nqn, l.links);
      }
      var ok := server.AddHost(nqn, host, accepts);
      if !ok {
        return Refused;
      }
      subsysList := subsysList[i := l.(hosts := l.hosts + [host])];
      if reconnect {
        AddListeners(nqn, l.links);
      }
      return Ok;
    }

    method UnlinkHost(nqn: string, host: string) returns (code: Code)
      modifies this, server
      ensures (View(), code) == SpdkModel.UnlinkHost(old(View()), nqn, host)
    {
      var i := FindSubsys(nqn);
      if i == |subsysList| {
        return NoEntry;
      }
      var l := subsysList[i];
      if host !in l.hosts {
        return Ok;
      }
      var ok := server.RemoveHost(nqn, host);
      var hosts := Unlist(l.hosts, host);
      subsysList := subsysList[i := l.(hosts := hosts)];
      return if ok then Ok else Refused;
    }

    method LinkPort(nqn: string, id: Int32) returns (code: Code)
      modifies this, server
      ensures (View(), code) == SpdkModel.LinkPort(old(View()), nqn, id)
    {
      var p := FindPortid(id);
      if p == |portidList| {
        return Invalid;
      }
      var i := FindSubsys(nqn);
      if i == |subsysList| {
        return Invalid;
      }
      var l := subsysList[i];
      if id in l.links {
        return Ok;
      }
      var ok := server.AddListener(nqn, portidList[p].addr);
      if !ok {
        return Refused;
      }
      subsysList := subsysList[i := l.(links := [id] + l.links)];
      return Ok;
    }

    method UnlinkPort(nqn: string, id: Int32) returns (code: Code)
      modifies this, server
      ensures (View(), code) == SpdkModel.UnlinkPort(old(View()), nqn, id)
    {
      var p := FindPortid(id);
      if p == |portidList| {
        return NoEntry;
      }
      var i := FindSubsys(nqn);
      if i == |subsysList| {
        return NoEntry;
      }
      var ok := server.RemoveListener(nqn, portidList[p].addr);
      if !ok {
        return Refused;
      }
      var links := Unlist(subsysList[i].links, id);
      subsysList := subsysList[i := subsysList[i].(links := links)];
      return Ok;
    }

    method UnlinkEverywhere(id: Int32)
      modifies this, server
      ensures View() == UnlinkFrom(old(View()), id, 0)
    {
      var i := 0;
      while i < |subsysList|
        invariant i <= |subsysList| && UnlinkFrom(View(), id, i) == UnlinkFrom(old(View()), id, 0)
        decreases |subsysList| - i
      {
        var _ := UnlinkPort(subsysList[i].nqn, id);
        i := i + 1;
      }
    }

    method DeletePortid(id: Int32)
      modifies this, server
      ensures View() == SpdkModel.DeletePortid(old(View()), id).0
    {
      var p := FindPortid(id);
      if p < |portidList| {
        PortsStay(View(), id, 0);
        UnlinkEverywhere(id);
        portidList := portidList[..p] + portidList[p + 1..];
      }
    }

    /** Deletes every port that is in the list, and then every subsystem. */
    method ResetConfig()
      modifies this, server
      ensures View() == Reset(old(View()))
    {
      var ids := Ids(portidList);
      ghost var before := View();
      for k := 0 to |ids|
        invariant DeletePorts(View(), ids[k..]) == DeletePorts(before, ids)
      {
        assert ids[k..][0] == ids[k] && ids[k..][1..] == ids[k + 1..];
        DeletePortid(ids[k]);
      }
      ghost var mid := View();
      var nqns := Nqns(subsysList);
      for k := 0 to |nqns|
        invariant DeleteSubs(View(), nqns[k..]) == DeleteSubs(mid, nqns)
      {
        assert nqns[k..][0] == nqns[k] && nqns[k..][1..] == nqns[k + 1..];
        var _ := DeleteSubsys(nqns[k]);
      }
    }
  }

  lemma {:induction false} PortsStay(s: State, id: Int32, n: nat)
    requires n <= |s.subs|
    ensures UnlinkFrom(s, id, n).ports == s.ports
    decreases |s.subs| - n
  {
    if n < |s.subs| {
      PortsStay(SpdkModel.UnlinkPort(s, s.subs[n].nqn, id).0, id, n + 1);
    }
  }

  lemma SubIs(subs: seq<Sub>, nqn: string, i: nat)
    requires i <= |subs| && (forall k :: 0 <= k < i ==> subs[k].nqn != nqn)
    requires i < |subs| ==> subs[i].nqn == nqn
    ensures FindSub(subs, nqn) == i
  {
  }

  lemma PortIs(ports: seq<Port>, id: Int32, i: nat)
    requires i <= |ports| && (forall k :: 0 <= k < i ==> ports[k].id != id)
    requires i < |ports| ==> ports[i].id == id
    ensures FindPort(ports, id) == i
  {
  }
}
