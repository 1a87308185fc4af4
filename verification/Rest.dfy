/** Configuration requests over HTTP: the requests that src/dem/config.c formats and their
    dispatch by src/endpoint/restful.c. A body is the text that is printed; what the endpoint reads
    in it is the map of its members. */
module Rest {
  import opened CTypes
  import opened ConfigFs
  import opened Decimal
  import opened DemTypes
  import opened Json
  import opened Uri

  const MIN_PORTID := 1
  const MAX_PORTID := 0xfffe
  const MAX_DEPTH := 8

  datatype Method = Post | Delete

  /** The path as the server sees it, leading separator included. */
  datatype HttpRequest = HttpRequest(verb: Method, path: string, body: string)

  datatype Request = Perform(op: Op) | InvalidData | NotImplemented | PageNotFound | Shutdown

  function PortMembers(p: PortId): Members {
    [("TRTYPE", Str(p.typ)), ("ADRFAM", Str(p.family)), ("TRADDR", Str(p.address)), ("TRSVCID", Int(p.portNum))]
  }

  function SubsysMembers(s: Subsystem): Members {
    [("SUBNQN", Str(s.nqn)), ("AllowAnyHost", Int(s.access))]
  }

  function NsMembers(ns: Ns): Members {
    [("NSID", Int(ns.nsid)), ("DeviceID", Int(ns.devid)), ("DeviceNSID", Int(ns.devns))]
  }

  function HostMembers(nqn: string): Members {
    [("HOSTNQN", Str(nqn))]
  }

  function PortIdMembers(portid: Int32): Members {
    [("PORTID", Int(portid))]
  }

  function SetPortReq(p: PortId): HttpRequest {
    HttpRequest(Post, Join(["portid", Format(p.portid)]), Print(PortMembers(p)))
  }

  function SetSubsysReq(s: Subsystem): HttpRequest {
    HttpRequest(Post, Join(["subsystem"]), Print(SubsysMembers(s)))
  }

  function SetNsReq(s: Subsystem, ns: Ns): HttpRequest {
    HttpRequest(Post, Join(["subsystem", s.nqn, "namespace"]), Print(NsMembers(ns)))
  }

  function SetHostReq(h: Host): HttpRequest {
    HttpRequest(Post, Join(["host"]), Print(HostMembers(h.nqn)))
  }

  function LinkHostReq(s: Subsystem, h: Host): HttpRequest {
    HttpRequest(Post, Join(["subsystem", s.nqn, "host"]), Print(HostMembers(h.nqn)))
  }

  function LinkPortReq(s: Subsystem, p: PortId): HttpRequest {
    HttpRequest(Post, Join(["subsystem", s.nqn, "portid"]), Print(PortIdMembers(p.portid)))
  }

  const ResetReq := HttpRequest(Delete, Join(["config"]), "")

  predicate HasStr(b: Body, tag: string) {
    tag in b && b[tag].Str?
  }

  /** jansson reads a member that is not an integer as 0; a wide one is cut to a C int. */
  function IntOr(b: Body, tag: string, default: Int32): Int32 {
    if tag !in b then default else if b[tag].Int? then ToInt32(b[tag].n) else 0
  }

  function PostPortid(port: string, b: Body): Request {
    var portid := ToInt32(Atoi(port));
    if portid < MIN_PORTID || portid > MAX_PORTID then InvalidData
    else
      var treq := if IntOr(b, "TREQ", 0) != 0 then 1 else 0;
      if !HasStr(b, "TRTYPE") || !HasStr(b, "ADRFAM") || !HasStr(b, "TRADDR") || "TRSVCID" !in b
      then InvalidData
      else Perform(CreatePort(portid, b["ADRFAM"].s, b["TRTYPE"].s, treq, b["TRADDR"].s,
                              IntOr(b, "TRSVCID", 0)))
  }

  /** The name in the path wins over the one in the body. */
  function PostSubsys(path: seq<string>, b: Body): Request {
    if path == [] && !HasStr(b, "SUBNQN") then InvalidData
    else
      var subsys := if path != [] then path[0] else b["SUBNQN"].s;
      Perform(CreateSubsys(subsys, if IntOr(b, "AllowAnyHost", 0) != 0 then 1 else 0))
  }

  function PostNs(subsys: string, path: seq<string>, b: Body): Request {
    if path == [] && "NSID" !in b then InvalidData
    else
      var nsid := if path != [] then ToInt32(Atoi(path[0])) else IntOr(b, "NSID", 0);
      if "DeviceID" !in b then InvalidData
      else
        var devid := IntOr(b, "DeviceID", 0);
        if "DeviceNSID" !in b && devid != NULLB_DEVID then InvalidData
        else Perform(CreateNs(subsys, nsid, devid, IntOr(b, "DeviceNSID", 0)))
  }

  function PostHost(b: Body): Request {
    if HasStr(b, "HOSTNQN") then Perform(CreateHost(b["HOSTNQN"].s)) else InvalidData
  }

  function PostLinkHost(subsys: string, b: Body): Request {
    if HasStr(b, "HOSTNQN") then Perform(LinkHost(subsys, b["HOSTNQN"].s)) else InvalidData
  }

  function PostLinkPortid(subsys: string, b: Body): Request {
    if "PORTID" in b then Perform(LinkPort(subsys, IntOr(b, "PORTID", 0))) else InvalidData
  }

  /** Each handler reads the body first; a text that it cannot read is invalid. */
  function PostRequest(p: seq<string>, body: string): Request {
    if body == "" then if p == ["shutdown"] then Shutdown else NotImplemented
    else
      var r := PostMembers(p, if Arrived(body).Got? then Arrived(body).value else map[]);
      if r.NotImplemented? || Arrived(body).Got? then r else InvalidData
  }

  function PostMembers(p: seq<string>, b: Body): Request {
    if |p| == 1 then
      if p[0] == "subsystem" then PostSubsys([], b)
      else if p[0] == "host" then PostHost(b)
      else NotImplemented
    else if |p| == 2 then
      if p[0] == "subsystem" then PostSubsys(p[1..], b)
      else if p[0] == "portid" then PostPortid(p[1], b)
      else NotImplemented
    else if |p| == 3 && p[0] == "subsystem" then
      if p[2] == "namespace" then PostNs(p[1], [], b)
      else if p[2] == "host" then PostLinkHost(p[1], b)
      else if p[2] == "portid" then PostLinkPortid(p[1], b)
      else NotImplemented
    else if |p| == 4 && p[0] == "subsystem" && p[2] == "namespace" then PostNs(p[1], p[3..], b)
    else NotImplemented
  }

  function DeleteRequest(p: seq<string>): Request {
    if p == ["config"] then Perform(ResetConfig)
    else if |p| == 2 then
      if p[0] == "subsystem" then Perform(DeleteSubsys(p[1]))
      else if p[0] == "portid" then Perform(DeletePort(ToInt32(Atoi(p[1]))))
      else if p[0] == "host" then Perform(DeleteHost(p[1]))
      else NotImplemented
    else if |p| == 4 && p[0] == "subsystem" then
      if p[2] == "namespace" then Perform(DeleteNs(p[1], ToInt32(Atoi(p[3]))))
      else if p[2] == "portid" then Perform(UnlinkPort(p[1], ToInt32(Atoi(p[3]))))
      else if p[2] == "host" then Perform(UnlinkHost(p[1], p[3]))
      else NotImplemented
    else NotImplemented
  }

  /** handle_http_request: split the path, then dispatch on its depth and its fixed words. */
  function Decode(r: HttpRequest): Request {
    var parts := Parts(r.path);
    if parts == [] then PageNotFound
    else if |parts| > MAX_DEPTH then NotImplemented
    else match r.verb
      case Post => PostRequest(parts, r.body)
      case Delete => DeleteRequest(parts)
  }

  /** What the text of its requests can carry of a subsystem: a name without a separator, and
      no name that would need an escape. */
  predicate Sendable(s: Subsystem) {
    '/' !in s.nqn && Clean(s.nqn) && forall h <- s.hosts :: Clean(h.nqn)
  }

  predicate PortSendable(p: PortId) {
    MIN_PORTID <= p.portid <= MAX_PORTID && Clean(p.typ) && Clean(p.family) && Clean(p.address)
  }

  lemma FormatHasNoSlash(n: int)
    ensures '/' !in Format(n)
  {
  }

  /** A path of separator-free words is dispatched on those words. */
  lemma Dispatched(parts: seq<string>, body: string)
    requires 0 < |parts| <= MAX_DEPTH && forall p <- parts :: '/' !in p
    ensures Decode(HttpRequest(Post, Join(parts), body)) == PostRequest(parts, body)
  {
    PartsOfJoin(parts);
  }

  /** The text that a request's members are printed to. Their strings arrive exactly when they
      need no escape, and then the members do. */
  lemma BodyExactly(ms: Members)
    requires ms != [] && Printable(ms) && KeysClean(ms) && KeysLight(ms) && KeysDiffer(ms)
    ensures Print(ms) != ""
    ensures AllClean(ms) ==> Arrived(Print(ms)) == Got(ToMap(ms), "")
    ensures AllClean(ms) ==> forall m <- ms :: m.0 in ToMap(ms) && ToMap(ms)[m.0] == m.1
    ensures !AllClean(ms) ==> Arrived(Print(ms)).Fail? || !HasStrings(Arrived(Print(ms)).value, ms)
  {
    PrintedExactly(ms);
    DifferentKeys(ms);
  }

  lemma PortBody(p: PortId)
    ensures var ms := PortMembers(p);
      && Printable(ms) && KeysClean(ms) && KeysLight(ms) && KeysDiffer(ms)
      && (AllClean(ms) <==> Clean(p.typ) && Clean(p.family) && Clean(p.address))
  {
    var ms := PortMembers(p);
    assert ms[0] in ms && ms[1] in ms && ms[2] in ms;
  }

  lemma SubsysBody(s: Subsystem)
    ensures var ms := SubsysMembers(s);
      && Printable(ms) && KeysClean(ms) && KeysLight(ms) && KeysDiffer(ms)
      && (AllClean(ms) <==> Clean(s.nqn))
  {
    assert SubsysMembers(s)[0] in SubsysMembers(s);
  }

  lemma HostBody(nqn: string)
    ensures var ms := HostMembers(nqn);
      && Printable(ms) && KeysClean(ms) && KeysLight(ms) && KeysDiffer(ms)
      && (AllClean(ms) <==> Clean(nqn))
  {
    assert HostMembers(nqn)[0] in HostMembers(nqn);
  }

  /** A port request performs what the DEM holds exactly when the port id is in range, and no
      string of the port needs an escape. */
  lemma PortReqExact(p: PortId)
    ensures Decode(SetPortReq(p)) == Perform(CreatePort(p.portid, p.family, p.typ, 0, p.address, p.portNum))
      <==> PortSendable(p)
    ensures !(MIN_PORTID <= p.portid <= MAX_PORTID) ==> Decode(SetPortReq(p)) == InvalidData
  {
    FormatHasNoSlash(p.portid);
    Dispatched(["portid", Format(p.portid)], SetPortReq(p).body);
    AtoiFormat(p.portid);
    Int32RoundTrip(p.portid);
    PortBodyExact(Format(p.portid), p);
  }

  lemma PortBodyExact(port: string, p: PortId)
    requires ToInt32(Atoi(port)) == p.portid
    ensures var r := PostRequest(["portid", port], Print(PortMembers(p)));
      && (!(MIN_PORTID <= p.portid <= MAX_PORTID) ==> r == InvalidData)
      && (r == Perform(CreatePort(p.portid, p.family, p.typ, 0, p.address, p.portNum)) <==>
           MIN_PORTID <= p.portid <= MAX_PORTID && Clean(p.typ) && Clean(p.family) && Clean(p.address))
  {
    var ms := PortMembers(p);
    PortBody(p);
    BodyExactly(ms);
    var arrived := Arrived(Print(ms));
    if arrived.Got? {
      assert PostRequest(["portid", port], Print(ms)) == PostPortid(port, arrived.value);
      PortPosted(port, p, arrived.value);
    }
  }

  lemma PortPosted(port: string, p: PortId, b: Body)
    requires ToInt32(Atoi(port)) == p.portid
    requires AllClean(PortMembers(p)) ==> b == ToMap(PortMembers(p))
    requires !AllClean(PortMembers(p)) ==> !HasStrings(b, PortMembers(p))
    ensures !(MIN_PORTID <= p.portid <= MAX_PORTID) ==> PostPortid(port, b) == InvalidData
    ensures PostPortid(port, b) == Perform(CreatePort(p.portid, p.family, p.typ, 0, p.address, p.portNum)) <==>
      MIN_PORTID <= p.portid <= MAX_PORTID && AllClean(PortMembers(p))
  {
    if AllClean(PortMembers(p)) {
      PortMap(p);
      Int32RoundTrip(p.portNum);
    } else {
      PortStrings(p, b);
    }
  }

  lemma PortStrings(p: PortId, b: Body)
    ensures HasStrings(b, PortMembers(p)) <==>
      && HasStr(b, "TRTYPE") && b["TRTYPE"].s == p.typ && HasStr(b, "ADRFAM") && b["ADRFAM"].s == p.family
      && HasStr(b, "TRADDR") && b["TRADDR"].s == p.address
  {
    var ms := PortMembers(p);
    assert ms[0] in ms && ms[1] in ms && ms[2] in ms;
  }

  /** Nothing but the members printed is in the map. */
  lemma PortMap(p: PortId)
    ensures ToMap(PortMembers(p)) == map["TRTYPE" := Str(p.typ), "ADRFAM" := Str(p.family),
      "TRADDR" := Str(p.address), "TRSVCID" := Int(p.portNum)]
  {
    var ms := PortMembers(p);
    assert ms[..3][..2][..1] == [ms[0]] && ms[..3][..2] == [ms[0], ms[1]] && ms[..3] == [ms[0], ms[1], ms[2]];
    assert ToMap([]) == map[];
    assert ToMap([ms[0]]) == map["TRTYPE" := Str(p.typ)] by {
      assert [ms[0]][..0] == [];
    }
    assert ToMap([ms[0], ms[1]]) == map["TRTYPE" := Str(p.typ), "ADRFAM" := Str(p.family)] by {
      assert [ms[0], ms[1]][..1] == [ms[0]];
    }
    assert ToMap([ms[0], ms[1], ms[2]]) ==
      map["TRTYPE" := Str(p.typ), "ADRFAM" := Str(p.family), "TRADDR" := Str(p.address)] by {
      assert [ms[0], ms[1], ms[2]][..2] == [ms[0], ms[1]];
    }
  }

  /** A subsystem request arrives as it was meant exactly when the NQN needs no escape. */
  lemma SubsysReqExact(s: Subsystem)
    ensures Decode(SetSubsysReq(s)) == Perform(CreateSubsys(s.nqn, if s.access != 0 then 1 else 0)) <==> Clean(s.nqn)
  {
    var ms := SubsysMembers(s);
    Dispatched(["subsystem"], Print(ms));
    SubsysBody(s);
    BodyExactly(ms);
    assert ms[0] in ms && ms[1] in ms;
    Int32RoundTrip(s.access);
  }

  /** A host request arrives as it was meant exactly when the NQN needs no escape. */
  lemma HostReqExact(h: Host)
    ensures Decode(SetHostReq(h)) == Perform(CreateHost(h.nqn)) <==> Clean(h.nqn)
  {
    var ms := HostMembers(h.nqn);
    Dispatched(["host"], Print(ms));
    HostBody(h.nqn);
    BodyExactly(ms);
    assert ms[0] in ms;
  }

  lemma SecondCounts(k: string, a: string, b: string)
    requires Clean(k) && Clean(a) && Clean(b)
    ensures Arrived(Print([(k, Str(a)), (k, Str(b))])) == Got(map[k := Str(b)], "")
  {
    var ms := [(k, Str(a)), (k, Str(b))];
    PrintedBack(ms);
    assert ms[..1] == [ms[0]] && [ms[0]][..0] == [];
    assert ToMap([ms[0]]) == map[k := Str(a)];
    assert ToMap(ms) == map[k := Str(b)];
  }

  /** A name that ends its string and goes on with a member of its own arrives as another. */
  lemma HostReqArrivesAsAnother(a: string, b: string)
    requires Clean(a) && Clean(b)
    ensures Decode(SetHostReq(Host("alias", a + "\"" + ("," + (Quoted("HOSTNQN") + ":" + ("\"" + b)))))) ==
      Perform(CreateHost(b))
  {
    var body := Print([("HOSTNQN", Str(a)), ("HOSTNQN", Str(b))]);
    QuoteAdds("HOSTNQN", a, b);
    SecondCounts("HOSTNQN", a, b);
    Dispatched(["host"], body);
    assert PostRequest(["host"], body) == PostHost(map["HOSTNQN" := Str(b)]);
  }

  /** A name with a quote in its midst is refused. */
  lemma HostReqRefused(a: string, c: char, b: string)
    requires Clean(a) && !MayFollow(c)
    ensures Decode(SetHostReq(Host("alias", a + "\"" + ([c] + b)))) == InvalidData
  {
    QuoteRefused("HOSTNQN", a, c, b);
    Dispatched(["host"], Print(HostMembers(a + "\"" + ([c] + b))));
  }

  /** An operation on a subsystem names one of the words of the path. */
  lemma NamesPart(p: seq<string>, body: string)
    ensures var r := PostRequest(p, body);
      r.Perform? && (r.op.CreateNs? || r.op.LinkHost? || r.op.LinkPort?) ==> r.op.nqn in p
  {
  }

  lemma MemberReq(nqn: string, word: string, body: string)
    requires '/' !in word
    ensures '/' !in nqn ==>
      Decode(HttpRequest(Post, Join(["subsystem", nqn, word]), body)) == PostRequest(["subsystem", nqn, word], body)
    ensures '/' in nqn ==>
      var r := Decode(HttpRequest(Post, Join(["subsystem", nqn, word]), body));
      r.Perform? && (r.op.CreateNs? || r.op.LinkHost? || r.op.LinkPort?) ==> r.op.nqn != nqn
  {
    if '/' !in nqn {
      Dispatched(["subsystem", nqn, word], body);
    } else {
      var parts := Parts(Join(["subsystem", nqn, word]));
      PartsHaveNoSlash(Join(["subsystem", nqn, word]));
      NamesPart(parts, body);
    }
  }

  /** A request below a subsystem reaches it exactly when its name has no separator. */
  lemma NsReqExact(s: Subsystem, ns: Ns)
    ensures Decode(SetNsReq(s, ns)) == Perform(CreateNs(s.nqn, ns.nsid, ns.devid, ns.devns))
      <==> '/' !in s.nqn
  {
    MemberReq(s.nqn, "namespace", SetNsReq(s, ns).body);
    NsBodyExact(s, ns);
  }

  lemma NsBodyExact(s: Subsystem, ns: Ns)
    ensures PostRequest(["subsystem", s.nqn, "namespace"], Print(NsMembers(ns)))
      == Perform(CreateNs(s.nqn, ns.nsid, ns.devid, ns.devns))
  {
    var ms := NsMembers(ns);
    BodyExactly(ms);
    var b := ToMap(ms);
    assert ms[0] in ms && ms[1] in ms && ms[2] in ms;
    assert PostRequest(["subsystem", s.nqn, "namespace"], Print(ms)) == PostNs(s.nqn, [], b);
    Int32RoundTrip(ns.nsid);
    Int32RoundTrip(ns.devid);
    Int32RoundTrip(ns.devns);
  }

  /** A host is linked as it was meant exactly when the subsystem's name has no separator and
      the host's needs no escape. */
  lemma LinkHostReqExact(s: Subsystem, h: Host)
    ensures Decode(LinkHostReq(s, h)) == Perform(LinkHost(s.nqn, h.nqn)) <==> '/' !in s.nqn && Clean(h.nqn)
  {
    MemberReq(s.nqn, "host", LinkHostReq(s, h).body);
    LinkHostBodyExact(s, h);
  }

  lemma LinkHostBodyExact(s: Subsystem, h: Host)
    ensures PostRequest(["subsystem", s.nqn, "host"], Print(HostMembers(h.nqn))) == Perform(LinkHost(s.nqn, h.nqn))
      <==> Clean(h.nqn)
  {
    var ms := HostMembers(h.nqn);
    HostBody(h.nqn);
    BodyExactly(ms);
    assert ms[0] in ms;
  }

  lemma LinkPortReqExact(s: Subsystem, p: PortId)
    ensures Decode(LinkPortReq(s, p)) == Perform(LinkPort(s.nqn, p.portid)) <==> '/' !in s.nqn
  {
    MemberReq(s.nqn, "portid", LinkPortReq(s, p).body);
    LinkPortBodyExact(s, p);
  }

  lemma LinkPortBodyExact(s: Subsystem, p: PortId)
    ensures PostRequest(["subsystem", s.nqn, "portid"], Print(PortIdMembers(p.portid)))
      == Perform(LinkPort(s.nqn, p.portid))
  {
    var ms := PortIdMembers(p.portid);
    BodyExactly(ms);
    assert ms[0] in ms;
    Int32RoundTrip(p.portid);
  }

  lemma ResetReqExact()
    ensures Decode(ResetReq) == Perform(ResetConfig)
  {
    PartsOfJoin(["config"]);
  }

  // Deletions, which have no body.

  function DelSubsysReq(nqn: string): HttpRequest {
    HttpRequest(Delete, Join(["subsystem", nqn]), "")
  }

  function DelPortReq(id: Int32): HttpRequest {
    HttpRequest(Delete, Join(["portid", Format(id)]), "")
  }

  function DelHostReq(nqn: string): HttpRequest {
    HttpRequest(Delete, Join(["host", nqn]), "")
  }

  function DelNsReq(nqn: string, nsid: Int32): HttpRequest {
    HttpRequest(Delete, Join(["subsystem", nqn, "namespace", Format(nsid)]), "")
  }

  function UnlinkPortReq(nqn: string, id: Int32): HttpRequest {
    HttpRequest(Delete, Join(["subsystem", nqn, "portid", Format(id)]), "")
  }

  function UnlinkHostReq(nqn: string, host: string): HttpRequest {
    HttpRequest(Delete, Join(["subsystem", nqn, "host", host]), "")
  }

  lemma DeleteNamesPart(p: seq<string>)
    ensures var d := DeleteRequest(p);
      && (d.Perform? && (d.op.DeleteSubsys? || d.op.DeleteNs? || d.op.UnlinkPort? || d.op.UnlinkHost?) ==> d.op.nqn in p)
      && (d.Perform? && (d.op.DeleteHost? || d.op.UnlinkHost?) ==> d.op.host in p)
  {
  }

  /** The names in an operation that deletes are words of the path, and so without separator. */
  lemma DeleteNames(r: HttpRequest)
    requires r.verb == Delete
    ensures var d := Decode(r);
      && (d.Perform? && (d.op.DeleteSubsys? || d.op.DeleteNs? || d.op.UnlinkPort? || d.op.UnlinkHost?) ==> '/' !in d.op.nqn)
      && (d.Perform? && (d.op.DeleteHost? || d.op.UnlinkHost?) ==> '/' !in d.op.host)
  {
    PartsHaveNoSlash(r.path);
    DeleteNamesPart(Parts(r.path));
  }

  lemma DeleteDispatched(parts: seq<string>)
    requires 0 < |parts| <= MAX_DEPTH && forall p <- parts :: '/' !in p
    ensures Decode(HttpRequest(Delete, Join(parts), "")) == DeleteRequest(parts)
  {
    PartsOfJoin(parts);
  }

  lemma NumberBackInPath(n: Int32)
    ensures '/' !in Format(n) && ToInt32(Atoi(Format(n))) == n
  {
    FormatHasNoSlash(n);
    AtoiFormat(n);
    Int32RoundTrip(n);
  }

  /** A deletion arrives as it was meant exactly when the names in its path hold no slash. */
  lemma DelSubsysReqExact(nqn: string)
    ensures Decode(DelSubsysReq(nqn)) == Perform(DeleteSubsys(nqn)) <==> '/' !in nqn
  {
    DeleteNames(DelSubsysReq(nqn));
    if '/' !in nqn {
      DeleteDispatched(["subsystem", nqn]);
    }
  }

  lemma DelPortReqExact(id: Int32)
    ensures Decode(DelPortReq(id)) == Perform(DeletePort(id))
  {
    NumberBackInPath(id);
    DeleteDispatched(["portid", Format(id)]);
  }

  lemma DelHostReqExact(nqn: string)
    ensures Decode(DelHostReq(nqn)) == Perform(DeleteHost(nqn)) <==> '/' !in nqn
  {
    DeleteNames(DelHostReq(nqn));
    if '/' !in nqn {
      DeleteDispatched(["host", nqn]);
    }
  }

  lemma DelNsReqExact(nqn: string, nsid: Int32)
    ensures Decode(DelNsReq(nqn, nsid)) == Perform(DeleteNs(nqn, nsid)) <==> '/' !in nqn
  {
    NumberBackInPath(nsid);
    DeleteNames(DelNsReq(nqn, nsid));
    if '/' !in nqn {
      DeleteDispatched(["subsystem", nqn, "namespace", Format(nsid)]);
    }
  }

  lemma UnlinkPortReqExact(nqn: string, id: Int32)
    ensures Decode(UnlinkPortReq(nqn, id)) == Perform(UnlinkPort(nqn, id)) <==> '/' !in nqn
  {
    NumberBackInPath(id);
    DeleteNames(UnlinkPortReq(nqn, id));
    if '/' !in nqn {
      DeleteDispatched(["subsystem", nqn, "portid", Format(id)]);
    }
  }

  lemma UnlinkHostReqExact(nqn: string, host: string)
    ensures Decode(UnlinkHostReq(nqn, host)) == Perform(UnlinkHost(nqn, host)) <==> '/' !in nqn && '/' !in host
  {
    DeleteNames(UnlinkHostReq(nqn, host));
    if '/' !in nqn && '/' !in host {
      DeleteDispatched(["subsystem", nqn, "host", host]);
    }
  }
}
