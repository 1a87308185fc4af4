/** The configuration document as a value: what each request of src/dem/json.c makes of it,
    and the cross references that requests keep. */
module Document {
  import opened CTypes
  import opened Options

  datatype HostObj = HostObj(alias: string, nqn: Option<string>)

  datatype NsObj = NsObj(nsid: int, devid: Option<int>, devns: Option<int>)

  datatype SubsysObj = SubsysObj(nqn: string, allowAny: Option<int>, hosts: seq<string>, namespaces: seq<NsObj>)

  datatype PortObj = PortObj(portid: int, address: Option<string>)

  datatype TargetObj = TargetObj(alias: string, ports: seq<PortObj>, subsystems: seq<SubsysObj>)

  datatype GroupObj = GroupObj(name: string, targets: seq<string>, hosts: seq<string>)

  /** The root object. An array that is missing counts as empty. */
  datatype Doc = Doc(hosts: seq<HostObj>, targets: seq<TargetObj>, groups: seq<GroupObj>)

  datatype Kind = TargetMember | HostMember

  /** The body of a request: nothing, no JSON, or the members that matter. */
  datatype Body<T> = Empty | Malformed | Json(value: T)

  datatype HostData = HostData(alias: Option<string>, nqn: Option<string>)

  datatype SubsysData = SubsysData(nqn: Option<string>, allowAny: Option<int>)

  datatype NsData = NsData(nsid: Option<int>, devid: Option<int>, devns: Option<int>)

  datatype PortData = PortData(portid: Option<int>, address: Option<string>)

  datatype Request =
    | AddGroup(name: string)
    | UpdateGroup(was: Option<string>, newName: Body<Option<string>>)
    | DelGroup(name: string)
    | SetMember(name: string, kind: Kind, member: Body<Option<string>>)
    | DelMember(name: string, kind: Kind, alias: string)
    | AddHost(alias: string)
    | UpdateHost(was: Option<string>, host: Body<HostData>)
    | DelHost(alias: string)
    | AddTarget(alias: string)
    | UpdateTarget(was: Option<string>, newAlias: Body<Option<string>>)
    | DelTarget(alias: string)
    | SetSubsys(alias: string, subnqn: Option<string>, subsys: Body<SubsysData>)
    | DelSubsys(alias: string, nqn: string)
    | SetNs(alias: string, nqn: string, ns: Body<NsData>)
    | DelNs(alias: string, nqn: string, nsid: Int32)
    | SetAcl(alias: string, nqn: string, newHost: Body<Option<string>>)
    | DelAcl(alias: string, nqn: string, hostAlias: string)
    | SetPort(alias: string, id: Int32, port: Body<PortData>)
    | DelPort(alias: string, id: Int32)

  datatype Code = Ok | NoEntry | Exists | Invalid | Fault

  // Finding.

  /** The first index of a value, or the length. */
  function IndexOf<T(==)>(s: seq<T>, v: T): (i: nat)
    ensures i <= |s| && (forall k :: 0 <= k < i ==> s[k] != v)
    ensures i < |s| ==> s[i] == v
    ensures i < |s| <==> v in s
  {
    if s == [] || s[0] == v then 0 else 1 + IndexOf(s[1..], v)
  }

  function HostNames(s: seq<HostObj>): (r: seq<string>)
    ensures |r| == |s|
  {
    seq(|s|, i requires 0 <= i < |s| => s[i].alias)
  }

  function TargetNames(s: seq<TargetObj>): (r: seq<string>)
    ensures |r| == |s|
  {
    seq(|s|, i requires 0 <= i < |s| => s[i].alias)
  }

  function GroupNames(s: seq<GroupObj>): (r: seq<string>)
    ensures |r| == |s|
  {
    seq(|s|, i requires 0 <= i < |s| => s[i].name)
  }

  function SubNames(s: seq<SubsysObj>): (r: seq<string>)
    ensures |r| == |s|
  {
    seq(|s|, i requires 0 <= i < |s| => s[i].nqn)
  }

  function NsIds(s: seq<NsObj>): (r: seq<int>)
    ensures |r| == |s|
  {
    seq(|s|, i requires 0 <= i < |s| => s[i].nsid)
  }

  function PortIds(s: seq<PortObj>): (r: seq<int>)
    ensures |r| == |s|
  {
    seq(|s|, i requires 0 <= i < |s| => s[i].portid)
  }

  function FindHost(d: Doc, alias: string): (i: nat)
    ensures i <= |d.hosts|
  {
    IndexOf(HostNames(d.hosts), alias)
  }

  function FindTarget(d: Doc, alias: string): (i: nat)
    ensures i <= |d.targets|
  {
    IndexOf(TargetNames(d.targets), alias)
  }

  function FindGroup(d: Doc, name: string): (i: nat)
    ensures i <= |d.groups|
  {
    IndexOf(GroupNames(d.groups), name)
  }

  function FindSub(t: TargetObj, nqn: string): (j: nat)
    ensures j <= |t.subsystems|
  {
    IndexOf(SubNames(t.subsystems), nqn)
  }

  // Changing.

  function Removed<T>(s: seq<T>, i: nat): seq<T>
    requires i < |s|
  {
    s[..i] + s[i + 1..]
  }

  /** Without the first occurrence. */
  function Without<T(==)>(s: seq<T>, v: T): seq<T> {
    var i := IndexOf(s, v);
    if i < |s| then Removed(s, i) else s
  }

  /** With the first occurrence replaced. */
  function Renamed<T(==)>(s: seq<T>, v: T, w: T): seq<T> {
    var i := IndexOf(s, v);
    if i < |s| then s[i := w] else s
  }

  function Members(g: GroupObj, kind: Kind): seq<string> {
    if kind.HostMember? then g.hosts else g.targets
  }

  function WithMembers(g: GroupObj, kind: Kind, members: seq<string>): GroupObj {
    if kind.HostMember? then g.(hosts := members) else g.(targets := members)
  }

  function RenameInGroup(g: GroupObj, kind: Kind, v: string, w: string): GroupObj {
    WithMembers(g, kind, Renamed(Members(g, kind), v, w))
  }

  function RenameInGroups(groups: seq<GroupObj>, kind: Kind, v: string, w: string): (r: seq<GroupObj>)
    ensures |r| == |groups|
  {
    seq(|groups|, i requires 0 <= i < |groups| => RenameInGroup(groups[i], kind, v, w))
  }

  function DelFromGroup(g: GroupObj, kind: Kind, v: string): GroupObj {
    WithMembers(g, kind, Without(Members(g, kind), v))
  }

  function DelFromGroups(groups: seq<GroupObj>, kind: Kind, v: string): (r: seq<GroupObj>)
    ensures |r| == |groups|
  {
    seq(|groups|, i requires 0 <= i < |groups| => DelFromGroup(groups[i], kind, v))
  }

  function RenameInSub(s: SubsysObj, v: string, w: string): SubsysObj {
    s.(hosts := Renamed(s.hosts, v, w))
  }

  function RenameInTarget(t: TargetObj, v: string, w: string): TargetObj {
    t.(subsystems := seq(|t.subsystems|, j requires 0 <= j < |t.subsystems| => RenameInSub(t.subsystems[j], v, w)))
  }

  function RenameInAllowedHosts(targets: seq<TargetObj>, v: string, w: string): (r: seq<TargetObj>)
    ensures |r| == |targets|
  {
    seq(|targets|, i requires 0 <= i < |targets| => RenameInTarget(targets[i], v, w))
  }

  /** One look of del_from_allowed_hosts at target i. It looks at subsystem i, and if that lists
      the host, it removes the subsystem that has the host's place in the list, where there is
      one. Past the end there is nothing to look at. */
  function DelVisit(subs: seq<SubsysObj>, i: nat, v: string): seq<SubsysObj> {
    if i < |subs| then
      var k := IndexOf(subs[i].hosts, v);
      if k < |subs[i].hosts| && k < |subs| then Removed(subs, k) else subs
    else subs
  }

  function DelVisits(subs: seq<SubsysObj>, i: nat, v: string, times: nat): seq<SubsysObj> {
    if times == 0 then subs else DelVisits(DelVisit(subs, i, v), i, v, times - 1)
  }

  /** As many looks as the target had subsystems. */
  function DelInTarget(t: TargetObj, i: nat, v: string): TargetObj {
    t.(subsystems := DelVisits(t.subsystems, i, v, |t.subsystems|))
  }

  function DelFromAllowedHosts(targets: seq<TargetObj>, v: string): (r: seq<TargetObj>)
    ensures |r| == |targets|
  {
    seq(|targets|, i requires 0 <= i < |targets| => DelInTarget(targets[i], i, v))
  }

  function WithSub(d: Doc, i: nat, j: nat, s: SubsysObj): Doc
    requires i < |d.targets| && j < |d.targets[i].subsystems|
  {
    var t := d.targets[i];
    d.(targets := d.targets[i := t.(subsystems := t.subsystems[j := s])])
  }

  function Or<T>(v: Option<T>, w: Option<T>): Option<T> {
    if v.Some? then v else w
  }

  // The requests.

  function StepUpdateGroup(d: Doc, was: Option<string>, data: Body<Option<string>>): (Doc, Code) {
    if data.Empty? then (d, Invalid)
    else if was.Some? && was.value !in GroupNames(d.groups) then (d, NoEntry)
    else if data.Malformed? || data.value.None? then (d, Invalid)
    else
      var name := data.value.value;
      if (if was.Some? then was.value != name else name != "") && name in GroupNames(d.groups) then (d, Exists)
      else if was.Some? then
        var i := FindGroup(d, was.value);
        (d.(groups := d.groups[i := d.groups[i].(name := name)]), Ok)
      else (d.(groups := d.groups + [GroupObj(name, [], [])]), Ok)
  }

  function StepSetMember(d: Doc, name: string, kind: Kind, data: Body<Option<string>>): (Doc, Code) {
    var i := FindGroup(d, name);
    if i == |d.groups| then (d, NoEntry)
    else if !data.Json? || data.value.None? then (d, Invalid)
    else
      var alias := data.value.value;
      var known := if kind.HostMember? then HostNames(d.hosts) else TargetNames(d.targets);
      if alias !in known then (d, NoEntry)
      else if alias in Members(d.groups[i], kind) then (d, Ok)
      else
        var g := WithMembers(d.groups[i], kind, Members(d.groups[i], kind) + [alias]);
        (d.(groups := d.groups[i := g]), Ok)
  }

  function StepDelMember(d: Doc, name: string, kind: Kind, alias: string): (Doc, Code) {
    var i := FindGroup(d, name);
    if i == |d.groups| || alias !in Members(d.groups[i], kind) then (d, NoEntry)
    else (d.(groups := d.groups[i := DelFromGroup(d.groups[i], kind, alias)]), Ok)
  }

  /** A rename of host i takes the references along. */
  function RenamedHost(d: Doc, i: nat, alias: string): Doc
    requires i < |d.hosts|
  {
    var was := d.hosts[i].alias;
    Doc(d.hosts[i := d.hosts[i].(alias := alias)], RenameInAllowedHosts(d.targets, was, alias),
        RenameInGroups(d.groups, HostMember, was, alias))
  }

  function StepUpdateHost(d: Doc, was: Option<string>, data: Body<HostData>): (Doc, Code) {
    if data.Empty? then (d, Invalid)
    else if was.Some? && was.value !in HostNames(d.hosts) then (d, NoEntry)
    else if data.Malformed? || (was.None? && data.value.alias.None?) then (d, Invalid)
    else
      var alias := if data.value.alias.Some? then data.value.alias.value else was.value;
      if was.None? && alias == "" then (d, Fault)
      else if (was.None? || alias != was.value) && alias in HostNames(d.hosts) then (d, Exists)
      else if was.None? then (d.(hosts := d.hosts + [HostObj(alias, data.value.nqn)]), Ok)
      else
        var i := FindHost(d, was.value);
        var e := if alias != was.value then RenamedHost(d, i, alias) else d;
        (e.(hosts := e.hosts[i := e.hosts[i].(nqn := Or(data.value.nqn, e.hosts[i].nqn))]), Ok)
  }

  function StepDelHost(d: Doc, alias: string): (Doc, Code) {
    var i := FindHost(d, alias);
    if i == |d.hosts| then (d, NoEntry)
    else
      (Doc(Removed(d.hosts, i), DelFromAllowedHosts(d.targets, alias), DelFromGroups(d.groups, HostMember, alias)), Ok)
  }

  function StepUpdateTarget(d: Doc, was: Option<string>, data: Body<Option<string>>): (Doc, Code) {
    if data.Empty? then (d, Invalid)
    else if was.Some? && was.value !in TargetNames(d.targets) then (d, NoEntry)
    else if data.Malformed? || (was.None? && data.value.None?) then (d, Invalid)
    else
      var alias := if data.value.Some? then data.value.value else was.value;
      if was.None? && alias == "" then (d, Fault)
      else if was.Some? && alias == was.value then (d, Ok)
      else if alias in TargetNames(d.targets) then (d, Exists)
      else if was.None? then (d.(targets := d.targets + [TargetObj(alias, [], [])]), Ok)
      else
        var i := FindTarget(d, was.value);
        (Doc(d.hosts, d.targets[i := d.targets[i].(alias := alias)],
             RenameInGroups(d.groups, TargetMember, was.value, alias)), Ok)
  }

  function StepDelTarget(d: Doc, alias: string): (Doc, Code) {
    var i := FindTarget(d, alias);
    if i == |d.targets| then (d, NoEntry)
    else (Doc(d.hosts, Removed(d.targets, i), DelFromGroups(d.groups, TargetMember, alias)), Ok)
  }

  const UNDEFINED_ACCESS := -1

  /** The access that the caller learns, which decides whether the host list is dropped: an
      update that does not mention it leaves it undefined, and drops the list. */
  function AccessOf(data: SubsysData): Int32 {
    if data.allowAny.Some? then ToInt32(data.allowAny.value) else UNDEFINED_ACCESS
  }

  function Updated(s: SubsysObj, data: SubsysData): SubsysObj {
    SubsysObj(if data.nqn.Some? then data.nqn.value else s.nqn, Or(data.allowAny, s.allowAny),
              if AccessOf(data) == 0 then s.hosts else [], s.namespaces)
  }

  function StepSetSubsys(d: Doc, alias: string, subnqn: Option<string>, data: Body<SubsysData>): (Doc, Code) {
    var i := FindTarget(d, alias);
    if i == |d.targets| then (d, NoEntry)
    else
      var t := d.targets[i];
      if subnqn.Some? && subnqn.value !in SubNames(t.subsystems) then (d, NoEntry)
      else if data.Empty? then (d, if subnqn.Some? then Ok else Invalid)
      else if data.Malformed? then (d, Invalid)
      else if data.value.nqn.Some? && data.value.nqn != subnqn && data.value.nqn.value in SubNames(t.subsystems) then (d, Exists)
      else if subnqn.None? && data.value.nqn.None? then (d, Invalid)
      else if subnqn.None? then
        var s := Updated(SubsysObj(data.value.nqn.value, None, [], []), data.value);
        (d.(targets := d.targets[i := t.(subsystems := t.subsystems + [s])]), Ok)
      else
        var j := FindSub(t, subnqn.value);
        (WithSub(d, i, j, Updated(t.subsystems[j], data.value)), Ok)
  }

  /** Where a subsystem is, when there is such a target and subsystem. */
  function Locate(d: Doc, alias: string, nqn: string): (r: Option<(nat, nat)>)
    ensures r.Some? ==> r.value.0 < |d.targets| && r.value.1 < |d.targets[r.value.0].subsystems|
  {
    var i := FindTarget(d, alias);
    if i == |d.targets| then None
    else
      var j := FindSub(d.targets[i], nqn);
      if j == |d.targets[i].subsystems| then None else Some((i, j))
  }

  function StepDelSubsys(d: Doc, alias: string, nqn: string): (Doc, Code) {
    match Locate(d, alias, nqn)
    case None => (d, NoEntry)
    case Some((i, j)) =>
      var t := d.targets[i];
      (d.(targets := d.targets[i := t.(subsystems := Removed(t.subsystems, j))]), Ok)
  }

  function SetNamespace(nss: seq<NsObj>, nsid: int, data: NsData): seq<NsObj> {
    var k := IndexOf(NsIds(nss), nsid);
    if k < |nss| then nss[k := NsObj(nsid, Or(data.devid, nss[k].devid), Or(data.devns, nss[k].devns))]
    else nss + [NsObj(nsid, data.devid, data.devns)]
  }

  function StepSetNs(d: Doc, alias: string, nqn: string, data: Body<NsData>): (Doc, Code) {
    match Locate(d, alias, nqn)
    case None => (d, NoEntry)
    case Some((i, j)) =>
      if !data.Json? || data.value.nsid.None? then (d, Invalid)
      else
        var s := d.targets[i].subsystems[j];
        var nss := SetNamespace(s.namespaces, ToInt32(data.value.nsid.value), data.value);
        (WithSub(d, i, j, s.(namespaces := nss)), Ok)
  }

  function StepDelNs(d: Doc, alias: string, nqn: string, nsid: int): (Doc, Code) {
    match Locate(d, alias, nqn)
    case None => (d, NoEntry)
    case Some((i, j)) =>
      var s := d.targets[i].subsystems[j];
      var k := IndexOf(NsIds(s.namespaces), nsid);
      if k == |s.namespaces| then (d, NoEntry)
      else (WithSub(d, i, j, s.(namespaces := Removed(s.namespaces, k))), Ok)
  }

  function StepSetAcl(d: Doc, alias: string, nqn: string, data: Body<Option<string>>): (Doc, Code) {
    match Locate(d, alias, nqn)
    case None => (d, NoEntry)
    case Some((i, j)) =>
      var s := d.targets[i].subsystems[j];
      if !data.Json? || data.value.None? then (d, Invalid)
      else
        var k := FindHost(d, data.value.value);
        if k == |d.hosts| then (d, NoEntry)
        else if data.value.value in s.hosts then (d, Exists)
        else if d.hosts[k].nqn.None? then (d, Invalid)
        else (WithSub(d, i, j, s.(hosts := s.hosts + [data.value.value])), Ok)
  }

  function StepDelAcl(d: Doc, alias: string, nqn: string, host: string): (Doc, Code) {
    match Locate(d, alias, nqn)
    case None => (d, NoEntry)
    case Some((i, j)) =>
      var s := d.targets[i].subsystems[j];
      if host !in s.hosts then (d, NoEntry)
      else (WithSub(d, i, j, s.(hosts := Without(s.hosts, host))), Ok)
  }

  /** The port id that a request is about: the one of the path, or else the one of the body. */
  function IdOf(id: Int32, data: PortData): Int32 {
    if id != 0 then id else if data.portid.Some? then ToInt32(data.portid.value) else 0
  }

  /** A port is found by that id, and then gets the one of the body. */
  function SetPortId(ports: seq<PortObj>, id: int, data: PortData): seq<PortObj> {
    var k := IndexOf(PortIds(ports), id);
    var p := if k < |ports| then ports[k] else PortObj(id, None);
    var q := PortObj(if data.portid.Some? then data.portid.value else id, Or(data.address, p.address));
    if k < |ports| then ports[k := q] else ports + [q]
  }

  function StepSetPort(d: Doc, alias: string, id: Int32, data: Body<PortData>): (Doc, Code) {
    var i := FindTarget(d, alias);
    if i == |d.targets| then (d, NoEntry)
    else if !data.Json? || IdOf(id, data.value) == 0 then (d, Invalid)
    else
      var t := d.targets[i];
      (d.(targets := d.targets[i := t.(ports := SetPortId(t.ports, IdOf(id, data.value), data.value))]), Ok)
  }

  function StepDelPort(d: Doc, alias: string, id: int): (Doc, Code) {
    var i := FindTarget(d, alias);
    if i == |d.targets| then (d, NoEntry)
    else
      var t := d.targets[i];
      var k := IndexOf(PortIds(t.ports), id);
      if k == |t.ports| then (d, NoEntry)
      else (d.(targets := d.targets[i := t.(ports := Removed(t.ports, k))]), Ok)
  }

  function Step(d: Doc, r: Request): (Doc, Code) {
    match r
    case AddGroup(name) =>
      if name in GroupNames(d.groups) then (d, Exists) else (d.(groups := d.groups + [GroupObj(name, [], [])]), Ok)
    case UpdateGroup(was, data) => StepUpdateGroup(d, was, data)
    case DelGroup(name) =>
      if name !in GroupNames(d.groups) then (d, NoEntry)
      else (d.(groups := Removed(d.groups, FindGroup(d, name))), Ok)
    case SetMember(name, kind, data) => StepSetMember(d, name, kind, data)
    case DelMember(name, kind, alias) => StepDelMember(d, name, kind, alias)
    case AddHost(alias) =>
      if alias in HostNames(d.hosts) then (d, Exists) else (d.(hosts := d.hosts + [HostObj(alias, None)]), Ok)
    case UpdateHost(was, data) => StepUpdateHost(d, was, data)
    case DelHost(alias) => StepDelHost(d, alias)
    case AddTarget(alias) =>
      if alias in TargetNames(d.targets) then (d, Exists)
      else (d.(targets := d.targets + [TargetObj(alias, [], [])]), Ok)
    case UpdateTarget(was, data) => StepUpdateTarget(d, was, data)
    case DelTarget(alias) => StepDelTarget(d, alias)
    case SetSubsys(alias, subnqn, data) => StepSetSubsys(d, alias, subnqn, data)
    case DelSubsys(alias, nqn) => StepDelSubsys(d, alias, nqn)
    case SetNs(alias, nqn, data) => StepSetNs(d, alias, nqn, data)
    case DelNs(alias, nqn, nsid) => StepDelNs(d, alias, nqn, nsid)
    case SetAcl(alias, nqn, data) => StepSetAcl(d, alias, nqn, data)
    case DelAcl(alias, nqn, host) => StepDelAcl(d, alias, nqn, host)
    case SetPort(alias, id, data) => StepSetPort(d, alias, id, data)
    case DelPort(alias, id) => StepDelPort(d, alias, id)
  }
}
