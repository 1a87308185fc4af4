/** Configuration messages carried in NVMe-MI commands: the entries that src/dem/config.c
    builds and the handlers of src/endpoint/pseudo_target.c that take them apart. */
module InBand {
  import opened CTypes
  import opened ConfigFs
  import opened Decimal
  import opened DemTypes

  const NVMF_NULLB_DEVID := 255
  const NVMF_TREQ_NOT_REQUIRED := 2

  const RESET_CONFIG := 0x00
  const SET_PORT := 0x01
  const DEL_PORT := 0x02
  const LINK_PORT := 0x03
  const UNLINK_PORT := 0x04
  const SET_SUBSYS := 0x05
  const DEL_SUBSYS := 0x06
  const SET_NS := 0x07
  const DEL_NS := 0x08
  const SET_HOST := 0x09
  const DEL_HOST := 0x0a
  const LINK_HOST := 0x0b
  const UNLINK_HOST := 0x0c

  /** The wire layouts. Integers are as wide as the fields: u8, le16, le32. */
  datatype Entry =
    | NoEntry
    | PortEntry(trtype: U8, adrfam: U8, treq: U8, portid: U16, trsvcid: string, traddr: string)
    | PortIdEntry(portid: U16)
    | SubsysEntry(subnqn: string, allowanyhost: U8)
    | SubnqnEntry(subnqn: string)
    | NsEntry(subnqn: string, nsid: U32, deviceid: U32, devicensid: U32)
    | NsidEntry(subnqn: string, nsid: U32)
    | HostEntry(hostnqn: string)
    | LinkHostEntry(subnqn: string, hostnqn: string)
    | LinkPortEntry(subnqn: string, portid: U16)

  datatype Message = Message(fcid: U8, data: Entry)

  function ToTrtype(s: string): U8 {
    if s == "rdma" then 1 else if s == "fc" then 2 else if s == "tcp" then 3 else 0
  }

  function TrtypeStr(n: U8): string {
    if n == 1 then "rdma" else if n == 2 then "fc" else if n == 3 then "tcp"
    else if n == 254 then "loop" else "unrecognized"
  }

  function ToAdrfam(s: string): U8 {
    if s == "ipv4" then 1 else if s == "ipv6" then 2 else if s == "fc" then 4 else 0
  }

  function AdrfamStr(n: U8): string {
    if n == 0 then "pci" else if n == 1 then "ipv4" else if n == 2 then "ipv6"
    else if n == 3 then "ib" else if n == 4 then "fc" else "unrecognized"
  }

  /** The names that survive the trip through their wire codes. */
  predicate KnownType(s: string) {
    s in {"rdma", "fc", "tcp"}
  }

  predicate KnownFamily(s: string) {
    s in {"ipv4", "ipv6", "fc"}
  }

  lemma NamesSurvive(typ: string, fam: string)
    ensures TrtypeStr(ToTrtype(typ)) == typ <==> KnownType(typ) || typ == "unrecognized"
    ensures AdrfamStr(ToAdrfam(fam)) == fam <==> KnownFamily(fam) || fam == "pci"
  {
  }

  function SetPortMsg(p: PortId): Message {
    Message(SET_PORT, PortEntry(ToTrtype(p.typ), ToAdrfam(p.family), NVMF_TREQ_NOT_REQUIRED,
                                ToU16(p.portid), Format(p.portNum), p.address))
  }

  function SetSubsysMsg(s: Subsystem): Message {
    Message(SET_SUBSYS, SubsysEntry(s.nqn, ToU8(s.access)))
  }

  function SetHostMsg(h: Host): Message {
    Message(SET_HOST, HostEntry(h.nqn))
  }

  function LinkHostMsg(s: Subsystem, h: Host): Message {
    Message(LINK_HOST, LinkHostEntry(s.nqn, h.nqn))
  }

  function SetNsMsg(s: Subsystem, ns: Ns): Message {
    var deviceid := if ns.devid == NULLB_DEVID then NVMF_NULLB_DEVID else ToU32(ns.devid);
    Message(SET_NS, NsEntry(s.nqn, ToU32(ns.nsid), deviceid, ToU32(ns.devns)))
  }

  function LinkPortMsg(s: Subsystem, p: PortId): Message {
    Message(LINK_PORT, LinkPortEntry(s.nqn, ToU16(p.portid)))
  }

  const ResetMsg := Message(RESET_CONFIG, NoEntry)

  datatype Request = Perform(op: Op) | InvalidField

  /** handle_mi_send: the operation that a message asks for. */
  function Decode(m: Message): Request {
    if m.fcid == RESET_CONFIG then Perform(ResetConfig)
    else if m.fcid == SET_PORT && m.data.PortEntry? then
      Perform(CreatePort(m.data.portid, AdrfamStr(m.data.adrfam), TrtypeStr(m.data.trtype),
                         m.data.treq, m.data.traddr, ToInt32(Atoi(m.data.trsvcid))))
    else if m.fcid == DEL_PORT && m.data.PortIdEntry? then Perform(DeletePort(m.data.portid))
    else if m.fcid == LINK_PORT && m.data.LinkPortEntry? then
      Perform(LinkPort(m.data.subnqn, m.data.portid))
    else if m.fcid == UNLINK_PORT && m.data.LinkPortEntry? then
      Perform(UnlinkPort(m.data.subnqn, m.data.portid))
    else if m.fcid == SET_SUBSYS && m.data.SubsysEntry? then
      Perform(CreateSubsys(m.data.subnqn, m.data.allowanyhost))
    else if m.fcid == DEL_SUBSYS && m.data.SubnqnEntry? then Perform(DeleteSubsys(m.data.subnqn))
    else if m.fcid == SET_NS && m.data.NsEntry? then
      var devid := if m.data.deviceid == NVMF_NULLB_DEVID then NULLB_DEVID else ToInt32(m.data.deviceid);
      Perform(CreateNs(m.data.subnqn, ToInt32(m.data.nsid), devid, ToInt32(m.data.devicensid)))
    else if m.fcid == DEL_NS && m.data.NsidEntry? then
      Perform(DeleteNs(m.data.subnqn, ToInt32(m.data.nsid)))
    else if m.fcid == SET_HOST && m.data.HostEntry? then Perform(CreateHost(m.data.hostnqn))
    else if m.fcid == DEL_HOST && m.data.HostEntry? then Perform(DeleteHost(m.data.hostnqn))
    else if m.fcid == LINK_HOST && m.data.LinkHostEntry? then
      Perform(LinkHost(m.data.subnqn, m.data.hostnqn))
    else if m.fcid == UNLINK_HOST && m.data.LinkHostEntry? then
      Perform(UnlinkHost(m.data.subnqn, m.data.hostnqn))
    else InvalidField
  }

  /** A port message performs exactly what the DEM holds, precisely when the port id fits
      sixteen bits and both names have wire codes. */
  lemma PortMsgExact(p: PortId)
    ensures var want := CreatePort(p.portid, p.family, p.typ, NVMF_TREQ_NOT_REQUIRED, p.address, p.portNum);
      Decode(SetPortMsg(p)) == Perform(want)
      <==> 0 <= p.portid <= 0xffff
           && (KnownType(p.typ) || p.typ == "unrecognized")
           && (KnownFamily(p.family) || p.family == "pci")
  {
    AtoiFormat(p.portNum);
    Int32RoundTrip(p.portNum);
    NamesSurvive(p.typ, p.family);
  }

  /** A namespace message performs what the DEM holds unless the device id is
      the one that the wire reserves for the null block device. */
  lemma NsMsgExact(s: Subsystem, ns: Ns)
    ensures Decode(SetNsMsg(s, ns)) == Perform(CreateNs(s.nqn, ns.nsid, ns.devid, ns.devns))
      <==> ns.devid != NVMF_NULLB_DEVID
  {
    Int32RoundTrip(ns.nsid);
    Int32RoundTrip(ns.devid);
    Int32RoundTrip(ns.devns);
  }

  // Deletions and unlinks.

  function DelPortMsg(id: Int32): Message {
    Message(DEL_PORT, PortIdEntry(ToU16(id)))
  }

  function UnlinkPortMsg(nqn: string, id: Int32): Message {
    Message(UNLINK_PORT, LinkPortEntry(nqn, ToU16(id)))
  }

  function DelSubsysMsg(nqn: string): Message {
    Message(DEL_SUBSYS, SubnqnEntry(nqn))
  }

  function DelNsMsg(nqn: string, nsid: Int32): Message {
    Message(DEL_NS, NsidEntry(nqn, ToU32(nsid)))
  }

  function DelHostMsg(nqn: string): Message {
    Message(DEL_HOST, HostEntry(nqn))
  }

  function UnlinkHostMsg(nqn: string, host: string): Message {
    Message(UNLINK_HOST, LinkHostEntry(nqn, host))
  }

  /** Every deletion is decoded as it was meant; those that name a port, if and only if its id
      fits 16 bits. */
  lemma DeleteMsgsExact(nqn: string, host: string, id: Int32, nsid: Int32)
    ensures Decode(DelPortMsg(id)) == Perform(DeletePort(id)) <==> 0 <= id <= 0xffff
    ensures Decode(UnlinkPortMsg(nqn, id)) == Perform(UnlinkPort(nqn, id)) <==> 0 <= id <= 0xffff
    ensures Decode(DelSubsysMsg(nqn)) == Perform(DeleteSubsys(nqn))
    ensures Decode(DelNsMsg(nqn, nsid)) == Perform(DeleteNs(nqn, nsid))
    ensures Decode(DelHostMsg(nqn)) == Perform(DeleteHost(nqn))
    ensures Decode(UnlinkHostMsg(nqn, host)) == Perform(UnlinkHost(nqn, host))
    ensures Decode(ResetMsg) == Perform(ResetConfig)
  {
    Int32RoundTrip(nsid);
  }

  /** So are the other settings; access that does not fit a byte arrives as its low bits. */
  lemma SetMsgsExact(s: Subsystem, h: Host, p: PortId)
    ensures Decode(SetSubsysMsg(s)) == Perform(CreateSubsys(s.nqn, s.access)) <==> 0 <= s.access <= 0xff
    ensures Decode(SetHostMsg(h)) == Perform(CreateHost(h.nqn))
    ensures Decode(LinkHostMsg(s, h)) == Perform(LinkHost(s.nqn, h.nqn))
    ensures Decode(LinkPortMsg(s, p)) == Perform(LinkPort(s.nqn, p.portid)) <==> 0 <= p.portid <= 0xffff
  {
  }

  /** An id that stands for no command is refused. */
  lemma UnknownRefused(m: Message)
    requires m.fcid > UNLINK_HOST
    ensures Decode(m) == InvalidField
  {
  }
}
