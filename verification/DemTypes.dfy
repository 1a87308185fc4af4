/** The structures of src/dem/common.h and the discovery record of src/incl/nvme.h that
    more than one module speaks of. Linked lists are sequences. */
module DemTypes {
  import opened CTypes

  const RESTRICTED := 0

  /** A discovery log page entry. Its key within one subsystem is the transport address. */
  datatype Entry = Entry(
    subnqn: string, traddr: string, trsvcid: string, trtype: U8, adrfam: U8,
    portid: U16, treq: U8, subtype: U8)

  datatype Key = Key(traddr: string, trsvcid: string, trtype: U8, adrfam: U8)

  function KeyOf(e: Entry): Key {
    Key(e.traddr, e.trsvcid, e.trtype, e.adrfam)
  }

  /** A key of the whole log: the subsystem and the transport address. */
  type LogKey = (string, Key)

  function LogKeyOf(e: Entry): LogKey {
    (e.subnqn, KeyOf(e))
  }

  datatype LogPage = LogPage(e: Entry, valid: bool)

  datatype Host = Host(alias: string, nqn: string)

  datatype Ns = Ns(nsid: Int32, devid: Int32, devns: Int32)

  datatype PortId = PortId(portid: Int32, typ: string, family: string, address: string, portNum: Int32)

  datatype Subsystem = Subsystem(
    nqn: string, access: Int32, hosts: seq<Host>, namespaces: seq<Ns>, logpages: seq<LogPage>)

  datatype Target = Target(
    alias: string, groupMember: bool, ports: seq<PortId>, subsystems: seq<Subsystem>)

  predicate IsRestricted(s: Subsystem) {
    s.access == RESTRICTED
  }
}
