/** The records of the system, and the forms they take on the wire.

    Serialising a region, a service or a payload drops its `timeval`; the receiver
    stamps it again with its own clock.  `RegionMsg` and `ServiceMsg` are the records
    as they travel, and `Stamp` is what the receiving constructors do.
 */
module Types {

  datatype Option<+T> = None | Some(value: T)

  /** Region versions are 32-bit counters that wrap. */
  type uint32 = v: nat | v < 0x1_0000_0000

  function Next(v: uint32): uint32 {
    if v == 0xFFFF_FFFF then 0 else v + 1
  }

  /** Milliseconds are 64-bit unsigned: a subtraction that goes below zero wraps. */
  const TWO_TO_THE_64: nat := 0x1_0000_0000_0000_0000

  function Sub64(a: nat, b: nat): int {
    if a >= b then a - b else a + TWO_TO_THE_64 - b
  }

  datatype EndPoint = EndPoint(address: string, identity: string) {
    predicate AllGood() {
      address != "" && identity != ""
    }
  }

  datatype RegionMsg = RegionMsg(id: string, version: uint32, idc: string, bus: EndPoint, snapshot: EndPoint) {
    function Stamp(now: nat): Region {
      Region(id, version, idc, bus, snapshot, now)
    }
  }

  datatype Region = Region(id: string, version: uint32, idc: string, bus: EndPoint, snapshot: EndPoint, timeval: nat) {
    predicate Good() {
      id != "" && idc != "" && bus.AllGood() && snapshot.AllGood() && timeval != 0
    }

    function Wire(): RegionMsg {
      RegionMsg(id, version, idc, bus, snapshot)
    }
  }

  datatype ServiceMsg = ServiceMsg(name: string, endpoint: EndPoint) {
    function Stamp(now: nat): Service {
      Service(name, endpoint, now)
    }
  }

  datatype Service = Service(name: string, endpoint: EndPoint, timeval: nat) {
    predicate Good() {
      name != "" && endpoint.AllGood() && timeval != 0
    }

    function Wire(): ServiceMsg {
      ServiceMsg(name, endpoint)
    }
  }

  datatype Payload = Payload(id: string, timeval: nat) {
    predicate Good() {
      id != ""
    }
  }

  function RegionKey(r: Region): string { r.id }

  function ServiceKey(s: Service): string { s.name }

  function PayloadKey(p: Payload): string { p.id }
}
