/** The adapter and device records the event layer reads and updates, and
    the lookup `get_adapter_and_device` (src/event.c:58-84). */
module Registry {
  import opened Common

  datatype AddrType = BrEdr | LePublic | LeRandom

  /** What the event layer sees of a `btd_device`. */
  datatype Device = Device(
    adapter: Address,      // the local adapter that owns it
    address: Address,      // the peer address
    addrType: AddrType,
    name: Option<seq<byte>>,
    bonded: bool,
    temporary: bool,
    paired: bool,
    blocked: bool,
    bonding: bool)         // a bonding request is in progress

  /** What the event layer sees of a `btd_adapter`: its devices by peer
      address and the peers it has a connection to. */
  datatype Adapter = Adapter(devices: map<Address, Device>, connections: set<Address>)

  /** The adapters by local address (what `manager_find_adapter` searches). */
  type Adapters = map<Address, Adapter>

  datatype ResolveError = NoAdapter | CreateFailed

  /** The record `adapter_get_device` makes for a peer it does not know:
      temporary, not bonded, paired or blocked, with no bonding in progress. */
  function NewDevice(local: Address, peer: Address): (d: Device)
  {
    Device(local, peer, BrEdr, None, false, true, false, false, false)
  }

  /** Every record is filed under its own adapter and peer address. */
  ghost predicate WellFiled(reg: Adapters) {
    forall a, p :: a in reg && p in reg[a].devices ==>
      reg[a].devices[p].adapter == a && reg[a].devices[p].address == p
  }

  /** `get_adapter_and_device`. `create` picks `adapter_get_device` (find or
      create) over `adapter_find_device` (find only); `canCreate` is whether
      the registry manages to create a record when one is needed. A success
      without a device is `Ok(None)`. */
  function Resolve(reg: Adapters, local: Address, peer: Address, create: bool, canCreate: bool)
    : (r: Result<Option<Device>, ResolveError>)
    ensures r == Err(NoAdapter) <==> local !in reg
    ensures r == Err(CreateFailed)
            <==> local in reg && create && peer !in reg[local].devices && !canCreate
    ensures create && r.Ok? ==> r.value.Some?
    ensures !create && local in reg ==>
              r == Ok(if peer in reg[local].devices then Some(reg[local].devices[peer]) else None)
    ensures local in reg && peer in reg[local].devices ==> r == Ok(Some(reg[local].devices[peer]))
    ensures r.Ok? && r.value.Some? && peer !in reg[local].devices ==>
              create && r.value.value == NewDevice(local, peer)
    ensures WellFiled(reg) && r.Ok? && r.value.Some? ==>
              r.value.value.adapter == local && r.value.value.address == peer
  {
    if local !in reg then Err(NoAdapter)
    else
      var devices := reg[local].devices;
      if peer in devices then Ok(Some(devices[peer]))
      else if !create then Ok(None)
      else if canCreate then Ok(Some(NewDevice(local, peer)))
      else Err(CreateFailed)
  }

  /** The registry with `d` stored (inserted or replaced) under its adapter. */
  function Store(reg: Adapters, d: Device): (r: Adapters)
    requires d.adapter in reg
    ensures r.Keys == reg.Keys
    ensures r[d.adapter].devices.Keys == reg[d.adapter].devices.Keys + {d.address}
    ensures r[d.adapter].devices[d.address] == d
    ensures forall p :: p in reg[d.adapter].devices && p != d.address ==>
              r[d.adapter].devices[p] == reg[d.adapter].devices[p]
    ensures r[d.adapter].connections == reg[d.adapter].connections
    ensures forall a :: a in reg && a != d.adapter ==> r[a] == reg[a]
  {
    var ad := reg[d.adapter];
    reg[d.adapter := ad.(devices := ad.devices[d.address := d])]
  }

  /** Storing a record that is already filed changes nothing. */
  lemma StoreFiled(reg: Adapters, d: Device)
    requires d.adapter in reg && d.address in reg[d.adapter].devices
    requires reg[d.adapter].devices[d.address] == d
    ensures Store(reg, d) == reg
  {
    var ad := reg[d.adapter];
    assert ad.devices[d.address := d] == ad.devices;
    assert ad.(devices := ad.devices) == ad;
  }

  /** `adapter_remove_device`: the peer's record leaves its adapter. */
  function Remove(reg: Adapters, local: Address, peer: Address): (r: Adapters)
    requires local in reg
    ensures r.Keys == reg.Keys
    ensures r[local].devices.Keys == reg[local].devices.Keys - {peer}
    ensures forall p :: p in r[local].devices ==> r[local].devices[p] == reg[local].devices[p]
    ensures r[local].connections == reg[local].connections
    ensures forall a :: a in reg && a != local ==> r[a] == reg[a]
  {
    reg[local := reg[local].(devices := reg[local].devices - {peer})]
  }

  /** `adapter_add_connection` (`add == true`) and `adapter_remove_connection`. */
  function SetConnected(reg: Adapters, local: Address, peer: Address, add: bool): (r: Adapters)
    requires local in reg
    ensures r.Keys == reg.Keys
    ensures r[local].devices == reg[local].devices
    ensures peer in r[local].connections <==> add
    ensures forall p :: p != peer ==> (p in r[local].connections <==> p in reg[local].connections)
    ensures forall a :: a in reg && a != local ==> r[a] == reg[a]
  {
    var ad := reg[local];
    reg[local := ad.(connections := if add then ad.connections + {peer} else ad.connections - {peer})]
  }

  /** Storing twice under the same key keeps only the second record. */
  lemma StoreTwice(reg: Adapters, d: Device, e: Device)
    requires d.adapter in reg
    requires e.adapter == d.adapter && e.address == d.address
    ensures Store(Store(reg, d), e) == Store(reg, e)
  {
    var ad := reg[d.adapter];
    assert ad.devices[d.address := d][e.address := e] == ad.devices[e.address := e];
  }

  /** Removing a record discards whatever was last stored under it. */
  lemma RemoveAfterStore(reg: Adapters, d: Device)
    requires d.adapter in reg
    ensures Remove(Store(reg, d), d.adapter, d.address) == Remove(reg, d.adapter, d.address)
  {
    var ad := reg[d.adapter];
    assert ad.devices[d.address := d] - {d.address} == ad.devices - {d.address};
  }
}
