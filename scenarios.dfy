/** Properties of event sequences, proved from the handlers' contracts alone. */
module Scenarios {
  import opened Common
  import opened Pairing
  import opened Registry
  import opened Events

  /** A connection failure cancels a bonding request at most once: after the
      first failure the record is gone or no longer bonding, so a second one
      for the same peer makes no further device call. */
  method ConnFailedTwice(e: EventLayer, local: Address, peer: Address, status: byte)
    requires e.Valid()
    modifies e
    ensures e.Valid()
    ensures var res := Resolve(old(e.adapters), local, peer, false, false);
            e.deviceCalls == old(e.deviceCalls)
              + (if res.Ok? && res.value.Some? && res.value.value.bonding
                 then [CancelBonding(local, peer, status)] else [])
  {
    e.ConnFailed(local, peer, status);
    ghost var calls := e.deviceCalls;
    e.ConnFailed(local, peer, status);
    assert e.deviceCalls == calls;
  }

  /** Blocking twice leaves the same state as blocking once: only the registry
      changes, and only the first block has an effect. */
  method BlockTwice(e: EventLayer, local: Address, peer: Address)
    requires e.Valid()
    modifies e
    ensures e.Valid()
    ensures e.credentials == old(e.credentials) && e.writes == old(e.writes)
    ensures e.nameCache == old(e.nameCache) && e.replies == old(e.replies)
    ensures e.agentCalls == old(e.agentCalls) && e.deviceCalls == old(e.deviceCalls)
    ensures var res := Resolve(old(e.adapters), local, peer, false, false);
            e.adapters == if res.Ok? && res.value.Some?
                          then Store(old(e.adapters), res.value.value.(blocked := true))
                          else old(e.adapters)
  {
    ghost var res := Resolve(e.adapters, local, peer, false, false);
    e.DeviceBlocked(local, peer);
    ghost var once := e.adapters;
    if res.Ok? && res.value.Some? {
      StoreFiled(once, res.value.value.(blocked := true));
    }
    e.DeviceBlocked(local, peer);
    assert e.adapters == once;
  }

  /** The bytes of the PIN "1234". */
  const PIN_1234: CBytes := [0x31, 0x32, 0x33, 0x34]

  /** Classic pairing with no cached PIN: the request creates the record and
      asks the agent; the agent's "1234" goes to the controller with length 4. */
  method ClassicPairing(e: EventLayer, local: Address, peer: Address)
    requires e.Valid()
    requires local in e.adapters && peer !in e.adapters[local].devices
    modifies e
    ensures e.Valid()
    ensures e.adapters == Store(old(e.adapters), NewDevice(local, peer))
    ensures e.agentCalls == old(e.agentCalls) + [RequestPincode(local, peer, false)]
    ensures e.replies == old(e.replies) + [PincodeReplySent(local, peer, Some(PIN_1234), 4)]
  {
    var ret := e.RequestPin(local, peer, false, true, 0, [], false, 0);
    var dev := e.adapters[local].devices[peer];
    e.PincodeCallback(dev, false, Some(PIN_1234));
  }
}
