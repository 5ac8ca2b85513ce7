/** The event handlers of src/event.c: each resolves the adapter and the
    peer's record, then updates the record, the adapter's connections, the
    credential store, or hands a request to the agent or a reply to the
    controller. Calls that leave the file are recorded in the order they are
    made; their outcomes are parameters. */
module Events {
  import opened Common
  import opened HexCodec
  import opened LtkRecord
  import opened NameSanitiser
  import opened Pairing
  import opened Registry

  /** A call into the controller-reply path (`btd_adapter_*_reply`). */
  datatype ControllerReply =
    | PincodeReplySent(local: Address, peer: Address, pin: Option<CBytes>, len: int)
    | ConfirmReplySent(local: Address, peer: Address, addrType: AddrType, accept: bool)
    | PasskeyReplySent(local: Address, peer: Address, addrType: AddrType, passkey: uint32)

  /** A prompt handed to the agent layer (`device_request_pincode` and friends). */
  datatype AgentCall =
    | RequestPincode(local: Address, peer: Address, secure: bool)
    | NotifyPincode(local: Address, peer: Address, secure: bool, pin: CBytes)
    | ConfirmPasskey(local: Address, peer: Address, passkey: uint32)
    | RequestPasskey(local: Address, peer: Address)
    | NotifyPasskey(local: Address, peer: Address, passkey: uint32, entered: byte)

  /** Calls into the device object whose own effects are not part of this model
      (apart from clearing the bonding request on a cancel). */
  datatype DeviceCall =
    | SimplePairingDone(local: Address, peer: Address, status: byte)
    | CancelBonding(local: Address, peer: Address, status: byte)
    | RequestDisconnect(local: Address, peer: Address)

  /** A call into the persistent store. */
  datatype StorageWrite =
    | LinkKeyWrite(local: Address, peer: Address, peerType: AddrType,
                   key: seq<byte>, keyType: byte, pinLength: byte)
    | LtkWrite(local: Address, peer: Address, peerType: AddrType, record: string)
    | ClassWrite(local: Address, peer: Address, deviceClass: uint32)

  /** The registry is well filed and every bonded device has a stored credential. */
  ghost predicate Consistent(reg: Adapters, credentials: set<(Address, Address)>) {
    && WellFiled(reg)
    && forall a, p :: a in reg && p in reg[a].devices && reg[a].devices[p].bonded ==>
         (a, p) in credentials
  }

  lemma StoreKeeps(reg: Adapters, credentials: set<(Address, Address)>, d: Device)
    requires Consistent(reg, credentials) && d.adapter in reg
    requires d.bonded ==> (d.adapter, d.address) in credentials
    ensures Consistent(Store(reg, d), credentials)
  {
  }

  lemma ConnectionsKeep(reg: Adapters, credentials: set<(Address, Address)>,
                        local: Address, peer: Address, add: bool)
    requires Consistent(reg, credentials) && local in reg
    ensures Consistent(SetConnected(reg, local, peer, add), credentials)
  {
  }

  /** Removing a record together with its stored credential keeps the store
      consistent. */
  lemma RemoveKeeps(reg: Adapters, credentials: set<(Address, Address)>, local: Address, peer: Address)
    requires Consistent(reg, credentials) && local in reg
    ensures Consistent(Remove(reg, local, peer), credentials - {(local, peer)})
  {
  }

  /** After storing a record and registering its connection, a find-only
      lookup yields that record. */
  lemma ConnectedResolves(reg: Adapters, d: Device)
    requires d.adapter in reg
    ensures var connected := SetConnected(Store(reg, d), d.adapter, d.address, true);
            Resolve(connected, d.adapter, d.address, false, false) == Ok(Some(d))
  {
  }

  /** How `btd_event_device_unpaired` goes as written. */
  datatype UnpairedPath = Dropped | NullDereference | Unpairs(device: Device)

  /** Lines 497-500 as written: the lookup does not create, may succeed with
      no device, and the device is then used without a check. */
  function UnpairedAsWritten(reg: Adapters, local: Address, peer: Address): (p: UnpairedPath)
    ensures p == NullDereference <==> local in reg && peer !in reg[local].devices
    ensures p == Dropped <==> local !in reg
  {
    match Resolve(reg, local, peer, false, false)
    case Err(_) => Dropped
    case Ok(None) => NullDereference
    case Ok(Some(d)) => Unpairs(d)
  }

  /** An unpaired event for any peer, sent to an adapter with no devices,
      reaches line 500 with a NULL device. */
  lemma UnpairedUnknownPeer(local: Address, peer: Address)
    ensures UnpairedAsWritten(map[local := Adapter(map[], {})], local, peer) == NullDereference
  {
  }

  class EventLayer {
    var adapters: Adapters
    /** (adapter, peer) pairs for which a link key or LTK was stored successfully. */
    var credentials: set<(Address, Address)>
    var writes: seq<StorageWrite>
    /** The name cache, by (adapter, peer). */
    var nameCache: map<(Address, Address), seq<byte>>
    var replies: seq<ControllerReply>
    var agentCalls: seq<AgentCall>
    var deviceCalls: seq<DeviceCall>

    ghost predicate Valid()
      reads this
    {
      Consistent(adapters, credentials)
    }

    constructor (locals: set<Address>)
      ensures Valid()
      ensures adapters == map a | a in locals :: Adapter(map[], {})
      ensures credentials == {} && writes == [] && nameCache == map[]
      ensures replies == [] && agentCalls == [] && deviceCalls == []
    {
      adapters := map a | a in locals :: Adapter(map[], {});
      credentials, writes, nameCache := {}, [], map[];
      replies, agentCalls, deviceCalls := [], [], [];
    }

    /** `get_adapter_and_device`: the lookup of `Resolve`, keeping a record the
        registry had to create. */
    method GetAdapterAndDevice(local: Address, peer: Address, create: bool, canCreate: bool)
      returns (ok: bool, device: Option<Device>)
      requires Valid()
      modifies this`adapters
      ensures Valid()
      ensures var res := Resolve(old(adapters), local, peer, create, canCreate);
              ok == res.Ok? && (ok ==> device == res.value)
      ensures ok && device.Some? ==> adapters == Store(old(adapters), device.value)
      ensures !(ok && device.Some?) ==> adapters == old(adapters)
    {
      var res := Resolve(adapters, local, peer, create, canCreate);
      if res.Err? {
        return false, None;
      }
      ok, device := true, res.value;
      if device.Some? {
        StoreKeeps(adapters, credentials, device.value);
        adapters := Store(adapters, device.value);
      }
    }

    /** `btd_event_request_pin`. `pinlen`, `pin` and `display` are what
        `btd_adapter_get_pin` returned; `agentStatus` is what the agent layer
        returns for the prompt. */
    method RequestPin(local: Address, peer: Address, secure: bool, canCreate: bool,
                      pinlen: int, pin: CBytes, display: bool, agentStatus: int)
      returns (ret: int)
      requires Valid()
      modifies this`adapters, this`replies, this`agentCalls
      ensures Valid()
      ensures var res := Resolve(old(adapters), local, peer, true, canCreate);
              if res.Err? then
                && ret == -ENODEV && adapters == old(adapters)
                && replies == old(replies) && agentCalls == old(agentCalls)
              else
                var d := res.value.value;
                && adapters == Store(old(adapters), d)
                && match PinDecision(pinlen, secure, display, d.bonding)
                   case ReplyCached =>
                     && ret == 0 && agentCalls == old(agentCalls)
                     && replies == old(replies) + [PincodeReplySent(local, peer, Some(pin), pinlen)]
                   case DisplayCached =>
                     && ret == agentStatus && replies == old(replies)
                     && agentCalls == old(agentCalls) + [NotifyPincode(local, peer, secure, pin)]
                   case AskAgent =>
                     && ret == agentStatus && replies == old(replies)
                     && agentCalls == old(agentCalls) + [RequestPincode(local, peer, secure)]
    {
      var ok, device := GetAdapterAndDevice(local, peer, true, canCreate);
      if !ok {
        return -ENODEV;
      }
      var d := device.value;
      match PinDecision(pinlen, secure, display, d.bonding)
      case DisplayCached =>
        agentCalls := agentCalls + [NotifyPincode(local, peer, secure, pin)];
        ret := agentStatus;
      case ReplyCached =>
        replies := replies + [PincodeReplySent(local, peer, Some(pin), pinlen)];
        ret := 0;
      case AskAgent =>
        agentCalls := agentCalls + [RequestPincode(local, peer, secure)];
        ret := agentStatus;
    }

    /** `pincode_cb`: the agent's answer for `dev`. The device is not looked up
        again: the reply goes out even if the record has been removed since. */
    method PincodeCallback(dev: Device, agentError: bool, pincode: Option<CBytes>)
      modifies this`replies
      ensures var r := PincodeReply(agentError, pincode);
              replies == old(replies) + [PincodeReplySent(dev.adapter, dev.address, r.pin, r.len)]
    {
      var r := PincodeReply(agentError, pincode);
      replies := replies + [PincodeReplySent(dev.adapter, dev.address, r.pin, r.len)];
    }

    /** `btd_event_user_confirm`. */
    method UserConfirm(local: Address, peer: Address, passkey: uint32, canCreate: bool,
                       agentStatus: int)
      returns (ret: int)
      requires Valid()
      modifies this`adapters, this`agentCalls
      ensures Valid()
      ensures var res := Resolve(old(adapters), local, peer, true, canCreate);
              if res.Err? then
                ret == -ENODEV && adapters == old(adapters) && agentCalls == old(agentCalls)
              else
                && ret == agentStatus
                && adapters == Store(old(adapters), res.value.value)
                && agentCalls == old(agentCalls) + [ConfirmPasskey(local, peer, passkey)]
    {
      var ok, device := GetAdapterAndDevice(local, peer, true, canCreate);
      if !ok {
        return -ENODEV;
      }
      agentCalls := agentCalls + [ConfirmPasskey(local, peer, passkey)];
      ret := agentStatus;
    }

    /** `confirm_cb`, without a liveness check on `dev`. */
    method ConfirmCallback(dev: Device, agentError: bool)
      modifies this`replies
      ensures replies == old(replies)
                         + [ConfirmReplySent(dev.adapter, dev.address, dev.addrType, ConfirmReply(agentError))]
    {
      replies := replies + [ConfirmReplySent(dev.adapter, dev.address, dev.addrType, ConfirmReply(agentError))];
    }

    /** `btd_event_user_passkey`. */
    method UserPasskey(local: Address, peer: Address, canCreate: bool, agentStatus: int)
      returns (ret: int)
      requires Valid()
      modifies this`adapters, this`agentCalls
      ensures Valid()
      ensures var res := Resolve(old(adapters), local, peer, true, canCreate);
              if res.Err? then
                ret == -ENODEV && adapters == old(adapters) && agentCalls == old(agentCalls)
              else
                && ret == agentStatus
                && adapters == Store(old(adapters), res.value.value)
                && agentCalls == old(agentCalls) + [RequestPasskey(local, peer)]
    {
      var ok, device := GetAdapterAndDevice(local, peer, true, canCreate);
      if !ok {
        return -ENODEV;
      }
      agentCalls := agentCalls + [RequestPasskey(local, peer)];
      ret := agentStatus;
    }

    /** `passkey_cb`, without a liveness check on `dev`. */
    method PasskeyCallback(dev: Device, agentError: bool, passkey: uint32)
      modifies this`replies
      ensures replies == old(replies)
                         + [PasskeyReplySent(dev.adapter, dev.address, dev.addrType, PasskeyReply(agentError, passkey))]
    {
      replies := replies + [PasskeyReplySent(dev.adapter, dev.address, dev.addrType, PasskeyReply(agentError, passkey))];
    }

    /** `btd_event_user_notify`. */
    method UserNotify(local: Address, peer: Address, passkey: uint32, entered: byte,
                      canCreate: bool, agentStatus: int)
      returns (ret: int)
      requires Valid()
      modifies this`adapters, this`agentCalls
      ensures Valid()
      ensures var res := Resolve(old(adapters), local, peer, true, canCreate);
              if res.Err? then
                ret == -ENODEV && adapters == old(adapters) && agentCalls == old(agentCalls)
              else
                && ret == agentStatus
                && adapters == Store(old(adapters), res.value.value)
                && agentCalls == old(agentCalls) + [NotifyPasskey(local, peer, passkey, entered)]
    {
      var ok, device := GetAdapterAndDevice(local, peer, true, canCreate);
      if !ok {
        return -ENODEV;
      }
      agentCalls := agentCalls + [NotifyPasskey(local, peer, passkey, entered)];
      ret := agentStatus;
    }

    /** `btd_event_simple_pairing_complete`: a record may be created only for a
        successful pairing (status 0). */
    method SimplePairingComplete(local: Address, peer: Address, status: byte, canCreate: bool)
      requires Valid()
      modifies this`adapters, this`deviceCalls
      ensures Valid()
      ensures var res := Resolve(old(adapters), local, peer, status == 0, canCreate);
              if res.Ok? && res.value.Some? then
                && adapters == Store(old(adapters), res.value.value)
                && deviceCalls == old(deviceCalls) + [SimplePairingDone(local, peer, status)]
              else
                adapters == old(adapters) && deviceCalls == old(deviceCalls)
      ensures status != 0 ==> adapters == old(adapters)
    {
      var create := status == 0;
      var ok, device := GetAdapterAndDevice(local, peer, create, canCreate);
      if !ok || device.None? {
        return;
      }
      if !create {
        StoreFiled(old(adapters), device.value);
      }
      deviceCalls := deviceCalls + [SimplePairingDone(local, peer, status)];
    }

    /** `btd_event_remote_name` without its file I/O: the cleaned name goes to
        the name cache whenever the adapter exists, and to the device record
        when there is one. No record is created. */
    method RemoteName(local: Address, peer: Address, name: CBytes)
      requires Valid()
      modifies this`adapters, this`nameCache
      ensures Valid()
      ensures var res := Resolve(old(adapters), local, peer, false, false);
              var n := StoredName(name);
              if res.Err? then
                adapters == old(adapters) && nameCache == old(nameCache)
              else
                && nameCache == old(nameCache)[(local, peer) := n]
                && adapters == (if res.value.Some? then Store(old(adapters), res.value.value.(name := Some(n)))
                                else old(adapters))
    {
      var n: seq<byte>;
      if !ValidUtf8(name) {
        n := SanitiseName(name);
      } else {
        n := name;
      }
      var ok, device := GetAdapterAndDevice(local, peer, false, false);
      if !ok {
        return;
      }
      nameCache := nameCache[(local, peer) := n];
      if device.Some? {
        var d := device.value;
        StoreFiled(old(adapters), d);
        StoreKeeps(adapters, credentials, d.(name := Some(n)));
        adapters := Store(adapters, d.(name := Some(n)));
      }
    }

    /** `store_longtermkey`: `keyAllocOk` and `randAllocOk` are whether the two
        `buf2str` allocations succeed, `writeStatus` what `write_longtermkeys`
        returns. On either allocation failure nothing is written. */
    method StoreLongTermKey(local: Address, peer: Address, addrType: AddrType, k: Ltk,
                            keyAllocOk: bool, randAllocOk: bool, writeStatus: int)
      returns (err: int)
      requires WellFormed(k)
      modifies this`writes, this`credentials
      ensures !(keyAllocOk && randAllocOk) ==>
                err == -ENOMEM && writes == old(writes) && credentials == old(credentials)
      ensures keyAllocOk && randAllocOk ==>
                && err == writeStatus
                && writes == old(writes) + [LtkWrite(local, peer, addrType, Encode(k))]
                && credentials == (if writeStatus == 0 then old(credentials) + {(local, peer)}
                                   else old(credentials))
    {
      var val := Buf2Str(k.key, keyAllocOk);
      if val.None? {
        return -ENOMEM;
      }
      var newkey := val.value;
      newkey := newkey + (" " + Dec(k.authenticated) + " " + Dec(k.master) + " "
                          + Dec(k.encSize) + " " + Dec(k.ediv) + " ");
      var str := Buf2Str(k.rand, randAllocOk);
      if str.None? {
        return -ENOMEM;
      }
      newkey := newkey + str.value;
      EncodeAsPrinted(k);
      writes := writes + [LtkWrite(local, peer, addrType, newkey)];
      err := writeStatus;
      if err == 0 {
        credentials := credentials + {(local, peer)};
      }
    }

    /** `btd_event_link_key_notify`: `writeStatus` is what `write_link_key`
        returns. Only a successful write bonds the device and makes it
        permanent. */
    method LinkKeyNotify(local: Address, peer: Address, key: seq<byte>, keyType: byte,
                         pinLength: byte, canCreate: bool, writeStatus: int)
      returns (ret: int)
      requires Valid()
      requires |key| == 16
      modifies this`adapters, this`writes, this`credentials
      ensures Valid()
      ensures var res := Resolve(old(adapters), local, peer, true, canCreate);
              if res.Err? then
                && ret == -ENODEV && adapters == old(adapters)
                && writes == old(writes) && credentials == old(credentials)
              else
                var d := res.value.value;
                && ret == writeStatus
                && writes == old(writes) + [LinkKeyWrite(local, peer, d.addrType, key, keyType, pinLength)]
                && (ret == 0 ==>
                      && credentials == old(credentials) + {(local, peer)}
                      && adapters == Store(old(adapters), d.(bonded := true, temporary := false)))
                && (ret != 0 ==>
                      credentials == old(credentials) && adapters == Store(old(adapters), d))
    {
      var ok, device := GetAdapterAndDevice(local, peer, true, canCreate);
      if !ok {
        return -ENODEV;
      }
      var d := device.value;
      writes := writes + [LinkKeyWrite(local, peer, d.addrType, key, keyType, pinLength)];
      ret := writeStatus;
      if ret == 0 {
        credentials := credentials + {(local, peer)};
        StoreTwice(old(adapters), d, d.(bonded := true, temporary := false));
        StoreKeeps(adapters, credentials, d.(bonded := true, temporary := false));
        adapters := Store(adapters, d.(bonded := true, temporary := false));
      }
    }

    /** `btd_event_ltk_notify`: as for link keys, but the record is written by
        `store_longtermkey` under the address type the event carries. */
    method LtkNotify(local: Address, peer: Address, addrType: AddrType, k: Ltk, canCreate: bool,
                     keyAllocOk: bool, randAllocOk: bool, writeStatus: int)
      returns (ret: int)
      requires Valid()
      requires WellFormed(k)
      modifies this`adapters, this`writes, this`credentials
      ensures Valid()
      ensures var res := Resolve(old(adapters), local, peer, true, canCreate);
              if res.Err? then
                && ret == -ENODEV && adapters == old(adapters)
                && writes == old(writes) && credentials == old(credentials)
              else
                var d := res.value.value;
                var encoded := keyAllocOk && randAllocOk;
                && ret == (if encoded then writeStatus else -ENOMEM)
                && writes == old(writes) + (if encoded then [LtkWrite(local, peer, addrType, Encode(k))] else [])
                && (ret == 0 ==>
                      && credentials == old(credentials) + {(local, peer)}
                      && adapters == Store(old(adapters), d.(bonded := true, temporary := false)))
                && (ret != 0 ==>
                      credentials == old(credentials) && adapters == Store(old(adapters), d))
    {
      var ok, device := GetAdapterAndDevice(local, peer, true, canCreate);
      if !ok {
        return -ENODEV;
      }
      var d := device.value;
      ret := StoreLongTermKey(local, peer, addrType, k, keyAllocOk, randAllocOk, writeStatus);
      if ret == 0 {
        StoreTwice(old(adapters), d, d.(bonded := true, temporary := false));
        StoreKeeps(adapters, credentials, d.(bonded := true, temporary := false));
        adapters := Store(adapters, d.(bonded := true, temporary := false));
      }
    }

    /** `btd_event_conn_complete` without the last-used timestamp: the class is
        written when non-zero, the address type is set, the connection is
        registered, and a name that came with the event is handled as a
        remote-name event. */
    method ConnComplete(local: Address, peer: Address, addrType: AddrType, name: Option<CBytes>,
                        deviceClass: uint32, canCreate: bool)
      requires Valid()
      modifies this`adapters, this`writes, this`nameCache
      ensures Valid()
      ensures var res := Resolve(old(adapters), local, peer, true, canCreate);
              if res.Err? then
                adapters == old(adapters) && writes == old(writes) && nameCache == old(nameCache)
              else
                var d := res.value.value.(addrType := addrType);
                var connected := SetConnected(Store(old(adapters), d), local, peer, true);
                && writes == old(writes) + (if deviceClass != 0 then [ClassWrite(local, peer, deviceClass)] else [])
                && (name.None? ==> adapters == connected && nameCache == old(nameCache))
                && (name.Some? ==>
                      var n := StoredName(name.value);
                      && adapters == Store(connected, d.(name := Some(n)))
                      && nameCache == old(nameCache)[(local, peer) := n])
    {
      // The lookup of `get_adapter_and_device`; the record it may create is
      // stored below together with the new address type.
      var res := Resolve(adapters, local, peer, true, canCreate);
      if res.Err? {
        return;
      }
      if deviceClass != 0 {
        writes := writes + [ClassWrite(local, peer, deviceClass)];
      }
      var d := res.value.value.(addrType := addrType);
      RegisterConnection(d);
      if name.Some? {
        RemoteName(local, peer, name.value);
      }
    }

    /** The record `d` is stored and its connection registered with the adapter
        (`adapter_add_connection`); a find-only lookup then yields `d`. */
    method RegisterConnection(d: Device)
      requires Valid() && d.adapter in adapters
      requires d.bonded ==> (d.adapter, d.address) in credentials
      modifies this`adapters
      ensures Valid()
      ensures adapters == SetConnected(Store(old(adapters), d), d.adapter, d.address, true)
      ensures Resolve(adapters, d.adapter, d.address, false, false) == Ok(Some(d))
    {
      var stored := Store(adapters, d);
      StoreKeeps(adapters, credentials, d);
      ConnectionsKeep(stored, credentials, d.adapter, d.address, true);
      ConnectedResolves(adapters, d);
      adapters := SetConnected(stored, d.adapter, d.address, true);
    }

    /** `btd_event_conn_failed`: unknown peers are ignored; a bonding request in
        progress is cancelled with the status; a temporary record is removed. */
    method ConnFailed(local: Address, peer: Address, status: byte)
      requires Valid()
      modifies this`adapters, this`credentials, this`deviceCalls
      ensures Valid()
      ensures var res := Resolve(old(adapters), local, peer, false, false);
              if res.Err? || res.value.None? then
                && adapters == old(adapters) && credentials == old(credentials)
                && deviceCalls == old(deviceCalls)
              else
                var d := res.value.value;
                && deviceCalls == old(deviceCalls) + (if d.bonding then [CancelBonding(local, peer, status)] else [])
                && adapters == (if d.temporary then Remove(old(adapters), local, peer)
                                else Store(old(adapters), d.(bonding := false)))
                && credentials == (if d.temporary then old(credentials) - {(local, peer)}
                                   else old(credentials))
    {
      var ok, device := GetAdapterAndDevice(local, peer, false, false);
      if !ok || device.None? {
        return;
      }
      var d := device.value;
      StoreFiled(old(adapters), d);
      if d.bonding {
        deviceCalls := deviceCalls + [CancelBonding(local, peer, status)];
        d := d.(bonding := false);
        StoreKeeps(adapters, credentials, d);
        adapters := Store(adapters, d);
      } else {
        StoreFiled(old(adapters), d.(bonding := false));
      }
      if d.temporary {
        RemoveAfterStore(old(adapters), d);
        RemoveKeeps(adapters, credentials, local, peer);
        adapters := Remove(adapters, local, peer);
        credentials := credentials - {(local, peer)};
      }
    }

    /** `btd_event_disconn_complete`: the connection of a known peer is dropped. */
    method DisconnComplete(local: Address, peer: Address)
      requires Valid()
      modifies this`adapters
      ensures Valid()
      ensures var res := Resolve(old(adapters), local, peer, false, false);
              if res.Err? || res.value.None? then adapters == old(adapters)
              else adapters == SetConnected(old(adapters), local, peer, false)
    {
      var ok, device := GetAdapterAndDevice(local, peer, false, false);
      if !ok || device.None? {
        return;
      }
      StoreFiled(old(adapters), device.value);
      ConnectionsKeep(adapters, credentials, local, peer, false);
      adapters := SetConnected(adapters, local, peer, false);
    }

    /** `btd_event_device_blocked`. */
    method DeviceBlocked(local: Address, peer: Address)
      requires Valid()
      modifies this`adapters
      ensures Valid()
      ensures var res := Resolve(old(adapters), local, peer, false, false);
              if res.Err? || res.value.None? then adapters == old(adapters)
              else adapters == Store(old(adapters), res.value.value.(blocked := true))
    {
      var ok, device := GetAdapterAndDevice(local, peer, false, false);
      if !ok || device.None? {
        return;
      }
      StoreFiled(old(adapters), device.value);
      StoreKeeps(adapters, credentials, device.value.(blocked := true));
      adapters := Store(adapters, device.value.(blocked := true));
    }

    /** `btd_event_device_unblocked`. */
    method DeviceUnblocked(local: Address, peer: Address)
      requires Valid()
      modifies this`adapters
      ensures Valid()
      ensures var res := Resolve(old(adapters), local, peer, false, false);
              if res.Err? || res.value.None? then adapters == old(adapters)
              else adapters == Store(old(adapters), res.value.value.(blocked := false))
    {
      var ok, device := GetAdapterAndDevice(local, peer, false, false);
      if !ok || device.None? {
        return;
      }
      StoreFiled(old(adapters), device.value);
      StoreKeeps(adapters, credentials, device.value.(blocked := false));
      adapters := Store(adapters, device.value.(blocked := false));
    }

    /** `btd_event_device_unpaired`, corrected to ignore a peer the adapter does
        not know (see `UnpairedAsWritten`): the record is made temporary and then
        disconnected if connected, removed otherwise. */
    method DeviceUnpaired(local: Address, peer: Address)
      requires Valid()
      modifies this`adapters, this`credentials, this`deviceCalls
      ensures Valid()
      ensures var res := Resolve(old(adapters), local, peer, false, false);
              if res.Err? || res.value.None? then
                && adapters == old(adapters) && credentials == old(credentials)
                && deviceCalls == old(deviceCalls)
              else if peer in old(adapters)[local].connections then
                && adapters == Store(old(adapters), res.value.value.(temporary := true))
                && credentials == old(credentials)
                && deviceCalls == old(deviceCalls) + [RequestDisconnect(local, peer)]
              else
                && adapters == Remove(old(adapters), local, peer)
                && credentials == old(credentials) - {(local, peer)}
                && deviceCalls == old(deviceCalls)
    {
      var ok, device := GetAdapterAndDevice(local, peer, false, false);
      if !ok || device.None? {
        return;
      }
      var d := device.value.(temporary := true);
      StoreFiled(old(adapters), device.value);
      StoreKeeps(adapters, credentials, d);
      adapters := Store(adapters, d);
      if peer in adapters[local].connections {
        deviceCalls := deviceCalls + [RequestDisconnect(local, peer)];
      } else {
        RemoveAfterStore(old(adapters), d);
        RemoveKeeps(adapters, credentials, local, peer);
        adapters := Remove(adapters, local, peer);
        credentials := credentials - {(local, peer)};
      }
    }

    /** `btd_event_returned_link_key`: the controller already holds a key for
        the peer, which is marked paired. */
    method ReturnedLinkKey(local: Address, peer: Address, canCreate: bool)
      requires Valid()
      modifies this`adapters
      ensures Valid()
      ensures var res := Resolve(old(adapters), local, peer, true, canCreate);
              if res.Err? then adapters == old(adapters)
              else adapters == Store(old(adapters), res.value.value.(paired := true))
    {
      var ok, device := GetAdapterAndDevice(local, peer, true, canCreate);
      if !ok {
        return;
      }
      StoreTwice(old(adapters), device.value, device.value.(paired := true));
      StoreKeeps(adapters, credentials, device.value.(paired := true));
      adapters := Store(adapters, device.value.(paired := true));
    }
  }
}
