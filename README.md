# BlueZ event layer (src/event.c) in Dafny

This project models the event layer of the BlueZ daemon, `src/event.c`. The controller
reports pairing requests, link keys, long-term keys (LTKs), connections, names and
unpairing. For each report the layer:

1. finds the local adapter and the remote device record, creating the record where the
   event allows it;
2. then does one or more of these:
   - updates the record (bonded, temporary, paired, blocked, address type, name, bonding in progress);
   - updates the adapter's connections;
   - writes a credential to the store;
   - asks the agent for a PIN or passkey;
   - replies to the controller.

Modules, one per part of the file:

- `Common` (common.dfy): bytes, fixed-width integers, C strings as byte sequences without NUL, Option/Result, errno values.
- `HexCodec` (hexcodec.dfy): `buf2str`.
  - It is a loop over a freshly allocated array.
  - It is proved equal to `Hex`, the byte-to-lower-case-hex function.
  - The decoder `Unhex` comes with a round-trip proof.
- `LtkRecord` (ltkrecord.dfy): the text record `store_longtermkey` writes.
  - The layout is `hex(key) authenticated master enc_size ediv hex(rand)`.
  - The four middle fields are decimal.
  - A decoder comes with round-trip and injectivity proofs.
- `NameSanitiser` (sanitiser.dfy): the clean-up of names that are not valid UTF-8.
  - The in-place masking loop runs over a zeroed buffer of `MGMT_MAX_NAME_LENGTH + 1` bytes.
  - After the loop comes the strip.
  - UTF-8 validity is defined by the byte table of RFC 3629, section 4.
  - Whitespace is GLib's ASCII set: space, tab, line feed, form feed and carriage return (not the vertical tab).
- `Pairing` (pairing.dfy): the pure decisions.
  - Whether a cached PIN is used, and whether it is shown through the agent.
  - How an agent's answer becomes a PIN, confirm or passkey reply.
- `Registry` (registry.dfy): the adapter and device records.
  - `Resolve` is the pure meaning of `get_adapter_and_device`.
  - Store, remove and connect/disconnect operations sit beside it.
- `Events` (events.dfy): the class `EventLayer`.
  - It has one method per `btd_event_*` handler and per agent callback.
  - Its fields hold the adapters, the set of stored credentials, the name cache, and the
    calls made to storage, the agent, the device object and the controller-reply path.
  - Every handler keeps `Valid()`: records are filed under their own adapter and address,
    and every bonded device has a stored credential.
- `Scenarios` (scenarios.dfy): event sequences proved from the handlers' contracts.
  - Connection failures cancel bonding at most once.
  - Blocking is idempotent.
  - A classic pairing runs end to end.

Calls that leave the file become parameters of the handlers: the storage writes, the
agent prompts, creating a device record, and the `g_try_new0` allocations. This covers
each call's status or success, and for `btd_adapter_get_pin` the cached PIN. The class
keeps logs of the storage writes, the agent prompts, the controller replies and the
device calls (`device_simple_pairing_complete`, `device_cancel_bonding`,
`device_request_disconnect`), in the order they are made. The other calls leave no log
entry: blocking, unblocking, adding or removing a connection and removing a record
change the registry, device creation and the allocations show only in their outcome.

Where the code differs from what one might expect of this layer, the model follows the
code:

- The name clean-up replaces only bytes with the high bit set (`isascii`). Control
  characters survive, so the output is ASCII but not necessarily printable.
- The agent callbacks do not check that the device still exists. They reply for the
  record they were given even if it has been removed since.
- The LTK record prints `authenticated` before `master`.

## Model

| member | source | states |
|---|---|---|
| `HexCodec.HexDigit` | src/event.c:317 | each nibble is printed as one lower-case hex digit, and that digit reads back as the same nibble |
| `HexCodec.HexLength` | src/event.c:312-317 | `buf2str` of n bytes is exactly 2n characters |
| `HexCodec.HexAt` | src/event.c:316-317 | characters 2i and 2i+1 are the high and low nibble of byte i, in input order |
| `HexCodec.HexIsLowerCase` | src/event.c:317 | every output character is a lower-case hex digit |
| `HexCodec.UnhexHex` | src/event.c:307-320 | decoding the hex text recovers the input bytes exactly |
| `HexCodec.HexInjective` | src/event.c:307-320 | two byte strings with the same hex text are equal |
| `HexCodec.Buf2Str` | src/event.c:307-320 | returns NULL (None) exactly when the allocation fails; otherwise the loop over the buffer yields `Hex(data)` |
| `LtkRecord.DecShape` | src/event.c:338-339 | a `%d` field is a non-empty run of decimal digits, so it holds no space |
| `LtkRecord.ParseDecDec` | src/event.c:338-339 | a `%d` field reads back as its value |
| `LtkRecord.SplitJoin` | src/event.c:338 | fields joined by single spaces split back into the same fields when none holds a space |
| `LtkRecord.EncodeFields` | src/event.c:331-347 | the record is exactly six space-separated fields: hex key, authenticated, master, enc_size, ediv, hex rand |
| `LtkRecord.EncodeAsPrinted` | src/event.c:335-347 | the record equals the key's hex text, then `" %d %d %d %d "`, then the random value's hex text |
| `LtkRecord.Decode` | src/event.c:331-347 | a parsed record always has a 16-byte key and an 8-byte random value |
| `LtkRecord.RoundTrip` | src/event.c:331-347 | the record of a well-formed key parses back to the same tuple |
| `LtkRecord.EncodeInjective` | src/event.c:331-347 | distinct well-formed keys give distinct records |
| `NameSanitiser.AsciiIsUtf8` | src/event.c:266 | ASCII bytes pass the UTF-8 check |
| `NameSanitiser.TrimLeadingIsSuffix` | src/event.c:278 | the leading strip leaves a suffix that does not start with whitespace, and every byte it drops is whitespace |
| `NameSanitiser.TrimTrailingIsPrefix` | src/event.c:278 | the trailing strip leaves a prefix that does not end with whitespace, and every byte it drops is whitespace |
| `NameSanitiser.StripIsTrimmedSlice` | src/event.c:278 | `g_strstrip` yields a contiguous slice of its input with no whitespace at either end, and everything before and after the slice is whitespace |
| `NameSanitiser.SanitisedShape` | src/event.c:266-281 | a cleaned name has at most `MGMT_MAX_NAME_LENGTH` (249) bytes, all below 0x80 and none NUL, with no leading or trailing whitespace |
| `NameSanitiser.MaskedKeepsAscii` | src/event.c:273-276 | an ASCII byte in the kept part is unchanged, control characters included |
| `NameSanitiser.SanitiseName` | src/event.c:266-281 | the copy of up to 249 bytes into the zeroed 250-byte buffer, the in-place masking loop and the strip together yield `Sanitised(name)` |
| `NameSanitiser.StoredNameChangesIff` | src/event.c:266-281 | the stored name equals the name that arrived exactly when that name is valid UTF-8; any other name is changed by the clean-up |
| `NameSanitiser.StoredNameIdempotent` | src/event.c:266-281 | the stored name is always valid UTF-8 without NUL, so cleaning it again changes nothing |
| `Pairing.PinDecision` | src/event.c:130-140 | the agent is asked exactly when the cached PIN is unusable (`pinlen <= 0`, or secure and not 16 characters); a usable one is shown through the agent exactly when `display` and bonding, and is otherwise sent directly |
| `Pairing.SecureNeedsSixteen` | src/event.c:131 | a secure request with a cached PIN of any length but 16 asks the agent |
| `Pairing.PincodeReply` | src/event.c:99-108 | an agent error sends (NULL, 0); success sends the agent's PIN, a byte string, with its `strlen` (its length in bytes), or length 0 for a NULL PIN; the length is 0 exactly for an error, a NULL PIN or an empty PIN |
| `Pairing.AgentErrorRejects` | src/event.c:93-171 | on an agent error, the PIN reply has length 0, the confirm reply is false and the passkey reply is `INVALID_PASSKEY`, whatever the agent supplied |
| `Pairing.PasskeyRejects` | src/event.c:166-170 | the reply is `INVALID_PASSKEY` exactly when the agent failed or returned that value itself |
| `Registry.Resolve` | src/event.c:58-84 | failure with no adapter exactly when the adapter is unknown; with `create`, success always carries a device and fails only when creation fails; without `create`, only the find path is taken and success may carry no device; a resolved device is filed under the requested adapter and peer |
| `Registry.Store` | src/event.c:377-380 | the updated record is filed under its adapter and address; the adapter's other records, its connections and every other adapter are unchanged |
| `Registry.Remove` | src/event.c:449 | `adapter_remove_device` drops exactly the peer's record and leaves the rest of the registry alone |
| `Registry.SetConnected` | src/event.c:426 | `adapter_add_connection` / `adapter_remove_connection` change only whether the peer is connected |
| `Events.UnpairedAsWritten` | src/event.c:492-506 | as written, the unpaired handler reaches the NULL dereference exactly when the adapter exists and the peer is unknown |
| `Events.UnpairedUnknownPeer` | src/event.c:497-500 | for every adapter address and every peer: an adapter with no devices, given an unpaired event for that peer, reaches the NULL dereference |
| `Events.EventLayer.GetAdapterAndDevice` | src/event.c:58-84 | succeeds and returns what `Resolve` gives; a created record is kept in the registry; otherwise nothing changes |
| `Events.EventLayer.RequestPin` | src/event.c:118-141 | `-ENODEV` when the lookup fails; otherwise one of three outcomes, chosen by `PinDecision`: reply directly with the cached PIN and return 0, show it through the agent, or ask the agent for a PIN |
| `Events.EventLayer.PincodeCallback` | src/event.c:93-116 | exactly one PIN reply, mapped by `PincodeReply`, goes to the device's adapter; the registry is not consulted |
| `Events.EventLayer.UserConfirm` | src/event.c:173-182 | `-ENODEV` when the lookup fails; otherwise one confirm prompt, and the agent's status is returned |
| `Events.EventLayer.ConfirmCallback` | src/event.c:143-158 | exactly one confirm reply, accepted exactly when the agent reports no error |
| `Events.EventLayer.UserPasskey` | src/event.c:184-193 | `-ENODEV` when the lookup fails; otherwise one passkey prompt, and the agent's status is returned |
| `Events.EventLayer.PasskeyCallback` | src/event.c:160-171 | exactly one passkey reply, `INVALID_PASSKEY` on an agent error |
| `Events.EventLayer.UserNotify` | src/event.c:195-205 | `-ENODEV` when the lookup fails; otherwise one passkey notification, and the agent's status is returned |
| `Events.EventLayer.SimplePairingComplete` | src/event.c:207-225 | a record may be created only when status is 0; a nonzero status never changes the registry; the device call is made only for a resolved device |
| `Events.EventLayer.RemoteName` | src/event.c:255-305 | the name is stored in the cache whenever the adapter exists, and in the device record only when the peer is known; no record is created |
| `Events.EventLayer.StoreLongTermKey` | src/event.c:322-355 | if either hex conversion fails, returns `-ENOMEM` and writes nothing; otherwise writes exactly one record, `Encode(k)`, and returns the write status |
| `Events.EventLayer.LinkKeyNotify` | src/event.c:357-384 | `-ENODEV` when the lookup fails; otherwise one link-key write under the device's address type, whose status is returned; only a 0 status sets bonded and clears temporary, and on failure the record is unchanged |
| `Events.EventLayer.LtkNotify` | src/event.c:386-408 | `-ENODEV` when the lookup fails; `-ENOMEM` with nothing written when the encoding fails; bonded is set and temporary cleared only on a 0 result, and on failure the record is unchanged |
| `Events.EventLayer.ConnComplete` | src/event.c:410-430 | a non-zero class is written; the address type is set; the peer is connected; a name sent with the event is handled as a remote-name event |
| `Events.EventLayer.ConnFailed` | src/event.c:432-450 | unknown peers are ignored; bonding is cancelled, with the status, only when it is in progress; the record and its stored credential are removed only when temporary |
| `Events.EventLayer.DisconnComplete` | src/event.c:452-466 | a known peer's connection is dropped; nothing else changes |
| `Events.EventLayer.DeviceBlocked` | src/event.c:468-478 | a known peer's record is blocked; unknown peers are ignored |
| `Events.EventLayer.DeviceUnblocked` | src/event.c:480-490 | a known peer's record is unblocked; unknown peers are ignored |
| `Events.EventLayer.DeviceUnpaired` | src/event.c:492-506 | corrected form: unknown peers are ignored; a known record becomes temporary, and is then disconnected if connected or removed with its stored credential otherwise |
| `Events.EventLayer.ReturnedLinkKey` | src/event.c:510-519 | the resolved (possibly created) record is marked paired; nothing else changes |
| `Scenarios.ConnFailedTwice` | src/event.c:439-449 | two connection failures for the same peer cancel bonding at most once, and only when it was in progress |
| `Scenarios.BlockTwice` | src/event.c:468-478 | blocking twice leaves the same registry as blocking once, and changes no other part of the state |
| `Scenarios.ClassicPairing` | src/event.c:93-141 | with no cached PIN: the record is created, the agent is asked for a PIN, and its answer, the four bytes of "1234", goes to the controller with length 4 |

## Left out

- `update_lastused` (src/event.c:227-236): it reads the wall clock.
- Events.EventLayer.ConnComplete: does not record the last-used timestamp write.
- `btd_event_device_found` (src/event.c:238-253): it only forwards a raw discovery report to the adapter.
- Name-cache files (src/event.c:286-301): path building, `create_file` and the GKeyFile load and save are not modelled.
  - The cache is a map from (adapter, peer) to the stored name.
- External storage: `write_link_key`, `write_longtermkeys` and `write_remote_class` are recorded as calls.
  - Each call's status is a parameter.
  - A status of 0 for a key write puts (adapter, peer) in the set of stored credentials.
- Agent prompting over D-Bus: the `device_request_*`, `device_confirm_passkey` and `device_notify_*` calls are recorded with their arguments.
  - Their return status is a parameter.
  - Only the callbacks' mapping from agent answer to reply is modelled.
- `btd_adapter_get_pin`: the cached PIN, its length and the display flag are parameters.
- Controller-reply results: only logged by the source, so they do not affect the model.
- The device object's own handling of `device_simple_pairing_complete`, `device_request_disconnect` and `device_block`/`device_unblock` is not part of this model.
  - The same goes for the bookkeeping inside `adapter_add_connection`, `adapter_remove_connection` and `adapter_remove_device`.
  - The model changes only the flag, connection or record the call names; of these calls, only `device_simple_pairing_complete` and `device_request_disconnect` are logged.
  - `device_cancel_bonding` is taken to end the bonding request.
- `adapter_remove_device(..., TRUE)` (src/event.c:449, 505) deletes the device's stored data. The model deletes its stored credential (the (adapter, peer) entry) and its record; the earlier storage writes stay in the write log, and the name cache keeps its entry.
- The set of stored credentials is keyed by (adapter, peer). The address type a key write carries appears only in the write log.
- Device creation: a new record is taken to be temporary, not bonded, paired, blocked or bonding, with no name and address type BR/EDR (`BrEdr`); the link-key write of a record created by the same event carries that type. Whether creation succeeds is a parameter.
- `g_utf8_validate`: GLib's check is replaced by RFC 3629 well-formedness, up to the string's end.
- Buffers and pointers: C strings (PINs and names) are byte sequences without their NUL terminator, so a length is `strlen`. Device handles are record values rather than pointers, so two handles to one device cannot alias.
- Logging (`error`, `DBG`) is not modelled.

## Findings

| source | as written | input that shows it | evidently intended | confidence | as-written member | corrected member |
|---|---|---|---|---|---|---|
| src/event.c:497-500 | the unpaired handler looks up with `create = FALSE`, which may succeed with a NULL device, then calls `device_set_temporary(device, TRUE)` without a check | an unpaired event for a known adapter and a peer it has no record of (`Events.UnpairedUnknownPeer`: any adapter with no devices, any peer) | ignore the event, as the other find-only handlers do at lines 442-443, 462-463 and 476, 488 | not executed | `Events.UnpairedAsWritten` | `Events.EventLayer.DeviceUnpaired` |
