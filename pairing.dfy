/** The pure decisions of the PIN and passkey paths (src/event.c:93-171):
    whether a cached PIN is used, and what is sent back to the controller
    once the agent has answered. */
module Pairing {
  import opened Common

  /** Sent in a passkey reply to reject the request (0xffffffff; defined
      outside src/event.c). */
  const INVALID_PASSKEY: uint32 := 0xFFFF_FFFF

  /** The three ways `btd_event_request_pin` can go. */
  datatype PinAction =
    | ReplyCached     // answer the controller at once with the cached PIN
    | DisplayCached   // show the cached PIN through the agent
    | AskAgent        // ask the agent for a PIN

  /** A cached PIN of `pinlen` bytes is acceptable: any non-empty one for
      legacy pairing, exactly 16 bytes when secure pairing is asked for. */
  predicate CachedPinUsable(pinlen: int, secure: bool) {
    pinlen > 0 && (!secure || pinlen == 16)
  }

  /** The branch taken by lines 130-140, given what `btd_adapter_get_pin`
      returned (`pinlen`, `display`) and whether the device is bonding. */
  function PinDecision(pinlen: int, secure: bool, display: bool, bonding: bool): (a: PinAction)
    ensures a == AskAgent <==> !CachedPinUsable(pinlen, secure)
    ensures a == DisplayCached <==> CachedPinUsable(pinlen, secure) && display && bonding
    ensures a == ReplyCached <==> CachedPinUsable(pinlen, secure) && !(display && bonding)
  {
    if CachedPinUsable(pinlen, secure) then
      if display && bonding then DisplayCached else ReplyCached
    else AskAgent
  }

  /** A secure request never takes a cached PIN whose length is not 16. */
  lemma SecureNeedsSixteen(pinlen: int, display: bool, bonding: bool)
    requires pinlen != 16
    ensures PinDecision(pinlen, true, display, bonding) == AskAgent
  {
  }

  /** The PIN and length handed to `btd_adapter_pincode_reply`. */
  datatype PinReply = PinReply(pin: Option<CBytes>, len: int)

  /** `pincode_cb`: an agent error rejects with an empty (NULL, 0) reply;
      otherwise the agent's PIN is sent with its `strlen` (its length in bytes),
      and a NULL PIN is sent with length 0. */
  function PincodeReply(agentError: bool, pincode: Option<CBytes>): (r: PinReply)
    ensures agentError ==> r == PinReply(None, 0)
    ensures !agentError ==> r.pin == pincode
    ensures !agentError && pincode.Some? ==> r.len == |pincode.value|
    ensures pincode.None? ==> r.len == 0
    ensures r.len == 0 <==> agentError || pincode.None? || pincode.value == []
  {
    if agentError then PinReply(None, 0)
    else PinReply(pincode, if pincode.Some? then |pincode.value| else 0)
  }

  /** `confirm_cb`: the confirmation is accepted exactly when the agent did
      not report an error. */
  function ConfirmReply(agentError: bool): (accept: bool)
  {
    !agentError
  }

  /** `passkey_cb`: an agent error turns the passkey into INVALID_PASSKEY;
      otherwise the agent's passkey goes through. */
  function PasskeyReply(agentError: bool, passkey: uint32): (p: uint32)
  {
    if agentError then INVALID_PASSKEY else passkey
  }

  /** A passkey reply rejects the pairing exactly when the agent failed or
      itself returned the reserved value. */
  lemma PasskeyRejects(agentError: bool, passkey: uint32)
    ensures PasskeyReply(agentError, passkey) == INVALID_PASSKEY
            <==> agentError || passkey == INVALID_PASSKEY
  {
  }

  /** Whatever the agent supplied, an agent error makes every callback reject:
      a zero-length PIN, a negative confirmation, or INVALID_PASSKEY. */
  lemma AgentErrorRejects(pincode: Option<CBytes>, passkey: uint32)
    ensures PincodeReply(true, pincode).len == 0
    ensures !ConfirmReply(true)
    ensures PasskeyReply(true, passkey) == INVALID_PASSKEY
  {
  }
}
