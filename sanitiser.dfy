/** The name clean-up at the head of `btd_event_remote_name`
    (src/event.c:266-281): a name that is not valid UTF-8 is cut to
    MGMT_MAX_NAME_LENGTH bytes, every non-ASCII byte is replaced by a space,
    and surrounding whitespace is removed. */
module NameSanitiser {
  import opened Common

  /** From the kernel management interface (lib/mgmt.h): `HCI_MAX_NAME_LENGTH + 1`,
      the 248 bytes of a Bluetooth device name plus one. */
  const MGMT_MAX_NAME_LENGTH: nat := 249

  const SPACE: byte := 0x20

  /** Length of the well-formed UTF-8 sequence at the head of s, or 0 when
      there is none (the byte table of RFC 3629, section 4). */
  function Utf8HeadLength(s: seq<byte>): (n: nat)
    requires s != []
    ensures n <= 4 && n <= |s|
  {
    var b0 := s[0];
    if b0 < 0x80 then 1
    else if 0xC2 <= b0 <= 0xDF then
      if |s| >= 2 && Cont(s[1]) then 2 else 0
    else if 0xE0 <= b0 <= 0xEF then
      var lo := if b0 == 0xE0 then 0xA0 else 0x80;
      var hi := if b0 == 0xED then 0x9F else 0xBF;
      if |s| >= 3 && lo <= s[1] <= hi && Cont(s[2]) then 3 else 0
    else if 0xF0 <= b0 <= 0xF4 then
      var lo := if b0 == 0xF0 then 0x90 else 0x80;
      var hi := if b0 == 0xF4 then 0x8F else 0xBF;
      if |s| >= 4 && lo <= s[1] <= hi && Cont(s[2]) && Cont(s[3]) then 4 else 0
    else 0
  }

  predicate Cont(b: byte) {
    0x80 <= b <= 0xBF
  }

  /** Stands for GLib's `g_utf8_validate(name, -1, NULL)`. */
  predicate ValidUtf8(s: seq<byte>)
    decreases |s|
  {
    s == [] || (Utf8HeadLength(s) > 0 && ValidUtf8(s[Utf8HeadLength(s)..]))
  }

  predicate AllAscii(s: seq<byte>) {
    forall i :: 0 <= i < |s| ==> s[i] < 0x80
  }

  /** ASCII text is valid UTF-8. */
  lemma {:induction false} AsciiIsUtf8(s: seq<byte>)
    requires AllAscii(s)
    ensures ValidUtf8(s)
  {
    if s != [] {
      AsciiIsUtf8(s[1..]);
    }
  }

  /** `g_ascii_isspace`: space, tab, line feed, form feed, carriage return.
      GLib's ASCII table does not count the vertical tab (0x0B). */
  predicate IsSpace(b: byte) {
    b == SPACE || b == 0x09 || b == 0x0A || b == 0x0C || b == 0x0D
  }

  /** `g_strchug`. */
  function TrimLeading(s: seq<byte>): (r: seq<byte>)
    decreases |s|
  {
    if s != [] && IsSpace(s[0]) then TrimLeading(s[1..]) else s
  }

  /** `g_strchomp`. */
  function TrimTrailing(s: seq<byte>): (r: seq<byte>)
    decreases |s|
  {
    if s != [] && IsSpace(s[|s| - 1]) then TrimTrailing(s[..|s| - 1]) else s
  }

  /** `g_strstrip`. */
  function Strip(s: seq<byte>): (r: seq<byte>)
  {
    TrimTrailing(TrimLeading(s))
  }

  /** What `g_strchug` leaves is a suffix of its input that does not start with
      whitespace, and every byte it drops is whitespace. */
  lemma {:induction false} TrimLeadingIsSuffix(s: seq<byte>)
    ensures var r := TrimLeading(s);
            |r| <= |s| && r == s[|s| - |r|..] && (r != [] ==> !IsSpace(r[0]))
    ensures forall k :: 0 <= k < |s| - |TrimLeading(s)| ==> IsSpace(s[k])
  {
    if s != [] && IsSpace(s[0]) {
      TrimLeadingIsSuffix(s[1..]);
    }
  }

  /** What `g_strchomp` leaves is a prefix of its input that does not end with
      whitespace, and every byte it drops is whitespace. */
  lemma {:induction false} TrimTrailingIsPrefix(s: seq<byte>)
    ensures var r := TrimTrailing(s);
            |r| <= |s| && r == s[..|r|] && (r != [] ==> !IsSpace(r[|r| - 1]))
    ensures forall k :: |TrimTrailing(s)| <= k < |s| ==> IsSpace(s[k])
  {
    if s != [] && IsSpace(s[|s| - 1]) {
      TrimTrailingIsPrefix(s[..|s| - 1]);
    }
  }

  /** Stripping removes only surrounding whitespace: the result is a slice of the
      input, everything before and after the slice is whitespace, and the slice
      has no whitespace at either end. */
  lemma StripIsTrimmedSlice(s: seq<byte>) returns (i: nat, j: nat)
    ensures i <= j <= |s| && Strip(s) == s[i..j]
    ensures forall k :: 0 <= k < i ==> IsSpace(s[k])
    ensures forall k :: j <= k < |s| ==> IsSpace(s[k])
    ensures Strip(s) != [] ==> !IsSpace(Strip(s)[0]) && !IsSpace(Strip(s)[|Strip(s)| - 1])
  {
    var t := TrimLeading(s);
    TrimLeadingIsSuffix(s);
    TrimTrailingIsPrefix(t);
    var r := TrimTrailing(t);
    i, j := |s| - |t|, |s| - |t| + |r|;
    if r != [] {
      assert r[0] == t[0];
    }
  }

  /** The byte `isascii` keeps, or a space. */
  function MaskByte(b: byte): (m: byte)
  {
    if b < 0x80 then b else SPACE
  }

  /** The buffer after `strncpy` to MGMT_MAX_NAME_LENGTH and the masking loop. */
  function Masked(name: seq<byte>): (r: seq<byte>)
  {
    var n := if |name| < MGMT_MAX_NAME_LENGTH then |name| else MGMT_MAX_NAME_LENGTH;
    seq(n, i requires 0 <= i < n => MaskByte(name[i]))
  }

  /** The sanitised form of a name that is not valid UTF-8. */
  function Sanitised(name: seq<byte>): (r: seq<byte>)
  {
    Strip(Masked(name))
  }

  /** What the sanitised name is guaranteed to be: short, ASCII, free of NULs,
      and without surrounding whitespace; control characters are kept. */
  lemma SanitisedShape(name: CBytes)
    ensures var r := Sanitised(name);
            && |r| <= MGMT_MAX_NAME_LENGTH
            && AllAscii(r)
            && 0 !in r
            && (r != [] ==> !IsSpace(r[0]) && !IsSpace(r[|r| - 1]))
  {
    var m := Masked(name);
    var i, j := StripIsTrimmedSlice(m);
    assert forall k :: 0 <= k < |m| ==> m[k] != 0 && m[k] < 0x80;
  }

  /** A byte that is ASCII and sits strictly inside the kept part of the
      truncated name survives unchanged, control characters included. */
  lemma MaskedKeepsAscii(name: seq<byte>, k: nat)
    requires k < |name| && k < MGMT_MAX_NAME_LENGTH && name[k] < 0x80
    ensures Masked(name)[k] == name[k]
  {
  }

  /** The in-place loop of lines 269-278 over a zeroed buffer of
      MGMT_MAX_NAME_LENGTH + 1 bytes, followed by `g_strstrip`. */
  method SanitiseName(name: CBytes) returns (r: seq<byte>)
    ensures r == Sanitised(name)
  {
    var buf := new byte[MGMT_MAX_NAME_LENGTH + 1];
    var n := if |name| < MGMT_MAX_NAME_LENGTH then |name| else MGMT_MAX_NAME_LENGTH;
    // memset + strncpy: the first n bytes of name, then NULs
    forall k | 0 <= k <= MGMT_MAX_NAME_LENGTH {
      buf[k] := if k < n then name[k] else 0;
    }
    var i := 0;
    while buf[i] != 0
      invariant 0 <= i <= n
      invariant forall k :: 0 <= k < i ==> buf[k] == MaskByte(name[k])
      invariant forall k :: i <= k < n ==> buf[k] == name[k]
      invariant forall k :: n <= k <= MGMT_MAX_NAME_LENGTH ==> buf[k] == 0
      decreases n - i
    {
      if buf[i] >= 0x80 {
        buf[i] := SPACE;
      }
      i := i + 1;
    }
    assert i == n;
    assert buf[..i] == Masked(name);
    r := Strip(buf[..i]);
  }

  /** The name `btd_event_remote_name` stores: valid UTF-8 is kept as it is. */
  function StoredName(name: CBytes): (r: seq<byte>)
  {
    if ValidUtf8(name) then name else Sanitised(name)
  }

  /** The stored name differs from the name that arrived exactly when that name
      is not valid UTF-8. */
  lemma StoredNameChangesIff(name: CBytes)
    ensures StoredName(name) == name <==> ValidUtf8(name)
  {
    if !ValidUtf8(name) {
      SanitisedShape(name);
      AsciiIsUtf8(Sanitised(name));
    }
  }

  /** Whatever arrives, the stored name is valid UTF-8, so cleaning it again
      changes nothing. */
  lemma StoredNameIdempotent(name: CBytes)
    ensures ValidUtf8(StoredName(name))
    ensures 0 !in StoredName(name)
    ensures StoredName(StoredName(name)) == StoredName(name)
  {
    if !ValidUtf8(name) {
      SanitisedShape(name);
      AsciiIsUtf8(Sanitised(name));
    }
  }
}
