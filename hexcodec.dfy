/** The byte-to-text conversion `buf2str` (src/event.c:307-320): every byte
    becomes two lower-case hexadecimal digits, in input order. */
module HexCodec {
  import opened Common

  /** The character `sprintf("%x")` prints for a nibble. */
  function HexDigit(n: nat): (c: char)
    requires n < 16
    ensures IsLowerHex(c)
    ensures DigitValue(c) == Some(n)
  {
    if n < 10 then ('0' as int + n) as char else ('a' as int + n - 10) as char
  }

  predicate IsLowerHex(c: char) {
    '0' <= c <= '9' || 'a' <= c <= 'f'
  }

  /** The nibble a lower-case hex digit stands for; None for any other character. */
  function DigitValue(c: char): (r: Option<nat>)
    ensures r.Some? <==> IsLowerHex(c)
    ensures r.Some? ==> r.value < 16
  {
    if '0' <= c <= '9' then Some(c as int - '0' as int)
    else if 'a' <= c <= 'f' then Some(c as int - 'a' as int + 10)
    else None
  }

  /** `%2.2x` of one byte: exactly two digits, high nibble first. */
  function HexByte(b: byte): (s: string)
  {
    [HexDigit(b / 16), HexDigit(b % 16)]
  }

  /** The text `buf2str(data, |data|)` returns when its allocation succeeds. */
  function Hex(data: seq<byte>): (s: string)
  {
    if data == [] then [] else HexByte(data[0]) + Hex(data[1..])
  }

  lemma {:induction false} HexLength(data: seq<byte>)
    ensures |Hex(data)| == 2 * |data|
  {
    if data != [] {
      HexLength(data[1..]);
    }
  }

  /** Byte i of the input is rendered by characters 2i and 2i+1 of the output. */
  lemma {:induction false} HexAt(data: seq<byte>, i: nat)
    requires i < |data|
    ensures |Hex(data)| == 2 * |data|
    ensures Hex(data)[2 * i] == HexDigit(data[i] / 16)
    ensures Hex(data)[2 * i + 1] == HexDigit(data[i] % 16)
  {
    HexLength(data);
    if i > 0 {
      HexAt(data[1..], i - 1);
    }
  }

  /** Every character of the output is a lower-case hex digit. */
  lemma {:induction false} HexIsLowerCase(data: seq<byte>)
    ensures forall c :: c in Hex(data) ==> IsLowerHex(c)
  {
    if data != [] {
      HexIsLowerCase(data[1..]);
    }
  }

  lemma {:induction false} HexAppend(a: seq<byte>, b: seq<byte>)
    ensures Hex(a + b) == Hex(a) + Hex(b)
  {
    if a == [] {
      assert a + b == b;
    } else {
      assert (a + b)[1..] == a[1..] + b;
      HexAppend(a[1..], b);
    }
  }

  /** Reads back a string of hex digit pairs; None unless it is one. */
  function Unhex(s: string): (r: Option<seq<byte>>)
    decreases |s|
  {
    if s == [] then Some([])
    else if |s| < 2 then None
    else
      match (DigitValue(s[0]), DigitValue(s[1]), Unhex(s[2..]))
      case (Some(hi), Some(lo), Some(rest)) => Some([16 * hi + lo] + rest)
      case _ => None
  }

  /** Round trip: the bytes are recovered exactly from `buf2str`'s text. */
  lemma {:induction false} UnhexHex(data: seq<byte>)
    ensures Unhex(Hex(data)) == Some(data)
  {
    if data != [] {
      var s := Hex(data);
      assert s[2..] == Hex(data[1..]);
      UnhexHex(data[1..]);
      assert 16 * (data[0] / 16) + data[0] % 16 == data[0];
      assert [data[0]] + data[1..] == data;
    }
  }

  /** Distinct byte strings are never rendered the same. */
  lemma HexInjective(a: seq<byte>, b: seq<byte>)
    requires Hex(a) == Hex(b)
    ensures a == b
  {
    UnhexHex(a);
    UnhexHex(b);
  }

  /** `buf2str`: a zeroed buffer of 2n characters (its NUL terminator is not
      modelled) filled two digits at a time. `allocOk` is whether `g_try_new0`
      succeeded; when it did not, NULL (None) is returned. */
  method Buf2Str(data: seq<byte>, allocOk: bool) returns (r: Option<string>)
    ensures r.Some? <==> allocOk
    ensures r.Some? ==> r.value == Hex(data)
  {
    if !allocOk {
      return None;
    }
    var buf := new char[2 * |data|];
    var i := 0;
    while i < |data|
      invariant 0 <= i <= |data|
      invariant buf[..2 * i] == Hex(data[..i])
    {
      ghost var done := buf[..2 * i];
      buf[2 * i] := HexDigit(data[i] / 16);
      buf[2 * i + 1] := HexDigit(data[i] % 16);
      assert buf[..2 * i + 2] == done + HexByte(data[i]);
      HexAppend(data[..i], [data[i]]);
      assert data[..i + 1] == data[..i] + [data[i]];
      i := i + 1;
    }
    assert data[..i] == data;
    HexLength(data);
    assert buf[..] == buf[..2 * i];
    return Some(buf[..]);
  }
}
