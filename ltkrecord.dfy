/** The text layout of a long-term-key record built by `store_longtermkey`
    (src/event.c:322-355):

      hex(key, 16) SP authenticated SP master SP enc_size SP ediv SP hex(rand, 8)

    with the middle four fields printed by `%d`, i.e. in decimal without
    leading zeros. */
module LtkRecord {
  import opened Common
  import opened HexCodec

  /** The values an LTK notification carries. */
  datatype Ltk = Ltk(key: seq<byte>, master: byte, authenticated: byte,
                     encSize: byte, ediv: uint16, rand: seq<byte>)

  /** The C buffers are `key[16]` and `rand[8]`. */
  predicate WellFormed(k: Ltk) {
    |k.key| == 16 && |k.rand| == 8
  }

  /** One decimal digit. */
  function DecDigit(d: nat): (c: char)
    requires d < 10
    ensures '0' <= c <= '9' && DecimalValue(c) == Some(d)
  {
    ('0' as int + d) as char
  }

  /** `%d` of a non-negative value. */
  function Dec(n: nat): (s: string)
    decreases n
  {
    if n < 10 then [DecDigit(n)] else Dec(n / 10) + [DecDigit(n % 10)]
  }

  lemma {:induction false} DecShape(n: nat)
    ensures Dec(n) != []
    ensures forall c :: c in Dec(n) ==> '0' <= c <= '9'
  {
    if n >= 10 {
      DecShape(n / 10);
    }
  }

  function DecimalValue(c: char): (r: Option<nat>)
    ensures r.Some? <==> '0' <= c <= '9'
  {
    if '0' <= c <= '9' then Some(c as int - '0' as int) else None
  }

  /** Reads a non-empty run of decimal digits. */
  function ParseDec(s: string): (r: Option<nat>)
    decreases |s|
  {
    if s == [] then None
    else
      match DecimalValue(s[|s| - 1])
      case None => None
      case Some(d) =>
        if |s| == 1 then Some(d)
        else
          match ParseDec(s[..|s| - 1])
          case None => None
          case Some(v) => Some(10 * v + d)
  }

  lemma {:induction false} ParseDecDec(n: nat)
    ensures ParseDec(Dec(n)) == Some(n)
  {
    if n >= 10 {
      var s := Dec(n);
      DecShape(n / 10);
      assert s[..|s| - 1] == Dec(n / 10);
      ParseDecDec(n / 10);
    }
  }

  /** Index of the first space of s. */
  function FirstSpace(s: string): (i: nat)
    requires ' ' in s
    ensures i < |s| && s[i] == ' '
    ensures ' ' !in s[..i]
  {
    if s[0] == ' ' then 0
    else
      var j := FirstSpace(s[1..]);
      assert s[..1 + j] == [s[0]] + s[1..][..j];
      1 + j
  }

  /** The space-separated fields of s. */
  function Split(s: string): (fields: seq<string>)
    decreases |s|
  {
    if ' ' !in s then [s]
    else
      var i := FirstSpace(s);
      [s[..i]] + Split(s[i + 1..])
  }

  lemma SplitCons(a: string, b: string)
    requires ' ' !in a
    ensures Split(a + " " + b) == [a] + Split(b)
  {
    var s := a + " " + b;
    assert s[..|a|] == a;
    assert s[|a| + 1..] == b;
    assert s[|a|] == ' ';
    assert FirstSpace(s) == |a|;
  }

  /** Fields separated by single spaces. */
  function Join(fields: seq<string>): (s: string)
    requires fields != []
  {
    if |fields| == 1 then fields[0] else fields[0] + " " + Join(fields[1..])
  }

  /** Splitting undoes joining when no field holds a space. */
  lemma {:induction false} SplitJoin(fields: seq<string>)
    requires fields != []
    requires forall i :: 0 <= i < |fields| ==> ' ' !in fields[i]
    ensures Split(Join(fields)) == fields
  {
    if |fields| > 1 {
      SplitJoin(fields[1..]);
      SplitCons(fields[0], Join(fields[1..]));
    }
  }

  lemma {:induction false} HexHasNoSpace(data: seq<byte>)
    ensures ' ' !in Hex(data)
  {
    HexIsLowerCase(data);
  }

  lemma DecHasNoSpace(n: nat)
    ensures ' ' !in Dec(n)
  {
    DecShape(n);
  }

  /** The fields of the record, in the order `store_longtermkey` prints
      them: `authenticated` comes before `master`. */
  function Fields(k: Ltk): (f: seq<string>)
  {
    [Hex(k.key), Dec(k.authenticated), Dec(k.master), Dec(k.encSize), Dec(k.ediv), Hex(k.rand)]
  }

  /** The record `store_longtermkey` hands to `write_longtermkeys`. */
  function Encode(k: Ltk): (s: string)
  {
    Join(Fields(k))
  }

  lemma JoinSix(a: string, b: string, c: string, d: string, e: string, g: string)
    ensures Join([a, b, c, d, e, g]) == a + " " + (b + " " + (c + " " + (d + " " + (e + " " + g))))
  {
    assert [a, b, c, d, e, g][1..] == [b, c, d, e, g];
    assert [b, c, d, e, g][1..] == [c, d, e, g];
    assert [c, d, e, g][1..] == [d, e, g];
    assert [d, e, g][1..] == [e, g];
    assert [e, g][1..] == [g];
    assert Join([e, g]) == e + " " + g;
    assert Join([d, e, g]) == d + " " + Join([e, g]);
    assert Join([c, d, e, g]) == c + " " + Join([d, e, g]);
    assert Join([b, c, d, e, g]) == b + " " + Join([c, d, e, g]);
  }

  lemma Rebracket(a: string, b: string, c: string, d: string, e: string, g: string)
    ensures a + " " + (b + " " + (c + " " + (d + " " + (e + " " + g))))
            == a + (" " + b + " " + c + " " + d + " " + e + " ") + g
  {
  }

  /** The record as `store_longtermkey` assembles it: the key's hex text,
      then " %d %d %d %d " of the four numbers, then the random value's hex text. */
  lemma EncodeAsPrinted(k: Ltk)
    ensures Encode(k) == Hex(k.key) + (" " + Dec(k.authenticated) + " " + Dec(k.master) + " "
                          + Dec(k.encSize) + " " + Dec(k.ediv) + " ") + Hex(k.rand)
  {
    JoinSix(Hex(k.key), Dec(k.authenticated), Dec(k.master), Dec(k.encSize), Dec(k.ediv), Hex(k.rand));
    Rebracket(Hex(k.key), Dec(k.authenticated), Dec(k.master), Dec(k.encSize), Dec(k.ediv), Hex(k.rand));
  }

  /** Parses a record back; None for anything that is not six fields of the
      right shapes and ranges. */
  function Decode(s: string): (r: Option<Ltk>)
    ensures r.Some? ==> WellFormed(r.value)
  {
    var f := Split(s);
    if |f| != 6 then None
    else
      match (Unhex(f[0]), ParseDec(f[1]), ParseDec(f[2]), ParseDec(f[3]), ParseDec(f[4]), Unhex(f[5]))
      case (Some(key), Some(auth), Some(master), Some(enc), Some(ediv), Some(rand)) =>
        if |key| == 16 && auth < 0x100 && master < 0x100 && enc < 0x100
           && ediv < 0x1_0000 && |rand| == 8
        then Some(Ltk(key, master, auth, enc, ediv, rand))
        else None
      case _ => None
  }

  /** The record consists of exactly six space-separated fields, in this order. */
  lemma EncodeFields(k: Ltk)
    ensures Split(Encode(k)) == [Hex(k.key), Dec(k.authenticated), Dec(k.master),
                                 Dec(k.encSize), Dec(k.ediv), Hex(k.rand)]
  {
    HexHasNoSpace(k.key);
    HexHasNoSpace(k.rand);
    DecHasNoSpace(k.authenticated);
    DecHasNoSpace(k.master);
    DecHasNoSpace(k.encSize);
    DecHasNoSpace(k.ediv);
    SplitJoin(Fields(k));
  }

  /** Round trip: a record written for a well-formed key parses back to it. */
  lemma RoundTrip(k: Ltk)
    requires WellFormed(k)
    ensures Decode(Encode(k)) == Some(k)
  {
    EncodeFields(k);
    UnhexHex(k.key);
    UnhexHex(k.rand);
    ParseDecDec(k.authenticated);
    ParseDecDec(k.master);
    ParseDecDec(k.encSize);
    ParseDecDec(k.ediv);
  }

  /** The encoding is injective on well-formed keys. */
  lemma EncodeInjective(a: Ltk, b: Ltk)
    requires WellFormed(a) && WellFormed(b)
    requires Encode(a) == Encode(b)
    ensures a == b
  {
    RoundTrip(a);
    RoundTrip(b);
  }
}
