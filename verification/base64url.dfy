/** Base 64 encoding with the URL- and filename-safe alphabet of RFC 4648 section 5,
    as `base64.urlsafe_b64encode` writes it, and the strict decoder its round trip is
    proved with. */
module Base64Url {
  import opened Wrappers
  import opened PyStrings

  /** A 6-bit group: the value one alphabet symbol stands for. */
  type Sextet = v: int | 0 <= v < 64

  /** The padding symbol of RFC 4648 section 3.2. */
  const Pad: CodePoint := '=' as int

  /** Membership in the alphabet of Table 2 of RFC 4648: `[A-Za-z0-9-_]`. */
  predicate IsSymbol(c: CodePoint) {
    || 'A' as int <= c <= 'Z' as int
    || 'a' as int <= c <= 'z' as int
    || '0' as int <= c <= '9' as int
    || c == '-' as int
    || c == '_' as int
  }

  /** The symbol for value `v` in Table 2 of RFC 4648. */
  function Symbol(v: Sextet): (c: CodePoint)
    ensures IsSymbol(c) && c != Pad
  {
    if v < 26 then 'A' as int + v
    else if v < 52 then 'a' as int + (v - 26)
    else if v < 62 then '0' as int + (v - 52)
    else if v == 62 then '-' as int
    else '_' as int
  }

  /** The value a symbol stands for; `None` outside the alphabet. */
  function SymbolValue(c: CodePoint): (r: Option<Sextet>)
    ensures r.Some? <==> IsSymbol(c)
    ensures r.Some? ==> Symbol(r.value) == c
  {
    if 'A' as int <= c <= 'Z' as int then Some(c - 'A' as int)
    else if 'a' as int <= c <= 'z' as int then Some(c - 'a' as int + 26)
    else if '0' as int <= c <= '9' as int then Some(c - '0' as int + 52)
    else if c == '-' as int then Some(62)
    else if c == '_' as int then Some(63)
    else None
  }

  lemma SymbolValueOfSymbol(v: Sextet)
    ensures SymbolValue(Symbol(v)) == Some(v)
  {
  }

  /** Three bytes as four symbols, most significant bits first. */
  function EncodeGroup(b0: Byte, b1: Byte, b2: Byte): PyString {
    [Symbol(b0 / 4), Symbol((b0 % 4) * 16 + b1 / 16), Symbol((b1 % 16) * 4 + b2 / 64), Symbol(b2 % 64)]
  }

  /** `base64.urlsafe_b64encode`: four symbols per three bytes, a final group of one or
      two bytes filled up with `=` to four symbols. */
  function Encode(b: seq<Byte>): (r: PyString)
    ensures |r| == 4 * ((|b| + 2) / 3)
    decreases |b|
  {
    if |b| == 0 then []
    else if |b| == 1 then [Symbol(b[0] / 4), Symbol((b[0] % 4) * 16), Pad, Pad]
    else if |b| == 2 then [Symbol(b[0] / 4), Symbol((b[0] % 4) * 16 + b[1] / 16), Symbol((b[1] % 16) * 4), Pad]
    else EncodeGroup(b[0], b[1], b[2]) + Encode(b[3..])
  }

  /** The number of symbols before the padding, for `n` input bytes. */
  function UnpaddedLength(n: nat): nat {
    4 * (n / 3) + (if n % 3 == 0 then 0 else n % 3 + 1)
  }

  /** The encoding is alphabet symbols up to `UnpaddedLength` and `=` after. */
  lemma {:induction false} EncodeLayout(b: seq<Byte>)
    ensures UnpaddedLength(|b|) <= |Encode(b)|
    ensures forall i :: 0 <= i < UnpaddedLength(|b|) ==> IsSymbol(Encode(b)[i])
    ensures forall i :: UnpaddedLength(|b|) <= i < |Encode(b)| ==> Encode(b)[i] == Pad
    decreases |b|
  {
    if |b| >= 3 {
      EncodeLayout(b[3..]);
      var r := Encode(b);
      assert r == EncodeGroup(b[0], b[1], b[2]) + Encode(b[3..]);
      forall i | 4 <= i < |r|
        ensures r[i] == Encode(b[3..])[i - 4]
      {
      }
    }
  }

  /** Stripping `=` from the padded encoding leaves exactly the symbols before the padding. */
  lemma StripPadding(b: seq<Byte>)
    ensures RStrip(Encode(b), Pad) == Encode(b)[..UnpaddedLength(|b|)]
  {
    EncodeLayout(b);
    RStripAfter(Encode(b), UnpaddedLength(|b|), Pad);
  }

  /** The padded encoding with its trailing `=` removed: `.rstrip('=')`. */
  function Unpadded(b: seq<Byte>): (r: PyString)
    ensures |r| == UnpaddedLength(|b|)
    ensures forall i :: 0 <= i < |r| ==> IsSymbol(r[i])
    ensures r == Encode(b)[..UnpaddedLength(|b|)]
  {
    StripPadding(b);
    EncodeLayout(b);
    RStrip(Encode(b), Pad)
  }

  /** Restores the padding: `=` until the length is a multiple of four. */
  function Repad(s: PyString): (r: PyString)
    ensures |r| % 4 == 0
    ensures s <= r
    ensures forall i :: |s| <= i < |r| ==> r[i] == Pad
  {
    s + Repeat(Pad, (4 - |s| % 4) % 4)
  }

  /** The padding `Repad` restores is the padding `Encode` wrote. */
  lemma PadCount(n: nat)
    ensures 4 * ((n + 2) / 3) - UnpaddedLength(n) == (4 - UnpaddedLength(n) % 4) % 4
  {
    var q, m := n / 3, n % 3;
    assert n == 3 * q + m;
    assert (n + 2) / 3 == if m == 0 then q else q + 1;
    PadCountOf(q, m);
  }

  lemma PadCountOf(q: nat, m: nat)
    requires m < 3
    ensures var u := 4 * q + (if m == 0 then 0 else m + 1);
      4 * (if m == 0 then q else q + 1) - u == (4 - u % 4) % 4
  {
    var u := 4 * q + (if m == 0 then 0 else m + 1);
    assert u % 4 == (if m == 0 then 0 else m + 1);
  }

  /** Re-padding the unpadded text gives back the padded encoding. */
  lemma RepadUnpadded(b: seq<Byte>)
    ensures Repad(Unpadded(b)) == Encode(b)
  {
    EncodeLayout(b);
    PadCount(|b|);
    RepadPrefix(Encode(b), UnpaddedLength(|b|));
  }

  /** Cutting a text before its final run of `=` and re-padding restores it, when the run
      is exactly what `Repad` adds. */
  lemma RepadPrefix(e: PyString, k: nat)
    requires k <= |e|
    requires |e| - k == (4 - k % 4) % 4
    requires forall i :: k <= i < |e| ==> e[i] == Pad
    ensures Repad(e[..k]) == e
  {
    assert e[k..] == Repeat(Pad, |e| - k);
    assert e == e[..k] + e[k..];
  }

  /** The bytes packed in four 6-bit values, most significant bits first. */
  function Unpack(v0: Sextet, v1: Sextet, v2: Sextet, v3: Sextet): (r: seq<Byte>)
    ensures |r| == 3
  {
    [v0 as int * 4 + v1 as int / 16, (v1 as int % 16) * 16 + v2 as int / 4, (v2 as int % 4) * 64 + v3 as int]
  }

  /** A decoded group of four symbols; `last` allows the `xx==` and `xxx=` forms, whose
      missing values count as zero bits. */
  function DecodeGroup(c0: CodePoint, c1: CodePoint, c2: CodePoint, c3: CodePoint, last: bool): Option<seq<Byte>> {
    match (SymbolValue(c0), SymbolValue(c1), SymbolValue(c2), SymbolValue(c3))
    case (Some(v0), Some(v1), Some(v2), Some(v3)) => Some(Unpack(v0, v1, v2, v3))
    case (Some(v0), Some(v1), Some(v2), None) =>
      if last && c3 == Pad then Some(Unpack(v0, v1, v2, 0)[..2]) else None
    case (Some(v0), Some(v1), None, None) =>
      if last && c2 == Pad && c3 == Pad then Some(Unpack(v0, v1, 0, 0)[..1]) else None
    case _ => None
  }

  /** The strict decoder for padded text (RFC 4648 section 5): a multiple of four
      symbols, `=` only at the end of the last group. */
  function Decode(s: PyString): Option<seq<Byte>>
    decreases |s|
  {
    if |s| == 0 then Some([])
    else if |s| < 4 then None
    else
      match DecodeGroup(s[0], s[1], s[2], s[3], |s| == 4)
      case None => None
      case Some(g) =>
        match Decode(s[4..])
        case None => None
        case Some(rest) => Some(g + rest)
  }

  /** Unpacking the values `EncodeGroup` computes gives back the three bytes. */
  lemma UnpackGroup(b0: Byte, b1: Byte, b2: Byte)
    ensures Unpack(b0 / 4, (b0 % 4) * 16 + b1 / 16, (b1 % 16) * 4 + b2 / 64, b2 % 64) == [b0, b1, b2]
  {
    var v1 := (b0 % 4) * 16 + b1 / 16;
    var v2 := (b1 % 16) * 4 + b2 / 64;
    assert v1 / 16 == b0 % 4 && v1 % 16 == b1 / 16;
    assert v2 / 4 == b1 % 16 && v2 % 4 == b2 / 64;
  }

  lemma DecodeEncodeGroup(b0: Byte, b1: Byte, b2: Byte, last: bool)
    ensures var g := EncodeGroup(b0, b1, b2);
      DecodeGroup(g[0], g[1], g[2], g[3], last) == Some([b0, b1, b2])
  {
    SymbolValueOfSymbol(b0 / 4);
    SymbolValueOfSymbol((b0 % 4) * 16 + b1 / 16);
    SymbolValueOfSymbol((b1 % 16) * 4 + b2 / 64);
    SymbolValueOfSymbol(b2 % 64);
    UnpackGroup(b0, b1, b2);
  }

  /** One step of `Decode`: a good first group followed by a good rest. */
  lemma DecodeStep(s: PyString, g: seq<Byte>, rest: seq<Byte>)
    requires |s| >= 4
    requires DecodeGroup(s[0], s[1], s[2], s[3], |s| == 4) == Some(g)
    requires Decode(s[4..]) == Some(rest)
    ensures Decode(s) == Some(g + rest)
  {
  }

  lemma DecodeGroupPadPad(v0: Sextet, v1: Sextet)
    ensures DecodeGroup(Symbol(v0), Symbol(v1), Pad, Pad, true) == Some(Unpack(v0, v1, 0, 0)[..1])
  {
    SymbolValueOfSymbol(v0);
    SymbolValueOfSymbol(v1);
  }

  lemma DecodeGroupPad(v0: Sextet, v1: Sextet, v2: Sextet)
    ensures DecodeGroup(Symbol(v0), Symbol(v1), Symbol(v2), Pad, true) == Some(Unpack(v0, v1, v2, 0)[..2])
  {
    SymbolValueOfSymbol(v0);
    SymbolValueOfSymbol(v1);
    SymbolValueOfSymbol(v2);
  }

  lemma UnpackOne(b0: Byte)
    ensures Unpack(b0 / 4, (b0 % 4) * 16, 0, 0)[..1] == [b0]
  {
    assert ((b0 % 4) * 16) / 16 == b0 % 4;
  }

  lemma UnpackTwo(b0: Byte, b1: Byte)
    ensures Unpack(b0 / 4, (b0 % 4) * 16 + b1 / 16, (b1 % 16) * 4, 0)[..2] == [b0, b1]
  {
    var v1 := (b0 % 4) * 16 + b1 / 16;
    var v2 := (b1 % 16) * 4;
    assert v1 / 16 == b0 % 4 && v1 % 16 == b1 / 16;
    assert v2 / 4 == b1 % 16;
  }

  /** A final group of one byte, `xx==`, decodes to that byte. */
  lemma DecodeEncodeOne(b0: Byte)
    ensures Decode(Encode([b0])) == Some([b0])
  {
    var v0: Sextet, v1: Sextet := b0 / 4, (b0 % 4) * 16;
    var e := [Symbol(v0), Symbol(v1), Pad, Pad];
    assert Encode([b0]) == e;
    UnpackOne(b0);
    DecodeGroupPadPad(v0, v1);
    assert e[4..] == [];
    DecodeStep(e, [b0], []);
    assert [b0] + [] == [b0];
  }

  /** A final group of two bytes, `xxx=`, decodes to those bytes. */
  lemma DecodeEncodeTwo(b0: Byte, b1: Byte)
    ensures Decode(Encode([b0, b1])) == Some([b0, b1])
  {
    var v0: Sextet, v1: Sextet, v2: Sextet := b0 / 4, (b0 % 4) * 16 + b1 / 16, (b1 % 16) * 4;
    var e := [Symbol(v0), Symbol(v1), Symbol(v2), Pad];
    assert Encode([b0, b1]) == e;
    UnpackTwo(b0, b1);
    DecodeGroupPad(v0, v1, v2);
    assert e[4..] == [];
    DecodeStep(e, [b0, b1], []);
    assert [b0, b1] + [] == [b0, b1];
  }

  /** Decoding the padded encoding gives back the bytes. */
  lemma {:induction false} DecodeEncode(b: seq<Byte>)
    ensures Decode(Encode(b)) == Some(b)
    decreases |b|
  {
    var e := Encode(b);
    if |b| == 1 {
      DecodeEncodeOne(b[0]);
      assert b == [b[0]];
    } else if |b| == 2 {
      DecodeEncodeTwo(b[0], b[1]);
      assert b == [b[0], b[1]];
    } else if |b| >= 3 {
      DecodeEncode(b[3..]);
      DecodeEncodeFull(b);
    }
  }

  /** A full leading group decodes to its three bytes, ahead of whatever the rest
      decodes to. */
  lemma DecodeEncodeFull(b: seq<Byte>)
    requires |b| >= 3
    requires Decode(Encode(b[3..])) == Some(b[3..])
    ensures Decode(Encode(b)) == Some(b)
  {
    var e, g, rest := Encode(b), EncodeGroup(b[0], b[1], b[2]), Encode(b[3..]);
    assert e == g + rest;
    assert e[0] == g[0] && e[1] == g[1] && e[2] == g[2] && e[3] == g[3] && e[4..] == rest;
    DecodeEncodeGroup(b[0], b[1], b[2], |e| == 4);
    DecodeStep(e, [b[0], b[1], b[2]], b[3..]);
    SplitThree(b);
  }

  lemma SplitThree(b: seq<Byte>)
    requires |b| >= 3
    ensures b == [b[0], b[1], b[2]] + b[3..]
  {
  }

  /** The unpadded text round-trips: re-pad it, decode it, get the bytes back. */
  lemma UnpaddedRoundTrip(b: seq<Byte>)
    ensures Decode(Repad(Unpadded(b))) == Some(b)
  {
    RepadUnpadded(b);
    DecodeEncode(b);
  }
}
