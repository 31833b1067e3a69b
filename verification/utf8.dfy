/** Python's strict `'utf-8'` codec (RFC 3629): the step `original_url.encode('utf-8')`
    that can fail, and the strict decoder its round trip is proved with. */
module Utf8 {
  import opened Wrappers
  import opened PyStrings

  /** Lone surrogates are the code points a Python `str` may hold but UTF-8 cannot. */
  predicate IsSurrogate(c: CodePoint) {
    0xD800 <= c <= 0xDFFF
  }

  predicate HasSurrogate(s: PyString) {
    exists i :: 0 <= i < |s| && IsSurrogate(s[i])
  }

  predicate IsContinuation(b: Byte) {
    0x80 <= b < 0xC0
  }

  /** The UTF-8 bytes of one code point; `None` for a surrogate, where the strict
      codec raises `UnicodeEncodeError`. */
  function EncodeCodePoint(c: CodePoint): (r: Option<seq<Byte>>)
    ensures r.None? <==> IsSurrogate(c)
    ensures r.Some? ==> 1 <= |r.value| <= 4
  {
    if c < 0x80 then Some([c])
    else if c < 0x800 then Some([0xC0 + c / 64, 0x80 + c % 64])
    else if IsSurrogate(c) then None
    else if c < 0x1_0000 then Some([0xE0 + c / 4096, 0x80 + (c / 64) % 64, 0x80 + c % 64])
    else Some([0xF0 + c / 262144, 0x80 + (c / 4096) % 64, 0x80 + (c / 64) % 64, 0x80 + c % 64])
  }

  /** `s.encode('utf-8')`: fails exactly when `s` holds a surrogate. */
  function Encode(s: PyString): (r: Option<seq<Byte>>)
    ensures r.None? <==> HasSurrogate(s)
    decreases |s|
  {
    if s == [] then Some([])
    else
      match EncodeCodePoint(s[0])
      case None => None
      case Some(head) =>
        match Encode(s[1..])
        case None =>
          assert forall i :: 1 <= i < |s| ==> s[i] == s[1..][i - 1];
          None
        case Some(tail) =>
          assert forall i :: 1 <= i < |s| ==> s[i] == s[1..][i - 1];
          Some(head + tail)
  }

  /** The first code point of well-formed UTF-8 and how many bytes it takes; `None`
      for a malformed, overlong or surrogate sequence. */
  function DecodeFirst(b: seq<Byte>): (r: Option<(CodePoint, nat)>)
    requires |b| > 0
    ensures r.Some? ==> 1 <= r.value.1 <= |b|
  {
    var b0: int := b[0];
    if b0 < 0x80 then Some((b0, 1))
    else if 0xC2 <= b0 < 0xE0 then
      if |b| >= 2 && IsContinuation(b[1]) then Some(((b0 - 0xC0) * 64 + (b[1] as int - 0x80), 2)) else None
    else if 0xE0 <= b0 < 0xF0 then
      if |b| >= 3 && IsContinuation(b[1]) && IsContinuation(b[2]) then
        var c: int := (b0 - 0xE0) * 4096 + (b[1] as int - 0x80) * 64 + (b[2] as int - 0x80);
        if c < 0x800 || IsSurrogate(c) then None else Some((c, 3))
      else None
    else if 0xF0 <= b0 < 0xF5 then
      if |b| >= 4 && IsContinuation(b[1]) && IsContinuation(b[2]) && IsContinuation(b[3]) then
        var c: int := (b0 - 0xF0) * 262144 + (b[1] as int - 0x80) * 4096 + (b[2] as int - 0x80) * 64 + (b[3] as int - 0x80);
        if c < 0x1_0000 || c >= 0x11_0000 then None else Some((c, 4))
      else None
    else None
  }

  /** `b.decode('utf-8')`, strict. */
  function Decode(b: seq<Byte>): Option<PyString>
    decreases |b|
  {
    if b == [] then Some([])
    else
      match DecodeFirst(b)
      case None => None
      case Some((c, n)) =>
        match Decode(b[n..])
        case None => None
        case Some(rest) => Some([c] + rest)
  }

  /** The bytes of one code point, followed by anything, decode to that code point first. */
  lemma DecodeFirstEncoded(c: CodePoint, rest: seq<Byte>)
    requires !IsSurrogate(c)
    ensures var e := EncodeCodePoint(c).value;
      DecodeFirst(e + rest) == Some((c, |e|))
  {
    var e := EncodeCodePoint(c).value;
    var b := e + rest;
    if c < 0x80 {
    } else if c < 0x800 {
      assert b[0] == 0xC0 + c / 64 && b[1] == 0x80 + c % 64;
    } else if c < 0x1_0000 {
      ThreeBytes(c);
      assert b[0] == 0xE0 + c / 4096 && b[1] == 0x80 + (c / 64) % 64 && b[2] == 0x80 + c % 64;
    } else {
      FourBytes(c);
      assert b[0] == 0xF0 + c / 262144 && b[1] == 0x80 + (c / 4096) % 64;
      assert b[2] == 0x80 + (c / 64) % 64 && b[3] == 0x80 + c % 64;
    }
  }

  /** The three 4-, 6- and 6-bit pieces of a 16-bit code point put back together. */
  lemma ThreeBytes(c: nat)
    requires c < 0x1_0000
    ensures (c / 4096) * 4096 + ((c / 64) % 64) * 64 + c % 64 == c
  {
    var m := c / 64;
    assert m / 64 == c / 4096;
    assert c == m * 64 + c % 64;
    assert m == (m / 64) * 64 + m % 64;
  }

  /** The four 3-, 6-, 6- and 6-bit pieces of a 21-bit code point put back together. */
  lemma FourBytes(c: nat)
    ensures (c / 262144) * 262144 + ((c / 4096) % 64) * 4096 + ((c / 64) % 64) * 64 + c % 64 == c
  {
    var m := c / 64;
    var k := c / 4096;
    assert m / 64 == k && k / 64 == c / 262144;
    assert c == m * 64 + c % 64;
    assert m == k * 64 + m % 64;
    assert k == (c / 262144) * 64 + k % 64;
  }

  /** Decoding what `Encode` wrote gives back the text. */
  lemma {:induction false} DecodeEncode(s: PyString)
    requires !HasSurrogate(s)
    ensures Encode(s).Some? && Decode(Encode(s).value) == Some(s)
    decreases |s|
  {
    if s != [] {
      assert !HasSurrogate(s[1..]) by {
        assert forall i :: 1 <= i < |s| ==> s[i] == s[1..][i - 1];
      }
      assert !IsSurrogate(s[0]);
      DecodeEncode(s[1..]);
      var head := EncodeCodePoint(s[0]).value;
      var tail := Encode(s[1..]).value;
      var b := head + tail;
      assert Encode(s) == Some(b);
      DecodeFirstEncoded(s[0], tail);
      assert b[|head|..] == tail;
      assert s == [s[0]] + s[1..];
    }
  }
}
