/** The embed accent colour: Discord's integer colour as a CSS hex string (app.py:44-46). */
module Colour {
  import opened Wrappers
  import opened PyStrings

  /** The colour used when the embed has no colour, or colour 0. */
  const Fallback: PyString := Lit("#f0ad4e")

  /** The width `{:06x}` pads to. */
  const Width: nat := 6

  predicate IsHexDigit(c: CodePoint) {
    '0' as int <= c <= '9' as int || 'a' as int <= c <= 'f' as int
  }

  predicate AllHexDigits(s: PyString) {
    forall i :: 0 <= i < |s| ==> IsHexDigit(s[i])
  }

  /** The lower-case digit for 0 <= d < 16. */
  function HexDigit(d: nat): (c: CodePoint)
    requires d < 16
    ensures IsHexDigit(c)
  {
    if d < 10 then '0' as int + d else 'a' as int + (d - 10)
  }

  /** The value a lower-case hex digit denotes. */
  function DigitValue(c: CodePoint): (d: nat)
    requires IsHexDigit(c)
    ensures d < 16 && HexDigit(d) == c
  {
    if c <= '9' as int then c - '0' as int else c - 'a' as int + 10
  }

  /** The number a string of hex digits denotes, most significant digit first. */
  function HexValue(s: PyString): nat
    requires AllHexDigits(s)
  {
    if s == [] then 0 else HexValue(s[..|s| - 1]) * 16 + DigitValue(s[|s| - 1])
  }

  function Pow16(k: nat): (p: nat)
    ensures p >= 1
  {
    if k == 0 then 1 else 16 * Pow16(k - 1)
  }

  /** Six hex digits reach exactly up to 2^24. */
  lemma WidthBound()
    ensures Pow16(Width) == 0x100_0000
  {
  }

  /** `format(n, 'x')`: the lower-case hex digits of `n`, with no leading zero
      except for `n == 0` itself. */
  function ToHex(n: nat): (r: PyString)
    ensures |r| >= 1 && AllHexDigits(r)
    ensures n > 0 ==> r[0] != '0' as int
    ensures n == 0 ==> r == Lit("0")
    decreases n
  {
    if n < 16 then [HexDigit(n)] else ToHex(n / 16) + [HexDigit(n % 16)]
  }

  /** Reading the digits back gives `n`. */
  lemma {:induction false} ToHexRoundTrip(n: nat)
    ensures HexValue(ToHex(n)) == n
    decreases n
  {
    if n >= 16 {
      var r := ToHex(n);
      assert r[..|r| - 1] == ToHex(n / 16);
      ToHexRoundTrip(n / 16);
    }
  }

  /** `n` needs at most `k` digits exactly when it is below 16^k. */
  lemma {:induction false} ToHexLength(n: nat, k: nat)
    requires k >= 1
    ensures |ToHex(n)| <= k <==> n < Pow16(k)
    decreases n
  {
    if n >= 16 {
      if k == 1 {
        ToHexAtLeastOne(n / 16);
      } else {
        ToHexLength(n / 16, k - 1);
      }
    }
  }

  lemma ToHexAtLeastOne(n: nat)
    ensures |ToHex(n)| >= 1
  {
  }

  /** Leading zero digits do not change the value. */
  lemma {:induction false} LeadingZeros(k: nat, s: PyString)
    requires AllHexDigits(s)
    ensures AllHexDigits(Repeat('0' as int, k) + s)
    ensures HexValue(Repeat('0' as int, k) + s) == HexValue(s)
    decreases |s|
  {
    var t := Repeat('0' as int, k) + s;
    if s == [] {
      assert t == Repeat('0' as int, k);
      ZerosValue(k);
    } else {
      assert t[..|t| - 1] == Repeat('0' as int, k) + s[..|s| - 1];
      LeadingZeros(k, s[..|s| - 1]);
    }
  }

  lemma {:induction false} ZerosValue(k: nat)
    ensures AllHexDigits(Repeat('0' as int, k))
    ensures HexValue(Repeat('0' as int, k)) == 0
  {
    if k > 0 {
      assert Repeat('0' as int, k)[..k - 1] == Repeat('0' as int, k - 1);
      ZerosValue(k - 1);
    }
  }

  /** Python's `0` fill to a minimum width: `s` itself when already wide enough. */
  function ZeroPad(s: PyString, width: nat): (r: PyString)
    ensures |r| == if |s| < width then width else |s|
    ensures r[|r| - |s|..] == s
    ensures forall i :: 0 <= i < |r| - |s| ==> r[i] == '0' as int
  {
    if |s| < width then Repeat('0' as int, width - |s|) + s else s
  }

  /** The fallback is itself a six-digit colour string. */
  lemma FallbackShape()
    ensures |Fallback| == 1 + Width && Fallback[0] == '#' as int && AllHexDigits(Fallback[1..])
  {
    var f := Fallback;
    assert f[1..] == ['f' as int, '0' as int, 'a' as int, 'd' as int, '4' as int, 'e' as int];
  }

  /** `#` and the zero-padded digits of a positive colour. */
  lemma {:induction false} PaddedShape(c: nat)
    requires c > 0
    ensures var r := [('#' as int)] + ZeroPad(ToHex(c), Width);
      |r| >= 1 + Width && r[0] == '#' as int && AllHexDigits(r[1..]) && HexValue(r[1..]) == c
  {
    var digits := ToHex(c);
    var padded := ZeroPad(digits, Width);
    ToHexRoundTrip(c);
    assert padded == Repeat('0' as int, |padded| - |digits|) + digits;
    LeadingZeros(|padded| - |digits|, digits);
    assert ([('#' as int)] + padded)[1..] == padded;
  }

  /** `discord_color_to_hex`: the fallback for an absent or zero colour, otherwise `#`
      and the hex digits of the colour, zero-padded to at least six and never masked. */
  function ColorToHex(color: Option<nat>): (r: PyString)
    ensures color.None? || color == Some(0) ==> r == Fallback
    ensures |r| >= 1 + Width && r[0] == '#' as int && AllHexDigits(r[1..])
    ensures color.Some? && color.value > 0 ==> HexValue(r[1..]) == color.value
  {
    if color.None? || color.value == 0 then
      FallbackShape();
      Fallback
    else
      PaddedShape(color.value);
      [('#' as int)] + ZeroPad(ToHex(color.value), Width)
  }

  /** `{:06x}` pads to six digits and never beyond: a non-zero colour gets exactly
      max(6, digits of the colour) digits, so a string longer than six digits has no
      leading zero. */
  lemma ColorToHexWidth(c: nat)
    requires c > 0
    ensures var r := ColorToHex(Some(c));
      && |r| == 1 + (if |ToHex(c)| < Width then Width else |ToHex(c)|)
      && (|r| > 1 + Width ==> r[1] != '0' as int)
  {
  }

  /** Every colour in 1 .. 2^24 - 1 is written with exactly six digits; larger ones with
      more, because nothing masks the value to 24 bits. */
  lemma SixDigits(c: nat)
    requires c > 0
    ensures c < 0x100_0000 <==> |ColorToHex(Some(c))| == 1 + Width
  {
    ToHexLength(c, Width);
    WidthBound();
  }

  /** Distinct non-zero colours get distinct strings. */
  lemma ColorToHexInjective(a: nat, b: nat)
    requires a > 0 && b > 0 && ColorToHex(Some(a)) == ColorToHex(Some(b))
    ensures a == b
  {
  }
}
