/** Python text and byte values, and the `str` methods the translator uses. */
module PyStrings {
  import opened Wrappers

  /** An element of a Python `str`: any code point, lone surrogates included. */
  type CodePoint = c: int | 0 <= c < 0x11_0000

  /** A Python `str`. */
  type PyString = seq<CodePoint>

  /** An element of a Python `bytes` object. */
  type Byte = b: int | 0 <= b < 256

  /** Lifts a Dafny string literal to the code points it spells. */
  function Lit(s: string): (r: PyString)
    ensures |r| == |s|
  {
    seq(|s|, i requires 0 <= i < |s| => s[i] as int)
  }

  /** Python truthiness of an optional string: present and non-empty. */
  predicate Truthy(s: Option<PyString>) {
    s.Some? && s.value != []
  }

  /** Concatenation is associative; stated once so that proofs about growing strings
      need not rediscover it elementwise. */
  lemma AppendAssoc(a: PyString, b: PyString, c: PyString)
    ensures (a + b) + c == a + (b + c)
  {
  }

  /** `n` copies of `c`. */
  function Repeat(c: CodePoint, n: nat): (r: PyString)
    ensures |r| == n
    ensures forall i :: 0 <= i < n ==> r[i] == c
  {
    seq(n, i requires 0 <= i < n => c)
  }

  /** `"".join(parts)`. */
  function Concat(parts: seq<PyString>): (r: PyString)
    ensures |parts| > 0 ==> parts[0] <= r
  {
    if |parts| == 0 then [] else parts[0] + Concat(parts[1..])
  }

  /** Appending one part appends its text. */
  lemma {:induction false} ConcatAppend(parts: seq<PyString>, p: PyString)
    ensures Concat(parts + [p]) == Concat(parts) + p
  {
    if |parts| == 0 {
      assert parts + [p] == [p];
    } else {
      assert (parts + [p])[1..] == parts[1..] + [p];
      ConcatAppend(parts[1..], p);
    }
  }

  /** `"".join(parts)` is empty exactly when every part is. */
  lemma {:induction false} ConcatEmptyIff(parts: seq<PyString>)
    ensures Concat(parts) == [] <==> forall i :: 0 <= i < |parts| ==> parts[i] == []
  {
    if |parts| > 0 {
      ConcatEmptyIff(parts[1..]);
      assert forall i :: 1 <= i < |parts| ==> parts[i] == parts[1..][i - 1];
    }
  }

  /** `sep.join(parts)`: the parts in order, `sep` between neighbours. */
  function Join(sep: PyString, parts: seq<PyString>): (r: PyString)
    ensures |parts| > 0 ==> parts[0] <= r
  {
    if |parts| == 0 then []
    else if |parts| == 1 then parts[0]
    else parts[0] + sep + Join(sep, parts[1..])
  }

  /** A single part joins to itself, and joining one more part appends the separator
      and that part. */
  lemma {:induction false} JoinSnoc(sep: PyString, parts: seq<PyString>, p: PyString)
    requires |parts| > 0
    ensures Join(sep, [p]) == p
    ensures Join(sep, parts + [p]) == Join(sep, parts) + sep + p
    decreases |parts|
  {
    if |parts| > 1 {
      assert (parts + [p])[1..] == parts[1..] + [p];
      JoinSnoc(sep, parts[1..], p);
    }
  }

  /** The joined text is the parts' text plus one separator between each neighbouring pair. */
  lemma {:induction false} JoinLength(sep: PyString, parts: seq<PyString>)
    requires |parts| > 0
    ensures |Join(sep, parts)| == |Concat(parts)| + (|parts| - 1) * |sep|
    decreases |parts|
  {
    if |parts| > 1 {
      JoinLength(sep, parts[1..]);
    }
  }

  /** `s.rstrip(c)`: the longest prefix of `s` not ending in `c`, such that only copies
      of `c` were removed. */
  function RStrip(s: PyString, c: CodePoint): (r: PyString)
    ensures r <= s
    ensures r == [] || r[|r| - 1] != c
    ensures forall i :: |r| <= i < |s| ==> s[i] == c
  {
    if |s| > 0 && s[|s| - 1] == c then RStrip(s[..|s| - 1], c) else s
  }

  /** When `s` is `c`-free up to `k` and all `c` after it, `rstrip(c)` cuts at `k`. */
  lemma {:induction false} RStripAfter(s: PyString, k: nat, c: CodePoint)
    requires k <= |s|
    requires forall i :: 0 <= i < k ==> s[i] != c
    requires forall i :: k <= i < |s| ==> s[i] == c
    ensures RStrip(s, c) == s[..k]
    decreases |s|
  {
    if |s| > k {
      RStripAfter(s[..|s| - 1], k, c);
    }
  }
}
