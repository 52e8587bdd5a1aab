/**
 * The string primitives the task board relies on: `trim`, ASCII `toLowerCase`,
 * `includes`, `split` on one character and `join`.
 */
module Strings {

  /**
   * The characters `String.prototype.trim` strips, restricted to ASCII white space, the
   * no-break space and the byte order mark.
   */
  predicate IsSpace(c: char) {
    c == ' ' || c == '\t' || c == '\n' || c == '\r' || c == '\U{B}' || c == '\U{C}'
    || c == '\U{A0}' || c == '\U{FEFF}'
  }

  /** A string with no white space at either end. */
  predicate Trimmed(s: string) {
    s == [] || (!IsSpace(s[0]) && !IsSpace(s[|s| - 1]))
  }

  /**
   * `s.trim()`: the longest infix of `s` that neither starts nor ends with white space, found
   * by dropping one white-space character at a time from the front, then from the back.
   */
  function Trim(s: string): (r: string)
    ensures Trimmed(r)
    ensures |r| <= |s|
  {
    if s != [] && IsSpace(s[0]) then Trim(s[1..])
    else if s != [] && IsSpace(s[|s| - 1]) then Trim(s[..|s| - 1])
    else s
  }

  /** Trimming adds no character. */
  lemma {:induction false} TrimKeepsOut(s: string, c: char)
    requires c !in s
    ensures c !in Trim(s)
  {
    if s != [] && IsSpace(s[0]) {
      assert forall x :: x in s[1..] ==> x in s;
      TrimKeepsOut(s[1..], c);
    } else if s != [] && IsSpace(s[|s| - 1]) {
      assert forall x :: x in s[..|s| - 1] ==> x in s;
      TrimKeepsOut(s[..|s| - 1], c);
    }
  }

  /** `r` is the infix `s[i..j]` of `s`, and only white space lies outside it. */
  predicate InfixWithin(s: string, r: string, i: int, j: int) {
    && 0 <= i <= j <= |s| && r == s[i..j]
    && (forall k :: 0 <= k < i ==> IsSpace(s[k]))
    && (forall k :: j <= k < |s| ==> IsSpace(s[k]))
  }

  /**
   * `trim` removes only white space, and only from the ends: the result is an infix of `s`
   * with nothing but white space outside it. With `Trim`'s own contract (no white space at
   * either end of the result) this determines the result.
   */
  lemma {:induction false} TrimIsInfix(s: string)
    ensures exists i, j :: InfixWithin(s, Trim(s), i, j)
  {
    if s != [] && IsSpace(s[0]) {
      TrimIsInfix(s[1..]);
      var i, j :| InfixWithin(s[1..], Trim(s[1..]), i, j);
      InfixAfterSpace(s, Trim(s), i, j);
    } else if s != [] && IsSpace(s[|s| - 1]) {
      TrimIsInfix(s[..|s| - 1]);
      var i, j :| InfixWithin(s[..|s| - 1], Trim(s[..|s| - 1]), i, j);
      InfixBeforeSpace(s, Trim(s), i, j);
    } else {
      assert InfixWithin(s, Trim(s), 0, |s|);
    }
  }

  lemma InfixAfterSpace(s: string, r: string, i: int, j: int)
    requires s != [] && IsSpace(s[0]) && InfixWithin(s[1..], r, i, j)
    ensures InfixWithin(s, r, i + 1, j + 1)
  {
    assert s[1..][i..j] == s[i + 1..j + 1];
    forall k | 0 <= k < i + 1
      ensures IsSpace(s[k])
    {
      if k > 0 {
        assert s[k] == s[1..][k - 1];
      }
    }
    forall k | j + 1 <= k < |s|
      ensures IsSpace(s[k])
    {
      assert s[k] == s[1..][k - 1];
    }
  }

  lemma InfixBeforeSpace(s: string, r: string, i: int, j: int)
    requires s != [] && IsSpace(s[|s| - 1]) && InfixWithin(s[..|s| - 1], r, i, j)
    ensures InfixWithin(s, r, i, j)
  {
    assert s[..|s| - 1][i..j] == s[i..j];
    forall k | j <= k < |s|
      ensures IsSpace(s[k])
    {
      if k < |s| - 1 {
        assert s[k] == s[..|s| - 1][k];
      }
    }
  }

  lemma TrimOfTrimmed(s: string)
    requires Trimmed(s)
    ensures Trim(s) == s
  {
  }

  /** Leading white space makes no difference to `trim`. */
  lemma {:induction false} TrimSkipsLeadingSpace(pad: string, s: string)
    requires forall k :: 0 <= k < |pad| ==> IsSpace(pad[k])
    ensures Trim(pad + s) == Trim(s)
  {
    if pad != [] {
      var t := pad + s;
      assert t[0] == pad[0];
      assert t[1..] == pad[1..] + s;
      TrimSkipsLeadingSpace(pad[1..], s);
    } else {
      assert pad + s == s;
    }
  }

  function LowerChar(c: char): char {
    if 'A' <= c <= 'Z' then (c as int + 32) as char else c
  }

  /**
   * `s.toLowerCase()` on ASCII letters: the result has no upper-case letter, and it differs
   * from `s` only where `s` has one.
   */
  function Lower(s: string): (r: string)
    ensures |r| == |s|
    ensures forall k :: 0 <= k < |r| ==> !('A' <= r[k] <= 'Z')
    ensures forall k :: 0 <= k < |s| && !('A' <= s[k] <= 'Z') ==> r[k] == s[k]
    ensures forall k :: 0 <= k < |s| && 'A' <= s[k] <= 'Z' ==> r[k] as int == s[k] as int + 32
  {
    seq(|s|, k requires 0 <= k < |s| => LowerChar(s[k]))
  }

  /** Lower-casing twice is lower-casing once. */
  lemma LowerIdempotent(s: string)
    ensures Lower(Lower(s)) == Lower(s)
  {
    var once := Lower(s);
    assert forall k :: 0 <= k < |once| ==> Lower(once)[k] == once[k];
  }

  /** `hay.includes(needle)`: `needle` occurs in `hay` at some position. */
  predicate Contains(hay: string, needle: string) {
    exists k :: 0 <= k <= |hay| && needle <= hay[k..]
  }

  /** `s.split(sep)`: the pieces between occurrences of `sep`; never empty. */
  function Split(s: string, sep: char): (r: seq<string>)
    ensures |r| >= 1
    ensures forall k :: 0 <= k < |r| ==> sep !in r[k]
  {
    if s == [] then [""]
    else
      var rest := Split(s[1..], sep);
      if s[0] == sep then [""] + rest
      else [[s[0]] + rest[0]] + rest[1..]
  }

  /** `parts.join(sep)`. */
  function Join(parts: seq<string>, sep: string): string {
    if |parts| == 0 then ""
    else if |parts| == 1 then parts[0]
    else parts[0] + sep + Join(parts[1..], sep)
  }

  lemma {:induction false} SplitWithoutSeparator(s: string, sep: char)
    requires sep !in s
    ensures Split(s, sep) == [s]
  {
    if s != [] {
      SplitWithoutSeparator(s[1..], sep);
      assert [s[0]] + s[1..] == s;
    }
  }

  lemma {:induction false} SplitAtSeparator(a: string, sep: char, b: string)
    requires sep !in a
    ensures Split(a + [sep] + b, sep) == [a] + Split(b, sep)
  {
    if a == [] {
      assert a + [sep] + b == [sep] + b;
      assert ([sep] + b)[1..] == b;
    } else {
      SplitAtSeparator(a[1..], sep, b);
      assert (a + [sep] + b)[1..] == a[1..] + [sep] + b;
      assert [a[0]] + a[1..] == a;
    }
  }

  /**
   * Splitting `p` followed by the pieces joined with `sep` and a padding gives back the
   * pieces, the first prefixed with `p` and every later one with the padding.
   */
  lemma {:induction false} SplitJoin(p: string, parts: seq<string>, sep: char, pad: string)
    requires |parts| > 0
    requires sep !in p && sep !in pad
    requires forall k :: 0 <= k < |parts| ==> sep !in parts[k]
    ensures |Split(p + Join(parts, [sep] + pad), sep)| == |parts|
    ensures Split(p + Join(parts, [sep] + pad), sep)[0] == p + parts[0]
    ensures forall k :: 1 <= k < |parts| ==> Split(p + Join(parts, [sep] + pad), sep)[k] == pad + parts[k]
    decreases |parts|
  {
    var glue := [sep] + pad;
    if |parts| == 1 {
      SplitWithoutSeparator(p + parts[0], sep);
    } else {
      var rest := parts[1..];
      assert p + Join(parts, glue) == (p + parts[0]) + [sep] + (pad + Join(rest, glue));
      SplitAtSeparator(p + parts[0], sep, pad + Join(rest, glue));
      SplitJoin(pad, rest, sep, pad);
    }
  }
}
