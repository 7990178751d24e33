/**
 * String helpers the view code relies on: JavaScript's decimal conversion of
 * a whole number (`'' + n`), `String.prototype.replace` with a non-global
 * pattern (first occurrence only), `RegExp.prototype.test` with a literal
 * pattern, and a global single-character replace.
 */
module Text {
  import opened Wrappers

  predicate IsDigit(c: char) {
    '0' <= c <= '9'
  }

  predicate AllDigits(s: string) {
    forall i :: 0 <= i < |s| ==> IsDigit(s[i])
  }

  function Digit(d: nat): (c: char)
    requires d < 10
    ensures IsDigit(c) && c as int - '0' as int == d
  {
    "0123456789"[d]
  }

  function DigitValue(c: char): (d: nat)
    requires IsDigit(c)
    ensures d < 10
  {
    c as int - '0' as int
  }

  /** The decimal text of `n`, as `'' + n` gives it: no sign, no leading zero. */
  function NatToString(n: nat): (s: string)
    ensures |s| >= 1 && AllDigits(s)
    ensures |s| == 1 <==> n < 10
    ensures s[0] == '0' ==> n == 0
    decreases n
  {
    if n < 10 then [Digit(n)] else NatToString(n / 10) + [Digit(n % 10)]
  }

  /** The number a string of decimal digits denotes (the inverse of NatToString). */
  function DecimalValue(s: string): nat
    requires AllDigits(s)
  {
    if s == [] then 0 else 10 * DecimalValue(s[..|s| - 1]) + DigitValue(s[|s| - 1])
  }

  lemma {:induction false} DecimalRoundTrip(n: nat)
    ensures DecimalValue(NatToString(n)) == n
    decreases n
  {
    if n >= 10 {
      var s := NatToString(n);
      assert s[..|s| - 1] == NatToString(n / 10);
      DecimalRoundTrip(n / 10);
    }
  }

  /** `pat` occurs in `s` starting at index `i`. */
  predicate OccursAt(s: string, pat: string, i: nat) {
    i + |pat| <= |s| && s[i..i + |pat|] == pat
  }

  /** The first index at or after `from` where `pat` occurs in `s`. */
  function FindFrom(s: string, pat: string, from: nat): (r: Option<nat>)
    requires from <= |s|
    ensures r.Some? ==> from <= r.value <= |s| && OccursAt(s, pat, r.value)
    ensures r.Some? ==> forall j :: from <= j < r.value ==> !OccursAt(s, pat, j)
    ensures r.None? ==> forall j :: from <= j <= |s| ==> !OccursAt(s, pat, j)
    decreases |s| - from
  {
    if OccursAt(s, pat, from) then Some(from)
    else if from == |s| then None
    else FindFrom(s, pat, from + 1)
  }

  /** The index of the first occurrence of `pat` in `s`, if any. */
  function IndexOf(s: string, pat: string): (r: Option<nat>)
    ensures r.Some? ==> OccursAt(s, pat, r.value)
    ensures r.Some? ==> forall j :: 0 <= j < r.value ==> !OccursAt(s, pat, j)
    ensures r.None? <==> forall j :: 0 <= j <= |s| ==> !OccursAt(s, pat, j)
  {
    FindFrom(s, pat, 0)
  }

  /** `pat` occurs somewhere in `s` (a regular-expression test with a literal pattern). */
  predicate Contains(s: string, pat: string) {
    IndexOf(s, pat).Some?
  }

  /**
   * The first occurrence of `pat` in `s` replaced by `rep`; `s` itself when
   * there is none. `rep` is inserted literally: the `$` patterns of
   * JavaScript's `replace` (`$&`, `$1`, ...) are not interpreted, which is
   * exact for replacements without a `$`, such as digits or "undefined".
   */
  function ReplaceFirst(s: string, pat: string, rep: string): (r: string)
    ensures !Contains(s, pat) ==> r == s
    ensures Contains(s, pat) ==>
      var i := IndexOf(s, pat).value;
      i + |pat| <= |s| && s[i..i + |pat|] == pat &&
      r == s[..i] + rep + s[i + |pat|..]
  {
    match IndexOf(s, pat)
    case None => s
    case Some(i) => s[..i] + rep + s[i + |pat|..]
  }

  /** If `k` is an occurrence of `pat` with none before it, IndexOf finds `k`. */
  lemma IndexOfIsFirst(s: string, pat: string, k: nat)
    requires OccursAt(s, pat, k)
    requires forall j :: 0 <= j < k ==> !OccursAt(s, pat, j)
    ensures IndexOf(s, pat) == Some(k)
  {
  }

  /** No occurrence of `pat` starts inside a prefix that lacks `pat`'s first character. */
  lemma NoOccurrenceInPrefix(p: string, rest: string, pat: string, j: nat)
    requires |pat| > 0 && pat[0] !in p && j < |p|
    ensures !OccursAt(p + rest, pat, j)
  {
    var s := p + rest;
    assert s[j] == p[j] && p[j] in p;
    assert j + |pat| <= |s| ==> s[j..j + |pat|][0] == s[j];
  }

  /** Occurrences after a prefix are the occurrences in the rest, shifted. */
  lemma OccursAfterPrefix(p: string, rest: string, pat: string, k: nat)
    ensures OccursAt(p + rest, pat, |p| + k) <==> OccursAt(rest, pat, k)
  {
    if k + |pat| <= |rest| {
      assert (p + rest)[|p| + k..|p| + k + |pat|] == rest[k..k + |pat|];
    }
  }

  /** Occurrences before `k` in the rest, and none in the prefix, mean none before `|p| + k` in the whole. */
  lemma NoOccurrenceBefore(p: string, rest: string, pat: string, k: nat)
    requires |pat| > 0 && pat[0] !in p
    requires forall j :: 0 <= j < k ==> !OccursAt(rest, pat, j)
    ensures forall j :: 0 <= j < |p| + k ==> !OccursAt(p + rest, pat, j)
  {
    forall j | 0 <= j < |p| + k ensures !OccursAt(p + rest, pat, j) {
      if j < |p| {
        NoOccurrenceInPrefix(p, rest, pat, j);
      } else {
        OccursAfterPrefix(p, rest, pat, j - |p|);
      }
    }
  }

  /**
   * A prefix without the character `pat` starts with cannot hold an occurrence
   * of `pat`, so the first occurrence lies in the rest.
   */
  lemma IndexOfAfterPrefix(p: string, rest: string, pat: string)
    requires |pat| > 0 && pat[0] !in p
    ensures IndexOf(rest, pat).None? ==> IndexOf(p + rest, pat).None?
    ensures IndexOf(rest, pat).Some? ==> IndexOf(p + rest, pat) == Some(|p| + IndexOf(rest, pat).value)
  {
    match IndexOf(rest, pat)
    case Some(k) =>
      NoOccurrenceBefore(p, rest, pat, k);
      OccursAfterPrefix(p, rest, pat, k);
      IndexOfIsFirst(p + rest, pat, |p| + k);
    case None =>
      NoOccurrenceBefore(p, rest, pat, |rest| + 1);
  }

  /** A string lacking one of `pat`'s characters does not contain `pat`. */
  lemma MissingCharNotContained(s: string, pat: string, k: nat)
    requires k < |pat| && pat[k] !in s
    ensures !Contains(s, pat)
  {
    forall j | 0 <= j <= |s| ensures !OccursAt(s, pat, j) {
      assert j + |pat| <= |s| ==> s[j..j + |pat|][k] == s[j + k] && s[j + k] in s;
    }
  }

  /** ReplaceFirst splices `rep` in at the index IndexOf finds. */
  lemma ReplaceFirstAt(s: string, pat: string, rep: string, i: nat)
    requires IndexOf(s, pat) == Some(i)
    ensures i + |pat| <= |s| && ReplaceFirst(s, pat, rep) == s[..i] + rep + s[i + |pat|..]
  {
  }

  /** A text that starts with `pat` has that leading occurrence replaced. */
  lemma ReplaceFirstLeading(pat: string, rest: string, rep: string)
    ensures ReplaceFirst(pat + rest, pat, rep) == rep + rest
  {
    var s := pat + rest;
    assert OccursAt(s, pat, 0) by {
      assert s[0..|pat|] == pat;
    }
    IndexOfIsFirst(s, pat, 0);
    ReplaceFirstAt(s, pat, rep, 0);
    assert s[|pat|..] == rest;
  }

  /** Replacing a pattern the text cannot contain changes nothing. */
  lemma ReplaceFirstAbsent(s: string, pat: string, rep: string, k: nat)
    requires k < |pat| && pat[k] !in s
    ensures ReplaceFirst(s, pat, rep) == s
  {
    MissingCharNotContained(s, pat, k);
  }

  /** Replacing after a prefix that cannot hold an occurrence leaves the prefix alone. */
  lemma ReplaceFirstAfterPrefix(p: string, rest: string, pat: string, rep: string)
    requires |pat| > 0 && pat[0] !in p
    ensures ReplaceFirst(p + rest, pat, rep) == p + ReplaceFirst(rest, pat, rep)
  {
    match IndexOf(rest, pat)
    case Some(k) =>
      calc {
        ReplaceFirst(p + rest, pat, rep);
        == { IndexOfAfterPrefix(p, rest, pat); ReplaceFirstAt(p + rest, pat, rep, |p| + k); }
        (p + rest)[..|p| + k] + rep + (p + rest)[|p| + k + |pat|..];
        == { ReplaceFirstAt(rest, pat, rep, k); SpliceAfterPrefix(p, rest, k, |pat|, rep); }
        p + (rest[..k] + rep + rest[k + |pat|..]);
        == { ReplaceFirstAt(rest, pat, rep, k); }
        p + ReplaceFirst(rest, pat, rep);
      }
    case None =>
      IndexOfAfterPrefix(p, rest, pat);
      assert ReplaceFirst(p + rest, pat, rep) == p + rest;
  }

  /** Splicing into `p + rest` past `p` is splicing into `rest`. */
  lemma SpliceAfterPrefix(p: string, rest: string, k: nat, n: nat, rep: string)
    requires k + n <= |rest|
    ensures (p + rest)[..|p| + k] + rep + (p + rest)[|p| + k + n..] == p + (rest[..k] + rep + rest[k + n..])
  {
    assert (p + rest)[..|p| + k] == p + rest[..k];
    assert (p + rest)[|p| + k + n..] == rest[k + n..];
  }

  /** The first occurrence after a prefix that cannot hold one is the one replaced. */
  lemma ReplaceFirstAfterPlain(p: string, pat: string, rest: string, rep: string)
    requires |pat| > 0 && pat[0] !in p
    ensures ReplaceFirst(p + pat + rest, pat, rep) == p + rep + rest
  {
    assert p + pat + rest == p + (pat + rest);
    ReplaceFirstAfterPrefix(p, pat + rest, pat, rep);
    ReplaceFirstLeading(pat, rest, rep);
  }

  /** Every `from` in `s` replaced by `to` (a global single-character replace). */
  function ReplaceChar(s: string, from: char, to: char): (r: string)
    ensures |r| == |s|
    ensures forall i :: 0 <= i < |s| ==> r[i] == if s[i] == from then to else s[i]
  {
    if s == [] then []
    else [if s[0] == from then to else s[0]] + ReplaceChar(s[1..], from, to)
  }
}
