/**
 * Literal string substitution as the page assembler uses it:
 * `String.prototype.replace` with a string pattern (first occurrence only)
 * and with a literal global regular expression such as `/{{main}}/g`
 * (every non-overlapping occurrence, scanning left to right). The
 * replacement text is taken literally; see `DollarFree`.
 */
module Text {
  import opened Wrappers
  import opened JsValues

  /** `pat` occurs in `s` starting at index `i`. */
  predicate OccursAt(s: string, pat: string, i: nat) {
    i + |pat| <= |s| && s[i..i + |pat|] == pat
  }

  /** `pat` occurs nowhere in `s`. */
  predicate Absent(s: string, pat: string) {
    forall i :: 0 <= i <= |s| ==> !OccursAt(s, pat, i)
  }

  /** `i` is the leftmost occurrence of `pat` in `s`. */
  predicate IsFirst(s: string, pat: string, i: nat) {
    OccursAt(s, pat, i) && forall j :: 0 <= j < i ==> !OccursAt(s, pat, j)
  }

  /**
   * Replacement text is used literally only when it holds no `$`: JavaScript
   * expands `$&`, `$1`, `$$` and friends in replacement strings.
   */
  predicate DollarFree(s: string) {
    '$' !in s
  }

  /** Leftmost occurrence of `pat` at or after `from`. */
  function IndexFrom(s: string, pat: string, from: nat): (r: Option<nat>)
    requires from <= |s|
    ensures r.Some? ==> from <= r.value && OccursAt(s, pat, r.value)
    ensures r.Some? ==> forall j :: from <= j < r.value ==> !OccursAt(s, pat, j)
    ensures r.None? ==> forall j :: from <= j <= |s| ==> !OccursAt(s, pat, j)
    decreases |s| - from
  {
    if OccursAt(s, pat, from) then Some(from)
    else if from == |s| then None
    else IndexFrom(s, pat, from + 1)
  }

  /** `s.indexOf(pat)`, with `None` for -1. */
  function IndexOf(s: string, pat: string): (r: Option<nat>)
    ensures r.Some? <==> !Absent(s, pat)
    ensures r.Some? ==> IsFirst(s, pat, r.value)
  {
    IndexFrom(s, pat, 0)
  }

  /** `s.replace(pat, rep)` with a string pattern: only the leftmost occurrence. */
  function ReplaceFirst(s: string, pat: string, rep: string): (r: string)
    ensures Absent(s, pat) ==> r == s
    ensures forall i: nat :: IsFirst(s, pat, i) ==> r == s[..i] + rep + s[i + |pat|..]
  {
    match IndexOf(s, pat)
    case None => s
    case Some(i) =>
      FirstIsUnique(s, pat, i);
      s[..i] + rep + s[i + |pat|..]
  }

  lemma FirstIsUnique(s: string, pat: string, i: nat)
    requires IsFirst(s, pat, i)
    ensures forall k: nat :: IsFirst(s, pat, k) ==> k == i
  {
  }

  /**
   * `s.replace(/pat/g, rep)` for a literal, non-empty pattern: a left-to-right
   * scan that replaces a match and resumes after it, and otherwise keeps one
   * character and moves on. Inserted text is never rescanned.
   */
  function ReplaceAll(s: string, pat: string, rep: string): string
    requires |pat| > 0
    decreases |s|
  {
    if |s| < |pat| then s
    else if s[..|pat|] == pat then rep + ReplaceAll(s[|pat|..], pat, rep)
    else [s[0]] + ReplaceAll(s[1..], pat, rep)
  }

  /** `s.split(pat)` for a non-empty separator: the pieces between occurrences. */
  function Split(s: string, pat: string): (parts: seq<string>)
    requires |pat| > 0
    ensures |parts| > 0
    decreases |s|
  {
    match IndexOf(s, pat)
    case None => [s]
    case Some(i) => [s[..i]] + Split(s[i + |pat|..], pat)
  }

  /** The pieces `Split` produces contain no occurrence of the separator. */
  lemma {:induction false} SplitPiecesAbsent(s: string, pat: string)
    requires |pat| > 0
    ensures forall k :: 0 <= k < |Split(s, pat)| ==> Absent(Split(s, pat)[k], pat)
    decreases |s|
  {
    match IndexOf(s, pat)
    case None =>
    case Some(i) =>
      var rest := s[i + |pat|..];
      SplitPiecesAbsent(rest, pat);
      forall j | 0 <= j <= i
        ensures !OccursAt(s[..i], pat, j)
      {
        if OccursAt(s[..i], pat, j) {
          assert s[..i][j..j + |pat|] == s[j..j + |pat|];
          assert OccursAt(s, pat, j);
        }
      }
      assert Split(s, pat) == [s[..i]] + Split(rest, pat);
  }

  /** Splitting on a separator and joining with it gives back the string. */
  lemma {:induction false} SplitJoinRoundTrip(s: string, pat: string)
    requires |pat| > 0
    ensures Join(Split(s, pat), pat) == s
    decreases |s|
  {
    match IndexOf(s, pat)
    case None =>
    case Some(i) =>
      var rest := s[i + |pat|..];
      SplitJoinRoundTrip(rest, pat);
      var tail := Split(rest, pat);
      assert Split(s, pat) == [s[..i]] + tail;
      assert Join(Split(s, pat), pat) == s[..i] + pat + Join(tail, pat);
      assert s == s[..i] + s[i..i + |pat|] + rest;
  }

  /** The scan keeps a prefix that holds no occurrence of the pattern. */
  lemma {:induction false} ScanSkipsPrefix(s: string, pat: string, rep: string, i: nat)
    requires |pat| > 0 && i <= |s|
    requires forall j :: 0 <= j < i ==> !OccursAt(s, pat, j)
    ensures ReplaceAll(s, pat, rep) == s[..i] + ReplaceAll(s[i..], pat, rep)
    decreases i
  {
    if i > 0 {
      assert !OccursAt(s, pat, 0);
      if |s| < |pat| {
        ScanShortIsIdentity(s[i..], pat, rep);
        assert s[..i] + s[i..] == s;
      } else {
        assert s[..|pat|] != pat;
        var t := s[1..];
        forall j | 0 <= j < i - 1
          ensures !OccursAt(t, pat, j)
        {
          if OccursAt(t, pat, j) {
            assert t[j..j + |pat|] == s[j + 1..j + 1 + |pat|];
            assert OccursAt(s, pat, j + 1);
          }
        }
        ScanSkipsPrefix(t, pat, rep, i - 1);
        assert t[i - 1..] == s[i..];
        assert [s[0]] + t[..i - 1] == s[..i];
      }
    }
  }

  lemma ScanShortIsIdentity(s: string, pat: string, rep: string)
    requires 0 < |pat| && |s| < |pat|
    ensures ReplaceAll(s, pat, rep) == s
  {
  }

  /**
   * Global replacement is split-then-join: every piece between two
   * occurrences is kept and every occurrence becomes `rep`.
   */
  lemma {:induction false} ReplaceAllIsSplitJoin(s: string, pat: string, rep: string)
    requires |pat| > 0
    ensures ReplaceAll(s, pat, rep) == Join(Split(s, pat), rep)
    decreases |s|
  {
    match IndexOf(s, pat)
    case None =>
      ScanSkipsPrefix(s, pat, rep, |s|);
      ScanShortIsIdentity(s[|s|..], pat, rep);
      assert s[..|s|] == s;
    case Some(i) =>
      var rest := s[i + |pat|..];
      ScanSkipsPrefix(s, pat, rep, i);
      assert s[i..][..|pat|] == pat;
      assert s[i..][|pat|..] == rest;
      ReplaceAllIsSplitJoin(rest, pat, rep);
      assert Split(s, pat) == [s[..i]] + Split(rest, pat);
  }

  /** A string without the pattern passes through global replacement unchanged. */
  lemma ReplaceAllAbsent(s: string, pat: string, rep: string)
    requires |pat| > 0 && Absent(s, pat)
    ensures ReplaceAll(s, pat, rep) == s
  {
    ReplaceAllIsSplitJoin(s, pat, rep);
  }

  /** Replacing a pattern by itself everywhere is the identity. */
  lemma ReplaceAllSelf(s: string, pat: string)
    requires |pat| > 0
    ensures ReplaceAll(s, pat, pat) == s
  {
    ReplaceAllIsSplitJoin(s, pat, pat);
    SplitJoinRoundTrip(s, pat);
  }

  /** A string that is exactly the pattern becomes exactly the replacement. */
  lemma ReplaceAllWhole(pat: string, rep: string)
    requires |pat| > 0
    ensures ReplaceAll(pat, pat, rep) == rep
  {
    assert pat[..|pat|] == pat;
    assert pat[|pat|..] == [];
  }

  /** Global replacement with `$`-free inputs yields `$`-free text. */
  lemma {:induction false} ReplaceAllDollarFree(s: string, pat: string, rep: string)
    requires |pat| > 0 && DollarFree(s) && DollarFree(rep)
    ensures DollarFree(ReplaceAll(s, pat, rep))
    decreases |s|
  {
    if |s| >= |pat| {
      if s[..|pat|] == pat {
        assert forall c :: c in s[|pat|..] ==> c in s;
        ReplaceAllDollarFree(s[|pat|..], pat, rep);
      } else {
        assert forall c :: c in s[1..] ==> c in s;
        ReplaceAllDollarFree(s[1..], pat, rep);
      }
    }
  }

  /** A pattern holding a character the text lacks cannot occur in it. */
  lemma AbsentByChar(s: string, pat: string, k: nat)
    requires k < |pat| && pat[k] !in s
    ensures Absent(s, pat)
  {
    forall i | 0 <= i <= |s| ensures !OccursAt(s, pat, i) {
      if i + |pat| <= |s| {
        assert s[i..i + |pat|][k] == s[i + k];
      }
    }
  }

  /** `s.replace(pat, rep)` when the leftmost occurrence is known. */
  lemma ReplaceFirstAt(s: string, pat: string, rep: string, i: nat)
    requires IsFirst(s, pat, i)
    ensures ReplaceFirst(s, pat, rep) == s[..i] + rep + s[i + |pat|..]
  {
  }

  /** `s.replace(/^\//, '')`: drops one leading slash, if there is one. */
  function StripSlash(s: string): (r: string)
    ensures r == s || "/" + r == s
    ensures |s| > 0 && s[0] == '/' ==> "/" + r == s
    ensures (|s| == 0 || s[0] != '/') ==> r == s
  {
    if |s| > 0 && s[0] == '/' then s[1..] else s
  }

  /** Stripping undoes prefixing a slash. */
  lemma StripSlashInverse(t: string)
    ensures StripSlash("/" + t) == t
  {
  }
}
