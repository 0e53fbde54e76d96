/** The pieces of JavaScript's string library that the enrichment passes rely
    on: the regular-expression character classes `\w`, `\d`-like `[0-9]` and
    `\s`, `String.prototype.indexOf`, and `String.prototype.replace` in its two
    forms used here (a string pattern, and the global pattern `/\W/g`). */
module JsText {

  import opened JsValues

  /** `\w` without the `u` flag: `[A-Za-z0-9_]`. */
  predicate IsWordChar(c: char) {
    ('A' <= c <= 'Z') || ('a' <= c <= 'z') || ('0' <= c <= '9') || c == '_'
  }

  /** `[0-9]` */
  predicate IsDigit(c: char) {
    '0' <= c <= '9'
  }

  /** `\s`: the WhiteSpace and LineTerminator characters of ECMAScript. */
  predicate IsSpace(c: char) {
    c == '\t' || c == '\n' || c == '\U{000B}' || c == '\U{000C}' || c == '\r' || c == ' '
    || c == '\U{00A0}' || c == '\U{1680}' || ('\U{2000}' <= c <= '\U{200A}')
    || c == '\U{2028}' || c == '\U{2029}' || c == '\U{202F}' || c == '\U{205F}'
    || c == '\U{3000}' || c == '\U{FEFF}'
  }

  /** `s.replace(/\W/g, sub)` for a one-character replacement: every character
      outside `[A-Za-z0-9_]` becomes `sub`, the others stay. */
  function ReplaceNonWord(s: string, sub: char): (r: string)
    ensures |r| == |s|
    ensures forall i :: 0 <= i < |s| ==> r[i] == if IsWordChar(s[i]) then s[i] else sub
  {
    if s == [] then []
    else [if IsWordChar(s[0]) then s[0] else sub] + ReplaceNonWord(s[1..], sub)
  }

  /** Replacing commutes with dropping a prefix. */
  lemma {:induction false} ReplaceNonWordSuffix(s: string, sub: char, k: nat)
    requires k <= |s|
    ensures ReplaceNonWord(s, sub)[k..] == ReplaceNonWord(s[k..], sub)
  {
    var a, b := ReplaceNonWord(s, sub)[k..], ReplaceNonWord(s[k..], sub);
    forall i | 0 <= i < |a| ensures a[i] == b[i] {
      assert s[k..][i] == s[k + i];
    }
  }

  predicate OccursAt(s: string, pat: string, i: nat) {
    i + |pat| <= |s| && s[i..i + |pat|] == pat
  }

  /** `i` is where `s.indexOf(pat)` finds `pat`. */
  predicate IsFirstOccurrence(s: string, pat: string, i: nat) {
    OccursAt(s, pat, i) && forall k: nat :: k < i ==> !OccursAt(s, pat, k)
  }

  /** `s.indexOf(pat, from)`, with "not found" as None. */
  function IndexOf(s: string, pat: string, from: nat): (r: Option<nat>)
    requires from <= |s|
    ensures r.Some? ==> from <= r.value && OccursAt(s, pat, r.value)
    ensures r.Some? ==> forall k: nat :: from <= k < r.value ==> !OccursAt(s, pat, k)
    ensures r.None? ==> forall k: nat :: from <= k ==> !OccursAt(s, pat, k)
    decreases |s| - from
  {
    if from + |pat| > |s| then None
    else if s[from..from + |pat|] == pat then Some(from)
    else if from == |s| then None
    else IndexOf(s, pat, from + 1)
  }

  /** GetSubstitution of ECMAScript for a match without capture groups: in the
      replacement text `$$` stands for `$`, `$&` for the matched text, `` $` ``
      for the text before the match and `$'` for the text after it; any other
      `$` is kept literally. */
  function Substitute(repl: string, matched: string, before: string, after: string): (r: string)
    ensures '$' !in repl ==> r == repl
    decreases |repl|
  {
    if repl == [] then []
    else if repl[0] == '$' && |repl| >= 2 && repl[1] in "$&`'" then
      (match repl[1]
       case '$' => "$"
       case '&' => matched
       case '`' => before
       case _ => after)
      + Substitute(repl[2..], matched, before, after)
    else [repl[0]] + Substitute(repl[1..], matched, before, after)
  }

  /** `s.replace(pat, repl)` with a string pattern: only the first occurrence
      of `pat` is replaced, by `repl` with its `$` patterns expanded; without
      an occurrence the string is returned unchanged. */
  function ReplaceFirst(s: string, pat: string, repl: string): (r: string)
    ensures (forall k: nat :: !OccursAt(s, pat, k)) ==> r == s
    ensures forall i: nat :: IsFirstOccurrence(s, pat, i) ==>
      r == s[..i] + Substitute(repl, pat, s[..i], s[i + |pat|..]) + s[i + |pat|..]
  {
    match IndexOf(s, pat, 0)
    case None => s
    case Some(i) =>
      assert IsFirstOccurrence(s, pat, i);
      FirstOccurrenceUnique(s, pat, i);
      s[..i] + Substitute(repl, s[i..i + |pat|], s[..i], s[i + |pat|..]) + s[i + |pat|..]
  }

  lemma {:induction false} FirstOccurrenceUnique(s: string, pat: string, i: nat)
    requires IsFirstOccurrence(s, pat, i)
    ensures forall j: nat :: IsFirstOccurrence(s, pat, j) ==> j == i
  {
  }

  /** When the replacement holds no `$`, the first occurrence is replaced by
      `repl` literally. */
  lemma {:induction false} ReplaceFirstLiteral(s: string, pat: string, repl: string, i: nat)
    requires '$' !in repl
    requires IsFirstOccurrence(s, pat, i)
    ensures ReplaceFirst(s, pat, repl) == s[..i] + repl + s[i + |pat|..]
  {
  }

  /** Replacing the occurrence at `i` by `v` keeps a later occurrence at
      `j`, moved by the change in length. */
  lemma {:induction false} OccurrenceShifted(s: string, pat: string, v: string, i: nat, j: nat)
    requires i + |pat| <= j && OccursAt(s, pat, j)
    ensures OccursAt(s[..i] + v + s[i + |pat|..], pat, j - |pat| + |v|)
  {
    var tail := s[i + |pat|..];
    var r := s[..i] + v + tail;
    var at := j - |pat| + |v|;
    assert r[at..at + |pat|] == tail[j - (i + |pat|)..j - i] by {
      assert r == (s[..i] + v) + tail;
    }
    assert tail[j - (i + |pat|)..j - i] == s[j..j + |pat|];
  }
}
