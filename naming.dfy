/** The string rules of the resource walk: `_ltrim`, `_makeUniqueId`, and the
    two regular-expression rewrites that drop the disambiguation digit which
    the RAML parser appends to placeholder names (`{id1}`) and to URI
    parameter display names (`id1`). */
module Naming {

  import opened JsValues
  import opened JsText

  /** The characters `_ltrim(str, chr)` strips: `^\s+` without `chr`,
      `^chr+` with it. */
  predicate Trimmed(c: char, chr: Option<char>) {
    match chr
    case None => IsSpace(c)
    case Some(x) => c == x
  }

  /** `_ltrim(str, chr)`: removes the longest prefix of stripped characters. */
  function LTrim(s: string, chr: Option<char>): (r: string)
    ensures |r| <= |s| && r == s[|s| - |r|..]
    ensures forall k :: 0 <= k < |s| - |r| ==> Trimmed(s[k], chr)
    ensures r == [] || !Trimmed(r[0], chr)
  {
    if s != [] && Trimmed(s[0], chr) then LTrim(s[1..], chr) else s
  }

  /** `_makeUniqueId`: `parentUrl + relativeUri` with every non-word character
      replaced by `_`, then leading underscores removed. */
  function MakeUniqueId(parentUrl: string, relativeUri: string): (r: string)
  {
    LTrim(ReplaceNonWord(parentUrl + relativeUri, '_'), Some('_'))
  }

  /** What the identifier is: the full URL from position `k` on, with
      non-word characters mapped to `_`, where every character before `k` is
      a non-word character or `_` and the character at `k` (if any) is a
      word character other than `_`. */
  lemma {:induction false} UniqueIdShape(parentUrl: string, relativeUri: string) returns (k: nat)
    ensures k <= |parentUrl + relativeUri|
    ensures MakeUniqueId(parentUrl, relativeUri) == ReplaceNonWord((parentUrl + relativeUri)[k..], '_')
    ensures forall i :: 0 <= i < k ==> !IsWordChar((parentUrl + relativeUri)[i]) || (parentUrl + relativeUri)[i] == '_'
    ensures k < |parentUrl + relativeUri| ==>
      IsWordChar((parentUrl + relativeUri)[k]) && (parentUrl + relativeUri)[k] != '_'
  {
    var full := parentUrl + relativeUri;
    var mapped := ReplaceNonWord(full, '_');
    var r := LTrim(mapped, Some('_'));
    k := |full| - |r|;
    ReplaceNonWordSuffix(full, '_', k);
    forall i | 0 <= i < k ensures !IsWordChar(full[i]) || full[i] == '_' {
      assert Trimmed(mapped[i], Some('_'));
    }
    if k < |full| {
      assert r[0] == mapped[k];
    }
  }

  /** An identifier holds word characters only and never starts with `_`. */
  lemma {:induction false} UniqueIdIsWord(parentUrl: string, relativeUri: string)
    ensures forall i :: 0 <= i < |MakeUniqueId(parentUrl, relativeUri)| ==>
      IsWordChar(MakeUniqueId(parentUrl, relativeUri)[i])
    ensures MakeUniqueId(parentUrl, relativeUri) == [] || MakeUniqueId(parentUrl, relativeUri)[0] != '_'
  {
    var full := parentUrl + relativeUri;
    var mapped := ReplaceNonWord(full, '_');
    var r := LTrim(mapped, Some('_'));
    forall i | 0 <= i < |r| ensures IsWordChar(r[i]) {
      assert r[i] == mapped[|mapped| - |r| + i];
    }
  }

  /** The known limitation of the scheme: two URLs of the same length that
      agree at word characters and have non-word characters at the same
      places get the same identifier. */
  lemma {:induction false} UniqueIdCollides(u: string, v: string)
    requires |u| == |v|
    requires forall i :: 0 <= i < |u| ==> IsWordChar(u[i]) == IsWordChar(v[i])
    requires forall i :: 0 <= i < |u| && IsWordChar(u[i]) ==> u[i] == v[i]
    ensures MakeUniqueId(u, "") == MakeUniqueId(v, "")
  {
    var mu, mv := ReplaceNonWord(u + "", '_'), ReplaceNonWord(v + "", '_');
    assert mu == mv by {
      forall i | 0 <= i < |mu| ensures mu[i] == mv[i] {
        assert (u + "")[i] == u[i] && (v + "")[i] == v[i];
      }
    }
  }

  /** End of the run of non-digits that starts at `k`: `[^0-9]+` matched
      greedily from `k` can only stop there. */
  function NonDigitRunEnd(s: string, k: nat): (j: nat)
    requires k <= |s|
    ensures k <= j <= |s|
    ensures forall m :: k <= m < j ==> !IsDigit(s[m])
    ensures j == |s| || IsDigit(s[j])
    decreases |s| - k
  {
    if k == |s| || IsDigit(s[k]) then k else NonDigitRunEnd(s, k + 1)
  }

  /** `/\{([^0-9]+)[0-9]\}/` matches at `i`, with its digit at `j`. */
  predicate PlaceholderAt(s: string, i: nat, j: nat) {
    i + 1 < j && j + 1 < |s| && s[i] == '{' && IsDigit(s[j]) && s[j + 1] == '}'
    && forall m :: i < m < j ==> !IsDigit(s[m])
  }

  /** The match at `i` is the leftmost one, which is the one `replace` rewrites. */
  ghost predicate FirstPlaceholder(s: string, i: nat, j: nat) {
    PlaceholderAt(s, i, j) && forall i': nat, j': nat :: i' < i ==> !PlaceholderAt(s, i', j')
  }

  /** The digit of a match at `i` is where the run of non-digits after the
      brace ends, so a match at `i` has only one digit position. */
  lemma {:induction false} PlaceholderEndsRun(s: string, i: nat, j: nat)
    requires PlaceholderAt(s, i, j)
    ensures j == NonDigitRunEnd(s, i + 1)
  {
  }

  /** The regular-expression engine trying positions from `from` on: the first
      position with a match and its digit position. */
  function FindPlaceholder(s: string, from: nat): (r: Option<(nat, nat)>)
    requires from <= |s|
    ensures r.Some? ==> from <= r.value.0 && PlaceholderAt(s, r.value.0, r.value.1)
    ensures r.Some? ==> forall i: nat, j: nat :: from <= i < r.value.0 ==> !PlaceholderAt(s, i, j)
    ensures r.None? ==> forall i: nat, j: nat :: from <= i ==> !PlaceholderAt(s, i, j)
    decreases |s| - from
  {
    if from == |s| then None
    else
      var j := NonDigitRunEnd(s, from + 1);
      if s[from] == '{' && from + 1 < j && j + 1 < |s| && s[j + 1] == '}' then
        Some((from, j))
      else
        assert forall j': nat :: !PlaceholderAt(s, from, j') by {
          forall j': nat | PlaceholderAt(s, from, j') ensures j' == j {
            PlaceholderEndsRun(s, from, j');
          }
        }
        FindPlaceholder(s, from + 1)
  }

  /** `relativeUri.replace(/\{([^0-9]+)[0-9]\}/, '{$1}')`. */
  function StripUriDigit(s: string): (r: string)
    ensures forall i: nat, j: nat :: FirstPlaceholder(s, i, j) ==> r == s[..j] + s[j + 1..]
    ensures (forall i: nat, j: nat :: !PlaceholderAt(s, i, j)) ==> r == s
  {
    match FindPlaceholder(s, 0)
    case None => s
    case Some((i, j)) =>
      assert FirstPlaceholder(s, i, j);
      forall i': nat, j': nat | FirstPlaceholder(s, i', j') ensures i' == i && j' == j {
        PlaceholderEndsRun(s, i, j);
        PlaceholderEndsRun(s, i', j');
      }
      var r := s[..i] + "{" + s[i + 1..j] + "}" + s[j + 2..];
      assert r == s[..j] + s[j + 1..] by {
        assert s[..j] == s[..i] + "{" + s[i + 1..j];
        assert s[j + 1..] == "}" + s[j + 2..];
      }
      r
  }

  /** The rewrite needs a full match of `/^([^0-9]+)[0-9]$/`. */
  predicate NumberedName(s: string) {
    |s| >= 2 && IsDigit(s[|s| - 1]) && forall m :: 0 <= m < |s| - 1 ==> !IsDigit(s[m])
  }

  /** `displayName.replace(/^([^0-9]+)[0-9]$/, '$1')`. */
  function StripDisplayNameDigit(s: string): (r: string)
    ensures NumberedName(s) ==> r == s[..|s| - 1]
    ensures !NumberedName(s) ==> r == s
  {
    if |s| >= 2 && NonDigitRunEnd(s, 0) == |s| - 1 then s[..|s| - 1] else s
  }

  /** Stripping twice is stripping once: a stripped name ends in a non-digit. */
  lemma {:induction false} StripDisplayNameIdempotent(s: string)
    ensures StripDisplayNameDigit(StripDisplayNameDigit(s)) == StripDisplayNameDigit(s)
  {
    if NumberedName(s) {
      var t := s[..|s| - 1];
      assert !IsDigit(t[|t| - 1]);
    }
  }
}
