/** `_parseBaseUri` (index.js:9-17): the `{version}` placeholder of the base
    URI is filled in with the API version. */
module BaseUri {

  import opened JsValues
  import opened JsText
  import opened Raml

  /** The placeholder the pass fills in. */
  const Placeholder := "{version}"

  /** The text `String.prototype.replace` inserts for the version: the
      string itself, or `"undefined"` when the document has no version. */
  function VersionText(version: Option<string>): string {
    match version
    case Some(v) => v
    case None => "undefined"
  }

  /** The base URI after the pass. An absent or empty base URI is falsy and
      stays as it is; otherwise the first `{version}` is replaced by the
      version text (with its `$` patterns expanded), and a base URI without
      a `{version}` stays as it is. */
  function NormalizedBaseUri(baseUri: Option<string>, version: Option<string>): (r: Option<string>)
    ensures baseUri.None? || baseUri == Some("") ==> r == baseUri
    ensures baseUri.Some? ==> r.Some?
    ensures baseUri.Some? && (forall k: nat :: !OccursAt(baseUri.value, Placeholder, k)) ==> r == baseUri
    ensures forall b: string, i: nat :: baseUri == Some(b) && b != "" && IsFirstOccurrence(b, Placeholder, i) ==>
      r == Some(b[..i] + Substitute(VersionText(version), Placeholder, b[..i], b[i + |Placeholder|..])
                + b[i + |Placeholder|..])
  {
    match baseUri
    case Some(b) =>
      if b != "" then Some(ReplaceFirst(b, Placeholder, VersionText(version))) else baseUri
    case None => None
  }

  /** index.js:12-14: the document's base URI is replaced by its normalized
      form; nothing else changes. */
  method ParseBaseUri(doc: Document)
    modifies doc`baseUri
    ensures doc.baseUri == NormalizedBaseUri(old(doc.baseUri), doc.version)
  {
    if doc.baseUri.Some? && doc.baseUri.value != "" {
      doc.baseUri := Some(ReplaceFirst(doc.baseUri.value, Placeholder, VersionText(doc.version)));
    }
  }

  /** With a version free of `$`, the first `{version}` is replaced by the
      version literally and the rest of the base URI, later `{version}`s
      included, is kept. */
  lemma {:induction false} VersionInserted(b: string, v: string, i: nat)
    requires b != "" && '$' !in v && IsFirstOccurrence(b, Placeholder, i)
    ensures NormalizedBaseUri(Some(b), Some(v)) == Some(b[..i] + v + b[i + |Placeholder|..])
  {
    ReplaceFirstLiteral(b, Placeholder, v, i);
  }

  /** Only the first placeholder is filled in, whatever the version: one
      that starts after it is still there in the result, shifted by the
      length of the inserted text `v` (the version text with its `$`
      patterns expanded) minus the placeholder's. */
  lemma {:induction false} LaterPlaceholderKept(b: string, version: Option<string>, v: string, i: nat, j: nat)
    requires b != "" && IsFirstOccurrence(b, Placeholder, i)
    requires i + |Placeholder| <= j && OccursAt(b, Placeholder, j)
    requires v == Substitute(VersionText(version), Placeholder, b[..i], b[i + |Placeholder|..])
    ensures NormalizedBaseUri(Some(b), version).Some?
    ensures OccursAt(NormalizedBaseUri(Some(b), version).value, Placeholder, j - |Placeholder| + |v|)
  {
    OccurrenceShifted(b, Placeholder, v, i, j);
  }

  /** Without a version the placeholder becomes the text `undefined`. */
  lemma {:induction false} MissingVersion(b: string, i: nat)
    requires b != "" && IsFirstOccurrence(b, Placeholder, i)
    ensures NormalizedBaseUri(Some(b), None) == Some(b[..i] + "undefined" + b[i + |Placeholder|..])
  {
    ReplaceFirstLiteral(b, Placeholder, "undefined", i);
  }
}
