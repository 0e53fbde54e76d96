/** `_addUniqueIdsToDocs` (index.js:69-79): every top-level documentation
    chapter gets an identifier derived from its title. */
module DocIds {

  import opened JsText
  import opened Raml

  /** `title.replace(/\W/g, '-')`: the identifier as long as the title, with
      the title's word characters in place and `-` everywhere else. */
  function DocId(title: string): (id: string)
    ensures |id| == |title|
    ensures forall i :: 0 <= i < |title| && IsWordChar(title[i]) ==> id[i] == title[i]
    ensures forall i :: 0 <= i < |title| && !IsWordChar(title[i]) ==> id[i] == '-'
  {
    ReplaceNonWord(title, '-')
  }

  /** Every chapter of the document, in order, gets the identifier of its
      title; nothing else changes. */
  method AddUniqueIdsToDocs(doc: Document)
    modifies set d | d in doc.documentation
    ensures forall d :: d in doc.documentation ==> d.uniqueId == DocId(d.title)
  {
    var docs := doc.documentation;
    for i := 0 to |docs|
      invariant forall k :: 0 <= k < i ==> docs[k].uniqueId == DocId(docs[k].title)
    {
      docs[i].uniqueId := DocId(docs[i].title);
    }
  }

  /** An identifier is its own identifier: `-` is not a word character, so a
      second pass would change nothing. */
  lemma {:induction false} DocIdIdempotent(title: string)
    ensures DocId(DocId(title)) == DocId(title)
  {
    var id := DocId(title);
    forall i | 0 <= i < |id| ensures DocId(id)[i] == id[i] {
      assert IsWordChar(id[i]) || id[i] == '-';
    }
  }

  /** Titles that differ only in their non-word characters share an
      identifier. */
  lemma {:induction false} DocIdCollides(t: string, u: string)
    requires |t| == |u|
    requires forall i :: 0 <= i < |t| ==> IsWordChar(t[i]) == IsWordChar(u[i])
    requires forall i :: 0 <= i < |t| && IsWordChar(t[i]) ==> t[i] == u[i]
    ensures DocId(t) == DocId(u)
  {
    assert forall i :: 0 <= i < |t| ==> DocId(t)[i] == DocId(u)[i];
  }
}
