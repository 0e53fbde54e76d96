/** `_enhanceRamlObj` (index.js:99-105): the passes run in order on the same
    document. A schema text that does not decode raises an exception in the
    schema pass, so the passes after it do not run. */
module Enhance {

  import opened JsValues
  import opened Raml
  import opened BaseUri
  import opened ResourceWalk
  import opened DocIds
  import opened Schemas
  import opened Errors

  /** index.js:99-105. The walk's outcome is stated against the relative URIs
      and display names the document held before any pass ran; on a schema
      failure the error fields are as they were. */
  method EnhanceRamlObj(doc: Document, decode: string -> Result<Json, string>) returns (failure: Option<string>)
    requires doc.Valid()
    modifies doc.Shell(), ReprOf(doc.resources)
    ensures doc.baseUri == NormalizedBaseUri(old(doc.baseUri), doc.version)
    ensures forall j :: 0 <= j < |doc.resources| ==>
      PlacedTree(doc.resources[j], "", [], old(SnapshotOf(doc.resources, doc.Shell())))
    ensures forall d :: d in doc.documentation ==> d.uniqueId == DocId(d.title)
    ensures doc.parsedSchemas.Some?
    ensures Filled(doc.parsedSchemas.value, failure)
         == Fill(Initial(old(doc.parsedSchemas)), Flatten(doc.schemas), decode)
    ensures failure.None? ==> doc.errors == old(doc.errorsAnnotation) && doc.errorsAnnotation.None?
    ensures failure.Some? ==> doc.errors == old(doc.errors) && doc.errorsAnnotation == old(doc.errorsAnnotation)
  {
    ghost var s0 := SnapshotOf(doc.resources, doc.Shell());
    ParseBaseUri(doc);
    assert SnapshotOf(doc.resources, doc.Shell()) == s0;
    ghost var s := Traverse(doc);
    label Walked:
    failure := AfterWalk(doc, decode);
    ShellOutside(doc);
    KeepPlaced@Walked(Later(doc.resources, s, doc.Shell()));
  }

  /** index.js:102-104: the passes after the walk, which assign only to the
      document and its documentation chapters. */
  method AfterWalk(doc: Document, decode: string -> Result<Json, string>) returns (failure: Option<string>)
    modifies doc.Shell()
    ensures doc.baseUri == old(doc.baseUri)
    ensures forall d :: d in doc.documentation ==> d.uniqueId == DocId(d.title)
    ensures doc.parsedSchemas.Some?
    ensures Filled(doc.parsedSchemas.value, failure)
         == Fill(Initial(old(doc.parsedSchemas)), Flatten(doc.schemas), decode)
    ensures failure.None? ==> doc.errors == old(doc.errorsAnnotation) && doc.errorsAnnotation.None?
    ensures failure.Some? ==> doc.errors == old(doc.errors) && doc.errorsAnnotation == old(doc.errorsAnnotation)
  {
    AddUniqueIdsToDocs(doc);
    failure := ParseSchemas(doc, decode);
    if failure.None? {
      RenameErrors(doc);
    }
  }

  /** The passes after the walk and the objects they may change. */
  datatype Later = Later(rs: seq<Resource>, s: Snapshot, changed: set<object>)

  /** Passes that change only objects the walk's snapshot holds outside the
      resource trees leave the walked trees as they were. */
  twostate lemma KeepPlaced(st: Later)
    requires ValidForest(st.rs) && st.changed <= st.s.objs
    requires forall j :: 0 <= j < |st.rs| ==> st.changed !! st.rs[j].Repr()
    requires forall o: object :: old(allocated(o)) && o !in st.changed ==> unchanged(o)
    requires forall j :: 0 <= j < |st.rs| ==> old(PlacedTree(st.rs[j], "", [], st.s))
    ensures forall j :: 0 <= j < |st.rs| ==> PlacedTree(st.rs[j], "", [], st.s)
  {
    forall j | 0 <= j < |st.rs| ensures PlacedTree(st.rs[j], "", [], st.s) {
      var t := st.rs[j];
      assert old(PlacedTree(t, "", [], st.s));
      assert unchanged(t.Repr());
      assert unchanged(old(Lists(t)));
      assert Lists(t) == old(Lists(t));
    }
  }
}
