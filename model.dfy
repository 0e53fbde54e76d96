/** The parsed RAML document as the passes see it: a tree of plain objects
    whose fields the passes overwrite in place. Fields that no pass assigns
    are `const`; optional collections that are absent are empty sequences,
    since the passes treat an absent collection and an empty one alike. */
module Raml {

  import opened JsValues

  /** A URI parameter descriptor, an entry of a resource's `uriParameters`. */
  class Param {
    const key: string
    var displayName: string

    constructor (key: string, displayName: string)
      ensures this.key == key && this.displayName == displayName
    {
      this.key := key;
      this.displayName := displayName;
    }
  }

  /** A JavaScript array of parameter descriptors: one object that a resource
      and all of its methods hold by reference. */
  class ParamList {
    var items: seq<Param>

    constructor ()
      ensures items == []
    {
      items := [];
    }

    /** `list.push(p)` */
    method Push(p: Param)
      modifies this
      ensures items == old(items) + [p]
    {
      items := items + [p];
    }

    /** `list.push.apply(list, ps)`: appends every element of `ps` in order. */
    method PushAll(ps: seq<Param>)
      modifies this
      ensures items == old(items) + ps
    {
      items := items + ps;
    }
  }

  /** An HTTP method of a resource. */
  class Method {
    const verb: string
    var allUriParameters: ParamList?

    constructor (verb: string)
      ensures this.verb == verb && allUriParameters == null
    {
      this.verb := verb;
      allUriParameters := null;
    }
  }

  /** A node of the resource tree. `Below` holds the resources under it and
      `Owned` the objects under it: those resources, their methods and URI
      parameters, and this resource's own methods and URI parameters. */
  class Resource {
    var relativeUri: string
    var parentUrl: string
    var uniqueId: string
    var allUriParameters: ParamList?
    const uriParameters: seq<Param>
    const methods: seq<Method>
    const resources: seq<Resource>
    ghost const Below: set<Resource>
    ghost const Owned: set<object>
    ghost const Height: nat

    /** The subtree: this resource and every resource under it. */
    ghost function Nodes(): set<Resource> {
      {this} + Below
    }

    /** Every object of the subtree. */
    ghost function Repr(): set<object> {
      {this} + Owned
    }

    /** The objects this resource holds directly: its methods and its URI
        parameters. */
    ghost function OwnObjects(): set<object> {
      (set m: Method | m in methods :: m as object) + (set p: Param | p in uriParameters :: p as object)
    }

    /** The subtree is a tree: the children are valid trees with disjoint
        footprints, and neither this resource nor the objects it holds
        directly belong to a child. */
    ghost predicate Valid()
      decreases Height
    {
      MaxHeight(resources) <= Height
      && (forall i :: 0 <= i < |resources| ==> resources[i].Valid())
      && (forall i, j :: 0 <= i < j < |resources| ==> resources[i].Repr() !! resources[j].Repr())
      && Below == NodesOf(resources)
      && Owned == OwnObjects() + ReprOf(resources)
      && this !in ReprOf(resources)
      && OwnObjects() !! ReprOf(resources)
    }

    constructor (relativeUri: string, uriParameters: seq<Param>, methods: seq<Method>, resources: seq<Resource>)
      requires ValidForest(resources)
      requires forall i, m :: 0 <= i < |resources| && m in methods ==> m !in resources[i].Repr()
      requires forall i, p :: 0 <= i < |resources| && p in uriParameters ==> p !in resources[i].Repr()
      ensures Valid()
      ensures this.relativeUri == relativeUri && allUriParameters == null
      ensures this.uriParameters == uriParameters && this.methods == methods && this.resources == resources
    {
      this.relativeUri := relativeUri;
      parentUrl := "";
      uniqueId := "";
      allUriParameters := null;
      this.uriParameters := uriParameters;
      this.methods := methods;
      this.resources := resources;
      Below := NodesOf(resources);
      Height := MaxHeight(resources);
      Owned := (set m: Method | m in methods :: m as object) + (set p: Param | p in uriParameters :: p as object)
        + ReprOf(resources);
    }
  }

  /** Every resource of a valid subtree is itself valid, and its objects are
      objects of the subtree. */
  lemma {:induction false} SubtreeValid(r: Resource)
    requires r.Valid()
    ensures forall n :: n in r.Nodes() ==> n.Valid() && n.Repr() <= r.Repr()
    decreases r.Height
  {
    forall n | n in r.Nodes() ensures n.Valid() && n.Repr() <= r.Repr() {
      if n != r {
        var i :| 0 <= i < |r.resources| && n in r.resources[i].Nodes();
        SubtreeValid(r.resources[i]);
      }
    }
  }

  /** A node of a valid subtree is a valid subtree of it. */
  lemma {:induction false} Inside(r: Resource, n: Resource)
    requires r.Valid() && n in r.Nodes()
    ensures n.Valid() && n.Repr() <= r.Repr() && n.Nodes() <= r.Nodes()
    decreases r.Height
  {
    if n != r {
      var i :| 0 <= i < |r.resources| && n in r.resources[i].Nodes();
      Inside(r.resources[i], n);
      assert r.resources[i].Nodes() <= r.Nodes();
      assert r.resources[i].Repr() <= r.Repr();
    }
  }

  /** Every resource of a valid forest, and every method and URI parameter of
      those resources, belongs to the forest's footprint. */
  lemma {:induction false} ForestFootprint(rs: seq<Resource>)
    requires ValidForest(rs)
    ensures forall n :: n in NodesOf(rs) ==> n.Valid() && n.Repr() <= ReprOf(rs)
    ensures forall n, p :: n in NodesOf(rs) && p in n.uriParameters ==> p in ReprOf(rs)
    ensures forall n, m :: n in NodesOf(rs) && m in n.methods ==> m in ReprOf(rs)
  {
    forall n | n in NodesOf(rs)
      ensures n.Valid() && n.Repr() <= ReprOf(rs)
      ensures forall p :: p in n.uriParameters ==> p in ReprOf(rs)
      ensures forall m :: m in n.methods ==> m in ReprOf(rs)
    {
      var i :| 0 <= i < |rs| && n in rs[i].Nodes();
      SubtreeValid(rs[i]);
      assert forall p :: p in n.uriParameters ==> p in n.OwnObjects();
      assert forall m :: m in n.methods ==> m in n.OwnObjects();
    }
  }

  /** All resources of a forest. */
  ghost function NodesOf(rs: seq<Resource>): set<Resource> {
    set i, n | 0 <= i < |rs| && n in rs[i].Nodes() :: n
  }

  /** One more than the height of the tallest tree of a forest, 0 for none. */
  ghost function MaxHeight(rs: seq<Resource>): (h: nat)
    ensures forall i :: 0 <= i < |rs| ==> rs[i].Height < h
  {
    if rs == [] then 0
    else
      var h := MaxHeight(rs[..|rs| - 1]);
      assert forall i :: 0 <= i < |rs| - 1 ==> rs[..|rs| - 1][i] == rs[i];
      if rs[|rs| - 1].Height < h then h else rs[|rs| - 1].Height + 1
  }

  /** All objects of a forest. */
  ghost function ReprOf(rs: seq<Resource>): set<object> {
    set i, o | 0 <= i < |rs| && o in rs[i].Repr() :: o
  }

  /** The roots of a forest are valid trees with disjoint footprints. */
  ghost predicate ValidForest(rs: seq<Resource>) {
    (forall i :: 0 <= i < |rs| ==> rs[i].Valid())
    && (forall i, j :: 0 <= i < j < |rs| ==> rs[i].Repr() !! rs[j].Repr())
  }

  /** No tree of a valid document holds the document or one of its
      chapters. */
  lemma {:induction false} ShellOutside(doc: Document)
    requires doc.Valid()
    ensures forall j :: 0 <= j < |doc.resources| ==> doc.Shell() !! doc.resources[j].Repr()
  {
    forall j, o | 0 <= j < |doc.resources| && o in doc.resources[j].Repr() ensures o !in doc.Shell() {
      assert o in ReprOf(doc.resources);
    }
  }

  /** A top-level documentation chapter. */
  class DocSection {
    const title: string
    var uniqueId: string

    constructor (title: string)
      ensures this.title == title
    {
      this.title := title;
      uniqueId := "";
    }
  }

  /** The root object of the parsed document. `errorsAnnotation` is the field
      stored under the key `"(errors)"`. */
  class Document {
    var baseUri: Option<string>
    const version: Option<string>
    const resources: seq<Resource>
    const documentation: seq<DocSection>
    const schemas: seq<Entries<string>>
    var parsedSchemas: Option<Entries<Json>>
    var errorsAnnotation: Option<Json>
    var errors: Option<Json>

    /** The resources form a forest that contains neither the document nor
        its documentation chapters. */
    ghost predicate Valid() {
      ValidForest(resources) && this !in ReprOf(resources)
      && forall d :: d in documentation ==> d !in ReprOf(resources)
    }

    /** The document and its documentation chapters: the objects the
        passes after the walk assign to. */
    ghost function Shell(): set<object> {
      {this} + set d | d in documentation :: d as object
    }

    constructor (baseUri: Option<string>, version: Option<string>, resources: seq<Resource>,
                 documentation: seq<DocSection>, schemas: seq<Entries<string>>,
                 parsedSchemas: Option<Entries<Json>>, errorsAnnotation: Option<Json>, errors: Option<Json>)
      requires ValidForest(resources)
      requires forall d :: d in documentation ==> d !in ReprOf(resources)
      ensures Valid()
      ensures this.baseUri == baseUri && this.version == version && this.resources == resources
      ensures this.documentation == documentation && this.schemas == schemas
      ensures this.parsedSchemas == parsedSchemas && this.errorsAnnotation == errorsAnnotation
      ensures this.errors == errors
    {
      this.baseUri := baseUri;
      this.version := version;
      this.resources := resources;
      this.documentation := documentation;
      this.schemas := schemas;
      this.parsedSchemas := parsedSchemas;
      this.errorsAnnotation := errorsAnnotation;
      this.errors := errors;
    }
  }
}
