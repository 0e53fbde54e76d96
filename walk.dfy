/** The resource tree walker, `_traverse`: a depth-first pre-order walk that
    hands each resource the URL of its parent and the parameter list it
    inherits, and sets on it `parentUrl`, `uniqueId`, the normalized
    `relativeUri` and a fresh `allUriParameters` list that its methods share. */
module ResourceWalk {

  import opened Naming
  import opened Raml
  import opened JsText

  /** The relative URIs and display names of a tree as the parser left them,
      before the walk rewrites them, and the objects the tree was made of. */
  datatype Snapshot = Snapshot(uris: map<Resource, string>, names: map<Param, string>, objs: set<object>)

  /** The snapshot holds the current relative URI of `n` and the current
      display names of its URI parameters. */
  ghost predicate Recorded(n: Resource, s: Snapshot)
    reads n, set p | p in n.uriParameters
  {
    n in s.uris && s.uris[n] == n.relativeUri
    && forall p :: p in n.uriParameters ==> p in s.names && s.names[p] == p.displayName
  }

  /** What the walk leaves on resource `n`, on its methods and on its URI
      parameters, against the values `s` recorded before: the identifier
      taken from the un-normalized relative URI, the normalized relative URI,
      the stripped display names, and every method holding the resource's own
      list. */
  ghost predicate Walked(n: Resource, s: Snapshot)
    reads n, set p | p in n.uriParameters, set m | m in n.methods
  {
    n.allUriParameters != null && n in s.uris
    && n.uniqueId == MakeUniqueId(n.parentUrl, s.uris[n])
    && n.relativeUri == StripUriDigit(s.uris[n])
    && (forall p :: p in n.uriParameters ==>
          p in s.names && p.displayName == StripDisplayNameDigit(s.names[p]))
    && (forall m :: m in n.methods ==> m.allUriParameters == n.allUriParameters)
  }

  /** What the walk leaves on a resource visited with `parentUrl` and the
      inherited parameters `inherited`. */
  ghost predicate Placed(r: Resource, parentUrl: string, inherited: seq<Param>)
    reads r, r.allUriParameters
  {
    r.parentUrl == parentUrl && r.allUriParameters != null
    && r.allUriParameters.items == inherited + r.uriParameters
  }

  /** The relation between a visited resource `n` and its child `c`. */
  ghost predicate Linked(n: Resource, c: Resource)
    reads n, c, n.allUriParameters, c.allUriParameters
  {
    n.allUriParameters != null && Placed(c, n.parentUrl + n.relativeUri, n.allUriParameters.items)
  }

  /** index.js:45-52: strips the digit from each declared parameter's display
      name, whose value before the walk `names` records, and appends the
      parameter to the resource's list. */
  method CollectUriParameters(list: ParamList, ps: seq<Param>, ghost names: map<Param, string>)
    requires forall p :: p in ps ==> p in names && names[p] == p.displayName
    modifies list, set p | p in ps
    ensures list.items == old(list.items) + ps
    ensures forall p :: p in ps ==> p.displayName == StripDisplayNameDigit(names[p])
  {
    for i := 0 to |ps|
      invariant list.items == old(list.items) + ps[..i]
      invariant forall p :: p in ps ==>
        p.displayName == if p in ps[..i] then StripDisplayNameDigit(names[p]) else names[p]
    {
      var p := ps[i];
      if p in ps[..i] {
        StripDisplayNameIdempotent(names[p]);
      }
      p.displayName := StripDisplayNameDigit(p.displayName);
      list.Push(p);
      assert ps[..i + 1] == ps[..i] + [p];
    }
    assert ps[..|ps|] == ps;
  }

  /** index.js:54-60: every method gets the resource's list itself, not a copy. */
  method ShareListWithMethods(ms: seq<Method>, list: ParamList)
    modifies set m | m in ms
    ensures forall m :: m in ms ==> m.allUriParameters == list
  {
    for i := 0 to |ms|
      invariant forall k :: 0 <= k < i ==> ms[k].allUriParameters == list
    {
      ms[i].allUriParameters := list;
    }
  }

  /** index.js:35-37: the parent URL, the identifier taken from the relative
      URI `u` as the parser left it, and the normalized relative URI. */
  method NameResource(r: Resource, parentUrl: string, ghost u: string)
    requires r.relativeUri == u
    modifies r`parentUrl, r`uniqueId, r`relativeUri
    ensures r.parentUrl == parentUrl && r.uniqueId == MakeUniqueId(parentUrl, u)
    ensures r.relativeUri == StripUriDigit(u)
  {
    r.parentUrl := parentUrl;
    r.uniqueId := MakeUniqueId(r.parentUrl, r.relativeUri);
    r.relativeUri := StripUriDigit(r.relativeUri);
  }

  /** index.js:39-60: a fresh list holding the inherited parameters and then
      the resource's own, with the display names stripped, shared with every
      method of the resource. */
  method AttachList(r: Resource, inherited: seq<Param>, ghost names: map<Param, string>)
    requires forall p :: p in r.uriParameters ==> p in names && names[p] == p.displayName
    modifies r`allUriParameters, set p | p in r.uriParameters, set m | m in r.methods
    ensures r.allUriParameters != null && fresh(r.allUriParameters)
    ensures r.allUriParameters.items == inherited + r.uriParameters
    ensures forall p :: p in r.uriParameters ==> p.displayName == StripDisplayNameDigit(names[p])
    ensures forall m :: m in r.methods ==> m.allUriParameters == r.allUriParameters
  {
    var list := new ParamList();
    r.allUriParameters := list;
    list.PushAll(inherited);
    CollectUriParameters(list, r.uriParameters, names);
    ShareListWithMethods(r.methods, list);
  }

  /** index.js:35-60: the fields the walk sets on one resource and on its
      methods and URI parameters, before it descends. */
  method EnrichResource(r: Resource, parentUrl: string, inherited: seq<Param>, ghost s: Snapshot)
    requires Recorded(r, s)
    modifies r, set p | p in r.uriParameters, set m | m in r.methods
    ensures Placed(r, parentUrl, inherited) && fresh(r.allUriParameters) && Walked(r, s)
    ensures r.allUriParameters !in s.objs
  {
    NameResource(r, parentUrl, s.uris[r]);
    AttachList(r, inherited, s.names);
  }

  /** Every node of a subtree holds its recorded values. */
  ghost predicate TreeRecorded(t: Resource, s: Snapshot)
    reads t.Repr()
  {
    t.Valid() && forall n :: n in t.Nodes() ==> (NodeInside(t, n); Recorded(n, s))
  }

  /** The parameter lists the resources of a subtree hold. */
  ghost function Lists(t: Resource): set<object>
    reads t.Repr()
  {
    if t.Valid() then
      NodesInRepr(t);
      set n: Resource | n in t.Nodes() && n.allUriParameters != null :: n.allUriParameters as object
    else {}
  }

  /** What the walk leaves on a subtree: every node is walked and linked to
      each of its children, and no list is an object of the original tree. */
  ghost predicate TreeWalked(t: Resource, s: Snapshot)
    reads t.Repr(), Lists(t)
  {
    t.Valid() && Lists(t) !! s.objs
    && forall n :: n in t.Nodes() ==> (NodeInside(t, n); ListsOf(t, n); NodeWalked(n, s))
  }

  /** Resource `n` is walked and each of its children is placed under it. */
  ghost predicate NodeWalked(n: Resource, s: Snapshot)
    reads n, (set p | p in n.uriParameters), (set m | m in n.methods), n.allUriParameters
    reads (set c | c in n.resources), (set c | c in n.resources :: c.allUriParameters)
  {
    Walked(n, s) && forall c :: c in n.resources ==> Linked(n, c)
  }

  /** What the walk leaves on a subtree it visited with `parentUrl` and the
      inherited parameters `inherited`. */
  ghost predicate PlacedTree(t: Resource, parentUrl: string, inherited: seq<Param>, s: Snapshot)
    reads t.Repr(), Lists(t), t.allUriParameters
  {
    Placed(t, parentUrl, inherited) && t.allUriParameters !in s.objs && TreeWalked(t, s)
  }

  /** A node of a valid tree, its URI parameters, its methods and its children
      are objects of the tree, and its children are nodes of the tree. */
  lemma {:induction false} NodeInside(t: Resource, n: Resource)
    requires t.Valid() && n in t.Nodes()
    ensures n.Valid() && n in t.Repr()
    ensures forall p :: p in n.uriParameters ==> p in t.Repr()
    ensures forall m :: m in n.methods ==> m in t.Repr()
    ensures forall c :: c in n.resources ==> c in t.Nodes() && c in t.Repr()
  {
    Inside(t, n);
    assert n in n.Repr();
    assert forall p :: p in n.uriParameters ==> p in n.OwnObjects();
    assert forall m :: m in n.methods ==> m in n.OwnObjects();
    forall c | c in n.resources ensures c in t.Nodes() && c in t.Repr() {
      assert c in c.Nodes() && c in c.Repr();
      assert c in NodesOf(n.resources);
      assert c.Repr() <= ReprOf(n.resources);
    }
  }

  lemma {:induction false} NodesInRepr(t: Resource)
    requires t.Valid()
    ensures t.Nodes() <= t.Repr()
  {
    forall n | n in t.Nodes() ensures n in t.Repr() {
      Inside(t, n);
      assert n in n.Repr();
    }
  }

  /** The lists that a node of a tree and its children hold are lists of
      the tree. */
  lemma {:induction false} ListsOf(t: Resource, n: Resource)
    requires t.Valid() && n in t.Nodes()
    ensures n.allUriParameters != null ==> n.allUriParameters in Lists(t)
    ensures forall c :: c in n.resources && c.allUriParameters != null ==> c.allUriParameters in Lists(t)
  {
    NodeInside(t, n);
  }

  /** index.js:33-62, one resource: its own fields, then its children. */
  method Visit(r: Resource, parentUrl: string, inherited: seq<Param>, ghost s: Snapshot)
    requires r.Valid() && r.Repr() <= s.objs && TreeRecorded(r, s)
    modifies r.Repr()
    decreases r.Height, 2
    ensures PlacedTree(r, parentUrl, inherited, s) && fresh(r.allUriParameters)
  {
    var rs := r.resources;
    SplitRecorded(r, s);
    assert forall p :: p in r.uriParameters ==> p in r.OwnObjects();
    assert forall m :: m in r.methods ==> m in r.OwnObjects();
    EnrichResource(r, parentUrl, inherited, s);
    assert r !in ReprOf(rs) && r.allUriParameters !in ReprOf(rs);
    TraverseAll(rs, r.parentUrl + r.relativeUri, r.allUriParameters.items, s);
    JoinWalked(r, s);
  }

  /** `_traverse(ramlObj, parentUrl, allUriParameters)`: visits the resources
      of a forest in order. */
  method TraverseAll(rs: seq<Resource>, parentUrl: string, inherited: seq<Param>, ghost s: Snapshot)
    requires ValidForest(rs) && ReprOf(rs) <= s.objs
    requires forall j :: 0 <= j < |rs| ==> TreeRecorded(rs[j], s)
    modifies ReprOf(rs)
    decreases MaxHeight(rs), 1
    ensures forall j :: 0 <= j < |rs| ==> PlacedTree(rs[j], parentUrl, inherited, s)
  {
    for i := 0 to |rs|
      invariant forall j :: 0 <= j < i ==> PlacedTree(rs[j], parentUrl, inherited, s)
      invariant forall j :: i <= j < |rs| ==> TreeRecorded(rs[j], s)
    {
      assert rs[i].Repr() <= ReprOf(rs);
      VisitAt(rs, i, parentUrl, inherited, s);
    }
  }

  /** One iteration of the loop of `_traverse`: visits the tree at `i`,
      which leaves the trees before it walked and those after it recorded. */
  method VisitAt(rs: seq<Resource>, i: nat, parentUrl: string, inherited: seq<Param>, ghost s: Snapshot)
    requires ValidForest(rs) && ReprOf(rs) <= s.objs && i < |rs|
    requires forall j :: 0 <= j < i ==> PlacedTree(rs[j], parentUrl, inherited, s)
    requires forall j :: i <= j < |rs| ==> TreeRecorded(rs[j], s)
    modifies rs[i].Repr()
    decreases MaxHeight(rs), 0
    ensures forall j :: 0 <= j <= i ==> PlacedTree(rs[j], parentUrl, inherited, s)
    ensures forall j :: i < j < |rs| ==> TreeRecorded(rs[j], s)
  {
    assert rs[i].Repr() <= ReprOf(rs);
    Visit(rs[i], parentUrl, inherited, s);
    assert PlacedTree(rs[i], parentUrl, inherited, s);
    KeepOthers(Step(rs, i, parentUrl, inherited, s));
  }

  /** One step of the walk over a forest: the visit of the tree at `at`,
      with the arguments the forest was walked with. */
  datatype Step = Step(rs: seq<Resource>, at: nat, parentUrl: string, inherited: seq<Param>, s: Snapshot)

  /** A step that changed only objects of the tree it visited leaves the
      trees before that tree walked and the trees after it recorded. */
  twostate lemma KeepOthers(st: Step)
    requires ValidForest(st.rs) && st.at < |st.rs| && st.rs[st.at].Repr() <= st.s.objs
    requires forall o: object :: old(allocated(o)) && o !in st.rs[st.at].Repr() ==> unchanged(o)
    requires old(forall j :: 0 <= j < st.at ==> PlacedTree(st.rs[j], st.parentUrl, st.inherited, st.s))
    requires old(forall j :: st.at < j < |st.rs| ==> TreeRecorded(st.rs[j], st.s))
    ensures forall j :: 0 <= j < st.at ==> PlacedTree(st.rs[j], st.parentUrl, st.inherited, st.s)
    ensures forall j :: st.at < j < |st.rs| ==> TreeRecorded(st.rs[j], st.s)
  {
    forall j | 0 <= j < st.at ensures PlacedTree(st.rs[j], st.parentUrl, st.inherited, st.s) {
      assert unchanged(st.rs[j].Repr());
      assert unchanged(old(Lists(st.rs[j])));
      assert Lists(st.rs[j]) == old(Lists(st.rs[j]));
    }
    forall j | st.at < j < |st.rs| ensures TreeRecorded(st.rs[j], st.s) {
      assert unchanged(st.rs[j].Repr());
    }
  }

  /** The recorded values of a tree are those of its root and of its
      children's subtrees. */
  lemma {:induction false} SplitRecorded(r: Resource, s: Snapshot)
    requires r.Valid() && TreeRecorded(r, s)
    ensures Recorded(r, s)
    ensures forall j :: 0 <= j < |r.resources| ==> TreeRecorded(r.resources[j], s)
  {
    assert r in r.Nodes();
    forall j | 0 <= j < |r.resources| ensures TreeRecorded(r.resources[j], s) {
      assert r.resources[j] in r.resources[j].Nodes();
      Inside(r, r.resources[j]);
    }
  }

  /** A walked root whose children's subtrees are walked and placed under it
      makes a walked tree. */
  lemma {:induction false} JoinWalked(r: Resource, s: Snapshot)
    requires r.Valid() && Walked(r, s) && r.allUriParameters !in s.objs
    requires forall j :: 0 <= j < |r.resources| ==>
      PlacedTree(r.resources[j], r.parentUrl + r.relativeUri, r.allUriParameters.items, s)
    ensures TreeWalked(r, s)
  {
    var rs := r.resources;
    JoinLists(r, s);
    forall n | n in r.Nodes() ensures NodeWalked(n, s) {
      if n == r {
        forall c | c in r.resources ensures Linked(r, c) {
          var j :| 0 <= j < |rs| && c == rs[j];
        }
      } else {
        var j := ChildOf(r, n);
        assert TreeWalked(rs[j], s);
      }
    }
  }

  /** The index of the child whose subtree holds a resource below the root. */
  lemma {:induction false} ChildOf(r: Resource, n: Resource) returns (j: nat)
    requires r.Valid() && n in r.Nodes() && n != r
    ensures j < |r.resources| && n in r.resources[j].Nodes()
  {
    j :| 0 <= j < |r.resources| && n in r.resources[j].Nodes();
  }

  /** The lists of a tree are the root's and those of its children's
      subtrees, so they stay apart from the original objects. */
  lemma {:induction false} JoinLists(r: Resource, s: Snapshot)
    requires r.Valid() && r.allUriParameters !in s.objs
    requires forall j :: 0 <= j < |r.resources| ==> TreeWalked(r.resources[j], s)
    ensures Lists(r) !! s.objs
  {
    forall o | o in Lists(r) ensures o !in s.objs {
      var n: Resource :| n in r.Nodes() && n.allUriParameters != null && o == n.allUriParameters;
      if n != r {
        var j := ChildOf(r, n);
        ListsOf(r.resources[j], n);
      }
    }
  }

  /** The URI parameters of the resources of a forest. */
  ghost function ParamsOf(rs: seq<Resource>): set<Param> {
    set n, p | n in NodesOf(rs) && p in n.uriParameters :: p
  }

  /** The relative URIs and display names of a forest as they are now, and
      its objects together with the objects `others` that hold it. */
  ghost function SnapshotOf(rs: seq<Resource>, others: set<object>): Snapshot
    requires ValidForest(rs)
    reads ReprOf(rs)
  {
    ForestFootprint(rs);
    Snapshot(map n | n in NodesOf(rs) :: n.relativeUri,
             map p | p in ParamsOf(rs) :: p.displayName,
             ReprOf(rs) + others)
  }

  /** The snapshot of a forest records every tree of it. */
  lemma {:induction false} SnapshotRecords(rs: seq<Resource>, others: set<object>)
    requires ValidForest(rs)
    ensures forall j :: 0 <= j < |rs| ==> TreeRecorded(rs[j], SnapshotOf(rs, others))
  {
    var s := SnapshotOf(rs, others);
    forall j | 0 <= j < |rs| ensures TreeRecorded(rs[j], s) {
      forall n | n in rs[j].Nodes() ensures Recorded(n, s) {
        assert n in NodesOf(rs);
        assert forall p :: p in n.uriParameters ==> p in ParamsOf(rs);
      }
    }
  }

  /** `_traverse(ramlObj)` as `_enhanceRamlObj` calls it (index.js:101): the
      top-level resources get the empty parent URL and inherit no
      parameters, and every tree is walked against the values the parser
      left in it. The snapshot's objects include the document and its
      documentation chapters, so no list the walk creates is one of them. */
  method Traverse(doc: Document) returns (ghost s: Snapshot)
    requires doc.Valid()
    modifies ReprOf(doc.resources)
    ensures s == old(SnapshotOf(doc.resources, doc.Shell()))
    ensures forall j :: 0 <= j < |doc.resources| ==> PlacedTree(doc.resources[j], "", [], s)
  {
    s := SnapshotOf(doc.resources, doc.Shell());
    SnapshotRecords(doc.resources, doc.Shell());
    TraverseAll(doc.resources, "", [], s);
  }

  /** What a walked tree says about each of its resources: the identifier
      is made of word characters and does not start with `_`, and it and
      the relative URI come from the recorded relative URI; each parameter's
      display name is stripped; every method shares the resource's list; and
      every child has the parent's URL with the normalized relative URI as
      its parent URL, and the parent's parameters followed by its own as its
      list. */
  lemma {:induction false} WalkedResource(t: Resource, s: Snapshot, n: Resource)
    requires TreeWalked(t, s) && n in t.Nodes()
    ensures n.allUriParameters != null && n in s.uris
    ensures n.uniqueId == MakeUniqueId(n.parentUrl, s.uris[n])
    ensures (forall i :: 0 <= i < |n.uniqueId| ==> IsWordChar(n.uniqueId[i])) && (n.uniqueId == [] || n.uniqueId[0] != '_')
    ensures n.relativeUri == StripUriDigit(s.uris[n])
    ensures forall p :: p in n.uriParameters ==> p in s.names && p.displayName == StripDisplayNameDigit(s.names[p])
    ensures forall m :: m in n.methods ==> m.allUriParameters == n.allUriParameters
    ensures forall c :: c in n.resources ==>
      c.parentUrl == n.parentUrl + n.relativeUri && c.allUriParameters != null
      && c.allUriParameters.items == n.allUriParameters.items + c.uriParameters
  {
    NodeInside(t, n);
    assert NodeWalked(n, s);
    UniqueIdIsWord(n.parentUrl, s.uris[n]);
  }
}
