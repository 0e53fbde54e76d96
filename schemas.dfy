/** `_parseSchemas` (index.js:81-90): every schema text of every schema group
    is decoded and stored under its name in `parsedSchemas`. The JSON decoder
    is a parameter: it either yields a value or fails with a message, and a
    failure is the exception that ends the pass where it occurs. */
module Schemas {

  import opened JsValues
  import opened Raml

  /** The schema entries in the order the two loops visit them: group by
      group, each group's entries in its key order. */
  function Flatten(groups: seq<Entries<string>>): Entries<string> {
    if groups == [] then [] else groups[0] + Flatten(groups[1..])
  }

  lemma {:induction false} FlattenAppend(a: seq<Entries<string>>, b: seq<Entries<string>>)
    ensures Flatten(a + b) == Flatten(a) + Flatten(b)
  {
    if a != [] {
      assert (a + b)[0] == a[0] && (a + b)[1..] == a[1..] + b;
      FlattenAppend(a[1..], b);
    } else {
      assert a + b == b;
    }
  }

  lemma {:induction false} SplitAt<T>(s: seq<T>, k: nat)
    requires k <= |s|
    ensures s == s[..k] + s[k..]
  {
  }

  /** The table the pass starts from: `parsedSchemas || {}`. */
  function Initial(parsed: Option<Entries<Json>>): Entries<Json> {
    match parsed
    case Some(m) => m
    case None => []
  }

  /** The table after the pass and, when a text failed to decode, the
      decoder's message. */
  datatype Filled = Filled(parsed: Entries<Json>, failure: Option<string>)

  /** The assignments of the inner loop body, one entry after the other,
      stopping at the first text that does not decode. */
  function Fill(acc: Entries<Json>, items: Entries<string>, decode: string -> Result<Json, string>): Filled
    decreases |items|
  {
    if items == [] then Filled(acc, None)
    else
      match decode(items[0].1)
      case Err(e) => Filled(acc, Some(e))
      case Ok(v) => Fill(Assign(acc, items[0].0, v), items[1..], decode)
  }

  /** The pass succeeds if and only if every text decodes. */
  lemma {:induction false} FillSucceeds(acc: Entries<Json>, items: Entries<string>,
                                        decode: string -> Result<Json, string>)
    ensures Fill(acc, items, decode).failure.None? <==> forall i :: 0 <= i < |items| ==> decode(items[i].1).Ok?
    decreases |items|
  {
    if items != [] {
      match decode(items[0].1)
      case Err(_) =>
      case Ok(v) =>
        FillSucceeds(Assign(acc, items[0].0, v), items[1..], decode);
        assert forall i :: 1 <= i < |items| ==> items[i] == items[1..][i - 1];
    }
  }

  /** Filling a concatenation fills the first part, then the second unless
      the first failed. */
  lemma {:induction false} FillAppend(acc: Entries<Json>, xs: Entries<string>, ys: Entries<string>,
                                      decode: string -> Result<Json, string>)
    ensures Fill(acc, xs, decode).failure.Some? ==> Fill(acc, xs + ys, decode) == Fill(acc, xs, decode)
    ensures Fill(acc, xs, decode).failure.None? ==>
      Fill(acc, xs + ys, decode) == Fill(Fill(acc, xs, decode).parsed, ys, decode)
    decreases |xs|
  {
    if xs == [] {
      assert xs + ys == ys;
    } else {
      assert (xs + ys)[0] == xs[0] && (xs + ys)[1..] == xs[1..] + ys;
      match decode(xs[0].1)
      case Err(_) =>
      case Ok(v) => FillAppend(Assign(acc, xs[0].0, v), xs[1..], ys, decode);
    }
  }

  /** A name that no entry has keeps its old value, or stays absent. */
  lemma {:induction false} FillKeeps(acc: Entries<Json>, items: Entries<string>,
                                     decode: string -> Result<Json, string>, q: string)
    requires !HasKey(items, q)
    ensures Lookup(Fill(acc, items, decode).parsed, q) == Lookup(acc, q)
    decreases |items|
  {
    if items != [] {
      assert items[0].0 != q;
      match decode(items[0].1)
      case Err(_) =>
      case Ok(v) =>
        assert !HasKey(items[1..], q) by {
          forall i | 0 <= i < |items[1..]| ensures items[1..][i].0 != q {
            assert items[1..][i] == items[i + 1];
          }
        }
        FillKeeps(Assign(acc, items[0].0, v), items[1..], decode, q);
        AssignLookup(acc, items[0].0, v, q);
    }
  }

  /** What the pass does to a name that no schema group mentions, whether
      it succeeds or fails: an existing table keeps that name's entry, and
      without a table the name stays absent. */
  lemma {:induction false} UnnamedKept(parsed: Option<Entries<Json>>, groups: seq<Entries<string>>,
                                       decode: string -> Result<Json, string>, q: string)
    requires !HasKey(Flatten(groups), q)
    ensures parsed.Some? ==> Lookup(Fill(Initial(parsed), Flatten(groups), decode).parsed, q) == Lookup(parsed.value, q)
    ensures parsed.None? ==> !HasKey(Fill(Initial(parsed), Flatten(groups), decode).parsed, q)
  {
    FillKeeps(Initial(parsed), Flatten(groups), decode, q);
  }

  /** After a successful pass a name holds the decoded text of its last
      entry: a later group overrides an earlier one. */
  lemma {:induction false} FillLastWins(acc: Entries<Json>, items: Entries<string>,
                                        decode: string -> Result<Json, string>, i: nat)
    requires Fill(acc, items, decode).failure.None?
    requires i < |items| && forall j :: i < j < |items| ==> items[j].0 != items[i].0
    ensures decode(items[i].1).Ok?
    ensures Lookup(Fill(acc, items, decode).parsed, items[i].0) == Some(decode(items[i].1).value)
  {
    FillSucceeds(acc, items, decode);
    var q := items[i].0;
    var before, rest := items[..i + 1], items[i + 1..];
    assert items == before + rest;
    assert before == items[..i] + [items[i]];
    FillAppend(acc, before, rest, decode);
    FillAppend(acc, items[..i], [items[i]], decode);
    var mid := Fill(acc, items[..i], decode).parsed;
    var v := decode(items[i].1).value;
    assert [items[i]][1..] == [];
    assert Fill(acc, before, decode).parsed == Assign(mid, q, v);
    assert !HasKey(rest, q) by {
      forall j | 0 <= j < |rest| ensures rest[j].0 != q {
        assert rest[j] == items[i + 1 + j];
      }
    }
    FillKeeps(Assign(mid, q, v), rest, decode, q);
    AssignLookup(mid, q, v, q);
  }

  /** A failing pass stops at the first text that does not decode and keeps
      every assignment made before it. */
  lemma {:induction false} FailureAt(acc: Entries<Json>, items: Entries<string>,
                                     decode: string -> Result<Json, string>) returns (i: nat)
    requires Fill(acc, items, decode).failure.Some?
    ensures i < |items| && decode(items[i].1) == Err(Fill(acc, items, decode).failure.value)
    ensures forall j :: 0 <= j < i ==> decode(items[j].1).Ok?
    ensures Fill(acc, items[..i], decode) == Filled(Fill(acc, items, decode).parsed, None)
    decreases |items|
  {
    match decode(items[0].1)
    case Err(_) =>
      i := 0;
      assert items[..0] == [];
    case Ok(v) =>
      var rest := items[1..];
      var k := FailureAt(Assign(acc, items[0].0, v), rest, decode);
      i := k + 1;
      assert items[..i][0] == items[0] && items[..i][1..] == rest[..k];
      forall j | 0 <= j < i ensures decode(items[j].1).Ok? {
        if j > 0 {
          assert items[j] == rest[j - 1];
        }
      }
  }

  /** Assigning keeps the table a proper object: no name appears twice. */
  lemma {:induction false} FillKeysUnique(acc: Entries<Json>, items: Entries<string>,
                                          decode: string -> Result<Json, string>)
    requires KeysUnique(acc)
    ensures KeysUnique(Fill(acc, items, decode).parsed)
    decreases |items|
  {
    if items != [] {
      match decode(items[0].1)
      case Err(_) =>
      case Ok(v) =>
        AssignKeysUnique(acc, items[0].0, v);
        FillKeysUnique(Assign(acc, items[0].0, v), items[1..], decode);
    }
  }

  /** The pass itself: the outer loop over the schema groups. On a decoding
      failure the table keeps the assignments made so far and the failure is
      returned. */
  method ParseSchemas(doc: Document, decode: string -> Result<Json, string>) returns (failure: Option<string>)
    modifies doc`parsedSchemas
    ensures doc.parsedSchemas.Some?
    ensures Filled(doc.parsedSchemas.value, failure)
         == Fill(Initial(old(doc.parsedSchemas)), Flatten(doc.schemas), decode)
  {
    var init := Initial(doc.parsedSchemas);
    doc.parsedSchemas := Some(init);
    var groups := doc.schemas;
    for g := 0 to |groups|
      invariant doc.parsedSchemas.Some?
      invariant Fill(init, Flatten(groups[..g]), decode) == Filled(doc.parsedSchemas.value, None)
    {
      ghost var done := Flatten(groups[..g]);
      failure := ParseGroup(doc, groups[g], decode);
      FillAppend(init, done, groups[g], decode);
      assert Flatten(groups[..g + 1]) == done + groups[g] by {
        assert groups[..g + 1] == groups[..g] + [groups[g]];
        FlattenAppend(groups[..g], [groups[g]]);
        assert [groups[g]][1..] == [];
      }
      if failure.Some? {
        assert Flatten(groups) == (done + groups[g]) + Flatten(groups[g + 1..]) by {
          SplitAt(groups, g + 1);
          FlattenAppend(groups[..g + 1], groups[g + 1..]);
        }
        FillAppend(init, done + groups[g], Flatten(groups[g + 1..]), decode);
        return;
      }
    }
    assert groups[..|groups|] == groups;
    return None;
  }

  /** The inner loop: the entries of one group, assigned in order until a
      text fails to decode. */
  method ParseGroup(doc: Document, group: Entries<string>, decode: string -> Result<Json, string>)
    returns (failure: Option<string>)
    requires doc.parsedSchemas.Some?
    modifies doc`parsedSchemas
    ensures doc.parsedSchemas.Some?
    ensures Filled(doc.parsedSchemas.value, failure) == Fill(old(doc.parsedSchemas.value), group, decode)
  {
    ghost var start := doc.parsedSchemas.value;
    assert group[..0] == [];
    for k := 0 to |group|
      invariant doc.parsedSchemas.Some?
      invariant Fill(start, group[..k], decode) == Filled(doc.parsedSchemas.value, None)
    {
      var name, text := group[k].0, group[k].1;
      var decoded := decode(text);
      assert group[..k + 1] == group[..k] + [group[k]];
      FillAppend(start, group[..k], [group[k]], decode);
      assert [group[k]][1..] == [];
      if decoded.Err? {
        SplitAt(group, k + 1);
        FillAppend(start, group[..k + 1], group[k + 1..], decode);
        return Some(decoded.error);
      }
      doc.parsedSchemas := Some(Assign(doc.parsedSchemas.value, name, decoded.value));
    }
    assert group[..|group|] == group;
    return None;
  }
}
