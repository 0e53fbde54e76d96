/** Values of the parsed document that the passes only move around: optional
    fields, decoded structured data, and plain JavaScript objects used as
    ordered dictionaries (the shape of `parsedSchemas`). */
module JsValues {

  datatype Option<+T> = None | Some(value: T)

  datatype Result<+T, +E> = Ok(value: T) | Err(error: E)

  /** A decoded structured value, as a JSON decoder returns it. */
  datatype Json =
    | JNull
    | JBool(b: bool)
    | JNumber(n: real)
    | JString(s: string)
    | JArray(items: seq<Json>)
    | JObject(fields: seq<(string, Json)>)

  /** A plain object as an ordered dictionary: own enumerable keys in
      insertion order, each with its value. */
  type Entries<V> = seq<(string, V)>

  predicate HasKey<V>(m: Entries<V>, k: string) {
    exists i :: 0 <= i < |m| && m[i].0 == k
  }

  /** No key occurs twice, as in every JavaScript object. */
  predicate KeysUnique<V>(m: Entries<V>) {
    forall i, j :: 0 <= i < j < |m| ==> m[i].0 != m[j].0
  }

  /** Reading `m[k]`: the value of the first entry whose key is `k`. */
  function Lookup<V>(m: Entries<V>, k: string): (r: Option<V>)
    ensures r.None? <==> !HasKey(m, k)
    ensures r.Some? ==> exists i :: 0 <= i < |m| && m[i] == (k, r.value)
  {
    if m == [] then None
    else if m[0].0 == k then Some(m[0].1)
    else
      var r := Lookup(m[1..], k);
      assert HasKey(m, k) ==> HasKey(m[1..], k) by {
        if HasKey(m, k) {
          var i :| 0 <= i < |m| && m[i].0 == k;
          assert m[1..][i - 1].0 == k;
        }
      }
      assert r.Some? ==> exists i :: 0 <= i < |m| && m[i] == (k, r.value) by {
        if r.Some? {
          var i :| 0 <= i < |m[1..]| && m[1..][i] == (k, r.value);
          assert m[i + 1] == (k, r.value);
        }
      }
      r
  }

  /** Assigning `m[k] = v`: an existing key keeps its place and takes the new
      value; a new key is appended at the end. */
  function Assign<V>(m: Entries<V>, k: string, v: V): (r: Entries<V>)
    decreases |m|
  {
    if m == [] then [(k, v)]
    else if m[0].0 == k then [(k, v)] + m[1..]
    else [m[0]] + Assign(m[1..], k, v)
  }

  lemma {:induction false} AssignLookup<V>(m: Entries<V>, k: string, v: V, q: string)
    ensures Lookup(Assign(m, k, v), q) == if q == k then Some(v) else Lookup(m, q)
    decreases |m|
  {
    if m != [] && m[0].0 != k {
      AssignLookup(m[1..], k, v, q);
      assert Assign(m, k, v)[1..] == Assign(m[1..], k, v);
    }
  }

  /** Assigning never duplicates a key, and changes the length only when the
      key is new. */
  lemma {:induction false} AssignKeysUnique<V>(m: Entries<V>, k: string, v: V)
    requires KeysUnique(m)
    ensures KeysUnique(Assign(m, k, v))
    ensures |Assign(m, k, v)| == if HasKey(m, k) then |m| else |m| + 1
    decreases |m|
  {
    if m == [] {
    } else if m[0].0 == k {
      assert HasKey(m, k);
    } else {
      var t := m[1..];
      assert KeysUnique(t) by {
        forall i, j | 0 <= i < j < |t| ensures t[i].0 != t[j].0 {
          assert t[i] == m[i + 1] && t[j] == m[j + 1];
        }
      }
      AssignKeysUnique(t, k, v);
      AssignKeysOnly(t, k, v);
      var a := Assign(t, k, v);
      var r := Assign(m, k, v);
      assert r == [m[0]] + a;
      forall i, j | 0 <= i < j < |r| ensures r[i].0 != r[j].0 {
        if i == 0 {
          assert r[j] == a[j - 1];
          if a[j - 1].0 == k {
          } else {
            var e :| 0 <= e < |t| && t[e].0 == a[j - 1].0;
            assert t[e] == m[e + 1];
          }
        } else {
          assert r[i] == a[i - 1] && r[j] == a[j - 1];
        }
      }
      assert HasKey(m, k) <==> HasKey(t, k) by {
        if HasKey(m, k) {
          var e :| 0 <= e < |m| && m[e].0 == k;
          assert t[e - 1] == m[e];
        }
        if HasKey(t, k) {
          var e :| 0 <= e < |t| && t[e].0 == k;
          assert m[e + 1] == t[e];
        }
      }
    }
  }

  /** Every key of the result is `k` or a key that was already there. */
  lemma {:induction false} AssignKeysOnly<V>(m: Entries<V>, k: string, v: V)
    ensures forall i :: 0 <= i < |Assign(m, k, v)| ==>
      Assign(m, k, v)[i].0 == k || exists e :: 0 <= e < |m| && m[e].0 == Assign(m, k, v)[i].0
    decreases |m|
  {
    if m != [] && m[0].0 != k {
      AssignKeysOnly(m[1..], k, v);
      var a := Assign(m[1..], k, v);
      var r := Assign(m, k, v);
      forall i | 0 <= i < |r|
        ensures r[i].0 == k || exists e :: 0 <= e < |m| && m[e].0 == r[i].0
      {
        if i == 0 {
          assert m[0].0 == r[0].0;
        } else {
          assert r[i] == a[i - 1];
          if a[i - 1].0 != k {
            var e :| 0 <= e < |m[1..]| && m[1..][e].0 == a[i - 1].0;
            assert m[e + 1].0 == r[i].0;
          }
        }
      }
    }
  }
}
