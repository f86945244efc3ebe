/**
 * `URLSearchParams` as an ordered list of name/value pairs, with the three
 * mutations the filters drawer uses (`delete`, `set`, `append`) and
 * `toString()`.  Percent-encoding and parsing are not modelled: names and
 * values are taken as already encoded.
 */
module QueryParams {
  import opened Wrappers

  datatype Param = Param(name: string, value: string)

  /** `params.delete(name)`: drops every pair with that name, keeping the rest in order. */
  function Delete(q: seq<Param>, name: string): (r: seq<Param>)
    ensures forall p :: p in r <==> p in q && p.name != name
    ensures forall m :: m != name ==> GetAll(r, m) == GetAll(q, m)
    ensures |r| <= |q|
  {
    if q == [] then []
    else if q[0].name == name then Delete(q[1..], name)
    else
      assert q == [q[0]] + q[1..];
      var rest := Delete(q[1..], name);
      assert ([q[0]] + rest)[1..] == rest;
      [q[0]] + rest
  }

  /** The values paired with `name`, in order (`params.getAll(name)`). */
  function GetAll(q: seq<Param>, name: string): (vs: seq<string>)
    ensures |vs| <= |q|
  {
    if q == [] then []
    else (if q[0].name == name then [q[0].value] else []) + GetAll(q[1..], name)
  }

  /**
   * `params.set(name, value)`: the first pair with that name takes the value
   * and the other pairs with that name go; with none, the pair is appended.
   */
  function Set(q: seq<Param>, name: string, value: string): (r: seq<Param>)
    ensures GetAll(r, name) == [value]
    ensures forall p :: p in r && p.name != name <==> p in q && p.name != name
    ensures forall m :: m != name ==> GetAll(r, m) == GetAll(q, m)
  {
    if q == [] then [Param(name, value)]
    else if q[0].name == name then
      assert q == [q[0]] + q[1..];
      DeleteLeavesNone(q[1..], name);
      var rest := Delete(q[1..], name);
      assert ([Param(name, value)] + rest)[1..] == rest;
      [Param(name, value)] + rest
    else
      assert q == [q[0]] + q[1..];
      var rest := Set(q[1..], name, value);
      assert ([q[0]] + rest)[1..] == rest;
      [q[0]] + rest
  }

  lemma {:induction false} DeleteLeavesNone(q: seq<Param>, name: string)
    ensures GetAll(Delete(q, name), name) == []
  {
    if q != [] {
      DeleteLeavesNone(q[1..], name);
      var r := Delete(q[1..], name);
      assert ([q[0]] + r)[1..] == r;
    }
  }

  lemma {:induction false} GetAllAppend(q: seq<Param>, r: seq<Param>, name: string)
    ensures GetAll(q + r, name) == GetAll(q, name) + GetAll(r, name)
  {
    if q != [] {
      GetAllAppend(q[1..], r, name);
      assert (q + r)[0] == q[0] && (q + r)[1..] == q[1..] + r;
    } else {
      assert q + r == r;
    }
  }

  /** On a list without the name, `set` is `append`. */
  lemma {:induction false} SetWithoutName(q: seq<Param>, name: string, value: string)
    requires GetAll(q, name) == []
    ensures Set(q, name, value) == q + [Param(name, value)]
  {
    if q != [] {
      var rest, p := q[1..], Param(name, value);
      assert q[0].name != name && GetAll(rest, name) == [];
      SetWithoutName(rest, name, value);
      assert Set(q, name, value) == [q[0]] + (rest + [p]);
      assert q + [p] == [q[0]] + (rest + [p]) by { assert q == [q[0]] + rest; }
    }
  }

  /** Deleting a name and then setting it appends the one pair: the drawer's `delete` then `set`. */
  lemma SetAfterDelete(q: seq<Param>, name: string, value: string)
    ensures Set(Delete(q, name), name, value) == Delete(q, name) + [Param(name, value)]
  {
    DeleteLeavesNone(q, name);
    SetWithoutName(Delete(q, name), name, value);
  }

  /** `delete` acts on each pair by itself: a pair with the name goes, any other stays. */
  lemma DeleteOne(p: Param, name: string)
    ensures Delete([p], name) == if p.name == name then [] else [p]
  {
    assert [p][1..] == [];
  }

  /** Deleting from a concatenation deletes from each part. */
  lemma {:induction false} DeleteAppend(a: seq<Param>, b: seq<Param>, name: string)
    ensures Delete(a + b, name) == Delete(a, name) + Delete(b, name)
  {
    if a == [] {
      assert a + b == b;
    } else {
      var ab, da, db := a + b, Delete(a[1..], name), Delete(b, name);
      assert ab[0] == a[0] && ab[1..] == a[1..] + b;
      DeleteAppend(a[1..], b, name);
      if a[0].name == name {
        assert Delete(ab, name) == da + db;
      } else {
        assert Delete(ab, name) == [a[0]] + (da + db);
        assert Delete(a, name) == [a[0]] + da;
      }
    }
  }

  /** Deleting twice is deleting once. */
  lemma {:induction false} DeleteIdempotent(q: seq<Param>, name: string)
    ensures Delete(Delete(q, name), name) == Delete(q, name)
  {
    if q != [] {
      DeleteIdempotent(q[1..], name);
      var r := Delete(q[1..], name);
      assert ([q[0]] + r)[1..] == r;
    }
  }

  /** Deletions of different names commute. */
  lemma {:induction false} DeleteCommutes(q: seq<Param>, a: string, b: string)
    ensures Delete(Delete(q, a), b) == Delete(Delete(q, b), a)
  {
    if q != [] {
      DeleteCommutes(q[1..], a, b);
      var ra, rb := Delete(q[1..], a), Delete(q[1..], b);
      assert ([q[0]] + ra)[1..] == ra && ([q[0]] + rb)[1..] == rb;
    }
  }

  /** `name=value`. */
  function PairText(p: Param): string {
    p.name + "=" + p.value
  }

  /** `params.toString()`: the pairs joined by `&`. */
  function Serialize(q: seq<Param>): (s: string)
    ensures s == "" <==> q == []
    ensures q != [] ==> '=' in s
  {
    if q == [] then ""
    else if |q| == 1 then PairText(q[0])
    else
      assert '=' in PairText(q[0]) by { assert PairText(q[0])[|q[0].name|] == '='; }
      PairText(q[0]) + "&" + Serialize(q[1..])
  }
}
