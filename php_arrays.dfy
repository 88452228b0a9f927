/** String-keyed PHP arrays, as the icons manager uses them for tab registries,
    HTML attribute lists and editor settings: an ordered sequence of entries in
    which no key occurs twice. Assigning to a key that is present replaces its
    value where it stands; assigning to a new key appends it. */
module PhpArrays {

  datatype Option<T> = None | Some(value: T) {
    function GetOr(default: T): T {
      if Some? then value else default
    }
  }

  /** The keys of an array, in order (PHP's array_keys). */
  function Keys<V>(m: seq<(string, V)>): (ks: seq<string>)
    ensures |ks| == |m|
  {
    seq(|m|, i requires 0 <= i < |m| => m[i].0)
  }

  lemma KeysOfConcat<V>(x: seq<(string, V)>, y: seq<(string, V)>)
    ensures Keys(x + y) == Keys(x) + Keys(y)
  {
  }

  /** The values of an array, in order, without their keys (PHP's array_values). */
  function Values<V>(m: seq<(string, V)>): (vs: seq<V>)
    ensures |vs| == |m|
    ensures forall i :: 0 <= i < |m| ==> vs[i] == m[i].1
  {
    if m == [] then [] else [m[0].1] + Values(m[1..])
  }

  predicate UniqueKeys<V>(m: seq<(string, V)>) {
    forall i, j :: 0 <= i < j < |m| ==> m[i].0 != m[j].0
  }

  /** A PHP array with string keys. */
  type Dict<V> = m: seq<(string, V)> | UniqueKeys(m) witness []

  /** `$m[$k]` when `isset`, None otherwise. */
  function Get<V>(m: seq<(string, V)>, k: string): (r: Option<V>)
    ensures r.Some? <==> k in Keys(m)
    ensures r.Some? ==> (k, r.value) in m
  {
    if m == [] then None
    else
      KeysOfConcat([m[0]], m[1..]);
      assert m == [m[0]] + m[1..];
      assert Keys(m)[0] == m[0].0;
      if m[0].0 == k then Some(m[0].1) else Get(m[1..], k)
  }

  lemma UniqueCons<V>(e: (string, V), m: seq<(string, V)>)
    requires UniqueKeys(m) && e.0 !in Keys(m)
    ensures UniqueKeys([e] + m)
  {
    forall i, j | 0 <= i < j < |[e] + m| ensures ([e] + m)[i].0 != ([e] + m)[j].0 {
      if i == 0 {
        assert ([e] + m)[j].0 == Keys(m)[j - 1];
      }
    }
  }

  /** The entries of m with (k, v) assigned, in the order PHP keeps them. */
  function Assign<V>(m: seq<(string, V)>, k: string, v: V): seq<(string, V)> {
    if m == [] then [(k, v)]
    else if m[0].0 == k then [(k, v)] + m[1..]
    else [m[0]] + Assign(m[1..], k, v)
  }

  lemma {:induction false} AssignKeys<V>(m: seq<(string, V)>, k: string, v: V)
    requires UniqueKeys(m)
    ensures Keys(Assign(m, k, v)) == if k in Keys(m) then Keys(m) else Keys(m) + [k]
    ensures UniqueKeys(Assign(m, k, v))
  {
    if m != [] {
      assert Keys(m) == [m[0].0] + Keys(m[1..]);
      if m[0].0 == k {
        assert k !in Keys(m[1..]);
        UniqueCons((k, v), m[1..]);
        KeysOfConcat([(k, v)], m[1..]);
      } else {
        var rest := Assign(m[1..], k, v);
        AssignKeys(m[1..], k, v);
        assert m[0].0 !in Keys(rest);
        UniqueCons(m[0], rest);
        KeysOfConcat([m[0]], rest);
      }
    }
  }

  lemma {:induction false} AssignGet<V>(m: seq<(string, V)>, k: string, v: V)
    ensures Get(Assign(m, k, v), k) == Some(v)
  {
    if m != [] && m[0].0 != k {
      AssignGet(m[1..], k, v);
    }
  }

  /** `$m[$k] = $v`: an existing key keeps its position, a new key goes last. */
  function Put<V>(m: Dict<V>, k: string, v: V): (r: Dict<V>)
    ensures Keys(r) == if k in Keys(m) then Keys(m) else Keys(m) + [k]
    ensures Get(r, k) == Some(v)
  {
    AssignKeys(m, k, v);
    AssignGet(m, k, v);
    Assign(m, k, v)
  }

  /** Assigning one key leaves every other key's value as it was. */
  lemma {:induction false} PutKeepsOtherKeys<V>(m: Dict<V>, k: string, v: V, other: string)
    requires other != k
    ensures Get(Put(m, k, v), other) == Get(m, other)
  {
    AssignKeepsOtherKeys(m, k, v, other);
  }

  lemma {:induction false} AssignKeepsOtherKeys<V>(m: seq<(string, V)>, k: string, v: V, other: string)
    requires other != k
    ensures Get(Assign(m, k, v), other) == Get(m, other)
  {
    if m != [] && m[0].0 != k {
      AssignKeepsOtherKeys(m[1..], k, v, other);
    }
  }

  lemma KeysOfFirst<V>(b: seq<(string, V)>)
    requires b != []
    ensures Keys(b) == [b[0].0] + Keys(b[1..])
  {
    assert b == [b[0]] + b[1..];
    KeysOfConcat([b[0]], b[1..]);
    assert Keys([b[0]]) == [b[0].0];
  }

  /** One step of array_merge, on key sequences: assigning key k0 into a gives
      p, merging the rest of b into p gives r. */
  lemma MergeStepKeys(ka: seq<string>, kp: seq<string>, kr: seq<string>, k0: string, rest: seq<string>)
    requires kp == if k0 in ka then ka else ka + [k0]
    requires |kp| <= |kr| && kr[..|kp|] == kp
    requires forall k :: k in kr <==> k in kp || k in rest
    ensures |ka| <= |kr| && kr[..|ka|] == ka
    ensures forall k :: k in kr <==> k in ka || k in [k0] + rest
  {
    assert kr[..|ka|] == kr[..|kp|][..|ka|];
    assert kp[..|ka|] == ka;
  }

  /** PHP's array_merge on string-keyed arrays: the entries of b are assigned
      into a one after the other. */
  function Merge<V>(a: Dict<V>, b: Dict<V>): (r: Dict<V>)
    ensures |a| <= |r| && Keys(r)[..|a|] == Keys(a)
    ensures forall k :: k in Keys(r) <==> k in Keys(a) || k in Keys(b)
    decreases |b|
  {
    if b == [] then a
    else
      var p := Put(a, b[0].0, b[0].1);
      var r := Merge(p, b[1..]);
      KeysOfFirst(b);
      MergeStepKeys(Keys(a), Keys(p), Keys(r), b[0].0, Keys(b[1..]));
      r
  }

  /** The entries of a in their order, each taking b's value when b has its key. */
  function Overlay<V>(a: seq<(string, V)>, b: seq<(string, V)>): (r: seq<(string, V)>)
    ensures Keys(r) == Keys(a)
  {
    if a == [] then []
    else
      var e := (a[0].0, Get(b, a[0].0).GetOr(a[0].1));
      KeysOfConcat([e], Overlay(a[1..], b));
      [e] + Overlay(a[1..], b)
  }

  /** The entries of b, in their order, whose key is not among ks. */
  function Excluding<V>(b: seq<(string, V)>, ks: seq<string>): (r: seq<(string, V)>)
    ensures |r| <= |b|
    ensures forall i :: 0 <= i < |r| ==> r[i] in b && r[i].0 !in ks
  {
    if b == [] then []
    else (if b[0].0 in ks then [] else [b[0]]) + Excluding(b[1..], ks)
  }

  lemma {:induction false} OverlayIgnoresAbsentKey<V>(a: seq<(string, V)>, k: string, v: V, b: seq<(string, V)>)
    requires k !in Keys(a)
    ensures Overlay(a, [(k, v)] + b) == Overlay(a, b)
  {
    if a != [] {
      assert Keys(a) == [a[0].0] + Keys(a[1..]);
      OverlayIgnoresAbsentKey(a[1..], k, v, b);
    }
  }

  /** Assigning (k, v) into a and then overlaying the rest of a merge source is
      overlaying the whole source, plus (k, v) at the end when k was new. */
  lemma {:induction false} OverlayAfterAssign<V>(a: seq<(string, V)>, k: string, v: V, b: seq<(string, V)>)
    requires UniqueKeys(a) && k !in Keys(b)
    ensures Overlay(Assign(a, k, v), b) == Overlay(a, [(k, v)] + b) + (if k in Keys(a) then [] else [(k, v)])
  {
    var kb := [(k, v)] + b;
    assert kb[1..] == b;
    if a == [] {
      assert Assign(a, k, v) == [(k, v)];
    } else {
      assert Keys(a) == [a[0].0] + Keys(a[1..]);
      if a[0].0 == k {
        assert k !in Keys(a[1..]);
        OverlayIgnoresAbsentKey(a[1..], k, v, b);
        var x := Assign(a, k, v);
        assert x == [(k, v)] + a[1..] && x[1..] == a[1..];
      } else {
        OverlayAfterAssign(a[1..], k, v, b);
        assert Get(kb, a[0].0) == Get(b, a[0].0);
        var x := Assign(a, k, v);
        assert x[0] == a[0] && x[1..] == Assign(a[1..], k, v);
      }
    }
  }

  lemma {:induction false} ExcludingIgnoresAbsentKey<V>(b: seq<(string, V)>, ks: seq<string>, k: string)
    requires k !in Keys(b)
    ensures Excluding(b, ks + [k]) == Excluding(b, ks)
  {
    if b != [] {
      assert Keys(b) == [b[0].0] + Keys(b[1..]);
      ExcludingIgnoresAbsentKey(b[1..], ks, k);
    }
  }

  /** array_merge in closed form: the keys of a stay where they are and take
      b's value when b has them; the keys only b has follow, in b's order. */
  lemma {:induction false} MergeIsOverlayThenAppend<V>(a: Dict<V>, b: Dict<V>)
    ensures Merge(a, b) == Overlay(a, b) + Excluding(b, Keys(a))
    decreases |b|
  {
    if b != [] {
      var k, v, rest := b[0].0, b[0].1, b[1..];
      assert b == [(k, v)] + rest;
      assert k !in Keys(rest);
      var a' := Put(a, k, v);
      var added := if k in Keys(a) then [] else [(k, v)];
      MergeIsOverlayThenAppend(a', rest);
      OverlayAfterAssign(a, k, v, rest);
      assert Overlay(a', rest) == Overlay(a, b) + added;
      if k !in Keys(a) {
        ExcludingIgnoresAbsentKey(rest, Keys(a), k);
      }
      assert Excluding(rest, Keys(a')) == Excluding(rest, Keys(a));
      var ov, ex := Overlay(a, b), Excluding(rest, Keys(a));
      assert Excluding(b, Keys(a)) == added + ex;
      ConcatAssoc(ov, added, ex);
    } else {
      OverlayWithNothing(a);
    }
  }

  lemma ConcatAssoc<T>(x: seq<T>, y: seq<T>, z: seq<T>)
    ensures x + y + z == x + (y + z)
  {
  }

  lemma {:induction false} OverlayWithNothing<V>(a: seq<(string, V)>)
    ensures Overlay(a, []) == a
  {
    if a != [] {
      OverlayWithNothing(a[1..]);
    }
  }

  /** The keys of array_merge(a, b): a's keys in a's order, then b's new keys in b's order. */
  lemma MergeKeys<V>(a: Dict<V>, b: Dict<V>)
    ensures |Merge(a, b)| == |a| + |Excluding(b, Keys(a))|
    ensures Keys(Merge(a, b))[..|a|] == Keys(a)
    ensures Keys(Merge(a, b))[|a|..] == Keys(Excluding(b, Keys(a)))
  {
    MergeIsOverlayThenAppend(a, b);
    KeysOfConcat(Overlay(a, b), Excluding(b, Keys(a)));
  }

  /** Assigning the same value twice is assigning it once. */
  lemma {:induction false} PutTwice<V>(m: Dict<V>, k: string, v: V)
    ensures Put(Put(m, k, v), k, v) == Put(m, k, v)
  {
    if m != [] && m[0].0 != k {
      PutTwice(m[1..], k, v);
      assert Put(m, k, v)[0] == m[0] && Put(m, k, v)[1..] == Put(m[1..], k, v);
    }
  }

  /** Looking a key up in array_merge(a, b): b's value wins, otherwise a's. */
  lemma {:induction false} MergeGet<V>(a: Dict<V>, b: Dict<V>, k: string)
    ensures Get(Merge(a, b), k) == if k in Keys(b) then Get(b, k) else Get(a, k)
    decreases |b|
  {
    if b != [] {
      assert Keys(b) == [b[0].0] + Keys(b[1..]);
      MergeGet(Put(a, b[0].0, b[0].1), b[1..], k);
      if k != b[0].0 {
        PutKeepsOtherKeys(a, b[0].0, b[0].1, k);
      }
    }
  }

  /** Removing one key from an array shortens it by one exactly when the key is there. */
  lemma {:induction false} ExcludingOneKeySize<V>(b: Dict<V>, k: string)
    ensures |Excluding(b, [k])| == if k in Keys(b) then |b| - 1 else |b|
  {
    if b != [] {
      assert Keys(b) == [b[0].0] + Keys(b[1..]);
      if b[0].0 == k {
        assert k !in Keys(b[1..]);
        ExcludingAbsentKeyIsIdentity(b[1..], k);
      } else {
        ExcludingOneKeySize(b[1..], k);
      }
    }
  }

  lemma {:induction false} ExcludingAbsentKeyIsIdentity<V>(b: seq<(string, V)>, k: string)
    requires k !in Keys(b)
    ensures Excluding(b, [k]) == b
  {
    if b != [] {
      assert Keys(b) == [b[0].0] + Keys(b[1..]);
      ExcludingAbsentKeyIsIdentity(b[1..], k);
    }
  }
}
