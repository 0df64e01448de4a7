/**
 * Python's dict as the code uses it: entries kept in the order their keys were first
 * assigned; assigning to a key already present replaces its value in place.
 */
module OrderedMaps {
  import opened Wrappers

  type OrderedMap<V> = seq<(string, V)>

  function Keys<V>(m: OrderedMap<V>): (ks: seq<string>)
    ensures |ks| == |m| && forall i :: 0 <= i < |m| ==> ks[i] == m[i].0
  {
    if m == [] then [] else [m[0].0] + Keys(m[1..])
  }

  /** No key occurs twice. */
  predicate Valid<V>(m: OrderedMap<V>)
  {
    m == [] || (m[0].0 !in Keys(m[1..]) && Valid(m[1..]))
  }

  /** d.get(k): the value of the entry holding k. */
  function Get<V>(m: OrderedMap<V>, k: string): (r: Option<V>)
    ensures r.Some? <==> k in Keys(m)
  {
    if m == [] then None
    else if m[0].0 == k then Some(m[0].1)
    else Get(m[1..], k)
  }

  /** In a valid map every entry is what a lookup of its key returns. */
  lemma {:induction false} GetEntry<V>(m: OrderedMap<V>, i: nat)
    requires Valid(m) && i < |m|
    ensures Get(m, m[i].0) == Some(m[i].1)
  {
    if i > 0 {
      GetEntry(m[1..], i - 1);
      assert Keys(m[1..])[i - 1] == m[i].0;
    }
  }

  /** d[k] = v: a new key goes to the end, an existing key keeps its position. */
  function Put<V>(m: OrderedMap<V>, k: string, v: V): OrderedMap<V>
  {
    if m == [] then [(k, v)]
    else if m[0].0 == k then [(k, v)] + m[1..]
    else [m[0]] + Put(m[1..], k, v)
  }

  /** After d[k] = v, k holds v and every other key is untouched. */
  lemma {:induction false} PutGet<V>(m: OrderedMap<V>, k: string, v: V, k': string)
    ensures Get(Put(m, k, v), k') == if k' == k then Some(v) else Get(m, k')
  {
    if m != [] && m[0].0 != k {
      PutGet(m[1..], k, v, k');
    }
  }

  /** After d[k] = v the keys are in the same order, with k appended when it is new, and no
      key becomes duplicated. */
  lemma {:induction false} PutKeys<V>(m: OrderedMap<V>, k: string, v: V)
    ensures Keys(Put(m, k, v)) == if k in Keys(m) then Keys(m) else Keys(m) + [k]
    ensures Valid(m) ==> Valid(Put(m, k, v))
  {
    var r := Put(m, k, v);
    if m == [] {
    } else if m[0].0 == k {
      assert r[1..] == m[1..];
    } else {
      PutKeys(m[1..], k, v);
      assert r[1..] == Put(m[1..], k, v);
    }
  }

  /** Assigning v to each key of ks in turn. */
  function PutAll<V>(m: OrderedMap<V>, ks: seq<string>, v: V): OrderedMap<V>
  {
    if ks == [] then m
    else Put(PutAll(m, ks[..|ks| - 1], v), ks[|ks| - 1], v)
  }

  /** The keys of acc followed by those of xs not seen before, in order of first appearance. */
  function AppendNew(acc: seq<string>, xs: seq<string>): seq<string>
  {
    if xs == [] then acc
    else
      var a := AppendNew(acc, xs[..|xs| - 1]);
      if xs[|xs| - 1] in a then a else a + [xs[|xs| - 1]]
  }

  /** After a run of assignments every assigned key holds v and every other key is
      untouched. */
  lemma {:induction false} PutAllGet<V>(m: OrderedMap<V>, ks: seq<string>, v: V, k: string)
    ensures Get(PutAll(m, ks, v), k) == if k in ks then Some(v) else Get(m, k)
  {
    if ks != [] {
      var init := ks[..|ks| - 1];
      PutAllGet(m, init, v, k);
      PutGet(PutAll(m, init, v), ks[|ks| - 1], v, k);
      assert k in ks <==> k in init || k == ks[|ks| - 1];
    }
  }

  /** The keys assigned for the first time come last, in the order first assigned, and no
      key is duplicated. */
  lemma {:induction false} PutAllKeys<V>(m: OrderedMap<V>, ks: seq<string>, v: V)
    ensures Keys(PutAll(m, ks, v)) == AppendNew(Keys(m), ks)
    ensures Valid(m) ==> Valid(PutAll(m, ks, v))
  {
    if ks != [] {
      PutAllKeys(m, ks[..|ks| - 1], v);
      PutKeys(PutAll(m, ks[..|ks| - 1], v), ks[|ks| - 1], v);
    }
  }

  lemma PutAllSnoc<V>(m: OrderedMap<V>, ks: seq<string>, k: string, v: V)
    ensures PutAll(m, ks + [k], v) == Put(PutAll(m, ks, v), k, v)
  {
    assert (ks + [k])[..|ks|] == ks;
  }

  lemma {:induction false} PutAllConcat<V>(m: OrderedMap<V>, a: seq<string>, b: seq<string>, v: V)
    ensures PutAll(m, a + b, v) == PutAll(PutAll(m, a, v), b, v)
  {
    if b != [] {
      PutAllConcat(m, a, b[..|b| - 1], v);
      assert (a + b)[..|a + b| - 1] == a + b[..|b| - 1];
    } else {
      assert a + b == a;
    }
  }

  lemma {:induction false} AppendNewConcat(acc: seq<string>, a: seq<string>, b: seq<string>)
    ensures AppendNew(AppendNew(acc, a), b) == AppendNew(acc, a + b)
  {
    if b != [] {
      AppendNewConcat(acc, a, b[..|b| - 1]);
      assert (a + b)[..|a + b| - 1] == a + b[..|b| - 1];
    } else {
      assert a + b == a;
    }
  }
}
