/**
  Python dicts with string keys, as insertion-ordered association lists: `d[k] = v` is `Put`,
  `d |= e` is `Update`, and a key lookup is `Get`.
*/
module Dicts {
  import opened Wrappers

  function Keys<V>(d: seq<(string, V)>): (ks: seq<string>)
    ensures |ks| == |d|
    ensures forall i :: 0 <= i < |d| ==> ks[i] == d[i].0
  {
    seq(|d|, i requires 0 <= i < |d| => d[i].0)
  }

  /** No key occurs twice: every dict Python builds satisfies this. */
  predicate Distinct(ks: seq<string>) {
    forall i, j :: 0 <= i < j < |ks| ==> ks[i] != ks[j]
  }

  /** The position of the first entry with key `k`, or `|d|` when there is none. */
  function Position<V>(d: seq<(string, V)>, k: string): (i: nat)
    ensures i <= |d|
    ensures i < |d| ==> d[i].0 == k
    ensures forall j :: 0 <= j < i ==> d[j].0 != k
  {
    if d == [] then 0
    else if d[0].0 == k then 0
    else 1 + Position(d[1..], k)
  }

  /** `d.get(k)`: the value stored under `k`, if any. */
  function Get<V>(d: seq<(string, V)>, k: string): (r: Option<V>)
    ensures r.None? <==> k !in Keys(d)
    ensures r.Some? ==> (k, r.value) in d
  {
    var i := Position(d, k);
    if i < |d| then Some(d[i].1) else None
  }

  /** `Position` is determined by its contract. */
  lemma PositionIs<V>(d: seq<(string, V)>, k: string, i: nat)
    requires i <= |d| && (i < |d| ==> d[i].0 == k)
    requires forall j :: 0 <= j < i ==> d[j].0 != k
    ensures Position(d, k) == i
  {
  }

  /** `d[k] = v`: an existing key keeps its place and takes the new value; a new key goes last. */
  function Put<V>(d: seq<(string, V)>, k: string, v: V): (r: seq<(string, V)>)
    ensures Keys(r) == if k in Keys(d) then Keys(d) else Keys(d) + [k]
    ensures Get(r, k) == Some(v)
    ensures forall k' :: k' != k ==> Get(r, k') == Get(d, k')
  {
    if Position(d, k) < |d| then
      PutReplaces(d, k, v);
      d[Position(d, k) := (k, v)]
    else
      PutAppends(d, k, v);
      d + [(k, v)]
  }

  lemma PutReplaces<V>(d: seq<(string, V)>, k: string, v: V)
    requires Position(d, k) < |d|
    ensures var r := d[Position(d, k) := (k, v)];
      && Keys(r) == Keys(d) && Get(r, k) == Some(v)
      && forall k' :: k' != k ==> Get(r, k') == Get(d, k')
  {
    var i := Position(d, k);
    var r := d[i := (k, v)];
    assert Keys(r) == Keys(d);
    PositionIs(r, k, i);
    forall k' | k' != k ensures Get(r, k') == Get(d, k') {
      PositionIs(r, k', Position(d, k'));
    }
  }

  lemma PutAppends<V>(d: seq<(string, V)>, k: string, v: V)
    requires Position(d, k) == |d|
    ensures var r := d + [(k, v)];
      && Keys(r) == Keys(d) + [k] && Get(r, k) == Some(v)
      && forall k' :: k' != k ==> Get(r, k') == Get(d, k')
  {
    var r := d + [(k, v)];
    assert Keys(r) == Keys(d) + [k];
    PositionIs(r, k, |d|);
    forall k' | k' != k ensures Get(r, k') == Get(d, k') {
      AppendedLookup(d, k, v, k');
    }
  }

  lemma AppendedLookup<V>(d: seq<(string, V)>, k: string, v: V, k': string)
    requires k' != k
    ensures Position(d + [(k, v)], k') == Position(d, k') || (Position(d, k') == |d| && Position(d + [(k, v)], k') == |d| + 1)
  {
    var r := d + [(k, v)];
    var p := Position(d, k');
    if p < |d| {
      assert r[p] == d[p];
      PositionIs(r, k', p);
    } else {
      assert forall j :: 0 <= j < |d| ==> r[j] == d[j];
      PositionIs(r, k', |r|);
    }
  }

  /** A key not yet in the dict is appended. */
  lemma PutFresh<V>(d: seq<(string, V)>, k: string, v: V)
    requires k !in Keys(d)
    ensures Put(d, k, v) == d + [(k, v)]
  {
  }

  lemma PutKeepsDistinct<V>(d: seq<(string, V)>, k: string, v: V)
    requires Distinct(Keys(d))
    ensures Distinct(Keys(Put(d, k, v)))
  {
  }

  /** `d |= e`: the entries of `e`, in order, put into `d` (see `UpdateKeys` and `UpdateLookups`). */
  function Update<V>(d: seq<(string, V)>, e: seq<(string, V)>): seq<(string, V)>
    decreases |e|
  {
    if e == [] then d else Update(Put(d, e[0].0, e[0].1), e[1..])
  }

  lemma KeysOfTail<V>(e: seq<(string, V)>)
    requires e != []
    ensures Keys(e) == [e[0].0] + Keys(e[1..])
  {
  }

  /** `d |= e` has the keys of both. */
  lemma {:induction false} UpdateKeys<V>(d: seq<(string, V)>, e: seq<(string, V)>)
    ensures forall k :: k in Keys(Update(d, e)) <==> k in Keys(d) || k in Keys(e)
    decreases |e|
  {
    if e != [] {
      var d' := Put(d, e[0].0, e[0].1);
      assert Update(d, e) == Update(d', e[1..]);
      UpdateKeys(d', e[1..]);
      KeysOfTail(e);
    }
  }

  /** `d |= e` keeps `d`'s keys first and in their order. */
  lemma {:induction false} UpdateKeepsOrder<V>(d: seq<(string, V)>, e: seq<(string, V)>)
    ensures |Update(d, e)| >= |d| && Keys(Update(d, e))[..|d|] == Keys(d)
    decreases |e|
  {
    if e != [] {
      var d' := Put(d, e[0].0, e[0].1);
      var r := Update(d', e[1..]);
      assert Update(d, e) == r;
      UpdateKeepsOrder(d', e[1..]);
      var kd, kd', kr := Keys(d), Keys(d'), Keys(r);
      assert kd'[..|kd|] == kd by {
        if kd' != kd {
          assert kd' == kd + [e[0].0];
        }
      }
      PrefixOfPrefix(kr, kd', kd);
    }
  }

  lemma PrefixOfPrefix(a: seq<string>, b: seq<string>, c: seq<string>)
    requires |c| <= |b| <= |a| && a[..|b|] == b && b[..|c|] == c
    ensures a[..|c|] == c
  {
    assert a[..|c|] == a[..|b|][..|c|];
  }

  /** After `d |= e`, a key absent from `e` keeps the value it had in `d`. */
  lemma {:induction false} UpdateKeepsOthers<V>(d: seq<(string, V)>, e: seq<(string, V)>, k: string)
    requires k !in Keys(e)
    ensures Get(Update(d, e), k) == Get(d, k)
    decreases |e|
  {
    if e != [] {
      var d' := Put(d, e[0].0, e[0].1);
      KeysOfTail(e);
      UpdateKeepsOthers(d', e[1..], k);
    }
  }

  /** After `d |= e`, where `e` has no repeated key, each key of `e` has `e`'s value. */
  lemma {:induction false} UpdateTakesNew<V>(d: seq<(string, V)>, e: seq<(string, V)>, k: string)
    requires Distinct(Keys(e)) && k in Keys(e)
    ensures Get(Update(d, e), k) == Get(e, k)
    decreases |e|
  {
    var d' := Put(d, e[0].0, e[0].1);
    assert Update(d, e) == Update(d', e[1..]);
    DistinctTail(e);
    GetCons(e, k);
    if k == e[0].0 {
      UpdateKeepsOthers(d', e[1..], k);
    } else {
      KeysOfTail(e);
      UpdateTakesNew(d', e[1..], k);
    }
  }

  lemma DistinctTail<V>(e: seq<(string, V)>)
    requires e != [] && Distinct(Keys(e))
    ensures Distinct(Keys(e[1..])) && e[0].0 !in Keys(e[1..])
  {
    var t := Keys(e[1..]);
    assert forall j :: 0 <= j < |t| ==> t[j] == Keys(e)[j + 1];
  }

  /** A lookup in a non-empty dict looks at its first entry, then at the rest. */
  lemma GetCons<V>(e: seq<(string, V)>, k: string)
    requires e != []
    ensures Get(e, k) == if e[0].0 == k then Some(e[0].1) else Get(e[1..], k)
  {
    if e[0].0 != k {
      assert Position(e, k) == 1 + Position(e[1..], k);
    }
  }

  lemma {:induction false} UpdateKeepsDistinct<V>(d: seq<(string, V)>, e: seq<(string, V)>)
    requires Distinct(Keys(d))
    ensures Distinct(Keys(Update(d, e)))
    decreases |e|
  {
    if e != [] {
      var d' := Put(d, e[0].0, e[0].1);
      PutKeepsDistinct(d, e[0].0, e[0].1);
      UpdateKeepsDistinct(d', e[1..]);
    }
  }
}
