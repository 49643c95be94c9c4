/**
 * Python dictionaries as used by the application: string keys, insertion order
 * kept, assignment to an existing key replaces its value in place, assignment
 * to a new key appends it.  A dictionary is a sequence of entries with pairwise
 * distinct keys.
 */
module Dicts {
  import opened Wrappers

  predicate UniqueKeys<V>(d: seq<(string, V)>) {
    forall i, j :: 0 <= i < j < |d| ==> d[i].0 != d[j].0
  }

  type Dict<V> = d: seq<(string, V)> | UniqueKeys(d) witness []

  /** The key set, `d.keys()`. */
  function Keys<V>(d: seq<(string, V)>): set<string> {
    if d == [] then {} else {d[0].0} + Keys(d[1..])
  }

  /** The keys in iteration order, `list(d)`. */
  function KeyList<V>(d: seq<(string, V)>): seq<string> {
    if d == [] then [] else [d[0].0] + KeyList(d[1..])
  }

  /** `d.get(k)`: the value stored under `k`, if any. */
  function Get<V>(d: seq<(string, V)>, k: string): Option<V> {
    if d == [] then None else if d[0].0 == k then Some(d[0].1) else Get(d[1..], k)
  }

  lemma {:induction false} KeysOfList<V>(d: seq<(string, V)>)
    ensures |KeyList(d)| == |d|
    ensures forall i :: 0 <= i < |d| ==> KeyList(d)[i] == d[i].0
    ensures forall k :: k in Keys(d) <==> k in KeyList(d)
  {
    if d != [] {
      KeysOfList(d[1..]);
      assert forall i :: 1 <= i < |d| ==> KeyList(d)[i] == KeyList(d[1..])[i - 1];
    }
  }

  lemma {:induction false} GetKeys<V>(d: seq<(string, V)>, k: string)
    ensures Get(d, k).Some? <==> k in Keys(d)
  {
    if d != [] { GetKeys(d[1..], k); }
  }

  lemma {:induction false} GetAt<V>(d: Dict<V>, i: nat)
    requires i < |d|
    ensures Get(d, d[i].0) == Some(d[i].1)
  {
    if i > 0 {
      var tail: Dict<V> := d[1..];
      GetAt(tail, i - 1);
    }
  }

  /** `d[k] = v`: an existing key keeps its position, a new key goes last. */
  function Put<V>(d: Dict<V>, k: string, v: V): (r: Dict<V>)
    ensures Get(r, k) == Some(v)
    ensures forall k' :: k' != k ==> Get(r, k') == Get(d, k')
    ensures Keys(r) == Keys(d) + {k}
    ensures k in Keys(d) ==> KeyList(r) == KeyList(d)
    ensures k !in Keys(d) ==> KeyList(r) == KeyList(d) + [k]
  {
    if d == [] then [(k, v)]
    else if d[0].0 == k then
      var r := [(k, v)] + d[1..];
      assert r[1..] == d[1..];
      NotInTail(d);
      r
    else
      var tail: Dict<V> := d[1..];
      var rest := Put(tail, k, v);
      var r := [d[0]] + rest;
      assert r[1..] == rest;
      assert UniqueKeys(r) by {
        NotInTail(d);
        KeysOfList(rest);
        forall j | 0 < j < |r| ensures r[j].0 != r[0].0 {
          assert r[j].0 == rest[j - 1].0;
          assert rest[j - 1].0 in Keys(rest);
        }
      }
      r
  }

  /** The key of the head entry does not occur again. */
  lemma NotInTail<V>(d: Dict<V>)
    requires d != []
    ensures d[0].0 !in Keys(d[1..])
  {
    var tail := d[1..];
    KeysOfList(tail);
    assert forall j :: 0 <= j < |tail| ==> KeyList(tail)[j] != d[0].0 by {
      forall j | 0 <= j < |tail| ensures KeyList(tail)[j] != d[0].0 {
        assert tail[j] == d[j + 1];
      }
    }
  }

  /** `{**a, **b}`: the entries of `b` assigned one by one into `a`. */
  function Update<V>(a: Dict<V>, b: Dict<V>): (r: Dict<V>)
    decreases |b|
  {
    if b == [] then a
    else
      var front: Dict<V> := b[..|b| - 1];
      Put(Update(a, front), b[|b| - 1].0, b[|b| - 1].1)
  }

  /** Keys of the last entry are absent from the entries before it. */
  lemma LastNotInFront<V>(b: Dict<V>)
    requires b != []
    ensures b[|b| - 1].0 !in Keys(b[..|b| - 1])
  {
    var front := b[..|b| - 1];
    KeysOfList(front);
    assert forall j :: 0 <= j < |front| ==> KeyList(front)[j] != b[|b| - 1].0 by {
      forall j | 0 <= j < |front| ensures KeyList(front)[j] != b[|b| - 1].0 {
        assert front[j] == b[j];
      }
    }
  }

  /** Merging keeps every key of both sides, and a key of `b` takes `b`'s value. */
  lemma {:induction false} UpdateGet<V>(a: Dict<V>, b: Dict<V>, k: string)
    ensures Keys(Update(a, b)) == Keys(a) + Keys(b)
    ensures Get(Update(a, b), k) == if k in Keys(b) then Get(b, k) else Get(a, k)
    decreases |b|
  {
    if b != [] {
      var front: Dict<V> := b[..|b| - 1];
      var last := b[|b| - 1];
      UpdateGet(a, front, k);
      KeysSnoc(front, last);
      LastNotInFront(b);
      SplitLast(b);
      GetSnoc(front, last, k);
    }
  }

  /** `a`'s entries keep their order and come first in `{**a, **b}`. */
  lemma {:induction false} UpdateKeepsOrder<V>(a: Dict<V>, b: Dict<V>)
    ensures |KeyList(a)| <= |KeyList(Update(a, b))|
    ensures KeyList(Update(a, b))[..|KeyList(a)|] == KeyList(a)
    decreases |b|
  {
    if b != [] {
      var front: Dict<V> := b[..|b| - 1];
      UpdateKeepsOrder(a, front);
    }
  }

  /** A non-empty sequence is its front followed by its last element. */
  lemma SplitLast<T>(xs: seq<T>)
    requires xs != []
    ensures xs == xs[..|xs| - 1] + [xs[|xs| - 1]]
  {
  }

  lemma {:induction false} KeysSnoc<V>(d: seq<(string, V)>, e: (string, V))
    ensures Keys(d + [e]) == Keys(d) + {e.0}
  {
    if d != [] {
      assert (d + [e])[1..] == d[1..] + [e];
      KeysSnoc(d[1..], e);
    } else {
      assert ([] + [e])[1..] == [];
    }
  }

  lemma {:induction false} KeyListSnoc<V>(d: seq<(string, V)>, e: (string, V))
    ensures KeyList(d + [e]) == KeyList(d) + [e.0]
  {
    if d != [] {
      assert (d + [e])[1..] == d[1..] + [e];
      KeyListSnoc(d[1..], e);
    } else {
      assert ([] + [e])[1..] == [];
    }
  }

  lemma {:induction false} GetSnoc<V>(d: seq<(string, V)>, e: (string, V), k: string)
    requires e.0 !in Keys(d)
    ensures Get(d + [e], k) == if k in Keys(d) then Get(d, k) else if k == e.0 then Some(e.1) else None
  {
    GetKeys(d, k);
    if d != [] {
      assert (d + [e])[1..] == d[1..] + [e];
      GetSnoc(d[1..], e, k);
    } else {
      assert ([] + [e])[1..] == [];
    }
  }
}
