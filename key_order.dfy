/** The order in which an IndexedDB object store lists its records: ascending key order.
    `getAll` returns `Values(records)`; offline pagination and the per-post comment
    lookup slice and filter that list. */
module KeyOrder {

  predicate IsMin(m: int, s: set<int>)
  {
    m in s && forall y | y in s :: m <= y
  }

  ghost predicate StrictlyIncreasing(r: seq<int>)
  {
    forall i, j | 0 <= i < j < |r| :: r[i] < r[j]
  }

  lemma {:induction false} MinExists(s: set<int>)
    requires s != {}
    ensures exists m :: IsMin(m, s)
  {
    assert exists x :: x in s by { if forall x :: x !in s { assert false; } }
    var x :| x in s;
    if s != {x} {
      MinExists(s - {x});
      var m :| IsMin(m, s - {x});
      var least := if x < m then x else m;
      forall y | y in s ensures least <= y {
        if y != x { assert y in s - {x}; }
      }
      assert IsMin(least, s);
    } else {
      assert IsMin(x, s);
    }
  }

  function MinOf(s: set<int>): (m: int)
    requires s != {}
    ensures IsMin(m, s)
  {
    MinExists(s);
    var m :| IsMin(m, s); m
  }

  /** The keys of `s` in ascending order, each once. */
  function SortedKeys(s: set<int>): (r: seq<int>)
    ensures |r| == |s|
    ensures forall k :: k in s <==> k in r
    ensures StrictlyIncreasing(r)
  {
    if s == {} then []
    else
      var m := MinOf(s);
      var rest := SortedKeys(s - {m});
      assert |s - {m}| == |s| - 1;
      ConsIncreasing(m, rest);
      [m] + rest
  }

  /** A key below every key of an increasing list, put in front, keeps it increasing. */
  lemma ConsIncreasing(m: int, rest: seq<int>)
    requires StrictlyIncreasing(rest) && forall k | k in rest :: m < k
    ensures StrictlyIncreasing([m] + rest)
  {
    var r := [m] + rest;
    forall i, j | 0 <= i < j < |r| ensures r[i] < r[j] {
      assert r[j] == rest[j - 1];
      if i > 0 {
        assert r[i] == rest[i - 1];
      } else {
        assert rest[j - 1] in rest;
      }
    }
  }

  /** The records of `m` in ascending key order. */
  function Values<R>(m: map<int, R>): (r: seq<R>)
    ensures |r| == |m|
    ensures forall i | 0 <= i < |r| :: SortedKeys(m.Keys)[i] in m && r[i] == m[SortedKeys(m.Keys)[i]]
  {
    var ks := SortedKeys(m.Keys);
    assert |m.Keys| == |m|;
    assert forall i | 0 <= i < |ks| :: ks[i] in m by {
      forall i | 0 <= i < |ks| ensures ks[i] in m {
        assert ks[i] in ks;
      }
    }
    seq(|ks|, i requires 0 <= i < |ks| => m[ks[i]])
  }

  /** Every stored record is listed. */
  lemma ValuesComplete<R>(m: map<int, R>, k: int)
    requires k in m
    ensures m[k] in Values(m)
  {
    var ks := SortedKeys(m.Keys);
    var i :| 0 <= i < |ks| && ks[i] == k;
    assert Values(m)[i] == m[k];
  }

  /** Every listed record is stored under some key. */
  lemma ValuesSound<R>(m: map<int, R>, x: R)
    requires x in Values(m)
    ensures exists k :: k in m && m[k] == x
  {
    var i :| 0 <= i < |Values(m)| && Values(m)[i] == x;
    assert SortedKeys(m.Keys)[i] in m;
  }
}
