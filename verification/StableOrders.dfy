/** A selection of a list in a stable order by key, and where in the list each element of it came from. */
module StableOrders {
  import opened Text

  /** Index `a` comes before index `b`: a lower key, or the same key and listed earlier. */
  predicate Before(keys: seq<int>, a: nat, b: nat)
    requires a < |keys| && b < |keys|
  {
    keys[a] < keys[b] || (keys[a] == keys[b] && a < b)
  }

  ghost predicate InOrder(keys: seq<int>, p: seq<nat>) {
    && (forall k | 0 <= k < |p| :: p[k] < |keys|)
    && (forall j, k | 0 <= j < k < |p| :: Before(keys, p[j], p[k]))
  }

  /** The order `sort.SliceStable` leaves: every index once, by key and then by where it was listed. */
  ghost predicate StableOrder(keys: seq<int>, p: seq<nat>) {
    InOrder(keys, p) && forall i | 0 <= i < |keys| :: i in p
  }

  function Insert(keys: seq<int>, p: seq<nat>, i: nat): seq<nat>
    requires i < |keys| && forall k | 0 <= k < |p| :: p[k] < |keys|
  {
    if p == [] || keys[p[|p| - 1]] <= keys[i] then p + [i] else Insert(keys, p[..|p| - 1], i) + [p[|p| - 1]]
  }

  lemma {:induction false} InsertKeepsOrder(keys: seq<int>, p: seq<nat>, i: nat)
    requires i < |keys| && InOrder(keys, p) && forall k | 0 <= k < |p| :: p[k] < i
    ensures InOrder(keys, Insert(keys, p, i)) && |Insert(keys, p, i)| == |p| + 1
    ensures forall x: nat :: x in Insert(keys, p, i) <==> x in p || x == i
    decreases |p|
  {
    if p == [] {
    } else if keys[p[|p| - 1]] > keys[i] {
      var n := |p| - 1;
      assert p == p[..n] + [p[n]];
      InsertKeepsOrder(keys, p[..n], i);
      assert forall x | x in p[..n] :: Before(keys, x, p[n]);
      EndsInOrder(keys, Insert(keys, p[..n], i), p[n]);
    } else {
      assert forall k | 0 <= k < |p| - 1 :: Before(keys, p[k], p[|p| - 1]);
      EndsInOrder(keys, p, i);
    }
  }

  lemma EndsInOrder(keys: seq<int>, p: seq<nat>, last: nat)
    requires InOrder(keys, p) && last < |keys| && forall x | x in p :: x < |keys| && Before(keys, x, last)
    ensures InOrder(keys, p + [last])
  {
    assert forall k | 0 <= k < |p| :: p[k] in p;
  }

  function Sorted(keys: seq<int>, n: nat): (p: seq<nat>)
    requires n <= |keys|
    ensures InOrder(keys, p) && |p| == n
    ensures forall x: nat :: x in p <==> x < n
  {
    if n == 0 then [] else
      var p := Sorted(keys, n - 1);
      assert forall k | 0 <= k < |p| :: p[k] in p;
      InsertKeepsOrder(keys, p, n - 1);
      Insert(keys, p, n - 1)
  }

  /** There is only one such order, so however a sort arrives at it the result is the same. */
  lemma {:induction false} StableOrderIsUnique(keys: seq<int>, p: seq<nat>, q: seq<nat>)
    requires InOrder(keys, p) && InOrder(keys, q) && forall x: nat :: x in p <==> x in q
    ensures p == q
    decreases |p|
  {
    assert q != [] ==> q[0] in q;
    if p != [] {
      assert p[0] in p && p[0] in q;
      assert q[0] in q && q[0] in p;
      assert p[0] == q[0];
      assert p == [p[0]] + p[1..] && q == [q[0]] + q[1..];
      forall x ensures x in p[1..] <==> x in q[1..] {
        assert forall k | 1 <= k < |p| :: p[k] != p[0];
        assert forall k | 1 <= k < |q| :: q[k] != q[0];
        assert x in p[1..] ==> x in p && x != p[0];
        assert x in q[1..] ==> x in q && x != q[0];
      }
      StableOrderIsUnique(keys, p[1..], q[1..]);
    }
  }

  function Keys<T>(items: seq<T>, key: T -> int): (keys: seq<int>)
    ensures |keys| == |items|
  {
    seq(|items|, i requires 0 <= i < |items| => key(items[i]))
  }

  /** `sort.SliceStable` by a key. */
  function SortedBy<T>(items: seq<T>, key: T -> int): (sorted: seq<T>)
    ensures |sorted| == |items|
  {
    var p := Sorted(Keys(items, key), |items|);
    seq(|items|, k requires 0 <= k < |items| => items[p[k]])
  }

  function Kept<T>(items: seq<T>, keep: T -> bool): seq<T> {
    if items == [] then [] else
      var earlier := Kept(items[..|items| - 1], keep);
      if keep(items[|items| - 1]) then earlier + [items[|items| - 1]] else earlier
  }

  function KeptAt<T>(items: seq<T>, keep: T -> bool): (at: seq<nat>)
    ensures |at| == |Kept(items, keep)|
    ensures forall k | 0 <= k < |at| :: at[k] < |items| && items[at[k]] == Kept(items, keep)[k] && keep(items[at[k]])
    ensures forall j, k | 0 <= j < k < |at| :: at[j] < at[k]
  {
    if items == [] then [] else
      var n := |items| - 1;
      var earlier := KeptAt(items[..n], keep);
      if keep(items[n]) then earlier + [n] else earlier
  }

  /** Whatever is to be kept is. */
  lemma {:induction false} KeptFrom<T>(items: seq<T>, keep: T -> bool, i: nat) returns (k: nat)
    requires i < |items| && keep(items[i])
    ensures k < |KeptAt(items, keep)| && KeptAt(items, keep)[k] == i
    decreases |items|
  {
    var n := |items| - 1;
    var earlier := KeptAt(items[..n], keep);
    if i == n {
      k := |earlier|;
    } else {
      assert items[..n][i] == items[i];
      k := KeptFrom(items[..n], keep, i);
    }
  }

  lemma KeptMeans<T>(items: seq<T>, keep: T -> bool, x: T)
    ensures x in Kept(items, keep) <==> x in items && keep(x)
  {
    var kept, at := Kept(items, keep), KeptAt(items, keep);
    if x in kept {
      var k :| 0 <= k < |kept| && kept[k] == x;
      assert items[at[k]] == x;
    }
    if x in items && keep(x) {
      var i :| 0 <= i < |items| && items[i] == x;
      var k := KeptFrom(items, keep, i);
      assert kept[k] == x;
    }
  }

  /** The index in the list of each element of its kept part in order. */
  function Sources<T>(items: seq<T>, keep: T -> bool, key: T -> int): (p: seq<nat>)
    ensures |p| == |Kept(items, keep)|
  {
    var at := KeptAt(items, keep);
    var sorted := Sorted(Keys(Kept(items, keep), key), |at|);
    seq(|at|, k requires 0 <= k < |at| => at[sorted[k]])
  }

  /** The kept part in order is each kept element once, by key and then by where the list had it. */
  lemma SourcesInOrder<T>(items: seq<T>, keep: T -> bool, key: T -> int)
    ensures var sorted, p := SortedBy(Kept(items, keep), key), Sources(items, keep, key);
      && |sorted| == |p| && InOrder(Keys(items, key), p)
      && (forall k | 0 <= k < |p| :: sorted[k] == items[p[k]] && keep(items[p[k]]))
      && (forall i | 0 <= i < |items| && keep(items[i]) :: i in p)
  {
    SourcesAscend(items, keep, key);
    SourcesCover(items, keep, key);
  }

  lemma SourcesAscend<T>(items: seq<T>, keep: T -> bool, key: T -> int)
    ensures InOrder(Keys(items, key), Sources(items, keep, key))
  {
    var kept, at := Kept(items, keep), KeptAt(items, keep);
    var sorted := Sorted(Keys(kept, key), |at|);
    var p := Sources(items, keep, key);
    forall j, k | 0 <= j < k < |p| ensures Before(Keys(items, key), p[j], p[k]) {
      assert Before(Keys(kept, key), sorted[j], sorted[k]);
    }
  }

  lemma SourcesCover<T>(items: seq<T>, keep: T -> bool, key: T -> int)
    ensures forall i | 0 <= i < |items| && keep(items[i]) :: i in Sources(items, keep, key)
  {
    var at, p := KeptAt(items, keep), Sources(items, keep, key);
    var sorted := Sorted(Keys(Kept(items, keep), key), |at|);
    forall i | 0 <= i < |items| && keep(items[i]) ensures i in p {
      var m := KeptFrom(items, keep, i);
      assert m in sorted;
      var k :| 0 <= k < |sorted| && sorted[k] == m;
      assert p[k] == i;
    }
  }

  lemma SomeKept<T>(items: seq<T>, keep: T -> bool, key: T -> int, wanted: T -> bool)
    ensures var sorted := SortedBy(Kept(items, keep), key);
      (exists k | 0 <= k < |sorted| :: wanted(sorted[k]))
        <==> exists i | 0 <= i < |items| :: keep(items[i]) && wanted(items[i])
  {
    var sorted, p := SortedBy(Kept(items, keep), key), Sources(items, keep, key);
    SourcesInOrder(items, keep, key);
    forall k | 0 <= k < |sorted| && wanted(sorted[k])
      ensures exists i | 0 <= i < |items| :: keep(items[i]) && wanted(items[i])
    {
      assert keep(items[p[k]]) && wanted(items[p[k]]);
    }
    forall i | 0 <= i < |items| && keep(items[i]) && wanted(items[i])
      ensures exists k | 0 <= k < |sorted| :: wanted(sorted[k])
    {
      var k :| 0 <= k < |p| && p[k] == i;
      assert wanted(sorted[k]);
    }
  }

  function FirstThat<T>(items: seq<T>, wanted: T -> bool): (first: Option<nat>)
    ensures match first
      case None => forall k | 0 <= k < |items| :: !wanted(items[k])
      case Some(k) => k < |items| && wanted(items[k]) && forall j | 0 <= j < k :: !wanted(items[j])
  {
    if items == [] then None
    else if wanted(items[0]) then Some(0)
    else match FirstThat(items[1..], wanted)
      case None => assert forall k | 0 < k < |items| :: items[k] == items[1..][k - 1]; None
      case Some(k) => assert forall k | 0 < k < |items| :: items[k] == items[1..][k - 1]; Some(k + 1)
  }

  /** The first wanted element of the kept part in order is the least, by key and then by place, of all that are. */
  lemma FirstIsLeast<T>(items: seq<T>, keep: T -> bool, key: T -> int, wanted: T -> bool)
    ensures var sorted, p := SortedBy(Kept(items, keep), key), Sources(items, keep, key);
      match FirstThat(sorted, wanted)
      case None => forall i | 0 <= i < |items| && keep(items[i]) :: !wanted(items[i])
      case Some(k) =>
        && k < |p| && p[k] < |items| && keep(items[p[k]]) && wanted(items[p[k]])
        && forall i | 0 <= i < |items| && i != p[k] && keep(items[i]) && wanted(items[i]) ::
          Before(Keys(items, key), p[k], i)
  {
    var sorted, p := SortedBy(Kept(items, keep), key), Sources(items, keep, key);
    SourcesInOrder(items, keep, key);
    forall i | 0 <= i < |items| && keep(items[i]) && wanted(items[i])
      ensures exists k | 0 <= k < |p| :: p[k] == i && wanted(sorted[k])
    {
      var k :| 0 <= k < |p| && p[k] == i;
      assert sorted[k] == items[i];
    }
  }
}
