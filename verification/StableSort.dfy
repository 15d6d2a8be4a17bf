/** Python's sorted(xs, key=f) and list.sort(key=f): ascending by key, ties kept
    in their original order. */
module StableSort {
  import opened Common

  ghost predicate Ordered<T(!new)>(xs: seq<T>, key: T -> real) {
    forall i, j :: 0 <= i < j < |xs| ==> key(xs[i]) <= key(xs[j])
  }

  /** The elements of xs whose key is k, in order. */
  function WithKey<T>(xs: seq<T>, key: T -> real, k: real): seq<T> {
    if xs == [] then []
    else if key(xs[0]) == k then [xs[0]] + WithKey(xs[1..], key, k)
    else WithKey(xs[1..], key, k)
  }

  lemma {:induction false} WithKeyAppend<T>(xs: seq<T>, ys: seq<T>, key: T -> real, k: real)
    ensures WithKey(xs + ys, key, k) == WithKey(xs, key, k) + WithKey(ys, key, k)
  {
    if xs == [] {
      assert xs + ys == ys;
    } else {
      WithKeyAppend(xs[1..], ys, key, k);
      assert (xs + ys)[1..] == xs[1..] + ys;
    }
  }

  function Insert<T>(x: T, ys: seq<T>, key: T -> real): seq<T> {
    if ys == [] || key(x) <= key(ys[0]) then [x] + ys
    else [ys[0]] + Insert(x, ys[1..], key)
  }

  function Sorted<T>(xs: seq<T>, key: T -> real): seq<T> {
    if xs == [] then [] else Insert(xs[0], Sorted(xs[1..], key), key)
  }

  lemma {:induction false} InsertElements<T(!new)>(x: T, ys: seq<T>, key: T -> real)
    ensures multiset(Insert(x, ys, key)) == multiset{x} + multiset(ys)
    ensures |Insert(x, ys, key)| == |ys| + 1
  {
    if ys == [] || key(x) <= key(ys[0]) {
    } else {
      InsertElements(x, ys[1..], key);
      assert ys == [ys[0]] + ys[1..];
    }
  }

  lemma {:induction false} InsertOrdered<T(!new)>(x: T, ys: seq<T>, key: T -> real)
    requires Ordered(ys, key)
    ensures Ordered(Insert(x, ys, key), key)
  {
    if ys == [] || key(x) <= key(ys[0]) {
    } else {
      var rest := Insert(x, ys[1..], key);
      InsertOrdered(x, ys[1..], key);
      forall j | 0 <= j < |rest| ensures key(ys[0]) <= key(rest[j]) {
        InsertElements(x, ys[1..], key);
        assert rest[j] in multiset(rest);
        assert rest[j] == x || rest[j] in ys[1..];
      }
    }
  }

  /** Sorting yields the same elements in ascending key order. */
  lemma {:induction false} SortedFacts<T(!new)>(xs: seq<T>, key: T -> real)
    ensures Ordered(Sorted(xs, key), key)
    ensures multiset(Sorted(xs, key)) == multiset(xs)
    ensures |Sorted(xs, key)| == |xs|
  {
    if xs != [] {
      hide Insert, Ordered;
      var first, rest := xs[0], Sorted(xs[1..], key);
      SortedFacts(xs[1..], key);
      InsertElements(first, rest, key);
      InsertOrdered(first, rest, key);
      FirstAndRest(xs);
    }
  }

  lemma FirstAndRest<T>(xs: seq<T>)
    requires xs != []
    ensures multiset(xs) == multiset{xs[0]} + multiset(xs[1..])
  {
    assert xs == [xs[0]] + xs[1..];
  }

  lemma SortedMembers<T(!new)>(xs: seq<T>, key: T -> real)
    ensures |Sorted(xs, key)| == |xs|
    ensures forall x :: x in Sorted(xs, key) <==> x in xs
  {
    SortedFacts(xs, key);
    forall x ensures x in Sorted(xs, key) <==> x in xs {
      assert x in Sorted(xs, key) <==> x in multiset(Sorted(xs, key));
      assert x in xs <==> x in multiset(xs);
    }
  }

  /** The last element of an ordered list has the largest key. */
  lemma OrderedLast<T(!new)>(xs: seq<T>, key: T -> real, x: T)
    requires Ordered(xs, key) && x in xs
    ensures key(x) <= key(xs[|xs| - 1])
  {
    var i :| 0 <= i < |xs| && xs[i] == x;
  }

  lemma {:induction false} InsertStable<T(!new)>(x: T, ys: seq<T>, key: T -> real, k: real)
    ensures WithKey(Insert(x, ys, key), key, k) == WithKey([x] + ys, key, k)
  {
    if ys == [] || key(x) <= key(ys[0]) {
    } else {
      InsertStable(x, ys[1..], key, k);
      var rest := Insert(x, ys[1..], key);
      assert ([ys[0]] + rest)[1..] == rest;
      assert ([x] + ys)[1..] == ys;
      assert ([x] + ys[1..])[1..] == ys[1..];
    }
  }

  /** Elements that share a key keep their relative order. */
  lemma {:induction false} SortedStable<T(!new)>(xs: seq<T>, key: T -> real, k: real)
    ensures WithKey(Sorted(xs, key), key, k) == WithKey(xs, key, k)
  {
    if xs != [] {
      var rest := Sorted(xs[1..], key);
      SortedStable(xs[1..], key, k);
      InsertStable(xs[0], rest, key, k);
      assert ([xs[0]] + rest)[1..] == rest;
    }
  }

  /** Where one element goes: before everything whose key is no smaller. */
  lemma {:induction false} InsertPosition<T(!new)>(x: T, ys: seq<T>, key: T -> real) returns (p: nat)
    ensures p <= |ys| && Insert(x, ys, key) == ys[..p] + [x] + ys[p..]
    ensures forall i :: 0 <= i < p ==> key(ys[i]) < key(x)
    ensures p < |ys| ==> key(x) <= key(ys[p])
  {
    if ys == [] || key(x) <= key(ys[0]) {
      p := 0;
    } else {
      var q := InsertPosition(x, ys[1..], key);
      p := q + 1;
      assert [ys[0]] + ys[1..][..q] == ys[..p] && ys[1..][q..] == ys[p..];
      assert forall i :: 0 < i < p ==> ys[i] == ys[1..][i - 1];
    }
  }

  /** Entry j goes before entry k: its key is smaller, or it was listed earlier. */
  ghost predicate Precedes<T(!new)>(xs: seq<T>, key: T -> real, j: nat, k: nat)
    requires j < |xs| && k < |xs|
  {
    key(xs[j]) < key(xs[k]) || (key(xs[j]) == key(xs[k]) && j < k)
  }

  /** ys lists every entry of xs once, in the order of Precedes; entry at[k] comes k-th. */
  ghost predicate Rearranged<T(!new)>(xs: seq<T>, key: T -> real, ys: seq<T>, at: seq<nat>) {
    && |ys| == |at| == |xs|
    && (forall k :: 0 <= k < |at| ==> at[k] < |xs|)
    && (forall k :: 0 <= k < |at| ==> ys[k] == xs[at[k]])
    && (forall i: nat :: i < |xs| ==> i in at)
    && (forall j, k :: 0 <= j < k < |at| ==> Precedes(xs, key, at[j], at[k]))
  }

  /** Sorting is one rearrangement of the list, the stable one. */
  lemma {:induction false} SortedPositions<T(!new)>(xs: seq<T>, key: T -> real) returns (at: seq<nat>)
    ensures Rearranged(xs, key, Sorted(xs, key), at)
  {
    if xs == [] {
      at := [];
    } else {
      var x, rest := xs[0], xs[1..];
      var before := SortedPositions(rest, key);
      var ys := Sorted(rest, key);
      SortedFacts(rest, key);
      var p := InsertPosition(x, ys, key);
      at := Moved(before)[..p] + [0] + Moved(before)[p..];
      PutFirst(xs, key, ys, before, at, Sorted(xs, key), p);
    }
  }

  function Moved(at: seq<nat>): (r: seq<nat>)
    ensures |r| == |at| && forall k :: 0 <= k < |at| ==> r[k] == at[k] + 1
  {
    seq(|at|, k requires 0 <= k < |at| => at[k] + 1)
  }

  lemma Spliced<T>(s: seq<T>, x: T, r: seq<T>, p: nat)
    requires p <= |s| && r == s[..p] + [x] + s[p..]
    ensures |r| == |s| + 1 && r[p] == x
    ensures forall k :: 0 <= k < p ==> r[k] == s[k]
    ensures forall k :: p < k < |r| ==> r[k] == s[k - 1]
  {
  }

  /** The first entry of xs joins the others, already in order, at place p. */
  lemma PutFirst<T(!new)>(xs: seq<T>, key: T -> real, ys: seq<T>, before: seq<nat>, at: seq<nat>, zs: seq<T>, p: nat)
    requires xs != [] && Rearranged(xs[1..], key, ys, before) && Ordered(ys, key) && p <= |ys|
    requires zs == ys[..p] + [xs[0]] + ys[p..] && at == Moved(before)[..p] + [0] + Moved(before)[p..]
    requires forall i :: 0 <= i < p ==> key(ys[i]) < key(xs[0])
    requires p < |ys| ==> key(xs[0]) <= key(ys[p])
    ensures Rearranged(xs, key, zs, at)
  {
    Spliced(ys, xs[0], zs, p);
    Spliced(Moved(before), 0, at, p);
    hide *;
    forall k | 0 <= k < |at| ensures at[k] < |xs| && zs[k] == xs[at[k]] {
      if k != p {
        assert xs[1..][before[if k < p then k else k - 1]] == xs[at[k]];
      }
    }
    forall i: nat | i < |xs| ensures i in at {
      AllListed(xs[1..], key, ys, before, at, p, i);
    }
    forall j, k | 0 <= j < k < |at| ensures Precedes(xs, key, at[j], at[k]) {
      InPlace(xs, key, ys, before, at, p, j, k);
    }
  }

  lemma AllListed<T(!new)>(rest: seq<T>, key: T -> real, ys: seq<T>, before: seq<nat>, at: seq<nat>, p: nat, i: nat)
    requires Rearranged(rest, key, ys, before) && |at| == |before| + 1 && p < |at| && i <= |rest|
    requires forall k :: 0 <= k < p ==> at[k] == before[k] + 1
    requires forall k :: p < k < |at| ==> at[k] == before[k - 1] + 1
    requires at[p] == 0
    ensures i in at
  {
    if i > 0 {
      assert i - 1 in before;
      var k :| 0 <= k < |before| && before[k] == i - 1;
      assert at[if k < p then k else k + 1] == i;
    }
  }

  lemma InPlace<T(!new)>(xs: seq<T>, key: T -> real, ys: seq<T>, before: seq<nat>, at: seq<nat>, p: nat, j: nat,
                         k: nat)
    requires xs != [] && Rearranged(xs[1..], key, ys, before) && Ordered(ys, key)
    requires |at| == |before| + 1 && p < |at| && j < k < |at|
    requires forall k :: 0 <= k < p ==> at[k] == before[k] + 1
    requires forall k :: p < k < |at| ==> at[k] == before[k - 1] + 1
    requires at[p] == 0
    requires forall i :: 0 <= i < p ==> key(ys[i]) < key(xs[0])
    requires p < |ys| ==> key(xs[0]) <= key(ys[p])
    ensures at[j] < |xs| && at[k] < |xs| && Precedes(xs, key, at[j], at[k])
  {
    if j == p {
      assert xs[at[k]] == ys[k - 1];
    } else if k == p {
      assert xs[at[j]] == ys[j];
    } else {
      var j', k' := if j < p then j else j - 1, if k < p then k else k - 1;
      assert Precedes(xs[1..], key, before[j'], before[k']);
    }
  }

  /** A list already in key order is left alone. */
  lemma {:induction false} SortedFixed<T(!new)>(xs: seq<T>, key: T -> real)
    requires Ordered(xs, key)
    ensures Sorted(xs, key) == xs
  {
    if xs != [] {
      SortedFixed(xs[1..], key);
      assert xs == [xs[0]] + xs[1..];
    }
  }

  /** No two different elements of xs share a key. */
  ghost predicate KeyIdentifies<T(!new)>(xs: seq<T>, key: T -> real) {
    forall x, y :: x in xs && y in xs && key(x) == key(y) ==> x == y
  }

  lemma OrderedHeads<T(!new)>(xs: seq<T>, ys: seq<T>, key: T -> real)
    requires Ordered(xs, key) && Ordered(ys, key) && KeyIdentifies(xs, key)
    requires multiset(xs) == multiset(ys) && xs != []
    ensures ys != [] && xs[0] == ys[0]
  {
    assert |multiset(ys)| == |multiset(xs)| > 0;
    assert xs[0] in multiset(ys) && ys[0] in multiset(xs);
    var i :| 0 <= i < |ys| && ys[i] == xs[0];
    var j :| 0 <= j < |xs| && xs[j] == ys[0];
    assert key(ys[0]) <= key(ys[i]);
    assert key(xs[0]) <= key(xs[j]);
  }

  lemma TailElements<T(!new)>(xs: seq<T>, ys: seq<T>)
    requires xs != [] && ys != [] && xs[0] == ys[0] && multiset(xs) == multiset(ys)
    ensures multiset(xs[1..]) == multiset(ys[1..])
  {
    assert xs == [xs[0]] + xs[1..] && ys == [ys[0]] + ys[1..];
    assert multiset(xs[1..]) == multiset(xs) - multiset{xs[0]};
    assert multiset(ys[1..]) == multiset(ys) - multiset{ys[0]};
  }

  lemma {:induction false} OrderedUnique<T(!new)>(xs: seq<T>, ys: seq<T>, key: T -> real)
    requires Ordered(xs, key) && Ordered(ys, key) && KeyIdentifies(xs, key)
    requires multiset(xs) == multiset(ys)
    ensures xs == ys
  {
    if xs == [] {
      assert |multiset(ys)| == 0;
    } else {
      OrderedHeads(xs, ys, key);
      TailElements(xs, ys);
      OrderedUnique(xs[1..], ys[1..], key);
      assert xs == [xs[0]] + xs[1..] && ys == [ys[0]] + ys[1..];
    }
  }

  /** Sorting a list without repeats yields one without repeats. */
  lemma NoRepeatsSorted<T(!new)>(xs: seq<T>, key: T -> real)
    requires NoRepeats(xs)
    ensures NoRepeats(Sorted(xs, key))
  {
    SortedFacts(xs, key);
    NoRepeatsMultiset(xs);
    var ys := Sorted(xs, key);
    if i, j :| 0 <= i < j < |ys| && ys[i] == ys[j] {
      RepeatsMultiset(ys, i, j);
      assert false;
    }
  }

  lemma {:induction false} NoRepeatsMultiset<T(!new)>(xs: seq<T>)
    requires NoRepeats(xs)
    ensures forall x :: multiset(xs)[x] <= 1
  {
    if xs != [] {
      var rest, last := xs[..|xs| - 1], xs[|xs| - 1];
      NoRepeatsMultiset(rest);
      assert xs == rest + [last];
      assert last !in rest;
    }
  }

  lemma RepeatsMultiset<T(!new)>(xs: seq<T>, i: nat, j: nat)
    requires i < j < |xs| && xs[i] == xs[j]
    ensures multiset(xs)[xs[i]] >= 2
  {
    assert xs == xs[..j] + xs[j..];
    assert xs[i] in xs[..j] && xs[j] in xs[j..];
    assert xs[i] in multiset(xs[..j]) && xs[j] in multiset(xs[j..]);
  }
}
