/** The nearest-rank percentile of scripts/microbench/proxy_overhead.py. */
module Percentile {
  import opened StableSort

  function Itself(x: real): real { x }

  /** Python's round(): to the nearest integer, halves to the even neighbour. */
  function RoundHalfEven(x: real): int {
    var f := x.Floor;
    var frac := x - f as real;
    if frac < 0.5 then f
    else if frac > 0.5 then f + 1
    else if f % 2 == 0 then f
    else f + 1
  }

  /** Rounding is the nearest integer, even on a tie, and never reverses an order. */
  lemma RoundHalfEvenFacts(x: real, y: real)
    ensures -0.5 <= x - RoundHalfEven(x) as real <= 0.5
    ensures x - RoundHalfEven(x) as real in {-0.5, 0.5} ==> RoundHalfEven(x) % 2 == 0
    ensures x <= y ==> RoundHalfEven(x) <= RoundHalfEven(y)
  {
    if x <= y {
      assert x.Floor <= y.Floor;
    }
  }

  /** The index _pct reads in a sorted list of n > 1 numbers, clamped at both ends. */
  function Rank(n: nat, q: real): (k: nat)
    requires n > 0
    ensures k < n
  {
    var k := RoundHalfEven(q / 100.0 * (n - 1) as real);
    var capped := if n - 1 < k then n - 1 else k;
    if capped < 0 then 0 else capped
  }

  function Pct(xs: seq<real>, q: real): real {
    if xs == [] then 0.0
    else
      SortedFacts(xs, Itself);
      var s := Sorted(xs, Itself);
      if |s| == 1 then s[0] else s[Rank(|s|, q)]
  }

  lemma RankMonotone(n: nat, p: real, q: real)
    requires n > 0 && p <= q
    ensures Rank(n, p) <= Rank(n, q)
  {
    var a, b := p / 100.0 * (n - 1) as real, q / 100.0 * (n - 1) as real;
    assert a <= b;
    RoundHalfEvenFacts(a, b);
    assert RoundHalfEven(a) <= RoundHalfEven(b);
  }

  /** How many of xs are at most v. */
  function CountLe(xs: seq<real>, v: real): nat {
    if xs == [] then 0 else (if xs[0] <= v then 1 else 0) + CountLe(xs[1..], v)
  }

  lemma {:induction false} CountInsert(x: real, ys: seq<real>, v: real)
    ensures CountLe(Insert(x, ys, Itself), v) == (if x <= v then 1 else 0) + CountLe(ys, v)
  {
    if ys == [] || Itself(x) <= Itself(ys[0]) {
      assert ([x] + ys)[1..] == ys;
    } else {
      CountInsert(x, ys[1..], v);
      var rest := Insert(x, ys[1..], Itself);
      assert ([ys[0]] + rest)[1..] == rest;
    }
  }

  lemma {:induction false} CountSorted(xs: seq<real>, v: real)
    ensures CountLe(Sorted(xs, Itself), v) == CountLe(xs, v)
  {
    if xs != [] {
      CountSorted(xs[1..], v);
      CountInsert(xs[0], Sorted(xs[1..], Itself), v);
    }
  }

  lemma {:induction false} CountOrdered(s: seq<real>, k: nat, v: real)
    requires Ordered(s, Itself) && k < |s|
    ensures s[k] <= v <==> k < CountLe(s, v)
  {
    assert forall j :: 0 < j < |s| ==> Itself(s[0]) <= Itself(s[j]);
    if k == 0 {
      if v < s[0] {
        CountNone(s, v);
      }
    } else {
      assert Ordered(s[1..], Itself) by {
        forall i, j | 0 <= i < j < |s[1..]| ensures Itself(s[1..][i]) <= Itself(s[1..][j]) {
          assert s[1..][i] == s[i + 1] && s[1..][j] == s[j + 1];
        }
      }
      CountOrdered(s[1..], k - 1, v);
      assert Itself(s[0]) <= Itself(s[k]);
      if v < s[0] {
        CountNone(s, v);
      }
    }
  }

  lemma {:induction false} CountNone(s: seq<real>, v: real)
    requires forall i :: 0 <= i < |s| ==> v < s[i]
    ensures CountLe(s, v) == 0
  {
    if s != [] {
      CountNone(s[1..], v);
    }
  }

  /** What a percentile means without sorting: it is one of the numbers, and it is
      at most v exactly when more than `rank` of the numbers are. */
  lemma PctMeaning(xs: seq<real>, q: real, v: real)
    requires xs != []
    ensures Pct(xs, q) in xs
    ensures Pct(xs, q) <= v <==> Rank(|xs|, q) < CountLe(xs, v)
  {
    SortedFacts(xs, Itself);
    SortedMembers(xs, Itself);
    CountSorted(xs, v);
    CountOrdered(Sorted(xs, Itself), Rank(|xs|, q), v);
  }

  lemma {:induction false} CountDominated(xs: seq<real>, ys: seq<real>, delta: real, v: real)
    requires |xs| == |ys| && forall i :: 0 <= i < |xs| ==> ys[i] <= xs[i] + delta
    ensures CountLe(xs, v) <= CountLe(ys, v + delta)
  {
    if xs != [] {
      CountDominated(xs[1..], ys[1..], delta, v);
    }
  }

  /** If every number moves up by at most delta, so does every percentile.  With
      delta zero this is dominance: pointwise smaller lists have smaller percentiles. */
  lemma PctShift(xs: seq<real>, ys: seq<real>, delta: real, q: real)
    requires |xs| == |ys| && xs != []
    requires forall i :: 0 <= i < |xs| ==> ys[i] <= xs[i] + delta
    ensures Pct(ys, q) <= Pct(xs, q) + delta
  {
    var v := Pct(xs, q);
    PctMeaning(xs, q, v);
    CountDominated(xs, ys, delta, v);
    PctMeaning(ys, q, v + delta);
  }

  /** A higher percentile is never a smaller number. */
  lemma PctMonotone(xs: seq<real>, p: real, q: real)
    requires p <= q
    ensures Pct(xs, p) <= Pct(xs, q)
  {
    if xs != [] {
      SortedFacts(xs, Itself);
      var s := Sorted(xs, Itself);
      RankMonotone(|s|, p, q);
      if Rank(|s|, p) < Rank(|s|, q) {
        assert Itself(s[Rank(|s|, p)]) <= Itself(s[Rank(|s|, q)]);
      }
    }
  }

  // The same without naming the rank.

  /** The positions of the numbers that are at most v. */
  function AtMost(xs: seq<real>, v: real): set<nat> {
    set i: nat | i < |xs| && xs[i] <= v
  }

  lemma {:induction false} CountSnoc(xs: seq<real>, x: real, v: real)
    ensures CountLe(xs + [x], v) == CountLe(xs, v) + if x <= v then 1 else 0
  {
    if xs != [] {
      CountSnoc(xs[1..], x, v);
      assert (xs + [x])[1..] == xs[1..] + [x];
    }
  }

  lemma {:induction false} CountIsSize(xs: seq<real>, v: real)
    ensures CountLe(xs, v) == |AtMost(xs, v)|
    decreases |xs|
  {
    if xs == [] {
      assert AtMost(xs, v) == {};
    } else {
      var n := |xs| - 1;
      CountIsSize(xs[..n], v);
      CountSnoc(xs[..n], xs[n], v);
      assert xs == xs[..n] + [xs[n]];
      assert AtMost(xs, v) == AtMost(xs[..n], v) + if xs[n] <= v then {n} else {};
    }
  }

  /** k is the whole number nearest to x, the even one of two, within 0 and n - 1. */
  ghost predicate NearestIndex(k: nat, x: real, n: nat) {
    && k < n
    && (x <= 0.0 ==> k == 0) && ((n - 1) as real <= x ==> k == n - 1)
    && (0.0 <= x <= (n - 1) as real ==>
          && -0.5 <= x - k as real <= 0.5
          && (x - k as real in {-0.5, 0.5} ==> k % 2 == 0))
  }

  lemma WholeNumber(x: real, m: int)
    ensures x <= m as real ==> RoundHalfEven(x) <= m
    ensures m as real <= x ==> m <= RoundHalfEven(x)
  {
  }

  /** What the nearest rank is: of n numbers in order, the one nearest to q percent of the
      way from the first to the last. */
  lemma RankIsNearest(n: nat, q: real)
    requires n > 0
    ensures NearestIndex(Rank(n, q), q / 100.0 * (n - 1) as real, n)
  {
    var x := q / 100.0 * (n - 1) as real;
    RoundHalfEvenFacts(x, x);
    WholeNumber(x, 0);
    WholeNumber(x, n - 1);
    hide RoundHalfEven;
  }

  /** A percentile is one of the numbers, and is at most v exactly when so many of the
      numbers are that the nearest rank is among them. */
  lemma PctNearest(xs: seq<real>, q: real) returns (k: nat)
    ensures xs == [] ==> Pct(xs, q) == 0.0
    ensures xs != [] ==> Pct(xs, q) in xs && NearestIndex(k, q / 100.0 * (|xs| - 1) as real, |xs|)
    ensures forall v :: xs != [] ==> (Pct(xs, q) <= v <==> k < |AtMost(xs, v)|)
  {
    k := 0;
    if xs != [] {
      k := Rank(|xs|, q);
      RankIsNearest(|xs|, q);
      PctMeaning(xs, q, 0.0);
      forall v ensures Pct(xs, q) <= v <==> k < |AtMost(xs, v)| {
        PctMeaning(xs, q, v);
        CountIsSize(xs, v);
      }
    }
  }
}
