/** Small arithmetic and text vocabulary shared by every model in the project. */
module Common {

  datatype Option<+T> = None | Some(value: T)

  ghost predicate NoRepeats<T(!new)>(xs: seq<T>) {
    forall i, j :: 0 <= i < j < |xs| ==> xs[i] != xs[j]
  }

  function Max(a: real, b: real): (m: real)
    ensures a <= m && b <= m && (m == a || m == b)
  {
    if a < b then b else a
  }

  function Min(a: real, b: real): (m: real)
    ensures m <= a && m <= b && (m == a || m == b)
  {
    if b < a then b else a
  }

  /** A list of positions, from left to right. */
  ghost predicate Ascends(at: seq<nat>) {
    forall i, j :: 0 <= i < j < |at| ==> at[i] < at[j]
  }

  lemma AscendsNone()
    ensures Ascends([])
  {
  }

  lemma AscendsSnoc(at: seq<nat>, p: nat)
    requires Ascends(at) && forall i: nat :: i in at ==> i < p
    ensures Ascends(at + [p])
  {
    assert forall i :: 0 <= i < |at| ==> at[i] in at;
  }

  lemma AscendsPut(p: nat, at: seq<nat>)
    requires Ascends(at) && forall i: nat :: i in at ==> p < i
    ensures Ascends([p] + at)
  {
    assert forall i :: 0 <= i < |at| ==> at[i] in at;
  }

  lemma FirstPlaces(all: seq<nat>, at: seq<nat>, n: nat)
    requires Ascends(all) && n <= |all| && at == all[..n]
    ensures Ascends(at) && forall i: nat :: i in at ==> i in all
    ensures forall i: nat :: i in all && i !in at ==> n < |all| && forall k :: 0 <= k < n ==> at[k] < i
  {
    forall i: nat | i in all && i !in at ensures n < |all| && forall k :: 0 <= k < n ==> at[k] < i {
      assert forall x :: 0 <= x < n ==> at[x] == all[x] && at[x] in at;
      var j :| 0 <= j < |all| && all[j] == i;
    }
  }

  lemma {:induction false} AscendsCount(at: seq<nat>, places: set<nat>)
    requires Ascends(at) && forall i: nat :: i in at <==> i in places
    ensures |places| == |at|
    decreases |at|
  {
    if at == [] {
      assert places == {};
    } else {
      var n := |at| - 1;
      var front, last := at[..n], at[n];
      assert at == front + [last];
      assert forall i :: 0 <= i < n ==> front[i] == at[i];
      assert last !in front;
      AscendsCount(front, places - {last});
      assert last in at;
    }
  }

  /** text is the pieces one after the other: piece k lies from cut k to cut k + 1. */
  ghost predicate InPieces(text: string, pieces: seq<string>, cuts: seq<nat>) {
    && |cuts| == |pieces| + 1 && cuts[0] == 0 && cuts[|pieces|] == |text|
    && forall k :: 0 <= k < |pieces| ==> PieceAt(text, pieces[k], cuts[k], cuts[k + 1])
  }

  ghost predicate PieceAt(text: string, piece: string, lo: nat, hi: nat) {
    lo + |piece| == hi <= |text| && text[lo..hi] == piece
  }

  lemma InPiecesSnoc(text: string, pieces: seq<string>, cuts: seq<nat>, piece: string)
    requires InPieces(text, pieces, cuts)
    ensures InPieces(text + piece, pieces + [piece], cuts + [|text| + |piece|])
  {
    var text', cuts' := text + piece, cuts + [|text| + |piece|];
    forall k | 0 <= k <= |pieces| ensures PieceAt(text', (pieces + [piece])[k], cuts'[k], cuts'[k + 1]) {
      if k < |pieces| {
        assert PieceAt(text, pieces[k], cuts[k], cuts[k + 1]);
        assert text'[cuts[k]..cuts[k + 1]] == text[cuts[k]..cuts[k + 1]];
      }
    }
  }

  /** The total of a list, as an accumulator that walks it from the left reaches it. */
  function Sum(xs: seq<real>): real {
    if |xs| == 0 then 0.0 else Sum(xs[..|xs| - 1]) + xs[|xs| - 1]
  }

  lemma SumSnoc(xs: seq<real>, x: real)
    ensures Sum(xs + [x]) == Sum(xs) + x
  {
    assert (xs + [x])[..|xs|] == xs;
  }

  lemma {:induction false} SumAppend(xs: seq<real>, ys: seq<real>)
    ensures Sum(xs + ys) == Sum(xs) + Sum(ys)
    decreases |ys|
  {
    if |ys| == 0 {
      assert xs + ys == xs;
    } else {
      var n := |ys| - 1;
      SumAppend(xs, ys[..n]);
      assert (xs + ys)[..|xs + ys| - 1] == xs + ys[..n];
    }
  }

  lemma {:induction false} SumNonNegative(xs: seq<real>)
    requires forall i :: 0 <= i < |xs| ==> 0.0 <= xs[i]
    ensures 0.0 <= Sum(xs)
    decreases |xs|
  {
    if |xs| != 0 {
      SumNonNegative(xs[..|xs| - 1]);
    }
  }

  lemma {:induction false} SumMonotone(xs: seq<real>, ys: seq<real>)
    requires |xs| == |ys| && forall i :: 0 <= i < |xs| ==> xs[i] <= ys[i]
    ensures Sum(xs) <= Sum(ys)
    decreases |xs|
  {
    if |xs| != 0 {
      SumMonotone(xs[..|xs| - 1], ys[..|xs| - 1]);
    }
  }

  lemma {:induction false} SumAtMost(xs: seq<real>, bound: real)
    requires forall i :: 0 <= i < |xs| ==> xs[i] <= bound
    ensures Sum(xs) <= |xs| as real * bound
    decreases |xs|
  {
    if |xs| != 0 {
      var n := |xs| - 1;
      SumAtMost(xs[..n], bound);
      assert (n + 1) as real * bound == n as real * bound + bound;
    }
  }

  /** A tail of a list of non-negative terms weighs at most the whole list. */
  lemma SumSuffix(xs: seq<real>, j: nat)
    requires j <= |xs|
    requires forall i :: 0 <= i < |xs| ==> 0.0 <= xs[i]
    ensures Sum(xs[j..]) <= Sum(xs)
  {
    SumNonNegative(xs[..j]);
    SumAppend(xs[..j], xs[j..]);
    assert xs == xs[..j] + xs[j..];
  }

  // Decimal rendering, as Python's str() and f-strings print an integer.

  function Digit(d: nat): char
    requires d < 10
  {
    "0123456789"[d]
  }

  function Digits(n: nat): (s: string)
    ensures |s| > 0
    ensures forall i :: 0 <= i < |s| ==> '0' <= s[i] <= '9'
  {
    if n < 10 then [Digit(n)] else Digits(n / 10) + [Digit(n % 10)]
  }

  function Decimal(n: int): (s: string)
    ensures |s| > 0
    ensures forall i :: 0 <= i < |s| ==> s[i] != '_' && s[i] != ':'
  {
    if n < 0 then ['-'] + Digits(-n) else Digits(n)
  }

  lemma DigitsEnd(n: nat)
    ensures Digits(n)[|Digits(n)| - 1] == Digit(n % 10)
    ensures n < 10 <==> |Digits(n)| == 1
    ensures n >= 10 ==> Digits(n)[..|Digits(n)| - 1] == Digits(n / 10)
  {
  }

  lemma {:induction false} DigitsInjective(m: nat, n: nat)
    requires Digits(m) == Digits(n)
    ensures m == n
  {
    DigitsEnd(m);
    DigitsEnd(n);
    if m >= 10 {
      DigitsInjective(m / 10, n / 10);
    }
    SameDigit(m % 10, n % 10);
  }

  /** The number a string of digits stands for. */
  function NumberOf(s: string): int {
    if s == "" then 0 else 10 * NumberOf(s[..|s| - 1]) + (s[|s| - 1] as int - '0' as int)
  }

  lemma {:induction false} DigitsRead(n: nat)
    ensures NumberOf(Digits(n)) == n
  {
    DigitsEnd(n);
    if n < 10 {
      assert Digits(n)[..0] == "";
    } else {
      DigitsRead(n / 10);
    }
  }

  /** Printed numbers read back. */
  lemma DecimalRead(n: int)
    ensures 0 <= n ==> NumberOf(Decimal(n)) == n
    ensures n < 0 ==> Decimal(n)[0] == '-' && NumberOf(Decimal(n)[1..]) == -n
  {
    DigitsRead(if n < 0 then -n else n);
    if n < 0 {
      assert Decimal(n)[1..] == Digits(-n);
    }
  }

  lemma SameDigit(c: nat, d: nat)
    requires c < 10 && d < 10 && Digit(c) == Digit(d)
    ensures c == d
  {
  }

  lemma DecimalInjective(m: int, n: int)
    requires Decimal(m) == Decimal(n)
    ensures m == n
  {
    assert m < 0 <==> Decimal(m)[0] == '-';
    assert n < 0 <==> Decimal(n)[0] == '-';
    if m < 0 {
      assert Digits(-m) == Decimal(m)[1..] == Digits(-n);
      DigitsInjective(-m, -n);
    } else {
      DigitsInjective(m, n);
    }
  }
}
