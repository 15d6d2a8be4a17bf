/** The max-plus (Lindley) recursion of a single server that waits for each
    arrival and then works on it.  It describes both the proxy's in-order event
    delivery and the replay clock, which sleeps until a block's recorded time and
    then spends time in the detector. */
module MaxPlus {
  import opened Common

  /** The server's clock after the last job, from an idle server at `start`. */
  function Finish(start: real, arrive: seq<real>, work: seq<real>): real
    requires |arrive| == |work|
    decreases |arrive|
  {
    var n := |arrive| - 1;
    if n < 0 then start
    else Max(arrive[n], Finish(start, arrive[..n], work[..n])) + work[n]
  }

  /** Finish, if job j were the last one the server had to wait for. */
  function Via(arrive: seq<real>, work: seq<real>, j: nat): real
    requires |arrive| == |work| && j < |arrive|
  {
    arrive[j] + Sum(work[j..])
  }

  ghost predicate Bounds(start: real, arrive: seq<real>, work: seq<real>, v: real)
    requires |arrive| == |work|
  {
    && start + Sum(work) <= v
    && forall j :: 0 <= j < |arrive| ==> Via(arrive, work, j) <= v
  }

  ghost predicate Attained(start: real, arrive: seq<real>, work: seq<real>, v: real)
    requires |arrive| == |work|
  {
    || v == start + Sum(work)
    || exists j :: 0 <= j < |arrive| && v == Via(arrive, work, j)
  }

  lemma ViaPrefix(arrive: seq<real>, work: seq<real>, j: nat)
    requires |arrive| == |work| && j < |arrive| - 1
    ensures Via(arrive, work, j)
         == Via(arrive[..|arrive| - 1], work[..|arrive| - 1], j) + work[|arrive| - 1]
  {
    var n := |arrive| - 1;
    assert work[j..][..|work[j..]| - 1] == work[..n][j..];
  }

  /** The closed form: the clock is the largest of "started idle" and "waited
      last for job j", over all jobs j. */
  lemma {:induction false} ClosedForm(start: real, arrive: seq<real>, work: seq<real>)
    requires |arrive| == |work|
    ensures Bounds(start, arrive, work, Finish(start, arrive, work))
    ensures Attained(start, arrive, work, Finish(start, arrive, work))
    decreases |arrive|
  {
    var n := |arrive| - 1;
    if n >= 0 {
      var before := Finish(start, arrive[..n], work[..n]);
      ClosedForm(start, arrive[..n], work[..n]);
      assert work[n..] == [work[n]] && Sum([work[n]]) == work[n];
      assert Via(arrive, work, n) == arrive[n] + work[n];
      forall j | 0 <= j < n
        ensures Via(arrive, work, j) == Via(arrive[..n], work[..n], j) + work[n]
      {
        ViaPrefix(arrive, work, j);
      }
    }
  }

  /** The work is done by a deadline exactly when every way of being late is. */
  lemma FinishAtMost(start: real, arrive: seq<real>, work: seq<real>, deadline: real)
    requires |arrive| == |work|
    ensures Finish(start, arrive, work) <= deadline <==> Bounds(start, arrive, work, deadline)
  {
    ClosedForm(start, arrive, work);
  }

  function Shift(d: real, xs: seq<real>): (r: seq<real>)
    ensures |r| == |xs| && forall i :: 0 <= i < |xs| ==> r[i] == d + xs[i]
  {
    seq(|xs|, i requires 0 <= i < |xs| => d + xs[i])
  }

  /** Starting everything d later finishes everything d later. */
  lemma {:induction false} FinishShift(d: real, start: real, arrive: seq<real>, work: seq<real>)
    requires |arrive| == |work|
    ensures Finish(d + start, Shift(d, arrive), work) == d + Finish(start, arrive, work)
    decreases |arrive|
  {
    var n := |arrive| - 1;
    if n >= 0 {
      FinishShift(d, start, arrive[..n], work[..n]);
      assert Shift(d, arrive)[..n] == Shift(d, arrive[..n]);
    }
  }

  /** More work never finishes earlier. */
  lemma {:induction false} FinishMonotone(start: real, arrive: seq<real>, less: seq<real>, more: seq<real>)
    requires |arrive| == |less| == |more|
    requires forall i :: 0 <= i < |less| ==> less[i] <= more[i]
    ensures Finish(start, arrive, less) <= Finish(start, arrive, more)
    decreases |arrive|
  {
    var n := |arrive| - 1;
    if n >= 0 {
      FinishMonotone(start, arrive[..n], less[..n], more[..n]);
    }
  }
}
