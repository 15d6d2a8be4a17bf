/** Delivery of a recorded event stream through the capture proxy, and the latency
    statistics built on it (scripts/microbench/proxy_overhead.py). */
module ProxyOverhead {
  import opened Common
  import opened MaxPlus
  import opened Percentile
  import opened StableSort

  datatype Record = Record(tMs: Option<real>, thinking: bool)

  /** One recorded call: its records in emission order, rebased to start at zero. */
  datatype Session = Session(records: seq<Record>, emitMs: seq<real>, hasThinking: bool)

  function TimeOf(r: Record): real {
    if r.tMs.Some? then r.tMs.value else 0.0
  }

  function Rebased(records: seq<Record>, t0: real): (r: seq<real>)
    ensures |r| == |records|
    ensures forall i :: 0 <= i < |records| ==> r[i] == TimeOf(records[i]) - t0
  {
    seq(|records|, i requires 0 <= i < |records| => TimeOf(records[i]) - t0)
  }

  function MakeSession(recorded: seq<Record>): Session {
    var records := Sorted(recorded, TimeOf);
    var t0 := if records != [] then TimeOf(records[0]) else 0.0;
    Session(records, Rebased(records, t0), exists r :: r in records && r.thinking)
  }

  ghost predicate Ascending(xs: seq<real>) {
    forall i, j :: 0 <= i < j < |xs| ==> xs[i] <= xs[j]
  }

  /** A record's time; one without a time counts as zero. */
  ghost predicate Stamped(r: Record, t: real) {
    r.tMs == Some(t) || (r.tMs == None && t == 0.0)
  }

  /** A session keeps every record, starts at zero, emits in ascending order and
      preserves the recorded gaps between events. */
  lemma SessionFacts(recorded: seq<Record>)
    ensures var s := MakeSession(recorded);
      && multiset(s.records) == multiset(recorded)
      && |s.emitMs| == |recorded|
      && Ascending(s.emitMs)
      && (recorded != [] ==> s.emitMs[0] == 0.0)
      && (s.hasThinking <==> exists r :: r in recorded && r.thinking)
      && |s.records| == |recorded|
      && forall i, j, a, b ::
           0 <= i < |recorded| && 0 <= j < |recorded| && Stamped(s.records[i], a) && Stamped(s.records[j], b) ==>
             s.emitMs[j] - s.emitMs[i] == b - a
  {
    SortedFacts(recorded, TimeOf);
    SortedMembers(recorded, TimeOf);
    var s := MakeSession(recorded);
    assert Ascending(s.emitMs) by {
      forall i, j | 0 <= i < j < |s.emitMs| ensures s.emitMs[i] <= s.emitMs[j] {
        assert TimeOf(s.records[i]) <= TimeOf(s.records[j]);
      }
    }
  }

  /** When event i leaves the proxy. */
  function Delivered(emit: seq<real>, proc: seq<real>, i: nat): real
    requires i < |emit| && i < |proc|
  {
    Finish(emit[0], emit[..i + 1], proc[..i + 1])
  }

  /** Event i's delivery if event j was the last one the proxy had to wait for. */
  function Departure(emit: seq<real>, proc: seq<real>, j: nat, i: nat): real
    requires j <= i < |emit| && i < |proc|
  {
    emit[j] + Sum(proc[j..i + 1])
  }

  /** v is the maximum, over j at most i, of emit[j] + proc[j] + ... + proc[i]. */
  ghost predicate LatestDeparture(emit: seq<real>, proc: seq<real>, i: nat, v: real)
    requires i < |emit| && i < |proc|
  {
    && (forall j :: 0 <= j <= i ==> Departure(emit, proc, j, i) <= v)
    && (exists j :: 0 <= j <= i && v == Departure(emit, proc, j, i))
  }

  lemma DeliveredClosedForm(emit: seq<real>, proc: seq<real>, i: nat)
    requires i < |emit| && i < |proc|
    ensures LatestDeparture(emit, proc, i, Delivered(emit, proc, i))
  {
    var arrive, work, v := emit[..i + 1], proc[..i + 1], Delivered(emit, proc, i);
    ClosedForm(emit[0], arrive, work);
    assert work[0..] == work;
    forall j | 0 <= j <= i
      ensures Via(arrive, work, j) == Departure(emit, proc, j, i)
    {
      assert work[j..] == proc[j..i + 1];
    }
    if v == emit[0] + Sum(work) {
      assert v == Departure(emit, proc, 0, i);
    } else {
      var j :| 0 <= j < |arrive| && v == Via(arrive, work, j);
      assert v == Departure(emit, proc, j, i);
    }
  }

  lemma DeliveredStep(emit: seq<real>, proc: seq<real>, i: nat)
    requires i < |emit| && i < |proc|
    ensures i == 0 ==> Delivered(emit, proc, i) == emit[0] + proc[0]
    ensures i > 0 ==>
      Delivered(emit, proc, i) == Max(emit[i], Delivered(emit, proc, i - 1)) + proc[i]
  {
    assert emit[..i + 1][..i] == emit[..i] && proc[..i + 1][..i] == proc[..i];
    if i == 0 {
      assert Finish(emit[0], emit[..0], proc[..0]) == emit[0];
    }
  }

  /** fifo_deliver: one pass in event order, stopping at the shorter list. */
  method FifoDeliver(emit: seq<real>, proc: seq<real>) returns (recv: seq<real>)
    ensures |recv| == if |emit| < |proc| then |emit| else |proc|
    ensures forall i :: 0 <= i < |recv| ==> recv[i] == Delivered(emit, proc, i)
    ensures forall i :: 0 <= i < |recv| ==> LatestDeparture(emit, proc, i, recv[i])
  {
    recv := [];
    var prev := 0.0;
    var i := 0;
    while i < |emit| && i < |proc|
      invariant 0 <= i <= |emit| && i <= |proc| && |recv| == i
      invariant forall k :: 0 <= k < i ==> recv[k] == Delivered(emit, proc, k)
      invariant i > 0 ==> prev == recv[i - 1]
    {
      DeliveredStep(emit, proc, i);
      var start := if i == 0 then emit[i] else Max(emit[i], prev);
      prev := start + proc[i];
      recv := recv + [prev];
      i := i + 1;
    }
    forall k | 0 <= k < |recv| ensures LatestDeparture(emit, proc, k, recv[k]) {
      DeliveredClosedForm(emit, proc, k);
    }
  }

  ghost predicate NonNegative(xs: seq<real>) {
    forall i :: 0 <= i < |xs| ==> 0.0 <= xs[i]
  }

  /** Events leave in the order they came, and none leaves before it is emitted
      and processed. */
  lemma DeliveryOrder(emit: seq<real>, proc: seq<real>, i: nat, k: nat)
    requires i <= k < |emit| == |proc| && NonNegative(proc)
    ensures Delivered(emit, proc, i) <= Delivered(emit, proc, k)
    ensures emit[k] + proc[k] <= Delivered(emit, proc, k)
    decreases k - i
  {
    DeliveredStep(emit, proc, k);
    if i < k {
      DeliveryOrder(emit, proc, i, k - 1);
    }
  }

  /** The pacing skew of an event lies between its own processing time and all the
      processing done so far. */
  lemma SkewBounds(emit: seq<real>, proc: seq<real>, i: nat)
    requires i < |emit| == |proc| && NonNegative(proc) && Ascending(emit)
    ensures proc[i] <= Delivered(emit, proc, i) - emit[i] <= Sum(proc[..i + 1])
  {
    DeliveredStep(emit, proc, i);
    DeliveredClosedForm(emit, proc, i);
    var j :| 0 <= j <= i && Delivered(emit, proc, i) == Departure(emit, proc, j, i);
    var work := proc[..i + 1];
    SumSuffix(work, j);
    assert work[j..] == proc[j..i + 1];
    assert emit[j] <= emit[i];
  }

  /** A slower proxy delivers nothing earlier. */
  lemma DeliveryMonotone(emit: seq<real>, fast: seq<real>, slow: seq<real>, i: nat)
    requires i < |emit| == |fast| == |slow|
    requires forall k :: 0 <= k < |fast| ==> fast[k] <= slow[k]
    ensures Delivered(emit, fast, i) <= Delivered(emit, slow, i)
  {
    FinishMonotone(emit[0], emit[..i + 1], fast[..i + 1], slow[..i + 1]);
  }

  /** No processing is no proxy: events arrive when they are emitted. */
  lemma {:induction false} FreeDelivery(emit: seq<real>, proc: seq<real>, i: nat)
    requires i < |emit| == |proc| && Ascending(emit)
    requires forall k :: 0 <= k < |proc| ==> proc[k] == 0.0
    ensures Delivered(emit, proc, i) == emit[i]
  {
    DeliveredStep(emit, proc, i);
    if i > 0 {
      FreeDelivery(emit, proc, i - 1);
    }
  }

  /** "No buffering" made exact: every event is delayed by its own processing alone
      if and only if each is processed before the next one is emitted. */
  lemma PassThroughIff(emit: seq<real>, proc: seq<real>)
    requires |emit| == |proc|
    ensures (forall i :: 0 <= i < |emit| ==> Delivered(emit, proc, i) == emit[i] + proc[i])
       <==> (forall i :: 0 < i < |emit| ==> emit[i - 1] + proc[i - 1] <= emit[i])
  {
    if forall i :: 0 < i < |emit| ==> emit[i - 1] + proc[i - 1] <= emit[i] {
      forall i | 0 <= i < |emit| ensures Delivered(emit, proc, i) == emit[i] + proc[i] {
        NoQueue(emit, proc, i);
      }
    }
    if forall i :: 0 <= i < |emit| ==> Delivered(emit, proc, i) == emit[i] + proc[i] {
      forall i | 0 < i < |emit| ensures emit[i - 1] + proc[i - 1] <= emit[i] {
        DeliveredStep(emit, proc, i);
        assert Delivered(emit, proc, i - 1) == emit[i - 1] + proc[i - 1];
      }
    }
  }

  lemma {:induction false} NoQueue(emit: seq<real>, proc: seq<real>, i: nat)
    requires i < |emit| == |proc|
    requires forall k :: 0 < k < |emit| ==> emit[k - 1] + proc[k - 1] <= emit[k]
    ensures Delivered(emit, proc, i) == emit[i] + proc[i]
  {
    DeliveredStep(emit, proc, i);
    if i > 0 {
      NoQueue(emit, proc, i - 1);
    }
  }

  /** An event emitted while the one before it is still processed waits for it. */
  lemma QueueCanForm()
    ensures Delivered([0.0, 1.0], [2.0, 0.5], 1) == 2.5 && 1.0 + 0.5 < 2.5
  {
    DeliveredStep([0.0, 1.0], [2.0, 0.5], 0);
    DeliveredStep([0.0, 1.0], [2.0, 0.5], 1);
  }

  const MIN_EVENTS_OVERHEAD: nat := 10_000

  /** The numbers the overhead artifact is computed from.  latWith and latWithout
      hold one entry per replayed session, skews one per replayed event. */
  datatype Overhead = Overhead(
    latWithout: seq<real>, latWith: seq<real>, skews: seq<real>,
    nEvents: nat, nSessions: nat, p99Ratio: Option<real>)

  /** A corpus as load_sessions returns it: at least two events per session, in
      emission order. */
  ghost predicate Corpus(sessions: seq<Session>) {
    forall s :: s in sessions ==> |s.emitMs| >= 2 && Ascending(s.emitMs)
  }

  /** proc(k) is the measured per-event work of the k-th replay. */
  ghost predicate Measured(sessions: seq<Session>, proc: nat -> seq<real>) {
    sessions != [] ==>
      forall k: nat :: NonNegative(proc(k)) && |proc(k)| == |Replayed(sessions, k).emitMs|
  }

  /** The session replayed k-th, when the whole set is replayed over and over. */
  function Replayed(sessions: seq<Session>, k: nat): Session
    requires sessions != []
  {
    sessions[k % |sessions|]
  }

  function Last(xs: seq<real>): real
    requires xs != []
  {
    xs[|xs| - 1]
  }

  /** What replay k contributes: its span without the proxy, the delay of its last
      event with it, and no more extra than the work measured in it. */
  ghost predicate LatencyPair(emit: seq<real>, work: seq<real>, without: real, with: real) {
    && |emit| == |work| && emit != []
    && without == Last(emit) - emit[0]
    && with == Delivered(emit, work, |emit| - 1) - emit[0]
    && without <= with <= without + Sum(work)
  }

  lemma MultipleBeyond(n: nat, d: nat)
    requires d > 0
    ensures n <= n * d
  {
  }

  lemma RemainderUnique(k: nat, n: nat, q: nat, r: nat)
    requires r < n && k == n * q + r
    ensures k % n == r
  {
    var q' := k / n;
    assert k == n * q' + k % n;
    if q' < q {
      MultipleBeyond(n, q - q');
    } else if q < q' {
      MultipleBeyond(n, q' - q);
    }
  }

  /** Counting on from a multiple of n. */
  lemma CyclicOffset(k: nat, n: nat, i: nat)
    requires n > 0 && k % n == 0 && i <= n
    ensures (k + i) % n == if i == n then 0 else i
  {
    var q := k / n;
    assert k == n * q;
    if i == n {
      RemainderUnique(k + i, n, q + 1, 0);
    } else {
      RemainderUnique(k + i, n, q, i);
    }
  }

  ghost predicate AllPairs(sessions: seq<Session>, proc: nat -> seq<real>, without: seq<real>, with: seq<real>)
    requires sessions != []
  {
    && |without| == |with|
    && forall k :: 0 <= k < |with| ==>
         LatencyPair(Replayed(sessions, k).emitMs, proc(k), without[k], with[k])
  }

  /** The reported overhead ratio, absent when there is nothing to compare with. */
  function Ratio(with: real, without: real): (r: Option<real>)
    ensures r.Some? <==> without > 0.0
    ensures r.Some? ==> r.value * without == with
    ensures r.Some? && without <= with ==> r.value >= 1.0
  {
    if without > 0.0 then
      var r := with / without;
      assert r < 1.0 ==> r * without < without;
      Some(r)
    else None
  }

  /** How many events are replayed before replay k. */
  function EventsBefore(sessions: seq<Session>, k: nat): nat
    requires sessions != []
  {
    if k == 0 then 0 else EventsBefore(sessions, k - 1) + |Replayed(sessions, k - 1).emitMs|
  }

  /** The delay of event i of replay k: its latest departure minus its emission. */
  ghost predicate SkewAt(sessions: seq<Session>, proc: nat -> seq<real>, skews: seq<real>, k: nat, i: nat)
    requires sessions != []
  {
    var emit, place := Replayed(sessions, k).emitMs, EventsBefore(sessions, k) + i;
    && i < |emit| && i < |proc(k)| && place < |skews|
    && LatestDeparture(emit, proc(k), i, emit[i] + skews[place])
  }

  /** One delay per event of the first n replays, in order. */
  ghost predicate AllSkews(sessions: seq<Session>, proc: nat -> seq<real>, skews: seq<real>, n: nat)
    requires sessions != []
  {
    && |skews| == EventsBefore(sessions, n)
    && forall k, i :: 0 <= k < n && 0 <= i < |Replayed(sessions, k).emitMs| ==> SkewAt(sessions, proc, skews, k, i)
  }

  lemma ExtendSkews(sessions: seq<Session>, proc: nat -> seq<real>, skews: seq<real>, n: nat, more: seq<real>)
    requires sessions != [] && AllSkews(sessions, proc, skews, n)
    requires |more| == |Replayed(sessions, n).emitMs| == |proc(n)|
    requires forall i :: 0 <= i < |more| ==>
      LatestDeparture(Replayed(sessions, n).emitMs, proc(n), i, Replayed(sessions, n).emitMs[i] + more[i])
    ensures AllSkews(sessions, proc, skews + more, n + 1)
  {
    hide LatestDeparture, Replayed;
    forall k, i | 0 <= k < n + 1 && 0 <= i < |Replayed(sessions, k).emitMs|
      ensures SkewAt(sessions, proc, skews + more, k, i)
    {
      if k < n {
        assert SkewAt(sessions, proc, skews, k, i);
      }
    }
  }

  lemma ExtendPairs(sessions: seq<Session>, proc: nat -> seq<real>,
                    without: seq<real>, with: seq<real>, span: real, latency: real)
    requires sessions != [] && AllPairs(sessions, proc, without, with)
    requires LatencyPair(Replayed(sessions, |with|).emitMs, proc(|with|), span, latency)
    ensures AllPairs(sessions, proc, without + [span], with + [latency])
  {
    hide LatencyPair, Replayed;
  }

  /** What the first replays have been measured to take. */
  ghost predicate MeasuredSoFar(sessions: seq<Session>, proc: nat -> seq<real>, without: seq<real>, with: seq<real>,
                                skews: seq<real>)
    requires sessions != []
  {
    && AllPairs(sessions, proc, without, with)
    && AllSkews(sessions, proc, skews, |with|)
    && NonNegative(skews)
  }

  lemma NothingMeasured(sessions: seq<Session>, proc: nat -> seq<real>)
    ensures sessions != [] ==> EventsBefore(sessions, 0) == 0 && MeasuredSoFar(sessions, proc, [], [], [])
  {
  }

  lemma OneMoreReplay(sessions: seq<Session>, proc: nat -> seq<real>, without: seq<real>, with: seq<real>,
                      skews: seq<real>, span: real, latency: real, more: seq<real>)
    requires sessions != [] && MeasuredSoFar(sessions, proc, without, with, skews)
    requires var emit := Replayed(sessions, |with|).emitMs;
      && LatencyPair(emit, proc(|with|), span, latency) && |more| == |emit| == |proc(|with|)|
      && forall i :: 0 <= i < |emit| ==> LatestDeparture(emit, proc(|with|), i, emit[i] + more[i])
    requires NonNegative(more)
    ensures MeasuredSoFar(sessions, proc, without + [span], with + [latency], skews + more)
  {
    hide LatestDeparture, LatencyPair, Replayed, SkewAt;
    ExtendPairs(sessions, proc, without, with, span, latency);
    ExtendSkews(sessions, proc, skews, |with|, more);
    hide AllPairs, AllSkews;
  }

  lemma PlannedReplay(sessions: seq<Session>, proc: nat -> seq<real>, k: nat, i: nat)
    requires Corpus(sessions) && Measured(sessions, proc) && i < |sessions| && k % |sessions| == 0
    ensures Replayed(sessions, k + i) == sessions[i] && |sessions[i].emitMs| >= 2 && Ascending(sessions[i].emitMs)
    ensures NonNegative(proc(k + i)) && |proc(k + i)| == |sessions[i].emitMs|
  {
    CyclicOffset(k, |sessions|, i);
    assert sessions[i] in sessions;
    hide NonNegative, Ascending;
    assert |proc(k + i)| == |Replayed(sessions, k + i).emitMs|;
  }

  lemma SkewCount(sessions: seq<Session>, proc: nat -> seq<real>, without: seq<real>, with: seq<real>,
                  skews: seq<real>)
    requires sessions != [] && MeasuredSoFar(sessions, proc, without, with, skews)
    ensures |skews| == EventsBefore(sessions, |with|) && |without| == |with|
  {
  }

  lemma NoPercentile()
    ensures Pct([], 99.0) == 0.0
  {
  }

  /** One pass over all sessions. */
  method ReplayAll(sessions: seq<Session>, proc: nat -> seq<real>, without: seq<real>, with: seq<real>,
                   skews: seq<real>)
    returns (without': seq<real>, with': seq<real>, skews': seq<real>)
    requires Corpus(sessions) && Measured(sessions, proc) && sessions != []
    requires MeasuredSoFar(sessions, proc, without, with, skews) && |with| % |sessions| == 0
    ensures MeasuredSoFar(sessions, proc, without', with', skews') && |with'| == |with| + |sessions|
    ensures |with'| % |sessions| == 0 && |skews| < |skews'|
  {
    hide *;
    without', with', skews' := without, with, skews;
    for i := 0 to |sessions|
      invariant MeasuredSoFar(sessions, proc, without', with', skews') && |with'| == |with| + i
      invariant |skews| + i <= |skews'|
    {
      var emit, work := sessions[i].emitMs, proc(|with'|);
      PlannedReplay(sessions, proc, |with|, i);
      var span, latency, sessionSkews := ReplaySession(emit, work);
      OneMoreReplay(sessions, proc, without', with', skews', span, latency, sessionSkews);
      without', with', skews' := without' + [span], with' + [latency], skews' + sessionSkews;
    }
    CyclicOffset(|with|, |sessions|, |sessions|);
  }

  /** build_proxy_overhead: replay the whole set until enough events were seen, and no
      longer.  The proxy never improves the 99th percentile, and worsens it by at most the
      largest amount of work measured in one replay. */
  method BuildProxyOverhead(sessions: seq<Session>, proc: nat -> seq<real>, ghost budget: real)
    returns (o: Overhead)
    requires Corpus(sessions) && Measured(sessions, proc)
    ensures sessions == [] ==> o == Overhead([], [], [], 0, 0, None)
    ensures sessions != [] ==> MeasuredSoFar(sessions, proc, o.latWithout, o.latWith, o.skews)
    ensures o.nSessions == |o.latWith| && o.nEvents == |o.skews|
    ensures sessions != [] ==> o.nSessions % |sessions| == 0 && |sessions| <= o.nSessions
    ensures sessions != [] ==> EventsBefore(sessions, o.nSessions - |sessions|) < 10_000 <= o.nEvents
    ensures Pct(o.latWithout, 99.0) <= Pct(o.latWith, 99.0)
    ensures sessions != [] && (forall k :: 0 <= k < o.nSessions ==> Sum(proc(k)) <= budget) ==>
      Pct(o.latWith, 99.0) <= Pct(o.latWithout, 99.0) + budget
    ensures o.p99Ratio == Ratio(Pct(o.latWith, 99.0), Pct(o.latWithout, 99.0))
    ensures o.p99Ratio.Some? ==> o.p99Ratio.value >= 1.0
  {
    var latWithout: seq<real>, latWith: seq<real>, skews: seq<real> := [], [], [];
    NothingMeasured(sessions, proc);
    hide MeasuredSoFar, EventsBefore, Pct, Measured, Corpus;
    while |skews| < MIN_EVENTS_OVERHEAD
      invariant |latWith| == |latWithout|
      invariant sessions == [] ==> latWith == latWithout == skews == []
      invariant sessions != [] ==>
        MeasuredSoFar(sessions, proc, latWithout, latWith, skews) && |latWith| % |sessions| == 0
      invariant skews == [] || (sessions != [] && |sessions| <= |latWith|)
      invariant skews != [] ==> EventsBefore(sessions, |latWith| - |sessions|) < MIN_EVENTS_OVERHEAD
      decreases MIN_EVENTS_OVERHEAD - |skews|
    {
      if sessions == [] {
        break;
      }
      SkewCount(sessions, proc, latWithout, latWith, skews);
      latWithout, latWith, skews := ReplayAll(sessions, proc, latWithout, latWith, skews);
      SkewCount(sessions, proc, latWithout, latWith, skews);
    }
    if sessions != [] {
      Percentiles(sessions, proc, latWithout, latWith, skews, budget);
    } else {
      NoPercentile();
    }
    var ratio := Ratio(Pct(latWith, 99.0), Pct(latWithout, 99.0));
    o := Overhead(latWithout, latWith, skews, |skews|, |latWith|, ratio);
  }

  /** One replay: its span without the proxy, its latency with it, and its per-event delays. */
  method ReplaySession(emit: seq<real>, work: seq<real>) returns (span: real, latency: real, skews: seq<real>)
    requires |emit| == |work| && emit != [] && NonNegative(work) && Ascending(emit)
    ensures LatencyPair(emit, work, span, latency)
    ensures |skews| == |emit| && NonNegative(skews)
    ensures forall i :: 0 <= i < |emit| ==> LatestDeparture(emit, work, i, emit[i] + skews[i]) && work[i] <= skews[i]
  {
    hide LatestDeparture;
    var recv := FifoDeliver(emit, work);
    span, latency := Last(emit) - emit[0], Last(recv) - emit[0];
    skews := seq(|emit|, i requires 0 <= i < |emit| => recv[i] - emit[i]);
    forall i | 0 <= i < |emit|
      ensures work[i] <= skews[i] && emit[i] + skews[i] == recv[i]
    {
      SkewBounds(emit, work, i);
    }
    SkewBounds(emit, work, |emit| - 1);
    assert work[..|emit|] == work;
  }

  lemma Percentiles(sessions: seq<Session>, proc: nat -> seq<real>,
                    without: seq<real>, with: seq<real>, skews: seq<real>, budget: real)
    requires sessions != [] && MeasuredSoFar(sessions, proc, without, with, skews)
    ensures Pct(without, 99.0) <= Pct(with, 99.0)
    ensures (forall k :: 0 <= k < |with| ==> Sum(proc(k)) <= budget) && |with| > 0 ==>
      Pct(with, 99.0) <= Pct(without, 99.0) + budget
  {
    if |with| > 0 {
      forall k | 0 <= k < |with| ensures without[k] <= with[k] + 0.0 {
        assert LatencyPair(Replayed(sessions, k).emitMs, proc(k), without[k], with[k]);
      }
      PctShift(with, without, 0.0, 99.0);
      if forall k :: 0 <= k < |with| ==> Sum(proc(k)) <= budget {
        forall k | 0 <= k < |with| ensures with[k] <= without[k] + budget {
          assert LatencyPair(Replayed(sessions, k).emitMs, proc(k), without[k], with[k]);
        }
        PctShift(without, with, budget, 99.0);
      }
    }
  }
}
