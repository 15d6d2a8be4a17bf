/** When the clamp to zero in a session's latency acts (_latency_s of
    paper_figures/build_fig_activation.py). */
module ClampFacts {
  import opened Common
  import opened Activation
  import opened CutFacts

  // When the clamp to zero can matter.

  /** The clamp leaves the latency of a set of rules as it is. */
  ghost predicate Unclamped(rules: seq<Rule>, task: Task, ds: seq<Delta>) {
    var e := Earliest(rules, |rules|, task, ds);
    e.Some? ==> ds != [] && LatencyOf(rules, task, ds) == Some((e.value - ds[0].t) / 1000.0)
  }

  /** No delta with text has an earlier time than the first delta. */
  ghost predicate FirstIsEarliest(ds: seq<Delta>) {
    forall k :: 0 <= k < |ds| && ds[k].text != "" ==> ds[0].t <= ds[k].t
  }

  lemma {:induction false} StampsBounded(ds: seq<Delta>, low: real)
    requires forall k :: 0 <= k < |ds| && ds[k].text != "" ==> low <= ds[k].t
    ensures forall c :: 0 <= c < |StampsOf(ds)| ==> low <= StampsOf(ds)[c]
    decreases |ds|
  {
    if ds != [] {
      StampsBounded(ds[..|ds| - 1], low);
    }
  }

  lemma NoneBeforeFirst(rule: Rule, ds: seq<Delta>)
    requires FirstIsEarliest(ds) && FireTime(rule, ds).Some?
    ensures ds != [] && ds[0].t <= FireTime(rule, ds).value
  {
    if ds != [] {
      StampsBounded(ds, ds[0].t);
    }
  }

  lemma NeverClamped(rules: seq<Rule>, task: Task, ds: seq<Delta>)
    requires FirstIsEarliest(ds)
    ensures Unclamped(rules, task, ds)
  {
    hide FireTime, Correct, Wins, Earliest;
    EarliestMeaning(rules, |rules|, task, ds);
    var e := Earliest(rules, |rules|, task, ds);
    if e.Some? {
      var i :| 0 <= i < |rules| && FiresCorrectly(rules, i, task, ds) && FireTime(rules[i], ds) == e;
      NoneBeforeFirst(rules[i], ds);
    }
  }

  /** The rule whose pattern is all the text up to the first character of delta k. */
  function PrefixRule(ds: seq<Delta>, k: nat): Rule
    requires k < |ds| && ds[k].text != ""
  {
    Rule("r", TextOf(ds[..k]) + ds[k].text[..1], ["key"])
  }

  lemma PrefixText(ds: seq<Delta>, k: nat)
    requires k < |ds| && ds[k].text != ""
    ensures PrefixRule(ds, k).pattern <= TextOf(ds)
    ensures StampsOf(ds)[|PrefixRule(ds, k).pattern| - 1] == ds[k].t
  {
    var front, d, rest := ds[..k], ds[k], ds[k + 1..];
    assert ds == (front + [d]) + rest;
    TextAppend(front + [d], rest);
    TextSnoc(front, d);
    hide TextOf, StampsOf, Repeat;
    HeadOfMiddle(TextOf(front), d.text, TextOf(rest));
    HeadOfMiddle(StampsOf(front), Repeat(d.t, |d.text|), StampsOf(rest));
  }

  lemma HeadOfMiddle<T>(a: seq<T>, b: seq<T>, c: seq<T>)
    requires b != []
    ensures a + b[..1] <= (a + b) + c && ((a + b) + c)[|a|] == b[0]
  {
    assert a + b == (a + b[..1]) + b[1..];
  }

  /** It fires at the time of delta k. */
  lemma PrefixRuleFires(ds: seq<Delta>, k: nat)
    requires k < |ds| && ds[k].text != ""
    ensures var task := Task(map["key" := {"f"}], {"f"});
      Earliest([PrefixRule(ds, k)], 1, task, ds) == Some(ds[k].t)
  {
    PrefixRuleFound(ds, k);
    var rule, task := PrefixRule(ds, k), Task(map["key" := {"f"}], {"f"});
    KeyCorrect(rule, "key", task);
    hide FireTime, TextOf, Correct;
    SingleRule(rule, task, ds);
  }

  lemma PrefixRuleFound(ds: seq<Delta>, k: nat)
    requires k < |ds| && ds[k].text != ""
    ensures FireTime(PrefixRule(ds, k), ds) == Some(ds[k].t)
  {
    PrefixText(ds, k);
    var pattern := PrefixRule(ds, k).pattern;
    assert pattern != "";
    hide TextOf, StampsOf, PrefixRule;
    assert MatchesAt(pattern, TextOf(ds), 0);
  }

  lemma SingleRule(rule: Rule, task: Task, ds: seq<Delta>)
    requires Correct(rule, task)
    ensures Earliest([rule], 1, task, ds) == FireTime(rule, ds)
  {
    DistinctRuleFiresIff([rule], 0, ds);
    hide FireTime, Wins, Correct;
    assert Earliest([rule], 0, task, ds) == None;
  }

  /** The clamp never changes the latency of any rules on any task if and only if no
      character of the session is earlier than its first delta. */
  lemma ClampIdleIff(perTurn: seq<TurnInfo>, turns: seq<TurnLog>)
    ensures var ds := Recording(turns, Offsets(perTurn));
      (forall rules, task :: Unclamped(rules, task, ds)) <==> FirstIsEarliest(ds)
  {
    hide Recording, Offsets, Unclamped;
    var ds := Recording(turns, Offsets(perTurn));
    if FirstIsEarliest(ds) {
      forall rules, task ensures Unclamped(rules, task, ds) {
        NeverClamped(rules, task, ds);
      }
    } else {
      var k :| 0 <= k < |ds| && ds[k].text != "" && ds[k].t < ds[0].t;
      PrefixRuleClamped(ds, k);
    }
  }

  lemma PrefixRuleClamped(ds: seq<Delta>, k: nat)
    requires k < |ds| && ds[k].text != "" && ds[k].t < ds[0].t
    ensures var rules, task := [PrefixRule(ds, k)], Task(map["key" := {"f"}], {"f"});
      LatencyOf(rules, task, ds) == Some(0.0) && !Unclamped(rules, task, ds)
  {
    PrefixRuleFires(ds, k);
    hide Earliest, PrefixRule;
  }

  /** A well-formed session: the summary lists turns 0, 1, 2, ... in order, the logged
      turns are among them in ascending order, and each turn's deltas are sorted and lie
      within its duration. */
  ghost predicate InTurnOrder(perTurn: seq<TurnInfo>, turns: seq<TurnLog>) {
    && (forall k :: 0 <= k < |perTurn| ==> perTurn[k].index == k && 0.0 <= perTurn[k].duration)
    && (forall i :: 0 <= i < |turns| ==> 0 <= turns[i].tid < |perTurn| && WithinTurn(turns[i], perTurn[turns[i].tid]))
    && (forall i, j :: 0 <= i < j < |turns| ==> turns[i].tid < turns[j].tid)
  }

  ghost predicate WithinTurn(turn: TurnLog, info: TurnInfo) {
    && (forall k :: 0 <= k < |turn.deltas| ==> 0.0 <= turn.deltas[k].t <= 1000.0 * info.duration)
    && (forall k, l :: 0 <= k < l < |turn.deltas| ==> turn.deltas[k].t <= turn.deltas[l].t)
  }

  ghost predicate Ascending(ds: seq<Delta>) {
    forall k, l :: 0 <= k < l < |ds| ==> ds[k].t <= ds[l].t
  }

  lemma {:induction false} OffsetsInOrder(perTurn: seq<TurnInfo>, k: int)
    requires forall i :: 0 <= i < |perTurn| ==> perTurn[i].index == i
    requires 0 <= k <= |perTurn|
    ensures k in Offsets(perTurn) && Offsets(perTurn)[k] == 1000.0 * Sum(Durations(perTurn)[..k])
    decreases |perTurn|
  {
    var n := |perTurn|;
    if n == 0 {
      assert Durations(perTurn)[..k] == [];
    } else {
      hide Sum;
      if k < n {
        OffsetsInOrder(perTurn[..n - 1], k);
        assert Durations(perTurn)[..k] == Durations(perTurn[..n - 1])[..k];
      } else {
        assert Durations(perTurn)[..k] == Durations(perTurn);
      }
    }
  }

  lemma OffsetStep(perTurn: seq<TurnInfo>, i: int, j: int)
    requires forall k :: 0 <= k < |perTurn| ==> perTurn[k].index == k && 0.0 <= perTurn[k].duration
    requires 0 <= i < j < |perTurn|
    ensures Offset(Offsets(perTurn), i) + 1000.0 * perTurn[i].duration <= Offset(Offsets(perTurn), j)
  {
    hide Offsets, Sum;
    OffsetsInOrder(perTurn, i);
    OffsetsInOrder(perTurn, j);
    SumStep(Durations(perTurn), i, j);
  }

  lemma SumStep(d: seq<real>, i: nat, j: nat)
    requires i < j <= |d| && forall k :: 0 <= k < |d| ==> 0.0 <= d[k]
    ensures Sum(d[..i]) + d[i] <= Sum(d[..j])
  {
    assert d[..i + 1] == d[..i] + [d[i]] && d[..j] == d[..i + 1] + d[i + 1..j];
    SumSnoc(d[..i], d[i]);
    SumAppend(d[..i + 1], d[i + 1..j]);
    SumNonNegative(d[i + 1..j]);
  }

  /** A well-formed session is recorded in time order. */
  lemma {:induction false} RecordingAscending(perTurn: seq<TurnInfo>, turns: seq<TurnLog>)
    requires InTurnOrder(perTurn, turns)
    ensures var ds := Recording(turns, Offsets(perTurn));
      Ascending(ds) && (ds != [] ==> turns != [] && ds[|ds| - 1].t <= TurnEnd(perTurn, turns[|turns| - 1].tid))
    decreases |turns|
  {
    hide Offsets, Offset, WithinTurn;
    if turns != [] {
      var n := |turns| - 1;
      var last := turns[n];
      RecordingAscending(perTurn, turns[..n]);
      InsideItsTurn(perTurn, turns, n);
      var before, offset := Recording(turns[..n], Offsets(perTurn)), Offset(Offsets(perTurn), last.tid);
      if before != [] {
        OffsetStep(perTurn, turns[n - 1].tid, last.tid);
      }
      AppendTurnAscending(before, last.deltas, offset, 1000.0 * perTurn[last.tid].duration);
    }
  }

  lemma InsideItsTurn(perTurn: seq<TurnInfo>, turns: seq<TurnLog>, i: nat)
    requires InTurnOrder(perTurn, turns) && i < |turns|
    ensures var deltas, length := turns[i].deltas, 1000.0 * perTurn[turns[i].tid].duration;
      0.0 <= length && Ascending(deltas) && forall k :: 0 <= k < |deltas| ==> 0.0 <= deltas[k].t <= length
  {
    assert WithinTurn(turns[i], perTurn[turns[i].tid]);
  }

  function TurnEnd(perTurn: seq<TurnInfo>, tid: int): real
    requires 0 <= tid < |perTurn|
  {
    Offset(Offsets(perTurn), tid) + 1000.0 * perTurn[tid].duration
  }

  lemma AppendTurnAscending(before: seq<Delta>, deltas: seq<Delta>, offset: real, length: real)
    requires Ascending(before) && (before != [] ==> before[|before| - 1].t <= offset)
    requires 0.0 <= length && Ascending(deltas)
    requires forall k :: 0 <= k < |deltas| ==> 0.0 <= deltas[k].t <= length
    ensures var ds := before + Shift(deltas, offset);
      Ascending(ds) && (ds != [] ==> ds[|ds| - 1].t <= offset + length)
  {
    var ds := before + Shift(deltas, offset);
    forall k, l | 0 <= k < l < |ds| ensures ds[k].t <= ds[l].t {
      if k < |before| <= l {
        assert before[k].t <= before[|before| - 1].t <= offset <= ds[l].t;
      }
    }
  }

  /** In a well-formed session the clamp is idle. */
  lemma ClampNeverBinds(rules: seq<Rule>, task: Task, perTurn: seq<TurnInfo>, turns: seq<TurnLog>)
    requires InTurnOrder(perTurn, turns)
    ensures Unclamped(rules, task, Recording(turns, Offsets(perTurn)))
  {
    hide Offsets, Recording, Unclamped;
    RecordingAscending(perTurn, turns);
    ClampIdleIff(perTurn, turns);
  }

  /** A turn missing from the summary starts at a default time, where a rule can fire
      before the first delta: the clamp then hides a negative latency. */
  lemma ClampCanBind()
    ensures var perTurn, turns := [TurnInfo(0, 5.0)], [TurnLog(0, [Delta(4000.0, "a")]), TurnLog(2, [Delta(0.0, "b")])];
      var rules, task := [Rule("r", "ab", ["key"])], Task(map["key" := {"f"}], {"f"});
      var ds := Recording(turns, Offsets(perTurn));
      && ds == [Delta(4000.0, "a"), Delta(2000.0, "b")] && !FirstIsEarliest(ds)
      && Earliest(rules, 1, task, ds) == Some(2000.0) && LatencyOf(rules, task, ds) == Some(0.0)
  {
    var perTurn, turns := [TurnInfo(0, 5.0)], [TurnLog(0, [Delta(4000.0, "a")]), TurnLog(2, [Delta(0.0, "b")])];
    var ds := [Delta(4000.0, "a"), Delta(2000.0, "b")];
    LateTurn(perTurn, turns);
    assert PrefixRule(ds, 1) == Rule("r", "ab", ["key"]) by {
      EmptyPatternAt(ds[0]);
      assert ds[..1] == [ds[0]] && "b"[..1] == "b" && "a" + "b" == "ab";
    }
    hide Recording, Offsets, PrefixRule, Earliest;
    PrefixRuleFires(ds, 1);
    PrefixRuleClamped(ds, 1);
  }

  lemma LateTurn(perTurn: seq<TurnInfo>, turns: seq<TurnLog>)
    requires perTurn == [TurnInfo(0, 5.0)]
    requires turns == [TurnLog(0, [Delta(4000.0, "a")]), TurnLog(2, [Delta(0.0, "b")])]
    ensures Recording(turns, Offsets(perTurn)) == [Delta(4000.0, "a"), Delta(2000.0, "b")]
  {
    var offsets := Offsets(perTurn);
    assert perTurn[..0] == [];
    assert Offsets([]) == map[0 := 0.0];
    assert offsets == map[0 := 0.0][1 := 1000.0 * Sum(Durations(perTurn))];
    assert turns[..1] == [turns[0]] && turns[..1][..0] == [];
    assert Recording(turns[..1], offsets) == [Delta(4000.0, "a")];
  }
}
