/** What the replay clock proves about the measurement: hold the trajectory fixed, vary
    only the run (scripts/microbench/replay_session.py). */
module Isolation {
  import opened Common
  import opened MaxPlus
  import opened Trajectory
  import opened Replay

  /** Seconds by which detector and dispatch push a turn past its streaming budget. */
  function Overrun(turn: Turn, run: TurnRun, cap: real): real
    requires |run.blockWork| == |turn.blocks|
  {
    StreamPhase(turn, run, cap) - Budget(turn, cap)
  }

  /** Timestamps are milliseconds since the turn began, and the cap is a duration. */
  ghost predicate Recorded(turn: Turn, cap: real) {
    && Budgeted(turn) && 0.0 <= cap
    && forall b :: b in turn.blocks ==> 0.0 <= b.tStopMs
  }

  /** Overhead is fully hidden in a turn's stream phase, which then ends exactly at its
      budget, if and only if for every block the work from it onward still fits between
      its recorded time and the budget. */
  lemma HiddenIff(turn: Turn, run: TurnRun, cap: real)
    requires Recorded(turn, cap) && Fits(run, turn)
    ensures StreamPhase(turn, run, cap) == Budget(turn, cap) <==>
      forall j :: 0 <= j < |turn.blocks| ==>
        Min(turn.blocks[j].tStopMs / 1000.0, cap) + Sum(run.blockWork[j..]) <= Budget(turn, cap)
  {
    hide Finish, Budget, Bounds, Slack, StreamPhase, Sum;
    var arrive, work, budget := Targets(turn.blocks, cap), run.blockWork, Budget(turn, cap);
    BudgetCovers(turn, cap);
    FirstTarget(turn, cap);
    FinishAtMost(0.0, arrive, work, budget);
    AfterZero(arrive, work, budget);
    BlockSlack(turn.blocks, work, cap, budget);
    PhaseAtBudget(turn, run, cap);
    hide *;
  }

  lemma PhaseAtBudget(turn: Turn, run: TurnRun, cap: real)
    requires |run.blockWork| == |turn.blocks|
    ensures StreamPhase(turn, run, cap) == Budget(turn, cap) <==>
      Finish(0.0, Targets(turn.blocks, cap), run.blockWork) <= Budget(turn, cap)
  {
    hide Finish, Budget, Targets;
  }

  lemma FirstTarget(turn: Turn, cap: real)
    requires Recorded(turn, cap)
    ensures turn.blocks != [] ==> 0.0 <= Targets(turn.blocks, cap)[0]
  {
    if turn.blocks != [] {
      assert turn.blocks[0] in turn.blocks;
    }
  }

  /** The work from each job onward fits between its arrival and the deadline. */
  ghost predicate Slack(arrive: seq<real>, work: seq<real>, deadline: real)
    requires |arrive| == |work|
  {
    forall j :: 0 <= j < |arrive| ==> Via(arrive, work, j) <= deadline
  }

  lemma BlockSlack(blocks: seq<Block>, work: seq<real>, cap: real, deadline: real)
    requires |work| == |blocks|
    ensures Slack(Targets(blocks, cap), work, deadline) <==>
      forall j :: 0 <= j < |blocks| ==> Min(blocks[j].tStopMs / 1000.0, cap) + Sum(work[j..]) <= deadline
  {
    hide Sum;
    var arrive := Targets(blocks, cap);
    assert forall j :: 0 <= j < |blocks| ==>
      Via(arrive, work, j) == Min(blocks[j].tStopMs / 1000.0, cap) + Sum(work[j..]);
  }

  /** When nothing arrives before the start, doing all the work back to back is covered by
      waiting for the first job. */
  lemma AfterZero(arrive: seq<real>, work: seq<real>, deadline: real)
    requires |arrive| == |work| && 0.0 <= deadline
    requires arrive != [] ==> 0.0 <= arrive[0]
    ensures Bounds(0.0, arrive, work, deadline) <==> Slack(arrive, work, deadline)
  {
    if arrive == [] {
      assert Sum(work) == 0.0;
    } else {
      hide Sum;
      assert work[0..] == work;
      assert Sum(work) <= Via(arrive, work, 0);
    }
  }

  /** When it is not hidden, the phase ends at the latest of the budget, of all the work
      done back to back, and of each block's time plus the work from it onward. */
  lemma StreamPhaseClosedForm(turn: Turn, run: TurnRun, cap: real)
    requires Fits(run, turn)
    ensures var phase, arrive := StreamPhase(turn, run, cap), Targets(turn.blocks, cap);
      && Budget(turn, cap) <= phase && Bounds(0.0, arrive, run.blockWork, phase)
      && (phase == Budget(turn, cap) || Attained(0.0, arrive, run.blockWork, phase))
  {
    ClosedForm(0.0, Targets(turn.blocks, cap), run.blockWork);
  }

  /** The stream cap, whatever the blocks: the phase lasts at least the smaller of the turn's
      streaming time and the cap, at most that plus all work done in it, and when the work
      is free exactly that, so that a stalled turn takes no longer than the cap. */
  lemma CappedPhase(turn: Turn, run: TurnRun, cap: real)
    requires Recorded(turn, cap) && Fits(run, turn)
    ensures var phase, stream := StreamPhase(turn, run, cap), turn.impliedStreamS;
      && (if stream <= cap then stream <= phase <= stream + Sum(run.blockWork)
          else cap <= phase <= cap + Sum(run.blockWork))
      && ((forall j :: 0 <= j < |run.blockWork| ==> run.blockWork[j] == 0.0) ==>
            phase <= cap && phase == if stream <= cap then stream else cap)
  {
    OverrunBounds(turn, run, cap);
    hide StreamPhase, Sum;
    if forall j :: 0 <= j < |run.blockWork| ==> run.blockWork[j] == 0.0 {
      FreeSum(run.blockWork);
    }
  }

  // A session's time, by cause.

  function Budgets(turns: seq<Turn>, cap: real): real {
    if turns == [] then 0.0 else Budgets(turns[..|turns| - 1], cap) + Budget(turns[|turns| - 1], cap)
  }

  /** Total time of the executed tools. */
  function ToolSeconds(turns: seq<Turn>, runs: seq<TurnRun>): real
    requires AllFit(turns, runs)
  {
    if turns == [] then 0.0
    else
      var n := |turns| - 1;
      ToolSeconds(turns[..n], runs[..n]) + ExecTime(turns[n].tools, runs[n].toolTime)
  }

  /** Total overhead that the recorded streaming does not absorb: overruns of the
      stream phase, and all work on tool results. */
  function Exposed(turns: seq<Turn>, runs: seq<TurnRun>, cap: real): real
    requires AllFit(turns, runs)
  {
    if turns == [] then 0.0
    else
      var n := |turns| - 1;
      Exposed(turns[..n], runs[..n], cap) + Overrun(turns[n], runs[n], cap) + ResultTime(turns[n], runs[n])
  }

  lemma {:induction false} TimeByCause(turns: seq<Turn>, runs: seq<TurnRun>, cap: real)
    requires AllFit(turns, runs)
    ensures SessionTime(turns, runs, cap)
         == Budgets(turns, cap) + ToolSeconds(turns, runs) + Exposed(turns, runs, cap)
    decreases |turns|
  {
    if turns != [] {
      TimeByCause(turns[..|turns| - 1], runs[..|turns| - 1], cap);
    }
  }

  lemma {:induction false} ExposedNonNegative(turns: seq<Turn>, runs: seq<TurnRun>, cap: real)
    requires AllFit(turns, runs)
    ensures 0.0 <= Exposed(turns, runs, cap)
    decreases |turns|
  {
    if turns != [] {
      ExposedNonNegative(turns[..|turns| - 1], runs[..|turns| - 1], cap);
    }
  }

  /** The detector and dispatch work that is measured in each turn. */
  function TurnWork(turns: seq<Turn>, runs: seq<TurnRun>): (r: seq<real>)
    requires AllFit(turns, runs)
    ensures |r| == |turns|
    ensures forall i :: 0 <= i < |turns| ==> r[i] == Sum(runs[i].blockWork) + ResultTime(turns[i], runs[i])
  {
    seq(|turns|, i requires 0 <= i < |turns| => Sum(runs[i].blockWork) + ResultTime(turns[i], runs[i]))
  }

  /** Total detector and dispatch work that is measured in a session. */
  function Work(turns: seq<Turn>, runs: seq<TurnRun>): real
    requires AllFit(turns, runs)
  {
    Sum(TurnWork(turns, runs))
  }

  lemma WorkSnoc(turns: seq<Turn>, runs: seq<TurnRun>)
    requires AllFit(turns, runs) && turns != []
    ensures var n := |turns| - 1;
      Work(turns, runs) == Work(turns[..n], runs[..n]) + Sum(runs[n].blockWork) + ResultTime(turns[n], runs[n])
  {
    var n := |turns| - 1;
    hide ResultTime;
    assert TurnWork(turns, runs)[..n] == TurnWork(turns[..n], runs[..n]);
  }

  lemma BudgetCovers(turn: Turn, cap: real)
    requires Recorded(turn, cap)
    ensures 0.0 <= Budget(turn, cap)
    ensures forall b :: b in turn.blocks ==> 0.0 <= Min(b.tStopMs / 1000.0, cap) <= Budget(turn, cap)
  {
    if turn.blocks != [] {
      var b :| b in turn.blocks && b.tStopMs == turn.lastDeltaMs;
      assert 0.0 <= b.tStopMs;
    }
  }

  /** A turn's stream phase runs past its budget by no more than the work done in it. */
  lemma OverrunBounds(turn: Turn, run: TurnRun, cap: real)
    requires Recorded(turn, cap) && Fits(run, turn)
    ensures 0.0 <= Overrun(turn, run, cap) <= Sum(run.blockWork)
  {
    var arrive, work, budget := Targets(turn.blocks, cap), run.blockWork, Budget(turn, cap);
    BudgetCovers(turn, cap);
    SumNonNegative(work);
    hide Budget, Sum, Finish;
    forall j | 0 <= j < |arrive| ensures Via(arrive, work, j) <= budget + Sum(work) {
      assert turn.blocks[j] in turn.blocks;
      SumSuffix(work, j);
    }
    FinishAtMost(0.0, arrive, work, budget + Sum(work));
  }

  /** What the recorded streaming does not absorb is never more than what was measured. */
  lemma {:induction false} ExposedBounds(turns: seq<Turn>, runs: seq<TurnRun>, cap: real)
    requires AllFit(turns, runs) && forall i :: 0 <= i < |turns| ==> Recorded(turns[i], cap)
    ensures 0.0 <= Exposed(turns, runs, cap) <= Work(turns, runs)
    decreases |turns|
  {
    ExposedNonNegative(turns, runs, cap);
    hide Work, Recorded, Overrun, ResultTime;
    if turns != [] {
      var n := |turns| - 1;
      ExposedBounds(turns[..n], runs[..n], cap);
      WorkSnoc(turns, runs);
      OverrunBounds(turns[n], runs[n], cap);
    }
  }

  /** Mechanism isolation, for any two replays of one trajectory: their times differ by the
      difference of their tool times, up to the detector and dispatch work of each. */
  lemma IsolationGap(turns: seq<Turn>, a: seq<TurnRun>, b: seq<TurnRun>, cap: real)
    requires AllFit(turns, a) && AllFit(turns, b) && forall i :: 0 <= i < |turns| ==> Recorded(turns[i], cap)
    ensures var gap := (SessionTime(turns, a, cap) - SessionTime(turns, b, cap))
                       - (ToolSeconds(turns, a) - ToolSeconds(turns, b));
      -Work(turns, b) <= gap <= Work(turns, a)
  {
    TimeByCause(turns, a, cap);
    TimeByCause(turns, b, cap);
    ExposedBounds(turns, a, cap);
    ExposedBounds(turns, b, cap);
  }

  /** The gap is what the two replays expose of that work, so that it is zero exactly when
      both expose the same. */
  lemma IsolationIff(turns: seq<Turn>, a: seq<TurnRun>, b: seq<TurnRun>, cap: real)
    requires AllFit(turns, a) && AllFit(turns, b)
    ensures SessionTime(turns, a, cap) - SessionTime(turns, b, cap)
         == ToolSeconds(turns, a) - ToolSeconds(turns, b)
      <==> Exposed(turns, a, cap) == Exposed(turns, b, cap)
  {
    TimeByCause(turns, a, cap);
    TimeByCause(turns, b, cap);
  }

  ghost predicate Hidden(turns: seq<Turn>, runs: seq<TurnRun>, cap: real)
    requires AllFit(turns, runs)
  {
    forall i :: 0 <= i < |turns| ==> StreamPhase(turns[i], runs[i], cap) == Budget(turns[i], cap)
  }

  ghost predicate SameResultTime(turns: seq<Turn>, a: seq<TurnRun>, b: seq<TurnRun>)
    requires |a| == |b| == |turns|
  {
    forall i :: 0 <= i < |turns| ==> ResultTime(turns[i], a[i]) == ResultTime(turns[i], b[i])
  }

  lemma {:induction false} HiddenExposed(turns: seq<Turn>, a: seq<TurnRun>, b: seq<TurnRun>, cap: real)
    requires AllFit(turns, a) && AllFit(turns, b)
    requires Hidden(turns, a, cap) && Hidden(turns, b, cap) && SameResultTime(turns, a, b)
    ensures Exposed(turns, a, cap) == Exposed(turns, b, cap)
    decreases |turns|
  {
    if turns != [] {
      var n := |turns| - 1;
      HiddenExposed(turns[..n], a[..n], b[..n], cap);
    }
  }

  /** Whenever stream-phase overhead is hidden in both replays and working on tool
      results takes as long, only the tools tell them apart. */
  lemma HiddenIsolates(turns: seq<Turn>, a: seq<TurnRun>, b: seq<TurnRun>, cap: real)
    requires AllFit(turns, a) && AllFit(turns, b)
    requires Hidden(turns, a, cap) && Hidden(turns, b, cap) && SameResultTime(turns, a, b)
    ensures SessionTime(turns, a, cap) - SessionTime(turns, b, cap)
         == ToolSeconds(turns, a) - ToolSeconds(turns, b)
  {
    HiddenExposed(turns, a, b, cap);
    IsolationIff(turns, a, b, cap);
  }

  /** Hidden or not, runs with the same detector and dispatch costs are isolated. */
  lemma {:induction false} SameOverheadIsolates(turns: seq<Turn>, a: seq<TurnRun>, b: seq<TurnRun>, cap: real)
    requires AllFit(turns, a) && AllFit(turns, b)
    requires forall i :: 0 <= i < |turns| ==>
      a[i].blockWork == b[i].blockWork && a[i].resultWork == b[i].resultWork
    ensures SessionTime(turns, a, cap) - SessionTime(turns, b, cap)
         == ToolSeconds(turns, a) - ToolSeconds(turns, b)
    decreases |turns|
  {
    if turns != [] {
      var n := |turns| - 1;
      SameOverheadIsolates(turns[..n], a[..n], b[..n], cap);
    }
  }

  // Fidelity to the recorded session.

  /** Tools take their recorded time and everything else is free. */
  ghost predicate Faithful(run: TurnRun, turn: Turn) {
    && Fits(run, turn)
    && (forall j :: 0 <= j < |run.blockWork| ==> run.blockWork[j] == 0.0)
    && (forall k :: 0 <= k < |turn.tools| ==> run.toolTime[k] == turn.tools[k].elapsedS)
    && run.resultWork == 0.0
  }

  lemma {:induction false} FreeSum(xs: seq<real>)
    requires forall i :: 0 <= i < |xs| ==> xs[i] == 0.0
    ensures Sum(xs) == 0.0
    decreases |xs|
  {
    if xs != [] {
      FreeSum(xs[..|xs| - 1]);
    }
  }

  lemma {:induction false} RecordedTools(tools: seq<Tool>, times: seq<real>)
    requires |tools| == |times| && forall k :: 0 <= k < |tools| ==> times[k] == tools[k].elapsedS
    ensures ExecTime(tools, times) == SurvivingShell(tools)
    decreases |tools|
  {
    if tools != [] {
      RecordedTools(tools[..|tools| - 1], times[..|tools| - 1]);
    }
  }

  lemma FaithfulTurn(turn: Turn, run: TurnRun, cap: real)
    requires Recorded(turn, cap) && Faithful(run, turn)
    ensures TurnTime(turn, run, cap) == Budget(turn, cap) + SurvivingShell(turn.tools)
  {
    forall j | 0 <= j < |turn.blocks|
      ensures Min(turn.blocks[j].tStopMs / 1000.0, cap) + Sum(run.blockWork[j..]) <= Budget(turn, cap)
    {
      FreeSum(run.blockWork[j..]);
      assert turn.blocks[j] in turn.blocks;
    }
    HiddenIff(turn, run, cap);
    RecordedTools(turn.tools, run.toolTime);
  }

  ghost predicate AllFaithful(turns: seq<Turn>, runs: seq<TurnRun>, cap: real) {
    && |runs| == |turns|
    && forall i :: 0 <= i < |turns| ==> Recorded(turns[i], cap) && Faithful(runs[i], turns[i])
  }

  /** What each turn streams: its own streaming time, or the cap if that is longer. */
  function Streams(turns: seq<Turn>, cap: real): (r: seq<real>)
    ensures |r| == |turns|
    ensures forall i :: 0 <= i < |turns| ==>
      r[i] <= cap && r[i] == if turns[i].impliedStreamS <= cap then turns[i].impliedStreamS else cap
  {
    seq(|turns|, i requires 0 <= i < |turns| =>
      if turns[i].impliedStreamS <= cap then turns[i].impliedStreamS else cap)
  }

  /** The shell seconds of each turn that do not belong to killed commands. */
  function ShellLeft(turns: seq<Turn>): (r: seq<real>)
    ensures |r| == |turns|
    ensures forall i :: 0 <= i < |turns| ==> r[i] == Sum(Seconds(turns[i].tools, false, true))
  {
    seq(|turns|, i requires 0 <= i < |turns| => Sum(Seconds(turns[i].tools, false, true)))
  }

  lemma FaithfulLast(turn: Turn, run: TurnRun, cap: real)
    requires Recorded(turn, cap) && Faithful(run, turn)
    ensures TurnTime(turn, run, cap) ==
      (if turn.impliedStreamS <= cap then turn.impliedStreamS else cap) + Sum(Seconds(turn.tools, false, true))
  {
    FaithfulTurn(turn, run, cap);
    ShellTotals(turn.tools);
    hide TurnTime, Seconds, Sum, Faithful, Recorded;
  }

  lemma {:induction false} FaithfulSum(turns: seq<Turn>, runs: seq<TurnRun>, cap: real)
    requires AllFaithful(turns, runs, cap)
    ensures SessionTime(turns, runs, cap) == Sum(Streams(turns, cap)) + Sum(ShellLeft(turns))
    decreases |turns|
  {
    hide Recorded, TurnTime, Seconds;
    if turns != [] {
      var n := |turns| - 1;
      FaithfulSum(turns[..n], runs[..n], cap);
      FaithfulLast(turns[n], runs[n], cap);
      assert Streams(turns, cap)[..n] == Streams(turns[..n], cap);
      assert ShellLeft(turns)[..n] == ShellLeft(turns[..n]);
    }
  }

  /** A faithful replay takes each turn's streaming time up to the cap plus its shell time
      without the killed shells: never more than the cap per turn beside the shells. */
  lemma FaithfulTime(turns: seq<Turn>, runs: seq<TurnRun>, cap: real)
    requires AllFaithful(turns, runs, cap)
    ensures SessionTime(turns, runs, cap) == Sum(Streams(turns, cap)) + Sum(ShellLeft(turns))
    ensures SessionTime(turns, runs, cap) <= |turns| as real * cap + Sum(ShellLeft(turns))
  {
    hide *;
    FaithfulSum(turns, runs, cap);
    SumAtMost(Streams(turns, cap), cap);
  }

  /** The original session without its killed shells. */
  function SuccessfulWork(turns: seq<Turn>): real {
    if turns == [] then 0.0
    else
      var t := turns[|turns| - 1];
      SuccessfulWork(turns[..|turns| - 1]) + (t.durationS - t.killedShellS)
  }

  /** How far a turn's deltas run past what its shells leave of its duration. */
  function LateDeltas(t: Turn): real {
    Max(0.0, t.lastDeltaMs / 1000.0 - (t.durationS - t.allShellS))
  }

  function TotalLateDeltas(turns: seq<Turn>): real {
    if turns == [] then 0.0
    else TotalLateDeltas(turns[..|turns| - 1]) + LateDeltas(turns[|turns| - 1])
  }

  /** With no cap in the way, a faithful replay takes the original time without the
      killed shells, plus exactly the time deltas overlapped recorded shell time. */
  lemma {:induction false} Fidelity(turns: seq<Turn>, runs: seq<TurnRun>, cap: real)
    requires AllFaithful(turns, runs, cap)
    requires forall i :: 0 <= i < |turns| ==> turns[i].impliedStreamS <= cap
    ensures SessionTime(turns, runs, cap) == SuccessfulWork(turns) + TotalLateDeltas(turns)
    ensures SuccessfulWork(turns) <= SessionTime(turns, runs, cap)
    decreases |turns|
  {
    if turns != [] {
      var n := |turns| - 1;
      Fidelity(turns[..n], runs[..n], cap);
      FaithfulTurn(turns[n], runs[n], cap);
      ShellSplit(turns[n].tools);
    }
  }

  /** A replay's elapsed time is the sum of the per-turn times it reports. */
  lemma {:induction false} ReportsAddUp(turns: seq<Turn>, runs: seq<TurnRun>, cap: real, reports: seq<Report>)
    requires AllFit(turns, runs) && |reports| == |turns|
    requires forall i :: 0 <= i < |turns| ==> reports[i] == ReportOf(turns[i], runs[i], cap)
    ensures SessionTime(turns, runs, cap) == TotalReported(reports)
    decreases |turns|
  {
    if turns != [] {
      var n := |turns| - 1;
      ReportsAddUp(turns[..n], runs[..n], cap, reports[..n]);
    }
  }

  function TotalReported(reports: seq<Report>): real {
    if reports == [] then 0.0
    else TotalReported(reports[..|reports| - 1]) + reports[|reports| - 1].elapsedS
  }
}
