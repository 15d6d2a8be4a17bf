/** The clocked replay loop of scripts/microbench/replay_session.py.  A run fixes what
    the recorded trajectory leaves open: what the detector fires, how long detector,
    dispatch and tools take.  Sleeping lasts exactly until its target. */
module Replay {
  import opened Common
  import opened MaxPlus
  import opened Trajectory
  import opened Dispatch
  import opened Paths

  datatype Mode = Cold | Staged

  datatype Config = Config(mode: Mode, maxStreamS: real, prefixMap: seq<Mapping>, check: Check, bucketCap: nat)

  /** One turn of a run: activations and seconds spent after each block, seconds each
      tool would take, activations and seconds spent on the tool results. */
  datatype TurnRun = TurnRun(
    blockActs: seq<seq<Activation>>, blockWork: seq<real>,
    toolTime: seq<real>, resultActs: seq<Activation>, resultWork: real)

  ghost predicate Fits(run: TurnRun, turn: Turn) {
    && |run.blockActs| == |run.blockWork| == |turn.blocks|
    && |run.toolTime| == |turn.tools|
    && (forall i :: 0 <= i < |run.blockWork| ==> 0.0 <= run.blockWork[i])
    && (forall i :: 0 <= i < |run.toolTime| ==> 0.0 <= run.toolTime[i])
    && 0.0 <= run.resultWork
  }

  // What a turn takes, relative to its start.

  function Targets(blocks: seq<Block>, cap: real): (r: seq<real>)
    ensures |r| == |blocks|
    ensures forall i :: 0 <= i < |blocks| ==> r[i] == Min(blocks[i].tStopMs / 1000.0, cap)
  {
    seq(|blocks|, i requires 0 <= i < |blocks| => Min(blocks[i].tStopMs / 1000.0, cap))
  }

  /** The smaller of the turn's streaming time and the cap. */
  function Budget(turn: Turn, cap: real): (r: real)
    ensures r <= turn.impliedStreamS && r <= cap && (r == turn.impliedStreamS || r == cap)
  {
    Min(turn.impliedStreamS, cap)
  }

  function StreamPhase(turn: Turn, run: TurnRun, cap: real): real
    requires |run.blockWork| == |turn.blocks|
  {
    Max(Budget(turn, cap), Finish(0.0, Targets(turn.blocks, cap), run.blockWork))
  }

  /** Seconds spent in the tools that are executed: all but the killed ones. */
  function ExecTime(tools: seq<Tool>, times: seq<real>): real
    requires |tools| == |times|
  {
    if tools == [] then 0.0
    else
      var n := |tools| - 1;
      ExecTime(tools[..n], times[..n]) + if IsKilled(tools[n]) then 0.0 else times[n]
  }

  function Executed(tools: seq<Tool>): nat {
    if tools == [] then 0
    else Executed(tools[..|tools| - 1]) + if IsKilled(tools[|tools| - 1]) then 0 else 1
  }

  function ExecutedShells(tools: seq<Tool>): nat {
    if tools == [] then 0
    else
      var t := tools[|tools| - 1];
      ExecutedShells(tools[..|tools| - 1])
      + if !IsKilled(t) && t.name == "run_shell_command" then 1 else 0
  }

  /** Results are fed back only when some tool ran. */
  function ResultTime(turn: Turn, run: TurnRun): real {
    if Executed(turn.tools) > 0 then run.resultWork else 0.0
  }

  function TurnTime(turn: Turn, run: TurnRun, cap: real): real
    requires |run.blockWork| == |turn.blocks| && |run.toolTime| == |turn.tools|
  {
    StreamPhase(turn, run, cap) + ExecTime(turn.tools, run.toolTime) + ResultTime(turn, run)
  }

  // What is executed, tool by tool.

  /** The places of the tools that are executed. */
  function Ran(tools: seq<Tool>): set<nat> {
    set k: nat | k < |tools| && tools[k].rc != Some(-9)
  }

  function RanShells(tools: seq<Tool>): set<nat> {
    set k: nat | k < |tools| && tools[k].rc != Some(-9) && tools[k].name == "run_shell_command"
  }

  function Skipped(tools: seq<Tool>): set<nat> {
    set k: nat | k < |tools| && tools[k].rc == Some(-9)
  }

  /** The seconds that each tool takes, none for a killed one. */
  function Spent(tools: seq<Tool>, times: seq<real>): (r: seq<real>)
    requires |tools| == |times|
    ensures |r| == |tools|
    ensures forall k :: 0 <= k < |tools| ==> r[k] == if tools[k].rc == Some(-9) then 0.0 else times[k]
  {
    seq(|tools|, k requires 0 <= k < |tools| => if tools[k].rc == Some(-9) then 0.0 else times[k])
  }

  /** Exactly the tools that were not killed take their time, and the counters count the
      executed tools, the shell commands among them, and the killed tools. */
  lemma {:induction false} ToolTotals(tools: seq<Tool>, times: seq<real>)
    requires |tools| == |times|
    ensures ExecTime(tools, times) == Sum(Spent(tools, times))
    ensures Executed(tools) == |Ran(tools)| && ExecutedShells(tools) == |RanShells(tools)|
    ensures Kills(tools) == |Skipped(tools)| && |Ran(tools)| + |Skipped(tools)| == |tools|
    decreases |tools|
  {
    if tools == [] {
      assert Ran(tools) == {} && RanShells(tools) == {} && Skipped(tools) == {};
    } else {
      var n := |tools| - 1;
      ToolTotals(tools[..n], times[..n]);
      OneMoreTool(tools);
      hide Ran, RanShells, Skipped;
      assert Spent(tools, times)[..n] == Spent(tools[..n], times[..n]);
    }
  }

  lemma OneMoreTool(tools: seq<Tool>)
    requires tools != []
    ensures var n := |tools| - 1;
      var ran := tools[n].rc != Some(-9);
      && |Ran(tools)| == |Ran(tools[..n])| + (if ran then 1 else 0)
      && |Skipped(tools)| == |Skipped(tools[..n])| + (if ran then 0 else 1)
      && |RanShells(tools)| ==
           |RanShells(tools[..n])| + if ran && tools[n].name == "run_shell_command" then 1 else 0
  {
    var n := |tools| - 1;
    var ran := tools[n].rc != Some(-9);
    OneMorePlace(Ran(tools[..n]), Ran(tools), n, ran);
    OneMorePlace(Skipped(tools[..n]), Skipped(tools), n, !ran);
    OneMorePlace(RanShells(tools[..n]), RanShells(tools), n, ran && tools[n].name == "run_shell_command");
  }

  lemma OneMorePlace(before: set<nat>, after: set<nat>, n: nat, more: bool)
    requires forall k: nat :: k in after <==> k in before || (k == n && more)
    requires n !in before
    ensures |after| == |before| + if more then 1 else 0
  {
    assert after == before + if more then {n} else {};
  }

  /** Results are worked on in a turn if and only if some tool of it was not killed. */
  lemma ResultsIff(turn: Turn, run: TurnRun)
    requires |run.toolTime| == |turn.tools|
    ensures (exists k :: 0 <= k < |turn.tools| && turn.tools[k].rc != Some(-9)) ==>
      ResultTime(turn, run) == run.resultWork
    ensures (forall k :: 0 <= k < |turn.tools| ==> turn.tools[k].rc == Some(-9)) ==>
      ResultTime(turn, run) == 0.0
  {
    ToolTotals(turn.tools, run.toolTime);
    if k :| 0 <= k < |turn.tools| && turn.tools[k].rc != Some(-9) {
      assert k in Ran(turn.tools);
    } else {
      assert Ran(turn.tools) == {};
    }
  }

  // What a turn stages.

  function BatchFor(acts: seq<Activation>, cfg: Config): Batch {
    Batch(acts, cfg.prefixMap, cfg.check, Some(cfg.bucketCap))
  }

  function StreamHints(turn: Turn, run: TurnRun, cfg: Config, n: nat): seq<Hint>
    requires n <= |run.blockActs|
  {
    if n == 0 then []
    else
      StreamHints(turn, run, cfg, n - 1)
      + HintsOf(BatchFor(run.blockActs[n - 1], cfg), {}, ReplayMirror, turn.turn, "thinking")
  }

  function TurnHints(turn: Turn, run: TurnRun, cfg: Config): seq<Hint> {
    if cfg.mode == Cold then []
    else
      StreamHints(turn, run, cfg, |run.blockActs|)
      + if Executed(turn.tools) > 0
        then HintsOf(BatchFor(run.resultActs, cfg), {}, ReplayMirror, turn.turn, "tool_result")
        else []
  }

  datatype Report = Report(turn: int, elapsedS: real, originalS: real, nShells: nat, nKillsSkipped: nat)

  function ReportOf(turn: Turn, run: TurnRun, cap: real): Report
    requires |run.blockWork| == |turn.blocks| && |run.toolTime| == |turn.tools|
  {
    Report(turn.turn, TurnTime(turn, run, cap), turn.durationS, ExecutedShells(turn.tools), Kills(turn.tools))
  }

  /** What a turn's report says of it. */
  lemma ReportTells(turn: Turn, run: TurnRun, cap: real)
    requires Fits(run, turn)
    ensures var r := ReportOf(turn, run, cap);
      && r.turn == turn.turn && r.originalS == turn.durationS
      && r.nShells == |RanShells(turn.tools)| && r.nKillsSkipped == |Skipped(turn.tools)|
      && r.elapsedS == StreamPhase(turn, run, cap) + Sum(Spent(turn.tools, run.toolTime)) + ResultTime(turn, run)
  {
    ToolTotals(turn.tools, run.toolTime);
  }

  ghost predicate AllFit(turns: seq<Turn>, runs: seq<TurnRun>) {
    |runs| == |turns| && forall i :: 0 <= i < |turns| ==> Fits(runs[i], turns[i])
  }

  function SessionTime(turns: seq<Turn>, runs: seq<TurnRun>, cap: real): real
    requires AllFit(turns, runs)
  {
    if turns == [] then 0.0
    else
      var n := |turns| - 1;
      SessionTime(turns[..n], runs[..n], cap) + TurnTime(turns[n], runs[n], cap)
  }

  function SessionHints(turns: seq<Turn>, runs: seq<TurnRun>, cfg: Config): seq<Hint>
    requires |turns| == |runs|
  {
    if turns == [] then []
    else
      var n := |turns| - 1;
      SessionHints(turns[..n], runs[..n], cfg) + TurnHints(turns[n], runs[n], cfg)
  }

  /** The hints of one dispatch call of a replay. */
  function CallHints(acts: seq<Activation>, turn: Turn, source: string, cfg: Config): seq<Hint> {
    HintsOf(Batch(acts, cfg.prefixMap, cfg.check, Some(cfg.bucketCap)), {}, ReplayMirror, turn.turn, source)
  }

  /** Where a hint of a replayed turn comes from: a dispatch of one of its blocks or, if some
      tool was not killed, of its tool results. */
  ghost predicate HintOfTurn(h: Hint, turn: Turn, run: TurnRun, cfg: Config) {
    || (exists j :: 0 <= j < |run.blockActs| && h in CallHints(run.blockActs[j], turn, "thinking", cfg))
    || (Ran(turn.tools) != {} && h in CallHints(run.resultActs, turn, "tool_result", cfg))
  }

  lemma {:induction false} StreamHintMembers(turn: Turn, run: TurnRun, cfg: Config, n: nat, h: Hint)
    requires n <= |run.blockActs|
    ensures h in StreamHints(turn, run, cfg, n) <==>
      exists j :: 0 <= j < n && h in CallHints(run.blockActs[j], turn, "thinking", cfg)
  {
    hide HintsOf;
    if n > 0 {
      StreamHintMembers(turn, run, cfg, n - 1, h);
    }
  }

  lemma TurnHintMembers(turn: Turn, run: TurnRun, cfg: Config, h: Hint)
    requires |run.toolTime| == |turn.tools|
    ensures h in TurnHints(turn, run, cfg) <==> cfg.mode == Staged && HintOfTurn(h, turn, run, cfg)
  {
    hide HintsOf;
    StreamHintMembers(turn, run, cfg, |run.blockActs|, h);
    ToolTotals(turn.tools, run.toolTime);
  }

  /** A staged replay hints exactly what its dispatch calls hint, a cold one nothing. */
  lemma {:induction false} SessionHintMembers(turns: seq<Turn>, runs: seq<TurnRun>, cfg: Config, h: Hint)
    requires AllFit(turns, runs)
    ensures h in SessionHints(turns, runs, cfg) <==>
      cfg.mode == Staged && exists i :: 0 <= i < |turns| && HintOfTurn(h, turns[i], runs[i], cfg)
    decreases |turns|
  {
    hide TurnHints, HintOfTurn;
    if turns != [] {
      var n := |turns| - 1;
      SessionHintMembers(turns[..n], runs[..n], cfg, h);
      TurnHintMembers(turns[n], runs[n], cfg, h);
    }
  }

  /** The hints of more turns come after those of the earlier ones. */
  lemma {:induction false} SessionHintsInOrder(turns: seq<Turn>, runs: seq<TurnRun>, more: seq<Turn>,
                                               moreRuns: seq<TurnRun>, cfg: Config)
    requires |turns| == |runs| && |more| == |moreRuns|
    ensures SessionHints(turns + more, runs + moreRuns, cfg) ==
      SessionHints(turns, runs, cfg) + SessionHints(more, moreRuns, cfg)
    decreases |more|
  {
    hide TurnHints;
    if more == [] {
      assert turns + more == turns && runs + moreRuns == runs;
    } else {
      var n := |more| - 1;
      SessionHintsInOrder(turns, runs, more[..n], moreRuns[..n], cfg);
      var all, allRuns := turns + more, runs + moreRuns;
      assert all[..|all| - 1] == turns + more[..n] && allRuns[..|all| - 1] == runs + moreRuns[..n];
    }
  }

  /** The clock after the first j blocks of a turn that starts at `start`. */
  ghost function ClockAfter(start: real, turn: Turn, run: TurnRun, cap: real, j: nat): real
    requires |run.blockWork| == |turn.blocks| && j <= |turn.blocks|
  {
    Finish(start, Shift(start, Targets(turn.blocks, cap))[..j], run.blockWork[..j])
  }

  lemma ClockStep(start: real, turn: Turn, run: TurnRun, cap: real, j: nat)
    requires |run.blockWork| == |turn.blocks| && j < |turn.blocks|
    ensures ClockAfter(start, turn, run, cap, j + 1)
         == Max(ClockAfter(start, turn, run, cap, j), start + Min(turn.blocks[j].tStopMs / 1000.0, cap))
            + run.blockWork[j]
  {
    var arrive := Shift(start, Targets(turn.blocks, cap));
    assert arrive[..j + 1][..j] == arrive[..j] && run.blockWork[..j + 1][..j] == run.blockWork[..j];
  }

  lemma ClockEnds(start: real, turn: Turn, run: TurnRun, cap: real)
    requires |run.blockWork| == |turn.blocks|
    ensures ClockAfter(start, turn, run, cap, 0) == start
    ensures Max(ClockAfter(start, turn, run, cap, |turn.blocks|), start + Budget(turn, cap))
         == start + StreamPhase(turn, run, cap)
  {
    var arrive := Shift(start, Targets(turn.blocks, cap));
    assert arrive[..|arrive|] == arrive && run.blockWork[..|run.blockWork|] == run.blockWork;
    FinishShift(start, 0.0, Targets(turn.blocks, cap), run.blockWork);
  }

  class Replayer {
    var clock: real             // time.monotonic()
    var detectorTurn: int       // session_detector.current_turn
    var perTurn: seq<Report>
    const stager: Prefetcher

    constructor (now: real)
      ensures clock == now && detectorTurn == 0 && perTurn == []
      ensures fresh(stager) && stager.hints == [] && stager.nTotal == 0
    {
      clock, detectorTurn, perTurn := now, 0, [];
      stager := new Prefetcher();
    }

    /** n_total_holder[0] is the number of files in the recorded hints. */
    ghost predicate Counted()
      reads stager
    {
      stager.nTotal == FileCount(stager.hints)
    }

    /** time.sleep until target, if it is still ahead. */
    method SleepUntil(target: real)
      modifies this`clock
      ensures clock == Max(old(clock), target)
    {
      var now := clock;
      if target > now {
        clock := clock + (target - now);
      }
    }

    /** Blocks at their recorded pace, feeding the detector after each. */
    method ReplayStream(turn: Turn, run: TurnRun, cfg: Config)
      requires Fits(run, turn) && Counted()
      modifies this`clock, stager
      ensures clock == old(clock) + StreamPhase(turn, run, cfg.maxStreamS)
      ensures cfg.mode == Cold ==> stager.hints == old(stager.hints)
      ensures cfg.mode == Staged ==>
        stager.hints == old(stager.hints) + StreamHints(turn, run, cfg, |run.blockActs|)
      ensures Counted()
    {
      hide HintsOf, FileCount, ClockAfter, StreamPhase;
      var tTurnStart := clock;
      ghost var initial := stager.hints;
      ClockEnds(tTurnStart, turn, run, cfg.maxStreamS);
      for j := 0 to |turn.blocks|
        invariant clock == ClockAfter(tTurnStart, turn, run, cfg.maxStreamS, j)
        invariant cfg.mode == Cold ==> stager.hints == initial
        invariant cfg.mode == Staged ==> stager.hints == initial + StreamHints(turn, run, cfg, j)
        invariant Counted()
      {
        ClockStep(tTurnStart, turn, run, cfg.maxStreamS, j);
        SleepUntil(tTurnStart + Min(turn.blocks[j].tStopMs / 1000.0, cfg.maxStreamS));
        clock := clock + run.blockWork[j];
        if cfg.mode == Staged {
          Dispatch(run.blockActs[j], cfg, turn.turn, "thinking");
        }
      }
      SleepUntil(tTurnStart + Min(turn.impliedStreamS, cfg.maxStreamS));
    }

    method Dispatch(acts: seq<Activation>, cfg: Config, turn: int, source: string)
      requires Counted()
      modifies stager
      ensures stager.hints == old(stager.hints) + HintsOf(BatchFor(acts, cfg), {}, ReplayMirror, turn, source)
      ensures Counted()
    {
      FileCountAppend(stager.hints, HintsOf(BatchFor(acts, cfg), {}, ReplayMirror, turn, source));
      var _, _ := stager.DispatchBatch(BatchFor(acts, cfg), {}, ReplayMirror, turn, source);
    }

    /** Recorded tools in order, the killed ones skipped. */
    method ReplayTools(turn: Turn, run: TurnRun) returns (executed: nat, shells: nat, skipped: nat)
      requires Fits(run, turn)
      modifies this`clock
      ensures clock == old(clock) + ExecTime(turn.tools, run.toolTime)
      ensures executed == Executed(turn.tools) && shells == ExecutedShells(turn.tools)
      ensures skipped == Kills(turn.tools)
    {
      executed, shells, skipped := 0, 0, 0;
      for k := 0 to |turn.tools|
        invariant clock == old(clock) + ExecTime(turn.tools[..k], run.toolTime[..k])
        invariant executed == Executed(turn.tools[..k]) && shells == ExecutedShells(turn.tools[..k])
        invariant skipped == Kills(turn.tools[..k])
      {
        assert turn.tools[..k + 1][..k] == turn.tools[..k];
        assert run.toolTime[..k + 1][..k] == run.toolTime[..k];
        if turn.tools[k].rc == Some(KILLED) {
          skipped := skipped + 1;
          continue;
        }
        clock := clock + run.toolTime[k];
        executed := executed + 1;
        if turn.tools[k].name == "run_shell_command" {
          shells := shells + 1;
        }
      }
      assert turn.tools[..|turn.tools|] == turn.tools;
      assert run.toolTime[..|turn.tools|] == run.toolTime;
    }

    method ReplayTurn(turn: Turn, run: TurnRun, cfg: Config)
      requires Fits(run, turn) && Counted()
      modifies this, stager
      ensures clock == old(clock) + TurnTime(turn, run, cfg.maxStreamS)
      ensures stager.hints == old(stager.hints) + TurnHints(turn, run, cfg)
      ensures Counted()
      ensures detectorTurn == turn.turn + 1
      ensures perTurn == old(perTurn) + [ReportOf(turn, run, cfg.maxStreamS)]
    {
      hide HintsOf, FileCount, StreamHints, StreamPhase, ExecTime, Executed, ExecutedShells, Kills;
      var tTurnStart := clock;
      ReplayStream(turn, run, cfg);
      var executed, shells, skipped := ReplayTools(turn, run);
      if executed > 0 {
        clock := clock + run.resultWork;
        if cfg.mode == Staged {
          Dispatch(run.resultActs, cfg, turn.turn, "tool_result");
        }
      }
      detectorTurn := turn.turn + 1;
      perTurn := perTurn + [Report(turn.turn, clock - tTurnStart, turn.durationS, shells, skipped)];
    }

    /** replay: the whole session.  Its elapsed time, its hints and its count of
        prefetched files are those of the trajectory and the run. */
    method ReplaySession(turns: seq<Turn>, runs: seq<TurnRun>, cfg: Config) returns (elapsed: real)
      requires AllFit(turns, runs)
      requires perTurn == [] && stager.hints == [] && stager.nTotal == 0
      modifies this, stager
      ensures elapsed == SessionTime(turns, runs, cfg.maxStreamS)
      ensures stager.hints == SessionHints(turns, runs, cfg)
      ensures stager.nTotal == FileCount(stager.hints)
      ensures |perTurn| == |turns|
      ensures forall i :: 0 <= i < |turns| ==> perTurn[i] == ReportOf(turns[i], runs[i], cfg.maxStreamS)
    {
      hide HintsOf, TurnHints, TurnTime;
      var tSessionStart := clock;
      for i := 0 to |turns|
        invariant clock == tSessionStart + SessionTime(turns[..i], runs[..i], cfg.maxStreamS)
        invariant stager.hints == SessionHints(turns[..i], runs[..i], cfg)
        invariant Counted()
        invariant |perTurn| == i
        invariant forall k :: 0 <= k < i ==> perTurn[k] == ReportOf(turns[k], runs[k], cfg.maxStreamS)
      {
        assert turns[..i + 1][..i] == turns[..i] && runs[..i + 1][..i] == runs[..i];
        ReplayTurn(turns[i], runs[i], cfg);
      }
      assert turns[..|turns|] == turns && runs[..|runs|] == runs;
      elapsed := clock - tSessionStart;
    }
  }
}
