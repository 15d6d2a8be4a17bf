/** Two decompositions of a session's wall time: five buckets with a residual in
    paper_figures/build_fig_motivation.py, four buckets in
    scripts/microbench/decompose_wall_time.py. */
module WallTime {
  import opened Common

  const SHELL: string := "run_shell_command"

  /** One entry of per_turn with its logs: the times (milliseconds) of its thinking and
      text deltas, None for a line without a time.  A turn without a directory has no logs. */
  datatype Turn = Turn(duration: real, toolNames: seq<string>, thinking: seq<Option<real>>, text: seq<Option<real>>)

  // First and last delta of a turn.

  /** Earliest and latest known time of a log. */
  function Extent(log: seq<Option<real>>): (r: Option<(real, real)>)
    ensures r.None? <==> forall k :: 0 <= k < |log| ==> log[k].None?
    ensures r.Some? ==> Some(r.value.0) in log && Some(r.value.1) in log
    ensures r.Some? ==> forall k :: 0 <= k < |log| && log[k].Some? ==> r.value.0 <= log[k].value <= r.value.1
  {
    if log == [] then None
    else
      var n := |log| - 1;
      assert log == log[..n] + [log[n]];
      match (Extent(log[..n]), log[n])
      case (before, None) => before
      case (None, Some(t)) => Some((t, t))
      case (Some(e), Some(t)) => Some((Min(e.0, t), Max(e.1, t)))
  }

  /** turn_first_last_ms, the same in both scripts. */
  method FirstLast(thinking: seq<Option<real>>, text: seq<Option<real>>) returns (first: Option<real>,
                   last: Option<real>)
    ensures IsExtent(thinking + text, first, last)
  {
    first, last := ScanLog(thinking, None, None, []);
    assert [] + thinking == thinking;
    first, last := ScanLog(text, first, last, thinking);
  }

  /** The scan of one log, from the extremes of what was read `before`. */
  method ScanLog(log: seq<Option<real>>, first: Option<real>, last: Option<real>, ghost before: seq<Option<real>>)
    returns (first': Option<real>, last': Option<real>)
    requires IsExtent(before, first, last)
    ensures IsExtent(before + log, first', last')
  {
    hide Extent;
    first', last' := first, last;
    assert before + log[..0] == before;
    for k := 0 to |log|
      invariant IsExtent(before + log[..k], first', last')
    {
      var t := log[k];
      ExtentSnoc(before + log[..k], t);
      assert before + log[..k] + [t] == before + log[..k + 1];
      if t.None? {
        continue;
      }
      if first'.None? || t.value < first'.value {
        first' := t;
      }
      if last'.None? || t.value > last'.value {
        last' := t;
      }
    }
    assert log[..|log|] == log;
  }

  ghost predicate IsExtent(log: seq<Option<real>>, first: Option<real>, last: Option<real>) {
    && (first.Some? <==> last.Some?)
    && Extent(log) == if first.Some? then Some((first.value, last.value)) else None
  }

  lemma ExtentSnoc(log: seq<Option<real>>, t: Option<real>)
    ensures t.None? ==> Extent(log + [t]) == Extent(log)
    ensures t.Some? && Extent(log).None? ==> Extent(log + [t]) == Some((t.value, t.value))
    ensures t.Some? && Extent(log).Some? ==>
      Extent(log + [t]) == Some((Min(Extent(log).value.0, t.value), Max(Extent(log).value.1, t.value)))
  {
    assert (log + [t])[..|log|] == log;
  }

  // The five buckets.

  datatype Five = Five(comm: real, stream: real, shell: real, other: real, harness: real) {
    function Total(): real {
      comm + stream + shell + other + harness
    }

    function Plus(f: Five): Five {
      Five(comm + f.comm, stream + f.stream, shell + f.shell, other + f.other, harness + f.harness)
    }
  }

  predicate UsesShell(t: Turn) {
    SHELL in t.toolNames
  }

  predicate UsesOther(t: Turn) {
    exists k :: 0 <= k < |t.toolNames| && t.toolNames[k] != SHELL
  }

  /** Time outside streaming, in the bucket of the turn's tools. */
  function Rest(t: Turn, amount: real): Five {
    if UsesShell(t) then Five(0.0, 0.0, amount, 0.0, 0.0)
    else if UsesOther(t) then Five(0.0, 0.0, 0.0, amount, 0.0)
    else Five(0.0, 0.0, 0.0, 0.0, amount)
  }

  function FiveOfTurn(t: Turn): Five {
    match Extent(t.thinking + t.text)
    case None => Rest(t, t.duration)
    case Some(e) =>
      Five(e.0 / 1000.0, (e.1 - e.0) / 1000.0, 0.0, 0.0, 0.0).Plus(Rest(t, t.duration - e.1 / 1000.0))
  }

  function FiveOfTurns(turns: seq<Turn>): Five {
    if turns == [] then Five(0.0, 0.0, 0.0, 0.0, 0.0)
    else FiveOfTurns(turns[..|turns| - 1]).Plus(FiveOfTurn(turns[|turns| - 1]))
  }

  function Residual(total: real, turns: seq<Turn>): real {
    Max(0.0, total - FiveOfTurns(turns).Total())
  }

  function FiveOf(total: real, turns: seq<Turn>): Five {
    var f := FiveOfTurns(turns);
    f.(harness := f.harness + Residual(total, turns))
  }

  /** What one more turn adds to each bucket. */
  lemma FiveStep(turns: seq<Turn>, i: nat)
    requires i < |turns|
    ensures var t, f, g := turns[i], FiveOfTurns(turns[..i]), FiveOfTurns(turns[..i + 1]);
      var e := Extent(t.thinking + t.text);
      var rest := if e.None? then t.duration else t.duration - e.value.1 / 1000.0;
      && g.comm == (if e.None? then f.comm else f.comm + e.value.0 / 1000.0)
      && g.stream == (if e.None? then f.stream else f.stream + (e.value.1 - e.value.0) / 1000.0)
      && g.shell == (if UsesShell(t) then f.shell + rest else f.shell)
      && g.other == (if !UsesShell(t) && UsesOther(t) then f.other + rest else f.other)
      && g.harness == (if !UsesShell(t) && !UsesOther(t) then f.harness + rest else f.harness)
  {
    hide Extent, UsesOther, UsesShell;
    assert turns[..i + 1][..i] == turns[..i];
  }

  method DecomposeSession(total: real, turns: seq<Turn>)
    returns (comm: real, stream: real, toolShell: real, toolOther: real, harness: real)
    ensures Five(comm, stream, toolShell, toolOther, harness) == FiveOf(total, turns)
  {
    comm, stream, toolShell, toolOther, harness := 0.0, 0.0, 0.0, 0.0, 0.0;
    for i := 0 to |turns|
      invariant comm == FiveOfTurns(turns[..i]).comm && stream == FiveOfTurns(turns[..i]).stream
      invariant toolShell == FiveOfTurns(turns[..i]).shell && toolOther == FiveOfTurns(turns[..i]).other
      invariant harness == FiveOfTurns(turns[..i]).harness
    {
      hide Extent, UsesShell, UsesOther, FiveOfTurns, FiveOfTurn, Rest;
      var t := turns[i];
      FiveStep(turns, i);
      var first, last := FirstLast(t.thinking, t.text);
      var hasShell, hasOther := UsesShell(t), UsesOther(t);
      if first.None? || last.None? {
        if hasShell {
          toolShell := toolShell + t.duration;
        } else if hasOther {
          toolOther := toolOther + t.duration;
        } else {
          harness := harness + t.duration;
        }
        continue;
      }
      comm := comm + first.value / 1000.0;
      stream := stream + (last.value - first.value) / 1000.0;
      var rest := t.duration - last.value / 1000.0;
      if hasShell {
        toolShell := toolShell + rest;
      } else if hasOther {
        toolOther := toolOther + rest;
      } else {
        harness := harness + rest;
      }
    }
    hide FiveOfTurns;
    assert turns[..|turns|] == turns;
    var accounted := comm + stream + toolShell + toolOther + harness;
    harness := harness + Max(0.0, total - accounted);
  }

  // The four buckets, before rounding.

  datatype Four = Four(comm: real, stream: real, tool: real, other: real) {
    function Total(): real {
      comm + stream + tool + other
    }

    function Plus(f: Four): Four {
      Four(comm + f.comm, stream + f.stream, tool + f.tool, other + f.other)
    }
  }

  function FourOfTurn(t: Turn): Four {
    var extent := Extent(t.thinking + t.text);
    var rest := if extent.None? then t.duration * 1000.0 / 1000.0 else (t.duration * 1000.0 - extent.value.1) / 1000.0;
    var tail := if UsesShell(t) then Four(0.0, 0.0, rest, 0.0) else Four(0.0, 0.0, 0.0, rest);
    match extent
    case None => tail
    case Some(e) => Four(e.0 / 1000.0, (e.1 - e.0) / 1000.0, 0.0, 0.0).Plus(tail)
  }

  function FourOf(turns: seq<Turn>): Four {
    if turns == [] then Four(0.0, 0.0, 0.0, 0.0)
    else FourOf(turns[..|turns| - 1]).Plus(FourOfTurn(turns[|turns| - 1]))
  }

  method Decompose(turns: seq<Turn>) returns (comm: real, stream: real, tool: real, other: real)
    ensures Four(comm, stream, tool, other) == FourOf(turns)
  {
    comm, stream, tool, other := 0.0, 0.0, 0.0, 0.0;
    for i := 0 to |turns|
      invariant Four(comm, stream, tool, other) == FourOf(turns[..i])
    {
      hide Extent;
      assert turns[..i + 1][..i] == turns[..i];
      var t := turns[i];
      var durMs := t.duration * 1000.0;
      var first, last := FirstLast(t.thinking, t.text);
      if first.None? || last.None? {
        if UsesShell(t) {
          tool := tool + durMs / 1000.0;
        } else {
          other := other + durMs / 1000.0;
        }
        continue;
      }
      comm := comm + first.value / 1000.0;
      stream := stream + (last.value - first.value) / 1000.0;
      var rest := (durMs - last.value) / 1000.0;
      if UsesShell(t) {
        tool := tool + rest;
      } else {
        other := other + rest;
      }
    }
    assert turns[..|turns|] == turns;
  }

  /** Where a turn's time goes, given its first and last delta: to communication up to the
      first, to streaming up to the last, and the rest to the shell when a shell command is
      among its tools, to other tools when there are any, and else to the harness. */
  lemma TurnBuckets(t: Turn, first: real, last: real)
    requires Some(first) in t.thinking + t.text && Some(last) in t.thinking + t.text
    requires forall x :: Some(x) in t.thinking + t.text ==> first <= x <= last
    ensures var f, rest := FiveOfTurn(t), t.duration - last / 1000.0;
      && f.comm == first / 1000.0 && f.stream == (last - first) / 1000.0
      && ("run_shell_command" in t.toolNames ==> f.shell == rest && f.other == f.harness == 0.0)
      && ("run_shell_command" !in t.toolNames && t.toolNames != [] ==> f.other == rest && f.shell == f.harness == 0.0)
      && (t.toolNames == [] ==> f.harness == rest && f.shell == f.other == 0.0)
    ensures var f, rest := FourOfTurn(t), t.duration - last / 1000.0;
      && f.comm == first / 1000.0 && f.stream == (last - first) / 1000.0
      && ("run_shell_command" in t.toolNames ==> f.tool == rest && f.other == 0.0)
      && ("run_shell_command" !in t.toolNames ==> f.other == rest && f.tool == 0.0)
  {
    ExtentIs(t.thinking + t.text, first, last);
    if "run_shell_command" !in t.toolNames {
      OtherTools(t);
    }
    hide Extent, UsesOther;
  }

  lemma ExtentIs(log: seq<Option<real>>, first: real, last: real)
    requires Some(first) in log && Some(last) in log && forall x :: Some(x) in log ==> first <= x <= last
    ensures Extent(log) == Some((first, last))
  {
    var e := Extent(log);
    hide Extent;
    var k :| 0 <= k < |log| && log[k] == Some(first);
    var l :| 0 <= l < |log| && log[l] == Some(last);
    assert Some(e.value.0) in log && Some(e.value.1) in log;
  }

  lemma OtherTools(t: Turn)
    requires "run_shell_command" !in t.toolNames
    ensures UsesOther(t) <==> t.toolNames != []
  {
    if t.toolNames != [] {
      assert t.toolNames[0] in t.toolNames;
    }
  }

  /** A turn without deltas goes to the bucket of its tools as a whole. */
  lemma SilentTurnBuckets(t: Turn)
    requires forall k :: 0 <= k < |t.thinking + t.text| ==> (t.thinking + t.text)[k] == None
    ensures var f := FiveOfTurn(t);
      && f.comm == f.stream == 0.0
      && ("run_shell_command" in t.toolNames ==> f.shell == t.duration && f.other == f.harness == 0.0)
      && ("run_shell_command" !in t.toolNames && t.toolNames != [] ==>
            f.other == t.duration && f.shell == f.harness == 0.0)
      && (t.toolNames == [] ==> f.harness == t.duration && f.shell == f.other == 0.0)
    ensures var f := FourOfTurn(t);
      && f.comm == f.stream == 0.0
      && ("run_shell_command" in t.toolNames ==> f.tool == t.duration && f.other == 0.0)
      && ("run_shell_command" !in t.toolNames ==> f.other == t.duration && f.tool == 0.0)
  {
    assert Extent(t.thinking + t.text).None?;
    if "run_shell_command" !in t.toolNames {
      OtherTools(t);
    }
    hide Extent, UsesOther;
  }

  // Conservation and agreement.

  function Durations(turns: seq<Turn>): (ds: seq<real>)
    ensures |ds| == |turns| && forall k :: 0 <= k < |ds| ==> ds[k] == turns[k].duration
  {
    seq(|turns|, k requires 0 <= k < |turns| => turns[k].duration)
  }

  lemma TurnConserves(t: Turn)
    ensures FiveOfTurn(t).Total() == t.duration == FourOfTurn(t).Total()
  {
    hide Extent;
  }

  lemma {:induction false} TurnsConserve(turns: seq<Turn>)
    ensures FiveOfTurns(turns).Total() == Sum(Durations(turns))
    ensures FourOf(turns).Total() == Sum(Durations(turns))
    decreases |turns|
  {
    if turns != [] {
      hide FiveOfTurn, FourOfTurn;
      var n := |turns| - 1;
      TurnsConserve(turns[..n]);
      TurnConserves(turns[n]);
      assert Durations(turns)[..n] == Durations(turns[..n]);
    }
  }

  /** The five buckets always sum to the larger of the session's length and the sum of
      its turns' durations. */
  lemma FiveConserve(total: real, turns: seq<Turn>)
    ensures FiveOf(total, turns).Total() == Max(total, Sum(Durations(turns)))
  {
    hide FiveOfTurns, Sum;
    TurnsConserve(turns);
    var f := FiveOfTurns(turns);
    assert FiveOf(total, turns).Total() == f.Total() + Residual(total, turns);
  }

  /** They sum to the session's length, as promised, exactly when the turns fit in it; then
      what is not shell time is the other four buckets. */
  lemma FiveSumToTotalIff(total: real, turns: seq<Turn>)
    ensures FiveOf(total, turns).Total() == total <==> Sum(Durations(turns)) <= total
    ensures var f := FiveOf(total, turns);
      total - f.shell == f.comm + f.stream + f.other + f.harness <==> Sum(Durations(turns)) <= total
  {
    hide FiveOf;
    FiveConserve(total, turns);
  }

  /** The four buckets sum to the durations of the turns, and so to the session's length
      only when nothing lies between the turns. */
  lemma FourSumToTotalIff(total: real, turns: seq<Turn>)
    ensures FourOf(turns).Total() == Sum(Durations(turns))
    ensures FourOf(turns).Total() == total <==> Sum(Durations(turns)) == total
  {
    hide FourOf, FiveOfTurns;
    TurnsConserve(turns);
  }

  /** A turn longer than its session makes the five buckets sum to more than the session;
      a session longer than its turns makes the four buckets sum to less. */
  lemma SumsCanDiffer()
    ensures var turns := [Turn(5.0, [], [], [])];
      FiveOf(3.0, turns).Total() == 5.0 && FourOf(turns).Total() == 5.0 && FiveOf(8.0, turns).Total() == 8.0
  {
    var turns := [Turn(5.0, [], [], [])];
    assert turns[..0] == [] && Durations(turns)[..0] == [];
    assert Sum(Durations(turns)) == 5.0;
    FiveConserve(3.0, turns);
    FiveConserve(8.0, turns);
    FourSumToTotalIff(8.0, turns);
  }

  lemma {:induction false} TurnsAgree(turns: seq<Turn>)
    ensures var five, four := FiveOfTurns(turns), FourOf(turns);
      && five.comm == four.comm && five.stream == four.stream && five.shell == four.tool
      && five.other + five.harness == four.other
    decreases |turns|
  {
    hide Extent;
    if turns != [] {
      TurnsAgree(turns[..|turns| - 1]);
    }
  }

  /** The two decompositions agree on communication, streaming and shell time; the rest
      differs by the residual alone, which is what the turns leave of the session. */
  lemma DecompositionsAgree(total: real, turns: seq<Turn>)
    ensures var five, four := FiveOf(total, turns), FourOf(turns);
      && five.comm == four.comm && five.stream == four.stream && five.shell == four.tool
      && five.other + five.harness == four.other + Max(0.0, total - Sum(Durations(turns)))
  {
    hide FourOf, FiveOfTurns;
    TurnsAgree(turns);
    TurnsConserve(turns);
  }

  lemma {:induction false} StreamNonNegative(total: real, turns: seq<Turn>)
    ensures 0.0 <= FiveOf(total, turns).stream && 0.0 <= FourOf(turns).stream
    decreases |turns|
  {
    if turns != [] {
      StreamNonNegative(total, turns[..|turns| - 1]);
      var t := turns[|turns| - 1];
      var e := Extent(t.thinking + t.text);
      if e.Some? {
        var k :| 0 <= k < |t.thinking + t.text| && (t.thinking + t.text)[k] == Some(e.value.0);
        assert e.value.0 <= e.value.1;
      }
      hide Extent;
      assert 0.0 <= FiveOfTurn(t).stream && 0.0 <= FourOfTurn(t).stream;
    }
  }

  /** A turn whose deltas all lie within its duration. */
  ghost predicate Enclosed(t: Turn) {
    && 0.0 <= t.duration
    && forall k :: 0 <= k < |t.thinking + t.text| && (t.thinking + t.text)[k].Some? ==>
         0.0 <= (t.thinking + t.text)[k].value <= 1000.0 * t.duration
  }

  /** No bucket is negative when every delta lies within its turn. */
  lemma {:induction false} BucketsNonNegative(turns: seq<Turn>)
    requires forall i :: 0 <= i < |turns| ==> Enclosed(turns[i])
    ensures var f := FiveOfTurns(turns);
      0.0 <= f.comm && 0.0 <= f.stream && 0.0 <= f.shell && 0.0 <= f.other && 0.0 <= f.harness
    decreases |turns|
  {
    if turns != [] {
      BucketsNonNegative(turns[..|turns| - 1]);
      hide Extent, FiveOfTurn, Enclosed;
      assert Enclosed(turns[|turns| - 1]);
      EnclosedNonNegative(turns[|turns| - 1]);
    }
  }

  lemma EnclosedNonNegative(t: Turn)
    requires Enclosed(t)
    ensures var f := FiveOfTurn(t);
      0.0 <= f.comm && 0.0 <= f.stream && 0.0 <= f.shell && 0.0 <= f.other && 0.0 <= f.harness
  {
    var log := t.thinking + t.text;
    var e := Extent(log);
    hide Extent;
    if e.Some? {
      var k :| 0 <= k < |log| && log[k] == Some(e.value.0);
      var l :| 0 <= l < |log| && log[l] == Some(e.value.1);
      assert 0.0 <= e.value.0 <= e.value.1 <= 1000.0 * t.duration;
    }
  }
}
