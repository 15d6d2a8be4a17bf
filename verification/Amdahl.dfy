/** Speedup arithmetic and canonical selection of scripts/microbench/amdahl_analysis.py,
    and what the replay clock makes of them. */
module Amdahl {
  import opened Common
  import opened Trajectory
  import opened Replay
  import opened Isolation

  /** The figures derived for one cell.  A ceiling of None is the infinite one. */
  datatype Figures = Figures(sessionSp: real, shellSp: real, shellShare: real, ioShare: real,
                             ceiling: Option<real>, efficiency: real)

  /** The fraction of shell time that staging removes; at most one speedup is shared. */
  function IoShare(shellSp: real): real {
    if shellSp > 1.0 then Max(0.0, 1.0 - 1.0 / shellSp) else 0.0
  }

  function Denominator(shellSp: real, shellShare: real): real {
    if shellSp > 1.0 then 1.0 - shellShare * IoShare(shellSp) * (1.0 - 1.0 / shellSp) else 1.0
  }

  function Share(part: real, whole: real): real {
    if whole > 0.0 then part / whole else 0.0
  }

  function Inverse(denom: real): Option<real> {
    if denom > 0.0 then Some(1.0 / denom) else None
  }

  /** The per-cell arithmetic, for a cell with staged shell time.  None is the
      ZeroDivisionError of a cell whose staged session took no time. */
  function Analyse(cold: real, staged: real, coldShell: real, stagedShell: real): Option<Figures>
    requires stagedShell > 0.0
  {
    if staged == 0.0 then None
    else
      var sessionSp, shellSp := cold / staged, coldShell / stagedShell;
      var share := Share(coldShell, cold);
      var ceiling := Inverse(Denominator(shellSp, share));
      var efficiency := if ceiling.Some? && ceiling.value > 0.0 then sessionSp / ceiling.value else 0.0;
      Some(Figures(sessionSp, shellSp, share, IoShare(shellSp), ceiling, efficiency))
  }

  // Real arithmetic, one step at a time.

  lemma CancelFactor(a: real, b: real, c: real)
    requires c != 0.0 && a * c == b * c
    ensures a == b
  {
    assert (a - b) * c == 0.0;
  }

  lemma MultiplyOrder(a: real, b: real, c: real)
    requires c > 0.0
    ensures a <= b <==> a * c <= b * c
    ensures a == b <==> a * c == b * c
  {
    if a * c == b * c {
      CancelFactor(a, b, c);
    }
    if a < b {
      assert (b - a) * c > 0.0;
    }
    if b < a {
      assert (a - b) * c > 0.0;
    }
  }

  /** a/b against c/d, without dividing. */
  lemma CrossMultiply(a: real, b: real, c: real, d: real)
    requires b > 0.0 && d > 0.0
    ensures a / b <= c / d <==> a * d <= c * b
    ensures a / b == c / d <==> a * d == c * b
  {
    var x, y := a / b, c / d;
    assert x * b == a && y * d == c;
    MultiplyOrder(x, y, b * d);
    assert x * (b * d) == a * d by { assert x * (b * d) == (x * b) * d; }
    assert y * (b * d) == c * b by { assert y * (b * d) == (y * d) * b; }
  }

  lemma Associate(a: real, b: real, c: real)
    ensures (a * b) * c == a * (b * c)
  {
  }

  lemma ProductOrder(a: real, b: real, c: real)
    requires 0.0 <= a <= b <= c && a < b
    ensures 0.0 <= a * a < c * b
  {
    MultiplyOrder(a, b, b);
    MultiplyOrder(b, c, b);
    if a > 0.0 {
      MultiplyOrder(a, b, a);
    }
  }

  lemma SpeedupAboveOne(coldShell: real, stagedShell: real)
    requires 0.0 < stagedShell && 0.0 <= coldShell
    ensures coldShell / stagedShell > 1.0 <==> coldShell > stagedShell
    ensures coldShell > 0.0 ==> 1.0 / (coldShell / stagedShell) == stagedShell / coldShell
  {
    var p := coldShell / stagedShell;
    assert p * stagedShell == coldShell;
    MultiplyOrder(p, 1.0, stagedShell);
    if coldShell > 0.0 {
      assert p > 0.0 by {
        MultiplyOrder(p, 0.0, stagedShell);
      }
      var q := stagedShell / coldShell;
      assert q * coldShell == stagedShell;
      Associate(p, q, coldShell);
      assert p * (q * coldShell) == p * stagedShell;
      CancelFactor(p * q, 1.0, coldShell);
      assert (1.0 / p) * p == 1.0;
      CancelFactor(1.0 / p, q, p);
    }
  }

  /** With shell time saved, the denominator is one minus (saved time)^2 over
      (cold session) (cold shell). */
  lemma DenominatorForm(cold: real, coldShell: real, stagedShell: real)
    requires 0.0 < stagedShell <= coldShell && 0.0 < cold
    ensures var saved := coldShell - stagedShell;
      Denominator(coldShell / stagedShell, Share(coldShell, cold)) * (cold * coldShell)
      == cold * coldShell - saved * saved
  {
    var shellSp, share, saved := coldShell / stagedShell, coldShell / cold, coldShell - stagedShell;
    SpeedupAboveOne(coldShell, stagedShell);
    if coldShell > stagedShell {
      var r := stagedShell / coldShell;
      assert r * coldShell == stagedShell;
      MultiplyOrder(r, 1.0, coldShell);
      var x := 1.0 - r;
      assert x * coldShell == saved;
      assert share * cold == coldShell;
      assert IoShare(shellSp) == x;
      assert Denominator(shellSp, share) == 1.0 - share * x * x;
      Regroup(share, x, cold, coldShell);
    }
  }

  lemma Regroup(share: real, x: real, cold: real, coldShell: real)
    requires share * cold == coldShell
    ensures (share * x * x) * (cold * coldShell) == (x * coldShell) * (x * coldShell)
  {
    calc {
      (share * x * x) * (cold * coldShell);
    ==
      (share * cold) * (x * x * coldShell);
    ==
      coldShell * (x * x * coldShell);
    ==
      (x * coldShell) * (x * coldShell);
    }
  }

  lemma SavedSquare(cold: real, coldShell: real, stagedShell: real)
    requires 0.0 < stagedShell <= coldShell <= cold
    ensures var saved := coldShell - stagedShell;
      && 0.0 <= saved * saved < cold * coldShell
      && coldShell * saved - saved * saved == saved * stagedShell
  {
    ProductOrder(coldShell - stagedShell, coldShell, cold);
  }

  /** The ceiling exists, and is at least one, for every cell whose shell time fits in
      its session and does not grow under staging: the infinite branch is unreachable. */
  lemma CeilingExists(cold: real, staged: real, coldShell: real, stagedShell: real)
    requires 0.0 < stagedShell <= coldShell <= cold && staged != 0.0
    ensures var f := Analyse(cold, staged, coldShell, stagedShell);
      && f.Some? && f.value.ceiling.Some? && 1.0 <= f.value.ceiling.value
      && f.value.ceiling.value == (cold * coldShell)
           / (cold * coldShell - (coldShell - stagedShell) * (coldShell - stagedShell))
  {
    CeilingIs(cold, staged, coldShell, stagedShell);
    hide Analyse, Denominator, Share;
    InverseDenominator(cold, coldShell, stagedShell, cold * coldShell,
                       (coldShell - stagedShell) * (coldShell - stagedShell));
  }

  lemma InverseDenominator(cold: real, coldShell: real, stagedShell: real, whole: real, part: real)
    requires 0.0 < stagedShell <= coldShell <= cold
    requires whole == cold * coldShell && part == (coldShell - stagedShell) * (coldShell - stagedShell)
    ensures var d := Denominator(coldShell / stagedShell, Share(coldShell, cold));
      0.0 < d && 0.0 <= part < whole && 1.0 <= 1.0 / d && 1.0 / d == whole / (whole - part)
  {
    var d := Denominator(coldShell / stagedShell, Share(coldShell, cold));
    assert 0.0 <= part < whole by {
      SavedSquare(cold, coldShell, stagedShell);
    }
    assert d * whole == whole - part by {
      DenominatorForm(cold, coldShell, stagedShell);
    }
    hide Denominator, Share;
    InverseOfPart(d, whole, part);
  }

  lemma CeilingIs(cold: real, staged: real, coldShell: real, stagedShell: real)
    requires 0.0 < stagedShell && staged != 0.0
    ensures var f := Analyse(cold, staged, coldShell, stagedShell);
      f.Some? && f.value.ceiling == Inverse(Denominator(coldShell / stagedShell, Share(coldShell, cold)))
  {
    hide Denominator, Share, IoShare, Inverse;
  }

  /** The inverse of the fraction that a part leaves of a whole. */
  lemma InverseOfPart(d: real, whole: real, part: real)
    requires 0.0 <= part < whole && d * whole == whole - part
    ensures 0.0 < d && 1.0 <= 1.0 / d && 1.0 / d == whole / (whole - part)
  {
    MultiplyOrder(d, 0.0, whole);
    MultiplyOrder(d, 1.0, whole);
    CrossMultiply(1.0, d, whole, whole - part);
    MultiplyOrder(1.0, 1.0 / d, d);
    assert (1.0 / d) * d == 1.0;
  }

  /** The ceiling is a number: staging slows the shells down or leaves them alone, or the
      saved shell time is small enough for the session. */
  predicate Finite(cold: real, coldShell: real, stagedShell: real) {
    var saved := coldShell - stagedShell;
    cold == 0.0 || saved <= 0.0 || saved * saved < cold * coldShell
  }

  /** The time the whole session saves, weighed by the cold shell time, covers the square
      of the saved shell time; where no shell time is saved, the session saves time. */
  predicate Earns(cold: real, staged: real, coldShell: real, stagedShell: real) {
    var saved := coldShell - stagedShell;
    if saved <= 0.0 then staged <= cold else coldShell * staged <= cold * coldShell - saved * saved
  }

  predicate EarnsExactly(cold: real, staged: real, coldShell: real, stagedShell: real) {
    var saved := coldShell - stagedShell;
    if saved <= 0.0 then staged == cold else coldShell * staged == cold * coldShell - saved * saved
  }

  /** For every cell that is analysed: when the ceiling is a number, that it is then at least
      one, and which of it and the measured session speedup is larger. */
  lemma CeilingAgainstSpeedup(cold: real, staged: real, coldShell: real, stagedShell: real)
    requires 0.0 <= cold && 0.0 < staged && 0.0 <= coldShell && 0.0 < stagedShell
    ensures var f := Analyse(cold, staged, coldShell, stagedShell);
      && f.Some? && (f.value.ceiling.Some? <==> Finite(cold, coldShell, stagedShell))
      && (f.value.ceiling.Some? ==>
            && 1.0 <= f.value.ceiling.value
            && (f.value.ceiling.value <= f.value.sessionSp <==> Earns(cold, staged, coldShell, stagedShell))
            && (f.value.ceiling.value == f.value.sessionSp <==> EarnsExactly(cold, staged, coldShell, stagedShell)))
  {
    SpeedupIs(cold, staged, coldShell, stagedShell);
    CeilingIs(cold, staged, coldShell, stagedShell);
    hide Analyse, Finite, Earns, EarnsExactly, Denominator;
    if cold == 0.0 || coldShell <= stagedShell {
      UnitVersus(cold, staged, coldShell, stagedShell);
    } else {
      EarnsByProducts(cold, staged, coldShell, stagedShell, cold * coldShell,
                      (coldShell - stagedShell) * (coldShell - stagedShell));
      SavingVersus(cold, staged, coldShell, stagedShell, cold * coldShell,
                   (coldShell - stagedShell) * (coldShell - stagedShell));
    }
  }

  lemma EarnsByProducts(cold: real, staged: real, coldShell: real, stagedShell: real, whole: real, part: real)
    requires 0.0 < cold && stagedShell < coldShell
    requires whole == cold * coldShell && part == (coldShell - stagedShell) * (coldShell - stagedShell)
    ensures Finite(cold, coldShell, stagedShell) <==> part < whole
    ensures Earns(cold, staged, coldShell, stagedShell) <==> coldShell * staged <= whole - part
    ensures EarnsExactly(cold, staged, coldShell, stagedShell) <==> coldShell * staged == whole - part
  {
  }

  lemma UnitVersus(cold: real, staged: real, coldShell: real, stagedShell: real)
    requires 0.0 <= cold && 0.0 < staged && 0.0 <= coldShell && 0.0 < stagedShell
    requires cold == 0.0 || coldShell <= stagedShell
    ensures Finite(cold, coldShell, stagedShell)
    ensures Inverse(Denominator(coldShell / stagedShell, Share(coldShell, cold))) == Some(1.0)
    ensures 1.0 <= cold / staged <==> Earns(cold, staged, coldShell, stagedShell)
    ensures 1.0 == cold / staged <==> EarnsExactly(cold, staged, coldShell, stagedShell)
  {
    UnitDenominator(cold, coldShell, stagedShell);
    hide Denominator;
    CrossMultiply(1.0, 1.0, cold, staged);
    if coldShell > stagedShell {
      NothingEarned(staged, coldShell, stagedShell);
      hide Earns, EarnsExactly;
    }
  }

  lemma SpeedupIs(cold: real, staged: real, coldShell: real, stagedShell: real)
    requires 0.0 < staged && 0.0 < stagedShell
    ensures var f := Analyse(cold, staged, coldShell, stagedShell);
      f.Some? && f.value.sessionSp == cold / staged
  {
    hide Denominator, Share, IoShare, Inverse;
  }

  lemma UnitDenominator(cold: real, coldShell: real, stagedShell: real)
    requires 0.0 <= cold && 0.0 <= coldShell && 0.0 < stagedShell
    requires cold == 0.0 || coldShell <= stagedShell
    ensures Denominator(coldShell / stagedShell, Share(coldShell, cold)) == 1.0
  {
    SpeedupAboveOne(coldShell, stagedShell);
  }

  lemma NothingEarned(staged: real, coldShell: real, stagedShell: real)
    requires 0.0 < staged && 0.0 < stagedShell < coldShell
    ensures !Earns(0.0, staged, coldShell, stagedShell) && !EarnsExactly(0.0, staged, coldShell, stagedShell)
  {
    var saved := coldShell - stagedShell;
    assert 0.0 < coldShell * staged && 0.0 < saved * saved && 0.0 * coldShell == 0.0;
  }

  lemma SavingVersus(cold: real, staged: real, coldShell: real, stagedShell: real, whole: real, part: real)
    requires 0.0 < cold && 0.0 < staged && 0.0 < stagedShell < coldShell
    requires whole == cold * coldShell && part == (coldShell - stagedShell) * (coldShell - stagedShell)
    ensures var ceiling := Inverse(Denominator(coldShell / stagedShell, Share(coldShell, cold)));
      && (ceiling.Some? <==> part < whole)
      && (ceiling.Some? ==>
            && 1.0 <= ceiling.value
            && (ceiling.value <= cold / staged <==> coldShell * staged <= whole - part)
            && (ceiling.value == cold / staged <==> coldShell * staged == whole - part))
  {
    var d := Denominator(coldShell / stagedShell, Share(coldShell, cold));
    assert d * whole == whole - part by {
      DenominatorForm(cold, coldShell, stagedShell);
    }
    assert 0.0 < whole && 0.0 <= part by {
      assert 0.0 < cold * coldShell;
      var saved := coldShell - stagedShell;
      assert 0.0 <= saved * saved;
    }
    hide Denominator, Share;
    MultiplyOrder(0.0, d, whole);
    MultiplyOrder(d, 0.0, whole);
    if part < whole {
      InverseOfPart(d, whole, part);
      QuotientAgainst(cold, coldShell, staged, whole - part);
    }
  }

  /** The time a staged session adds outside its shells, weighed by the cold shell time,
      stays within the saved shell time times the staged shell time; where the shells are
      slower, the session outside them saves at least what they lose. */
  predicate PaysFor(extra: real, coldShell: real, stagedShell: real) {
    if coldShell <= stagedShell then extra <= coldShell - stagedShell
    else extra * coldShell <= (coldShell - stagedShell) * stagedShell
  }

  predicate PaysExactly(extra: real, coldShell: real, stagedShell: real) {
    if coldShell <= stagedShell then extra == coldShell - stagedShell
    else extra * coldShell == (coldShell - stagedShell) * stagedShell
  }

  /** The same for sessions split into their shell time and the rest: the ceiling is at
      most the measured speedup if and only if staging pays for what it adds elsewhere. */
  lemma CeilingBySplit(coldOther: real, stagedOther: real, coldShell: real, stagedShell: real)
    requires 0.0 <= coldOther && 0.0 <= stagedOther && 0.0 <= coldShell && 0.0 < stagedShell
    ensures var f := Analyse(coldOther + coldShell, stagedOther + stagedShell, coldShell, stagedShell);
      && f.Some? && f.value.ceiling.Some? && 1.0 <= f.value.ceiling.value
      && (f.value.ceiling.value <= f.value.sessionSp <==>
            PaysFor(stagedOther - coldOther, coldShell, stagedShell))
      && (f.value.ceiling.value == f.value.sessionSp <==>
            PaysExactly(stagedOther - coldOther, coldShell, stagedShell))
  {
    hide Analyse;
    CeilingAgainstSpeedup(coldOther + coldShell, stagedOther + stagedShell, coldShell, stagedShell);
    Rearranged(coldOther, stagedOther, coldShell, stagedShell);
    if stagedShell < coldShell {
      SavedSquare(coldOther + coldShell, coldShell, stagedShell);
    }
  }

  lemma QuotientAgainst(cold: real, coldShell: real, staged: real, rest: real)
    requires 0.0 < cold && 0.0 < staged && 0.0 < rest
    ensures (cold * coldShell) / rest <= cold / staged <==> coldShell * staged <= rest
    ensures (cold * coldShell) / rest == cold / staged <==> coldShell * staged == rest
  {
    CrossMultiply(cold * coldShell, rest, cold, staged);
    CommonFactor(cold, coldShell, staged, rest);
  }

  lemma Rearranged(coldOther: real, stagedOther: real, coldShell: real, stagedShell: real)
    ensures var saved := coldShell - stagedShell;
      ((coldOther + coldShell) * coldShell - saved * saved) - coldShell * (stagedOther + stagedShell)
      == saved * stagedShell - (stagedOther - coldOther) * coldShell
  {
  }

  lemma CommonFactor(cold: real, coldShell: real, staged: real, rest: real)
    requires cold > 0.0
    ensures (cold * coldShell) * staged <= cold * rest <==> coldShell * staged <= rest
    ensures (cold * coldShell) * staged == cold * rest <==> coldShell * staged == rest
  {
    Associate(cold, coldShell, staged);
    MultiplyOrder(coldShell * staged, rest, cold);
  }

  /** When both sessions share their time outside the shells, the ceiling is below the
      measured speedup and the efficiency above one exactly when staging makes the shells
      faster; they meet only when it changes nothing. */
  lemma SharedOverheadBounds(other: real, coldShell: real, stagedShell: real)
    requires 0.0 <= other && 0.0 <= coldShell && 0.0 < stagedShell
    ensures var f := Analyse(other + coldShell, other + stagedShell, coldShell, stagedShell);
      && f.Some? && f.value.ceiling.Some? && 1.0 <= f.value.ceiling.value
      && (f.value.ceiling.value <= f.value.sessionSp <==> stagedShell <= coldShell)
      && (f.value.ceiling.value == f.value.sessionSp <==> coldShell == stagedShell)
      && (1.0 <= f.value.efficiency <==> stagedShell <= coldShell)
  {
    CeilingBySplit(other, other, coldShell, stagedShell);
    var f := Analyse(other + coldShell, other + stagedShell, coldShell, stagedShell).value;
    assert f.efficiency == f.sessionSp / f.ceiling.value;
    hide Analyse;
    NoExtra(coldShell, stagedShell);
    AtLeastOne(f.sessionSp, f.ceiling.value);
  }

  /** Staging pays for no extra time exactly when it slows no shell down, and meets it only
      when it saves nothing. */
  lemma NoExtra(coldShell: real, stagedShell: real)
    requires 0.0 <= coldShell && 0.0 < stagedShell
    ensures PaysFor(0.0, coldShell, stagedShell) <==> stagedShell <= coldShell
    ensures PaysExactly(0.0, coldShell, stagedShell) <==> coldShell == stagedShell
  {
    var saved := coldShell - stagedShell;
    MultiplyOrder(0.0, saved, stagedShell);
  }

  lemma AtLeastOne(x: real, y: real)
    requires 0.0 < y
    ensures 1.0 <= x / y <==> y <= x
  {
    assert (x / y) * y == x;
    MultiplyOrder(1.0, x / y, y);
  }

  // Replayed cells.

  /** Total time of the executed shell commands. */
  function ShellTime(tools: seq<Tool>, times: seq<real>): real
    requires |tools| == |times|
  {
    if tools == [] then 0.0
    else
      var n := |tools| - 1;
      var counted := !IsKilled(tools[n]) && tools[n].name == "run_shell_command";
      ShellTime(tools[..n], times[..n]) + if counted then times[n] else 0.0
  }

  /** The seconds of each executed shell command, none for the other tools. */
  function ShellSpent(tools: seq<Tool>, times: seq<real>): (r: seq<real>)
    requires |tools| == |times|
    ensures |r| == |tools|
    ensures forall k :: 0 <= k < |tools| ==>
      r[k] == if tools[k].rc != Some(-9) && tools[k].name == "run_shell_command" then times[k] else 0.0
  {
    seq(|tools|, k requires 0 <= k < |tools| =>
      if tools[k].rc != Some(-9) && tools[k].name == "run_shell_command" then times[k] else 0.0)
  }

  lemma {:induction false} ShellTimeIsSum(tools: seq<Tool>, times: seq<real>)
    requires |tools| == |times|
    ensures ShellTime(tools, times) == Sum(ShellSpent(tools, times))
    decreases |tools|
  {
    if tools != [] {
      var n := |tools| - 1;
      ShellTimeIsSum(tools[..n], times[..n]);
      assert ShellSpent(tools, times)[..n] == ShellSpent(tools[..n], times[..n]);
    }
  }

  function ShellSeconds(turns: seq<Turn>, runs: seq<TurnRun>): real
    requires AllFit(turns, runs)
  {
    if turns == [] then 0.0
    else
      var n := |turns| - 1;
      ShellSeconds(turns[..n], runs[..n]) + ShellTime(turns[n].tools, runs[n].toolTime)
  }

  /** Tools other than shell commands take no time. */
  ghost predicate OnlyShellsTakeTime(turns: seq<Turn>, runs: seq<TurnRun>)
    requires AllFit(turns, runs)
  {
    forall i, k :: 0 <= i < |turns| && 0 <= k < |turns[i].tools| ==>
      turns[i].tools[k].name != "run_shell_command" ==> runs[i].toolTime[k] == 0.0
  }

  lemma {:induction false} ShellIsExec(tools: seq<Tool>, times: seq<real>)
    requires |tools| == |times|
    requires forall k :: 0 <= k < |tools| ==> tools[k].name != "run_shell_command" ==> times[k] == 0.0
    ensures ShellTime(tools, times) == ExecTime(tools, times)
    decreases |tools|
  {
    if tools != [] {
      ShellIsExec(tools[..|tools| - 1], times[..|tools| - 1]);
    }
  }

  lemma {:induction false} ShellIsToolTime(turns: seq<Turn>, runs: seq<TurnRun>)
    requires AllFit(turns, runs) && OnlyShellsTakeTime(turns, runs)
    ensures ShellSeconds(turns, runs) == ToolSeconds(turns, runs)
    decreases |turns|
  {
    if turns != [] {
      var n := |turns| - 1;
      ShellIsToolTime(turns[..n], runs[..n]);
      ShellIsExec(turns[n].tools, runs[n].toolTime);
    }
  }

  lemma {:induction false} BudgetsNonNegative(turns: seq<Turn>, cap: real)
    requires forall i :: 0 <= i < |turns| ==> Recorded(turns[i], cap)
    ensures 0.0 <= Budgets(turns, cap)
    decreases |turns|
  {
    if turns != [] {
      var t := turns[|turns| - 1];
      BudgetsNonNegative(turns[..|turns| - 1], cap);
      assert Recorded(t, cap);
      if t.blocks != [] {
        var b :| b in t.blocks && b.tStopMs == t.lastDeltaMs;
        assert 0.0 <= b.tStopMs;
      }
    }
  }

  /** The figures of a replayed cell, from its two simulated sessions. */
  function CellFigures(turns: seq<Turn>, cold: seq<TurnRun>, staged: seq<TurnRun>, cap: real): Option<Figures>
    requires AllFit(turns, cold) && AllFit(turns, staged) && ShellSeconds(turns, staged) > 0.0
  {
    Analyse(SessionTime(turns, cold, cap), SessionTime(turns, staged, cap),
            ShellSeconds(turns, cold), ShellSeconds(turns, staged))
  }

  lemma {:induction false} ShellTimeNonNegative(tools: seq<Tool>, times: seq<real>)
    requires |tools| == |times| && forall i :: 0 <= i < |times| ==> 0.0 <= times[i]
    ensures 0.0 <= ShellTime(tools, times)
    decreases |tools|
  {
    if tools != [] {
      ShellTimeNonNegative(tools[..|tools| - 1], times[..|times| - 1]);
    }
  }

  lemma {:induction false} ShellSecondsNonNegative(turns: seq<Turn>, runs: seq<TurnRun>)
    requires AllFit(turns, runs)
    ensures 0.0 <= ShellSeconds(turns, runs)
    decreases |turns|
  {
    if turns != [] {
      var n := |turns| - 1;
      ShellSecondsNonNegative(turns[..n], runs[..n]);
      ShellTimeNonNegative(turns[n].tools, runs[n].toolTime);
    }
  }

  /** For any trajectory replayed cold and staged where all tool time is shell time: the
      ceiling is a number, and a lower bound of the measured speedup exactly as long as
      the shell time saved pays for the overhead that staging exposes. */
  lemma ReplayedCell(turns: seq<Turn>, cold: seq<TurnRun>, staged: seq<TurnRun>, cap: real)
    requires AllFit(turns, cold) && AllFit(turns, staged)
    requires forall i :: 0 <= i < |turns| ==> Recorded(turns[i], cap)
    requires OnlyShellsTakeTime(turns, cold) && OnlyShellsTakeTime(turns, staged)
    requires 0.0 < ShellSeconds(turns, staged)
    ensures var f := CellFigures(turns, cold, staged, cap);
      && f.Some? && f.value.ceiling.Some? && 1.0 <= f.value.ceiling.value
      && (f.value.ceiling.value <= f.value.sessionSp <==>
            PaysFor(Exposed(turns, staged, cap) - Exposed(turns, cold, cap),
                    ShellSeconds(turns, cold), ShellSeconds(turns, staged)))
  {
    hide Analyse, PaysFor, SessionTime, ShellSeconds, Budgets, Exposed, AllFit, OnlyShellsTakeTime, Recorded;
    ShellSecondsNonNegative(turns, cold);
    var co, so := CellParts(turns, cold, staged, cap);
    CeilingBySplit(co, so, ShellSeconds(turns, cold), ShellSeconds(turns, staged));
  }

  /** The two sessions of a cell, split into their shell time and the rest. */
  lemma CellParts(turns: seq<Turn>, cold: seq<TurnRun>, staged: seq<TurnRun>, cap: real)
    returns (coldOther: real, stagedOther: real)
    requires AllFit(turns, cold) && AllFit(turns, staged)
    requires forall i :: 0 <= i < |turns| ==> Recorded(turns[i], cap)
    requires OnlyShellsTakeTime(turns, cold) && OnlyShellsTakeTime(turns, staged)
    ensures SessionTime(turns, cold, cap) == coldOther + ShellSeconds(turns, cold)
    ensures SessionTime(turns, staged, cap) == stagedOther + ShellSeconds(turns, staged)
    ensures 0.0 <= coldOther && 0.0 <= stagedOther
    ensures stagedOther - coldOther == Exposed(turns, staged, cap) - Exposed(turns, cold, cap)
  {
    CellSplit(turns, cold, cap);
    CellSplit(turns, staged, cap);
    coldOther, stagedOther := Unstaged(turns, cold, cap), Unstaged(turns, staged, cap);
  }

  /** A session's time outside its shells. */
  function Unstaged(turns: seq<Turn>, runs: seq<TurnRun>, cap: real): real
    requires AllFit(turns, runs)
  {
    Budgets(turns, cap) + Exposed(turns, runs, cap)
  }

  lemma CellSplit(turns: seq<Turn>, runs: seq<TurnRun>, cap: real)
    requires AllFit(turns, runs) && OnlyShellsTakeTime(turns, runs)
    requires forall i :: 0 <= i < |turns| ==> Recorded(turns[i], cap)
    ensures SessionTime(turns, runs, cap) == Unstaged(turns, runs, cap) + ShellSeconds(turns, runs)
    ensures 0.0 <= Unstaged(turns, runs, cap)
  {
    TimeByCause(turns, runs, cap);
    ShellIsToolTime(turns, runs);
    BudgetsNonNegative(turns, cap);
    ExposedNonNegative(turns, runs, cap);
  }

  /** In particular under mechanism isolation the measured speedup is not below it exactly
      when staging slows the shells down in no way. */
  lemma IsolatedCell(turns: seq<Turn>, cold: seq<TurnRun>, staged: seq<TurnRun>, cap: real)
    requires AllFit(turns, cold) && AllFit(turns, staged)
    requires forall i :: 0 <= i < |turns| ==> Recorded(turns[i], cap)
    requires OnlyShellsTakeTime(turns, cold) && OnlyShellsTakeTime(turns, staged)
    requires 0.0 < ShellSeconds(turns, staged)
    requires Hidden(turns, cold, cap) && Hidden(turns, staged, cap) && SameResultTime(turns, cold, staged)
    ensures var f := CellFigures(turns, cold, staged, cap);
      && f.Some? && f.value.ceiling.Some? && 1.0 <= f.value.ceiling.value
      && (f.value.ceiling.value <= f.value.sessionSp <==>
            ShellSeconds(turns, staged) <= ShellSeconds(turns, cold))
      && (f.value.ceiling.value == f.value.sessionSp <==>
            ShellSeconds(turns, cold) == ShellSeconds(turns, staged))
  {
    hide Analyse, SessionTime, ShellSeconds, Budgets, Exposed, AllFit, OnlyShellsTakeTime, Recorded, Hidden;
    HiddenExposed(turns, cold, staged, cap);
    ShellSecondsNonNegative(turns, cold);
    var co, so := CellParts(turns, cold, staged, cap);
    SharedOverheadBounds(co, ShellSeconds(turns, cold), ShellSeconds(turns, staged));
  }

  // The three-repetition selection.

  type Key = (string, string)

  datatype Cell = Cell(campaign: string, task: string, model: string,
                       coldS: Option<real>, stagedS: Option<real>,
                       coldShellS: Option<real>, stagedShellS: Option<real>)

  datatype Chosen = Chosen(cell: Cell, figures: Figures)

  function KeyOf(c: Cell): Key { (c.task, c.model) }

  /** A cell of the paper grid with all four times, from one of its listed campaigns. */
  predicate Eligible(c: Cell, paper: map<Key, seq<string>>) {
    && !("_" <= c.campaign)
    && c.coldS.Some? && c.stagedS.Some? && c.coldShellS.Some? && c.stagedShellS.Some?
    && KeyOf(c) in paper && c.campaign in paper[KeyOf(c)]
  }

  predicate Degenerate(c: Cell)
    requires c.coldShellS.Some? && c.stagedShellS.Some?
  {
    c.coldShellS.value == 0.0 && c.stagedShellS.value == 0.0
  }

  predicate Usable(c: Cell, paper: map<Key, seq<string>>) {
    Eligible(c, paper) && (Degenerate(c) || c.stagedShellS.value > 0.0)
  }

  /** The figures of a usable cell; a session without shell time is pure streaming. */
  function FiguresOf(c: Cell, paper: map<Key, seq<string>>): Option<Figures>
    requires Usable(c, paper)
  {
    var cold, staged := c.coldS.value, c.stagedS.value;
    if staged == 0.0 then None
    else if Degenerate(c) then
      Some(Figures(cold / staged, 1.0, 0.0, 0.0, Some(1.0), cold / staged))
    else Analyse(cold, staged, c.coldShellS.value, c.stagedShellS.value)
  }

  /** What a usable cell is: from a campaign that is not set aside by a leading underscore and
      is listed for its task and model, with all four times, and with staged shell time or
      with no shell time at all. */
  lemma UsableMeaning(c: Cell, paper: map<Key, seq<string>>)
    ensures Usable(c, paper) <==>
      && (c.campaign == "" || c.campaign[0] != '_')
      && (c.task, c.model) in paper && c.campaign in paper[(c.task, c.model)]
      && c.coldS != None && c.stagedS != None && c.coldShellS != None && c.stagedShellS != None
      && (c.stagedShellS.value > 0.0 || c.coldShellS.value == c.stagedShellS.value == 0.0)
  {
  }

  /** The figures in terms of the four times alone. */
  ghost predicate FiguresFit(f: Figures, cold: real, staged: real, coldShell: real, stagedShell: real) {
    var saves := stagedShell < coldShell;
    && f.sessionSp * staged == cold && f.shellSp * stagedShell == coldShell
    && (if cold > 0.0 then f.shellShare * cold == coldShell else f.shellShare == 0.0)
    && (if saves then f.ioShare * coldShell == coldShell - stagedShell else f.ioShare == 0.0)
    && (f.ceiling == None <==> f.shellShare * (f.ioShare * f.ioShare) >= 1.0)
    && (f.ceiling != None ==> f.ceiling.value * (1.0 - f.shellShare * (f.ioShare * f.ioShare)) == 1.0)
    && (if f.ceiling == None then f.efficiency == 0.0 else f.efficiency * f.ceiling.value == f.sessionSp)
  }

  lemma InverseMeaning(d: real)
    ensures d > 0.0 ==> Inverse(d).Some? && Inverse(d).value > 0.0 && Inverse(d).value * d == 1.0
    ensures d <= 0.0 ==> Inverse(d).None?
  {
  }

  lemma QuotientTimes(a: real, b: real)
    requires b != 0.0
    ensures (a / b) * b == a
  {
  }

  lemma SavedShare(coldShell: real, stagedShell: real)
    requires 0.0 < stagedShell
    ensures var sp := coldShell / stagedShell;
      && (sp > 1.0 <==> stagedShell < coldShell)
      && (sp <= 1.0 ==> IoShare(sp) == 0.0)
      && (sp > 1.0 ==> IoShare(sp) == 1.0 - 1.0 / sp && IoShare(sp) * coldShell == coldShell - stagedShell)
  {
    var sp := coldShell / stagedShell;
    QuotientTimes(coldShell, stagedShell);
    MultiplyOrder(1.0, sp, stagedShell);
    MultiplyOrder(sp, 1.0, stagedShell);
    if sp > 1.0 {
      QuotientTimes(1.0, sp);
      var q := 1.0 / sp;
      assert q * coldShell == stagedShell by {
        assert q * (sp * stagedShell) == (q * sp) * stagedShell;
      }
      MultiplyOrder(q, 1.0, sp);
      assert (1.0 - q) * coldShell == coldShell - q * coldShell;
    }
  }

  lemma AnalysedFigures(cold: real, staged: real, coldShell: real, stagedShell: real)
    requires stagedShell > 0.0 && staged != 0.0
    ensures FiguresFit(Analyse(cold, staged, coldShell, stagedShell).value, cold, staged, coldShell, stagedShell)
  {
    var sessionSp, shellSp := cold / staged, coldShell / stagedShell;
    var share, io := Share(coldShell, cold), IoShare(shellSp);
    var denom := Denominator(shellSp, share);
    QuotientTimes(cold, staged);
    QuotientTimes(coldShell, stagedShell);
    SavedShare(coldShell, stagedShell);
    if cold > 0.0 {
      QuotientTimes(coldShell, cold);
    }
    assert denom == 1.0 - share * (io * io) by {
      if shellSp > 1.0 {
        Associate(share, io, io);
      }
    }
    hide IoShare, Denominator, Share;
    InverseMeaning(denom);
    if denom > 0.0 {
      QuotientTimes(sessionSp, Inverse(denom).value);
    }
    hide Inverse;
  }

  /** What a kept cell's figures are: speedups that times the staged time give the cold time,
      the share of shell time, the share of it that is saved, the ceiling and the efficiency
      against it; a cell without shell time counts as pure streaming. */
  lemma FiguresMeaning(c: Cell, paper: map<Key, seq<string>>)
    requires Usable(c, paper)
    ensures FiguresOf(c, paper) == None <==> c.stagedS.value == 0.0
    ensures FiguresOf(c, paper) != None && c.stagedShellS.value > 0.0 ==>
      FiguresFit(FiguresOf(c, paper).value, c.coldS.value, c.stagedS.value, c.coldShellS.value, c.stagedShellS.value)
    ensures FiguresOf(c, paper) != None && c.stagedShellS.value == 0.0 ==>
      var f := FiguresOf(c, paper).value;
      && f.sessionSp * c.stagedS.value == c.coldS.value && f.efficiency == f.sessionSp
      && f.shellSp == 1.0 && f.shellShare == f.ioShare == 0.0 && f.ceiling == Some(1.0)
  {
    var cold, staged := c.coldS.value, c.stagedS.value;
    if staged != 0.0 {
      QuotientTimes(cold, staged);
      if c.stagedShellS.value > 0.0 {
        AnalysedFigures(cold, staged, c.coldShellS.value, c.stagedShellS.value);
        hide Analyse, FiguresFit;
      }
    }
  }

  /** The cells of a list that are usable and have the given key, in order. */
  function UsableOf(cells: seq<Cell>, k: Key, paper: map<Key, seq<string>>): seq<Cell> {
    if cells == [] then []
    else
      var last := cells[|cells| - 1];
      var earlier := UsableOf(cells[..|cells| - 1], k, paper);
      if Usable(last, paper) && KeyOf(last) == k then earlier + [last] else earlier
  }

  function ChosenOf(chosen: seq<Chosen>, k: Key): seq<Cell> {
    if chosen == [] then []
    else
      var last := chosen[|chosen| - 1].cell;
      var earlier := ChosenOf(chosen[..|chosen| - 1], k);
      if KeyOf(last) == k then earlier + [last] else earlier
  }

  function FirstThree(cells: seq<Cell>): seq<Cell> {
    if |cells| <= 3 then cells else cells[..3]
  }

  /** Every key keeps exactly its first three usable repetitions, with their figures. */
  ghost predicate FirstRepetitions(chosen: seq<Chosen>, cells: seq<Cell>, paper: map<Key, seq<string>>) {
    && (forall k :: ChosenOf(chosen, k) == FirstThree(UsableOf(cells, k, paper)))
    && (forall c :: c in chosen ==> Usable(c.cell, paper) && FiguresOf(c.cell, paper) == Some(c.figures))
  }

  // The repetitions of one task and model, by place.

  /** Cell i is a usable repetition of a task and model. */
  predicate Repeats(cells: seq<Cell>, i: nat, k: Key, paper: map<Key, seq<string>>)
    requires i < |cells|
  {
    Usable(cells[i], paper) && cells[i].task == k.0 && cells[i].model == k.1
  }

  lemma {:induction false} UsablePlaces(cells: seq<Cell>, k: Key, paper: map<Key, seq<string>>) returns (at: seq<nat>)
    ensures Ascends(at) && |at| == |UsableOf(cells, k, paper)|
    ensures forall i: nat :: i in at <==> i < |cells| && Repeats(cells, i, k, paper)
    ensures forall j :: 0 <= j < |at| ==> at[j] < |cells| && UsableOf(cells, k, paper)[j] == cells[at[j]]
    decreases |cells|
  {
    hide Ascends, Usable;
    at := [];
    if cells == [] {
      AscendsNone();
    } else {
      var n := |cells| - 1;
      at := UsablePlaces(cells[..n], k, paper);
      assert forall i: nat :: i < n ==> cells[..n][i] == cells[i];
      if Repeats(cells, n, k, paper) {
        AscendsSnoc(at, n);
        at := at + [n];
      }
    }
  }

  lemma {:induction false} ChosenPlaces(chosen: seq<Chosen>, k: Key) returns (at: seq<nat>)
    ensures Ascends(at) && |at| == |ChosenOf(chosen, k)|
    ensures forall i: nat :: i in at <==> i < |chosen| && chosen[i].cell.task == k.0 && chosen[i].cell.model == k.1
    ensures forall j :: 0 <= j < |at| ==> at[j] < |chosen| && ChosenOf(chosen, k)[j] == chosen[at[j]].cell
    decreases |chosen|
  {
    hide Ascends;
    at := [];
    if chosen == [] {
      AscendsNone();
    } else {
      var n := |chosen| - 1;
      at := ChosenPlaces(chosen[..n], k);
      assert forall i: nat :: i < n ==> chosen[..n][i] == chosen[i];
      if KeyOf(chosen[n].cell) == k {
        AscendsSnoc(at, n);
        at := at + [n];
      }
    }
  }

  /** The kept cells of a task and model stand at the places `kept`, and are the cells at the
      places `at`: at most three of its usable repetitions, the first ones. */
  ghost predicate KeepsFirst(chosen: seq<Chosen>, cells: seq<Cell>, k: Key, paper: map<Key, seq<string>>,
                             kept: seq<nat>, at: seq<nat>)
  {
    && Ascends(kept) && Ascends(at) && |kept| == |at| <= 3
    && (forall i: nat :: i in kept <==> i < |chosen| && chosen[i].cell.task == k.0 && chosen[i].cell.model == k.1)
    && (forall j :: 0 <= j < |at| ==> at[j] < |cells| && Repeats(cells, at[j], k, paper))
    && (forall j :: 0 <= j < |at| ==> kept[j] < |chosen| && chosen[kept[j]].cell == cells[at[j]])
    && (forall i: nat :: i < |cells| && Repeats(cells, i, k, paper) && i !in at ==>
          |at| == 3 && forall j :: 0 <= j < 3 ==> at[j] < i)
  }

  lemma FirstRepetitionsMeaning(chosen: seq<Chosen>, cells: seq<Cell>, k: Key, paper: map<Key, seq<string>>)
    returns (kept: seq<nat>, at: seq<nat>)
    requires FirstRepetitions(chosen, cells, paper)
    ensures KeepsFirst(chosen, cells, k, paper, kept, at)
  {
    CutAtThree(chosen, cells, k, paper);
    hide *;
    kept := ChosenPlaces(chosen, k);
    var all := UsablePlaces(cells, k, paper);
    at := all[..|kept|];
    FirstPlaces(all, at, |kept|);
    forall j | 0 <= j < |at|
      ensures at[j] < |cells| && Repeats(cells, at[j], k, paper)
      ensures kept[j] < |chosen| && chosen[kept[j]].cell == cells[at[j]]
    {
      assert at[j] == all[j] && at[j] in at;
    }
    forall i: nat | i < |cells| && Repeats(cells, i, k, paper) && i !in at
      ensures |at| == 3 && forall j :: 0 <= j < 3 ==> at[j] < i
    {
      assert i in all;
    }
  }

  lemma CutAtThree(chosen: seq<Chosen>, cells: seq<Cell>, k: Key, paper: map<Key, seq<string>>)
    requires FirstRepetitions(chosen, cells, paper)
    ensures var cs, us := ChosenOf(chosen, k), UsableOf(cells, k, paper);
      && |cs| <= 3 && |cs| <= |us| && (|cs| < |us| ==> |cs| == 3)
      && forall x :: 0 <= x < |cs| ==> cs[x] == us[x]
  {
    assert ChosenOf(chosen, k) == FirstThree(UsableOf(cells, k, paper));
  }

  method CountOf(chosen: seq<Chosen>, k: Key) returns (n: nat)
    ensures n == |ChosenOf(chosen, k)|
  {
    n := 0;
    for i := 0 to |chosen|
      invariant n == |ChosenOf(chosen[..i], k)|
    {
      assert chosen[..i + 1][..i] == chosen[..i];
      if KeyOf(chosen[i].cell) == k {
        n := n + 1;
      }
    }
    assert chosen[..|chosen|] == chosen;
  }

  lemma SkipCell(chosen: seq<Chosen>, cells: seq<Cell>, c: Cell, paper: map<Key, seq<string>>)
    requires FirstRepetitions(chosen, cells, paper)
    requires Usable(c, paper) ==> |ChosenOf(chosen, KeyOf(c))| >= 3
    ensures FirstRepetitions(chosen, cells + [c], paper)
  {
    assert (cells + [c])[..|cells|] == cells;
    forall k ensures ChosenOf(chosen, k) == FirstThree(UsableOf(cells + [c], k, paper)) {
    }
  }

  lemma KeepCell(chosen: seq<Chosen>, cells: seq<Cell>, c: Cell, f: Figures, paper: map<Key, seq<string>>)
    requires FirstRepetitions(chosen, cells, paper)
    requires Usable(c, paper) && FiguresOf(c, paper) == Some(f) && |ChosenOf(chosen, KeyOf(c))| < 3
    ensures FirstRepetitions(chosen + [Chosen(c, f)], cells + [c], paper)
  {
    assert (cells + [c])[..|cells|] == cells;
    assert (chosen + [Chosen(c, f)])[..|chosen|] == chosen;
    forall k ensures ChosenOf(chosen + [Chosen(c, f)], k) == FirstThree(UsableOf(cells + [c], k, paper)) {
    }
  }

  /** Cell i stops the whole analysis with a ZeroDivisionError: it is reached before its
      key has three repetitions and its staged session took no time. */
  predicate Aborts(cells: seq<Cell>, i: nat, paper: map<Key, seq<string>>)
    requires i < |cells|
  {
    Eligible(cells[i], paper) && cells[i].stagedS.value == 0.0 &&
    |UsableOf(cells[..i], KeyOf(cells[i]), paper)| < 3
  }

  /** Such a cell, by position: with all four times, listed for its task and model, staged time
      zero, and fewer than three usable repetitions before it. */
  lemma AbortsMeaning(cells: seq<Cell>, i: nat, paper: map<Key, seq<string>>)
    requires i < |cells|
    ensures var c := cells[i];
      Aborts(cells, i, paper) <==>
        && (c.campaign == "" || c.campaign[0] != '_')
        && (c.task, c.model) in paper && c.campaign in paper[(c.task, c.model)]
        && c.coldS != None && c.stagedS == Some(0.0) && c.coldShellS != None && c.stagedShellS != None
        && |set j: nat | j < i && Repeats(cells, j, (c.task, c.model), paper)| < 3
  {
    var k := (cells[i].task, cells[i].model);
    var at := UsablePlaces(cells[..i], k, paper);
    var places := set j: nat | j < i && Repeats(cells, j, k, paper);
    forall j: nat ensures j in at <==> j in places {
      assert j < i ==> cells[..i][j] == cells[j];
    }
    AscendsCount(at, places);
    hide UsableOf, Ascends, Usable;
  }

  /** The selection loop of main; None is its ZeroDivisionError. */
  method SelectCanonical(cells: seq<Cell>, paper: map<Key, seq<string>>) returns (canonical: Option<seq<Chosen>>)
    ensures canonical.Some? ==> FirstRepetitions(canonical.value, cells, paper)
    ensures canonical.None? <==> exists i :: 0 <= i < |cells| && Aborts(cells, i, paper)
  {
    hide FirstRepetitions, FiguresOf, UsableOf, ChosenOf;
    var chosen: seq<Chosen> := [];
    NothingChosen(paper);
    assert cells[..0] == [];
    for i := 0 to |cells|
      invariant FirstRepetitions(chosen, cells[..i], paper)
      invariant forall k :: 0 <= k < i ==> !Aborts(cells, k, paper)
    {
      var c := cells[i];
      CoverageIff(chosen, cells[..i], paper, KeyOf(c));
      assert cells[..i + 1] == cells[..i] + [c];
      if !Eligible(c, paper) {
        SkipCell(chosen, cells[..i], c, paper);
        continue;
      }
      var existing := CountOf(chosen, KeyOf(c));
      if existing >= 3 {
        SkipCell(chosen, cells[..i], c, paper);
        continue;
      }
      if c.stagedS.value == 0.0 {
        assert Aborts(cells, i, paper);
        return None;
      }
      if Degenerate(c) || c.stagedShellS.value > 0.0 {
        HasFigures(c, paper);
        var f := FiguresOf(c, paper).value;
        KeepCell(chosen, cells[..i], c, f, paper);
        chosen := chosen + [Chosen(c, f)];
      } else {
        SkipCell(chosen, cells[..i], c, paper);
      }
    }
    assert cells[..|cells|] == cells;
    canonical := Some(chosen);
  }

  lemma NothingChosen(paper: map<Key, seq<string>>)
    ensures FirstRepetitions([], [], paper)
  {
  }

  lemma HasFigures(c: Cell, paper: map<Key, seq<string>>)
    requires Usable(c, paper) && c.stagedS.value != 0.0
    ensures FiguresOf(c, paper).Some?
  {
  }

  /** A key of the paper grid is reported as incomplete exactly when it has fewer than
      three usable repetitions. */
  lemma CoverageIff(chosen: seq<Chosen>, cells: seq<Cell>, paper: map<Key, seq<string>>, k: Key)
    requires FirstRepetitions(chosen, cells, paper)
    ensures |ChosenOf(chosen, k)| <= 3
    ensures |ChosenOf(chosen, k)| < 3 <==> |UsableOf(cells, k, paper)| < 3
  {
    assert ChosenOf(chosen, k) == FirstThree(UsableOf(cells, k, paper));
  }
}
