/** Detection latency as paper_figures/build_fig_activation.py computes it: the session's
    thinking text is grown delta by delta and every rule is searched in it after each one.
    The result is that of one search over the whole text. */
module Activation {
  import opened Common

  // Case-insensitive literal search.

  function Lower(c: char): char {
    if 'A' <= c <= 'Z' then (c as int + 32) as char else c
  }

  predicate MatchesAt(pattern: string, text: string, i: nat) {
    && i + |pattern| <= |text|
    && forall k :: 0 <= k < |pattern| ==> Lower(text[i + k]) == Lower(pattern[k])
  }

  /** Where the first occurrence at or after i starts. */
  function SearchFrom(pattern: string, text: string, i: nat): (r: Option<nat>)
    ensures r.Some? ==> i <= r.value && MatchesAt(pattern, text, r.value)
    ensures r.Some? ==> forall k :: i <= k < r.value ==> !MatchesAt(pattern, text, k)
    ensures r.None? ==> forall k :: i <= k ==> !MatchesAt(pattern, text, k)
    decreases |text| - i
  {
    if MatchesAt(pattern, text, i) then Some(i)
    else if i + |pattern| < |text| then SearchFrom(pattern, text, i + 1)
    else None
  }

  function Search(pattern: string, text: string): Option<nat> {
    SearchFrom(pattern, text, 0)
  }

  /** Text that arrives later never moves an occurrence already found. */
  lemma SearchStable(pattern: string, text: string, more: string)
    requires Search(pattern, text).Some?
    ensures Search(pattern, text + more) == Search(pattern, text)
  {
    var i := Search(pattern, text).value;
    assert MatchesAt(pattern, text + more, i);
    var j := Search(pattern, text + more).value;
    assert MatchesAt(pattern, text, j);
  }

  // The recording: thinking deltas with absolute times.

  /** A logged delta: its time in milliseconds and its text. */
  datatype Delta = Delta(t: real, text: string)

  datatype TurnLog = TurnLog(tid: int, deltas: seq<Delta>)

  datatype Rule = Rule(name: string, pattern: string, targetKeys: seq<string>)

  /** What a task fixes: which files each workspace key stands for, and the files the
      solution inspects first. */
  datatype Task = Task(prior: map<string, set<string>>, groundTruth: set<string>)

  function TextOf(ds: seq<Delta>): string {
    if ds == [] then [] else TextOf(ds[..|ds| - 1]) + ds[|ds| - 1].text
  }

  function Repeat(t: real, n: nat): (ts: seq<real>)
    ensures |ts| == n && forall k :: 0 <= k < n ==> ts[k] == t
  {
    seq(n, k => t)
  }

  /** The time of each character of TextOf. */
  function StampsOf(ds: seq<Delta>): (ts: seq<real>)
    ensures |ts| == |TextOf(ds)|
  {
    if ds == [] then [] else StampsOf(ds[..|ds| - 1]) + Repeat(ds[|ds| - 1].t, |ds[|ds| - 1].text|)
  }

  /** When a rule's pattern is found: the time of the last character of its first
      occurrence in the whole text.  The empty pattern is found with the first delta,
      where index -1 reads the time of that delta's last character. */
  function FireTime(rule: Rule, ds: seq<Delta>): Option<real> {
    match Search(rule.pattern, TextOf(ds))
    case None => None
    case Some(i) =>
      if ds == [] then None
      else if rule.pattern == "" then Some(ds[0].t)
      else Some(StampsOf(ds)[i + |rule.pattern| - 1])
  }

  function Detected(keys: seq<string>, task: Task): set<string> {
    if keys == [] then {}
    else
      var key := keys[|keys| - 1];
      Detected(keys[..|keys| - 1], task) + (if key in task.prior then task.prior[key] else {})
  }

  predicate Correct(rule: Rule, task: Task) {
    Detected(rule.targetKeys, task) * task.groundTruth != {}
  }

  /** A rule is correct when one of its workspace keys stands for a file that the
      solution inspects first. */
  lemma {:induction false} CorrectMeaning(rule: Rule, task: Task)
    ensures Correct(rule, task) <==>
      exists key, file ::
        key in rule.targetKeys && key in task.prior && file in task.prior[key] && file in task.groundTruth
  {
    forall file
      ensures file in Detected(rule.targetKeys, task) <==>
        exists key :: key in rule.targetKeys && key in task.prior && file in task.prior[key]
    {
      DetectedMembers(rule.targetKeys, task, file);
    }
    if file :| file in Detected(rule.targetKeys, task) && file in task.groundTruth {
      assert file in Detected(rule.targetKeys, task) * task.groundTruth;
    }
  }

  lemma {:induction false} DetectedMembers(keys: seq<string>, task: Task, file: string)
    ensures file in Detected(keys, task) <==> exists key :: key in keys && key in task.prior && file in task.prior[key]
    decreases |keys|
  {
    if keys != [] {
      DetectedMembers(keys[..|keys| - 1], task, file);
      assert keys == keys[..|keys| - 1] + [keys[|keys| - 1]];
    }
  }

  // Rules fire by name: of several rules with one name only one ever fires.

  /** The first rule of a name whose pattern occurs in a text. */
  function FirstNamed(rules: seq<Rule>, name: string, text: string): (r: Option<nat>)
    ensures r.Some? ==> r.value < |rules| && rules[r.value].name == name
    ensures r.Some? ==> Search(rules[r.value].pattern, text).Some?
    ensures forall i :: 0 <= i < (if r.Some? then r.value else |rules|) && rules[i].name == name ==>
              Search(rules[i].pattern, text).None?
  {
    if rules == [] then None
    else
      var n := |rules| - 1;
      var earlier := FirstNamed(rules[..n], name, text);
      assert forall i :: 0 <= i < n ==> rules[..n][i] == rules[i];
      if earlier.Some? then earlier
      else if rules[n].name == name && Search(rules[n].pattern, text).Some? then Some(n)
      else None
  }

  /** The rule that fires for a name: the first listed among those found with the first
      delta that completes any of them. */
  function Winner(rules: seq<Rule>, name: string, ds: seq<Delta>): (r: Option<nat>)
    ensures r.Some? ==> r.value < |rules| && rules[r.value].name == name && ds != []
  {
    if ds == [] then None
    else
      var before := Winner(rules, name, ds[..|ds| - 1]);
      if before.Some? then before else FirstNamed(rules, name, TextOf(ds))
  }

  predicate Wins(rules: seq<Rule>, i: nat, ds: seq<Delta>)
    requires i < |rules|
  {
    Winner(rules, rules[i].name, ds) == Some(i)
  }

  /** A name fires if and only if a pattern of one of its rules occurs in the whole text. */
  lemma {:induction false} NameFiresIff(rules: seq<Rule>, name: string, ds: seq<Delta>)
    ensures Winner(rules, name, ds).Some? <==>
      ds != [] && exists i :: 0 <= i < |rules| && rules[i].name == name && Search(rules[i].pattern, TextOf(ds)).Some?
    decreases |ds|
  {
    hide Search;
    if ds != [] {
      var n := |ds| - 1;
      NameFiresIff(rules, name, ds[..n]);
      if Winner(rules, name, ds[..n]).Some? {
        var i :| 0 <= i < |rules| && rules[i].name == name && Search(rules[i].pattern, TextOf(ds[..n])).Some?;
        SearchStable(rules[i].pattern, TextOf(ds[..n]), ds[n].text);
      }
    }
  }

  lemma {:induction false} WinnerFires(rules: seq<Rule>, name: string, ds: seq<Delta>)
    requires Winner(rules, name, ds).Some?
    ensures FireTime(rules[Winner(rules, name, ds).value], ds).Some?
    decreases |ds|
  {
    var n := |ds| - 1;
    hide Search;
    if Winner(rules, name, ds[..n]).Some? {
      WinnerFires(rules, name, ds[..n]);
      var rule := rules[Winner(rules, name, ds).value];
      SearchStable(rule.pattern, TextOf(ds[..n]), ds[n].text);
    }
  }

  predicate DistinctNames(rules: seq<Rule>) {
    forall i, j :: 0 <= i < j < |rules| ==> rules[i].name != rules[j].name
  }

  lemma DistinctRuleFiresIff(rules: seq<Rule>, i: nat, ds: seq<Delta>)
    requires DistinctNames(rules) && i < |rules|
    ensures Wins(rules, i, ds) <==> FireTime(rules[i], ds).Some?
  {
    NameFiresIff(rules, rules[i].name, ds);
    hide Winner, Search;
    if Winner(rules, rules[i].name, ds).Some? {
      var w := Winner(rules, rules[i].name, ds).value;
      assert w == i;
    }
  }

  /** The earliest time at which one of the first n rules fires and is correct. */
  function Earliest(rules: seq<Rule>, n: nat, task: Task, ds: seq<Delta>): Option<real>
    requires n <= |rules|
  {
    if n == 0 then None
    else
      var rest := Earliest(rules, n - 1, task, ds);
      var rule := rules[n - 1];
      var fire := FireTime(rule, ds);
      if !Correct(rule, task) || !Wins(rules, n - 1, ds) || fire.None? then rest
      else if rest.None? then fire
      else Some(Min(rest.value, fire.value))
  }

  function LatencyOf(rules: seq<Rule>, task: Task, ds: seq<Delta>): Option<real> {
    var fire := Earliest(rules, |rules|, task, ds);
    if ds == [] || fire.None? then None else Some(Max(0.0, (fire.value - ds[0].t) / 1000.0))
  }

  /** An empty pattern is looked up in an empty list of times. */
  predicate Breaks(rules: seq<Rule>, ds: seq<Delta>) {
    ds != [] && ds[0].text == "" && exists i :: 0 <= i < |rules| && rules[i].pattern == ""
  }

  datatype Outcome = IndexError | Returned(latency: Option<real>)

  function OutcomeOf(rules: seq<Rule>, task: Task, ds: seq<Delta>): Outcome {
    if Breaks(rules, ds) then IndexError else Returned(LatencyOf(rules, task, ds))
  }

  predicate FiresCorrectly(rules: seq<Rule>, i: nat, task: Task, ds: seq<Delta>)
    requires i < |rules|
  {
    Correct(rules[i], task) && Wins(rules, i, ds) && FireTime(rules[i], ds).Some?
  }

  lemma {:induction false} EarliestMeaning(rules: seq<Rule>, n: nat, task: Task, ds: seq<Delta>)
    requires n <= |rules|
    ensures var e := Earliest(rules, n, task, ds);
      && (forall i :: 0 <= i < n && FiresCorrectly(rules, i, task, ds) ==>
            e.Some? && e.value <= FireTime(rules[i], ds).value)
      && (e.Some? ==> exists i :: 0 <= i < n && FiresCorrectly(rules, i, task, ds) && FireTime(rules[i], ds) == e)
  {
    hide FireTime, Correct, Wins;
    if n > 0 {
      EarliestMeaning(rules, n - 1, task, ds);
      var e, rest := Earliest(rules, n, task, ds), Earliest(rules, n - 1, task, ds);
      if e.Some? && e != rest {
        assert FiresCorrectly(rules, n - 1, task, ds) && FireTime(rules[n - 1], ds) == e;
      }
    }
  }

  /** Rule i is the earliest of the correct rules that fire, at time t. */
  ghost predicate FirstCorrect(rules: seq<Rule>, i: nat, t: real, task: Task, ds: seq<Delta>) {
    && i < |rules| && FiresCorrectly(rules, i, task, ds) && FireTime(rules[i], ds) == Some(t)
    && forall j :: 0 <= j < |rules| && FiresCorrectly(rules, j, task, ds) ==> t <= FireTime(rules[j], ds).value
  }

  /** What a session yields: a failure exactly when its first delta has no text and some
      pattern is empty; else no latency exactly when no correct rule fires; else the seconds
      from its first delta to the earliest correct firing, or zero if that is earlier. */
  lemma OutcomeMeaning(rules: seq<Rule>, task: Task, ds: seq<Delta>)
    ensures OutcomeOf(rules, task, ds) == IndexError <==>
      ds != [] && |ds[0].text| == 0 && exists r :: r in rules && |r.pattern| == 0
    ensures OutcomeOf(rules, task, ds) == Returned(None) ==>
      forall i :: 0 <= i < |rules| ==> !FiresCorrectly(rules, i, task, ds)
    ensures forall x :: OutcomeOf(rules, task, ds) == Returned(Some(x)) ==>
      ds != [] && exists i, t :: FirstCorrect(rules, i, t, task, ds)
                                 && x == if t <= ds[0].t then 0.0 else (t - ds[0].t) / 1000.0
  {
    EarliestMeaning(rules, |rules|, task, ds);
    var e := Earliest(rules, |rules|, task, ds);
    hide Earliest, FireTime, Correct, Winner;
    if ds != [] && e.Some? {
      var i :| 0 <= i < |rules| && FiresCorrectly(rules, i, task, ds) && FireTime(rules[i], ds) == e;
      assert FirstCorrect(rules, i, e.value, task, ds);
    }
    if ds == [] {
      forall i | 0 <= i < |rules| ensures !FiresCorrectly(rules, i, task, ds) {
        NothingFires(rules, i, task);
      }
    }
  }

  lemma NothingFires(rules: seq<Rule>, i: nat, task: Task)
    requires i < |rules|
    ensures !FiresCorrectly(rules, i, task, [])
  {
  }

  // Where each turn starts.

  /** An entry of the summary's per_turn list. */
  datatype TurnInfo = TurnInfo(index: int, duration: real)

  function Durations(perTurn: seq<TurnInfo>): (ds: seq<real>)
    ensures |ds| == |perTurn| && forall k :: 0 <= k < |ds| ==> ds[k] == perTurn[k].duration
  {
    seq(|perTurn|, k requires 0 <= k < |perTurn| => perTurn[k].duration)
  }

  function Offsets(perTurn: seq<TurnInfo>): map<int, real> {
    if perTurn == [] then map[0 := 0.0]
    else
      Offsets(perTurn[..|perTurn| - 1])
        [perTurn[|perTurn| - 1].index + 1 := 1000.0 * Sum(Durations(perTurn))]
  }

  function Offset(offsets: map<int, real>, tid: int): real {
    if tid in offsets then offsets[tid] else tid as real * 1000.0
  }

  method TurnOffsets(perTurn: seq<TurnInfo>) returns (offsets: map<int, real>)
    ensures offsets == Offsets(perTurn)
  {
    offsets := map[0 := 0.0];
    var cum := 0.0;
    for k := 0 to |perTurn|
      invariant offsets == Offsets(perTurn[..k])
      invariant cum == Sum(Durations(perTurn[..k]))
    {
      assert perTurn[..k + 1][..k] == perTurn[..k];
      assert Durations(perTurn[..k + 1])[..k] == Durations(perTurn[..k]);
      cum := cum + perTurn[k].duration;
      offsets := offsets[perTurn[k].index + 1 := cum * 1000.0];
    }
    assert perTurn[..|perTurn|] == perTurn;
  }

  /** Entry k of the summary is the last one before turn tid. */
  ghost predicate LastBefore(perTurn: seq<TurnInfo>, k: nat, tid: int) {
    && k < |perTurn| && perTurn[k].index + 1 == tid
    && forall l :: k < l < |perTurn| ==> perTurn[l].index + 1 != tid
  }

  /** A turn starts when the durations listed up to the entry before it are over.  Without
      such an entry turn zero starts at zero, and any other one second per turn number. */
  lemma {:induction false} OffsetMeaning(perTurn: seq<TurnInfo>, tid: int)
    ensures forall k: nat :: LastBefore(perTurn, k, tid) ==>
      Offset(Offsets(perTurn), tid) == 1000.0 * Sum(Durations(perTurn[..k + 1]))
    ensures (forall k :: 0 <= k < |perTurn| ==> perTurn[k].index + 1 != tid) ==>
      Offset(Offsets(perTurn), tid) == if tid == 0 then 0.0 else 1000.0 * tid as real
    decreases |perTurn|
  {
    if perTurn != [] {
      var n := |perTurn| - 1;
      OffsetMeaning(perTurn[..n], tid);
      forall k: nat | LastBefore(perTurn, k, tid)
        ensures Offset(Offsets(perTurn), tid) == 1000.0 * Sum(Durations(perTurn[..k + 1]))
      {
        if k < n {
          assert LastBefore(perTurn[..n], k, tid) && perTurn[..n][..k + 1] == perTurn[..k + 1];
        } else {
          assert perTurn[..k + 1] == perTurn;
        }
      }
    }
  }

  /** The deltas of one turn on the session clock. */
  function Shift(deltas: seq<Delta>, offset: real): (ds: seq<Delta>)
    ensures |ds| == |deltas|
    ensures forall k :: 0 <= k < |ds| ==> ds[k] == Delta(offset + deltas[k].t, deltas[k].text)
  {
    seq(|deltas|, k requires 0 <= k < |deltas| => Delta(offset + deltas[k].t, deltas[k].text))
  }

  /** All deltas of the session on the session clock. */
  function Recording(turns: seq<TurnLog>, offsets: map<int, real>): seq<Delta> {
    if turns == [] then []
    else
      var t := turns[|turns| - 1];
      Recording(turns[..|turns| - 1], offsets) + Shift(t.deltas, Offset(offsets, t.tid))
  }

  // The incremental scan.

  /** The rule that has fired for a name once the first k rules have seen the text up to
      now, and all of them what came before. */
  function WinnerUpTo(rules: seq<Rule>, k: nat, name: string, before: seq<Delta>, text: string): Option<nat>
    requires k <= |rules|
  {
    var earlier := Winner(rules, name, before);
    if earlier.Some? then earlier else FirstNamed(rules[..k], name, text)
  }

  /** fires holds the rule that has fired for each name. */
  ghost predicate Knows(fires: map<string, nat>, rules: seq<Rule>, k: nat, before: seq<Delta>, text: string)
    requires k <= |rules|
  {
    forall name :: WinnerUpTo(rules, k, name, before, text) == if name in fires then Some(fires[name]) else None
  }

  /** fires holds the winners of part of the recording. */
  ghost predicate Settled(fires: map<string, nat>, rules: seq<Rule>, ds: seq<Delta>) {
    forall name :: Winner(rules, name, ds) == if name in fires then Some(fires[name]) else None
  }

  /** Every rule in fires has its time, and times are those of the correct ones. */
  ghost predicate Collected(times: seq<real>, fires: map<string, nat>, rules: seq<Rule>, task: Task, ds: seq<Delta>) {
    && (forall name :: name in fires ==> fires[name] < |rules| && FireTime(rules[fires[name]], ds).Some?)
    && (forall name :: name in fires && Correct(rules[fires[name]], task) ==>
          FireTime(rules[fires[name]], ds).value in times)
    && (forall x :: x in times ==> exists name :: Source(name, x, fires, rules, task, ds))
  }

  ghost predicate Source(name: string, x: real, fires: map<string, nat>, rules: seq<Rule>, task: Task, ds: seq<Delta>) {
    && name in fires && fires[name] < |rules|
    && Correct(rules[fires[name]], task) && FireTime(rules[fires[name]], ds) == Some(x)
  }

  lemma TextSnoc(ds: seq<Delta>, d: Delta)
    ensures TextOf(ds + [d]) == TextOf(ds) + d.text
    ensures StampsOf(ds + [d]) == StampsOf(ds) + Repeat(d.t, |d.text|)
  {
    assert (ds + [d])[..|ds|] == ds;
  }

  lemma FireTimeStable(rule: Rule, ds: seq<Delta>, d: Delta)
    requires FireTime(rule, ds).Some?
    ensures FireTime(rule, ds + [d]) == FireTime(rule, ds)
  {
    TextSnoc(ds, d);
    SearchStable(rule.pattern, TextOf(ds), d.text);
    hide Search, TextOf, StampsOf;
  }

  lemma CollectedStable(times: seq<real>, fires: map<string, nat>, rules: seq<Rule>, task: Task, ds: seq<Delta>,
                        d: Delta)
    requires Collected(times, fires, rules, task, ds)
    ensures Collected(times, fires, rules, task, ds + [d])
  {
    hide FireTime, Correct;
    forall name | name in fires
      ensures FireTime(rules[fires[name]], ds + [d]) == FireTime(rules[fires[name]], ds)
    {
      FireTimeStable(rules[fires[name]], ds, d);
    }
    forall x | x in times ensures exists name :: Source(name, x, fires, rules, task, ds + [d]) {
      var name :| Source(name, x, fires, rules, task, ds);
      assert Source(name, x, fires, rules, task, ds + [d]);
    }
  }

  lemma CollectsMore(times: seq<real>, fires: map<string, nat>, rules: seq<Rule>, task: Task, ds: seq<Delta>,
                     k: nat, t: real)
    requires k < |rules| && rules[k].name !in fires
    requires Collected(times, fires, rules, task, ds) && FireTime(rules[k], ds) == Some(t)
    ensures var times' := if Correct(rules[k], task) then times + [t] else times;
      Collected(times', fires[rules[k].name := k], rules, task, ds)
  {
    hide FireTime, Correct;
    var fires' := fires[rules[k].name := k];
    var times' := if Correct(rules[k], task) then times + [t] else times;
    forall x | x in times' ensures exists name :: Source(name, x, fires', rules, task, ds) {
      if x in times {
        var name :| Source(name, x, fires, rules, task, ds);
        assert Source(name, x, fires', rules, task, ds);
      } else {
        assert Source(rules[k].name, x, fires', rules, task, ds);
      }
    }
  }

  lemma KnowsStart(fires: map<string, nat>, rules: seq<Rule>, ds: seq<Delta>, text: string)
    requires Settled(fires, rules, ds)
    ensures Knows(fires, rules, 0, ds, text)
  {
    forall name ensures WinnerUpTo(rules, 0, name, ds, text) == if name in fires then Some(fires[name]) else None {
      assert Winner(rules, name, ds) == if name in fires then Some(fires[name]) else None;
      hide Winner;
    }
  }

  lemma KnowsEnd(fires: map<string, nat>, rules: seq<Rule>, ds: seq<Delta>, d: Delta)
    requires Knows(fires, rules, |rules|, ds, TextOf(ds + [d]))
    ensures Settled(fires, rules, ds + [d])
  {
    assert rules[..|rules|] == rules && (ds + [d])[..|ds|] == ds;
    hide FirstNamed;
    forall name ensures Winner(rules, name, ds + [d]) == if name in fires then Some(fires[name]) else None {
      assert Winner(rules, name, ds + [d]) == WinnerUpTo(rules, |rules|, name, ds, TextOf(ds + [d]));
    }
  }

  lemma FirstNamedStep(rules: seq<Rule>, k: nat, name: string, text: string)
    requires k < |rules|
    ensures FirstNamed(rules[..k + 1], name, text) ==
      var earlier := FirstNamed(rules[..k], name, text);
      if earlier.Some? then earlier
      else if rules[k].name == name && Search(rules[k].pattern, text).Some? then Some(k) else None
  {
    assert rules[..k + 1][..k] == rules[..k];
  }

  /** Rule k changes nothing when its name has fired or its pattern is not found. */
  lemma KnowsSkip(fires: map<string, nat>, rules: seq<Rule>, k: nat, before: seq<Delta>, text: string)
    requires k < |rules| && Knows(fires, rules, k, before, text)
    requires rules[k].name in fires || Search(rules[k].pattern, text).None?
    ensures Knows(fires, rules, k + 1, before, text)
  {
    hide FirstNamed, Winner, Search;
    forall name
      ensures WinnerUpTo(rules, k + 1, name, before, text) == if name in fires then Some(fires[name]) else None
    {
      assert WinnerUpTo(rules, k, name, before, text) == if name in fires then Some(fires[name]) else None;
      FirstNamedStep(rules, k, name, text);
    }
  }

  lemma KnowsMore(fires: map<string, nat>, rules: seq<Rule>, k: nat, before: seq<Delta>, text: string)
    requires k < |rules| && Knows(fires, rules, k, before, text)
    requires rules[k].name !in fires && Search(rules[k].pattern, text).Some?
    ensures Knows(fires[rules[k].name := k], rules, k + 1, before, text)
  {
    hide FirstNamed, Winner, Search;
    var fires' := fires[rules[k].name := k];
    forall name
      ensures WinnerUpTo(rules, k + 1, name, before, text) == if name in fires' then Some(fires'[name]) else None
    {
      assert WinnerUpTo(rules, k, name, before, text) == if name in fires then Some(fires[name]) else None;
      FirstNamedStep(rules, k, name, text);
    }
  }

  /** An empty pattern is found with the first delta. */
  lemma EmptyFiresAtOnce(rules: seq<Rule>, k: nat, ds: seq<Delta>)
    requires k < |rules| && rules[k].pattern == ""
    ensures Winner(rules, rules[k].name, ds).Some? <==> ds != []
  {
    NameFiresIff(rules, rules[k].name, ds);
    assert MatchesAt("", TextOf(ds), 0);
    hide Winner, TextOf;
    assert Search(rules[k].pattern, TextOf(ds)).Some?;
  }

  lemma NothingInNoText(pattern: string)
    ensures Search(pattern, "").Some? <==> pattern == ""
  {
    if pattern == "" {
      assert MatchesAt("", "", 0);
    }
  }

  /** charTimes[min(m.end() - 1, len(charTimes) - 1)], where -1 counts from the end. */
  function TimeAt(charTimes: seq<real>, end: nat): Option<real> {
    var last := |charTimes| - 1;
    var idx := if last < end - 1 then last else end - 1;
    if 0 <= idx then Some(charTimes[idx])
    else if charTimes != [] then Some(charTimes[last])
    else None
  }

  lemma FoundAt(rules: seq<Rule>, k: nat, fires: map<string, nat>, ds: seq<Delta>, d: Delta)
    requires k < |rules| && Settled(fires, rules, ds) && (rules[k].pattern == "" ==> rules[k].name !in fires)
    requires Search(rules[k].pattern, TextOf(ds + [d])).Some?
    ensures var end := Search(rules[k].pattern, TextOf(ds + [d])).value + |rules[k].pattern|;
      var t := TimeAt(StampsOf(ds + [d]), end);
      && (t.None? <==> rules[k].pattern == "" && d.text == "")
      && (t.None? ==> ds == [])
      && (t.Some? ==> FireTime(rules[k], ds + [d]) == t)
  {
    var all := ds + [d];
    assert all[..|ds|] == ds;
    if rules[k].pattern == "" {
      EmptyNotFired(rules, k, fires, ds);
      EmptyPatternAt(d);
      assert all == [d];
    }
  }

  lemma EmptyNotFired(rules: seq<Rule>, k: nat, fires: map<string, nat>, ds: seq<Delta>)
    requires k < |rules| && rules[k].pattern == "" && rules[k].name !in fires && Settled(fires, rules, ds)
    ensures ds == []
  {
    EmptyFiresAtOnce(rules, k, ds);
    assert Winner(rules, rules[k].name, ds).None?;
  }

  lemma EmptyPatternAt(d: Delta)
    ensures Search("", TextOf([d])) == Some(0) && TextOf([d]) == d.text && StampsOf([d]) == Repeat(d.t, |d.text|)
  {
    assert [d][..0] == [] && MatchesAt("", TextOf([d]), 0);
  }

  /** The rule loop after one more delta: order lists the names that fired, in order. */
  method FireRules(rules: seq<Rule>, task: Task, acc: string, charTimes: seq<real>, times: seq<real>,
                   fired: set<string>, ghost fires: map<string, nat>, ghost order: seq<string>,
                   ghost ds: seq<Delta>, ghost d: Delta)
    returns (failed: bool, times': seq<real>, fired': set<string>, ghost fires': map<string, nat>,
             ghost order': seq<string>)
    requires acc == TextOf(ds + [d]) && charTimes == StampsOf(ds + [d])
    requires Settled(fires, rules, ds) && fired == fires.Keys && !Breaks(rules, ds)
    requires Collected(times, fires, rules, task, ds)
    requires NoRepeats(order) && forall name :: name in order <==> name in fires
    ensures failed <==> Breaks(rules, ds + [d])
    ensures !failed ==> Settled(fires', rules, ds + [d]) && fired' == fires'.Keys
    ensures !failed ==> Collected(times', fires', rules, task, ds + [d])
    ensures !failed ==> NoRepeats(order') && forall name :: name in order' <==> name in fires'
  {
    hide FireTime, Correct, Knows, Collected, Settled, Search, TextOf, StampsOf, TimeAt;
    KnowsStart(fires, rules, ds, acc);
    CollectedStable(times, fires, rules, task, ds, d);
    ghost var bare := ds == [] && d.text == "";
    BareStart(fires, rules, ds, d);
    failed, times', fired', fires', order' := false, times, fired, fires, order;
    for k := 0 to |rules|
      invariant Knows(fires', rules, k, ds, acc) && fired' == fires'.Keys
      invariant fires.Keys <= fires'.Keys
      invariant Collected(times', fires', rules, task, ds + [d])
      invariant NoRepeats(order') && forall name :: name in order' <==> name in fires'
      invariant bare ==> fires' == map[] && forall i :: 0 <= i < k ==> rules[i].pattern != ""
    {
      var rule := rules[k];
      if rule.name in fired' {
        KnowsSkip(fires', rules, k, ds, acc);
        continue;
      }
      var m := Search(rule.pattern, acc);
      if bare {
        NothingInNoText(rule.pattern);
      }
      if m.None? {
        KnowsSkip(fires', rules, k, ds, acc);
      } else {
        FoundAt(rules, k, fires, ds, d);
        var t := TimeAt(charTimes, m.value + |rule.pattern|);
        if t.None? {
          failed := true;
          return;
        }
        CollectsMore(times', fires', rules, task, ds + [d], k, t.value);
        KnowsMore(fires', rules, k, ds, acc);
        fired' := fired' + {rule.name};
        fires' := fires'[rule.name := k];
        order' := order' + [rule.name];
        if Correct(rule, task) {
          times' := times' + [t.value];
        }
      }
    }
    KnowsEnd(fires', rules, ds, d);
  }

  lemma BareStart(fires: map<string, nat>, rules: seq<Rule>, ds: seq<Delta>, d: Delta)
    requires Settled(fires, rules, ds)
    ensures ds == [] ==> fires == map[]
    ensures ds == [] && d.text == "" ==> TextOf(ds + [d]) == ""
    ensures ds != [] ==> (Breaks(rules, ds + [d]) <==> Breaks(rules, ds))
  {
    if ds == [] {
      assert [d][..0] == [] && ds + [d] == [d];
      forall name ensures name !in fires {
        assert Winner(rules, name, ds).None?;
      }
    }
  }

  function LeastOf(ts: seq<real>): (m: real)
    requires ts != []
    ensures m in ts && forall x :: x in ts ==> m <= x
  {
    var last := ts[|ts| - 1];
    if |ts| == 1 then last
    else
      assert ts == ts[..|ts| - 1] + [last];
      Min(LeastOf(ts[..|ts| - 1]), last)
  }

  lemma LeastIsEarliest(times: seq<real>, fires: map<string, nat>, rules: seq<Rule>, task: Task, ds: seq<Delta>)
    requires Settled(fires, rules, ds) && Collected(times, fires, rules, task, ds)
    ensures Earliest(rules, |rules|, task, ds) == if times == [] then None else Some(LeastOf(times))
  {
    hide Settled, Collected, Earliest, LeastOf;
    if Earliest(rules, |rules|, task, ds).Some? {
      EarliestCollected(times, fires, rules, task, ds);
    }
    if times != [] {
      NoneBefore(times, fires, rules, task, ds, LeastOf(times));
    }
  }

  lemma EarliestCollected(times: seq<real>, fires: map<string, nat>, rules: seq<Rule>, task: Task, ds: seq<Delta>)
    requires Settled(fires, rules, ds) && Collected(times, fires, rules, task, ds)
    requires Earliest(rules, |rules|, task, ds).Some?
    ensures Earliest(rules, |rules|, task, ds).value in times
  {
    hide FireTime, Correct, Earliest, Winner;
    EarliestMeaning(rules, |rules|, task, ds);
    var e := Earliest(rules, |rules|, task, ds);
    var i :| 0 <= i < |rules| && FiresCorrectly(rules, i, task, ds) && FireTime(rules[i], ds) == e;
    assert Winner(rules, rules[i].name, ds) == Some(i);
    assert fires[rules[i].name] == i;
  }

  lemma NoneBefore(times: seq<real>, fires: map<string, nat>, rules: seq<Rule>, task: Task, ds: seq<Delta>, x: real)
    requires Settled(fires, rules, ds) && Collected(times, fires, rules, task, ds)
    requires x in times
    ensures Earliest(rules, |rules|, task, ds).Some? && Earliest(rules, |rules|, task, ds).value <= x
  {
    hide FireTime, Correct, Earliest;
    EarliestMeaning(rules, |rules|, task, ds);
    var name :| Source(name, x, fires, rules, task, ds);
    assert Winner(rules, name, ds) == Some(fires[name]);
    assert FiresCorrectly(rules, fires[name], task, ds);
  }

  /** The variables of the scan after the part ds of the recording. */
  ghost predicate Scanned(acc: string, charTimes: seq<real>, first: Option<real>, times: seq<real>, fired: set<string>,
                          fires: map<string, nat>, order: seq<string>, rules: seq<Rule>, task: Task, ds: seq<Delta>)
  {
    && acc == TextOf(ds) && charTimes == StampsOf(ds)
    && first == (if ds == [] then None else Some(ds[0].t))
    && Settled(fires, rules, ds) && fired == fires.Keys && !Breaks(rules, ds)
    && Collected(times, fires, rules, task, ds)
    && NoRepeats(order) && (forall name :: name in order <==> name in fires)
  }

  lemma NothingYet(rules: seq<Rule>, task: Task)
    ensures Scanned([], [], None, [], {}, map[], [], rules, task, [])
  {
  }

  method AppendText(acc: string, charTimes: seq<real>, t: real, txt: string, ghost ds: seq<Delta>)
    returns (acc': string, charTimes': seq<real>)
    requires acc == TextOf(ds) && charTimes == StampsOf(ds)
    ensures acc' == TextOf(ds + [Delta(t, txt)]) && charTimes' == StampsOf(ds + [Delta(t, txt)])
  {
    acc', charTimes' := acc, charTimes;
    for k := 0 to |txt|
      invariant acc' == acc + txt[..k] && charTimes' == charTimes + Repeat(t, k)
    {
      acc' := acc' + [txt[k]];
      charTimes' := charTimes' + [t];
    }
    assert txt[..|txt|] == txt && (ds + [Delta(t, txt)])[..|ds|] == ds;
  }

  /** One delta of the scan. */
  method ScanDelta(rules: seq<Rule>, task: Task, t: real, txt: string, acc: string, charTimes: seq<real>,
                   first: Option<real>, times: seq<real>, fired: set<string>,
                   ghost fires: map<string, nat>, ghost order: seq<string>, ghost ds: seq<Delta>)
    returns (failed: bool, acc': string, charTimes': seq<real>, first': Option<real>, times': seq<real>,
             fired': set<string>, ghost fires': map<string, nat>, ghost order': seq<string>)
    requires Scanned(acc, charTimes, first, times, fired, fires, order, rules, task, ds)
    ensures failed <==> Breaks(rules, ds + [Delta(t, txt)])
    ensures !failed ==>
      Scanned(acc', charTimes', first', times', fired', fires', order', rules, task, ds + [Delta(t, txt)])
  {
    hide FireTime, Correct, Settled, Collected, TextOf, StampsOf, Breaks;
    first' := if first.None? then Some(t) else first;
    acc', charTimes' := AppendText(acc, charTimes, t, txt, ds);
    failed, times', fired', fires', order' :=
      FireRules(rules, task, acc', charTimes', times, fired, fires, order, ds, Delta(t, txt));
  }

  /** _latency_s: the scan over turns, deltas and characters.  The ghost results say which
      rule fired for which name, and in what order. */
  method Latency(rules: seq<Rule>, task: Task, perTurn: seq<TurnInfo>, turns: seq<TurnLog>)
    returns (outcome: Outcome, ghost fires: map<string, nat>, ghost order: seq<string>)
    ensures outcome == OutcomeOf(rules, task, Recording(turns, Offsets(perTurn)))
    ensures outcome.Returned? ==> Settled(fires, rules, Recording(turns, Offsets(perTurn)))
    ensures outcome.Returned? ==> NoRepeats(order) && forall name :: name in order <==> name in fires
  {
    hide Scanned, Settled, Collected, TextOf, StampsOf, Offsets, Earliest, Breaks;
    var offsets := TurnOffsets(perTurn);
    var acc: string, charTimes: seq<real> := [], [];
    var first: Option<real> := None;
    var times: seq<real>, fired: set<string> := [], {};
    fires, order := map[], [];
    ghost var ds: seq<Delta> := [];
    NothingYet(rules, task);
    for i := 0 to |turns|
      invariant ds == Recording(turns[..i], offsets)
      invariant Scanned(acc, charTimes, first, times, fired, fires, order, rules, task, ds)
    {
      var turn := turns[i];
      var offset := Offset(offsets, turn.tid);
      ghost var start, shifted := ds, Shift(turn.deltas, offset);
      for j := 0 to |turn.deltas|
        invariant ds == start + shifted[..j]
        invariant Scanned(acc, charTimes, first, times, fired, fires, order, rules, task, ds)
      {
        var absT, txt := offset + turn.deltas[j].t, turn.deltas[j].text;
        var failed;
        failed, acc, charTimes, first, times, fired, fires, order :=
          ScanDelta(rules, task, absT, txt, acc, charTimes, first, times, fired, fires, order, ds);
        ds := ds + [Delta(absT, txt)];
        if failed {
          assert ds == start + shifted[..j + 1];
          BreaksEarly(rules, turns, offsets, i, j + 1);
          return IndexError, fires, order;
        }
      }
      assert turns[..i + 1][..i] == turns[..i] && shifted[..|shifted|] == shifted;
    }
    assert turns[..|turns|] == turns;
    ScanResult(acc, charTimes, first, times, fired, fires, order, rules, task, ds);
    outcome := Returned(if first.None? || times == [] then None
                        else Some(Max(0.0, (LeastOf(times) - first.value) / 1000.0)));
  }

  lemma {:induction false} RecordingPrefix(turns: seq<TurnLog>, offsets: map<int, real>, i: nat)
    requires i <= |turns|
    ensures Recording(turns[..i], offsets) <= Recording(turns, offsets)
    decreases |turns|
  {
    var n := |turns| - 1;
    if i == |turns| {
      assert turns[..i] == turns;
    } else {
      RecordingPrefix(turns[..n], offsets, i);
      assert turns[..n][..i] == turns[..i];
    }
  }

  /** What breaks on part of the recording breaks on all of it. */
  lemma BreaksEarly(rules: seq<Rule>, turns: seq<TurnLog>, offsets: map<int, real>, i: nat, j: nat)
    requires i < |turns| && j <= |turns[i].deltas|
    requires var ds := Recording(turns[..i], offsets) + Shift(turns[i].deltas, Offset(offsets, turns[i].tid))[..j];
      Breaks(rules, ds)
    ensures Breaks(rules, Recording(turns, offsets))
  {
    assert turns[..i + 1][..i] == turns[..i];
    RecordingPrefix(turns, offsets, i + 1);
  }

  /** What the scan's variables say at its end. */
  lemma ScanResult(acc: string, charTimes: seq<real>, first: Option<real>, times: seq<real>, fired: set<string>,
                   fires: map<string, nat>, order: seq<string>, rules: seq<Rule>, task: Task, ds: seq<Delta>)
    requires Scanned(acc, charTimes, first, times, fired, fires, order, rules, task, ds)
    ensures OutcomeOf(rules, task, ds) == Returned(if first.None? || times == [] then None
                                                   else Some(Max(0.0, (LeastOf(times) - first.value) / 1000.0)))
    ensures Settled(fires, rules, ds)
    ensures NoRepeats(order) && forall name :: name in order <==> name in fires
  {
    hide Settled, Collected, TextOf, StampsOf, Earliest, Breaks;
    LeastIsEarliest(times, fires, rules, task, ds);
  }
}
