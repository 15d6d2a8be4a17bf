/** What a session's latency does not depend on: how its text was cut into deltas and turns
    (_latency_s of paper_figures/build_fig_activation.py). */
module CutFacts {
  import opened Common
  import opened Activation

  lemma {:induction false} TextAppend(ds: seq<Delta>, es: seq<Delta>)
    ensures TextOf(ds + es) == TextOf(ds) + TextOf(es)
    ensures StampsOf(ds + es) == StampsOf(ds) + StampsOf(es)
    decreases |es|
  {
    hide TextOf, StampsOf;
    if es == [] {
      NoText();
      assert ds + es == ds;
    } else {
      var front, d := es[..|es| - 1], es[|es| - 1];
      TextAppend(ds, front);
      AppendStep(ds, front, d);
      assert es == front + [d];
    }
  }

  lemma NoText()
    ensures TextOf([]) == [] && StampsOf([]) == []
  {
  }

  lemma AppendStep(ds: seq<Delta>, front: seq<Delta>, d: Delta)
    requires TextOf(ds + front) == TextOf(ds) + TextOf(front)
    requires StampsOf(ds + front) == StampsOf(ds) + StampsOf(front)
    ensures TextOf(ds + (front + [d])) == TextOf(ds) + TextOf(front + [d])
    ensures StampsOf(ds + (front + [d])) == StampsOf(ds) + StampsOf(front + [d])
  {
    TextSnoc(ds + front, d);
    TextSnoc(front, d);
    hide TextOf, StampsOf;
    Associate(ds, front, [d]);
    Associate(TextOf(ds), TextOf(front), d.text);
    Associate(StampsOf(ds), StampsOf(front), Repeat(d.t, |d.text|));
  }

  lemma Associate<T>(a: seq<T>, b: seq<T>, c: seq<T>)
    ensures (a + b) + c == a + (b + c)
  {
  }

  lemma OneOrTwo(t: real, a: string, b: string)
    ensures TextOf([Delta(t, a + b)]) == TextOf([Delta(t, a), Delta(t, b)])
    ensures StampsOf([Delta(t, a + b)]) == StampsOf([Delta(t, a), Delta(t, b)])
  {
    var one, first, two := [Delta(t, a + b)], [Delta(t, a)], [Delta(t, a), Delta(t, b)];
    assert one[..0] == [] && first[..0] == [] && two[..1] == first;
    assert TextOf(one) == a + b && TextOf(first) == a;
    assert TextOf(two) == TextOf(first) + b;
    assert StampsOf(two) == StampsOf(first) + Repeat(t, |b|);
  }

  /** Two recordings of the same timed characters that start at the same time, however they
      are cut into deltas and turns. */
  ghost predicate SameCharacters(ds: seq<Delta>, es: seq<Delta>) {
    && TextOf(ds) == TextOf(es) && StampsOf(ds) == StampsOf(es)
    && (ds == [] <==> es == []) && (ds != [] ==> ds[0].t == es[0].t)
  }

  lemma SameFireTime(rule: Rule, ds: seq<Delta>, es: seq<Delta>)
    requires SameCharacters(ds, es)
    ensures FireTime(rule, ds) == FireTime(rule, es)
  {
    hide TextOf, StampsOf, Search;
  }

  // When a name fires never depends on the cuts.

  /** Where the first occurrence of a pattern ends. */
  function EndOf(pattern: string, text: string): Option<nat> {
    var i := Search(pattern, text);
    if i.Some? then Some(i.value + |pattern|) else None
  }

  /** Where the first of a name's patterns to be complete ends. */
  function EarliestEnd(rules: seq<Rule>, name: string, text: string): (e: Option<nat>)
    ensures e.Some? ==>
      exists i :: 0 <= i < |rules| && rules[i].name == name && EndOf(rules[i].pattern, text) == e
    ensures forall i :: 0 <= i < |rules| && rules[i].name == name && EndOf(rules[i].pattern, text).Some? ==>
      e.Some? && e.value <= EndOf(rules[i].pattern, text).value
  {
    if rules == [] then None
    else
      var n := |rules| - 1;
      var earlier, own := EarliestEnd(rules[..n], name, text), EndOf(rules[n].pattern, text);
      assert forall i :: 0 <= i < n ==> rules[..n][i] == rules[i];
      if rules[n].name != name || own.None? then earlier
      else if earlier.None? || own.value < earlier.value then own
      else earlier
  }

  /** The time of the character that completes the first of a name's patterns. */
  function NameTime(rules: seq<Rule>, name: string, ds: seq<Delta>): Option<real> {
    var e := EarliestEnd(rules, name, TextOf(ds));
    if ds == [] || e.None? || e.value > |TextOf(ds)| then None
    else if e.value == 0 then Some(ds[0].t)
    else Some(StampsOf(ds)[e.value - 1])
  }

  lemma EndInside(pattern: string, text: string)
    ensures EndOf(pattern, text).Some? ==> |pattern| <= EndOf(pattern, text).value <= |text|
    ensures pattern == "" ==> EndOf(pattern, text) == Some(0)
  {
    if pattern == "" {
      assert MatchesAt(pattern, text, 0);
    }
  }

  /** More text keeps the end of an occurrence, and completes others only further on. */
  lemma EndStable(pattern: string, text: string, more: string)
    ensures EndOf(pattern, text).Some? ==> EndOf(pattern, text + more) == EndOf(pattern, text)
    ensures EndOf(pattern, text).None? && EndOf(pattern, text + more).Some? ==>
      |text| < EndOf(pattern, text + more).value
  {
    forall i: nat | i + |pattern| <= |text| && MatchesAt(pattern, text + more, i)
      ensures MatchesAt(pattern, text, i)
    {
    }
    if Search(pattern, text).Some? {
      SearchStable(pattern, text, more);
    }
  }

  lemma EarliestEndStable(rules: seq<Rule>, name: string, text: string, more: string)
    ensures EarliestEnd(rules, name, text).Some? ==>
      EarliestEnd(rules, name, text + more) == EarliestEnd(rules, name, text)
  {
    hide EndOf, EarliestEnd;
    forall i | 0 <= i < |rules|
      ensures EndOf(rules[i].pattern, text).Some? ==> EndOf(rules[i].pattern, text).value <= |text|
      ensures EndOf(rules[i].pattern, text).Some? ==>
        EndOf(rules[i].pattern, text + more) == EndOf(rules[i].pattern, text)
      ensures EndOf(rules[i].pattern, text).None? && EndOf(rules[i].pattern, text + more).Some? ==>
        |text| < EndOf(rules[i].pattern, text + more).value
    {
      EndInside(rules[i].pattern, text);
      EndStable(rules[i].pattern, text, more);
    }
  }

  lemma LastStamps(ds: seq<Delta>, d: Delta, c: nat)
    requires |TextOf(ds)| <= c < |TextOf(ds + [d])|
    ensures StampsOf(ds + [d])[c] == d.t
  {
    TextSnoc(ds, d);
  }

  lemma FireTimeByEnd(rule: Rule, ds: seq<Delta>)
    requires ds != [] && EndOf(rule.pattern, TextOf(ds)).Some?
    ensures EndOf(rule.pattern, TextOf(ds)).value <= |TextOf(ds)|
    ensures FireTime(rule, ds) ==
      var e := EndOf(rule.pattern, TextOf(ds)).value;
      if e == 0 || rule.pattern == "" then Some(ds[0].t) else Some(StampsOf(ds)[e - 1])
  {
    EndInside(rule.pattern, TextOf(ds));
  }

  /** A name fires when its first pattern is complete, whichever of its rules it fires. */
  lemma {:induction false} WinnerTime(rules: seq<Rule>, name: string, ds: seq<Delta>)
    requires Winner(rules, name, ds).Some?
    ensures FireTime(rules[Winner(rules, name, ds).value], ds) == NameTime(rules, name, ds)
    ensures NameTime(rules, name, ds).Some?
    decreases |ds|
  {
    var n := |ds| - 1;
    var before, d := ds[..n], ds[n];
    assert ds == before + [d];
    if Winner(rules, name, before).Some? {
      WinnerTime(rules, name, before);
      hide Winner;
      OldWinner(rules, name, before, d);
    } else {
      var w := Winner(rules, name, ds).value;
      NameFiresIff(rules, name, before);
      hide Winner;
      NewWinner(rules, name, before, d, w);
    }
  }

  lemma {:induction false} OldWinner(rules: seq<Rule>, name: string, before: seq<Delta>, d: Delta)
    requires NameTime(rules, name, before).Some?
    requires Winner(rules, name, before).Some?
    requires FireTime(rules[Winner(rules, name, before).value], before) == NameTime(rules, name, before)
    ensures FireTime(rules[Winner(rules, name, before).value], before + [d]) == NameTime(rules, name, before + [d])
    ensures NameTime(rules, name, before + [d]).Some?
  {
    FireTimeStable(rules[Winner(rules, name, before).value], before, d);
    NameTimeStable(rules, name, before, d);
    hide FireTime, NameTime, Winner;
  }

  lemma {:induction false} NameTimeStable(rules: seq<Rule>, name: string, before: seq<Delta>, d: Delta)
    requires NameTime(rules, name, before).Some?
    ensures NameTime(rules, name, before + [d]) == NameTime(rules, name, before)
  {
    TextSnoc(before, d);
    EarliestEndStable(rules, name, TextOf(before), d.text);
    hide TextOf, StampsOf, EarliestEnd, Repeat;
    FrontIndex(before, [d], 0);
    var e := EarliestEnd(rules, name, TextOf(before)).value;
    if e > 0 {
      FrontIndex(StampsOf(before), Repeat(d.t, |d.text|), e - 1);
    }
  }

  lemma FrontIndex<T>(a: seq<T>, b: seq<T>, i: nat)
    requires i < |a|
    ensures (a + b)[i] == a[i]
  {
  }

  lemma NewWinner(rules: seq<Rule>, name: string, before: seq<Delta>, d: Delta, w: nat)
    requires w < |rules| && rules[w].name == name && Search(rules[w].pattern, TextOf(before + [d])).Some?
    requires before != [] ==>
      forall i :: 0 <= i < |rules| && rules[i].name == name ==> Search(rules[i].pattern, TextOf(before)).None?
    ensures FireTime(rules[w], before + [d]) == NameTime(rules, name, before + [d]) == Some(d.t)
  {
    assert EndOf(rules[w].pattern, TextOf(before + [d])).Some?;
    NewFireTime(rules[w], before, d);
    hide Search, FireTime, EarliestEnd, TextOf, StampsOf, EndOf, NameTime;
    NewNameTime(rules, name, before, d);
  }

  lemma NewNameTime(rules: seq<Rule>, name: string, before: seq<Delta>, d: Delta)
    requires EarliestEnd(rules, name, TextOf(before + [d])).Some?
    requires before != [] ==>
      forall i :: 0 <= i < |rules| && rules[i].name == name ==> Search(rules[i].pattern, TextOf(before)).None?
    ensures NameTime(rules, name, before + [d]) == Some(d.t)
  {
    hide Search, EarliestEnd, TextOf, StampsOf, EndOf;
    var text := TextOf(before + [d]);
    var e := EarliestEnd(rules, name, text).value;
    var i :| 0 <= i < |rules| && rules[i].name == name && EndOf(rules[i].pattern, text) == Some(e);
    NewEnd(rules[i], before, d);
    assert before == [] ==> (before + [d])[0] == d;
  }

  lemma NewFireTime(rule: Rule, before: seq<Delta>, d: Delta)
    requires before != [] ==> Search(rule.pattern, TextOf(before)).None?
    requires EndOf(rule.pattern, TextOf(before + [d])).Some?
    ensures FireTime(rule, before + [d]) == Some(d.t)
  {
    NewEnd(rule, before, d);
    FireTimeByEnd(rule, before + [d]);
    EndInside(rule.pattern, TextOf(before + [d]));
    hide TextOf, StampsOf, FireTime, EndOf, Search;
  }

  /** A pattern completed by the newest delta is found at that delta's time. */
  lemma NewEnd(rule: Rule, before: seq<Delta>, d: Delta)
    requires before != [] ==> Search(rule.pattern, TextOf(before)).None?
    requires EndOf(rule.pattern, TextOf(before + [d])).Some?
    ensures var e := EndOf(rule.pattern, TextOf(before + [d])).value;
      && e <= |TextOf(before + [d])| && (e == 0 ==> before == [])
      && (e > 0 ==> StampsOf(before + [d])[e - 1] == d.t)
  {
    TextSnoc(before, d);
    EndInside(rule.pattern, TextOf(before + [d]));
    EndInside(rule.pattern, TextOf(before));
    EndStable(rule.pattern, TextOf(before), d.text);
    var e := EndOf(rule.pattern, TextOf(before + [d])).value;
    NoText();
    hide TextOf, StampsOf;
    assert before == [] || |TextOf(before)| < e;
    if e > 0 {
      LastStamps(before, d, e - 1);
    }
  }

  /** Whether a name fires, and when, is the same for all recordings of the same
      characters. */
  lemma NameTimeIsCutFree(rules: seq<Rule>, name: string, ds: seq<Delta>, es: seq<Delta>)
    requires SameCharacters(ds, es)
    ensures Winner(rules, name, ds).Some? <==> Winner(rules, name, es).Some?
    ensures Winner(rules, name, ds).Some? ==>
      FireTime(rules[Winner(rules, name, ds).value], ds) == FireTime(rules[Winner(rules, name, es).value], es)
  {
    NameFiresIff(rules, name, ds);
    NameFiresIff(rules, name, es);
    hide Winner, Search, FireTime;
    if Winner(rules, name, ds).Some? {
      WinnerTime(rules, name, ds);
      WinnerTime(rules, name, es);
    }
  }

  // Which of a name's rules fires can depend on them.

  lemma OccursInOccurrence(p: string, q: string, text: string)
    requires Search(p, q).Some? && Search(q, text).Some?
    ensures Search(p, text).Some?
  {
    var i, j := Search(p, q).value, Search(q, text).value;
    assert MatchesAt(p, text, j + i) by {
      forall k | 0 <= k < |p| ensures Lower(text[j + i + k]) == Lower(p[k]) {
        assert Lower(q[i + k]) == Lower(text[j + (i + k)]);
      }
    }
  }

  lemma OccursAfter(p: string, before: string, text: string)
    requires Search(p, text).Some?
    ensures Search(p, before + text).Some?
  {
    var i := Search(p, text).value;
    assert MatchesAt(p, before + text, |before| + i) by {
      forall k | 0 <= k < |p| ensures Lower((before + text)[|before| + i + k]) == Lower(p[k]) {
        assert (before + text)[|before| + (i + k)] == text[i + k];
      }
    }
  }

  lemma OccursInItself(p: string)
    ensures Search(p, p).Some?
  {
    assert MatchesAt(p, p, 0);
  }

  /** No pattern of an earlier rule of the same name occurs in this rule's pattern. */
  ghost predicate Live(rules: seq<Rule>, i: nat)
    requires i < |rules|
  {
    forall k :: 0 <= k < i && rules[k].name == rules[i].name ==> Search(rules[k].pattern, rules[i].pattern).None?
  }

  lemma FirstNamedLive(rules: seq<Rule>, name: string, text: string)
    requires FirstNamed(rules, name, text).Some?
    ensures Live(rules, FirstNamed(rules, name, text).value)
  {
    var w := FirstNamed(rules, name, text).value;
    hide FirstNamed, Search;
    forall k | 0 <= k < w && rules[k].name == name ensures Search(rules[k].pattern, rules[w].pattern).None? {
      if Search(rules[k].pattern, rules[w].pattern).Some? {
        OccursInOccurrence(rules[k].pattern, rules[w].pattern, text);
      }
    }
  }

  /** Only live rules ever fire. */
  lemma {:induction false} WinnerLive(rules: seq<Rule>, name: string, ds: seq<Delta>)
    requires Winner(rules, name, ds).Some?
    ensures Live(rules, Winner(rules, name, ds).value)
    decreases |ds|
  {
    hide FirstNamed, Live;
    var before := ds[..|ds| - 1];
    if Winner(rules, name, before).Some? {
      WinnerLive(rules, name, before);
    } else {
      FirstNamedLive(rules, name, TextOf(ds));
    }
  }

  lemma LiveFoundFirst(rules: seq<Rule>, i: nat)
    requires i < |rules| && Live(rules, i)
    ensures FirstNamed(rules, rules[i].name, rules[i].pattern) == Some(i)
  {
    OccursInItself(rules[i].pattern);
    hide FirstNamed, Search;
    var w := FirstNamed(rules, rules[i].name, rules[i].pattern);
    assert w.Some? && w.value <= i;
  }

  lemma OneDelta(rules: seq<Rule>, name: string, d: Delta)
    ensures Winner(rules, name, [d]) == FirstNamed(rules, name, d.text)
  {
    EmptyPatternAt(d);
    assert [d][..0] == [] && Winner(rules, name, []) == None;
    hide FirstNamed;
  }

  lemma TwoDeltas(rules: seq<Rule>, name: string, d: Delta, e: Delta)
    requires FirstNamed(rules, name, d.text).Some?
    ensures Winner(rules, name, [d, e]) == FirstNamed(rules, name, d.text)
  {
    OneDelta(rules, name, d);
    assert [d, e][..1] == [d];
    hide FirstNamed;
  }

  lemma CutInTwo(a: string, b: string)
    ensures SameCharacters([Delta(0.0, a + b)], [Delta(0.0, a), Delta(0.0, b)])
  {
    OneOrTwo(0.0, a, b);
  }

  /** Of every name, the first listed rule's pattern occurs in all the others'. */
  ghost predicate FirstCovers(rules: seq<Rule>) {
    forall i, j :: 0 <= i < j < |rules| && FirstOfName(rules, i) && rules[i].name == rules[j].name ==>
      Search(rules[i].pattern, rules[j].pattern).Some?
  }

  ghost predicate FirstOfName(rules: seq<Rule>, i: nat)
    requires i < |rules|
  {
    forall k :: 0 <= k < i ==> rules[k].name != rules[i].name
  }

  lemma {:induction false} FirstIndex(rules: seq<Rule>, j: nat) returns (i: nat)
    requires j < |rules|
    ensures i <= j && FirstOfName(rules, i) && rules[i].name == rules[j].name
    decreases j
  {
    if FirstOfName(rules, j) {
      i := j;
    } else {
      var k :| 0 <= k < j && rules[k].name == rules[j].name;
      i := FirstIndex(rules, k);
    }
  }

  lemma CoveredWinner(rules: seq<Rule>, name: string, ds: seq<Delta>)
    requires FirstCovers(rules) && Winner(rules, name, ds).Some?
    ensures FirstOfName(rules, Winner(rules, name, ds).value)
  {
    WinnerLive(rules, name, ds);
    LiveIsFirst(rules, Winner(rules, name, ds).value);
  }

  lemma LiveIsFirst(rules: seq<Rule>, w: nat)
    requires FirstCovers(rules) && w < |rules| && Live(rules, w)
    ensures FirstOfName(rules, w)
  {
    var i := FirstIndex(rules, w);
    hide Search;
    assert i == w;
  }

  /** The same rule fires for a name in two recordings. */
  ghost predicate SameWinner(rules: seq<Rule>, name: string, ds: seq<Delta>, es: seq<Delta>) {
    Winner(rules, name, ds) == Winner(rules, name, es)
  }

  /** Which rule fires never depends on the cuts if and only if, of every name, the first
      listed pattern occurs in all the others. */
  lemma WinnerCutsIff(rules: seq<Rule>)
    ensures (forall ds, es, name :: SameCharacters(ds, es) ==> SameWinner(rules, name, ds, es)) <==> FirstCovers(rules)
  {
    hide SameCharacters, Winner, Search, FirstNamed, TextOf;
    if FirstCovers(rules) {
      forall ds, es, name | SameCharacters(ds, es) ensures SameWinner(rules, name, ds, es) {
        NameTimeIsCutFree(rules, name, ds, es);
        if Winner(rules, name, ds).Some? {
          CoveredWinner(rules, name, ds);
          CoveredWinner(rules, name, es);
          var v, w := Winner(rules, name, ds).value, Winner(rules, name, es).value;
          assert rules[v].name == rules[w].name;
        }
      }
    } else {
      var i, j :| 0 <= i < j < |rules| && FirstOfName(rules, i) && rules[i].name == rules[j].name
                  && Search(rules[i].pattern, rules[j].pattern).None?;
      UncoveredCut(rules, i, j);
      var p, q := rules[i].pattern, rules[j].pattern;
      CutInTwo(q, p);
      assert !SameWinner(rules, rules[i].name, [Delta(0.0, q + p)], [Delta(0.0, q), Delta(0.0, p)]);
    }
  }

  /** The first rule of a name fires when a later one's text and its own come together, and
      not when the later one's comes first. */
  lemma UncoveredCut(rules: seq<Rule>, i: nat, j: nat)
    requires i < j < |rules| && FirstOfName(rules, i) && rules[i].name == rules[j].name
    requires Search(rules[i].pattern, rules[j].pattern).None?
    ensures var p, q := rules[i].pattern, rules[j].pattern;
      && Winner(rules, rules[i].name, [Delta(0.0, q + p)]) == Some(i)
      && Winner(rules, rules[i].name, [Delta(0.0, q), Delta(0.0, p)]).Some?
      && Winner(rules, rules[i].name, [Delta(0.0, q), Delta(0.0, p)]) != Some(i)
  {
    var p, q, name := rules[i].pattern, rules[j].pattern, rules[i].name;
    OccursInItself(p);
    OccursAfter(p, q, p);
    OccursInItself(q);
    hide FirstNamed, Winner, Search;
    assert FirstNamed(rules, name, q).Some?;
    OneDelta(rules, name, Delta(0.0, q + p));
    TwoDeltas(rules, name, Delta(0.0, q), Delta(0.0, p));
    var w := FirstNamed(rules, name, q + p);
    assert w.Some? && w.value <= i;
    assert w.value == i;
  }

  // Whether what fires is correct.

  ghost predicate SameKeys(r: Rule, s: Rule) {
    forall key :: key in r.targetKeys <==> key in s.targetKeys
  }

  lemma SameKeysIff(r: Rule, s: Rule)
    ensures SameKeys(r, s) <==> forall task :: Correct(r, task) == Correct(s, task)
  {
    if SameKeys(r, s) {
      forall task ensures Correct(r, task) == Correct(s, task) {
        CorrectMeaning(r, task);
        CorrectMeaning(s, task);
      }
    } else {
      var key :| (key in r.targetKeys) != (key in s.targetKeys);
      var task := Task(map[key := {"f"}], {"f"});
      KeyCorrect(r, key, task);
      KeyCorrect(s, key, task);
    }
  }

  lemma KeyCorrect(r: Rule, key: string, task: Task)
    requires task == Task(map[key := {"f"}], {"f"})
    ensures Correct(r, task) <==> key in r.targetKeys
  {
    CorrectMeaning(r, task);
    if key in r.targetKeys {
      assert key in task.prior && "f" in task.prior[key] && "f" in task.groundTruth;
    }
  }

  /** Live rules of one name stand for the same workspace keys. */
  ghost predicate KeysAgree(rules: seq<Rule>) {
    forall i, j :: 0 <= i < j < |rules| && rules[i].name == rules[j].name && Live(rules, i) && Live(rules, j) ==>
      SameKeys(rules[i], rules[j])
  }

  /** A name fires, and the rule that fires is correct. */
  predicate NameIsCorrect(rules: seq<Rule>, name: string, task: Task, ds: seq<Delta>) {
    var w := Winner(rules, name, ds);
    w.Some? && Correct(rules[w.value], task)
  }

  ghost predicate SameCorrectness(rules: seq<Rule>, name: string, ds: seq<Delta>, es: seq<Delta>) {
    forall task :: NameIsCorrect(rules, name, task, ds) == NameIsCorrect(rules, name, task, es)
  }

  lemma AgreeingWinners(rules: seq<Rule>, name: string, ds: seq<Delta>, es: seq<Delta>)
    requires KeysAgree(rules) && SameCharacters(ds, es)
    ensures SameCorrectness(rules, name, ds, es)
  {
    hide Winner, SameCharacters, FireTime, Correct, Live;
    NameTimeIsCutFree(rules, name, ds, es);
    if Winner(rules, name, ds).Some? {
      WinnerLive(rules, name, ds);
      WinnerLive(rules, name, es);
      var v, w := Winner(rules, name, ds).value, Winner(rules, name, es).value;
      assert v < w ==> SameKeys(rules[v], rules[w]);
      assert w < v ==> SameKeys(rules[w], rules[v]);
      SameKeysIff(rules[v], rules[w]);
    }
  }

  /** A text in which x is found first, and its cuts: y's pattern is put before it, over and
      over in turn.  Each time the rule found in the whole must be as correct as the one
      put first, or a cut matters; so it changes, to an earlier one, and there are only
      so many. */
  lemma {:induction false} DisagreeingCut(rules: seq<Rule>, task: Task, x: nat, y: nat, text: string)
    returns (ds: seq<Delta>, es: seq<Delta>)
    requires x < |rules| && y < |rules| && rules[x].name == rules[y].name && Live(rules, x) && Live(rules, y)
    requires Correct(rules[x], task) != Correct(rules[y], task)
    requires var w := FirstNamed(rules, rules[x].name, text);
      w.Some? && Correct(rules[w.value], task) == Correct(rules[x], task)
    ensures SameCharacters(ds, es)
    ensures NameIsCorrect(rules, rules[x].name, task, ds) != NameIsCorrect(rules, rules[x].name, task, es)
    decreases FirstNamed(rules, rules[x].name, text).value
  {
    hide Correct, Search, FirstNamed, Winner, SameCharacters, Live;
    var name, p := rules[x].name, rules[y].pattern;
    var w := FirstNamed(rules, name, text).value;
    LiveFoundFirst(rules, y);
    OccursAfter(rules[w].pattern, p, text);
    var w' := FirstNamed(rules, name, p + text);
    assert w'.Some? && w'.value <= w;
    if Correct(rules[w'.value], task) == Correct(rules[y], task) {
      assert w'.value != w;
      ds, es := DisagreeingCut(rules, task, y, x, p + text);
    } else {
      ds, es := [Delta(0.0, p + text)], [Delta(0.0, p), Delta(0.0, text)];
      CutInTwo(p, text);
      OneDelta(rules, name, ds[0]);
      TwoDeltas(rules, name, es[0], es[1]);
    }
  }

  /** Whether a name's firing is correct never depends on the cuts, on any task, if and only
      if its live rules stand for the same keys. */
  lemma CorrectCutsIff(rules: seq<Rule>)
    ensures (forall ds, es, name :: SameCharacters(ds, es) ==> SameCorrectness(rules, name, ds, es))
       <==> KeysAgree(rules)
  {
    hide SameCharacters, Winner, FirstNamed, Correct, Live, SameKeys;
    if KeysAgree(rules) {
      forall ds, es, name | SameCharacters(ds, es) ensures SameCorrectness(rules, name, ds, es) {
        AgreeingWinners(rules, name, ds, es);
      }
    } else {
      var i, j :| 0 <= i < j < |rules| && rules[i].name == rules[j].name && Live(rules, i) && Live(rules, j)
                  && !SameKeys(rules[i], rules[j]);
      SameKeysIff(rules[i], rules[j]);
      var task :| Correct(rules[i], task) != Correct(rules[j], task);
      LiveFoundFirst(rules, i);
      var ds, es := DisagreeingCut(rules, task, i, j, rules[i].pattern);
      assert !SameCorrectness(rules, rules[i].name, ds, es);
    }
  }

  /** Then recordings of the same characters have the same latency; so have they the same
      outcome, unless cutting makes an empty pattern fail. */
  lemma CutsDoNotMatter(rules: seq<Rule>, task: Task, ds: seq<Delta>, es: seq<Delta>)
    requires KeysAgree(rules) && SameCharacters(ds, es)
    ensures LatencyOf(rules, task, ds) == LatencyOf(rules, task, es)
    ensures forall i :: 0 <= i < |rules| ==> FireTime(rules[i], ds) == FireTime(rules[i], es)
    ensures OutcomeOf(rules, task, ds) == OutcomeOf(rules, task, es) <==> (Breaks(rules, ds) <==> Breaks(rules, es))
  {
    hide TextOf, StampsOf, FireTime, Earliest, Breaks, KeysAgree;
    NotLater(rules, task, ds, es);
    NotLater(rules, task, es, ds);
    forall i | 0 <= i < |rules| ensures FireTime(rules[i], ds) == FireTime(rules[i], es) {
      SameFireTime(rules[i], ds, es);
    }
  }

  lemma NotLater(rules: seq<Rule>, task: Task, ds: seq<Delta>, es: seq<Delta>)
    requires KeysAgree(rules) && SameCharacters(ds, es)
    ensures var d, e := Earliest(rules, |rules|, task, ds), Earliest(rules, |rules|, task, es);
      d.Some? ==> e.Some? && e.value <= d.value
  {
    hide FireTime, Correct, Earliest, Winner, SameCharacters, KeysAgree;
    EarliestMeaning(rules, |rules|, task, ds);
    EarliestMeaning(rules, |rules|, task, es);
    var d := Earliest(rules, |rules|, task, ds);
    if d.Some? {
      var i :| 0 <= i < |rules| && FiresCorrectly(rules, i, task, ds) && FireTime(rules[i], ds) == d;
      var name := rules[i].name;
      AgreeingWinners(rules, name, ds, es);
      NameTimeIsCutFree(rules, name, ds, es);
      assert NameIsCorrect(rules, name, task, ds) && NameIsCorrect(rules, name, task, es);
      var j := Winner(rules, name, es).value;
      assert FiresCorrectly(rules, j, task, es) && FireTime(rules[j], es) == d;
    }
  }

  /** Rules that fire by one rule per name, whatever the order of the text. */
  lemma DistinctNamesAgree(rules: seq<Rule>)
    ensures DistinctNames(rules) ==> FirstCovers(rules)
    ensures FirstCovers(rules) ==> KeysAgree(rules)
  {
    if FirstCovers(rules) {
      forall j | 0 <= j < |rules| && Live(rules, j) ensures FirstOfName(rules, j) {
        LiveIsFirst(rules, j);
      }
    }
  }

  /** Cutting one delta into two pieces of the same time. */
  lemma CuttingOneDelta(rules: seq<Rule>, task: Task, before: seq<Delta>, t: real, a: string, b: string,
                        after: seq<Delta>)
    requires KeysAgree(rules)
    ensures LatencyOf(rules, task, before + [Delta(t, a + b)] + after)
         == LatencyOf(rules, task, before + [Delta(t, a), Delta(t, b)] + after)
  {
    var one, two := [Delta(t, a + b)], [Delta(t, a), Delta(t, b)];
    TextAppend(before + one, after);
    TextAppend(before, one);
    TextAppend(before + two, after);
    TextAppend(before, two);
    OneOrTwo(t, a, b);
    CutsDoNotMatter(rules, task, before + one + after, before + two + after);
  }

  /** The rule fires if and only if its own pattern is found. */
  ghost predicate FiresAlone(rules: seq<Rule>, i: nat, ds: seq<Delta>)
    requires i < |rules|
  {
    Wins(rules, i, ds) <==> FireTime(rules[i], ds).Some?
  }

  /** Every rule fires exactly when its own pattern occurs, in every recording, if and only
      if no two rules share a name. */
  lemma DistinctNamesIff(rules: seq<Rule>)
    ensures (forall i, ds :: 0 <= i < |rules| ==> FiresAlone(rules, i, ds)) <==> DistinctNames(rules)
  {
    hide Winner, FireTime;
    if DistinctNames(rules) {
      forall i, ds | 0 <= i < |rules| ensures FiresAlone(rules, i, ds) {
        DistinctRuleFiresIff(rules, i, ds);
      }
    } else {
      var i, j :| 0 <= i < j < |rules| && rules[i].name == rules[j].name;
      var p, q := rules[i].pattern, rules[j].pattern;
      var ds := [Delta(0.0, p + q)];
      BothFound(rules[i], rules[j], ds);
      assert !FiresAlone(rules, i, ds) || !FiresAlone(rules, j, ds);
    }
  }

  lemma BothFound(r: Rule, s: Rule, ds: seq<Delta>)
    requires ds == [Delta(0.0, r.pattern + s.pattern)]
    ensures FireTime(r, ds).Some? && FireTime(s, ds).Some?
  {
    EmptyPatternAt(ds[0]);
    assert ds == [ds[0]] && TextOf(ds) == r.pattern + s.pattern;
    OccursInItself(r.pattern);
    OccursInItself(s.pattern);
    OccursAfter(s.pattern, r.pattern, s.pattern);
    SearchStable(r.pattern, r.pattern, s.pattern);
    hide TextOf, StampsOf, Search;
  }

  /** Two rules of one name, neither pattern in the other: whether there is a latency at all
      depends on how the same characters are cut. */
  lemma SharedNameCutsMatter(task: Task)
    requires task == Task(map["key" := {"f"}], {"f"})
    ensures var rules := [Rule("r", "ab", ["key"]), Rule("r", "b", [])];
      var ds, es := [Delta(0.0, "bab")], [Delta(0.0, "b"), Delta(0.0, "ab")];
      && !FirstCovers(rules) && !KeysAgree(rules) && SameCharacters(ds, es)
      && LatencyOf(rules, task, ds) == Some(0.0) && LatencyOf(rules, task, es) == None
  {
    var good, bad := Rule("r", "ab", ["key"]), Rule("r", "b", []);
    var rules := [good, bad];
    var ds, es := [Delta(0.0, "bab")], [Delta(0.0, "b"), Delta(0.0, "ab")];
    assert "b" + "ab" == "bab";
    CutInTwo("b", "ab");
    KeyCorrect(good, "key", task);
    KeyCorrect(bad, "key", task);
    UncoveredCut(rules, 0, 1);
    TwoRules(good, bad, task, ds);
    TwoRules(good, bad, task, es);
    AllAtZero(good, ds);
    hide FireTime, Earliest, Winner, SameCharacters, Search;
    assert !FirstCovers(rules) by {
      assert FirstOfName(rules, 0);
    }
    if KeysAgree(rules) {
      CutsDoNotMatter(rules, task, ds, es);
      assert false;
    }
  }

  lemma TwoRules(good: Rule, bad: Rule, task: Task, ds: seq<Delta>)
    requires Correct(good, task) && !Correct(bad, task)
    ensures Earliest([good, bad], 2, task, ds) == if Wins([good, bad], 0, ds) then FireTime(good, ds) else None
  {
    hide FireTime, Correct, Wins;
    assert Earliest([good, bad], 0, task, ds) == None;
    assert Earliest([good, bad], 1, task, ds) == if Wins([good, bad], 0, ds) then FireTime(good, ds) else None;
  }

  lemma AllAtZero(rule: Rule, ds: seq<Delta>)
    requires rule.pattern == "ab" && ds == [Delta(0.0, "bab")]
    ensures FireTime(rule, ds) == Some(0.0)
  {
    EmptyPatternAt(ds[0]);
    assert ds == [ds[0]];
    assert MatchesAt("ab", "bab", 1);
    assert StampsOf(ds) == [0.0, 0.0, 0.0];
  }
}
