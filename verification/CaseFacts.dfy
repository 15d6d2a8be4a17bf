/** What the search of _latency_s in paper_figures/build_fig_activation.py tells apart: its
    patterns are compiled to ignore case, and nothing but case. */
module CaseFacts {
  import opened Common
  import opened Activation

  /** Two characters that are equal, or one letter in upper and in lower case. */
  predicate SameLetter(c: char, d: char) {
    || c == d
    || ('A' <= c <= 'Z' && d as int == c as int + 32)
    || ('A' <= d <= 'Z' && c as int == d as int + 32)
  }

  predicate SameLetters(a: string, b: string) {
    |a| == |b| && forall k :: 0 <= k < |a| ==> SameLetter(a[k], b[k])
  }

  /** The pattern stands in the text at i, up to case. */
  predicate StandsAt(pattern: string, text: string, i: nat) {
    i + |pattern| <= |text| && SameLetters(pattern, text[i..i + |pattern|])
  }

  lemma LowerIff(c: char, d: char)
    ensures Lower(c) == Lower(d) <==> SameLetter(c, d)
  {
  }

  lemma MatchesIff(pattern: string, text: string, i: nat)
    ensures MatchesAt(pattern, text, i) <==> StandsAt(pattern, text, i)
  {
    if i + |pattern| <= |text| {
      var part := text[i..i + |pattern|];
      forall k | 0 <= k < |pattern|
        ensures Lower(text[i + k]) == Lower(pattern[k]) <==> SameLetter(pattern[k], part[k])
      {
        LowerIff(pattern[k], part[k]);
      }
    }
  }

  ghost predicate FirstStand(pattern: string, text: string, i: nat) {
    StandsAt(pattern, text, i) && forall j: nat :: j < i ==> !StandsAt(pattern, text, j)
  }

  /** The search finds a place exactly when it is the first at which the pattern stands in
      the text up to case, and no place exactly when it stands nowhere. */
  lemma SearchMeaning(pattern: string, text: string)
    ensures forall i: nat :: Search(pattern, text) == Some(i) <==> FirstStand(pattern, text, i)
    ensures Search(pattern, text) == None <==> forall i: nat :: !StandsAt(pattern, text, i)
  {
    forall i: nat ensures MatchesAt(pattern, text, i) <==> StandsAt(pattern, text, i) {
      MatchesIff(pattern, text, i);
    }
    hide MatchesAt, StandsAt;
    if Search(pattern, text).Some? {
      assert FirstStand(pattern, text, Search(pattern, text).value);
    }
  }

  lemma StandsUpToCase(pattern: string, text: string, pattern': string, text': string, i: nat)
    requires SameLetters(pattern, pattern') && SameLetters(text, text')
    ensures StandsAt(pattern, text, i) <==> StandsAt(pattern', text', i)
  {
    if i + |pattern| <= |text| {
      var part, part' := text[i..i + |pattern|], text'[i..i + |pattern|];
      forall k | 0 <= k < |pattern| ensures SameLetter(pattern[k], part[k]) <==> SameLetter(pattern'[k], part'[k]) {
        assert SameLetter(text[i + k], text'[i + k]);
      }
    }
  }

  /** Exchanging upper and lower case, in the pattern or the text, moves no occurrence. */
  lemma SearchIgnoresCase(pattern: string, text: string, pattern': string, text': string)
    requires SameLetters(pattern, pattern') && SameLetters(text, text')
    ensures Search(pattern, text) == Search(pattern', text')
  {
    SearchMeaning(pattern, text);
    SearchMeaning(pattern', text');
    forall i: nat ensures StandsAt(pattern, text, i) <==> StandsAt(pattern', text', i) {
      StandsUpToCase(pattern, text, pattern', text', i);
    }
    hide StandsAt, SameLetters, Search;
    if Search(pattern, text).Some? {
      assert FirstStand(pattern', text', Search(pattern, text).value);
    }
  }

  /** And nothing else is ignored: of one character, exactly the same letter is found. */
  lemma OneLetterFound(c: char, d: char)
    ensures Search([c], [d]) == Some(0) <==> SameLetter(c, d)
  {
    SearchMeaning([c], [d]);
    assert [d][0..1] == [d] && [d][0] == d && [c][0] == c;
    assert SameLetters([c], [d]) <==> SameLetter(c, d);
    assert StandsAt([c], [d], 0) <==> SameLetter(c, d);
    hide StandsAt;
    assert Search([c], [d]) == Some(0) <==> FirstStand([c], [d], 0);
  }

  // The whole scan.

  /** The same recording, up to the case of its letters. */
  ghost predicate SameRecording(ds: seq<Delta>, es: seq<Delta>) {
    |ds| == |es| && forall k :: 0 <= k < |ds| ==> ds[k].t == es[k].t && SameLetters(ds[k].text, es[k].text)
  }

  /** The same rules, up to the case of their patterns. */
  ghost predicate SameRules(rules: seq<Rule>, rules': seq<Rule>) {
    |rules| == |rules'| && forall i :: 0 <= i < |rules| ==> SameRule(rules[i], rules'[i])
  }

  ghost predicate SameRule(r: Rule, r': Rule) {
    r.name == r'.name && r.targetKeys == r'.targetKeys && SameLetters(r.pattern, r'.pattern)
  }

  lemma {:induction false} SameText(ds: seq<Delta>, es: seq<Delta>)
    requires SameRecording(ds, es)
    ensures SameLetters(TextOf(ds), TextOf(es)) && StampsOf(ds) == StampsOf(es)
    decreases |ds|
  {
    if ds != [] {
      var n := |ds| - 1;
      SameText(ds[..n], es[..n]);
      SameLettersAppend(TextOf(ds[..n]), TextOf(es[..n]), ds[n].text, es[n].text);
      hide SameLetters;
      assert Repeat(ds[n].t, |ds[n].text|) == Repeat(es[n].t, |es[n].text|);
    }
  }

  lemma SameLettersAppend(a: string, b: string, c: string, d: string)
    requires SameLetters(a, b) && SameLetters(c, d)
    ensures SameLetters(a + c, b + d)
  {
    hide SameLetter;
  }

  lemma FireTimeIgnoresCase(rule: Rule, rule': Rule, ds: seq<Delta>, es: seq<Delta>)
    requires SameRule(rule, rule') && SameRecording(ds, es)
    ensures FireTime(rule, ds) == FireTime(rule', es)
  {
    SameText(ds, es);
    SearchIgnoresCase(rule.pattern, TextOf(ds), rule'.pattern, TextOf(es));
    hide Search, TextOf, StampsOf;
  }

  lemma {:induction false} FirstNamedIgnoresCase(rules: seq<Rule>, rules': seq<Rule>, name: string, text: string,
                                                 text': string)
    requires SameRules(rules, rules') && SameLetters(text, text')
    ensures FirstNamed(rules, name, text) == FirstNamed(rules', name, text')
    decreases |rules|
  {
    hide Search, SameLetters;
    if rules != [] {
      var n := |rules| - 1;
      FirstNamedIgnoresCase(rules[..n], rules'[..n], name, text, text');
      assert SameRule(rules[n], rules'[n]);
      SearchIgnoresCase(rules[n].pattern, text, rules'[n].pattern, text');
    }
  }

  lemma {:induction false} WinnerIgnoresCase(rules: seq<Rule>, rules': seq<Rule>, name: string, ds: seq<Delta>,
                                             es: seq<Delta>)
    requires SameRules(rules, rules') && SameRecording(ds, es)
    ensures Winner(rules, name, ds) == Winner(rules', name, es)
    decreases |ds|
  {
    hide FirstNamed, SameRules, SameLetters;
    if ds != [] {
      var n := |ds| - 1;
      WinnerIgnoresCase(rules, rules', name, ds[..n], es[..n]);
      SameText(ds, es);
      FirstNamedIgnoresCase(rules, rules', name, TextOf(ds), TextOf(es));
    }
  }

  lemma {:induction false} EarliestIgnoresCase(rules: seq<Rule>, rules': seq<Rule>, n: nat, task: Task, ds: seq<Delta>,
                                               es: seq<Delta>)
    requires SameRules(rules, rules') && SameRecording(ds, es) && n <= |rules|
    ensures Earliest(rules, n, task, ds) == Earliest(rules', n, task, es)
  {
    hide FireTime, Winner, SameRecording, SameLetters;
    if n > 0 {
      EarliestIgnoresCase(rules, rules', n - 1, task, ds, es);
      assert SameRule(rules[n - 1], rules'[n - 1]);
      FireTimeIgnoresCase(rules[n - 1], rules'[n - 1], ds, es);
      WinnerIgnoresCase(rules, rules', rules[n - 1].name, ds, es);
    }
  }

  /** A session has the same outcome whatever the case of its letters and of the patterns. */
  lemma OutcomeIgnoresCase(rules: seq<Rule>, rules': seq<Rule>, task: Task, ds: seq<Delta>, es: seq<Delta>)
    requires SameRules(rules, rules') && SameRecording(ds, es)
    ensures OutcomeOf(rules, task, ds) == OutcomeOf(rules', task, es)
  {
    hide SameRules, SameRecording, Breaks, LatencyOf;
    LatencyIgnoresCase(rules, rules', task, ds, es);
    BreaksIgnoresCase(rules, rules', ds, es);
  }

  lemma LatencyIgnoresCase(rules: seq<Rule>, rules': seq<Rule>, task: Task, ds: seq<Delta>, es: seq<Delta>)
    requires SameRules(rules, rules') && SameRecording(ds, es)
    ensures LatencyOf(rules, task, ds) == LatencyOf(rules', task, es)
  {
    hide Earliest, SameLetters;
    EarliestIgnoresCase(rules, rules', |rules|, task, ds, es);
    assert |rules| == |rules'|;
    assert |ds| == |es| && (ds != [] ==> ds[0].t == es[0].t);
  }

  lemma BreaksIgnoresCase(rules: seq<Rule>, rules': seq<Rule>, ds: seq<Delta>, es: seq<Delta>)
    requires SameRules(rules, rules') && SameRecording(ds, es)
    ensures Breaks(rules, ds) <==> Breaks(rules', es)
  {
    hide SameLetter;
    forall i | 0 <= i < |rules| ensures rules[i].pattern == "" <==> rules'[i].pattern == "" {
      assert SameRule(rules[i], rules'[i]);
    }
  }

  // Where a fire time is read.

  function DeltaTexts(ds: seq<Delta>): (r: seq<string>)
    ensures |r| == |ds| && forall k :: 0 <= k < |ds| ==> r[k] == ds[k].text
  {
    seq(|ds|, k requires 0 <= k < |ds| => ds[k].text)
  }

  /** The characters from lo to hi have time t. */
  ghost predicate StampedIn(stamps: seq<real>, t: real, lo: nat, hi: nat) {
    hi <= |stamps| && forall p :: lo <= p < hi ==> stamps[p] == t
  }

  /** The text of a recording is its deltas' texts one after the other, and each character
      has the time of the delta it came with. */
  lemma {:induction false} TextInPieces(ds: seq<Delta>) returns (cuts: seq<nat>)
    ensures InPieces(TextOf(ds), DeltaTexts(ds), cuts)
    ensures forall k :: 0 <= k < |ds| ==> StampedIn(StampsOf(ds), ds[k].t, cuts[k], cuts[k + 1])
    decreases |ds|
  {
    hide TextOf, StampsOf, InPieces, StampedIn;
    if ds == [] {
      cuts := [0];
      NoPieces();
    } else {
      var n := |ds| - 1;
      var front, d := ds[..n], ds[n];
      var before := TextInPieces(front);
      TextSnoc(front, d);
      assert ds == front + [d] && DeltaTexts(ds) == DeltaTexts(front) + [d.text];
      InPiecesSnoc(TextOf(front), DeltaTexts(front), before, d.text);
      CutCount(TextOf(front), DeltaTexts(front), before);
      cuts := before + [|TextOf(front)| + |d.text|];
      StampedSnoc(front, d, before, cuts);
    }
  }

  lemma NoPieces()
    ensures InPieces(TextOf([]), DeltaTexts([]), [0])
  {
  }

  lemma CutCount(text: string, pieces: seq<string>, cuts: seq<nat>)
    requires InPieces(text, pieces, cuts)
    ensures |cuts| == |pieces| + 1 && cuts[|pieces|] == |text|
  {
  }

  lemma StampedSnoc(ds: seq<Delta>, d: Delta, before: seq<nat>, cuts: seq<nat>)
    requires |before| == |ds| + 1 && before[|ds|] == |TextOf(ds)| && cuts == before + [|TextOf(ds)| + |d.text|]
    requires forall k :: 0 <= k < |ds| ==> StampedIn(StampsOf(ds), ds[k].t, before[k], before[k + 1])
    ensures forall k :: 0 <= k <= |ds| ==> StampedIn(StampsOf(ds + [d]), (ds + [d])[k].t, cuts[k], cuts[k + 1])
  {
    TextSnoc(ds, d);
    hide TextOf, StampsOf;
    forall k | 0 <= k <= |ds| ensures StampedIn(StampsOf(ds + [d]), (ds + [d])[k].t, cuts[k], cuts[k + 1]) {
      if k < |ds| {
        assert StampedIn(StampsOf(ds), ds[k].t, before[k], before[k + 1]);
      }
    }
  }

  /** A rule has a fire time exactly when its pattern stands in the text up to case; it is the
      time of the delta that brought the last character of the first such place, and for an
      empty pattern that of the first delta. */
  lemma FireTimeMeaning(rule: Rule, ds: seq<Delta>) returns (text: string, cuts: seq<nat>)
    ensures InPieces(text, DeltaTexts(ds), cuts)
    ensures FireTime(rule, ds).Some? <==> ds != [] && exists i: nat :: StandsAt(rule.pattern, text, i)
    ensures forall i: nat, k: nat ::
      k < |ds| && FirstStand(rule.pattern, text, i) && cuts[k] < i + |rule.pattern| <= cuts[k + 1] ==>
        (rule.pattern != "" ==> FireTime(rule, ds) == Some(ds[k].t))
    ensures rule.pattern == "" && ds != [] ==> FireTime(rule, ds) == Some(ds[0].t)
  {
    text := TextOf(ds);
    cuts := TextInPieces(ds);
    SearchMeaning(rule.pattern, text);
    if rule.pattern == "" {
      assert text[0..0] == "" && StandsAt("", text, 0);
    }
    hide Search, TextOf, StampsOf, StandsAt, InPieces;
  }
}
