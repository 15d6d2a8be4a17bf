/** Turning rule activations into prefetch hints: the capped batch dispatch of
    scripts/microbench/aiob_multiturn.py, its mirror in replay_session.py, and the
    session-wide and per-batch variants of dsbench_multiturn.py. */
module Dispatch {
  import opened Common
  import opened Paths

  datatype Activation = Activation(rule: string, detected: seq<string>, firedAtMs: Option<real>)
  datatype Hint = Hint(files: seq<string>, tier: int, firedAtMs: real, ruleId: string)

  /** Whether a file must exist to be dispatched; the argument is what exists now. */
  datatype Check = SkipCheck | OnDisk(present: set<string>)

  /** One batch of activations with everything the dispatch loop reads. */
  datatype Batch = Batch(acts: seq<Activation>, prefixMap: seq<Mapping>, check: Check, cap: Option<nat>)

  predicate Dispatchable(p: string, check: Check) {
    check.SkipCheck? || p in check.present
  }

  function Resolved(paths: seq<string>, m: seq<Mapping>): (r: seq<string>)
    ensures |r| == |paths|
    ensures forall i :: 0 <= i < |paths| ==> r[i] == ResolveLogical(paths[i], m)
  {
    seq(|paths|, i requires 0 <= i < |paths| => ResolveLogical(paths[i], m))
  }

  /** The files not seen yet that may be dispatched, in order. */
  function Fresh(files: seq<string>, check: Check, seen: set<string>): (r: seq<string>)
    ensures forall p :: p in r <==> p in files && Dispatchable(p, check) && p !in seen
  {
    if files == [] then []
    else
      var rest := Fresh(files[1..], check, seen);
      if Dispatchable(files[0], check) && files[0] !in seen then [files[0]] + rest else rest
  }

  function Capped(files: seq<string>, cap: Option<nat>): seq<string> {
    if cap.Some? && cap.value < |files| then files[..cap.value] else files
  }

  function FilesOf(act: Activation, b: Batch): seq<string> {
    Resolved(act.detected, b.prefixMap)
  }

  /** What activation n of a batch dispatches, once `seen` holds the earlier ones. */
  function Take(act: Activation, b: Batch, seen: set<string>): seq<string> {
    Capped(Fresh(FilesOf(act, b), b.check, seen), b.cap)
  }

  // What an activation takes, by the places of its detected paths.

  /** Path i resolves to a file that may be dispatched and was not seen. */
  predicate Stageable(act: Activation, b: Batch, seen: set<string>, i: nat)
    requires i < |act.detected|
  {
    var p := ResolveLogical(act.detected[i], b.prefixMap);
    p !in seen && match b.check { case SkipCheck => true case OnDisk(present) => p in present }
  }

  /** at lists the places from n on of the files that are not seen and may be dispatched, and
      unseen is those files. */
  ghost predicate UnseenAt(at: seq<nat>, unseen: seq<string>, files: seq<string>, check: Check, seen: set<string>,
                           n: nat)
  {
    && Ascends(at) && |at| == |unseen|
    && (forall i: nat :: i in at <==> n <= i < |files| && Dispatchable(files[i], check) && files[i] !in seen)
    && (forall k :: 0 <= k < |at| ==> at[k] < |files| && unseen[k] == files[at[k]])
  }

  lemma {:induction false} FreshPlaces(files: seq<string>, check: Check, seen: set<string>, n: nat)
    returns (at: seq<nat>)
    requires n <= |files|
    ensures UnseenAt(at, Fresh(files[n..], check, seen), files, check, seen, n)
    decreases |files| - n
  {
    at := [];
    if n < |files| {
      FreshStep(files, check, seen, n);
      at := FreshPlaces(files, check, seen, n + 1);
      OneMoreUnseen(at, Fresh(files[n + 1..], check, seen), files, check, seen, n);
      hide *;
      if Dispatchable(files[n], check) && files[n] !in seen {
        at := [n] + at;
      }
    }
  }

  lemma OneMoreUnseen(at: seq<nat>, unseen: seq<string>, files: seq<string>, check: Check, seen: set<string>, n: nat)
    requires n < |files| && UnseenAt(at, unseen, files, check, seen, n + 1)
    ensures if Dispatchable(files[n], check) && files[n] !in seen
      then UnseenAt([n] + at, [files[n]] + unseen, files, check, seen, n)
      else UnseenAt(at, unseen, files, check, seen, n)
  {
    hide Dispatchable;
    if Dispatchable(files[n], check) && files[n] !in seen {
      AscendsPut(n, at);
      hide Ascends;
    }
  }

  lemma FreshStep(files: seq<string>, check: Check, seen: set<string>, n: nat)
    requires n < |files|
    ensures var rest := Fresh(files[n + 1..], check, seen);
      Fresh(files[n..], check, seen) ==
        if Dispatchable(files[n], check) && files[n] !in seen then [files[n]] + rest else rest
  {
    assert files[n..][1..] == files[n + 1..] && files[n..][0] == files[n];
  }

  /** A take is a list of the activation's own paths, resolved, in their order: all that can be
      staged, or as many of the first ones as the cap allows. */
  lemma TakeReads(act: Activation, b: Batch, seen: set<string>) returns (at: seq<nat>)
    ensures Ascends(at) && |at| == |Take(act, b, seen)| && (b.cap.Some? ==> |at| <= b.cap.value)
    ensures forall k :: 0 <= k < |at| ==>
      && at[k] < |act.detected| && Stageable(act, b, seen, at[k])
      && Take(act, b, seen)[k] == ResolveLogical(act.detected[at[k]], b.prefixMap)
    ensures forall i: nat :: i < |act.detected| && Stageable(act, b, seen, i) && i !in at ==>
      b.cap == Some(|at|) && forall k :: 0 <= k < |at| ==> at[k] < i
  {
    hide Ascends, Stageable, Fresh, Dispatchable;
    var files := FilesOf(act, b);
    assert files[0..] == files;
    var all := FreshPlaces(files, b.check, seen, 0);
    var n := if b.cap.Some? && b.cap.value < |all| then b.cap.value else |all|;
    at := all[..n];
    FirstPlaces(all, at, n);
    forall i: nat | i < |act.detected|
      ensures Stageable(act, b, seen, i) <==> Dispatchable(files[i], b.check) && files[i] !in seen
    {
      StageableIff(act, b, seen, i);
    }
    assert forall k :: 0 <= k < |at| ==> at[k] in at;
  }

  lemma StageableIff(act: Activation, b: Batch, seen: set<string>, i: nat)
    requires i < |act.detected|
    ensures Stageable(act, b, seen, i) <==> Dispatchable(FilesOf(act, b)[i], b.check) && FilesOf(act, b)[i] !in seen
  {
  }

  function Elements<T>(xs: seq<T>): set<T> {
    set x | x in xs
  }

  /** The set of files a list of takes covers. */
  function Covered(takes: seq<seq<string>>): set<string> {
    if takes == [] then {} else Covered(takes[..|takes| - 1]) + Elements(takes[|takes| - 1])
  }

  /** The takes of a batch's first n activations, each shutting out what came before. */
  function Takes(b: Batch, n: nat, seen: set<string>): (r: seq<seq<string>>)
    requires n <= |b.acts|
    ensures |r| == n
  {
    if n == 0 then []
    else
      var before := Takes(b, n - 1, seen);
      before + [Take(b.acts[n - 1], b, seen + Covered(before))]
  }

  lemma {:induction false} TakesPrefix(b: Batch, i: nat, n: nat, seen: set<string>)
    requires i <= n <= |b.acts|
    ensures Takes(b, n, seen)[..i] == Takes(b, i, seen)
  {
    hide Take, Covered;
    if i < n {
      TakesPrefix(b, i, n - 1, seen);
      var before := Takes(b, n - 1, seen);
      assert Takes(b, n, seen)[..i] == before[..i];
    }
  }

  lemma TakeAt(b: Batch, i: nat, seen: set<string>)
    requires i < |b.acts|
    ensures Takes(b, |b.acts|, seen)[i] == Take(b.acts[i], b, seen + Covered(Takes(b, i, seen)))
  {
    TakesPrefix(b, i + 1, |b.acts|, seen);
    assert Takes(b, |b.acts|, seen)[..i + 1][i] == Takes(b, i + 1, seen)[i];
  }

  lemma {:induction false} CoveredMembers(takes: seq<seq<string>>)
    ensures forall i, p :: 0 <= i < |takes| && p in takes[i] ==> p in Covered(takes)
    ensures forall p :: p in Covered(takes) ==> exists i :: 0 <= i < |takes| && p in takes[i]
    decreases |takes|
  {
    if takes != [] {
      CoveredMembers(takes[..|takes| - 1]);
    }
  }

  lemma CoveredSnoc(takes: seq<seq<string>>, t: seq<string>)
    ensures Covered(takes + [t]) == Covered(takes) + Elements(t)
  {
    assert (takes + [t])[..|takes|] == takes;
  }

  ghost predicate Disjoint(xs: seq<string>, ys: seq<string>) {
    forall p :: p in xs ==> p !in ys
  }

  lemma TakenOnce(b: Batch, seen: set<string>, i: nat, p: string)
    requires i < |b.acts| && p in Takes(b, |b.acts|, seen)[i]
    ensures p in FilesOf(b.acts[i], b) && Dispatchable(p, b.check) && p !in seen
    ensures forall k :: 0 <= k < i ==> p !in Takes(b, |b.acts|, seen)[k]
  {
    var before := Takes(b, i, seen);
    TakeAt(b, i, seen);
    assert p in Fresh(FilesOf(b.acts[i], b), b.check, seen + Covered(before));
    CoveredMembers(before);
    TakesPrefix(b, i, |b.acts|, seen);
    forall k | 0 <= k < i ensures p !in Takes(b, |b.acts|, seen)[k] {
      assert before[k] == Takes(b, |b.acts|, seen)[k];
    }
  }

  lemma PairDisjoint(b: Batch, seen: set<string>, i: nat, j: nat)
    requires i < j < |b.acts|
    ensures Disjoint(Takes(b, |b.acts|, seen)[i], Takes(b, |b.acts|, seen)[j])
  {
    forall p | p in Takes(b, |b.acts|, seen)[j] ensures p !in Takes(b, |b.acts|, seen)[i] {
      TakenOnce(b, seen, j, p);
    }
  }

  /** No detected file is lost: each is staged by its own activation or an earlier
      one, or was seen before, unless its activation filled its whole bucket. */
  lemma TakesCover(b: Batch, seen: set<string>, i: nat, p: string)
    requires i < |b.acts| && p in FilesOf(b.acts[i], b) && Dispatchable(p, b.check)
    ensures p in seen || (exists k :: 0 <= k <= i && p in Takes(b, |b.acts|, seen)[k])
         || (b.cap.Some? && |Takes(b, |b.acts|, seen)[i]| == b.cap.value)
  {
    var before := Takes(b, i, seen);
    TakeAt(b, i, seen);
    var unseen := Fresh(FilesOf(b.acts[i], b), b.check, seen + Covered(before));
    if p in unseen {
      if b.cap.None? || |unseen| <= b.cap.value {
        assert Takes(b, |b.acts|, seen)[i] == unseen;
      }
    } else if p !in seen {
      CoveredMembers(before);
      var k :| 0 <= k < |before| && p in before[k];
      TakesPrefix(b, i, |b.acts|, seen);
      assert Takes(b, |b.acts|, seen)[k] == before[k];
    }
  }

  // Where the cap cuts nothing, what is taken is what is detected.

  function With(b: Batch, acts: seq<Activation>): Batch {
    b.(acts := acts)
  }

  /** No activation lists more files than the cap. */
  predicate NotCut(acts: seq<Activation>, b: Batch) {
    b.cap.Some? ==> forall i :: 0 <= i < |acts| ==> |acts[i].detected| <= b.cap.value
  }

  /** The files that the first n activations detect and that may be dispatched. */
  function Found(acts: seq<Activation>, n: nat, b: Batch): set<string>
    requires n <= |acts|
  {
    if n == 0 then {} else Found(acts, n - 1, b) + Elements(Fresh(FilesOf(acts[n - 1], b), b.check, {}))
  }

  lemma {:induction false} FoundMembers(acts: seq<Activation>, n: nat, b: Batch, p: string)
    requires n <= |acts|
    ensures p in Found(acts, n, b) <==> Dispatchable(p, b.check) && exists i :: 0 <= i < n && p in FilesOf(acts[i], b)
  {
    hide FilesOf;
    if n > 0 {
      FoundMembers(acts, n - 1, b, p);
    }
  }

  lemma {:induction false} FreshIsShorter(files: seq<string>, check: Check, seen: set<string>)
    ensures |Fresh(files, check, seen)| <= |files|
  {
    if files != [] {
      FreshIsShorter(files[1..], check, seen);
    }
  }

  lemma UncutTake(b: Batch, acts: seq<Activation>, i: nat, seen: set<string>)
    requires NotCut(acts, b) && i < |acts|
    ensures Elements(Take(acts[i], With(b, acts), seen)) == Elements(Fresh(FilesOf(acts[i], b), b.check, {})) - seen
  {
    FreshIsShorter(FilesOf(acts[i], b), b.check, seen);
  }

  lemma {:induction false} TakesAllFound(b: Batch, acts: seq<Activation>, n: nat, seen: set<string>)
    requires NotCut(acts, b) && n <= |acts|
    ensures Covered(Takes(With(b, acts), n, seen)) == Found(acts, n, b) - seen
  {
    hide Take, Fresh, Elements;
    if n > 0 {
      TakesAllFound(b, acts, n - 1, seen);
      var before := Takes(With(b, acts), n - 1, seen);
      UncutTake(b, acts, n - 1, seen + Covered(before));
      CoveredSnoc(before, Take(acts[n - 1], With(b, acts), seen + Covered(before)));
    }
  }

  /** A list names each dispatchable file at most once, apart from those in `earlier`. */
  ghost predicate ListsOnce(files: seq<string>, check: Check, earlier: set<string>) {
    forall i, j :: 0 <= i < j < |files| && files[i] == files[j] ==>
      !Dispatchable(files[i], check) || files[i] in earlier
  }

  lemma {:induction false} FreshOnceIff(files: seq<string>, check: Check, seen: set<string>)
    ensures NoRepeats(Fresh(files, check, seen)) <==> ListsOnce(files, check, seen)
  {
    if files != [] {
      var first, rest := files[0], files[1..];
      FreshOnceIff(rest, check, seen);
      OnceStep(files, check, seen);
      if Dispatchable(first, check) && first !in seen {
        NoRepeatsCons(first, Fresh(rest, check, seen));
      }
    }
  }

  lemma OnceStep(files: seq<string>, check: Check, seen: set<string>)
    requires files != []
    ensures ListsOnce(files, check, seen) <==>
      && ListsOnce(files[1..], check, seen)
      && (files[0] in files[1..] ==> !Dispatchable(files[0], check) || files[0] in seen)
  {
    var rest := files[1..];
    assert forall i :: 0 <= i < |rest| ==> rest[i] == files[i + 1];
    if ListsOnce(files, check, seen) {
      forall i, j | 0 <= i < j < |rest| && rest[i] == rest[j]
        ensures !Dispatchable(rest[i], check) || rest[i] in seen
      {
        assert files[i + 1] == files[j + 1];
      }
    } else {
      var i, j :| 0 <= i < j < |files| && files[i] == files[j] && Dispatchable(files[i], check) && files[i] !in seen;
      assert files[j] == rest[j - 1];
      assert i > 0 ==> rest[i - 1] == files[i];
    }
  }

  lemma NoRepeatsCons(x: string, xs: seq<string>)
    ensures NoRepeats([x] + xs) <==> x !in xs && NoRepeats(xs)
  {
    var all := [x] + xs;
    assert forall i :: 0 <= i < |xs| ==> xs[i] == all[i + 1];
    if NoRepeats(all) {
      forall i, j | 0 <= i < j < |xs| ensures xs[i] != xs[j] {
        assert all[i + 1] != all[j + 1];
      }
      forall i | 0 <= i < |xs| ensures xs[i] != x {
        assert all[0] != all[i + 1];
      }
    }
  }

  /** Activation i lists once what no earlier one has found. */
  ghost predicate ActListsOnce(b: Batch, seen: set<string>, i: nat)
    requires i < |b.acts|
  {
    ListsOnce(FilesOf(b.acts[i], b), b.check, seen + Found(b.acts, i, b))
  }

  ghost predicate BatchListsOnce(b: Batch, seen: set<string>) {
    forall i :: 0 <= i < |b.acts| ==> ActListsOnce(b, seen, i)
  }

  /** Without a cap a take repeats no file exactly when its activation lists once what it
      is the first to find. */
  lemma TakeOnceIff(b: Batch, seen: set<string>, i: nat)
    requires b.cap.None? && i < |b.acts|
    ensures NoRepeats(Takes(b, |b.acts|, seen)[i]) <==> ActListsOnce(b, seen, i)
  {
    hide Takes, Fresh, FilesOf, ListsOnce, NoRepeats, Found;
    TakeAt(b, i, seen);
    TakesAllFound(b, b.acts, i, seen);
    assert With(b, b.acts) == b;
    assert seen + (Found(b.acts, i, b) - seen) == seen + Found(b.acts, i, b);
    FreshOnceIff(FilesOf(b.acts[i], b), b.check, seen + Found(b.acts, i, b));
  }

  // From takes to hints.

  /** The rule id of a hint, in the style of each runner. */
  datatype Style = Aiob | ReplayMirror | Dsb

  function RuleId(style: Style, turn: int, rule: string, source: string): string {
    var id := "turn" + Decimal(turn) + ":" + rule;
    match style
    case Aiob => if source != "thinking" then id + ":" + source else id
    case ReplayMirror => id + ":" + source
    case Dsb => if source != "thinking" then id + ":from_" + source else id
  }

  function MakeHint(act: Activation, files: seq<string>, ruleId: string): Hint {
    Hint(files, if |files| <= 10 then 1 else 3,
         if act.firedAtMs.Some? then act.firedAtMs.value else 0.0, ruleId)
  }

  /** One hint per non-empty take, in order. */
  function HintsFor(acts: seq<Activation>, takes: seq<seq<string>>, style: Style, turn: int, source: string): seq<Hint>
    requires |acts| == |takes|
  {
    if takes == [] then []
    else
      var n := |takes| - 1;
      var earlier := HintsFor(acts[..n], takes[..n], style, turn, source);
      if takes[n] == [] then earlier
      else earlier + [MakeHint(acts[n], takes[n], RuleId(style, turn, acts[n].rule, source))]
  }

  /** What the rule ids look like. */
  lemma RuleIdForms(turn: int, rule: string)
    ensures var id := "turn" + Decimal(turn) + ":" + rule;
      && RuleId(Aiob, turn, rule, "thinking") == RuleId(Dsb, turn, rule, "thinking") == id
      && RuleId(ReplayMirror, turn, rule, "thinking") == id + ":thinking"
      && RuleId(Aiob, turn, rule, "tool_result") == RuleId(ReplayMirror, turn, rule, "tool_result")
      == id + ":tool_result"
      && RuleId(Dsb, turn, rule, "tool_result") == id + ":from_tool_result"
  {
    assert ":from_" + "tool_result" == ":from_tool_result";
    assert ("turn" + Decimal(turn) + ":" + rule) + ":" + "tool_result"
        == ("turn" + Decimal(turn) + ":" + rule) + ":tool_result";
    assert ("turn" + Decimal(turn) + ":" + rule) + ":" + "thinking"
        == ("turn" + Decimal(turn) + ":" + rule) + ":thinking";
  }

  function FileCount(hints: seq<Hint>): nat {
    if hints == [] then 0 else FileCount(hints[..|hints| - 1]) + |hints[|hints| - 1].files|
  }

  function HintFiles(hints: seq<Hint>): (r: seq<seq<string>>)
    ensures |r| == |hints|
    ensures forall i :: 0 <= i < |hints| ==> r[i] == hints[i].files
  {
    seq(|hints|, i requires 0 <= i < |hints| => hints[i].files)
  }

  function NonEmpty(takes: seq<seq<string>>): seq<seq<string>> {
    if takes == [] then []
    else
      var n := |takes| - 1;
      if takes[n] == [] then NonEmpty(takes[..n]) else NonEmpty(takes[..n]) + [takes[n]]
  }

  /** The hints carry exactly the non-empty takes, whatever the style of their ids. */
  lemma {:induction false} HintFilesAreTakes(acts: seq<Activation>, takes: seq<seq<string>>, style: Style,
                                             turn: int, source: string)
    requires |acts| == |takes|
    ensures HintFiles(HintsFor(acts, takes, style, turn, source)) == NonEmpty(takes)
    decreases |takes|
  {
    if takes != [] {
      var n := |takes| - 1;
      HintFilesAreTakes(acts[..n], takes[..n], style, turn, source);
    }
  }

  lemma {:induction false} NonEmptyMembers(takes: seq<seq<string>>)
    ensures forall t :: t in NonEmpty(takes) <==> t in takes && t != []
    decreases |takes|
  {
    if takes != [] {
      var n := |takes| - 1;
      NonEmptyMembers(takes[..n]);
      assert takes == takes[..n] + [takes[n]];
    }
  }

  ghost predicate PairwiseDisjoint(lists: seq<seq<string>>) {
    forall i, j :: 0 <= i < j < |lists| ==> Disjoint(lists[i], lists[j])
  }

  lemma {:induction false} NonEmptyDisjoint(takes: seq<seq<string>>)
    requires PairwiseDisjoint(takes)
    ensures PairwiseDisjoint(NonEmpty(takes))
    decreases |takes|
  {
    if takes != [] {
      var n := |takes| - 1;
      NonEmptyDisjoint(takes[..n]);
      NonEmptyMembers(takes[..n]);
      forall t | t in NonEmpty(takes[..n]) ensures Disjoint(t, takes[n]) {
        var k :| 0 <= k < n && takes[..n][k] == t;
        assert takes[k] == t;
      }
    }
  }

  /** What one dispatch call promises about the hints it records: none is empty or
      over the cap, no file is in two of them, and every dispatchable file that was
      detected is in one unless its activation's bucket was full. */
  ghost predicate GoodHints(hints: seq<Hint>, b: Batch, seen: set<string>) {
    && (forall h :: h in hints ==> h.files != [] && (b.cap.Some? ==> |h.files| <= b.cap.value))
    && (forall h :: h in hints ==> h.tier == if |h.files| <= 10 then 1 else 3)
    && PairwiseDisjoint(HintFiles(hints))
    && (forall h, p :: h in hints && p in h.files ==> p !in seen && Dispatchable(p, b.check))
    && (forall act, p :: act in b.acts && p in FilesOf(act, b) && Dispatchable(p, b.check) ==>
          p in seen || (exists h :: h in hints && p in h.files) || BucketFull(act, b, seen, hints))
  }

  /** The activation's own share was cut at the cap. */
  ghost predicate BucketFull(act: Activation, b: Batch, seen: set<string>, hints: seq<Hint>) {
    && b.cap.Some?
    && (b.cap.value > 0 ==>
          exists h :: h in hints && |h.files| == b.cap.value && Elements(h.files) <= Elements(FilesOf(act, b)))
  }

  lemma {:induction false} HintsTier(acts: seq<Activation>, takes: seq<seq<string>>, style: Style, turn: int,
                                     source: string)
    requires |acts| == |takes|
    ensures forall h :: h in HintsFor(acts, takes, style, turn, source) ==>
      h.tier == if |h.files| <= 10 then 1 else 3
    decreases |takes|
  {
    if takes != [] {
      var n := |takes| - 1;
      HintsTier(acts[..n], takes[..n], style, turn, source);
    }
  }

  lemma HintOfTake(hints: seq<Hint>, takes: seq<seq<string>>, k: nat)
    requires HintFiles(hints) == NonEmpty(takes) && k < |takes| && takes[k] != []
    ensures exists h :: h in hints && h.files == takes[k]
  {
    NonEmptyMembers(takes);
    assert takes[k] in takes;
    var i :| 0 <= i < |HintFiles(hints)| && HintFiles(hints)[i] == takes[k];
    assert hints[i] in hints;
  }

  lemma TakeOfHint(hints: seq<Hint>, takes: seq<seq<string>>, h: Hint) returns (k: nat)
    requires HintFiles(hints) == NonEmpty(takes) && h in hints
    ensures k < |takes| && takes[k] == h.files != []
  {
    NonEmptyMembers(takes);
    var i :| 0 <= i < |hints| && hints[i] == h;
    assert HintFiles(hints)[i] in NonEmpty(takes);
    k :| 0 <= k < |takes| && takes[k] == h.files;
  }

  lemma HintsCover(hints: seq<Hint>, b: Batch, seen: set<string>, act: Activation, p: string)
    requires HintFiles(hints) == NonEmpty(Takes(b, |b.acts|, seen))
    requires act in b.acts && p in FilesOf(act, b) && Dispatchable(p, b.check)
    ensures p in seen || (exists h :: h in hints && p in h.files) || BucketFull(act, b, seen, hints)
  {
    var takes := Takes(b, |b.acts|, seen);
    var i :| 0 <= i < |b.acts| && b.acts[i] == act;
    TakesCover(b, seen, i, p);
    if exists k :: 0 <= k <= i && p in takes[k] {
      var k :| 0 <= k <= i && p in takes[k];
      HintOfTake(hints, takes, k);
    } else if p !in seen && b.cap.value > 0 {
      HintOfTake(hints, takes, i);
      forall q | q in takes[i] ensures q in FilesOf(act, b) {
        TakenOnce(b, seen, i, q);
      }
    }
  }

  // The dispatch loop, over a stager that records the hints it is given.

  datatype Dispatched = Dispatched(rule: string, nFiles: nat, source: string)

  function Records(acts: seq<Activation>, takes: seq<seq<string>>, source: string): seq<Dispatched>
    requires |acts| == |takes|
  {
    if takes == [] then []
    else
      var n := |takes| - 1;
      var earlier := Records(acts[..n], takes[..n], source);
      if takes[n] == [] then earlier
      else earlier + [Dispatched(acts[n].rule, |takes[n]|, source)]
  }

  lemma HintsSnoc(acts: seq<Activation>, takes: seq<seq<string>>, n: nat, t: seq<string>,
                  style: Style, turn: int, source: string)
    requires n < |acts| && |takes| == n
    ensures HintsFor(acts[..n + 1], takes + [t], style, turn, source)
         == HintsFor(acts[..n], takes, style, turn, source)
          + if t == [] then [] else [MakeHint(acts[n], t, RuleId(style, turn, acts[n].rule, source))]
    ensures Records(acts[..n + 1], takes + [t], source)
         == Records(acts[..n], takes, source)
          + if t == [] then [] else [Dispatched(acts[n].rule, |t|, source)]
  {
    assert acts[..n + 1][..n] == acts[..n] && (takes + [t])[..n] == takes;
  }

  lemma {:induction false} FileCountAppend(a: seq<Hint>, b: seq<Hint>)
    ensures FileCount(a + b) == FileCount(a) + FileCount(b)
    decreases |b|
  {
    if b == [] {
      assert a + b == a;
    } else {
      FileCountAppend(a, b[..|b| - 1]);
      assert (a + b)[..|a + b| - 1] == a + b[..|b| - 1];
    }
  }

  lemma FileCountSnoc(a: seq<Hint>, h: Hint)
    ensures FileCount(a + [h]) == FileCount(a) + |h.files|
  {
    assert (a + [h])[..|a|] == a;
  }

  function HintsUpTo(b: Batch, n: nat, seen: set<string>, style: Style, turn: int, source: string): seq<Hint>
    requires n <= |b.acts|
  {
    HintsFor(b.acts[..n], Takes(b, n, seen), style, turn, source)
  }

  /** The hints of a whole batch. */
  function HintsOf(b: Batch, seen: set<string>, style: Style, turn: int, source: string): seq<Hint> {
    HintsUpTo(b, |b.acts|, seen, style, turn, source)
  }

  function RecordsUpTo(b: Batch, n: nat, seen: set<string>, source: string): seq<Dispatched>
    requires n <= |b.acts|
  {
    Records(b.acts[..n], Takes(b, n, seen), source)
  }

  lemma BatchStart(b: Batch, seen: set<string>, style: Style, turn: int, source: string)
    ensures Covered(Takes(b, 0, seen)) == {}
    ensures HintsUpTo(b, 0, seen, style, turn, source) == [] && FileCount([]) == 0
    ensures RecordsUpTo(b, 0, seen, source) == []
  {
  }

  lemma BatchStep(b: Batch, n: nat, seen: set<string>, style: Style, turn: int, source: string, t: seq<string>)
    requires n < |b.acts| && t == Take(b.acts[n], b, seen + Covered(Takes(b, n, seen)))
    ensures Covered(Takes(b, n + 1, seen)) == Covered(Takes(b, n, seen)) + Elements(t)
    ensures t == [] ==>
      && HintsUpTo(b, n + 1, seen, style, turn, source) == HintsUpTo(b, n, seen, style, turn, source)
      && RecordsUpTo(b, n + 1, seen, source) == RecordsUpTo(b, n, seen, source)
    ensures t != [] ==>
      var h := MakeHint(b.acts[n], t, RuleId(style, turn, b.acts[n].rule, source));
      var before := HintsUpTo(b, n, seen, style, turn, source);
      && HintsUpTo(b, n + 1, seen, style, turn, source) == before + [h]
      && FileCount(before + [h]) == FileCount(before) + |t|
      && RecordsUpTo(b, n + 1, seen, source)
      == RecordsUpTo(b, n, seen, source) + [Dispatched(b.acts[n].rule, |t|, source)]
  {
    assert Takes(b, n + 1, seen) == Takes(b, n, seen) + [t];
    CoveredSnoc(Takes(b, n, seen), t);
    HintsSnoc(b.acts, Takes(b, n, seen), n, t, style, turn, source);
    FileCountSnoc(HintsUpTo(b, n, seen, style, turn, source),
                  MakeHint(b.acts[n], t, RuleId(style, turn, b.acts[n].rule, source)));
  }

  /** h is the hint of an activation that dispatches the given files. */
  ghost predicate HintFor(h: Hint, act: Activation, files: seq<string>, style: Style, turn: int, source: string) {
    && h.files == files && h.ruleId == RuleId(style, turn, act.rule, source)
    && (if |files| > 10 then h.tier == 3 else h.tier == 1)
    && (act.firedAtMs == Some(h.firedAtMs) || (act.firedAtMs == None && h.firedAtMs == 0.0))
  }

  /** at lists the places of the activations that take something; hint and log entry k are
      those of the activation at place at[k]. */
  ghost predicate HintsAt(at: seq<nat>, acts: seq<Activation>, takes: seq<seq<string>>, hints: seq<Hint>,
                          log: seq<Dispatched>, style: Style, turn: int, source: string)
    requires |acts| == |takes|
  {
    && Ascends(at) && |hints| == |log| == |at|
    && (forall i: nat :: i in at <==> i < |acts| && takes[i] != [])
    && forall k :: 0 <= k < |at| ==>
         && at[k] < |acts| && HintFor(hints[k], acts[at[k]], takes[at[k]], style, turn, source)
         && log[k] == Dispatched(acts[at[k]].rule, |takes[at[k]]|, source)
  }

  lemma HintIsFor(act: Activation, files: seq<string>, style: Style, turn: int, source: string)
    ensures HintFor(MakeHint(act, files, RuleId(style, turn, act.rule, source)), act, files, style, turn, source)
  {
  }

  lemma {:induction false} HintPlaces(acts: seq<Activation>, takes: seq<seq<string>>, style: Style, turn: int,
                                      source: string) returns (at: seq<nat>)
    requires |acts| == |takes|
    ensures HintsAt(at, acts, takes, HintsFor(acts, takes, style, turn, source), Records(acts, takes, source),
                    style, turn, source)
    decreases |acts|
  {
    hide HintsAt, RuleId, MakeHint;
    at := [];
    if takes == [] {
      NoHintPlaces(style, turn, source);
    } else {
      var n := |takes| - 1;
      var act, t := acts[n], takes[n];
      assert acts == acts[..n] + [act] && takes == takes[..n] + [t];
      HintIsFor(act, t, style, turn, source);
      at := HintPlaces(acts[..n], takes[..n], style, turn, source);
      OneMoreHint(at, acts[..n], takes[..n], HintsFor(acts[..n], takes[..n], style, turn, source),
                  Records(acts[..n], takes[..n], source), style, turn, source, act, t,
                  MakeHint(act, t, RuleId(style, turn, act.rule, source)));
      at := if t == [] then at else at + [n];
    }
  }

  lemma NoHintPlaces(style: Style, turn: int, source: string)
    ensures HintsAt([], [], [], [], [], style, turn, source)
  {
  }

  lemma OneMoreHint(at: seq<nat>, acts: seq<Activation>, takes: seq<seq<string>>, hints: seq<Hint>,
                    log: seq<Dispatched>, style: Style, turn: int, source: string, act: Activation, t: seq<string>,
                    h: Hint)
    requires |acts| == |takes| && HintsAt(at, acts, takes, hints, log, style, turn, source)
    requires HintFor(h, act, t, style, turn, source)
    ensures if t == [] then HintsAt(at, acts + [act], takes + [t], hints, log, style, turn, source)
      else HintsAt(at + [|acts|], acts + [act], takes + [t], hints + [h], log + [Dispatched(act.rule, |t|, source)],
                   style, turn, source)
  {
    hide HintFor;
    var acts', takes' := acts + [act], takes + [t];
    assert forall i: nat :: i < |acts| ==> acts'[i] == acts[i] && takes'[i] == takes[i];
    assert forall k :: 0 <= k < |at| ==> at[k] in at;
    if t != [] {
      AscendsSnoc(at, |acts|);
    }
    hide Ascends;
  }

  /** What a dispatch call hints and logs: one entry per activation that takes something, in
      order, with its own files, rule and time. */
  lemma HintsRead(b: Batch, seen: set<string>, style: Style, turn: int, source: string) returns (at: seq<nat>)
    ensures HintsAt(at, b.acts, Takes(b, |b.acts|, seen), HintsOf(b, seen, style, turn, source),
                    RecordsUpTo(b, |b.acts|, seen, source), style, turn, source)
  {
    assert b.acts[..|b.acts|] == b.acts;
    at := HintPlaces(b.acts, Takes(b, |b.acts|, seen), style, turn, source);
    hide HintsAt;
  }

  class Prefetcher {
    var hints: seq<Hint>
    var nTotal: nat

    constructor ()
      ensures hints == [] && nTotal == 0
    {
      hints, nTotal := [], 0;
    }

    /** stager.prefetch: record one hint. */
    method Prefetch(h: Hint)
      modifies this`hints
      ensures hints == old(hints) + [h]
    {
      hints := hints + [h];
    }

    /** _dispatch_prefetches, with `seen` empty in the AIOB runner and its replay
        mirror, and carried across the whole session in DSBench.  The counter grows
        by the number of files in the new hints. */
    method DispatchBatch(b: Batch, seen: set<string>, style: Style, turn: int, source: string)
      returns (dispatched: seq<Dispatched>, seenAfter: set<string>)
      modifies this
      ensures seenAfter == seen + Covered(Takes(b, |b.acts|, seen))
      ensures hints == old(hints) + HintsOf(b, seen, style, turn, source)
      ensures dispatched == RecordsUpTo(b, |b.acts|, seen, source)
      ensures nTotal == old(nTotal) + FileCount(HintsOf(b, seen, style, turn, source))
    {
      BatchStart(b, seen, style, turn, source);
      hide HintsUpTo, RecordsUpTo, Takes, Covered, FileCount, Fresh, Resolved, Capped;
      dispatched, seenAfter := [], seen;
      for n := 0 to |b.acts|
        invariant seenAfter == seen + Covered(Takes(b, n, seen))
        invariant hints == old(hints) + HintsUpTo(b, n, seen, style, turn, source)
        invariant dispatched == RecordsUpTo(b, n, seen, source)
        invariant nTotal == old(nTotal) + FileCount(HintsUpTo(b, n, seen, style, turn, source))
      {
        var act := b.acts[n];
        var physFiles := Fresh(Resolved(act.detected, b.prefixMap), b.check, seenAfter);
        physFiles := Capped(physFiles, b.cap);
        BatchStep(b, n, seen, style, turn, source, physFiles);
        seenAfter := seenAfter + Elements(physFiles);
        if physFiles == [] {
          continue;
        }
        var hint := MakeHint(act, physFiles, RuleId(style, turn, act.rule, source));
        Prefetch(hint);
        dispatched := dispatched + [Dispatched(act.rule, |physFiles|, source)];
        nTotal := nTotal + |physFiles|;
      }
    }
  }

  /** Every dispatch call, whatever the activations, the map, the cap and the files
      on disk, keeps the promises of GoodHints. */
  lemma HintsAreGood(b: Batch, seen: set<string>, style: Style, turn: int, source: string)
    ensures GoodHints(HintsOf(b, seen, style, turn, source), b, seen)
    ensures HintFiles(HintsOf(b, seen, style, turn, source)) == NonEmpty(Takes(b, |b.acts|, seen))
  {
    var hints := HintsOf(b, seen, style, turn, source);
    assert b.acts[..|b.acts|] == b.acts;
    var takes := Takes(b, |b.acts|, seen);
    HintFilesAreTakes(b.acts, takes, style, turn, source);
    HintsTier(b.acts, takes, style, turn, source);
    forall i, j | 0 <= i < j < |takes| ensures Disjoint(takes[i], takes[j]) {
      PairDisjoint(b, seen, i, j);
    }
    NonEmptyDisjoint(takes);
    forall h | h in hints
      ensures h.files != [] && (b.cap.Some? ==> |h.files| <= b.cap.value)
      ensures forall p :: p in h.files ==> p !in seen && Dispatchable(p, b.check)
    {
      var k := TakeOfHint(hints, takes, h);
      TakeAt(b, k, seen);
      forall p | p in h.files ensures p !in seen && Dispatchable(p, b.check) {
        TakenOnce(b, seen, k, p);
      }
    }
    forall act, p | act in b.acts && p in FilesOf(act, b) && Dispatchable(p, b.check)
      ensures p in seen || (exists h :: h in hints && p in h.files) || BucketFull(act, b, seen, hints)
    {
      HintsCover(hints, b, seen, act, p);
    }
  }

  /** The replay mirror stages the same files in the same tiers as the live runner;
      the two name their hints alike exactly when there is none or the files came
      from a source other than thinking. */
  lemma MirrorDispatchesTheSame(b: Batch, turn: int, source: string)
    ensures var a, c := HintsOf(b, {}, Aiob, turn, source), HintsOf(b, {}, ReplayMirror, turn, source);
      && HintFiles(a) == HintFiles(c)
      && (forall i :: 0 <= i < |a| ==> a[i].tier == c[i].tier)
      && (a == c <==> a == [] || source != "thinking")
  {
    var takes := Takes(b, |b.acts|, {});
    assert b.acts[..|b.acts|] == b.acts;
    HintFilesAreTakes(b.acts, takes, Aiob, turn, source);
    HintFilesAreTakes(b.acts, takes, ReplayMirror, turn, source);
    HintsTier(b.acts, takes, Aiob, turn, source);
    HintsTier(b.acts, takes, ReplayMirror, turn, source);
    var a, c := HintsFor(b.acts, takes, Aiob, turn, source), HintsFor(b.acts, takes, ReplayMirror, turn, source);
    forall i | 0 <= i < |a| ensures a[i].tier == c[i].tier {
      assert HintFiles(a)[i] == HintFiles(c)[i];
      assert a[i] in a && c[i] in c;
    }
    MirrorIds(b.acts, takes, turn, source);
  }

  lemma {:induction false} MirrorIds(acts: seq<Activation>, takes: seq<seq<string>>, turn: int, source: string)
    requires |acts| == |takes|
    ensures var a, c := HintsFor(acts, takes, Aiob, turn, source), HintsFor(acts, takes, ReplayMirror, turn, source);
      |a| == |c| && (a == c <==> a == [] || source != "thinking")
    decreases |takes|
  {
    if takes != [] {
      var n := |takes| - 1;
      MirrorIds(acts[..n], takes[..n], turn, source);
      if takes[n] != [] {
        var a, c := HintsFor(acts, takes, Aiob, turn, source), HintsFor(acts, takes, ReplayMirror, turn, source);
        var rule := acts[n].rule;
        if source == "thinking" {
          assert |RuleId(Aiob, turn, rule, source)| < |RuleId(ReplayMirror, turn, rule, source)|;
          assert a[|a| - 1] != c[|c| - 1];
        }
      }
    }
  }
}
