/** Prefetching over a whole DSBench session (scripts/microbench/dsbench_multiturn.py):
    the OSS loop remembers every file it has staged, the Anthropic loop forgets after
    each batch of activations. */
module DsbSession {
  import opened Common
  import opened Paths
  import opened Dispatch

  /** One firing of the detector: after a turn's stream ("thinking") or after its tool
      results ("tool_result"), with the files that exist at that moment. */
  datatype Firing = Firing(turn: int, source: string, acts: seq<Activation>, present: set<string>)

  function BatchOf(f: Firing, m: seq<Mapping>): Batch {
    Batch(f.acts, m, OnDisk(f.present), None)
  }

  function AllFiles(hints: seq<Hint>): set<string> {
    Covered(HintFiles(hints))
  }

  /** No file is in two hints, the memory is exactly what was staged, and the counter
      is the number of staged entries. */
  ghost predicate SessionState(hints: seq<Hint>, seen: set<string>, total: nat) {
    && PairwiseDisjoint(HintFiles(hints))
    && seen == AllFiles(hints)
    && total == FileCount(hints)
  }

  lemma {:induction false} CoveredNonEmpty(takes: seq<seq<string>>)
    ensures Covered(NonEmpty(takes)) == Covered(takes)
    decreases |takes|
  {
    if takes != [] {
      var n := |takes| - 1;
      CoveredNonEmpty(takes[..n]);
      CoveredSnoc(NonEmpty(takes[..n]), takes[n]);
    }
  }

  lemma {:induction false} CoveredAppend(a: seq<seq<string>>, b: seq<seq<string>>)
    ensures Covered(a + b) == Covered(a) + Covered(b)
    decreases |b|
  {
    if b == [] {
      assert a + b == a;
    } else {
      var n := |b| - 1;
      CoveredAppend(a, b[..n]);
      assert (a + b)[..|a + b| - 1] == a + b[..n];
    }
  }

  lemma HintFilesAppend(a: seq<Hint>, b: seq<Hint>)
    ensures HintFiles(a + b) == HintFiles(a) + HintFiles(b)
  {
  }

  lemma DisjointAppend(a: seq<seq<string>>, b: seq<seq<string>>)
    requires PairwiseDisjoint(a) && PairwiseDisjoint(b) && Covered(a) !! Covered(b)
    ensures PairwiseDisjoint(a + b)
  {
    CoveredMembers(a);
    CoveredMembers(b);
    forall i, j | 0 <= i < j < |a + b| ensures Disjoint((a + b)[i], (a + b)[j]) {
      if i < |a| <= j {
        forall p | p in a[i] ensures p !in b[j - |a|] {
          assert p in Covered(a);
        }
      }
    }
  }

  /** The files a firing detects that exist. */
  function Detected(f: Firing, m: seq<Mapping>): set<string> {
    Found(f.acts, |f.acts|, BatchOf(f, m))
  }

  lemma DetectedMembers(f: Firing, m: seq<Mapping>, p: string)
    ensures p in Detected(f, m) <==> p in f.present && exists act :: act in f.acts && p in Resolved(act.detected, m)
  {
    FoundMembers(f.acts, |f.acts|, BatchOf(f, m), p);
  }

  /** The files a batch dispatches, when there is no cap: everything detected and on
      disk that was not seen. */
  lemma BatchCovers(f: Firing, m: seq<Mapping>, seen: set<string>)
    ensures var b := BatchOf(f, m);
      Covered(Takes(b, |b.acts|, seen)) == Detected(f, m) - seen
  {
    TakesAllFound(BatchOf(f, m), f.acts, |f.acts|, seen);
    assert With(BatchOf(f, m), f.acts) == BatchOf(f, m);
  }

  lemma SessionStep(hints: seq<Hint>, seen: set<string>, total: nat, f: Firing, m: seq<Mapping>)
    requires SessionState(hints, seen, total)
    ensures var b := BatchOf(f, m);
      var more := HintsOf(b, seen, Dsb, f.turn, f.source);
      SessionState(hints + more, seen + Covered(Takes(b, |b.acts|, seen)), total + FileCount(more))
  {
    var b := BatchOf(f, m);
    var more := HintsOf(b, seen, Dsb, f.turn, f.source);
    HintsAreGood(b, seen, Dsb, f.turn, f.source);
    CoveredNonEmpty(Takes(b, |b.acts|, seen));
    BatchCovers(f, m, seen);
    HintFilesAppend(hints, more);
    CoveredAppend(HintFiles(hints), HintFiles(more));
    FileCountAppend(hints, more);
    DisjointAppend(HintFiles(hints), HintFiles(more));
  }

  /** The hints of a session whose memory lasts. */
  function LastingHints(fs: seq<Firing>, m: seq<Mapping>): seq<Hint> {
    if fs == [] then []
    else
      var n := |fs| - 1;
      var earlier := LastingHints(fs[..n], m);
      earlier + HintsOf(BatchOf(fs[n], m), AllFiles(earlier), Dsb, fs[n].turn, fs[n].source)
  }

  /** The hints of a session that forgets after every batch. */
  function ForgetfulHints(fs: seq<Firing>, m: seq<Mapping>): seq<Hint> {
    if fs == [] then []
    else
      var n := |fs| - 1;
      ForgetfulHints(fs[..n], m) + HintsOf(BatchOf(fs[n], m), {}, Dsb, fs[n].turn, fs[n].source)
  }

  /** What one firing hints, given what is remembered. */
  function FiringHints(f: Firing, m: seq<Mapping>, seen: set<string>): seq<Hint> {
    HintsOf(Batch(f.acts, m, OnDisk(f.present), None), seen, Dsb, f.turn, f.source)
  }

  /** The OSS loop hints, firing after firing, what each hints once all files staged before it
      are remembered; the Anthropic loop what each hints with nothing remembered. */
  lemma {:induction false} SessionHintsInOrder(fs: seq<Firing>, more: seq<Firing>, m: seq<Mapping>)
    ensures LastingHints(fs, m) <= LastingHints(fs + more, m)
    ensures ForgetfulHints(fs, m) <= ForgetfulHints(fs + more, m)
    ensures |more| == 1 ==>
      && LastingHints(fs + more, m) ==
           LastingHints(fs, m) + FiringHints(more[0], m, Covered(HintFiles(LastingHints(fs, m))))
      && ForgetfulHints(fs + more, m) == ForgetfulHints(fs, m) + FiringHints(more[0], m, {})
    decreases |more|
  {
    hide HintsOf, Covered;
    if more == [] {
      assert fs + more == fs;
    } else {
      var n := |more| - 1;
      SessionHintsInOrder(fs, more[..n], m);
      assert (fs + more)[..|fs + more| - 1] == fs + more[..n];
      if n == 0 {
        assert fs + more[..n] == fs;
      }
    }
  }

  class Session {
    const stager: Prefetcher
    var seenPhys: set<string>

    constructor ()
      ensures fresh(stager) && stager.hints == [] && stager.nTotal == 0 && seenPhys == {}
    {
      stager := new Prefetcher();
      seenPhys := {};
    }

    /** The OSS loop's staging, over every turn and both sources.  What is staged is every
        detected file that exists, no file is ever in two hints, and the total counts
        distinct files exactly when no activation lists twice what it is first to detect. */
    method RunLasting(fs: seq<Firing>, m: seq<Mapping>)
      requires stager.hints == [] && stager.nTotal == 0 && seenPhys == {}
      modifies this, stager
      ensures stager.hints == LastingHints(fs, m)
      ensures SessionState(stager.hints, seenPhys, stager.nTotal)
      ensures seenPhys == DetectedByAny(fs, m)
      ensures |seenPhys| <= stager.nTotal
      ensures stager.nTotal == |seenPhys| <==> SessionListsOnce(fs, m)
    {
      for n := 0 to |fs|
        invariant stager.hints == LastingHints(fs[..n], m)
        invariant SessionState(stager.hints, seenPhys, stager.nTotal)
      {
        var b := BatchOf(fs[n], m);
        SessionStep(stager.hints, seenPhys, stager.nTotal, fs[n], m);
        assert fs[..n + 1][..n] == fs[..n];
        var _, seenAfter := stager.DispatchBatch(b, seenPhys, Dsb, fs[n].turn, fs[n].source);
        seenPhys := seenAfter;
      }
      assert fs[..|fs|] == fs;
      DistinctTotal(stager.hints);
      LastingFiles(fs, m);
      LastingOnceIff(fs, m);
    }

    /** The Anthropic loop's staging: a fresh memory for every batch. */
    method RunForgetful(fs: seq<Firing>, m: seq<Mapping>)
      requires stager.hints == [] && stager.nTotal == 0
      modifies stager
      ensures stager.hints == ForgetfulHints(fs, m) && stager.nTotal == FileCount(stager.hints)
    {
      for n := 0 to |fs|
        invariant stager.hints == ForgetfulHints(fs[..n], m)
        invariant stager.nTotal == FileCount(stager.hints)
      {
        var b := BatchOf(fs[n], m);
        FileCountAppend(stager.hints, HintsOf(b, {}, Dsb, fs[n].turn, fs[n].source));
        assert fs[..n + 1][..n] == fs[..n];
        var _, _ := stager.DispatchBatch(b, {}, Dsb, fs[n].turn, fs[n].source);
      }
      assert fs[..|fs|] == fs;
    }
  }

  // Counting entries against counting files.

  lemma {:induction false} ElementsSize(xs: seq<string>)
    ensures |Elements(xs)| <= |xs|
    ensures |Elements(xs)| == |xs| <==> NoRepeats(xs)
  {
    if xs != [] {
      var n := |xs| - 1;
      var front, last := xs[..n], xs[n];
      ElementsSize(front);
      assert xs == front + [last];
      assert Elements(xs) == Elements(front) + {last};
      if last in front {
        assert Elements(xs) == Elements(front);
        var i :| 0 <= i < n && front[i] == last;
        assert xs[i] == xs[n];
      } else {
        assert |Elements(xs)| == |Elements(front)| + 1;
        assert NoRepeats(front) <==> NoRepeats(xs) by {
          if NoRepeats(xs) {
            forall i, j | 0 <= i < j < |front| ensures front[i] != front[j] {
              assert xs[i] != xs[j];
            }
          }
        }
      }
    }
  }

  lemma DisjointSnoc(hints: seq<Hint>)
    requires hints != []
    ensures var n := |hints| - 1;
      && AllFiles(hints) == AllFiles(hints[..n]) + Elements(hints[n].files)
      && (PairwiseDisjoint(HintFiles(hints)) <==>
            PairwiseDisjoint(HintFiles(hints[..n])) && AllFiles(hints[..n]) !! Elements(hints[n].files))
  {
    var n := |hints| - 1;
    var last := [hints[n].files];
    assert HintFiles(hints) == HintFiles(hints[..n]) + last;
    assert last[..0] == [] && Covered(last) == Elements(hints[n].files);
    CoveredSnoc(HintFiles(hints[..n]), hints[n].files);
    hide Covered, Elements;
    if PairwiseDisjoint(HintFiles(hints)) {
      SplitDisjoint(HintFiles(hints[..n]), last);
    } else if PairwiseDisjoint(HintFiles(hints[..n])) && AllFiles(hints[..n]) !! Elements(hints[n].files) {
      DisjointAppend(HintFiles(hints[..n]), last);
    }
  }

  ghost predicate NoneRepeats(hints: seq<Hint>) {
    forall h :: h in hints ==> NoRepeats(h.files)
  }

  /** The number of staged entries is the number of distinct files exactly when no file is
      in two hints and no hint lists one twice. */
  lemma {:induction false} DistinctTotal(hints: seq<Hint>)
    ensures |AllFiles(hints)| <= FileCount(hints)
    ensures FileCount(hints) == |AllFiles(hints)| <==> PairwiseDisjoint(HintFiles(hints)) && NoneRepeats(hints)
    decreases |hints|
  {
    hide PairwiseDisjoint, Elements, AllFiles, NoRepeats;
    if hints == [] {
      NoHints();
    } else {
      var n := |hints| - 1;
      DisjointSnoc(hints);
      DistinctTotal(hints[..n]);
      ElementsSize(hints[n].files);
      UnionSize(AllFiles(hints[..n]), Elements(hints[n].files));
      assert hints == hints[..n] + [hints[n]];
    }
  }

  lemma NoHints()
    ensures AllFiles([]) == {} && PairwiseDisjoint(HintFiles([]))
  {
  }

  lemma UnionSize(a: set<string>, b: set<string>)
    ensures |a + b| <= |a| + |b|
    ensures |a + b| == |a| + |b| <==> a !! b
  {
    assert |a + b| + |a * b| == |a| + |b|;
  }

  // What makes the counters right, in terms of the firings.

  /** No firing lists twice a file that no earlier activation of the session detected. */
  ghost predicate SessionListsOnce(fs: seq<Firing>, m: seq<Mapping>) {
    forall n :: 0 <= n < |fs| ==> BatchListsOnce(BatchOf(fs[n], m), DetectedByAny(fs[..n], m))
  }

  /** No firing lists twice a file that no earlier activation of the same firing detected. */
  ghost predicate FiringsListOnce(fs: seq<Firing>, m: seq<Mapping>) {
    forall n :: 0 <= n < |fs| ==> BatchListsOnce(BatchOf(fs[n], m), {})
  }

  lemma HintsOnceIff(f: Firing, m: seq<Mapping>, seen: set<string>)
    ensures NoneRepeats(HintsOf(BatchOf(f, m), seen, Dsb, f.turn, f.source)) <==> BatchListsOnce(BatchOf(f, m), seen)
  {
    hide Takes, HintsOf, ActListsOnce, NoRepeats;
    var b := BatchOf(f, m);
    var hints, takes := HintsOf(b, seen, Dsb, f.turn, f.source), Takes(b, |b.acts|, seen);
    HintsAreGood(b, seen, Dsb, f.turn, f.source);
    if NoneRepeats(hints) {
      forall i | 0 <= i < |b.acts| ensures ActListsOnce(b, seen, i) {
        TakeOnceIff(b, seen, i);
        if takes[i] != [] {
          HintOfTake(hints, takes, i);
        } else {
          EmptyOnce();
        }
      }
    }
    if BatchListsOnce(b, seen) {
      forall h | h in hints ensures NoRepeats(h.files) {
        var k := TakeOfHint(hints, takes, h);
        TakeOnceIff(b, seen, k);
      }
    }
  }

  lemma EmptyOnce()
    ensures NoRepeats<string>([])
  {
  }

  lemma NoneRepeatsAppend(a: seq<Hint>, c: seq<Hint>)
    ensures NoneRepeats(a + c) <==> NoneRepeats(a) && NoneRepeats(c)
  {
    hide NoRepeats;
    assert forall h :: h in a ==> h in a + c;
    assert forall h :: h in c ==> h in a + c;
  }

  lemma {:induction false} LastingOnceIff(fs: seq<Firing>, m: seq<Mapping>)
    ensures NoneRepeats(LastingHints(fs, m)) <==> SessionListsOnce(fs, m)
    decreases |fs|
  {
    hide HintsOf, NoneRepeats, BatchListsOnce, DetectedByAny, AllFiles;
    if fs == [] {
      NothingRepeats();
    } else {
      var n := |fs| - 1;
      var earlier := LastingHints(fs[..n], m);
      LastingOnceIff(fs[..n], m);
      LastingFiles(fs[..n], m);
      HintsOnceIff(fs[n], m, DetectedByAny(fs[..n], m));
      NoneRepeatsAppend(earlier, HintsOf(BatchOf(fs[n], m), AllFiles(earlier), Dsb, fs[n].turn, fs[n].source));
      assert forall k :: 0 <= k < n ==> fs[..n][k] == fs[k] && fs[..n][..k] == fs[..k];
    }
  }

  lemma NothingRepeats()
    ensures NoneRepeats([])
  {
  }

  lemma {:induction false} ForgetfulOnceIff(fs: seq<Firing>, m: seq<Mapping>)
    ensures NoneRepeats(ForgetfulHints(fs, m)) <==> FiringsListOnce(fs, m)
    decreases |fs|
  {
    hide HintsOf, NoneRepeats, BatchListsOnce;
    if fs == [] {
      NothingRepeats();
    } else {
      var n := |fs| - 1;
      ForgetfulOnceIff(fs[..n], m);
      HintsOnceIff(fs[n], m, {});
      NoneRepeatsAppend(ForgetfulHints(fs[..n], m), HintsOf(BatchOf(fs[n], m), {}, Dsb, fs[n].turn, fs[n].source));
      assert forall k :: 0 <= k < n ==> fs[..n][k] == fs[k];
    }
  }

  /** The Anthropic loop's counter is the number of distinct files staged exactly when no
      two firings detect a common file that exists and none lists one twice. */
  lemma ForgetfulCountIff(fs: seq<Firing>, m: seq<Mapping>)
    ensures FileCount(ForgetfulHints(fs, m)) == |AllFiles(ForgetfulHints(fs, m))| <==>
      DetectionsApart(fs, m) && FiringsListOnce(fs, m)
  {
    hide FileCount, AllFiles, HintFiles, PairwiseDisjoint, NoneRepeats;
    hide DetectionsApart, FiringsListOnce, ForgetfulHints;
    DistinctTotal(ForgetfulHints(fs, m));
    ForgetfulRepeatsIff(fs, m);
    ForgetfulOnceIff(fs, m);
  }

  /** Where no detected list names a file twice, sharing a detection is all that spoils it. */
  lemma ForgetfulCountsDistinct(fs: seq<Firing>, m: seq<Mapping>)
    requires forall f, act :: f in fs && act in f.acts ==> NoRepeats(Resolved(act.detected, m))
    ensures FileCount(ForgetfulHints(fs, m)) == |AllFiles(ForgetfulHints(fs, m))| <==> DetectionsApart(fs, m)
  {
    hide FileCount, AllFiles, ForgetfulHints, DetectionsApart, Resolved;
    ForgetfulCountIff(fs, m);
    forall n | 0 <= n < |fs| ensures BatchListsOnce(BatchOf(fs[n], m), {}) {
      var b := BatchOf(fs[n], m);
      forall i | 0 <= i < |b.acts| ensures ActListsOnce(b, {}, i) {
        assert fs[n] in fs && b.acts[i] in fs[n].acts;
        assert NoRepeats(Resolved(b.acts[i].detected, m));
      }
    }
  }

  /** So over a whole OSS session whose detections list no file twice, the reported
      total is the number of distinct files staged. */
  lemma LastingTotal(fs: seq<Firing>, m: seq<Mapping>)
    requires forall f, act :: f in fs && act in f.acts ==> NoRepeats(Resolved(act.detected, m))
    ensures forall h :: h in LastingHints(fs, m) ==> NoRepeats(h.files)
  {
    hide LastingHints, Resolved;
    LastingOnceIff(fs, m);
    forall n | 0 <= n < |fs| ensures BatchListsOnce(BatchOf(fs[n], m), DetectedByAny(fs[..n], m)) {
      var b, seen := BatchOf(fs[n], m), DetectedByAny(fs[..n], m);
      forall i | 0 <= i < |b.acts| ensures ActListsOnce(b, seen, i) {
        assert fs[n] in fs && b.acts[i] in fs[n].acts;
        assert NoRepeats(Resolved(b.acts[i].detected, m));
      }
    }
  }

  /** Over a whole OSS session every detected file that exists is staged, and no other. */
  lemma {:induction false} LastingFiles(fs: seq<Firing>, m: seq<Mapping>)
    ensures AllFiles(LastingHints(fs, m)) == DetectedByAny(fs, m)
    decreases |fs|
  {
    if fs != [] {
      var n := |fs| - 1;
      var earlier := LastingHints(fs[..n], m);
      var b := BatchOf(fs[n], m);
      var more := HintsOf(b, AllFiles(earlier), Dsb, fs[n].turn, fs[n].source);
      LastingFiles(fs[..n], m);
      HintsAreGood(b, AllFiles(earlier), Dsb, fs[n].turn, fs[n].source);
      CoveredNonEmpty(Takes(b, |b.acts|, AllFiles(earlier)));
      BatchCovers(fs[n], m, AllFiles(earlier));
      HintFilesAppend(earlier, more);
      CoveredAppend(HintFiles(earlier), HintFiles(more));
    }
  }

  // What forgetting costs.

  ghost predicate DetectionsApart(fs: seq<Firing>, m: seq<Mapping>) {
    forall i, j :: 0 <= i < j < |fs| ==> Detected(fs[i], m) !! Detected(fs[j], m)
  }

  /** Everything any of the firings detects. */
  function DetectedByAny(fs: seq<Firing>, m: seq<Mapping>): set<string> {
    if fs == [] then {} else DetectedByAny(fs[..|fs| - 1], m) + Detected(fs[|fs| - 1], m)
  }

  lemma {:induction false} DetectedByAnyMembers(fs: seq<Firing>, m: seq<Mapping>, p: string)
    ensures p in DetectedByAny(fs, m) <==> exists i :: 0 <= i < |fs| && p in Detected(fs[i], m)
    decreases |fs|
  {
    hide Detected;
    if fs != [] {
      var n := |fs| - 1;
      DetectedByAnyMembers(fs[..n], m, p);
      assert forall i :: 0 <= i < n ==> fs[..n][i] == fs[i];
    }
  }

  lemma {:induction false} ForgetfulFiles(fs: seq<Firing>, m: seq<Mapping>)
    ensures AllFiles(ForgetfulHints(fs, m)) == DetectedByAny(fs, m)
    decreases |fs|
  {
    if fs != [] {
      var n := |fs| - 1;
      var earlier := ForgetfulHints(fs[..n], m);
      var more := HintsOf(BatchOf(fs[n], m), {}, Dsb, fs[n].turn, fs[n].source);
      ForgetfulFiles(fs[..n], m);
      MoreCovers(fs[n], m);
      HintFilesAppend(earlier, more);
      CoveredAppend(HintFiles(earlier), HintFiles(more));
    }
  }

  lemma MoreCovers(f: Firing, m: seq<Mapping>)
    ensures AllFiles(HintsOf(BatchOf(f, m), {}, Dsb, f.turn, f.source)) == Detected(f, m)
    ensures PairwiseDisjoint(HintFiles(HintsOf(BatchOf(f, m), {}, Dsb, f.turn, f.source)))
  {
    var b := BatchOf(f, m);
    HintsAreGood(b, {}, Dsb, f.turn, f.source);
    CoveredNonEmpty(Takes(b, |b.acts|, {}));
    BatchCovers(f, m, {});
  }

  lemma SplitDisjoint(a: seq<seq<string>>, b: seq<seq<string>>)
    requires PairwiseDisjoint(a + b)
    ensures PairwiseDisjoint(a) && Covered(a) !! Covered(b)
  {
    var ab := a + b;
    forall i, j | 0 <= i < j < |a| ensures Disjoint(a[i], a[j]) {
      assert Disjoint(ab[i], ab[j]);
    }
    CoveredMembers(a);
    CoveredMembers(b);
    forall p | p in Covered(a) ensures p !in Covered(b) {
      var i :| 0 <= i < |a| && p in a[i];
      forall j | 0 <= j < |b| ensures p !in b[j] {
        assert Disjoint(ab[i], ab[|a| + j]);
      }
    }
  }

  /** The Anthropic loop stages no file twice in a session exactly when no two of its
      batches detect a common file that exists. */
  lemma {:induction false} ForgetfulRepeatsIff(fs: seq<Firing>, m: seq<Mapping>)
    ensures PairwiseDisjoint(HintFiles(ForgetfulHints(fs, m))) <==> DetectionsApart(fs, m)
    decreases |fs|
  {
    if fs != [] {
      var n := |fs| - 1;
      var earlier := ForgetfulHints(fs[..n], m);
      var more := HintsOf(BatchOf(fs[n], m), {}, Dsb, fs[n].turn, fs[n].source);
      ForgetfulRepeatsIff(fs[..n], m);
      ForgetfulFiles(fs[..n], m);
      MoreCovers(fs[n], m);
      HintFilesAppend(earlier, more);
      ApartFront(fs, m);
      if PairwiseDisjoint(HintFiles(ForgetfulHints(fs, m))) {
        SplitDisjoint(HintFiles(earlier), HintFiles(more));
      } else if DetectionsApart(fs, m) {
        DisjointAppend(HintFiles(earlier), HintFiles(more));
      }
    }
  }

  lemma ApartFront(fs: seq<Firing>, m: seq<Mapping>)
    requires fs != []
    ensures DetectionsApart(fs, m) <==>
      DetectionsApart(fs[..|fs| - 1], m) && DetectedByAny(fs[..|fs| - 1], m) !! Detected(fs[|fs| - 1], m)
  {
    hide Detected, DetectedByAny;
    var n := |fs| - 1;
    var front := fs[..n];
    assert forall i :: 0 <= i < n ==> front[i] == fs[i];
    if DetectionsApart(fs, m) {
      forall p | p in DetectedByAny(front, m) ensures p !in Detected(fs[n], m) {
        DetectedByAnyMembers(front, m, p);
        var i :| 0 <= i < n && p in Detected(front[i], m);
        assert Detected(fs[i], m) !! Detected(fs[n], m);
      }
    }
    if DetectionsApart(front, m) && DetectedByAny(front, m) !! Detected(fs[n], m) {
      forall i, j | 0 <= i < j < |fs| ensures Detected(fs[i], m) !! Detected(fs[j], m) {
        if j < n {
          assert Detected(front[i], m) !! Detected(front[j], m);
        } else {
          forall p | p in Detected(fs[i], m) ensures p in DetectedByAny(front, m) {
            DetectedByAnyMembers(front, m, p);
            assert p in Detected(front[i], m);
          }
        }
      }
    }
  }

  /** Two turns that detect one file: it is staged twice, and counted twice. */
  lemma ForgetfulCanRepeat()
    ensures var act := Activation("r", ["f"], None);
      var fs := [Firing(0, "thinking", [act], {"f"}), Firing(1, "thinking", [act], {"f"})];
      && !PairwiseDisjoint(HintFiles(ForgetfulHints(fs, []))) && !DetectionsApart(fs, [])
      && AllFiles(ForgetfulHints(fs, [])) == {"f"} && FileCount(ForgetfulHints(fs, [])) == 2
  {
    var act := Activation("r", ["f"], None);
    var a, b := Firing(0, "thinking", [act], {"f"}), Firing(1, "thinking", [act], {"f"});
    var fs := [a, b];
    OneFile(act, a);
    OneFile(act, b);
    TwoFirings(a, b, []);
    ForgetfulRepeatsIff(fs, []);
    ForgetfulFiles(fs, []);
    hide Detected, DetectedByAny, HintsOf, ForgetfulHints, AllFiles, HintFiles, PairwiseDisjoint, FileCount;
    assert "f" in Detected(fs[0], []) * Detected(fs[1], []);
    FileCountAppend(HintsOf(BatchOf(a, []), {}, Dsb, 0, "thinking"), HintsOf(BatchOf(b, []), {}, Dsb, 1, "thinking"));
  }

  lemma TwoFirings(a: Firing, b: Firing, m: seq<Mapping>)
    ensures DetectedByAny([a, b], m) == Detected(a, m) + Detected(b, m)
    ensures ForgetfulHints([a, b], m) == HintsOf(BatchOf(a, m), {}, Dsb, a.turn, a.source)
                                       + HintsOf(BatchOf(b, m), {}, Dsb, b.turn, b.source)
  {
    hide Detected, HintsOf;
    var fs := [a, b];
    assert fs[..1] == [a] && [a][..0] == [];
    assert DetectedByAny([], m) == {} && DetectedByAny([a], m) == Detected(a, m);
    assert ForgetfulHints([], m) == [];
    assert ForgetfulHints([a], m) == HintsOf(BatchOf(a, m), {}, Dsb, a.turn, a.source);
  }

  lemma OneFile(act: Activation, f: Firing)
    requires act.detected == ["f"] && f.acts == [act] && f.present == {"f"}
    ensures Detected(f, []) == {"f"} && FileCount(HintsOf(BatchOf(f, []), {}, Dsb, f.turn, f.source)) == 1
  {
    assert ResolveLogical("f", []) == "f" && Resolved(["f"], []) == ["f"];
    forall p ensures p in Detected(f, []) <==> p == "f" {
      DetectedMembers(f, [], p);
    }
    assert Detected(f, []) == {"f"};
    MoreCovers(f, []);
    HintsOnceIff(f, [], {});
    hide Detected, HintsOf, AllFiles;
    DistinctTotal(HintsOf(BatchOf(f, []), {}, Dsb, f.turn, f.source));
  }
}
