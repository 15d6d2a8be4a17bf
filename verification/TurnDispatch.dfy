/** One turn's staging, live and replayed.  The live runner of aiob_multiturn.py hands all
    activations of a turn to one dispatch call; replay_session.py makes one call per
    block, each of which forgets what the calls before it staged. */
module TurnDispatch {
  import opened Common
  import opened Paths
  import opened Dispatch
  import opened DsbSession
  import opened Trajectory
  import opened Replay

  /** The activations of a turn, block after block. */
  function Flat(blocks: seq<seq<Activation>>): seq<Activation> {
    if blocks == [] then [] else Flat(blocks[..|blocks| - 1]) + blocks[|blocks| - 1]
  }

  function AllTakes(b: Batch, acts: seq<Activation>, seen: set<string>): seq<seq<string>> {
    Takes(With(b, acts), |acts|, seen)
  }

  /** The files of the hints of one call per block. */
  function PerBlock(blocks: seq<seq<Activation>>, b: Batch): seq<seq<string>> {
    if blocks == [] then []
    else PerBlock(blocks[..|blocks| - 1], b) + NonEmpty(AllTakes(b, blocks[|blocks| - 1], {}))
  }

  lemma {:induction false} NonEmptyAppend(a: seq<seq<string>>, c: seq<seq<string>>)
    ensures NonEmpty(a + c) == NonEmpty(a) + NonEmpty(c)
    decreases |c|
  {
    if c == [] {
      assert a + c == a;
    } else {
      NonEmptyAppend(a, c[..|c| - 1]);
      assert (a + c)[..|a + c| - 1] == a + c[..|c| - 1];
    }
  }

  lemma {:induction false} TakesOfFront(b: Batch, a: seq<Activation>, c: seq<Activation>, n: nat, seen: set<string>)
    requires n <= |a|
    ensures Takes(With(b, a + c), n, seen) == Takes(With(b, a), n, seen)
  {
    hide Take, Covered;
    if n > 0 {
      TakesOfFront(b, a, c, n - 1, seen);
      SameTake(b, a + c, a, a[n - 1], seen + Covered(Takes(With(b, a), n - 1, seen)));
    }
  }

  /** What one activation takes depends on the other activations through `seen` alone. */
  lemma SameTake(b: Batch, a: seq<Activation>, c: seq<Activation>, act: Activation, seen: set<string>)
    ensures Take(act, With(b, a), seen) == Take(act, With(b, c), seen)
  {
  }

  /** A batch cut in two: the second part sees what the first has taken. */
  lemma {:induction false} TakesAppend(b: Batch, a: seq<Activation>, c: seq<Activation>, n: nat)
    requires n <= |c|
    ensures Takes(With(b, a + c), |a| + n, {})
         == AllTakes(b, a, {}) + Takes(With(b, c), n, Covered(AllTakes(b, a, {})))
  {
    hide Take, Covered;
    var front := AllTakes(b, a, {});
    if n == 0 {
      TakesOfFront(b, a, c, |a|, {});
    } else {
      TakesAppend(b, a, c, n - 1);
      var rest := Takes(With(b, c), n - 1, Covered(front));
      CoveredAppend(front, rest);
      SameTake(b, a + c, c, c[n - 1], Covered(front) + Covered(rest));
      assert (a + c)[|a| + n - 1] == c[n - 1];
      assert {} + Covered(front + rest) == Covered(front) + Covered(rest);
    }
  }

  // Files that nobody would have taken can be hidden without effect.

  lemma {:induction false} FreshKeepsFront(files: seq<string>, check: Check, seen: set<string>, hidden: set<string>,
                                           n: nat)
    requires n <= |Fresh(files, check, seen)| && forall p :: p in Fresh(files, check, seen)[..n] ==> p !in hidden
    ensures n <= |Fresh(files, check, hidden + seen)| <= |Fresh(files, check, seen)|
    ensures Fresh(files, check, hidden + seen)[..n] == Fresh(files, check, seen)[..n]
  {
    if files != [] {
      var unseen := Dispatchable(files[0], check) && files[0] !in seen;
      var rest := Fresh(files[1..], check, seen);
      if unseen && n > 0 {
        assert ([files[0]] + rest)[..n] == [files[0]] + rest[..n - 1];
        FreshKeepsFront(files[1..], check, seen, hidden, n - 1);
        var rest' := Fresh(files[1..], check, hidden + seen);
        assert ([files[0]] + rest')[..n] == [files[0]] + rest'[..n - 1];
      } else {
        FreshKeepsFront(files[1..], check, seen, hidden, n);
      }
    }
  }

  lemma TakeIgnores(act: Activation, b: Batch, seen: set<string>, hidden: set<string>)
    requires forall p :: p in Take(act, b, seen) ==> p !in hidden
    ensures Take(act, b, hidden + seen) == Take(act, b, seen)
  {
    hide Fresh, Resolved;
    var n := |Take(act, b, seen)|;
    var unseen := Fresh(FilesOf(act, b), b.check, seen);
    assert Take(act, b, seen) == unseen[..n];
    FreshKeepsFront(FilesOf(act, b), b.check, seen, hidden, n);
  }

  lemma {:induction false} TakesIgnore(b: Batch, n: nat, hidden: set<string>)
    requires n <= |b.acts| && Covered(Takes(b, n, {})) !! hidden
    ensures Takes(b, n, hidden) == Takes(b, n, {})
  {
    hide Take;
    if n > 0 {
      var before, act := Takes(b, n - 1, {}), b.acts[n - 1];
      CoveredSnoc(before, Take(act, b, {} + Covered(before)));
      assert {} + Covered(before) == Covered(before);
      TakesIgnore(b, n - 1, hidden);
      TakeIgnores(act, b, Covered(before), hidden);
    }
  }

  // What a shorter memory takes, a longer one has taken or takes as well.

  lemma {:induction false} FreshFront(files: seq<string>, check: Check, seen: set<string>, more: set<string>, n: nat,
                                      p: string)
    requires seen <= more && n <= |Fresh(files, check, seen)|
    requires p in Fresh(files, check, seen)[..n] && p !in more
    ensures p in Front(Fresh(files, check, more), n)
  {
    hide Dispatchable, Front;
    if files != [] {
      var first, rest := files[0], files[1..];
      var before, after := Fresh(rest, check, seen), Fresh(rest, check, more);
      if Dispatchable(first, check) && first !in seen {
        assert ([first] + before)[..n] == [first] + before[..n - 1];
        if p != first {
          FreshFront(rest, check, seen, more, n - 1, p);
        }
        FrontCons(first, after, n - 1, p);
      } else {
        FreshFront(rest, check, seen, more, n, p);
      }
    }
  }

  function Front(xs: seq<string>, n: nat): seq<string> {
    if n < |xs| then xs[..n] else xs
  }

  lemma FrontCons(x: string, xs: seq<string>, n: nat, p: string)
    ensures Front([x] + xs, n + 1) == [x] + Front(xs, n)
    ensures p in Front(xs, n) ==> p in Front(xs, n + 1)
  {
    if n < |xs| {
      assert ([x] + xs)[..n + 1] == [x] + xs[..n];
      assert xs[..n] <= Front(xs, n + 1);
    }
  }

  lemma TakeKept(act: Activation, b: Batch, seen: set<string>, more: set<string>, p: string)
    requires seen <= more && p in Take(act, b, seen) && p !in more
    ensures p in Take(act, b, more)
  {
    hide Fresh, Resolved;
    var n := |Take(act, b, seen)|;
    var unseen := Fresh(FilesOf(act, b), b.check, seen);
    assert Take(act, b, seen) == unseen[..n];
    FreshFront(FilesOf(act, b), b.check, seen, more, n, p);
    var unseen' := Fresh(FilesOf(act, b), b.check, more);
    assert Front(unseen', n) <= Take(act, b, more);
  }

  lemma {:induction false} TakesWithin(b: Batch, n: nat, hidden: set<string>)
    requires n <= |b.acts|
    ensures Covered(Takes(b, n, {})) <= hidden + Covered(Takes(b, n, hidden))
  {
    hide Take;
    if n > 0 {
      TakesWithin(b, n - 1, hidden);
      var act, short, long := b.acts[n - 1], Takes(b, n - 1, {}), Takes(b, n - 1, hidden);
      var t, t' := Take(act, b, {} + Covered(short)), Take(act, b, hidden + Covered(long));
      CoveredSnoc(short, t);
      CoveredSnoc(long, t');
      forall p | p in t && p !in hidden + Covered(long) ensures p in t' {
        TakeKept(act, b, {} + Covered(short), hidden + Covered(long), p);
      }
    }
  }

  lemma {:induction false} PerBlockWithin(blocks: seq<seq<Activation>>, b: Batch)
    ensures Covered(PerBlock(blocks, b)) <= Covered(AllTakes(b, Flat(blocks), {}))
    decreases |blocks|
  {
    hide Takes, NonEmpty, Covered;
    if blocks == [] {
      NothingTaken(b);
    } else {
      var front, last := blocks[..|blocks| - 1], blocks[|blocks| - 1];
      var own, before := AllTakes(b, last, {}), AllTakes(b, Flat(front), {});
      PerBlockWithin(front, b);
      CoveredAppend(PerBlock(front, b), NonEmpty(own));
      CoveredNonEmpty(own);
      TakesAppend(b, Flat(front), last, |last|);
      CoveredAppend(before, Takes(With(b, last), |last|, Covered(before)));
      TakesWithin(With(b, last), |last|, Covered(before));
    }
  }

  // One call against one call per block.

  lemma {:induction false} DisjointBlocksAgree(blocks: seq<seq<Activation>>, b: Batch)
    requires PairwiseDisjoint(PerBlock(blocks, b))
    ensures NonEmpty(AllTakes(b, Flat(blocks), {})) == PerBlock(blocks, b)
    decreases |blocks|
  {
    hide Takes, NonEmpty, Covered, PairwiseDisjoint;
    if blocks == [] {
      NothingTaken(b);
    } else {
      var front, last := blocks[..|blocks| - 1], blocks[|blocks| - 1];
      var own := AllTakes(b, last, {});
      SplitDisjoint(PerBlock(front, b), NonEmpty(own));
      DisjointBlocksAgree(front, b);
      var before := AllTakes(b, Flat(front), {});
      CoveredNonEmpty(before);
      CoveredNonEmpty(own);
      TakesAppend(b, Flat(front), last, |last|);
      TakesIgnore(With(b, last), |last|, Covered(before));
      NonEmptyAppend(before, own);
    }
  }

  lemma NothingTaken(b: Batch)
    ensures NonEmpty(AllTakes(b, [], {})) == [] && Covered([]) == {}
  {
  }

  lemma {:induction false} StreamFiles(turn: Turn, run: TurnRun, cfg: Config, n: nat)
    requires n <= |run.blockActs|
    ensures HintFiles(StreamHints(turn, run, cfg, n)) == PerBlock(run.blockActs[..n], BatchFor([], cfg))
  {
    hide HintsOf, HintFiles, Takes, NonEmpty;
    if n == 0 {
      assert HintFiles([]) == [];
    } else {
      StreamFiles(turn, run, cfg, n - 1);
      assert run.blockActs[..n][..n - 1] == run.blockActs[..n - 1];
      var b := BatchFor(run.blockActs[n - 1], cfg);
      HintsAreGood(b, {}, ReplayMirror, turn.turn, "thinking");
      HintFilesAppend(StreamHints(turn, run, cfg, n - 1), HintsOf(b, {}, ReplayMirror, turn.turn, "thinking"));
    }
  }

  /** The hints of the live runner for the activations of a replayed turn. */
  function LiveHints(turn: Turn, run: TurnRun, cfg: Config): seq<Hint> {
    HintsOf(BatchFor(Flat(run.blockActs), cfg), {}, Aiob, turn.turn, "thinking")
  }

  function ReplayedHints(turn: Turn, run: TurnRun, cfg: Config): seq<Hint> {
    StreamHints(turn, run, cfg, |run.blockActs|)
  }

  // Two blocks interfere through the files that each would stage alone.

  /** What one call for these activations alone, with an empty memory, stages. */
  function TakenAlone(acts: seq<Activation>, b: Batch): set<string> {
    Covered(AllTakes(b, acts, {}))
  }

  /** No two blocks, each dispatched alone, stage a common file. */
  ghost predicate BlocksTakeApart(blocks: seq<seq<Activation>>, b: Batch) {
    forall i, j :: 0 <= i < j < |blocks| ==> TakenAlone(blocks[i], b) !! TakenAlone(blocks[j], b)
  }

  lemma {:induction false} PerBlockMembers(blocks: seq<seq<Activation>>, b: Batch, p: string)
    ensures p in Covered(PerBlock(blocks, b)) <==> exists i :: 0 <= i < |blocks| && p in TakenAlone(blocks[i], b)
    decreases |blocks|
  {
    hide Covered, AllTakes, NonEmpty;
    if blocks == [] {
      NothingTaken(b);
    } else {
      var n := |blocks| - 1;
      var own := AllTakes(b, blocks[n], {});
      PerBlockMembers(blocks[..n], b, p);
      CoveredAppend(PerBlock(blocks[..n], b), NonEmpty(own));
      CoveredNonEmpty(own);
      assert forall i :: 0 <= i < n ==> blocks[..n][i] == blocks[i];
    }
  }

  lemma TakeApartFront(blocks: seq<seq<Activation>>, b: Batch)
    requires blocks != []
    ensures var n := |blocks| - 1;
      BlocksTakeApart(blocks, b) <==>
        BlocksTakeApart(blocks[..n], b) && Covered(PerBlock(blocks[..n], b)) !! TakenAlone(blocks[n], b)
  {
    hide TakenAlone, Covered, PerBlock;
    var n := |blocks| - 1;
    var front := blocks[..n];
    assert forall i :: 0 <= i < n ==> front[i] == blocks[i];
    if BlocksTakeApart(blocks, b) {
      forall p | p in Covered(PerBlock(front, b)) ensures p !in TakenAlone(blocks[n], b) {
        PerBlockMembers(front, b, p);
        var i :| 0 <= i < n && p in TakenAlone(front[i], b);
        assert TakenAlone(blocks[i], b) !! TakenAlone(blocks[n], b);
      }
    }
    if BlocksTakeApart(front, b) && Covered(PerBlock(front, b)) !! TakenAlone(blocks[n], b) {
      forall i, j | 0 <= i < j < |blocks| ensures TakenAlone(blocks[i], b) !! TakenAlone(blocks[j], b) {
        if j < n {
          assert TakenAlone(front[i], b) !! TakenAlone(front[j], b);
        } else {
          forall p | p in TakenAlone(blocks[i], b) ensures p in Covered(PerBlock(front, b)) {
            PerBlockMembers(front, b, p);
            assert p in TakenAlone(front[i], b);
          }
        }
      }
    }
  }

  lemma {:induction false} PerBlockDisjointIff(blocks: seq<seq<Activation>>, b: Batch)
    ensures PairwiseDisjoint(PerBlock(blocks, b)) <==> BlocksTakeApart(blocks, b)
    decreases |blocks|
  {
    if blocks != [] {
      var front, last := blocks[..|blocks| - 1], blocks[|blocks| - 1];
      var own := AllTakes(b, last, {});
      PerBlockDisjointIff(front, b);
      TakeApartFront(blocks, b);
      HintsAreGood(With(b, last), {}, Aiob, 0, "thinking");
      hide PairwiseDisjoint, Covered, NonEmpty, Takes, BlocksTakeApart;
      CoveredNonEmpty(own);
      if PairwiseDisjoint(PerBlock(blocks, b)) {
        SplitDisjoint(PerBlock(front, b), NonEmpty(own));
      } else if BlocksTakeApart(blocks, b) {
        DisjointAppend(PerBlock(front, b), NonEmpty(own));
      }
    }
  }

  /** Whatever the cap, a replayed turn's stream stages no file that the live runner leaves
      out.  It stages exactly its file lists if and only if it stages no file twice, that
      is, if and only if no two blocks, each dispatched alone, stage a common file. */
  lemma TurnStagesTheSameIff(turn: Turn, run: TurnRun, cfg: Config)
    ensures AllFiles(ReplayedHints(turn, run, cfg)) <= AllFiles(LiveHints(turn, run, cfg))
    ensures HintFiles(ReplayedHints(turn, run, cfg)) == HintFiles(LiveHints(turn, run, cfg))
       <==> BlocksTakeApart(run.blockActs, BatchFor([], cfg))
    ensures PairwiseDisjoint(HintFiles(ReplayedHints(turn, run, cfg)))
       <==> BlocksTakeApart(run.blockActs, BatchFor([], cfg))
  {
    hide StreamHints, HintsOf, HintFiles, Takes, NonEmpty, PairwiseDisjoint, Covered, BlocksTakeApart;
    var b := BatchFor([], cfg);
    PerBlockWithin(run.blockActs, b);
    PerBlockDisjointIff(run.blockActs, b);
    CoveredNonEmpty(AllTakes(b, Flat(run.blockActs), {}));
    StreamFiles(turn, run, cfg, |run.blockActs|);
    assert run.blockActs[..|run.blockActs|] == run.blockActs;
    HintsAreGood(BatchFor(Flat(run.blockActs), cfg), {}, Aiob, turn.turn, "thinking");
    if PairwiseDisjoint(PerBlock(run.blockActs, b)) {
      DisjointBlocksAgree(run.blockActs, b);
    }
  }

  // Where the cap cuts nothing, the detections decide.

  function FoundIn(acts: seq<Activation>, b: Batch): set<string> {
    Found(acts, |acts|, b)
  }

  ghost predicate AllUncut(blocks: seq<seq<Activation>>, b: Batch) {
    forall i :: 0 <= i < |blocks| ==> NotCut(blocks[i], b)
  }

  /** No two blocks detect a common file that may be dispatched. */
  ghost predicate BlocksApart(blocks: seq<seq<Activation>>, b: Batch) {
    forall i, j :: 0 <= i < j < |blocks| ==> FoundIn(blocks[i], b) !! FoundIn(blocks[j], b)
  }

  lemma UncutTakesFound(b: Batch, acts: seq<Activation>)
    requires NotCut(acts, b)
    ensures TakenAlone(acts, b) == FoundIn(acts, b)
  {
    TakesAllFound(b, acts, |acts|, {});
  }

  lemma UncutApartIff(blocks: seq<seq<Activation>>, b: Batch)
    requires AllUncut(blocks, b)
    ensures BlocksTakeApart(blocks, b) <==> BlocksApart(blocks, b)
  {
    hide TakenAlone, FoundIn;
    forall i | 0 <= i < |blocks| ensures TakenAlone(blocks[i], b) == FoundIn(blocks[i], b) {
      assert NotCut(blocks[i], b);
      UncutTakesFound(b, blocks[i]);
    }
  }

  lemma {:induction false} FlatFound(blocks: seq<seq<Activation>>, b: Batch)
    requires AllUncut(blocks, b)
    ensures NotCut(Flat(blocks), b) && FoundIn(Flat(blocks), b) == Covered(PerBlock(blocks, b))
    decreases |blocks|
  {
    hide Fresh, Elements, Covered, NonEmpty, Takes;
    if blocks == [] {
      NothingTaken(b);
    } else {
      var front, last := blocks[..|blocks| - 1], blocks[|blocks| - 1];
      var own := AllTakes(b, last, {});
      assert NotCut(last, b);
      FlatFound(front, b);
      FoundAppend(Flat(front), last, |last|, b);
      CoveredAppend(PerBlock(front, b), NonEmpty(own));
      CoveredNonEmpty(own);
      UncutTakesFound(b, last);
    }
  }

  lemma {:induction false} FoundAppend(a: seq<Activation>, c: seq<Activation>, n: nat, b: Batch)
    requires n <= |c|
    ensures Found(a + c, |a| + n, b) == Found(a, |a|, b) + Found(c, n, b)
  {
    hide Fresh, Elements;
    if n == 0 {
      FoundFront(a, c, |a|, b);
    } else {
      FoundAppend(a, c, n - 1, b);
      assert (a + c)[|a| + n - 1] == c[n - 1];
    }
  }

  lemma {:induction false} FoundFront(a: seq<Activation>, c: seq<Activation>, n: nat, b: Batch)
    requires n <= |a|
    ensures Found(a + c, n, b) == Found(a, n, b)
  {
    hide Fresh, Elements;
    if n > 0 {
      FoundFront(a, c, n - 1, b);
    }
  }

  /** Where no list is longer than the cap, replaying block by block always stages the live
      runner's files, and stages them in the same lists if and only if no two blocks of
      the turn detect a common file. */
  lemma UncutTurnIff(turn: Turn, run: TurnRun, cfg: Config)
    requires AllUncut(run.blockActs, BatchFor([], cfg))
    ensures AllFiles(ReplayedHints(turn, run, cfg)) == AllFiles(LiveHints(turn, run, cfg))
    ensures HintFiles(ReplayedHints(turn, run, cfg)) == HintFiles(LiveHints(turn, run, cfg))
       <==> BlocksApart(run.blockActs, BatchFor([], cfg))
  {
    hide StreamHints, HintsOf, HintFiles, Takes, NonEmpty, PairwiseDisjoint, Covered, PerBlock, Found, BlocksApart,
         BlocksTakeApart;
    var b := BatchFor([], cfg);
    TurnStagesTheSameIff(turn, run, cfg);
    StreamFiles(turn, run, cfg, |run.blockActs|);
    assert run.blockActs[..|run.blockActs|] == run.blockActs;
    UncutApartIff(run.blockActs, b);
    FlatFound(run.blockActs, b);
    UncutTakesFound(b, Flat(run.blockActs));
    CoveredNonEmpty(AllTakes(b, Flat(run.blockActs), {}));
    HintsAreGood(BatchFor(Flat(run.blockActs), cfg), {}, Aiob, turn.turn, "thinking");
  }

  /** Two blocks that name one file: the replayed turn stages it twice. */
  lemma TurnCanDiffer(turn: Turn, cfg: Config)
    requires cfg.check.SkipCheck? && cfg.bucketCap > 0
    ensures var act := Activation("r", ["f"], None);
      var run := TurnRun([[act], [act]], [0.0, 0.0], [], [], 0.0);
      && HintFiles(ReplayedHints(turn, run, cfg)) != HintFiles(LiveHints(turn, run, cfg))
      && AllFiles(ReplayedHints(turn, run, cfg)) == AllFiles(LiveHints(turn, run, cfg))
  {
    var act := Activation("r", ["f"], None);
    var run := TurnRun([[act], [act]], [0.0, 0.0], [], [], 0.0);
    var b, p := BatchFor([], cfg), ResolveLogical("f", cfg.prefixMap);
    assert Resolved(["f"], cfg.prefixMap) == [p];
    assert Found([act], 0, b) == {} && p in Fresh(FilesOf(act, b), b.check, {});
    assert p in FoundIn(run.blockActs[0], b) && p in FoundIn(run.blockActs[1], b);
    hide FoundIn;
    assert !BlocksApart(run.blockActs, b) by {
      assert p in FoundIn(run.blockActs[0], b) * FoundIn(run.blockActs[1], b);
    }
    UncutTurnIff(turn, run, cfg);
  }

  /** Under a cap of one, a block that names an old file first spends its share on it: the
      replayed turn leaves out a file that the live runner stages. */
  lemma CappedTurnStagesLess(turn: Turn, cfg: Config)
    requires cfg.check.SkipCheck? && cfg.bucketCap == 1 && cfg.prefixMap == []
    ensures var run := TurnRun([[Activation("r", ["a"], None)], [Activation("s", ["a", "b"], None)]],
                               [0.0, 0.0], [], [], 0.0);
      && "b" in AllFiles(LiveHints(turn, run, cfg)) && "b" !in AllFiles(ReplayedHints(turn, run, cfg))
  {
    var r, s := Activation("r", ["a"], None), Activation("s", ["a", "b"], None);
    var run := TurnRun([[r], [s]], [0.0, 0.0], [], [], 0.0);
    CappedReplay(turn, run, cfg, r, s);
    CappedLive(turn, run, cfg, r, s);
    hide *;
  }

  lemma {:induction false} CappedReplay(turn: Turn, run: TurnRun, cfg: Config, r: Activation, s: Activation)
    requires cfg.check.SkipCheck? && cfg.bucketCap == 1 && cfg.prefixMap == []
    requires r.detected == ["a"] && s.detected == ["a", "b"] && run.blockActs == [[r], [s]]
    ensures AllFiles(ReplayedHints(turn, run, cfg)) == {"a"}
  {
    hide PerBlock, Covered, StreamHints, HintFiles;
    TwoBlocks(BatchFor([], cfg), r, s);
    CoveredOfTwo("a", "a");
    StreamFiles(turn, run, cfg, 2);
    assert run.blockActs[..2] == run.blockActs;
  }

  lemma {:induction false} CappedLive(turn: Turn, run: TurnRun, cfg: Config, r: Activation, s: Activation)
    requires cfg.check.SkipCheck? && cfg.bucketCap == 1 && cfg.prefixMap == []
    requires r.detected == ["a"] && s.detected == ["a", "b"] && run.blockActs == [[r], [s]]
    ensures AllFiles(LiveHints(turn, run, cfg)) == {"a", "b"}
  {
    TwoBlocks(BatchFor([], cfg), r, s);
    LiveTakes(BatchFor([], cfg), r, s);
    CoveredOfTwo("a", "b");
    CoveredNonEmpty([["a"], ["b"]]);
    HintsAreGood(BatchFor([r, s], cfg), {}, Aiob, turn.turn, "thinking");
    hide Takes, HintsOf, HintFiles, PerBlock, Flat, Covered, NonEmpty;
  }

  lemma CoveredOfTwo(p: string, q: string)
    ensures Covered([[p], [q]]) == {p, q}
  {
    assert Covered([]) == {} && [[p]][..0] == [] && [[p], [q]][..1] == [[p]];
    assert Elements([p]) == {p} && Elements([q]) == {q};
    assert Covered([[p]]) == {p};
  }

  lemma {:induction false} TwoBlocks(b: Batch, r: Activation, s: Activation)
    requires b.check.SkipCheck? && b.cap == Some(1) && b.prefixMap == []
    requires r.detected == ["a"] && s.detected == ["a", "b"]
    ensures PerBlock([[r], [s]], b) == [["a"], ["a"]] && Flat([[r], [s]]) == [r, s]
  {
    OneTake(b, r, "a");
    OneTake(b, s, "a");
    PairOfBlocks([r], [s], b);
    hide *;
    assert [["a"]] + [["a"]] == [["a"], ["a"]] && [r] + [s] == [r, s];
  }

  lemma {:induction false} PairOfBlocks(x: seq<Activation>, y: seq<Activation>, b: Batch)
    ensures PerBlock([x, y], b) == NonEmpty(AllTakes(b, x, {})) + NonEmpty(AllTakes(b, y, {}))
    ensures Flat([x, y]) == x + y
  {
    hide NonEmpty, AllTakes;
    assert [x, y][..1] == [x] && [x][..0] == [];
    assert PerBlock([], b) == [] && Flat([]) == [];
    assert PerBlock([x], b) == NonEmpty(AllTakes(b, x, {})) && Flat([x]) == x;
  }

  lemma {:induction false} OneTake(b: Batch, act: Activation, p: string)
    requires b.check.SkipCheck? && b.cap == Some(1) && b.prefixMap == []
    requires act.detected != [] && act.detected[0] == p
    ensures AllTakes(b, [act], {}) == [[p]] && NonEmpty(AllTakes(b, [act], {})) == [[p]]
  {
    var files := Resolved(act.detected, []);
    assert files[0] == p && Fresh(files, b.check, {})[0] == p;
    assert Takes(With(b, [act]), 0, {}) == [] && {} + Covered([]) == {};
    assert Take(act, With(b, [act]), {}) == [p];
    assert [[p]][..0] == [];
  }

  lemma {:induction false} LiveTakes(b: Batch, r: Activation, s: Activation)
    requires b.check.SkipCheck? && b.cap == Some(1) && b.prefixMap == []
    requires r.detected == ["a"] && s.detected == ["a", "b"]
    ensures AllTakes(b, [r, s], {}) == [["a"], ["b"]]
  {
    OneTake(b, r, "a");
    TakesAppend(b, [r], [s], 1);
    assert [r] + [s] == [r, s];
    assert [["a"]][..0] == [] && Covered([["a"]]) == {"a"};
    assert Takes(With(b, [s]), 0, {"a"}) == [] && {"a"} + Covered([]) == {"a"};
    var files := Resolved(s.detected, []);
    assert files == ["a", "b"] && files[1..] == ["b"] && files[1..][1..] == [];
    assert Fresh(files[1..], b.check, {"a"}) == ["b"] && Fresh(files, b.check, {"a"}) == ["b"];
    assert Take(s, With(b, [s]), {"a"}) == ["b"];
    assert Takes(With(b, [s]), 1, {"a"}) == [["b"]];
  }
}
