/** load_trajectory of scripts/microbench/replay_session.py: rebuilding blocks from
    interleaved deltas and deriving each turn's streaming budget. */
module Trajectory {
  import opened Common
  import opened StableSort

  datatype Delta = Delta(tMs: real, block: int, text: string)
  datatype Kind = Thinking | Text
  datatype Block = Block(tStopMs: real, kind: Kind, text: string, blockId: int)

  function DeltaTime(d: Delta): real { d.tMs }

  function BlockStop(b: Block): real { b.tStopMs }

  /** The deltas logged for one block id, in file order. */
  function OfBlock(log: seq<Delta>, id: int): seq<Delta> {
    if log == [] then []
    else if log[|log| - 1].block == id then OfBlock(log[..|log| - 1], id) + [log[|log| - 1]]
    else OfBlock(log[..|log| - 1], id)
  }

  function Joined(ds: seq<Delta>): string {
    if ds == [] then "" else Joined(ds[..|ds| - 1]) + ds[|ds| - 1].text
  }

  /** A dictionary from block id to its deltas, with Python's insertion order. */
  datatype Groups = Groups(order: seq<int>, deltas: map<int, seq<Delta>>)

  /** target[d["block"]].append(d) on a defaultdict(list). */
  function Append(g: Groups, d: Delta): Groups {
    if d.block in g.deltas
    then Groups(g.order, g.deltas[d.block := g.deltas[d.block] + [d]])
    else Groups(g.order + [d.block], g.deltas[d.block := [d]])
  }

  /** The dictionary holds exactly the logged deltas, each under its own id. */
  ghost predicate Grouped(g: Groups, log: seq<Delta>) {
    && NoRepeats(g.order)
    && (forall id :: id in g.order <==> id in g.deltas)
    && (forall id :: id in g.deltas <==> exists d :: d in log && d.block == id)
    && (forall id :: id in g.deltas ==> g.deltas[id] == OfBlock(log, id))
  }

  lemma OfBlockAbsent(log: seq<Delta>, id: int)
    requires forall d :: d in log ==> d.block != id
    ensures OfBlock(log, id) == []
  {
  }

  lemma OfBlockMembers(log: seq<Delta>, id: int)
    ensures forall d :: d in OfBlock(log, id) <==> d in log && d.block == id
  {
    if log != [] {
      OfBlockMembers(log[..|log| - 1], id);
      assert log == log[..|log| - 1] + [log[|log| - 1]];
    }
  }

  lemma OfBlockNonEmpty(log: seq<Delta>, d: Delta)
    requires d in log
    ensures OfBlock(log, d.block) != []
  {
    OfBlockMembers(log, d.block);
    assert d in OfBlock(log, d.block);
  }

  lemma AppendGrouped(g: Groups, log: seq<Delta>, d: Delta)
    requires Grouped(g, log)
    ensures Grouped(Append(g, d), log + [d])
  {
    var g', log' := Append(g, d), log + [d];
    assert log'[..|log|] == log;
    forall id ensures id in g'.deltas <==> exists e :: e in log' && e.block == id {
      if id == d.block {
        assert d in log';
      } else if id in g.deltas {
        var e :| e in log && e.block == id;
        assert e in log';
      }
    }
    forall id | id in g'.deltas ensures g'.deltas[id] == OfBlock(log', id) {
      if id == d.block && id !in g.deltas {
        forall e | e in log ensures e.block != id { }
        OfBlockAbsent(log, id);
      }
    }
  }

  lemma GroupedNone()
    ensures Grouped(Groups([], map[]), []) && FirstSeen([]) == []
  {
  }

  /** The block ids of a log in the order of their first deltas. */
  function FirstSeen(log: seq<Delta>): (ids: seq<int>)
    ensures forall id :: id in ids ==> OfBlock(log, id) != []
  {
    if log == [] then []
    else
      var earlier, id := FirstSeen(log[..|log| - 1]), log[|log| - 1].block;
      if id in earlier then earlier else earlier + [id]
  }

  lemma FirstSeenSnoc(log: seq<Delta>, d: Delta)
    ensures FirstSeen(log + [d]) == if d.block in FirstSeen(log) then FirstSeen(log) else FirstSeen(log) + [d.block]
  {
    assert (log + [d])[..|log|] == log;
  }

  lemma AppendOrder(g: Groups, log: seq<Delta>, d: Delta)
    requires Grouped(g, log)
    ensures Append(g, d).order == if d.block in g.order then g.order else g.order + [d.block]
  {
  }

  /** Grouping one log file. */
  method GroupLog(log: seq<Delta>) returns (g: Groups)
    ensures Grouped(g, log) && g.order == FirstSeen(log)
  {
    hide Grouped, Append, FirstSeen, OfBlock;
    g := Groups([], map[]);
    GroupedNone();
    assert log[..0] == [];
    for i := 0 to |log|
      invariant Grouped(g, log[..i]) && g.order == FirstSeen(log[..i])
    {
      AppendGrouped(g, log[..i], log[i]);
      AppendOrder(g, log[..i], log[i]);
      FirstSeenSnoc(log[..i], log[i]);
      assert log[..i] + [log[i]] == log[..i + 1];
      g := Append(g, log[i]);
    }
    assert log[..|log|] == log;
  }

  /** The block an id's deltas become: sorted by time, stopped at the last one. */
  function Rebuilt(kind: Kind, log: seq<Delta>, id: int): Block
    requires OfBlock(log, id) != []
  {
    SortedFacts(OfBlock(log, id), DeltaTime);
    var ds := Sorted(OfBlock(log, id), DeltaTime);
    Block(ds[|ds| - 1].tMs, kind, Joined(ds), id)
  }

  /** blocks is one rebuilt block per id of the log, in the order of ids. */
  ghost predicate RebuiltIn(blocks: seq<Block>, kind: Kind, log: seq<Delta>, ids: seq<int>) {
    && |blocks| == |ids|
    && forall i :: 0 <= i < |ids| ==>
         OfBlock(log, ids[i]) != [] && blocks[i] == Rebuilt(kind, log, ids[i])
  }

  lemma OneMoreBlock(blocks: seq<Block>, kind: Kind, log: seq<Delta>, ids: seq<int>, id: int, ds: seq<Delta>)
    requires RebuiltIn(blocks, kind, log, ids)
    requires OfBlock(log, id) != [] && ds == Sorted(OfBlock(log, id), DeltaTime) && ds != []
    ensures RebuiltIn(blocks + [Block(ds[|ds| - 1].tMs, kind, Joined(ds), id)], kind, log, ids + [id])
  {
  }

  method BlocksOf(kind: Kind, log: seq<Delta>) returns (blocks: seq<Block>, ids: seq<int>)
    ensures NoRepeats(ids) && forall id :: id in ids <==> exists d :: d in log && d.block == id
    ensures ids == FirstSeen(log) && RebuiltIn(blocks, kind, log, ids)
  {
    hide OfBlock, FirstSeen;
    var g := GroupLog(log);
    ids := g.order;
    blocks := [];
    for i := 0 to |g.order|
      invariant RebuiltIn(blocks, kind, log, g.order[..i])
    {
      var id := g.order[i];
      assert id in g.order;
      ghost var d :| d in log && d.block == id;
      OfBlockNonEmpty(log, d);
      var ds := Sorted(g.deltas[id], DeltaTime);
      SortedFacts(g.deltas[id], DeltaTime);
      OneMoreBlock(blocks, kind, log, g.order[..i], id, ds);
      assert g.order[..i + 1] == g.order[..i] + [id];
      var tStop := ds[|ds| - 1].tMs;
      blocks := blocks + [Block(tStop, kind, Joined(ds), id)];
    }
    assert g.order[..|g.order|] == g.order;
  }

  // Conservation of text.

  /** How often c occurs in a text, in a list of deltas and in a list of blocks. */
  function Occurs(c: char, text: string): nat {
    multiset(text)[c]
  }

  function DeltaChars(c: char, ds: seq<Delta>): nat {
    if ds == [] then 0 else Occurs(c, ds[0].text) + DeltaChars(c, ds[1..])
  }

  function BlockChars(c: char, bs: seq<Block>): nat {
    if bs == [] then 0 else Occurs(c, bs[0].text) + BlockChars(c, bs[1..])
  }

  lemma {:induction false} DeltaCharsAppend(c: char, a: seq<Delta>, b: seq<Delta>)
    ensures DeltaChars(c, a + b) == DeltaChars(c, a) + DeltaChars(c, b)
  {
    if a == [] {
      assert a + b == b;
    } else {
      DeltaCharsAppend(c, a[1..], b);
      assert (a + b)[1..] == a[1..] + b && (a + b)[0] == a[0];
    }
  }

  lemma {:induction false} BlockCharsAppend(c: char, a: seq<Block>, b: seq<Block>)
    ensures BlockChars(c, a + b) == BlockChars(c, a) + BlockChars(c, b)
  {
    if a == [] {
      assert a + b == b;
    } else {
      BlockCharsAppend(c, a[1..], b);
      assert (a + b)[1..] == a[1..] + b && (a + b)[0] == a[0];
    }
  }

  lemma {:induction false} JoinedChars(c: char, ds: seq<Delta>)
    ensures Occurs(c, Joined(ds)) == DeltaChars(c, ds)
    decreases |ds|
  {
    if ds != [] {
      var n := |ds| - 1;
      JoinedChars(c, ds[..n]);
      DeltaCharsAppend(c, ds[..n], [ds[n]]);
      assert ds == ds[..n] + [ds[n]];
      assert DeltaChars(c, [ds[n]]) == Occurs(c, ds[n].text);
    }
  }

  lemma {:induction false} DeltaCharsInsert(c: char, d: Delta, ds: seq<Delta>)
    ensures DeltaChars(c, Insert(d, ds, DeltaTime)) == Occurs(c, d.text) + DeltaChars(c, ds)
  {
    if ds == [] || DeltaTime(d) <= DeltaTime(ds[0]) {
      assert ([d] + ds)[1..] == ds;
    } else {
      DeltaCharsInsert(c, d, ds[1..]);
      var rest := Insert(d, ds[1..], DeltaTime);
      assert ([ds[0]] + rest)[1..] == rest;
    }
  }

  lemma {:induction false} DeltaCharsSorted(c: char, ds: seq<Delta>)
    ensures DeltaChars(c, Sorted(ds, DeltaTime)) == DeltaChars(c, ds)
  {
    if ds != [] {
      DeltaCharsSorted(c, ds[1..]);
      DeltaCharsInsert(c, ds[0], Sorted(ds[1..], DeltaTime));
    }
  }

  lemma {:induction false} BlockCharsInsert(c: char, b: Block, bs: seq<Block>)
    ensures BlockChars(c, Insert(b, bs, BlockStop)) == Occurs(c, b.text) + BlockChars(c, bs)
  {
    if bs == [] || BlockStop(b) <= BlockStop(bs[0]) {
      assert ([b] + bs)[1..] == bs;
    } else {
      BlockCharsInsert(c, b, bs[1..]);
      var rest := Insert(b, bs[1..], BlockStop);
      assert ([bs[0]] + rest)[1..] == rest;
    }
  }

  lemma {:induction false} BlockCharsSorted(c: char, bs: seq<Block>)
    ensures BlockChars(c, Sorted(bs, BlockStop)) == BlockChars(c, bs)
  {
    if bs != [] {
      BlockCharsSorted(c, bs[1..]);
      BlockCharsInsert(c, bs[0], Sorted(bs[1..], BlockStop));
    }
  }

  lemma RebuiltChars(c: char, kind: Kind, log: seq<Delta>, id: int)
    requires OfBlock(log, id) != []
    ensures Occurs(c, Rebuilt(kind, log, id).text) == DeltaChars(c, OfBlock(log, id))
  {
    SortedFacts(OfBlock(log, id), DeltaTime);
    JoinedChars(c, Sorted(OfBlock(log, id), DeltaTime));
    DeltaCharsSorted(c, OfBlock(log, id));
  }

  /** The characters logged under any of the given ids, id by id. */
  function CharsById(c: char, log: seq<Delta>, ids: seq<int>): nat {
    if ids == [] then 0 else DeltaChars(c, OfBlock(log, ids[0])) + CharsById(c, log, ids[1..])
  }

  lemma {:induction false} CharsByIdSnoc(c: char, log: seq<Delta>, d: Delta, ids: seq<int>)
    requires NoRepeats(ids)
    ensures CharsById(c, log + [d], ids)
         == CharsById(c, log, ids) + if d.block in ids then Occurs(c, d.text) else 0
  {
    if ids != [] {
      CharsByIdSnoc(c, log, d, ids[1..]);
      assert (log + [d])[..|log|] == log;
      if ids[0] == d.block {
        assert d.block !in ids[1..];
        DeltaCharsAppend(c, OfBlock(log, d.block), [d]);
        assert DeltaChars(c, [d]) == Occurs(c, d.text);
      }
    }
  }

  lemma {:induction false} CharsByIdEmpty(c: char, ids: seq<int>)
    ensures CharsById(c, [], ids) == 0
  {
    if ids != [] {
      CharsByIdEmpty(c, ids[1..]);
    }
  }

  lemma {:induction false} CharsByIdAll(c: char, log: seq<Delta>, ids: seq<int>)
    requires NoRepeats(ids) && forall d :: d in log ==> d.block in ids
    ensures CharsById(c, log, ids) == DeltaChars(c, log)
    decreases |log|
  {
    if log == [] {
      CharsByIdEmpty(c, ids);
    } else {
      var n := |log| - 1;
      CharsByIdAll(c, log[..n], ids);
      CharsByIdSnoc(c, log[..n], log[n], ids);
      DeltaCharsAppend(c, log[..n], [log[n]]);
      assert log == log[..n] + [log[n]];
      assert DeltaChars(c, [log[n]]) == Occurs(c, log[n].text);
    }
  }

  lemma {:induction false} RebuiltInChars(c: char, blocks: seq<Block>, kind: Kind, log: seq<Delta>, ids: seq<int>)
    requires RebuiltIn(blocks, kind, log, ids)
    ensures BlockChars(c, blocks) == CharsById(c, log, ids)
  {
    if ids != [] {
      RebuiltInChars(c, blocks[1..], kind, log, ids[1..]);
      RebuiltChars(c, kind, log, ids[0]);
    }
  }

  /** The replayable blocks of a turn: what a reader of the two logs may rely on.
      Every block holds exactly the deltas of its own kind and id, every logged
      delta is in one, no kind and id occurs twice, and blocks come in stop order. */
  ghost predicate BlocksOfTurn(blocks: seq<Block>, thinking: seq<Delta>, text: seq<Delta>) {
    && Ordered(blocks, BlockStop)
    && (forall b :: b in blocks ==>
          var log := LogOf(b.kind, thinking, text);
          OfBlock(log, b.blockId) != [] && b == Rebuilt(b.kind, log, b.blockId))
    && (forall d :: d in thinking ==> exists b :: b in blocks && b.kind == Thinking && b.blockId == d.block)
    && (forall d :: d in text ==> exists b :: b in blocks && b.kind == Text && b.blockId == d.block)
    && NoRepeats(blocks)
  }

  function LogOf(kind: Kind, thinking: seq<Delta>, text: seq<Delta>): seq<Delta> {
    match kind
    case Thinking => thinking
    case Text => text
  }

  lemma RebuiltDistinct(blocks: seq<Block>, kind: Kind, log: seq<Delta>, ids: seq<int>)
    requires NoRepeats(ids) && RebuiltIn(blocks, kind, log, ids)
    ensures NoRepeats(blocks)
    ensures forall b :: b in blocks ==> b.kind == kind
  {
    forall i, j | 0 <= i < j < |blocks| ensures blocks[i] != blocks[j] {
      assert blocks[i].blockId == ids[i] && blocks[j].blockId == ids[j];
    }
  }

  lemma RebuiltCovers(blocks: seq<Block>, kind: Kind, log: seq<Delta>, ids: seq<int>, d: Delta)
    requires RebuiltIn(blocks, kind, log, ids) && d.block in ids
    ensures exists b :: b in blocks && b.kind == kind && b.blockId == d.block
  {
    var i :| 0 <= i < |ids| && ids[i] == d.block;
    assert blocks[i] in blocks;
  }

  lemma TextConserved(c: char, a: seq<Block>, thinking: seq<Delta>, ids: seq<int>,
                      b: seq<Block>, text: seq<Delta>, ids': seq<int>)
    requires RebuiltIn(a, Thinking, thinking, ids) && RebuiltIn(b, Text, text, ids')
    requires NoRepeats(ids) && forall d :: d in thinking ==> d.block in ids
    requires NoRepeats(ids') && forall d :: d in text ==> d.block in ids'
    ensures BlockChars(c, Sorted(a + b, BlockStop)) == DeltaChars(c, thinking) + DeltaChars(c, text)
  {
    BlockCharsSorted(c, a + b);
    BlockCharsAppend(c, a, b);
    RebuiltInChars(c, a, Thinking, thinking, ids);
    RebuiltInChars(c, b, Text, text, ids');
    CharsByIdAll(c, thinking, ids);
    CharsByIdAll(c, text, ids');
  }

  /** The blocks of one log in the order of their first deltas. */
  function AllBlocks(kind: Kind, log: seq<Delta>): (blocks: seq<Block>)
    ensures RebuiltIn(blocks, kind, log, FirstSeen(log))
  {
    var ids := FirstSeen(log);
    seq(|ids|, k requires 0 <= k < |ids| =>
      assert ids[k] in ids;
      Rebuilt(kind, log, ids[k]))
  }

  /** The block list of a turn. */
  function TurnBlocks(thinking: seq<Delta>, text: seq<Delta>): seq<Block> {
    Sorted(AllBlocks(Thinking, thinking) + AllBlocks(Text, text), BlockStop)
  }

  lemma OnlyAllBlocks(blocks: seq<Block>, kind: Kind, log: seq<Delta>)
    requires RebuiltIn(blocks, kind, log, FirstSeen(log))
    ensures blocks == AllBlocks(kind, log)
  {
    hide AllBlocks, FirstSeen, Rebuilt;
    var all := AllBlocks(kind, log);
    assert forall i :: 0 <= i < |blocks| ==> blocks[i] == all[i];
  }

  /** Blocks that stop at the same time keep this order: thinking before text, and within
      each the one that was begun first. */
  lemma TiesInOrder(thinking: seq<Delta>, text: seq<Delta>, stop: real)
    ensures WithKey(TurnBlocks(thinking, text), BlockStop, stop)
         == WithKey(AllBlocks(Thinking, thinking), BlockStop, stop) + WithKey(AllBlocks(Text, text), BlockStop, stop)
  {
    hide AllBlocks;
    var a, b := AllBlocks(Thinking, thinking), AllBlocks(Text, text);
    SortedStable(a + b, BlockStop, stop);
    WithKeyAppend(a, b, BlockStop, stop);
  }

  /** So logs that agree block by block and begin their blocks in the same order give the
      same list of blocks, ties included. */
  lemma SameBeginningsSameList(thinking: seq<Delta>, text: seq<Delta>, thinking': seq<Delta>, text': seq<Delta>)
    requires SameBlocks(thinking, thinking') && SameBlocks(text, text')
    requires FirstSeen(thinking) == FirstSeen(thinking') && FirstSeen(text) == FirstSeen(text')
    ensures TurnBlocks(thinking, text) == TurnBlocks(thinking', text')
  {
    SameAllBlocks(Thinking, thinking, thinking');
    SameAllBlocks(Text, text, text');
  }

  lemma SameAllBlocks(kind: Kind, log: seq<Delta>, log': seq<Delta>)
    requires SameBlocks(log, log') && FirstSeen(log) == FirstSeen(log')
    ensures AllBlocks(kind, log) == AllBlocks(kind, log')
  {
    hide AllBlocks, FirstSeen;
    var blocks, ids := AllBlocks(kind, log), FirstSeen(log);
    forall i | 0 <= i < |ids| ensures OfBlock(log', ids[i]) != [] && blocks[i] == Rebuilt(kind, log', ids[i]) {
      assert OfBlock(log, ids[i]) == OfBlock(log', ids[i]);
    }
    OnlyAllBlocks(blocks, kind, log');
  }

  // What a block list says, position by position.

  /** b is read off its own log: at lists the lines of its id, each once, by time and then
      in file order; b's text is their texts one after the other, line at[k] from cut k to
      cut k + 1, and b stops with the last of them. */
  ghost predicate ReadFrom(b: Block, log: seq<Delta>, at: seq<nat>, cuts: seq<nat>) {
    && at != [] && (forall k :: 0 <= k < |at| ==> at[k] < |log|)
    && (forall i: nat :: i in at <==> i < |log| && log[i].block == b.blockId)
    && (forall j, k :: 0 <= j < k < |at| ==> LoggedBefore(log, at[j], at[k]))
    && |cuts| == |at| + 1 && cuts[0] == 0 && cuts[|at|] == |b.text|
    && (forall k :: 0 <= k < |at| ==> PieceAt(b.text, log[at[k]].text, cuts[k], cuts[k + 1]))
    && b.tStopMs == log[at[|at| - 1]].tMs
  }

  ghost predicate LoggedBefore(log: seq<Delta>, i: nat, j: nat)
    requires i < |log| && j < |log|
  {
    log[i].tMs < log[j].tMs || (log[i].tMs == log[j].tMs && i < j)
  }

  /** at lists the lines of one id, and own is those lines. */
  ghost predicate LinesAt(at: seq<nat>, own: seq<Delta>, log: seq<Delta>, id: int) {
    && Ascends(at) && |at| == |own|
    && (forall k :: 0 <= k < |at| ==> at[k] < |log| && own[k] == log[at[k]])
    && (forall i: nat :: i in at <==> i < |log| && log[i].block == id)
  }

  lemma {:induction false} OfBlockPositions(log: seq<Delta>, id: int) returns (at: seq<nat>)
    ensures LinesAt(at, OfBlock(log, id), log, id)
    decreases |log|
  {
    hide LinesAt;
    at := [];
    if log == [] {
      NoLines(id);
    } else {
      var n := |log| - 1;
      var front, d := log[..n], log[n];
      assert log == front + [d];
      at := OfBlockPositions(front, id);
      OneMoreLine(at, OfBlock(front, id), front, id, d);
      at := if d.block == id then at + [n] else at;
    }
  }

  lemma NoLines(id: int)
    ensures LinesAt([], [], [], id)
  {
  }

  lemma OneMoreLine(at: seq<nat>, own: seq<Delta>, log: seq<Delta>, id: int, d: Delta)
    requires LinesAt(at, own, log, id)
    ensures if d.block == id then LinesAt(at + [|log|], own + [d], log + [d], id) else LinesAt(at, own, log + [d], id)
  {
    var log' := log + [d];
    assert forall i: nat :: i < |log| ==> log'[i] == log[i];
    assert forall k :: 0 <= k < |at| ==> at[k] in at;
    if d.block == id {
      AscendsSnoc(at, |log|);
    }
    hide Ascends;
  }

  lemma {:induction false} JoinedInPieces(ds: seq<Delta>) returns (cuts: seq<nat>)
    ensures InPieces(Joined(ds), Texts(ds), cuts)
    decreases |ds|
  {
    if ds == [] {
      cuts := [0];
    } else {
      var n := |ds| - 1;
      cuts := JoinedInPieces(ds[..n]);
      InPiecesSnoc(Joined(ds[..n]), Texts(ds[..n]), cuts, ds[n].text);
      cuts := cuts + [|Joined(ds)|];
      assert Texts(ds) == Texts(ds[..n]) + [ds[n].text];
    }
  }

  function Texts(ds: seq<Delta>): (r: seq<string>)
    ensures |r| == |ds| && forall k :: 0 <= k < |ds| ==> r[k] == ds[k].text
  {
    seq(|ds|, k requires 0 <= k < |ds| => ds[k].text)
  }

  /** Every rebuilt block is read off its log in that way. */
  lemma BlockReads(kind: Kind, log: seq<Delta>, id: int) returns (at: seq<nat>, cuts: seq<nat>)
    requires OfBlock(log, id) != []
    ensures ReadFrom(Rebuilt(kind, log, id), log, at, cuts)
  {
    hide OfBlock, Sorted, Joined, Rebuilt, InPieces, Rearranged, Ascends, PieceAt, LoggedBefore;
    var own := OfBlock(log, id);
    var ds := Sorted(own, DeltaTime);
    var lines := OfBlockPositions(log, id);
    var order := SortedPositions(own, DeltaTime);
    Places(own, ds, order);
    cuts := JoinedInPieces(ds);
    at := Picked(lines, order);
    BlockOf(kind, log, id);
    PickedLines(log, own, ds, lines, order, at);
    assert InPieces(Joined(ds), Texts(ds), cuts);
    PiecesOfLines(log, ds, at, Joined(ds), cuts);
  }

  lemma Places(own: seq<Delta>, ds: seq<Delta>, order: seq<nat>)
    requires Rearranged(own, DeltaTime, ds, order)
    ensures |order| == |own| == |ds| && forall k :: 0 <= k < |order| ==> order[k] < |own|
  {
  }

  lemma BlockOf(kind: Kind, log: seq<Delta>, id: int)
    requires OfBlock(log, id) != []
    ensures var ds := Sorted(OfBlock(log, id), DeltaTime);
      ds != [] && Rebuilt(kind, log, id) == Block(ds[|ds| - 1].tMs, kind, Joined(ds), id)
  {
    SortedFacts(OfBlock(log, id), DeltaTime);
  }

  function Picked(lines: seq<nat>, order: seq<nat>): (r: seq<nat>)
    requires forall k :: 0 <= k < |order| ==> order[k] < |lines|
    ensures |r| == |order| && forall k :: 0 <= k < |order| ==> r[k] == lines[order[k]]
  {
    seq(|order|, k requires 0 <= k < |order| => lines[order[k]])
  }

  lemma PickedLines(log: seq<Delta>, own: seq<Delta>, ds: seq<Delta>, lines: seq<nat>, order: seq<nat>, at: seq<nat>)
    requires Ascends(lines) && |lines| == |own| && Rearranged(own, DeltaTime, ds, order)
    requires forall k :: 0 <= k < |lines| ==> lines[k] < |log| && own[k] == log[lines[k]]
    requires at == Picked(lines, order)
    ensures |at| == |ds| && forall k :: 0 <= k < |at| ==> at[k] < |log| && ds[k] == log[at[k]]
    ensures forall i: nat :: i in at <==> i in lines
    ensures forall j, k :: 0 <= j < k < |at| ==> LoggedBefore(log, at[j], at[k])
  {
    forall i: nat | i in lines ensures i in at {
      var k :| 0 <= k < |lines| && lines[k] == i;
      assert k in order;
      var o :| 0 <= o < |order| && order[o] == k;
      assert at[o] == i;
    }
    forall j, k | 0 <= j < k < |at| ensures LoggedBefore(log, at[j], at[k]) {
      assert StableSort.Precedes(own, DeltaTime, order[j], order[k]);
    }
  }

  lemma PiecesOfLines(log: seq<Delta>, ds: seq<Delta>, at: seq<nat>, text: string, cuts: seq<nat>)
    requires |at| == |ds| && forall k :: 0 <= k < |at| ==> at[k] < |log| && ds[k] == log[at[k]]
    requires InPieces(text, Texts(ds), cuts)
    ensures |cuts| == |at| + 1 && cuts[0] == 0 && cuts[|at|] == |text|
    ensures forall k :: 0 <= k < |at| ==> PieceAt(text, log[at[k]].text, cuts[k], cuts[k + 1])
  {
    forall k | 0 <= k < |at| ensures PieceAt(text, log[at[k]].text, cuts[k], cuts[k + 1]) {
      assert PieceAt(text, Texts(ds)[k], cuts[k], cuts[k + 1]);
    }
  }

  /** i is the first line of its block. */
  ghost predicate Begins(log: seq<Delta>, id: int, i: nat) {
    i < |log| && log[i].block == id && forall j :: 0 <= j < i ==> log[j].block != id
  }

  /** at lists where the blocks with the given ids begin. */
  ghost predicate BeginAt(at: seq<nat>, ids: seq<int>, log: seq<Delta>) {
    Ascends(at) && |at| == |ids| && forall k :: 0 <= k < |at| ==> Begins(log, ids[k], at[k])
  }

  lemma {:induction false} FirstSeenPositions(log: seq<Delta>) returns (at: seq<nat>)
    ensures BeginAt(at, FirstSeen(log), log)
    decreases |log|
  {
    hide BeginAt, OfBlock;
    at := [];
    if log == [] {
      NoBeginnings();
    } else {
      var n := |log| - 1;
      var front, d := log[..n], log[n];
      assert log == front + [d];
      at := FirstSeenPositions(front);
      var ids := FirstSeen(front);
      forall e | e in front ensures e.block in ids {
        FirstSeenAll(front, e);
      }
      OneMoreBeginning(at, ids, front, d);
      at := if d.block in ids then at else at + [n];
    }
  }

  lemma NoBeginnings()
    ensures BeginAt([], [], [])
  {
  }

  lemma OneMoreBeginning(at: seq<nat>, ids: seq<int>, log: seq<Delta>, d: Delta)
    requires BeginAt(at, ids, log) && forall e :: e in log ==> e.block in ids
    ensures if d.block in ids then BeginAt(at, ids, log + [d])
      else BeginAt(at + [|log|], ids + [d.block], log + [d])
  {
    var log' := log + [d];
    forall k | 0 <= k < |at| ensures Begins(log', ids[k], at[k]) && at[k] < |log| {
      assert Begins(log, ids[k], at[k]);
    }
    if d.block !in ids {
      AscendsSnoc(at, |log|);
      hide Ascends;
      assert Begins(log', d.block, |log|);
    }
  }

  lemma {:induction false} FirstSeenAll(log: seq<Delta>, d: Delta)
    requires d in log
    ensures d.block in FirstSeen(log)
    decreases |log|
  {
    var n := |log| - 1;
    if d != log[n] {
      FirstSeenAll(log[..n], d);
    }
  }

  /** Of two blocks of a turn the one that stops earlier comes first; of two that stop
      together the thinking block, or the one whose first line comes first in its file. */
  ghost predicate ComesFirst(a: Block, b: Block, thinking: seq<Delta>, text: seq<Delta>) {
    || a.tStopMs < b.tStopMs
    || (a.tStopMs == b.tStopMs && a.kind == Thinking && b.kind == Text)
    || (a.tStopMs == b.tStopMs && a.kind == b.kind && exists i, j ::
          BeginsIn(a, thinking, text, i) && BeginsIn(b, thinking, text, j) && i < j)
  }

  ghost predicate BeginsIn(b: Block, thinking: seq<Delta>, text: seq<Delta>, i: nat) {
    Begins(LogOf(b.kind, thinking, text), b.blockId, i)
  }

  lemma AllBlocksInOrder(kind: Kind, log: seq<Delta>, i: nat, j: nat) returns (p: nat, q: nat)
    requires i < j < |AllBlocks(kind, log)|
    ensures AllBlocks(kind, log)[i].kind == AllBlocks(kind, log)[j].kind == kind
    ensures Begins(log, AllBlocks(kind, log)[i].blockId, p) && Begins(log, AllBlocks(kind, log)[j].blockId, q) && p < q
  {
    var at := FirstSeenPositions(log);
    assert Ascends(at) && |at| == |FirstSeen(log)|;
    hide FirstSeen, OfBlock, Begins;
    p, q := at[i], at[j];
    assert Begins(log, FirstSeen(log)[i], at[i]) && Begins(log, FirstSeen(log)[j], at[j]);
  }

  lemma ListedFirst(thinking: seq<Delta>, text: seq<Delta>, i: nat, j: nat)
    requires var all := AllBlocks(Thinking, thinking) + AllBlocks(Text, text);
      i < j < |all| && all[i].tStopMs == all[j].tStopMs
    ensures var all := AllBlocks(Thinking, thinking) + AllBlocks(Text, text);
      ComesFirst(all[i], all[j], thinking, text)
  {
    hide Begins, OfBlock, FirstSeen, AllBlocks, RebuiltIn;
    var a, b := AllBlocks(Thinking, thinking), AllBlocks(Text, text);
    if j < |a| {
      assert (a + b)[i] == a[i] && (a + b)[j] == a[j];
      var p, q := AllBlocksInOrder(Thinking, thinking, i, j);
      assert BeginsIn(a[i], thinking, text, p) && BeginsIn(a[j], thinking, text, q);
    } else if |a| <= i {
      assert (a + b)[i] == b[i - |a|] && (a + b)[j] == b[j - |a|];
      var p, q := AllBlocksInOrder(Text, text, i - |a|, j - |a|);
      assert BeginsIn(b[i - |a|], thinking, text, p) && BeginsIn(b[j - |a|], thinking, text, q);
    } else {
      assert (a + b)[i] == a[i] && (a + b)[j] == b[j - |a|];
      KindOfBlocks(Thinking, thinking, i);
      KindOfBlocks(Text, text, j - |a|);
    }
  }

  lemma KindOfBlocks(kind: Kind, log: seq<Delta>, i: nat)
    requires i < |AllBlocks(kind, log)|
    ensures AllBlocks(kind, log)[i].kind == kind
  {
    hide OfBlock, FirstSeen;
  }

  lemma TurnBlocksInOrder(thinking: seq<Delta>, text: seq<Delta>, i: nat, j: nat)
    requires i < j < |TurnBlocks(thinking, text)|
    ensures ComesFirst(TurnBlocks(thinking, text)[i], TurnBlocks(thinking, text)[j], thinking, text)
  {
    var all := AllBlocks(Thinking, thinking) + AllBlocks(Text, text);
    var at := SortedPositions(all, BlockStop);
    hide AllBlocks, Sorted;
    assert StableSort.Precedes(all, BlockStop, at[i], at[j]);
    if all[at[i]].tStopMs == all[at[j]].tStopMs {
      ListedFirst(thinking, text, at[i], at[j]);
    }
  }

  /** The block list in full: every block is read off its own log, and they come in order. */
  ghost predicate ListReads(blocks: seq<Block>, thinking: seq<Delta>, text: seq<Delta>) {
    && (forall b :: b in blocks ==> exists at, cuts ::
          ReadFrom(b, LogOf(b.kind, thinking, text), at, cuts))
    && (forall i, j :: 0 <= i < j < |blocks| ==> ComesFirst(blocks[i], blocks[j], thinking, text))
  }

  lemma TurnBlocksRead(thinking: seq<Delta>, text: seq<Delta>)
    requires BlocksOfTurn(TurnBlocks(thinking, text), thinking, text)
    ensures ListReads(TurnBlocks(thinking, text), thinking, text)
  {
    var blocks := TurnBlocks(thinking, text);
    forall b | b in blocks
      ensures exists at, cuts :: ReadFrom(b, LogOf(b.kind, thinking, text), at, cuts)
    {
      assert b == Rebuilt(b.kind, LogOf(b.kind, thinking, text), b.blockId);
      var at, cuts := BlockReads(b.kind, LogOf(b.kind, thinking, text), b.blockId);
    }
    hide TurnBlocks, ComesFirst;
    forall i, j | 0 <= i < j < |blocks| ensures ComesFirst(blocks[i], blocks[j], thinking, text) {
      TurnBlocksInOrder(thinking, text, i, j);
    }
  }

  /** The block part of load_trajectory, for one turn's two log files. */
  method LoadBlocks(thinking: seq<Delta>, text: seq<Delta>) returns (blocks: seq<Block>)
    ensures blocks == TurnBlocks(thinking, text)
    ensures BlocksOfTurn(blocks, thinking, text) && Ordered(blocks, BlockStop)
    ensures ListReads(blocks, thinking, text)
    ensures forall c :: BlockChars(c, blocks) == DeltaChars(c, thinking) + DeltaChars(c, text)
  {
    var a, ids := BlocksOf(Thinking, thinking);
    var b, ids' := BlocksOf(Text, text);
    blocks := Sorted(a + b, BlockStop);
    OnlyAllBlocks(a, Thinking, thinking);
    OnlyAllBlocks(b, Text, text);
    MergedBlocks(a, thinking, ids, b, text, ids');
    TurnBlocksRead(thinking, text);
    hide ListReads;
    forall c ensures BlockChars(c, blocks) == DeltaChars(c, thinking) + DeltaChars(c, text) {
      TextConserved(c, a, thinking, ids, b, text, ids');
    }
  }

  lemma MergedDistinct(a: seq<Block>, thinking: seq<Delta>, ids: seq<int>,
                       b: seq<Block>, text: seq<Delta>, ids': seq<int>)
    requires RebuiltIn(a, Thinking, thinking, ids) && RebuiltIn(b, Text, text, ids')
    requires NoRepeats(ids) && NoRepeats(ids')
    ensures NoRepeats(a + b)
  {
    RebuiltDistinct(a, Thinking, thinking, ids);
    RebuiltDistinct(b, Text, text, ids');
    forall i, j | 0 <= i < j < |a + b| ensures (a + b)[i] != (a + b)[j] {
      if i < |a| <= j {
        assert (a + b)[i] in a && (a + b)[j] in b;
      }
    }
  }

  lemma MergedBlocks(a: seq<Block>, thinking: seq<Delta>, ids: seq<int>,
                     b: seq<Block>, text: seq<Delta>, ids': seq<int>)
    requires RebuiltIn(a, Thinking, thinking, ids) && RebuiltIn(b, Text, text, ids')
    requires NoRepeats(ids) && forall d :: d in thinking ==> d.block in ids
    requires NoRepeats(ids') && forall d :: d in text ==> d.block in ids'
    ensures BlocksOfTurn(Sorted(a + b, BlockStop), thinking, text)
    ensures Ordered(Sorted(a + b, BlockStop), BlockStop)
  {
    hide Sorted, OfBlock, Ordered, NoRepeats;
    var blocks := Sorted(a + b, BlockStop);
    SortedFacts(a + b, BlockStop);
    SortedMembers(a + b, BlockStop);
    MergedDistinct(a, thinking, ids, b, text, ids');
    NoRepeatsSorted(a + b, BlockStop);
    forall k | k in blocks
      ensures var log := LogOf(k.kind, thinking, text);
        OfBlock(log, k.blockId) != [] && k == Rebuilt(k.kind, log, k.blockId)
    {
      assert k in a || k in b;
    }
    forall d | d in thinking
      ensures exists k :: k in blocks && k.kind == Thinking && k.blockId == d.block
    {
      RebuiltCovers(a, Thinking, thinking, ids, d);
    }
    forall d | d in text
      ensures exists k :: k in blocks && k.kind == Text && k.blockId == d.block
    {
      RebuiltCovers(b, Text, text, ids', d);
    }
  }

  /** A block stops at the largest timestamp of its deltas. */
  lemma StopIsLatest(kind: Kind, log: seq<Delta>, id: int)
    requires OfBlock(log, id) != []
    ensures forall d :: d in log && d.block == id ==> d.tMs <= Rebuilt(kind, log, id).tStopMs
    ensures exists d :: d in log && d.block == id && d.tMs == Rebuilt(kind, log, id).tStopMs
  {
    var own := OfBlock(log, id);
    var ds := Sorted(own, DeltaTime);
    OfBlockMembers(log, id);
    SortedFacts(own, DeltaTime);
    SortedMembers(own, DeltaTime);
    assert Rebuilt(kind, log, id).tStopMs == ds[|ds| - 1].tMs;
    hide OfBlock, Sorted, Joined, Rebuilt;
    assert ds[|ds| - 1] in ds;
    forall d | d in log && d.block == id ensures d.tMs <= ds[|ds| - 1].tMs {
      OrderedLast(ds, DeltaTime, d);
    }
  }

  lemma LinesInOrder(log: seq<Delta>, own: seq<Delta>, at: seq<nat>)
    requires Ordered(own, DeltaTime) && Ascends(at) && |at| == |own|
    requires forall k :: 0 <= k < |at| ==> at[k] < |log| && own[k] == log[at[k]]
    ensures forall j, k :: 0 <= j < k < |at| ==> LoggedBefore(log, at[j], at[k])
  {
    forall j, k | 0 <= j < k < |at| ensures LoggedBefore(log, at[j], at[k]) {
      assert DeltaTime(own[j]) <= DeltaTime(own[k]);
    }
  }

  /** A block written in time order reads back as its own lines in file order, whatever
      other blocks were interleaved with it in the log. */
  lemma InOrderText(kind: Kind, log: seq<Delta>, id: int) returns (at: seq<nat>, cuts: seq<nat>)
    requires OfBlock(log, id) != [] && Ordered(OfBlock(log, id), DeltaTime)
    ensures Rebuilt(kind, log, id).text == Joined(OfBlock(log, id))
    ensures ReadFrom(Rebuilt(kind, log, id), log, at, cuts) && Ascends(at)
  {
    hide OfBlock, Sorted, Joined, Rebuilt, InPieces, PieceAt, LoggedBefore, Ascends, Ordered;
    var own := OfBlock(log, id);
    SortedFixed(own, DeltaTime);
    at := OfBlockPositions(log, id);
    cuts := JoinedInPieces(own);
    BlockOf(kind, log, id);
    LinesInOrder(log, own, at);
    PiecesOfLines(log, own, at, Joined(own), cuts);
  }

  /** Two logs that agree block by block, however interleaved. */
  ghost predicate SameBlocks(log: seq<Delta>, log': seq<Delta>) {
    forall id :: OfBlock(log, id) == OfBlock(log', id)
  }

  /** Interleaving is irrelevant: re-interleaving the two logs yields the same set of
      blocks, and the same list of them when no two stop at the same time. */
  lemma InterleavingIrrelevant(blocks: seq<Block>, thinking: seq<Delta>, text: seq<Delta>,
                               blocks': seq<Block>, thinking': seq<Delta>, text': seq<Delta>)
    requires BlocksOfTurn(blocks, thinking, text) && BlocksOfTurn(blocks', thinking', text')
    requires SameBlocks(thinking, thinking') && SameBlocks(text, text')
    ensures multiset(blocks) == multiset(blocks')
    ensures KeyIdentifies(blocks, BlockStop) ==> blocks == blocks'
  {
    SubsetOfBlocks(blocks, thinking, text, blocks', thinking', text');
    SubsetOfBlocks(blocks', thinking', text', blocks, thinking, text);
    NoRepeatsMultiset(blocks);
    NoRepeatsMultiset(blocks');
    forall b ensures multiset(blocks)[b] == multiset(blocks')[b] {
      assert b in blocks <==> b in multiset(blocks);
      assert b in blocks' <==> b in multiset(blocks');
    }
    if KeyIdentifies(blocks, BlockStop) {
      OrderedUnique(blocks, blocks', BlockStop);
    }
  }

  lemma SubsetOfBlocks(blocks: seq<Block>, thinking: seq<Delta>, text: seq<Delta>,
                       blocks': seq<Block>, thinking': seq<Delta>, text': seq<Delta>)
    requires BlocksOfTurn(blocks, thinking, text) && BlocksOfTurn(blocks', thinking', text')
    requires SameBlocks(thinking, thinking') && SameBlocks(text, text')
    ensures forall b :: b in blocks ==> b in blocks'
  {
    forall b | b in blocks ensures b in blocks' {
      SharedBlock(blocks, thinking, text, blocks', thinking', text', b);
    }
  }

  lemma SharedBlock(blocks: seq<Block>, thinking: seq<Delta>, text: seq<Delta>,
                    blocks': seq<Block>, thinking': seq<Delta>, text': seq<Delta>, b: Block)
    requires BlocksOfTurn(blocks, thinking, text) && BlocksOfTurn(blocks', thinking', text')
    requires SameBlocks(thinking, thinking') && SameBlocks(text, text')
    requires b in blocks
    ensures b in blocks'
  {
    var log, log' := LogOf(b.kind, thinking, text), LogOf(b.kind, thinking', text');
    assert OfBlock(log', b.blockId) == OfBlock(log, b.blockId);
    var b' := BlockFor(blocks', thinking', text', b.kind, b.blockId);
    assert Rebuilt(b.kind, log', b.blockId) == Rebuilt(b.kind, log, b.blockId);
  }

  /** The block of a turn that holds a given kind and id. */
  lemma BlockFor(blocks: seq<Block>, thinking: seq<Delta>, text: seq<Delta>, kind: Kind, id: int)
    returns (b: Block)
    requires BlocksOfTurn(blocks, thinking, text) && OfBlock(LogOf(kind, thinking, text), id) != []
    ensures b in blocks && b == Rebuilt(kind, LogOf(kind, thinking, text), id)
  {
    var log := LogOf(kind, thinking, text);
    var d := OfBlock(log, id)[0];
    OfBlockMembers(log, id);
    assert d in log && d.block == id;
    b :| b in blocks && b.kind == kind && b.blockId == d.block;
  }

  // Tools and budgets.

  datatype ToolUse = ToolUse(id: Option<string>, name: string)

  /** A tool result, with the exit code and elapsed seconds its text reports when it
      comes from a shell command. */
  datatype ToolResult = ToolResult(toolUseId: Option<string>, shell: Option<(int, real)>)

  datatype Tool = Tool(name: string, useId: Option<string>, rc: Option<int>, elapsedS: real)

  const KILLED := -9

  /** The result recorded for a tool use id: the last one, if there are several. */
  function ResultFor(results: seq<ToolResult>, id: Option<string>): Option<ToolResult> {
    if results == [] then None
    else if results[|results| - 1].toolUseId == id then Some(results[|results| - 1])
    else ResultFor(results[..|results| - 1], id)
  }

  function Parsed(u: ToolUse, results: seq<ToolResult>): Tool {
    match ResultFor(results, u.id)
    case Some(ToolResult(_, Some((rc, elapsed)))) => Tool(u.name, u.id, Some(rc), elapsed)
    case _ => Tool(u.name, u.id, None, 0.0)
  }

  /** Result p is the last one with the given id. */
  ghost predicate LastResult(results: seq<ToolResult>, id: Option<string>, p: nat) {
    && p < |results| && results[p].toolUseId == id
    && forall q :: p < q < |results| ==> results[q].toolUseId != id
  }

  /** t is the tool of a use: its exit code and seconds are those that the last result with
      its id reports, none and zero when that reports none or there is no such result. */
  ghost predicate ToolOf(t: Tool, u: ToolUse, results: seq<ToolResult>) {
    && t.name == u.name && t.useId == u.id
    && (forall p: nat :: LastResult(results, u.id, p) && results[p].shell.Some? ==>
          t.rc == Some(results[p].shell.value.0) && t.elapsedS == results[p].shell.value.1)
    && ((forall p: nat :: LastResult(results, u.id, p) ==> results[p].shell.None?) ==>
          t.rc == None && t.elapsedS == 0.0)
  }

  lemma {:induction false} ResultForLast(results: seq<ToolResult>, id: Option<string>)
    ensures ResultFor(results, id).Some? <==> exists p: nat :: LastResult(results, id, p)
    ensures forall p: nat :: LastResult(results, id, p) ==> ResultFor(results, id) == Some(results[p])
    decreases |results|
  {
    if results != [] {
      var n := |results| - 1;
      if results[n].toolUseId == id {
        assert LastResult(results, id, n);
      } else {
        ResultForLast(results[..n], id);
        forall p: nat ensures LastResult(results, id, p) <==> LastResult(results[..n], id, p) {
        }
      }
    }
  }

  lemma ParsedTool(u: ToolUse, results: seq<ToolResult>)
    ensures ToolOf(Parsed(u, results), u, results)
  {
    ResultForLast(results, u.id);
    hide ResultFor, LastResult;
  }

  predicate IsKilled(t: Tool) {
    t.rc == Some(KILLED)
  }

  /** Recorded shell seconds of all tools, of the killed ones, and of the others. */
  function AllShell(ts: seq<Tool>): real {
    if ts == [] then 0.0 else AllShell(ts[..|ts| - 1]) + ts[|ts| - 1].elapsedS
  }

  function KilledShell(ts: seq<Tool>): real {
    if ts == [] then 0.0
    else KilledShell(ts[..|ts| - 1]) + if IsKilled(ts[|ts| - 1]) then ts[|ts| - 1].elapsedS else 0.0
  }

  function SurvivingShell(ts: seq<Tool>): real {
    if ts == [] then 0.0
    else SurvivingShell(ts[..|ts| - 1]) + if IsKilled(ts[|ts| - 1]) then 0.0 else ts[|ts| - 1].elapsedS
  }

  lemma {:induction false} ShellSplit(ts: seq<Tool>)
    ensures AllShell(ts) == KilledShell(ts) + SurvivingShell(ts)
    decreases |ts|
  {
    if ts != [] {
      ShellSplit(ts[..|ts| - 1]);
    }
  }

  function Kills(ts: seq<Tool>): nat {
    if ts == [] then 0 else Kills(ts[..|ts| - 1]) + if IsKilled(ts[|ts| - 1]) then 1 else 0
  }

  // The totals, as sums over the tools.

  /** The seconds of the killed tools, of the others, or of both. */
  function Seconds(ts: seq<Tool>, killed: bool, others: bool): (r: seq<real>)
    ensures |r| == |ts|
    ensures forall k :: 0 <= k < |ts| ==>
      r[k] == if (if ts[k].rc == Some(-9) then killed else others) then ts[k].elapsedS else 0.0
  {
    seq(|ts|, k requires 0 <= k < |ts| =>
      if (if ts[k].rc == Some(-9) then killed else others) then ts[k].elapsedS else 0.0)
  }

  lemma {:induction false} ShellTotals(ts: seq<Tool>)
    ensures AllShell(ts) == Sum(Seconds(ts, true, true))
    ensures KilledShell(ts) == Sum(Seconds(ts, true, false))
    ensures SurvivingShell(ts) == Sum(Seconds(ts, false, true))
    decreases |ts|
  {
    if ts != [] {
      var n := |ts| - 1;
      ShellTotals(ts[..n]);
      assert Seconds(ts, true, true)[..n] == Seconds(ts[..n], true, true);
      assert Seconds(ts, true, false)[..n] == Seconds(ts[..n], true, false);
      assert Seconds(ts, false, true)[..n] == Seconds(ts[..n], false, true);
    }
  }

  /** One recorded turn, as its files and its summary entry give it. */
  datatype RawTurn = RawTurn(
    turn: int, durationS: Option<real>, thinking: seq<Delta>, text: seq<Delta>,
    uses: seq<ToolUse>, results: seq<ToolResult>)

  datatype Turn = Turn(
    turn: int, durationS: real, blocks: seq<Block>, tools: seq<Tool>,
    impliedStreamS: real, lastDeltaMs: real, allShellS: real, killedShellS: real)

  ghost predicate LatestStop(last: real, blocks: seq<Block>) {
    && (blocks == [] ==> last == 0.0)
    && (blocks != [] ==> exists b :: b in blocks && b.tStopMs == last)
    && forall b :: b in blocks ==> b.tStopMs <= last
  }

  /** The replayable form of a recorded turn: its streaming budget is what the shells
      leave of its duration, but never less than its last delta. */
  ghost predicate TurnOf(t: Turn, raw: RawTurn) {
    && t.turn == raw.turn
    && t.durationS == (if raw.durationS.Some? then raw.durationS.value else 0.0)
    && BlocksOfTurn(t.blocks, raw.thinking, raw.text)
    && t.blocks == TurnBlocks(raw.thinking, raw.text)
    && |t.tools| == |raw.uses|
    && (forall i :: 0 <= i < |raw.uses| ==> t.tools[i] == Parsed(raw.uses[i], raw.results))
    && Budgeted(t)
  }

  ghost predicate Budgeted(t: Turn) {
    && Ordered(t.blocks, BlockStop)
    && LatestStop(t.lastDeltaMs, t.blocks)
    && t.allShellS == AllShell(t.tools)
    && t.killedShellS == KilledShell(t.tools)
    && t.impliedStreamS == Max(t.durationS - t.allShellS, t.lastDeltaMs / 1000.0)
  }

  method IndexResults(results: seq<ToolResult>) returns (byId: map<Option<string>, ToolResult>)
    ensures forall id :: ResultFor(results, id) == if id in byId then Some(byId[id]) else None
  {
    byId := map[];
    for i := 0 to |results|
      invariant forall id :: ResultFor(results[..i], id) == if id in byId then Some(byId[id]) else None
    {
      byId := byId[results[i].toolUseId := results[i]];
      assert results[..i + 1][..i] == results[..i];
    }
    assert results[..|results|] == results;
  }

  method ParseTools(uses: seq<ToolUse>, results: seq<ToolResult>)
    returns (tools: seq<Tool>, allShell: real, killedShell: real)
    ensures |tools| == |uses|
    ensures forall i :: 0 <= i < |uses| ==> tools[i] == Parsed(uses[i], results) && ToolOf(tools[i], uses[i], results)
    ensures allShell == Sum(Seconds(tools, true, true)) && killedShell == Sum(Seconds(tools, true, false))
    ensures allShell == AllShell(tools) && killedShell == KilledShell(tools)
  {
    var byId := IndexResults(results);
    tools, allShell, killedShell := [], 0.0, 0.0;
    for i := 0 to |uses|
      invariant |tools| == i
      invariant forall k :: 0 <= k < i ==> tools[k] == Parsed(uses[k], results)
      invariant allShell == AllShell(tools) && killedShell == KilledShell(tools)
    {
      var u := uses[i];
      assert ResultFor(results, u.id) == if u.id in byId then Some(byId[u.id]) else None;
      var rc: Option<int>, elapsed := None, 0.0;
      if u.id in byId && byId[u.id].shell.Some? {
        rc, elapsed := Some(byId[u.id].shell.value.0), byId[u.id].shell.value.1;
      }
      var tool := Tool(u.name, u.id, rc, elapsed);
      assert (tools + [tool])[..i] == tools;
      tools := tools + [tool];
      allShell := allShell + elapsed;
      if rc == Some(KILLED) {
        killedShell := killedShell + elapsed;
      }
    }
    ShellTotals(tools);
    forall i | 0 <= i < |uses| ensures ToolOf(tools[i], uses[i], results) {
      ParsedTool(uses[i], results);
    }
  }

  method LoadTurn(raw: RawTurn) returns (t: Turn)
    ensures TurnOf(t, raw)
    ensures raw.durationS.None? ==> t.durationS == 0.0
    ensures t.killedShellS == KilledShell(t.tools)
  {
    hide BlocksOfTurn, TurnBlocks, LatestStop;
    var blocks := LoadBlocks(raw.thinking, raw.text);
    var tools, allShell, killedShell := ParseTools(raw.uses, raw.results);
    var duration := if raw.durationS.Some? then raw.durationS.value else 0.0;
    var last := if blocks == [] then 0.0 else blocks[|blocks| - 1].tStopMs;
    StopsBeforeLast(blocks);
    var implied := Max(duration - allShell, last / 1000.0);
    t := Turn(raw.turn, duration, blocks, tools, implied, last, allShell, killedShell);
  }

  lemma StopsBeforeLast(blocks: seq<Block>)
    requires Ordered(blocks, BlockStop)
    ensures LatestStop(if blocks == [] then 0.0 else blocks[|blocks| - 1].tStopMs, blocks)
  {
    if blocks != [] {
      forall b | b in blocks ensures b.tStopMs <= blocks[|blocks| - 1].tStopMs {
        OrderedLast(blocks, BlockStop, b);
      }
      assert blocks[|blocks| - 1] in blocks;
    }
  }

  function TotalKills(ts: seq<Turn>): nat {
    if ts == [] then 0 else TotalKills(ts[..|ts| - 1]) + Kills(ts[|ts| - 1].tools)
  }

  function TotalKilledShell(ts: seq<Turn>): real {
    if ts == [] then 0.0 else TotalKilledShell(ts[..|ts| - 1]) + KilledShell(ts[|ts| - 1].tools)
  }

  /** Where the killed tools of a session are: turn and place in it. */
  function KillPlaces(ts: seq<Turn>): set<(nat, nat)> {
    set i: nat, k: nat | i < |ts| && k < |ts[i].tools| && ts[i].tools[k].rc == Some(-9) :: (i, k)
  }

  function KillsIn(tools: seq<Tool>, i: nat): set<(nat, nat)> {
    set k: nat | k < |tools| && tools[k].rc == Some(-9) :: (i, k)
  }

  lemma {:induction false} KillsAreCounted(tools: seq<Tool>, i: nat)
    ensures Kills(tools) == |KillsIn(tools, i)|
    decreases |tools|
  {
    if tools == [] {
      assert KillsIn(tools, i) == {};
    } else {
      var n := |tools| - 1;
      KillsAreCounted(tools[..n], i);
      assert KillsIn(tools, i) == KillsIn(tools[..n], i) + if tools[n].rc == Some(-9) then {(i, n)} else {};
    }
  }

  lemma KillPlacesSnoc(ts: seq<Turn>)
    requires ts != []
    ensures var n := |ts| - 1;
      var before, last := KillPlaces(ts[..n]), KillsIn(ts[n].tools, n);
      KillPlaces(ts) == before + last && |KillPlaces(ts)| == |before| + |last|
  {
    var n := |ts| - 1;
    var before, last := KillPlaces(ts[..n]), KillsIn(ts[n].tools, n);
    assert forall i: nat :: i < n ==> ts[..n][i] == ts[i];
    forall x: (nat, nat) ensures x in KillPlaces(ts) <==> x in before + last {
      assert x == (x.0, x.1);
    }
    assert KillPlaces(ts) == before + last;
    assert before !! last;
  }

  lemma KilledSecondsSnoc(ts: seq<Turn>)
    requires ts != []
    ensures var n := |ts| - 1;
      Sum(KilledSeconds(ts)) == Sum(KilledSeconds(ts[..n])) + Sum(Seconds(ts[n].tools, true, false))
  {
    var n := |ts| - 1;
    assert KilledSeconds(ts)[..n] == KilledSeconds(ts[..n]);
  }

  /** What the session's totals count: its killed tools and their seconds. */
  lemma {:induction false} SessionKills(ts: seq<Turn>)
    ensures TotalKills(ts) == |KillPlaces(ts)|
    ensures TotalKilledShell(ts) == Sum(KilledSeconds(ts))
    decreases |ts|
  {
    if ts == [] {
      assert KillPlaces(ts) == {} && Sum(KilledSeconds(ts)) == 0.0;
    } else {
      var n := |ts| - 1;
      hide KillPlaces, KillsIn, Seconds, Kills, KilledShell, KilledSeconds;
      SessionKills(ts[..n]);
      KillsAreCounted(ts[n].tools, n);
      KillPlacesSnoc(ts);
      ShellTotals(ts[n].tools);
      KilledSecondsSnoc(ts);
    }
  }

  function KilledSeconds(ts: seq<Turn>): (r: seq<real>)
    ensures |r| == |ts|
    ensures forall i :: 0 <= i < |ts| ==> r[i] == Sum(Seconds(ts[i].tools, true, false))
  {
    seq(|ts|, i requires 0 <= i < |ts| =>
      Sum(Seconds(ts[i].tools, true, false)))
  }

  method CountKills(ts: seq<Tool>) returns (n: nat)
    ensures n == Kills(ts)
  {
    n := 0;
    for i := 0 to |ts|
      invariant n == Kills(ts[..i])
    {
      assert ts[..i + 1][..i] == ts[..i];
      if IsKilled(ts[i]) {
        n := n + 1;
      }
    }
    assert ts[..|ts|] == ts;
  }

  /** load_trajectory over a whole session. */
  method LoadTrajectory(raws: seq<RawTurn>) returns (turns: seq<Turn>, nKills: nat, killedShellS: real)
    ensures |turns| == |raws| && forall i :: 0 <= i < |raws| ==> TurnOf(turns[i], raws[i])
    ensures nKills == TotalKills(turns) && killedShellS == TotalKilledShell(turns)
    ensures nKills == |KillPlaces(turns)| && killedShellS == Sum(KilledSeconds(turns))
  {
    hide TurnOf;
    turns, nKills, killedShellS := [], 0, 0.0;
    for i := 0 to |raws|
      invariant |turns| == i && forall k :: 0 <= k < i ==> TurnOf(turns[k], raws[k])
      invariant nKills == TotalKills(turns) && killedShellS == TotalKilledShell(turns)
    {
      var t := LoadTurn(raws[i]);
      var n := CountKills(t.tools);
      assert (turns + [t])[..i] == turns;
      turns := turns + [t];
      nKills := nKills + n;
      killedShellS := killedShellS + t.killedShellS;
    }
    SessionKills(turns);
  }
}
