/** Assembly of tool calls from streamed fragments, as in _run_session_oss of
    scripts/microbench/aiob_multiturn.py and dsbench_multiturn.py. */
module ToolCalls {
  import opened Common
  import opened StableSort

  /** One streamed piece of a call.  Empty id, name or arguments mean the piece does
      not carry them. */
  datatype Fragment = Fragment(index: int, id: string, name: string, arguments: string)

  datatype Slot = Slot(id: string, name: string, arguments: string)

  datatype Call<Args> = Call(id: string, name: string, args: Args)

  /** How the argument text is read: its JSON value, None when it does not parse. */
  datatype Reader<!Args> = Reader(parse: string -> Option<Args>, noArgs: Args)

  /** The pieces of one call, in stream order. */
  function OfIndex(fs: seq<Fragment>, i: int): seq<Fragment> {
    if fs == [] then []
    else
      var last, earlier := fs[|fs| - 1], OfIndex(fs[..|fs| - 1], i);
      if last.index == i then earlier + [last] else earlier
  }

  /** What one call's own pieces make of it: the last id and name they carry, and all
      their argument text in order. */
  function SlotOf(own: seq<Fragment>): Slot {
    if own == [] then Slot("", "", "") else Extend(SlotOf(own[..|own| - 1]), own[|own| - 1])
  }

  function Extend(s: Slot, f: Fragment): Slot {
    Slot(if f.id != "" then f.id else s.id,
         if f.name != "" then f.name else s.name,
         s.arguments + f.arguments)
  }

  /** The pending dictionary, with Python's insertion order of keys. */
  datatype Pending = Pending(order: seq<int>, slots: map<int, Slot>)

  function Accumulate(p: Pending, f: Fragment): Pending {
    if f.index in p.slots
    then Pending(p.order, p.slots[f.index := Extend(p.slots[f.index], f)])
    else Pending(p.order + [f.index], p.slots[f.index := Extend(Slot("", "", ""), f)])
  }

  /** Each call seen so far has exactly one slot, built from its own pieces alone. */
  ghost predicate Assembled(p: Pending, fs: seq<Fragment>) {
    && NoRepeats(p.order)
    && (forall i :: i in p.order <==> i in p.slots)
    && (forall i :: i in p.slots <==> OfIndex(fs, i) != [])
    && (forall i :: i in p.slots ==> p.slots[i] == SlotOf(OfIndex(fs, i)))
  }

  lemma NothingPending()
    ensures Assembled(Pending([], map[]), [])
  {
  }

  lemma OneMoreFragment(p: Pending, fs: seq<Fragment>, f: Fragment)
    requires Assembled(p, fs)
    ensures Assembled(Accumulate(p, f), fs + [f])
  {
    hide OfIndex, SlotOf, Extend;
    var p' := Accumulate(p, f);
    var own := OfIndex(fs, f.index);
    SlotOfSnoc(own, f);
    assert f.index !in p.slots ==> own == [];
    forall i
      ensures i in p'.slots <==> OfIndex(fs + [f], i) != []
      ensures i in p'.slots ==> p'.slots[i] == SlotOf(OfIndex(fs + [f], i))
    {
      OfIndexSnoc(fs, f, i);
    }
  }

  lemma OfIndexSnoc(fs: seq<Fragment>, f: Fragment, i: int)
    ensures OfIndex(fs + [f], i) == if f.index == i then OfIndex(fs, i) + [f] else OfIndex(fs, i)
  {
    assert (fs + [f])[..|fs|] == fs;
  }

  lemma SlotOfSnoc(own: seq<Fragment>, f: Fragment)
    ensures SlotOf([]) == Slot("", "", "")
    ensures SlotOf(own + [f]) == Extend(SlotOf(own), f)
  {
    assert (own + [f])[..|own|] == own;
  }

  method Gather(fs: seq<Fragment>) returns (p: Pending)
    ensures Assembled(p, fs)
  {
    hide Assembled, Accumulate;
    p := Pending([], map[]);
    NothingPending();
    assert fs[..0] == [];
    for k := 0 to |fs|
      invariant Assembled(p, fs[..k])
    {
      OneMoreFragment(p, fs[..k], fs[k]);
      assert fs[..k + 1] == fs[..k] + [fs[k]];
      p := Accumulate(p, fs[k]);
    }
    assert fs[..|fs|] == fs;
  }

  /** The id used for a call whose pieces never carried one. */
  function SynthesisedId(turn: int, index: int): string {
    "oss_" + Decimal(turn) + "_" + Decimal(index)
  }

  function CallOf<Args>(s: Slot, turn: int, index: int, reader: Reader<Args>): Call<Args> {
    var parsed := reader.parse(if s.arguments != "" then s.arguments else "{}");
    Call(if s.id != "" then s.id else SynthesisedId(turn, index), s.name,
         if parsed.Some? then parsed.value else reader.noArgs)
  }

  function IndexKey(i: int): real { i as real }

  /** calls lists one call per index of the stream, in ascending index order, each made
      from its own pieces alone. */
  ghost predicate CallsOf<Args>(calls: seq<Call<Args>>, indices: seq<int>, fs: seq<Fragment>,
                                turn: int, reader: Reader<Args>) {
    && |calls| == |indices|
    && (forall a, b :: 0 <= a < b < |indices| ==> indices[a] < indices[b])
    && (forall i :: i in indices <==> OfIndex(fs, i) != [])
    && (forall k :: 0 <= k < |calls| ==>
          calls[k] == CallOf(SlotOf(OfIndex(fs, indices[k])), turn, indices[k], reader))
  }

  lemma StrictlySorted(order: seq<int>)
    requires NoRepeats(order)
    ensures var s := Sorted(order, IndexKey);
      && (forall a, b :: 0 <= a < b < |s| ==> s[a] < s[b])
      && (forall i :: i in s <==> i in order)
  {
    var s := Sorted(order, IndexKey);
    SortedFacts(order, IndexKey);
    SortedMembers(order, IndexKey);
    NoRepeatsSorted(order, IndexKey);
    forall a, b | 0 <= a < b < |s| ensures s[a] < s[b] {
      assert IndexKey(s[a]) <= IndexKey(s[b]);
    }
  }

  /** The whole assembly: gather the stream, then read the slots in index order. */
  method Assemble<Args>(fs: seq<Fragment>, turn: int, reader: Reader<Args>)
    returns (calls: seq<Call<Args>>, indices: seq<int>)
    ensures CallsOf(calls, indices, fs, turn, reader)
  {
    hide OfIndex, SlotOf, CallOf;
    var p := Gather(fs);
    var sorted := Sorted(p.order, IndexKey);
    StrictlySorted(p.order);
    indices, calls := sorted, [];
    for k := 0 to |sorted|
      invariant |calls| == k
      invariant forall a :: 0 <= a < k ==>
        calls[a] == CallOf(SlotOf(OfIndex(fs, indices[a])), turn, indices[a], reader)
    {
      assert sorted[k] in sorted;
      calls := calls + [CallOf(p.slots[sorted[k]], turn, sorted[k], reader)];
    }
  }

  // What a call is, piece by piece.

  /** own is the pieces at the given places of the stream: exactly those of one index. */
  ghost predicate PiecesAt(own: seq<Fragment>, fs: seq<Fragment>, at: seq<nat>, index: int) {
    && |own| == |at| && Ascends(at)
    && (forall i: nat :: i in at <==> i < |fs| && fs[i].index == index)
    && (forall k :: 0 <= k < |at| ==> at[k] < |fs| && own[k] == fs[at[k]])
  }

  lemma {:induction false} OfIndexPlaces(fs: seq<Fragment>, index: int) returns (at: seq<nat>)
    ensures PiecesAt(OfIndex(fs, index), fs, at, index)
    decreases |fs|
  {
    hide Ascends;
    at := [];
    if fs == [] {
      AscendsNone();
    } else {
      var n := |fs| - 1;
      var front := fs[..n];
      at := OfIndexPlaces(front, index);
      assert forall i: nat :: i < n ==> front[i] == fs[i];
      if fs[n].index == index {
        AscendsSnoc(at, n);
        at := at + [n];
      }
    }
  }

  lemma OfIndexOccurs(fs: seq<Fragment>, index: int)
    ensures OfIndex(fs, index) != [] <==> exists f :: f in fs && f.index == index
  {
    var at := OfIndexPlaces(fs, index);
    if f :| f in fs && f.index == index {
      var i: nat :| i < |fs| && fs[i] == f;
      assert i in at;
    }
    if OfIndex(fs, index) != [] {
      assert at[0] in at;
      assert fs[at[0]] in fs;
    }
  }

  function Ids(own: seq<Fragment>): (r: seq<string>)
    ensures |r| == |own| && forall k :: 0 <= k < |own| ==> r[k] == own[k].id
  {
    seq(|own|, k requires 0 <= k < |own| => own[k].id)
  }

  function Names(own: seq<Fragment>): (r: seq<string>)
    ensures |r| == |own| && forall k :: 0 <= k < |own| ==> r[k] == own[k].name
  {
    seq(|own|, k requires 0 <= k < |own| => own[k].name)
  }

  function Arguments(own: seq<Fragment>): (r: seq<string>)
    ensures |r| == |own| && forall k :: 0 <= k < |own| ==> r[k] == own[k].arguments
  {
    seq(|own|, k requires 0 <= k < |own| => own[k].arguments)
  }

  /** v is the last of the texts that is not empty, or empty when all are. */
  ghost predicate LastCarried(texts: seq<string>, v: string) {
    && (forall k :: 0 <= k < |texts| && texts[k] != "" && (forall l :: k < l < |texts| ==> texts[l] == "") ==>
          v == texts[k])
    && ((forall k :: 0 <= k < |texts| ==> texts[k] == "") ==> v == "")
  }

  lemma LastCarriedSnoc(texts: seq<string>, v: string, t: string)
    requires LastCarried(texts, v)
    ensures LastCarried(texts + [t], if t != "" then t else v)
  {
    var all := texts + [t];
    assert forall k :: 0 <= k < |texts| ==> all[k] == texts[k];
    assert all[|texts|] == t;
    if t == "" && forall k :: 0 <= k < |all| ==> all[k] == "" {
      assert forall k :: 0 <= k < |texts| ==> texts[k] == "";
    }
  }

  /** A slot holds the last id and the last name that its pieces carry, and their argument
      texts one after the other. */
  lemma SlotReads(own: seq<Fragment>) returns (cuts: seq<nat>)
    ensures InPieces(SlotOf(own).arguments, Arguments(own), cuts)
    ensures LastCarried(Ids(own), SlotOf(own).id) && LastCarried(Names(own), SlotOf(own).name)
  {
    cuts := SlotArguments(own);
    SlotNames(own);
    hide *;
  }

  lemma {:induction false} SlotArguments(own: seq<Fragment>) returns (cuts: seq<nat>)
    ensures InPieces(SlotOf(own).arguments, Arguments(own), cuts)
    decreases |own|
  {
    hide InPieces, SlotOf, Arguments;
    if own == [] {
      cuts := [0];
      EmptySlot();
    } else {
      var n := |own| - 1;
      var front, f := own[..n], own[n];
      var before := SlotOf(front).arguments;
      var earlier := SlotArguments(front);
      InPiecesSnoc(before, Arguments(front), earlier, f.arguments);
      cuts := earlier + [|before| + |f.arguments|];
      FieldsSnoc(front, f);
      assert own == front + [f];
      ExtendedSlot(own);
    }
  }

  lemma {:induction false} SlotNames(own: seq<Fragment>)
    ensures LastCarried(Ids(own), SlotOf(own).id) && LastCarried(Names(own), SlotOf(own).name)
    decreases |own|
  {
    hide LastCarried, SlotOf, Ids, Names;
    if own == [] {
      EmptySlot();
    } else {
      var n := |own| - 1;
      var front, f := own[..n], own[n];
      SlotNames(front);
      LastCarriedSnoc(Ids(front), SlotOf(front).id, f.id);
      LastCarriedSnoc(Names(front), SlotOf(front).name, f.name);
      FieldsSnoc(front, f);
      assert own == front + [f];
      ExtendedSlot(own);
    }
  }

  lemma FieldsSnoc(own: seq<Fragment>, f: Fragment)
    ensures Ids(own + [f]) == Ids(own) + [f.id] && Names(own + [f]) == Names(own) + [f.name]
    ensures Arguments(own + [f]) == Arguments(own) + [f.arguments]
  {
  }

  lemma EmptySlot()
    ensures SlotOf([]) == Slot("", "", "") && LastCarried([], "") && InPieces("", [], [0])
  {
  }

  lemma ExtendedSlot(own: seq<Fragment>)
    requires own != []
    ensures var s, f := SlotOf(own[..|own| - 1]), own[|own| - 1];
      && SlotOf(own).arguments == s.arguments + f.arguments
      && SlotOf(own).id == (if f.id != "" then f.id else s.id)
      && SlotOf(own).name == (if f.name != "" then f.name else s.name)
  {
  }

  /** c is the call that the stream describes under an index: its id is the last one its own
      pieces carry, or one made of the turn and the index; its name is the last one; and its
      arguments are read from their argument texts, one after the other, from an empty object
      when there is no text, and are absent when that does not parse. */
  ghost predicate CallReads<Args>(c: Call<Args>, own: seq<Fragment>, fs: seq<Fragment>, at: seq<nat>, turn: int,
                                  index: int, reader: Reader<Args>, id: string, text: string, cuts: seq<nat>)
  {
    && PiecesAt(own, fs, at, index)
    && LastCarried(Ids(own), id) && LastCarried(Names(own), c.name) && InPieces(text, Arguments(own), cuts)
    && c.id == (if id == "" then "oss_" + Decimal(turn) + "_" + Decimal(index) else id)
    && var value := reader.parse(if text == "" then "{}" else text);
       (value == None ==> c.args == reader.noArgs) && (value != None ==> value == Some(c.args))
  }

  ghost predicate CallIsRead<Args>(c: Call<Args>, fs: seq<Fragment>, turn: int, index: int, reader: Reader<Args>) {
    exists own, at, id, text, cuts :: CallReads(c, own, fs, at, turn, index, reader, id, text, cuts)
  }

  /** Every assembled call is read off the stream in that way. */
  lemma CallMeaning<Args>(calls: seq<Call<Args>>, indices: seq<int>, fs: seq<Fragment>, turn: int,
                          reader: Reader<Args>, k: nat)
    requires CallsOf(calls, indices, fs, turn, reader) && k < |calls|
    ensures CallIsRead(calls[k], fs, turn, indices[k], reader)
  {
    hide OfIndex, SlotOf, PiecesAt, LastCarried, InPieces;
    var own := OfIndex(fs, indices[k]);
    var at := OfIndexPlaces(fs, indices[k]);
    var id, text := SlotOf(own).id, SlotOf(own).arguments;
    var cuts := SlotReads(own);
    assert CallReads(calls[k], own, fs, at, turn, indices[k], reader, id, text, cuts);
  }

  // Confluence.

  ghost predicate SamePieces(fs: seq<Fragment>, gs: seq<Fragment>) {
    forall i :: OfIndex(fs, i) == OfIndex(gs, i)
  }

  lemma EmptyOrInhabited(ys: seq<int>)
    ensures ys == [] || ys[0] in ys
  {
  }

  lemma {:induction false} AscendingUnique(xs: seq<int>, ys: seq<int>)
    requires forall a, b :: 0 <= a < b < |xs| ==> xs[a] < xs[b]
    requires forall a, b :: 0 <= a < b < |ys| ==> ys[a] < ys[b]
    requires forall i :: i in xs <==> i in ys
    ensures xs == ys
  {
    if xs == [] {
      EmptyOrInhabited(ys);
    } else {
      assert xs[0] in ys && ys != [] && ys[0] in xs;
      assert xs[0] == ys[0];
      var xt, yt := xs[1..], ys[1..];
      forall i ensures i in xt <==> i in yt {
        assert i in xt <==> i in xs && i != xs[0];
        assert i in yt <==> i in ys && i != ys[0];
      }
      AscendingUnique(xt, yt);
      assert xs == [xs[0]] + xt && ys == [ys[0]] + yt;
    }
  }

  /** Assembly is confluent: however the pieces of different calls are interleaved, the
      same calls come out in the same order. */
  lemma Confluent<Args>(fs: seq<Fragment>, gs: seq<Fragment>, turn: int, reader: Reader<Args>,
                        a: seq<Call<Args>>, ai: seq<int>, b: seq<Call<Args>>, bi: seq<int>)
    requires CallsOf(a, ai, fs, turn, reader) && CallsOf(b, bi, gs, turn, reader)
    requires SamePieces(fs, gs)
    ensures a == b && ai == bi
  {
    AscendingUnique(ai, bi);
  }

  /** Two streams whose calls collect the same ids, names and argument text. */
  ghost predicate SameSlots(fs: seq<Fragment>, gs: seq<Fragment>) {
    forall i :: SlotOf(OfIndex(fs, i)) == SlotOf(OfIndex(gs, i)) && (OfIndex(fs, i) == [] <==> OfIndex(gs, i) == [])
  }

  lemma SameSlotsSameCalls<Args>(fs: seq<Fragment>, gs: seq<Fragment>, turn: int, reader: Reader<Args>,
                                 a: seq<Call<Args>>, ai: seq<int>, b: seq<Call<Args>>, bi: seq<int>)
    requires CallsOf(a, ai, fs, turn, reader) && CallsOf(b, bi, gs, turn, reader)
    requires SameSlots(fs, gs)
    ensures a == b && ai == bi
  {
    AscendingUnique(ai, bi);
  }

  /** Cutting argument text into pieces: each piece goes to the same call and carries
      nothing else. */
  function Pieces(index: int, texts: seq<string>): (r: seq<Fragment>)
    ensures |r| == |texts|
  {
    if texts == [] then []
    else Pieces(index, texts[..|texts| - 1]) + [Fragment(index, "", "", texts[|texts| - 1])]
  }

  function Concat(texts: seq<string>): string {
    if texts == [] then "" else Concat(texts[..|texts| - 1]) + texts[|texts| - 1]
  }

  /** Text pieces are joined in order. */
  lemma {:induction false} ConcatInPieces(texts: seq<string>) returns (cuts: seq<nat>)
    ensures InPieces(Concat(texts), texts, cuts)
    decreases |texts|
  {
    if texts == [] {
      cuts := [0];
    } else {
      var n := |texts| - 1;
      cuts := ConcatInPieces(texts[..n]);
      hide InPieces;
      InPiecesSnoc(Concat(texts[..n]), texts[..n], cuts, texts[n]);
      cuts := cuts + [|Concat(texts)|];
      assert texts == texts[..n] + [texts[n]];
    }
  }

  lemma {:induction false} OfIndexAppend(a: seq<Fragment>, b: seq<Fragment>, i: int)
    ensures OfIndex(a + b, i) == OfIndex(a, i) + OfIndex(b, i)
    decreases |b|
  {
    if b == [] {
      assert a + b == a;
    } else {
      var n := |b| - 1;
      OfIndexAppend(a, b[..n], i);
      assert (a + b)[..|a + b| - 1] == a + b[..n];
    }
  }

  function ExtendAll(s: Slot, fs: seq<Fragment>): Slot {
    if fs == [] then s else Extend(ExtendAll(s, fs[..|fs| - 1]), fs[|fs| - 1])
  }

  lemma {:induction false} SlotOfAppend(a: seq<Fragment>, b: seq<Fragment>)
    ensures SlotOf(a + b) == ExtendAll(SlotOf(a), b)
    decreases |b|
  {
    if b == [] {
      assert a + b == a;
    } else {
      var n := |b| - 1;
      SlotOfAppend(a, b[..n]);
      assert (a + b)[..|a + b| - 1] == a + b[..n];
    }
  }

  lemma {:induction false} PiecesOfIndex(index: int, texts: seq<string>, i: int)
    ensures OfIndex(Pieces(index, texts), i) == if i == index then Pieces(index, texts) else []
    decreases |texts|
  {
    if texts != [] {
      var n := |texts| - 1;
      PiecesOfIndex(index, texts[..n], i);
      var ps := Pieces(index, texts);
      assert ps[..|ps| - 1] == Pieces(index, texts[..n]);
    }
  }

  lemma {:induction false} PiecesExtend(index: int, texts: seq<string>, s: Slot)
    ensures ExtendAll(s, Pieces(index, texts)) == Slot(s.id, s.name, s.arguments + Concat(texts))
    decreases |texts|
  {
    if texts != [] {
      var n := |texts| - 1;
      PiecesExtend(index, texts[..n], s);
      var ps := Pieces(index, texts);
      assert ps[..|ps| - 1] == Pieces(index, texts[..n]);
      assert s.arguments + (Concat(texts[..n]) + texts[n]) == (s.arguments + Concat(texts[..n])) + texts[n];
    }
  }

  /** Delivering a fragment's argument text in any number of consecutive pieces, the
      first of which keeps its id and name, changes no call. */
  lemma CuttingArguments(before: seq<Fragment>, f: Fragment, head: string, texts: seq<string>, after: seq<Fragment>)
    requires f.arguments == head + Concat(texts)
    ensures SameSlots(before + [f] + after,
                      before + ([f.(arguments := head)] + Pieces(f.index, texts)) + after)
  {
    var first := f.(arguments := head);
    var cut := [first] + Pieces(f.index, texts);
    forall i
      ensures var a, b := OfIndex(before + [f] + after, i), OfIndex(before + cut + after, i);
        SlotOf(a) == SlotOf(b) && (a == [] <==> b == [])
    {
      OfIndexAppend(before + [f], after, i);
      OfIndexAppend(before, [f], i);
      OfIndexAppend(before + cut, after, i);
      OfIndexAppend(before, cut, i);
      OfIndexAppend([first], Pieces(f.index, texts), i);
      PiecesOfIndex(f.index, texts, i);
      assert OfIndex([f], i) == if f.index == i then [f] else [];
      assert OfIndex([first], i) == if f.index == i then [first] else [];
      if i == f.index {
        CutSlot(OfIndex(before, i), f, head, texts);
        SlotOfAppend(OfIndex(before, i) + [f], OfIndex(after, i));
        SlotOfAppend(OfIndex(before, i) + cut, OfIndex(after, i));
      }
    }
  }

  lemma ExtendOne(s: Slot, f: Fragment)
    ensures ExtendAll(s, [f]) == Extend(s, f)
  {
  }

  lemma CutSlot(own: seq<Fragment>, f: Fragment, head: string, texts: seq<string>)
    requires f.arguments == head + Concat(texts)
    ensures SlotOf(own + [f]) == SlotOf(own + ([f.(arguments := head)] + Pieces(f.index, texts)))
  {
    hide SlotOf, ExtendAll, Pieces, Concat;
    var first := f.(arguments := head);
    var s := SlotOf(own);
    SlotOfAppend(own, [f]);
    ExtendOne(s, f);
    ExtendOne(s, first);
    assert own + ([first] + Pieces(f.index, texts)) == (own + [first]) + Pieces(f.index, texts);
    SlotOfAppend(own + [first], Pieces(f.index, texts));
    SlotOfAppend(own, [first]);
    PiecesExtend(f.index, texts, Extend(s, first));
    assert s.arguments + (head + Concat(texts)) == (s.arguments + head) + Concat(texts);
  }

  // Synthesised ids.

  lemma MarkNotBefore(a: string, b: string, c: string, d: string)
    requires a + "_" + b == c + "_" + d && forall k :: 0 <= k < |c| ==> c[k] != '_'
    ensures |c| <= |a|
  {
    var s := c + "_" + d;
    assert s[|a|] == '_';
    assert forall k :: 0 <= k < |c| ==> s[k] == c[k];
  }

  lemma SplitAtMark(a: string, b: string, c: string, d: string)
    requires a + "_" + b == c + "_" + d
    requires (forall k :: 0 <= k < |a| ==> a[k] != '_') && (forall k :: 0 <= k < |c| ==> c[k] != '_')
    ensures a == c && b == d
  {
    MarkNotBefore(a, b, c, d);
    MarkNotBefore(c, d, a, b);
    var s, t := a + "_" + b, c + "_" + d;
    assert a == s[..|a|] && c == t[..|c|];
    assert b == s[|a| + 1..] && d == t[|c| + 1..];
  }

  lemma PrefixCancel(p: string, a: string, b: string)
    requires p + a == p + b
    ensures a == b
  {
    assert a == (p + a)[|p|..] && b == (p + b)[|p|..];
  }

  /** Two calls that both lack an id never get the same one, in a turn or across turns. */
  lemma SynthesisedIdsDiffer(turn: int, index: int, turn': int, index': int)
    ensures SynthesisedId(turn, index) == SynthesisedId(turn', index') <==> turn == turn' && index == index'
  {
    hide Decimal;
    if SynthesisedId(turn, index) == SynthesisedId(turn', index') {
      var a, b, c, d := Decimal(turn), Decimal(index), Decimal(turn'), Decimal(index');
      assert "oss_" + a + "_" + b == "oss_" + (a + "_" + b);
      assert "oss_" + c + "_" + d == "oss_" + (c + "_" + d);
      PrefixCancel("oss_", a + "_" + b, c + "_" + d);
      SplitAtMark(a, b, c, d);
      DecimalInjective(turn, turn');
      DecimalInjective(index, index');
    }
  }
}
