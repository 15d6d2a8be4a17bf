/** Logical and physical paths of scripts/microbench/aiob_multiturn.py: the resolver
    that decides what to stage, the resolver that decides what a tool opens, and the
    symlinks planted for shell commands. */
module Paths {
  import opened Common
  import opened StableSort

  /** One prefix_map entry: a logical prefix and the real directory behind it. */
  datatype Mapping = Mapping(logical: string, physical: string)

  /** s.rstrip("/") */
  function StripEnd(s: string): string {
    if s != "" && s[|s| - 1] == '/' then StripEnd(s[..|s| - 1]) else s
  }

  /** s.lstrip("/") */
  function StripStart(s: string): string {
    if s != "" && s[0] == '/' then StripStart(s[1..]) else s
  }

  /** Stripping takes away slashes, all of them, and nothing else. */
  lemma {:induction false} StripEndMeaning(s: string)
    ensures StripEnd(s) <= s && forall k :: |StripEnd(s)| <= k < |s| ==> s[k] == '/'
    ensures StripEnd(s) != "" ==> StripEnd(s)[|StripEnd(s)| - 1] != '/'
  {
    if s != "" && s[|s| - 1] == '/' {
      StripEndMeaning(s[..|s| - 1]);
    }
  }

  lemma {:induction false} StripStartMeaning(s: string) returns (n: nat)
    ensures n <= |s| && StripStart(s) == s[n..] && forall k :: 0 <= k < n ==> s[k] == '/'
    ensures n < |s| ==> s[n] != '/'
  {
    n := 0;
    if s != "" && s[0] == '/' {
      var rest := StripStartMeaning(s[1..]);
      n := rest + 1;
      assert s[1..][rest..] == s[n..];
    }
  }

  /** resolve_logical: the first entry whose logical prefix starts the path. */
  function ResolveLogical(path: string, m: seq<Mapping>): string {
    if m == [] then path
    else if m[0].logical <= path then m[0].physical + path[|m[0].logical|..]
    else ResolveLogical(path, m[1..])
  }

  function Longest(e: Mapping): real {
    -(|e.logical| as real)
  }

  /** The longest-first loop of _resolve: an entry applies to its own root and to
      everything that starts with its prefix. */
  function ResolveMapped(path: string, entries: seq<Mapping>): Option<string> {
    if entries == [] then None
    else
      var e := entries[0];
      var root, real_ := StripEnd(e.logical), StripEnd(e.physical);
      if path == root then Some(real_)
      else if e.logical <= path then
        var rel := path[|e.logical|..];
        Some(if rel != "" then real_ + "/" + rel else real_)
      else ResolveMapped(path, entries[1..])
  }

  /** _resolve: the physical path of a tool argument, and whether it may be used. */
  function Resolve(arg: string, m: seq<Mapping>, workspace: string): (string, bool)
    requires m != []
  {
    var path := if arg != "" && !("/" <= arg) then "/workspace/" + arg else arg;
    if "/data/" <= path || path == "/data" then
      var mapped := ResolveMapped(path, Sorted(m, Longest));
      if mapped.Some? then (mapped.value, true)
      else
        var logRoot, dataRoot := StripEnd(m[0].logical), StripEnd(m[0].physical);
        var rel := if logRoot < path then path[|logRoot| + 1..] else "";
        var phys := if rel != "" then dataRoot + "/" + rel else dataRoot;
        (phys, dataRoot <= phys)
    else if "/workspace/" <= path || path == "/workspace" then
      var rel := StripStart(path[|"/workspace"|..]);
      (if rel != "" then workspace + "/" + rel else workspace, true)
    else (path, false)
  }

  ghost predicate EndsInOneSlash(s: string) {
    |s| >= 2 && s[|s| - 1] == '/' && s[|s| - 2] != '/'
  }

  /** Maps as the workloads write them: directories under /data, each prefix and each
      real root ending in one slash, no logical prefix listed twice. */
  ghost predicate WellFormed(m: seq<Mapping>) {
    && m != []
    && (forall e :: e in m ==>
          "/data/" < e.logical && EndsInOneSlash(e.logical) && EndsInOneSlash(e.physical))
    && (forall i, j :: 0 <= i < j < |m| ==> m[i].logical != m[j].logical)
  }

  /** The path is below some mapped directory and is not a mapped directory itself,
      written with or without its final slash. */
  ghost predicate StrictlyBelow(path: string, m: seq<Mapping>) {
    && (exists e :: e in m && e.logical <= path)
    && (forall e :: e in m ==> path != e.logical && path + "/" != e.logical)
  }

  ghost predicate Agree(path: string, m: seq<Mapping>, workspace: string)
    requires m != []
  {
    Resolve(path, m, workspace) == (ResolveLogical(path, m), true)
  }

  lemma StripEndOne(s: string)
    requires EndsInOneSlash(s)
    ensures StripEnd(s) == s[..|s| - 1] && StripEnd(s) + "/" == s
  {
    var t := s[..|s| - 1];
    assert t[|t| - 1] == s[|s| - 2];
  }

  /** Arguments outside /data: a relative one names a workspace file, as does its
      /workspace form, and no other absolute path may be used. */
  lemma ToolArguments(arg: string, m: seq<Mapping>, workspace: string)
    requires m != []
    ensures arg != "" && arg[0] != '/' ==>
      && Resolve(arg, m, workspace) == (workspace + "/" + arg, true)
      && Resolve("/workspace/" + arg, m, workspace) == (workspace + "/" + arg, true)
    ensures Resolve("/workspace", m, workspace) == Resolve("/workspace/", m, workspace) == (workspace, true)
    ensures Resolve("", m, workspace) == ("", false)
    ensures var outside := !("/data/" <= arg) && arg != "/data"
                        && !("/workspace/" <= arg) && arg != "/workspace";
      "/" <= arg && outside ==> Resolve(arg, m, workspace) == (arg, false)
  {
    if arg != "" && arg[0] != '/' {
      var path := "/workspace/" + arg;
      assert path[|"/workspace"|..] == "/" + arg;
      assert path[1] == 'w' && "/data/"[1] == 'd';
      assert ("/" + arg)[1..] == arg && StripStart("/" + arg) == StripStart(arg) == arg;
    }
    assert "/workspace"[1] == 'w' && "/data/"[1] == 'd';
    assert "/workspace"[|"/workspace"|..] == "";
    assert "/workspace/"[|"/workspace"|..] == "/" && "/workspace/"[1] == 'w' && "/"[1..] == "";
    assert StripStart("/") == StripStart("") == "";
  }

  // What the two loops select.

  ghost predicate Applies(e: Mapping, path: string) {
    path + "/" == e.logical || e.logical <= path
  }

  ghost predicate IsBest(e: Mapping, path: string, m: seq<Mapping>) {
    && e in m && Applies(e, path)
    && forall f :: f in m && Applies(f, path) ==> |f.logical| <= |e.logical|
  }

  /** The real path an applying entry gives. */
  function Through(e: Mapping, path: string): string
    requires e.physical != "" && (path + "/" == e.logical || e.logical <= path)
  {
    if path + "/" == e.logical || path == e.logical then e.physical[..|e.physical| - 1]
    else e.physical + path[|e.logical|..]
  }

  ghost predicate EndsWell(m: seq<Mapping>) {
    forall e :: e in m ==> EndsInOneSlash(e.logical) && EndsInOneSlash(e.physical)
  }

  lemma ThroughIsWhatTheLoopReturns(e: Mapping, path: string)
    requires EndsInOneSlash(e.logical) && EndsInOneSlash(e.physical)
    ensures path == StripEnd(e.logical) <==> path + "/" == e.logical
    ensures path + "/" == e.logical ==> Through(e, path) == StripEnd(e.physical)
    ensures e.logical <= path && path + "/" != e.logical ==>
      var rel := path[|e.logical|..];
      Through(e, path) == if rel != "" then StripEnd(e.physical) + "/" + rel else StripEnd(e.physical)
  {
    StripEndOne(e.logical);
    StripEndOne(e.physical);
    if path + "/" == e.logical {
      assert path == e.logical[..|e.logical| - 1];
    }
    if e.logical <= path {
      var rel := path[|e.logical|..];
      if rel == "" {
        assert path == e.logical;
      } else {
        assert StripEnd(e.physical) + "/" + rel == e.physical + rel;
      }
    }
  }

  lemma {:induction false} LongestFirstPicksBest(path: string, s: seq<Mapping>)
    requires EndsWell(s) && Ordered(s, Longest)
    ensures ResolveMapped(path, s).None? <==> forall e :: e in s ==> !Applies(e, path)
    ensures ResolveMapped(path, s).Some? ==>
      exists e :: IsBest(e, path, s) && ResolveMapped(path, s).value == Through(e, path)
  {
    if s != [] {
      var e := s[0];
      assert e in s;
      ThroughIsWhatTheLoopReturns(e, path);
      if Applies(e, path) {
        forall f | f in s ensures |f.logical| <= |e.logical| {
          var i :| 0 <= i < |s| && s[i] == f;
          assert Longest(s[0]) <= Longest(s[i]);
        }
        assert IsBest(e, path, s);
      } else {
        LongestFirstPicksBest(path, s[1..]);
        if ResolveMapped(path, s).Some? {
          var f :| IsBest(f, path, s[1..]) && ResolveMapped(path, s[1..]).value == Through(f, path);
          assert IsBest(f, path, s);
        }
      }
    }
  }

  lemma BestUnique(e: Mapping, f: Mapping, path: string, m: seq<Mapping>)
    requires WellFormed(m) && IsBest(e, path, m) && IsBest(f, path, m)
    ensures e == f
  {
    assert e.logical <= path + "/" && f.logical <= path + "/";
    assert e.logical == (path + "/")[..|e.logical|] == f.logical;
    var i :| 0 <= i < |m| && m[i] == e;
    var j :| 0 <= j < |m| && m[j] == f;
  }

  lemma MappedIsBest(path: string, m: seq<Mapping>, e: Mapping)
    requires WellFormed(m) && IsBest(e, path, m)
    ensures ResolveMapped(path, Sorted(m, Longest)) == Some(Through(e, path))
  {
    var s := Sorted(m, Longest);
    SortedFacts(m, Longest);
    SortedMembers(m, Longest);
    LongestFirstPicksBest(path, s);
    var f :| IsBest(f, path, s) && ResolveMapped(path, s).value == Through(f, path);
    assert IsBest(f, path, m);
    BestUnique(e, f, path, m);
  }

  lemma ResolveOfMapped(path: string, m: seq<Mapping>, workspace: string, phys: string)
    requires m != [] && "/data/" <= path && ResolveMapped(path, Sorted(m, Longest)) == Some(phys)
    ensures Resolve(path, m, workspace) == (phys, true)
  {
    assert path[0] == '/';
  }

  /** For a path under /data, _resolve goes through the most specific entry that
      applies to it. */
  lemma ResolvePicksBest(path: string, m: seq<Mapping>, workspace: string, e: Mapping)
    requires WellFormed(m) && "/data/" <= path && IsBest(e, path, m)
    ensures Resolve(path, m, workspace) == (Through(e, path), true)
  {
    MappedIsBest(path, m, e);
    ResolveOfMapped(path, m, workspace, Through(e, path));
  }

  lemma {:induction false} BestExists(path: string, m: seq<Mapping>) returns (e: Mapping)
    requires exists f :: f in m && Applies(f, path)
    ensures IsBest(e, path, m)
  {
    if exists f :: f in m[1..] && Applies(f, path) {
      e := BestExists(path, m[1..]);
      if Applies(m[0], path) && |e.logical| < |m[0].logical| {
        e := m[0];
      }
    } else {
      e := m[0];
    }
    assert m == [m[0]] + m[1..];
  }

  /** Listing the entries in another order never changes where a mapped path goes. */
  lemma OrderIrrelevant(path: string, m: seq<Mapping>, m': seq<Mapping>, workspace: string)
    requires WellFormed(m) && WellFormed(m') && (forall e :: e in m <==> e in m')
    requires "/data/" <= path && exists e :: e in m && Applies(e, path)
    ensures Resolve(path, m, workspace) == Resolve(path, m', workspace)
  {
    var e := BestExists(path, m);
    assert IsBest(e, path, m');
    ResolvePicksBest(path, m, workspace, e);
    ResolvePicksBest(path, m', workspace, e);
  }

  /** Where the fallback sends a path: under the first entry's real root, with whatever
      follows the character after that entry's logical name, if the path starts with it. */
  function Fallback(path: string, first: Mapping): string {
    var root := StripEnd(first.logical);
    var rel := if root < path then path[|root| + 1..] else "";
    if rel != "" then StripEnd(first.physical) + "/" + rel else StripEnd(first.physical)
  }

  /** A path that no entry covers does depend on the order: it falls back to the directory
      of whichever entry is listed first.  Staging leaves it alone. */
  lemma FallbackIsFirstEntry(path: string, m: seq<Mapping>, workspace: string)
    requires WellFormed(m) && ("/data/" <= path || path == "/data") && forall e :: e in m ==> !Applies(e, path)
    ensures Resolve(path, m, workspace) == (Fallback(path, m[0]), true)
    ensures ResolveLogical(path, m) == path
    ensures !(StripEnd(m[0].logical) <= path) ==> Fallback(path, m[0]) == StripEnd(m[0].physical)
  {
    NothingMapped(path, m);
    NothingStarts(path, m);
    UnmappedFallsBack(path, m, workspace);
    hide *;
    OutsideFirst(path, m[0]);
  }

  lemma OutsideFirst(path: string, first: Mapping)
    ensures !(StripEnd(first.logical) <= path) ==> Fallback(path, first) == StripEnd(first.physical)
  {
    hide StripEnd;
  }

  lemma UnmappedFallsBack(path: string, m: seq<Mapping>, workspace: string)
    requires m != [] && ("/data/" <= path || path == "/data") && ResolveMapped(path, Sorted(m, Longest)).None?
    ensures Resolve(path, m, workspace) == (Fallback(path, m[0]), true)
  {
    hide Sorted, ResolveMapped, StripEnd, StripStart;
    assert path[0] == '/' && "/" <= path;
    assert StripEnd(m[0].physical) <= Fallback(path, m[0]);
  }

  lemma NothingMapped(path: string, m: seq<Mapping>)
    requires WellFormed(m) && forall e :: e in m ==> !Applies(e, path)
    ensures ResolveMapped(path, Sorted(m, Longest)).None?
  {
    SortedFacts(m, Longest);
    SortedMembers(m, Longest);
    hide ResolveMapped, Sorted;
    LongestFirstPicksBest(path, Sorted(m, Longest));
  }

  lemma {:induction false} NothingStarts(path: string, m: seq<Mapping>)
    requires forall e :: e in m ==> !(e.logical <= path)
    ensures ResolveLogical(path, m) == path
  {
    if m != [] {
      assert m[0] in m && forall e :: e in m[1..] ==> e in m;
      NothingStarts(path, m[1..]);
    }
  }

  /** An uncovered path that starts with the first entry's name opens a file of that entry:
      exactly the file of the path that has a slash in place of its next character. */
  lemma SiblingOpensFirstEntry(m: seq<Mapping>, workspace: string, c: char, rel: string)
    requires WellFormed(m) && rel != ""
    requires forall e :: e in m ==> !Applies(e, StripEnd(m[0].logical) + [c] + rel)
    ensures Resolve(StripEnd(m[0].logical) + [c] + rel, m, workspace) == (m[0].physical + rel, true)
    ensures ResolveLogical(StripEnd(m[0].logical) + [c] + rel, m) == StripEnd(m[0].logical) + [c] + rel
    ensures c != '/'
  {
    var root := StripEnd(m[0].logical);
    var path := root + [c] + rel;
    assert m[0] in m;
    StripEndOne(m[0].logical);
    StripEndOne(m[0].physical);
    SlashCovers(m[0], c, rel);
    UnderData(m[0], path);
    FallbackIsFirstEntry(path, m, workspace);
    assert path[|root| + 1..] == rel;
    assert m[0].physical + rel == StripEnd(m[0].physical) + "/" + rel;
  }

  lemma SlashCovers(e: Mapping, c: char, rel: string)
    requires EndsInOneSlash(e.logical)
    ensures c == '/' ==> e.logical <= StripEnd(e.logical) + [c] + rel
  {
    StripEndOne(e.logical);
    assert c == '/' ==> StripEnd(e.logical) + [c] + rel == e.logical + rel;
  }

  lemma UnderData(e: Mapping, path: string)
    requires "/data/" < e.logical && EndsInOneSlash(e.logical) && StripEnd(e.logical) <= path
    ensures "/data/" <= path
  {
    StripEndOne(e.logical);
  }

  /** For one mapped directory /data/d/, the path /data/d2/f opens the file f of /data/d/,
      under a name with a doubled slash when its own rest starts with one. */
  lemma SiblingPrefix(workspace: string)
    ensures var m := [Mapping("/data/d/", "/r/")];
      && WellFormed(m) && ResolveLogical("/data/d2/f", m) == "/data/d2/f"
      && Resolve("/data/d2/f", m, workspace) == ("/r//f", true)
  {
    var e, path := Mapping("/data/d/", "/r/"), "/data/d2/f";
    var m := [e];
    assert e in m && path[7] == '2' && e.logical[7] == '/';
    StripEndOne(e.logical);
    assert StripEnd(e.logical) == "/data/d" && path == "/data/d" + "2" + "/f";
    assert !Applies(e, path);
    SiblingOpensFirstEntry(m, workspace, '2', "/f");
    assert "/r/" + "/f" == "/r//f";
  }

  // When the staged path is the opened path.

  /** The entry resolve_logical goes through. */
  lemma {:induction false} FirstMatch(path: string, m: seq<Mapping>) returns (i: nat)
    requires exists e :: e in m && e.logical <= path
    ensures i < |m| && m[i].logical <= path
    ensures forall k :: 0 <= k < i ==> !(m[k].logical <= path)
    ensures ResolveLogical(path, m) == m[i].physical + path[|m[i].logical|..]
  {
    if m[0].logical <= path {
      i := 0;
    } else {
      assert exists e :: e in m[1..] && e.logical <= path;
      var j := FirstMatch(path, m[1..]);
      i := j + 1;
      forall k | 0 <= k < i ensures !(m[k].logical <= path) {
        if k > 0 {
          assert !(m[1..][k - 1].logical <= path);
        }
      }
    }
  }

  /** Staging sends every logical prefix to its own real directory.  A workload can
      check this on its map before any session starts. */
  ghost predicate MapsOwnRoots(m: seq<Mapping>) {
    forall e :: e in m ==> ResolveLogical(e.logical, m) == e.physical
  }

  lemma PrefixOfBoth(a: string, b: string, path: string)
    requires a <= path && b <= path && |a| <= |b|
    ensures a <= b
  {
    assert b == path[..|b|];
  }

  lemma OwnRootsSuffice(path: string, m: seq<Mapping>, workspace: string)
    requires WellFormed(m) && MapsOwnRoots(m) && StrictlyBelow(path, m)
    ensures Agree(path, m, workspace)
  {
    var e := BestExists(path, m);
    assert e.logical <= path && "/data/" <= path;
    ResolvePicksBest(path, m, workspace, e);
    var i := FirstMatch(path, m);
    PrefixOfBoth(m[i].logical, e.logical, path);
    var k := FirstMatch(e.logical, m);
    assert m[k].logical <= path;
    assert m[i].logical <= e.logical;
    assert i == k;
    Rebase(m[i].physical, |m[i].logical|, e.logical, path);
  }

  lemma Rebase(phys: string, a: nat, logical: string, path: string)
    requires a <= |logical| && logical <= path
    ensures phys + path[a..] == (phys + logical[a..]) + path[|logical|..]
  {
    assert path[a..] == logical[a..] + path[|logical|..];
  }

  function Filler(n: nat): (s: string)
    ensures |s| == n && forall i :: 0 <= i < n ==> s[i] == 'x'
  {
    seq(n, _ => 'x')
  }

  lemma {:induction false} LongerThanAll(m: seq<Mapping>) returns (n: nat)
    ensures n > 0 && forall e :: e in m ==> |e.logical| < n
  {
    if m == [] {
      n := 1;
    } else {
      n := LongerThanAll(m[1..]);
      assert m == [m[0]] + m[1..];
      if n <= |m[0].logical| {
        n := |m[0].logical| + 1;
      }
    }
  }

  lemma NotThisFar(f: string, e: string, n: nat)
    requires EndsInOneSlash(f) && |e| < |f|
    ensures !(f <= e + Filler(n))
  {
    var path := e + Filler(n);
    if |f| <= |path| {
      assert path[|f| - 1] == 'x' && f[|f| - 1] == '/';
    }
  }

  /** Below any entry there is a path that only this entry's own prefixes cover. */
  lemma ProbePath(e: Mapping, m: seq<Mapping>) returns (path: string)
    requires WellFormed(m) && e in m
    ensures e.logical < path && "/data/" <= path && StrictlyBelow(path, m) && IsBest(e, path, m)
    ensures forall f :: f in m ==> (f.logical <= path <==> f.logical <= e.logical)
  {
    var n := LongerThanAll(m);
    path := e.logical + Filler(n);
    forall f | f in m
      ensures f.logical <= path <==> f.logical <= e.logical
    {
      if |e.logical| < |f.logical| {
        NotThisFar(f.logical, e.logical, n);
      } else if f.logical <= path {
        PrefixOfBoth(f.logical, e.logical, path);
      }
    }
    assert e.logical <= path;
  }

  /** Staged path = opened path, exactly when the map sends its own roots home. */
  lemma StagedIsOpenedIff(m: seq<Mapping>, workspace: string)
    requires WellFormed(m)
    ensures (forall path :: StrictlyBelow(path, m) ==> Agree(path, m, workspace)) <==> MapsOwnRoots(m)
  {
    if MapsOwnRoots(m) {
      forall path | StrictlyBelow(path, m) ensures Agree(path, m, workspace) {
        OwnRootsSuffice(path, m, workspace);
      }
    }
    if forall path :: StrictlyBelow(path, m) ==> Agree(path, m, workspace) {
      forall e | e in m ensures ResolveLogical(e.logical, m) == e.physical {
        var path := ProbePath(e, m);
        assert Agree(path, m, workspace);
        ProbeShowsRoot(e, path, m, workspace);
      }
    }
  }

  lemma ProbeShowsRoot(e: Mapping, path: string, m: seq<Mapping>, workspace: string)
    requires WellFormed(m) && e.logical < path && "/data/" <= path && IsBest(e, path, m)
    requires forall f :: f in m ==> (f.logical <= path <==> f.logical <= e.logical)
    requires Agree(path, m, workspace)
    ensures ResolveLogical(e.logical, m) == e.physical
  {
    ResolvePicksBest(path, m, workspace, e);
    var i := FirstMatch(path, m);
    var k := FirstMatch(e.logical, m);
    assert m[k] in m && m[i] in m;
    assert i == k;
    Rebase(m[i].physical, |m[i].logical|, e.logical, path);
    assert path + "/" != e.logical;
    SuffixCancel(m[i].physical + e.logical[|m[i].logical|..], e.physical, path[|e.logical|..]);
  }

  lemma SuffixCancel(a: string, b: string, c: string)
    requires a + c == b + c
    ensures a == b
  {
    assert |a| == |b|;
    assert a == (a + c)[..|a|] && b == (b + c)[..|b|];
  }

  ghost predicate PrefixFree(m: seq<Mapping>) {
    forall i, j :: 0 <= i < |m| && 0 <= j < |m| && i != j ==> !(m[i].logical <= m[j].logical)
  }

  ghost predicate MostSpecificFirst(m: seq<Mapping>) {
    forall i, j :: 0 <= i < j < |m| ==> !(m[i].logical < m[j].logical)
  }

  /** The two ways a map is written in practice both satisfy the exact condition. */
  lemma UsualMapsAgree(m: seq<Mapping>)
    requires WellFormed(m) && (PrefixFree(m) || MostSpecificFirst(m))
    ensures MapsOwnRoots(m)
  {
    forall e | e in m ensures ResolveLogical(e.logical, m) == e.physical {
      var k :| 0 <= k < |m| && m[k] == e;
      var i := FirstMatch(e.logical, m);
      assert i <= k && m[i].logical <= m[k].logical;
      assert i == k;
    }
  }

  /** Listed general-first, a nested map stages one file and opens another. */
  lemma GeneralFirstDisagrees(workspace: string)
    ensures var m := [Mapping("/data/d/", "/r/"), Mapping("/data/d/x/", "/s/")];
      && WellFormed(m) && !MapsOwnRoots(m) && StrictlyBelow("/data/d/x/f", m)
      && ResolveLogical("/data/d/x/f", m) == "/r/x/f"
      && Resolve("/data/d/x/f", m, workspace) == ("/s/f", true)
  {
    var a, b := Mapping("/data/d/", "/r/"), Mapping("/data/d/x/", "/s/");
    var m, path := [a, b], "/data/d/x/f";
    GeneralFirstStages(a, b);
    NestedMap(a, b);
    ResolvePicksBest(path, m, workspace, b);
    hide *;
    assert b in m && ResolveLogical(b.logical, m) != b.physical;
    assert !MapsOwnRoots(m) by {
      NotHome(b, m);
    }
  }

  lemma NotHome(e: Mapping, m: seq<Mapping>)
    requires e in m && ResolveLogical(e.logical, m) != e.physical
    ensures !MapsOwnRoots(m)
  {
  }

  lemma NestedMap(a: Mapping, b: Mapping)
    requires a == Mapping("/data/d/", "/r/") && b == Mapping("/data/d/x/", "/s/")
    ensures WellFormed([a, b]) && StrictlyBelow("/data/d/x/f", [a, b]) && IsBest(b, "/data/d/x/f", [a, b])
    ensures Through(b, "/data/d/x/f") == "/s/f"
  {
    var m, path := [a, b], "/data/d/x/f";
    assert a in m && b in m && |a.logical| == 8 && |b.logical| == 10 && |path| == 11;
    assert path[10..] == "f" && "/s/" + "f" == "/s/f";
    assert b.logical == path[..10] && a.logical == path[..8];
  }

  lemma GeneralFirstStages(a: Mapping, b: Mapping)
    requires a == Mapping("/data/d/", "/r/") && b.logical == "/data/d/x/"
    ensures ResolveLogical("/data/d/x/", [a, b]) == "/r/x/" && ResolveLogical("/data/d/x/f", [a, b]) == "/r/x/f"
  {
    assert "/data/d/x/"[8..] == "x/" && "/r/" + "x/" == "/r/x/";
    assert "/data/d/x/f"[8..] == "x/f" && "/r/" + "x/f" == "/r/x/f";
  }

  // Symlinks planted for shell commands.

  /** Every link is some entry's, and leads to that entry's real root. */
  ghost predicate OnlyEntries(links: map<string, string>, m: seq<Mapping>, workspace: string) {
    forall l :: l in links ==>
      exists e :: e in m && l == workspace + StripEnd(e.logical) && links[l] == StripEnd(e.physical)
  }

  lemma RootUnderData(e: Mapping)
    requires "/data/" < e.logical && EndsInOneSlash(e.logical)
    ensures "/data/" <= StripEnd(e.logical)
  {
    StripEndOne(e.logical);
  }

  /** Plants <workspace>/data/... -> real root for every entry under /data, leaving
      an existing link alone. */
  method PlantLinks(m: seq<Mapping>, workspace: string, existing: map<string, string>)
    returns (links: map<string, string>)
    requires WellFormed(m) && PrefixFree(m)
    requires OnlyEntries(existing, m, workspace)
    ensures Planted(links, m, workspace)
  {
    links := existing;
    for i := 0 to |m|
      invariant OnlyEntries(links, m, workspace)
      invariant forall k :: 0 <= k < i ==> workspace + StripEnd(m[k].logical) in links
    {
      var logP, realP := StripEnd(m[i].logical), StripEnd(m[i].physical);
      assert m[i] in m;
      RootUnderData(m[i]);
      if "/data/" <= logP {
        var link := workspace + "/data/" + logP[|"/data/"|..];
        assert link == workspace + logP;
        if link !in links {
          links := links[link := realP];
        }
      }
    }
    AllPlanted(links, m, workspace);
  }

  lemma AllPlanted(links: map<string, string>, m: seq<Mapping>, workspace: string)
    requires WellFormed(m) && OnlyEntries(links, m, workspace)
    requires forall k :: 0 <= k < |m| ==> workspace + StripEnd(m[k].logical) in links
    ensures Planted(links, m, workspace)
  {
    forall e | e in m
      ensures workspace + StripEnd(e.logical) in links
      ensures links[workspace + StripEnd(e.logical)] == StripEnd(e.physical)
    {
      var k :| 0 <= k < |m| && m[k] == e;
      var l := workspace + StripEnd(e.logical);
      assert l in links;
      var f :| f in m && l == workspace + StripEnd(f.logical) && links[l] == StripEnd(f.physical);
      LinkIdentifiesEntry(e, f, m, workspace);
    }
  }

  lemma LinkIdentifiesEntry(e: Mapping, f: Mapping, m: seq<Mapping>, workspace: string)
    requires WellFormed(m) && e in m && f in m
    requires workspace + StripEnd(e.logical) == workspace + StripEnd(f.logical)
    ensures e == f
  {
    StripEndOne(e.logical);
    StripEndOne(f.logical);
    assert StripEnd(e.logical) == (workspace + StripEnd(e.logical))[|workspace|..];
    assert StripEnd(f.logical) == (workspace + StripEnd(f.logical))[|workspace|..];
    var i :| 0 <= i < |m| && m[i] == e;
    var j :| 0 <= j < |m| && m[j] == f;
  }

  /** One link per entry, to that entry's real root, and nothing else. */
  ghost predicate Planted(links: map<string, string>, m: seq<Mapping>, workspace: string) {
    && (forall e :: e in m ==>
          var l := workspace + StripEnd(e.logical);
          l in links && links[l] == StripEnd(e.physical))
    && (forall l :: l in links ==> exists e :: e in m && l == workspace + StripEnd(e.logical))
  }

  /** Opening an absolute path through the planted links. */
  ghost function Followed(links: map<string, string>, path: string): string {
    if exists l :: l in links && l + "/" <= path then
      var l :| l in links && l + "/" <= path;
      links[l] + path[|l|..]
    else path
  }

  /** A script that opens data/... relative to the workspace reaches the very path
      that was staged for the logical /data/... name. */
  lemma LinkReachesStaged(links: map<string, string>, path: string, m: seq<Mapping>, workspace: string)
    requires WellFormed(m) && PrefixFree(m) && Planted(links, m, workspace)
    requires StrictlyBelow(path, m)
    ensures Followed(links, workspace + path) == ResolveLogical(path, m)
  {
    var i := FirstMatch(path, m);
    LinkReachesEntry(links, path, m, workspace, m[i]);
  }

  lemma LinkReachesEntry(links: map<string, string>, path: string, m: seq<Mapping>, workspace: string, e: Mapping)
    requires EndsWell(m) && PrefixFree(m) && Planted(links, m, workspace)
    requires e in m && e.logical <= path
    ensures Followed(links, workspace + path) == e.physical + path[|e.logical|..]
  {
    LinkCovers(e, path, workspace);
    var l := FollowedLink(links, workspace + path, workspace + StripEnd(e.logical));
    var f := EntryOfLink(links, l, m, workspace);
    LinkCovers(f, path, workspace);
    CoveredOnce(e, f, path, m);
    RealRootAndRest(e.physical, path[|e.logical|..]);
  }

  lemma RealRootAndRest(physical: string, rel: string)
    requires EndsInOneSlash(physical)
    ensures StripEnd(physical) + ("/" + rel) == physical + rel
  {
    StripEndOne(physical);
    assert StripEnd(physical) + ("/" + rel) == (StripEnd(physical) + "/") + rel;
  }

  lemma FollowedLink(links: map<string, string>, p: string, some: string) returns (l: string)
    requires some in links && some + "/" <= p
    ensures l in links && l + "/" <= p && Followed(links, p) == links[l] + p[|l|..]
  {
    l :| l in links && l + "/" <= p && Followed(links, p) == links[l] + p[|l|..];
  }

  lemma EntryOfLink(links: map<string, string>, l: string, m: seq<Mapping>, workspace: string)
    returns (f: Mapping)
    requires Planted(links, m, workspace) && l in links
    ensures f in m && l == workspace + StripEnd(f.logical) && links[l] == StripEnd(f.physical)
  {
    f :| f in m && l == workspace + StripEnd(f.logical);
  }

  lemma LinkCovers(e: Mapping, path: string, workspace: string)
    requires EndsInOneSlash(e.logical)
    ensures var l := workspace + StripEnd(e.logical);
      && (l + "/" <= workspace + path <==> e.logical <= path)
      && (e.logical <= path ==> (workspace + path)[|l|..] == "/" + path[|e.logical|..])
  {
    StripEndOne(e.logical);
    var l, p := workspace + StripEnd(e.logical), workspace + path;
    assert l + "/" == workspace + e.logical;
    if l + "/" <= p {
      assert e.logical == (l + "/")[|workspace|..];
      assert path == p[|workspace|..];
    }
    if e.logical <= path {
      assert p == workspace + (e.logical + path[|e.logical|..]);
      assert p == l + ("/" + path[|e.logical|..]);
    }
  }

  lemma CoveredOnce(e: Mapping, f: Mapping, path: string, m: seq<Mapping>)
    requires PrefixFree(m) && e in m && f in m && e.logical <= path && f.logical <= path
    ensures e == f
  {
    var i :| 0 <= i < |m| && m[i] == e;
    var k :| 0 <= k < |m| && m[k] == f;
    if |e.logical| <= |f.logical| {
      PrefixOfBoth(e.logical, f.logical, path);
    } else {
      PrefixOfBoth(f.logical, e.logical, path);
    }
  }
}
