/** The publish protocol of outputs/e2e/transcode.py: many workers each write a
    temporary file and then replace their destination with it, in any interleaving and
    with any of them failing at any step, while readers look at the destinations. */
module Publish {
  import opened Common
  import opened Paths

  type Content = seq<int>
  type FileSystem = map<string, Content>

  datatype Job = Job(src: string, dst: string)

  function Temp(j: Job): string {
    j.dst + ".tmp"
  }

  /** os.path.join(hot_root.rstrip("/"), abs_src.lstrip("/")) */
  function Destination(hotRoot: string, src: string): string {
    var root, rel := StripEnd(hotRoot), StripStart(src);
    if root == "" then rel else root + "/" + rel
  }

  /** main's job list, one per source file. */
  method BuildJobs(files: seq<string>, hotRoot: string) returns (jobs: seq<Job>)
    ensures |jobs| == |files|
    ensures forall i :: 0 <= i < |files| ==> jobs[i] == Job(files[i], Destination(hotRoot, files[i]))
  {
    jobs := [];
    for i := 0 to |files|
      invariant |jobs| == i
      invariant forall k :: 0 <= k < i ==> jobs[k] == Job(files[k], Destination(hotRoot, files[k]))
    {
      jobs := jobs + [Job(files[i], Destination(hotRoot, files[i]))];
    }
  }

  /** Where a worker is, with the source content it opened.  A worker that has
      returned also tells what it had put in place, whatever it reported. */
  datatype Phase =
    | Idle
    | Writing(source: Content, done: nat)
    | Closed(source: Content)
    | Replaced(source: Content)
    | Returned(ok: bool, published: Option<Content>)

  datatype State = State(fs: FileSystem, pc: seq<Phase>)

  /** One scheduling decision: let a worker take its next step, or make it fail. */
  datatype Event = Advance(job: nat) | Fail(job: nat)

  function Published(p: Phase): Option<Content> {
    match p
    case Replaced(source) => Some(source)
    case Returned(_, published) => published
    case _ => None
  }

  function StepWorker(j: Job, p: Phase, fs: FileSystem, transcode: Content -> Content): (FileSystem, Phase) {
    match p
    case Idle =>
      if j.src in fs then (fs[Temp(j) := []], Writing(fs[j.src], 0)) else (fs, Returned(false, None))
    case Writing(source, done) =>
      var full := transcode(source);
      if done < |full| then (fs[Temp(j) := full[..done + 1]], Writing(source, done + 1))
      else (fs, Closed(source))
    case Closed(source) =>
      if Temp(j) in fs then ((fs - {Temp(j)})[j.dst := fs[Temp(j)]], Replaced(source))
      else (fs, Returned(false, None))
    case Replaced(source) => (fs, Returned(true, Some(source)))
    case Returned(_, _) => (fs, p)
  }

  function Step(jobs: seq<Job>, transcode: Content -> Content, s: State, ev: Event): State
    requires |s.pc| == |jobs|
  {
    if ev.job >= |jobs| || s.pc[ev.job].Returned? then s
    else
      match ev
      case Advance(i) =>
        var (fs, p) := StepWorker(jobs[i], s.pc[i], s.fs, transcode);
        State(fs, s.pc[i := p])
      case Fail(i) =>
        s.(pc := s.pc[i := Returned(false, Published(s.pc[i]))])
  }

  function Start(jobs: seq<Job>, fs: FileSystem): State {
    State(fs, seq(|jobs|, _ => Idle))
  }

  /** The state after any finite schedule. */
  function Run(jobs: seq<Job>, transcode: Content -> Content, fs: FileSystem, evs: seq<Event>): (s: State)
    ensures |s.pc| == |jobs|
  {
    if evs == [] then Start(jobs, fs)
    else Step(jobs, transcode, Run(jobs, transcode, fs, evs[..|evs| - 1]), evs[|evs| - 1])
  }

  function Read(fs: FileSystem, path: string): Option<Content> {
    if path in fs then Some(fs[path]) else None
  }

  // Paths never collide.

  ghost predicate PathsApart(jobs: seq<Job>) {
    && (forall i, j :: 0 <= i < j < |jobs| ==> jobs[i].dst != jobs[j].dst && Temp(jobs[i]) != Temp(jobs[j]))
    && (forall i, j :: 0 <= i < |jobs| && 0 <= j < |jobs| ==> Temp(jobs[i]) != jobs[j].dst)
  }

  ghost predicate SourcesUntouched(jobs: seq<Job>) {
    forall i, j :: 0 <= i < |jobs| && 0 <= j < |jobs| ==>
      jobs[i].src != jobs[j].dst && jobs[i].src != Temp(jobs[j])
  }

  /** An absolute, normalised path of a NetCDF file. */
  ghost predicate NcSource(src: string) {
    |src| >= 5 && src[0] == '/' && src[1] != '/' && src[|src| - 3..] == ".nc"
  }

  /** Where a path leads from a working directory, given without its final slash. */
  function Located(cwd: string, path: string): string {
    if "/" <= path then path else cwd + "/" + path
  }

  /** The directory under which all destinations lie; an empty root is the working one. */
  function Base(cwd: string, hotRoot: string): string {
    var root := StripEnd(hotRoot);
    if root == "" then cwd else Located(cwd, root)
  }

  /** Where things are mirrored: under an absolute root itself, under a relative one seen from
      the working directory, and in the working directory for a root of slashes or none. */
  lemma BaseMeaning(cwd: string, hotRoot: string)
    ensures hotRoot != "" && hotRoot[0] != '/' ==> Base(cwd, hotRoot) == cwd + "/" + StripEnd(hotRoot)
    ensures hotRoot != "" && hotRoot[0] == '/' && StripEnd(hotRoot) != "" ==> Base(cwd, hotRoot) == StripEnd(hotRoot)
    ensures (forall k :: 0 <= k < |hotRoot| ==> hotRoot[k] == '/') ==> Base(cwd, hotRoot) == cwd
  {
    StripEndMeaning(hotRoot);
    hide StripEnd;
  }

  ghost predicate MirroredJobs(jobs: seq<Job>, cwd: string, hotRoot: string) {
    && (forall j :: j in jobs ==> NcSource(j.src) && j.dst == Located(cwd, Destination(hotRoot, j.src)))
    && (forall i, j :: 0 <= i < j < |jobs| ==> jobs[i].src != jobs[j].src)
  }

  /** Every destination is the source's own path below one directory. */
  lemma DestinationShape(cwd: string, hotRoot: string, src: string)
    requires NcSource(src)
    ensures Located(cwd, Destination(hotRoot, src)) == Base(cwd, hotRoot) + src
    ensures src[|src| - 1] == 'c'
  {
    var root, rel := StripEnd(hotRoot), src[1..];
    assert src[|src| - 3..][2] == 'c';
    assert StripStart(src) == StripStart(rel) == rel;
    assert src == "/" + rel;
    if root == "" {
      assert cwd + "/" + rel == cwd + src;
    } else {
      assert root + "/" + rel == root + src;
      assert ("/" <= root + src) == ("/" <= root);
      assert cwd + "/" + (root + src) == (cwd + "/" + root) + src;
    }
  }

  /** Distinct sources get distinct destinations and temporaries, and no temporary is
      any job's destination. */
  lemma MirroredPathsApart(jobs: seq<Job>, cwd: string, hotRoot: string)
    requires MirroredJobs(jobs, cwd, hotRoot)
    ensures PathsApart(jobs)
  {
    hide Base, Destination, Located;
    var base := Base(cwd, hotRoot);
    forall j | j in jobs ensures j.dst == base + j.src && j.src[|j.src| - 1] == 'c' {
      DestinationShape(cwd, hotRoot, j.src);
    }
    forall i, j | 0 <= i < j < |jobs|
      ensures jobs[i].dst != jobs[j].dst && Temp(jobs[i]) != Temp(jobs[j])
    {
      assert jobs[i] in jobs && jobs[j] in jobs;
      DistinctBelow(base, jobs[i].src, jobs[j].src);
      if Temp(jobs[i]) == Temp(jobs[j]) {
        SuffixCancel(jobs[i].dst, jobs[j].dst, ".tmp");
      }
    }
    forall i, j | 0 <= i < |jobs| && 0 <= j < |jobs| ensures Temp(jobs[i]) != jobs[j].dst {
      assert jobs[j] in jobs;
      TempEnd(jobs[i]);
      assert jobs[j].dst[|jobs[j].dst| - 1] == jobs[j].src[|jobs[j].src| - 1];
    }
  }

  lemma TempEnd(j: Job)
    ensures Temp(j)[|Temp(j)| - 1] == 'p'
  {
  }

  lemma DistinctBelow(base: string, a: string, b: string)
    requires a != b
    ensures base + a != base + b
  {
    assert (base + a)[|base|..] == a && (base + b)[|base|..] == b;
  }

  /** No worker ever writes a source, as long as no source lies below the directory that
      holds the destinations, wherever the program is started. */
  lemma MirroredSourcesUntouched(jobs: seq<Job>, cwd: string, hotRoot: string)
    requires MirroredJobs(jobs, cwd, hotRoot)
    requires forall j :: j in jobs ==> !(Base(cwd, hotRoot) + "/" <= j.src)
    ensures SourcesUntouched(jobs)
  {
    hide Base, Destination, Located;
    var base := Base(cwd, hotRoot);
    forall i, j | 0 <= i < |jobs| && 0 <= j < |jobs|
      ensures jobs[i].src != jobs[j].dst && jobs[i].src != Temp(jobs[j])
    {
      assert jobs[i] in jobs && jobs[j] in jobs;
      DestinationShape(cwd, hotRoot, jobs[j].src);
      DestinationShape(cwd, hotRoot, jobs[i].src);
      TempEnd(jobs[j]);
      assert base + "/" <= base + jobs[j].src;
    }
  }

  // The invariant of every run.

  ghost predicate WorkerOk(j: Job, p: Phase, fs: FileSystem, before: FileSystem, transcode: Content -> Content) {
    && (match p
        case Writing(source, done) =>
          done <= |transcode(source)| && Read(fs, Temp(j)) == Some(transcode(source)[..done])
        case Closed(source) => Read(fs, Temp(j)) == Some(transcode(source))
        case Returned(ok, published) => ok ==> published.Some?
        case _ => true)
    && Read(fs, j.dst) == match Published(p)
                          case Some(source) => Some(transcode(source))
                          case None => Read(before, j.dst)
  }

  ghost predicate Inv(jobs: seq<Job>, s: State, before: FileSystem, transcode: Content -> Content) {
    && |s.pc| == |jobs|
    && forall i :: 0 <= i < |jobs| ==> WorkerOk(jobs[i], s.pc[i], s.fs, before, transcode)
  }

  ghost predicate Mine(j: Job, path: string) {
    path == j.dst || path == Temp(j)
  }

  lemma StepFrame(j: Job, p: Phase, fs: FileSystem, transcode: Content -> Content, path: string)
    requires !Mine(j, path)
    ensures Read(StepWorker(j, p, fs, transcode).0, path) == Read(fs, path)
  {
  }

  lemma StepOwn(j: Job, p: Phase, fs: FileSystem, before: FileSystem, transcode: Content -> Content)
    requires Temp(j) != j.dst && WorkerOk(j, p, fs, before, transcode)
    ensures var (fs', p') := StepWorker(j, p, fs, transcode); WorkerOk(j, p', fs', before, transcode)
  {
    match p {
      case Writing(source, done) =>
        var full := transcode(source);
        if done == |full| {
          assert full[..done] == full;
        }
      case _ =>
    }
  }

  lemma OthersApart(jobs: seq<Job>, i: nat, k: nat)
    requires PathsApart(jobs) && i < |jobs| && k < |jobs| && i != k
    ensures !Mine(jobs[i], jobs[k].dst) && !Mine(jobs[i], Temp(jobs[k]))
  {
    if i < k {
      assert jobs[i].dst != jobs[k].dst;
    } else {
      assert jobs[k].dst != jobs[i].dst;
    }
  }

  lemma StepKeepsInv(jobs: seq<Job>, s: State, ev: Event, before: FileSystem, transcode: Content -> Content)
    requires PathsApart(jobs) && Inv(jobs, s, before, transcode)
    ensures Inv(jobs, Step(jobs, transcode, s, ev), before, transcode)
  {
    var s' := Step(jobs, transcode, s, ev);
    var i := ev.job;
    if i < |jobs| && !s.pc[i].Returned? && ev.Advance? {
      StepOwn(jobs[i], s.pc[i], s.fs, before, transcode);
      forall k | 0 <= k < |jobs| && k != i
        ensures WorkerOk(jobs[k], s'.pc[k], s'.fs, before, transcode)
      {
        OthersApart(jobs, i, k);
        StepFrame(jobs[i], s.pc[i], s.fs, transcode, jobs[k].dst);
        StepFrame(jobs[i], s.pc[i], s.fs, transcode, Temp(jobs[k]));
        assert WorkerOk(jobs[k], s.pc[k], s.fs, before, transcode);
      }
    } else {
      forall k | 0 <= k < |jobs| ensures WorkerOk(jobs[k], s'.pc[k], s'.fs, before, transcode) {
        assert WorkerOk(jobs[k], s.pc[k], s.fs, before, transcode);
      }
    }
  }

  lemma {:induction false} RunKeepsInv(jobs: seq<Job>, transcode: Content -> Content, before: FileSystem,
                                       evs: seq<Event>)
    requires PathsApart(jobs)
    ensures Inv(jobs, Run(jobs, transcode, before, evs), before, transcode)
    decreases |evs|
  {
    if evs != [] {
      RunKeepsInv(jobs, transcode, before, evs[..|evs| - 1]);
      StepKeepsInv(jobs, Run(jobs, transcode, before, evs[..|evs| - 1]), evs[|evs| - 1], before, transcode);
    }
  }

  /** Files that are nobody's destination or temporary never change. */
  lemma {:induction false} RunFrame(jobs: seq<Job>, transcode: Content -> Content, before: FileSystem,
                                    evs: seq<Event>, path: string)
    requires forall j :: j in jobs ==> !Mine(j, path)
    ensures Read(Run(jobs, transcode, before, evs).fs, path) == Read(before, path)
    decreases |evs|
  {
    if evs != [] {
      var s, ev := Run(jobs, transcode, before, evs[..|evs| - 1]), evs[|evs| - 1];
      RunFrame(jobs, transcode, before, evs[..|evs| - 1], path);
      if ev.job < |jobs| && ev.Advance? && !s.pc[ev.job].Returned? {
        assert jobs[ev.job] in jobs;
        StepFrame(jobs[ev.job], s.pc[ev.job], s.fs, transcode, path);
      }
    }
  }

  /** The source content a worker opened, in whatever phase it is. */
  function Opened(p: Phase): Option<Content> {
    match p
    case Writing(source, _) => Some(source)
    case Closed(source) => Some(source)
    case _ => Published(p)
  }

  /** With sources untouched, whatever a worker opened is the original source. */
  lemma {:induction false} OpensOriginal(jobs: seq<Job>, transcode: Content -> Content, before: FileSystem,
                                         evs: seq<Event>, i: nat)
    requires SourcesUntouched(jobs) && i < |jobs|
    ensures var o := Opened(Run(jobs, transcode, before, evs).pc[i]);
      o.Some? ==> o == Read(before, jobs[i].src)
    decreases |evs|
  {
    if evs != [] {
      var front := evs[..|evs| - 1];
      OpensOriginal(jobs, transcode, before, front, i);
      forall j | j in jobs ensures !Mine(j, jobs[i].src) {
        var k :| 0 <= k < |jobs| && jobs[k] == j;
        assert jobs[i].src != jobs[k].dst && jobs[i].src != Temp(jobs[k]);
      }
      RunFrame(jobs, transcode, before, front, jobs[i].src);
    }
  }

  // The promises.

  /** Atomic publication: at every point of every schedule, with any worker failing
      anywhere, a reader of a destination sees what was there before or the complete
      transcoding of that job's source. */
  lemma ReadersSeeWholeFiles(jobs: seq<Job>, transcode: Content -> Content, before: FileSystem, evs: seq<Event>, i: nat)
    requires PathsApart(jobs) && SourcesUntouched(jobs) && i < |jobs|
    ensures var seen := Read(Run(jobs, transcode, before, evs).fs, jobs[i].dst);
      || seen == Read(before, jobs[i].dst)
      || (jobs[i].src in before && seen == Some(transcode(before[jobs[i].src])))
  {
    RunKeepsInv(jobs, transcode, before, evs);
    OpensOriginal(jobs, transcode, before, evs, i);
    var s := Run(jobs, transcode, before, evs);
    assert WorkerOk(jobs[i], s.pc[i], s.fs, before, transcode);
  }

  /** Even where a destination is itself some job's source, a reader sees the old file
      or a complete transcoding of what the worker opened. */
  lemma ReadersSeeSomethingWhole(jobs: seq<Job>, transcode: Content -> Content, before: FileSystem,
                                 evs: seq<Event>, i: nat)
    requires PathsApart(jobs) && i < |jobs|
    ensures var s := Run(jobs, transcode, before, evs);
      var seen, source := Read(s.fs, jobs[i].dst), Opened(s.pc[i]);
      seen == Read(before, jobs[i].dst) || (source.Some? && seen == Some(transcode(source.value)))
  {
    RunKeepsInv(jobs, transcode, before, evs);
    var s := Run(jobs, transcode, before, evs);
    assert WorkerOk(jobs[i], s.pc[i], s.fs, before, transcode);
  }

  /** A published file is never taken back or changed by anything that happens later. */
  lemma {:induction false} PublishedStays(jobs: seq<Job>, transcode: Content -> Content, before: FileSystem,
                                          evs: seq<Event>, more: seq<Event>, i: nat)
    requires PathsApart(jobs) && i < |jobs|
    requires Published(Run(jobs, transcode, before, evs).pc[i]).Some?
    ensures Published(Run(jobs, transcode, before, evs + more).pc[i])
         == Published(Run(jobs, transcode, before, evs).pc[i])
    ensures Read(Run(jobs, transcode, before, evs + more).fs, jobs[i].dst)
         == Read(Run(jobs, transcode, before, evs).fs, jobs[i].dst)
    decreases |more|
  {
    RunKeepsInv(jobs, transcode, before, evs);
    RunKeepsInv(jobs, transcode, before, evs + more);
    if more == [] {
      assert evs + more == evs;
    } else {
      PublishedStays(jobs, transcode, before, evs, more[..|more| - 1], i);
      assert (evs + more)[..|evs + more| - 1] == evs + more[..|more| - 1];
    }
    var s, s' := Run(jobs, transcode, before, evs), Run(jobs, transcode, before, evs + more);
    assert WorkerOk(jobs[i], s.pc[i], s.fs, before, transcode);
    assert WorkerOk(jobs[i], s'.pc[i], s'.fs, before, transcode);
  }

  /** What main tallies from the workers' results, in job order. */
  datatype Result = Result(ok: bool, srcBytes: nat, dstBytes: nat)

  function Successes(rs: seq<Result>): nat {
    if rs == [] then 0 else Successes(rs[..|rs| - 1]) + if rs[|rs| - 1].ok then 1 else 0
  }

  function SuccessBytes(rs: seq<Result>): (nat, nat) {
    if rs == [] then (0, 0)
    else
      var (a, b) := SuccessBytes(rs[..|rs| - 1]);
      var r := rs[|rs| - 1];
      if r.ok then (a + r.srcBytes, b + r.dstBytes) else (a, b)
  }

  /** The sizes of the successes, zero for the others. */
  function SourceSizes(rs: seq<Result>): (r: seq<real>)
    ensures |r| == |rs| && forall k :: 0 <= k < |rs| ==> r[k] == if rs[k].ok then rs[k].srcBytes as real else 0.0
  {
    seq(|rs|, k requires 0 <= k < |rs| => if rs[k].ok then rs[k].srcBytes as real else 0.0)
  }

  function WrittenSizes(rs: seq<Result>): (r: seq<real>)
    ensures |r| == |rs| && forall k :: 0 <= k < |rs| ==> r[k] == if rs[k].ok then rs[k].dstBytes as real else 0.0
  {
    seq(|rs|, k requires 0 <= k < |rs| => if rs[k].ok then rs[k].dstBytes as real else 0.0)
  }

  lemma {:induction false} ByteTotals(rs: seq<Result>)
    ensures SuccessBytes(rs).0 as real == Sum(SourceSizes(rs))
    ensures SuccessBytes(rs).1 as real == Sum(WrittenSizes(rs))
    decreases |rs|
  {
    if rs != [] {
      var n := |rs| - 1;
      ByteTotals(rs[..n]);
      assert SourceSizes(rs)[..n] == SourceSizes(rs[..n]) && WrittenSizes(rs)[..n] == WrittenSizes(rs[..n]);
    }
  }

  lemma {:induction false} AllSucceed(rs: seq<Result>)
    ensures Successes(rs) <= |rs|
    ensures Successes(rs) == |rs| <==> forall r :: r in rs ==> r.ok
    decreases |rs|
  {
    if rs != [] {
      AllSucceed(rs[..|rs| - 1]);
      assert rs == rs[..|rs| - 1] + [rs[|rs| - 1]];
    }
  }

  /** main's verdict: exit status zero exactly when every job succeeded. */
  method Verdict(results: seq<Result>) returns (status: int, srcTotal: nat, dstTotal: nat)
    ensures status == 0 <==> forall r :: r in results ==> r.ok
    ensures status == 0 || status == 1
    ensures (srcTotal, dstTotal) == SuccessBytes(results)
    ensures srcTotal as real == Sum(SourceSizes(results)) && dstTotal as real == Sum(WrittenSizes(results))
  {
    var ok := 0;
    srcTotal, dstTotal := 0, 0;
    for i := 0 to |results|
      invariant ok == Successes(results[..i])
      invariant (srcTotal, dstTotal) == SuccessBytes(results[..i])
    {
      assert results[..i + 1][..i] == results[..i];
      if results[i].ok {
        ok := ok + 1;
        srcTotal := srcTotal + results[i].srcBytes;
        dstTotal := dstTotal + results[i].dstBytes;
      }
    }
    assert results[..|results|] == results;
    AllSucceed(results);
    ByteTotals(results);
    status := if ok == |results| then 0 else 1;
  }

  /** results are what the workers of a finished run returned. */
  ghost predicate ResultsOf(results: seq<Result>, s: State) {
    && |results| == |s.pc|
    && forall i :: 0 <= i < |results| ==> s.pc[i].Returned? && results[i].ok == s.pc[i].ok
  }

  /** If every worker reports success, which is when the status is zero, every
      destination holds the complete transcoding of its source. */
  lemma SuccessMeansComplete(jobs: seq<Job>, transcode: Content -> Content, before: FileSystem,
                             evs: seq<Event>, results: seq<Result>, i: nat)
    requires PathsApart(jobs) && SourcesUntouched(jobs) && i < |jobs|
    requires ResultsOf(results, Run(jobs, transcode, before, evs))
    requires forall r :: r in results ==> r.ok
    ensures jobs[i].src in before
    ensures Read(Run(jobs, transcode, before, evs).fs, jobs[i].dst) == Some(transcode(before[jobs[i].src]))
  {
    RunKeepsInv(jobs, transcode, before, evs);
    OpensOriginal(jobs, transcode, before, evs, i);
    var s := Run(jobs, transcode, before, evs);
    assert WorkerOk(jobs[i], s.pc[i], s.fs, before, transcode);
    assert results[i] in results;
  }

  /** The jobs of main, their destinations resolved from the working directory. */
  function LocatedJobs(files: seq<string>, cwd: string, hotRoot: string): (jobs: seq<Job>)
    ensures |jobs| == |files|
    ensures forall i :: 0 <= i < |files| ==>
      jobs[i].src == files[i] && jobs[i].dst == Located(cwd, Destination(hotRoot, files[i]))
  {
    seq(|files|, i requires 0 <= i < |files| => Job(files[i], Located(cwd, Destination(hotRoot, files[i]))))
  }

  /** The source files of main: distinct absolute NetCDF paths, none below the directory
      that holds the destinations. */
  ghost predicate Sources(files: seq<string>, cwd: string, hotRoot: string) {
    && NoRepeats(files)
    && forall f :: f in files ==> NcSource(f) && !(Base(cwd, hotRoot) + "/" <= f)
  }

  lemma LocatedJobsApart(files: seq<string>, cwd: string, hotRoot: string)
    requires Sources(files, cwd, hotRoot)
    ensures PathsApart(LocatedJobs(files, cwd, hotRoot)) && SourcesUntouched(LocatedJobs(files, cwd, hotRoot))
    ensures forall i :: 0 <= i < |files| ==>
      LocatedJobs(files, cwd, hotRoot)[i].dst == Base(cwd, hotRoot) + files[i]
  {
    hide NcSource, Base, Located, Destination, PathsApart, SourcesUntouched;
    var jobs := LocatedJobs(files, cwd, hotRoot);
    forall j | j in jobs
      ensures NcSource(j.src) && j.dst == Located(cwd, Destination(hotRoot, j.src))
      ensures !(Base(cwd, hotRoot) + "/" <= j.src)
    {
      var i :| 0 <= i < |jobs| && jobs[i] == j;
      assert files[i] in files;
    }
    MirroredPathsApart(jobs, cwd, hotRoot);
    MirroredSourcesUntouched(jobs, cwd, hotRoot);
    forall i | 0 <= i < |files| ensures jobs[i].dst == Base(cwd, hotRoot) + files[i] {
      assert files[i] in files;
      DestinationShape(cwd, hotRoot, files[i]);
    }
  }

  /** The whole program: at every point of every run a reader of a mirrored path sees what
      was there before or the complete transcoding of its source; and if all workers
      report success, which is when the exit status is zero, every mirrored path holds
      that transcoding. */
  lemma MainPublishes(files: seq<string>, cwd: string, hotRoot: string, transcode: Content -> Content,
                      before: FileSystem, evs: seq<Event>, i: nat)
    requires Sources(files, cwd, hotRoot) && i < |files|
    ensures var jobs := LocatedJobs(files, cwd, hotRoot);
      var s := Run(jobs, transcode, before, evs);
      var mirrored := Base(cwd, hotRoot) + files[i];
      && (Read(s.fs, mirrored) == Read(before, mirrored) ||
          (files[i] in before && Read(s.fs, mirrored) == Some(transcode(before[files[i]]))))
      && (forall results: seq<Result> :: ResultsOf(results, s) && (forall r :: r in results ==> r.ok) ==>
            files[i] in before && Read(s.fs, mirrored) == Some(transcode(before[files[i]])))
  {
    hide Run, PathsApart, SourcesUntouched, Base;
    var jobs := LocatedJobs(files, cwd, hotRoot);
    LocatedJobsApart(files, cwd, hotRoot);
    ReadersSeeWholeFiles(jobs, transcode, before, evs, i);
    forall results: seq<Result>
      | ResultsOf(results, Run(jobs, transcode, before, evs)) && forall r :: r in results ==> r.ok
      ensures files[i] in before
      ensures Read(Run(jobs, transcode, before, evs).fs, jobs[i].dst) == Some(transcode(before[files[i]]))
    {
      SuccessMeansComplete(jobs, transcode, before, evs, results, i);
    }
  }

  // Progress.

  function Turns(evs: seq<Event>, i: nat): nat {
    if evs == [] then 0
    else Turns(evs[..|evs| - 1], i) + if evs[|evs| - 1] == Advance(i) then 1 else 0
  }

  /** Steps a worker has behind it, out of the number it needs in all. */
  function StepsDone(p: Phase, size: nat): nat {
    match p
    case Idle => 0
    case Writing(_, done) => 1 + done
    case Closed(_) => size + 2
    case Replaced(_) => size + 3
    case Returned(_, _) => size + 4
  }

  lemma {:induction false} WorkerProgress(jobs: seq<Job>, transcode: Content -> Content, before: FileSystem,
                                          evs: seq<Event>, i: nat)
    requires PathsApart(jobs) && SourcesUntouched(jobs) && i < |jobs| && jobs[i].src in before
    requires Fail(i) !in evs
    ensures var size, p := |transcode(before[jobs[i].src])|, Run(jobs, transcode, before, evs).pc[i];
      && (p.Returned? ==> p.ok)
      && (p.Returned? || StepsDone(p, size) == Turns(evs, i))
    decreases |evs|
  {
    if evs != [] {
      var front, ev := evs[..|evs| - 1], evs[|evs| - 1];
      assert ev in evs && forall e :: e in front ==> e in evs;
      WorkerProgress(jobs, transcode, before, front, i);
      if ev == Advance(i) {
        RunKeepsInv(jobs, transcode, before, front);
        OpensOriginal(jobs, transcode, before, front, i);
        forall j | j in jobs ensures !Mine(j, jobs[i].src) {
          var k :| 0 <= k < |jobs| && jobs[k] == j;
          assert jobs[i].src != jobs[k].dst && jobs[i].src != Temp(jobs[k]);
        }
        RunFrame(jobs, transcode, before, front, jobs[i].src);
        var s := Run(jobs, transcode, before, front);
        assert WorkerOk(jobs[i], s.pc[i], s.fs, before, transcode);
      }
    }
  }

  /** A worker that never fails and is scheduled often enough succeeds, whatever the
      other workers do or suffer. */
  lemma ScheduledWorkerSucceeds(jobs: seq<Job>, transcode: Content -> Content, before: FileSystem,
                                evs: seq<Event>, i: nat)
    requires PathsApart(jobs) && SourcesUntouched(jobs) && i < |jobs| && jobs[i].src in before
    requires Fail(i) !in evs && Turns(evs, i) >= |transcode(before[jobs[i].src])| + 4
    ensures var s := Run(jobs, transcode, before, evs);
      && s.pc[i] == Returned(true, Some(before[jobs[i].src]))
      && Read(s.fs, jobs[i].dst) == Some(transcode(before[jobs[i].src]))
  {
    WorkerProgress(jobs, transcode, before, evs, i);
    RunKeepsInv(jobs, transcode, before, evs);
    OpensOriginal(jobs, transcode, before, evs, i);
    var s := Run(jobs, transcode, before, evs);
    assert WorkerOk(jobs[i], s.pc[i], s.fs, before, transcode);
  }
}
