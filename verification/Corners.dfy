/** Two concrete runs on which the obvious statements about the store fail. Each shows that the guard of
    a theorem elsewhere excludes something that can really happen: `Replay.Reopenable` a consolidation
    begun without inputs, `Leases.CommitReleases` a stage 1 job named like the consolidation job. */
module Corners {
  import opened Types
  import opened Text
  import opened Normalization
  import opened Selection
  import opened MemoryTree
  import opened Aliases
  import opened Engine
  import opened History
  import opened Counting
  import opened Replay
  import opened JobSteps
  import opened Leases
  import opened Requests
  import opened Retries

  const TOKEN := "0123456789abcdef0123456789abcdef0123456789abcdef0123456789abcdef"
  const RANDOM := Entropy(Some(TOKEN), Some(TOKEN))

  function CommandRequest(requestId: string, op: Operation, cmd: JobCommand): NativeRequest {
    BackgroundRequest(requestId, op, cmd, "", [])
  }

  lemma CommandWellFormed(cx: Codec, requestId: string, op: Operation, cmd: JobCommand)
    requires SmallRequestsFit(cx) && LogicalId(requestId) && JobOperation(op) && !op.OtherJobOperation? &&
        JobOk(cmd) && cmd.inputWatermark == 0
    ensures WellFormed(cx, CommandRequest(requestId, op, cmd))
    ensures NormalForm(cx, CommandRequest(requestId, op, cmd)) == CommandRequest(requestId, op, cmd)
  {
    var q := CommandRequest(requestId, op, cmd);
    assert HeaderOk(q) && Small(q);
  }

  // ----- entries that fit -----

  predicate SmallJob(j: Job) {
    && !j.kind.UnknownKind? && |j.jobId| <= 128 && |j.inputVersion| <= 256 && j.inputWatermark == 0
    && |j.leaseToken| <= 128 && |j.transactionId| <= 128 && |j.failure| <= 1024
    && (j.leaseExpiresAt.Some? ==> 0 <= j.leaseExpiresAt.value <= 3600 * SECOND)
    && (j.selected.Some? ==> j.selected.value == map[])
    && j.revision <= MAX_REVISION && j.memoryGeneration <= MAX_REVISION && j.selectionLimit <= 10_000
  }

  predicate SmallRecord(r: Record) {
    && r.V2? && HeaderOk(r.v2.request) && Small(r.v2.request) && |r.v2.digest| == 64
    && r.v2.sequence <= MAX_REVISION && r.v2.time == 0
    && r.v2.result.commitSequence <= MAX_REVISION && r.v2.result.memoryGeneration <= MAX_REVISION
    && |r.v2.result.jobs| <= 2 && forall j :: j in r.v2.result.jobs ==> SmallJob(j)
  }

  /** A small request, and a record of one with a receipt of at most two small jobs, is far below the bound
      on an entry; a digest has 64 digits. */
  ghost predicate SmallFits(cx: Codec) {
    && SmallRequestsFit(cx)
    && (forall r :: SmallRecord(r) ==> Fits(cx, r))
    && (forall q :: |cx.digest(q)| == 64)
  }

  lemma {:induction false} BumpsAtMost(log: seq<Record>)
    ensures Bumps(log) <= |log|
  {
    hide BumpsGeneration;
    if log != [] {
      BumpsAtMost(log[..|log| - 1]);
    }
  }

  lemma SmallSteps(cx: Codec, log: seq<Record>)
    requires IsHistory(cx, log) && |log| <= 10
    ensures StateOf(log).sequence <= 10 && StateOf(log).memoryGeneration <= 10
  {
    hide IsHistory, StateOf, Bumps;
    SequenceCountsRecords(cx, log);
    GenerationCountsBumps(cx, log);
    BumpsAtMost(log);
  }

  lemma ReceiptFits(cx: Codec, s: State, r: NativeRecord, jobs: seq<Job>)
    requires SmallFits(cx) && s.sequence <= 10 && s.memoryGeneration <= 10 && r.sequence == s.sequence + 1 &&
        r.time == 0
    requires HeaderOk(r.request) && Small(r.request) && r.digest == cx.digest(r.request) &&
        r.result == Commit(cx, s, r.request, jobs)
    requires |jobs| <= 2 && forall j :: j in jobs ==> SmallJob(j)
    ensures Fits(cx, V2(r))
  {
    hide HeaderOk, Small, ResourcesOf, ChangesMemory, Fits;
    forall j | j in r.result.jobs
      ensures SmallJob(j)
    {
      var i :| 0 <= i < |r.result.jobs| && r.result.jobs[i] == j;
      assert jobs[i] in jobs;
    }
    assert SmallRecord(V2(r));
  }

  /** A request that the job state machine accepts can be appended to any run. */
  lemma Extend(cx: Codec, log: seq<Record>, q: NativeRequest, jobs: seq<Job>)
      returns (longer: seq<Record>, r: NativeRecord)
    requires IsHistory(cx, log) && WellFormed(cx, q) && q.job.Some? && FreshId(StateOf(log), q.requestId)
    requires ChangesRefusal(cx, StateOf(log), NormalForm(cx, q)) == NoReason
    requires JobVerdict(cx, StateOf(log), NormalForm(cx, q), q.job.value, 0, None, RANDOM) == Accept(jobs)
    requires SmallFits(cx) && AllFit(cx, log) && |log| <= 10 && Small(NormalForm(cx, q))
    requires |jobs| <= 2 && forall j :: j in jobs ==> SmallJob(j)
    ensures AllFit(cx, longer)
    ensures longer == log + [V2(r)] && IsHistory(cx, longer) && StateOf(longer) == ApplyNative(StateOf(log), r)
    ensures r.request == NormalForm(cx, q) && r.time == 0 &&
        r.result == Commit(cx, StateOf(log), NormalForm(cx, q), jobs)
    ensures AppendsNative(cx, StateOf(log), r)
  {
    hide WellFormed, NormalForm, JobVerdict, ChangesRefusal, Commit, SmallFits, Small, SmallJob, HeaderOk, Fits;
    var s, n := StateOf(log), NormalForm(cx, q);
    NormalizeCanonical(cx, q);
    assert n.job == q.job && n.requestId == q.requestId by { NormalFormKeeps(cx, q); }
    r := NativeRecord(s.sequence + 1, 0, n, cx.digest(n), Commit(cx, s, n, jobs));
    assert EvaluateNative(cx, s, n, 0, None, RANDOM) == Ok(r.result);
    longer := log + [V2(r)];
    HistorySnoc(cx, log, V2(r));
    SmallSteps(cx, log);
    ReceiptFits(cx, s, r, jobs);
  }

  lemma NormalFormKeeps(cx: Codec, q: NativeRequest)
    ensures NormalForm(cx, q) == q.(changes := NormalForm(cx, q).changes)
  {
  }

  /** A command without changes stores its job and touches no resource. */
  lemma ExtendCommand(cx: Codec, log: seq<Record>, requestId: string, op: Operation, cmd: JobCommand, job: Job)
      returns (longer: seq<Record>)
    requires IsHistory(cx, log) && SmallFits(cx) && AllFit(cx, log) && |log| <= 10 && FreshId(StateOf(log), requestId)
    requires LogicalId(requestId) && JobOperation(op) && !op.OtherJobOperation? && JobOk(cmd) && cmd.inputWatermark == 0
    requires JobVerdict(cx, StateOf(log), CommandRequest(requestId, op, cmd), cmd, 0, None, RANDOM) == Accept([job])
    requires SmallJob(job)
    ensures AllFit(cx, longer)
    ensures |longer| == |log| + 1 && longer[..|log|] == log && IsHistory(cx, longer)
    ensures Does(longer[|log|], op) && longer[|log|].v2.result.jobs == [job]
    ensures longer[|log|].v2.request == CommandRequest(requestId, op, cmd)
    ensures var s, t := StateOf(log), StateOf(longer);
            && t.nativeJobs == s.nativeJobs[job.jobId := JsonJob(job)]
            && t.native == s.native && t.requests == s.requests && t.memoryGeneration == s.memoryGeneration
            && t.nativeRequests.Keys == s.nativeRequests.Keys + {requestId}
  {
    hide JobVerdict, SmallRequestsFit, JobOk, ValidMemoryPaths, AppendsNative, SmallJob, Fits, AllFit;
    var q := CommandRequest(requestId, op, cmd);
    CommandWellFormed(cx, requestId, op, cmd);
    assert ChangesRefusal(cx, StateOf(log), q) == NoReason by {
      HistoryOk(cx, log);
      NothingShown(StateOf(log).native);
    }
    var r;
    longer, r := Extend(cx, log, q, [job]);
    StoredOneOrTwo(StateOf(log).nativeJobs, [job]);
  }

  lemma NothingShown(native: map<Key, Resource>)
    requires TreeOk(Shown(native))
    ensures ValidMemoryPaths(native, [])
  {
    assert ShownAfter(native, []) == Shown(native);
  }

  // ----- a first stage 1 output -----

  function Waiting(id: string, version: string): Job {
    NewJob(id, Stage1Kind).(inputVersion := version)
  }

  function Granted(id: string): Job {
    Waiting(id, "1").(revision := 2, status := Leased, leaseToken := TOKEN, leaseExpiresAt := Some(60 * SECOND))
  }

  const ENQUEUE := NO_COMMAND.(kind := Stage1Kind, inputVersion := "1")
  const GRANT := NO_COMMAND.(leaseSeconds := 60)

  lemma ArtifactPathsValid(id: string)
    requires LogicalId(id)
    ensures ValidPath(RawKey(id).name) && ValidPath(SummaryKey(id).name)
  {
    hide ValidPath, LogicalId;
    FileNameValid(id);
    assert "raw" + "/" == "raw/" && "summary" + "/" == "summary/";
    InDirectory("raw", id + ".md");
    InDirectory("summary", id + ".md");
    assert RawKey(id).name == "raw/" + (id + ".md") && SummaryKey(id).name == "summary/" + (id + ".md");
  }

  predicate PlainName(file: string) {
    && 2 <= |file| <= 200 && file[0] != '.'
    && forall i :: 0 <= i < |file| ==> 32 < file[i] as int < 127 && file[i] != '\\' && file[i] != ':' && file[i] != '/'
  }

  lemma FileNameValid(id: string)
    requires LogicalId(id)
    ensures PlainName(id + ".md")
  {
  }

  lemma InDirectory(directory: string, file: string)
    requires PlainName(file) && PlainName(directory)
    ensures ValidPath(directory + "/" + file)
  {
    var p := directory + "/" + file;
    assert p[|directory|] == '/' && p[|directory| + 1..] == file && p[..|directory|] == directory;
    assert Split(file, '/') == [file];
    assert IndexOf(p, '/') == |directory|;
    assert Split(p, '/') == [directory, file];
  }

  lemma FirstVerdicts(cx: Codec, s: State, id: string)
    requires s.memoryGeneration == 0
    ensures s.nativeJobs == map[] ==>
              Enqueue(s, CommandRequest("r1", Stage1Enqueue, ENQUEUE.(jobId := id)), ENQUEUE.(jobId := id)) ==
                  Accept([Waiting(id, "1")])
    ensures s.nativeJobs == map[id := Waiting(id, "1")] ==>
              Claim(s, CommandRequest("r2", JobClaim, GRANT.(jobId := id)), GRANT.(jobId := id), 0, None, RANDOM) ==
                  Accept([Granted(id)])
  {
  }

  lemma FirstJobsSmall(id: string)
    requires LogicalId(id)
    ensures SmallJob(Waiting(id, "1")) && SmallJob(Granted(id)) && SmallJob(Finished(Granted(id), 0))
    ensures SmallJob(Requeued(map[id := Granted(id)]))
  {
  }

  /** Enqueue and claim a stage 1 job. */
  lemma ClaimedRun(cx: Codec, id: string) returns (log: seq<Record>)
    requires SmallFits(cx) && LogicalId(id)
    ensures IsHistory(cx, log) && AllFit(cx, log) && |log| == 2
    ensures StateOf(log).nativeJobs == map[id := Granted(id)] && StateOf(log).native == map[] &&
        StateOf(log).requests == map[]
    ensures StateOf(log).memoryGeneration == 0 && StateOf(log).nativeRequests.Keys == {"r1", "r2"}
  {
    hide SmallFits, Appends, LogicalId, Enqueue, Claim, Fits, SmallJob;
    SmallIds();
    FirstJobsSmall(id);
    log := [];
    FirstVerdicts(cx, StateOf(log), id);
    log := ExtendCommand(cx, log, "r1", Stage1Enqueue, ENQUEUE.(jobId := id), Waiting(id, "1"));
    FirstVerdicts(cx, StateOf(log), id);
    log := ExtendCommand(cx, log, "r2", JobClaim, GRANT.(jobId := id), Granted(id));
  }

  lemma SmallIds()
    ensures LogicalId("r1") && LogicalId("r2") && LogicalId("r3") && LogicalId("r4") && LogicalId("r5")
    ensures LogicalId("a") && LogicalId(GLOBAL)
  {
  }

  function Output(id: string): NativeRequest {
    BackgroundRequest("r3", Stage1Commit, NO_COMMAND.(jobId := id, leaseToken := TOKEN), "",
        [Write(RawKey(id), 0, "x"), Write(SummaryKey(id), 0, "y")])
  }

  lemma OutputWellFormed(cx: Codec, id: string)
    requires SmallRequestsFit(cx) && LogicalId(id)
    ensures WellFormed(cx, Output(id))
    ensures Stage1Artifacts(Output(id).job.value, NormalForm(cx, Output(id)).changes) &&
        NormalForm(cx, Output(id)).changes != []
    ensures Small(NormalForm(cx, Output(id)))
    ensures forall c :: c in NormalForm(cx, Output(id)).changes ==> c in Output(id).changes
  {
    hide ValidPath, Sort, SmallRequestsFit;
    var q := Output(id);
    ArtifactPathsValid(id);
    ArtifactKeysDistinct(id, id);
    TwoChangesOk(cx, q.changes[0], q.changes[1]);
    SmallIds();
    assert |RawKey(id).name| <= 1024 && |SummaryKey(id).name| <= 1024;
    OutputFits(cx, q);
    NormalChanges(cx, q);
    SortPermutes(HashChanges(cx, q.changes), By(KeyText));
    assert forall c :: c in q.changes ==> HashChange(cx, c) == c;
    assert q.changes[0] in q.changes && q.changes[1] in q.changes;
  }

  lemma OutputFits(cx: Codec, q: NativeRequest)
    requires SmallRequestsFit(cx) && HeaderOk(q) && Small(q)
    ensures cx.requestSize(q) <= NATIVE_TRANSACTION_BYTES
  {
  }

  lemma OutputTree(changes: seq<Change>, id: string)
    requires forall c :: c in changes ==> c in Output(id).changes
    ensures ValidMemoryPaths(map[], changes)
  {
    assert ShownAfter(map[], changes) <= {RawKey(id), SummaryKey(id)};
    var a, b := MemoryPath(RawKey(id)), MemoryPath(SummaryKey(id));
    assert a[18] == 'r' && b[18] == 's';
    assert a[17] == '/' && b[17] == '/';
  }

  /** Fresh artifacts pass the checks on changes in a store without resources. */
  lemma OutputAllowed(cx: Codec, s: State, q: NativeRequest, id: string)
    requires s.native == map[] && forall c :: c in q.changes ==> c in Output(id).changes
    ensures ChangesRefusal(cx, s, q) == NoReason
  {
    hide ValidMemoryPaths;
    NoAliasRefusal(cx, s.objects, q, q.changes);
    OutputTree(q.changes, id);
  }

  lemma OutputVerdict(cx: Codec, s: State, q: NativeRequest, id: string)
    requires s.nativeJobs == map[id := Granted(id)]
    requires q.operation == Stage1Commit && q.job == Output(id).job && Stage1Artifacts(q.job.value, q.changes) &&
        q.changes != []
    ensures JobVerdict(cx, s, q, q.job.value, 0, None, RANDOM) == Accept([Finished(Granted(id), 0),
        Requeued(s.nativeJobs)])
  {
    hide Stage1Artifacts, Requeued;
  }

  lemma AppliedIds(s: State, r: NativeRecord)
    ensures ApplyNative(s, r).requests == s.requests &&
        ApplyNative(s, r).nativeRequests.Keys == s.nativeRequests.Keys + {r.request.requestId}
  {
    hide Publish, StoreJobs;
  }

  /** A stage 1 job that has produced both artifacts, and the consolidation job that this created. */
  lemma OutputRun(cx: Codec, id: string) returns (log: seq<Record>)
    requires SmallFits(cx) && LogicalId(id)
    ensures IsHistory(cx, log) && AllFit(cx, log) && |log| == 3 && log[2].V2? && log[2].v2.request.changes != []
    ensures Concerns(log[2], id) && Does(log[2], Stage1Commit)
    ensures StateOf(log).nativeJobs == map[id := Finished(Granted(id), 1)][GLOBAL := Requeued(map[id := Granted(id)])]
    ensures StateOf(log).requests == map[] && StateOf(log).nativeRequests.Keys == {"r1", "r2", "r3"}
  {
    hide SmallRequestsFit, Small, SmallJob, Fits, AllFit, AppendsNative, LogicalId, WellFormed, NormalForm;
    hide ChangesRefusal, Stage1Artifacts, JobVerdict, ApplyNative, StateOf, IsHistory, Requeued;
    var front := ClaimedRun(cx, id);
    OutputWellFormed(cx, id);
    OutputAllowed(cx, StateOf(front), NormalForm(cx, Output(id)), id);
    NormalFormKeeps(cx, Output(id));
    OutputVerdict(cx, StateOf(front), NormalForm(cx, Output(id)), id);
    HistoryOk(cx, front);
    FirstJobsSmall(id);
    var r;
    log, r := Extend(cx, front, Output(id), [Finished(Granted(id), 0), Requeued(StateOf(front).nativeJobs)]);
    Stage1Step(cx, StateOf(front), r);
    AppliedIds(StateOf(front), r);
    assert log[2] == V2(r);
  }

  // ----- the first run: the stage 1 job is named like the consolidation job -----

  /** The commit with artifacts of a stage 1 job named "global" leaves its lease in place. */
  lemma LeaseSurvivesCommit(cx: Codec) returns (log: seq<Record>)
    requires SmallFits(cx)
    ensures IsHistory(cx, log) && AllFit(cx, log) && log != []
    ensures Concerns(log[|log| - 1], GLOBAL) && Does(log[|log| - 1], Stage1Commit)
    ensures LeaseOf(StateOf(log).nativeJobs, GLOBAL) == Some(Lease(TOKEN, Some(60 * SECOND)))
  {
    hide SmallFits, IsHistory, StateOf, AllFit;
    SmallIds();
    log := OutputRun(cx, GLOBAL);
  }

  // ----- the second run: a consolidation begun without inputs -----

  function Superseded(generation: nat): Job {
    Finished(Granted("a"), 1).(revision := 4, status := Queued, inputVersion := "2", memoryGeneration := generation)
  }

  function Begun(generation: nat): Job {
    NewJob(GLOBAL, Phase2Kind).(revision := 2, status := Leased, leaseToken := TOKEN, transactionId := TOKEN,
      leaseExpiresAt := Some(60 * SECOND), memoryGeneration := generation, selected := Some(map[]))
  }

  lemma LaterJobsSmall(generation: nat)
    requires generation <= 10
    ensures SmallJob(Superseded(generation)) && SmallJob(Begun(generation))
  {
  }

  lemma SupersedeVerdict(cx: Codec, s: State, cmd: JobCommand)
    requires "a" in s.nativeJobs && s.nativeJobs["a"] == Finished(Granted("a"), 1) &&
        cmd == ENQUEUE.(jobId := "a", inputVersion := "2")
    ensures JobVerdict(cx, s, CommandRequest("r4", Stage1Enqueue, cmd), cmd, 0, None, RANDOM) ==
        Accept([Superseded(s.memoryGeneration)])
  {
  }

  lemma BeginVerdict(cx: Codec, s: State, cmd: JobCommand)
    requires s.nativeJobs.Keys == {"a", GLOBAL} && s.nativeJobs["a"].status == Queued
    requires s.nativeJobs[GLOBAL] == NewJob(GLOBAL, Phase2Kind) && cmd == GRANT.(jobId := GLOBAL)
    ensures JobVerdict(cx, s, CommandRequest("r5", Phase2Begin, cmd), cmd, 0, None, RANDOM) ==
        Accept([Begun(s.memoryGeneration)])
  {
    hide Stage1Selection;
    assert EligibleIds(s) == {};
    SelectionEmpty(cx, s, 0);
  }

  /** The only output is superseded by a new input before the consolidation begins. */
  lemma EmptyConsolidationRun(cx: Codec) returns (log: seq<Record>)
    requires SmallFits(cx)
    ensures IsHistory(cx, log) && AllFit(cx, log) && log != [] && EmptyBegin(log[|log| - 1])
  {
    hide SmallFits, SmallJob, IsHistory, StateOf, LogicalId, JobVerdict, AllFit;
    SmallIds();
    var output := OutputRun(cx, "a");
    SmallSteps(cx, output);
    LaterJobsSmall(StateOf(output).memoryGeneration);
    SupersedeVerdict(cx, StateOf(output), ENQUEUE.(jobId := "a", inputVersion := "2"));
    var requeued := ExtendCommand(cx, output, "r4", Stage1Enqueue, ENQUEUE.(jobId := "a", inputVersion := "2"),
        Superseded(StateOf(output).memoryGeneration));
    BeginVerdict(cx, StateOf(requeued), GRANT.(jobId := GLOBAL));
    log := ExtendCommand(cx, requeued, "r5", Phase2Begin, GRANT.(jobId := GLOBAL),
        Begun(StateOf(requeued).memoryGeneration));
  }

  /** The journal of that run cannot be reopened. */
  lemma EmptyConsolidationCannotReopen(cx: Codec, rnd: nat -> Entropy) returns (log: seq<Record>)
    requires SmallFits(cx) && Faithful(cx)
    ensures IsHistory(cx, log) && AllFit(cx, log) && ReplayAll(cx, Written(log), rnd).Err?
  {
    hide SmallFits, IsHistory, Faithful, AllFit, ReplayAll, EmptyBegin;
    log := EmptyConsolidationRun(cx);
    ReplayRefinesRun(cx, log, rnd);
  }
}
