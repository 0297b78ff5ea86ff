/** The pure half of every step of the store: what a request evaluates to in a state, and what
    applying a record does to the state. Evaluation takes the clock and the random tokens as
    arguments; on replay both come from the record. */
module Engine {
  import opened Types
  import opened Text
  import opened Normalization
  import opened Selection
  import opened MemoryTree
  import opened Aliases

  // ----- version 1 -----

  predicate ValidMutation(c: Collection, op: Mutation, q: Request) {
    && !c.UnknownCollection? && !op.UnknownMutation?
    && LogicalId(q.id) && LogicalId(q.requestId)
    && |q.content| <= MAX_CONTENT
    && (op.Delete? ==> q.content == "")
  }

  predicate Frozen(native: map<Key, Resource>, c: Collection, id: string) {
    AliasKey(c, id) in native && !native[AliasKey(c, id)].deleted
  }

  function Evaluate(s: State, c: Collection, op: Mutation, q: Request): (nat, ObjectResult) {
    var exists_ := ObjectKey(c, q.id) in s.objects;
    var o := if exists_ then s.objects[ObjectKey(c, q.id)] else Object(q.id, "", 0, false);
    if Frozen(s.native, c, q.id) then (o.revision, ObjectResult(o, MigratedReadOnly))
    else if o.revision != q.expectedRevision then (o.revision, ObjectResult(o, RevisionConflict))
    else if op.Delete? && (!exists_ || o.deleted) then (o.revision, ObjectResult(o, NotFound))
    else if o.revision == MAX_REVISION then (o.revision, ObjectResult(o, RevisionExhausted))
    else (o.revision, ObjectResult(Object(q.id, q.content, o.revision + 1, op.Delete?), NoReason))
  }

  function ApplyObject(s: State, r: ObjectRecord): State {
    s.(objects := if r.result.error == NoReason then s.objects[ObjectKey(r.collection, r.request.id) := r.result.item]
        else s.objects,
       requests := s.requests[r.request.requestId := r],
       sequence := r.sequence)
  }

  // ----- version 2: checks on the changes -----

  function CasRefusalOf(native: map<Key, Resource>, c: Change): Reason {
    var prev := Current(native, c.key);
    if prev.revision != c.expectedRevision then RevisionConflict
    else if prev.revision == MAX_REVISION then RevisionExhausted
    else if c.deleted && (prev.revision == 0 || prev.deleted) then NotFound
    else NoReason
  }

  function CasRefusal(native: map<Key, Resource>, cs: seq<Change>): (r: Reason)
    ensures r == NoReason <==> forall c :: c in cs ==> CasRefusalOf(native, c) == NoReason
  {
    if cs == [] then NoReason
    else if CasRefusalOf(native, cs[0]) != NoReason then CasRefusalOf(native, cs[0])
    else CasRefusal(native, cs[1..])
  }

  // ----- version 2: the job state machine -----

  predicate ValidLease(j: Job, token: string, now: int) {
    && j.status.Leased? && token != "" && token == j.leaseToken
    && j.leaseExpiresAt.Some? && now < j.leaseExpiresAt.value
  }

  function NewJob(id: string, kind: JobKind): Job {
    Job(id, kind, 1, Queued, "", 0, "", None, "", 0, None, "", 0)
  }

  datatype Verdict = Fault(error: Refusal) | Reject(reason: Reason) | Accept(jobs: seq<Job>)

  /** Whether a job can be granted: it waits, or its lease has run out. */
  function GrantRefusal(j: Job, now: int): Reason {
    if j.status.Leased? then
      if j.leaseExpiresAt.None? || now < j.leaseExpiresAt.value then LeaseUnavailable else NoReason
    else if j.status.Queued? || j.status.Failed? then NoReason
    else JobConflict
  }

  function Deadline(now: int, cmd: JobCommand): int {
    now + cmd.leaseSeconds * SECOND
  }

  function Enqueue(s: State, q: NativeRequest, cmd: JobCommand): Verdict {
    if cmd.kind != Stage1Kind || cmd.inputVersion == "" || q.changes != [] then Reject(JobConflict)
    else if cmd.jobId !in s.nativeJobs then
      Accept([NewJob(cmd.jobId, Stage1Kind).(
        inputVersion := cmd.inputVersion, inputWatermark := cmd.inputWatermark,
            memoryGeneration := s.memoryGeneration)])
    else
      var prev := s.nativeJobs[cmd.jobId];
      if !prev.kind.Stage1Kind? || prev.status.Leased? then Reject(JobConflict)
      else if prev.inputVersion == cmd.inputVersion then Accept([prev])
      else Accept([prev.(
        revision := prev.revision + 1, status := Queued, inputVersion := cmd.inputVersion,
        inputWatermark := cmd.inputWatermark, failure := "", memoryGeneration := s.memoryGeneration)])
  }

  /** The lease token and the transaction id: those of the replayed receipt, or fresh ones. */
  function GrantTokens(replay: Option<NativeResult>, rnd: Entropy): (Option<string>, Option<string>) {
    if replay.Some? && |replay.value.jobs| == 1
    then (Some(replay.value.jobs[0].leaseToken), Some(replay.value.jobs[0].transactionId))
    else (rnd.first, rnd.second)
  }

  function Claim(s: State, q: NativeRequest, cmd: JobCommand, now: int, replay: Option<NativeResult>,
                 rnd: Entropy): Verdict
  {
    if cmd.jobId !in s.nativeJobs || cmd.leaseSeconds == 0 || q.changes != []
       || (cmd.kind != NoKind && cmd.kind != s.nativeJobs[cmd.jobId].kind) then Reject(JobConflict)
    else
      var prev := s.nativeJobs[cmd.jobId];
      if GrantRefusal(prev, now) != NoReason then Reject(GrantRefusal(prev, now))
      else
        var token := GrantTokens(replay, rnd).0;
        if token.None? || |token.value| != 64 then Fault(NoTokens)
        else Accept([prev.(
          revision := prev.revision + 1, status := Leased, leaseToken := token.value,
          leaseExpiresAt := Some(Deadline(now, cmd)), failure := "", memoryGeneration := s.memoryGeneration)])
  }

  function Heartbeat(s: State, q: NativeRequest, cmd: JobCommand, now: int): Verdict {
    if cmd.jobId !in s.nativeJobs || cmd.leaseSeconds == 0 || q.changes != []
       || !ValidLease(s.nativeJobs[cmd.jobId], cmd.leaseToken, now) then Reject(LeaseLost)
    else
      var prev := s.nativeJobs[cmd.jobId];
      Accept([prev.(revision := prev.revision + 1, leaseExpiresAt := Some(Deadline(now, cmd)))])
  }

  function Fail(s: State, q: NativeRequest, cmd: JobCommand, now: int): Verdict {
    if cmd.jobId !in s.nativeJobs || q.changes != []
       || !ValidLease(s.nativeJobs[cmd.jobId], cmd.leaseToken, now) then Reject(LeaseLost)
    else
      var prev := s.nativeJobs[cmd.jobId];
      Accept([prev.(revision := prev.revision + 1, status := Failed, failure := cmd.failure, leaseToken := "",
          leaseExpiresAt := None)])
  }

  /** The changes of a stage 1 commit are both halves of the job's output, or nothing when the job
      had no output. */
  predicate Stage1Artifacts(cmd: JobCommand, changes: seq<Change>) {
    && (|changes| == 2 || (cmd.noOutput && |changes| == 0))
    && (|changes| == 2 ==>
          && (exists c :: c in changes && c.key == RawKey(cmd.jobId) && c.deleted == cmd.noOutput)
          && (exists c :: c in changes && c.key == SummaryKey(cmd.jobId) && c.deleted == cmd.noOutput))
  }

  /** The consolidation job after a stage 1 output: created, or sent back to the queue. */
  function Requeued(jobs: map<string, Job>): Job {
    if GLOBAL !in jobs then NewJob(GLOBAL, Phase2Kind)
    else
      var prev := jobs[GLOBAL];
      if prev.status.Succeeded? || prev.status.Failed?
      then prev.(revision := prev.revision + 1, status := Queued, failure := "")
      else prev
  }

  function CommitStage1(s: State, q: NativeRequest, cmd: JobCommand, now: int): Verdict {
    if cmd.jobId !in s.nativeJobs || !s.nativeJobs[cmd.jobId].kind.Stage1Kind?
       || !ValidLease(s.nativeJobs[cmd.jobId], cmd.leaseToken, now) then Reject(LeaseLost)
    else if !Stage1Artifacts(cmd, q.changes) then Reject(InvalidStage1Artifacts)
    else
      var prev := s.nativeJobs[cmd.jobId];
      var job := prev.(revision := prev.revision + 1, status := Succeeded, leaseToken := "", leaseExpiresAt := None);
      Accept(if q.changes != [] then [job, Requeued(s.nativeJobs)] else [job])
  }

  function BeginPhase2(cx: Codec, s: State, q: NativeRequest, cmd: JobCommand, now: int, replay: Option<NativeResult>,
                       rnd: Entropy): Verdict
  {
    if cmd.jobId !in s.nativeJobs || !s.nativeJobs[cmd.jobId].kind.Phase2Kind? || cmd.leaseSeconds == 0 ||
        q.changes != []
    then Reject(JobConflict)
    else
      var prev := s.nativeJobs[cmd.jobId];
      if GrantRefusal(prev, now) != NoReason then Reject(GrantRefusal(prev, now))
      else
        var (lease, tx) := GrantTokens(replay, rnd);
        if lease.None? || tx.None? || |lease.value| != 64 || |tx.value| != 64 then Fault(NoTokens)
        else Accept([prev.(
          revision := prev.revision + 1, status := Leased, leaseToken := lease.value, transactionId := tx.value,
          leaseExpiresAt := Some(Deadline(now, cmd)), memoryGeneration := s.memoryGeneration,
          selectionLimit := cmd.maxInputs, selected := Some(Stage1Selection(cx, s, cmd.maxInputs)), failure := "")])
  }

  predicate Consolidates(cx: Codec, s: State, q: NativeRequest, cmd: JobCommand, now: int) {
    && cmd.jobId in s.nativeJobs
    && var prev := s.nativeJobs[cmd.jobId];
    && prev.kind.Phase2Kind? && ValidLease(prev, cmd.leaseToken, now)
    && cmd.transactionId != "" && cmd.transactionId == prev.transactionId
    && prev.memoryGeneration == s.memoryGeneration
    && prev.selected == Some(Stage1Selection(cx, s, prev.selectionLimit))
    && |q.changes| == 2
  }

  predicate ConsolidationArtifacts(changes: seq<Change>) {
    && (forall c :: c in changes ==> c.key == MEMORY_MD || c.key == SUMMARY_MD)
    && (exists c :: c in changes && c.key == MEMORY_MD)
    && (exists c :: c in changes && c.key == SUMMARY_MD)
  }

  function CommitPhase2(cx: Codec, s: State, q: NativeRequest, cmd: JobCommand, now: int): Verdict {
    if !Consolidates(cx, s, q, cmd, now) then Reject(StaleConsolidation)
    else if !ConsolidationArtifacts(q.changes) then Reject(InvalidConsolidationArtifacts)
    else
      var prev := s.nativeJobs[cmd.jobId];
      Accept([prev.(revision := prev.revision + 1, status := Succeeded, leaseToken := "", leaseExpiresAt := None,
          transactionId := "")])
  }

  function JobVerdict(cx: Codec, s: State, q: NativeRequest, cmd: JobCommand, now: int, replay: Option<NativeResult>,
                      rnd: Entropy): Verdict
  {
    match q.operation
    case Stage1Enqueue => Enqueue(s, q, cmd)
    case JobClaim => Claim(s, q, cmd, now, replay, rnd)
    case JobHeartbeat => Heartbeat(s, q, cmd, now)
    case JobFail => Fail(s, q, cmd, now)
    case Stage1Commit => CommitStage1(s, q, cmd, now)
    case Phase2Begin => BeginPhase2(cx, s, q, cmd, now, replay, rnd)
    case Phase2Commit => CommitPhase2(cx, s, q, cmd, now)
    case _ => Fault(NoJobOperation)
  }

  predicate JobOperation(op: Operation) {
    !op.MemoryClear? && !op.ImportV1? && !op.Named?
  }

  lemma KnownPrefixes(op: Operation)
    requires !op.Named? && !op.OtherJobOperation?
    ensures JobOperation(op) <==> JobPrefixed(OperationText(op))
  {
    var name := OperationText(op);
    if op.JobClaim? || op.JobHeartbeat? || op.JobFail? {
      assert name[..11] == "memory.job.";
    } else if op.Stage1Enqueue? || op.Stage1Commit? {
      assert name[..14] == "memory.stage1.";
    } else if op.Phase2Begin? || op.Phase2Commit? {
      assert name[..14] == "memory.phase2.";
    } else {
      assert name[1] == 'i' || name[7] == 'c';
      assert "memory.job."[7] == 'j' && "memory.stage1."[7] == 's' && "memory.phase2."[7] == 'p' &&
          "memory.job."[1] == 'e';
    }
  }

  /** The source tells job operations by the prefix of their text. */
  lemma JobOperationIff(op: Operation)
    requires OperationOk(op)
    ensures JobOperation(op) <==> JobPrefixed(OperationText(op))
  {
    hide JobPrefixed;
    if !op.Named? && !op.OtherJobOperation? {
      KnownPrefixes(op);
    }
  }

  // ----- version 2: the whole evaluation -----

  predicate ChangesMemory(changes: seq<Change>) {
    exists c :: c in changes && MemoryDomain(c.key.domain)
  }

  function ResourceOf(cx: Codec, c: Change): Resource {
    Resource(c.key, c.expectedRevision + 1, c.content,
      if c.package.Some? then cx.packageHash(c.package.value) else cx.hash(c.content), c.package, c.deleted)
  }

  function ResourcesOf(cx: Codec, cs: seq<Change>): (rs: seq<Resource>)
    ensures |rs| == |cs|
    ensures forall i :: 0 <= i < |cs| ==> rs[i] == ResourceOf(cx, cs[i])
  {
    if cs == [] then [] else [ResourceOf(cx, cs[0])] + ResourcesOf(cx, cs[1..])
  }

  function Restamped(j: Job, generation: nat): Job {
    if j.status.Succeeded? then j.(memoryGeneration := generation) else j
  }

  function RestampedAll(js: seq<Job>, generation: nat): (stamped: seq<Job>)
    ensures |stamped| == |js|
    ensures forall i :: 0 <= i < |js| ==> stamped[i] == Restamped(js[i], generation)
  {
    if js == [] then [] else [Restamped(js[0], generation)] + RestampedAll(js[1..], generation)
  }

  function Rejection(s: State, q: NativeRequest, reason: Reason): NativeResult {
    NativeResult(Rejected, s.sequence + 1, reason, [], [], if q.job.Some? then s.memoryGeneration else 0)
  }

  function Commit(cx: Codec, s: State, q: NativeRequest, jobs: seq<Job>): NativeResult {
    var resources := ResourcesOf(cx, q.changes);
    if q.job.None? then NativeResult(Committed, s.sequence + 1, NoReason, resources, jobs, 0)
    else if !ChangesMemory(q.changes) then
        NativeResult(Committed, s.sequence + 1, NoReason, resources, jobs, s.memoryGeneration)
    else NativeResult(Committed, s.sequence + 1, NoReason, resources, RestampedAll(jobs, s.memoryGeneration + 1),
        s.memoryGeneration + 1)
  }

  /** The checks that come before the job command. */
  function ChangesRefusal(cx: Codec, s: State, q: NativeRequest): Reason {
    var alias := AliasRefusal(cx, s.objects, q, q.changes);
    if alias != NoReason then alias
    else
      var cas := CasRefusal(s.native, q.changes);
      if cas != NoReason then cas
      else if !ValidMemoryPaths(s.native, q.changes) then MemoryPathConflict
      else NoReason
  }

  function EvaluateNative(cx: Codec, s: State, q: NativeRequest, now: int, replay: Option<NativeResult>,
                          rnd: Entropy): Result<NativeResult>
  {
    var refusal := ChangesRefusal(cx, s, q);
    if refusal != NoReason then Ok(Rejection(s, q, refusal))
    else match q.job
      case None => if JobOperation(q.operation) then Err(JobCommandRequired) else Ok(Commit(cx, s, q, []))
      case Some(cmd) =>
        match JobVerdict(cx, s, q, cmd, now, replay, rnd)
        case Fault(e) => Err(e)
        case Reject(reason) => Ok(Rejection(s, q, reason))
        case Accept(jobs) => Ok(Commit(cx, s, q, jobs))
  }

  function Publish(native: map<Key, Resource>, rs: seq<Resource>): map<Key, Resource> {
    if rs == [] then native
    else Publish(native, rs[..|rs| - 1])[rs[|rs| - 1].key := rs[|rs| - 1]]
  }

  function StoreJobs(jobs: map<string, Job>, js: seq<Job>): map<string, Job> {
    if js == [] then jobs
    else StoreJobs(jobs, js[..|js| - 1])[js[|js| - 1].jobId := JsonJob(js[|js| - 1])]
  }

  predicate PublishesMemory(rs: seq<Resource>) {
    exists r :: r in rs && MemoryDomain(r.key.domain)
  }

  function ApplyNative(s: State, r: NativeRecord): State {
    var recorded := s.(nativeRequests := s.nativeRequests[r.request.requestId := r], sequence := r.sequence);
    if r.result.error != NoReason then recorded
    else
      var cleared := r.request.operation.MemoryClear?;
      recorded.(
        native := Publish(s.native, r.result.resources),
        nativeJobs := if cleared then map[] else StoreJobs(s.nativeJobs, r.result.jobs),
        memoryGeneration := s.memoryGeneration + if PublishesMemory(r.result.resources) || cleared then 1 else 0)
  }

  /** The condition under which `applyNative` poisons the store. */
  predicate Drifts(s: State, r: NativeRecord) {
    r.result.error == NoReason && r.request.job.Some? && r.result.memoryGeneration != ApplyNative(s, r).memoryGeneration
  }

  function Apply(s: State, r: Record): State {
    match r
    case V1(o) => ApplyObject(s, o)
    case V2(n) => ApplyNative(s, n)
  }

  // ----- the exported operations, up to the append -----

  datatype Outcome<+R> = Refused(error: Refusal) | Replayed(receipt: R) | Append(record: Record, result: R)

  function MutateOutcome(s: State, c: Collection, op: Mutation, q: Request, now: int): Outcome<ObjectResult> {
    if !ValidMutation(c, op, q) then Refused(Malformed)
    else if q.requestId in s.nativeRequests then Refused(ReusedAcrossProtocols)
    else if q.requestId in s.requests then
      var r := s.requests[q.requestId];
      if r.collection != c || r.operation != op || r.request != q then Refused(ReusedWithOtherArguments)
          else Replayed(r.result)
    else
      var (before, result) := Evaluate(s, c, op, q);
      Append(V1(ObjectRecord(s.sequence + 1, now, c, op, q, before, result)), result)
  }

  function BatchOutcome(cx: Codec, s: State, q: NativeRequest, now: int, rnd: Entropy): Outcome<NativeResult> {
    match Normalize(cx, q)
    case Err(e) => Refused(e)
    case Ok(n) =>
      if n.requestId in s.requests then Refused(ReusedAcrossProtocols)
      else if n.requestId in s.nativeRequests then
        var r := s.nativeRequests[n.requestId];
        if n.intent != "" && n.operation == r.request.operation && n.intent == r.request.intent then
            Replayed(JsonResult(r.result))
        else if r.digest != cx.digest(n) then Refused(ReusedWithOtherArguments)
        else Replayed(JsonResult(r.result))
      else
        match EvaluateNative(cx, s, n, now, None, rnd)
        case Err(e) => Refused(e)
        case Ok(result) => Append(V2(NativeRecord(s.sequence + 1, now, n, cx.digest(n), result)), JsonResult(result))
  }
}
