/** `evaluateNative` with the loops of the source, proved equal to `EvaluateNative`. */
module Evaluation {
  import opened Types
  import opened Selection
  import opened MemoryTree
  import opened Aliases
  import opened Engine

  /** The loop that compares revisions. */
  method CheckRevisions(native: map<Key, Resource>, cs: seq<Change>) returns (reason: Reason)
    ensures reason == CasRefusal(native, cs)
  {
    assert cs[0..] == cs;
    for i := 0 to |cs|
      invariant CasRefusal(native, cs) == CasRefusal(native, cs[i..])
    {
      assert cs[i..][0] == cs[i] && cs[i..][1..] == cs[i + 1..];
      var prev := Current(native, cs[i].key);
      if prev.revision != cs[i].expectedRevision {
        return RevisionConflict;
      }
      if prev.revision == MAX_REVISION {
        return RevisionExhausted;
      }
      if cs[i].deleted && (prev.revision == 0 || prev.deleted) {
        return NotFound;
      }
    }
    reason := NoReason;
  }

  /** The loop that looks for both halves of a job's output. */
  method CheckStage1Artifacts(cmd: JobCommand, changes: seq<Change>) returns (ok: bool)
    ensures ok == Stage1Artifacts(cmd, changes)
  {
    if (cmd.noOutput && |changes| != 0 && |changes| != 2) || (!cmd.noOutput && |changes| != 2) {
      return false;
    }
    var seenRaw, seenSummary := false, false;
    for i := 0 to |changes|
      invariant seenRaw <==>
          exists j :: 0 <= j < i && changes[j].key == RawKey(cmd.jobId) && changes[j].deleted == cmd.noOutput
      invariant seenSummary <==>
          exists j :: 0 <= j < i && changes[j].key == SummaryKey(cmd.jobId) && changes[j].deleted == cmd.noOutput
    {
      seenRaw := seenRaw || (changes[i].key == RawKey(cmd.jobId) && changes[i].deleted == cmd.noOutput);
      seenSummary := seenSummary || (changes[i].key == SummaryKey(cmd.jobId) && changes[i].deleted == cmd.noOutput);
    }
    ok := |changes| == 2 ==> seenRaw && seenSummary;
  }

  /** The loop over the required artifacts of a consolidation. */
  method CheckConsolidationArtifacts(changes: seq<Change>) returns (ok: bool)
    ensures ok == ConsolidationArtifacts(changes)
  {
    var memory, summary := false, false;
    for i := 0 to |changes|
      invariant forall j :: 0 <= j < i ==> changes[j].key == MEMORY_MD || changes[j].key == SUMMARY_MD
      invariant memory <==> exists j :: 0 <= j < i && changes[j].key == MEMORY_MD
      invariant summary <==> exists j :: 0 <= j < i && changes[j].key == SUMMARY_MD
    {
      if changes[i].key != MEMORY_MD && changes[i].key != SUMMARY_MD {
        assert changes[i] in changes;
        return false;
      }
      memory := memory || changes[i].key == MEMORY_MD;
      summary := summary || changes[i].key == SUMMARY_MD;
    }
    ok := memory && summary;
  }

  method RunStage1Commit(s: State, q: NativeRequest, cmd: JobCommand, now: int) returns (v: Verdict)
    ensures v == CommitStage1(s, q, cmd, now)
  {
    hide Stage1Artifacts;
    if cmd.jobId !in s.nativeJobs || !s.nativeJobs[cmd.jobId].kind.Stage1Kind? ||
        !ValidLease(s.nativeJobs[cmd.jobId], cmd.leaseToken, now) {
      return Reject(LeaseLost);
    }
    var ok := CheckStage1Artifacts(cmd, q.changes);
    if !ok {
      return Reject(InvalidStage1Artifacts);
    }
    var prev := s.nativeJobs[cmd.jobId];
    var job := prev.(revision := prev.revision + 1, status := Succeeded, leaseToken := "", leaseExpiresAt := None);
    if q.changes == [] {
      return Accept([job]);
    }
    v := Accept([job, Requeued(s.nativeJobs)]);
  }

  method RunPhase2Begin(cx: Codec, s: State, q: NativeRequest, cmd: JobCommand, now: int,
                        replay: Option<NativeResult>, rnd: Entropy) returns (v: Verdict)
    ensures v == BeginPhase2(cx, s, q, cmd, now, replay, rnd)
  {
    hide Stage1Selection;
    if cmd.jobId !in s.nativeJobs || !s.nativeJobs[cmd.jobId].kind.Phase2Kind? || cmd.leaseSeconds == 0 ||
        q.changes != [] {
      return Reject(JobConflict);
    }
    var prev := s.nativeJobs[cmd.jobId];
    if GrantRefusal(prev, now) != NoReason {
      return Reject(GrantRefusal(prev, now));
    }
    var (lease, tx) := GrantTokens(replay, rnd);
    if lease.None? || tx.None? || |lease.value| != 64 || |tx.value| != 64 {
      return Fault(NoTokens);
    }
    var selection := SelectStage1(cx, s, cmd.maxInputs);
    v := Accept([prev.(
      revision := prev.revision + 1, status := Leased, leaseToken := lease.value, transactionId := tx.value,
      leaseExpiresAt := Some(Deadline(now, cmd)), memoryGeneration := s.memoryGeneration,
      selectionLimit := cmd.maxInputs, selected := Some(selection), failure := "")]);
  }

  method RunPhase2Commit(cx: Codec, s: State, q: NativeRequest, cmd: JobCommand, now: int) returns (v: Verdict)
    ensures v == CommitPhase2(cx, s, q, cmd, now)
  {
    hide Stage1Selection, ConsolidationArtifacts;
    if cmd.jobId !in s.nativeJobs || !s.nativeJobs[cmd.jobId].kind.Phase2Kind? ||
        !ValidLease(s.nativeJobs[cmd.jobId], cmd.leaseToken, now)
       || cmd.transactionId == "" || cmd.transactionId != s.nativeJobs[cmd.jobId].transactionId
       || s.nativeJobs[cmd.jobId].memoryGeneration != s.memoryGeneration {
      return Reject(StaleConsolidation);
    }
    var prev := s.nativeJobs[cmd.jobId];
    var selection := SelectStage1(cx, s, prev.selectionLimit);
    if prev.selected != Some(selection) || |q.changes| != 2 {
      return Reject(StaleConsolidation);
    }
    var ok := CheckConsolidationArtifacts(q.changes);
    if !ok {
      return Reject(InvalidConsolidationArtifacts);
    }
    v := Accept([prev.(revision := prev.revision + 1, status := Succeeded, leaseToken := "", leaseExpiresAt := None,
        transactionId := "")]);
  }

  /** The switch over the operations. */
  method RunCommand(cx: Codec, s: State, q: NativeRequest, cmd: JobCommand, now: int, replay: Option<NativeResult>,
                    rnd: Entropy) returns (v: Verdict)
    ensures v == JobVerdict(cx, s, q, cmd, now, replay, rnd)
  {
    hide Enqueue, Claim, Heartbeat, Fail, CommitStage1, BeginPhase2, CommitPhase2;
    match q.operation {
      case Stage1Enqueue => v := Enqueue(s, q, cmd);
      case JobClaim => v := Claim(s, q, cmd, now, replay, rnd);
      case JobHeartbeat => v := Heartbeat(s, q, cmd, now);
      case JobFail => v := Fail(s, q, cmd, now);
      case Stage1Commit => v := RunStage1Commit(s, q, cmd, now);
      case Phase2Begin => v := RunPhase2Begin(cx, s, q, cmd, now, replay, rnd);
      case Phase2Commit => v := RunPhase2Commit(cx, s, q, cmd, now);
      case _ => v := Fault(NoJobOperation);
    }
  }

  /** The last loops: the resources of the receipt, and the new generation in the finished jobs. */
  method BuildReceipt(cx: Codec, s: State, q: NativeRequest, accepted: seq<Job>) returns (result: NativeResult)
    ensures result == Commit(cx, s, q, accepted)
  {
    hide ResourceOf;
    var resources: seq<Resource>, hasMemoryChange := [], false;
    for i := 0 to |q.changes|
      invariant |resources| == i && forall j :: 0 <= j < i ==> resources[j] == ResourceOf(cx, q.changes[j])
      invariant hasMemoryChange <==> exists j :: 0 <= j < i && MemoryDomain(q.changes[j].key.domain)
    {
      resources := resources + [ResourceOf(cx, q.changes[i])];
      hasMemoryChange := hasMemoryChange || MemoryDomain(q.changes[i].key.domain);
    }
    assert resources == ResourcesOf(cx, q.changes);
    assert hasMemoryChange <==> ChangesMemory(q.changes);
    result := NativeResult(Committed, s.sequence + 1, NoReason, resources, accepted, if q.job.Some? then
        s.memoryGeneration else 0);
    if hasMemoryChange && q.job.Some? {
      var generation := s.memoryGeneration + 1;
      var jobs := accepted;
      for i := 0 to |jobs|
        invariant |jobs| == |accepted|
        invariant forall j :: 0 <= j < i ==> jobs[j] == Restamped(accepted[j], generation)
        invariant forall j :: i <= j < |jobs| ==> jobs[j] == accepted[j]
      {
        if jobs[i].status.Succeeded? {
          jobs := jobs[i := jobs[i].(memoryGeneration := generation)];
        }
      }
      assert jobs == RestampedAll(accepted, generation);
      result := result.(jobs := jobs, memoryGeneration := generation);
    }
  }

  method Evaluate(cx: Codec, s: State, q: NativeRequest, now: int, replay: Option<NativeResult>, rnd: Entropy)
      returns (r: Result<NativeResult>)
    requires forall k :: k in s.native ==> s.native[k].key == k
    requires forall i, j :: 0 <= i < j < |q.changes| ==> q.changes[i].key != q.changes[j].key
    ensures r == EvaluateNative(cx, s, q, now, replay, rnd)
  {
    hide AliasRefusal, CasRefusal, ValidMemoryPaths, JobVerdict, Commit;
    var reason := ValidateLegacyAlias(cx, s.objects, q);
    if reason != NoReason {
      return Ok(Rejection(s, q, reason));
    }
    reason := CheckRevisions(s.native, q.changes);
    if reason != NoReason {
      return Ok(Rejection(s, q, reason));
    }
    var ok := CheckMemoryPaths(s.native, q.changes);
    if !ok {
      return Ok(Rejection(s, q, MemoryPathConflict));
    }
    var accepted := [];
    if q.job.Some? {
      var v := RunCommand(cx, s, q, q.job.value, now, replay, rnd);
      match v {
        case Fault(e) => return Err(e);
        case Reject(why) => return Ok(Rejection(s, q, why));
        case Accept(jobs) => accepted := jobs;
      }
    } else if JobOperation(q.operation) {
      return Err(JobCommandRequired);
    }
    var result := BuildReceipt(cx, s, q, accepted);
    r := Ok(result);
  }
}
