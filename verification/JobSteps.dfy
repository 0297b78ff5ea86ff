/** The job table after each kind of committed command, as one equation per operation. The theorems
    about runs are proved from these equations alone. */
module JobSteps {
  import opened Types
  import opened Normalization
  import opened Selection
  import opened Engine
  import opened History

  ghost predicate Commits(cx: Codec, s: State, r: NativeRecord) {
    AppendsNative(cx, s, r) && JobsOk(s.nativeJobs) && r.result.error == NoReason
  }

  function Command(r: NativeRecord): JobCommand
    requires r.request.job.Some?
  {
    r.request.job.value
  }

  function JobsAfter(s: State, r: NativeRecord): map<string, Job> {
    ApplyNative(s, r).nativeJobs
  }

  lemma StoredOneOrTwo(jobs: map<string, Job>, js: seq<Job>)
    ensures |js| == 1 ==> StoreJobs(jobs, js) == jobs[js[0].jobId := JsonJob(js[0])]
    ensures |js| == 2 ==> StoreJobs(jobs, js) == jobs[js[0].jobId := JsonJob(js[0])][js[1].jobId := JsonJob(js[1])]
  {
    if |js| == 2 {
      assert js[..1] == [js[0]] && js[..1][..0] == [];
    }
  }

  /** A committed command was accepted by the job state machine, and its receipt lists the jobs it
      stores. */
  lemma Accepted(cx: Codec, s: State, r: NativeRecord) returns (jobs: seq<Job>, rnd: Entropy)
    requires Commits(cx, s, r) && r.request.job.Some?
    ensures JobVerdict(cx, s, r.request, Command(r), r.time, None, rnd) == Accept(jobs)
    ensures JobOperation(r.request.operation) && !r.request.operation.OtherJobOperation?
    ensures JobsAfter(s, r) == StoreJobs(s.nativeJobs, r.result.jobs)
    ensures r.result.jobs == if ChangesMemory(r.request.changes) then RestampedAll(jobs, s.memoryGeneration + 1)
        else jobs
  {
    hide ChangesRefusal, Canonical, EvaluateNative, JobVerdict, ChangesMemory;
    rnd :| EvaluateNative(cx, s, r.request, r.time, None, rnd) == Ok(r.result);
    jobs := CommittedEvaluation(cx, s, r.request, r.time, rnd, r.result);
    AcceptedOperation(cx, s, r.request, Command(r), r.time, rnd);
  }

  lemma AcceptedOperation(cx: Codec, s: State, q: NativeRequest, cmd: JobCommand, now: int, rnd: Entropy)
    requires JobVerdict(cx, s, q, cmd, now, None, rnd).Accept?
    ensures JobOperation(q.operation) && !q.operation.OtherJobOperation?
  {
    hide Enqueue, Claim, Heartbeat, Fail, CommitStage1, BeginPhase2, CommitPhase2;
  }

  lemma NoCommandStep(cx: Codec, s: State, r: NativeRecord)
    requires Commits(cx, s, r) && r.request.job.None?
    ensures !JobOperation(r.request.operation) && r.result.jobs == []
    ensures JobsAfter(s, r) == if r.request.operation.MemoryClear? then map[] else s.nativeJobs
  {
    hide ChangesRefusal, Canonical, EvaluateNative;
    var jobs := CommittedStep(cx, s, r);
  }

  /** The job that an enqueue leaves: new, requeued for a new input, or untouched. */
  function Enqueued(s: State, cmd: JobCommand): Job {
    if cmd.jobId !in s.nativeJobs then
      Job(cmd.jobId, Stage1Kind, 1, Queued, cmd.inputVersion, cmd.inputWatermark, "", None, "", s.memoryGeneration,
          None,
        "", 0)
    else if s.nativeJobs[cmd.jobId].inputVersion == cmd.inputVersion then s.nativeJobs[cmd.jobId]
    else
      var prev := s.nativeJobs[cmd.jobId];
      prev.(revision := prev.revision + 1, status := Queued, inputVersion := cmd.inputVersion,
          inputWatermark := cmd.inputWatermark, failure := "", memoryGeneration := s.memoryGeneration)
  }

  lemma EnqueueStep(cx: Codec, s: State, r: NativeRecord)
    requires Commits(cx, s, r) && r.request.job.Some? && r.request.operation.Stage1Enqueue?
    ensures r.request.changes == []
    ensures JobsAfter(s, r) == s.nativeJobs[Command(r).jobId := Enqueued(s, Command(r))]
    ensures Command(r).jobId in s.nativeJobs ==>
        s.nativeJobs[Command(r).jobId].kind == Stage1Kind && !s.nativeJobs[Command(r).jobId].status.Leased?
    ensures Enqueued(s, Command(r)).kind == Stage1Kind && !Enqueued(s, Command(r)).status.Leased?
  {
    hide JobsAfter, ApplyNative, AppendsNative, StoreJobs;
    var jobs, rnd := Accepted(cx, s, r);
    StoredOneOrTwo(s.nativeJobs, r.result.jobs);
  }

  lemma ClaimStep(cx: Codec, s: State, r: NativeRecord)
    requires Commits(cx, s, r) && r.request.job.Some? && r.request.operation.JobClaim?
    ensures var id := Command(r).jobId;
            && r.request.changes == [] && id in s.nativeJobs && |r.result.jobs| == 1
            && GrantRefusal(s.nativeJobs[id], r.time) == NoReason && |r.result.jobs[0].leaseToken| == 64
            && JobsAfter(s, r) == s.nativeJobs[id := s.nativeJobs[id].(
                 revision := s.nativeJobs[id].revision + 1, status := Leased, leaseToken := r.result.jobs[0].leaseToken,
                 leaseExpiresAt := Some(Deadline(r.time, Command(r))), failure := "",
                     memoryGeneration := s.memoryGeneration)]
  {
    hide JobsAfter, ApplyNative, AppendsNative, StoreJobs;
    var jobs, rnd := Accepted(cx, s, r);
    StoredOneOrTwo(s.nativeJobs, r.result.jobs);
  }

  lemma BeginStep(cx: Codec, s: State, r: NativeRecord)
    requires Commits(cx, s, r) && r.request.job.Some? && r.request.operation.Phase2Begin?
    ensures var id := Command(r).jobId;
            && r.request.changes == [] && id in s.nativeJobs && s.nativeJobs[id].kind == Phase2Kind &&
                |r.result.jobs| == 1
            && GrantRefusal(s.nativeJobs[id], r.time) == NoReason
            && |r.result.jobs[0].leaseToken| == 64 && |r.result.jobs[0].transactionId| == 64
            && JobsAfter(s, r) == s.nativeJobs[id := JsonJob(s.nativeJobs[id].(
                 revision := s.nativeJobs[id].revision + 1, status := Leased, leaseToken := r.result.jobs[0].leaseToken,
                 transactionId := r.result.jobs[0].transactionId, leaseExpiresAt := Some(Deadline(r.time, Command(r))),
                 memoryGeneration := s.memoryGeneration, selectionLimit := Command(r).maxInputs,
                 selected := Some(Stage1Selection(cx, s, Command(r).maxInputs)), failure := ""))]
  {
    hide JobsAfter, ApplyNative, Stage1Selection, AppendsNative, StoreJobs;
    var jobs, rnd := Accepted(cx, s, r);
    StoredOneOrTwo(s.nativeJobs, r.result.jobs);
  }

  lemma HeartbeatStep(cx: Codec, s: State, r: NativeRecord)
    requires Commits(cx, s, r) && r.request.job.Some? && r.request.operation.JobHeartbeat?
    ensures var id := Command(r).jobId;
            && r.request.changes == [] && id in s.nativeJobs &&
                ValidLease(s.nativeJobs[id], Command(r).leaseToken, r.time)
            && JobsAfter(s, r) == s.nativeJobs[id := s.nativeJobs[id].(
                 revision := s.nativeJobs[id].revision + 1, leaseExpiresAt := Some(Deadline(r.time, Command(r))))]
  {
    hide JobsAfter, ApplyNative, AppendsNative, StoreJobs;
    var jobs, rnd := Accepted(cx, s, r);
    StoredOneOrTwo(s.nativeJobs, r.result.jobs);
  }

  lemma FailStep(cx: Codec, s: State, r: NativeRecord)
    requires Commits(cx, s, r) && r.request.job.Some? && r.request.operation.JobFail?
    ensures var id := Command(r).jobId;
            && r.request.changes == [] && id in s.nativeJobs &&
                ValidLease(s.nativeJobs[id], Command(r).leaseToken, r.time)
            && JobsAfter(s, r) == s.nativeJobs[id := s.nativeJobs[id].(
                 revision := s.nativeJobs[id].revision + 1, status := Failed, failure := Command(r).failure,
                     leaseToken := "", leaseExpiresAt := None)]
  {
    hide JobsAfter, ApplyNative, AppendsNative, StoreJobs;
    var jobs, rnd := Accepted(cx, s, r);
    StoredOneOrTwo(s.nativeJobs, r.result.jobs);
  }

  /** The job after its commit. Its generation moves only if the commit changed memory. */
  function Finished(j: Job, generation: nat): Job {
    j.(revision := j.revision + 1, status := Succeeded, leaseToken := "", leaseExpiresAt := None,
        memoryGeneration := generation)
  }

  lemma Stage1ChangesMemory(cmd: JobCommand, changes: seq<Change>)
    requires Stage1Artifacts(cmd, changes)
    ensures changes != [] <==> ChangesMemory(changes)
  {
  }

  lemma Stage1Step(cx: Codec, s: State, r: NativeRecord)
    requires Commits(cx, s, r) && r.request.job.Some? && r.request.operation.Stage1Commit?
    ensures var id := Command(r).jobId;
            && id in s.nativeJobs && s.nativeJobs[id].kind == Stage1Kind &&
                ValidLease(s.nativeJobs[id], Command(r).leaseToken, r.time)
            && Stage1Artifacts(Command(r), r.request.changes)
            && JobsAfter(s, r) ==
                 (if r.request.changes == [] then
                     s.nativeJobs[id := Finished(s.nativeJobs[id], s.nativeJobs[id].memoryGeneration)]
                  else
                    var finished := s.nativeJobs[id := Finished(s.nativeJobs[id], s.memoryGeneration + 1)];
                    finished[GLOBAL := Requeued(s.nativeJobs)])
  {
    hide AppendsNative, JobsAfter, JobVerdict, Stage1Artifacts, ChangesMemory, StoreJobs;
    var jobs, rnd := Accepted(cx, s, r);
    Stage1Verdict(cx, s, r.request, Command(r), r.time, rnd);
    Stage1ChangesMemory(Command(r), r.request.changes);
    StoredOneOrTwo(s.nativeJobs, r.result.jobs);
  }

  lemma Stage1Verdict(cx: Codec, s: State, q: NativeRequest, cmd: JobCommand, now: int, rnd: Entropy)
    requires q.operation.Stage1Commit? && JobVerdict(cx, s, q, cmd, now, None, rnd).Accept? && JobsOk(s.nativeJobs)
    ensures cmd.jobId in s.nativeJobs
    ensures var prev := s.nativeJobs[cmd.jobId]; var jobs := JobVerdict(cx, s, q, cmd, now, None, rnd).jobs;
            && prev.kind == Stage1Kind && ValidLease(prev, cmd.leaseToken, now) && Stage1Artifacts(cmd, q.changes)
            && prev.jobId == cmd.jobId && prev.selected != Some(map[])
            && jobs == [Finished(prev, prev.memoryGeneration)] + if q.changes == [] then []
                else [Requeued(s.nativeJobs)]
    ensures Requeued(s.nativeJobs).jobId == GLOBAL && !Requeued(s.nativeJobs).status.Succeeded? &&
        Requeued(s.nativeJobs).selected != Some(map[])
  {
    hide Stage1Artifacts;
  }

  lemma ArtifactsChangeMemory(changes: seq<Change>)
    requires ConsolidationArtifacts(changes)
    ensures ChangesMemory(changes)
  {
  }

  lemma Phase2Step(cx: Codec, s: State, r: NativeRecord)
    requires Commits(cx, s, r) && r.request.job.Some? && r.request.operation.Phase2Commit?
    ensures var id := Command(r).jobId;
            && Consolidates(cx, s, r.request, Command(r), r.time) && ConsolidationArtifacts(r.request.changes)
            && JobsAfter(s, r) == s.nativeJobs[id := Finished(s.nativeJobs[id],
                s.memoryGeneration + 1).(transactionId := "")]
  {
    hide AppendsNative, JobsAfter, JobVerdict, ConsolidationArtifacts, Consolidates, ChangesMemory, StoreJobs;
    var jobs, rnd := Accepted(cx, s, r);
    Phase2Verdict(cx, s, r.request, Command(r), r.time, rnd);
    ArtifactsChangeMemory(r.request.changes);
    StoredOneOrTwo(s.nativeJobs, r.result.jobs);
  }

  lemma Phase2Verdict(cx: Codec, s: State, q: NativeRequest, cmd: JobCommand, now: int, rnd: Entropy)
    requires q.operation.Phase2Commit? && JobVerdict(cx, s, q, cmd, now, None, rnd).Accept? && JobsOk(s.nativeJobs)
    ensures Consolidates(cx, s, q, cmd, now) && ConsolidationArtifacts(q.changes) && cmd.jobId in s.nativeJobs
    ensures var prev := s.nativeJobs[cmd.jobId];
            && prev.jobId == cmd.jobId && prev.selected != Some(map[])
            && JobVerdict(cx, s, q, cmd, now, None, rnd).jobs == [Finished(prev,
                prev.memoryGeneration).(transactionId := "")]
  {
    hide ConsolidationArtifacts, Stage1Selection;
  }
}
