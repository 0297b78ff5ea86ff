/** Stage 1 over whole runs: a job always stands for the last input enqueued under its id, and a job
    that is marked done was committed after that input. */
module Inputs {
  import opened Types
  import opened Selection
  import opened Engine
  import opened History
  import opened JobSteps
  import opened Leases

  predicate IsEnqueue(r: Record, id: string) {
    Does(r, Stage1Enqueue) && Concerns(r, id)
  }

  predicate IsStage1Commit(r: Record, id: string) {
    Does(r, Stage1Commit) && Concerns(r, id)
  }

  /** The stage 1 job of that id, if there is one. */
  function Stage1Job(jobs: map<string, Job>, id: string): Option<Job> {
    if id in jobs && jobs[id].kind.Stage1Kind? then Some(jobs[id]) else None
  }

  predicate SameInput(a: Job, b: Job) {
    a.inputVersion == b.inputVersion && a.inputWatermark == b.inputWatermark
  }

  /** How one committed record moves a stage 1 job. */
  ghost predicate Stage1Moves(before: Option<Job>, after: Option<Job>, r: Record, id: string) {
    after.Some? ==>
      var a := after.value;
      if IsEnqueue(r, id) && !(before.Some? && before.value.inputVersion == Command(r.v2).inputVersion) then
        a.inputVersion == Command(r.v2).inputVersion && a.inputWatermark == Command(r.v2).inputWatermark &&
            a.status.Queued?
      else
        && before.Some? && SameInput(a, before.value) && !Does(r, MemoryClear)
        && (IsEnqueue(r, id) ==> a == before.value)
        && (a.status.Succeeded? ==> before.value.status.Succeeded? || IsStage1Commit(r, id))
  }

  lemma InputStep(cx: Codec, s: State, r: NativeRecord, id: string)
    requires Commits(cx, s, r)
    ensures Stage1Moves(Stage1Job(s.nativeJobs, id), Stage1Job(JobsAfter(s, r), id), V2(r), id)
  {
    hide AppendsNative, JobsAfter, Stage1Selection, Stage1Artifacts, ConsolidationArtifacts;
    if r.request.job.None? {
      NoCommandStep(cx, s, r);
    } else {
      match r.request.operation {
        case Stage1Enqueue => EnqueueStep(cx, s, r);
        case JobClaim => ClaimStep(cx, s, r);
        case JobHeartbeat => HeartbeatStep(cx, s, r);
        case JobFail => FailStep(cx, s, r);
        case Stage1Commit => Stage1Step(cx, s, r);
        case Phase2Begin => BeginStep(cx, s, r);
        case Phase2Commit => Phase2Step(cx, s, r);
        case _ => var jobs, rnd := Accepted(cx, s, r);
      }
    }
  }

  lemma InputStepAny(cx: Codec, s: State, r: Record, id: string)
    requires Appends(cx, s, r) && StateOk(s)
    ensures Stage1Moves(Stage1Job(s.nativeJobs, id), Stage1Job(Apply(s, r).nativeJobs, id), r, id)
  {
    hide AppendsNative, AppendsObject, Stage1Moves;
    if CommittedNative(r) {
      InputStep(cx, s, r.v2, id);
    } else {
      NoInputMoves(cx, s, r, id);
    }
  }

  lemma NoInputMoves(cx: Codec, s: State, r: Record, id: string)
    requires Appends(cx, s, r) && !CommittedNative(r)
    ensures Stage1Moves(Stage1Job(s.nativeJobs, id), Stage1Job(Apply(s, r).nativeJobs, id), r, id)
  {
    hide AppendsNative, AppendsObject;
    if r.V2? {
      RejectedStep(cx, s, r.v2);
    }
  }

  /** Log `log` gave job `job` its input at record `e`, and every later enqueue named the same version. */
  ghost predicate GivenAt(log: seq<Record>, id: string, job: Job, e: nat) {
    && e < |log| && IsEnqueue(log[e], id)
    && job.inputVersion == Command(log[e].v2).inputVersion && job.inputWatermark == Command(log[e].v2).inputWatermark
    && forall k :: e < k < |log| ==>
         !Does(log[k], MemoryClear) && (IsEnqueue(log[k], id) ==> Command(log[k].v2).inputVersion == job.inputVersion)
  }

  /** Every stage 1 job carries the version of the last enqueue of its id, and the watermark of the
      enqueue that introduced that version. */
  lemma {:induction false} InputIsLastEnqueued(cx: Codec, log: seq<Record>, id: string) returns (e: nat)
    requires IsHistory(cx, log) && Stage1Job(StateOf(log).nativeJobs, id).Some?
    ensures GivenAt(log, id, Stage1Job(StateOf(log).nativeJobs, id).value, e)
  {
    hide Appends, Apply, Does, StateOk;
    var front, r := log[..|log| - 1], log[|log| - 1];
    var before := Stage1Job(StateOf(front).nativeJobs, id);
    HistoryOk(cx, front);
    InputStepAny(cx, StateOf(front), r, id);
    if IsEnqueue(r, id) && !(before.Some? && before.value.inputVersion == Command(r.v2).inputVersion) {
      e := |log| - 1;
    } else {
      e := InputIsLastEnqueued(cx, front, id);
      assert forall k :: 0 <= k < |front| ==> front[k] == log[k];
    }
  }

  /** A stage 1 job that is marked done was committed after its input was given: no newer input is lost. */
  lemma {:induction false} NoLostInput(cx: Codec, log: seq<Record>, id: string) returns (e: nat, c: nat)
    requires IsHistory(cx, log) && Stage1Job(StateOf(log).nativeJobs, id).Some?
    requires Stage1Job(StateOf(log).nativeJobs, id).value.status.Succeeded?
    ensures GivenAt(log, id, Stage1Job(StateOf(log).nativeJobs, id).value, e)
    ensures e < c < |log| && IsStage1Commit(log[c], id)
  {
    hide Appends, Apply, IsEnqueue, Does, IsStage1Commit, StateOk;
    var front, r := log[..|log| - 1], log[|log| - 1];
    var before := Stage1Job(StateOf(front).nativeJobs, id);
    HistoryOk(cx, front);
    InputStepAny(cx, StateOf(front), r, id);
    EnqueueIsNoCommit(r, id);
    if before.value.status.Succeeded? {
      e, c := NoLostInput(cx, front, id);
    } else {
      e := InputIsLastEnqueued(cx, front, id);
      c := |log| - 1;
    }
    assert forall k :: 0 <= k < |front| ==> front[k] == log[k];
  }

  lemma EnqueueIsNoCommit(r: Record, id: string)
    ensures !(IsEnqueue(r, id) && IsStage1Commit(r, id))
  {
  }
}
