/** Leases over whole runs. A ledger read off the journal alone says who holds a job and until when;
    the lease fields of the store always agree with it. Exclusion and the uselessness of superseded
    tokens follow. */
module Leases {
  import opened Types
  import opened Normalization
  import opened Selection
  import opened MemoryTree
  import opened Engine
  import opened History
  import opened JobSteps

  // ----- what the journal says about one job -----

  predicate Concerns(r: Record, id: string) {
    CommittedNative(r) && r.v2.request.job.Some? && r.v2.request.job.value.jobId == id
  }

  /** A committed claim or begin of the job. */
  predicate IsGrant(r: Record, id: string) {
    Concerns(r, id) && (r.v2.request.operation.JobClaim? || r.v2.request.operation.Phase2Begin?)
  }

  predicate IsRenewal(r: Record, id: string) {
    Concerns(r, id) && r.v2.request.operation.JobHeartbeat?
  }

  /** A committed fail or commit of the job, or a clear of all jobs. The one commit that does not give
      the lease back is a stage 1 output of a job that bears the name of the consolidation job: the
      requeued consolidation job is stored over it. */
  predicate IsRelease(r: Record, id: string) {
    || (Concerns(r, id) && (r.v2.request.operation.JobFail? || r.v2.request.operation.Phase2Commit?
                            || (r.v2.request.operation.Stage1Commit? && (id != GLOBAL || r.v2.request.changes == []))))
    || Does(r, MemoryClear)
  }

  /** A committed step that the job's lease token authorised. */
  predicate IsAuthorised(r: Record, id: string) {
    Concerns(r, id) && (r.v2.request.operation.JobHeartbeat? || r.v2.request.operation.JobFail?
                        || r.v2.request.operation.Stage1Commit? || r.v2.request.operation.Phase2Commit?)
  }

  /** The token that a grant handed out. */
  function GrantedToken(r: Record): string {
    if r.V2? && |r.v2.result.jobs| == 1 then r.v2.result.jobs[0].leaseToken else ""
  }

  /** The expiry that a grant or renewal sets. */
  function Extends(r: Record): int
    requires r.V2? && r.v2.request.job.Some?
  {
    r.v2.time + Command(r.v2).leaseSeconds * 1_000_000_000
  }

  datatype Holding = Free | Held(grant: nat, expires: int)

  /** Who holds job `id` after `log`: the index of the last grant that was not released, and the expiry
      set by the last grant or renewal. */
  ghost function Ledger(log: seq<Record>, id: string): Holding {
    if log == [] then Free
    else
      var r := log[|log| - 1];
      var before := Ledger(log[..|log| - 1], id);
      if IsGrant(r, id) then Held(|log| - 1, Extends(r))
      else if IsRelease(r, id) then Free
      else if IsRenewal(r, id) && before.Held? then before.(expires := Extends(r))
      else before
  }

  // ----- what the store says about it -----

  datatype Lease = Lease(token: string, expires: Option<int>)

  function LeaseOf(jobs: map<string, Job>, id: string): Option<Lease> {
    if id in jobs && jobs[id].status.Leased? then Some(Lease(jobs[id].leaseToken, jobs[id].leaseExpiresAt)) else None
  }

  /** How one committed record changes the lease of job `id`. */
  ghost predicate LeaseMoves(before: Option<Lease>, after: Option<Lease>, r: Record, id: string) {
    if IsGrant(r, id) then
      && (before.Some? && before.value.expires.Some? ==> before.value.expires.value <= r.v2.time)
      && after == Some(Lease(GrantedToken(r), Some(Extends(r))))
    else if IsRenewal(r, id) then before.Some? && after == Some(before.value.(expires := Some(Extends(r))))
    else if IsRelease(r, id) then after == None
    else after == before
  }

  ghost predicate Authorises(before: Option<Lease>, r: Record, id: string) {
    IsAuthorised(r, id) ==>
      && before.Some? && before.value.token == Command(r.v2).leaseToken
      && before.value.expires.Some? && r.v2.time < before.value.expires.value
  }

  lemma LeaseStep(cx: Codec, s: State, r: NativeRecord, id: string)
    requires Commits(cx, s, r)
    ensures LeaseMoves(LeaseOf(s.nativeJobs, id), LeaseOf(JobsAfter(s, r), id), V2(r), id)
    ensures Authorises(LeaseOf(s.nativeJobs, id), V2(r), id)
  {
    hide AppendsNative, JobsAfter, Stage1Selection, LeaseMoves, Authorises;
    if r.request.job.Some? && (r.request.operation.Stage1Commit? || r.request.operation.Phase2Commit?) {
      CommitLeaseStep(cx, s, r, id);
    } else {
      OtherLeaseStep(cx, s, r, id);
    }
  }

  lemma CommitLeaseStep(cx: Codec, s: State, r: NativeRecord, id: string)
    requires Commits(cx, s, r) && r.request.job.Some? &&
        (r.request.operation.Stage1Commit? || r.request.operation.Phase2Commit?)
    ensures LeaseMoves(LeaseOf(s.nativeJobs, id), LeaseOf(JobsAfter(s, r), id), V2(r), id)
    ensures Authorises(LeaseOf(s.nativeJobs, id), V2(r), id)
  {
    hide AppendsNative, JobsAfter, Stage1Selection, Stage1Artifacts, ConsolidationArtifacts, ChangesMemory;
    if r.request.operation.Stage1Commit? {
      Stage1Step(cx, s, r);
    } else {
      Phase2Step(cx, s, r);
    }
  }

  lemma OtherLeaseStep(cx: Codec, s: State, r: NativeRecord, id: string)
    requires Commits(cx, s, r) &&
        (r.request.job.None? || !(r.request.operation.Stage1Commit? || r.request.operation.Phase2Commit?))
    ensures LeaseMoves(LeaseOf(s.nativeJobs, id), LeaseOf(JobsAfter(s, r), id), V2(r), id)
    ensures Authorises(LeaseOf(s.nativeJobs, id), V2(r), id)
  {
    hide AppendsNative, JobsAfter, Stage1Selection, ChangesMemory;
    if r.request.job.None? {
      NoCommandStep(cx, s, r);
    } else {
      match r.request.operation {
        case Stage1Enqueue => EnqueueStep(cx, s, r);
        case JobClaim => ClaimStep(cx, s, r);
        case JobHeartbeat => HeartbeatStep(cx, s, r);
        case JobFail => FailStep(cx, s, r);
        case Phase2Begin => BeginStep(cx, s, r);
        case _ => var jobs, rnd := Accepted(cx, s, r);
      }
    }
  }

  lemma LeaseStepAny(cx: Codec, s: State, r: Record, id: string)
    requires Appends(cx, s, r) && StateOk(s)
    ensures LeaseMoves(LeaseOf(s.nativeJobs, id), LeaseOf(Apply(s, r).nativeJobs, id), r, id)
    ensures Authorises(LeaseOf(s.nativeJobs, id), r, id)
  {
    hide AppendsNative, AppendsObject, LeaseMoves, Authorises;
    if CommittedNative(r) {
      LeaseStep(cx, s, r.v2, id);
    } else {
      NothingMoves(cx, s, r, id);
    }
  }

  lemma NothingMoves(cx: Codec, s: State, r: Record, id: string)
    requires Appends(cx, s, r) && !CommittedNative(r)
    ensures LeaseMoves(LeaseOf(s.nativeJobs, id), LeaseOf(Apply(s, r).nativeJobs, id), r, id)
    ensures Authorises(LeaseOf(s.nativeJobs, id), r, id)
  {
    hide AppendsNative, AppendsObject;
    if r.V2? {
      RejectedStep(cx, s, r.v2);
    }
  }

  /** A stage 1 commit gives the lease back exactly when it carries no artifacts or the job is not named
      like the consolidation job. */
  lemma CommitReleases(cx: Codec, s: State, r: NativeRecord)
    requires Commits(cx, s, r) && r.request.operation.Stage1Commit?
    ensures r.request.job.Some?
    ensures LeaseOf(JobsAfter(s, r), Command(r).jobId) == None <==>
        Command(r).jobId != GLOBAL || r.request.changes == []
  {
    hide AppendsNative, JobsAfter, Stage1Artifacts;
    if r.request.job.None? {
      NoCommandStep(cx, s, r);
    } else {
      Stage1Step(cx, s, r);
    }
  }

  // ----- the ledger is right -----

  ghost predicate LedgerAgrees(log: seq<Record>, id: string) {
    var lease := LeaseOf(StateOf(log).nativeJobs, id);
    match Ledger(log, id)
    case Held(g, e) => g < |log| && IsGrant(log[g], id) && lease == Some(Lease(GrantedToken(log[g]), Some(e)))
    case Free => lease == None
  }

  /** In every reachable state the lease fields of every job are those of the ledger. */
  lemma {:induction false} LedgerIsRight(cx: Codec, log: seq<Record>, id: string)
    requires IsHistory(cx, log)
    ensures LedgerAgrees(log, id)
  {
    hide Appends, Apply, Extends, GrantedToken;
    if log != [] {
      var front, r := log[..|log| - 1], log[|log| - 1];
      LedgerIsRight(cx, front, id);
      HistoryOk(cx, front);
      LeaseStepAny(cx, StateOf(front), r, id);
      assert forall i :: 0 <= i < |front| ==> front[i] == log[i];
    }
  }

  lemma {:induction false} LedgerGrant(log: seq<Record>, id: string)
    requires Ledger(log, id).Held?
    ensures var g := Ledger(log, id).grant;
            && g < |log| && IsGrant(log[g], id)
            && forall k :: g < k < |log| ==> !IsGrant(log[k], id) && !IsRelease(log[k], id)
  {
    hide IsGrant, IsRelease, IsRenewal;
    var front := log[..|log| - 1];
    if !IsGrant(log[|log| - 1], id) {
      LedgerGrant(front, id);
      assert forall i :: 0 <= i < |front| ==> front[i] == log[i];
    }
  }

  // ----- exclusion -----

  /** While nothing grants, renews or releases a job, its lease stays what the last grant or renewal
      made it. */
  lemma {:induction false} LeaseKept(cx: Codec, log: seq<Record>, i: nat, id: string)
    requires IsHistory(cx, log) && i < |log| && (IsGrant(log[i], id) || IsRenewal(log[i], id))
    requires forall k :: i < k < |log| ==> !IsGrant(log[k], id) && !IsRenewal(log[k], id) && !IsRelease(log[k], id)
    ensures var lease := LeaseOf(StateOf(log).nativeJobs, id);
            lease.Some? && lease.value.expires == Some(Extends(log[i]))
  {
    hide Appends, Apply, IsGrant, IsRelease, IsRenewal, Extends, GrantedToken;
    var front, r := log[..|log| - 1], log[|log| - 1];
    HistoryOk(cx, front);
    LeaseStepAny(cx, StateOf(front), r, id);
    if i < |front| {
      assert forall k :: 0 <= k < |front| ==> front[k] == log[k];
      LeaseKept(cx, front, i, id);
    }
  }

  /** Between a grant or renewal of a job and the next grant of it, either the job is released or the
      time of the second grant is at or past the expiry that the first one set. */
  lemma GrantsExclude(cx: Codec, log: seq<Record>, i: nat, j: nat, id: string)
    requires IsHistory(cx, log) && i < j < |log|
    requires (IsGrant(log[i], id) || IsRenewal(log[i], id)) && IsGrant(log[j], id)
    requires forall k :: i < k < j ==> !IsGrant(log[k], id) && !IsRenewal(log[k], id)
    ensures (exists k :: i < k < j && IsRelease(log[k], id)) || Extends(log[i]) <= log[j].v2.time
  {
    hide Appends, Apply, IsGrant, IsRelease, IsRenewal, Extends, GrantedToken;
    if forall k :: i < k < j ==> !IsRelease(log[k], id) {
      var front := log[..j];
      HistoryPrefix(cx, log, j);
      HistoryOk(cx, front);
      assert front[i] == log[i];
      LeaseKept(cx, front, i, id);
      LeaseStepAny(cx, StateOf(front), log[j], id);
    }
  }

  /** Every committed heartbeat, fail and commit is covered by the latest grant of its job: it carries
      that grant's token, nothing has released the job since, and the lease has not run out. */
  lemma AuthorisedIsCovered(cx: Codec, log: seq<Record>, k: nat, id: string) returns (g: nat)
    requires IsHistory(cx, log) && k < |log| && IsAuthorised(log[k], id)
    ensures g < k && IsGrant(log[g], id) && GrantedToken(log[g]) == Command(log[k].v2).leaseToken
    ensures forall m :: g < m < k ==> !IsGrant(log[m], id) && !IsRelease(log[m], id)
    ensures Ledger(log[..k], id).Held? && Ledger(log[..k], id).grant == g &&
        log[k].v2.time < Ledger(log[..k], id).expires
  {
    hide Appends, Apply, IsGrant, IsRelease, IsRenewal, Extends, GrantedToken, Ledger;
    var front := log[..k];
    assert forall i :: 0 <= i < |front| ==> front[i] == log[i];
    HistoryPrefix(cx, log, k);
    HistoryOk(cx, front);
    LedgerIsRight(cx, front, id);
    LeaseStepAny(cx, StateOf(front), log[k], id);
    g := Ledger(front, id).grant;
    LedgerGrant(front, id);
  }

  // ----- when a command is accepted -----

  /** A command without changes passes every check that comes before the job state machine. */
  lemma NoChangesRefused(cx: Codec, s: State, q: NativeRequest)
    requires TreeOk(Shown(s.native)) && q.changes == []
    ensures ChangesRefusal(cx, s, q) == NoReason
  {
    assert ShownAfter(s.native, []) == Shown(s.native);
  }

  /** A journalled command without changes was committed exactly when the state machine accepted it. */
  lemma CommandCommitsIff(cx: Codec, s: State, r: NativeRecord) returns (rnd: Entropy)
    requires AppendsNative(cx, s, r) && TreeOk(Shown(s.native)) && r.request.job.Some? && r.request.changes == []
    ensures !JobVerdict(cx, s, r.request, Command(r), r.time, None, rnd).Fault?
    ensures r.result.error == NoReason <==> JobVerdict(cx, s, r.request, Command(r), r.time, None, rnd).Accept?
  {
    hide ChangesRefusal, JobVerdict, Canonical;
    NoChangesRefused(cx, s, r.request);
    rnd :| EvaluateNative(cx, s, r.request, r.time, None, rnd) == Ok(r.result);
    NoEmptyReject(cx, s, r.request, Command(r), r.time, None, rnd);
  }

  /** A journalled heartbeat or fail was committed exactly when it has no changes, a heartbeat asks for some
      time, and the journal before it says that its token is the one of the job's unreleased grant, and in
      time. */
  lemma AuthorisedIff(cx: Codec, log: seq<Record>, k: nat)
    requires IsHistory(cx, log) && k < |log| && log[k].V2? && log[k].v2.request.job.Some?
    requires log[k].v2.request.operation.JobFail? || log[k].v2.request.operation.JobHeartbeat?
    ensures CommittedNative(log[k]) <==>
              var r := log[k].v2;
              var held := Ledger(log[..k], Command(r).jobId);
              && r.request.changes == [] && (r.request.operation.JobHeartbeat? ==> Command(r).leaseSeconds > 0)
              && held.Held? && held.grant < k && Command(r).leaseToken == GrantedToken(log[held.grant]) &&
                  r.time < held.expires
  {
    hide AppendsNative, Apply, StateOf, IsHistory, JobVerdict, JobsAfter, Ledger, IsGrant, GrantedToken;
    var s, r := StateOf(log[..k]), log[k].v2;
    HistoryPrefix(cx, log, k);
    HistoryOk(cx, log[..k]);
    LedgerIsRight(cx, log[..k], Command(r).jobId);
    assert forall i :: 0 <= i < k ==> log[..k][i] == log[i];
    if r.request.changes == [] {
      var rnd := CommandCommitsIff(cx, s, r);
      HeartbeatOrFailIff(cx, s, r.request, Command(r), r.time, rnd);
    } else if CommittedNative(log[k]) {
      if r.request.operation.JobFail? {
        FailStep(cx, s, r);
      } else {
        HeartbeatStep(cx, s, r);
      }
    }
  }

  lemma HeartbeatOrFailIff(cx: Codec, s: State, q: NativeRequest, cmd: JobCommand, now: int, rnd: Entropy)
    requires q.changes == [] && JobsOk(s.nativeJobs) && (q.operation.JobFail? || q.operation.JobHeartbeat?)
    ensures JobVerdict(cx, s, q, cmd, now, None, rnd).Accept? <==>
              var lease := LeaseOf(s.nativeJobs, cmd.jobId);
              && (q.operation.JobHeartbeat? ==> cmd.leaseSeconds > 0)
              && lease.Some? && lease.value.token == cmd.leaseToken && lease.value.expires.Some? &&
                  now < lease.value.expires.value
  {
  }

  /** A journalled claim was committed exactly when it has no changes, asks for some time, names the job's
      kind or none, and the job exists and either waits, or the lease that the journal implies has run
      out. */
  lemma ClaimIff(cx: Codec, log: seq<Record>, k: nat)
    requires IsHistory(cx, log) && k < |log| && log[k].V2? && log[k].v2.request.job.Some?
    requires log[k].v2.request.operation.JobClaim?
    ensures CommittedNative(log[k]) <==>
              var r := log[k].v2;
              var id, jobs := Command(r).jobId, StateOf(log[..k]).nativeJobs;
              && r.request.changes == [] && Command(r).leaseSeconds > 0
              && id in jobs && (Command(r).kind.NoKind? || Command(r).kind == jobs[id].kind)
              && match Ledger(log[..k], id)
                 case Held(_, expires) => expires <= r.time
                 case Free => !jobs[id].status.Succeeded?
  {
    hide AppendsNative, Apply, StateOf, IsHistory, JobVerdict, JobsAfter, Ledger, IsGrant, GrantedToken;
    var s, r := StateOf(log[..k]), log[k].v2;
    HistoryPrefix(cx, log, k);
    HistoryOk(cx, log[..k]);
    LedgerIsRight(cx, log[..k], Command(r).jobId);
    if r.request.changes == [] {
      var rnd := CommandCommitsIff(cx, s, r);
      ClaimVerdictIff(cx, s, r.request, Command(r), r.time, rnd);
    } else if CommittedNative(log[k]) {
      ClaimStep(cx, s, r);
    }
  }

  lemma ClaimVerdictIff(cx: Codec, s: State, q: NativeRequest, cmd: JobCommand, now: int, rnd: Entropy)
    requires q.changes == [] && JobsOk(s.nativeJobs) && q.operation.JobClaim?
    requires !JobVerdict(cx, s, q, cmd, now, None, rnd).Fault?
    ensures JobVerdict(cx, s, q, cmd, now, None, rnd).Accept? <==>
              var lease := LeaseOf(s.nativeJobs, cmd.jobId);
              && cmd.leaseSeconds > 0 && cmd.jobId in s.nativeJobs
              && (cmd.kind.NoKind? || cmd.kind == s.nativeJobs[cmd.jobId].kind)
              && (lease.None? ==> !s.nativeJobs[cmd.jobId].status.Succeeded?)
              && (lease.Some? ==> lease.value.expires.Some? && lease.value.expires.value <= now)
  {
  }

  /** The random source never repeats a lease token. */
  ghost predicate FreshTokens(log: seq<Record>) {
    forall i, j, a, b :: 0 <= i < j < |log| && IsGrant(log[i], a) && IsGrant(log[j], b) ==>
        GrantedToken(log[i]) != GrantedToken(log[j])
  }

  /** Once a later grant or a release has superseded a grant, its token authorises nothing again, on any
      job. */
  lemma SupersededTokenIsDead(cx: Codec, log: seq<Record>, i: nat, j: nat, k: nat, id: string, other: string)
    requires IsHistory(cx, log) && FreshTokens(log)
    requires i < j < k < |log| && IsGrant(log[i], id) && (IsGrant(log[j], id) || IsRelease(log[j], id))
    requires IsAuthorised(log[k], other)
    ensures Command(log[k].v2).leaseToken != GrantedToken(log[i])
  {
    hide Appends, Apply, IsRelease, IsRenewal, Extends, GrantedToken, IsHistory;
    var g := AuthorisedIsCovered(cx, log, k, other);
    // A grant names one job: if g were i, `other` would be `id`, and record j stands in between.
    GrantNamesOneJob(log[i], id, other);
    assert g != i;
    assert IsGrant(log[g], other) && IsGrant(log[i], id);
  }

  lemma GrantNamesOneJob(r: Record, id: string, other: string)
    ensures IsGrant(r, id) && IsGrant(r, other) ==> id == other
  {
  }
}
