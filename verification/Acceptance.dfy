/** When a journalled job command is accepted, and why it is refused otherwise, each read off the journal
    before it. */
module Acceptance {
  import opened Types
  import opened Normalization
  import opened Selection
  import opened MemoryTree
  import opened Engine
  import opened History
  import opened Counting
  import opened Registers
  import opened JobSteps
  import opened Leases
  import opened Consolidation

  // ----- the outcome of a command -----

  /** The reason in the receipt: that of the changes if they are refused, and otherwise that of the verdict. */
  lemma CommandOutcome(cx: Codec, s: State, r: NativeRecord) returns (rnd: Entropy)
    requires AppendsNative(cx, s, r) && r.request.job.Some?
    ensures ChangesRefusal(cx, s, r.request) != NoReason ==> r.result.error == ChangesRefusal(cx, s, r.request)
    ensures ChangesRefusal(cx, s, r.request) == NoReason ==>
        var v := JobVerdict(cx, s, r.request, Command(r), r.time, None, rnd);
        && !v.Fault? && (v.Accept? ==> r.result.error == NoReason)
        && (v.Reject? ==> r.result.error == v.reason && v.reason != NoReason)
  {
    hide ChangesRefusal, JobVerdict, Canonical;
    rnd :| EvaluateNative(cx, s, r.request, r.time, None, rnd) == Ok(r.result);
    NoEmptyReject(cx, s, r.request, Command(r), r.time, None, rnd);
  }

  /** The token is that of the job's unreleased grant, and in time. */
  ghost predicate Holds(log: seq<Record>, id: string, token: string, now: int) {
    var held := Ledger(log, id);
    held.Held? && held.grant < |log| && token == GrantedToken(log[held.grant]) && now < held.expires
  }

  lemma HoldsIff(cx: Codec, log: seq<Record>, id: string, token: string, now: int)
    requires IsHistory(cx, log)
    ensures Holds(log, id, token, now) <==>
        id in StateOf(log).nativeJobs && ValidLease(StateOf(log).nativeJobs[id], token, now)
  {
    hide IsHistory, StateOf, Ledger, IsGrant, GrantedToken;
    LedgerIsRight(cx, log, id);
    HistoryOk(cx, log);
  }

  // ----- consolidation: the open transaction -----

  lemma BeginOpens(cx: Codec, s: State, r: Record)
    requires Appends(cx, s, r) && StateOk(s) && IsBegin(r)
    ensures Phase2Job(Apply(s, r).nativeJobs).Some?
    ensures var job := Phase2Job(Apply(s, r).nativeJobs).value; var limit := Command(r.v2).maxInputs;
            && job.transactionId == IssuedTransaction(r) != "" && job.selectionLimit == limit
            && job.selected == JsonSelection(Stage1Selection(cx, s, limit))
  {
    hide AppendsNative, Stage1Selection, JobsAfter;
    BeginStep(cx, s, r.v2);
    JobsAfterApply(s, r);
  }

  lemma JobsAfterApply(s: State, r: Record)
    requires r.V2?
    ensures Apply(s, r).nativeJobs == JobsAfter(s, r.v2)
  {
    hide ApplyNative;
  }

  /** Nothing but a begin, a consolidation and a clear touches an open transaction. */
  ghost predicate SameTransaction(before: map<string, Job>, after: map<string, Job>) {
    Phase2Job(before).Some? ==>
      && Phase2Job(after).Some?
      && Phase2Job(after).value.transactionId == Phase2Job(before).value.transactionId
      && Phase2Job(after).value.selected == Phase2Job(before).value.selected
      && Phase2Job(after).value.selectionLimit == Phase2Job(before).value.selectionLimit
  }

  lemma TransactionStaysOpen(cx: Codec, s: State, r: Record)
    requires Appends(cx, s, r) && StateOk(s)
    requires !IsBegin(r) && !IsConsolidation(r) && !Does(r, MemoryClear)
    ensures SameTransaction(s.nativeJobs, Apply(s, r).nativeJobs)
  {
    hide AppendsNative, AppendsObject, SameTransaction, JobsAfter;
    if CommittedNative(r) {
      JobsAfterApply(s, r);
      if r.v2.request.operation.Stage1Commit? && r.v2.request.job.Some? {
        OutputKeepsTransaction(cx, s, r.v2);
      } else {
        CommandKeepsTransaction(cx, s, r.v2);
      }
    } else {
      NothingCommitted(cx, s, r);
    }
  }

  lemma NothingCommitted(cx: Codec, s: State, r: Record)
    requires Appends(cx, s, r) && !CommittedNative(r)
    ensures SameTransaction(s.nativeJobs, Apply(s, r).nativeJobs)
  {
    hide AppendsNative, AppendsObject;
    if r.V2? {
      RejectedStep(cx, s, r.v2);
    }
  }

  lemma OutputKeepsTransaction(cx: Codec, s: State, r: NativeRecord)
    requires Commits(cx, s, r) && r.request.job.Some? && r.request.operation.Stage1Commit?
    ensures SameTransaction(s.nativeJobs, JobsAfter(s, r))
  {
    hide AppendsNative, JobsAfter, Stage1Artifacts, ValidLease;
    Stage1Step(cx, s, r);
  }

  lemma CommandKeepsTransaction(cx: Codec, s: State, r: NativeRecord)
    requires Commits(cx, s, r) && !(r.request.job.Some? && r.request.operation.Stage1Commit?)
    requires !IsBegin(V2(r)) && !IsConsolidation(V2(r)) && !Does(V2(r), MemoryClear)
    ensures SameTransaction(s.nativeJobs, JobsAfter(s, r))
  {
    hide AppendsNative, JobsAfter, Stage1Selection, ConsolidationArtifacts, GrantRefusal, ValidLease, Deadline;
    if r.request.job.None? {
      NoCommandStep(cx, s, r);
    } else {
      match r.request.operation {
        case Stage1Enqueue => EnqueueStep(cx, s, r);
        case JobClaim => ClaimStep(cx, s, r);
        case JobHeartbeat => HeartbeatStep(cx, s, r);
        case JobFail => FailStep(cx, s, r);
        case Phase2Begin => BeginStep(cx, s, r);
        case Phase2Commit => Phase2Step(cx, s, r);
        case _ => var jobs, rnd := Accepted(cx, s, r);
      }
    }
  }

  /** Begin `b` is the last one after `log`, and neither a consolidation nor a clear came since. */
  ghost predicate OpenSince(log: seq<Record>, b: nat) {
    && b < |log| && IsBegin(log[b])
    && forall k :: b < k < |log| ==> !IsBegin(log[k]) && !IsConsolidation(log[k]) && !Does(log[k], MemoryClear)
  }

  /** A begin that is open says what the stored job holds. */
  lemma {:induction false} OpenBegin(cx: Codec, log: seq<Record>, b: nat)
    requires IsHistory(cx, log) && OpenSince(log, b)
    ensures Phase2Job(StateOf(log).nativeJobs).Some?
    ensures var job := Phase2Job(StateOf(log).nativeJobs).value; var limit := Command(log[b].v2).maxInputs;
            && job.transactionId == IssuedTransaction(log[b]) != "" && job.selectionLimit == limit
            && job.selected == JsonSelection(Stage1Selection(cx, StateOf(log[..b]), limit))
  {
    hide Appends, Apply, IsBegin, IsConsolidation, Stage1Selection;
    var front, r := log[..|log| - 1], log[|log| - 1];
    HistoryOk(cx, front);
    if b == |log| - 1 {
      BeginOpens(cx, StateOf(front), r);
    } else {
      TransactionStaysOpen(cx, StateOf(front), r);
      assert front[..b] == log[..b];
      assert forall k :: 0 <= k < |front| ==> front[k] == log[k];
      OpenBegin(cx, front, b);
    }
  }

  lemma {:induction false} NoBumpsSame(log: seq<Record>, g: nat)
    requires g <= |log| && forall k :: g <= k < |log| ==> !BumpsGeneration(log[k])
    ensures Bumps(log[..g]) == Bumps(log)
  {
    hide BumpsGeneration;
    if g < |log| {
      var front := log[..|log| - 1];
      assert front[..g] == log[..g];
      assert forall k :: 0 <= k < |front| ==> front[k] == log[k];
      NoBumpsSame(front, g);
    } else {
      assert log[..g] == log;
    }
  }

  /** The stored generation of the leased consolidation job is the present one exactly when nothing bumped it
      since the grant that the ledger names. */
  lemma GenerationIsFresh(cx: Codec, log: seq<Record>)
    requires IsHistory(cx, log) && Ledger(log, GLOBAL).Held? && Phase2Job(StateOf(log).nativeJobs).Some?
    ensures Ledger(log, GLOBAL).grant < |log|
    ensures Phase2Job(StateOf(log).nativeJobs).value.memoryGeneration == StateOf(log).memoryGeneration <==>
        forall k :: Ledger(log, GLOBAL).grant <= k < |log| ==> !BumpsGeneration(log[k])
  {
    hide StateOf, BumpsGeneration, IsGrant, IsRelease, IsHistory, GrantedToken, Phase2Job;
    var g := Ledger(log, GLOBAL).grant;
    LedgerGrant(log, GLOBAL);
    HeldIsLeased(cx, log);
    var last := LastGrant(cx, log);
    assert last == g;
    HistoryPrefix(cx, log, g);
    GenerationCountsBumps(cx, log);
    GenerationCountsBumps(cx, log[..g]);
    if Bumps(log[..g]) == Bumps(log) {
      NoBumpBetween(log, g);
    }
    if forall k :: g <= k < |log| ==> !BumpsGeneration(log[k]) {
      NoBumpsSame(log, g);
    }
  }

  lemma HeldIsLeased(cx: Codec, log: seq<Record>)
    requires IsHistory(cx, log) && Ledger(log, GLOBAL).Held? && Phase2Job(StateOf(log).nativeJobs).Some?
    ensures Phase2Job(StateOf(log).nativeJobs).value.status.Leased?
  {
    hide StateOf, IsHistory, IsGrant, GrantedToken, Ledger;
    LedgerIsRight(cx, log, GLOBAL);
  }

  // ----- consolidation: acceptance -----

  /** The journal entitles the command to consolidate over the inputs of begin `b`. */
  ghost predicate MayConsolidate(cx: Codec, log: seq<Record>, cmd: JobCommand, now: int, b: nat) {
    && cmd.jobId == GLOBAL && Holds(log, GLOBAL, cmd.leaseToken, now)
    && OpenSince(log, b) && cmd.transactionId == IssuedTransaction(log[b])
    && (forall k :: Ledger(log, GLOBAL).grant <= k < |log| ==> !BumpsGeneration(log[k]))
    && (var limit := Command(log[b].v2).maxInputs;
        Stage1Selection(cx, StateOf(log[..b]), limit) == Stage1Selection(cx, StateOf(log), limit) != map[])
  }

  /** The fields of the stored job that entitle the command. */
  ghost predicate JobEntitles(cx: Codec, s: State, cmd: JobCommand, now: int) {
    && cmd.jobId == GLOBAL && Phase2Job(s.nativeJobs).Some?
    && var job := Phase2Job(s.nativeJobs).value;
    && ValidLease(job, cmd.leaseToken, now)
    && cmd.transactionId != "" && cmd.transactionId == job.transactionId
    && job.memoryGeneration == s.memoryGeneration
    && job.selected == Some(Stage1Selection(cx, s, job.selectionLimit))
  }

  lemma EntitledByJournal(cx: Codec, log: seq<Record>, cmd: JobCommand, now: int, b: nat)
    requires IsHistory(cx, log) && OpenSince(log, b)
    ensures MayConsolidate(cx, log, cmd, now, b) <==> JobEntitles(cx, StateOf(log), cmd, now)
  {
    hide IsHistory, StateOf, Stage1Selection, Ledger, ValidLease, OpenSince, BumpsGeneration;
    OpenBegin(cx, log, b);
    HoldsIff(cx, log, GLOBAL, cmd.leaseToken, now);
    if Ledger(log, GLOBAL).Held? {
      GenerationIsFresh(cx, log);
    }
  }

  lemma EntitledHasBegin(cx: Codec, log: seq<Record>, cmd: JobCommand, now: int) returns (b: nat)
    requires IsHistory(cx, log) && JobEntitles(cx, StateOf(log), cmd, now)
    ensures OpenSince(log, b)
  {
    hide IsHistory, StateOf, Stage1Selection, ValidLease, IsBegin, IsConsolidation;
    b := LastBegin(cx, log);
  }

  /** Exactly the two artifacts. */
  ghost predicate TwoArtifacts(cs: seq<Change>) {
    |cs| == 2 && ChangedKeys(cs) == {MEMORY_MD, SUMMARY_MD}
  }

  lemma ArtifactsIff(cs: seq<Change>)
    requires |cs| == 2
    ensures ConsolidationArtifacts(cs) <==> TwoArtifacts(cs)
  {
    assert cs[0] in cs && cs[1] in cs;
    assert forall c :: c in cs ==> c.key in ChangedKeys(cs);
  }

  lemma Phase2VerdictIs(cx: Codec, s: State, q: NativeRequest, cmd: JobCommand, now: int, rnd: Entropy)
    requires q.operation.Phase2Commit? && JobsOk(s.nativeJobs)
    ensures var v := JobVerdict(cx, s, q, cmd, now, None, rnd);
            if !JobEntitles(cx, s, cmd, now) || |q.changes| != 2 then v == Reject(StaleConsolidation)
            else if !TwoArtifacts(q.changes) then v == Reject(InvalidConsolidationArtifacts)
            else v.Accept?
  {
    hide Stage1Selection, ConsolidationArtifacts, TwoArtifacts, ValidLease;
    if |q.changes| == 2 {
      ArtifactsIff(q.changes);
    }
  }

  /** No change is a migration alias, whose checks come first. */
  ghost predicate NoAliases(cs: seq<Change>) {
    forall c :: c in cs ==> !c.key.domain.Migration?
  }

  /** A journalled consolidation was committed exactly when the journal before it entitles it to one of the
      begins, and its changes are the two artifacts, expect the right revisions and leave the tree valid. It is
      refused for its changes first, then as stale, then because they are not the two artifacts. */
  lemma ConsolidationIff(cx: Codec, log: seq<Record>, k: nat)
    requires IsHistory(cx, log) && k < |log| && log[k].V2? && log[k].v2.request.job.Some?
    requires log[k].v2.request.operation.Phase2Commit?
    ensures var r := log[k].v2; var cs := r.request.changes;
            var entitled := exists b :: MayConsolidate(cx, log[..k], Command(r), r.time, b);
            && (CommittedNative(log[k]) <==>
                && entitled && TwoArtifacts(cs)
                && ExpectsCounts(log[..k], cs) && ValidMemoryPaths(StateOf(log[..k]).native, cs))
            && (NoAliases(cs) && RefusedFor(log[..k], cs, NoReason) && !CommittedNative(log[k]) ==>
                r.result.error == if !entitled || |cs| != 2 then StaleConsolidation else InvalidConsolidationArtifacts)
            && (NoAliases(cs) && !RefusedFor(log[..k], cs, NoReason) ==> RefusedFor(log[..k], cs, r.result.error))
  {
    hide AppendsNative, Apply, StateOf, IsHistory, JobVerdict, MayConsolidate, JobEntitles;
    hide ExpectsCounts, ValidMemoryPaths, ChangesRefusal, ChangeReason;
    var front, r := log[..k], log[k].v2;
    HistoryPrefix(cx, log, k);
    HistoryOk(cx, front);
    var rnd := CommandOutcome(cx, StateOf(front), r);
    Phase2VerdictIs(cx, StateOf(front), r.request, Command(r), r.time, rnd);
    EntitledIff(cx, front, Command(r), r.time);
    if NoAliases(r.request.changes) {
      ChangesRefusedFor(cx, front, r.request);
      RefusedForNothing(front, r.request.changes);
    } else {
      ArtifactsHaveNoAliases(r.request.changes);
    }
  }

  lemma ArtifactsHaveNoAliases(cs: seq<Change>)
    ensures TwoArtifacts(cs) ==> NoAliases(cs)
  {
    assert forall c :: c in cs ==> c.key in ChangedKeys(cs);
  }

  lemma RefusedForNothing(log: seq<Record>, cs: seq<Change>)
    ensures RefusedFor(log, cs, NoReason) <==> ExpectsCounts(log, cs) && ValidMemoryPaths(StateOf(log).native, cs)
    ensures forall r :: RefusedFor(log, cs, r) && RefusedFor(log, cs, NoReason) ==> r == NoReason
  {
    hide ExpectsCounts, ValidMemoryPaths, ChangeReason, StateOf;
  }

  lemma EntitledIff(cx: Codec, log: seq<Record>, cmd: JobCommand, now: int)
    requires IsHistory(cx, log)
    ensures (exists b :: MayConsolidate(cx, log, cmd, now, b)) <==> JobEntitles(cx, StateOf(log), cmd, now)
  {
    hide IsHistory, StateOf, Stage1Selection, Ledger, JobEntitles, Holds, OpenSince, BumpsGeneration;
    if b :| MayConsolidate(cx, log, cmd, now, b) {
      EntitledByJournal(cx, log, cmd, now, b);
    }
    if JobEntitles(cx, StateOf(log), cmd, now) {
      var b := EntitledHasBegin(cx, log, cmd, now);
      EntitledByJournal(cx, log, cmd, now, b);
    }
  }

  // ----- the other commands -----

  /** A command without changes has the reason of its verdict. */
  lemma CommandReason(cx: Codec, s: State, r: NativeRecord) returns (rnd: Entropy)
    requires AppendsNative(cx, s, r) && StateOk(s) && r.request.job.Some? && r.request.changes == []
    ensures var v := JobVerdict(cx, s, r.request, Command(r), r.time, None, rnd);
            && !v.Fault? && (v.Accept? ==> r.result.error == NoReason)
            && (v.Reject? ==> r.result.error == v.reason && v.reason != NoReason)
  {
    hide AppendsNative, ChangesRefusal, JobVerdict, TreeOk, Shown;
    NoChangesRefused(cx, s, r.request);
    rnd := CommandOutcome(cx, s, r);
  }

  /** The job of that id can be granted: its lease, if it has one, has run out, and it is not done. */
  ghost predicate Grantable(log: seq<Record>, id: string, now: int) {
    && id in StateOf(log).nativeJobs
    && (Ledger(log, id).Held? ==> Ledger(log, id).expires <= now)
    && (Ledger(log, id).Free? ==> StateOf(log).nativeJobs[id].status != Succeeded)
  }

  lemma GrantableIff(cx: Codec, log: seq<Record>, id: string, now: int)
    requires IsHistory(cx, log) && id in StateOf(log).nativeJobs
    ensures var j := StateOf(log).nativeJobs[id];
            GrantRefusal(j, now) ==
            if Grantable(log, id, now) then NoReason else if Ledger(log, id).Held? then LeaseUnavailable
            else JobConflict
    ensures Ledger(log, id).Held? <==> StateOf(log).nativeJobs[id].status == Leased
  {
    hide IsHistory, StateOf, Ledger, IsGrant, GrantedToken;
    LedgerIsRight(cx, log, id);
    HistoryOk(cx, log);
  }

  /** The reason recorded for a journalled claim without changes. */
  lemma ClaimReason(cx: Codec, log: seq<Record>, k: nat)
    requires IsHistory(cx, log) && k < |log| && log[k].V2? && log[k].v2.request.job.Some?
    requires log[k].v2.request.operation.JobClaim? && log[k].v2.request.changes == []
    ensures var r := log[k].v2; var cmd := Command(r); var jobs := StateOf(log[..k]).nativeJobs;
            r.result.error == (
              if cmd.jobId !in jobs || cmd.leaseSeconds == 0 || cmd.kind !in {NoKind, jobs[cmd.jobId].kind} then
                  JobConflict
              else if Grantable(log[..k], cmd.jobId, r.time) then NoReason
              else if Ledger(log[..k], cmd.jobId).Held? then LeaseUnavailable
              else JobConflict)
  {
    hide AppendsNative, Apply, StateOf, IsHistory, Grantable, Ledger, GrantRefusal;
    var r := log[k].v2;
    HistoryPrefix(cx, log, k);
    HistoryOk(cx, log[..k]);
    var rnd := CommandReason(cx, StateOf(log[..k]), r);
    if Command(r).jobId in StateOf(log[..k]).nativeJobs {
      GrantableIff(cx, log[..k], Command(r).jobId, r.time);
    }
  }

  /** A journalled begin was committed exactly when it has no changes, asks for some time, and names the
      consolidation job, which exists and can be granted. */
  lemma BeginIff(cx: Codec, log: seq<Record>, k: nat)
    requires IsHistory(cx, log) && k < |log| && log[k].V2? && log[k].v2.request.job.Some?
    requires log[k].v2.request.operation.Phase2Begin?
    ensures var r := log[k].v2; var cmd := Command(r);
            var named := cmd.jobId == GLOBAL && Phase2Job(StateOf(log[..k]).nativeJobs).Some? && cmd.leaseSeconds > 0;
            && (CommittedNative(log[k]) <==>
                r.request.changes == [] && named && Grantable(log[..k], GLOBAL, r.time))
            && (r.request.changes == [] && !CommittedNative(log[k]) ==>
                r.result.error == if named && Ledger(log[..k], GLOBAL).Held? then LeaseUnavailable else JobConflict)
  {
    hide AppendsNative, Apply, StateOf, IsHistory, Grantable, Ledger, GrantRefusal, JobsAfter, Stage1Selection;
    var s, r := StateOf(log[..k]), log[k].v2;
    HistoryPrefix(cx, log, k);
    HistoryOk(cx, log[..k]);
    if r.request.changes == [] {
      var rnd := CommandReason(cx, s, r);
      BeginVerdict(cx, s, r.request, Command(r), r.time, rnd);
      if Phase2Job(s.nativeJobs).Some? {
        GrantableIff(cx, log[..k], GLOBAL, r.time);
      }
    } else if CommittedNative(log[k]) {
      BeginStep(cx, s, r);
    }
  }

  lemma BeginVerdict(cx: Codec, s: State, q: NativeRequest, cmd: JobCommand, now: int, rnd: Entropy)
    requires JobsOk(s.nativeJobs) && q.operation.Phase2Begin? && q.changes == []
    ensures var v := JobVerdict(cx, s, q, cmd, now, None, rnd);
            if cmd.jobId == GLOBAL && Phase2Job(s.nativeJobs).Some? && cmd.leaseSeconds > 0 then
              var refusal := GrantRefusal(s.nativeJobs[GLOBAL], now);
              if refusal == NoReason then !v.Reject? else v == Reject(refusal)
            else v == Reject(JobConflict)
  {
    hide GrantRefusal, Stage1Selection;
  }

  /** A journalled enqueue was committed exactly when it has no changes, asks for a stage 1 job and names an
      input, and a job of that id, if there is one, is a stage 1 job that nobody holds. */
  lemma EnqueueIff(cx: Codec, log: seq<Record>, k: nat)
    requires IsHistory(cx, log) && k < |log| && log[k].V2? && log[k].v2.request.job.Some?
    requires log[k].v2.request.operation.Stage1Enqueue?
    ensures var r := log[k].v2; var cmd := Command(r); var jobs := StateOf(log[..k]).nativeJobs;
            && (CommittedNative(log[k]) <==>
                && r.request.changes == [] && cmd.kind == Stage1Kind && cmd.inputVersion != ""
                && (cmd.jobId in jobs ==>
                    jobs[cmd.jobId].kind == Stage1Kind && Ledger(log[..k], cmd.jobId).Free?))
            && (r.request.changes == [] && !CommittedNative(log[k]) ==> r.result.error == JobConflict)
  {
    hide AppendsNative, Apply, StateOf, IsHistory, Grantable, Ledger, GrantRefusal, JobsAfter, Enqueued;
    var s, r := StateOf(log[..k]), log[k].v2;
    HistoryPrefix(cx, log, k);
    HistoryOk(cx, log[..k]);
    if r.request.changes == [] {
      var rnd := CommandReason(cx, s, r);
      if Command(r).jobId in s.nativeJobs {
        GrantableIff(cx, log[..k], Command(r).jobId, r.time);
      }
    } else if CommittedNative(log[k]) {
      EnqueueStep(cx, s, r);
    }
  }

  /** Both halves of the output of the job, written or deleted as the command says, or nothing at all from a
      job without output. */
  ghost predicate TwoHalves(cmd: JobCommand, cs: seq<Change>) {
    || (cmd.noOutput && cs == [])
    || (|cs| == 2 && ChangedKeys(cs) == {RawKey(cmd.jobId), SummaryKey(cmd.jobId)} &&
        forall c :: c in cs ==> c.deleted == cmd.noOutput)
  }

  lemma HalvesIff(cmd: JobCommand, cs: seq<Change>)
    ensures Stage1Artifacts(cmd, cs) <==> TwoHalves(cmd, cs)
    ensures TwoHalves(cmd, cs) ==> NoAliases(cs)
  {
    hide RawKey, SummaryKey;
    ArtifactKeysDistinct(cmd.jobId, cmd.jobId);
    RawKeyIs(cmd.jobId);
    if |cs| == 2 {
      assert cs[0] in cs && cs[1] in cs;
      assert forall c :: c in cs ==> c.key in ChangedKeys(cs);
    }
  }

  lemma RawKeyIs(id: string)
    ensures RawKey(id).domain.Stage1? && SummaryKey(id).domain.Stage1?
  {
  }

  /** A journalled stage 1 commit was committed exactly when its job is a stage 1 job whose unreleased grant
      handed out its token, in time, and its changes are the two halves, or nothing, expect the right revisions
      and leave the tree valid. */
  lemma OutputIff(cx: Codec, log: seq<Record>, k: nat)
    requires IsHistory(cx, log) && k < |log| && log[k].V2? && log[k].v2.request.job.Some?
    requires log[k].v2.request.operation.Stage1Commit?
    ensures var r := log[k].v2; var cmd := Command(r); var cs := r.request.changes;
            var jobs := StateOf(log[..k]).nativeJobs;
            var held := cmd.jobId in jobs && jobs[cmd.jobId].kind == Stage1Kind &&
                Holds(log[..k], cmd.jobId, cmd.leaseToken, r.time);
            && (CommittedNative(log[k]) <==>
                && held && TwoHalves(cmd, cs)
                && ExpectsCounts(log[..k], cs) && ValidMemoryPaths(StateOf(log[..k]).native, cs))
            && (NoAliases(cs) && RefusedFor(log[..k], cs, NoReason) && !CommittedNative(log[k]) ==>
                r.result.error == if !held then LeaseLost else InvalidStage1Artifacts)
            && (NoAliases(cs) && !RefusedFor(log[..k], cs, NoReason) ==> RefusedFor(log[..k], cs, r.result.error))
  {
    hide AppendsNative, Apply, StateOf, IsHistory, JobVerdict, TwoHalves, Holds, ValidLease, Stage1Artifacts;
    hide ExpectsCounts, ValidMemoryPaths, ChangesRefusal, ChangeReason;
    var front, r := log[..k], log[k].v2;
    HistoryPrefix(cx, log, k);
    HistoryOk(cx, front);
    var rnd := CommandOutcome(cx, StateOf(front), r);
    HoldsIff(cx, front, Command(r).jobId, Command(r).leaseToken, r.time);
    OutputVerdict(cx, StateOf(front), r.request, Command(r), r.time, rnd);
    HalvesIff(Command(r), r.request.changes);
    if NoAliases(r.request.changes) {
      ChangesRefusedFor(cx, front, r.request);
      RefusedForNothing(front, r.request.changes);
    }
  }

  lemma OutputVerdict(cx: Codec, s: State, q: NativeRequest, cmd: JobCommand, now: int, rnd: Entropy)
    requires q.operation.Stage1Commit?
    ensures var v := JobVerdict(cx, s, q, cmd, now, None, rnd);
            if cmd.jobId !in s.nativeJobs || s.nativeJobs[cmd.jobId].kind != Stage1Kind ||
                !ValidLease(s.nativeJobs[cmd.jobId], cmd.leaseToken, now) then v == Reject(LeaseLost)
            else if !Stage1Artifacts(cmd, q.changes) then v == Reject(InvalidStage1Artifacts)
            else v.Accept?
  {
    hide Stage1Artifacts, ValidLease, Requeued;
  }

  /** A journalled heartbeat or fail without changes that was not committed was refused as having lost its
      lease. */
  lemma LeaseReason(cx: Codec, log: seq<Record>, k: nat)
    requires IsHistory(cx, log) && k < |log| && log[k].V2? && log[k].v2.request.job.Some?
    requires log[k].v2.request.operation.JobFail? || log[k].v2.request.operation.JobHeartbeat?
    requires log[k].v2.request.changes == []
    ensures log[k].v2.result.error == NoReason || log[k].v2.result.error == LeaseLost
  {
    hide AppendsNative, Apply, StateOf, IsHistory, ValidLease;
    HistoryPrefix(cx, log, k);
    HistoryOk(cx, log[..k]);
    var rnd := CommandReason(cx, StateOf(log[..k]), log[k].v2);
  }

  // ----- tokens -----

  predicate IsToken(t: Option<string>) {
    t.Some? && |t.value| == 64
  }

  /** A live grant hands out the first token of the random source as the lease token, and a begin the second one as the
      transaction; it fails only for want of such a token. */
  lemma GrantHandsOut(cx: Codec, s: State, q: NativeRequest, now: int, rnd: Entropy)
    requires q.job.Some? && (q.operation.JobClaim? || q.operation.Phase2Begin?)
    ensures var r := EvaluateNative(cx, s, q, now, None, rnd);
            && (r.Ok? && r.value.error == NoReason ==>
                  && |r.value.jobs| == 1 && Some(r.value.jobs[0].leaseToken) == rnd.first && IsToken(rnd.first)
                  && (q.operation.Phase2Begin? ==>
                      Some(r.value.jobs[0].transactionId) == rnd.second && IsToken(rnd.second)))
            && (r.Err? ==>
                  && r.error == NoTokens
                  && !(IsToken(rnd.first) && (q.operation.Phase2Begin? ==> IsToken(rnd.second))))
  {
    hide ChangesRefusal, GrantRefusal, Stage1Selection, ChangesMemory;
    NoEmptyReject(cx, s, q, q.job.value, now, None, rnd);
    NoMemoryInNothing();
  }

  lemma NoMemoryInNothing()
    ensures !ChangesMemory([])
  {
  }
}
