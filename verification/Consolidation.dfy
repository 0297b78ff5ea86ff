/** The two-stage pipeline over whole runs: a consolidation is published only over the inputs it was
    begun with, and no stage 1 output is left out of the consolidation that is marked done. */
module Consolidation {
  import opened Types
  import opened Selection
  import opened Engine
  import opened History
  import opened Counting
  import opened JobSteps
  import opened Leases

  predicate IsBegin(r: Record) {
    Does(r, Phase2Begin) && Concerns(r, GLOBAL)
  }

  predicate IsConsolidation(r: Record) {
    Does(r, Phase2Commit) && Concerns(r, GLOBAL)
  }

  /** A stage 1 commit that carries artifacts. */
  predicate IsOutput(r: Record) {
    Does(r, Stage1Commit) && r.v2.request.changes != []
  }

  function IssuedTransaction(r: Record): string {
    if r.V2? && |r.v2.result.jobs| == 1 then r.v2.result.jobs[0].transactionId else ""
  }

  /** The consolidation job, if it exists and is not a stage 1 job of that name. */
  function Phase2Job(jobs: map<string, Job>): Option<Job> {
    if GLOBAL in jobs && jobs[GLOBAL].kind.Phase2Kind? then Some(jobs[GLOBAL]) else None
  }

  function JsonSelection(m: map<Key, nat>): Option<map<Key, nat>> {
    if m == map[] then None else Some(m)
  }

  /** How one record moves the consolidation job. */
  ghost predicate Phase2Moves(cx: Codec, s: State, after: map<string, Job>, r: Record) {
    Phase2Job(after).Some? ==>
      var before := Phase2Job(s.nativeJobs);
      var a := Phase2Job(after).value;
      && (IsGrant(r, GLOBAL) ==> a.memoryGeneration == s.memoryGeneration)
      && (IsBegin(r) ==>
            && a.transactionId == IssuedTransaction(r) && a.selectionLimit == Command(r.v2).maxInputs
            && a.selected == JsonSelection(Stage1Selection(cx, s, Command(r.v2).maxInputs)))
      && (a.status.Leased? && !IsGrant(r, GLOBAL) ==>
            before.Some? && before.value.status.Leased? && before.value.memoryGeneration == a.memoryGeneration)
      && (a.transactionId != "" && !IsBegin(r) ==>
            && before.Some? && before.value.transactionId == a.transactionId
            && before.value.selected == a.selected && before.value.selectionLimit == a.selectionLimit
            && !IsConsolidation(r) && !Does(r, MemoryClear))
      && (a.status.Succeeded? && !IsConsolidation(r) ==>
            before.Some? && before.value.status.Succeeded? && !IsOutput(r) && !Does(r, MemoryClear))
  }

  lemma ConsolidationStep(cx: Codec, s: State, r: NativeRecord)
    requires Commits(cx, s, r)
    ensures Phase2Moves(cx, s, JobsAfter(s, r), V2(r))
  {
    hide AppendsNative, JobsAfter, Stage1Selection, Phase2Moves;
    if r.request.job.Some? && (r.request.operation.Stage1Commit? || r.request.operation.Phase2Commit?) {
      CommitMoves(cx, s, r);
    } else {
      OtherMoves(cx, s, r);
    }
  }

  lemma CommitMoves(cx: Codec, s: State, r: NativeRecord)
    requires Commits(cx, s, r) && r.request.job.Some? &&
        (r.request.operation.Stage1Commit? || r.request.operation.Phase2Commit?)
    ensures Phase2Moves(cx, s, JobsAfter(s, r), V2(r))
  {
    hide AppendsNative, JobsAfter, Stage1Selection, Stage1Artifacts, ConsolidationArtifacts, ValidLease, ChangesMemory;
    if r.request.operation.Stage1Commit? {
      Stage1Step(cx, s, r);
    } else {
      Phase2Step(cx, s, r);
    }
  }

  lemma OtherMoves(cx: Codec, s: State, r: NativeRecord)
    requires Commits(cx, s, r) &&
        (r.request.job.None? || !(r.request.operation.Stage1Commit? || r.request.operation.Phase2Commit?))
    ensures Phase2Moves(cx, s, JobsAfter(s, r), V2(r))
  {
    hide AppendsNative, JobsAfter, Stage1Selection, GrantRefusal, ValidLease, Deadline, ChangesMemory;
    if r.request.job.None? {
      NoCommandStep(cx, s, r);
    } else {
      match r.request.operation {
        case Stage1Enqueue => EnqueueStep(cx, s, r);
        case JobClaim => ClaimStep(cx, s, r);
        case JobHeartbeat => HeartbeatStep(cx, s, r);
        case JobFail => FailStep(cx, s, r);
        case Phase2Begin => BeginStep(cx, s, r);
        case _ => var jobs, rnd := Accepted(cx, s, r);
      }
    }
  }

  lemma ConsolidationStepAny(cx: Codec, s: State, r: Record)
    requires Appends(cx, s, r) && StateOk(s)
    ensures Phase2Moves(cx, s, Apply(s, r).nativeJobs, r)
  {
    hide AppendsNative, AppendsObject, Stage1Selection;
    if CommittedNative(r) {
      ConsolidationStep(cx, s, r.v2);
    } else if r.V2? {
      RejectedStep(cx, s, r.v2);
    }
  }

  // ----- the freshness points -----

  /** While the consolidation job is leased, its stored generation is the one of its last grant. */
  lemma {:induction false} LastGrant(cx: Codec, log: seq<Record>) returns (g: nat)
    requires IsHistory(cx, log) && Phase2Job(StateOf(log).nativeJobs).Some?
    requires Phase2Job(StateOf(log).nativeJobs).value.status.Leased?
    ensures g < |log| && IsGrant(log[g], GLOBAL)
    ensures forall k :: g < k < |log| ==> !IsGrant(log[k], GLOBAL)
    ensures Phase2Job(StateOf(log).nativeJobs).value.memoryGeneration == StateOf(log[..g]).memoryGeneration
  {
    hide Appends, Apply, IsGrant, IsBegin, IsConsolidation, IsOutput, Stage1Selection;
    var front, r := log[..|log| - 1], log[|log| - 1];
    HistoryOk(cx, front);
    ConsolidationStepAny(cx, StateOf(front), r);
    if IsGrant(r, GLOBAL) {
      g := |log| - 1;
    } else {
      g := LastGrant(cx, front);
      assert front[..g] == log[..g];
      assert forall k :: 0 <= k < |front| ==> front[k] == log[k];
    }
  }

  /** While the consolidation job has an open transaction, that transaction and the stored selection are
      those of the last begin. */
  lemma {:induction false} LastBegin(cx: Codec, log: seq<Record>) returns (b: nat)
    requires IsHistory(cx, log) && Phase2Job(StateOf(log).nativeJobs).Some?
    requires Phase2Job(StateOf(log).nativeJobs).value.transactionId != ""
    ensures b < |log| && IsBegin(log[b])
    ensures forall k :: b < k < |log| ==> !IsBegin(log[k]) && !IsConsolidation(log[k]) && !Does(log[k], MemoryClear)
    ensures var job := Phase2Job(StateOf(log).nativeJobs).value; var limit := Command(log[b].v2).maxInputs;
            && job.transactionId == IssuedTransaction(log[b]) && job.selectionLimit == limit
            && job.selected == JsonSelection(Stage1Selection(cx, StateOf(log[..b]), limit))
  {
    hide Appends, Apply, IsGrant, IsConsolidation, IsOutput, Stage1Selection, Concerns;
    var front, r := log[..|log| - 1], log[|log| - 1];
    HistoryOk(cx, front);
    ConsolidationStepAny(cx, StateOf(front), r);
    if IsBegin(r) {
      b := |log| - 1;
    } else {
      b := LastBegin(cx, front);
      assert front[..b] == log[..b];
      assert forall k :: 0 <= k < |front| ==> front[k] == log[k];
    }
  }

  lemma {:induction false} NoBumpBetween(log: seq<Record>, g: nat)
    requires g <= |log| && Bumps(log[..g]) == Bumps(log)
    ensures forall k :: g <= k < |log| ==> !BumpsGeneration(log[k])
  {
    hide BumpsGeneration;
    if g < |log| {
      var front := log[..|log| - 1];
      assert front[..g] == log[..g];
      BumpsGrow(front, g);
      NoBumpBetween(front, g);
      assert forall k :: 0 <= k < |front| ==> front[k] == log[k];
    } else {
      assert log[..g] == log;
    }
  }

  lemma {:induction false} BumpsGrow(log: seq<Record>, g: nat)
    requires g <= |log|
    ensures Bumps(log[..g]) <= Bumps(log)
  {
    if g < |log| {
      var front := log[..|log| - 1];
      assert front[..g] == log[..g];
      BumpsGrow(front, g);
    } else {
      assert log[..g] == log;
    }
  }

  // ----- consolidation freshness -----

  lemma ConsolidationFacts(cx: Codec, s: State, r: NativeRecord)
    requires AppendsNative(cx, s, r) && StateOk(s) && Does(V2(r), Phase2Commit)
    ensures IsConsolidation(V2(r)) && Phase2Job(s.nativeJobs).Some?
    ensures var job := Phase2Job(s.nativeJobs).value;
            && job.status.Leased? && job.transactionId != "" && Command(r).transactionId == job.transactionId
            && job.memoryGeneration == s.memoryGeneration
            && job.selected == Some(Stage1Selection(cx, s, job.selectionLimit))
    ensures MEMORY_MD in KeysOf(V2(r)) && SUMMARY_MD in KeysOf(V2(r)) && |r.request.changes| == 2
  {
    hide AppendsNative, Stage1Selection, JobsAfter;
    if r.request.job.None? {
      NoCommandStep(cx, s, r);
    }
    Phase2Step(cx, s, r);
  }

  /** A committed consolidation `c` carries the transaction of the last begin `b`; since its last grant
      `g` no record changed memory or cleared it; its inputs are exactly those selected at `b`, and there
      are some; both artifacts advance by one revision together. */
  lemma ConsolidationIsFresh(cx: Codec, log: seq<Record>, c: nat) returns (b: nat, g: nat)
    requires IsHistory(cx, log) && c < |log| && Does(log[c], Phase2Commit)
    ensures b <= g < c && IsBegin(log[b]) && IsGrant(log[g], GLOBAL) && IsConsolidation(log[c])
    ensures Command(log[c].v2).transactionId == IssuedTransaction(log[b])
    ensures forall k :: b < k < c ==> !IsBegin(log[k]) && !IsConsolidation(log[k]) && !Does(log[k], MemoryClear)
    ensures forall k :: g < k < c ==> !IsGrant(log[k], GLOBAL)
    ensures forall k :: g <= k < c ==> !BumpsGeneration(log[k])
    ensures var limit := Command(log[b].v2).maxInputs; var inputs := Stage1Selection(cx, StateOf(log[..b]), limit);
            inputs != map[] && Stage1Selection(cx, StateOf(log[..c]), limit) == inputs
    ensures forall k :: k in {MEMORY_MD, SUMMARY_MD} ==>
              Current(StateOf(log[..c + 1]).native, k).revision == Current(StateOf(log[..c]).native, k).revision + 1
  {
    hide Appends, Apply, IsConsolidation, BumpsGeneration, Stage1Selection, IsHistory, StateOf, Current;
    var front := log[..c];
    HistoryPrefix(cx, log, c);
    HistoryOk(cx, front);
    ConsolidationFactsAt(cx, StateOf(front), log[c]);
    g := LastGrant(cx, front);
    b := LastBegin(cx, front);
    assert forall k :: 0 <= k < c ==> front[k] == log[k];
    assert front[..b] == log[..b] && front[..g] == log[..g];
    HistoryPrefix(cx, log, g);
    GenerationCountsBumps(cx, front);
    GenerationCountsBumps(cx, log[..g]);
    NoBumpBetween(front, g);
    RevisionStep(cx, StateOf(front), log[c], MEMORY_MD);
    RevisionStep(cx, StateOf(front), log[c], SUMMARY_MD);
  }

  lemma ConsolidationFactsAt(cx: Codec, s: State, r: Record)
    requires Appends(cx, s, r) && StateOk(s) && Does(r, Phase2Commit)
    ensures IsConsolidation(r) && Phase2Job(s.nativeJobs).Some?
    ensures var job := Phase2Job(s.nativeJobs).value;
            && job.status.Leased? && job.transactionId != "" && Command(r.v2).transactionId == job.transactionId
            && job.memoryGeneration == s.memoryGeneration
            && job.selected == Some(Stage1Selection(cx, s, job.selectionLimit))
    ensures MEMORY_MD in KeysOf(r) && SUMMARY_MD in KeysOf(r)
  {
    hide AppendsNative, Stage1Selection;
    ConsolidationFacts(cx, s, r.v2);
  }

  // ----- no lost consolidation -----

  lemma OutputBumps(cx: Codec, log: seq<Record>, k: nat)
    requires IsHistory(cx, log) && k < |log| && IsOutput(log[k])
    ensures BumpsGeneration(log[k])
  {
    hide Appends, Apply, Stage1Artifacts;
    HistoryPrefix(cx, log, k);
    HistoryOk(cx, log[..k]);
    OutputFacts(cx, StateOf(log[..k]), log[k]);
  }

  /** A stage 1 output leaves the consolidation job existing and, unless it is running, queued: it creates the
      job, or sends it back to the queue, or leaves it as it is. */
  lemma OutputFacts(cx: Codec, s: State, r: Record)
    requires Appends(cx, s, r) && StateOk(s) && IsOutput(r)
    ensures ChangesMemory(r.v2.request.changes)
    ensures GLOBAL in Apply(s, r).nativeJobs
    ensures Apply(s, r).nativeJobs[GLOBAL] ==
        if GLOBAL !in s.nativeJobs then Job(GLOBAL, Phase2Kind, 1, Queued, "", 0, "", None, "", 0, None, "", 0)
        else
          var prev := s.nativeJobs[GLOBAL];
          if prev.status.Leased? || prev.status.Queued? then prev
          else prev.(revision := prev.revision + 1, status := Queued, failure := "")
  {
    hide AppendsNative, Stage1Artifacts;
    if r.v2.request.job.None? {
      NoCommandStep(cx, s, r.v2);
    }
    Stage1Step(cx, s, r.v2);
    Stage1ChangesMemory(Command(r.v2), r.v2.request.changes);
  }

  /** Whenever the consolidation job is marked done, the last consolidation `c` and its last grant `g`
      are in the journal, and no stage 1 output and no clear was committed after `g`. */
  lemma {:induction false} NoLostConsolidation(cx: Codec, log: seq<Record>) returns (g: nat, c: nat)
    requires IsHistory(cx, log) && Phase2Job(StateOf(log).nativeJobs).Some?
    requires Phase2Job(StateOf(log).nativeJobs).value.status.Succeeded?
    ensures g < c < |log| && IsGrant(log[g], GLOBAL) && IsConsolidation(log[c])
    ensures forall k :: g < k < c ==> !IsGrant(log[k], GLOBAL)
    ensures forall k :: c < k < |log| ==> !IsConsolidation(log[k])
    ensures forall k :: g <= k < |log| ==> !IsOutput(log[k]) && !Does(log[k], MemoryClear)
  {
    hide Appends, Apply, IsGrant, Stage1Selection, BumpsGeneration, IsConsolidation, IsOutput, Does, StateOk, IsBegin;
    hide Bumps;
    var front, r := log[..|log| - 1], log[|log| - 1];
    HistoryOk(cx, front);
    IsConsolidationDoes(r);
    ConsolidationStepAny(cx, StateOf(front), r);
    if IsConsolidation(r) {
      c := |log| - 1;
      assert log[..c + 1] == log;
      var b;
      b, g := ConsolidationIsFresh(cx, log, c);
      forall k | g <= k < c
        ensures !IsOutput(log[k]) && !Does(log[k], MemoryClear)
      {
        if IsOutput(log[k]) {
          OutputBumps(cx, log, k);
        }
        ClearBumps(log[k]);
      }
    } else {
      g, c := NoLostConsolidation(cx, front);
      assert forall k :: 0 <= k < |front| ==> front[k] == log[k];
    }
  }

  lemma IsConsolidationDoes(r: Record)
    ensures IsConsolidation(r) ==> Does(r, Phase2Commit) && !IsOutput(r) && !Does(r, MemoryClear)
  {
  }

  lemma ClearBumps(r: Record)
    ensures Does(r, MemoryClear) ==> BumpsGeneration(r)
  {
  }
}
