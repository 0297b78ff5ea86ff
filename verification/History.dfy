/** Runs of the store. A history is a journal each of whose records is what the live store appends in
    the state reached before it: any interleaving of `Mutate` and `NativeBatch`, with any clock
    readings and any random tokens. */
module History {
  import opened Types
  import opened Text
  import opened Normalization
  import opened Selection
  import opened MemoryTree
  import opened Aliases
  import opened Engine

  ghost predicate FreshId(s: State, id: string) {
    id !in s.requests && id !in s.nativeRequests
  }

  ghost predicate AppendsObject(s: State, r: ObjectRecord) {
    && ValidMutation(r.collection, r.operation, r.request)
    && FreshId(s, r.request.requestId)
    && r.sequence == s.sequence + 1
    && (r.before, r.result) == Evaluate(s, r.collection, r.operation, r.request)
  }

  ghost predicate AppendsNative(cx: Codec, s: State, r: NativeRecord) {
    && Canonical(cx, r.request)
    && FreshId(s, r.request.requestId)
    && r.sequence == s.sequence + 1
    && r.digest == cx.digest(r.request)
    && exists rnd :: EvaluateNative(cx, s, r.request, r.time, None, rnd) == Ok(r.result)
  }

  ghost predicate Appends(cx: Codec, s: State, r: Record) {
    match r
    case V1(o) => AppendsObject(s, o)
    case V2(n) => AppendsNative(cx, s, n)
  }

  ghost function StateOf(log: seq<Record>): State {
    if log == [] then EMPTY else Apply(StateOf(log[..|log| - 1]), log[|log| - 1])
  }

  ghost predicate IsHistory(cx: Codec, log: seq<Record>) {
    log == [] || (IsHistory(cx, log[..|log| - 1]) && Appends(cx, StateOf(log[..|log| - 1]), log[|log| - 1]))
  }

  lemma {:induction false} HistoryPrefix(cx: Codec, log: seq<Record>, n: nat)
    requires IsHistory(cx, log) && n <= |log|
    ensures IsHistory(cx, log[..n])
    ensures n < |log| ==> Appends(cx, StateOf(log[..n]), log[n])
    ensures n < |log| ==> StateOf(log[..n + 1]) == Apply(StateOf(log[..n]), log[n])
  {
    hide Appends, Apply;
    if n == |log| {
      assert log[..n] == log;
    } else if n == |log| - 1 {
      assert log[..n + 1] == log;
    } else {
      var front := log[..|log| - 1];
      HistoryPrefix(cx, front, n);
      assert front[..n] == log[..n] && front[..n + 1] == log[..n + 1];
    }
  }

  lemma HistorySnoc(cx: Codec, log: seq<Record>, r: Record)
    requires IsHistory(cx, log) && Appends(cx, StateOf(log), r)
    ensures IsHistory(cx, log + [r]) && StateOf(log + [r]) == Apply(StateOf(log), r)
  {
    hide Appends, Apply;
    assert (log + [r])[..|log|] == log;
  }

  /** Whatever the exported operations hand to the journal is a step of a history. */
  lemma BatchAppends(cx: Codec, s: State, q: NativeRequest, now: int, rnd: Entropy)
    requires BatchOutcome(cx, s, q, now, rnd).Append?
    ensures Appends(cx, s, BatchOutcome(cx, s, q, now, rnd).record)
  {
    NormalizeCanonical(cx, q);
  }

  lemma MutateAppends(cx: Codec, s: State, c: Collection, op: Mutation, q: Request, now: int)
    requires MutateOutcome(s, c, op, q, now).Append?
    ensures Appends(cx, s, MutateOutcome(s, c, op, q, now).record)
  {
  }

  // ----- one committed native step -----

  predicate CommittedNative(r: Record) {
    r.V2? && r.v2.result.error == NoReason
  }

  predicate Does(r: Record, op: Operation) {
    CommittedNative(r) && r.v2.request.operation == op
  }

  /** The jobs that the evaluation of a committed record accepted. */
  ghost predicate AcceptsJobs(cx: Codec, s: State, r: NativeRecord, jobs: seq<Job>) {
    && r.result == Commit(cx, s, r.request, jobs)
    && match r.request.job
       case None => jobs == [] && !JobOperation(r.request.operation)
       case Some(cmd) => exists rnd :: JobVerdict(cx, s, r.request, cmd, r.time, None, rnd) == Accept(jobs)
  }

  lemma CommittedStep(cx: Codec, s: State, r: NativeRecord) returns (jobs: seq<Job>)
    requires AppendsNative(cx, s, r) && r.result.error == NoReason
    ensures ChangesRefusal(cx, s, r.request) == NoReason
    ensures AcceptsJobs(cx, s, r, jobs)
  {
    var rnd :| EvaluateNative(cx, s, r.request, r.time, None, rnd) == Ok(r.result);
    jobs := CommittedEvaluation(cx, s, r.request, r.time, rnd, r.result);
  }

  lemma CommittedEvaluation(cx: Codec, s: State, q: NativeRequest, now: int, rnd: Entropy, result: NativeResult)
      returns (jobs: seq<Job>)
    requires EvaluateNative(cx, s, q, now, None, rnd) == Ok(result) && result.error == NoReason
    ensures ChangesRefusal(cx, s, q) == NoReason
    ensures result == Commit(cx, s, q, jobs)
    ensures q.job.None? ==> jobs == [] && !JobOperation(q.operation)
    ensures q.job.Some? ==> JobVerdict(cx, s, q, q.job.value, now, None, rnd) == Accept(jobs)
  {
    if q.job.None? {
      jobs := [];
    } else {
      NoEmptyReject(cx, s, q, q.job.value, now, None, rnd);
      jobs := JobVerdict(cx, s, q, q.job.value, now, None, rnd).jobs;
    }
  }

  lemma NoEmptyReject(cx: Codec, s: State, q: NativeRequest, cmd: JobCommand, now: int, replay: Option<NativeResult>,
                      rnd: Entropy)
    ensures JobVerdict(cx, s, q, cmd, now, replay, rnd) != Reject(NoReason)
  {
  }

  lemma RejectedStep(cx: Codec, s: State, r: NativeRecord)
    requires AppendsNative(cx, s, r) && r.result.error != NoReason
    ensures r.result.status == Rejected && r.result.resources == [] && r.result.jobs == []
    ensures ApplyNative(s, r) == s.(nativeRequests := s.nativeRequests[r.request.requestId := r],
        sequence := r.sequence)
  {
    hide JobVerdict, ChangesRefusal;
    var rnd :| EvaluateNative(cx, s, r.request, r.time, None, rnd) == Ok(r.result);
  }

  // ----- publishing resources -----

  ghost predicate DistinctKeys(cs: seq<Change>) {
    forall i, j :: 0 <= i < j < |cs| ==> cs[i].key != cs[j].key
  }

  lemma ResourcesPrefix(cx: Codec, front: seq<Change>, last: Change)
    ensures ResourcesOf(cx, front + [last])[..|front|] == ResourcesOf(cx, front)
  {
    hide ResourceOf;
    forall i | 0 <= i < |front|
      ensures ResourcesOf(cx, front + [last])[i] == ResourcesOf(cx, front)[i]
    {
      assert (front + [last])[i] == front[i];
    }
  }

  lemma PublishLast(cx: Codec, native: map<Key, Resource>, front: seq<Change>, last: Change)
    ensures Publish(native, ResourcesOf(cx, front + [last])) == Publish(native,
        ResourcesOf(cx, front))[last.key := ResourceOf(cx, last)]
  {
    var cs := front + [last];
    var rs := ResourcesOf(cx, cs);
    assert rs[|front|] == ResourceOf(cx, last) by { assert cs[|front|] == last; }
    assert rs[..|rs| - 1] == ResourcesOf(cx, front) by { ResourcesPrefix(cx, front, last); }
  }

  lemma {:induction false} UnchangedKey(cx: Codec, native: map<Key, Resource>, cs: seq<Change>, k: Key)
    requires forall i :: 0 <= i < |cs| ==> cs[i].key != k
    ensures var after := Publish(native, ResourcesOf(cx, cs));
            (k in after <==> k in native) && (k in native ==> after[k] == native[k])
  {
    if cs != [] {
      var front, last := cs[..|cs| - 1], cs[|cs| - 1];
      assert cs == front + [last];
      UnchangedKey(cx, native, front, k);
      PublishLast(cx, native, front, last);
    }
  }

  lemma {:induction false} ChangedKey(cx: Codec, native: map<Key, Resource>, cs: seq<Change>, i: nat)
    requires DistinctKeys(cs) && i < |cs|
    ensures var after := Publish(native, ResourcesOf(cx, cs));
            cs[i].key in after && after[cs[i].key] == ResourceOf(cx, cs[i])
  {
    hide Publish, ResourcesOf, ResourceOf;
    var front, last := cs[..|cs| - 1], cs[|cs| - 1];
    assert cs == front + [last];
    PublishLast(cx, native, front, last);
    if i < |front| {
      assert front[i] == cs[i];
      assert DistinctKeys(front);
      ChangedKey(cx, native, front, i);
    }
  }

  lemma PublishedAt(cx: Codec, native: map<Key, Resource>, cs: seq<Change>)
    requires DistinctKeys(cs)
    ensures Publish(native, ResourcesOf(cx, cs)).Keys == native.Keys + ChangedKeys(cs)
    ensures forall k :: k in native && k !in ChangedKeys(cs) ==> Publish(native, ResourcesOf(cx, cs))[k] == native[k]
    ensures forall c :: c in cs ==>
        c.key in Publish(native, ResourcesOf(cx, cs)) &&
        Publish(native, ResourcesOf(cx, cs))[c.key] == ResourceOf(cx, c)
  {
    var after := Publish(native, ResourcesOf(cx, cs));
    forall c | c in cs
      ensures c.key in after && after[c.key] == ResourceOf(cx, c)
    {
      var i :| 0 <= i < |cs| && cs[i] == c;
      ChangedKey(cx, native, cs, i);
    }
    forall k | k !in ChangedKeys(cs)
      ensures k in after <==> k in native
      ensures k in native ==> after[k] == native[k]
    {
      UnchangedKey(cx, native, cs, k);
    }
  }

  lemma ShownAfterPublish(cx: Codec, native: map<Key, Resource>, cs: seq<Change>)
    requires DistinctKeys(cs)
    ensures Shown(Publish(native, ResourcesOf(cx, cs))) == ShownAfter(native, cs)
  {
    PublishedAt(cx, native, cs);
    var after := Publish(native, ResourcesOf(cx, cs));
    forall k | k in ChangedKeys(cs)
      ensures k in Shown(after) <==> k in ShownAfter(native, cs)
    {
      var c :| c in cs && c.key == k;
      forall d | d in cs && d.key == k
        ensures d == c
      {
        var i :| 0 <= i < |cs| && cs[i] == c;
        var j :| 0 <= j < |cs| && cs[j] == d;
      }
    }
  }

  /** What a native record does to the resources. */
  lemma NativeAfter(cx: Codec, s: State, r: NativeRecord)
    requires AppendsNative(cx, s, r)
    ensures DistinctKeys(r.request.changes)
    ensures r.result.error != NoReason ==> ApplyNative(s, r).native == s.native
    ensures r.result.error == NoReason ==>
        ApplyNative(s, r).native == Publish(s.native, ResourcesOf(cx, r.request.changes))
    ensures r.result.error == NoReason ==> ChangesRefusal(cx, s, r.request) == NoReason
  {
    hide EvaluateNative, JobVerdict, ChangesRefusal, Canonical, Publish, ResourcesOf, StoreJobs, DistinctKeys;
    CanonicalKeys(cx, r.request);
    if r.result.error == NoReason {
      var jobs := CommittedStep(cx, s, r);
    }
  }

  lemma CanonicalKeys(cx: Codec, q: NativeRequest)
    requires Canonical(cx, q)
    ensures DistinctKeys(q.changes)
  {
  }

  // ----- the state invariant -----

  ghost predicate ResourcesOk(native: map<Key, Resource>) {
    forall k :: k in native ==>
      native[k].key == k && 1 <= native[k].revision <= MAX_REVISION && ValidDomain(k.domain) && ValidPath(k.name)
  }

  ghost predicate JobKept(id: string, j: Job) {
    && j.jobId == id
    && (j.kind.Stage1Kind? || (j.kind.Phase2Kind? && id == GLOBAL))
    && (j.status.Leased? ==> j.leaseExpiresAt.Some? && |j.leaseToken| == 64)
    && (j.selected.Some? ==> forall k :: k in j.selected.value ==> k.domain.Stage1?)
  }

  ghost predicate JobsOk(jobs: map<string, Job>) {
    forall id :: id in jobs ==> JobKept(id, jobs[id]) && jobs[id].selected != Some(map[])
  }

  ghost predicate StateOk(s: State) {
    && ResourcesOk(s.native)
    && JobsOk(s.nativeJobs)
    && TreeOk(Shown(s.native))
    && s.requests.Keys !! s.nativeRequests.Keys
  }

  lemma {:induction false} StoredJobs(jobs: map<string, Job>, js: seq<Job>)
    requires JobsOk(jobs)
    requires forall j :: j in js ==> JobKept(j.jobId, j)
    ensures JobsOk(StoreJobs(jobs, js))
  {
    if js != [] {
      StoredJobs(jobs, js[..|js| - 1]);
    }
  }

  lemma AcceptedJobsKept(cx: Codec, s: State, q: NativeRequest, cmd: JobCommand, now: int, rnd: Entropy)
    requires JobsOk(s.nativeJobs)
    ensures var v := JobVerdict(cx, s, q, cmd, now, None, rnd);
            v.Accept? ==> forall j :: j in v.jobs ==> JobKept(j.jobId, j)
  {
    hide Stage1Selection, Stage1Artifacts, ConsolidationArtifacts;
    SelectionKeys(cx, s, cmd.maxInputs);
  }

  lemma ReceiptJobsKept(cx: Codec, s: State, r: NativeRecord)
    requires AppendsNative(cx, s, r) && JobsOk(s.nativeJobs)
    ensures forall j :: j in r.result.jobs ==> JobKept(j.jobId, j)
  {
    hide EvaluateNative, JobVerdict, ChangesRefusal, Canonical, JobKept, ResourcesOf, ChangesMemory, Restamped, JobsOk;
    if r.result.error != NoReason {
      RejectedStep(cx, s, r);
    } else {
      var jobs := CommittedStep(cx, s, r);
      if r.request.job.Some? {
        var rnd :| JobVerdict(cx, s, r.request, r.request.job.value, r.time, None, rnd) == Accept(jobs);
        AcceptedJobsKept(cx, s, r.request, r.request.job.value, r.time, rnd);
      }
      forall j | j in r.result.jobs
        ensures JobKept(j.jobId, j)
      {
        var i :| 0 <= i < |r.result.jobs| && r.result.jobs[i] == j;
        assert jobs[i] in jobs;
        RestampKeeps(jobs[i], s.memoryGeneration + 1);
      }
    }
  }

  lemma RestampKeeps(j: Job, generation: nat)
    requires JobKept(j.jobId, j)
    ensures Restamped(j, generation).jobId == j.jobId && JobKept(j.jobId, Restamped(j, generation))
  {
  }

  lemma StepKeepsJobs(cx: Codec, s: State, r: NativeRecord)
    requires AppendsNative(cx, s, r) && JobsOk(s.nativeJobs)
    ensures JobsOk(ApplyNative(s, r).nativeJobs)
  {
    hide AppendsNative, Publish, PublishesMemory, StoreJobs, JobKept;
    if r.result.error == NoReason {
      ReceiptJobsKept(cx, s, r);
      StoredJobs(s.nativeJobs, r.result.jobs);
    }
  }

  lemma StepKeepsState(cx: Codec, s: State, r: Record)
    requires Appends(cx, s, r) && StateOk(s)
    ensures StateOk(Apply(s, r))
  {
    hide AppendsNative, Evaluate, ValidMutation, ApplyNative, JobsOk, ResourcesOk, TreeOk, Shown;
    if r.V2? {
      var n := r.v2;
      StepKeepsJobs(cx, s, n);
      StepKeepsResources(cx, s, n);
      StepKeepsTree(cx, s, n);
      StepKeepsIds(cx, s, n);
    }
  }

  lemma StepKeepsIds(cx: Codec, s: State, r: NativeRecord)
    requires AppendsNative(cx, s, r) && s.requests.Keys !! s.nativeRequests.Keys
    ensures ApplyNative(s, r).requests.Keys !! ApplyNative(s, r).nativeRequests.Keys
  {
    hide EvaluateNative, Canonical, Publish, StoreJobs, PublishesMemory;
  }

  lemma StepKeepsTree(cx: Codec, s: State, r: NativeRecord)
    requires AppendsNative(cx, s, r) && TreeOk(Shown(s.native))
    ensures TreeOk(Shown(ApplyNative(s, r).native))
  {
    hide AppendsNative, ApplyNative, Publish, ResourcesOf, TreeOk, Shown, ShownAfter, AliasRefusal, CasRefusal;
    NativeAfter(cx, s, r);
    if r.result.error == NoReason {
      ShownAfterPublish(cx, s.native, r.request.changes);
    }
  }

  lemma CasAllowsIncrement(cx: Codec, s: State, q: NativeRequest, c: Change)
    requires ChangesRefusal(cx, s, q) == NoReason && c in q.changes
    requires ResourcesOk(s.native)
    ensures c.expectedRevision < MAX_REVISION
  {
    hide AliasRefusal, ValidMemoryPaths;
    assert CasRefusalOf(s.native, c) == NoReason;
  }

  lemma StepKeepsResources(cx: Codec, s: State, r: NativeRecord)
    requires AppendsNative(cx, s, r) && ResourcesOk(s.native)
    ensures ResourcesOk(ApplyNative(s, r).native)
  {
    hide EvaluateNative, ChangesRefusal, ApplyNative, ResourcesOf, Publish;
    NativeAfter(cx, s, r);
    if r.result.error == NoReason {
      var after := ApplyNative(s, r).native;
      PublishedAt(cx, s.native, r.request.changes);
      forall k | k in after
        ensures after[k].key == k && 1 <= after[k].revision <= MAX_REVISION && ValidDomain(k.domain) &&
            ValidPath(k.name)
      {
        if k in ChangedKeys(r.request.changes) {
          var c :| c in r.request.changes && c.key == k;
          CasAllowsIncrement(cx, s, r.request, c);
          assert ChangeOk(cx, c);
        }
      }
    }
  }

  /** Every reachable state is in order; in particular its merged memory tree has no collision. */
  lemma {:induction false} HistoryOk(cx: Codec, log: seq<Record>)
    requires IsHistory(cx, log)
    ensures StateOk(StateOf(log))
  {
    hide Appends, Apply;
    if log != [] {
      HistoryOk(cx, log[..|log| - 1]);
      StepKeepsState(cx, StateOf(log[..|log| - 1]), log[|log| - 1]);
    }
  }
}
