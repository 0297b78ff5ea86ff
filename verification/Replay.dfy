/** Reopening: `Open` re-evaluates every journal entry and must rebuild the state of the run that
    wrote it. Replay takes time and tokens from the entry, so nothing else is random. */
module Replay {
  import opened Types
  import opened Normalization
  import opened Selection
  import opened Engine
  import opened History

  // ----- the replay step -----

  function ReplayNative(cx: Codec, s: State, r: NativeRecord, rnd: Entropy): Result<State> {
    if r.sequence != s.sequence + 1 then Err(InconsistentJournal)
    else if r.request.requestId in s.requests || r.request.requestId in s.nativeRequests then
        Err(DuplicateJournalRequest)
    else match Normalize(cx, r.request)
      case Err(e) => Err(e)
      case Ok(q) =>
        match EvaluateNative(cx, s, q, r.time, Some(r.result), rnd)
        case Err(e) => Err(e)
        case Ok(expected) =>
          if cx.digest(q) != r.digest || q != r.request || expected.(resources := []) != r.result then
              Err(InconsistentJournal)
          else Ok(ApplyNative(s, r.(result := expected)))
  }

  function ReplayObject(s: State, r: ObjectRecord): Result<State> {
    if !ValidMutation(r.collection, r.operation, r.request) then Err(Malformed)
    else if r.request.requestId in s.nativeRequests || r.request.requestId in s.requests then
        Err(DuplicateJournalRequest)
    else if r.sequence != s.sequence + 1 ||
        (r.before, r.result) != Evaluate(s, r.collection, r.operation, r.request) then Err(InconsistentJournal)
    else Ok(ApplyObject(s, r))
  }

  function ReplayRecord(cx: Codec, s: State, r: Record, rnd: Entropy): Result<State> {
    match r
    case V1(o) => ReplayObject(s, o)
    case V2(n) => ReplayNative(cx, s, n, rnd)
  }

  /** The replay loop: `rnd(i)` is what the random source would give while entry i is replayed. */
  function ReplayAll(cx: Codec, rs: seq<Record>, rnd: nat -> Entropy): Result<State> {
    if rs == [] then Ok(EMPTY)
    else match ReplayAll(cx, rs[..|rs| - 1], rnd)
      case Err(e) => Err(e)
      case Ok(s) => ReplayRecord(cx, s, rs[|rs| - 1], rnd(|rs| - 1))
  }

  /** The entries as they come back from the file. */
  function Written(log: seq<Record>): (ws: seq<Record>)
    ensures |ws| == |log|
    ensures forall i :: 0 <= i < |log| ==> ws[i] == JsonRecord(Durable(log[i]))
  {
    if log == [] then [] else Written(log[..|log| - 1]) + [JsonRecord(Durable(log[|log| - 1]))]
  }

  predicate Fits(cx: Codec, r: Record) {
    |cx.encode(Durable(r))| + 1 <= NATIVE_TRANSACTION_BYTES
  }

  ghost predicate AllFit(cx: Codec, log: seq<Record>) {
    forall i :: 0 <= i < |log| ==> Fits(cx, log[i])
  }

  /** A committed `memory.phase2.begin` that selected no input. */
  predicate EmptyBegin(r: Record) {
    Does(r, Phase2Begin) && |r.v2.result.jobs| == 1 && r.v2.result.jobs[0].selected == Some(map[])
  }

  /** It selects no input exactly when no stage 1 job is eligible. */
  lemma EmptyBeginIff(cx: Codec, s: State, r: NativeRecord)
    requires AppendsNative(cx, s, r) && Does(V2(r), Phase2Begin)
    ensures EmptyBegin(V2(r)) <==> EligibleIds(s) == {}
  {
    hide ChangesRefusal, Canonical;
    var jobs := CommittedStep(cx, s, r);
    SelectionEmpty(cx, s, r.request.job.value.maxInputs);
  }

  // ----- the journal encoding -----

  /** A record without names that stand for a text some other name already stands for: everything the
      store ever appends. */
  ghost predicate Encodable(cx: Codec, r: Record) {
    match r
    case V1(o) => ValidMutation(o.collection, o.operation, o.request)
    case V2(n) => Canonical(cx, n.request) && forall j :: j in n.result.jobs ==> JobKept(j.jobId, j)
  }

  /** The laws of the journal encoding: lines hold no newline, decoding gives a JSON copy, and the
      encoding of a record contains the encoding of its request. */
  ghost predicate Faithful(cx: Codec) {
    && (forall r: Record, i: nat :: i < |cx.encode(r)| ==> cx.encode(r)[i] != '\n')
    && (forall r: Record :: Encodable(cx, r) ==> cx.decode(cx.encode(Durable(r))) == Some(JsonRecord(Durable(r))))
    && (forall r: Record :: r.V2? ==> cx.requestSize(r.v2.request) <= |cx.encode(r)|)
  }

  /** Every record of a run is encodable. */
  lemma HistoryEncodable(cx: Codec, log: seq<Record>, i: nat)
    requires IsHistory(cx, log) && i < |log|
    ensures Encodable(cx, log[i])
  {
    hide EvaluateNative, Canonical, ValidMutation, Evaluate, JobKept, StateOf;
    HistoryPrefix(cx, log, i);
    HistoryOk(cx, log[..i]);
    if log[i].V2? {
      ReceiptJobsKept(cx, StateOf(log[..i]), log[i].v2);
    }
  }

  // ----- replaying a step of the run -----

  /** Given the persisted receipt of an evaluation, evaluating again needs no randomness and agrees. */
  lemma SameVerdict(cx: Codec, s: State, q: NativeRequest, cmd: JobCommand, now: int, rnd: Entropy, other: Entropy,
                    receipt: NativeResult)
    requires q.job == Some(cmd)
    requires var v := JobVerdict(cx, s, q, cmd, now, None, rnd);
             !v.Fault? && (v.Accept? ==> receipt == JsonResult(Commit(cx, s, q, v.jobs)).(resources := []))
    ensures JobVerdict(cx, s, q, cmd, now, Some(receipt), other) == JobVerdict(cx, s, q, cmd, now, None, rnd)
  {
    hide CommitStage1, CommitPhase2, Heartbeat, Fail, Enqueue, Stage1Selection;
  }

  lemma SameEvaluation(cx: Codec, s: State, q: NativeRequest, now: int, rnd: Entropy, other: Entropy)
    requires EvaluateNative(cx, s, q, now, None, rnd).Ok?
    ensures var result := EvaluateNative(cx, s, q, now, None, rnd).value;
            EvaluateNative(cx, s, q, now, Some(JsonResult(result).(resources := [])), other) == Ok(result)
  {
    hide JobVerdict, ChangesRefusal, Commit;
    if ChangesRefusal(cx, s, q) == NoReason && q.job.Some? {
      var result := EvaluateNative(cx, s, q, now, None, rnd).value;
      SameVerdict(cx, s, q, q.job.value, now, rnd, other, JsonResult(result).(resources := []));
    }
  }

  /** The persisted receipt equals the evaluated one unless an empty selection became nil. */
  lemma ReceiptSurvivesJson(cx: Codec, s: State, r: NativeRecord)
    requires AppendsNative(cx, s, r) && JobsOk(s.nativeJobs)
    ensures JsonJobs(r.result.jobs) == r.result.jobs <==> !EmptyBegin(V2(r))
  {
    hide ChangesRefusal, Canonical;
    if r.result.error != NoReason {
      RejectedStep(cx, s, r);
    } else {
      var jobs := CommittedStep(cx, s, r);
      if r.request.job.Some? {
        var rnd :| JobVerdict(cx, s, r.request, r.request.job.value, r.time, None, rnd) == Accept(jobs);
        AcceptedSelections(cx, s, r.request, r.request.job.value, r.time, rnd);
        forall i | 0 <= i < |jobs|
          ensures r.result.jobs[i].selected == jobs[i].selected
        {
        }
        if !r.request.operation.Phase2Begin? {
          assert forall i :: 0 <= i < |jobs| ==> jobs[i] in jobs;
          assert JsonJobs(r.result.jobs) == r.result.jobs;
        } else {
          assert JsonJobs(r.result.jobs)[0] == JsonJob(r.result.jobs[0]);
        }
      } else {
        assert r.result.jobs == [];
      }
    }
  }

  lemma AcceptedSelections(cx: Codec, s: State, q: NativeRequest, cmd: JobCommand, now: int, rnd: Entropy)
    requires JobsOk(s.nativeJobs)
    ensures var v := JobVerdict(cx, s, q, cmd, now, None, rnd);
            v.Accept? ==>
              if q.operation.Phase2Begin? then |v.jobs| == 1 else forall j :: j in v.jobs ==> j.selected != Some(map[])
  {
  }

  /** Replaying the persisted form of a step gives exactly the state of the live store, or fails if the
      step began a consolidation without inputs. */
  lemma ReplayStep(cx: Codec, s: State, r: Record, rnd: Entropy)
    requires Faithful(cx) && Appends(cx, s, r) && StateOk(s) && Fits(cx, r)
    ensures ReplayRecord(cx, s, JsonRecord(Durable(r)), rnd) ==
            if EmptyBegin(r) then Err(InconsistentJournal) else Ok(Apply(s, r))
  {
    if r.V2? {
      ReplayNativeStep(cx, s, r.v2, rnd);
    }
  }

  lemma ReplayNativeStep(cx: Codec, s: State, r: NativeRecord, rnd: Entropy)
    requires Faithful(cx) && AppendsNative(cx, s, r) && JobsOk(s.nativeJobs) && Fits(cx, V2(r))
    ensures ReplayRecord(cx, s, JsonRecord(Durable(V2(r))), rnd) ==
            if EmptyBegin(V2(r)) then Err(InconsistentJournal) else Ok(ApplyNative(s, r))
  {
    hide EvaluateNative, NormalForm, ChangesOk, HeaderOk, EmptyBegin, ApplyNative, Encodable;
    var live :| EvaluateNative(cx, s, r.request, r.time, None, live) == Ok(r.result);
    assert cx.requestSize(r.request) <= NATIVE_TRANSACTION_BYTES by {
      assert Durable(V2(r)).v2.request == r.request;
    }
    assert Normalize(cx, r.request) == Ok(r.request);
    SameEvaluation(cx, s, r.request, r.time, live, rnd);
    ReceiptSurvivesJson(cx, s, r);
    var back := JsonRecord(Durable(V2(r))).v2;
    assert back.result == JsonResult(r.result).(resources := []);
    assert r.result.(resources := []) == back.result <==> JsonJobs(r.result.jobs) == r.result.jobs;
    assert back.(result := r.result) == r;
  }

  // ----- replaying the whole journal -----

  ghost predicate Reopenable(log: seq<Record>) {
    forall i :: 0 <= i < |log| ==> !EmptyBegin(log[i])
  }

  lemma ReopenableSnoc(log: seq<Record>)
    ensures Reopenable(log) <==> log == [] || (Reopenable(log[..|log| - 1]) && !EmptyBegin(log[|log| - 1]))
  {
    hide EmptyBegin;
    if log != [] && Reopenable(log) {
      assert forall i :: 0 <= i < |log| - 1 ==> log[..|log| - 1][i] == log[i];
    }
    if log != [] && Reopenable(log[..|log| - 1]) {
      assert forall i :: 0 <= i < |log| - 1 ==> log[i] == log[..|log| - 1][i];
    }
  }

  lemma AllFitSnoc(cx: Codec, log: seq<Record>)
    requires AllFit(cx, log) && log != []
    ensures AllFit(cx, log[..|log| - 1]) && Fits(cx, log[|log| - 1])
  {
    hide Fits;
  }

  lemma WrittenSnoc(log: seq<Record>)
    requires log != []
    ensures Written(log) != [] && Written(log)[..|log| - 1] == Written(log[..|log| - 1])
    ensures |Written(log)| == |log| && Written(log)[|log| - 1] == JsonRecord(Durable(log[|log| - 1]))
  {
    hide Durable, JsonRecord;
  }

  /** Reopening rebuilds the objects, resources, jobs, receipts, generation and sequence of the run
      that wrote the journal, if and only if no consolidation was begun without inputs. */
  lemma {:induction false} ReplayRefinesRun(cx: Codec, log: seq<Record>, rnd: nat -> Entropy)
    requires Faithful(cx) && IsHistory(cx, log) && AllFit(cx, log)
    ensures Reopenable(log) ==> ReplayAll(cx, Written(log), rnd) == Ok(StateOf(log))
    ensures !Reopenable(log) ==> ReplayAll(cx, Written(log), rnd).Err?
  {
    hide Appends, Apply, ReplayRecord, EmptyBegin, Fits, Faithful, StateOk, Reopenable, AllFit, Durable, JsonRecord;
    ReopenableSnoc(log);
    if log != [] {
      var front, r := log[..|log| - 1], log[|log| - 1];
      assert AllFit(cx, front) && Fits(cx, r) by { AllFitSnoc(cx, log); }
      ReplayRefinesRun(cx, front, rnd);
      HistoryOk(cx, front);
      ReplayStep(cx, StateOf(front), r, rnd(|front|));
      WrittenSnoc(log);
    }
  }

  /** A run can be reopened exactly when every committed begin found an eligible stage 1 job, which a caller
      can see before beginning. */
  lemma ReopenableIff(cx: Codec, log: seq<Record>)
    requires IsHistory(cx, log)
    ensures Reopenable(log) <==>
              forall i :: 0 <= i < |log| && Does(log[i], Phase2Begin) ==> EligibleIds(StateOf(log[..i])) != {}
  {
    hide AppendsNative, AppendsObject, Apply, EmptyBegin, EligibleIds, StateOf, IsHistory;
    forall i | 0 <= i < |log|
      ensures EmptyBegin(log[i]) <==> Does(log[i], Phase2Begin) && EligibleIds(StateOf(log[..i])) == {}
    {
      EmptyBeginAt(cx, log, i);
    }
  }

  lemma EmptyBeginAt(cx: Codec, log: seq<Record>, i: nat)
    requires IsHistory(cx, log) && i < |log|
    ensures EmptyBegin(log[i]) <==> Does(log[i], Phase2Begin) && EligibleIds(StateOf(log[..i])) == {}
  {
    hide AppendsNative, AppendsObject, Apply, EligibleIds, StateOf, IsHistory;
    HistoryPrefix(cx, log, i);
    if Does(log[i], Phase2Begin) {
      EmptyBeginIff(cx, StateOf(log[..i]), log[i].v2);
    }
  }

  /** Reopening succeeds if and only if no begin met a store without an eligible stage 1 job. */
  lemma ReopensIffInputs(cx: Codec, log: seq<Record>, rnd: nat -> Entropy)
    requires Faithful(cx) && IsHistory(cx, log) && AllFit(cx, log)
    ensures ReplayAll(cx, Written(log), rnd).Ok? <==>
              forall i :: 0 <= i < |log| && Does(log[i], Phase2Begin) ==> EligibleIds(StateOf(log[..i])) != {}
  {
    hide Does, EligibleIds, StateOf, IsHistory, AllFit, Faithful, Reopenable, ReplayAll;
    ReopenableIff(cx, log);
    ReplayRefinesRun(cx, log, rnd);
  }

  // ----- accepted journals -----

  /** An accepted entry is a step that a live store could have taken. */
  lemma AcceptedIsStep(cx: Codec, s: State, r: Record, rnd: Entropy) returns (full: Record)
    requires ReplayRecord(cx, s, r, rnd).Ok?
    ensures Appends(cx, s, full) && Durable(full) == r && ReplayRecord(cx, s, r, rnd) == Ok(Apply(s, full))
  {
    match r {
      case V1(_) => full := r;
      case V2(n) =>
        full := AcceptedNativeIsStep(cx, s, n, rnd);
    }
  }

  lemma AcceptedNativeIsStep(cx: Codec, s: State, r: NativeRecord, rnd: Entropy) returns (full: Record)
    requires ReplayNative(cx, s, r, rnd).Ok?
    ensures full == V2(r.(result := EvaluateNative(cx, s, r.request, r.time, Some(r.result), rnd).value))
    ensures AppendsNative(cx, s, full.v2) && Durable(full) == V2(r) &&
        ReplayNative(cx, s, r, rnd) == Ok(ApplyNative(s, full.v2))
  {
    hide ChangesRefusal, Commit, JobVerdict, ApplyNative, NormalForm, ChangesOk, HeaderOk;
    var expected := EvaluateNative(cx, s, r.request, r.time, Some(r.result), rnd).value;
    full := V2(r.(result := expected));
    NormalizeCanonical(cx, r.request);
    var tokens := GrantTokens(Some(r.result), rnd);
    var live := Entropy(tokens.0, tokens.1);
    if r.request.job.Some? {
      SameVerdictLive(cx, s, r.request, r.request.job.value, r.time, r.result, rnd);
    }
    assert EvaluateNative(cx, s, r.request, r.time, None, live) == Ok(expected);
  }

  lemma SameVerdictLive(cx: Codec, s: State, q: NativeRequest, cmd: JobCommand, now: int, receipt: NativeResult,
                        rnd: Entropy)
    ensures var tokens := GrantTokens(Some(receipt), rnd);
            JobVerdict(cx, s, q, cmd, now, None, Entropy(tokens.0, tokens.1)) ==
                JobVerdict(cx, s, q, cmd, now, Some(receipt), rnd)
  {
  }

  /** Whatever entries `Open` accepts, however they came into the file, are the journal of a run, and
      the reopened state is the state of that run. */
  lemma {:induction false} AcceptedIsHistory(cx: Codec, rs: seq<Record>, rnd: nat -> Entropy) returns (log: seq<Record>)
    requires ReplayAll(cx, rs, rnd).Ok?
    ensures IsHistory(cx, log) && StateOf(log) == ReplayAll(cx, rs, rnd).value
    ensures |log| == |rs| && forall i :: 0 <= i < |rs| ==> Durable(log[i]) == rs[i]
  {
    hide Appends, Apply, ReplayRecord;
    if rs == [] {
      log := [];
    } else {
      var front := AcceptedIsHistory(cx, rs[..|rs| - 1], rnd);
      var r := AcceptedIsStep(cx, StateOf(front), rs[|rs| - 1], rnd(|rs| - 1));
      log := front + [r];
      HistorySnoc(cx, front, r);
    }
  }
}
