/** What the request id decides: for both protocols, the exact reply to a call whose id is in the journal, and
    that a call with a new id is evaluated. */
module RequestIds {
  import opened Types
  import opened Text
  import opened Normalization
  import opened Engine
  import opened History
  import opened Counting
  import opened Retries

  /** `r` is a record of the journal with that request id. */
  predicate HasId(log: seq<Record>, r: Record, id: string) {
    r in log && r.RequestId() == id
  }

  ghost predicate NoneHasId(log: seq<Record>, id: string) {
    forall r :: r in log ==> r.RequestId() != id
  }

  lemma Remembered(cx: Codec, log: seq<Record>, r: Record, id: string)
    requires IsHistory(cx, log) && HasId(log, r, id)
    ensures if r.V1? then id in StateOf(log).requests && StateOf(log).requests[id] == r.v1
        else id in StateOf(log).nativeRequests && StateOf(log).nativeRequests[id] == r.v2
    ensures r.V2? ==> r.v2.digest == cx.digest(r.v2.request) && Canonical(cx, r.v2.request)
  {
    hide IsHistory, StateOf, Canonical;
    var i :| 0 <= i < |log| && log[i] == r;
    RecordsAreRemembered(cx, log, i);
    if r.V2? {
      DigestIsRecorded(cx, log, i);
    }
  }

  lemma NewId(cx: Codec, log: seq<Record>, id: string)
    requires IsHistory(cx, log) && NoneHasId(log, id)
    ensures id !in StateOf(log).requests && id !in StateOf(log).nativeRequests
  {
    hide IsHistory, StateOf;
    assert forall i :: 0 <= i < |log| ==> log[i].RequestId() != id;
    if id in StateOf(log).requests || id in StateOf(log).nativeRequests {
      var i := RememberedIsRecorded(cx, log, id);
    }
  }

  lemma OneProtocol(cx: Codec, log: seq<Record>, id: string)
    requires IsHistory(cx, log)
    ensures !(id in StateOf(log).requests && id in StateOf(log).nativeRequests)
  {
    hide IsHistory, StateOf;
    HistoryOk(cx, log);
  }

  ghost predicate ValidCall(c: Collection, op: Mutation, q: Request) {
    && c in {Memory, Skills} && op in {Put, Delete} && LogicalId(q.id) && LogicalId(q.requestId)
    && |q.content| <= 0x4_0000 && (op == Delete ==> q.content == "")
  }

  /** The reply to a mutation whose id record `r` has. */
  lemma MutateCallIs(cx: Codec, log: seq<Record>, c: Collection, op: Mutation, q: Request, now: int, r: Record)
    requires IsHistory(cx, log) && HasId(log, r, q.requestId)
    ensures MutateOutcome(StateOf(log), c, op, q, now) ==
            if !ValidCall(c, op, q) then Refused(Malformed)
            else if r.V2? then Refused(ReusedAcrossProtocols)
            else if r.v1.collection == c && r.v1.operation == op && r.v1.request == q then Replayed(r.v1.result)
            else Refused(ReusedWithOtherArguments)
  {
    hide IsHistory, StateOf, HasId, Evaluate, LogicalId;
    Remembered(cx, log, r, q.requestId);
    OneProtocol(cx, log, q.requestId);
  }

  /** A mutation with a new id is refused exactly if it is malformed, and journalled otherwise. */
  lemma NewMutateCall(cx: Codec, log: seq<Record>, c: Collection, op: Mutation, q: Request, now: int)
    requires IsHistory(cx, log) && NoneHasId(log, q.requestId)
    ensures var o := MutateOutcome(StateOf(log), c, op, q, now);
            && (!ValidCall(c, op, q) ==> o == Refused(Malformed))
            && (ValidCall(c, op, q) ==>
                  && o.Append? && o.record.V1? && o.record.v1.time == now && o.record.v1.sequence == |log| + 1
                  && o.record.v1.collection == c && o.record.v1.operation == op && o.record.v1.request == q
                  && o.result == o.record.v1.result)
  {
    hide IsHistory, StateOf, NoneHasId, Evaluate, LogicalId;
    NewId(cx, log, q.requestId);
    SequenceCountsRecords(cx, log);
  }

  /** The reply to a native request, once it is normalized, whose id record `r` has: the receipt for the same
      normal form, or for the same operation and intent. */
  lemma BatchCallIs(cx: Codec, log: seq<Record>, q: NativeRequest, now: int, rnd: Entropy, r: Record)
    requires IsHistory(cx, log) && DigestInjective(cx) && Normalize(cx, q).Ok? && HasId(log, r, q.requestId)
    ensures var n := Normalize(cx, q).value;
            BatchOutcome(cx, StateOf(log), q, now, rnd) ==
            if r.V1? then Refused(ReusedAcrossProtocols)
            else if r.v2.request == n || (n.intent != "" && n.operation == r.v2.request.operation &&
                n.intent == r.v2.request.intent) then Replayed(JsonResult(r.v2.result))
            else Refused(ReusedWithOtherArguments)
  {
    hide IsHistory, StateOf, HasId, EvaluateNative, DigestInjective, WellFormed, SortedChanges, JsonResult, Canonical;
    Remembered(cx, log, r, q.requestId);
    OneProtocol(cx, log, q.requestId);
    NormalizeCanonical(cx, q);
    if r.V2? && r.v2.request != Normalize(cx, q).value {
      DigestsDiffer(cx, r.v2.request, Normalize(cx, q).value);
    }
  }

  /** A native request with a new id is evaluated, and its result is journalled with its normal form. */
  lemma NewBatchCall(cx: Codec, log: seq<Record>, q: NativeRequest, now: int, rnd: Entropy)
    requires IsHistory(cx, log) && Normalize(cx, q).Ok? && NoneHasId(log, q.requestId)
    ensures var o := BatchOutcome(cx, StateOf(log), q, now, rnd); var n := Normalize(cx, q).value;
            match EvaluateNative(cx, StateOf(log), n, now, None, rnd)
            case Ok(result) =>
              && o.Append? && o.result == JsonResult(result) && o.record.V2?
              && o.record.v2 == NativeRecord(|log| + 1, now, n, cx.digest(n), result)
            case Err(e) => o == Refused(e)
  {
    hide IsHistory, StateOf, NoneHasId, EvaluateNative, WellFormed, SortedChanges, JsonResult;
    NewId(cx, log, q.requestId);
    SequenceCountsRecords(cx, log);
  }
}
