/** The journal as bytes on disk: reopening a file, and what a crash in the middle of an append can
    leave behind. */
module Durability {
  import opened Types
  import opened Framing
  import opened Normalization
  import opened Engine
  import opened History
  import opened Counting
  import opened Replay

  // ----- opening a file -----

  function ReplayLine(cx: Codec, s: State, line: string, rnd: Entropy): Result<State> {
    match cx.decode(line)
    case None => Err(CorruptJournal)
    case Some(r) => ReplayRecord(cx, s, r, rnd)
  }

  function ReplayLines(cx: Codec, lines: seq<string>, rnd: nat -> Entropy): Result<State> {
    if lines == [] then Ok(EMPTY)
    else match ReplayLines(cx, lines[..|lines| - 1], rnd)
      case Err(e) => Err(e)
      case Ok(s) => ReplayLine(cx, s, lines[|lines| - 1], rnd(|lines| - 1))
  }

  /** `Open` on the bytes of the journal: the first bad entry or framing error refuses the file. */
  function OpenFile(cx: Codec, data: string, rnd: nat -> Entropy): Result<State> {
    var scanned := Lines(data);
    match ReplayLines(cx, scanned.lines, rnd)
    case Err(e) => Err(e)
    case Ok(s) => if scanned.error.Some? then Err(scanned.error.value) else Ok(s)
  }

  function Encoded(cx: Codec, log: seq<Record>): (lines: seq<string>)
    ensures |lines| == |log|
    ensures forall i :: 0 <= i < |log| ==> lines[i] == cx.encode(Durable(log[i]))
  {
    if log == [] then [] else Encoded(cx, log[..|log| - 1]) + [cx.encode(Durable(log[|log| - 1]))]
  }

  /** The file that a run writes. */
  function JournalFile(cx: Codec, log: seq<Record>): string {
    Frames(Encoded(cx, log))
  }

  function Line(cx: Codec, r: Record): string {
    cx.encode(Durable(r)) + "\n"
  }

  lemma JournalFileSnoc(cx: Codec, log: seq<Record>, r: Record)
    ensures JournalFile(cx, log + [r]) == JournalFile(cx, log) + Line(cx, r)
  {
    assert (log + [r])[..|log|] == log;
    var lines := Encoded(cx, log + [r]);
    assert lines[..|log|] == Encoded(cx, log);
  }

  lemma EncodedFramable(cx: Codec, log: seq<Record>)
    requires Faithful(cx) && AllFit(cx, log)
    ensures forall i :: 0 <= i < |log| ==> Framable(Encoded(cx, log)[i])
  {
    hide Durable, JsonRecord, Encodable;
  }

  lemma DecodesBack(cx: Codec, r: Record)
    requires Faithful(cx) && Encodable(cx, r)
    ensures cx.decode(cx.encode(Durable(r))) == Some(JsonRecord(Durable(r)))
  {
    hide Durable, JsonRecord, Encodable;
  }

  lemma {:induction false} EncodedReplays(cx: Codec, log: seq<Record>, rnd: nat -> Entropy)
    requires Faithful(cx) && IsHistory(cx, log)
    ensures ReplayLines(cx, Encoded(cx, log), rnd) == ReplayAll(cx, Written(log), rnd)
  {
    hide ReplayRecord, Durable, JsonRecord, Faithful, Encodable, Appends;
    if log != [] {
      var front, r := log[..|log| - 1], log[|log| - 1];
      HistoryEncodable(cx, log, |log| - 1);
      DecodesBack(cx, r);
      EncodedReplays(cx, front, rnd);
      assert Encoded(cx, log)[..|front|] == Encoded(cx, front);
      assert Written(log)[..|front|] == Written(front);
    }
  }

  /** Byte for byte: reopening the file that a run wrote gives the state of that run, if and only if no
      consolidation was begun without inputs. */
  lemma ReopenExact(cx: Codec, log: seq<Record>, rnd: nat -> Entropy)
    requires Faithful(cx) && IsHistory(cx, log) && AllFit(cx, log)
    ensures Reopenable(log) ==> OpenFile(cx, JournalFile(cx, log), rnd) == Ok(StateOf(log))
    ensures !Reopenable(log) ==> OpenFile(cx, JournalFile(cx, log), rnd).Err?
  {
    hide IsHistory, AllFit, Faithful, Reopenable, StateOf, ReplayAll, ReplayLines, Lines;
    EncodedFramable(cx, log);
    FramingRoundTrip(Encoded(cx, log));
    EncodedReplays(cx, log, rnd);
    ReplayRefinesRun(cx, log, rnd);
  }

  // ----- crashes -----

  /** If only the first `n` bytes of an entry reach the disk, reopening gives the state before the entry,
      refuses the file, or gives the state after it; nothing else. */
  lemma CrashIsAtomic(cx: Codec, log: seq<Record>, r: Record, n: nat, rnd: nat -> Entropy)
    requires Faithful(cx) && IsHistory(cx, log + [r]) && AllFit(cx, log + [r]) && Reopenable(log + [r])
    requires n <= |Line(cx, r)|
    ensures var reopened := OpenFile(cx, JournalFile(cx, log) + Line(cx, r)[..n], rnd);
            if n == 0 then reopened == Ok(StateOf(log))
            else if n == |Line(cx, r)| then reopened == Ok(StateOf(log + [r]))
            else reopened == Err(IncompleteJournal)
  {
    var whole := log + [r];
    PrefixFacts(cx, log, r);
    var tail := Line(cx, r)[..n];
    if n == 0 {
      ReopenExact(cx, log, rnd);
      NoTail(JournalFile(cx, log), tail);
    } else if n == |Line(cx, r)| {
      WholeTail(Line(cx, r), tail);
      JournalFileSnoc(cx, log, r);
      ReopenExact(cx, whole, rnd);
    } else {
      TornEntry(cx, log, r, n, rnd);
    }
  }

  lemma NoTail(file: string, tail: string)
    requires tail == ""
    ensures file + tail == file
  {
  }

  lemma WholeTail(line: string, tail: string)
    requires tail == line[..|line|]
    ensures tail == line
  {
  }

  lemma PrefixFacts(cx: Codec, log: seq<Record>, r: Record)
    requires IsHistory(cx, log + [r]) && AllFit(cx, log + [r]) && Reopenable(log + [r])
    ensures IsHistory(cx, log) && AllFit(cx, log) && Reopenable(log) && Fits(cx, r)
  {
    hide Appends, Fits, EmptyBegin;
    assert (log + [r])[..|log|] == log;
    assert forall i :: 0 <= i < |log| ==> log[i] == (log + [r])[i];
    assert (log + [r])[|log|] == r;
  }

  lemma TornEntry(cx: Codec, log: seq<Record>, r: Record, n: nat, rnd: nat -> Entropy)
    requires Faithful(cx) && IsHistory(cx, log) && AllFit(cx, log) && Reopenable(log) && Fits(cx, r)
    requires 0 < n < |Line(cx, r)|
    ensures OpenFile(cx, JournalFile(cx, log) + Line(cx, r)[..n], rnd) == Err(IncompleteJournal)
  {
    hide IsHistory, AllFit, Reopenable, StateOf, ReplayAll, ReplayLines, Lines, Durable, JsonRecord;
    var tail := Line(cx, r)[..n];
    assert forall i :: 0 <= i < n ==> tail[i] == cx.encode(Durable(r))[i];
    EncodedFramable(cx, log);
    TornTailIsError(Encoded(cx, log), tail);
    EncodedReplays(cx, log, rnd);
    ReplayRefinesRun(cx, log, rnd);
  }

  // ----- retrying, in both protocols -----

  /** A call of either protocol, as its caller makes it. */
  datatype Call = MutateCall(collection: Collection, operation: Mutation,
      mutation: Request) | BatchCall(batch: NativeRequest) {
    function RequestId(): string {
      match this
      case MutateCall(_, _, q) => q.requestId
      case BatchCall(q) => q.requestId
    }
  }

  datatype Receipt = ObjectReceipt(item: ObjectResult) | BatchReceipt(batch: NativeResult)

  function CallOutcome(cx: Codec, s: State, call: Call, now: int, rnd: Entropy): Outcome<Receipt> {
    match call
    case MutateCall(c, op, q) =>
      (match MutateOutcome(s, c, op, q, now)
       case Refused(e) => Refused(e)
       case Replayed(r) => Replayed(ObjectReceipt(r))
       case Append(record, r) => Append(record, ObjectReceipt(r)))
    case BatchCall(q) =>
      match BatchOutcome(cx, s, q, now, rnd)
      case Refused(e) => Refused(e)
      case Replayed(r) => Replayed(BatchReceipt(r))
      case Append(record, r) => Append(record, BatchReceipt(r))
  }

  /** `r` is a record of this very call. */
  predicate Records(cx: Codec, r: Record, call: Call) {
    match call
    case MutateCall(c, op, q) => r.V1? && r.v1.collection == c && r.v1.operation == op && r.v1.request == q
    case BatchCall(q) => r.V2? && Normalize(cx, q) == Ok(r.v2.request)
  }

  function ReceiptOf(r: Record): Receipt {
    match r
    case V1(o) => ObjectReceipt(o.result)
    case V2(n) => BatchReceipt(JsonResult(n.result))
  }

  /** The journal after a call without a fault: one entry longer if the call was evaluated and its entry
      fits, else unchanged. */
  function After(cx: Codec, log: seq<Record>, outcome: Outcome<Receipt>): seq<Record> {
    if outcome.Append? && Fits(cx, outcome.record) then log + [outcome.record] else log
  }

  /** The caller gets a receipt. */
  predicate Answered(cx: Codec, outcome: Outcome<Receipt>) {
    outcome.Replayed? || (outcome.Append? && Fits(cx, outcome.record))
  }

  /** `log` has exactly one entry with that request id, at `i`. */
  ghost predicate OnlyEntry(log: seq<Record>, id: string, i: nat) {
    i < |log| && log[i].RequestId() == id && forall j :: 0 <= j < |log| && log[j].RequestId() == id ==> j == i
  }

  /** What a call appends is a step of the run, a record of the call, and holds the receipt returned. */
  lemma CallAppends(cx: Codec, s: State, call: Call, now: int, rnd: Entropy)
    requires CallOutcome(cx, s, call, now, rnd).Append?
    ensures var outcome := CallOutcome(cx, s, call, now, rnd);
            && Appends(cx, s, outcome.record) && Records(cx, outcome.record, call)
            && ReceiptOf(outcome.record) == outcome.result && outcome.record.RequestId() == call.RequestId()
  {
    hide EvaluateNative, Evaluate, ValidMutation, Appends, NormalForm, WellFormed;
    match call {
      case MutateCall(c, op, q) => MutateAppends(cx, s, c, op, q, now);
      case BatchCall(q) =>
        BatchAppends(cx, s, q, now, rnd);
        NormalFormId(cx, q);
    }
  }

  lemma NormalFormId(cx: Codec, q: NativeRequest)
    ensures NormalForm(cx, q).requestId == q.requestId
  {
  }

  /** A call that is answered has exactly one journal entry, however often it was made before. */
  lemma OneEntryPerRequest(cx: Codec, log: seq<Record>, call: Call, now: int, rnd: Entropy) returns (i: nat)
    requires IsHistory(cx, log) && Answered(cx, CallOutcome(cx, StateOf(log), call, now, rnd))
    ensures var after := After(cx, log, CallOutcome(cx, StateOf(log), call, now, rnd));
            IsHistory(cx, after) && OnlyEntry(after, call.RequestId(), i)
  {
    hide CallOutcome, Appends, StateOf, IsHistory, Fits;
    var outcome := CallOutcome(cx, StateOf(log), call, now, rnd);
    if outcome.Append? {
      CallAppends(cx, StateOf(log), call, now, rnd);
      HistorySnoc(cx, log, outcome.record);
      i := |log|;
    } else {
      ReplayedIsRemembered(cx, StateOf(log), call, now, rnd);
      i := RememberedIsRecorded(cx, log, call.RequestId());
    }
    EntryIsOnly(cx, After(cx, log, outcome), i);
  }

  lemma ReplayedIsRemembered(cx: Codec, s: State, call: Call, now: int, rnd: Entropy)
    requires CallOutcome(cx, s, call, now, rnd).Replayed?
    ensures call.RequestId() in s.requests || call.RequestId() in s.nativeRequests
  {
    hide EvaluateNative, Evaluate, ValidMutation, SortedChanges, WellFormed;
  }

  lemma EntryIsOnly(cx: Codec, log: seq<Record>, i: nat)
    requires IsHistory(cx, log) && i < |log|
    ensures OnlyEntry(log, log[i].RequestId(), i)
  {
    hide IsHistory;
    forall j | 0 <= j < |log| && j != i
      ensures log[j].RequestId() != log[i].RequestId()
    {
      RequestIdsAreUnique(cx, log, if j < i then j else i, if j < i then i else j);
    }
  }

  /** Repeating a recorded call at any later time returns the recorded receipt. */
  lemma RetryFindsReceipt(cx: Codec, log: seq<Record>, i: nat, call: Call, now: int, rnd: Entropy)
    requires IsHistory(cx, log) && i < |log| && Records(cx, log[i], call)
    ensures CallOutcome(cx, StateOf(log), call, now, rnd) == Replayed(ReceiptOf(log[i]))
  {
    hide EvaluateNative, Evaluate, ValidMutation, NormalForm, WellFormed, Apply;
    RecordsAreRemembered(cx, log, i);
    HistoryOk(cx, log);
    HistoryPrefix(cx, log, i);
  }

  /** The random source delivers two usable tokens. */
  predicate GoodTokens(rnd: Entropy) {
    rnd.first.Some? && |rnd.first.value| == 64 && rnd.second.Some? && |rnd.second.value| == 64
  }

  /** Only a missing token or an unknown job operation keeps a command from a verdict. */
  lemma OnlyTokensFault(cx: Codec, s: State, q: NativeRequest, cmd: JobCommand, now: int, rnd: Entropy)
    ensures !JobOperation(q.operation) || q.operation.OtherJobOperation? ==>
        JobVerdict(cx, s, q, cmd, now, None, rnd).Fault?
    ensures JobOperation(q.operation) && !q.operation.OtherJobOperation? && GoodTokens(rnd) ==>
        !JobVerdict(cx, s, q, cmd, now, None, rnd).Fault?
  {
    hide Stage1Artifacts, ConsolidationArtifacts, Consolidates, Requeued;
  }

  /** A call that was evaluated once can be evaluated in the same state at any other time, if the random
      source works. */
  lemma EvaluatedAgain(cx: Codec, s: State, call: Call, now: int, rnd: Entropy, later: int, tokens: Entropy)
    requires CallOutcome(cx, s, call, now, rnd).Append? && GoodTokens(tokens)
    ensures CallOutcome(cx, s, call, later, tokens).Append?
  {
    hide Evaluate, ValidMutation, SortedChanges, WellFormed, ChangesRefusal, JobVerdict, Commit, Rejection;
    hide JobOperation;
    if call.BatchCall? {
      var q := Normalize(cx, call.batch).value;
      if q.job.Some? {
        OnlyTokensFault(cx, s, q, q.job.value, now, rnd);
        OnlyTokensFault(cx, s, q, q.job.value, later, tokens);
      }
    }
  }

  // ----- crash, reopen, retry -----

  /** A file that reopens holds none or all of the entry that was being written. */
  lemma ReopenedIsWhole(cx: Codec, log: seq<Record>, r: Record, n: nat, rnd: nat -> Entropy)
    requires Faithful(cx) && IsHistory(cx, log) && AllFit(cx, log) && Reopenable(log) && Fits(cx, r) &&
        n <= |Line(cx, r)|
    requires OpenFile(cx, JournalFile(cx, log) + Line(cx, r)[..n], rnd).Ok?
    ensures n == 0 || n == |Line(cx, r)|
  {
    hide IsHistory, AllFit, Faithful, Reopenable, OpenFile, JournalFile, Line, Fits;
    if 0 < n < |Line(cx, r)| {
      TornEntry(cx, log, r, n, rnd);
    }
  }

  /** The run that a crash after `n` bytes of the entry `r` leaves behind. */
  function Survived(log: seq<Record>, r: Record, n: nat): seq<Record> {
    if n == 0 then log else log + [r]
  }

  lemma ReopenedState(cx: Codec, log: seq<Record>, r: Record, n: nat, rnd: nat -> Entropy)
    requires Faithful(cx) && IsHistory(cx, log) && AllFit(cx, log) && Reopenable(log)
    requires Appends(cx, StateOf(log), r) && Fits(cx, r) && n <= |Line(cx, r)|
    requires OpenFile(cx, JournalFile(cx, log) + Line(cx, r)[..n], rnd).Ok?
    ensures var survived := Survived(log, r, n);
            && IsHistory(cx, survived) && AllFit(cx, survived) && Reopenable(survived)
            && JournalFile(cx, log) + Line(cx, r)[..n] == JournalFile(cx, survived)
            && OpenFile(cx, JournalFile(cx, survived), rnd) == Ok(StateOf(survived))
  {
    hide Appends, Apply, IsHistory, AllFit, Faithful, Reopenable, StateOf, OpenFile, JournalFile, Line, Fits;
    ReopenedIsWhole(cx, log, r, n, rnd);
    if n == 0 {
      NoTail(JournalFile(cx, log), Line(cx, r)[..n]);
      ReopenExact(cx, log, rnd);
    } else {
      WholeTail(Line(cx, r), Line(cx, r)[..n]);
      JournalFileSnoc(cx, log, r);
      HistorySnoc(cx, log, r);
      AllFitMore(cx, log, r);
      ReopenExact(cx, log + [r], rnd);
    }
  }

  /** Which crashes leave a file that reopens. */
  lemma ReopensIffWhole(cx: Codec, log: seq<Record>, r: Record, n: nat, rnd: nat -> Entropy)
    requires Faithful(cx) && IsHistory(cx, log) && AllFit(cx, log) && Reopenable(log)
    requires Appends(cx, StateOf(log), r) && Fits(cx, r) && n <= |Line(cx, r)|
    ensures OpenFile(cx, JournalFile(cx, log) + Line(cx, r)[..n], rnd).Ok? <==>
        n == 0 || (n == |Line(cx, r)| && !EmptyBegin(r))
  {
    hide Appends, Apply, IsHistory, AllFit, Faithful, StateOf, OpenFile, JournalFile, Line, Fits, EmptyBegin;
    hide Reopenable;
    if n == 0 {
      NoTail(JournalFile(cx, log), Line(cx, r)[..n]);
      ReopenExact(cx, log, rnd);
    } else if n == |Line(cx, r)| {
      WholeTail(Line(cx, r), Line(cx, r)[..n]);
      JournalFileSnoc(cx, log, r);
      HistorySnoc(cx, log, r);
      AllFitMore(cx, log, r);
      ReopenExact(cx, log + [r], rnd);
      assert (log + [r])[..|log|] == log && (log + [r])[|log|] == r;
      ReopenableSnoc(log + [r]);
    } else {
      TornEntry(cx, log, r, n, rnd);
    }
  }

  lemma AllFitMore(cx: Codec, log: seq<Record>, r: Record)
    requires AllFit(cx, log) && Fits(cx, r)
    ensures AllFit(cx, log + [r])
  {
    hide Fits;
  }

  /** A call crashed after `n` bytes of its entry, the file reopened, any other calls came in, and the
      call is repeated. If its entry had reached the disk, the repetition gets the first receipt. If it
      had not, and nothing came in between, the repetition is evaluated. In every case a repetition that is
      answered leaves exactly one entry with the id. */
  lemma CrashThenRetry(cx: Codec, log: seq<Record>, call: Call, now: int, rnd: Entropy, n: nat,
                       reopening: nat -> Entropy,
                       others: seq<Record>, later: int, tokens: Entropy) returns (i: nat)
    requires Faithful(cx) && IsHistory(cx, log) && AllFit(cx, log) && Reopenable(log)
    requires var outcome := CallOutcome(cx, StateOf(log), call, now, rnd);
             && outcome.Append? && Fits(cx, outcome.record) && n <= |Line(cx, outcome.record)|
             && OpenFile(cx, JournalFile(cx, log) + Line(cx, outcome.record)[..n], reopening).Ok?
             && IsHistory(cx, Survived(log, outcome.record, n) + others)
    ensures var outcome := CallOutcome(cx, StateOf(log), call, now, rnd);
            var survived := Survived(log, outcome.record, n);
            var retry := CallOutcome(cx, StateOf(survived + others), call, later, tokens);
            && OpenFile(cx, JournalFile(cx, log) + Line(cx, outcome.record)[..n], reopening) == Ok(StateOf(survived))
            && (n > 0 ==> retry == Replayed(outcome.result))
            && (n == 0 && others == [] && GoodTokens(tokens) ==> retry.Append?)
            && (Answered(cx, retry) ==> OnlyEntry(After(cx, survived + others, retry), call.RequestId(), i))
  {
    hide Appends, Records, CallOutcome, IsHistory, AllFit, Faithful, Reopenable, StateOf, OpenFile, JournalFile, Line;
    hide Fits, GoodTokens;
    var outcome := CallOutcome(cx, StateOf(log), call, now, rnd);
    var survived := Survived(log, outcome.record, n);
    var run := survived + others;
    CallAppends(cx, StateOf(log), call, now, rnd);
    ReopenedState(cx, log, outcome.record, n, reopening);
    if n > 0 {
      assert run[|log|] == outcome.record;
      RetryFindsReceipt(cx, run, |log|, call, later, tokens);
    } else if others == [] && GoodTokens(tokens) {
      assert run == log;
      EvaluatedAgain(cx, StateOf(log), call, now, rnd, later, tokens);
    }
    i := 0;
    if Answered(cx, CallOutcome(cx, StateOf(run), call, later, tokens)) {
      i := OneEntryPerRequest(cx, run, call, later, tokens);
    }
  }
}
