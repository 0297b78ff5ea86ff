/** The store itself: the fields of the source, updated in place, with the file it appends to. The
    clock, the random source, the chunks in which the file is read and the faults of the device are
    arguments. Every method is proved to take exactly the step that `Engine` and `Replay` specify. */
module TrustedStore {
  import opened Types
  import opened Text
  import opened Framing
  import opened Normalization
  import opened Engine
  import opened History
  import opened Counting
  import opened Replay
  import opened Durability
  import Evaluation

  /** How an append can end: completely, after writing some bytes, or with a failed sync. */
  datatype Fault = NoFault | ShortWrite(bytes: nat) | SyncFailure

  /** The bytes of `line` that reach the file. */
  function Reaches(line: string, fault: Fault): string {
    match fault
    case ShortWrite(n) => if n < |line| then line[..n] else line
    case _ => line
  }

  /** `data` is the file that the run `log` wrote, and that run can be reopened. */
  ghost predicate Wrote(cx: Codec, log: seq<Record>, data: string) {
    Faithful(cx) && IsHistory(cx, log) && AllFit(cx, log) && Reopenable(log) && data == JournalFile(cx, log)
  }

  class Store {
    const cx: Codec
    var file: string
    var objects: map<ObjectKey, Object>
    var requests: map<string, ObjectRecord>
    var native: map<Key, Resource>
    var nativeRequests: map<string, NativeRecord>
    var nativeJobs: map<string, Job>
    var memoryGeneration: nat
    var sequence: nat
    var poisoned: bool
    ghost var log: seq<Record>  // the records published so far

    function View(): State
      reads this
    {
      State(objects, requests, native, nativeRequests, nativeJobs, memoryGeneration, sequence)
    }

    /** The fields are those of the run `log`, and while the store is usable the file holds `log`. */
    ghost predicate Valid()
      reads this
    {
      && IsHistory(cx, log) && AllFit(cx, log)
      && View() == StateOf(log)
      && (!poisoned ==> file == JournalFile(cx, log))
    }

    /** An empty store over a file that is still to be replayed. */
    constructor (cx: Codec, file: string, ghost log: seq<Record>)
      ensures this.cx == cx && this.file == file && this.log == log && !poisoned && View() == EMPTY
    {
      this.cx, this.file, this.log := cx, file, log;
      objects, requests, native, nativeRequests, nativeJobs := map[], map[], map[], map[], map[];
      memoryGeneration, sequence, poisoned := 0, 0, false;
    }

    // ----- append and apply -----

    method AppendRecord(r: Record, fault: Fault) returns (error: Option<Refusal>)
      modifies this`file, this`poisoned
      ensures |cx.encode(r)| + 1 > NATIVE_TRANSACTION_BYTES ==>
                error == Some(EntryTooLarge) && file == old(file) && poisoned == old(poisoned)
      ensures |cx.encode(r)| + 1 <= NATIVE_TRANSACTION_BYTES ==>
                && file == old(file) + Reaches(cx.encode(r) + "\n", fault)
                && (if fault == NoFault then error == None && poisoned == old(poisoned)
                    else error == Some(OutcomeUncertain) && poisoned)
    {
      var b := cx.encode(r);
      if |b| + 1 > NATIVE_TRANSACTION_BYTES {
        return Some(EntryTooLarge);
      }
      b := b + "\n";
      file := file + Reaches(b, fault);
      if fault != NoFault {
        poisoned := true;
        return Some(OutcomeUncertain);
      }
      error := None;
    }

    method ApplyObjectRecord(r: ObjectRecord)
      modifies this`objects, this`requests, this`sequence
      ensures View() == ApplyObject(old(View()), r)
    {
      if r.result.error == NoReason {
        objects := objects[ObjectKey(r.collection, r.request.id) := r.result.item];
      }
      requests := requests[r.request.requestId := r];
      sequence := r.sequence;
    }

    method ApplyNativeRecord(r: NativeRecord)
      modifies this`native, this`nativeJobs, this`nativeRequests, this`memoryGeneration, this`sequence, this`poisoned
      ensures View() == ApplyNative(old(View()), r)
      ensures poisoned == (old(poisoned) || Drifts(old(View()), r))
    {
      hide Publish, StoreJobs, PublishesMemory;
      NothingStored(native, nativeJobs);
      if r.result.error == NoReason {
        var hasMemoryChange := false;
        var rs := r.result.resources;
        for i := 0 to |rs|
          modifies this`native
          invariant native == Publish(old(native), rs[..i])
          invariant hasMemoryChange <==> exists k :: 0 <= k < i && MemoryDomain(rs[k].key.domain)
        {
          PublishNext(old(native), rs, i);
          native := native[rs[i].key := rs[i]];
          hasMemoryChange := hasMemoryChange || MemoryDomain(rs[i].key.domain);
        }
        assert rs[..|rs|] == rs;
        PublishesMemoryAt(rs);
        var js := r.result.jobs;
        for i := 0 to |js|
          modifies this`nativeJobs
          invariant nativeJobs == StoreJobs(old(nativeJobs), js[..i])
        {
          StoreNext(old(nativeJobs), js, i);
          nativeJobs := nativeJobs[js[i].jobId := JsonJob(js[i])];
        }
        assert js[..|js|] == js;
        if r.request.operation.MemoryClear? {
          nativeJobs := map[];
        }
        if hasMemoryChange || r.request.operation.MemoryClear? {
          memoryGeneration := memoryGeneration + 1;
        }
        if r.request.job.Some? && r.result.memoryGeneration != memoryGeneration {
          poisoned := true;
        }
      }
      nativeRequests := nativeRequests[r.request.requestId := r];
      sequence := r.sequence;
    }

    // ----- the two protocols -----

    /** What an exported operation may change, given what it should answer. On a device fault nothing is
        published and the store refuses further work. */
    ghost predicate Answers<R>(before: State, wasPoisoned: bool, oldFile: string, oldLog: seq<Record>,
                               outcome: Outcome<R>, fault: Fault, reply: Result<R>)
      reads this
    {
      if wasPoisoned then reply.Err? && View() == before && poisoned && file == oldFile && log == oldLog
      else match outcome
        case Refused(e) => reply == Err(e) && View() == before && !poisoned && file == oldFile && log == oldLog
        case Replayed(receipt) => reply == Ok(receipt) && View() == before && !poisoned && file == oldFile &&
            log == oldLog
        case Append(r, result) =>
          if !Fits(cx, r) then
            && reply == Err(EntryTooLarge) && View() == before && !poisoned && file == oldFile && log == oldLog
          else if fault == NoFault then
            && reply == Ok(result) && View() == Apply(before, r) && !poisoned
            && file == oldFile + Line(cx, r) && log == oldLog + [r]
          else
            && reply == Err(OutcomeUncertain) && View() == before && poisoned
            && file == oldFile + Reaches(Line(cx, r), fault) && log == oldLog
    }

    method Mutate(c: Collection, op: Mutation, q: Request, now: int, fault: Fault) returns (reply: Result<ObjectResult>)
      requires Valid()
      modifies this
      ensures Valid()
      ensures Answers(old(View()), old(poisoned), old(file), old(log), MutateOutcome(old(View()), c, op, q, now),
          fault, reply)
    {
      hide Evaluate, Appends, IsHistory, AllFit, StateOf, JournalFile, ApplyObject, ValidMutation;
      if poisoned {
        return Err(StateUnavailable);
      }
      if !ValidMutation(c, op, q) {
        return Err(Malformed);
      }
      if q.requestId in nativeRequests {
        return Err(ReusedAcrossProtocols);
      }
      if q.requestId in requests {
        var r := requests[q.requestId];
        if r.collection != c || r.operation != op || r.request != q {
          return Err(ReusedWithOtherArguments);
        }
        return Ok(r.result);
      }
      var (before, result) := Evaluate(View(), c, op, q);
      var r := ObjectRecord(sequence + 1, now, c, op, q, before, result);
      var error := AppendRecord(V1(r), fault);
      if error.Some? {
        return Err(error.value);
      }
      MutateAppends(cx, View(), c, op, q, now);
      PublishStep(cx, log, V1(r));
      ApplyObjectRecord(r);
      log := log + [V1(r)];
      reply := Ok(result);
    }

    method NativeBatch(q: NativeRequest, now: int, rnd: Entropy, fault: Fault) returns (reply: Result<NativeResult>)
      requires Valid()
      modifies this
      ensures Valid()
      ensures Answers(old(View()), old(poisoned), old(file), old(log), BatchOutcome(cx, old(View()), q, now, rnd),
          fault, reply)
    {
      hide EvaluateNative, NormalForm, WellFormed, Appends, ApplyNative, Drifts, IsHistory, AllFit, StateOf;
      hide JournalFile;
      var normal := NormalizeNative(cx, q);
      if normal.Err? {
        return Err(normal.error);
      }
      var n := normal.value;
      if poisoned {
        return Err(StateUnavailable);
      }
      if n.requestId in requests {
        return Err(ReusedAcrossProtocols);
      }
      if n.requestId in nativeRequests {
        var r := nativeRequests[n.requestId];
        if n.intent != "" && n.operation == r.request.operation && n.intent == r.request.intent {
          return Ok(JsonResult(r.result));
        }
        if r.digest != cx.digest(n) {
          return Err(ReusedWithOtherArguments);
        }
        return Ok(JsonResult(r.result));
      }
      EvaluationReady(cx, log, q);
      var result := Evaluation.Evaluate(cx, View(), n, now, None, rnd);
      if result.Err? {
        return Err(result.error);
      }
      var r := NativeRecord(sequence + 1, now, n, cx.digest(n), result.value);
      var durable := r.(result := r.result.(resources := []));
      var error := AppendRecord(V2(durable), fault);
      if error.Some? {
        return Err(error.value);
      }
      BatchAppends(cx, View(), q, now, rnd);
      GenerationStep(cx, View(), V2(r));
      PublishStep(cx, log, V2(r));
      ApplyNativeRecord(r);
      log := log + [V2(r)];
      reply := Ok(JsonResult(result.value));
    }

    // ----- reopening -----

    method ReplayObjectEntry(r: ObjectRecord) returns (error: Option<Refusal>)
      modifies this`objects, this`requests, this`sequence
      ensures match ReplayObject(old(View()), r)
              case Err(e) => error == Some(e) && View() == old(View())
              case Ok(s) => error == None && View() == s
    {
      if !ValidMutation(r.collection, r.operation, r.request) {
        return Some(Malformed);
      }
      if r.request.requestId in nativeRequests || r.request.requestId in requests {
        return Some(DuplicateJournalRequest);
      }
      var (before, result) := Evaluate(View(), r.collection, r.operation, r.request);
      if r.sequence != sequence + 1 || before != r.before || result != r.result {
        return Some(InconsistentJournal);
      }
      ApplyObjectRecord(r);
      error := None;
    }

    method ReplayNativeEntry(r: NativeRecord, rnd: Entropy) returns (error: Option<Refusal>)
      requires StateOk(View())
      modifies this`native, this`nativeJobs, this`nativeRequests, this`memoryGeneration, this`sequence, this`poisoned
      ensures match ReplayNative(cx, old(View()), r, rnd)
              case Err(e) => error == Some(e) && View() == old(View())
              case Ok(s) => error == None && View() == s
      ensures poisoned == old(poisoned)
    {
      if r.sequence != sequence + 1 {
        return Some(InconsistentJournal);
      }
      if r.request.requestId in requests || r.request.requestId in nativeRequests {
        return Some(DuplicateJournalRequest);
      }
      var normal := NormalizeNative(cx, r.request);
      if normal.Err? {
        return Some(normal.error);
      }
      var q := normal.value;
      NormalizeCanonical(cx, r.request);
      CanonicalKeys(cx, q);
      var expected := Evaluation.Evaluate(cx, View(), q, r.time, Some(r.result), rnd);
      if expected.Err? {
        return Some(expected.error);
      }
      if cx.digest(q) != r.digest || q != r.request || expected.value.(resources := []) != r.result {
        return Some(InconsistentJournal);
      }
      ReplayNeverDrifts(cx, View(), r, rnd, r.(result := expected.value));
      ApplyNativeRecord(r.(result := expected.value));
      error := None;
    }

    /** Reads a journal file. `written` is the run that wrote it, if any did. */
    static method Open(cx: Codec, data: string, chunk: nat -> nat, rnd: nat -> Entropy, ghost written: seq<Record>)
        returns (s: Store?)
      ensures OpenFile(cx, data, rnd).Ok? <==> s != null
      ensures s != null ==>
                fresh(s) && s.cx == cx && s.file == data && !s.poisoned && s.log == written &&
                    s.View() == OpenFile(cx, data, rnd).value
      ensures Wrote(cx, written, data) ==> s != null && s.Valid()
    {
      hide ReplayLines, ReplayNative, ReplayObject, Lines, StateOk, IsHistory, AllFit, Reopenable, Faithful, StateOf;
      hide JournalFile;
      var scanned := ScanJournal(data, chunk);
      var store := new Store(cx, data, written);
      NoLines(cx, scanned.lines, rnd);
      EmptyOk(cx);
      for i := 0 to |scanned.lines|
        invariant fresh(store) && store.cx == cx && store.file == data && !store.poisoned && store.log == written
        invariant ReplayLines(cx, scanned.lines[..i], rnd) == Ok(store.View())
        invariant StateOk(store.View())
      {
        NextLine(cx, scanned.lines, i, store.View(), rnd);
        var r := cx.decode(scanned.lines[i]);
        var error := Some(CorruptJournal);
        if r.Some? {
          ReplayKeepsState(cx, store.View(), r.value, rnd(i));
          if r.value.V1? {
            error := store.ReplayObjectEntry(r.value.v1);
          } else {
            error := store.ReplayNativeEntry(r.value.v2, rnd(i));
          }
        }
        if error.Some? {
          LaterLinesRefused(cx, scanned.lines, i + 1, rnd);
          RefusedFile(cx, data, written, rnd);
          return null;
        }
      }
      assert scanned.lines[..|scanned.lines|] == scanned.lines;
      assert ReplayLines(cx, scanned.lines, rnd) == Ok(store.View());
      RefusedFile(cx, data, written, rnd);
      if scanned.error.Some? {
        return null;
      }
      s := store;
    }

    // ----- reading -----

    method NativeRead(k: Key, revision: nat) returns (r: Result<Resource>)
      ensures poisoned ==> r == Err(StateUnavailable)
      ensures !poisoned && !(ValidDomain(k.domain) && ValidPath(k.name)) ==> r == Err(Malformed)
      ensures !poisoned && ValidDomain(k.domain) && ValidPath(k.name) ==>
                if k !in native then r == Err(Absent)
                else if revision != 0 && revision != native[k].revision then r == Err(Expired)
                else r == Ok(native[k])
    {
      if poisoned {
        return Err(StateUnavailable);
      }
      if !ValidDomain(k.domain) || !ValidPath(k.name) {
        return Err(Malformed);
      }
      if k !in native {
        return Err(Absent);
      }
      if revision != 0 && native[k].revision != revision {
        return Err(Expired);
      }
      r := Ok(native[k]);
    }
  }

  // ----- crash, reopen, retry -----

  /** A call of either protocol. */
  method Send(s: Store, call: Call, now: int, rnd: Entropy, fault: Fault) returns (reply: Result<Receipt>)
    requires s.Valid()
    modifies s
    ensures s.Valid()
    ensures s.Answers(old(s.View()), old(s.poisoned), old(s.file), old(s.log),
        CallOutcome(s.cx, old(s.View()), call, now, rnd), fault, reply)
  {
    hide MutateOutcome, BatchOutcome, Apply, IsHistory, AllFit, StateOf, JournalFile;
    match call {
      case MutateCall(c, op, q) =>
        var r := s.Mutate(c, op, q, now, fault);
        reply := if r.Ok? then Ok(ObjectReceipt(r.value)) else Err(r.error);
      case BatchCall(q) =>
        var r := s.NativeBatch(q, now, rnd, fault);
        reply := if r.Ok? then Ok(BatchReceipt(r.value)) else Err(r.error);
    }
  }

  /** The bytes of the entry that a call appends and that reach the file. */
  ghost function BytesReached(cx: Codec, s: State, call: Call, now: int, rnd: Entropy, fault: Fault): (n: nat)
    requires CallOutcome(cx, s, call, now, rnd).Append?
    ensures var line := Line(cx, CallOutcome(cx, s, call, now, rnd).record);
            n <= |line| && Reaches(line, fault) == line[..n]
  {
    var line := Line(cx, CallOutcome(cx, s, call, now, rnd).record);
    if fault.ShortWrite? && fault.bytes < |line| then fault.bytes
    else
      assert line[..|line|] == line;
      |line|
  }

  /** The advice beside `Open`: after any fault, reopen the file and repeat the same call. The file reopens
      exactly when none or all of the entry had reached it (and a begin had inputs); the repetition gets the
      first receipt if the entry was there, and once it is answered the journal has exactly one entry for
      the call. */
  method ReopenAndRetry(s: Store, call: Call, now: int, rnd: Entropy, fault: Fault, chunk: nat -> nat,
                        reopening: nat -> Entropy,
                        later: int, tokens: Entropy) returns (t: Store?, reply: Result<Receipt>)
    requires s.Valid() && !s.poisoned && Faithful(s.cx) && Reopenable(s.log)
    requires var outcome := CallOutcome(s.cx, s.View(), call, now, rnd); outcome.Append? && Fits(s.cx, outcome.record)
    modifies s
    ensures var outcome := CallOutcome(s.cx, old(s.View()), call, now, rnd);
            var n := BytesReached(s.cx, old(s.View()), call, now, rnd, fault);
            && (t != null <==> n == 0 || (n == |Line(s.cx, outcome.record)| && !EmptyBegin(outcome.record)))
            && (t != null && n > 0 ==> reply == Ok(outcome.result))
            && (t != null && n == 0 && GoodTokens(tokens) ==> reply.Ok? || reply == Err(EntryTooLarge))
    ensures t != null ==> t.Valid() && !t.poisoned && (reply.Ok? ==> exists i :: OnlyEntry(t.log, call.RequestId(), i))
  {
    hide CallOutcome, Apply, IsHistory, AllFit, StateOf, JournalFile, Line, Fits, Faithful, Reopenable, OpenFile;
    hide EmptyBegin, OnlyEntry, GoodTokens;
    ghost var before, state := s.log, s.View();
    ghost var r, n := CallOutcome(s.cx, state, call, now, rnd).record, BytesReached(s.cx, state, call, now, rnd, fault);
    var first := Send(s, call, now, rnd, fault);
    assert s.file == JournalFile(s.cx, before) + Line(s.cx, r)[..n];
    CallAppends(s.cx, state, call, now, rnd);
    ReopensIffWhole(s.cx, before, r, n, reopening);
    ghost var survived := Survived(before, r, n);
    if OpenFile(s.cx, s.file, reopening).Ok? {
      ReopenedState(s.cx, before, r, n, reopening);
      assert Wrote(s.cx, survived, s.file);
    }
    t := Store.Open(s.cx, s.file, chunk, reopening, survived);
    if t == null {
      return t, Err(IncompleteJournal);
    }
    assert survived + [] == survived;
    ghost var i := CrashThenRetry(s.cx, before, call, now, rnd, n, reopening, [], later, tokens);
    reply := Send(t, call, later, tokens, NoFault);
    assert reply.Ok? ==> OnlyEntry(t.log, call.RequestId(), i);
  }

  // ----- the steps of the proofs above -----

  lemma NothingStored(native: map<Key, Resource>, jobs: map<string, Job>)
    ensures Publish(native, []) == native && StoreJobs(jobs, []) == jobs
  {
  }

  lemma PublishNext(native: map<Key, Resource>, rs: seq<Resource>, i: nat)
    requires i < |rs|
    ensures Publish(native, rs[..i + 1]) == Publish(native, rs[..i])[rs[i].key := rs[i]]
  {
    assert rs[..i + 1][..i] == rs[..i];
  }

  lemma StoreNext(jobs: map<string, Job>, js: seq<Job>, i: nat)
    requires i < |js|
    ensures StoreJobs(jobs, js[..i + 1]) == StoreJobs(jobs, js[..i])[js[i].jobId := JsonJob(js[i])]
  {
    assert js[..i + 1][..i] == js[..i];
  }

  lemma PublishesMemoryAt(rs: seq<Resource>)
    ensures PublishesMemory(rs) <==> exists k :: 0 <= k < |rs| && MemoryDomain(rs[k].key.domain)
  {
    if r :| r in rs && MemoryDomain(r.key.domain) {
      var k :| 0 <= k < |rs| && rs[k] == r;
    }
  }

  /** Publishing a record that was appended in full keeps the store valid. */
  lemma PublishStep(cx: Codec, log: seq<Record>, r: Record)
    requires IsHistory(cx, log) && AllFit(cx, log) && Appends(cx, StateOf(log), r) && Fits(cx, r)
    ensures IsHistory(cx, log + [r]) && AllFit(cx, log + [r]) && StateOf(log + [r]) == Apply(StateOf(log), r)
    ensures JournalFile(cx, log + [r]) == JournalFile(cx, log) + Line(cx, r)
  {
    hide Appends, Apply;
    HistorySnoc(cx, log, r);
    JournalFileSnoc(cx, log, r);
  }

  lemma EvaluationReady(cx: Codec, log: seq<Record>, q: NativeRequest)
    requires IsHistory(cx, log) && Normalize(cx, q).Ok?
    ensures forall k :: k in StateOf(log).native ==> StateOf(log).native[k].key == k
    ensures DistinctKeys(Normalize(cx, q).value.changes)
  {
    hide IsHistory, StateOf, Canonical, NormalForm, WellFormed;
    HistoryOk(cx, log);
    NormalizeCanonical(cx, q);
    CanonicalKeys(cx, Normalize(cx, q).value);
  }

  lemma EmptyOk(cx: Codec)
    ensures StateOk(EMPTY)
  {
    HistoryOk(cx, []);
  }

  lemma ReplayKeepsState(cx: Codec, s: State, r: Record, rnd: Entropy)
    requires StateOk(s)
    ensures ReplayRecord(cx, s, r, rnd).Ok? ==> StateOk(ReplayRecord(cx, s, r, rnd).value)
  {
    hide StateOk, ReplayRecord, Appends, Apply;
    if ReplayRecord(cx, s, r, rnd).Ok? {
      var full := AcceptedIsStep(cx, s, r, rnd);
      StepKeepsState(cx, s, full);
    }
  }

  lemma ReplayNeverDrifts(cx: Codec, s: State, r: NativeRecord, rnd: Entropy, full: NativeRecord)
    requires ReplayNative(cx, s, r, rnd).Ok? &&
        full == r.(result := EvaluateNative(cx, s, r.request, r.time, Some(r.result), rnd).value)
    ensures !Drifts(s, full)
  {
    hide EvaluateNative, Drifts, AppendsNative;
    var step := AcceptedNativeIsStep(cx, s, r, rnd);
    GenerationStep(cx, s, step);
  }

  lemma NoLines(cx: Codec, lines: seq<string>, rnd: nat -> Entropy)
    ensures ReplayLines(cx, lines[..0], rnd) == Ok(EMPTY)
  {
  }

  lemma NextLine(cx: Codec, lines: seq<string>, i: nat, s: State, rnd: nat -> Entropy)
    requires i < |lines| && ReplayLines(cx, lines[..i], rnd) == Ok(s)
    ensures ReplayLines(cx, lines[..i + 1], rnd) == ReplayLine(cx, s, lines[i], rnd(i))
  {
    hide ReplayLine;
    assert lines[..i + 1][..i] == lines[..i];
  }

  lemma {:induction false} LaterLinesRefused(cx: Codec, lines: seq<string>, n: nat, rnd: nat -> Entropy)
    requires n <= |lines| && ReplayLines(cx, lines[..n], rnd).Err?
    ensures ReplayLines(cx, lines, rnd).Err?
  {
    hide ReplayLine;
    if n == |lines| {
      assert lines[..n] == lines;
    } else {
      var front := lines[..|lines| - 1];
      assert front[..n] == lines[..n];
      LaterLinesRefused(cx, front, n, rnd);
    }
  }

  lemma RefusedFile(cx: Codec, data: string, written: seq<Record>, rnd: nat -> Entropy)
    ensures Wrote(cx, written, data) ==> OpenFile(cx, data, rnd) == Ok(StateOf(written))
  {
    hide OpenFile, IsHistory, AllFit, Faithful, Reopenable, StateOf, JournalFile;
    if Wrote(cx, written, data) {
      ReopenExact(cx, written, rnd);
    }
  }
}
