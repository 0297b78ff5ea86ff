/** What the counters of the store count: revisions, the memory generation, sequence numbers and
    request ids, each read off the journal alone. */
module Counting {
  import opened Types
  import opened Normalization
  import opened Selection
  import opened MemoryTree
  import opened Engine
  import opened History

  function KeysOf(r: Record): set<Key> {
    if CommittedNative(r) then ChangedKeys(r.v2.request.changes) else {}
  }

  function ObjectKeysOf(r: Record): set<ObjectKey> {
    if r.V1? && r.v1.result.error == NoReason then {ObjectKey(r.v1.collection, r.v1.request.id)} else {}
  }

  /** The number of committed records that change resource `k`. */
  ghost function ChangesTo(log: seq<Record>, k: Key): nat {
    if log == [] then 0
    else ChangesTo(log[..|log| - 1], k) + if k in KeysOf(log[|log| - 1]) then 1 else 0
  }

  ghost function ObjectChangesTo(log: seq<Record>, k: ObjectKey): nat {
    if log == [] then 0
    else ObjectChangesTo(log[..|log| - 1], k) + if k in ObjectKeysOf(log[|log| - 1]) then 1 else 0
  }

  predicate BumpsGeneration(r: Record) {
    CommittedNative(r) && (ChangesMemory(r.v2.request.changes) || r.v2.request.operation.MemoryClear?)
  }

  ghost function Bumps(log: seq<Record>): nat {
    if log == [] then 0
    else Bumps(log[..|log| - 1]) + if BumpsGeneration(log[|log| - 1]) then 1 else 0
  }

  // ----- revisions -----

  lemma RevisionStep(cx: Codec, s: State, r: Record, k: Key)
    requires Appends(cx, s, r)
    ensures Current(Apply(s, r).native, k).revision == Current(s.native, k).revision + if k in KeysOf(r) then 1 else 0
  {
    hide AppendsNative, ChangesRefusal, ApplyNative, Publish, ResourcesOf, DistinctKeys, ValidMutation, Evaluate;
    if r.V2? {
      NativeAfter(cx, s, r.v2);
      if CommittedNative(r) {
        PublishedAt(cx, s.native, r.v2.request.changes);
        ChangesPassCas(cx, s, r.v2);
        if k in KeysOf(r) {
          var c :| c in r.v2.request.changes && c.key == k;
          assert CasRefusalOf(s.native, c) == NoReason;
        }
      }
    }
  }

  lemma ChangesPassCas(cx: Codec, s: State, r: NativeRecord)
    requires AppendsNative(cx, s, r) && r.result.error == NoReason
    ensures forall c :: c in r.request.changes ==> CasRefusalOf(s.native, c) == NoReason
  {
    hide AppendsNative, ApplyNative, Publish, ResourcesOf, DistinctKeys, CasRefusalOf;
    NativeAfter(cx, s, r);
  }

  /** The revision of a resource is the number of committed changes to it, across deletion and
      rebirth. */
  lemma {:induction false} RevisionCountsChanges(cx: Codec, log: seq<Record>, k: Key)
    requires IsHistory(cx, log)
    ensures Current(StateOf(log).native, k).revision == ChangesTo(log, k)
  {
    if log != [] {
      var front := log[..|log| - 1];
      RevisionCountsChanges(cx, front, k);
      RevisionStep(cx, StateOf(front), log[|log| - 1], k);
    }
  }

  lemma {:induction false} ObjectRevisionCountsChanges(cx: Codec, log: seq<Record>, k: ObjectKey)
    requires IsHistory(cx, log)
    ensures (if k in StateOf(log).objects then StateOf(log).objects[k].revision else 0) == ObjectChangesTo(log, k)
  {
    hide EvaluateNative, Canonical;
    if log != [] {
      ObjectRevisionCountsChanges(cx, log[..|log| - 1], k);
    }
  }

  lemma {:induction false} ChangesGrow(log: seq<Record>, k: Key, i: nat)
    requires i < |log|
    ensures ChangesTo(log[..i], k) + (if k in KeysOf(log[i]) then 1 else 0) <= ChangesTo(log, k)
  {
    if i == |log| - 1 {
    } else {
      var front := log[..|log| - 1];
      assert front[..i] == log[..i];
      ChangesGrow(front, k, i);
    }
  }

  lemma ExpectedIsCount(cx: Codec, log: seq<Record>, i: nat, c: Change)
    requires IsHistory(cx, log) && i < |log| && CommittedNative(log[i]) && c in log[i].v2.request.changes
    ensures c.expectedRevision == ChangesTo(log[..i], c.key)
    ensures c.key in KeysOf(log[i])
  {
    HistoryPrefix(cx, log, i);
    RevisionCountsChanges(cx, log[..i], c.key);
    ChangesPassCas(cx, StateOf(log[..i]), log[i].v2);
  }

  /** At most one change commits per resource and expected revision, and later changes expect more. */
  lemma OneChangePerRevision(cx: Codec, log: seq<Record>, i: nat, j: nat, c: Change, d: Change)
    requires IsHistory(cx, log) && i < j < |log|
    requires CommittedNative(log[i]) && c in log[i].v2.request.changes
    requires CommittedNative(log[j]) && d in log[j].v2.request.changes
    requires c.key == d.key
    ensures c.expectedRevision < d.expectedRevision
  {
    ExpectedIsCount(cx, log, i, c);
    ExpectedIsCount(cx, log, j, d);
    ChangesGrow(log[..j], c.key, i);
    assert log[..j][..i] == log[..i];
  }

  /** A batch takes effect on all of its resources or on none, and touches no other. */
  lemma BatchIsAtomic(cx: Codec, s: State, r: NativeRecord)
    requires AppendsNative(cx, s, r)
    ensures var after := ApplyNative(s, r).native;
            if r.result.error != NoReason then after == s.native
            else
              && (forall c :: c in r.request.changes ==>
                    c.key in after && after[c.key] == ResourceOf(cx, c) &&
                        Current(s.native, c.key).revision == c.expectedRevision)
              && (forall k :: k in s.native && k !in ChangedKeys(r.request.changes) ==>
                  k in after && after[k] == s.native[k])
              && (forall k :: k in after ==> k in s.native || k in ChangedKeys(r.request.changes))
  {
    hide AppendsNative, ApplyNative, Publish, ResourcesOf, ResourceOf;
    NativeAfter(cx, s, r);
    if r.result.error == NoReason {
      PublishedAt(cx, s.native, r.request.changes);
      ChangesPassCas(cx, s, r);
      forall c | c in r.request.changes
        ensures Current(s.native, c.key).revision == c.expectedRevision
      {
        assert CasRefusalOf(s.native, c) == NoReason;
      }
    }
  }

  // ----- generation -----

  lemma PublishesMemoryIff(cx: Codec, cs: seq<Change>)
    ensures PublishesMemory(ResourcesOf(cx, cs)) <==> ChangesMemory(cs)
  {
    var rs := ResourcesOf(cx, cs);
    if ChangesMemory(cs) {
      var i :| 0 <= i < |cs| && MemoryDomain(cs[i].key.domain);
      assert rs[i] in rs;
    }
    if PublishesMemory(rs) {
      var i :| 0 <= i < |rs| && MemoryDomain(rs[i].key.domain);
      assert cs[i] in cs;
    }
  }

  lemma GenerationStep(cx: Codec, s: State, r: Record)
    requires Appends(cx, s, r)
    ensures Apply(s, r).memoryGeneration == s.memoryGeneration + if BumpsGeneration(r) then 1 else 0
    ensures r.V2? ==> !Drifts(s, r.v2)
  {
    hide AppendsNative, Evaluate, ValidMutation, Publish, StoreJobs, ResourcesOf, RestampedAll, PublishesMemory;
    hide ChangesMemory;
    if r.V2? && r.v2.result.error == NoReason {
      var jobs := CommittedStep(cx, s, r.v2);
      PublishesMemoryIff(cx, r.v2.request.changes);
    }
  }

  /** The generation counts the committed records that change memory or clear it. */
  lemma {:induction false} GenerationCountsBumps(cx: Codec, log: seq<Record>)
    requires IsHistory(cx, log)
    ensures StateOf(log).memoryGeneration == Bumps(log)
  {
    if log != [] {
      var front := log[..|log| - 1];
      GenerationCountsBumps(cx, front);
      GenerationStep(cx, StateOf(front), log[|log| - 1]);
    }
  }

  /** The receipt of a committed job command carries the generation that holds after it, so the branch
      of `applyNative` that poisons the store is never taken. */
  lemma GenerationNeverDrifts(cx: Codec, log: seq<Record>, i: nat)
    requires IsHistory(cx, log) && i < |log| && log[i].V2?
    ensures !Drifts(StateOf(log[..i]), log[i].v2)
    ensures CommittedNative(log[i]) && log[i].v2.request.job.Some? ==>
              log[i].v2.result.memoryGeneration == StateOf(log[..i + 1]).memoryGeneration == Bumps(log[..i + 1])
  {
    HistoryPrefix(cx, log, i);
    GenerationStep(cx, StateOf(log[..i]), log[i]);
    HistoryPrefix(cx, log, i + 1);
    GenerationCountsBumps(cx, log[..i + 1]);
  }

  // ----- request ids and sequence numbers -----

  ghost predicate Remembers(s: State, r: Record) {
    match r
    case V1(o) => o.request.requestId in s.requests && s.requests[o.request.requestId] == o
    case V2(n) => n.request.requestId in s.nativeRequests && s.nativeRequests[n.request.requestId] == n
  }

  /** What every step does to the request tables and the sequence number. */
  lemma StepIds(cx: Codec, s: State, r: Record)
    requires Appends(cx, s, r)
    ensures FreshId(s, r.RequestId())
    ensures var after := Apply(s, r);
            && after.sequence == s.sequence + 1
            && after.requests == (if r.V1? then s.requests[r.RequestId() := r.v1] else s.requests)
            && after.nativeRequests == (if r.V2? then s.nativeRequests[r.RequestId() := r.v2] else s.nativeRequests)
  {
    hide EvaluateNative, Canonical, Evaluate, ValidMutation;
  }

  lemma {:induction false} SequenceCountsRecords(cx: Codec, log: seq<Record>)
    requires IsHistory(cx, log)
    ensures StateOf(log).sequence == |log|
  {
    hide Appends, Apply;
    if log != [] {
      SequenceCountsRecords(cx, log[..|log| - 1]);
      StepIds(cx, StateOf(log[..|log| - 1]), log[|log| - 1]);
    }
  }

  /** Every record stays retrievable under its request id, forever. */
  lemma {:induction false} RecordsAreRemembered(cx: Codec, log: seq<Record>, i: nat)
    requires IsHistory(cx, log) && i < |log|
    ensures Remembers(StateOf(log), log[i])
  {
    hide Appends, Apply;
    var front := log[..|log| - 1];
    StepIds(cx, StateOf(front), log[|log| - 1]);
    if i < |front| {
      RecordsAreRemembered(cx, front, i);
    }
  }

  /** Every remembered request id comes from one journal entry. */
  lemma {:induction false} RememberedIsRecorded(cx: Codec, log: seq<Record>, id: string) returns (i: nat)
    requires IsHistory(cx, log)
    requires id in StateOf(log).requests || id in StateOf(log).nativeRequests
    ensures i < |log| && log[i].RequestId() == id && Remembers(StateOf(log), log[i])
  {
    hide Appends, Apply;
    var front, r := log[..|log| - 1], log[|log| - 1];
    StepIds(cx, StateOf(front), r);
    if r.RequestId() == id {
      i := |log| - 1;
    } else {
      i := RememberedIsRecorded(cx, front, id);
    }
  }

  /** No two journal entries, of either protocol, share a request id. */
  lemma RequestIdsAreUnique(cx: Codec, log: seq<Record>, i: nat, j: nat)
    requires IsHistory(cx, log) && i < j < |log|
    ensures log[i].RequestId() != log[j].RequestId()
  {
    HistoryPrefix(cx, log, j);
    RecordsAreRemembered(cx, log[..j], i);
    assert log[..j][i] == log[i];
  }

  // ----- receipts -----

  /** The resource that a change leaves. */
  ghost predicate Leaves(cx: Codec, c: Change, r: Resource) {
    && r.key == c.key && r.revision == c.expectedRevision + 1
    && r.content == c.content && r.package == c.package && r.deleted == c.deleted
    && (c.package.Some? ==> r.sha256 == cx.packageHash(c.package.value))
    && (c.package.None? ==> r.sha256 == cx.hash(c.content))
  }

  lemma ResourcesLeft(cx: Codec, cs: seq<Change>)
    ensures forall j :: 0 <= j < |cs| ==> Leaves(cx, cs[j], ResourcesOf(cx, cs)[j])
  {
  }

  lemma ReceiptStep(cx: Codec, s: State, r: NativeRecord)
    requires AppendsNative(cx, s, r)
    ensures r.result.commitSequence == r.sequence == s.sequence + 1
    ensures r.result.status == Committed <==> r.result.error == NoReason
    ensures r.result.error != NoReason ==> r.result.resources == [] && r.result.jobs == []
    ensures r.result.error == NoReason ==> r.result.resources == ResourcesOf(cx, r.request.changes)
    ensures r.request.job.None? ==> r.result.memoryGeneration == 0
    ensures r.request.job.Some? ==>
        r.result.memoryGeneration == s.memoryGeneration +
            if r.result.error == NoReason && ChangesMemory(r.request.changes) then 1 else 0
  {
    hide ChangesRefusal, JobVerdict, Canonical, ChangesMemory, ResourcesOf;
    if r.result.error == NoReason {
      var jobs := CommittedStep(cx, s, r);
    } else {
      var rnd :| EvaluateNative(cx, s, r.request, r.time, None, rnd) == Ok(r.result);
    }
  }

  /** What a journalled receipt says: its own position, the resources that the changes leave or none, and for a
      command the number of records that bumped the generation, this one included if it changed memory. */
  lemma ReceiptIs(cx: Codec, log: seq<Record>, i: nat)
    requires IsHistory(cx, log) && i < |log| && log[i].V2?
    ensures var q, result := log[i].v2.request, log[i].v2.result;
            && result.commitSequence == log[i].v2.sequence == i + 1
            && (result.status == Committed <==> result.error == NoReason)
            && (result.error != NoReason ==> result.resources == [] && result.jobs == [])
            && (result.error == NoReason ==>
                  && |result.resources| == |q.changes|
                  && forall j :: 0 <= j < |q.changes| ==> Leaves(cx, q.changes[j], result.resources[j]))
            && result.memoryGeneration == if q.job.None? then 0
                else Bumps(log[..i]) + if CommittedNative(log[i]) && ChangesMemory(q.changes) then 1 else 0
  {
    hide AppendsNative, IsHistory, StateOf, Bumps, ChangesMemory, Leaves, Apply;
    HistoryPrefix(cx, log, i);
    ReceiptStep(cx, StateOf(log[..i]), log[i].v2);
    SequenceCountsRecords(cx, log[..i]);
    GenerationCountsBumps(cx, log[..i]);
    ResourcesLeft(cx, log[i].v2.request.changes);
  }
}
