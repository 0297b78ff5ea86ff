/** The read-then-commit wrappers of the background pipeline. Each reads the store under the lock,
    builds a request, and hands it to `NativeBatch` after the lock was released, so any number of other
    steps may lie between the state that was read and the state in which the request is evaluated. */
module Requests {
  import opened Types
  import opened Text
  import opened Normalization
  import opened Selection
  import opened MemoryTree
  import opened Engine
  import opened History

  function BackgroundRequest(requestId: string, op: Operation, cmd: JobCommand, intent: string,
                             changes: seq<Change>): NativeRequest
  {
    NativeRequest(requestId, Actor(Background, "", ""), op, intent, changes, Some(cmd))
  }

  const NO_COMMAND := JobCommand("", NoKind, "", 0, "", "", 0, "", 0, false)

  /** `nativeIntent` of a value with the given JSON. */
  function Intent(cx: Codec, json: string): string {
    "sha256:" + cx.hash(json)
  }

  function NativeIntent(cx: Codec, parts: seq<string>): string {
    Intent(cx, cx.listJson(parts))
  }

  function Write(k: Key, revision: nat, content: string): Change {
    Change(k, revision, content, None, false)
  }

  function Tombstone(k: Key, revision: nat): Change {
    Change(k, revision, "", None, true)
  }

  // ----- MemoryStage1Commit -----

  /** The request that `MemoryStage1Commit` builds from the state it reads. */
  function Stage1CommitRequest(cx: Codec, s: State, requestId: string, id: string, token: string, raw: string,
                               summary: string): Result<NativeRequest>
  {
    var noOutput := raw == "" && summary == "";
    var rawRevision, summaryRevision := Current(s.native, RawKey(id)).revision,
        Current(s.native, SummaryKey(id)).revision;
    var cmd := NO_COMMAND.(jobId := id, leaseToken := token, noOutput := noOutput);
    var intent := NativeIntent(cx, [id, token, raw, summary]);
    if noOutput then
      if Live(s.native, RawKey(id)) != Live(s.native, SummaryKey(id)) then Err(InconsistentArtifacts)
      else Ok(BackgroundRequest(requestId, Stage1Commit, cmd, intent,
        if Live(s.native, RawKey(id)) then
            [Tombstone(RawKey(id), rawRevision), Tombstone(SummaryKey(id), summaryRevision)] else []))
    else Ok(BackgroundRequest(requestId, Stage1Commit, cmd, intent,
        [Write(RawKey(id), rawRevision, raw), Write(SummaryKey(id), summaryRevision, summary)]))
  }

  // ----- MemoryPhase2Commit -----

  /** `MemoryPhase2Commit` reads the two revisions one after the other: `s` and `t` may differ. */
  function Phase2CommitRequest(cx: Codec, s: State, t: State, requestId: string, token: string, transaction: string,
                               memory: string, summary: string): NativeRequest
  {
    BackgroundRequest(requestId, Phase2Commit, NO_COMMAND.(jobId := GLOBAL, leaseToken := token,
        transactionId := transaction),
      NativeIntent(cx, [token, transaction, memory, summary]),
      [Write(MEMORY_MD, Current(s.native, MEMORY_MD).revision, memory),
          Write(SUMMARY_MD, Current(t.native, SUMMARY_MD).revision, summary)])
  }

  // ----- memoryDeleteTransaction -----

  /** The tombstones of one maintenance transaction: every live memory resource that `doomed` selects. */
  ghost predicate IsDeletion(s: State, doomed: Key -> bool, changes: seq<Change>) {
    && DistinctKeys(changes)
    && (forall c :: c in changes ==>
        MemoryDomain(c.key.domain) && Live(s.native, c.key) && doomed(c.key) &&
        c == Tombstone(c.key, Current(s.native, c.key).revision))
    && (forall k :: k in s.native && MemoryDomain(k.domain) && Live(s.native, k) && doomed(k) ==>
        k in ChangedKeys(changes))
  }

  /** Retention dooms both halves of the pruned jobs. */
  function Pruned(prune: set<string>): Key -> bool {
    k => exists id :: id in prune && (k == RawKey(id) || k == SummaryKey(id))
  }

  function Everything(): Key -> bool {
    k => true
  }

  /** The loop over the resources, in any order, and the sort that follows it. */
  method DeletionChanges(s: State, doomed: Key -> bool) returns (changes: seq<Change>)
    requires ResourcesOk(s.native)
    ensures IsDeletion(s, doomed, changes)
  {
    changes := [];
    var rest := s.native.Keys;
    while rest != {}
      invariant rest <= s.native.Keys
      invariant DistinctKeys(changes) && ChangedKeys(changes) !! rest
      invariant forall c :: c in changes ==>
          MemoryDomain(c.key.domain) && Live(s.native, c.key) && doomed(c.key) &&
          c == Tombstone(c.key, Current(s.native, c.key).revision)
      invariant forall k :: k in s.native.Keys - rest && MemoryDomain(k.domain) && Live(s.native, k) && doomed(k) ==>
          k in ChangedKeys(changes)
      decreases |rest|
    {
      var k :| k in rest;
      var r := s.native[k];
      if !r.deleted && MemoryDomain(k.domain) && doomed(k) {
        AddTombstone(changes, Tombstone(k, r.revision));
        changes := changes + [Tombstone(k, r.revision)];
      }
      rest := rest - {k};
    }
    SortedDeletion(s, doomed, changes);
    changes := Sort(changes, By(KeyText));
  }

  lemma AddTombstone(changes: seq<Change>, c: Change)
    requires DistinctKeys(changes) && c.key !in ChangedKeys(changes)
    ensures DistinctKeys(changes + [c]) && ChangedKeys(changes + [c]) == ChangedKeys(changes) + {c.key}
  {
    assert forall i :: 0 <= i < |changes| ==> changes[i].key in ChangedKeys(changes);
    assert forall d :: d in changes + [c] <==> d in changes || d == c;
  }

  lemma SortedDeletion(s: State, doomed: Key -> bool, changes: seq<Change>)
    requires ResourcesOk(s.native) && IsDeletion(s, doomed, changes)
    ensures IsDeletion(s, doomed, Sort(changes, By(KeyText)))
  {
    var sorted := Sort(changes, By(KeyText));
    forall i, j | 0 <= i < j < |changes|
      ensures KeyText(changes[i]) != KeyText(changes[j])
    {
      assert changes[i] in changes && changes[j] in changes;
      if KeyText(changes[i]) == KeyText(changes[j]) {
        NativeKeyInjective(changes[i].key, changes[j].key);
      }
    }
    ByOrders(changes, KeyText);
    SortAscending(changes, By(KeyText));
    SortPermutes(changes, By(KeyText));
    AscendingDistinct(sorted, KeyText);
    forall i, j | 0 <= i < j < |sorted|
      ensures sorted[i].key != sorted[j].key
    {
      assert KeyText(sorted[i]) != KeyText(sorted[j]);
    }
    assert ChangedKeys(sorted) == ChangedKeys(changes);
  }

  /** The request of one maintenance transaction: the tombstones and a receipt that counts them. */
  function MaintenanceRequest(cx: Codec, requestId: string, op: Operation, intent: string,
                              changes: seq<Change>): Result<NativeRequest>
  {
    if |changes| + 1 > NATIVE_TRANSACTION_CHANGES then Err(TooManyResources)
    else
      var receipt := Write(Key(Maintenance, OperationText(op) + "/" + requestId), 0, cx.countJson(|changes|));
      Ok(NativeRequest(requestId, Actor(Background, "", ""), op, intent, changes + [receipt], None))
  }

  /** `r` is what a maintenance transaction on the resources that `doomed` selects sends from state `s`. */
  ghost predicate IsTransaction(cx: Codec, s: State, requestId: string, op: Operation, intent: string,
                                doomed: Key -> bool, r: Result<NativeRequest>)
  {
    exists changes :: IsDeletion(s, doomed, changes) && r == MaintenanceRequest(cx, requestId, op, intent, changes)
  }

  method MemoryDeleteTransaction(cx: Codec, s: State, requestId: string, op: Operation, intent: string,
                                 doomed: Key -> bool)
      returns (r: Result<NativeRequest>)
    requires ResourcesOk(s.native)
    ensures IsTransaction(cx, s, requestId, op, intent, doomed, r)
  {
    var changes := DeletionChanges(s, doomed);
    var receipt := Write(Key(Maintenance, OperationText(op) + "/" + requestId), 0, cx.countJson(|changes|));
    if |changes + [receipt]| > NATIVE_TRANSACTION_CHANGES {
      r := Err(TooManyResources);
    } else {
      r := Ok(NativeRequest(requestId, Actor(Background, "", ""), op, intent, changes + [receipt], None));
    }
    assert r == MaintenanceRequest(cx, requestId, op, intent, changes);
  }

  const RETENTION := Named("memory.retention")

  /** The second half of `MemoryRetainStage1`: the jobs to prune were picked in an earlier state. */
  method RetainStage1(cx: Codec, s: State, requestId: string, intent: string, prune: set<string>)
      returns (r: Result<NativeRequest>)
    requires ResourcesOk(s.native)
    ensures r.Ok? ==> IsPublicRequest(cx, s, r.value)
    ensures IsTransaction(cx, s, requestId, RETENTION, intent, Pruned(prune), r)
  {
    hide IsDeletion, IsTransaction;
    r := MemoryDeleteTransaction(cx, s, requestId, RETENTION, intent, Pruned(prune));
    assert r.Ok? ==> IsMaintenance(cx, s, r.value);
  }

  method MemoryClearRequest(cx: Codec, s: State, requestId: string) returns (r: Result<NativeRequest>)
    requires ResourcesOk(s.native)
    ensures r.Ok? ==> IsPublicRequest(cx, s, r.value)
    ensures IsTransaction(cx, s, requestId, MemoryClear, Intent(cx, cx.textJson("clear")), Everything(), r)
  {
    hide IsDeletion, IsTransaction;
    r := MemoryDeleteTransaction(cx, s, requestId, MemoryClear, Intent(cx, cx.textJson("clear")), Everything());
    assert r.Ok? ==> IsMaintenance(cx, s, r.value);
  }

  /** A request of `MemoryRetainStage1`, for any jobs it may have picked, or of `MemoryClear`. */
  ghost predicate IsMaintenance(cx: Codec, s: State, q: NativeRequest) {
    || (exists requestId, intent, prune :: IsTransaction(cx, s, requestId, RETENTION, intent, Pruned(prune), Ok(q)))
    || (exists requestId, intent :: IsTransaction(cx, s, requestId, MemoryClear, intent, Everything(), Ok(q)))
  }

  /** Whoever dooms one half of a job's output dooms the other. */
  ghost predicate PairwiseDoomed(doomed: Key -> bool) {
    forall id :: doomed(RawKey(id)) <==> doomed(SummaryKey(id))
  }

  lemma MaintenanceDoomsPairs(prune: set<string>)
    ensures PairwiseDoomed(Pruned(prune)) && PairwiseDoomed(Everything())
  {
    forall id
      ensures Pruned(prune)(RawKey(id)) <==> Pruned(prune)(SummaryKey(id))
    {
      forall other
        ensures (RawKey(id) == RawKey(other) || SummaryKey(id) == SummaryKey(other) ==> id == other)
        ensures RawKey(id) != SummaryKey(other) && SummaryKey(id) != RawKey(other)
      {
        ArtifactKeysDistinct(id, other);
        ArtifactKeysDistinct(other, id);
      }
    }
  }

  // ----- pair liveness -----

  ghost predicate PairsLive(native: map<Key, Resource>) {
    forall id :: Live(native, RawKey(id)) <==> Live(native, SummaryKey(id))
  }

  ghost predicate LeavesStage1Alone(q: NativeRequest) {
    forall c :: c in q.changes ==> !c.key.domain.Stage1?
  }

  /** What the exported operations send, read from state `s`. Everything but the stage 1 commit and the
      two maintenance operations leaves the stage 1 domain alone. */
  ghost predicate IsPublicRequest(cx: Codec, s: State, q: NativeRequest) {
    || (exists requestId, id, token, raw, summary ::
        Stage1CommitRequest(cx, s, requestId, id, token, raw, summary) == Ok(q))
    || IsMaintenance(cx, s, q)
    || LeavesStage1Alone(q)
  }

  /** The wrappers that only send a command, and the consolidation, are public in this sense. */
  lemma CommandsArePublic(cx: Codec, read: State, requestId: string, op: Operation, cmd: JobCommand, intent: string)
    ensures IsPublicRequest(cx, read, BackgroundRequest(requestId, op, cmd, intent, []))
  {
  }

  lemma ConsolidationIsPublic(cx: Codec, read: State, s: State, t: State, requestId: string, token: string,
                              transaction: string, memory: string, summary: string)
    ensures IsPublicRequest(cx, read, Phase2CommitRequest(cx, s, t, requestId, token, transaction, memory, summary))
  {
  }

  /** A history of exported operations: each native request was built from some earlier state. */
  ghost predicate IsPublicHistory(cx: Codec, log: seq<Record>) {
    IsHistory(cx, log) && forall i :: 0 <= i < |log| && log[i].V2? ==> ComesFromCall(cx, log, i)
  }

  ghost predicate ComesFromCall(cx: Codec, log: seq<Record>, i: nat)
    requires i < |log| && log[i].V2?
  {
    exists m: nat, q :: m <= i && IsPublicRequest(cx, StateOf(log[..m]), q) && Normalize(cx, q) == Ok(log[i].v2.request)
  }

  ghost predicate Touches(changes: seq<Change>, k: Key, deleted: bool) {
    exists c :: c in changes && c.key == k && c.deleted == deleted
  }

  lemma HashedTouches(cx: Codec, cs: seq<Change>, k: Key, deleted: bool)
    ensures Touches(HashChanges(cx, cs), k, deleted) <==> Touches(cs, k, deleted)
  {
    var hashed := HashChanges(cx, cs);
    if Touches(cs, k, deleted) {
      var i :| 0 <= i < |cs| && cs[i].key == k && cs[i].deleted == deleted;
      assert hashed[i] in hashed && hashed[i].key == k && hashed[i].deleted == deleted;
    }
    if Touches(hashed, k, deleted) {
      var i :| 0 <= i < |hashed| && hashed[i].key == k && hashed[i].deleted == deleted;
      assert cs[i] in cs && cs[i].key == k && cs[i].deleted == deleted;
    }
  }

  /** The changes of the normal form touch the same resources in the same way. */
  lemma NormalTouches(cx: Codec, q: NativeRequest, k: Key, deleted: bool)
    requires Normalize(cx, q).Ok?
    ensures Touches(Normalize(cx, q).value.changes, k, deleted) <==> Touches(q.changes, k, deleted)
  {
    hide WellFormed, Sort, HashChanges;
    HashedTouches(cx, q.changes, k, deleted);
    SortPermutes(HashChanges(cx, q.changes), By(KeyText));
  }

  lemma PublicIsPaired(cx: Codec, s: State, q: NativeRequest, id: string, deleted: bool)
    requires IsPublicRequest(cx, s, q) && PairsLive(s.native)
    ensures Touches(q.changes, RawKey(id), deleted) <==> Touches(q.changes, SummaryKey(id), deleted)
  {
    hide IsTransaction, PairsLive, Touches, Stage1CommitRequest, Pruned, Everything;
    if LeavesStage1Alone(q) {
      AloneIsPaired(q, id, deleted);
    } else if IsMaintenance(cx, s, q) {
      if requestId, intent, prune :| IsTransaction(cx, s, requestId, RETENTION, intent, Pruned(prune), Ok(q)) {
        MaintenanceDoomsPairs(prune);
        TransactionIsPaired(cx, s, requestId, RETENTION, intent, Pruned(prune), q, id, deleted);
      } else {
        var requestId, intent :| IsTransaction(cx, s, requestId, MemoryClear, intent, Everything(), Ok(q));
        MaintenanceDoomsPairs({});
        TransactionIsPaired(cx, s, requestId, MemoryClear, intent, Everything(), q, id, deleted);
      }
    } else {
      var requestId, other, token, raw, summary :| Stage1CommitRequest(cx, s, requestId, other, token, raw,
          summary) == Ok(q);
      Stage1CommitIsPaired(cx, s, requestId, other, token, raw, summary, id, deleted);
    }
  }

  lemma TransactionIsPaired(cx: Codec, s: State, requestId: string, op: Operation, intent: string,
                            doomed: Key -> bool, q: NativeRequest, id: string, deleted: bool)
    requires IsTransaction(cx, s, requestId, op, intent, doomed, Ok(q)) && PairwiseDoomed(doomed) && PairsLive(s.native)
    ensures Touches(q.changes, RawKey(id), deleted) <==> Touches(q.changes, SummaryKey(id), deleted)
  {
    hide IsDeletion, PairwiseDoomed, PairsLive, Touches, OperationText;
    var changes :| IsDeletion(s, doomed, changes) && Ok(q) == MaintenanceRequest(cx, requestId, op, intent, changes);
    MaintenanceIsPaired(s, doomed, changes, q.changes[|changes|], id, deleted);
    assert q.changes == changes + [q.changes[|changes|]];
  }

  lemma AloneIsPaired(q: NativeRequest, id: string, deleted: bool)
    requires LeavesStage1Alone(q)
    ensures !Touches(q.changes, RawKey(id), deleted) && !Touches(q.changes, SummaryKey(id), deleted)
  {
  }

  lemma MaintenanceIsPaired(s: State, doomed: Key -> bool, changes: seq<Change>, receipt: Change, id: string,
                            deleted: bool)
    requires IsDeletion(s, doomed, changes) && PairwiseDoomed(doomed) && PairsLive(s.native) &&
        receipt.key.domain.Maintenance?
    ensures Touches(changes + [receipt], RawKey(id), deleted) <==> Touches(changes + [receipt], SummaryKey(id), deleted)
  {
    hide IsDeletion, PairwiseDoomed, PairsLive, Touches;
    DeletionIsPaired(s, doomed, changes, id);
    TouchesDeleted(changes, receipt, RawKey(id), deleted);
    TouchesDeleted(changes, receipt, SummaryKey(id), deleted);
  }

  lemma TouchesDeleted(changes: seq<Change>, receipt: Change, k: Key, deleted: bool)
    requires receipt.key != k && forall c :: c in changes ==> c.deleted
    ensures Touches(changes + [receipt], k, deleted) <==> deleted && k in ChangedKeys(changes)
  {
    assert forall c :: c in changes + [receipt] <==> c in changes || c == receipt;
  }

  lemma DeletionIsPaired(s: State, doomed: Key -> bool, changes: seq<Change>, id: string)
    requires IsDeletion(s, doomed, changes) && PairwiseDoomed(doomed) && PairsLive(s.native)
    ensures RawKey(id) in ChangedKeys(changes) <==> SummaryKey(id) in ChangedKeys(changes)
    ensures forall c :: c in changes ==> c.deleted
  {
  }

  lemma Stage1CommitIsPaired(cx: Codec, s: State, requestId: string, other: string, token: string, raw: string,
                             summary: string, id: string, deleted: bool)
    requires Stage1CommitRequest(cx, s, requestId, other, token, raw, summary).Ok?
    ensures var q := Stage1CommitRequest(cx, s, requestId, other, token, raw, summary).value;
            Touches(q.changes, RawKey(id), deleted) <==> Touches(q.changes, SummaryKey(id), deleted)
  {
    ArtifactKeysDistinct(id, other);
    ArtifactKeysDistinct(other, id);
    var q := Stage1CommitRequest(cx, s, requestId, other, token, raw, summary).value;
    if |q.changes| == 2 {
      assert q.changes[0] in q.changes && q.changes[1] in q.changes;
    }
  }

  /** How a committed step changes whether a resource is live. */
  lemma LivenessStep(cx: Codec, s: State, r: NativeRecord, k: Key)
    requires AppendsNative(cx, s, r) && r.result.error == NoReason
    ensures Live(ApplyNative(s, r).native, k) ==
            if Touches(r.request.changes, k, true) then false
            else if Touches(r.request.changes, k, false) then true
            else Live(s.native, k)
    ensures !(Touches(r.request.changes, k, true) && Touches(r.request.changes, k, false))
  {
    hide AppendsNative, ApplyNative, Publish, ResourcesOf;
    NativeAfter(cx, s, r);
    PublishedAt(cx, s.native, r.request.changes);
    DistinctTouch(r.request.changes, k);
    if k !in ChangedKeys(r.request.changes) {
      assert k in Publish(s.native, ResourcesOf(cx, r.request.changes)) <==> k in s.native;
    } else {
      var c :| c in r.request.changes && c.key == k;
    }
  }

  lemma DistinctTouch(changes: seq<Change>, k: Key)
    requires DistinctKeys(changes)
    ensures !(Touches(changes, k, true) && Touches(changes, k, false))
    ensures forall c, d :: c in changes && d in changes && c.key == k && d.key == k ==> c == d
  {
    forall c, d | c in changes && d in changes && c.key == k && d.key == k
      ensures c == d
    {
      var i :| 0 <= i < |changes| && changes[i] == c;
      var j :| 0 <= j < |changes| && changes[j] == d;
    }
  }

  lemma PairStep(cx: Codec, s: State, read: State, r: NativeRecord, q: NativeRequest)
    requires AppendsNative(cx, s, r) && PairsLive(s.native) && PairsLive(read.native)
    requires IsPublicRequest(cx, read, q) && Normalize(cx, q) == Ok(r.request)
    ensures PairsLive(ApplyNative(s, r).native)
  {
    hide AppendsNative, ApplyNative, Live, Normalize, IsPublicRequest;
    if r.result.error != NoReason {
      RejectedStepNative(cx, s, r);
    } else {
      forall id
        ensures Live(ApplyNative(s, r).native, RawKey(id)) <==> Live(ApplyNative(s, r).native, SummaryKey(id))
      {
        LivenessStep(cx, s, r, RawKey(id));
        LivenessStep(cx, s, r, SummaryKey(id));
        forall deleted
          ensures Touches(r.request.changes, RawKey(id), deleted) <==>
              Touches(r.request.changes, SummaryKey(id), deleted)
        {
          PublicIsPaired(cx, read, q, id, deleted);
          NormalTouches(cx, q, RawKey(id), deleted);
          NormalTouches(cx, q, SummaryKey(id), deleted);
        }
      }
    }
  }

  lemma RejectedStepNative(cx: Codec, s: State, r: NativeRecord)
    requires AppendsNative(cx, s, r) && r.result.error != NoReason
    ensures ApplyNative(s, r).native == s.native
  {
    hide AppendsNative;
    RejectedStep(cx, s, r);
  }

  /** Over every interleaving of the exported operations the two halves of a job's output are both live or
      both not, at every point of the run. */
  lemma {:induction false} PairLiveness(cx: Codec, log: seq<Record>, n: nat)
    requires IsPublicHistory(cx, log) && n <= |log|
    ensures PairsLive(StateOf(log[..n]).native)
  {
    hide Appends, Apply, IsPublicRequest, Normalize, PairsLive;
    if n == 0 {
      NoPairs();
    } else {
      HistoryPrefix(cx, log, n - 1);
      PairLiveness(cx, log, n - 1);
      if log[n - 1].V2? {
        assert ComesFromCall(cx, log, n - 1);
        var m: nat, q :| m <= n - 1 && IsPublicRequest(cx, StateOf(log[..m]), q) &&
            Normalize(cx, q) == Ok(log[n - 1].v2.request);
        PairLiveness(cx, log, m);
        PairStepAny(cx, StateOf(log[..n - 1]), StateOf(log[..m]), log[n - 1], q);
      } else {
        ObjectKeepsNative(cx, StateOf(log[..n - 1]), log[n - 1]);
      }
    }
  }

  lemma NoPairs()
    ensures PairsLive(EMPTY.native)
  {
  }

  lemma PairStepAny(cx: Codec, s: State, read: State, r: Record, q: NativeRequest)
    requires Appends(cx, s, r) && r.V2? && PairsLive(s.native) && PairsLive(read.native)
    requires IsPublicRequest(cx, read, q) && Normalize(cx, q) == Ok(r.v2.request)
    ensures PairsLive(Apply(s, r).native)
  {
    hide AppendsNative, ApplyNative, IsPublicRequest, Normalize, PairsLive;
    PairStep(cx, s, read, r.v2, q);
  }

  lemma ObjectKeepsNative(cx: Codec, s: State, r: Record)
    requires r.V1?
    ensures Apply(s, r).native == s.native
  {
  }

  /** So the stage 1 commit never finds inconsistent artifacts. */
  lemma ArtifactsNeverInconsistent(cx: Codec, log: seq<Record>, n: nat, requestId: string, id: string, token: string,
                                   raw: string, summary: string)
    requires IsPublicHistory(cx, log) && n <= |log|
    ensures Stage1CommitRequest(cx, StateOf(log[..n]), requestId, id, token, raw, summary).Ok?
  {
    hide IsPublicHistory, StateOf;
    PairLiveness(cx, log, n);
  }
}
