/** What a committed request does to the resources, in terms of the request that the caller built rather than
    of its normal form: the output of a job, a consolidation, a deletion. */
module Publishing {
  import opened Types
  import opened Text
  import opened Normalization
  import opened Selection
  import opened MemoryTree
  import opened Engine
  import opened History
  import opened Requests

  /** `after` is `native` with the hashed changes published. */
  ghost predicate Published(cx: Codec, native: map<Key, Resource>, changes: seq<Change>, after: map<Key, Resource>) {
    && after.Keys == native.Keys + ChangedKeys(changes)
    && (forall k :: k in native && k !in ChangedKeys(changes) ==> after[k] == native[k])
    && (forall c :: c in changes ==>
        c.key in after && after[c.key] == ResourceOf(cx, HashChange(cx, c)) && ChangeOk(cx, c))
  }

  lemma NormalFormPublishes(cx: Codec, native: map<Key, Resource>, q: NativeRequest)
    requires Normalize(cx, q).Ok?
    ensures Published(cx, native, q.changes, Publish(native, ResourcesOf(cx, NormalForm(cx, q).changes)))
  {
    hide Publish, ResourcesOf, ResourceOf, Sort, SortedFiles, ChangeOk, HashChange, NormalForm;
    var normal := NormalForm(cx, q).changes;
    NormalizeCanonical(cx, q);
    CanonicalKeys(cx, NormalForm(cx, q));
    PublishedAt(cx, native, normal);
    NormalChanges(cx, q);
    HashedKeys(cx);
    NormalFormChangesOk(cx, q);
    assert ChangedKeys(normal) == ChangedKeys(q.changes);
  }

  lemma HashedKeys(cx: Codec)
    ensures forall c :: HashChange(cx, c).key == c.key
  {
  }

  lemma NormalFormChangesOk(cx: Codec, q: NativeRequest)
    requires Normalize(cx, q).Ok?
    ensures Normalize(cx, q).value == NormalForm(cx, q) && forall c :: c in q.changes ==> ChangeOk(cx, c)
  {
  }

  /** A committed request publishes the hashed form of its changes, and nothing else. */
  lemma RequestPublishes(cx: Codec, s: State, q: NativeRequest, r: NativeRecord)
    requires AppendsNative(cx, s, r) && r.result.error == NoReason && Normalize(cx, q) == Ok(r.request)
    ensures Published(cx, s.native, q.changes, ApplyNative(s, r).native)
  {
    hide AppendsNative, ApplyNative, WellFormed, NormalForm, Published;
    NativeAfter(cx, s, r);
    NormalFormPublishes(cx, s.native, q);
    NormalFormChangesOk(cx, q);
  }

  lemma StoredPlain(cx: Codec, c: Change)
    requires c.package.None?
    ensures ResourceOf(cx, HashChange(cx, c)) == Resource(c.key, c.expectedRevision + 1, c.content,
        cx.hash(c.content), None, c.deleted)
  {
  }

  /** A plain write or tombstone takes effect as it is written. */
  lemma PlainTakesEffect(cx: Codec, native: map<Key, Resource>, changes: seq<Change>, after: map<Key, Resource>,
                         c: Change)
    requires Published(cx, native, changes, after) && c in changes && c.package.None?
    ensures c.key in after && after[c.key].content == c.content && after[c.key].deleted == c.deleted
    ensures after[c.key].revision == c.expectedRevision + 1
    ensures Live(after, c.key) <==> !c.deleted
  {
    hide ChangeOk;
    StoredPlain(cx, c);
  }

  /** `after` differs from `before` only in the resources `keys`. */
  ghost predicate OnlyChanges(before: map<Key, Resource>, after: map<Key, Resource>, keys: set<Key>) {
    && before.Keys <= after.Keys <= before.Keys + keys
    && forall k :: k in before && k !in keys ==> after[k] == before[k]
  }

  ghost predicate HoldsText(native: map<Key, Resource>, k: Key, content: string) {
    Live(native, k) && k in native && native[k].content == content
  }

  /** A committed `MemoryStage1Commit` leaves the two texts it was given as the two halves of the job's output,
      and one without texts leaves no half of the output that it saw. */
  lemma OutputIsPublished(cx: Codec, s: State, read: State, r: NativeRecord, requestId: string, id: string,
                          token: string, raw: string, summary: string)
    requires AppendsNative(cx, s, r) && r.result.error == NoReason
    requires Stage1CommitRequest(cx, read, requestId, id, token, raw, summary).Ok?
    requires Normalize(cx, Stage1CommitRequest(cx, read, requestId, id, token, raw, summary).value) == Ok(r.request)
    ensures var after := ApplyNative(s, r).native;
            && (raw != "" || summary != "" ==>
                HoldsText(after, RawKey(id), raw) && HoldsText(after, SummaryKey(id), summary))
            && (raw == "" && summary == "" ==>
                && (Live(read.native, RawKey(id)) ==> !Live(after, RawKey(id)))
                && (Live(read.native, SummaryKey(id)) ==> !Live(after, SummaryKey(id))))
            && OnlyChanges(s.native, after, {RawKey(id), SummaryKey(id)})
  {
    hide AppendsNative, ApplyNative, Normalize, Published, RawKey, SummaryKey, Current, Live, NativeIntent;
    var q := Stage1CommitRequest(cx, read, requestId, id, token, raw, summary).value;
    var after := ApplyNative(s, r).native;
    RequestPublishes(cx, s, q, r);
    LiveIff(after);
    forall c | c in q.changes
      ensures c.key in after && after[c.key].content == c.content && (Live(after, c.key) <==> !c.deleted)
    {
      PlainTakesEffect(cx, s.native, q.changes, after, c);
    }
    if |q.changes| == 2 {
      assert q.changes[0] in q.changes && q.changes[1] in q.changes;
    }
    PublishedOnly(cx, s.native, q.changes, after, {RawKey(id), SummaryKey(id)});
  }

  lemma LiveIff(native: map<Key, Resource>)
    ensures forall k :: Live(native, k) ==> k in native
  {
  }

  lemma PublishedOnly(cx: Codec, native: map<Key, Resource>, changes: seq<Change>, after: map<Key, Resource>,
                      keys: set<Key>)
    requires Published(cx, native, changes, after) && forall c :: c in changes ==> c.key in keys
    ensures OnlyChanges(native, after, keys)
  {
    hide ChangeOk, ResourceOf, HashChange;
    assert ChangedKeys(changes) <= keys;
  }

  /** A committed `MemoryPhase2Commit` leaves the two texts it was given as the two artifacts. */
  lemma ConsolidationIsPublished(cx: Codec, s: State, read: State, again: State, r: NativeRecord, requestId: string,
                                 token: string, transaction: string, memory: string, summary: string)
    requires AppendsNative(cx, s, r) && r.result.error == NoReason
    requires Normalize(cx, Phase2CommitRequest(cx, read, again, requestId, token, transaction, memory, summary))
        == Ok(r.request)
    ensures var after := ApplyNative(s, r).native;
            && HoldsText(after, MEMORY_MD, memory) && HoldsText(after, SUMMARY_MD, summary)
            && OnlyChanges(s.native, after, {MEMORY_MD, SUMMARY_MD})
  {
    hide AppendsNative, ApplyNative, Normalize, Published, Current, Live, NativeIntent;
    var q := Phase2CommitRequest(cx, read, again, requestId, token, transaction, memory, summary);
    var after := ApplyNative(s, r).native;
    RequestPublishes(cx, s, q, r);
    assert q.changes[0] in q.changes && q.changes[1] in q.changes;
    PlainTakesEffect(cx, s.native, q.changes, after, q.changes[0]);
    PlainTakesEffect(cx, s.native, q.changes, after, q.changes[1]);
    PublishedOnly(cx, s.native, q.changes, after, {MEMORY_MD, SUMMARY_MD});
  }

  // ----- maintenance -----

  /** The live memory resources that a maintenance operation selects. */
  ghost function Doomed(native: map<Key, Resource>, doomed: Key -> bool): set<Key> {
    set k | k in native && k.domain in {Note, Stage1, Artifact, Extension} && native[k].revision > 0 &&
        !native[k].deleted && doomed(k)
  }

  lemma LastKey(front: seq<Change>, c: Change)
    requires DistinctKeys(front + [c])
    ensures DistinctKeys(front) && c.key !in ChangedKeys(front)
    ensures ChangedKeys(front + [c]) == ChangedKeys(front) + {c.key}
  {
    var changes := front + [c];
    assert forall i :: 0 <= i < |front| ==> changes[i] == front[i];
    assert changes[|front|] == c;
    assert forall d :: d in changes <==> d in front || d == c;
    forall d | d in front
      ensures d.key != c.key
    {
      var i :| 0 <= i < |front| && front[i] == d;
    }
  }

  lemma {:induction false} KeyCount(changes: seq<Change>)
    requires DistinctKeys(changes)
    ensures |ChangedKeys(changes)| == |changes|
  {
    hide DistinctKeys;
    if changes != [] {
      var front, c := changes[..|changes| - 1], changes[|changes| - 1];
      assert changes == front + [c];
      LastKey(front, c);
      KeyCount(front);
    }
  }

  /** A maintenance transaction is refused exactly when it would need more than the allowed number of changes;
      otherwise it holds one tombstone for each selected resource and a receipt that counts them. */
  lemma TransactionHolds(cx: Codec, s: State, requestId: string, op: Operation, intent: string, doomed: Key -> bool,
                         r: Result<NativeRequest>)
    requires IsTransaction(cx, s, requestId, op, intent, doomed, r)
    ensures |Doomed(s.native, doomed)| >= 1024 <==> r == Err(TooManyResources)
    ensures r.Err? ==> r == Err(TooManyResources)
    ensures r.Ok? ==>
              && r.value.requestId == requestId && r.value.operation == op && r.value.job.None?
              && |r.value.changes| == |Doomed(s.native, doomed)| + 1
              && r.value.changes[|Doomed(s.native, doomed)|] == Change(Key(Maintenance, OperationText(op) + "/" +
                  requestId), 0, cx.countJson(|Doomed(s.native, doomed)|), None, false)
              && ChangedKeys(r.value.changes[..|Doomed(s.native, doomed)|]) == Doomed(s.native, doomed)
              && forall c :: c in r.value.changes[..|Doomed(s.native, doomed)|] ==>
                  c.key in s.native && c == Change(c.key, s.native[c.key].revision, "", None, true)
  {
    hide OperationText, Intent;
    var changes :| IsDeletion(s, doomed, changes) && r == MaintenanceRequest(cx, requestId, op, intent, changes);
    KeyCount(changes);
    assert ChangedKeys(changes) == Doomed(s.native, doomed);
    if r.Ok? {
      assert r.value.changes[..|changes|] == changes;
    }
  }

  /** A committed retention or clear leaves a tombstone of every resource it had selected when it read the
      store, and touches nothing else but its receipt. */
  lemma DeletionTakesEffect(cx: Codec, s: State, read: State, r: NativeRecord, requestId: string, op: Operation,
                            intent: string, doomed: Key -> bool, q: NativeRequest)
    requires AppendsNative(cx, s, r) && r.result.error == NoReason && Normalize(cx, q) == Ok(r.request)
    requires IsTransaction(cx, read, requestId, op, intent, doomed, Ok(q))
    ensures var after := ApplyNative(s, r).native; var receipt := Key(Maintenance, OperationText(op) + "/" + requestId);
            && (forall k :: k in Doomed(read.native, doomed) ==> k in after && after[k].deleted)
            && OnlyChanges(s.native, after, Doomed(read.native, doomed) + {receipt})
            && HoldsText(after, receipt, cx.countJson(|Doomed(read.native, doomed)|))
  {
    hide AppendsNative, ApplyNative, Normalize, Published, IsTransaction, OperationText, Doomed, Live;
    TransactionHolds(cx, read, requestId, op, intent, doomed, Ok(q));
    var keys := Doomed(read.native, doomed);
    var after := ApplyNative(s, r).native;
    var receipt := q.changes[|keys|];
    RequestPublishes(cx, s, q, r);
    assert receipt in q.changes;
    PlainTakesEffect(cx, s.native, q.changes, after, receipt);
    LiveIff(after);
    assert q.changes == q.changes[..|keys|] + [receipt];
    forall c | c in q.changes[..|keys|]
      ensures c in q.changes && c.key in keys && c.key in after && after[c.key].deleted
    {
      assert c.key in ChangedKeys(q.changes[..|keys|]);
      PlainTakesEffect(cx, s.native, q.changes, after, c);
    }
    PublishedOnly(cx, s.native, q.changes, after, keys + {receipt.key});
  }

  /** A clear selects every live memory resource. */
  lemma ClearSelectsAll(native: map<Key, Resource>)
    ensures Doomed(native, Everything()) == set k | k in native && MemoryDomain(k.domain) && Live(native, k)
  {
  }

  /** Retention selects what is left of the output of the picked jobs. */
  lemma RetentionSelectsPairs(native: map<Key, Resource>, prune: set<string>)
    ensures Doomed(native, Pruned(prune)) ==
        set k | k in native && Live(native, k) && k in ArtifactKeys(prune)
  {
    forall k
      ensures Pruned(prune)(k) <==> k in ArtifactKeys(prune)
      ensures k in ArtifactKeys(prune) ==> k.domain.Stage1?
    {
    }
  }
}
