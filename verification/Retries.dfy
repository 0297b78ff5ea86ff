/** Retrying through the wrappers. A retry reads a later state and so builds a different request; the
    recorded receipt must be returned all the same, and only for the same arguments. */
module Retries {
  import opened Types
  import opened Text
  import opened Normalization
  import opened Selection
  import opened Engine
  import opened History
  import opened Counting
  import opened Requests

  // ----- laws of the encoding -----

  ghost predicate Injective<A(!new), B(!new)>(f: A -> B) {
    forall x, y :: f(x) == f(y) ==> x == y
  }

  /** No two normalized requests have the same digest. */
  ghost predicate DigestInjective(cx: Codec) {
    forall p, q :: Canonical(cx, p) && Canonical(cx, q) && cx.digest(p) == cx.digest(q) ==> p == q
  }

  predicate Small(q: NativeRequest) {
    && |q.changes| <= 2 && |q.intent| <= 128 && (q.job.Some? ==> q.job.value.inputWatermark == 0)
    && forall c :: c in q.changes ==>
         c.package.None? && ValidDomain(c.key.domain) && |c.key.name| <= 1024
         && |c.content| <= NATIVE_RESOURCE_BYTES && c.expectedRevision <= MAX_REVISION
  }

  /** A request with at most two plain resources is far below the bound on an encoded request, and a
      hash is 64 digits long. */
  ghost predicate SmallRequestsFit(cx: Codec) {
    && (forall q :: HeaderOk(q) && Small(q) ==> cx.requestSize(q) <= NATIVE_TRANSACTION_BYTES)
    && (forall t :: |cx.hash(t)| == 64)
  }

  // ----- the receipt -----

  /** A normalized request with a recorded id, operation and non-empty intent is answered from the
      receipt, whatever its changes. */
  lemma SameIntentReplays(cx: Codec, log: seq<Record>, i: nat, q: NativeRequest, now: int, rnd: Entropy)
    requires IsHistory(cx, log) && i < |log| && log[i].V2? && WellFormed(cx, q)
    requires q.requestId == log[i].v2.request.requestId && q.operation == log[i].v2.request.operation
    requires q.intent == log[i].v2.request.intent != ""
    ensures BatchOutcome(cx, StateOf(log), q, now, rnd) == Replayed(JsonResult(log[i].v2.result))
  {
    hide EvaluateNative, WellFormed, IsHistory, StateOf, SortedChanges;
    RecordsAreRemembered(cx, log, i);
    HistoryOk(cx, log);
  }

  /** A request with a recorded id and another intent is refused. */
  lemma OtherIntentRefused(cx: Codec, log: seq<Record>, i: nat, q: NativeRequest, now: int, rnd: Entropy)
    requires IsHistory(cx, log) && i < |log| && log[i].V2? && DigestInjective(cx)
    requires q.requestId == log[i].v2.request.requestId && q.intent != log[i].v2.request.intent
    ensures BatchOutcome(cx, StateOf(log), q, now, rnd).Refused?
  {
    hide EvaluateNative, WellFormed, IsHistory, StateOf, SortedChanges, DigestInjective, Canonical;
    RecordsAreRemembered(cx, log, i);
    HistoryOk(cx, log);
    DigestIsRecorded(cx, log, i);
    if Normalize(cx, q).Ok? {
      NormalizeCanonical(cx, q);
      DigestsDiffer(cx, NormalForm(cx, q), log[i].v2.request);
    }
  }

  lemma DigestIsRecorded(cx: Codec, log: seq<Record>, i: nat)
    requires IsHistory(cx, log) && i < |log| && log[i].V2?
    ensures log[i].v2.digest == cx.digest(log[i].v2.request) && Canonical(cx, log[i].v2.request)
  {
    hide EvaluateNative, Canonical, Evaluate, Apply;
    HistoryPrefix(cx, log, i);
  }

  lemma DigestsDiffer(cx: Codec, p: NativeRequest, q: NativeRequest)
    requires DigestInjective(cx) && Canonical(cx, p) && Canonical(cx, q) && p != q
    ensures cx.digest(p) != cx.digest(q)
  {
    hide Canonical;
  }

  lemma IntentsDiffer(cx: Codec, x: string, y: string)
    requires Injective(cx.hash)
    ensures Intent(cx, x) == Intent(cx, y) ==> x == y
  {
    if Intent(cx, x) == Intent(cx, y) {
      assert Intent(cx, x)[7..] == cx.hash(x) && Intent(cx, y)[7..] == cx.hash(y);
    }
  }

  lemma ListIntentsDiffer(cx: Codec, xs: seq<string>, ys: seq<string>)
    requires Injective(cx.hash) && Injective(cx.listJson)
    ensures NativeIntent(cx, xs) == NativeIntent(cx, ys) ==> xs == ys
  {
    IntentsDiffer(cx, cx.listJson(xs), cx.listJson(ys));
  }

  function ArgumentList(args: (string, string, string, string)): seq<string> {
    [args.0, args.1, args.2, args.3]
  }

  lemma ArgumentListInjective(a: (string, string, string, string), b: (string, string, string, string))
    ensures ArgumentList(a) == ArgumentList(b) ==> a == b
  {
    if ArgumentList(a) == ArgumentList(b) {
      assert ArgumentList(a)[0] == ArgumentList(b)[0] && ArgumentList(a)[1] == ArgumentList(b)[1] &&
          ArgumentList(a)[2] == ArgumentList(b)[2] && ArgumentList(a)[3] == ArgumentList(b)[3];
    }
  }

  lemma IntentShape(cx: Codec, parts: seq<string>)
    requires SmallRequestsFit(cx)
    ensures NativeIntent(cx, parts) != "" && |NativeIntent(cx, parts)| <= 128
  {
  }

  // ----- MemoryStage1Commit -----

  lemma TwoChangesOk(cx: Codec, c: Change, d: Change)
    requires ChangeOk(cx, c) && ChangeOk(cx, d) && c.key != d.key && c.package.None? && d.package.None?
    ensures ChangesOk(cx, [c, d])
  {
    assert [c, d][1..] == [d] && [d][1..] == [];
    assert TotalBytes([d]) == |d.content| && TotalBytes([c, d]) == |c.content| + TotalBytes([d]);
  }

  lemma RevisionIrrelevant(cx: Codec, k: Key, content: string, revision: nat, other: nat)
    requires ChangeOk(cx, Write(k, revision, content))
    ensures ChangeOk(cx, Write(k, other, content))
  {
  }

  lemma PlainPairOk(cx: Codec, q: NativeRequest, c: Change, d: Change)
    requires q.changes == [c, d] && c.key != d.key && ChangeOk(cx, c) && ChangeOk(cx, d) && c.package.None? &&
        d.package.None?
    requires c.expectedRevision <= MAX_REVISION && d.expectedRevision <= MAX_REVISION
    requires |q.intent| <= 128 && q.job.Some? && q.job.value.inputWatermark == 0
    ensures ChangesOk(cx, q.changes) && Small(q)
  {
    hide ChangesOk, ChangeOk;
    ChangeIsSmall(cx, c);
    ChangeIsSmall(cx, d);
    TwoChangesOk(cx, c, d);
  }

  /** The artifact changes of a retry are well-formed if those of the first request were. */
  lemma Stage1RetryChanges(cx: Codec, t: State, id: string, raw: string, summary: string, p: seq<Change>,
                           q: seq<Change>)
    requires ResourcesOk(t.native) && ChangesOk(cx, p)
    requires |p| == |q| == 2
    requires p == [Write(RawKey(id), p[0].expectedRevision, raw), Write(SummaryKey(id), p[1].expectedRevision, summary)]
    requires q == [Write(RawKey(id), q[0].expectedRevision, raw), Write(SummaryKey(id), q[1].expectedRevision, summary)]
    ensures ChangeOk(cx, q[0]) && ChangeOk(cx, q[1])
  {
    hide ChangesOk, ChangeOk;
    FirstTwoOk(cx, p);
    RevisionIrrelevant(cx, RawKey(id), raw, p[0].expectedRevision, q[0].expectedRevision);
    RevisionIrrelevant(cx, SummaryKey(id), summary, p[1].expectedRevision, q[1].expectedRevision);
  }

  lemma LiveTombstoneOk(cx: Codec, t: State, k: Key)
    requires ResourcesOk(t.native) && Live(t.native, k)
    ensures ChangeOk(cx, Tombstone(k, Current(t.native, k).revision))
  {
  }

  /** The request of a retry is well-formed if the first one was. */
  lemma Stage1RetryWellFormed(cx: Codec, s: State, t: State, requestId: string, id: string, token: string,
                              raw: string, summary: string)
    requires SmallRequestsFit(cx) && ResourcesOk(t.native)
    requires Stage1CommitRequest(cx, s, requestId, id, token, raw, summary).Ok?
    requires WellFormed(cx, Stage1CommitRequest(cx, s, requestId, id, token, raw, summary).value)
    requires Stage1CommitRequest(cx, t, requestId, id, token, raw, summary).Ok?
    ensures WellFormed(cx, Stage1CommitRequest(cx, t, requestId, id, token, raw, summary).value)
  {
    var p := Stage1CommitRequest(cx, s, requestId, id, token, raw, summary).value;
    var q := Stage1CommitRequest(cx, t, requestId, id, token, raw, summary).value;
    hide SmallRequestsFit, ChangesOk, ChangeOk, HeaderOk, Live, ResourcesOk, NativeIntent, RawKey, SummaryKey, Small;
    HeaderSurvives(p, q);
    IntentShape(cx, [id, token, raw, summary]);
    if q.changes != [] {
      ArtifactKeysDistinct(id, id);
      RevisionsBounded(t);
      if raw != "" || summary != "" {
        Stage1RetryChanges(cx, t, id, raw, summary, p.changes, q.changes);
      } else {
        LiveTombstoneOk(cx, t, RawKey(id));
        LiveTombstoneOk(cx, t, SummaryKey(id));
      }
      PlainPairOk(cx, q, q.changes[0], q.changes[1]);
    } else {
      NothingOk(cx, q);
    }
    FitsIfSmall(cx, q, [id, token, raw, summary]);
  }

  lemma HeaderSurvives(p: NativeRequest, q: NativeRequest)
    requires HeaderOk(p) && q == p.(changes := q.changes) && |q.changes| <= 2 && p.job.Some?
    ensures HeaderOk(q)
  {
  }

  lemma RevisionsBounded(t: State)
    requires ResourcesOk(t.native)
    ensures forall k :: Current(t.native, k).revision <= MAX_REVISION
  {
  }

  lemma ChangeIsSmall(cx: Codec, c: Change)
    requires ChangeOk(cx, c)
    ensures ValidDomain(c.key.domain) && |c.key.name| <= 1024 && |c.content| <= NATIVE_RESOURCE_BYTES
  {
  }

  lemma NothingOk(cx: Codec, q: NativeRequest)
    requires q.changes == [] && |q.intent| <= 128 && q.job.Some? && q.job.value.inputWatermark == 0
    ensures ChangesOk(cx, q.changes) && Small(q)
  {
  }

  lemma FirstTwoOk(cx: Codec, cs: seq<Change>)
    requires ChangesOk(cx, cs) && |cs| == 2
    ensures ChangeOk(cx, cs[0]) && ChangeOk(cx, cs[1])
  {
    assert cs[0] in cs && cs[1] in cs;
  }

  lemma FitsIfSmall(cx: Codec, q: NativeRequest, parts: seq<string>)
    requires SmallRequestsFit(cx) && HeaderOk(q) && q.intent == NativeIntent(cx, parts)
    requires |q.intent| <= 128 ==> Small(q)
    ensures cx.requestSize(q) <= NATIVE_TRANSACTION_BYTES
  {
    IntentShape(cx, parts);
  }

  /** Once a stage 1 commit has a receipt, the same call returns it and appends nothing, whatever state
      `StateOf(log[..n])` the retry reads and however the artifacts have moved since. */
  lemma Stage1CommitRetry(cx: Codec, log: seq<Record>, m: nat, i: nat, n: nat,
                          requestId: string, id: string, token: string, raw: string, summary: string, now: int,
                              rnd: Entropy)
    requires IsPublicHistory(cx, log) && SmallRequestsFit(cx)
    requires m <= i < |log| && n <= |log| && log[i].V2?
    requires Stage1CommitRequest(cx, StateOf(log[..m]), requestId, id, token, raw, summary).Ok?
    requires Normalize(cx, Stage1CommitRequest(cx, StateOf(log[..m]), requestId, id, token, raw, summary).value) ==
        Ok(log[i].v2.request)
    ensures Stage1CommitRequest(cx, StateOf(log[..n]), requestId, id, token, raw, summary).Ok?
    ensures BatchOutcome(cx, StateOf(log), Stage1CommitRequest(cx, StateOf(log[..n]), requestId, id, token, raw,
        summary).value, now, rnd)
            == Replayed(JsonResult(log[i].v2.result))
  {
    hide StateOf, BatchOutcome, ComesFromCall, SortedChanges, SmallRequestsFit, WellFormed, IsHistory;
    ArtifactsNeverInconsistent(cx, log, n, requestId, id, token, raw, summary);
    HistoryPrefix(cx, log, n);
    HistoryOk(cx, log[..n]);
    Stage1RetryWellFormed(cx, StateOf(log[..m]), StateOf(log[..n]), requestId, id, token, raw, summary);
    IntentShape(cx, [id, token, raw, summary]);
    SameIntentReplays(cx, log, i, Stage1CommitRequest(cx, StateOf(log[..n]), requestId, id, token, raw,
        summary).value, now, rnd);
  }

  /** The same request id with any other argument is refused. */
  lemma Stage1CommitOtherArguments(cx: Codec, log: seq<Record>, i: nat, s: State, t: State, requestId: string,
                                   args: (string, string, string, string), others: (string, string, string, string),
                                       now: int, rnd: Entropy)
    requires IsHistory(cx, log) && i < |log| && log[i].V2?
    requires DigestInjective(cx) && Injective(cx.hash) && Injective(cx.listJson) && args != others
    requires Stage1CommitRequest(cx, s, requestId, args.0, args.1, args.2, args.3).Ok?
    requires Normalize(cx, Stage1CommitRequest(cx, s, requestId, args.0, args.1, args.2, args.3).value) ==
        Ok(log[i].v2.request)
    requires Stage1CommitRequest(cx, t, requestId, others.0, others.1, others.2, others.3).Ok?
    ensures BatchOutcome(cx, StateOf(log), Stage1CommitRequest(cx, t, requestId, others.0, others.1, others.2,
        others.3).value, now, rnd).Refused?
  {
    hide StateOf, BatchOutcome, SortedChanges, WellFormed, IsHistory, Injective, DigestInjective, NativeIntent;
    ArgumentListInjective(args, others);
    ListIntentsDiffer(cx, ArgumentList(args), ArgumentList(others));
    OtherIntentRefused(cx, log, i, Stage1CommitRequest(cx, t, requestId, others.0, others.1, others.2,
        others.3).value, now, rnd);
  }

  // ----- MemoryPhase2Commit -----

  lemma Phase2RetryWellFormed(cx: Codec, s: State, s': State, t: State, t': State, requestId: string, token: string,
                              transaction: string, memory: string, summary: string)
    requires SmallRequestsFit(cx) && ResourcesOk(t.native) && ResourcesOk(t'.native)
    requires WellFormed(cx, Phase2CommitRequest(cx, s, s', requestId, token, transaction, memory, summary))
    ensures WellFormed(cx, Phase2CommitRequest(cx, t, t', requestId, token, transaction, memory, summary))
  {
    var p := Phase2CommitRequest(cx, s, s', requestId, token, transaction, memory, summary);
    var q := Phase2CommitRequest(cx, t, t', requestId, token, transaction, memory, summary);
    hide SmallRequestsFit, ChangesOk, ValidPath;
    FirstTwoOk(cx, p.changes);
    var c, d := q.changes[0], q.changes[1];
    assert ChangeOk(cx, c) && ChangeOk(cx, d);
    assert MEMORY_MD.name[0] != SUMMARY_MD.name[0];
    TwoChangesOk(cx, c, d);
    assert q.changes == [c, d];
    assert |MEMORY_MD.name| <= 1024 && |SUMMARY_MD.name| <= 1024;
    FitsIfSmall(cx, q, [token, transaction, memory, summary]);
  }

  /** The same for a consolidation, which reads its two revisions at two different moments. */
  lemma Phase2CommitRetry(cx: Codec, log: seq<Record>, m: nat, m': nat, i: nat, n: nat, n': nat,
                          requestId: string, token: string, transaction: string, memory: string, summary: string,
                              now: int, rnd: Entropy)
    requires IsHistory(cx, log) && SmallRequestsFit(cx)
    requires m <= m' <= i < |log| && n <= n' <= |log| && log[i].V2?
    requires Normalize(cx, Phase2CommitRequest(cx, StateOf(log[..m]), StateOf(log[..m']), requestId, token,
        transaction, memory, summary)) == Ok(log[i].v2.request)
    ensures BatchOutcome(cx, StateOf(log), Phase2CommitRequest(cx, StateOf(log[..n]), StateOf(log[..n']), requestId,
        token, transaction, memory, summary), now, rnd)
            == Replayed(JsonResult(log[i].v2.result))
  {
    hide StateOf, BatchOutcome, SortedChanges, SmallRequestsFit, WellFormed, IsHistory;
    HistoryPrefix(cx, log, n);
    HistoryPrefix(cx, log, n');
    HistoryOk(cx, log[..n]);
    HistoryOk(cx, log[..n']);
    Phase2RetryWellFormed(cx, StateOf(log[..m]), StateOf(log[..m']), StateOf(log[..n]), StateOf(log[..n']), requestId,
        token, transaction, memory, summary);
    IntentShape(cx, [token, transaction, memory, summary]);
    SameIntentReplays(cx, log, i, Phase2CommitRequest(cx, StateOf(log[..n]), StateOf(log[..n']), requestId, token,
        transaction, memory, summary), now, rnd);
  }

  lemma Phase2CommitOtherArguments(cx: Codec, log: seq<Record>, i: nat, s: State, s': State, t: State, t': State,
                                   requestId: string,
                                   args: (string, string, string, string), others: (string, string, string, string),
                                       now: int, rnd: Entropy)
    requires IsHistory(cx, log) && i < |log| && log[i].V2?
    requires DigestInjective(cx) && Injective(cx.hash) && Injective(cx.listJson) && args != others
    requires Normalize(cx, Phase2CommitRequest(cx, s, s', requestId, args.0, args.1, args.2, args.3)) ==
        Ok(log[i].v2.request)
    ensures BatchOutcome(cx, StateOf(log), Phase2CommitRequest(cx, t, t', requestId, others.0, others.1, others.2,
        others.3), now, rnd).Refused?
  {
    hide StateOf, BatchOutcome, SortedChanges, WellFormed, IsHistory, Injective, DigestInjective, NativeIntent;
    ArgumentListInjective(args, others);
    ListIntentsDiffer(cx, ArgumentList(args), ArgumentList(others));
    OtherIntentRefused(cx, log, i, Phase2CommitRequest(cx, t, t', requestId, others.0, others.1, others.2, others.3),
        now, rnd);
  }
}
