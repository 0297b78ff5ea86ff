/** The store as a set of versioned registers: what a key holds is what the last accepted write put
    there, and a write is accepted exactly when its expected revision is the number of writes so far. */
module Registers {
  import opened Types
  import opened Text
  import opened Normalization
  import opened Selection
  import opened MemoryTree
  import opened Aliases
  import opened Engine
  import opened History
  import opened Counting

  // ----- the last accepted write -----

  /** A resource is what the last committed change to it published. */
  lemma {:induction false} ResourceIsLastChange(cx: Codec, log: seq<Record>, k: Key) returns (i: nat, c: Change)
    requires IsHistory(cx, log) && k in StateOf(log).native
    ensures i < |log| && CommittedNative(log[i]) && c in log[i].v2.request.changes && c.key == k
    ensures StateOf(log).native[k] == Resource(k, c.expectedRevision + 1, c.content,
        if c.package.Some? then cx.packageHash(c.package.value) else cx.hash(c.content), c.package, c.deleted)
    ensures forall j :: i < j < |log| ==> k !in KeysOf(log[j])
  {
    hide AppendsNative, AppendsObject, ApplyNative, ApplyObject;
    var front, r := log[..|log| - 1], log[|log| - 1];
    if r.V2? {
      BatchIsAtomic(cx, StateOf(front), r.v2);
    } else {
      ObjectsOnly(StateOf(front), r.v1);
    }
    if k in KeysOf(r) {
      i := |log| - 1;
      c :| c in r.v2.request.changes && c.key == k;
    } else {
      i, c := ResourceIsLastChange(cx, front, k);
      assert forall j :: 0 <= j < |front| ==> front[j] == log[j];
    }
  }

  lemma ObjectsOnly(s: State, r: ObjectRecord)
    ensures ApplyObject(s, r).native == s.native
  {
  }

  /** A version 1 object is what the last accepted mutation of it put there. */
  lemma {:induction false} ObjectIsLastMutation(cx: Codec, log: seq<Record>, k: ObjectKey) returns (i: nat)
    requires IsHistory(cx, log) && k in StateOf(log).objects
    ensures i < |log| && k in ObjectKeysOf(log[i])
    ensures StateOf(log).objects[k] == Object(k.id, log[i].v1.request.content, log[i].v1.request.expectedRevision + 1,
        log[i].v1.operation.Delete?)
    ensures forall j :: i < j < |log| ==> k !in ObjectKeysOf(log[j])
  {
    hide AppendsNative, ApplyNative, ValidMutation, Frozen;
    var front, r := log[..|log| - 1], log[|log| - 1];
    if r.V2? {
      ResourcesOnly(StateOf(front), r.v2);
    }
    if k in ObjectKeysOf(r) {
      i := |log| - 1;
    } else {
      i := ObjectIsLastMutation(cx, front, k);
      assert forall j :: 0 <= j < |front| ==> front[j] == log[j];
    }
  }

  lemma ResourcesOnly(s: State, r: NativeRecord)
    ensures ApplyNative(s, r).objects == s.objects
  {
    hide Publish, StoreJobs, PublishesMemory;
  }

  // ----- when a write is accepted -----

  predicate ObjectLive(s: State, k: ObjectKey) {
    k in s.objects && !s.objects[k].deleted
  }

  /** A journalled mutation was accepted exactly when its object was not frozen, it expected the number
      of mutations accepted so far, and a deletion found something to delete. */
  lemma MutationAcceptedIff(cx: Codec, log: seq<Record>, i: nat)
    requires IsHistory(cx, log) && i < |log| && log[i].V1?
    ensures var r := log[i].v1; var k := ObjectKey(r.collection, r.request.id); var s := StateOf(log[..i]);
            r.result.error == NoReason <==>
              && !Frozen(s.native, r.collection, r.request.id)
              && r.request.expectedRevision == ObjectChangesTo(log[..i], k) < MAX_REVISION
              && (r.operation.Delete? ==> ObjectLive(s, k))
  {
    hide AppendsNative, ApplyNative, ValidMutation, Frozen, StateOf, IsHistory, ObjectChangesTo;
    var r := log[i].v1;
    HistoryPrefix(cx, log, i);
    ObjectRevisionCountsChanges(cx, log[..i], ObjectKey(r.collection, r.request.id));
    ObjectBounded(cx, log[..i], ObjectKey(r.collection, r.request.id));
  }

  lemma {:induction false} ObjectBounded(cx: Codec, log: seq<Record>, k: ObjectKey)
    requires IsHistory(cx, log)
    ensures k in StateOf(log).objects ==> StateOf(log).objects[k].revision <= MAX_REVISION
  {
    hide AppendsNative, ApplyNative, ValidMutation, Frozen;
    if log != [] {
      var front, r := log[..|log| - 1], log[|log| - 1];
      ObjectBounded(cx, front, k);
      if r.V2? {
        ResourcesOnly(StateOf(front), r.v2);
      }
    }
  }

  ghost predicate ChangeExpects(log: seq<Record>, c: Change) {
    && c.expectedRevision == ChangesTo(log, c.key) < MAX_REVISION
    && (c.deleted ==> Live(StateOf(log).native, c.key))
  }

  /** Every change of the batch expects the number of changes committed to its resource so far, and
      every tombstone finds a live resource. */
  ghost predicate ExpectsCounts(log: seq<Record>, cs: seq<Change>) {
    forall c :: c in cs ==> ChangeExpects(log, c)
  }

  /** A journalled batch without a job command and without aliases was committed exactly when all its
      changes expected the right revisions and it left the merged tree free of collisions. */
  lemma BatchAcceptedIff(cx: Codec, log: seq<Record>, i: nat)
    requires IsHistory(cx, log) && i < |log| && log[i].V2?
    requires log[i].v2.request.job.None? && forall c :: c in log[i].v2.request.changes ==> !c.key.domain.Migration?
    ensures var q := log[i].v2.request;
            CommittedNative(log[i]) <==>
                ExpectsCounts(log[..i], q.changes) && ValidMemoryPaths(StateOf(log[..i]).native, q.changes)
  {
    hide AppendsObject, Apply, StateOf, IsHistory, ChangesTo, Canonical, ValidMemoryPaths, CasRefusalOf;
    var n, s := log[i].v2, StateOf(log[..i]);
    HistoryPrefix(cx, log, i);
    HistoryOk(cx, log[..i]);
    NoAliasRefusal(cx, s.objects, n.request, n.request.changes);
    forall c | c in n.request.changes
      ensures CasRefusalOf(s.native, c) == NoReason <==>
                c.expectedRevision == ChangesTo(log[..i], c.key) < MAX_REVISION && (c.deleted ==> Live(s.native, c.key))
    {
      RevisionCountsChanges(cx, log[..i], c.key);
      CasIff(s.native, c);
    }
  }

  lemma CasIff(native: map<Key, Resource>, c: Change)
    requires ResourcesOk(native)
    ensures CasRefusalOf(native, c) == NoReason <==>
              c.expectedRevision == Current(native, c.key).revision < MAX_REVISION &&
                  (c.deleted ==> Live(native, c.key))
  {
  }

  // ----- the tree that a batch leaves -----

  /** Resource `k` is shown as the file `p` of the merged view. */
  ghost predicate IsFileAt(k: Key, p: string) {
    p == match k.domain
         case Note => "extensions/ad_hoc/notes/" + k.name
         case Extension => "extensions/" + k.name
         case Stage1 => "rollout_summaries/" + k.name
         case _ => k.name
  }

  ghost predicate InView(native: map<Key, Resource>, k: Key) {
    k in native && !native[k].deleted && k.domain in {Note, Artifact, Extension, Stage1}
  }

  /** Two live memory resources clash: at the same path, or one below the other. */
  ghost predicate Clash(native: map<Key, Resource>, a: Key, b: Key) {
    a != b && InView(native, a) && InView(native, b)
    && exists p, q :: IsFileAt(a, p) && IsFileAt(b, q) && (q == p || exists rest :: q == p + "/" + rest)
  }

  lemma AncestorIff(p: string, q: string)
    ensures Ancestor(p, q) <==> exists rest :: q == p + "/" + rest
  {
    if Ancestor(p, q) {
      assert q == p + "/" + q[|p| + 1..];
    }
    if rest :| q == p + "/" + rest {
      assert q[..|p|] == p && q[|p|] == '/';
    }
  }

  lemma FileAt(k: Key, p: string)
    requires k.domain in {Note, Artifact, Extension, Stage1}
    ensures IsFileAt(k, p) <==> MemoryPath(k) == p
    ensures k.name != "" ==> MemoryPath(k) != ""
  {
  }

  lemma ShownIff(native: map<Key, Resource>, k: Key)
    requires k in native ==> k.name != ""
    ensures k in Shown(native) <==> InView(native, k)
  {
    if k in native && k.domain in {Note, Artifact, Extension, Stage1} {
      FileAt(k, "");
    }
  }

  lemma TreeOkIff(native: map<Key, Resource>)
    requires forall k :: k in native ==> k.name != ""
    ensures TreeOk(Shown(native)) <==> forall a, b :: !Clash(native, a, b)
  {
    hide Shown, Ancestor, MemoryPath, IsFileAt, InView;
    forall a, b
      ensures Clash(native, a, b) <==>
          a in Shown(native) && b in Shown(native) && a != b &&
              (MemoryPath(a) == MemoryPath(b) || Ancestor(MemoryPath(a), MemoryPath(b)))
    {
      ClashIff(native, a, b);
    }
  }

  lemma ClashIff(native: map<Key, Resource>, a: Key, b: Key)
    requires forall k :: k in native ==> k.name != ""
    ensures Clash(native, a, b) <==>
        a in Shown(native) && b in Shown(native) && a != b &&
            (MemoryPath(a) == MemoryPath(b) || Ancestor(MemoryPath(a), MemoryPath(b)))
  {
    hide Shown, Ancestor, MemoryPath, IsFileAt;
    ShownIff(native, a);
    ShownIff(native, b);
    if InView(native, a) && InView(native, b) {
      forall p
        ensures IsFileAt(a, p) <==> MemoryPath(a) == p
        ensures IsFileAt(b, p) <==> MemoryPath(b) == p
      {
        FileAt(a, p);
        FileAt(b, p);
      }
      assert IsFileAt(a, MemoryPath(a)) && IsFileAt(b, MemoryPath(b));
      AncestorIff(MemoryPath(a), MemoryPath(b));
    }
  }

  /** The path check accepts the changes of a request exactly when no two live memory resources clash once they
      are published. */
  lemma TreeCheckIff(cx: Codec, log: seq<Record>, q: NativeRequest)
    requires IsHistory(cx, log) && Canonical(cx, q)
    ensures var s := StateOf(log);
            ValidMemoryPaths(s.native, q.changes) <==>
                forall a, b :: !Clash(Publish(s.native, ResourcesOf(cx, q.changes)), a, b)
  {
    hide IsHistory, StateOf, Canonical, Publish, ResourcesOf, Clash, TreeOk, Shown, ShownAfter;
    var s := StateOf(log);
    HistoryOk(cx, log);
    CanonicalKeys(cx, q);
    CanonicalNames(cx, q);
    PublishedAt(cx, s.native, q.changes);
    ShownAfterPublish(cx, s.native, q.changes);
    ResourceNames(s.native);
    TreeOkIff(Publish(s.native, ResourcesOf(cx, q.changes)));
  }

  lemma ResourceNames(native: map<Key, Resource>)
    requires ResourcesOk(native)
    ensures forall k :: k in native ==> k.name != ""
  {
  }

  lemma CanonicalNames(cx: Codec, q: NativeRequest)
    requires Canonical(cx, q)
    ensures forall k :: k in ChangedKeys(q.changes) ==> k.name != ""
  {
    forall c | c in q.changes
      ensures c.key.name != ""
    {
      assert ChangeOk(cx, c);
    }
  }

  // ----- why a write is refused -----

  /** Why a change is refused after `log`, or `NoReason`. */
  ghost function ChangeReason(log: seq<Record>, c: Change): Reason {
    if c.expectedRevision != ChangesTo(log, c.key) then RevisionConflict
    else if c.expectedRevision >= MAX_REVISION then RevisionExhausted
    else if c.deleted && !Live(StateOf(log).native, c.key) then NotFound
    else NoReason
  }

  /** The changes of a batch are refused for the reason of the first bad change, or because of the tree. */
  ghost predicate RefusedFor(log: seq<Record>, cs: seq<Change>, reason: Reason) {
    if ExpectsCounts(log, cs) then
      reason == if ValidMemoryPaths(StateOf(log).native, cs) then NoReason else MemoryPathConflict
    else
      exists i :: 0 <= i < |cs| && (forall j :: 0 <= j < i ==> ChangeReason(log, cs[j]) == NoReason)
        && reason == ChangeReason(log, cs[i]) != NoReason
  }

  lemma ReasonsAgree(cx: Codec, log: seq<Record>, c: Change)
    requires IsHistory(cx, log)
    ensures CasRefusalOf(StateOf(log).native, c) == ChangeReason(log, c)
  {
    hide IsHistory, StateOf, ChangesTo;
    RevisionCountsChanges(cx, log, c.key);
    HistoryOk(cx, log);
  }

  lemma {:induction false} FirstReason(cx: Codec, log: seq<Record>, cs: seq<Change>)
    requires IsHistory(cx, log) && !ExpectsCounts(log, cs)
    ensures exists i ::
              && 0 <= i < |cs| && (forall j :: 0 <= j < i ==> ChangeReason(log, cs[j]) == NoReason)
              && CasRefusal(StateOf(log).native, cs) == ChangeReason(log, cs[i]) != NoReason
  {
    hide IsHistory, StateOf, ChangesTo, CasRefusalOf;
    ReasonsAgree(cx, log, cs[0]);
    if ChangeReason(log, cs[0]) == NoReason {
      assert ChangeExpects(log, cs[0]);
      FirstReason(cx, log, cs[1..]);
      var i :| 0 <= i < |cs[1..]| && (forall j :: 0 <= j < i ==> ChangeReason(log, cs[1..][j]) == NoReason)
        && CasRefusal(StateOf(log).native, cs[1..]) == ChangeReason(log, cs[1..][i]) != NoReason;
      forall j | 0 <= j < i + 1
        ensures ChangeReason(log, cs[j]) == NoReason
      {
        assert j > 0 ==> cs[j] == cs[1..][j - 1];
      }
      assert cs[i + 1] == cs[1..][i];
    }
  }

  /** What the checks before the job command say about changes without aliases. */
  lemma ChangesRefusedFor(cx: Codec, log: seq<Record>, q: NativeRequest)
    requires IsHistory(cx, log) && forall c :: c in q.changes ==> !c.key.domain.Migration?
    ensures RefusedFor(log, q.changes, ChangesRefusal(cx, StateOf(log), q))
  {
    hide IsHistory, StateOf, ChangesTo, ValidMemoryPaths, CasRefusalOf, ChangeReason;
    var s := StateOf(log);
    NoAliasRefusal(cx, s.objects, q, q.changes);
    if ExpectsCounts(log, q.changes) {
      forall c | c in q.changes
        ensures CasRefusalOf(s.native, c) == NoReason
      {
        ReasonsAgree(cx, log, c);
        ExpectedHasNoReason(log, c);
      }
    } else {
      FirstReason(cx, log, q.changes);
    }
  }

  lemma ExpectedHasNoReason(log: seq<Record>, c: Change)
    ensures ChangeExpects(log, c) <==> ChangeReason(log, c) == NoReason
  {
    hide StateOf, ChangesTo;
  }

  /** The reason recorded for a journalled batch without a job command and without aliases. */
  lemma BatchReason(cx: Codec, log: seq<Record>, i: nat)
    requires IsHistory(cx, log) && i < |log| && log[i].V2?
    requires log[i].v2.request.job.None? && forall c :: c in log[i].v2.request.changes ==> !c.key.domain.Migration?
    ensures RefusedFor(log[..i], log[i].v2.request.changes, log[i].v2.result.error)
  {
    hide AppendsObject, Apply, StateOf, IsHistory, RefusedFor, Canonical, ChangesRefusal;
    HistoryPrefix(cx, log, i);
    ChangesRefusedFor(cx, log[..i], log[i].v2.request);
  }

  /** The whole reply to a journalled mutation: why it was refused, with the object as it is, or the object as
      it becomes. */
  lemma MutationReply(cx: Codec, log: seq<Record>, i: nat)
    requires IsHistory(cx, log) && i < |log| && log[i].V1?
    ensures var r := log[i].v1; var k := ObjectKey(r.collection, r.request.id); var s := StateOf(log[..i]);
            var count := ObjectChangesTo(log[..i], k);
            && r.before == count
            && r.result.error == (
                 if AliasKey(r.collection, r.request.id) in s.native &&
                     !s.native[AliasKey(r.collection, r.request.id)].deleted then MigratedReadOnly
                 else if r.request.expectedRevision != count then RevisionConflict
                 else if r.operation == Delete && !ObjectLive(s, k) then NotFound
                 else if count == MAX_REVISION then RevisionExhausted
                 else NoReason)
            && (r.result.error == NoReason ==>
                r.result.item == Object(r.request.id, r.request.content, count + 1, r.operation == Delete))
            && (r.result.error != NoReason && k in s.objects ==> r.result.item == s.objects[k])
            && (r.result.error != NoReason && k !in s.objects ==> r.result.item == Object(r.request.id, "", 0, false))
  {
    hide AppendsNative, ApplyNative, ValidMutation, StateOf, IsHistory, ObjectChangesTo;
    var r := log[i].v1;
    HistoryPrefix(cx, log, i);
    ObjectRevisionCountsChanges(cx, log[..i], ObjectKey(r.collection, r.request.id));
  }
}
