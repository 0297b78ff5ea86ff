/** Migration freezes: publishing the native replacement of a version 1 object makes the object
    read-only for ever, and repeating the import finds its first receipt. */
module Freezing {
  import opened Types
  import opened Text
  import opened Normalization
  import opened MemoryTree
  import Selection
  import opened Aliases
  import opened Engine
  import opened History
  import opened Durability
  import opened Publishing
  import opened Counting
  import opened Registers
  import opened Retries

  // ----- live aliases name frozen sources -----

  ghost predicate AliasHolds(cx: Codec, s: State, k: Key)
    requires k in s.native
  {
    && !s.native[k].deleted
    && exists a ::
        cx.readAlias(s.native[k].content) == Some(a) && AliasShapeOk(cx, a, k) && SourceMatches(cx, s.objects, a)
  }

  /** Every alias resource is live and names a live version 1 object at exactly the recorded revision and
      with the recorded hash. */
  ghost predicate AliasesHold(cx: Codec, s: State) {
    forall k :: k in s.native && k.domain.Migration? ==> AliasHolds(cx, s, k)
  }

  /** A version 1 mutation never reaches an object with a live alias. */
  lemma FrozenRefuses(s: State, r: ObjectRecord)
    requires AppendsObject(s, r) && Frozen(s.native, r.collection, r.request.id)
    ensures r.result.error == MigratedReadOnly && ApplyObject(s, r).objects == s.objects
  {
  }

  lemma ObjectStep(cx: Codec, s: State, r: ObjectRecord)
    requires AppendsObject(s, r) && AliasesHold(cx, s)
    ensures AliasesHold(cx, ApplyObject(s, r))
  {
    var after := ApplyObject(s, r);
    forall k | k in after.native && k.domain.Migration?
      ensures AliasHolds(cx, after, k)
    {
      assert AliasHolds(cx, s, k);
      var a :| cx.readAlias(s.native[k].content) == Some(a) && AliasShapeOk(cx, a, k) &&
          SourceMatches(cx, s.objects, a);
      if AliasSource(a) == ObjectKey(r.collection, r.request.id) {
        FrozenRefuses(s, r);
      }
      assert SourceMatches(cx, after.objects, a);
    }
  }

  lemma AliasChangeOk(cx: Codec, s: State, r: NativeRecord, c: Change)
    requires AppendsNative(cx, s, r) && r.result.error == NoReason && c in r.request.changes && c.key.domain.Migration?
    ensures !c.deleted && cx.readAlias(c.content).Some?
    ensures AliasShapeOk(cx, cx.readAlias(c.content).value, c.key) &&
        SourceMatches(cx, s.objects, cx.readAlias(c.content).value)
    ensures exists t ::
        t in r.request.changes &&
        Publishes(t, cx.readAlias(c.content).value, CurrentObject(s.objects,
        AliasSource(cx.readAlias(c.content).value)).content)
  {
    hide AppendsNative, CasRefusal, ValidMemoryPaths;
    NativeAfter(cx, s, r);
    assert AliasRefusalOf(cx, s.objects, r.request, c) == NoReason;
  }

  lemma NativeStep(cx: Codec, s: State, r: NativeRecord)
    requires AppendsNative(cx, s, r) && AliasesHold(cx, s)
    ensures AliasesHold(cx, ApplyNative(s, r)) && ApplyNative(s, r).objects == s.objects
  {
    hide AppendsNative, Publish, ResourcesOf, StoreJobs, AliasShapeOk, SourceMatches, ChangesRefusal, DistinctKeys;
    NativeAfter(cx, s, r);
    if r.result.error == NoReason {
      var after := ApplyNative(s, r);
      PublishedAt(cx, s.native, r.request.changes);
      forall k | k in after.native && k.domain.Migration?
        ensures AliasHolds(cx, after, k)
      {
        if k in ChangedKeys(r.request.changes) {
          var c :| c in r.request.changes && c.key == k;
          AliasChangeOk(cx, s, r, c);
        } else {
          assert AliasHolds(cx, s, k);
        }
      }
    }
  }

  lemma {:induction false} AliasesAlwaysHold(cx: Codec, log: seq<Record>)
    requires IsHistory(cx, log)
    ensures AliasesHold(cx, StateOf(log))
  {
    hide AppendsNative, AppendsObject, ApplyNative, ApplyObject, AliasHolds;
    if log != [] {
      var front, r := log[..|log| - 1], log[|log| - 1];
      AliasesAlwaysHold(cx, front);
      match r {
        case V1(o) => ObjectStep(cx, StateOf(front), o);
        case V2(n) => NativeStep(cx, StateOf(front), n);
      }
    }
  }

  // ----- for ever -----

  lemma FrozenStep(cx: Codec, s: State, r: Record, c: Collection, id: string)
    requires Appends(cx, s, r) && AliasesHold(cx, s) && Frozen(s.native, c, id)
    ensures Frozen(Apply(s, r).native, c, id)
    ensures CurrentObject(Apply(s, r).objects, ObjectKey(c, id)) == CurrentObject(s.objects, ObjectKey(c, id))
  {
    hide AppendsNative, AliasHolds, Publish, ResourcesOf;
    match r {
      case V1(o) =>
        if ObjectKey(o.collection, o.request.id) == ObjectKey(c, id) {
          FrozenRefuses(s, o);
        }
      case V2(n) =>
        NativeStep(cx, s, n);
        StillThere(cx, s, n, AliasKey(c, id));
    }
  }

  lemma StillThere(cx: Codec, s: State, r: NativeRecord, k: Key)
    requires AppendsNative(cx, s, r) && AliasesHold(cx, ApplyNative(s, r)) && k in s.native && k.domain.Migration?
    ensures k in ApplyNative(s, r).native && !ApplyNative(s, r).native[k].deleted
  {
    hide AppendsNative, Publish, ResourcesOf, AliasShapeOk, SourceMatches;
    NativeAfter(cx, s, r);
    PublishedAt(cx, s.native, r.request.changes);
    assert k in ApplyNative(s, r).native ==> AliasHolds(cx, ApplyNative(s, r), k);
  }

  /** Once an object is frozen it stays frozen and never changes again. */
  lemma {:induction false} FrozenForever(cx: Codec, log: seq<Record>, n: nat, c: Collection, id: string)
    requires IsHistory(cx, log) && n <= |log| && Frozen(StateOf(log[..n]).native, c, id)
    ensures Frozen(StateOf(log).native, c, id)
    ensures CurrentObject(StateOf(log).objects, ObjectKey(c, id)) == CurrentObject(StateOf(log[..n]).objects,
        ObjectKey(c, id))
  {
    hide Appends, Apply, Frozen, AliasesHold;
    if n == |log| {
      assert log[..n] == log;
    } else {
      var front := log[..|log| - 1];
      assert front[..n] == log[..n];
      FrozenForever(cx, front, n, c, id);
      AliasesAlwaysHold(cx, front);
      FrozenStep(cx, StateOf(front), log[|log| - 1], c, id);
    }
  }

  /** Every later version 1 mutation of it is journalled as read-only and has no effect. */
  lemma LaterMutationsRefused(cx: Codec, log: seq<Record>, n: nat, j: nat, c: Collection, id: string)
    requires IsHistory(cx, log) && n <= j < |log| && Frozen(StateOf(log[..n]).native, c, id)
    requires log[j].V1? && log[j].v1.collection == c && log[j].v1.request.id == id
    ensures log[j].v1.result.error == MigratedReadOnly
    ensures StateOf(log[..j + 1]).objects == StateOf(log[..j]).objects
  {
    hide AppendsNative, AppendsObject, Frozen, ApplyObject, StateOf;
    HistoryPrefix(cx, log, j);
    assert log[..j][..n] == log[..n];
    FrozenForever(cx, log[..j], n, c, id);
    FrozenRefuses(StateOf(log[..j]), log[j].v1);
  }

  // ----- ImportLegacyMemory and ImportLegacySkill -----

  /** `Read` followed by the checks that both imports share. */
  function ReadSource(s: State, k: ObjectKey, revision: nat): Result<Object> {
    if !LogicalId(k.id) || k !in s.objects then Err(Malformed)
    else if s.objects[k].revision != revision || s.objects[k].deleted then Err(SourceConflict)
    else Ok(s.objects[k])
  }

  function ImportRequest(cx: Codec, requestId: string, a: LegacyAlias, target: Change): NativeRequest {
    NativeRequest(requestId, Actor(MigrationActor, "", ""), ImportV1, "",
      [target, Change(AliasKey(a.collection, a.id), 0, cx.aliasJson(a), None, false)], None)
  }

  function ImportMemory(cx: Codec, s: State, requestId: string, id: string, filename: string,
                        revision: nat): Result<NativeRequest>
  {
    if !cx.noteFilename(filename) then Err(InvalidFilename)
    else match ReadSource(s, ObjectKey(Memory, id), revision)
      case Err(e) => Err(e)
      case Ok(o) =>
        var a := LegacyAlias(Memory, id, revision, cx.hash(o.content), Key(Note, filename));
        Ok(ImportRequest(cx, requestId, a, Change(a.target, 0, o.content, None, false)))
  }

  function ImportSkill(cx: Codec, s: State, requestId: string, id: string, authority: string,
                       revision: nat): Result<NativeRequest>
  {
    match ReadSource(s, ObjectKey(Skills, id), revision)
    case Err(e) => Err(e)
    case Ok(o) =>
      var p := Package(authority, true, [File("SKILL.md", o.content, "")]);
      if !LogicalId(id) || !LogicalId(authority) || !cx.skillOk(id, Pairs(p.files)) then Err(InvalidPackage)
      else
        var a := LegacyAlias(Skills, id, revision, cx.hash(o.content), Key(SkillsPackage, id));
        Ok(ImportRequest(cx, requestId, a, Change(a.target, 0, "", Some(p), false)))
  }

  /** The imports are exported operations that leave the stage 1 domain alone. */
  lemma ImportsArePublic(cx: Codec, s: State, requestId: string, id: string, revision: nat, filename: string,
                         authority: string)
    ensures ImportMemory(cx, s, requestId, id, filename, revision).Ok? ==>
              Requests.IsPublicRequest(cx, s, ImportMemory(cx, s, requestId, id, filename, revision).value)
    ensures ImportSkill(cx, s, requestId, id, authority, revision).Ok? ==>
              Requests.IsPublicRequest(cx, s, ImportSkill(cx, s, requestId, id, authority, revision).value)
  {
  }

  predicate KnownAlias(a: LegacyAlias) {
    !a.collection.UnknownCollection? && ValidDomain(a.target.domain)
  }

  /** The JSON of an alias reads back. */
  ghost predicate AliasRoundTrip(cx: Codec) {
    forall a :: KnownAlias(a) ==> cx.readAlias(cx.aliasJson(a)) == Some(a)
  }

  lemma AliasChangeNormal(cx: Codec, requestId: string, a: LegacyAlias, target: Change)
    requires Normalize(cx, ImportRequest(cx, requestId, a, target)).Ok?
    ensures Change(AliasKey(a.collection, a.id), 0, cx.aliasJson(a), None, false)
            in Normalize(cx, ImportRequest(cx, requestId, a, target)).value.changes
  {
    hide WellFormed, Sort;
    var q := ImportRequest(cx, requestId, a, target);
    var hashed := HashChanges(cx, q.changes);
    assert hashed[1] == q.changes[1] && hashed[1] in hashed;
    SortPermutes(hashed, By(KeyText));
  }

  lemma ImportHasAlias(cx: Codec, s: State, r: NativeRecord, requestId: string, a: LegacyAlias, target: Change)
    requires AppendsNative(cx, s, r) && r.result.error == NoReason && AliasRoundTrip(cx) && KnownAlias(a)
    requires Normalize(cx, ImportRequest(cx, requestId, a, target)) == Ok(r.request)
    ensures SourceMatches(cx, s.objects, a) && Frozen(ApplyNative(s, r).native, a.collection, a.id)
  {
    hide AppendsNative, ApplyNative, Normalize, AliasRoundTrip, SourceMatches, AliasShapeOk;
    var c := Change(AliasKey(a.collection, a.id), 0, cx.aliasJson(a), None, false);
    AliasChangeNormal(cx, requestId, a, target);
    AliasChangeOk(cx, s, r, c);
    ReadsBack(cx, a);
    PublishedAlias(cx, s, r, c);
  }

  /** A committed import freezes its source, which is as the import says. */
  lemma ImportFreezes(cx: Codec, log: seq<Record>, i: nat, requestId: string, a: LegacyAlias, target: Change)
    requires IsHistory(cx, log) && i < |log| && CommittedNative(log[i]) && AliasRoundTrip(cx) && KnownAlias(a)
    requires Normalize(cx, ImportRequest(cx, requestId, a, target)) == Ok(log[i].v2.request)
    ensures Frozen(StateOf(log[..i + 1]).native, a.collection, a.id)
    ensures SourceMatches(cx, StateOf(log[..i + 1]).objects, a)
  {
    hide AppendsNative, ApplyNative, Normalize, StateOf, IsHistory, AliasesHold, AliasRoundTrip, SourceMatches, Frozen;
    HistoryPrefix(cx, log, i);
    ImportHasAlias(cx, StateOf(log[..i]), log[i].v2, requestId, a, target);
    AliasesAlwaysHold(cx, log[..i]);
    NativeStep(cx, StateOf(log[..i]), log[i].v2);
  }

  /** After a committed import the source object is, at every later time, the one that was imported. */
  lemma SourceStays(cx: Codec, log: seq<Record>, i: nat, n: nat, requestId: string, a: LegacyAlias, target: Change)
    requires IsHistory(cx, log) && i < n <= |log| && CommittedNative(log[i]) && AliasRoundTrip(cx) && KnownAlias(a)
    requires Normalize(cx, ImportRequest(cx, requestId, a, target)) == Ok(log[i].v2.request)
    ensures var o := CurrentObject(StateOf(log[..n]).objects, AliasSource(a));
            o.revision == a.revision != 0 && !o.deleted && cx.hash(o.content) == a.sourceHash
  {
    hide Normalize, StateOf, IsHistory, AliasRoundTrip, Frozen, CurrentObject;
    ImportFreezes(cx, log, i, requestId, a, target);
    HistoryPrefix(cx, log, n);
    assert log[..n][..i + 1] == log[..i + 1];
    FrozenForever(cx, log[..n], i + 1, a.collection, a.id);
  }

  lemma ReadsBack(cx: Codec, a: LegacyAlias)
    requires AliasRoundTrip(cx) && KnownAlias(a)
    ensures cx.readAlias(cx.aliasJson(a)) == Some(a)
  {
  }

  lemma PublishedAlias(cx: Codec, s: State, r: NativeRecord, c: Change)
    requires AppendsNative(cx, s, r) && r.result.error == NoReason && c in r.request.changes && !c.deleted
    ensures c.key in ApplyNative(s, r).native && !ApplyNative(s, r).native[c.key].deleted
  {
    hide AppendsNative, Publish, ResourcesOf;
    NativeAfter(cx, s, r);
    PublishedAt(cx, s.native, r.request.changes);
  }

  /** Repeating a committed import at any later time builds the same request and returns the first
      receipt. */
  lemma ImportMemoryRetry(cx: Codec, log: seq<Record>, m: nat, i: nat, n: nat, requestId: string, id: string,
                          filename: string, revision: nat, now: int, rnd: Entropy)
    requires IsHistory(cx, log) && Injective(cx.hash) && AliasRoundTrip(cx)
    requires m <= i < n <= |log| && CommittedNative(log[i])
    requires ImportMemory(cx, StateOf(log[..m]), requestId, id, filename, revision).Ok?
    requires Normalize(cx, ImportMemory(cx, StateOf(log[..m]), requestId, id, filename, revision).value) ==
        Ok(log[i].v2.request)
    ensures ImportMemory(cx, StateOf(log[..n]), requestId, id, filename, revision) ==
        ImportMemory(cx, StateOf(log[..m]), requestId, id, filename, revision)
    ensures BatchOutcome(cx, StateOf(log), ImportMemory(cx, StateOf(log[..n]), requestId, id, filename,
        revision).value, now, rnd)
            == Replayed(JsonResult(log[i].v2.result))
  {
    hide IsHistory, StateOf, Normalize, BatchOutcome, AliasRoundTrip;
    var k := ObjectKey(Memory, id);
    var o := StateOf(log[..m]).objects[k];
    var a := LegacyAlias(Memory, id, revision, cx.hash(o.content), Key(Note, filename));
    SourceStays(cx, log, i, n, requestId, a, Change(a.target, 0, o.content, None, false));
    SameContent(cx, CurrentObject(StateOf(log[..n]).objects, k), o.content);
    RetryFindsReceipt(cx, log, i, BatchCall(ImportMemory(cx, StateOf(log[..n]), requestId, id, filename,
        revision).value), now, rnd);
  }

  lemma SameContent(cx: Codec, o: Object, content: string)
    requires Injective(cx.hash) && cx.hash(o.content) == cx.hash(content)
    ensures o.content == content
  {
  }

  lemma ImportSkillRetry(cx: Codec, log: seq<Record>, m: nat, i: nat, n: nat, requestId: string, id: string,
                         authority: string, revision: nat, now: int, rnd: Entropy)
    requires IsHistory(cx, log) && Injective(cx.hash) && AliasRoundTrip(cx)
    requires m <= i < n <= |log| && CommittedNative(log[i])
    requires ImportSkill(cx, StateOf(log[..m]), requestId, id, authority, revision).Ok?
    requires Normalize(cx, ImportSkill(cx, StateOf(log[..m]), requestId, id, authority, revision).value) ==
        Ok(log[i].v2.request)
    ensures ImportSkill(cx, StateOf(log[..n]), requestId, id, authority, revision) ==
        ImportSkill(cx, StateOf(log[..m]), requestId, id, authority, revision)
    ensures BatchOutcome(cx, StateOf(log), ImportSkill(cx, StateOf(log[..n]), requestId, id, authority,
        revision).value, now, rnd)
            == Replayed(JsonResult(log[i].v2.result))
  {
    hide IsHistory, StateOf, Normalize, BatchOutcome, AliasRoundTrip;
    var k := ObjectKey(Skills, id);
    var o := StateOf(log[..m]).objects[k];
    var a := LegacyAlias(Skills, id, revision, cx.hash(o.content), Key(SkillsPackage, id));
    var p := Package(authority, true, [File("SKILL.md", o.content, "")]);
    SourceStays(cx, log, i, n, requestId, a, Change(a.target, 0, "", Some(p), false));
    SameContent(cx, CurrentObject(StateOf(log[..n]).objects, k), o.content);
    RetryFindsReceipt(cx, log, i, BatchCall(ImportSkill(cx, StateOf(log[..n]), requestId, id, authority,
        revision).value), now, rnd);
  }

  // ----- what an import does, and when it is accepted -----

  /** `c` is the alias of a version 1 object that is there as the alias says, and the request publishes the content
      of that object in its place. */
  ghost predicate Replaces(cx: Codec, s: State, q: NativeRequest, c: Change) {
    && q.operation == ImportV1 && q.actor.kind == MigrationActor && !c.deleted
    && cx.readAlias(c.content).Some?
    && var a := cx.readAlias(c.content).value; var k := ObjectKey(a.collection, a.id);
    && LogicalId(a.id) && k in s.objects
    && var o := s.objects[k];
    && o.revision == a.revision > 0 && !o.deleted && cx.hash(o.content) == a.sourceHash
    && ((a.collection == Memory && c.key.name == "legacy/memory/" + a.id && a.target.domain == Note &&
            cx.noteFilename(a.target.name) &&
            exists t :: t in q.changes && t.key == a.target && !t.deleted && t.content == o.content)
        || (a.collection == Skills && c.key.name == "legacy/skills/" + a.id && a.target == Key(SkillsPackage, a.id) &&
            exists t :: t in q.changes && t.key == a.target && !t.deleted && HoldsSkill(t, o.content)))
  }

  /** A package of the one file SKILL.md. */
  ghost predicate HoldsSkill(t: Change, content: string) {
    && t.package.Some? && |t.package.value.files| == 1
    && t.package.value.files[0].path == "SKILL.md" && t.package.value.files[0].content == content
  }

  lemma ReplacesIff(cx: Codec, s: State, q: NativeRequest, c: Change)
    requires c.key.domain.Migration?
    ensures AliasRefusalOf(cx, s.objects, q, c) == NoReason <==> Replaces(cx, s, q, c)
  {
    hide LogicalId, Publishes, HoldsSkill;
    if cx.readAlias(c.content).Some? {
      var a := cx.readAlias(c.content).value;
      AliasNames(a);
      forall t
        ensures a.collection.Memory? || a.collection.Skills? ==>
            (Publishes(t, a, CurrentObject(s.objects, AliasSource(a)).content) <==>
              t.key == a.target && !t.deleted &&
              if a.collection.Memory? then t.content == CurrentObject(s.objects, AliasSource(a)).content
              else HoldsSkill(t, CurrentObject(s.objects, AliasSource(a)).content))
      {
        PublishesIff(t, a, CurrentObject(s.objects, AliasSource(a)).content);
      }
    }
  }

  lemma PublishesIff(t: Change, a: LegacyAlias, content: string)
    ensures a.collection.Memory? || a.collection.Skills? ==>
        (Publishes(t, a, content) <==>
          t.key == a.target && !t.deleted &&
          if a.collection.Memory? then t.content == content else HoldsSkill(t, content))
  {
  }

  lemma AliasNames(a: LegacyAlias)
    ensures a.collection.Memory? ==> AliasKey(a.collection, a.id) == Key(Migration, "legacy/memory/" + a.id)
    ensures a.collection.Skills? ==> AliasKey(a.collection, a.id) == Key(Migration, "legacy/skills/" + a.id)
  {
    assert "legacy/" + "memory" + "/" == "legacy/memory/" && "legacy/" + "skills" + "/" == "legacy/skills/";
    assert "legacy/" + "memory" + "/" + a.id == ("legacy/" + "memory" + "/") + a.id;
    assert "legacy/" + "skills" + "/" + a.id == ("legacy/" + "skills" + "/") + a.id;
  }

  /** A journalled batch without a job command was committed exactly when each of its aliases replaces an object,
      its changes expect the right revisions, and the tree stays valid. */
  lemma MigrationAcceptedIff(cx: Codec, log: seq<Record>, i: nat)
    requires IsHistory(cx, log) && i < |log| && log[i].V2? && log[i].v2.request.job.None?
    ensures var q := log[i].v2.request;
            CommittedNative(log[i]) <==>
              && (forall c :: c in q.changes && c.key.domain.Migration? ==> Replaces(cx, StateOf(log[..i]), q, c))
              && ExpectsCounts(log[..i], q.changes) && ValidMemoryPaths(StateOf(log[..i]).native, q.changes)
  {
    hide AppendsObject, Apply, StateOf, IsHistory, Canonical, ValidMemoryPaths, Replaces, AliasRefusalOf, ChangeExpects;
    hide CasRefusalOf;
    var q, s := log[i].v2.request, StateOf(log[..i]);
    HistoryPrefix(cx, log, i);
    forall c | c in q.changes
      ensures AliasRefusalOf(cx, s.objects, q, c) == NoReason <==>
          (c.key.domain.Migration? ==> Replaces(cx, s, q, c))
      ensures CasRefusalOf(s.native, c) == NoReason <==> ChangeExpects(log[..i], c)
    {
      if c.key.domain.Migration? {
        ReplacesIff(cx, s, q, c);
      } else {
        OrdinaryChange(cx, s, q, c);
      }
      ReasonsAgree(cx, log[..i], c);
      ExpectedHasNoReason(log[..i], c);
    }
    if forall c :: c in q.changes ==> AliasRefusalOf(cx, s.objects, q, c) == NoReason {
      NoAliasRefusal(cx, s.objects, q, q.changes);
    }
  }

  lemma OrdinaryChange(cx: Codec, s: State, q: NativeRequest, c: Change)
    requires !c.key.domain.Migration?
    ensures AliasRefusalOf(cx, s.objects, q, c) == NoReason
  {
  }

  /** A committed memory import leaves the text of the version 1 object as a new note, freezes the object, and
      touches nothing else but the alias. */
  lemma MemoryImportIsPublished(cx: Codec, s: State, read: State, r: NativeRecord, requestId: string, id: string,
                                filename: string, revision: nat)
    requires AppendsNative(cx, s, r) && r.result.error == NoReason
    requires ImportMemory(cx, read, requestId, id, filename, revision).Ok?
    requires Normalize(cx, ImportMemory(cx, read, requestId, id, filename, revision).value) == Ok(r.request)
    ensures var after := ApplyNative(s, r).native;
            && ObjectKey(Memory, id) in read.objects
            && HoldsText(after, Key(Note, filename), read.objects[ObjectKey(Memory, id)].content)
            && after[Key(Note, filename)].revision == 1
            && Frozen(after, Memory, id)
            && OnlyChanges(s.native, after, {Key(Note, filename), AliasKey(Memory, id)})
  {
    hide AppendsNative, ApplyNative, Normalize, Published;
    var q := ImportMemory(cx, read, requestId, id, filename, revision).value;
    var after := ApplyNative(s, r).native;
    RequestPublishes(cx, s, q, r);
    assert q.changes[0] in q.changes && q.changes[1] in q.changes;
    PlainTakesEffect(cx, s.native, q.changes, after, q.changes[0]);
    PlainTakesEffect(cx, s.native, q.changes, after, q.changes[1]);
    PublishedOnly(cx, s.native, q.changes, after, {Key(Note, filename), AliasKey(Memory, id)});
  }

  /** A committed skill import leaves an enabled package of the given authority whose one file is the text of the
      version 1 object, and freezes the object. */
  lemma SkillImportIsPublished(cx: Codec, s: State, read: State, r: NativeRecord, requestId: string, id: string,
                               authority: string, revision: nat)
    requires AppendsNative(cx, s, r) && r.result.error == NoReason
    requires ImportSkill(cx, read, requestId, id, authority, revision).Ok?
    requires Normalize(cx, ImportSkill(cx, read, requestId, id, authority, revision).value) == Ok(r.request)
    ensures var after := ApplyNative(s, r).native; var k := Key(SkillsPackage, id);
            && ObjectKey(Skills, id) in read.objects
            && Selection.Live(after, k) && k in after && after[k].revision == 1 && after[k].package.Some?
            && after[k].package.value.authority == authority && after[k].package.value.enabled
            && after[k].package.value.files == [File("SKILL.md", read.objects[ObjectKey(Skills, id)].content,
                cx.hash(read.objects[ObjectKey(Skills, id)].content))]
            && Frozen(after, Skills, id)
            && OnlyChanges(s.native, after, {k, AliasKey(Skills, id)})
  {
    hide AppendsNative, ApplyNative, Normalize, Published, SortedFiles, ChangeOk;
    var q := ImportSkill(cx, read, requestId, id, authority, revision).value;
    var after := ApplyNative(s, r).native;
    RequestPublishes(cx, s, q, r);
    assert q.changes[0] in q.changes && q.changes[1] in q.changes;
    PlainTakesEffect(cx, s.native, q.changes, after, q.changes[1]);
    SkillTakesEffect(cx, s.native, q.changes, after, q.changes[0]);
    PublishedOnly(cx, s.native, q.changes, after, {Key(SkillsPackage, id), AliasKey(Skills, id)});
    OneFileSorted(cx, q.changes[0].package.value.files[0]);
  }

  lemma SkillTakesEffect(cx: Codec, native: map<Key, Resource>, changes: seq<Change>, after: map<Key, Resource>,
                         c: Change)
    requires Published(cx, native, changes, after) && c in changes && c.package.Some?
    ensures c.key in after && after[c.key].revision == c.expectedRevision + 1 && after[c.key].deleted == c.deleted
    ensures after[c.key].package == Some(c.package.value.(files := SortedFiles(cx, c.package.value.files)))
  {
    hide SortedFiles, ChangeOk;
  }

  lemma OneFileSorted(cx: Codec, f: File)
    ensures SortedFiles(cx, [f]) == [File(f.path, f.content, cx.hash(f.content))]
  {
    assert HashFiles(cx, [f]) == [File(f.path, f.content, cx.hash(f.content))];
    SortOfAscending(HashFiles(cx, [f]), By(PathText));
  }

  // ----- when an import succeeds -----

  /** Both imports are built exactly for a live object at the revision that the caller names. */
  ghost predicate SourceIsLive(s: State, k: ObjectKey, revision: nat) {
    LogicalId(k.id) && k in s.objects && s.objects[k].revision == revision && !s.objects[k].deleted
  }

  /** The changes of the normal form, which are those of the import with the files hashed. */
  lemma ImportNormalForm(cx: Codec, requestId: string, a: LegacyAlias, target: Change, n: NativeRequest)
    requires Normalize(cx, ImportRequest(cx, requestId, a, target)) == Ok(n)
    ensures n.operation == ImportV1 && n.actor.kind == MigrationActor && n.job.None? && n.requestId == requestId
    ensures forall c :: c in n.changes <==>
        c == HashChange(cx, target) || c == Change(AliasKey(a.collection, a.id), 0, cx.aliasJson(a), None, false)
  {
    hide WellFormed, Sort, AliasKey;
    var q := ImportRequest(cx, requestId, a, target);
    NormalChanges(cx, q);
    assert q.changes[0] in q.changes && q.changes[1] in q.changes;
    assert forall c :: c in q.changes <==> c == q.changes[0] || c == q.changes[1];
  }

  lemma HashedTarget(cx: Codec, target: Change, a: LegacyAlias, content: string)
    requires Publishes(target, a, content)
    ensures Publishes(HashChange(cx, target), a, content)
    ensures HashChange(cx, target).key == target.key && !HashChange(cx, target).deleted && !target.deleted
    ensures HashChange(cx, target).expectedRevision == target.expectedRevision
  {
    hide SortedFiles;
    if target.package.Some? && |target.package.value.files| == 1 {
      var f := target.package.value.files[0];
      assert target.package.value.files == [f];
      OneFileSorted(cx, f);
    }
  }

  lemma SameShown(native: map<Key, Resource>, xs: seq<Change>, ys: seq<Change>)
    requires forall x :: x in xs ==> exists y :: y in ys && y.key == x.key && y.deleted == x.deleted
    requires forall y :: y in ys ==> exists x :: x in xs && y.key == x.key && y.deleted == x.deleted
    ensures ValidMemoryPaths(native, xs) <==> ValidMemoryPaths(native, ys)
  {
    hide TreeOk, MemoryPath;
    assert ChangedKeys(xs) == ChangedKeys(ys);
    assert ShownAfter(native, xs) == ShownAfter(native, ys);
  }

  /** An import whose source is as it says is journalled, and committed exactly when neither its target nor its
      alias was ever written and the tree stays valid. */
  lemma ImportOutcome(cx: Codec, log: seq<Record>, requestId: string, a: LegacyAlias, target: Change, now: int,
                      rnd: Entropy)
    requires IsHistory(cx, log) && AliasRoundTrip(cx) && KnownAlias(a) && FreshId(StateOf(log), requestId)
    requires Normalize(cx, ImportRequest(cx, requestId, a, target)).Ok?
    requires AliasShapeOk(cx, a, AliasKey(a.collection, a.id)) && SourceMatches(cx, StateOf(log).objects, a)
    requires Publishes(target, a, CurrentObject(StateOf(log).objects, AliasSource(a)).content)
    requires target.expectedRevision == 0 && !target.key.domain.Migration?
    ensures var q := ImportRequest(cx, requestId, a, target);
    var outcome := BatchOutcome(cx, StateOf(log), q, now, rnd);
            && outcome.Append?
            && (outcome.result.error == NoReason <==>
                && ChangesTo(log, target.key) == 0 && ChangesTo(log, AliasKey(a.collection, a.id)) == 0
                && ValidMemoryPaths(StateOf(log).native, q.changes))
  {
    hide IsHistory, StateOf, Normalize, AliasShapeOk, SourceMatches, Publishes, HashChange, AliasRoundTrip, AliasKey;
    hide ValidMemoryPaths, ChangesRefusal, BatchOutcome, ChangesTo, AliasRefusalOf, ImportRequest, FreshId;
    hide CurrentObject, AliasSource;
    var q, s := ImportRequest(cx, requestId, a, target), StateOf(log);
    var n := Normalize(cx, q).value;
    var alias := Change(AliasKey(a.collection, a.id), 0, cx.aliasJson(a), None, false);
    var content := CurrentObject(s.objects, AliasSource(a)).content;
    ImportNormalForm(cx, requestId, a, target, n);
    HashedTarget(cx, target, a, content);
    ReadsBack(cx, a);
    AliasPasses(cx, s, n, alias, a, HashChange(cx, target));
    OrdinaryChange(cx, s, n, HashChange(cx, target));
    TwoNewChanges(cx, log, n, HashChange(cx, target), alias);
    ImportChanges(cx, requestId, a, target);
    SameImportShown(s.native, q.changes, n.changes, target, HashChange(cx, target), alias);
    FreshBatch(cx, s, q, now, rnd);
  }

  lemma SameImportShown(native: map<Key, Resource>, xs: seq<Change>, ys: seq<Change>, t: Change, h: Change,
                        alias: Change)
    requires h.key == t.key && h.deleted == t.deleted
    requires forall c :: c in xs <==> c == t || c == alias
    requires forall c :: c in ys <==> c == h || c == alias
    ensures ValidMemoryPaths(native, xs) <==> ValidMemoryPaths(native, ys)
  {
    assert t in xs && alias in xs && h in ys && alias in ys;
    SameShown(native, xs, ys);
  }

  lemma TwoNewChanges(cx: Codec, log: seq<Record>, n: NativeRequest, t: Change, alias: Change)
    requires IsHistory(cx, log) && forall c :: c in n.changes <==> c == t || c == alias
    requires t.expectedRevision == 0 && !t.deleted && alias.expectedRevision == 0 && !alias.deleted
    requires AliasRefusalOf(cx, StateOf(log).objects, n, t) == NoReason
    requires AliasRefusalOf(cx, StateOf(log).objects, n, alias) == NoReason
    ensures ChangesRefusal(cx, StateOf(log), n) == NoReason <==>
        && ChangesTo(log, t.key) == 0 && ChangesTo(log, alias.key) == 0
        && ValidMemoryPaths(StateOf(log).native, n.changes)
  {
    hide IsHistory, StateOf, ChangesTo, AliasRefusalOf, CasRefusalOf, ValidMemoryPaths;
    NoAliasRefusal(cx, StateOf(log).objects, n, n.changes);
    NeverWritten(cx, log, alias);
    NeverWritten(cx, log, t);
    assert t in n.changes && alias in n.changes;
  }

  lemma ImportChanges(cx: Codec, requestId: string, a: LegacyAlias, target: Change)
    ensures forall c :: c in ImportRequest(cx, requestId, a, target).changes <==>
        c == target || c == Change(AliasKey(a.collection, a.id), 0, cx.aliasJson(a), None, false)
  {
  }

  lemma FreshBatch(cx: Codec, s: State, q: NativeRequest, now: int, rnd: Entropy)
    requires Normalize(cx, q).Ok? && Normalize(cx, q).value.job.None? && FreshId(s, Normalize(cx, q).value.requestId)
    requires Normalize(cx, q).value.operation.ImportV1?
    ensures var outcome := BatchOutcome(cx, s, q, now, rnd);
            outcome.Append? &&
                (outcome.result.error == NoReason <==> ChangesRefusal(cx, s, Normalize(cx, q).value) == NoReason)
  {
    hide Normalize, ChangesRefusal;
  }

  lemma AliasPasses(cx: Codec, s: State, q: NativeRequest, alias: Change, a: LegacyAlias, target: Change)
    requires q.operation == ImportV1 && q.actor.kind == MigrationActor && target in q.changes
    requires alias == Change(AliasKey(a.collection, a.id), 0, cx.aliasJson(a), None, false)
    requires cx.readAlias(cx.aliasJson(a)) == Some(a)
    requires AliasShapeOk(cx, a, AliasKey(a.collection, a.id)) && SourceMatches(cx, s.objects, a)
    requires Publishes(target, a, CurrentObject(s.objects, AliasSource(a)).content)
    ensures AliasRefusalOf(cx, s.objects, q, alias) == NoReason
  {
    hide AliasShapeOk, SourceMatches, Publishes;
  }

  lemma NeverWritten(cx: Codec, log: seq<Record>, c: Change)
    requires IsHistory(cx, log) && c.expectedRevision == 0 && !c.deleted
    ensures CasRefusalOf(StateOf(log).native, c) == NoReason <==> ChangesTo(log, c.key) == 0
  {
    hide IsHistory, StateOf, ChangesTo;
    ReasonsAgree(cx, log, c);
  }

  /** A memory import that is read from a store and sent to it unchanged is built exactly for a live object and a
      valid file name, and committed exactly when the note and the alias were never written and the note clashes
      with no other file. */
  lemma MemoryImportIff(cx: Codec, log: seq<Record>, requestId: string, id: string, filename: string, revision: nat,
                        now: int, rnd: Entropy)
    requires IsHistory(cx, log) && AliasRoundTrip(cx) && FreshId(StateOf(log), requestId)
    ensures var r := ImportMemory(cx, StateOf(log), requestId, id, filename, revision);
            && (r.Ok? <==> cx.noteFilename(filename) && SourceIsLive(StateOf(log), ObjectKey(Memory, id), revision))
            && (r.Ok? && Normalize(cx, r.value).Ok? ==>
                  var outcome := BatchOutcome(cx, StateOf(log), r.value, now, rnd);
                  && outcome.Append?
                  && (outcome.result.error == NoReason <==>
                      && ChangesTo(log, Key(Note, filename)) == 0 && ChangesTo(log, AliasKey(Memory, id)) == 0
                      && ValidMemoryPaths(StateOf(log).native, r.value.changes)))
  {
    hide IsHistory, StateOf, Normalize, AliasRoundTrip, BatchOutcome, ChangesTo, ValidMemoryPaths, FreshId, LogicalId;
    var s := StateOf(log);
    var r := ImportMemory(cx, s, requestId, id, filename, revision);
    if r.Ok? && Normalize(cx, r.value).Ok? {
      var o := s.objects[ObjectKey(Memory, id)];
      var i := ObjectIsLastMutation(cx, log, ObjectKey(Memory, id));
      var a := LegacyAlias(Memory, id, revision, cx.hash(o.content), Key(Note, filename));
      var target := Change(a.target, 0, o.content, None, false);
      assert r.value == ImportRequest(cx, requestId, a, target);
      ImportOutcome(cx, log, requestId, a, target, now, rnd);
    }
  }

  /** The same of a skill import, whose package must be valid. */
  lemma SkillImportIff(cx: Codec, log: seq<Record>, requestId: string, id: string, authority: string, revision: nat,
                       now: int, rnd: Entropy)
    requires IsHistory(cx, log) && AliasRoundTrip(cx) && FreshId(StateOf(log), requestId)
    ensures var r := ImportSkill(cx, StateOf(log), requestId, id, authority, revision);
            && (r.Ok? <==>
                && SourceIsLive(StateOf(log), ObjectKey(Skills, id), revision) && LogicalId(authority)
                && cx.skillOk(id, {("SKILL.md", StateOf(log).objects[ObjectKey(Skills, id)].content)}))
            && (r.Ok? && Normalize(cx, r.value).Ok? ==>
                  var outcome := BatchOutcome(cx, StateOf(log), r.value, now, rnd);
                  && outcome.Append?
                  && (outcome.result.error == NoReason <==>
                      && ChangesTo(log, Key(SkillsPackage, id)) == 0 && ChangesTo(log, AliasKey(Skills, id)) == 0
                      && ValidMemoryPaths(StateOf(log).native, r.value.changes)))
  {
    hide IsHistory, StateOf, Normalize, AliasRoundTrip, BatchOutcome, ChangesTo, ValidMemoryPaths, FreshId, LogicalId;
    var s := StateOf(log);
    var r := ImportSkill(cx, s, requestId, id, authority, revision);
    if SourceIsLive(s, ObjectKey(Skills, id), revision) {
      var o := s.objects[ObjectKey(Skills, id)];
      var p := Package(authority, true, [File("SKILL.md", o.content, "")]);
      OnePair(File("SKILL.md", o.content, ""));
      var a := LegacyAlias(Skills, id, revision, cx.hash(o.content), Key(SkillsPackage, id));
      var target := Change(a.target, 0, "", Some(p), false);
      if r.Ok? && Normalize(cx, r.value).Ok? {
        var i := ObjectIsLastMutation(cx, log, ObjectKey(Skills, id));
        assert r.value == ImportRequest(cx, requestId, a, target);
        ImportOutcome(cx, log, requestId, a, target, now, rnd);
      }
    }
  }

  lemma OnePair(f: File)
    ensures Pairs([f]) == {(f.path, f.content)}
  {
  }
}
