/** Migration aliases: a batch that publishes the native replacement of a version 1 object records,
    in the same batch, the revision and hash of the object it replaces. */
module Aliases {
  import opened Types
  import opened Text

  function CurrentObject(objects: map<ObjectKey, Object>, k: ObjectKey): Object {
    if k in objects then objects[k] else Object("", "", 0, false)
  }

  function AliasSource(a: LegacyAlias): ObjectKey {
    ObjectKey(a.collection, a.id)
  }

  predicate AliasShapeOk(cx: Codec, a: LegacyAlias, k: Key) {
    && LogicalId(a.id)
    && ((a.collection.Memory? && a.target.domain.Note? && cx.noteFilename(a.target.name))
        || (a.collection.Skills? && a.target.domain.SkillsPackage? && a.target.name == a.id))
    && k == AliasKey(a.collection, a.id)
  }

  /** The source object is live, at the recorded revision and with the recorded hash. */
  predicate SourceMatches(cx: Codec, objects: map<ObjectKey, Object>, a: LegacyAlias) {
    var prev := CurrentObject(objects, AliasSource(a));
    prev.revision == a.revision && !prev.deleted && a.revision != 0 && cx.hash(prev.content) == a.sourceHash
  }

  /** `target` publishes the content of the source object. */
  predicate Publishes(target: Change, a: LegacyAlias, content: string) {
    && target.key == a.target && !target.deleted
    && if a.collection.Memory? then target.content == content
       else
         && a.collection.Skills? && target.package.Some? && |target.package.value.files| == 1
         && target.package.value.files[0].path == "SKILL.md" && target.package.value.files[0].content == content
  }

  function AliasRefusalOf(cx: Codec, objects: map<ObjectKey, Object>, q: NativeRequest, c: Change): Reason {
    if !c.key.domain.Migration? then NoReason
    else if !q.operation.ImportV1? || !q.actor.kind.MigrationActor? || c.deleted then InvalidMigration
    else match cx.readAlias(c.content)
      case None => InvalidMigration
      case Some(a) =>
        if !AliasShapeOk(cx, a, c.key) then InvalidMigration
        else if !SourceMatches(cx, objects, a) then SourceRevisionConflict
        else if !exists t ::
            t in q.changes && Publishes(t, a, CurrentObject(objects, AliasSource(a)).content) then
            MissingMigrationTarget
        else NoReason
  }

  /** The first refusal among `cs`. */
  function AliasRefusal(cx: Codec, objects: map<ObjectKey, Object>, q: NativeRequest, cs: seq<Change>): (r: Reason)
    ensures r == NoReason ==> forall c :: c in cs ==> AliasRefusalOf(cx, objects, q, c) == NoReason
  {
    if cs == [] then NoReason
    else
      var first := AliasRefusalOf(cx, objects, q, cs[0]);
      if first != NoReason then first else AliasRefusal(cx, objects, q, cs[1..])
  }

  lemma {:induction false} AliasRefusalAt(cx: Codec, objects: map<ObjectKey, Object>, q: NativeRequest,
                                          cs: seq<Change>, i: nat)
    requires i < |cs| && forall j :: 0 <= j < i ==> AliasRefusalOf(cx, objects, q, cs[j]) == NoReason
    requires AliasRefusalOf(cx, objects, q, cs[i]) != NoReason
    ensures AliasRefusal(cx, objects, q, cs) == AliasRefusalOf(cx, objects, q, cs[i])
  {
    if i > 0 {
      AliasRefusalAt(cx, objects, q, cs[1..], i - 1);
    }
  }

  lemma {:induction false} NoAliasRefusal(cx: Codec, objects: map<ObjectKey, Object>, q: NativeRequest, cs: seq<Change>)
    requires forall c :: c in cs ==> AliasRefusalOf(cx, objects, q, c) == NoReason
    ensures AliasRefusal(cx, objects, q, cs) == NoReason
  {
    if cs != [] {
      NoAliasRefusal(cx, objects, q, cs[1..]);
    }
  }

  /** The inner loop of the source, which looks for the replacement of one object. */
  method FindTarget(changes: seq<Change>, a: LegacyAlias, content: string) returns (found: bool)
    ensures found <==> exists t :: t in changes && Publishes(t, a, content)
  {
    found := false;
    for i := 0 to |changes|
      invariant found <==> exists j :: 0 <= j < i && Publishes(changes[j], a, content)
    {
      var target := changes[i];
      if target.key == a.target && !target.deleted {
        if a.collection.Memory? && target.content == content {
          found := true;
        }
        if a.collection.Skills? && target.package.Some? && |target.package.value.files| == 1
           && target.package.value.files[0].path == "SKILL.md" && target.package.value.files[0].content == content {
          found := true;
        }
      }
    }
    if t :| t in changes && Publishes(t, a, content) {
      assert exists j :: 0 <= j < |changes| && changes[j] == t;
    }
  }

  method ValidateLegacyAlias(cx: Codec, objects: map<ObjectKey, Object>, q: NativeRequest) returns (reason: Reason)
    ensures reason == AliasRefusal(cx, objects, q, q.changes)
  {
    for i := 0 to |q.changes|
      invariant forall j :: 0 <= j < i ==> AliasRefusalOf(cx, objects, q, q.changes[j]) == NoReason
    {
      var c := q.changes[i];
      if c.key.domain.Migration? {
        if AliasRefusalOf(cx, objects, q, c) != NoReason {
          AliasRefusalAt(cx, objects, q, q.changes, i);
        }
        if !q.operation.ImportV1? || !q.actor.kind.MigrationActor? || c.deleted {
          return InvalidMigration;
        }
        var parsed := cx.readAlias(c.content);
        if parsed.None? || !AliasShapeOk(cx, parsed.value, c.key) {
          return InvalidMigration;
        }
        var a := parsed.value;
        if !SourceMatches(cx, objects, a) {
          return SourceRevisionConflict;
        }
        var found := FindTarget(q.changes, a, CurrentObject(objects, AliasSource(a)).content);
        if !found {
          return MissingMigrationTarget;
        }
      }
    }
    NoAliasRefusal(cx, objects, q, q.changes);
    reason := NoReason;
  }
}
