/** `SkillBundledEnsure`, read off the store and the manifest: when a call is sent, which refusal it gets
    otherwise, and what the request holds. */
module Ensuring {
  import opened Types
  import opened Text
  import opened Selection
  import opened Bundles

  /** The manifest that a call starts from: the stored one, whose names must be logical ids, or an empty
      one. */
  ghost predicate StartsFrom(cx: Codec, native: map<Key, Resource>, m: Manifest) {
    var k := Key(Maintenance, "skills/bundled.json");
    if k in native && native[k].revision > 0 && !native[k].deleted then
      && cx.readManifest(native[k].content) == Some(m)
      && forall id :: id in m.packages || id in m.managed ==> LogicalId(id)
    else m == Manifest([], [])
  }

  ghost predicate ValidDesired(cx: Codec, want: Desired) {
    && (forall i, j :: 0 <= i < j < |want.packages| ==> want.packages[i].packageId != want.packages[j].packageId)
    && (forall b :: b in want.packages ==>
          LogicalId(b.packageId) && LogicalId(want.authority) &&
              cx.skillOk(b.packageId, set f | f in b.files :: (f.path, f.content)))
  }

  /** The store has had a package of that name which is not managed. */
  ghost predicate Collides(native: map<Key, Resource>, m: Manifest, id: string) {
    SkillKey(id) in native && native[SkillKey(id)].revision > 0 && id !in m.packages && id !in m.managed
  }

  ghost predicate Present(native: map<Key, Resource>, id: string) {
    SkillKey(id) in native && native[SkillKey(id)].revision > 0 && !native[SkillKey(id)].deleted
  }

  ghost predicate Ours(native: map<Key, Resource>, authority: string, id: string) {
    && Present(native, id)
    && native[SkillKey(id)].package.Some? && native[SkillKey(id)].package.value.authority == authority
  }

  /** The desired package of that name cannot be installed. */
  ghost predicate Blocked(native: map<Key, Resource>, authority: string, m: Manifest, id: string) {
    Collides(native, m, id) || (Present(native, id) && !Ours(native, authority, id))
  }

  ghost predicate Dropped(m: Manifest, want: Desired, id: string) {
    id in m.packages && forall b :: b in want.packages ==> b.packageId != id
  }

  lemma StartsFromIff(cx: Codec, native: map<Key, Resource>, m: Manifest)
    ensures StartsFrom(cx, native, m) <==>
        ManifestOf(cx, native) == Ok(m) && forall id :: id in Managed(m) ==> LogicalId(id)
  {
  }

  lemma ValidDesiredIff(cx: Codec, want: Desired)
    ensures ValidDesired(cx, want) <==> DesiredOk(cx, want.authority, want.packages)
  {
  }

  lemma StepFails(native: map<Key, Resource>, authority: string, enabled: bool, m: Manifest, b: Bundled)
    ensures var step := PackageStep(native, authority, enabled, Managed(m), b);
            if Collides(native, m, b.packageId) then step == Err(PackageCollision)
            else if Blocked(native, authority, m, b.packageId) then step == Err(AuthorityMismatch)
            else step.Ok?
  {
    hide FilesEqual;
  }

  lemma DropFails(native: map<Key, Resource>, authority: string, m: Manifest, want: Desired, id: string)
    requires id in m.packages
    ensures DropStep(native, authority, DesiredIds(want.packages), id) ==
            if !Dropped(m, want, id) then Ok(None)
            else if Ours(native, authority, id) then
                Ok(Some(Change(SkillKey(id), native[SkillKey(id)].revision, "", None, true)))
            else Err(AuthorityMismatch)
  {
  }

  /** The desired packages in the order of their ids. */
  lemma SortedById(bs: seq<Bundled>)
    requires DistinctPackages(bs)
    ensures Ascending(SortedBundle(bs), By(IdText))
    ensures forall b :: b in bs <==> b in SortedBundle(bs)
  {
    hide Sort;
    SortPermutes(bs, By(IdText));
    ByOrders(bs, IdText);
    SortAscending(bs, By(IdText));
  }

  /** The loop stops at the first package that is blocked. */
  lemma FirstBlocked(native: map<Key, Resource>, authority: string, enabled: bool, m: Manifest, bs: seq<Bundled>,
                     n: nat)
    requires n < |bs| && Blocked(native, authority, m, bs[n].packageId)
    requires forall i :: 0 <= i < n ==> !Blocked(native, authority, m, bs[i].packageId)
    ensures PackageChanges(native, authority, enabled, Managed(m), bs) ==
        Err(if Collides(native, m, bs[n].packageId) then PackageCollision else AuthorityMismatch)
  {
    hide PackageStep, Blocked, Collides, Managed;
    forall b | b in bs[..n]
      ensures PackageStep(native, authority, enabled, Managed(m), b).Ok?
    {
      StepFails(native, authority, enabled, m, b);
      BlockedIfCollides(native, authority, m, b.packageId);
    }
    PackageChangesAre(native, authority, enabled, Managed(m), bs[..n]);
    StepFails(native, authority, enabled, m, bs[n]);
    assert bs[..n + 1][..n] == bs[..n] && bs[..n + 1][n] == bs[n];
    LaterPackagesFail(native, authority, enabled, Managed(m), bs, n + 1);
  }

  lemma BlockedIfCollides(native: map<Key, Resource>, authority: string, m: Manifest, id: string)
    ensures Collides(native, m, id) ==> Blocked(native, authority, m, id)
  {
  }

  lemma LeastBlocked(native: map<Key, Resource>, authority: string, m: Manifest, bs: seq<Bundled>) returns (n: nat)
    requires exists b :: b in bs && Blocked(native, authority, m, b.packageId)
    ensures n < |bs| && Blocked(native, authority, m, bs[n].packageId)
    ensures forall i :: 0 <= i < n ==> !Blocked(native, authority, m, bs[i].packageId)
  {
    n := 0;
    while !Blocked(native, authority, m, bs[n].packageId)
      invariant n < |bs| && forall i :: 0 <= i < n ==> !Blocked(native, authority, m, bs[i].packageId)
      invariant exists b :: b in bs && Blocked(native, authority, m, b.packageId)
      decreases |bs| - n
    {
      var b :| b in bs && Blocked(native, authority, m, b.packageId);
      var i :| 0 <= i < |bs| && bs[i] == b;
      n := n + 1;
    }
  }

  lemma {:induction false} DropError(native: map<Key, Resource>, authority: string, desired: set<string>,
                                     ids: seq<string>)
    ensures DropChanges(native, authority, desired, ids).Err? ==>
        DropChanges(native, authority, desired, ids).error == AuthorityMismatch
  {
    if ids != [] {
      DropError(native, authority, desired, ids[..|ids| - 1]);
    }
  }

  /** Every refusal of a call with a new id: an invalid desired set, an unreadable manifest, the first blocked
      package in the order of the ids, or a dropped package that is not there or not of this authority. */
  lemma EnsureRefusals(cx: Codec, s: State, requestId: string, want: Desired, m: Manifest)
    requires requestId !in s.nativeRequests
    ensures var a := EnsureAttempt(cx, s, requestId, want);
            && (!ValidDesired(cx, want) ==> a == Denied(InvalidPackage))
            && (ValidDesired(cx, want) && (forall any :: !StartsFrom(cx, s.native, any)) ==>
                a == Denied(InvalidManifest))
            && (ValidDesired(cx, want) && StartsFrom(cx, s.native, m) ==>
                if exists b :: b in want.packages && Blocked(s.native, want.authority, m, b.packageId) then
                  exists b :: b in want.packages && Blocked(s.native, want.authority, m, b.packageId)
                    && (forall d :: d in want.packages && Less(d.packageId, b.packageId) ==>
                        !Blocked(s.native, want.authority, m, d.packageId))
                    && a == Denied(if Collides(s.native, m, b.packageId) then PackageCollision else AuthorityMismatch)
                else if exists id :: Dropped(m, want, id) && !Ours(s.native, want.authority, id) then
                  a == Denied(AuthorityMismatch)
                else a.Send?)
  {
    hide DesiredOk, ValidDesired, StartsFrom, ManifestOf, Managed, Blocked, Ours, Collides, SortedBundle, LogicalId;
    hide PackageChanges, DropChanges, NewManifest, Dropped;
    ValidDesiredIff(cx, want);
    StartsFromIff(cx, s.native, m);
    if ValidDesired(cx, want) {
      if forall any :: !StartsFrom(cx, s.native, any) {
        NoManifest(cx, s.native);
      }
      if StartsFrom(cx, s.native, m) {
        PackagesDecide(cx, s.native, want, m);
        DropsDecide(cx, s.native, want, m);
      }
    }
  }

  lemma NoManifest(cx: Codec, native: map<Key, Resource>)
    requires forall any :: !StartsFrom(cx, native, any)
    ensures ManifestOf(cx, native).Ok? ==>
        exists id :: id in Managed(ManifestOf(cx, native).value) && !LogicalId(id)
    ensures ManifestOf(cx, native).Err? ==> ManifestOf(cx, native).error == InvalidManifest
  {
    hide LogicalId, StartsFrom;
    if ManifestOf(cx, native).Ok? {
      StartsFromIff(cx, native, ManifestOf(cx, native).value);
    }
  }

  lemma PackagesDecide(cx: Codec, native: map<Key, Resource>, want: Desired, m: Manifest)
    requires ValidDesired(cx, want)
    ensures var puts := PackageChanges(native, want.authority, want.enabled, Managed(m), SortedBundle(want.packages));
            if exists b :: b in want.packages && Blocked(native, want.authority, m, b.packageId) then
              exists b :: b in want.packages && Blocked(native, want.authority, m, b.packageId)
                && (forall d :: d in want.packages && Less(d.packageId, b.packageId) ==>
                    !Blocked(native, want.authority, m, d.packageId))
                && puts == Err(if Collides(native, m, b.packageId) then PackageCollision else AuthorityMismatch)
            else puts.Ok?
  {
    hide PackageChanges, PackageStep, Blocked, Collides, Managed, SortedBundle, LogicalId;
    var sorted := SortedBundle(want.packages);
    SortedById(want.packages);
    if exists b :: b in want.packages && Blocked(native, want.authority, m, b.packageId) {
      var n := LeastBlocked(native, want.authority, m, sorted);
      FirstBlocked(native, want.authority, want.enabled, m, sorted, n);
      forall d | d in want.packages && Less(d.packageId, sorted[n].packageId)
        ensures !Blocked(native, want.authority, m, d.packageId)
      {
        BeforeInOrder(sorted, n, d);
      }
    } else {
      forall b | b in sorted
        ensures PackageStep(native, want.authority, want.enabled, Managed(m), b).Ok?
      {
        StepFails(native, want.authority, want.enabled, m, b);
        BlockedIfCollides(native, want.authority, m, b.packageId);
      }
      PackageChangesAre(native, want.authority, want.enabled, Managed(m), sorted);
    }
  }

  lemma IdsAscend(sorted: seq<Bundled>)
    requires Ascending(sorted, By(IdText))
    ensures forall i, j :: 0 <= i < j < |sorted| ==> Less(sorted[i].packageId, sorted[j].packageId)
  {
    forall i, j | 0 <= i < j < |sorted|
      ensures Less(sorted[i].packageId, sorted[j].packageId)
    {
      assert By(IdText)(sorted[i], sorted[j]);
      assert Less(IdText(sorted[i]), IdText(sorted[j]));
    }
  }

  lemma BeforeInOrder(sorted: seq<Bundled>, n: nat, d: Bundled)
    requires Ascending(sorted, By(IdText)) && n < |sorted| && d in sorted && Less(d.packageId, sorted[n].packageId)
    ensures exists i :: 0 <= i < n && sorted[i] == d
  {
    hide Ascending;
    var i :| 0 <= i < |sorted| && sorted[i] == d;
    LessIsStrict(d.packageId, sorted[n].packageId);
    IdsAscend(sorted);
  }

  lemma DropsDecide(cx: Codec, native: map<Key, Resource>, want: Desired, m: Manifest)
    ensures var drops := DropChanges(native, want.authority, DesiredIds(SortedBundle(want.packages)), m.packages);
            if exists id :: Dropped(m, want, id) && !Ours(native, want.authority, id) then
                drops == Err(AuthorityMismatch)
            else drops.Ok?
  {
    hide DropChanges, DropStep, Ours, DesiredIds, SortedBundle;
    SortedDesired(cx, want.authority, want.packages);
    var desired := DesiredIds(want.packages);
    DropChangesAre(native, want.authority, desired, m.packages);
    DropError(native, want.authority, desired, m.packages);
    forall id | id in m.packages
      ensures DropStep(native, want.authority, desired, id).Ok? <==>
          !Dropped(m, want, id) || Ours(native, want.authority, id)
    {
      DropFails(native, want.authority, m, want, id);
    }
  }

  /** A call with a new id is sent if and only if the desired set is valid, the manifest is absent or
      readable, no desired package is blocked, and every dropped one is there and of this authority. */
  lemma EnsureSendsIff(cx: Codec, s: State, requestId: string, want: Desired)
    requires requestId !in s.nativeRequests
    ensures EnsureAttempt(cx, s, requestId, want).Send? <==>
              && ValidDesired(cx, want)
              && exists m :: StartsFrom(cx, s.native, m)
                  && (forall b :: b in want.packages ==> !Blocked(s.native, want.authority, m, b.packageId))
                  && (forall id :: Dropped(m, want, id) ==> Ours(s.native, want.authority, id))
  {
    hide ValidDesired, StartsFrom, Blocked, Ours, Collides, EnsureAttempt, Dropped;
    if ValidDesired(cx, want) && exists m :: StartsFrom(cx, s.native, m) {
      forall m | StartsFrom(cx, s.native, m)
        ensures EnsureAttempt(cx, s, requestId, want).Send? <==>
              && (forall b :: b in want.packages ==> !Blocked(s.native, want.authority, m, b.packageId))
              && (forall id :: Dropped(m, want, id) ==> Ours(s.native, want.authority, id))
      {
        EnsureRefusals(cx, s, requestId, want, m);
      }
    } else {
      EnsureRefusals(cx, s, requestId, want, Manifest([], []));
    }
  }

  /** The write that brings a desired package: at the revision of the store, also of a tombstone, and with the
      enabled flag that is stored, or the caller's for a package that is not there. */
  ghost predicate IsInstall(native: map<Key, Resource>, want: Desired, b: Bundled, c: Change) {
    && c.key == SkillKey(b.packageId) && c.content == "" && !c.deleted
    && c.expectedRevision == (if SkillKey(b.packageId) in native then native[SkillKey(b.packageId)].revision else 0)
    && c.package.Some? && c.package.value.authority == want.authority && c.package.value.files == b.files
    && (Present(native, b.packageId) ==>
          && native[SkillKey(b.packageId)].package.Some?
          && c.package.value.enabled == native[SkillKey(b.packageId)].package.value.enabled
          && !FilesEqual(native[SkillKey(b.packageId)].package.value.files, b.files))
    && (!Present(native, b.packageId) ==> c.package.value.enabled == want.enabled)
  }

  /** The tombstone of a dropped package, at the revision of the store. */
  ghost predicate IsDrop(native: map<Key, Resource>, m: Manifest, want: Desired, id: string, c: Change) {
    && Dropped(m, want, id) && SkillKey(id) in native
    && c == Change(SkillKey(id), native[SkillKey(id)].revision, "", None, true)
  }

  /** The request that is sent has one write for every desired package that is not there with its files, one
      tombstone for every dropped package, and the new manifest, which lists the desired ids and all that were
      ever managed, both in order. */
  lemma EnsureSent(cx: Codec, s: State, requestId: string, want: Desired, m: Manifest)
    requires requestId !in s.nativeRequests && StartsFrom(cx, s.native, m)
    requires EnsureAttempt(cx, s, requestId, want).Send?
    ensures var q := EnsureAttempt(cx, s, requestId, want).request;
            && q.requestId == requestId && q.job.None? && q.operation == Named("skills.bundled.ensure")
            && exists next: Manifest ::
                && ListsInOrder(next.packages, DesiredIds(want.packages))
                && ListsInOrder(next.managed, (set id | id in m.packages) + (set id | id in m.managed) +
                    DesiredIds(want.packages))
                && forall c :: c in q.changes <==>
                    || (exists b :: b in want.packages && IsInstall(s.native, want, b, c))
                    || (exists id :: IsDrop(s.native, m, want, id, c))
                    || c == Change(MANIFEST_KEY, Current(s.native, MANIFEST_KEY).revision, cx.manifestJson(next), None,
                        false)
  {
    hide EnsureRequest, ManifestOf, StartsFrom, NewManifest, PackageStep, DropStep, IsInstall, IsDrop, SortedBundle;
    hide DesiredIds, LogicalId, ListsInOrder, Managed, DesiredOk;
    StartsFromIff(cx, s.native, m);
    EnsureHeader(cx, s.native, requestId, want);
    EnsureHasNoCommand(cx, s.native, requestId, want);
    EnsureChanges(cx, s.native, requestId, want);
    ValidDesiredIff(cx, want);
    NextManifest(cx, m, want);
    var next := NewManifest(m, SortedBundle(want.packages));
    forall c
      ensures IsStep(s.native, want.authority, want.enabled, m, want.packages, c) <==>
          || (exists b :: b in want.packages && IsInstall(s.native, want, b, c))
          || (exists id :: IsDrop(s.native, m, want, id, c))
    {
      StepIff(s.native, want, m, c);
    }
  }

  lemma EnsureHasNoCommand(cx: Codec, native: map<Key, Resource>, requestId: string, want: Desired)
    requires EnsureRequest(cx, native, requestId, want).Ok?
    ensures EnsureRequest(cx, native, requestId, want).value.job.None?
  {
    hide PackageChanges, DropChanges, DesiredOk, LogicalId, NewManifest;
  }

  lemma NextManifest(cx: Codec, m: Manifest, want: Desired)
    requires DesiredOk(cx, want.authority, want.packages)
    ensures var next := NewManifest(m, SortedBundle(want.packages));
            && ListsInOrder(next.packages, DesiredIds(want.packages))
            && ListsInOrder(next.managed, (set id | id in m.packages) + (set id | id in m.managed) +
                DesiredIds(want.packages))
  {
    hide SkillOk, SortedBundle, Ascending;
    var sorted := SortedBundle(want.packages);
    SortedById(want.packages);
    SortedDesired(cx, want.authority, want.packages);
    ManagedGrows(m, want.packages);
    IdsAscend(sorted);
    AscendingIs(PackageIds(sorted));
    assert Managed(m) + DesiredIds(sorted) ==
        (set id | id in m.packages) + (set id | id in m.managed) + DesiredIds(want.packages);
  }

  lemma AscendingIs(ids: seq<string>)
    requires forall i, j :: 0 <= i < j < |ids| ==> Less(ids[i], ids[j])
    ensures ListsInOrder(ids, set id | id in ids)
  {
  }

  lemma StepIff(native: map<Key, Resource>, want: Desired, m: Manifest, c: Change)
    requires forall b :: b in want.packages ==>
        PackageStep(native, want.authority, want.enabled, Managed(m), b).Ok?
    requires forall id :: id in m.packages ==> DropStep(native, want.authority, DesiredIds(want.packages), id).Ok?
    ensures IsStep(native, want.authority, want.enabled, m, want.packages, c) <==>
        || (exists b :: b in want.packages && IsInstall(native, want, b, c))
        || (exists id :: IsDrop(native, m, want, id, c))
  {
    hide PackageStep, DropStep, IsInstall, Ours, DesiredIds, Managed;
    forall b | b in want.packages
      ensures PackageStep(native, want.authority, want.enabled, Managed(m), b) == Ok(Some(c)) <==>
          IsInstall(native, want, b, c)
    {
      InstallIff(native, want, m, b, c);
    }
    forall id | id in m.packages
      ensures DropStep(native, want.authority, DesiredIds(want.packages), id) == Ok(Some(c)) <==>
          IsDrop(native, m, want, id, c)
    {
      DropFails(native, want.authority, m, want, id);
      OursIsThere(native, want.authority, id);
    }
  }

  lemma OursIsThere(native: map<Key, Resource>, authority: string, id: string)
    ensures Ours(native, authority, id) ==> SkillKey(id) in native
  {
  }

  lemma InstallIff(native: map<Key, Resource>, want: Desired, m: Manifest, b: Bundled, c: Change)
    requires PackageStep(native, want.authority, want.enabled, Managed(m), b).Ok?
    ensures PackageStep(native, want.authority, want.enabled, Managed(m), b) == Ok(Some(c)) <==>
        IsInstall(native, want, b, c)
  {
    hide FilesEqual, Managed;
  }
}
