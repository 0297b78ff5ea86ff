/** `SkillBundledEnsure`: bring the installed packages of one authority to a desired set, keeping what
    the user chose, and remember every package that was ever managed. */
module Bundles {
  import opened Types
  import opened Text
  import opened Normalization
  import opened Selection
  import opened MemoryTree
  import opened Engine
  import opened History
  import opened Counting
  import opened Publishing
  import MemoryView
  import Requests
  import Retries

  const MANIFEST_KEY := Key(Maintenance, "skills/bundled.json")

  function SkillKey(id: string): Key { Key(SkillsPackage, id) }

  function IdText(b: Bundled): string { b.packageId }

  predicate SkillOk(cx: Codec, id: string, authority: string, files: seq<File>) {
    LogicalId(id) && LogicalId(authority) && cx.skillOk(id, Pairs(files))
  }

  // ----- nativeFilesEqual -----

  predicate FilesEqual(a: seq<File>, b: seq<File>) {
    var l, r := Sort(a, By(PathText)), Sort(b, By(PathText));
    |l| == |r| && forall i :: 0 <= i < |l| ==> l[i].path == r[i].path && l[i].content == r[i].content
  }

  method NativeFilesEqual(a: seq<File>, b: seq<File>) returns (equal: bool)
    ensures equal == FilesEqual(a, b)
  {
    hide Sort;
    SortPermutes(a, By(PathText));
    SortPermutes(b, By(PathText));
    if |a| != |b| {
      return false;
    }
    var left, right := Sort(a, By(PathText)), Sort(b, By(PathText));
    for i := 0 to |left|
      invariant forall j :: 0 <= j < i ==> left[j].path == right[j].path && left[j].content == right[j].content
    {
      if left[i].path != right[i].path || left[i].content != right[i].content {
        return false;
      }
    }
    equal := true;
  }

  lemma {:induction false} InsertHashed(cx: Codec, x: File, xs: seq<File>)
    ensures Insert(x.(sha256 := cx.hash(x.content)), HashFiles(cx, xs), By(PathText)) ==
        HashFiles(cx, Insert(x, xs, By(PathText)))
  {
    var y := x.(sha256 := cx.hash(x.content));
    if xs == [] {
    } else if By(PathText)(x, xs[0]) {
      assert PathText(y) == PathText(x) && PathText(HashFiles(cx, xs)[0]) == PathText(xs[0]);
      assert HashFiles(cx, [x] + xs) == [y] + HashFiles(cx, xs);
    } else {
      InsertHashed(cx, x, xs[1..]);
      assert PathText(y) == PathText(x) && PathText(HashFiles(cx, xs)[0]) == PathText(xs[0]);
      assert HashFiles(cx, xs)[1..] == HashFiles(cx, xs[1..]);
    }
  }

  /** Hashing does not move files. */
  lemma {:induction false} SortHashed(cx: Codec, xs: seq<File>)
    ensures SortedFiles(cx, xs) == HashFiles(cx, Sort(xs, By(PathText)))
  {
    if xs != [] {
      SortHashed(cx, xs[1..]);
      InsertHashed(cx, xs[0], Sort(xs[1..], By(PathText)));
      assert HashFiles(cx, xs)[1..] == HashFiles(cx, xs[1..]);
    }
  }

  /** The stored form of a package equals the files it was made from. */
  lemma StoredEqual(cx: Codec, files: seq<File>)
    requires FilesOk(files)
    ensures FilesEqual(SortedFiles(cx, files), files)
  {
    SortHashed(cx, files);
    SortedFilesAscend(cx, files);
    SortOfAscending(SortedFiles(cx, files), By(PathText));
  }

  // ----- the request -----

  function ManifestOf(cx: Codec, native: map<Key, Resource>): Result<Manifest> {
    if !Live(native, MANIFEST_KEY) then Ok(Manifest([], []))
    else match cx.readManifest(native[MANIFEST_KEY].content)
      case None => Err(InvalidManifest)
      case Some(m) => Ok(m)
  }

  function Managed(m: Manifest): set<string> {
    (set id | id in m.managed) + (set id | id in m.packages)
  }

  /** What a desired package needs: nothing, or one change. */
  function PackageStep(native: map<Key, Resource>, authority: string, enabled: bool, managed: set<string>,
                       b: Bundled): Result<Option<Change>>
  {
    var prev := Current(native, SkillKey(b.packageId));
    if prev.revision != 0 && b.packageId !in managed then Err(PackageCollision)
    else if prev.revision != 0 && !prev.deleted then
      if prev.package.None? || prev.package.value.authority != authority then Err(AuthorityMismatch)
      else if FilesEqual(prev.package.value.files, b.files) then Ok(None)
      else Ok(Some(Change(SkillKey(b.packageId), prev.revision, "", Some(Package(authority,
          prev.package.value.enabled, b.files)), false)))
    else Ok(Some(Change(SkillKey(b.packageId), prev.revision, "", Some(Package(authority, enabled, b.files)), false)))
  }

  /** What a package of the previous manifest needs. */
  function DropStep(native: map<Key, Resource>, authority: string, desired: set<string>,
                    id: string): Result<Option<Change>>
  {
    var prev := Current(native, SkillKey(id));
    if id in desired then Ok(None)
    else if prev.revision == 0 || prev.deleted || prev.package.None? || prev.package.value.authority != authority then
        Err(AuthorityMismatch)
    else Ok(Some(Change(SkillKey(id), prev.revision, "", None, true)))
  }

  function Listed(c: Option<Change>): seq<Change> {
    if c.Some? then [c.value] else []
  }

  function PackageChanges(native: map<Key, Resource>, authority: string, enabled: bool, managed: set<string>,
                          bs: seq<Bundled>): Result<seq<Change>>
  {
    if bs == [] then Ok([])
    else match PackageChanges(native, authority, enabled, managed, bs[..|bs| - 1])
      case Err(e) => Err(e)
      case Ok(cs) =>
        match PackageStep(native, authority, enabled, managed, bs[|bs| - 1])
        case Err(e) => Err(e)
        case Ok(c) => Ok(cs + Listed(c))
  }

  function DropChanges(native: map<Key, Resource>, authority: string, desired: set<string>,
                       ids: seq<string>): Result<seq<Change>>
  {
    if ids == [] then Ok([])
    else match DropChanges(native, authority, desired, ids[..|ids| - 1])
      case Err(e) => Err(e)
      case Ok(cs) =>
        match DropStep(native, authority, desired, ids[|ids| - 1])
        case Err(e) => Err(e)
        case Ok(c) => Ok(cs + Listed(c))
  }

  function DesiredIds(bs: seq<Bundled>): set<string> {
    set b | b in bs :: b.packageId
  }

  predicate DesiredOk(cx: Codec, authority: string, bs: seq<Bundled>) {
    && (forall i, j :: 0 <= i < j < |bs| ==> bs[i].packageId != bs[j].packageId)
    && (forall b :: b in bs ==> SkillOk(cx, b.packageId, authority, b.files))
  }

  function SortedBundle(bs: seq<Bundled>): seq<Bundled> {
    Sort(bs, By(IdText))
  }

  function PackageIds(bs: seq<Bundled>): (ids: seq<string>)
    ensures |ids| == |bs|
    ensures forall i :: 0 <= i < |bs| ==> ids[i] == bs[i].packageId
  {
    if bs == [] then [] else [bs[0].packageId] + PackageIds(bs[1..])
  }

  ghost function NewManifest(previous: Manifest, sorted: seq<Bundled>): Manifest {
    Manifest(PackageIds(sorted), Ordered(Managed(previous) + DesiredIds(sorted)))
  }

  const ENSURE := Named("skills.bundled.ensure")

  /** The intent covers every argument of the call. */
  function EnsureIntent(cx: Codec, want: Desired): string {
    Requests.Intent(cx, cx.desiredJson(want))
  }

  ghost function EnsureRequest(cx: Codec, native: map<Key, Resource>, requestId: string,
                               want: Desired): Result<NativeRequest>
  {
    if !DesiredOk(cx, want.authority, want.packages) then Err(InvalidPackage)
    else match ManifestOf(cx, native)
      case Err(e) => Err(e)
      case Ok(previous) =>
        if exists id :: id in Managed(previous) && !LogicalId(id) then Err(InvalidManifest)
        else
          var sorted := SortedBundle(want.packages);
          match PackageChanges(native, want.authority, want.enabled, Managed(previous), sorted)
          case Err(e) => Err(e)
          case Ok(puts) =>
            match DropChanges(native, want.authority, DesiredIds(sorted), previous.packages)
            case Err(e) => Err(e)
            case Ok(drops) =>
              var manifest := Change(MANIFEST_KEY, Current(native, MANIFEST_KEY).revision,
                  cx.manifestJson(NewManifest(previous, sorted)), None, false);
              Ok(NativeRequest(requestId, Actor(MaintenanceActor, want.authority, ""), ENSURE, EnsureIntent(cx, want),
                  puts + drops + [manifest], None))
  }

  // ----- the loops of the source -----

  method CheckDesired(cx: Codec, authority: string, sorted: seq<Bundled>) returns (ok: bool, desired: set<string>)
    ensures ok <==> DesiredOk(cx, authority, sorted)
    ensures ok ==> desired == DesiredIds(sorted)
  {
    desired := {};
    for i := 0 to |sorted|
      invariant forall id :: id in desired <==> exists j :: 0 <= j < i && sorted[j].packageId == id
      invariant forall j, k :: 0 <= j < k < i ==> sorted[j].packageId != sorted[k].packageId
      invariant forall j :: 0 <= j < i ==> SkillOk(cx, sorted[j].packageId, authority, sorted[j].files)
    {
      if sorted[i].packageId in desired || !SkillOk(cx, sorted[i].packageId, authority, sorted[i].files) {
        assert sorted[i] in sorted;
        return false, desired;
      }
      desired := desired + {sorted[i].packageId};
    }
    ok := true;
  }

  lemma {:induction false} LaterPackagesFail(native: map<Key, Resource>, authority: string, enabled: bool,
                                             managed: set<string>, bs: seq<Bundled>, n: nat)
    requires n <= |bs| && PackageChanges(native, authority, enabled, managed, bs[..n]).Err?
    ensures PackageChanges(native, authority, enabled, managed, bs) ==
        PackageChanges(native, authority, enabled, managed, bs[..n])
  {
    hide PackageStep;
    if n == |bs| {
      assert bs[..n] == bs;
    } else {
      var front := bs[..|bs| - 1];
      assert front[..n] == bs[..n];
      LaterPackagesFail(native, authority, enabled, managed, front, n);
    }
  }

  lemma {:induction false} LaterDropsFail(native: map<Key, Resource>, authority: string, desired: set<string>,
                                          ids: seq<string>, n: nat)
    requires n <= |ids| && DropChanges(native, authority, desired, ids[..n]).Err?
    ensures DropChanges(native, authority, desired, ids) == DropChanges(native, authority, desired, ids[..n])
  {
    hide DropStep;
    if n == |ids| {
      assert ids[..n] == ids;
    } else {
      var front := ids[..|ids| - 1];
      assert front[..n] == ids[..n];
      LaterDropsFail(native, authority, desired, front, n);
    }
  }

  method CollectPackages(native: map<Key, Resource>, authority: string, enabled: bool, managed0: set<string>,
                         sorted: seq<Bundled>)
      returns (r: Result<seq<Change>>, managed: set<string>)
    requires forall i, j :: 0 <= i < j < |sorted| ==> sorted[i].packageId != sorted[j].packageId
    requires forall k :: k in native ==> native[k].revision >= 1
    ensures r == PackageChanges(native, authority, enabled, managed0, sorted)
    ensures r.Ok? ==> managed == managed0 + DesiredIds(sorted)
  {
    var changes: seq<Change> := [];
    managed := managed0;
    for i := 0 to |sorted|
      invariant PackageChanges(native, authority, enabled, managed0, sorted[..i]) == Ok(changes)
      invariant forall id :: id in managed <==> id in managed0 || exists j :: 0 <= j < i && sorted[j].packageId == id
    {
      var b := sorted[i];
      assert sorted[..i + 1][..i] == sorted[..i];
      var prev := Current(native, SkillKey(b.packageId));
      var active := enabled;
      var step := PackageStep(native, authority, enabled, managed0, b);
      assert b.packageId in managed <==> b.packageId in managed0;
      if prev.revision != 0 && b.packageId !in managed {
        LaterPackagesFail(native, authority, enabled, managed0, sorted, i + 1);
        return Err(PackageCollision), managed;
      }
      var skip := false;
      if prev.revision != 0 && !prev.deleted {
        if prev.package.None? || prev.package.value.authority != authority {
          LaterPackagesFail(native, authority, enabled, managed0, sorted, i + 1);
          return Err(AuthorityMismatch), managed;
        }
        active := prev.package.value.enabled;
        skip := NativeFilesEqual(prev.package.value.files, b.files);
      }
      if !skip {
        managed := managed + {b.packageId};
        changes := changes + [Change(SkillKey(b.packageId), prev.revision, "",
            Some(Package(authority, active, b.files)), false)];
      } else {
        assert changes + [] == changes;
      }
    }
    assert sorted[..|sorted|] == sorted;
    r := Ok(changes);
    assert managed == managed0 + DesiredIds(sorted);
  }

  method CollectDrops(native: map<Key, Resource>, authority: string, desired: set<string>, ids: seq<string>)
      returns (r: Result<seq<Change>>)
    ensures r == DropChanges(native, authority, desired, ids)
  {
    var changes: seq<Change> := [];
    for i := 0 to |ids|
      invariant DropChanges(native, authority, desired, ids[..i]) == Ok(changes)
    {
      assert ids[..i + 1][..i] == ids[..i];
      assert changes + [] == changes;
      if ids[i] !in desired {
        var prev := Current(native, SkillKey(ids[i]));
        if prev.revision == 0 || prev.deleted || prev.package.None? || prev.package.value.authority != authority {
          LaterDropsFail(native, authority, desired, ids, i + 1);
          return Err(AuthorityMismatch);
        }
        changes := changes + [Change(SkillKey(ids[i]), prev.revision, "", None, true)];
      }
    }
    assert ids[..|ids|] == ids;
    r := Ok(changes);
  }

  // ----- the whole call -----

  /** What a call comes to before `NativeBatch`: the receipt of an earlier one, a refusal, or a request. */
  datatype Attempt = Known(receipt: NativeResult) | Denied(error: Refusal) | Send(request: NativeRequest)

  /** `skillRequestReplay`, and then the request. */
  ghost function EnsureAttempt(cx: Codec, s: State, requestId: string, want: Desired): Attempt {
    if requestId in s.nativeRequests then
      var r := s.nativeRequests[requestId];
      if r.request.operation != ENSURE || r.request.intent != EnsureIntent(cx, want) then
          Denied(ReusedWithOtherArguments)
      else Known(JsonResult(r.result))
    else match EnsureRequest(cx, s.native, requestId, want)
      case Err(e) => Denied(e)
      case Ok(q) => Send(q)
  }

  method SkillBundledEnsure(cx: Codec, s: State, requestId: string, want: Desired) returns (a: Attempt)
    requires ResourcesOk(s.native)
    ensures a == EnsureAttempt(cx, s, requestId, want)
  {
    hide PackageChanges, DropChanges, Sort;
    if requestId in s.nativeRequests {
      var r := s.nativeRequests[requestId];
      if r.request.operation != ENSURE || r.request.intent != EnsureIntent(cx, want) {
        return Denied(ReusedWithOtherArguments);
      }
      return Known(JsonResult(r.result));
    }
    var sorted := SortedBundle(want.packages);
    SortedDesired(cx, want.authority, want.packages);
    var ok, desired := CheckDesired(cx, want.authority, sorted);
    if !ok {
      return Denied(InvalidPackage);
    }
    var read := ManifestOf(cx, s.native);
    if read.Err? {
      return Denied(read.error);
    }
    var previous := read.value;
    var managed := Managed(previous);
    if exists id :: id in managed && !LogicalId(id) {
      return Denied(InvalidManifest);
    }
    var puts, all := CollectPackages(s.native, want.authority, want.enabled, managed, sorted);
    if puts.Err? {
      return Denied(puts.error);
    }
    var drops := CollectDrops(s.native, want.authority, desired, previous.packages);
    if drops.Err? {
      return Denied(drops.error);
    }
    var names := MemoryView.SortedKeys(all);
    var content := cx.manifestJson(Manifest(PackageIds(sorted), names));
    var marker := Change(MANIFEST_KEY, Current(s.native, MANIFEST_KEY).revision, content, None, false);
    a := Send(NativeRequest(requestId, Actor(MaintenanceActor, want.authority, ""), ENSURE, EnsureIntent(cx, want),
        puts.value + drops.value + [marker], None));
  }

  /** Sorting changes neither the validity of a desired set nor its ids. */
  lemma SortedDesired(cx: Codec, authority: string, bs: seq<Bundled>)
    ensures DesiredOk(cx, authority, SortedBundle(bs)) <==> DesiredOk(cx, authority, bs)
    ensures DesiredIds(SortedBundle(bs)) == DesiredIds(bs)
    ensures forall b :: b in bs <==> b in SortedBundle(bs)
  {
    hide Sort, SkillOk;
    SortPermutes(bs, By(IdText));
    if DistinctPackages(bs) {
      PermutedIds(bs, SortedBundle(bs));
    }
    if DistinctPackages(SortedBundle(bs)) {
      PermutedIds(SortedBundle(bs), bs);
    }
  }

  ghost predicate DistinctPackages(bs: seq<Bundled>) {
    forall i, j :: 0 <= i < j < |bs| ==> bs[i].packageId != bs[j].packageId
  }

  lemma PermutedIds(xs: seq<Bundled>, ys: seq<Bundled>)
    requires multiset(xs) == multiset(ys) && DistinctPackages(xs)
    ensures DistinctPackages(ys)
  {
    DistinctCounts(xs);
    forall i, j | 0 <= i < j < |ys|
      ensures ys[i].packageId != ys[j].packageId
    {
      assert ys[i] in multiset(xs) && ys[j] in multiset(xs);
      if ys[i] == ys[j] {
        RepeatCounts(ys, i, j);
      }
    }
  }

  // ----- what a committed call does -----

  /** Two packages are equal when they have the same paths with the same contents, in any order. */
  lemma FilesEqualIff(cx: Codec, a: seq<File>, b: seq<File>)
    requires forall i, j :: 0 <= i < j < |a| ==> a[i].path != a[j].path
    requires forall i, j :: 0 <= i < j < |b| ==> b[i].path != b[j].path
    ensures FilesEqual(a, b) <==> Pairs(a) == Pairs(b)
  {
    hide Sort;
    if FilesEqual(a, b) {
      EqualPairs(a, b);
    }
    if Pairs(a) == Pairs(b) {
      SamePairsSameOrder(cx, a, b);
    }
  }

  lemma EqualPairs(a: seq<File>, b: seq<File>)
    requires FilesEqual(a, b)
    ensures Pairs(a) == Pairs(b)
  {
    hide Sort;
    SortPermutes(a, By(PathText));
    SortPermutes(b, By(PathText));
    var l, r := Sort(a, By(PathText)), Sort(b, By(PathText));
    forall f | f in a
      ensures (f.path, f.content) in Pairs(b)
    {
      var i :| 0 <= i < |l| && l[i] == f;
      assert r[i] in b;
    }
    forall f | f in b
      ensures (f.path, f.content) in Pairs(a)
    {
      var i :| 0 <= i < |r| && r[i] == f;
      assert l[i] in a;
    }
  }

  lemma HashedMembers(cx: Codec, a: seq<File>, b: seq<File>)
    requires Pairs(a) <= Pairs(b)
    ensures forall f :: f in HashFiles(cx, a) ==> f in HashFiles(cx, b)
  {
    var ha, hb := HashFiles(cx, a), HashFiles(cx, b);
    forall f | f in ha
      ensures f in hb
    {
      var i :| 0 <= i < |ha| && ha[i] == f;
      assert (a[i].path, a[i].content) in Pairs(a);
      var g :| g in b && (g.path, g.content) == (a[i].path, a[i].content);
      var j :| 0 <= j < |b| && b[j] == g;
      assert hb[j] == f;
    }
  }

  lemma SamePairsSameOrder(cx: Codec, a: seq<File>, b: seq<File>)
    requires forall i, j :: 0 <= i < j < |a| ==> a[i].path != a[j].path
    requires forall i, j :: 0 <= i < j < |b| ==> b[i].path != b[j].path
    requires Pairs(a) == Pairs(b)
    ensures FilesEqual(a, b)
  {
    hide Sort, By;
    var ha, hb := HashFiles(cx, a), HashFiles(cx, b);
    HashedMembers(cx, a, b);
    HashedMembers(cx, b, a);
    SameMembers(ha, hb);
    ByOrders(ha, PathText);
    ByOrders(hb, PathText);
    SortIsCanonical(ha, hb, By(PathText));
    SortHashed(cx, a);
    SortHashed(cx, b);
    HashedPointwise(cx, Sort(a, By(PathText)), Sort(b, By(PathText)));
  }

  lemma HashedPointwise(cx: Codec, l: seq<File>, r: seq<File>)
    requires HashFiles(cx, l) == HashFiles(cx, r)
    ensures |l| == |r| && forall i :: 0 <= i < |l| ==> l[i].path == r[i].path && l[i].content == r[i].content
  {
    forall i | 0 <= i < |l|
      ensures l[i].path == r[i].path && l[i].content == r[i].content
    {
      assert HashFiles(cx, l)[i] == HashFiles(cx, r)[i];
    }
  }

  lemma {:induction false} PackageChangesAre(native: map<Key, Resource>, authority: string, enabled: bool,
                                             managed: set<string>, bs: seq<Bundled>)
    ensures PackageChanges(native, authority, enabled, managed, bs).Ok? <==> forall b :: b in bs ==>
        PackageStep(native, authority, enabled, managed, b).Ok?
    ensures PackageChanges(native, authority, enabled, managed, bs).Ok? ==>
              forall c :: c in PackageChanges(native, authority, enabled, managed, bs).value <==>
                exists b :: b in bs && PackageStep(native, authority, enabled, managed, b) == Ok(Some(c))
  {
    hide PackageStep;
    if bs != [] {
      var front, last := bs[..|bs| - 1], bs[|bs| - 1];
      assert bs == front + [last];
      PackageChangesAre(native, authority, enabled, managed, front);
    }
  }

  lemma {:induction false} DropChangesAre(native: map<Key, Resource>, authority: string, desired: set<string>,
                                          ids: seq<string>)
    ensures DropChanges(native, authority, desired, ids).Ok? <==> forall id :: id in ids ==>
        DropStep(native, authority, desired, id).Ok?
    ensures DropChanges(native, authority, desired, ids).Ok? ==>
              forall c :: c in DropChanges(native, authority, desired, ids).value <==>
                exists id :: id in ids && DropStep(native, authority, desired, id) == Ok(Some(c))
  {
    hide DropStep;
    if ids != [] {
      var front, last := ids[..|ids| - 1], ids[|ids| - 1];
      assert ids == front + [last];
      DropChangesAre(native, authority, desired, front);
    }
  }

  /** A desired package after the call: live, with the desired files, and enabled as the user left it. */
  ghost predicate Installed(before: map<Key, Resource>, after: map<Key, Resource>, authority: string, enabled: bool,
                            b: Bundled)
  {
    var k := SkillKey(b.packageId);
    && Live(after, k)
    && after[k].package.Some?
    && after[k].package.value.authority == authority
    && FilesEqual(after[k].package.value.files, b.files)
    && (Live(before, k) ==>
        before[k].package.Some? && after[k].package.value.enabled == before[k].package.value.enabled)
    && (!Live(before, k) ==> after[k].package.value.enabled == enabled)
  }

  function SkillKeys(ids: set<string>): set<Key> {
    set id | id in ids :: SkillKey(id)
  }

  ghost predicate IsStep(native: map<Key, Resource>, authority: string, enabled: bool, previous: Manifest,
                         bs: seq<Bundled>, c: Change)
  {
    || (exists b :: b in bs && PackageStep(native, authority, enabled, Managed(previous), b) == Ok(Some(c)))
    || (exists id :: id in previous.packages && DropStep(native, authority, DesiredIds(bs), id) == Ok(Some(c)))
  }

  function Marker(cx: Codec, native: map<Key, Resource>, m: Manifest): Change {
    Change(MANIFEST_KEY, Current(native, MANIFEST_KEY).revision, cx.manifestJson(m), None, false)
  }

  /** The changes of the request are the steps that packages need, and the manifest. */
  lemma EnsureChanges(cx: Codec, native: map<Key, Resource>, requestId: string, want: Desired)
    requires EnsureRequest(cx, native, requestId, want).Ok?
    ensures DesiredOk(cx, want.authority, want.packages) && ManifestOf(cx, native).Ok?
    ensures forall b :: b in want.packages ==>
        PackageStep(native, want.authority, want.enabled, Managed(ManifestOf(cx, native).value), b).Ok?
    ensures forall id :: id in ManifestOf(cx, native).value.packages ==>
        DropStep(native, want.authority, DesiredIds(want.packages), id).Ok?
    ensures var previous := ManifestOf(cx, native).value;
            forall c :: c in EnsureRequest(cx, native, requestId, want).value.changes <==>
              c == Marker(cx, native, NewManifest(previous, SortedBundle(want.packages))) ||
                  IsStep(native, want.authority, want.enabled, previous, want.packages, c)
  {
    hide PackageStep, DropStep, PackageChanges, DropChanges, DesiredOk, NewManifest, ManifestOf, SortedBundle, Managed;
    var previous := ManifestOf(cx, native).value;
    var sorted := SortedBundle(want.packages);
    SortedDesired(cx, want.authority, want.packages);
    PackageChangesAre(native, want.authority, want.enabled, Managed(previous), sorted);
    DropChangesAre(native, want.authority, DesiredIds(sorted), previous.packages);
  }

  lemma SamePackage(bs: seq<Bundled>, b: Bundled, d: Bundled)
    requires DistinctPackages(bs) && b in bs && d in bs && b.packageId == d.packageId
    ensures b == d
  {
    var i :| 0 <= i < |bs| && bs[i] == b;
    var j :| 0 <= j < |bs| && bs[j] == d;
    assert i == j;
  }

  lemma PackageStepKey(native: map<Key, Resource>, authority: string, enabled: bool, managed: set<string>, b: Bundled)
    ensures var step := PackageStep(native, authority, enabled, managed, b);
            step.Ok? && step.value.Some? ==> step.value.value.key == SkillKey(b.packageId)
  {
    hide FilesEqual;
  }

  lemma DropStepKey(native: map<Key, Resource>, authority: string, desired: set<string>, id: string)
    ensures var step := DropStep(native, authority, desired, id);
            step.Ok? && step.value.Some? ==>
                step.value.value.key == SkillKey(id) && SkillKey(id) in native && id !in desired
  {
  }

  /** A step on the key of a desired package is the step of that package. */
  lemma StepOfKey(native: map<Key, Resource>, authority: string, enabled: bool, previous: Manifest, bs: seq<Bundled>,
                  c: Change, b: Bundled)
    requires DistinctPackages(bs) && b in bs && IsStep(native, authority, enabled, previous, bs, c)
    ensures c.key == SkillKey(b.packageId) ==>
        PackageStep(native, authority, enabled, Managed(previous), b) == Ok(Some(c))
  {
    hide PackageStep, DropStep, Managed;
    forall d | d in bs && d.packageId == b.packageId
      ensures d == b
    {
      SamePackage(bs, b, d);
    }
    forall d | d in bs && PackageStep(native, authority, enabled, Managed(previous), d) == Ok(Some(c))
      ensures c.key == SkillKey(d.packageId)
    {
      PackageStepKey(native, authority, enabled, Managed(previous), d);
    }
    forall id | id in previous.packages && DropStep(native, authority, DesiredIds(bs), id) == Ok(Some(c))
      ensures c.key == SkillKey(id) && id !in DesiredIds(bs)
    {
      DropStepKey(native, authority, DesiredIds(bs), id);
    }
  }

  /** A desired package that needs nothing is not touched. */
  lemma EnsureKeys(cx: Codec, native: map<Key, Resource>, requestId: string, want: Desired, b: Bundled)
    requires EnsureRequest(cx, native, requestId, want).Ok? && b in want.packages
    requires PackageStep(native, want.authority, want.enabled, Managed(ManifestOf(cx, native).value), b) == Ok(None)
    ensures SkillKey(b.packageId) !in ChangedKeys(EnsureRequest(cx, native, requestId, want).value.changes)
  {
    hide EnsureRequest, PackageStep, NewManifest, SkillOk, IsStep;
    EnsureChanges(cx, native, requestId, want);
    var previous := ManifestOf(cx, native).value;
    forall c | IsStep(native, want.authority, want.enabled, previous, want.packages, c)
      ensures c.key != SkillKey(b.packageId)
    {
      StepOfKey(native, want.authority, want.enabled, previous, want.packages, c, b);
    }
  }

  /** The record of a call that was committed in the state the call had read. */
  ghost predicate EnsuredBy(cx: Codec, s: State, want: Desired, r: NativeRecord) {
    && AppendsNative(cx, s, r) && r.result.error == NoReason
    && EnsureRequest(cx, s.native, r.request.requestId, want).Ok?
    && Normalize(cx, EnsureRequest(cx, s.native, r.request.requestId, want).value) == Ok(r.request)
  }

  lemma InstallsChanged(cx: Codec, native: map<Key, Resource>, after: map<Key, Resource>, authority: string,
                        enabled: bool, managed: set<string>, b: Bundled, c: Change)
    requires PackageStep(native, authority, enabled, managed, b) == Ok(Some(c)) && ChangeOk(cx, c)
    requires c.key in after && after[c.key] == ResourceOf(cx, HashChange(cx, c))
    ensures Installed(native, after, authority, enabled, b)
  {
    hide SkillOk, FilesEqual, SortedFiles, FilesOk;
    StoredEqual(cx, b.files);
  }

  lemma InstallsKept(native: map<Key, Resource>, after: map<Key, Resource>, authority: string, enabled: bool,
                     managed: set<string>, b: Bundled)
    requires PackageStep(native, authority, enabled, managed, b) == Ok(None)
    requires var k := SkillKey(b.packageId); k in native ==> k in after && after[k] == native[k]
    ensures Installed(native, after, authority, enabled, b)
  {
    hide FilesEqual;
  }

  lemma InstallsOne(cx: Codec, native: map<Key, Resource>, requestId: string, want: Desired,
                    after: map<Key, Resource>, b: Bundled)
    requires EnsureRequest(cx, native, requestId, want).Ok? && b in want.packages
    requires Published(cx, native, EnsureRequest(cx, native, requestId, want).value.changes, after)
    ensures Installed(native, after, want.authority, want.enabled, b)
  {
    hide EnsureRequest, PackageStep, DropStep, NewManifest, Managed, ChangeOk, ResourceOf, HashChange, DesiredOk;
    hide Installed;
    EnsureChanges(cx, native, requestId, want);
    var previous := ManifestOf(cx, native).value;
    var step := PackageStep(native, want.authority, want.enabled, Managed(previous), b).value;
    if step.None? {
      EnsureKeys(cx, native, requestId, want, b);
      InstallsKept(native, after, want.authority, want.enabled, Managed(previous), b);
    } else {
      assert IsStep(native, want.authority, want.enabled, previous, want.packages, step.value);
      InstallsChanged(cx, native, after, want.authority, want.enabled, Managed(previous), b, step.value);
    }
  }

  /** The packages that a call may touch. */
  function Concerned(previous: Manifest, want: Desired): set<string> {
    DesiredIds(want.packages) + set id | id in previous.packages
  }

  /** The store after a call on the desired set `bs`, when nothing else was committed in between: every
      desired package is installed, every dropped one is a tombstone, nothing else changed, and the
      manifest records the desired set. */
  ghost predicate Reconciled(cx: Codec, before: map<Key, Resource>, after: map<Key, Resource>, previous: Manifest,
                             want: Desired)
  {
    && (forall b :: b in want.packages ==> Installed(before, after, want.authority, want.enabled, b))
    && (forall id :: id in previous.packages && id !in DesiredIds(want.packages) ==>
        SkillKey(id) in after && after[SkillKey(id)].deleted)
    && after.Keys == before.Keys + {MANIFEST_KEY} + SkillKeys(DesiredIds(want.packages))
    && (forall k :: k in before && k in after && k != MANIFEST_KEY && k !in SkillKeys(Concerned(previous, want)) ==>
          after[k] == before[k])
    && Live(after, MANIFEST_KEY) &&
        after[MANIFEST_KEY].content == cx.manifestJson(NewManifest(previous, SortedBundle(want.packages)))
  }

  lemma Reconciles(cx: Codec, native: map<Key, Resource>, requestId: string, want: Desired, after: map<Key, Resource>)
    requires EnsureRequest(cx, native, requestId, want).Ok?
    requires Published(cx, native, EnsureRequest(cx, native, requestId, want).value.changes, after)
    ensures ManifestOf(cx, native).Ok? && Reconciled(cx, native, after, ManifestOf(cx, native).value, want)
  {
    hide EnsureRequest, PackageChanges, DropChanges, NewManifest, SkillOk, FilesEqual, Sort, SortedFiles, FilesOk;
    hide DesiredOk, Installed, PackageStep, DropStep, ManifestOf, ChangeOk, ResourceOf, HashChange;
    var changes := EnsureRequest(cx, native, requestId, want).value.changes;
    EnsureChanges(cx, native, requestId, want);
    var previous := ManifestOf(cx, native).value;
    forall b | b in want.packages
      ensures Installed(native, after, want.authority, want.enabled, b) && SkillKey(b.packageId) in after
    {
      InstallsOne(cx, native, requestId, want, after, b);
      InstalledLive(native, after, want.authority, want.enabled, b);
    }
    var marker := Marker(cx, native, NewManifest(previous, SortedBundle(want.packages)));
    assert marker in changes;
    assert ResourceOf(cx, HashChange(cx, marker)).content == marker.content &&
        !ResourceOf(cx, HashChange(cx, marker)).deleted
      && ResourceOf(cx, HashChange(cx, marker)).revision > 0 by { StoredPlain(cx, marker); }
    forall id | id in previous.packages && id !in DesiredIds(want.packages)
      ensures SkillKey(id) in after && after[SkillKey(id)].deleted && SkillKey(id) in native
    {
      var c := DroppedTombstone(native, want.authority, DesiredIds(want.packages), id);
      assert IsStep(native, want.authority, want.enabled, previous, want.packages, c);
      StoredPlain(cx, c);
    }
    forall c | c in changes
      ensures c.key == MANIFEST_KEY || c.key in SkillKeys(DesiredIds(want.packages)) ||
          (c.key in native && c.key in SkillKeys(set id | id in previous.packages))
    {
      StepKeys(cx, native, want.authority, want.enabled, previous, want.packages, c);
    }
  }

  lemma DroppedTombstone(native: map<Key, Resource>, authority: string, desired: set<string>, id: string)
      returns (c: Change)
    requires DropStep(native, authority, desired, id).Ok? && id !in desired
    ensures DropStep(native, authority, desired, id) == Ok(Some(c))
    ensures c.key == SkillKey(id) && c.deleted && c.package.None? && SkillKey(id) in native
  {
    c := DropStep(native, authority, desired, id).value.value;
  }

  lemma InstalledLive(before: map<Key, Resource>, after: map<Key, Resource>, authority: string, enabled: bool,
                      b: Bundled)
    requires Installed(before, after, authority, enabled, b)
    ensures SkillKey(b.packageId) in after
  {
  }

  lemma StepKeys(cx: Codec, native: map<Key, Resource>, authority: string, enabled: bool, previous: Manifest,
                 bs: seq<Bundled>, c: Change)
    requires c == Marker(cx, native, NewManifest(previous, SortedBundle(bs))) ||
        IsStep(native, authority, enabled, previous, bs, c)
    ensures c.key == MANIFEST_KEY || c.key in SkillKeys(DesiredIds(bs)) ||
        (c.key in native && c.key in SkillKeys(set id | id in previous.packages))
  {
    hide NewManifest, Managed, PackageStep, DropStep;
    if b :| b in bs && PackageStep(native, authority, enabled, Managed(previous), b) == Ok(Some(c)) {
      PackageStepKey(native, authority, enabled, Managed(previous), b);
      assert b.packageId in DesiredIds(bs);
    } else if id :| id in previous.packages && DropStep(native, authority, DesiredIds(bs), id) == Ok(Some(c)) {
      DropStepKey(native, authority, DesiredIds(bs), id);
    }
  }

  /** A committed call reconciles the installed packages with the desired set. */
  lemma EnsureReconciles(cx: Codec, s: State, want: Desired, r: NativeRecord)
    requires EnsuredBy(cx, s, want, r)
    ensures ManifestOf(cx, s.native).Ok?
    ensures Reconciled(cx, s.native, ApplyNative(s, r).native, ManifestOf(cx, s.native).value, want)
  {
    hide AppendsNative, ApplyNative, EnsureRequest, Published, Normalize, ManifestOf, Reconciled;
    var q := EnsureRequest(cx, s.native, r.request.requestId, want).value;
    RequestPublishes(cx, s, q, r);
    Reconciles(cx, s.native, r.request.requestId, want, ApplyNative(s, r).native);
  }

  /** The manifest lists the desired packages, and the managed set only grows. */
  lemma ManagedGrows(previous: Manifest, bs: seq<Bundled>)
    ensures var m := NewManifest(previous, SortedBundle(bs));
            && (set id | id in m.packages) == DesiredIds(bs)
            && Managed(m) == Managed(previous) + DesiredIds(bs)
  {
    hide Sort;
    var sorted := SortedBundle(bs);
    SortPermutes(bs, By(IdText));
    var ids := PackageIds(sorted);
    assert forall b :: b in sorted <==> b in bs;
    forall id | id in DesiredIds(bs)
      ensures id in ids
    {
      var b :| b in bs && b.packageId == id;
      var i :| 0 <= i < |sorted| && sorted[i] == b;
      assert ids[i] == id;
    }
    forall id | id in ids
      ensures id in DesiredIds(bs)
    {
      var i :| 0 <= i < |ids| && ids[i] == id;
      assert sorted[i] in bs;
    }
  }

  /** What an installed package needs from a further call: nothing. */
  lemma InstalledNeedsNothing(before: map<Key, Resource>, after: map<Key, Resource>, authority: string, enabled: bool,
                              again: bool, managed: set<string>, b: Bundled)
    requires Installed(before, after, authority, enabled, b) && b.packageId in managed
    ensures PackageStep(after, authority, again, managed, b) == Ok(None)
  {
    hide FilesEqual;
  }

  lemma {:induction false} NothingToPut(native: map<Key, Resource>, authority: string, enabled: bool,
                                        managed: set<string>, bs: seq<Bundled>)
    requires forall b :: b in bs ==> PackageStep(native, authority, enabled, managed, b) == Ok(None)
    ensures PackageChanges(native, authority, enabled, managed, bs) == Ok([])
  {
    hide PackageStep;
    if bs != [] {
      NothingToPut(native, authority, enabled, managed, bs[..|bs| - 1]);
      assert bs[|bs| - 1] in bs;
      assert [] + Listed(None) == [];
    }
  }

  lemma {:induction false} NothingToDrop(native: map<Key, Resource>, authority: string, desired: set<string>,
                                         ids: seq<string>)
    requires forall id :: id in ids ==> id in desired
    ensures DropChanges(native, authority, desired, ids) == Ok([])
  {
    if ids != [] {
      NothingToDrop(native, authority, desired, ids[..|ids| - 1]);
      assert ids[|ids| - 1] in ids;
      assert [] + Listed(None) == [];
    }
  }

  ghost predicate ManifestRoundTrips(cx: Codec) {
    forall m: Manifest :: cx.readManifest(cx.manifestJson(m)) == Some(m)
  }

  /** A further call for the same desired set, under any request id, asks only for the manifest that is
      already there. */
  lemma ReconciledNeedsNothing(cx: Codec, before: map<Key, Resource>, after: map<Key, Resource>, previous: Manifest,
                               want: Desired,
                               requestId: string, again: bool)
    requires ManifestRoundTrips(cx)
    requires Reconciled(cx, before, after, previous, want)
    requires DesiredOk(cx, want.authority, want.packages) && forall id :: id in Managed(previous) ==> LogicalId(id)
    ensures MANIFEST_KEY in after
    ensures EnsureRequest(cx, after, requestId, want.(enabled := again)) ==
            Ok(NativeRequest(requestId, Actor(MaintenanceActor, want.authority, ""), ENSURE,
                EnsureIntent(cx, want.(enabled := again)),
                             [Change(MANIFEST_KEY, after[MANIFEST_KEY].revision, after[MANIFEST_KEY].content, None,
                                 false)], None))
  {
    hide Installed, PackageStep, DropStep, PackageChanges, DropChanges, Sort, Managed, LogicalId, SkillKeys;
    hide NewManifest;
    var sorted := SortedBundle(want.packages);
    var m := NewManifest(previous, sorted);
    ManagedGrows(previous, want.packages);
    SortedDesired(cx, want.authority, want.packages);
    assert ManifestOf(cx, after) == Ok(m);
    forall b | b in sorted
      ensures PackageStep(after, want.authority, again, Managed(m), b) == Ok(None)
    {
      InstalledNeedsNothing(before, after, want.authority, want.enabled, again, Managed(m), b);
    }
    NothingToPut(after, want.authority, again, Managed(m), sorted);
    NothingToDrop(after, want.authority, DesiredIds(sorted), m.packages);
    assert NewManifest(m, sorted) == m by { SameManifest(previous, want.packages); }
    var marker := Change(MANIFEST_KEY, after[MANIFEST_KEY].revision, after[MANIFEST_KEY].content, None, false);
    assert [] + [] + [marker] == [marker];
    assert DesiredOk(cx, want.authority, want.packages);
    assert forall id :: id in Managed(m) ==> LogicalId(id);
  }

  lemma SameManifest(previous: Manifest, bs: seq<Bundled>)
    ensures var m := NewManifest(previous, SortedBundle(bs)); NewManifest(m, SortedBundle(bs)) == m
  {
    var sorted := SortedBundle(bs);
    ManagedGrows(previous, bs);
    SortPermutes(bs, By(IdText));
    assert DesiredIds(sorted) == DesiredIds(bs);
    assert Managed(NewManifest(previous, sorted)) + DesiredIds(sorted) == Managed(previous) + DesiredIds(sorted);
  }

  /** Two calls in a row: the second leaves every package and every other resource as the first left
      it, and writes the manifest the first wrote. */
  lemma SecondEnsureChangesOnlyTheManifest(cx: Codec, s: State, want: Desired, r: NativeRecord,
                                           again: bool, r2: NativeRecord)
    requires ManifestRoundTrips(cx)
    requires EnsuredBy(cx, s, want, r)
    requires EnsuredBy(cx, ApplyNative(s, r), want.(enabled := again), r2)
    ensures var one, two := ApplyNative(s, r).native, ApplyNative(ApplyNative(s, r), r2).native;
            && two.Keys == one.Keys
            && (forall k :: k in one && k in two && k != MANIFEST_KEY ==> two[k] == one[k])
            && MANIFEST_KEY in one && MANIFEST_KEY in two && two[MANIFEST_KEY].content == one[MANIFEST_KEY].content
  {
    hide AppendsNative, ApplyNative, EnsureRequest, Normalize, Reconciled, DesiredOk, ManifestOf, ResourceOf;
    hide HashChange, ChangeOk;
    EnsureReconciles(cx, s, want, r);
    EnsureChanges(cx, s.native, r.request.requestId, want);
    assert forall id :: id in Managed(ManifestOf(cx, s.native).value) ==> LogicalId(id) by {
      ManagedIdsOk(cx, s.native, r.request.requestId, want);
    }
    var one := ApplyNative(s, r);
    ReconciledNeedsNothing(cx, s.native, one.native, ManifestOf(cx, s.native).value, want, r2.request.requestId, again);
    var q2 := EnsureRequest(cx, one.native, r2.request.requestId, want.(enabled := again)).value;
    RequestPublishes(cx, one, q2, r2);
    StoredPlain(cx, q2.changes[0]);
  }

  lemma ManagedIdsOk(cx: Codec, native: map<Key, Resource>, requestId: string, want: Desired)
    requires EnsureRequest(cx, native, requestId, want).Ok?
    ensures ManifestOf(cx, native).Ok? && forall id :: id in Managed(ManifestOf(cx, native).value) ==> LogicalId(id)
  {
    hide PackageChanges, DropChanges, DesiredOk, LogicalId, NewManifest;
  }

  /** The call is an exported operation that leaves the stage 1 domain alone. */
  lemma EnsureIsPublic(cx: Codec, s: State, requestId: string, want: Desired)
    requires EnsureRequest(cx, s.native, requestId, want).Ok?
    ensures Requests.IsPublicRequest(cx, s, EnsureRequest(cx, s.native, requestId, want).value)
  {
    hide EnsureRequest, NewManifest, IsStep, Managed;
    EnsureChanges(cx, s.native, requestId, want);
    var previous := ManifestOf(cx, s.native).value;
    forall c | IsStep(s.native, want.authority, want.enabled, previous, want.packages, c)
      ensures !c.key.domain.Stage1?
    {
      StepKeys(cx, s.native, want.authority, want.enabled, previous, want.packages, c);
    }
    assert Requests.LeavesStage1Alone(EnsureRequest(cx, s.native, requestId, want).value);
  }

  /** Once a call has a receipt, the same call is answered with it, whatever packages are installed by
      then, and a call with the same id and any other argument is refused. */
  lemma EnsureRetry(cx: Codec, log: seq<Record>, m: nat, i: nat, requestId: string, first: Desired, want: Desired)
    requires IsHistory(cx, log) && m <= i < |log| && log[i].V2?
    requires EnsureRequest(cx, StateOf(log[..m]).native, requestId, first).Ok?
    requires Normalize(cx, EnsureRequest(cx, StateOf(log[..m]).native, requestId, first).value) == Ok(log[i].v2.request)
    requires Retries.Injective(cx.hash) && Retries.Injective(cx.desiredJson)
    ensures EnsureAttempt(cx, StateOf(log), requestId, want)
            == if want == first then Known(JsonResult(log[i].v2.result)) else Denied(ReusedWithOtherArguments)
  {
    hide IsHistory, StateOf, WellFormed, SortedChanges, PackageChanges, DropChanges;
    RecordsAreRemembered(cx, log, i);
    EnsureHeader(cx, StateOf(log[..m]).native, requestId, first);
    Retries.IntentsDiffer(cx, cx.desiredJson(first), cx.desiredJson(want));
  }

  lemma EnsureHeader(cx: Codec, native: map<Key, Resource>, requestId: string, want: Desired)
    requires EnsureRequest(cx, native, requestId, want).Ok?
    ensures var q := EnsureRequest(cx, native, requestId, want).value;
            q.requestId == requestId && q.operation == ENSURE && q.intent == EnsureIntent(cx, want)
  {
    hide PackageChanges, DropChanges, DesiredOk, LogicalId, NewManifest;
  }
}
