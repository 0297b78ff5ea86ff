/** `normalizeNative`: validation, hashing and canonical order of a request before it is digested. */
module Normalization {
  import opened Types
  import opened Text

  // ----- what a well-formed request is -----

  /** The text of an operation in a request. */
  function OperationText(op: Operation): string {
    match op
    case Stage1Enqueue => "memory.stage1.enqueue"
    case JobClaim => "memory.job.claim"
    case JobHeartbeat => "memory.job.heartbeat"
    case JobFail => "memory.job.fail"
    case Stage1Commit => "memory.stage1.commit"
    case Phase2Begin => "memory.phase2.begin"
    case Phase2Commit => "memory.phase2.commit"
    case MemoryClear => "memory.clear"
    case ImportV1 => "migration.import_v1"
    case OtherJobOperation(name) => name
    case Named(name) => name
  }

  predicate JobPrefixed(name: string) {
    "memory.job." <= name || "memory.stage1." <= name || "memory.phase2." <= name
  }

  function OperationOf(name: string): Operation {
    if name == "memory.stage1.enqueue" then Stage1Enqueue
    else if name == "memory.job.claim" then JobClaim
    else if name == "memory.job.heartbeat" then JobHeartbeat
    else if name == "memory.job.fail" then JobFail
    else if name == "memory.stage1.commit" then Stage1Commit
    else if name == "memory.phase2.begin" then Phase2Begin
    else if name == "memory.phase2.commit" then Phase2Commit
    else if name == "memory.clear" then MemoryClear
    else if name == "migration.import_v1" then ImportV1
    else if JobPrefixed(name) then OtherJobOperation(name)
    else Named(name)
  }

  /** An operation is what its text reads as, so no text has two meanings. */
  predicate OperationOk(op: Operation) {
    match op
    case Named(name) => OperationName(name) && OperationOf(name) == op
    case OtherJobOperation(name) => OperationName(name) && OperationOf(name) == op
    case _ => true
  }

  /** Each name that the engine knows reads as its own operation. Names of equal length differ in the
      letter given here. */
  lemma KnownNamesReadBack(op: Operation)
    requires !op.Named? && !op.OtherJobOperation?
    ensures OperationOf(OperationText(op)) == op
  {
    var name := OperationText(op);
    assert |name| == 20 ==> name[7] == if op.JobHeartbeat? then 'j' else if op.Stage1Commit? then 's' else 'p';
    assert |name| == 19 ==> name[1] == if op.ImportV1? then 'i' else 'e';
    assert "memory.job.heartbeat"[7] == 'j' && "memory.stage1.commit"[7] == 's' && "memory.phase2.commit"[7] == 'p';
    assert "memory.phase2.begin"[1] == 'e' && "migration.import_v1"[1] == 'i';
  }

  /** Every well-formed operation text is the text of exactly one operation. */
  lemma OperationsAreTexts(name: string, op: Operation)
    requires OperationName(name)
    ensures OperationOk(OperationOf(name)) && OperationText(OperationOf(name)) == name
    ensures OperationOk(op) && OperationText(op) == name <==> op == OperationOf(name)
  {
    if !op.Named? && !op.OtherJobOperation? {
      KnownNamesReadBack(op);
    }
  }

  predicate ActorOk(a: Actor) {
    !a.kind.UnknownActor? && |a.threadId| <= 128 && |a.callId| <= 128
  }

  predicate JobOk(j: JobCommand) {
    && LogicalId(j.jobId) && !j.kind.UnknownKind?
    && |j.leaseToken| <= 128 && |j.transactionId| <= 128 && |j.inputVersion| <= 256 && |j.failure| <= 1024
    && j.leaseSeconds <= 3600 && j.maxInputs <= 10_000
  }

  function FileBytes(files: seq<File>): nat {
    if files == [] then 0 else |files[0].content| + FileBytes(files[1..])
  }

  function PathText(f: File): string { f.path }

  function Pairs(files: seq<File>): set<(string, string)> {
    set f | f in files :: (f.path, f.content)
  }

  predicate FilesOk(files: seq<File>) {
    && 1 <= |files| <= NATIVE_PACKAGE_FILES
    && (forall f :: f in files ==> ValidPath(f.path) && |f.content| <= NATIVE_RESOURCE_BYTES)
    && (forall i, j :: 0 <= i < j < |files| ==> files[i].path != files[j].path)
    && (exists f :: f in files && f.path == "SKILL.md")
    && FileBytes(files) <= NATIVE_PACKAGE_BYTES
  }

  predicate PackageOk(cx: Codec, id: string, p: Package) {
    LogicalId(p.authority) && FilesOk(p.files) && LogicalId(id) && cx.skillOk(id, Pairs(p.files))
  }

  predicate ChangeOk(cx: Codec, c: Change) {
    && ValidDomain(c.key.domain) && ValidPath(c.key.name) && |c.content| <= NATIVE_RESOURCE_BYTES
    && (c.deleted ==> c.content == "" && c.package.None?)
    && if c.key.domain.SkillsPackage? && !c.deleted
       then c.package.Some? && c.content == "" && PackageOk(cx, c.key.name, c.package.value)
       else c.package.None?
  }

  function ChangeBytes(c: Change): nat {
    |c.content| + if c.package.Some? then FileBytes(c.package.value.files) else 0
  }

  function TotalBytes(cs: seq<Change>): nat {
    if cs == [] then 0 else ChangeBytes(cs[0]) + TotalBytes(cs[1..])
  }

  function KeyText(c: Change): string { NativeKey(c.key) }

  predicate ChangesOk(cx: Codec, cs: seq<Change>) {
    && (forall c :: c in cs ==> ChangeOk(cx, c))
    && (forall i, j :: 0 <= i < j < |cs| ==> cs[i].key != cs[j].key)
    && TotalBytes(cs) <= NATIVE_TRANSACTION_BYTES
  }

  predicate HeaderOk(q: NativeRequest) {
    && LogicalId(q.requestId) && OperationOk(q.operation) && ActorOk(q.actor)
    && (q.changes != [] || q.job.Some?) && |q.changes| <= NATIVE_TRANSACTION_CHANGES
    && (q.job.Some? ==> JobOk(q.job.value))
  }

  predicate WellFormed(cx: Codec, q: NativeRequest) {
    HeaderOk(q) && ChangesOk(cx, q.changes) && cx.requestSize(q) <= NATIVE_TRANSACTION_BYTES
  }

  // ----- the normal form -----

  function HashFiles(cx: Codec, files: seq<File>): (hashed: seq<File>)
    ensures |hashed| == |files|
    ensures forall i :: 0 <= i < |files| ==> hashed[i] == files[i].(sha256 := cx.hash(files[i].content))
  {
    if files == [] then []
    else [files[0].(sha256 := cx.hash(files[0].content))] + HashFiles(cx, files[1..])
  }

  function SortedFiles(cx: Codec, files: seq<File>): seq<File> {
    Sort(HashFiles(cx, files), By(PathText))
  }

  function HashChange(cx: Codec, c: Change): Change {
    match c.package
    case None => c
    case Some(p) => c.(package := Some(p.(files := SortedFiles(cx, p.files))))
  }

  function HashChanges(cx: Codec, cs: seq<Change>): (hashed: seq<Change>)
    ensures |hashed| == |cs|
    ensures forall i :: 0 <= i < |cs| ==> hashed[i] == HashChange(cx, cs[i])
  {
    if cs == [] then [] else [HashChange(cx, cs[0])] + HashChanges(cx, cs[1..])
  }

  function SortedChanges(cx: Codec, cs: seq<Change>): seq<Change> {
    Sort(HashChanges(cx, cs), By(KeyText))
  }

  function NormalForm(cx: Codec, q: NativeRequest): NativeRequest {
    q.(changes := SortedChanges(cx, q.changes))
  }

  function Normalize(cx: Codec, q: NativeRequest): Result<NativeRequest> {
    if WellFormed(cx, q) then Ok(NormalForm(cx, q)) else Err(Malformed)
  }

  // ----- the loops of the source -----

  lemma NoFileBytes()
    ensures FileBytes([]) == 0
  {
  }

  method CheckFiles(files: seq<File>) returns (ok: bool, size: nat)
    ensures ok <==> FilesOk(files)
    ensures ok ==> size == FileBytes(files)
  {
    hide ValidPath, FileBytes;
    NoFileBytes();
    size := 0;
    if |files| == 0 || |files| > NATIVE_PACKAGE_FILES {
      return false, size;
    }
    var seen: set<string> := {};
    for i := 0 to |files|
      invariant forall p :: p in seen <==> exists j :: 0 <= j < i && files[j].path == p
      invariant forall j :: 0 <= j < i ==> ValidPath(files[j].path) && |files[j].content| <= NATIVE_RESOURCE_BYTES
      invariant forall j, k :: 0 <= j < k < i ==> files[j].path != files[k].path
      invariant size == FileBytes(files[..i])
    {
      var f := files[i];
      assert f in files && files[..i + 1] == files[..i] + [f];
      if !ValidPath(f.path) || f.path in seen || |f.content| > NATIVE_RESOURCE_BYTES {
        return false, size;
      }
      FileBytesSnoc(files[..i], f);
      seen := seen + {f.path};
      size := size + |f.content|;
    }
    assert files[..|files|] == files;
    ok := "SKILL.md" in seen && size <= NATIVE_PACKAGE_BYTES;
  }

  lemma {:induction false} FileBytesSnoc(files: seq<File>, f: File)
    ensures FileBytes(files + [f]) == FileBytes(files) + |f.content|
  {
    if files != [] {
      assert (files + [f])[1..] == files[1..] + [f];
      FileBytesSnoc(files[1..], f);
    }
  }

  lemma {:induction false} TotalBytesSnoc(cs: seq<Change>, c: Change)
    ensures TotalBytes(cs + [c]) == TotalBytes(cs) + ChangeBytes(c)
  {
    hide ChangeBytes;
    if cs != [] {
      assert (cs + [c])[1..] == cs[1..] + [c];
      TotalBytesSnoc(cs[1..], c);
    }
  }

  lemma {:induction false} TotalBytesPrefix(cs: seq<Change>, n: nat)
    requires n <= |cs|
    ensures TotalBytes(cs[..n]) <= TotalBytes(cs)
  {
    hide ChangeBytes;
    if n > 0 {
      assert cs[..n][1..] == cs[1..][..n - 1];
      TotalBytesPrefix(cs[1..], n - 1);
    }
  }

  /** The part of the loop body that looks at one change alone; `size` is what it adds to the total. */
  method CheckChange(cx: Codec, c: Change) returns (ok: bool, size: nat)
    ensures ok <==> ChangeOk(cx, c)
    ensures ok ==> size == ChangeBytes(c)
  {
    size := |c.content|;
    if !ValidDomain(c.key.domain) || !ValidPath(c.key.name) || |c.content| > NATIVE_RESOURCE_BYTES {
      return false, size;
    }
    if c.deleted && (c.content != "" || c.package.Some?) {
      return false, size;
    }
    if c.key.domain.SkillsPackage? && !c.deleted {
      if c.package.None? || c.content != "" {
        return false, size;
      }
      var p := c.package.value;
      var filesOk, bytes := CheckFiles(p.files);
      ok := LogicalId(p.authority) && filesOk && LogicalId(c.key.name) && cx.skillOk(c.key.name, Pairs(p.files));
      size := size + bytes;
    } else {
      ok := c.package.None?;
    }
  }

  method CheckChanges(cx: Codec, cs: seq<Change>) returns (ok: bool)
    ensures ok <==> ChangesOk(cx, cs)
  {
    var total := 0;
    var seen: set<Key> := {};
    for i := 0 to |cs|
      invariant forall k :: k in seen <==> exists j :: 0 <= j < i && cs[j].key == k
      invariant forall j :: 0 <= j < i ==> ChangeOk(cx, cs[j])
      invariant forall j, k :: 0 <= j < k < i ==> cs[j].key != cs[k].key
      invariant total == TotalBytes(cs[..i]) <= NATIVE_TRANSACTION_BYTES
    {
      var changeOk, size := CheckChange(cx, cs[i]);
      if !changeOk || cs[i].key in seen {
        assert cs[i] in cs;
        return false;
      }
      TotalUpTo(cs, i);
      seen := seen + {cs[i].key};
      total := total + size;
      if total > NATIVE_TRANSACTION_BYTES {
        return false;
      }
    }
    assert cs[..|cs|] == cs;
    ok := true;
  }

  lemma TotalUpTo(cs: seq<Change>, i: nat)
    requires i < |cs|
    ensures TotalBytes(cs[..i + 1]) == TotalBytes(cs[..i]) + ChangeBytes(cs[i])
    ensures TotalBytes(cs[..i + 1]) <= TotalBytes(cs)
  {
    hide TotalBytes, ChangeBytes;
    assert cs[..i + 1] == cs[..i] + [cs[i]];
    TotalBytesSnoc(cs[..i], cs[i]);
    TotalBytesPrefix(cs, i + 1);
  }

  method NormalizeNative(cx: Codec, q: NativeRequest) returns (r: Result<NativeRequest>)
    ensures r == Normalize(cx, q)
  {
    if !HeaderOk(q) {
      return Err(Malformed);
    }
    var ok := CheckChanges(cx, q.changes);
    if !ok || cx.requestSize(q) > NATIVE_TRANSACTION_BYTES {
      return Err(Malformed);
    }
    var out: seq<Change> := [];
    for i := 0 to |q.changes|
      invariant |out| == i
      invariant forall k :: 0 <= k < i ==> out[k] == HashChange(cx, q.changes[k])
    {
      out := out + [HashChange(cx, q.changes[i])];
    }
    assert out == HashChanges(cx, q.changes);
    r := Ok(q.(changes := Sort(out, By(KeyText))));
  }

  // ----- the normal form is canonical -----

  lemma {:induction false} FileBytesOfInsert(x: File, xs: seq<File>, lt: (File, File) -> bool)
    ensures FileBytes(Insert(x, xs, lt)) == |x.content| + FileBytes(xs)
  {
    if xs == [] || lt(x, xs[0]) {
    } else {
      FileBytesOfInsert(x, xs[1..], lt);
    }
  }

  lemma {:induction false} FileBytesOfSort(xs: seq<File>, lt: (File, File) -> bool)
    ensures FileBytes(Sort(xs, lt)) == FileBytes(xs)
  {
    if xs != [] {
      FileBytesOfSort(xs[1..], lt);
      FileBytesOfInsert(xs[0], Sort(xs[1..], lt), lt);
    }
  }

  lemma {:induction false} FileBytesOfHash(cx: Codec, xs: seq<File>)
    ensures FileBytes(HashFiles(cx, xs)) == FileBytes(xs)
  {
    if xs != [] {
      FileBytesOfHash(cx, xs[1..]);
      assert HashFiles(cx, xs)[1..] == HashFiles(cx, xs[1..]);
    }
  }

  lemma {:induction false} TotalBytesOfInsert(x: Change, xs: seq<Change>, lt: (Change, Change) -> bool)
    ensures TotalBytes(Insert(x, xs, lt)) == ChangeBytes(x) + TotalBytes(xs)
  {
    if xs == [] || lt(x, xs[0]) {
    } else {
      TotalBytesOfInsert(x, xs[1..], lt);
    }
  }

  lemma {:induction false} TotalBytesOfSort(xs: seq<Change>, lt: (Change, Change) -> bool)
    ensures TotalBytes(Sort(xs, lt)) == TotalBytes(xs)
  {
    if xs != [] {
      TotalBytesOfSort(xs[1..], lt);
      TotalBytesOfInsert(xs[0], Sort(xs[1..], lt), lt);
    }
  }

  lemma {:induction false} TotalBytesOfHash(cx: Codec, xs: seq<Change>)
    ensures TotalBytes(HashChanges(cx, xs)) == TotalBytes(xs)
  {
    if xs != [] {
      TotalBytesOfHash(cx, xs[1..]);
      assert HashChanges(cx, xs)[1..] == HashChanges(cx, xs[1..]);
      if xs[0].package.Some? {
        FileBytesOfHash(cx, xs[0].package.value.files);
        FileBytesOfSort(HashFiles(cx, xs[0].package.value.files), By(PathText));
      }
    }
  }

  lemma SortedFilesMembers(cx: Codec, files: seq<File>)
    ensures |SortedFiles(cx, files)| == |files|
    ensures forall f :: f in SortedFiles(cx, files) ==> exists g :: g in files && f == g.(sha256 := cx.hash(g.content))
    ensures forall g :: g in files ==> g.(sha256 := cx.hash(g.content)) in SortedFiles(cx, files)
    ensures FileBytes(SortedFiles(cx, files)) == FileBytes(files)
  {
    var hashed := HashFiles(cx, files);
    SortPermutes(hashed, By(PathText));
    FileBytesOfHash(cx, files);
    FileBytesOfSort(hashed, By(PathText));
    forall f | f in SortedFiles(cx, files)
      ensures exists g :: g in files && f == g.(sha256 := cx.hash(g.content))
    {
      assert f in hashed;
      var i :| 0 <= i < |hashed| && hashed[i] == f;
      assert files[i] in files;
    }
    forall g | g in files
      ensures g.(sha256 := cx.hash(g.content)) in SortedFiles(cx, files)
    {
      var i :| 0 <= i < |files| && files[i] == g;
      assert hashed[i] in hashed;
    }
  }

  lemma SortedFilesAscend(cx: Codec, files: seq<File>)
    requires forall i, j :: 0 <= i < j < |files| ==> files[i].path != files[j].path
    ensures var out := SortedFiles(cx, files);
            Ascending(out, By(PathText)) && forall i, j :: 0 <= i < j < |out| ==> out[i].path != out[j].path
  {
    var hashed := HashFiles(cx, files);
    var out := SortedFiles(cx, files);
    ByOrders(hashed, PathText);
    SortAscending(hashed, By(PathText));
    AscendingDistinct(out, PathText);
    forall i, j | 0 <= i < j < |out|
      ensures out[i].path != out[j].path
    {
      assert PathText(out[i]) != PathText(out[j]);
    }
  }

  /** Hashing and sorting the files of a package keeps it acceptable, and doing it twice is idle. */
  lemma SortedFilesOk(cx: Codec, files: seq<File>)
    requires FilesOk(files)
    ensures FilesOk(SortedFiles(cx, files))
    ensures SortedFiles(cx, SortedFiles(cx, files)) == SortedFiles(cx, files)
  {
    SortedFilesMembers(cx, files);
    SortedFilesAscend(cx, files);
    var out := SortedFiles(cx, files);
    forall i | 0 <= i < |out|
      ensures HashFiles(cx, out)[i] == out[i]
    {
      assert out[i] in out;
    }
    assert HashFiles(cx, out) == out;
    SortOfAscending(out, By(PathText));
  }

  lemma SortedFilesPairs(cx: Codec, files: seq<File>)
    ensures Pairs(SortedFiles(cx, files)) == Pairs(files)
  {
    SortedFilesMembers(cx, files);
    var out := SortedFiles(cx, files);
    forall f | f in out
      ensures (f.path, f.content) in Pairs(files)
    {
    }
    forall g | g in files
      ensures (g.path, g.content) in Pairs(out)
    {
      assert g.(sha256 := cx.hash(g.content)) in out;
    }
  }

  lemma HashedChangeOk(cx: Codec, c: Change)
    requires ChangeOk(cx, c)
    ensures var out := HashChange(cx, c);
            ChangeOk(cx, out) && out.key == c.key && HashChange(cx, out) == out
  {
    if c.package.Some? {
      SortedFilesOk(cx, c.package.value.files);
      SortedFilesPairs(cx, c.package.value.files);
    }
  }

  lemma HashedKeysDistinct(cx: Codec, cs: seq<Change>)
    requires ChangesOk(cx, cs)
    ensures DistinctBy(HashChanges(cx, cs), KeyText)
  {
    var hashed := HashChanges(cx, cs);
    forall i, j | 0 <= i < j < |hashed|
      ensures KeyText(hashed[i]) != KeyText(hashed[j])
    {
      assert cs[i] in cs && cs[j] in cs;
      assert hashed[i].key == cs[i].key && hashed[j].key == cs[j].key;
      if KeyText(hashed[i]) == KeyText(hashed[j]) {
        NativeKeyInjective(cs[i].key, cs[j].key);
      }
    }
  }

  lemma SortedChangesMembers(cx: Codec, cs: seq<Change>)
    requires forall c :: c in cs ==> ChangeOk(cx, c)
    ensures |SortedChanges(cx, cs)| == |cs|
    ensures TotalBytes(SortedChanges(cx, cs)) == TotalBytes(cs)
    ensures forall c :: c in SortedChanges(cx, cs) ==> ChangeOk(cx, c) && HashChange(cx, c) == c
  {
    var hashed := HashChanges(cx, cs);
    SortPermutes(hashed, By(KeyText));
    TotalBytesOfHash(cx, cs);
    TotalBytesOfSort(hashed, By(KeyText));
    forall c | c in SortedChanges(cx, cs)
      ensures ChangeOk(cx, c) && HashChange(cx, c) == c
    {
      assert c in hashed;
      var i :| 0 <= i < |hashed| && hashed[i] == c;
      assert cs[i] in cs;
      HashedChangeOk(cx, cs[i]);
    }
  }

  lemma SortedChangesAscend(cx: Codec, cs: seq<Change>)
    requires ChangesOk(cx, cs)
    ensures var out := SortedChanges(cx, cs);
            Ascending(out, By(KeyText)) && forall i, j :: 0 <= i < j < |out| ==> out[i].key != out[j].key
  {
    var hashed := HashChanges(cx, cs);
    var out := SortedChanges(cx, cs);
    HashedKeysDistinct(cx, cs);
    ByOrders(hashed, KeyText);
    SortAscending(hashed, By(KeyText));
    AscendingDistinct(out, KeyText);
    forall i, j | 0 <= i < j < |out|
      ensures out[i].key != out[j].key
    {
      assert KeyText(out[i]) != KeyText(out[j]);
    }
  }

  /** The changes of a normal form are acceptable, and hashing and sorting them again is idle. */
  lemma SortedChangesOk(cx: Codec, cs: seq<Change>)
    requires ChangesOk(cx, cs)
    ensures ChangesOk(cx, SortedChanges(cx, cs)) && |SortedChanges(cx, cs)| == |cs|
    ensures SortedChanges(cx, SortedChanges(cx, cs)) == SortedChanges(cx, cs)
  {
    SortedChangesMembers(cx, cs);
    SortedChangesAscend(cx, cs);
    var out := SortedChanges(cx, cs);
    forall i | 0 <= i < |out|
      ensures HashChanges(cx, out)[i] == out[i]
    {
      assert out[i] in out;
    }
    assert HashChanges(cx, out) == out;
    SortOfAscending(out, By(KeyText));
  }

  /** A request in normal form: everything that normalization establishes except the bound on its
      encoded size. */
  ghost predicate Canonical(cx: Codec, q: NativeRequest) {
    HeaderOk(q) && ChangesOk(cx, q.changes) && NormalForm(cx, q) == q
  }

  lemma NormalizeCanonical(cx: Codec, q: NativeRequest)
    requires Normalize(cx, q).Ok?
    ensures Canonical(cx, Normalize(cx, q).value)
  {
    SortedChangesOk(cx, q.changes);
    assert NormalForm(cx, q).changes == [] ==> q.changes == [];
  }

  /** Normalizing twice is normalizing once, provided the normal form still fits. */
  lemma NormalizeIdempotent(cx: Codec, q: NativeRequest)
    requires Normalize(cx, q).Ok?
    requires cx.requestSize(Normalize(cx, q).value) <= NATIVE_TRANSACTION_BYTES
    ensures Normalize(cx, Normalize(cx, q).value) == Normalize(cx, q)
  {
    NormalizeCanonical(cx, q);
  }

  /** The changes of the normal form are the given ones, hashed. */
  lemma NormalChanges(cx: Codec, q: NativeRequest)
    ensures forall c :: c in q.changes ==> HashChange(cx, c) in NormalForm(cx, q).changes
    ensures forall d :: d in NormalForm(cx, q).changes ==> exists c :: c in q.changes && d == HashChange(cx, c)
  {
    hide Sort, HashChange;
    var hashed := HashChanges(cx, q.changes);
    SortPermutes(hashed, By(KeyText));
    forall c | c in q.changes
      ensures HashChange(cx, c) in hashed
    {
      var i :| 0 <= i < |q.changes| && q.changes[i] == c;
      assert hashed[i] == HashChange(cx, c);
    }
    forall d | d in NormalForm(cx, q).changes
      ensures exists c :: c in q.changes && d == HashChange(cx, c)
    {
      assert d in hashed;
      var i :| 0 <= i < |hashed| && hashed[i] == d;
      assert q.changes[i] in q.changes;
    }
  }

  /** The caller's order of the changes does not reach the digest or the journal. */
  lemma NormalizeIgnoresOrder(cx: Codec, q: NativeRequest, p: NativeRequest)
    requires Normalize(cx, q).Ok? && Normalize(cx, p).Ok?
    requires p == q.(changes := p.changes) && multiset(p.changes) == multiset(q.changes)
    ensures Normalize(cx, q) == Normalize(cx, p)
  {
    HashedKeysDistinct(cx, q.changes);
    HashedKeysDistinct(cx, p.changes);
    ByOrders(HashChanges(cx, q.changes), KeyText);
    ByOrders(HashChanges(cx, p.changes), KeyText);
    HashPermutes(cx, q.changes, p.changes);
    SortIsCanonical(HashChanges(cx, q.changes), HashChanges(cx, p.changes), By(KeyText));
  }

  lemma HashChangesConcat(cx: Codec, xs: seq<Change>, ys: seq<Change>)
    ensures HashChanges(cx, xs + ys) == HashChanges(cx, xs) + HashChanges(cx, ys)
  {
  }

  lemma HashWithout(cx: Codec, ys: seq<Change>, i: nat)
    requires i < |ys|
    ensures multiset(ys[..i] + ys[i + 1..]) == multiset(ys) - multiset{ys[i]}
    ensures multiset(HashChanges(cx, ys)) == multiset{HashChange(cx, ys[i])} + multiset(HashChanges(cx,
        ys[..i] + ys[i + 1..]))
  {
    var front, back := ys[..i], ys[i + 1..];
    assert ys == front + ([ys[i]] + back);
    HashChangesConcat(cx, front, back);
    HashChangesConcat(cx, front, [ys[i]] + back);
    HashChangesConcat(cx, [ys[i]], back);
    assert HashChanges(cx, [ys[i]]) == [HashChange(cx, ys[i])];
  }

  lemma {:induction false} HashPermutes(cx: Codec, xs: seq<Change>, ys: seq<Change>)
    requires multiset(xs) == multiset(ys)
    ensures multiset(HashChanges(cx, xs)) == multiset(HashChanges(cx, ys))
  {
    if xs == [] {
      assert |multiset(ys)| == 0;
    } else {
      assert xs[0] in multiset(ys);
      var i :| 0 <= i < |ys| && ys[i] == xs[0];
      assert xs == [xs[0]] + xs[1..];
      HashWithout(cx, ys, i);
      HashPermutes(cx, xs[1..], ys[..i] + ys[i + 1..]);
    }
  }
}
