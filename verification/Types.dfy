/** The entities of the trusted state store, and everything about the outside world that the store
    only uses through a few laws.

    Names that the engine compares with fixed strings (domains, operations, job kinds, actor kinds,
    collections) are read once into enumerations; each enumeration has a case for every other name.
    Revisions, sequence numbers and generations are natural numbers. Times are nanoseconds. */
module Types {

  datatype Option<+T> = None | Some(value: T)

  /** The error returns of the exported operations. None of them is recorded in the journal. */
  datatype Refusal =
    | Malformed
    | StateUnavailable
    | ReusedAcrossProtocols
    | ReusedWithOtherArguments
    | JobCommandRequired
    | NoTokens
    | NoJobOperation
    | EntryTooLarge
    | OutcomeUncertain
    | OversizeEntry
    | IncompleteJournal
    | CorruptJournal
    | InconsistentJournal
    | DuplicateJournalRequest
    | InconsistentArtifacts
    | SourceConflict
    | InvalidFilename
    | InvalidPackage
    | AuthorityMismatch
    | PackageCollision
    | InvalidManifest
    | TooManyResources
    | Absent
    | Expired

  datatype Result<+T> = Ok(value: T) | Err(error: Refusal)

  /** Why a well-formed request was rejected. Rejections are recorded in the journal. */
  datatype Reason =
    | NoReason
    | RevisionConflict
    | RevisionExhausted
    | NotFound
    | MigratedReadOnly
    | InvalidMigration
    | SourceRevisionConflict
    | MissingMigrationTarget
    | MemoryPathConflict
    | JobConflict
    | LeaseUnavailable
    | LeaseLost
    | InvalidStage1Artifacts
    | StaleConsolidation
    | InvalidConsolidationArtifacts

  const NATIVE_RESOURCE_BYTES := 0x10_0000
  const NATIVE_PACKAGE_BYTES := 0x100_0000
  const NATIVE_PACKAGE_FILES := 512
  const NATIVE_TRANSACTION_BYTES := 0x200_0000
  const NATIVE_TRANSACTION_CHANGES := 1024
  const MAX_CONTENT := 0x4_0000
  const MAX_REVISION := 0xFFFF_FFFF_FFFF_FFFF
  const SECOND := 1_000_000_000

  // ----- version 1 -----

  datatype Collection = Memory | Skills | UnknownCollection(name: string)
  datatype Mutation = Put | Delete | UnknownMutation(name: string)
  datatype ObjectKey = ObjectKey(collection: Collection, id: string)
  datatype Request = Request(id: string, content: string, expectedRevision: nat, requestId: string)
  datatype Object = Object(id: string, content: string, revision: nat, deleted: bool)
  datatype ObjectResult = ObjectResult(item: Object, error: Reason)
  datatype ObjectRecord = ObjectRecord(
    sequence: nat, time: int, collection: Collection, operation: Mutation, request: Request,
    before: nat, result: ObjectResult)

  // ----- version 2 -----

  datatype Domain =
    | Note
    | Stage1
    | Artifact
    | Extension
    | SkillsPackage
    | Maintenance
    | Migration
    | UnknownDomain(name: string)

  datatype Operation =
    | Stage1Enqueue
    | JobClaim
    | JobHeartbeat
    | JobFail
    | Stage1Commit
    | Phase2Begin
    | Phase2Commit
    | OtherJobOperation(name: string)  // any other name under one of the three job prefixes
    | MemoryClear
    | ImportV1
    | Named(name: string)

  datatype JobKind = NoKind | Stage1Kind | Phase2Kind | UnknownKind(name: string)
  datatype ActorKind =
    | ModelTool
    | Background
    | Installer
    | MaintenanceActor
    | MigrationActor
    | UnknownActor(name: string)

  datatype JobStatus = Queued | Leased | Succeeded | Failed
  datatype Status = Rejected | Committed

  datatype Key = Key(domain: Domain, name: string)
  datatype Actor = Actor(kind: ActorKind, threadId: string, callId: string)
  datatype File = File(path: string, content: string, sha256: string)
  datatype Package = Package(authority: string, enabled: bool, files: seq<File>)
  datatype Change = Change(
    key: Key, expectedRevision: nat, content: string, package: Option<Package>, deleted: bool)
  datatype JobCommand = JobCommand(
    jobId: string, kind: JobKind, leaseToken: string, leaseSeconds: nat, transactionId: string,
    inputVersion: string, inputWatermark: int, failure: string, maxInputs: nat, noOutput: bool)
  datatype NativeRequest = NativeRequest(
    requestId: string, actor: Actor, operation: Operation, intent: string,
    changes: seq<Change>, job: Option<JobCommand>)

  /** `selected` is a Go map: `None` is the nil map, which reflect.DeepEqual tells apart from the
      empty map `Some(map[])`. `leaseExpiresAt` is `None` when the text is empty. */
  datatype Job = Job(
    jobId: string, kind: JobKind, revision: nat, status: JobStatus, inputVersion: string,
    inputWatermark: int, leaseToken: string, leaseExpiresAt: Option<int>, transactionId: string,
    memoryGeneration: nat, selected: Option<map<Key, nat>>, failure: string, selectionLimit: nat)
  datatype Resource = Resource(
    key: Key, revision: nat, content: string, sha256: string, package: Option<Package>, deleted: bool)
  datatype NativeResult = NativeResult(
    status: Status, commitSequence: nat, error: Reason, resources: seq<Resource>, jobs: seq<Job>,
    memoryGeneration: nat)
  datatype NativeRecord = NativeRecord(
    sequence: nat, time: int, request: NativeRequest, digest: string, result: NativeResult)

  /** One journal entry, of either protocol. */
  datatype Record = V1(v1: ObjectRecord) | V2(v2: NativeRecord) {
    function RequestId(): string {
      match this
      case V1(r) => r.request.requestId
      case V2(r) => r.request.requestId
    }
  }

  datatype LegacyAlias = LegacyAlias(
    collection: Collection, id: string, revision: nat, sourceHash: string, target: Key)
  datatype Usage = Usage(count: nat, lastUsageAt: int)
  datatype Manifest = Manifest(packages: seq<string>, managed: seq<string>)
  datatype Bundled = Bundled(packageId: string, files: seq<File>)
  datatype Desired = Desired(authority: string, enabled: bool, packages: seq<Bundled>)

  // ----- the live fields of the store, apart from the file and the poisoned flag -----

  datatype State = State(
    objects: map<ObjectKey, Object>,
    requests: map<string, ObjectRecord>,
    native: map<Key, Resource>,
    nativeRequests: map<string, NativeRecord>,
    nativeJobs: map<string, Job>,
    memoryGeneration: nat,
    sequence: nat)

  const EMPTY := State(map[], map[], map[], map[], map[], 0, 0)

  // ----- the outside world -----

  /** The computations that the model leaves uninterpreted: SHA-256, JSON and its readers, and the
      Markdown and file name rules. Every theorem holds for every value of this type that satisfies
      the laws the theorem names. */
  datatype Codec = Codec(
    hash: string -> string,
    packageHash: Package -> string,
    digest: NativeRequest -> string,
    requestSize: NativeRequest -> nat,
    encode: Record -> string,
    decode: string -> Option<Record>,
    skillOk: (string, set<(string, string)>) -> bool,
    noteFilename: string -> bool,
    readAlias: string -> Option<LegacyAlias>,
    aliasJson: LegacyAlias -> string,
    readUsage: string -> Usage,
    readManifest: string -> Option<Manifest>,
    manifestJson: Manifest -> string,
    listJson: seq<string> -> string,
    desiredJson: Desired -> string,
    policyJson: (int, nat) -> string,
    textJson: string -> string,
    countJson: nat -> string)

  /** What `randomNativeToken` returns on its first and second call; `None` is a read failure. */
  datatype Entropy = Entropy(first: Option<string>, second: Option<string>)

  // ----- JSON copies -----

  /** A JSON copy keeps every field of a job except that an empty selection comes back as nil. */
  function JsonJob(j: Job): Job {
    if j.selected == Some(map[]) then j.(selected := None) else j
  }

  function JsonJobs(js: seq<Job>): (copies: seq<Job>)
    ensures |copies| == |js|
    ensures forall i :: 0 <= i < |js| ==> copies[i] == JsonJob(js[i])
  {
    if js == [] then [] else [JsonJob(js[0])] + JsonJobs(js[1..])
  }

  function JsonResult(r: NativeResult): NativeResult {
    r.(jobs := JsonJobs(r.jobs))
  }

  function JsonRecord(r: Record): Record {
    match r
    case V1(_) => r
    case V2(n) => V2(n.(result := JsonResult(n.result)))
  }

  /** The receipt as it is persisted: without the resources, which replay reconstructs. */
  function Durable(r: Record): Record {
    match r
    case V1(_) => r
    case V2(n) => V2(n.(result := n.result.(resources := [])))
  }

  // ----- keys -----

  function DomainName(d: Domain): string {
    match d
    case Note => "memory.note"
    case Stage1 => "memory.stage1"
    case Artifact => "memory.artifact"
    case Extension => "memory.extension"
    case SkillsPackage => "skills.package"
    case Maintenance => "maintenance"
    case Migration => "migration"
    case UnknownDomain(name) => name
  }

  /** The map key of the source, as one string. */
  function NativeKey(k: Key): string {
    DomainName(k.domain) + "/" + k.name
  }

  predicate ValidDomain(d: Domain) { !d.UnknownDomain? }

  predicate MemoryDomain(d: Domain) {
    d.Note? || d.Stage1? || d.Artifact? || d.Extension?
  }

  function RawKey(id: string): Key { Key(Stage1, "raw/" + id + ".md") }
  function SummaryKey(id: string): Key { Key(Stage1, "summary/" + id + ".md") }
  function UsageKey(id: string): Key { Key(Maintenance, "memory-usage/" + id + ".json") }
  function CollectionName(c: Collection): string {
    match c
    case Memory => "memory"
    case Skills => "skills"
    case UnknownCollection(name) => name
  }

  function AliasKey(c: Collection, id: string): Key {
    Key(Migration, "legacy/" + CollectionName(c) + "/" + id)
  }

  const GLOBAL := "global"
  const MEMORY_MD := Key(Artifact, "MEMORY.md")
  const SUMMARY_MD := Key(Artifact, "memory_summary.md")

  /** On valid domains the one-string key determines the pair. */
  lemma NativeKeyInjective(a: Key, b: Key)
    requires ValidDomain(a.domain) && ValidDomain(b.domain)
    requires NativeKey(a) == NativeKey(b)
    ensures a == b
  {
    DomainNameHasNoSlash(a.domain);
    DomainNameHasNoSlash(b.domain);
    FirstSlash(DomainName(a.domain), a.name, DomainName(b.domain), b.name);
    DomainNameInjective(a.domain, b.domain);
  }

  lemma FirstSlash(x: string, m: string, y: string, n: string)
    requires '/' !in x && '/' !in y
    requires x + "/" + m == y + "/" + n
    ensures x == y && m == n
  {
    var s, t := x + "/" + m, y + "/" + n;
    assert s[|x|] == '/' && t[|y|] == '/';
    assert forall i :: 0 <= i < |x| ==> s[i] != '/';
    assert forall i :: 0 <= i < |y| ==> t[i] != '/';
    assert x == s[..|x|] && y == t[..|y|];
    assert m == s[|x| + 1..] && n == t[|y| + 1..];
  }

  lemma DomainNameHasNoSlash(d: Domain)
    requires ValidDomain(d)
    ensures '/' !in DomainName(d)
  {
  }

  lemma DomainNameInjective(a: Domain, b: Domain)
    requires ValidDomain(a) && ValidDomain(b)
    requires DomainName(a) == DomainName(b)
    ensures a == b
  {
    // Two names of equal length differ in the letter after the dot or in their first letter.
    var x := DomainName(a);
    assert |x| == |DomainName(b)|;
    assert |x| > 8 ==> x[7] == DomainName(b)[7];
    assert x[1] == DomainName(b)[1];
  }

  lemma ArtifactKeysDistinct(a: string, b: string)
    ensures RawKey(a) != SummaryKey(b)
    ensures RawKey(a) == RawKey(b) ==> a == b
    ensures SummaryKey(a) == SummaryKey(b) ==> a == b
  {
    assert RawKey(a).name[0] == 'r' && SummaryKey(b).name[0] == 's';
    assert RawKey(a).name[4..|RawKey(a).name| - 3] == a;
    assert RawKey(b).name[4..|RawKey(b).name| - 3] == b;
    assert SummaryKey(a).name[8..|SummaryKey(a).name| - 3] == a;
    assert SummaryKey(b).name[8..|SummaryKey(b).name| - 3] == b;
  }
}
