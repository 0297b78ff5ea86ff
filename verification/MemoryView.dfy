/** Snapshots and cursors of the merged memory view, and `MemoryList`. A cursor binds the commit
    sequence and the query, so a page is always cut from the snapshot of the first page. */
module MemoryView {
  import opened Types
  import opened Text
  import opened MemoryTree
  import opened History
  import opened Counting

  const PAGE_BYTES := 0x8000

  datatype ViewError =
    | InvalidPath
    | InvalidBounds
    | InvalidWindow
    | QueryTooLarge
    | EmptyQuery
    | InvalidCursor
    | SnapshotExpired
    | Missing
    | MatchTooLarge
    | AmbiguousPath

  datatype Reply<+T> = Good(value: T) | Bad(error: ViewError)

  /** Text rules that the view leaves uninterpreted: UTF-8 validity, trimming, and whether a line
      contains a query once both are prepared for the two case and normalization flags. */
  datatype Viewer = Viewer(
    utf8: string -> bool,
    trimmed: string -> string,
    prepares: (string, bool, bool) -> bool,
    contains: (string, string, bool, bool) -> bool)

  // ----- snapshots -----

  /** The files that the view can show: resources with UTF-8 content. */
  function Visible(vx: Viewer, native: map<Key, Resource>): set<Key> {
    set k | k in Shown(native) && vx.utf8(native[k].content)
  }

  ghost predicate IsSnapshot(vx: Viewer, native: map<Key, Resource>, files: map<string, string>) {
    && files.Keys == Paths(Visible(vx, native))
    && forall k :: k in Visible(vx, native) ==> files[MemoryPath(k)] == native[k].content
  }

  ghost function KeyAt(vx: Viewer, native: map<Key, Resource>, p: string): (k: Key)
    requires p in Paths(Visible(vx, native))
    ensures k in Visible(vx, native) && MemoryPath(k) == p
  {
    var k :| k in Visible(vx, native) && MemoryPath(k) == p;
    k
  }

  /** What every path of the view shows. */
  ghost function SnapshotOf(vx: Viewer, native: map<Key, Resource>): map<string, string> {
    map p | p in Paths(Visible(vx, native)) :: native[KeyAt(vx, native, p)].content
  }

  lemma SnapshotIsUnique(vx: Viewer, native: map<Key, Resource>, files: map<string, string>)
    requires IsSnapshot(vx, native, files)
    ensures files == SnapshotOf(vx, native)
  {
  }

  ghost predicate Holds(native: map<Key, Resource>, done: set<Key>, files: map<string, string>)
    requires done <= native.Keys
  {
    files.Keys == Paths(done) && forall k :: k in done ==> files[MemoryPath(k)] == native[k].content
  }

  lemma HoldsNext(native: map<Key, Resource>, done: set<Key>, files: map<string, string>, k: Key)
    requires done <= native.Keys && k in native && k !in done && Holds(native, done, files) && MemoryPath(k) !in files
    ensures Holds(native, done + {k}, files[MemoryPath(k) := native[k].content])
  {
    assert Paths(done + {k}) == Paths(done) + {MemoryPath(k)};
    assert forall d :: d in done ==> MemoryPath(d) in Paths(done);
  }

  lemma VisibleNext(vx: Viewer, native: map<Key, Resource>, rest: set<Key>, k: Key)
    requires k in rest
    ensures Visible(vx, native) - (rest - {k}) == if k in Visible(vx, native) then Visible(vx, native) - rest + {k}
        else Visible(vx, native) - rest
  {
  }

  /** A second file at a path that is taken is a collision of the tree. */
  lemma Collision(vx: Viewer, native: map<Key, Resource>, done: set<Key>, files: map<string, string>, k: Key)
    requires done <= Shown(native) && k in Shown(native) && k !in done && Holds(native, done, files) &&
        MemoryPath(k) in files
    ensures !TreeOk(Shown(native))
  {
    var other :| other in done && MemoryPath(other) == MemoryPath(k);
    assert other in Shown(native);
  }

  method MemorySnapshot(vx: Viewer, native: map<Key, Resource>) returns (r: Reply<map<string, string>>)
    requires ResourcesOk(native)
    ensures TreeOk(Shown(native)) ==> r.Good?
    ensures if r.Good? then IsSnapshot(vx, native, r.value) && r.value == SnapshotOf(vx, native)
        else r == Bad(AmbiguousPath)
  {
    hide Holds, TreeOk, Paths, SnapshotOf;
    var files := map[];
    var rest := native.Keys;
    assert Holds(native, Visible(vx, native) - rest, files) by { NothingHeld(vx, native); }
    while rest != {}
      invariant rest <= native.Keys
      invariant Holds(native, Visible(vx, native) - rest, files)
      decreases |rest|
    {
      var k :| k in rest;
      var x := native[k];
      ghost var done := Visible(vx, native) - rest;
      VisibleNext(vx, native, rest, k);
      rest := rest - {k};
      var p := MemoryPath(x.key);
      if p != "" && !x.deleted {
        assert k in Shown(native) && k !in done && done <= Shown(native);
        if p in files {
          Collision(vx, native, done, files, k);
          return Bad(AmbiguousPath);
        }
        if vx.utf8(x.content) {
          HoldsNext(native, done, files, k);
          files := files[p := x.content];
        }
      }
    }
    r := Good(files);
    HeldAll(vx, native, files);
    SnapshotIsUnique(vx, native, files);
  }

  lemma NothingHeld(vx: Viewer, native: map<Key, Resource>)
    ensures Holds(native, Visible(vx, native) - native.Keys, map[])
  {
  }

  lemma HeldAll(vx: Viewer, native: map<Key, Resource>, files: map<string, string>)
    requires Holds(native, Visible(vx, native) - {}, files)
    ensures IsSnapshot(vx, native, files)
  {
    assert Visible(vx, native) - {} == Visible(vx, native);
  }

  lemma SnapshotStands(vx: Viewer, native: map<Key, Resource>)
    requires TreeOk(Shown(native))
    ensures IsSnapshot(vx, native, SnapshotOf(vx, native))
  {
    forall k | k in Visible(vx, native)
      ensures SnapshotOf(vx, native)[MemoryPath(k)] == native[k].content
    {
      assert MemoryPath(k) in Paths(Visible(vx, native));
      assert KeyAt(vx, native, MemoryPath(k)) == k;
    }
  }

  /** In every reachable state each visible resource shows its own content at its path: none is hidden
      behind another, so a snapshot never finds a path ambiguous. */
  lemma NeverAmbiguous(vx: Viewer, cx: Codec, log: seq<Record>)
    requires IsHistory(cx, log)
    ensures IsSnapshot(vx, StateOf(log).native, SnapshotOf(vx, StateOf(log).native))
  {
    hide IsHistory, StateOf, SnapshotOf, IsSnapshot, TreeOk;
    HistoryOk(cx, log);
    SnapshotStands(vx, StateOf(log).native);
  }

  /** The paths of a snapshot are short and none is a directory of another. */
  lemma SnapshotPaths(vx: Viewer, native: map<Key, Resource>, files: map<string, string>)
    requires ResourcesOk(native) && TreeOk(Shown(native)) && IsSnapshot(vx, native, files)
    ensures Flat(files.Keys)
    ensures forall p :: p in files ==> 1 <= |p| <= 1024 + |NOTE_PREFIX|
  {
    forall p | p in files
      ensures 1 <= |p| <= 1024 + |NOTE_PREFIX|
    {
      var k :| k in Visible(vx, native) && MemoryPath(k) == p;
    }
    forall a, p | a in files && p in files
      ensures !Ancestor(a, p)
    {
      var k :| k in Visible(vx, native) && MemoryPath(k) == a;
      var l :| l in Visible(vx, native) && MemoryPath(l) == p;
    }
  }

  // ----- cursors -----

  /** The decoded cursor, its query hash written as the query itself. */
  datatype Cursor<Q> = NoCursor | Garbled | At(generation: nat, query: Q, index: int)

  function CursorStart<Q(==)>(cursor: Cursor<Q>, generation: nat, query: Q): Reply<nat> {
    match cursor
    case NoCursor => Good(0)
    case Garbled => Bad(InvalidCursor)
    case At(g, q, i) =>
      if i < 0 then Bad(InvalidCursor)
      else if g != generation || q != query then Bad(SnapshotExpired)
      else Good(i)
  }

  /** A cursor cut after `n` records is good for the same query while no record was appended, and expires with
      the first one or with another query. */
  lemma CursorExpires<Q>(cx: Codec, log: seq<Record>, n: nat, query: Q, again: Q, i: int)
    requires IsHistory(cx, log) && n <= |log|
    ensures CursorStart(At(StateOf(log[..n]).sequence, query, i), StateOf(log).sequence, again) ==
        if i < 0 then Bad(InvalidCursor) else if n == |log| && query == again then Good(i) else Bad(SnapshotExpired)
  {
    HistoryPrefix(cx, log, n);
    SequenceCountsRecords(cx, log[..n]);
    SequenceCountsRecords(cx, log);
  }

  function MemoryScope(path: Option<string>): Reply<string> {
    if path.None? || path.value == "" || path.value == "." then Good("")
    else if !ValidPath(path.value) then Bad(InvalidPath)
    else Good(path.value)
  }

  predicate Hidden(p: string) {
    exists part :: part in Split(p, '/') && part != "" && part[0] == '.'
  }

  // ----- listing -----

  datatype EntryType = FileEntry | DirectoryEntry
  datatype ListRequest = ListRequest(path: Option<string>, maxResults: int)
  datatype ListPage = ListPage(entries: seq<(string, EntryType)>, next: Cursor<ListRequest>)

  function Prefix(scope: string): string {
    if scope == "" then "" else scope + "/"
  }

  predicate Below(p: string, prefix: string) {
    |prefix| <= |p| && p[..|prefix|] == prefix && !Hidden(p)
  }

  /** The entry of directory `prefix` under which file `p` lies. */
  function EntryOf(p: string, prefix: string): string
    requires |prefix| <= |p|
  {
    prefix + p[|prefix|..][..IndexOf(p[|prefix|..], '/')]
  }

  /** The entries of the listing. */
  function EntriesOf(files: set<string>, scope: string): set<string> {
    if scope in files then {scope}
    else set p | p in files && Below(p, Prefix(scope)) :: EntryOf(p, Prefix(scope))
  }

  /** What an entry is: a file if the snapshot has that path, and otherwise a directory. */
  function TypeOf(files: set<string>, entry: string): EntryType {
    if entry in files then FileEntry else DirectoryEntry
  }

  lemma EntryShape(p: string, prefix: string)
    requires |prefix| <= |p| && p[..|prefix|] == prefix
    ensures IndexOf(p[|prefix|..], '/') == |p| - |prefix| ==> EntryOf(p, prefix) == p
    ensures IndexOf(p[|prefix|..], '/') < |p| - |prefix| ==> Ancestor(EntryOf(p, prefix), p)
  {
    var rest := p[|prefix|..];
    var i := IndexOf(rest, '/');
    assert EntryOf(p, prefix) == p[..|prefix| + i];
    assert i < |rest| ==> p[|prefix| + i] == rest[i];
  }

  /** The type that the source computes from any one file agrees with `TypeOf`, so the order in which the
      files are visited does not matter. */
  lemma EntryTypeAgrees(files: set<string>, scope: string, p: string)
    requires Flat(files) && p in files && scope !in files && Below(p, Prefix(scope))
    ensures TypeOf(files, EntryOf(p, Prefix(scope))) ==
            if IndexOf(p[|Prefix(scope)|..], '/') < |p| - |Prefix(scope)| then DirectoryEntry else FileEntry
  {
    EntryShape(p, Prefix(scope));
  }

  method CollectEntries(files: map<string, string>, scope: string) returns (entries: map<string, EntryType>)
    requires Flat(files.Keys)
    ensures entries.Keys == EntriesOf(files.Keys, scope)
    ensures forall e :: e in entries ==> entries[e] == TypeOf(files.Keys, e)
  {
    if scope in files {
      return map[scope := FileEntry];
    }
    var prefix := Prefix(scope);
    entries := map[];
    var rest := files.Keys;
    while rest != {}
      invariant rest <= files.Keys
      invariant entries.Keys == set p | p in files.Keys - rest && Below(p, prefix) :: EntryOf(p, prefix)
      invariant forall e :: e in entries ==> entries[e] == TypeOf(files.Keys, e)
      decreases |rest|
    {
      var p :| p in rest;
      rest := rest - {p};
      if Below(p, prefix) {
        var tail := p[|prefix|..];
        EntryTypeAgrees(files.Keys, scope, p);
        var typ := if IndexOf(tail, '/') < |tail| then DirectoryEntry else FileEntry;
        entries := entries[EntryOf(p, prefix) := typ];
      }
    }
  }

  /** Collects the keys of a map, in any order, and sorts them. */
  method SortedKeys(names: set<string>) returns (paths: seq<string>)
    ensures paths == Ordered(names)
  {
    paths := [];
    var rest := names;
    while rest != {}
      invariant rest <= names
      invariant forall x :: x in paths <==> x in names - rest
      invariant forall i, j :: 0 <= i < j < |paths| ==> paths[i] != paths[j]
      decreases |rest|
    {
      var x :| x in rest;
      assert names - (rest - {x}) == names - rest + {x};
      assert forall y :: y in paths + [x] <==> y in paths || y == x;
      rest := rest - {x};
      paths := paths + [x];
    }
    SortListsInOrder(paths);
    assert (set x | x in paths) == names;
    OrderIsUnique(Sort(paths, Less), Ordered(names), names);
    paths := Sort(paths, Less);
  }

  /** Where the page that starts at `i` ends. */
  function PageEnd(paths: seq<string>, i: nat, room: nat, size: nat): (e: nat)
    requires i <= |paths|
    ensures i <= e <= |paths|
    decreases |paths| - i
  {
    if i == |paths| || room == 0 || size + |paths[i]| > PAGE_BYTES then i
    else PageEnd(paths, i + 1, room - 1, size + |paths[i]|)
  }

  function Rows(files: set<string>, paths: seq<string>): (rows: seq<(string, EntryType)>)
    ensures |rows| == |paths|
    ensures forall i :: 0 <= i < |paths| ==> rows[i] == (paths[i], TypeOf(files, paths[i]))
  {
    if paths == [] then []
        else Rows(files, paths[..|paths| - 1]) + [(paths[|paths| - 1], TypeOf(files, paths[|paths| - 1]))]
  }

  /** The page of the listing of `files` that starts at `start`. */
  ghost function ListPageAt(files: set<string>, generation: nat, scope: string, query: ListRequest,
                            start: nat): Reply<ListPage>
    requires query.maxResults >= 0
  {
    var names := EntriesOf(files, scope);
    var paths := Ordered(names);
    if scope != "" && names == {} then Bad(Missing)
    else if start > |paths| then Bad(InvalidCursor)
    else
      var end := PageEnd(paths, start, query.maxResults, 0);
      Good(ListPage(Rows(files, paths)[start..end], if end < |paths| then At(generation, query, end) else NoCursor))
  }

  const LIST_LIMIT := 2000

  /** The reply to a listing request on a snapshot. */
  ghost function ListReply(files: set<string>, generation: nat, q: ListRequest,
                           cursor: Cursor<ListRequest>): Reply<ListPage>
  {
    match MemoryScope(q.path)
    case Bad(e) => Bad(e)
    case Good(scope) =>
      if q.maxResults <= 0 then Bad(InvalidBounds)
      else
        var query := q.(maxResults := Min(q.maxResults, LIST_LIMIT));
        match CursorStart(cursor, generation, query)
        case Bad(e) => Bad(e)
        case Good(start) => ListPageAt(files, generation, scope, query, start)
  }

  method MemoryList(vx: Viewer, s: State, q: ListRequest, cursor: Cursor<ListRequest>) returns (r: Reply<ListPage>)
    requires ResourcesOk(s.native) && TreeOk(Shown(s.native))
    ensures r == ListReply(SnapshotOf(vx, s.native).Keys, s.sequence, q, cursor)
  {
    hide SnapshotOf, TreeOk, ResourcesOk, IsSnapshot, ListPageAt;
    var scope := MemoryScope(q.path);
    if scope.Bad? {
      return Bad(scope.error);
    }
    if q.maxResults <= 0 {
      return Bad(InvalidBounds);
    }
    var query := q.(maxResults := Min(q.maxResults, LIST_LIMIT));
    var snapshot := MemorySnapshot(vx, s.native);
    var files := snapshot.value;
    SnapshotPaths(vx, s.native, files);
    var start := CursorStart(cursor, s.sequence, query);
    if start.Bad? {
      return Bad(start.error);
    }
    r := CutListPage(files, s.sequence, scope.value, query, start.value);
  }

  method CutListPage(files: map<string, string>, generation: nat, scope: string, query: ListRequest, start: nat)
      returns (r: Reply<ListPage>)
    requires Flat(files.Keys) && query.maxResults > 0
    ensures r == ListPageAt(files.Keys, generation, scope, query, start)
  {
    var entries := CollectEntries(files, scope);
    if scope != "" && |entries| == 0 {
      assert entries.Keys == {};
      return Bad(Missing);
    }
    var paths := SortedKeys(entries.Keys);
    if start > |paths| {
      return Bad(InvalidCursor);
    }
    var out, i := FillListPage(files.Keys, entries, paths, start, query.maxResults);
    r := Good(ListPage(out, if i < |paths| then At(generation, query, i) else NoCursor));
  }

  /** The loop that fills one page. */
  method FillListPage(files: set<string>, entries: map<string, EntryType>, paths: seq<string>, start: nat,
                      maxResults: nat)
      returns (out: seq<(string, EntryType)>, i: nat)
    requires forall p :: p in paths ==> p in entries && entries[p] == TypeOf(files, p)
    requires start <= |paths|
    ensures i == PageEnd(paths, start, maxResults, 0) && out == Rows(files, paths)[start..i]
  {
    out := [];
    var size: nat := 0;
    i := start;
    while i < |paths| && |out| < maxResults
      invariant start <= i <= |paths| && |out| == i - start && |out| <= maxResults
      invariant forall k :: 0 <= k < |out| ==> out[k] == (paths[start + k], TypeOf(files, paths[start + k]))
      invariant PageEnd(paths, i, maxResults - |out|, size) == PageEnd(paths, start, maxResults, 0)
      decreases |paths| - i
    {
      var entry := (paths[i], entries[paths[i]]);
      if size + |paths[i]| > PAGE_BYTES {
        break;
      }
      size := size + |paths[i]|;
      out := out + [entry];
      i := i + 1;
    }
    assert out == Rows(files, paths)[start..i];
  }

  // ----- following cursors -----

  /** Every page that is not the last one makes progress. */
  lemma ListProgress(paths: seq<string>, start: nat, room: nat)
    requires start < |paths| && room > 0 && forall i :: 0 <= i < |paths| ==> |paths[i]| <= PAGE_BYTES
    ensures PageEnd(paths, start, room, 0) > start
  {
  }

  lemma EntriesAreShort(files: set<string>, scope: string, e: string)
    requires e in EntriesOf(files, scope) && forall p :: p in files ==> |p| <= PAGE_BYTES
    ensures |e| <= PAGE_BYTES
  {
    if scope !in files {
      var p :| p in files && Below(p, Prefix(scope)) && EntryOf(p, Prefix(scope)) == e;
      EntryShape(p, Prefix(scope));
    }
  }

  lemma PathsAreShort(files: set<string>, scope: string)
    requires forall p :: p in files ==> |p| <= PAGE_BYTES
    ensures forall i :: 0 <= i < |Ordered(EntriesOf(files, scope))| ==>
        |Ordered(EntriesOf(files, scope))[i]| <= PAGE_BYTES
  {
    var paths := Ordered(EntriesOf(files, scope));
    forall i | 0 <= i < |paths|
      ensures |paths[i]| <= PAGE_BYTES
    {
      EntriesAreShort(files, scope, paths[i]);
    }
  }

  /** The next page of an unchanged snapshot exists and starts later. */
  lemma NextListPage(files: set<string>, generation: nat, scope: string, query: ListRequest, start: nat)
    requires query.maxResults > 0 && forall p :: p in files ==> |p| <= PAGE_BYTES
    requires ListPageAt(files, generation, scope, query, start).Good?
    ensures var next := ListPageAt(files, generation, scope, query, start).value.next;
            next.At? ==>
              && CursorStart(next, generation, query) == Good(next.index) &&
                  start < next.index <= |Ordered(EntriesOf(files, scope))|
              && ListPageAt(files, generation, scope, query, next.index).Good?
  {
    PathsAreShort(files, scope);
    if start < |Ordered(EntriesOf(files, scope))| {
      ListProgress(Ordered(EntriesOf(files, scope)), start, query.maxResults);
    }
  }

  /** All rows seen by requesting the page at `start` and then following the returned cursors. */
  ghost function FollowList(files: set<string>, generation: nat, scope: string, query: ListRequest,
                            start: nat): seq<(string, EntryType)>
    requires query.maxResults > 0 && forall p :: p in files ==> |p| <= PAGE_BYTES
    requires ListPageAt(files, generation, scope, query, start).Good?
    decreases |Ordered(EntriesOf(files, scope))| - start
  {
    NextListPage(files, generation, scope, query, start);
    var page := ListPageAt(files, generation, scope, query, start).value;
    if page.next.At? then page.entries + FollowList(files, generation, scope, query, page.next.index) else page.entries
  }

  /** What a page holds, and where the next one starts. */
  lemma ListPageIs(files: set<string>, generation: nat, scope: string, query: ListRequest, start: nat)
    requires query.maxResults > 0 && ListPageAt(files, generation, scope, query, start).Good?
    ensures var paths := Ordered(EntriesOf(files, scope));
    var page := ListPageAt(files, generation, scope, query, start).value;
            && start <= |paths|
            && (page.next.At? ==>
                start <= page.next.index <= |paths| && page.entries == Rows(files, paths)[start..page.next.index])
            && (!page.next.At? ==> page.entries == Rows(files, paths)[start..])
  {
    hide EntriesOf, Rows;
    var paths := Ordered(EntriesOf(files, scope));
    assert Rows(files, paths)[start..|paths|] == Rows(files, paths)[start..];
  }

  /** Following the cursors of a listing terminates and yields every entry of the first page's snapshot
      once and in order. */
  lemma {:induction false} ListingIsLossless(files: set<string>, generation: nat, scope: string, query: ListRequest,
                                             start: nat)
    requires query.maxResults > 0 && forall p :: p in files ==> |p| <= PAGE_BYTES
    requires ListPageAt(files, generation, scope, query, start).Good?
    ensures FollowList(files, generation, scope, query, start) == Rows(files, Ordered(EntriesOf(files, scope)))[start..]
    decreases |Ordered(EntriesOf(files, scope))| - start
  {
    hide ListPageAt, EntriesOf, Rows;
    NextListPage(files, generation, scope, query, start);
    ListPageIs(files, generation, scope, query, start);
    var page := ListPageAt(files, generation, scope, query, start).value;
    if page.next.At? {
      var rows, next := Rows(files, Ordered(EntriesOf(files, scope))), page.next.index;
      ListingIsLossless(files, generation, scope, query, next);
      assert rows[start..next] + rows[next..] == rows[start..];
    }
  }

  /** Everything that a listing request asks for. */
  ghost function ListedRows(files: set<string>, q: ListRequest): Reply<seq<(string, EntryType)>> {
    match MemoryScope(q.path)
    case Bad(e) => Bad(e)
    case Good(scope) =>
      if q.maxResults <= 0 then Bad(InvalidBounds)
      else if scope != "" && EntriesOf(files, scope) == {} then Bad(Missing)
      else Good(Rows(files, Ordered(EntriesOf(files, scope))))
  }

  /** A client that repeats a listing request with each cursor it gets, on an unchanged store, gets
      everything once and in order, and ends. */
  method ListEverything(vx: Viewer, s: State, q: ListRequest) returns (r: Reply<seq<(string, EntryType)>>)
    requires ResourcesOk(s.native) && TreeOk(Shown(s.native))
    ensures r == ListedRows(SnapshotOf(vx, s.native).Keys, q)
  {
    hide SnapshotOf, TreeOk, ResourcesOk, IsSnapshot, ListPageAt, Rows, EntriesOf;
    ghost var files := SnapshotOf(vx, s.native).Keys;
    var first := MemoryList(vx, s, q, NoCursor);
    if first.Bad? {
      FirstPage(files, s.sequence, q);
      return Bad(first.error);
    }
    SnapshotShort(vx, s);
    FirstPage(files, s.sequence, q);
    var page := first.value;
    ghost var scope, query := MemoryScope(q.path).value, q.(maxResults := Min(q.maxResults, LIST_LIMIT));
    ghost var at: nat := 0;
    var rows := page.entries;
    NextListPage(files, s.sequence, scope, query, at);
    while page.next.At?
      invariant at <= |Ordered(EntriesOf(files, scope))|
      invariant ListPageAt(files, s.sequence, scope, query, at) == Good(page)
      invariant page.next.At? ==>
          CursorStart(page.next, s.sequence, query) == Good(page.next.index) && page.next.index > at
      invariant page.next.At? ==>
          page.next.index <= |Ordered(EntriesOf(files, scope))| &&
          ListPageAt(files, s.sequence, scope, query, page.next.index).Good?
      invariant FollowList(files, s.sequence, scope, query, 0)
             == rows + if page.next.At? then FollowList(files, s.sequence, scope, query, page.next.index) else []
      decreases |Ordered(EntriesOf(files, scope))| - at
    {
      at := page.next.index;
      var reply := MemoryList(vx, s, q, page.next);
      page := reply.value;
      rows := rows + page.entries;
      NextListPage(files, s.sequence, scope, query, at);
    }
    ListingIsLossless(files, s.sequence, scope, query, 0);
    assert rows + [] == rows;
    assert Rows(files, Ordered(EntriesOf(files, scope)))[0..] == Rows(files, Ordered(EntriesOf(files, scope)));
    r := Good(rows);
  }

  lemma SnapshotShort(vx: Viewer, s: State)
    requires ResourcesOk(s.native) && TreeOk(Shown(s.native))
    ensures forall p :: p in SnapshotOf(vx, s.native).Keys ==> |p| <= PAGE_BYTES
  {
    hide TreeOk, ResourcesOk;
    SnapshotStands(vx, s.native);
    SnapshotPaths(vx, s.native, SnapshotOf(vx, s.native));
  }

  lemma FirstPage(files: set<string>, generation: nat, q: ListRequest)
    ensures ListReply(files, generation, q, NoCursor).Bad? <==> ListedRows(files, q).Bad?
    ensures ListReply(files, generation, q, NoCursor).Bad? ==>
        ListReply(files, generation, q, NoCursor).error == ListedRows(files, q).error
  {
    hide EntriesOf, Rows;
  }
}
