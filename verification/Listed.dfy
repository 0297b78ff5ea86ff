/** What the view holds and what a listing tells its client, read off the resources, the request and the reply:
    which files there are, which entries are listed, how full a page is, and when the listing is refused. */
module Listed {
  import opened Types
  import opened Text
  import opened MemoryTree
  import opened History
  import opened Registers
  import opened MemoryView
  import opened Found

  // ----- the files of the view -----

  /** In every reachable state the snapshot has exactly the live memory resources with UTF-8 content, each at the
      path of its domain. */
  lemma SnapshotIs(vx: Viewer, cx: Codec, log: seq<Record>, p: string, content: string)
    requires IsHistory(cx, log)
    ensures var native := StateOf(log).native; var files := SnapshotOf(vx, native);
            (p in files && files[p] == content) <==>
                exists k :: InView(native, k) && IsFileAt(k, p) && native[k].content == content && vx.utf8(content)
  {
    hide IsHistory, StateOf, SnapshotOf, Shown, InView, IsFileAt, MemoryPath;
    var native := StateOf(log).native;
    var files := SnapshotOf(vx, native);
    HistoryOk(cx, log);
    ResourceNames(native);
    NeverAmbiguous(vx, cx, log);
    forall k
      ensures k in Visible(vx, native) <==> k in native && InView(native, k) && vx.utf8(native[k].content)
      ensures InView(native, k) ==> k in native && (IsFileAt(k, p) <==> MemoryPath(k) == p)
    {
      ShownIff(native, k);
      InViewHas(native, k);
      if InView(native, k) {
        FileAt(k, p);
      }
    }
    if p in files && files[p] == content {
      var k :| k in Visible(vx, native) && MemoryPath(k) == p;
    }
  }

  lemma InViewHas(native: map<Key, Resource>, k: Key)
    ensures InView(native, k) ==> k in native && k.domain in {Note, Artifact, Extension, Stage1}
    ensures k in Shown(native) ==> k in native
  {
  }

  // ----- listing -----

  /** `e` is listed under `scope`: the file that was asked for, or a file or directory directly below the scope
      that is, or leads to, a file without dot parts. */
  ghost predicate IsEntry(files: set<string>, scope: string, e: string) {
    if scope in files then e == scope
    else
      exists p, name :: p in files && !DotFile(p) && IsChild(scope, name, e) && (p == e || IsUnder(p, e))
  }

  ghost predicate IsChild(scope: string, name: string, e: string) {
    '/' !in name && e == if scope == "" then name else scope + "/" + name
  }

  ghost predicate IsUnder(p: string, e: string) {
    exists rest :: p == e + "/" + rest
  }

  lemma EntryChild(p: string, scope: string)
    requires Below(p, Prefix(scope))
    ensures var e := EntryOf(p, Prefix(scope));
            (exists name :: IsChild(scope, name, e)) && (p == e || IsUnder(p, e))
  {
    hide Hidden;
    var prefix := Prefix(scope);
    var rest := p[|prefix|..];
    var i := IndexOf(rest, '/');
    assert IsChild(scope, rest[..i], EntryOf(p, prefix));
    assert p == prefix + rest;
    if i < |rest| {
      CutAt(prefix, rest, i);
    } else {
      assert rest[..i] == rest;
    }
  }

  lemma CutAt(prefix: string, rest: string, i: nat)
    requires i < |rest| && rest[i] == '/'
    ensures IsUnder(prefix + rest, prefix + rest[..i])
  {
    assert rest == rest[..i] + "/" + rest[i + 1..];
    assert prefix + rest == prefix + rest[..i] + "/" + rest[i + 1..];
  }

  lemma ChildEntry(p: string, scope: string, name: string, e: string)
    requires IsChild(scope, name, e) && (p == e || IsUnder(p, e)) && !Hidden(p)
    ensures Below(p, Prefix(scope)) && EntryOf(p, Prefix(scope)) == e
  {
    hide Hidden;
    var prefix := Prefix(scope);
    assert e == prefix + name;
    if p == e {
      assert p[|prefix|..] == name;
      FirstIndex(name, '/', |name|);
    } else {
      var rest :| p == e + "/" + rest;
      assert p[|prefix|..] == name + "/" + rest;
      FirstIndex(p[|prefix|..], '/', |name|);
    }
    assert p[..|prefix|] == prefix;
  }

  lemma EntryIff(files: set<string>, scope: string, e: string)
    ensures e in EntriesOf(files, scope) <==> IsEntry(files, scope, e)
  {
    hide Hidden, DotFile, EntryOf, IsChild, IsUnder, Prefix;
    if scope !in files {
      forall p | p in files
        ensures Below(p, Prefix(scope)) && EntryOf(p, Prefix(scope)) == e <==>
            !DotFile(p) && (exists name :: IsChild(scope, name, e)) && (p == e || IsUnder(p, e))
      {
        HiddenIff(p);
        if Below(p, Prefix(scope)) {
          EntryChild(p, scope);
        }
        if name :| IsChild(scope, name, e) && !DotFile(p) && (p == e || IsUnder(p, e)) {
          ChildEntry(p, scope, name, e);
        }
      }
    }
  }

  /** A listing succeeds if and only if its scope is a path, its bound is positive and a scope that is given has
      something to list. It then has one row for every entry, in order, with its type. */
  lemma ListingIsExact(files: set<string>, q: ListRequest, scope: string)
    requires IsScope(q.path, scope)
    ensures var r := ListedRows(files, q);
            && (r.Good? <==> q.maxResults > 0 && (scope == "" || exists e :: IsEntry(files, scope, e)))
            && (r.Bad? ==> r.error == if q.maxResults <= 0 then InvalidBounds else Missing)
            && (r.Good? ==>
                  && (forall i, k :: 0 <= i < k < |r.value| ==> Less(r.value[i].0, r.value[k].0))
                  && (forall e, t :: (e, t) in r.value <==>
                      IsEntry(files, scope, e) && t == if e in files then FileEntry else DirectoryEntry))
  {
    hide IsScope, MemoryScope, EntriesOf, IsEntry;
    ScopeIff(q.path, scope);
    forall e
      ensures e in EntriesOf(files, scope) <==> IsEntry(files, scope, e)
    {
      EntryIff(files, scope, e);
    }
    if q.maxResults > 0 {
      RowsAre(files, EntriesOf(files, scope));
    }
  }

  lemma RowsAre(files: set<string>, entries: set<string>)
    ensures var rows := Rows(files, Ordered(entries));
            && (forall i, k :: 0 <= i < k < |rows| ==> Less(rows[i].0, rows[k].0))
            && (forall e, t :: (e, t) in rows <==>
                e in entries && t == if e in files then FileEntry else DirectoryEntry)
  {
    var paths := Ordered(entries);
    var rows := Rows(files, paths);
    forall e, t
      ensures (e, t) in rows <==> e in entries && t == if e in files then FileEntry else DirectoryEntry
    {
      if e in entries {
        var i :| 0 <= i < |paths| && paths[i] == e;
        assert rows[i] == (e, TypeOf(files, e));
      }
      if (e, t) in rows {
        var i :| 0 <= i < |rows| && rows[i] == (e, t);
      }
    }
  }

  /** A listing of something that is not a path is refused. */
  lemma NoListing(files: set<string>, q: ListRequest)
    requires forall scope :: !IsScope(q.path, scope)
    ensures ListedRows(files, q) == Bad(InvalidPath)
  {
    hide ValidPath;
    ScopeIff(q.path, if MemoryScope(q.path).Good? then MemoryScope(q.path).value else "");
  }

  // ----- pages -----

  /** The bytes of the paths of some rows. */
  ghost function PathBytes(rows: seq<(string, EntryType)>): nat {
    if rows == [] then 0 else |rows[0].0| + PathBytes(rows[1..])
  }

  lemma {:induction false} PageEndIs(files: set<string>, paths: seq<string>, i: nat, room: nat, size: nat)
    requires i <= |paths| && size <= 0x8000
    ensures var e := PageEnd(paths, i, room, size); var bytes := size + PathBytes(Rows(files, paths)[i..e]);
            && e - i <= room && bytes <= 0x8000
            && (e < |paths| ==> e - i == room || bytes + |paths[e]| > 0x8000)
    decreases |paths| - i
  {
    var rows, e := Rows(files, paths), PageEnd(paths, i, room, size);
    if i < |paths| && room > 0 && size + |paths[i]| <= 0x8000 {
      PageEndIs(files, paths, i + 1, room - 1, size + |paths[i]|);
      assert rows[i..e][0] == rows[i] && rows[i..e][1..] == rows[i + 1..e];
    } else {
      assert rows[i..e] == [];
    }
  }

  /** A page of a listing is a stretch of its rows that starts where the cursor says and is as long as the bounds
      on its size and count allow; it has a cursor to the next row unless it holds the last one. */
  lemma ListPageIsFull(files: set<string>, generation: nat, q: ListRequest, cursor: Cursor<ListRequest>,
                       page: ListPage, rows: seq<(string, EntryType)>) returns (start: nat)
    requires ListReply(files, generation, q, cursor) == Good(page) && ListedRows(files, q) == Good(rows)
    ensures cursor.NoCursor? ==> start == 0
    ensures cursor.At? ==> cursor.generation == generation && start == cursor.index
    ensures var n := |page.entries|;
            && start + n <= |rows| && page.entries == rows[start..start + n]
            && n <= q.maxResults && n <= 2000 && PathBytes(page.entries) <= 0x8000
            && (page.next.NoCursor? <==> start + n == |rows|)
            && (start + n < |rows| ==>
                  && page.next == At(generation, q.(maxResults := Min(q.maxResults, 2000)), start + n)
                  && (n == q.maxResults || n == 2000 || PathBytes(page.entries) + |rows[start + n].0| > 0x8000))
  {
    hide MemoryScope, EntriesOf;
    var scope, query := MemoryScope(q.path).value, q.(maxResults := Min(q.maxResults, LIST_LIMIT));
    start := CursorStart(cursor, generation, query).value;
    var paths := Ordered(EntriesOf(files, scope));
    PageEndIs(files, paths, start, query.maxResults, 0);
  }
}
