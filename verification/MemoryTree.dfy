/** The merged memory view: several domains publish their resources as files of one tree. A batch is
    accepted only if the tree it leaves has no path published twice and no file used as a directory. */
module MemoryTree {
  import opened Types
  import opened Text

  const NOTE_PREFIX := "extensions/ad_hoc/notes/"

  function MemoryPath(k: Key): string {
    match k.domain
    case Note => NOTE_PREFIX + k.name
    case Artifact => k.name
    case Extension => "extensions/" + k.name
    case Stage1 => "rollout_summaries/" + k.name
    case _ => ""
  }

  predicate Shows(k: Key, deleted: bool) {
    MemoryPath(k) != "" && !deleted
  }

  /** The resources that are files of the merged view. */
  function Shown(native: map<Key, Resource>): set<Key> {
    set k | k in native && Shows(k, native[k].deleted)
  }

  function ChangedKeys(changes: seq<Change>): set<Key> {
    set c | c in changes :: c.key
  }

  /** The files of the view once `changes` are applied. */
  function ShownAfter(native: map<Key, Resource>, changes: seq<Change>): set<Key> {
    (Shown(native) - ChangedKeys(changes)) + (set c | c in changes && Shows(c.key, c.deleted) :: c.key)
  }

  /** No two files share a path and no file is a directory of another. */
  predicate TreeOk(files: set<Key>) {
    forall a, b :: a in files && b in files && a != b ==>
      MemoryPath(a) != MemoryPath(b) && !Ancestor(MemoryPath(a), MemoryPath(b))
  }

  predicate ValidMemoryPaths(native: map<Key, Resource>, changes: seq<Change>) {
    TreeOk(ShownAfter(native, changes))
  }

  // ----- the loops of the source -----

  function Paths(files: set<Key>): set<string> {
    set k | k in files :: MemoryPath(k)
  }

  ghost predicate DistinctPaths(files: set<Key>) {
    forall a, b :: a in files && b in files && a != b ==> MemoryPath(a) != MemoryPath(b)
  }

  ghost predicate Flat(paths: set<string>) {
    forall a, p :: a in paths && p in paths ==> !Ancestor(a, p)
  }

  lemma TreeOkByPaths(files: set<Key>)
    ensures TreeOk(files) <==> DistinctPaths(files) && Flat(Paths(files))
  {
    if DistinctPaths(files) && Flat(Paths(files)) {
      forall a, b | a in files && b in files && a != b
        ensures !Ancestor(MemoryPath(a), MemoryPath(b))
      {
        assert MemoryPath(a) in Paths(files) && MemoryPath(b) in Paths(files);
      }
    }
    if TreeOk(files) {
      forall p, q | p in Paths(files) && q in Paths(files)
        ensures !Ancestor(p, q)
      {
        var a :| a in files && MemoryPath(a) == p;
        var b :| b in files && MemoryPath(b) == q;
      }
    }
  }

  /** The closure `add`: `files` are the resources added so far, `paths` their paths. */
  method AddPath(ghost files: set<Key>, paths: set<string>, k: Key, deleted: bool)
      returns (ok: bool, after: set<string>)
    requires DistinctPaths(files) && paths == Paths(files) && k !in files
    ensures ok ==> DistinctPaths(files + if Shows(k, deleted) then {k} else {})
    ensures ok ==> after == Paths(files + if Shows(k, deleted) then {k} else {})
    ensures !ok ==> Shows(k, deleted) && !DistinctPaths(files + {k})
  {
    var p := MemoryPath(k);
    if p == "" || deleted {
      assert files + {} == files;
      return true, paths;
    }
    if p in paths {
      ghost var other :| other in files && MemoryPath(other) == p;
      return false, paths;
    }
    assert Paths(files + {k}) == paths + {p};
    return true, paths + {p};
  }

  /** The paths of the resources that the batch leaves alone. */
  method UnchangedPaths(native: map<Key, Resource>, changed: set<Key>) returns (ok: bool, paths: set<string>)
    requires forall k :: k in native ==> native[k].key == k
    ensures ok ==> DistinctPaths(Shown(native) - changed) && paths == Paths(Shown(native) - changed)
    ensures !ok ==> !DistinctPaths(Shown(native) - changed)
  {
    paths := {};
    var rest := native.Keys;
    ghost var files := {};
    while rest != {}
      invariant rest <= native.Keys
      invariant files == Shown(native) - changed - rest
      invariant DistinctPaths(files) && paths == Paths(files)
      decreases |rest|
    {
      var k :| k in rest;
      rest := rest - {k};
      if k !in changed {
        var r := native[k];
        ok, paths := AddPath(files, paths, r.key, r.deleted);
        files := files + if Shows(k, r.deleted) then {k} else {};
        if !ok {
          return false, paths;
        }
      }
      assert files == Shown(native) - changed - rest;
    }
    ok := true;
  }

  lemma MoreFilesMoreClashes(files: set<Key>, more: set<Key>)
    requires files <= more && !DistinctPaths(files)
    ensures !DistinctPaths(more)
  {
  }

  /** `strings.LastIndexByte`. */
  function LastIndexOf(s: string, c: char): (i: int)
    ensures -1 <= i < |s|
    ensures i >= 0 ==> s[i] == c
    ensures forall k :: i < k < |s| ==> s[k] != c
    decreases |s|
  {
    if s == "" then -1
    else if s[|s| - 1] == c then |s| - 1
    else LastIndexOf(s[..|s| - 1], c)
  }

  /** Cuts `path` at its last slash until a published directory is met. */
  method HasPublishedAncestor(paths: set<string>, path: string) returns (found: bool)
    ensures found <==> exists a :: a in paths && Ancestor(a, path)
  {
    var p := path;
    while true
      invariant p == path[..|p|]
      invariant forall a :: a in paths && Ancestor(a, path) ==> Ancestor(a, p)
      invariant |p| <= |path| && forall a :: Ancestor(a, p) ==> Ancestor(a, path)
      decreases |p|
    {
      var i := LastIndexOf(p, '/');
      if i < 0 {
        return false;
      }
      assert Ancestor(p[..i], p);
      p := p[..i];
      if p in paths {
        return true;
      }
    }
  }

  /** The files that the first `n` changes add to the unchanged ones. */
  function Added(native: map<Key, Resource>, changes: seq<Change>, n: nat): set<Key>
    requires n <= |changes|
  {
    (Shown(native) - ChangedKeys(changes)) + (set j | 0 <= j < n && Shows(changes[j].key, changes[j].deleted) ::
        changes[j].key)
  }

  lemma AddedNext(native: map<Key, Resource>, changes: seq<Change>, n: nat)
    requires n < |changes| && forall i, j :: 0 <= i < j < |changes| ==> changes[i].key != changes[j].key
    ensures Added(native, changes, n + 1) == Added(native, changes, n) + if Shows(changes[n].key,
        changes[n].deleted) then {changes[n].key} else {}
    ensures changes[n].key !in Added(native, changes, n)
  {
    assert changes[n] in changes;
  }

  lemma AddedBounds(native: map<Key, Resource>, changes: seq<Change>, n: nat)
    requires n <= |changes|
    ensures Added(native, changes, 0) == Shown(native) - ChangedKeys(changes)
    ensures Added(native, changes, n) <= ShownAfter(native, changes)
    ensures Added(native, changes, |changes|) == ShownAfter(native, changes)
  {
    forall k | k in ShownAfter(native, changes)
      ensures k in Added(native, changes, |changes|)
    {
      if c :| c in changes && Shows(c.key, c.deleted) && c.key == k {
        var j :| 0 <= j < |changes| && changes[j] == c;
      }
    }
  }

  /** The loop over the finished tree. */
  method NoneHasAncestor(paths: set<string>) returns (ok: bool)
    ensures ok <==> Flat(paths)
  {
    var rest := paths;
    while rest != {}
      invariant rest <= paths
      invariant forall a, p :: a in paths && p in paths - rest ==> !Ancestor(a, p)
      decreases |rest|
    {
      var p :| p in rest;
      rest := rest - {p};
      var found := HasPublishedAncestor(paths, p);
      if found {
        return false;
      }
    }
    ok := true;
  }

  method CheckMemoryPaths(native: map<Key, Resource>, changes: seq<Change>) returns (ok: bool)
    requires forall k :: k in native ==> native[k].key == k
    requires forall i, j :: 0 <= i < j < |changes| ==> changes[i].key != changes[j].key
    ensures ok <==> ValidMemoryPaths(native, changes)
  {
    hide TreeOk, DistinctPaths, Paths, Flat, ShownAfter, Shown, Added;
    TreeOkByPaths(ShownAfter(native, changes));
    AddedBounds(native, changes, 0);
    var changed := ChangedKeys(changes);
    var paths;
    ok, paths := UnchangedPaths(native, changed);
    if !ok {
      MoreFilesMoreClashes(Shown(native) - changed, ShownAfter(native, changes));
      return false;
    }
    for i := 0 to |changes|
      invariant DistinctPaths(Added(native, changes, i)) && paths == Paths(Added(native, changes, i))
    {
      var c := changes[i];
      AddedNext(native, changes, i);
      AddedBounds(native, changes, i + 1);
      ok, paths := AddPath(Added(native, changes, i), paths, c.key, c.deleted);
      if !ok {
        MoreFilesMoreClashes(Added(native, changes, i + 1), ShownAfter(native, changes));
        return false;
      }
    }
    ok := NoneHasAncestor(paths);
  }
}
