/** `MemorySearch`: the matches of all files in path order, streamed into one bounded page. A cursor is
    the index of the next match in that sequence. */
module Search {
  import opened Types
  import opened Text
  import opened MemoryTree
  import opened History
  import opened MemoryView
  import opened Windows

  datatype SearchRequest = SearchRequest(
    queries: seq<string>, mode: Mode, path: Option<string>, contextLines: int,
    caseSensitive: bool, normalized: bool, maxResults: int)
  datatype Match = Match(path: string, line: nat, contentStart: nat, content: string, queries: seq<string>)
  datatype SearchPage = SearchPage(matches: seq<Match>, next: Cursor<SearchRequest>)

  predicate CountsOk(q: SearchRequest) {
    1 <= |q.queries| <= 64 && 0 <= q.contextLines <= 1000 && q.maxResults >= 1
  }

  predicate WindowOk(mode: Mode) {
    mode.AllWithin? ==> 1 <= mode.lineCount <= 1000
  }

  predicate BoundsOk(q: SearchRequest) {
    CountsOk(q) && WindowOk(q.mode)
  }

  function QueryRefusal(vx: Viewer, q: SearchRequest, query: string): Option<ViewError> {
    if |query| > 1024 then Some(QueryTooLarge)
    else if !vx.prepares(vx.trimmed(query), q.caseSensitive, q.normalized) then Some(EmptyQuery)
    else None
  }

  /** The refusal of the first bad query from number `i` on. */
  function QueriesRefusal(vx: Viewer, q: SearchRequest, i: nat): Option<ViewError>
    decreases |q.queries| - i
  {
    if i >= |q.queries| then None
    else if QueryRefusal(vx, q, q.queries[i]).Some? then QueryRefusal(vx, q, q.queries[i])
    else QueriesRefusal(vx, q, i + 1)
  }

  /** Why a request is refused before the store is looked at. */
  function SearchRefusal(vx: Viewer, q: SearchRequest): Option<ViewError> {
    if !CountsOk(q) then Some(InvalidBounds)
    else if !WindowOk(q.mode) then Some(InvalidWindow)
    else QueriesRefusal(vx, q, 0)
  }

  // ----- lines, words and bodies -----

  function Trim(s: string, c: char): string {
    if s != "" && s[|s| - 1] == c then s[..|s| - 1] else s
  }

  function TrimAll(lines: seq<string>): (out: seq<string>)
    ensures |out| == |lines|
    ensures forall i :: 0 <= i < |lines| ==> out[i] == Trim(lines[i], '\r')
  {
    if lines == [] then [] else [Trim(lines[0], '\r')] + TrimAll(lines[1..])
  }

  function LinesOf(content: string): seq<string> {
    if content == "" then [] else TrimAll(Split(Trim(content, '\n'), '\n'))
  }

  function Word(vx: Viewer, q: SearchRequest, line: string): set<nat> {
    set j | 0 <= j < |q.queries| && vx.contains(line, vx.trimmed(q.queries[j]), q.caseSensitive, q.normalized)
  }

  function Words(vx: Viewer, q: SearchRequest, lines: seq<string>): (words: seq<set<nat>>)
    ensures |words| == |lines|
    ensures forall i :: 0 <= i < |lines| ==> words[i] == Word(vx, q, lines[i])
  {
    if lines == [] then [] else [Word(vx, q, lines[0])] + Words(vx, q, lines[1..])
  }

  function Join(lines: seq<string>): string {
    if lines == [] then "" else if |lines| == 1 then lines[0] else lines[0] + "\n" + Join(lines[1..])
  }

  function MatchedQueries(vx: Viewer, q: SearchRequest, flags: set<nat>, j: nat): seq<string>
    requires j <= |q.queries|
    decreases |q.queries| - j
  {
    if j == |q.queries| then []
    else (if j in flags then [vx.trimmed(q.queries[j])] else []) + MatchedQueries(vx, q, flags, j + 1)
  }

  function MatchOf(vx: Viewer, q: SearchRequest, path: string, lines: seq<string>, w: Window): Match
    requires w.a <= w.b < |lines| && q.contextLines >= 0
  {
    var a := if w.a < q.contextLines then 0 else w.a - q.contextLines;
    var b := if w.b + q.contextLines + 1 > |lines| then |lines| else w.b + q.contextLines + 1;
    Match(path, w.a + 1, a + 1, Join(lines[a..b]), MatchedQueries(vx, q, w.flags, 0))
  }

  predicate InLines(ws: seq<Window>, lines: seq<string>) {
    forall i :: 0 <= i < |ws| ==> ws[i].a <= ws[i].b < |lines|
  }

  function MatchesOf(vx: Viewer, q: SearchRequest, path: string, lines: seq<string>, ws: seq<Window>): (ms: seq<Match>)
    requires InLines(ws, lines) && q.contextLines >= 0
    ensures |ms| == |ws|
  {
    if ws == [] then [] else [MatchOf(vx, q, path, lines, ws[0])] + MatchesOf(vx, q, path, lines, ws[1..])
  }

  /** The matches of one file: its minimal windows, or its matching lines, with their context. */
  ghost function FileMatches(vx: Viewer, q: SearchRequest, path: string, content: string): seq<Match>
    requires q.contextLines >= 0
  {
    var lines := LinesOf(content);
    var words := Words(vx, q, lines);
    MatchesInLines(words, |q.queries|, q.mode);
    MatchesOf(vx, q, path, lines, Matches(words, |q.queries|, q.mode, 0))
  }

  lemma MatchesInLines(words: seq<set<nat>>, nq: nat, mode: Mode)
    ensures forall i :: 0 <= i < |Matches(words, nq, mode, 0)| ==>
              Matches(words, nq, mode, 0)[i].a <= Matches(words, nq, mode, 0)[i].b < |words|
  {
    MatchesAreExact(words, nq, mode, 0);
    var ms := Matches(words, nq, mode, 0);
    forall i | 0 <= i < |ms|
      ensures ms[i].a <= ms[i].b < |words|
    {
      assert ms[i] in ms;
    }
  }

  ghost function AllMatches(vx: Viewer, q: SearchRequest, files: map<string, string>, paths: seq<string>): seq<Match>
    requires q.contextLines >= 0 && forall p :: p in paths ==> p in files
  {
    if paths == [] then []
    else FileMatches(vx, q, paths[0], files[paths[0]]) + AllMatches(vx, q, files, paths[1..])
  }

  /** The files that a search looks at. */
  function Searched(files: set<string>, scope: string): set<string> {
    set p | p in files && (scope == "" || p == scope || (|scope| < |p| && p[..|scope| + 1] == scope + "/")) &&
        !Hidden(p)
  }

  // ----- pages -----

  datatype Cut = Cut(end: nat, full: bool) | TooLarge

  function CutPage(ms: seq<Match>, i: nat, room: nat, size: nat): Cut
    decreases |ms| - i
  {
    if i >= |ms| then Cut(i, false)
    else if room == 0 then Cut(i, true)
    else if |ms[i].content| > PAGE_BYTES then TooLarge
    else if size + |ms[i].content| > PAGE_BYTES then Cut(i, true)
    else CutPage(ms, i + 1, room - 1, size + |ms[i].content|)
  }

  lemma {:induction false} CutPageBounds(ms: seq<Match>, i: nat, room: nat, size: nat)
    requires i <= |ms| && CutPage(ms, i, room, size).Cut?
    ensures i <= CutPage(ms, i, room, size).end <= |ms|
    ensures !CutPage(ms, i, room, size).full <==> CutPage(ms, i, room, size).end == |ms|
    decreases |ms| - i
  {
    if i < |ms| && room > 0 && |ms[i].content| <= PAGE_BYTES && size + |ms[i].content| <= PAGE_BYTES {
      CutPageBounds(ms, i + 1, room - 1, size + |ms[i].content|);
    }
  }

  /** The page that starts at match number `start`. */
  function SearchPageAt(ms: seq<Match>, generation: nat, query: SearchRequest, start: nat): Reply<SearchPage>
    requires query.maxResults >= 0
  {
    if start > |ms| then Bad(InvalidCursor)
    else match CutPage(ms, start, query.maxResults, 0)
      case TooLarge => Bad(MatchTooLarge)
      case Cut(end, full) =>
        CutPageBounds(ms, start, query.maxResults, 0);
        Good(SearchPage(ms[start..end], if full then At(generation, query, end) else NoCursor))
  }

  // ----- the streaming loops -----

  /** What the loops have done after `index` of the matches `all`, when the page starts at `start`. */
  ghost predicate Streamed(all: seq<Match>, start: nat, room: nat, index: nat, out: seq<Match>, size: nat) {
    && index <= |all|
    && (index <= start ==> out == [] && size == 0)
    && (index >= start ==>
        out == all[start..index] && |out| <= room &&
        CutPage(all, index, room - |out|, size) == CutPage(all, start, room, 0))
  }

  /** The emission loop over the windows of one file. `rest` are the matches of the files after it. */
  method StreamFile(vx: Viewer, q: SearchRequest, generation: nat, path: string, lines: seq<string>, ws: seq<Window>,
                    start: nat, index0: nat, out0: seq<Match>, size0: nat, ghost all: seq<Match>,
                        ghost rest: seq<Match>)
      returns (stop: Option<Reply<SearchPage>>, index: nat, out: seq<Match>, size: nat)
    requires q.contextLines >= 0 && q.maxResults >= 1 && InLines(ws, lines) && InLines(Kept(ws, q.mode, 0), lines)
    requires index0 <= |all| && Streamed(all, start, q.maxResults, index0, out0, size0)
    requires all[index0..] == MatchesOf(vx, q, path, lines, Kept(ws, q.mode, 0)) + rest
    ensures stop.Some? ==> stop.value == SearchPageAt(all, generation, q, start)
    ensures stop.None? ==>
        index <= |all| && Streamed(all, start, q.maxResults, index, out, size) && all[index..] == rest
  {
    hide Streamed, MatchesOf, MatchOf, Kept, SearchPageAt, CutPage;
    stop, index, out, size := None, index0, out0, size0;
    var wi := 0;
    while wi < |ws|
      invariant 0 <= wi <= |ws| && index <= |all| && InLines(Kept(ws, q.mode, wi), lines)
      invariant Streamed(all, start, q.maxResults, index, out, size)
      invariant all[index..] == MatchesOf(vx, q, path, lines, Kept(ws, q.mode, wi)) + rest
      decreases |ws| - wi
    {
      if Skipped(ws, q.mode, wi) {
        KeptStep(ws, q.mode, wi);
        wi := wi + 1;
        continue;
      }
      KeptStep(ws, q.mode, wi);
      var m := MatchOf(vx, q, path, lines, ws[wi]);
      NextMatch(vx, q, path, lines, ws[wi], Kept(ws, q.mode, wi), Kept(ws, q.mode, wi + 1), all, index, rest);
      if index < start {
        SkipOne(all, start, q.maxResults, index, out, size);
        index := index + 1;
        wi := wi + 1;
        continue;
      }
      StopHere(all, generation, q, start, index, out, size);
      if |out| >= q.maxResults {
        stop := Some(Good(SearchPage(out, At(generation, q, index))));
        return;
      }
      if |m.content| > PAGE_BYTES {
        stop := Some(Bad(MatchTooLarge));
        return;
      }
      if size + |m.content| > PAGE_BYTES {
        stop := Some(Good(SearchPage(out, At(generation, q, index))));
        return;
      }
      OneMore(all, start, q.maxResults, index, out, size);
      out := out + [m];
      size := size + |m.content|;
      index := index + 1;
      wi := wi + 1;
    }
    NothingKept(vx, q, path, lines, ws, wi, rest);
  }

  lemma NothingKept(vx: Viewer, q: SearchRequest, path: string, lines: seq<string>, ws: seq<Window>, wi: nat,
                    rest: seq<Match>)
    requires wi >= |ws| && q.contextLines >= 0
    ensures Kept(ws, q.mode, wi) == [] && MatchesOf(vx, q, path, lines, []) + rest == rest
  {
  }

  lemma StreamStart(all: seq<Match>, start: nat, room: nat)
    ensures Streamed(all, start, room, 0, [], 0)
  {
  }

  lemma StreamEnd(all: seq<Match>, generation: nat, q: SearchRequest, start: nat, out: seq<Match>, size: nat)
    requires q.maxResults >= 0 && Streamed(all, start, q.maxResults, |all|, out, size)
    ensures SearchPageAt(all, generation, q, start) == if start > |all| then Bad(InvalidCursor)
        else Good(SearchPage(out, NoCursor))
  {
  }

  lemma SkipOne(all: seq<Match>, start: nat, room: nat, index: nat, out: seq<Match>, size: nat)
    requires index < start && index < |all| && Streamed(all, start, room, index, out, size)
    ensures Streamed(all, start, room, index + 1, out, size)
  {
    assert index + 1 <= |all| ==> all[index + 1..index + 1] == [];
  }

  lemma KeptStep(ws: seq<Window>, mode: Mode, wi: nat)
    requires wi < |ws|
    ensures Skipped(ws, mode, wi) ==> Kept(ws, mode, wi) == Kept(ws, mode, wi + 1)
    ensures !Skipped(ws, mode, wi) ==> Kept(ws, mode, wi) == [ws[wi]] + Kept(ws, mode, wi + 1)
  {
  }

  lemma NextMatch(vx: Viewer, q: SearchRequest, path: string, lines: seq<string>, w: Window, kept: seq<Window>,
                  later: seq<Window>,
                  all: seq<Match>, index: nat, rest: seq<Match>)
    requires q.contextLines >= 0 && InLines(kept, lines) && kept == [w] + later && index <= |all|
    requires all[index..] == MatchesOf(vx, q, path, lines, kept) + rest
    ensures InLines(later, lines) && w.a <= w.b < |lines| && index < |all| &&
        all[index] == MatchOf(vx, q, path, lines, w)
    ensures all[index + 1..] == MatchesOf(vx, q, path, lines, later) + rest
  {
    assert kept[0] == w && kept[1..] == later;
    forall i | 0 <= i < |later|
      ensures later[i].a <= later[i].b < |lines|
    {
      assert kept[i + 1] == later[i];
    }
    assert all[index] == all[index..][0];
    assert all[index + 1..] == all[index..][1..];
    assert MatchesOf(vx, q, path, lines, kept)[1..] == MatchesOf(vx, q, path, lines, later);
  }

  /** The verdict on the page if the loop stops before match `index`. */
  lemma StopHere(all: seq<Match>, generation: nat, q: SearchRequest, start: nat, index: nat, out: seq<Match>, size: nat)
    requires q.maxResults >= 1 && start <= index < |all| && Streamed(all, start, q.maxResults, index, out, size)
    ensures |out| >= q.maxResults ==>
        SearchPageAt(all, generation, q, start) == Good(SearchPage(out, At(generation, q, index)))
    ensures |out| < q.maxResults && |all[index].content| > PAGE_BYTES ==>
        SearchPageAt(all, generation, q, start) == Bad(MatchTooLarge)
    ensures |out| < q.maxResults && |all[index].content| <= PAGE_BYTES && size + |all[index].content| > PAGE_BYTES ==>
              SearchPageAt(all, generation, q, start) == Good(SearchPage(out, At(generation, q, index)))
  {
  }

  lemma OneMore(all: seq<Match>, start: nat, room: nat, index: nat, out: seq<Match>, size: nat)
    requires start <= index < |all| && Streamed(all, start, room, index, out, size)
    requires |out| < room && |all[index].content| <= PAGE_BYTES && size + |all[index].content| <= PAGE_BYTES
    ensures Streamed(all, start, room, index + 1, out + [all[index]], size + |all[index].content|)
  {
    assert all[start..index + 1] == all[start..index] + [all[index]];
  }

  /** The matches of the files from number `i` on begin with those of that file. */
  lemma NextFile(vx: Viewer, q: SearchRequest, files: map<string, string>, paths: seq<string>, i: nat)
    requires q.contextLines >= 0 && i < |paths| && forall p :: p in paths ==> p in files
    ensures var lines := LinesOf(files[paths[i]]);
            var ms := Matches(Words(vx, q, lines), |q.queries|, q.mode, 0);
            && InLines(ms, lines)
            && AllMatches(vx, q, files, paths[i..]) == MatchesOf(vx, q, paths[i], lines, ms) + AllMatches(vx, q,
                files, paths[i + 1..])
  {
    hide Matches, MatchesOf, LinesOf, Word;
    assert paths[i..][0] == paths[i] && paths[i..][1..] == paths[i + 1..];
    MatchesInLines(Words(vx, q, LinesOf(files[paths[i]])), |q.queries|, q.mode);
  }

  /** The outer loop over the files. */
  method StreamFiles(vx: Viewer, q: SearchRequest, generation: nat, files: map<string, string>, paths: seq<string>,
                     start: nat)
      returns (r: Reply<SearchPage>)
    requires BoundsOk(q) && forall p :: p in paths ==> p in files
    ensures r == SearchPageAt(AllMatches(vx, q, files, paths), generation, q, start)
  {
    hide Streamed, SearchPageAt, MatchesOf, Candidates, Kept, Matches, LinesOf, Words, CutPage, AllMatches;
    ghost var all := AllMatches(vx, q, files, paths);
    var index: nat, size: nat, out: seq<Match> := 0, 0, [];
    assert all[0..] == all && paths[0..] == paths;
    StreamStart(all, start, q.maxResults);
    for i := 0 to |paths|
      invariant index <= |all|
      invariant Streamed(all, start, q.maxResults, index, out, size)
      invariant all[index..] == AllMatches(vx, q, files, paths[i..])
    {
      NextFile(vx, q, files, paths, i);
      var p := paths[i];
      var lines := LinesOf(files[p]);
      var words := Words(vx, q, lines);
      WordsInRange(vx, q, lines);
      var windows := ForwardScan(words, |q.queries|, q.mode);
      CandidatesInLines(words, |q.queries|, q.mode, 0);
      var stop;
      stop, index, out, size := StreamFile(vx, q, generation, p, lines, windows, start, index, out, size, all,
          AllMatches(vx, q, files, paths[i + 1..]));
      if stop.Some? {
        return stop.value;
      }
    }
    NoMoreFiles(vx, q, files, paths);
    assert index == |all|;
    StreamEnd(all, generation, q, start, out, size);
    if start > index {
      return Bad(InvalidCursor);
    }
    r := Good(SearchPage(out, NoCursor));
  }

  lemma NoMoreFiles(vx: Viewer, q: SearchRequest, files: map<string, string>, paths: seq<string>)
    requires q.contextLines >= 0 && forall p :: p in paths ==> p in files
    ensures AllMatches(vx, q, files, paths[|paths|..]) == []
  {
  }

  lemma WordsInRange(vx: Viewer, q: SearchRequest, lines: seq<string>)
    requires BoundsOk(q)
    ensures WordsOk(Words(vx, q, lines), |q.queries|)
  {
  }

  lemma {:induction false} CandidatesInLines(words: seq<set<nat>>, nq: nat, mode: Mode, i: nat)
    ensures forall k :: 0 <= k < |Candidates(words, nq, mode, i)| ==>
              Candidates(words, nq, mode, i)[k].a <= Candidates(words, nq, mode, i)[k].b < |words|
    decreases |words| - i
  {
    if i < |words| {
      CandidatesInLines(words, nq, mode, i + 1);
    }
  }

  const SEARCH_LIMIT := 200

  /** All matches of a search request in the files of a snapshot, in path order. */
  ghost function MatchesIn(vx: Viewer, q: SearchRequest, files: map<string, string>, scope: string): seq<Match>
    requires q.contextLines >= 0
  {
    AllMatches(vx, q, files, Ordered(Searched(files.Keys, scope)))
  }

  /** The reply to a search request on a snapshot. */
  ghost function SearchReply(vx: Viewer, files: map<string, string>, generation: nat, q: SearchRequest,
                             cursor: Cursor<SearchRequest>): Reply<SearchPage>
  {
    match MemoryScope(q.path)
    case Bad(e) => Bad(e)
    case Good(scope) =>
      if SearchRefusal(vx, q).Some? then Bad(SearchRefusal(vx, q).value)
      else
        var query := q.(maxResults := Min(q.maxResults, SEARCH_LIMIT));
        match CursorStart(cursor, generation, query)
        case Bad(e) => Bad(e)
        case Good(start) =>
          if scope != "" && Searched(files.Keys, scope) == {} then Bad(Missing)
          else SearchPageAt(MatchesIn(vx, query, files, scope), generation, query, start)
  }

  /** The loop over the queries. */
  method CheckQueries(vx: Viewer, q: SearchRequest) returns (refusal: Option<ViewError>)
    ensures refusal == QueriesRefusal(vx, q, 0)
  {
    for i := 0 to |q.queries|
      invariant QueriesRefusal(vx, q, 0) == QueriesRefusal(vx, q, i)
    {
      if |q.queries[i]| > 1024 {
        return Some(QueryTooLarge);
      }
      if !vx.prepares(vx.trimmed(q.queries[i]), q.caseSensitive, q.normalized) {
        return Some(EmptyQuery);
      }
    }
    refusal := None;
  }

  method MemorySearch(vx: Viewer, s: State, q: SearchRequest, cursor: Cursor<SearchRequest>)
      returns (r: Reply<SearchPage>)
    requires ResourcesOk(s.native) && TreeOk(Shown(s.native))
    ensures r == SearchReply(vx, SnapshotOf(vx, s.native), s.sequence, q, cursor)
  {
    hide SnapshotOf, TreeOk, ResourcesOk, IsSnapshot, SearchPageAt, AllMatches, QueriesRefusal, Searched;
    var scope := MemoryScope(q.path);
    if scope.Bad? {
      return Bad(scope.error);
    }
    if !CountsOk(q) {
      return Bad(InvalidBounds);
    }
    if !WindowOk(q.mode) {
      return Bad(InvalidWindow);
    }
    var refusal := CheckQueries(vx, q);
    if refusal.Some? {
      return Bad(refusal.value);
    }
    var query := q.(maxResults := Min(q.maxResults, SEARCH_LIMIT));
    var snapshot := MemorySnapshot(vx, s.native);
    var files := snapshot.value;
    var start := CursorStart(cursor, s.sequence, query);
    if start.Bad? {
      return Bad(start.error);
    }
    var names := Searched(files.Keys, scope.value);
    SearchedFiles(files.Keys, scope.value);
    var paths := SortedKeys(names);
    EmptyOrder(paths, names);
    if scope.value != "" && |paths| == 0 {
      return Bad(Missing);
    }
    r := StreamFiles(vx, query, s.sequence, files, paths, start.value);
  }

  lemma SearchedFiles(files: set<string>, scope: string)
    ensures forall p :: p in Searched(files, scope) ==> p in files
  {
  }

  // ----- following cursors -----

  lemma NextSearchPage(ms: seq<Match>, generation: nat, query: SearchRequest, start: nat)
    requires query.maxResults >= 1 && SearchPageAt(ms, generation, query, start).Good?
    ensures var next := SearchPageAt(ms, generation, query, start).value.next;
            next.At? ==> CursorStart(next, generation, query) == Good(next.index) && start < next.index <= |ms|
  {
    CutPageBounds(ms, start, query.maxResults, 0);
    if start < |ms| && |ms[start].content| <= PAGE_BYTES {
      CutPageBoundsAfter(ms, start, query.maxResults);
    }
  }

  lemma CutPageBoundsAfter(ms: seq<Match>, start: nat, room: nat)
    requires start < |ms| && room >= 1 && |ms[start].content| <= PAGE_BYTES && CutPage(ms, start, room, 0).Cut?
    ensures CutPage(ms, start, room, 0).end > start
  {
    CutPageBounds(ms, start + 1, room - 1, |ms[start].content|);
  }

  /** All matches seen by requesting the page at `start` and then following the returned cursors. */
  function FollowSearch(ms: seq<Match>, generation: nat, query: SearchRequest, start: nat): Reply<seq<Match>>
    requires query.maxResults >= 1
    decreases |ms| - start
  {
    match SearchPageAt(ms, generation, query, start)
    case Bad(e) => Bad(e)
    case Good(page) =>
      NextSearchPage(ms, generation, query, start);
      if !page.next.At? then Good(page.matches)
      else match FollowSearch(ms, generation, query, page.next.index)
        case Bad(e) => Bad(e)
        case Good(later) => Good(page.matches + later)
  }

  /** Every match from number `i` on fits a page. */
  predicate AllFitPage(ms: seq<Match>, i: nat) {
    forall k :: i <= k < |ms| ==> |ms[k].content| <= PAGE_BYTES
  }

  /** Following the cursors of a search terminates and yields every match from `start` on, once and in
      order, if and only if none of them is larger than a page. */
  lemma {:induction false} SearchIsLossless(ms: seq<Match>, generation: nat, query: SearchRequest, start: nat)
    requires query.maxResults >= 1 && start <= |ms|
    ensures FollowSearch(ms, generation, query, start) == if AllFitPage(ms, start) then Good(ms[start..])
        else Bad(MatchTooLarge)
    decreases |ms| - start
  {
    CutIsExact(ms, start, query.maxResults, 0);
    var page := SearchPageAt(ms, generation, query, start);
    if page.Good? {
      NextSearchPage(ms, generation, query, start);
      if page.value.next.At? {
        var next := page.value.next.index;
        SearchIsLossless(ms, generation, query, next);
        assert ms[start..next] + ms[next..] == ms[start..];
        assert AllFitPage(ms, next) <==> AllFitPage(ms, start);
      } else {
        assert ms[start..|ms|] == ms[start..];
      }
    }
  }

  /** A page holds no oversized match, and is refused only because of one. */
  lemma {:induction false} CutIsExact(ms: seq<Match>, i: nat, room: nat, size: nat)
    requires i <= |ms|
    ensures var cut := CutPage(ms, i, room, size);
            if cut.TooLarge? then !AllFitPage(ms, i)
            else
              && i <= cut.end <= |ms| && (!cut.full ==> cut.end == |ms|)
              && forall k :: i <= k < cut.end ==> |ms[k].content| <= PAGE_BYTES
    decreases |ms| - i
  {
    if i < |ms| && room > 0 && |ms[i].content| <= PAGE_BYTES && size + |ms[i].content| <= PAGE_BYTES {
      CutIsExact(ms, i + 1, room - 1, size + |ms[i].content|);
    }
  }

  /** Everything that a search request asks for. */
  ghost function FoundMatches(vx: Viewer, files: map<string, string>, q: SearchRequest): Reply<seq<Match>> {
    match MemoryScope(q.path)
    case Bad(e) => Bad(e)
    case Good(scope) =>
      if SearchRefusal(vx, q).Some? then Bad(SearchRefusal(vx, q).value)
      else if scope != "" && Searched(files.Keys, scope) == {} then Bad(Missing)
      else
        var ms := MatchesIn(vx, q.(maxResults := Min(q.maxResults, SEARCH_LIMIT)), files, scope);
        if AllFitPage(ms, 0) then Good(ms) else Bad(MatchTooLarge)
  }

  function Prepend(ms: seq<Match>, r: Reply<seq<Match>>): Reply<seq<Match>> {
    match r
    case Bad(e) => Bad(e)
    case Good(later) => Good(ms + later)
  }

  lemma FollowStep(ms: seq<Match>, generation: nat, query: SearchRequest, start: nat, page: SearchPage)
    requires query.maxResults >= 1 && SearchPageAt(ms, generation, query, start) == Good(page)
    ensures page.next.At? ==>
        CursorStart(page.next, generation, query) == Good(page.next.index) && start < page.next.index <= |ms|
    ensures FollowSearch(ms, generation, query, start) ==
            Prepend(page.matches, if page.next.At? then FollowSearch(ms, generation, query, page.next.index)
                else Good([]))
  {
    NextSearchPage(ms, generation, query, start);
    assert page.matches + [] == page.matches;
  }

  lemma PrependTwice(a: seq<Match>, b: seq<Match>, r: Reply<seq<Match>>)
    ensures Prepend(a, Prepend(b, r)) == Prepend(a + b, r)
  {
    if r.Good? {
      assert a + (b + r.value) == (a + b) + r.value;
    }
  }

  /** A client that repeats a search request with each cursor it gets, on an unchanged store, gets every match
      once and in order and ends, if and only if no match is larger than a page. */
  method SearchEverything(vx: Viewer, s: State, q: SearchRequest) returns (r: Reply<seq<Match>>)
    requires ResourcesOk(s.native) && TreeOk(Shown(s.native))
    ensures r == FoundMatches(vx, SnapshotOf(vx, s.native), q)
  {
    hide SnapshotOf, TreeOk, ResourcesOk, SearchPageAt, MatchesIn, SearchRefusal, Searched, FollowSearch, AllFitPage;
    hide Prepend;
    ghost var files := SnapshotOf(vx, s.native);
    FirstSearchPage(vx, files, s.sequence, q);
    var reply := MemorySearch(vx, s, q, NoCursor);
    if reply.Bad? {
      return Bad(reply.error);
    }
    var page := reply.value;
    ghost var query := q.(maxResults := Min(q.maxResults, SEARCH_LIMIT));
    ghost var ms := MatchesIn(vx, query, files, MemoryScope(q.path).value);
    ghost var at: nat := 0;
    FollowStep(ms, s.sequence, query, 0, page);
    var found := page.matches;
    while page.next.At?
      invariant at <= |ms|
      invariant page.next.At? ==>
          CursorStart(page.next, s.sequence, query) == Good(page.next.index) && at < page.next.index <= |ms|
      invariant FollowSearch(ms, s.sequence, query, 0)
             == Prepend(found, if page.next.At? then FollowSearch(ms, s.sequence, query, page.next.index) else Good([]))
      decreases |ms| - at
    {
      at := page.next.index;
      reply := MemorySearch(vx, s, q, page.next);
      if reply.Bad? {
        BadPage(ms, s.sequence, query, at, found, reply.error);
        return Bad(reply.error);
      }
      FollowStep(ms, s.sequence, query, at, reply.value);
      page := reply.value;
      PrependTwice(found, page.matches, if page.next.At? then FollowSearch(ms, s.sequence, query, page.next.index)
          else Good([]));
      found := found + page.matches;
    }
    AllOfIt(found);
    r := Good(found);
  }

  lemma AllOfIt(found: seq<Match>)
    ensures Prepend(found, Good([])) == Good(found)
  {
    assert found + [] == found;
  }

  lemma BadPage(ms: seq<Match>, generation: nat, query: SearchRequest, start: nat, found: seq<Match>, e: ViewError)
    requires query.maxResults >= 1 && SearchPageAt(ms, generation, query, start) == Bad(e)
    ensures Prepend(found, FollowSearch(ms, generation, query, start)) == Bad(e)
  {
  }

  /** The first page is refused for the same reasons as the whole search, and following the cursors from
      it gives the whole search. */
  lemma FirstSearchPage(vx: Viewer, files: map<string, string>, generation: nat, q: SearchRequest)
    ensures var first := SearchReply(vx, files, generation, q, NoCursor);
            && (first.Bad? ==> FoundMatches(vx, files, q) == Bad(first.error))
            && (first.Good? ==>
                  && CountsOk(q) && MemoryScope(q.path).Good?
                  && var query := q.(maxResults := Min(q.maxResults, SEARCH_LIMIT));
                  && var ms := MatchesIn(vx, query, files, MemoryScope(q.path).value);
                  && first == SearchPageAt(ms, generation, query, 0)
                  && FollowSearch(ms, generation, query, 0) == FoundMatches(vx, files, q))
  {
    hide MatchesIn, QueriesRefusal, Searched, AllFitPage;
    if MemoryScope(q.path).Good? && SearchRefusal(vx, q).None? {
      var query := q.(maxResults := Min(q.maxResults, SEARCH_LIMIT));
      var ms := MatchesIn(vx, query, files, MemoryScope(q.path).value);
      SearchIsLossless(ms, generation, query, 0);
      assert ms[0..] == ms;
    }
  }
}
