/** What a search tells its client, read off the files, the request and the reply: which ranges of lines are
    reported, with which content and queries, in which order, how full a page is, and when the search is
    refused. */
module Found {
  import opened Types
  import opened Text
  import opened MemoryView
  import opened Windows
  import opened Search

  // ----- lines -----

  lemma {:induction false} FirstIndex(s: string, c: char, i: nat)
    requires i <= |s| && (i < |s| ==> s[i] == c) && forall k :: 0 <= k < i ==> s[k] != c
    ensures IndexOf(s, c) == i
  {
    var j := IndexOf(s, c);
  }

  lemma SplitFirst(x: string, rest: string)
    requires '\n' !in x
    ensures Split(x, '\n') == [x]
    ensures Split(x + "\n" + rest, '\n') == [x] + Split(rest, '\n')
  {
    var s := x + "\n" + rest;
    FirstIndex(x, '\n', |x|);
    FirstIndex(s, '\n', |x|);
    assert s[..|x|] == x && s[|x| + 1..] == rest;
  }

  /** Splitting undoes joining. */
  lemma {:induction false} SplitOfJoin(lines: seq<string>)
    requires lines != [] && forall l :: l in lines ==> '\n' !in l
    ensures Split(Join(lines), '\n') == lines
  {
    hide Split;
    assert lines[0] in lines && forall l :: l in lines[1..] ==> l in lines;
    if |lines| == 1 {
      SplitFirst(lines[0], "");
    } else {
      SplitOfJoin(lines[1..]);
      SplitFirst(lines[0], Join(lines[1..]));
    }
  }

  /** Joining undoes splitting, and the parts hold no separator. */
  lemma {:induction false} JoinOfSplit(s: string)
    ensures Split(s, '\n') != [] && Join(Split(s, '\n')) == s
    ensures forall part :: part in Split(s, '\n') ==> '\n' !in part
    decreases |s|
  {
    var i := IndexOf(s, '\n');
    if i < |s| {
      JoinOfSplit(s[i + 1..]);
      var rest := Split(s[i + 1..], '\n');
      assert ([s[..i]] + rest)[1..] == rest;
      assert s == s[..i] + "\n" + s[i + 1..];
    }
  }

  /** The lines of a file: its content split at newlines, without a last empty line and without the carriage
      return at the end of a line. */
  ghost predicate IsLines(content: string, lines: seq<string>) {
    if content == "" then lines == []
    else
      var parts := Split(if content[|content| - 1] == '\n' then content[..|content| - 1] else content, '\n');
      && |lines| == |parts|
      && forall i :: 0 <= i < |parts| ==>
          if parts[i] != "" && parts[i][|parts[i]| - 1] == '\r' then parts[i] == lines[i] + "\r"
          else parts[i] == lines[i]
  }

  lemma LinesAre(content: string, lines: seq<string>)
    ensures IsLines(content, lines) <==> lines == LinesOf(content)
    ensures forall l :: l in LinesOf(content) ==> '\n' !in l
  {
    hide Split, Join;
    if content != "" {
      JoinOfSplit(Trim(content, '\n'));
      TrimmedLines(Split(Trim(content, '\n'), '\n'), lines);
    }
  }

  lemma TrimmedLines(parts: seq<string>, lines: seq<string>)
    requires forall part :: part in parts ==> '\n' !in part
    ensures forall l :: l in TrimAll(parts) ==> '\n' !in l
    ensures lines == TrimAll(parts) <==>
        && |lines| == |parts|
        && forall i :: 0 <= i < |parts| ==>
            if parts[i] != "" && parts[i][|parts[i]| - 1] == '\r' then parts[i] == lines[i] + "\r"
            else parts[i] == lines[i]
  {
    hide Trim;
    forall i | 0 <= i < |parts|
      ensures '\n' !in Trim(parts[i], '\r')
      ensures |lines| == |parts| ==>
          (lines[i] == Trim(parts[i], '\r') <==>
            if parts[i] != "" && parts[i][|parts[i]| - 1] == '\r' then parts[i] == lines[i] + "\r"
            else parts[i] == lines[i])
    {
      assert parts[i] in parts;
      TrimIff(parts[i], if |lines| == |parts| then lines[i] else "");
    }
  }

  lemma TrimIff(part: string, line: string)
    requires '\n' !in part
    ensures '\n' !in Trim(part, '\r')
    ensures line == Trim(part, '\r') <==>
        if part != "" && part[|part| - 1] == '\r' then part == line + "\r" else part == line
  {
    if part != "" && part[|part| - 1] == '\r' {
      assert part == part[..|part| - 1] + "\r";
      assert line == (line + "\r")[..|line|];
    }
  }

  // ----- ranges of lines -----

  /** Query number `j` occurs in the lines a..b. */
  ghost predicate Has(vx: Viewer, q: SearchRequest, lines: seq<string>, j: nat, a: nat, b: nat)
    requires b < |lines| && j < |q.queries|
  {
    exists l :: a <= l <= b && vx.contains(lines[l], vx.trimmed(q.queries[j]), q.caseSensitive, q.normalized)
  }

  ghost predicate HasAll(vx: Viewer, q: SearchRequest, lines: seq<string>, a: nat, b: nat) {
    a <= b < |lines| && forall j :: 0 <= j < |q.queries| ==> Has(vx, q, lines, j, a, b)
  }

  /** The lines a..b are what the mode of the request looks for: a line with a query, a line with every query,
      or a short range with every query that holds no smaller one. */
  ghost predicate Hit(vx: Viewer, q: SearchRequest, lines: seq<string>, a: nat, b: nat) {
    && a <= b < |lines|
    && (q.mode.Any? ==> a == b && exists j :: 0 <= j < |q.queries| && Has(vx, q, lines, j, a, a))
    && (q.mode.AllOnSameLine? ==> a == b && HasAll(vx, q, lines, a, a))
    && (q.mode.AllWithin? ==>
          && b - a < q.mode.lineCount && HasAll(vx, q, lines, a, b)
          && forall c, d :: a <= c <= d <= b && HasAll(vx, q, lines, c, d) ==> c == a && d == b)
  }

  /** `queries` are the trimmed queries that occur in the lines a..b, in the order of the request. */
  ghost predicate ListsQueries(vx: Viewer, q: SearchRequest, lines: seq<string>, a: nat, b: nat, queries: seq<string>)
    requires a <= b < |lines|
  {
    exists order: seq<nat> :: IsOrder(vx, q, lines, a, b, queries, order)
  }

  ghost predicate IsOrder(vx: Viewer, q: SearchRequest, lines: seq<string>, a: nat, b: nat, queries: seq<string>,
                          order: seq<nat>)
    requires a <= b < |lines|
  {
    && |order| == |queries|
    && (forall i, k :: 0 <= i < k < |order| ==> order[i] < order[k])
    && (forall i :: 0 <= i < |order| ==>
          order[i] < |q.queries| && queries[i] == vx.trimmed(q.queries[order[i]]))
    && (forall j: nat :: j in order <==> j < |q.queries| && Has(vx, q, lines, j, a, b))
  }

  /** The match that a client gets for the lines a..b of a file: the first line, counted from 1, the lines from
      `contextLines` before the range to `contextLines` after it as far as the file has them, the number of the
      first of these, and the queries that were found. */
  ghost predicate Reports(vx: Viewer, q: SearchRequest, lines: seq<string>, a: nat, b: nat, m: Match) {
    && a <= b < |lines| && m.line == a + 1
    && 1 <= m.contentStart <= m.line
    && (m.contentStart == 1 || m.contentStart == m.line - q.contextLines)
    && m.contentStart >= m.line - q.contextLines
    && (var shown := Split(m.content, '\n');
        && m.contentStart - 1 + |shown| <= |lines|
        && shown == lines[m.contentStart - 1..m.contentStart - 1 + |shown|]
        && m.contentStart - 1 + |shown| <= b + q.contextLines + 1
        && (m.contentStart - 1 + |shown| == b + q.contextLines + 1 || m.contentStart - 1 + |shown| == |lines|))
    && ListsQueries(vx, q, lines, a, b, m.queries)
  }

  lemma OccursIff(vx: Viewer, q: SearchRequest, lines: seq<string>, j: nat, a: nat, b: nat)
    requires b < |lines| && j < |q.queries|
    ensures Occurs(Words(vx, q, lines), j, a, b) <==> Has(vx, q, lines, j, a, b)
  {
    var words := Words(vx, q, lines);
    if l :| a <= l <= b && j in words[l] {
      assert vx.contains(lines[l], vx.trimmed(q.queries[j]), q.caseSensitive, q.normalized);
    }
    if l :| a <= l <= b && vx.contains(lines[l], vx.trimmed(q.queries[j]), q.caseSensitive, q.normalized) {
      assert j in words[l];
    }
  }

  lemma CoversAre(vx: Viewer, q: SearchRequest, lines: seq<string>, a: nat, b: nat)
    ensures Covers(Words(vx, q, lines), |q.queries|, a, b) <==> HasAll(vx, q, lines, a, b)
  {
    hide Occurs, Has, Words;
    if a <= b < |lines| {
      forall j | 0 <= j < |q.queries|
        ensures Occurs(Words(vx, q, lines), j, a, b) <==> Has(vx, q, lines, j, a, b)
      {
        OccursIff(vx, q, lines, j, a, b);
      }
    }
  }

  lemma MinimalAre(vx: Viewer, q: SearchRequest, lines: seq<string>, a: nat, b: nat)
    ensures Minimal(Words(vx, q, lines), |q.queries|, a, b) <==>
        && HasAll(vx, q, lines, a, b)
        && forall c, d :: a <= c <= d <= b && HasAll(vx, q, lines, c, d) ==> c == a && d == b
  {
    hide Covers, HasAll, Words;
    forall c: nat, d: nat
      ensures Covers(Words(vx, q, lines), |q.queries|, c, d) <==> HasAll(vx, q, lines, c, d)
    {
      CoversAre(vx, q, lines, c, d);
    }
  }

  lemma WordAt(vx: Viewer, q: SearchRequest, lines: seq<string>, a: nat)
    requires a < |lines|
    ensures var word := Words(vx, q, lines)[a];
            && (forall j :: j in word <==> 0 <= j < |q.queries| && Has(vx, q, lines, j, a, a))
            && (word != {} <==> exists j :: 0 <= j < |q.queries| && Has(vx, q, lines, j, a, a))
            && (word == All(|q.queries|) <==> HasAll(vx, q, lines, a, a))
  {
    var word := Words(vx, q, lines)[a];
    forall j | 0 <= j < |q.queries|
      ensures j in word <==> Has(vx, q, lines, j, a, a)
    {
      OccursIff(vx, q, lines, j, a, a);
    }
  }

  /** The queries that a window of the given range has found. */
  function Flags(vx: Viewer, q: SearchRequest, lines: seq<string>, a: nat): set<nat>
    requires a < |lines|
  {
    if q.mode.Any? then Words(vx, q, lines)[a] else All(|q.queries|)
  }

  lemma HitIff(vx: Viewer, q: SearchRequest, lines: seq<string>, w: Window)
    ensures IsMatch(Words(vx, q, lines), |q.queries|, q.mode, w) <==>
        Hit(vx, q, lines, w.a, w.b) && w.flags == Flags(vx, q, lines, w.a)
  {
    hide Words, Word, Minimal, HasAll, Has, All;
    if w.a <= w.b < |lines| {
      WordAt(vx, q, lines, w.a);
      MinimalAre(vx, q, lines, w.a, w.b);
    }
  }

  lemma FlagsAre(vx: Viewer, q: SearchRequest, lines: seq<string>, a: nat, b: nat)
    requires Hit(vx, q, lines, a, b)
    ensures forall j :: j in Flags(vx, q, lines, a) <==> 0 <= j < |q.queries| && Has(vx, q, lines, j, a, b)
  {
    hide Words, Word, Has;
    WordAt(vx, q, lines, a);
  }

  // ----- one match -----

  lemma {:induction false} MatchedFrom(vx: Viewer, q: SearchRequest, flags: set<nat>, j: nat) returns (order: seq<nat>)
    requires j <= |q.queries| && forall i :: i in flags ==> i < |q.queries|
    ensures |order| == |MatchedQueries(vx, q, flags, j)|
    ensures forall i, k :: 0 <= i < k < |order| ==> order[i] < order[k]
    ensures forall i :: 0 <= i < |order| ==>
        j <= order[i] < |q.queries| && MatchedQueries(vx, q, flags, j)[i] == vx.trimmed(q.queries[order[i]])
    ensures forall i :: i in order <==> i in flags && j <= i
    decreases |q.queries| - j
  {
    if j == |q.queries| {
      order := [];
    } else {
      var rest := MatchedFrom(vx, q, flags, j + 1);
      order := (if j in flags then [j] else []) + rest;
      assert forall i :: i in order <==> i in rest || (i == j && j in flags);
    }
  }

  /** The lines that a match shows are those that its content was joined from. */
  lemma ShownLines(lines: seq<string>, from: nat, upTo: nat)
    requires from < upTo <= |lines| && forall l :: l in lines ==> '\n' !in l
    ensures Split(Join(lines[from..upTo]), '\n') == lines[from..upTo]
  {
    hide Split, Join;
    forall l | l in lines[from..upTo]
      ensures '\n' !in l
    {
      assert l in lines;
    }
    SplitOfJoin(lines[from..upTo]);
  }

  lemma QueriesListed(vx: Viewer, q: SearchRequest, lines: seq<string>, a: nat, b: nat)
    requires Hit(vx, q, lines, a, b)
    ensures a <= b < |lines| && ListsQueries(vx, q, lines, a, b, MatchedQueries(vx, q, Flags(vx, q, lines, a), 0))
  {
    hide Hit, Has, Flags, MatchedQueries;
    HitInside(vx, q, lines, a, b);
    FlagsAre(vx, q, lines, a, b);
    var order := MatchedFrom(vx, q, Flags(vx, q, lines, a), 0);
    assert IsOrder(vx, q, lines, a, b, MatchedQueries(vx, q, Flags(vx, q, lines, a), 0), order);
  }

  lemma MatchReports(vx: Viewer, q: SearchRequest, path: string, lines: seq<string>, w: Window)
    requires Hit(vx, q, lines, w.a, w.b) && w.flags == Flags(vx, q, lines, w.a) && q.contextLines >= 0
    requires forall l :: l in lines ==> '\n' !in l
    ensures Reports(vx, q, lines, w.a, w.b, MatchOf(vx, q, path, lines, w))
  {
    hide Hit, Flags, MatchedQueries, Join, Split, ListsQueries;
    HitInside(vx, q, lines, w.a, w.b);
    QueriesListed(vx, q, lines, w.a, w.b);
    var from := if w.a < q.contextLines then 0 else w.a - q.contextLines;
    var upTo := if w.b + q.contextLines + 1 > |lines| then |lines| else w.b + q.contextLines + 1;
    ShownLines(lines, from, upTo);
  }

  lemma HitInside(vx: Viewer, q: SearchRequest, lines: seq<string>, a: nat, b: nat)
    requires Hit(vx, q, lines, a, b)
    ensures a <= b < |lines|
  {
  }

  lemma ContentIs(vx: Viewer, q: SearchRequest, lines: seq<string>, a: nat, b: nat, m: Match)
    requires q.contextLines >= 0 && Reports(vx, q, lines, a, b, m)
    ensures var from := if a < q.contextLines then 0 else a - q.contextLines;
            var upTo := if b + q.contextLines + 1 > |lines| then |lines| else b + q.contextLines + 1;
            m.line == a + 1 && m.contentStart == from + 1 && m.content == Join(lines[from..upTo])
  {
    hide ListsQueries, Split, Join;
    JoinOfSplit(m.content);
  }

  /** A range has one match. */
  lemma ReportIsUnique(vx: Viewer, q: SearchRequest, lines: seq<string>, a: nat, b: nat, m: Match, n: Match)
    requires q.contextLines >= 0
    requires Reports(vx, q, lines, a, b, m) && Reports(vx, q, lines, a, b, n)
    ensures m.(path := n.path) == n
  {
    hide IsOrder, Join;
    ContentIs(vx, q, lines, a, b, m);
    ContentIs(vx, q, lines, a, b, n);
    QueriesAre(vx, q, lines, a, b, m, n);
  }

  lemma QueriesAre(vx: Viewer, q: SearchRequest, lines: seq<string>, a: nat, b: nat, m: Match, n: Match)
    requires q.contextLines >= 0
    requires Reports(vx, q, lines, a, b, m) && Reports(vx, q, lines, a, b, n)
    ensures m.queries == n.queries
  {
    hide IsOrder, Split;
    var x :| IsOrder(vx, q, lines, a, b, m.queries, x);
    var y :| IsOrder(vx, q, lines, a, b, n.queries, y);
    OrdersAgree(vx, q, lines, a, b, m.queries, x, n.queries, y);
  }

  lemma OrdersAgree(vx: Viewer, q: SearchRequest, lines: seq<string>, a: nat, b: nat, xs: seq<string>, x: seq<nat>,
                    ys: seq<string>, y: seq<nat>)
    requires a <= b < |lines|
    requires IsOrder(vx, q, lines, a, b, xs, x) && IsOrder(vx, q, lines, a, b, ys, y)
    ensures xs == ys
  {
    hide Has;
    SameNumbers(x, y);
  }

  lemma {:induction false} SameNumbers(x: seq<nat>, y: seq<nat>)
    requires forall i, k :: 0 <= i < k < |x| ==> x[i] < x[k]
    requires forall i, k :: 0 <= i < k < |y| ==> y[i] < y[k]
    requires forall j :: j in x <==> j in y
    ensures x == y
  {
    assert x != [] ==> x[0] in x;
    assert y != [] ==> y[0] in y;
    if x != [] && y != [] {
      assert x[0] == y[0];
      forall j
        ensures j in x[1..] <==> j in x && j != x[0]
        ensures j in y[1..] <==> j in y && j != y[0]
      {
      }
      SameNumbers(x[1..], y[1..]);
      assert x == [x[0]] + x[1..] && y == [y[0]] + y[1..];
    }
  }

  // ----- the matches of one file -----

  /** `m` is what a client gets for some range of lines that the request looks for in a file. */
  ghost predicate ReportsFrom(vx: Viewer, q: SearchRequest, content: string, m: Match) {
    exists lines, a, b :: IsLines(content, lines) && Hit(vx, q, lines, a, b) && Reports(vx, q, lines, a, b, m)
  }

  lemma {:induction false} MatchesOfAt(vx: Viewer, q: SearchRequest, path: string, lines: seq<string>,
                                       ws: seq<Window>, i: nat)
    requires InLines(ws, lines) && q.contextLines >= 0 && i < |ws|
    ensures MatchesOf(vx, q, path, lines, ws)[i] == MatchOf(vx, q, path, lines, ws[i])
  {
    hide MatchOf;
    if i > 0 {
      MatchesOfAt(vx, q, path, lines, ws[1..], i - 1);
    }
  }

  /** The matches of a file are its windows, in order. */
  lemma FileMatchesAre(vx: Viewer, q: SearchRequest, path: string, content: string) returns (ws: seq<Window>)
    requires q.contextLines >= 0
    ensures var lines := LinesOf(content);
            && |ws| == |FileMatches(vx, q, path, content)| && InLines(ws, lines)
            && (forall w :: w in ws <==> IsMatch(Words(vx, q, lines), |q.queries|, q.mode, w))
            && (forall i, k :: 0 <= i < k < |ws| ==> ws[i].a < ws[k].a)
            && forall i :: 0 <= i < |ws| ==>
                FileMatches(vx, q, path, content)[i] == MatchOf(vx, q, path, lines, ws[i])
  {
    hide LinesOf, MatchOf, Words, IsMatch;
    var lines := LinesOf(content);
    var words := Words(vx, q, lines);
    ws := Matches(words, |q.queries|, q.mode, 0);
    MatchesInLines(words, |q.queries|, q.mode);
    MatchesAreExact(words, |q.queries|, q.mode, 0);
    forall i | 0 <= i < |ws|
      ensures MatchesOf(vx, q, path, lines, ws)[i] == MatchOf(vx, q, path, lines, ws[i])
    {
      MatchesOfAt(vx, q, path, lines, ws, i);
    }
  }

  lemma MatchHead(vx: Viewer, q: SearchRequest, path: string, lines: seq<string>, w: Window)
    requires w.a <= w.b < |lines| && q.contextLines >= 0
    ensures MatchOf(vx, q, path, lines, w).path == path && MatchOf(vx, q, path, lines, w).line == w.a + 1
  {
    hide MatchedQueries, Join;
  }

  /** Match `i` of a file reports window `i`. */
  lemma WindowReports(vx: Viewer, q: SearchRequest, path: string, content: string) returns (ws: seq<Window>)
    requires q.contextLines >= 0
    ensures var lines, ms := LinesOf(content), FileMatches(vx, q, path, content);
            && |ws| == |ms|
            && (forall w :: w in ws <==> IsMatch(Words(vx, q, lines), |q.queries|, q.mode, w))
            && (forall i, k :: 0 <= i < k < |ws| ==> ms[i].line < ms[k].line)
            && (forall i :: 0 <= i < |ms| ==>
                  && ms[i].path == path && Hit(vx, q, lines, ws[i].a, ws[i].b)
                  && Reports(vx, q, lines, ws[i].a, ws[i].b, ms[i]))
  {
    hide LinesOf, MatchOf, Words, IsMatch, Hit, Reports, FileMatches, Flags;
    var lines, ms := LinesOf(content), FileMatches(vx, q, path, content);
    LinesAre(content, lines);
    ws := FileMatchesAre(vx, q, path, content);
    forall i | 0 <= i < |ms|
      ensures ms[i].path == path && ms[i].line == ws[i].a + 1
      ensures Hit(vx, q, lines, ws[i].a, ws[i].b) && Reports(vx, q, lines, ws[i].a, ws[i].b, ms[i])
    {
      assert ws[i] in ws;
      HitIff(vx, q, lines, ws[i]);
      MatchReports(vx, q, path, lines, ws[i]);
      MatchHead(vx, q, path, lines, ws[i]);
    }
  }

  lemma FileReports(vx: Viewer, q: SearchRequest, path: string, content: string)
    requires q.contextLines >= 0
    ensures forall m :: m in FileMatches(vx, q, path, content) ==> m.path == path && ReportsFrom(vx, q, content, m)
    ensures forall lines, a, b :: IsLines(content, lines) && Hit(vx, q, lines, a, b) ==>
        exists m :: m in FileMatches(vx, q, path, content) && Reports(vx, q, lines, a, b, m)
    ensures forall i, k :: 0 <= i < k < |FileMatches(vx, q, path, content)| ==>
        FileMatches(vx, q, path, content)[i].line < FileMatches(vx, q, path, content)[k].line
  {
    hide LinesOf, Words, IsMatch, Hit, Reports, FileMatches, IsLines, Flags;
    var lines, ms := LinesOf(content), FileMatches(vx, q, path, content);
    LinesAre(content, lines);
    var ws := WindowReports(vx, q, path, content);
    forall other, a, b | IsLines(content, other) && Hit(vx, q, other, a, b)
      ensures exists m :: m in ms && Reports(vx, q, other, a, b, m)
    {
      LinesAre(content, other);
      HitInside(vx, q, lines, a, b);
      var w := Window(a, b, Flags(vx, q, lines, a));
      HitIff(vx, q, lines, w);
      var i :| 0 <= i < |ws| && ws[i] == w;
      assert ms[i] in ms;
    }
  }

  // ----- the matches of all files -----

  /** Sorted by path and then by line. */
  ghost predicate InOrder(ms: seq<Match>) {
    forall i, k :: 0 <= i < k < |ms| ==>
      Less(ms[i].path, ms[k].path) || (ms[i].path == ms[k].path && ms[i].line < ms[k].line)
  }

  lemma JoinedInOrder(first: seq<Match>, path: string, rest: seq<Match>)
    requires forall m :: m in first ==> m.path == path
    requires forall i, k :: 0 <= i < k < |first| ==> first[i].line < first[k].line
    requires InOrder(rest) && forall m :: m in rest ==> Less(path, m.path)
    ensures InOrder(first + rest)
  {
    var ms := first + rest;
    forall i, k | 0 <= i < k < |ms|
      ensures Less(ms[i].path, ms[k].path) || (ms[i].path == ms[k].path && ms[i].line < ms[k].line)
    {
      assert i < |first| ==> ms[i] == first[i] && first[i] in first;
      assert k < |first| ==> first[k] in first;
      assert k >= |first| ==> ms[k] == rest[k - |first|] && rest[k - |first|] in rest;
    }
  }

  lemma {:induction false} AllReports(vx: Viewer, q: SearchRequest, files: map<string, string>, paths: seq<string>)
    requires q.contextLines >= 0 && Ascending(paths, Less) && forall p :: p in paths ==> p in files
    ensures var ms := AllMatches(vx, q, files, paths);
            && (forall m :: m in ms ==> m.path in paths && ReportsFrom(vx, q, files[m.path], m))
            && (forall p, lines, a, b :: p in paths && IsLines(files[p], lines) && Hit(vx, q, lines, a, b) ==>
                exists m :: m in ms && m.path == p && Reports(vx, q, lines, a, b, m))
            && InOrder(ms)
  {
    hide FileMatches, ReportsFrom, IsLines, Hit, Reports, InOrder;
    if paths == [] {
      assert InOrder([]) by { NoneInOrder(); }
    } else {
      var path, rest := paths[0], paths[1..];
      var first, later := FileMatches(vx, q, path, files[path]), AllMatches(vx, q, files, rest);
      AllReports(vx, q, files, rest);
      FileReports(vx, q, path, files[path]);
      forall p | p in rest
        ensures Less(path, p)
      {
        var i :| 0 <= i < |rest| && rest[i] == p;
        assert paths[i + 1] == p;
      }
      JoinedInOrder(first, path, later);
      assert forall m :: m in first + later <==> m in first || m in later;
    }
  }

  lemma NoneInOrder()
    ensures InOrder([])
  {
  }

  // ----- the files that are looked at -----

  /** Some part of the path begins with a dot. */
  ghost predicate DotFile(p: string) {
    exists i :: 0 <= i < |p| && p[i] == '.' && (i == 0 || p[i - 1] == '/')
  }

  /** A first part without a slash has only its first letter that can begin it. */
  lemma DotAfterSlash(head: string, tail: string)
    requires '/' !in head
    ensures DotFile(head + "/" + tail) <==> (head != "" && head[0] == '.') || DotFile(tail)
  {
    var p, n := head + "/" + tail, |head|;
    assert forall i :: 0 <= i < n ==> p[i] == head[i];
    assert p[n] == '/' && forall i :: 0 <= i < |tail| ==> p[n + 1 + i] == tail[i];
    if DotFile(tail) {
      var k :| 0 <= k < |tail| && tail[k] == '.' && (k == 0 || tail[k - 1] == '/');
      assert p[n + 1 + k] == '.' && p[n + k] == '/';
    }
    if DotFile(p) {
      var k :| 0 <= k < |p| && p[k] == '.' && (k == 0 || p[k - 1] == '/');
      assert k > n ==> tail[k - n - 1] == '.' && (k - n - 1 == 0 || tail[k - n - 2] == '/');
    }
  }

  lemma SplitAtSlash(p: string)
    requires IndexOf(p, '/') < |p|
    ensures Split(p, '/') == [p[..IndexOf(p, '/')]] + Split(p[IndexOf(p, '/') + 1..], '/')
  {
    hide IndexOf;
  }

  lemma HiddenAfterSlash(p: string)
    requires IndexOf(p, '/') < |p|
    ensures var i := IndexOf(p, '/');
            Hidden(p) <==> (p[..i] != "" && p[..i][0] == '.') || Hidden(p[i + 1..])
  {
    hide Split, IndexOf;
    SplitAtSlash(p);
    var i := IndexOf(p, '/');
    var parts, rest := Split(p, '/'), Split(p[i + 1..], '/');
    assert parts[0] == p[..i] && parts[1..] == rest;
    assert forall part :: part in parts <==> part == p[..i] || part in rest;
  }

  lemma {:induction false} HiddenIff(p: string)
    ensures Hidden(p) <==> DotFile(p)
    decreases |p|
  {
    hide Hidden, DotFile;
    var i := IndexOf(p, '/');
    if i < |p| {
      HiddenIff(p[i + 1..]);
      HiddenAfterSlash(p);
      DotAfterSlash(p[..i], p[i + 1..]);
      assert p == p[..i] + "/" + p[i + 1..];
    } else {
      HiddenName(p);
    }
  }

  lemma HiddenName(p: string)
    requires '/' !in p
    ensures Hidden(p) <==> DotFile(p)
  {
    FirstIndex(p, '/', |p|);
    assert Split(p, '/') == [p];
  }

  /** A file of the view that a search of `scope` looks at. */
  ghost predicate InScope(files: map<string, string>, scope: string, p: string) {
    && p in files && !DotFile(p)
    && (scope == "" || p == scope || exists rest :: p == scope + "/" + rest)
  }

  lemma SearchedIff(files: map<string, string>, scope: string, p: string)
    ensures p in Searched(files.Keys, scope) <==> InScope(files, scope, p)
  {
    hide Hidden, DotFile;
    HiddenIff(p);
    if |scope| < |p| && p[..|scope| + 1] == scope + "/" {
      assert p == scope + "/" + p[|scope| + 1..];
    }
    if rest :| p == scope + "/" + rest {
      assert p[..|scope| + 1] == scope + "/";
    }
  }

  // ----- the whole search -----

  /** The files under `scope` that a request for `path` asks for. */
  ghost predicate IsScope(path: Option<string>, scope: string) {
    if path == None || path == Some("") || path == Some(".") then scope == ""
    else ValidPath(scope) && path == Some(scope)
  }

  /** `ms` holds exactly one match for each range that the request looks for, in order. */
  ghost predicate Finds(vx: Viewer, files: map<string, string>, q: SearchRequest, scope: string, ms: seq<Match>) {
    && (forall m :: m in ms ==> InScope(files, scope, m.path) && ReportsFrom(vx, q, files[m.path], m))
    && (forall p, lines, a, b :: InScope(files, scope, p) && IsLines(files[p], lines) && Hit(vx, q, lines, a, b) ==>
        exists m :: m in ms && m.path == p && Reports(vx, q, lines, a, b, m))
    && InOrder(ms)
  }

  ghost predicate WellAsked(vx: Viewer, q: SearchRequest) {
    && 1 <= |q.queries| <= 64 && 0 <= q.contextLines <= 1000 && q.maxResults >= 1
    && (q.mode.AllWithin? ==> 1 <= q.mode.lineCount <= 1000)
    && forall x :: x in q.queries ==>
        |x| <= 1024 && vx.prepares(vx.trimmed(x), q.caseSensitive, q.normalized)
  }

  /** No match is larger than a page of 32 KiB. */
  ghost predicate AllSmall(vx: Viewer, files: map<string, string>, q: SearchRequest, scope: string) {
    forall p, m :: InScope(files, scope, p) && ReportsFrom(vx, q, files[p], m) ==> |m.content| <= 0x8000
  }

  lemma SameHit(vx: Viewer, q: SearchRequest, n: int, lines: seq<string>, a: nat, b: nat)
    ensures Hit(vx, q.(maxResults := n), lines, a, b) <==> Hit(vx, q, lines, a, b)
  {
    forall c: nat, d: nat
      ensures HasAll(vx, q.(maxResults := n), lines, c, d) <==> HasAll(vx, q, lines, c, d)
    {
      SameHasAll(vx, q, n, lines, c, d);
    }
    if a <= b < |lines| {
      forall j | 0 <= j < |q.queries|
        ensures Has(vx, q.(maxResults := n), lines, j, a, b) <==> Has(vx, q, lines, j, a, b)
      {
        SameHas(vx, q, n, lines, j, a, b);
      }
    }
  }

  lemma SameHas(vx: Viewer, q: SearchRequest, n: int, lines: seq<string>, j: nat, a: nat, b: nat)
    requires b < |lines| && j < |q.queries|
    ensures Has(vx, q.(maxResults := n), lines, j, a, b) <==> Has(vx, q, lines, j, a, b)
  {
  }

  lemma SameHasAll(vx: Viewer, q: SearchRequest, n: int, lines: seq<string>, a: nat, b: nat)
    ensures HasAll(vx, q.(maxResults := n), lines, a, b) <==> HasAll(vx, q, lines, a, b)
  {
    hide Has;
    if a <= b < |lines| {
      forall j | 0 <= j < |q.queries|
        ensures Has(vx, q.(maxResults := n), lines, j, a, b) <==> Has(vx, q, lines, j, a, b)
      {
        SameHas(vx, q, n, lines, j, a, b);
      }
    }
  }

  lemma SameReports(vx: Viewer, q: SearchRequest, n: int, lines: seq<string>, a: nat, b: nat, m: Match)
    ensures Reports(vx, q.(maxResults := n), lines, a, b, m) <==> Reports(vx, q, lines, a, b, m)
  {
    hide Split, IsOrder;
    if a <= b < |lines| {
      forall order
        ensures IsOrder(vx, q.(maxResults := n), lines, a, b, m.queries, order) <==>
            IsOrder(vx, q, lines, a, b, m.queries, order)
      {
        SameOrder(vx, q, n, lines, a, b, m.queries, order);
      }
    }
  }

  lemma SameOrder(vx: Viewer, q: SearchRequest, n: int, lines: seq<string>, a: nat, b: nat, queries: seq<string>,
                  order: seq<nat>)
    requires a <= b < |lines|
    ensures IsOrder(vx, q.(maxResults := n), lines, a, b, queries, order) <==>
        IsOrder(vx, q, lines, a, b, queries, order)
  {
    hide Has;
    forall j: nat | j < |q.queries|
      ensures Has(vx, q.(maxResults := n), lines, j, a, b) <==> Has(vx, q, lines, j, a, b)
    {
      SameHas(vx, q, n, lines, j, a, b);
    }
  }

  /** The bound on the size of a page does not change what is found. */
  lemma SameFinds(vx: Viewer, files: map<string, string>, q: SearchRequest, n: int, scope: string, ms: seq<Match>)
    requires Finds(vx, files, q.(maxResults := n), scope, ms)
    ensures Finds(vx, files, q, scope, ms)
  {
    hide InOrder, Reports, Hit, IsLines, DotFile;
    forall lines, a: nat, b: nat
      ensures Hit(vx, q.(maxResults := n), lines, a, b) <==> Hit(vx, q, lines, a, b)
    {
      SameHit(vx, q, n, lines, a, b);
    }
    forall lines, a: nat, b: nat, m
      ensures Reports(vx, q.(maxResults := n), lines, a, b, m) <==> Reports(vx, q, lines, a, b, m)
    {
      SameReports(vx, q, n, lines, a, b, m);
    }
  }

  lemma MatchesFind(vx: Viewer, files: map<string, string>, q: SearchRequest, scope: string)
    requires q.contextLines >= 0
    ensures Finds(vx, files, q, scope, MatchesIn(vx, q, files, scope))
  {
    hide AllMatches, ReportsFrom, IsLines, Hit, Reports, InOrder, InScope, Searched;
    forall p
      ensures p in Searched(files.Keys, scope) <==> InScope(files, scope, p)
    {
      SearchedIff(files, scope, p);
    }
    SearchedFiles(files.Keys, scope);
    AllReports(vx, q, files, Ordered(Searched(files.Keys, scope)));
  }

  lemma SmallIff(vx: Viewer, files: map<string, string>, q: SearchRequest, scope: string, ms: seq<Match>)
    requires q.contextLines >= 0 && Finds(vx, files, q, scope, ms)
    ensures AllFitPage(ms, 0) <==> AllSmall(vx, files, q, scope)
  {
    hide InOrder, Reports, Hit, IsLines, DotFile;
    if AllFitPage(ms, 0) {
      forall p, m | InScope(files, scope, p) && ReportsFrom(vx, q, files[p], m)
        ensures |m.content| <= 0x8000
      {
        var lines, a, b :| IsLines(files[p], lines) && Hit(vx, q, lines, a, b) && Reports(vx, q, lines, a, b, m);
        var n :| n in ms && n.path == p && Reports(vx, q, lines, a, b, n);
        ReportIsUnique(vx, q, lines, a, b, m, n);
      }
    }
  }

  lemma ScopeIff(path: Option<string>, scope: string)
    ensures IsScope(path, scope) <==> MemoryScope(path) == Good(scope)
    ensures MemoryScope(path).Bad? ==> MemoryScope(path).error == InvalidPath
  {
    hide ValidPath;
  }

  lemma {:induction false} QueriesFine(vx: Viewer, q: SearchRequest, i: nat)
    ensures QueriesRefusal(vx, q, i).None? <==> forall k :: i <= k < |q.queries| ==>
        |q.queries[k]| <= 1024 && vx.prepares(vx.trimmed(q.queries[k]), q.caseSensitive, q.normalized)
    decreases |q.queries| - i
  {
    if i < |q.queries| {
      QueriesFine(vx, q, i + 1);
    }
  }

  lemma AskedIff(vx: Viewer, q: SearchRequest)
    ensures SearchRefusal(vx, q).None? <==> WellAsked(vx, q)
  {
    QueriesFine(vx, q, 0);
  }

  /** A search succeeds if and only if its scope is a path, its bounds and queries are right, a scope that is
      given holds a file, and no match is larger than a page. It then returns exactly one match for every
      range of lines that the request looks for, sorted by path and line. */
  lemma SearchIsExact(vx: Viewer, files: map<string, string>, q: SearchRequest, scope: string)
    requires IsScope(q.path, scope)
    ensures FoundMatches(vx, files, q).Good? <==>
        && WellAsked(vx, q) && (scope == "" || exists p :: InScope(files, scope, p))
        && AllSmall(vx, files, q, scope)
    ensures FoundMatches(vx, files, q).Good? ==> Finds(vx, files, q, scope, FoundMatches(vx, files, q).value)
    ensures WellAsked(vx, q) && FoundMatches(vx, files, q).Bad? ==>
        FoundMatches(vx, files, q).error ==
            if scope != "" && (forall p :: !InScope(files, scope, p)) then Missing else MatchTooLarge
  {
    hide Finds, AllFitPage, AllSmall, InScope, MatchesIn, SearchRefusal, WellAsked, Searched, IsScope, MemoryScope;
    ScopeIff(q.path, scope);
    AskedIff(vx, q);
    forall p
      ensures p in Searched(files.Keys, scope) <==> InScope(files, scope, p)
    {
      SearchedIff(files, scope, p);
    }
    if WellAsked(vx, q) {
      var n := Min(q.maxResults, SEARCH_LIMIT);
      AskedContext(vx, q);
      MatchesFind(vx, files, q.(maxResults := n), scope);
      var ms := MatchesIn(vx, q.(maxResults := n), files, scope);
      SameFinds(vx, files, q, n, scope, ms);
      SmallIff(vx, files, q, scope, ms);
    }
  }

  lemma AskedContext(vx: Viewer, q: SearchRequest)
    ensures WellAsked(vx, q) ==> q.contextLines >= 0
  {
  }

  /** A request for something that is not a path is refused. */
  lemma NoScope(vx: Viewer, files: map<string, string>, q: SearchRequest)
    requires forall scope :: !IsScope(q.path, scope)
    ensures FoundMatches(vx, files, q) == Bad(InvalidPath)
  {
    hide ValidPath;
    forall scope
      ensures MemoryScope(q.path) != Good(scope)
    {
      ScopeIff(q.path, scope);
    }
    if MemoryScope(q.path).Good? {
      ScopeIff(q.path, MemoryScope(q.path).value);
    } else {
      ScopeIff(q.path, "");
    }
  }

  // ----- pages -----

  /** The bytes of the contents of some matches. */
  ghost function ContentBytes(ms: seq<Match>): nat {
    if ms == [] then 0 else |ms[0].content| + ContentBytes(ms[1..])
  }

  lemma {:induction false} CutPageIs(ms: seq<Match>, i: nat, room: nat, size: nat)
    requires i <= |ms| && size <= 0x8000 && AllFitPage(ms, 0)
    ensures var cut := CutPage(ms, i, room, size);
            && cut.Cut? && i <= cut.end <= |ms| && cut.end - i <= room
            && size + ContentBytes(ms[i..cut.end]) <= 0x8000
            && (cut.full <==> cut.end < |ms|)
            && (cut.full ==>
                cut.end - i == room || size + ContentBytes(ms[i..cut.end]) + |ms[cut.end].content| > 0x8000)
    decreases |ms| - i
  {
    var cut := CutPage(ms, i, room, size);
    if i < |ms| && room > 0 && size + |ms[i].content| <= 0x8000 {
      CutPageIs(ms, i + 1, room - 1, size + |ms[i].content|);
      assert ms[i..cut.end][0] == ms[i] && ms[i..cut.end][1..] == ms[i + 1..cut.end];
    } else {
      assert ms[i..i] == [];
    }
  }

  /** A page of a search none of whose matches is oversized is a stretch of the matches that starts where the cursor
      says and is as long as the bounds on its size and count allow; it has a cursor to the next match unless it
      holds the last one. */
  lemma SearchPageIsFull(vx: Viewer, files: map<string, string>, generation: nat, q: SearchRequest,
                         cursor: Cursor<SearchRequest>, page: SearchPage, ms: seq<Match>) returns (start: nat)
    requires SearchReply(vx, files, generation, q, cursor) == Good(page) && FoundMatches(vx, files, q) == Good(ms)
    ensures cursor.NoCursor? ==> start == 0
    ensures cursor.At? ==> cursor.generation == generation && start == cursor.index
    ensures var n := |page.matches|;
            && start + n <= |ms| && page.matches == ms[start..start + n]
            && n <= q.maxResults && n <= 200 && ContentBytes(page.matches) <= 0x8000
            && (page.next.NoCursor? <==> start + n == |ms|)
            && (start + n < |ms| ==>
                  && page.next == At(generation, q.(maxResults := Min(q.maxResults, 200)), start + n)
                  && (n == q.maxResults || n == 200 ||
                      ContentBytes(page.matches) + |ms[start + n].content| > 0x8000))
  {
    hide MemoryScope, MatchesIn, QueriesRefusal, Searched, CutPage;
    var query := q.(maxResults := Min(q.maxResults, SEARCH_LIMIT));
    start := CursorStart(cursor, generation, query).value;
    CutPageIs(ms, start, query.maxResults, 0);
  }
}
