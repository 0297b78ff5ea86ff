/** The window search of `MemorySearch`: one backward scan finds, for every line, where the shortest
    window that starts there ends; looking only at the next window then rejects the ones that are not
    minimal. The specification speaks of inclusion-minimal line ranges alone.

    A line's 64-bit flag word is written as the set of its bits, one per query. */
module Windows {

  datatype Mode = Any | AllOnSameLine | AllWithin(lineCount: nat)
  datatype Window = Window(a: nat, b: nat, flags: set<nat>)

  // ----- specification -----

  /** The word with every query's bit. */
  function All(nq: nat): (s: set<nat>)
    ensures forall j: nat :: j in s <==> j < nq
  {
    if nq == 0 then {} else All(nq - 1) + {nq - 1}
  }

  /** Query `j` occurs in the lines a..b. */
  predicate Occurs(flags: seq<set<nat>>, j: nat, a: nat, b: nat)
    requires b < |flags|
  {
    exists l :: a <= l <= b && j in flags[l]
  }

  /** Every query occurs in the lines a..b. */
  ghost predicate Covers(flags: seq<set<nat>>, nq: nat, a: nat, b: nat) {
    a <= b < |flags| && forall j :: 0 <= j < nq ==> Occurs(flags, j, a, b)
  }

  /** ... and in no smaller range of lines inside them. */
  ghost predicate Minimal(flags: seq<set<nat>>, nq: nat, a: nat, b: nat) {
    && Covers(flags, nq, a, b)
    && forall c: nat, d: nat :: a <= c <= d <= b && Covers(flags, nq, c, d) ==> c == a && d == b
  }

  ghost predicate IsMatch(flags: seq<set<nat>>, nq: nat, mode: Mode, w: Window) {
    && w.a <= w.b < |flags|
    && match mode
       case Any => w.b == w.a && w.flags == flags[w.a] != {}
       case AllOnSameLine => w.b == w.a && w.flags == flags[w.a] == All(nq)
       case AllWithin(n) => Minimal(flags, nq, w.a, w.b) && w.b - w.a + 1 <= n && w.flags == All(nq)
  }

  /** The matches that start at line `i` or later, in order. */
  ghost function Matches(flags: seq<set<nat>>, nq: nat, mode: Mode, i: nat): seq<Window>
    decreases |flags| - i
  {
    if i >= |flags| then []
    else if exists w: Window :: w.a == i && IsMatch(flags, nq, mode, w) then
      var w: Window :| w.a == i && IsMatch(flags, nq, mode, w);
      [w] + Matches(flags, nq, mode, i + 1)
    else Matches(flags, nq, mode, i + 1)
  }

  // ----- shortest windows -----

  /** The first line at or after `i` with query `j`, or the number of lines. */
  function NextHit(flags: seq<set<nat>>, j: nat, i: nat): (l: nat)
    requires i <= |flags|
    ensures i <= l <= |flags|
    ensures l < |flags| ==> j in flags[l]
    ensures forall k :: i <= k < l ==> j !in flags[k]
    decreases |flags| - i
  {
    if i == |flags| || j in flags[i] then i else NextHit(flags, j, i + 1)
  }

  /** The last of the first hits of queries 0..k, but at least `i`. */
  function LastNext(flags: seq<set<nat>>, i: nat, k: nat): (e: nat)
    requires i <= |flags|
    ensures i <= e <= |flags|
    ensures forall j :: 0 <= j < k ==> NextHit(flags, j, i) <= e
  {
    if k == 0 then i else Max(LastNext(flags, i, k - 1), NextHit(flags, k - 1, i))
  }

  function Max(a: nat, b: nat): nat { if a < b then b else a }

  function ShortestEnd(flags: seq<set<nat>>, nq: nat, i: nat): (e: nat)
    requires i <= |flags|
    ensures i <= e <= |flags|
  {
    LastNext(flags, i, nq)
  }

  lemma {:induction false} LastNextReached(flags: seq<set<nat>>, i: nat, k: nat, b: nat)
    requires i <= b && i <= |flags|
    requires forall j :: 0 <= j < k ==> NextHit(flags, j, i) <= b
    ensures LastNext(flags, i, k) <= b
  {
    if k > 0 {
      LastNextReached(flags, i, k - 1, b);
    }
  }

  /** A range covers exactly when it reaches the shortest end of its start. */
  lemma CoversIff(flags: seq<set<nat>>, nq: nat, a: nat, b: nat)
    requires a <= b < |flags|
    ensures Covers(flags, nq, a, b) <==> ShortestEnd(flags, nq, a) <= b
  {
    if Covers(flags, nq, a, b) {
      forall j | 0 <= j < nq
        ensures NextHit(flags, j, a) <= b
      {
        assert Occurs(flags, j, a, b);
      }
      LastNextReached(flags, a, nq, b);
    } else {
      var j :| 0 <= j < nq && !Occurs(flags, j, a, b);
      assert NextHit(flags, j, a) > b;
    }
  }

  lemma {:induction false} LastNextMonotone(flags: seq<set<nat>>, i: nat, k: nat)
    requires i < |flags|
    ensures LastNext(flags, i, k) <= LastNext(flags, i + 1, k)
  {
    if k > 0 {
      LastNextMonotone(flags, i, k - 1);
      var h := NextHit(flags, k - 1, i + 1);
      assert NextHit(flags, k - 1, i) <= h;
    }
  }

  lemma {:induction false} EndsMonotone(flags: seq<set<nat>>, nq: nat, i: nat, c: nat)
    requires i <= c <= |flags|
    ensures ShortestEnd(flags, nq, i) <= ShortestEnd(flags, nq, c)
    decreases c - i
  {
    if i < c {
      LastNextMonotone(flags, i, nq);
      EndsMonotone(flags, nq, i + 1, c);
    }
  }

  /** The only candidate that starts at `a` is the shortest window, and it is minimal exactly when the
      windows that start later end later. */
  lemma MinimalIff(flags: seq<set<nat>>, nq: nat, a: nat, b: nat)
    requires a <= b < |flags|
    ensures Minimal(flags, nq, a, b) <==> b == ShortestEnd(flags, nq, a) < ShortestEnd(flags, nq, a + 1)
  {
    var e := ShortestEnd(flags, nq, a);
    CoversIff(flags, nq, a, b);
    if Minimal(flags, nq, a, b) {
      CoversIff(flags, nq, a, e);
      if a + 1 <= b {
        CoversIff(flags, nq, a + 1, b);
      }
    }
    if b == e < ShortestEnd(flags, nq, a + 1) {
      forall c: nat, d: nat | a <= c <= d <= b && Covers(flags, nq, c, d)
        ensures c == a && d == b
      {
        CoversIff(flags, nq, c, d);
        if c > a {
          EndsMonotone(flags, nq, a + 1, c);
        }
      }
    }
  }

  // ----- the candidate windows of the source -----

  ghost predicate WordsOk(flags: seq<set<nat>>, nq: nat) {
    nq >= 1 && forall l :: 0 <= l < |flags| ==> flags[l] <= All(nq)
  }

  /** Whether the forward loop appends a window for line `i`. */
  predicate Appended(flags: seq<set<nat>>, nq: nat, mode: Mode, i: nat)
    requires i < |flags|
  {
    flags[i] != {} &&
    match mode
    case Any => true
    case AllOnSameLine => flags[i] == All(nq)
    case AllWithin(n) => ShortestEnd(flags, nq, i) < |flags| && ShortestEnd(flags, nq, i) - i + 1 <= n
  }

  function WindowAt(flags: seq<set<nat>>, nq: nat, mode: Mode, i: nat): Window
    requires i < |flags|
  {
    if mode.AllWithin? then Window(i, ShortestEnd(flags, nq, i), All(nq)) else Window(i, i, flags[i])
  }

  function Candidates(flags: seq<set<nat>>, nq: nat, mode: Mode, i: nat): seq<Window>
    decreases |flags| - i
  {
    if i >= |flags| then []
    else (if Appended(flags, nq, mode, i) then [WindowAt(flags, nq, mode, i)]
        else []) + Candidates(flags, nq, mode, i + 1)
  }

  /** The adjacent window is contained in this one, so this one is skipped. */
  predicate Skipped(ws: seq<Window>, mode: Mode, i: nat)
    requires i < |ws|
  {
    mode.AllWithin? && i + 1 < |ws| && ws[i + 1].b <= ws[i].b
  }

  /** The windows from position `i` on that the emission loop does not skip. */
  function Kept(ws: seq<Window>, mode: Mode, i: nat): seq<Window>
    decreases |ws| - i
  {
    if i >= |ws| then []
    else (if Skipped(ws, mode, i) then [] else [ws[i]]) + Kept(ws, mode, i + 1)
  }

  // ----- candidates that are kept are the matches -----

  lemma {:induction false} EmptyLineSameEnd(flags: seq<set<nat>>, i: nat, k: nat)
    requires i < |flags| && flags[i] == {} && k >= 1
    ensures LastNext(flags, i, k) == LastNext(flags, i + 1, k)
  {
    assert NextHit(flags, k - 1, i) == NextHit(flags, k - 1, i + 1);
    if k > 1 {
      EmptyLineSameEnd(flags, i, k - 1);
    }
  }

  /** The first candidate from `i` on ends no earlier than the shortest window from `i`; if that window
      is short enough, it ends there. */
  lemma {:induction false} FirstCandidate(flags: seq<set<nat>>, nq: nat, n: nat, i: nat)
    requires WordsOk(flags, nq) && i <= |flags|
    ensures var ws := Candidates(flags, nq, AllWithin(n), i); var e := ShortestEnd(flags, nq, i);
            && (ws != [] ==> e <= ws[0].b)
            && (e < |flags| && e - i + 1 <= n ==> ws != [] && ws[0].b == e)
    decreases |flags| - i
  {
    if i < |flags| {
      FirstCandidate(flags, nq, n, i + 1);
      EndsMonotone(flags, nq, i, i + 1);
      if flags[i] == {} {
        EmptyLineSameEnd(flags, i, nq);
      }
    }
  }

  lemma KeptOfCons(w: Window, ws: seq<Window>, mode: Mode)
    ensures Kept([w] + ws, mode, 0) == (if Skipped([w] + ws, mode, 0) then [] else [w]) + Kept(ws, mode, 0)
  {
    KeptShift(w, ws, mode, 0);
  }

  lemma {:induction false} KeptShift(w: Window, ws: seq<Window>, mode: Mode, i: nat)
    requires i <= |ws|
    ensures Kept([w] + ws, mode, i + 1) == Kept(ws, mode, i)
    decreases |ws| - i
  {
    if i < |ws| {
      KeptShift(w, ws, mode, i + 1);
      var all := [w] + ws;
      assert all[i + 1] == ws[i] && (i + 1 < |ws| ==> all[i + 2] == ws[i + 1]);
    }
  }

  lemma UniqueMatch(flags: seq<set<nat>>, nq: nat, mode: Mode, v: Window, w: Window)
    requires IsMatch(flags, nq, mode, v) && IsMatch(flags, nq, mode, w) && v.a == w.a
    ensures v == w
  {
    if mode.AllWithin? {
      MinimalIff(flags, nq, v.a, v.b);
      MinimalIff(flags, nq, w.a, w.b);
    }
  }

  /** Whether line `i` starts a match, in terms of the scan. */
  lemma MatchAt(flags: seq<set<nat>>, nq: nat, mode: Mode, i: nat)
    requires WordsOk(flags, nq) && i < |flags|
    ensures (exists w: Window :: w.a == i && IsMatch(flags, nq, mode, w)) <==>
            Appended(flags, nq, mode, i) &&
                (mode.AllWithin? ==> ShortestEnd(flags, nq, i) < ShortestEnd(flags, nq, i + 1))
    ensures (&& Appended(flags, nq, mode, i)
             && (mode.AllWithin? ==> ShortestEnd(flags, nq, i) < ShortestEnd(flags, nq, i + 1))) ==>
            IsMatch(flags, nq, mode, WindowAt(flags, nq, mode, i))
  {
    if mode.AllWithin? {
      var e := ShortestEnd(flags, nq, i);
      if flags[i] == {} {
        EmptyLineSameEnd(flags, i, nq);
      }
      if e < |flags| {
        MinimalIff(flags, nq, i, e);
      }
      forall w: Window | w.a == i && IsMatch(flags, nq, mode, w)
        ensures w == WindowAt(flags, nq, mode, i)
      {
        MinimalIff(flags, nq, i, w.b);
      }
    } else {
      assert 0 in All(nq);
    }
    assert IsMatch(flags, nq, mode, WindowAt(flags, nq, mode, i)) ==> WindowAt(flags, nq, mode, i).a == i;
  }

  /** Skipping by adjacency alone leaves exactly the matches. */
  lemma {:induction false} KeptAreMatches(flags: seq<set<nat>>, nq: nat, mode: Mode, i: nat)
    requires WordsOk(flags, nq) && i <= |flags|
    ensures Kept(Candidates(flags, nq, mode, i), mode, 0) == Matches(flags, nq, mode, i)
    decreases |flags| - i
  {
    if i < |flags| {
      KeptAreMatches(flags, nq, mode, i + 1);
      MatchAt(flags, nq, mode, i);
      var later := Candidates(flags, nq, mode, i + 1);
      if Appended(flags, nq, mode, i) {
        var w := WindowAt(flags, nq, mode, i);
        assert Candidates(flags, nq, mode, i) == [w] + later;
        KeptOfCons(w, later, mode);
        if mode.AllWithin? {
          FirstCandidate(flags, nq, mode.lineCount, i + 1);
          SkippedIff(flags, nq, mode, i);
        }
        MatchesAt(flags, nq, mode, i);
      } else {
        assert Candidates(flags, nq, mode, i) == later;
      }
    }
  }

  lemma SkippedIff(flags: seq<set<nat>>, nq: nat, mode: Mode, i: nat)
    requires WordsOk(flags, nq) && i < |flags| && mode.AllWithin? && Appended(flags, nq, mode, i)
    ensures Skipped([WindowAt(flags, nq, mode, i)] + Candidates(flags, nq, mode, i + 1), mode, 0) <==>
            ShortestEnd(flags, nq, i + 1) <= ShortestEnd(flags, nq, i)
  {
    FirstCandidate(flags, nq, mode.lineCount, i + 1);
  }

  lemma MatchesAt(flags: seq<set<nat>>, nq: nat, mode: Mode, i: nat)
    requires i < |flags|
    ensures IsMatch(flags, nq, mode, WindowAt(flags, nq, mode, i)) ==>
              Matches(flags, nq, mode, i) == [WindowAt(flags, nq, mode, i)] + Matches(flags, nq, mode, i + 1)
  {
    if IsMatch(flags, nq, mode, WindowAt(flags, nq, mode, i)) {
      forall w: Window | w.a == i && IsMatch(flags, nq, mode, w)
        ensures w == WindowAt(flags, nq, mode, i)
      {
        UniqueMatch(flags, nq, mode, w, WindowAt(flags, nq, mode, i));
      }
    }
  }

  // ----- the scans of the source -----

  lemma NextHitStep(flags: seq<set<nat>>, j: nat, i: nat)
    requires i < |flags|
    ensures NextHit(flags, j, i) == if j in flags[i] then i else NextHit(flags, j, i + 1)
  {
  }

  lemma LastNextStep(flags: seq<set<nat>>, i: nat, k: nat)
    requires i <= |flags|
    ensures LastNext(flags, i, k + 1) == Max(LastNext(flags, i, k), NextHit(flags, k, i))
  {
    hide NextHit;
  }

  lemma ScanStart(flags: seq<set<nat>>, nq: nat)
    ensures forall j :: 0 <= j < nq ==> NextHit(flags, j, |flags|) == |flags|
    ensures forall i :: 0 <= i <= |flags| ==> LastNext(flags, i, 0) == i
  {
  }

  /** The backward scan: `next[j]` is the next line with query j, `ends[i]` the end of the shortest
      window that starts at line i. */
  method BackwardScan(flags: seq<set<nat>>, nq: nat) returns (ends: array<nat>)
    ensures fresh(ends) && ends.Length == |flags|
    ensures forall i :: 0 <= i < |flags| ==> ends[i] == ShortestEnd(flags, nq, i)
  {
    hide NextHit, LastNext;
    ScanStart(flags, nq);
    ends := new nat[|flags|];
    var next := new nat[nq];
    for j := 0 to nq
      invariant forall k :: 0 <= k < j ==> next[k] == |flags|
    {
      next[j] := |flags|;
    }
    for i := |flags| downto 0
      invariant forall k :: 0 <= k < nq ==> next[k] == NextHit(flags, k, i)
      invariant forall k :: i <= k < |flags| ==> ends[k] == ShortestEnd(flags, nq, k)
    {
      var end := i;
      for j := 0 to nq
        invariant forall k :: 0 <= k < j ==> next[k] == NextHit(flags, k, i)
        invariant forall k :: j <= k < nq ==> next[k] == NextHit(flags, k, i + 1)
        invariant end == LastNext(flags, i, j)
        invariant forall k :: i < k < |flags| ==> ends[k] == ShortestEnd(flags, nq, k)
      {
        NextHitStep(flags, j, i);
        LastNextStep(flags, i, j);
        if j in flags[i] {
          next[j] := i;
        }
        end := Max(end, next[j]);
      }
      ends[i] := end;
    }
  }

  /** The forward loop, which appends the candidates. */
  method ForwardScan(flags: seq<set<nat>>, nq: nat, mode: Mode) returns (windows: seq<Window>)
    requires WordsOk(flags, nq)
    ensures windows == Candidates(flags, nq, mode, 0)
    ensures Kept(windows, mode, 0) == Matches(flags, nq, mode, 0)
  {
    hide Candidates, Kept, Matches, ShortestEnd, Appended, WindowAt;
    var ends := BackwardScan(flags, nq);
    windows := [];
    for i := 0 to |flags|
      invariant forall k :: 0 <= k < |flags| ==> ends[k] == ShortestEnd(flags, nq, k)
      invariant windows + Candidates(flags, nq, mode, i) == Candidates(flags, nq, mode, 0)
    {
      var f := flags[i];
      var end, combined, ok := i, f, f != {};
      if ok && mode.AllWithin? {
        end := ends[i];
        ok := end < |flags| && end - i + 1 <= mode.lineCount;
        combined := All(nq);
      }
      CandidateHere(flags, nq, mode, i, end, combined, ok);
      if ok && (mode.Any? || combined == All(nq)) {
        assert windows + ([Window(i, end, combined)] + Candidates(flags, nq, mode, i + 1))
            == windows + [Window(i, end, combined)] + Candidates(flags, nq, mode, i + 1);
        windows := windows + [Window(i, end, combined)];
      }
    }
    NoCandidates(flags, nq, mode);
    KeptAreMatches(flags, nq, mode, 0);
  }

  lemma CandidateHere(flags: seq<set<nat>>, nq: nat, mode: Mode, i: nat, end: nat, combined: set<nat>, ok: bool)
    requires WordsOk(flags, nq) && i < |flags|
    requires if flags[i] != {} && mode.AllWithin? then
               && end == ShortestEnd(flags, nq, i) && combined == All(nq)
               && ok == (end < |flags| && end - i + 1 <= mode.lineCount)
             else end == i && combined == flags[i] && ok == (flags[i] != {})
    ensures Candidates(flags, nq, mode, i) ==
            (if ok && (mode.Any? || combined == All(nq)) then [Window(i, end, combined)]
                else []) + Candidates(flags, nq, mode, i + 1)
  {
    hide ShortestEnd;
  }

  lemma NoCandidates(flags: seq<set<nat>>, nq: nat, mode: Mode)
    ensures Candidates(flags, nq, mode, |flags|) == []
  {
  }

  // ----- reading the specification -----

  /** The search emits exactly the matches, in order of their first line and each once. */
  lemma {:induction false} MatchesAreExact(flags: seq<set<nat>>, nq: nat, mode: Mode, i: nat)
    ensures var ms := Matches(flags, nq, mode, i);
            && (forall w :: w in ms <==> i <= w.a && IsMatch(flags, nq, mode, w))
            && (forall k, l :: 0 <= k < l < |ms| ==> ms[k].a < ms[l].a)
    decreases |flags| - i
  {
    if i < |flags| {
      MatchesAreExact(flags, nq, mode, i + 1);
      var rest := Matches(flags, nq, mode, i + 1);
      forall v: Window, w: Window | v.a == i && w.a == i && IsMatch(flags, nq, mode, v) && IsMatch(flags, nq, mode, w)
        ensures v == w
      {
        UniqueMatch(flags, nq, mode, v, w);
      }
      forall k | 0 <= k < |rest|
        ensures i < rest[k].a
      {
        assert rest[k] in rest;
      }
    }
  }
}
