/** Journal framing: one record per newline-terminated line, at most 32 MiB with its newline. The
    scanner reads the file in chunks of any size. */
module Framing {
  import opened Types
  import opened Text

  const LIMIT := NATIVE_TRANSACTION_BYTES

  datatype Advance = More | Token(advance: nat, line: string) | Bad(error: Refusal)

  /** The split function given to the scanner. */
  function JournalLines(data: string, atEOF: bool): (r: Advance)
    ensures r.Token? ==> 0 < r.advance <= |data|
  {
    var i := IndexOf(data, '\n');
    if i < |data| then
      if i + 1 > LIMIT then Bad(OversizeEntry) else Token(i + 1, data[..i])
    else if |data| >= LIMIT then Bad(OversizeEntry)
    else if atEOF && |data| > 0 then Bad(IncompleteJournal)
    else More
  }

  /** The lines delivered before the end of the file or the first framing error. */
  datatype Scanned = Scanned(lines: seq<string>, error: Option<Refusal>)

  /** Splitting with the whole file at hand. */
  function Lines(data: string): Scanned
    decreases |data|
  {
    match JournalLines(data, true)
    case More => Scanned([], None)
    case Bad(e) => Scanned([], Some(e))
    case Token(advance, line) =>
      var rest := Lines(data[advance..]);
      Scanned([line] + rest.lines, rest.error)
  }

  // ----- the scanner -----

  lemma IndexOfPrefix(data: string, n: nat)
    requires n <= |data|
    ensures IndexOf(data[..n], '\n') < n ==> IndexOf(data, '\n') == IndexOf(data[..n], '\n')
    ensures IndexOf(data[..n], '\n') == n ==> IndexOf(data, '\n') >= n
  {
    var i := IndexOf(data[..n], '\n');
    assert forall k :: 0 <= k < i ==> data[k] == data[..n][k];
  }

  /** A verdict on the bytes buffered so far is the verdict on the whole rest of the file. */
  lemma BufferedVerdict(data: string, n: nat)
    requires n <= |data|
    ensures var v := JournalLines(data[..n], false);
            v != More ==> JournalLines(data, true) == v
  {
    IndexOfPrefix(data, n);
    var i := IndexOf(data[..n], '\n');
    assert i < n ==> data[..n][..i] == data[..i];
  }

  /** `lines` have been delivered and `rest` is still to be split. */
  ghost predicate Delivered(data: string, lines: seq<string>, rest: string) {
    Lines(data) == Scanned(lines + Lines(rest).lines, Lines(rest).error)
  }

  lemma DeliverNothing(data: string)
    ensures Delivered(data, [], data)
  {
    assert [] + Lines(data).lines == Lines(data).lines;
  }

  lemma MoreFits(window: string)
    requires JournalLines(window, false).More?
    ensures |window| < LIMIT
  {
  }

  lemma DeliverToken(data: string, lines: seq<string>, rest: string, n: nat, atEOF: bool)
    requires n <= |rest| && (atEOF ==> n == |rest|)
    requires Delivered(data, lines, rest)
    ensures var v := JournalLines(rest[..n], atEOF);
            && (v.Token? ==> Delivered(data, lines + [v.line], rest[v.advance..]))
            && (v.Bad? ==> Lines(data) == Scanned(lines, Some(v.error)))
            && (v.More? && atEOF ==> Lines(data) == Scanned(lines, None))
  {
    BufferedVerdict(rest, n);
    assert n == |rest| ==> rest[..n] == rest;
    match JournalLines(rest, true) {
      case Token(advance, line) =>
        var later := Lines(rest[advance..]);
        assert lines + ([line] + later.lines) == lines + [line] + later.lines;
      case _ =>
    }
  }

  /** The loop of bufio.Scanner. Read number k returns at most 1 + chunk(k) bytes, and never more than
      the buffer of LIMIT + 1 bytes can take. */
  method ScanJournal(data: string, chunk: nat -> nat) returns (scanned: Scanned)
    ensures scanned == Lines(data)
  {
    hide Lines, Delivered, JournalLines;
    var lines: seq<string> := [];
    var start, end, k, atEOF := 0, 0, 0, false;
    DeliverNothing(data);
    assert data[start..] == data;
    while true
      invariant 0 <= start <= end <= |data|
      invariant atEOF ==> end == |data|
      invariant Delivered(data, lines, data[start..])
      decreases |data| - start, |data| - end, !atEOF
    {
      var window := data[start..end];
      ghost var rest := data[start..];
      assert rest[..end - start] == window;
      DeliverToken(data, lines, rest, end - start, atEOF);
      match JournalLines(window, atEOF) {
        case Bad(e) =>
          return Scanned(lines, Some(e));
        case Token(advance, line) =>
          assert rest[advance..] == data[start + advance..];
          lines := lines + [line];
          start := start + advance;
        case More =>
          if atEOF {
            return Scanned(lines, None);
          }
          MoreFits(window);
          var room := LIMIT + 1 - (end - start);
          assert room > 0;  // the buffer is never full, so bufio.ErrTooLong cannot occur
          var n := Min(Min(1 + chunk(k), room), |data| - end);
          k := k + 1;
          atEOF := n == 0;
          end := end + n;
      }
    }
  }

  // ----- round trip -----

  function Frames(lines: seq<string>): string {
    if lines == [] then "" else Frames(lines[..|lines| - 1]) + lines[|lines| - 1] + "\n"
  }

  ghost predicate Framable(line: string) {
    '\n' !in line && |line| + 1 <= LIMIT
  }

  lemma FirstLine(line: string, rest: string)
    requires Framable(line)
    ensures Lines(line + "\n" + rest) == Scanned([line] + Lines(rest).lines, Lines(rest).error)
  {
    var data := line + "\n" + rest;
    var i := IndexOf(data, '\n');
    assert data[|line|] == '\n';
    assert forall k :: 0 <= k < |line| ==> data[k] == line[k];
    assert i == |line|;
    assert data[..i] == line && data[i + 1..] == rest;
  }

  lemma {:induction false} FramesCons(line: string, lines: seq<string>)
    ensures Frames([line] + lines) == line + "\n" + Frames(lines)
  {
    if lines == [] {
      assert Frames([line]) == Frames([]) + line + "\n";
    } else {
      var front, last := lines[..|lines| - 1], lines[|lines| - 1];
      assert [line] + lines == ([line] + front) + [last];
      FramesCons(line, front);
      assert Frames([line] + lines) == Frames([line] + front) + last + "\n";
    }
  }

  /** What follows the framed lines decides whether the file is accepted; the lines always come back. */
  lemma {:induction false} FramesThenTail(lines: seq<string>, tail: string)
    requires forall i :: 0 <= i < |lines| ==> Framable(lines[i])
    ensures Lines(Frames(lines) + tail) == Scanned(lines + Lines(tail).lines, Lines(tail).error)
  {
    hide Lines, Framable;
    if lines == [] {
      assert Frames(lines) + tail == tail;
      assert [] + Lines(tail).lines == Lines(tail).lines;
    } else {
      assert lines == [lines[0]] + lines[1..];
      FramesThenTail(lines[1..], tail);
      OneMoreLine(lines[0], lines[1..], tail);
    }
  }

  lemma OneMoreLine(line: string, rest: seq<string>, tail: string)
    requires Framable(line)
    requires Lines(Frames(rest) + tail) == Scanned(rest + Lines(tail).lines, Lines(tail).error)
    ensures Lines(Frames([line] + rest) + tail) == Scanned([line] + rest + Lines(tail).lines, Lines(tail).error)
  {
    hide Lines, Frames, Framable;
    FramesCons(line, rest);
    Reassociate(line + "\n", Frames(rest), tail);
    FirstLine(line, Frames(rest) + tail);
    Reassociate([line], rest, Lines(tail).lines);
  }

  lemma Reassociate<T>(a: seq<T>, b: seq<T>, c: seq<T>)
    ensures a + b + c == a + (b + c)
  {
  }

  /** Splitting undoes framing. */
  lemma FramingRoundTrip(lines: seq<string>)
    requires forall i :: 0 <= i < |lines| ==> Framable(lines[i])
    ensures Lines(Frames(lines)) == Scanned(lines, None)
  {
    FramesThenTail(lines, "");
    assert Frames(lines) + "" == Frames(lines);
  }

  /** An unterminated tail is an error, never a record and never dropped. */
  lemma TornTailIsError(lines: seq<string>, tail: string)
    requires forall i :: 0 <= i < |lines| ==> Framable(lines[i])
    requires tail != "" && '\n' !in tail
    ensures Lines(Frames(lines) + tail) == Scanned(lines, Some(if |tail| >= LIMIT then OversizeEntry
        else IncompleteJournal))
  {
    FramesThenTail(lines, tail);
    assert IndexOf(tail, '\n') == |tail|;
  }

  /** A file accepted by the scanner is exactly the framing of the lines it delivers. */
  lemma {:induction false} NothingIsDropped(data: string)
    requires Lines(data).error == None
    ensures Frames(Lines(data).lines) == data
    ensures forall i :: 0 <= i < |Lines(data).lines| ==> Framable(Lines(data).lines[i])
    decreases |data|
  {
    hide Lines;
    var i := IndexOf(data, '\n');
    if i < |data| {
      FirstIsFramable(data);
      NothingIsDropped(data[i + 1..]);
      LineThenRest(data);
    } else {
      EmptyFile(data);
    }
  }

  lemma CutAt(data: string, i: nat)
    requires i < |data| && data[i] == '\n'
    ensures data == data[..i] + "\n" + data[i + 1..]
  {
  }

  lemma EmptyFile(data: string)
    requires IndexOf(data, '\n') == |data| && Lines(data).error == None
    ensures data == "" && Lines(data).lines == []
  {
  }

  lemma FirstIsFramable(data: string)
    requires IndexOf(data, '\n') < |data| && Lines(data).error == None
    ensures var i := IndexOf(data, '\n');
            Framable(data[..i]) && Lines(data[i + 1..]).error == None
  {
  }

  lemma LineThenRest(data: string)
    requires IndexOf(data, '\n') < |data| && Lines(data).error == None
    requires var i := IndexOf(data, '\n'); Frames(Lines(data[i + 1..]).lines) == data[i + 1..]
    ensures var i := IndexOf(data, '\n'); Lines(data).lines == [data[..i]] + Lines(data[i + 1..]).lines
    ensures Frames(Lines(data).lines) == data
  {
    hide Lines, Frames;
    var i := IndexOf(data, '\n');
    FirstIsFramable(data);
    var line, rest := data[..i], data[i + 1..];
    CutAt(data, i);
    FirstLine(line, rest);
    FramesCons(line, Lines(rest).lines);
  }
}
