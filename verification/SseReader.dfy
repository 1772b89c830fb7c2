/**
 The dashboard's incremental reader of server-sent events: a text buffer that grows chunk by chunk, is
 cut at blank lines, and is parsed block by block. The reference is a reader that looks at one
 character at a time and dispatches at each blank line.
 */
module SseReader {
  import opened Integers
  import opened Sequences
  import opened Text

  // ---- line endings -----------------------------------------------------------------------

  /** How many characters the first line ending, or else the first character, takes. */
  function Width(s: string): (w: nat)
    requires s != ""
    ensures 0 < w <= |s|
  {
    if s[0] == '\r' && |s| > 1 && s[1] == '\n' then 2 else 1
  }

  /** Replaces CR LF and lone CR by LF. */
  function Normalize(s: string): string {
    if s == "" then "" else [if s[0] == '\r' then '\n' else s[0]] + Normalize(s[Width(s)..])
  }

  /** A cut between the two characters of a CR LF. */
  predicate SplitsCrLf(a: string, b: string) {
    a != "" && b != "" && Last(a) == '\r' && b[0] == '\n'
  }

  lemma {:induction false} NormalizeNoCr(s: string)
    requires '\r' !in s
    ensures Normalize(s) == s
  {
    if s != "" {
      assert s == [s[0]] + s[1..];
      NormalizeNoCr(s[1..]);
    }
  }

  lemma {:induction false} NormalizedHasNoCr(s: string)
    ensures '\r' !in Normalize(s)
  {
    if s != "" {
      NormalizedHasNoCr(s[Width(s)..]);
    }
  }

  lemma {:induction false} NormalizeAppend(a: string, b: string)
    requires !SplitsCrLf(a, b)
    ensures Normalize(a + b) == Normalize(a) + Normalize(b)
  {
    if a == "" {
      assert a + b == b;
    } else {
      var w := Width(a);
      assert Width(a + b) == w;
      assert (a + b)[w..] == a[w..] + b;
      assert !SplitsCrLf(a[w..], b);
      NormalizeAppend(a[w..], b);
    }
  }

  lemma NormalizeKeepsCrLf(p: string)
    requires p != "" && Last(p) == '\r'
    ensures Normalize(p + "\n") == Normalize(p)
  {
    var q := Init(p);
    assert p == q + "\r" && p + "\n" == q + "\r\n";
    NormalizeAppend(q, "\r");
    NormalizeAppend(q, "\r\n");
    assert "\r\n"[2..] == "" && "\r"[1..] == "";
  }

  /** One more character ends a line, belongs to the line ending before it, or stands for itself. */
  lemma NormalizeLast(p: string, c: char)
    ensures Normalize(p + [c]) ==
      if SplitsCrLf(p, [c]) then Normalize(p) else Normalize(p) + [if c == '\r' then '\n' else c]
  {
    if SplitsCrLf(p, [c]) {
      NormalizeKeepsCrLf(p);
    } else {
      NormalizeAppend(p, [c]);
      assert [c][1..] == "";
    }
  }

  /** Normalising piece by piece counts a split CR LF twice. */
  lemma NormalizeSplitCrLf(a: string, b: string)
    requires SplitsCrLf(a, b)
    ensures |Normalize(a)| + |Normalize(b)| == |Normalize(a + b)| + 1
  {
    var p, q := Init(a), b[1..];
    assert a == p + "\r" && b == "\n" + q && a + b == p + ("\r\n" + q);
    NormalizeAppend(p, "\r\n" + q);
    NormalizeAppend(p, "\r");
    assert ("\r\n" + q)[2..] == q && "\r"[1..] == "";
  }

  function NormalizeEach(chunks: seq<string>): string {
    if chunks == [] then "" else NormalizeEach(Init(chunks)) + Normalize(Last(chunks))
  }

  /** No chunk boundary falls between a CR and its LF. */
  predicate CutsKeepCrLf(chunks: seq<string>) {
    chunks == [] || (CutsKeepCrLf(Init(chunks)) && !SplitsCrLf(Concat(Init(chunks)), Last(chunks)))
  }

  /** The reader's text is the normalised stream exactly when no cut splits a CR LF. */
  lemma {:induction false} NormalizeEachIff(chunks: seq<string>)
    ensures NormalizeEach(chunks) == Normalize(Concat(chunks)) <==> CutsKeepCrLf(chunks)
    ensures |Normalize(Concat(chunks))| <= |NormalizeEach(chunks)|
    ensures !CutsKeepCrLf(chunks) ==> |Normalize(Concat(chunks))| < |NormalizeEach(chunks)|
  {
    if chunks != [] {
      NormalizeEachIff(Init(chunks));
      if SplitsCrLf(Concat(Init(chunks)), Last(chunks)) {
        NormalizeSplitCrLf(Concat(Init(chunks)), Last(chunks));
      } else {
        NormalizeAppend(Concat(Init(chunks)), Last(chunks));
      }
    }
  }

  lemma {:induction false} LfOnlyCuts(chunks: seq<string>)
    requires '\r' !in Concat(chunks)
    ensures CutsKeepCrLf(chunks)
  {
    if chunks != [] {
      LfOnlyCuts(Init(chunks));
    }
  }

  // ---- blocks ---------------------------------------------------------------------------

  /** The pieces between blank lines, leftmost first; the last piece is not finished. */
  function SplitBlocks(s: string): (pieces: seq<string>)
    ensures pieces != []
  {
    if |s| < 2 then [s]
    else if s[0] == '\n' && s[1] == '\n' then [""] + SplitBlocks(s[2..])
    else Prepend(s[0], SplitBlocks(s[1..]))
  }

  lemma {:induction false} SingleBlock(s: string)
    ensures |SplitBlocks(s)| == 1 ==> SplitBlocks(s) == [s]
  {
    if |s| >= 2 && !(s[0] == '\n' && s[1] == '\n') {
      SingleBlock(s[1..]);
      assert [s[0]] + s[1..] == s;
    }
  }

  lemma PrependAppend(c: char, pieces: seq<string>, more: seq<string>)
    requires |pieces| > 1
    ensures Prepend(c, Init(pieces) + more) == Init(Prepend(c, pieces)) + more
    ensures Last(Prepend(c, pieces)) == Last(pieces)
  {
  }

  lemma EmptyPieceAppend(pieces: seq<string>, more: seq<string>)
    requires pieces != []
    ensures [""] + (Init(pieces) + more) == Init([""] + pieces) + more
    ensures Last([""] + pieces) == Last(pieces)
  {
  }

  /** Splitting can stop anywhere and go on later from the unfinished piece. */
  lemma {:induction false} SplitResumes(s: string, t: string)
    ensures SplitBlocks(s + t) == Init(SplitBlocks(s)) + SplitBlocks(Last(SplitBlocks(s)) + t)
  {
    if |SplitBlocks(s)| == 1 {
      SingleBlock(s);
    } else if s[0] == '\n' && s[1] == '\n' {
      var rest := SplitBlocks(s[2..]);
      assert (s + t)[2..] == s[2..] + t && SplitBlocks(s + t) == [""] + SplitBlocks(s[2..] + t);
      SplitResumes(s[2..], t);
      EmptyPieceAppend(rest, SplitBlocks(Last(rest) + t));
    } else {
      var rest := SplitBlocks(s[1..]);
      assert (s + t)[1..] == s[1..] + t && SplitBlocks(s + t) == Prepend(s[0], SplitBlocks(s[1..] + t));
      SplitResumes(s[1..], t);
      PrependAppend(s[0], rest, SplitBlocks(Last(rest) + t));
    }
  }

  lemma {:induction false} LastBlockIsWhole(s: string)
    ensures SplitBlocks(Last(SplitBlocks(s))) == [Last(SplitBlocks(s))]
  {
    if |SplitBlocks(s)| == 1 {
      SingleBlock(s);
    } else if s[0] == '\n' && s[1] == '\n' {
      LastBlockIsWhole(s[2..]);
    } else {
      LastBlockIsWhole(s[1..]);
    }
  }

  /** An unfinished piece is finished by the second of two line feeds. */
  lemma {:induction false} BlockGrows(r: string, c: char)
    requires SplitBlocks(r) == [r]
    ensures SplitBlocks(r + [c]) == if r != "" && Last(r) == '\n' && c == '\n' then [Init(r), ""] else [r + [c]]
  {
    if |r| >= 2 {
      var rest := r[1..];
      assert |SplitBlocks(rest)| == 1;
      SingleBlock(rest);
      BlockGrows(rest, c);
      BehindFirst(r[0], rest, c);
      assert r == [r[0]] + rest;
    } else if |r| == 1 {
      var s := r + [c];
      assert |s| == 2 && s[2..] == "" && s[1..] == [c] && Init(r) == "" && [r[0]] + [c] == s;
    }
  }

  lemma BehindFirst(first: char, rest: string, c: char)
    requires rest != "" && !(first == '\n' && rest[0] == '\n')
    ensures SplitBlocks([first] + rest + [c]) == Prepend(first, SplitBlocks(rest + [c]))
    ensures [first] + Init(rest) == Init([first] + rest) && [first] + (rest + [c]) == [first] + rest + [c]
    ensures Last([first] + rest) == Last(rest)
  {
    SplitBehind([first] + rest + [c], first, rest + [c]);
  }

  lemma SplitBehind(s: string, first: char, rest: string)
    requires |s| >= 2 && s[0] == first && s[1..] == rest && !(first == '\n' && rest[0] == '\n')
    ensures SplitBlocks(s) == Prepend(first, SplitBlocks(rest))
  {
  }

  // ---- lines ------------------------------------------------------------------------------

  /** The white-space class of JavaScript patterns. */
  predicate IsJsSpace(c: char) {
    (IsWhitespace(c) && c != '\U{85}') || c == '\U{FEFF}'
  }

  /** Which characters those are, one by one: tabs, line ends, spaces of all widths, and the byte order mark. */
  lemma JsSpaces(c: char)
    ensures IsJsSpace(c) <==> c in {
      '\U{9}', '\U{A}', '\U{B}', '\U{C}', '\U{D}', '\U{20}', '\U{A0}', '\U{1680}', '\U{2000}', '\U{2001}', '\U{2002}',
      '\U{2003}', '\U{2004}', '\U{2005}', '\U{2006}', '\U{2007}', '\U{2008}', '\U{2009}', '\U{200A}', '\U{2028}',
      '\U{2029}', '\U{202F}', '\U{205F}', '\U{3000}', '\U{FEFF}'}
  {
  }

  function SkipSpace(s: string): string {
    if s != "" && IsJsSpace(s[0]) then SkipSpace(s[1..]) else s
  }

  /** What follows the field name, without leading white space. */
  function FieldValue(line: string, name: string): string
    requires StartsWith(line, name)
  {
    SkipSpace(line[|name|..])
  }

  function DigitPrefix(s: string): (r: string)
    ensures AllDigits(r)
  {
    if s != "" && IsDigit(s[0]) then [s[0]] + DigitPrefix(s[1..]) else ""
  }

  /** `Number.parseInt(s, 10)`; None is NaN. */
  function ParseInt(s: string): Option<int> {
    var t := SkipSpace(s);
    var signed := t != "" && (t[0] == '-' || t[0] == '+');
    var digits := DigitPrefix(if signed then t[1..] else t);
    if digits == "" then None
    else Some(if signed && t[0] == '-' then 0 - ValueOf(digits) else ValueOf(digits))
  }

  /** What the lines of a block say, on top of the last event id and the retry delay so far. */
  datatype Parsed = Parsed(data: seq<string>, event: Option<string>, id: Option<string>, retry: int)

  function ParseLine(p: Parsed, line: string): Parsed {
    if StartsWith(line, "data:") then p.(data := p.data + [FieldValue(line, "data:")])
    else if StartsWith(line, "event:") then p.(event := Some(FieldValue(line, "event:")))
    else if StartsWith(line, "id:") then p.(id := Some(FieldValue(line, "id:")))
    else if StartsWith(line, "retry:") then
      var n := ParseInt(FieldValue(line, "retry:"));
      if n.Some? then p.(retry := n.value) else p
    else p
  }

  function ParseLines(lines: seq<string>, id: Option<string>, retry: int): Parsed {
    if lines == [] then Parsed([], None, id, retry) else ParseLine(ParseLines(Init(lines), id, retry), Last(lines))
  }

  /** One call of the event handler; `data` is the joined data of a block that has any. */
  datatype Event = Event(data: Option<string>, event: Option<string>, id: Option<string>, retry: int)

  function EventOf(p: Parsed): Event {
    Event(if p.data == [] then None else Some(Join(p.data, "\n")), p.event, p.id, p.retry)
  }

  /** What a reader keeps from one event to the next, and the events so far. */
  datatype Stream = Stream(id: Option<string>, retry: int, events: seq<Event>)

  function Dispatch(st: Stream, lines: seq<string>): Stream {
    var p := ParseLines(lines, st.id, st.retry);
    Stream(p.id, p.retry, st.events + [EventOf(p)])
  }

  function DispatchAll(st: Stream, blocks: seq<string>): Stream {
    if blocks == [] then st else Dispatch(DispatchAll(st, Init(blocks)), Split(Last(blocks), '\n'))
  }

  // ---- the reader ----------------------------------------------------------------------------

  /** The reader's text and stream after one more chunk. */
  function Feed(buffer: string, st: Stream, value: string): (string, Stream) {
    var pieces := SplitBlocks(Normalize(buffer + value));
    (Last(pieces), DispatchAll(st, Init(pieces)))
  }

  class Reader {
    var buffer: string
    var lastEventId: Option<string>
    var retryDelay: int
    var events: seq<Event>

    function State(): Stream
      reads this
    {
      Stream(lastEventId, retryDelay, events)
    }

    constructor (lastEventId: Option<string>, retryDelay: int)
      ensures buffer == "" && State() == Stream(lastEventId, retryDelay, [])
    {
      buffer, events := "", [];
      this.lastEventId, this.retryDelay := lastEventId, retryDelay;
    }

    method Read(value: string)
      modifies this
      ensures (buffer, State()) == Feed(old(buffer), old(State()), value)
    {
      ghost var st := State();
      buffer := Normalize(buffer + value);
      var chunks := SplitBlocks(buffer);
      buffer := Last(chunks);
      chunks := Init(chunks);
      for i := 0 to |chunks|
        invariant buffer == Feed(old(buffer), st, value).0
        invariant State() == DispatchAll(st, chunks[..i])
      {
        assert Init(chunks[..i + 1]) == chunks[..i];
        ghost var before := State();
        var lines := Split(chunks[i], '\n');
        var dataLines: seq<string>, eventName := [], None;
        for j := 0 to |lines|
          invariant buffer == Feed(old(buffer), st, value).0 && events == before.events
          invariant ParseLines(lines[..j], before.id, before.retry) ==
            Parsed(dataLines, eventName, lastEventId, retryDelay)
        {
          assert Init(lines[..j + 1]) == lines[..j];
          var line := lines[j];
          if StartsWith(line, "data:") {
            dataLines := dataLines + [FieldValue(line, "data:")];
          } else if StartsWith(line, "event:") {
            eventName := Some(FieldValue(line, "event:"));
          } else if StartsWith(line, "id:") {
            lastEventId := Some(FieldValue(line, "id:"));
          } else if StartsWith(line, "retry:") {
            var parsed := ParseInt(FieldValue(line, "retry:"));
            if parsed.Some? {
              retryDelay := parsed.value;
            }
          }
        }
        assert lines[..|lines|] == lines;
        var data := None;
        if dataLines != [] {
          data := Some(Join(dataLines, "\n"));
        }
        events := events + [Event(data, eventName, lastEventId, retryDelay)];
      }
      assert chunks[..|chunks|] == chunks;
    }
  }

  function FeedAll(st: Stream, chunks: seq<string>): (string, Stream) {
    if chunks == [] then ("", st)
    else
      var (buffer, before) := FeedAll(st, Init(chunks));
      Feed(buffer, before, Last(chunks))
  }

  lemma {:induction false} DispatchAllAppend(st: Stream, a: seq<string>, b: seq<string>)
    ensures DispatchAll(st, a + b) == DispatchAll(DispatchAll(st, a), b)
  {
    if b == [] {
      assert a + b == a;
    } else {
      assert Init(a + b) == a + Init(b) && Last(a + b) == Last(b);
      DispatchAllAppend(st, a, Init(b));
    }
  }

  lemma LastBlockHasNoCr(s: string)
    requires '\r' !in s
    ensures '\r' !in Last(SplitBlocks(s))
    decreases |s|
  {
    if |s| >= 2 {
      if s[0] == '\n' && s[1] == '\n' {
        LastBlockHasNoCr(s[2..]);
      } else {
        LastBlockHasNoCr(s[1..]);
      }
    }
  }

  /** Reading in chunks equals cutting the whole text once, whatever the chunks are. */
  lemma {:induction false} ChunksEqualWhole(st: Stream, chunks: seq<string>)
    ensures var pieces := SplitBlocks(NormalizeEach(chunks));
      FeedAll(st, chunks) == (Last(pieces), DispatchAll(st, Init(pieces)))
  {
    if chunks != [] {
      ChunksEqualWhole(st, Init(chunks));
      var text, value := NormalizeEach(Init(chunks)), Last(chunks);
      var pieces := SplitBlocks(text);
      var rest := SplitBlocks(Last(pieces) + Normalize(value));
      NormalizeEachHasNoCr(Init(chunks));
      LastBlockHasNoCr(text);
      NormalizeNoCr(Last(pieces));
      NormalizeAppend(Last(pieces), value);
      SplitResumes(text, Normalize(value));
      assert Init(Init(pieces) + rest) == Init(pieces) + Init(rest);
      DispatchAllAppend(st, Init(pieces), Init(rest));
    }
  }

  lemma {:induction false} NormalizeEachHasNoCr(chunks: seq<string>)
    ensures '\r' !in NormalizeEach(chunks)
  {
    if chunks != [] {
      NormalizeEachHasNoCr(Init(chunks));
      NormalizedHasNoCr(Last(chunks));
    }
  }

  /** How a stream is cut into chunks makes no difference, as long as no cut splits a CR LF. */
  lemma ChunkingIsIrrelevant(st: Stream, a: seq<string>, b: seq<string>)
    requires Concat(a) == Concat(b) && CutsKeepCrLf(a) && CutsKeepCrLf(b)
    ensures FeedAll(st, a) == FeedAll(st, b)
  {
    NormalizeEachIff(a);
    NormalizeEachIff(b);
    ChunksEqualWhole(st, a);
    ChunksEqualWhole(st, b);
  }

  lemma LfOnlyChunkingIsIrrelevant(st: Stream, a: seq<string>, b: seq<string>)
    requires Concat(a) == Concat(b) && '\r' !in Concat(a)
    ensures FeedAll(st, a) == FeedAll(st, b)
  {
    LfOnlyCuts(a);
    LfOnlyCuts(b);
    ChunkingIsIrrelevant(st, a, b);
  }

  // ---- the reference: one character at a time ------------------------------------------------

  /** The finished groups of lines, the current group, the current line, and whether a CR just ended a line. */
  datatype Scanner = Scanner(groups: seq<seq<string>>, lines: seq<string>, line: string, afterCr: bool)

  /** A blank line ends the group. */
  function EndLine(m: Scanner): Scanner {
    if m.line == "" then m.(groups := m.groups + [m.lines], lines := [])
    else m.(lines := m.lines + [m.line], line := "")
  }

  function ScanChar(m: Scanner, c: char): Scanner {
    if c == '\n' && m.afterCr then m.(afterCr := false)
    else if c == '\n' || c == '\r' then EndLine(m).(afterCr := c == '\r')
    else m.(line := m.line + [c], afterCr := false)
  }

  function Scan(s: string): (m: Scanner)
    ensures m.afterCr <==> s != "" && Last(s) == '\r'
  {
    if s == "" then Scanner([], [], "", false) else ScanChar(Scan(Init(s)), Last(s))
  }

  function NonEmpty(lines: seq<string>): seq<string> {
    if lines == [] then []
    else if Last(lines) == "" then NonEmpty(Init(lines))
    else NonEmpty(Init(lines)) + [Last(lines)]
  }

  /** The groups that have a line. */
  function Filled(groups: seq<seq<string>>): seq<seq<string>> {
    if groups == [] then []
    else if Last(groups) == [] then Filled(Init(groups))
    else Filled(Init(groups)) + [Last(groups)]
  }

  /** The non-empty lines of each block. */
  function BlockLines(blocks: seq<string>): seq<seq<string>> {
    if blocks == [] then [] else BlockLines(Init(blocks)) + [NonEmpty(Split(Last(blocks), '\n'))]
  }

  lemma NonEmptyGrows(lines: seq<string>, line: string)
    ensures NonEmpty(lines + [line]) == if line == "" then NonEmpty(lines) else NonEmpty(lines) + [line]
  {
    assert Init(lines + [line]) == lines;
  }

  lemma FilledGrows(groups: seq<seq<string>>, group: seq<string>)
    ensures Filled(groups + [group]) == if group == [] then Filled(groups) else Filled(groups) + [group]
  {
    assert Init(groups + [group]) == groups;
  }

  /** The scanner's state, read off the blocks and the unfinished piece. */
  ghost predicate Agrees(m: Scanner, finished: seq<string>, piece: string) {
    var lines := Split(piece, '\n');
    && Filled(m.groups) == Filled(BlockLines(finished))
    && m.lines == NonEmpty(Init(lines))
    && m.line == Last(lines)
    && !m.afterCr
  }

  /** A line feed after a line feed finishes the block and the group. */
  lemma AgreesOnBlank(m: Scanner, finished: seq<string>, piece: string)
    requires Agrees(m, finished, piece) && piece != "" && Last(piece) == '\n'
    ensures Agrees(ScanChar(m, '\n'), finished + [Init(piece)], "")
  {
    var block := Init(piece);
    assert piece == block + ['\n'];
    SplitGrows(block, '\n', '\n');
    var lines := Split(block, '\n');
    assert Init(lines + [""]) == lines;
    assert Init(finished + [block]) == finished;
    FilledGrows(m.groups, m.lines);
    FilledGrows(BlockLines(finished), NonEmpty(lines));
  }

  /** Any other line feed ends a line, or is the first character of a piece. */
  lemma AgreesOnEnd(m: Scanner, finished: seq<string>, piece: string)
    requires Agrees(m, finished, piece) && (piece == "" || Last(piece) != '\n')
    ensures Agrees(ScanChar(m, '\n'), finished, piece + ['\n'])
  {
    var lines := Split(piece, '\n');
    LastLine(piece);
    SplitGrows(piece, '\n', '\n');
    assert Init(lines + [""]) == lines && lines == Init(lines) + [Last(lines)];
    NonEmptyGrows(Init(lines), Last(lines));
    FilledGrows(m.groups, m.lines);
  }

  lemma LastLine(piece: string)
    requires piece == "" || Last(piece) != '\n'
    ensures Last(Split(piece, '\n')) == "" <==> piece == ""
    ensures piece == "" ==> Init(Split(piece, '\n')) == []
  {
    if piece != "" {
      assert piece == Init(piece) + [Last(piece)];
      SplitGrows(Init(piece), Last(piece), '\n');
    }
  }

  lemma AgreesOnText(m: Scanner, finished: seq<string>, piece: string, c: char)
    requires Agrees(m, finished, piece) && c != '\n' && c != '\r'
    ensures Agrees(ScanChar(m, c), finished, piece + [c])
  {
    var lines := Split(piece, '\n');
    SplitGrows(piece, c, '\n');
    assert Init(GrowLast(lines, c)) == Init(lines);
  }

  /** Cutting at blank lines and scanning by character find the same groups of lines. */
  lemma {:induction false} ScanFindsTheBlocks(s: string)
    requires '\r' !in s
    ensures Agrees(Scan(s), Init(SplitBlocks(s)), Last(SplitBlocks(s)))
  {
    if s == "" {
      assert SplitBlocks("") == [""] && Init([""]) == [] && Init(Split("", '\n')) == [];
    } else {
      var p, c := Init(s), Last(s);
      assert s == p + [c] && c in s;
      ScanFindsTheBlocks(p);
      var pieces := SplitBlocks(p);
      var piece := Last(pieces);
      SplitResumes(p, [c]);
      LastBlockIsWhole(p);
      BlockGrows(piece, c);
      if piece != "" && Last(piece) == '\n' && c == '\n' {
        var all := Init(pieces) + [Init(piece), ""];
        assert Init(all) == Init(pieces) + [Init(piece)] && Last(all) == "";
        AgreesOnBlank(Scan(p), Init(pieces), piece);
      } else {
        var all := Init(pieces) + [piece + [c]];
        assert Init(all) == Init(pieces) && Last(all) == piece + [c];
        if c == '\n' {
          AgreesOnEnd(Scan(p), Init(pieces), piece);
        } else {
          AgreesOnText(Scan(p), Init(pieces), piece, c);
        }
      }
    }
  }

  // ---- what is delivered -----------------------------------------------------------------------

  function DispatchGroups(st: Stream, groups: seq<seq<string>>): Stream {
    if groups == [] then st else Dispatch(DispatchGroups(st, Init(groups)), Last(groups))
  }

  /** The events that carry data: the ones yielded to the caller. */
  function Yielded(events: seq<Event>): seq<Event> {
    if events == [] then []
    else if Last(events).data.None? then Yielded(Init(events))
    else Yielded(Init(events)) + [Last(events)]
  }

  /**
   The same yielded events, last event id and retry delay. The event callback is also called for blocks
   without data; those calls are not compared.
   */
  ghost predicate SameToCaller(a: Stream, b: Stream) {
    a.id == b.id && a.retry == b.retry && Yielded(a.events) == Yielded(b.events)
  }

  lemma {:induction false} EmptyLinesSayNothing(lines: seq<string>, id: Option<string>, retry: int)
    ensures ParseLines(lines, id, retry) == ParseLines(NonEmpty(lines), id, retry)
  {
    if lines != [] {
      EmptyLinesSayNothing(Init(lines), id, retry);
      if Last(lines) != "" {
        assert Init(NonEmpty(lines)) == NonEmpty(Init(lines));
      }
    }
  }

  lemma DispatchSame(a: Stream, b: Stream, lines: seq<string>)
    requires SameToCaller(a, b)
    ensures SameToCaller(Dispatch(a, lines), Dispatch(b, NonEmpty(lines)))
    ensures NonEmpty(lines) == [] ==> SameToCaller(Dispatch(a, lines), b)
  {
    EmptyLinesSayNothing(lines, a.id, a.retry);
    var e := EventOf(ParseLines(lines, a.id, a.retry));
    assert Init(a.events + [e]) == a.events && Init(b.events + [e]) == b.events;
  }

  lemma {:induction false} BlocksSayWhatTheirLinesSay(st: Stream, blocks: seq<string>)
    ensures SameToCaller(DispatchAll(st, blocks), DispatchGroups(st, Filled(BlockLines(blocks))))
  {
    if blocks != [] {
      var before, lines := BlockLines(Init(blocks)), Split(Last(blocks), '\n');
      BlocksSayWhatTheirLinesSay(st, Init(blocks));
      FilledGrows(before, NonEmpty(lines));
      DispatchSame(DispatchAll(st, Init(blocks)), DispatchGroups(st, Filled(before)), lines);
      if NonEmpty(lines) != [] {
        assert Init(Filled(before) + [NonEmpty(lines)]) == Filled(before);
      }
    }
  }

  lemma {:induction false} EmptyGroupsSayNothing(st: Stream, groups: seq<seq<string>>)
    requires forall g :: g in groups ==> NonEmpty(g) == g
    ensures SameToCaller(DispatchGroups(st, groups), DispatchGroups(st, Filled(groups)))
  {
    if groups != [] {
      assert groups == Init(groups) + [Last(groups)];
      EmptyGroupsSayNothing(st, Init(groups));
      assert Last(groups) in groups;
      DispatchSame(DispatchGroups(st, Init(groups)), DispatchGroups(st, Filled(Init(groups))), Last(groups));
      if Last(groups) != [] {
        assert Init(Filled(groups)) == Filled(Init(groups));
      }
    }
  }

  ghost predicate NoEmptyLine(m: Scanner) {
    NonEmpty(m.lines) == m.lines && forall g :: g in m.groups ==> NonEmpty(g) == g
  }

  lemma ScanCharKeepsNonEmpty(m: Scanner, c: char)
    requires NoEmptyLine(m)
    ensures NoEmptyLine(ScanChar(m, c))
  {
    NonEmptyGrows(m.lines, m.line);
  }

  lemma {:induction false} ScannedLinesAreNotEmpty(s: string)
    ensures NoEmptyLine(Scan(s))
  {
    if s != "" {
      ScannedLinesAreNotEmpty(Init(s));
      ScanCharKeepsNonEmpty(Scan(Init(s)), Last(s));
    }
  }

  /** The groups of lines in a text without CR, and what is dispatched for its blocks. */
  lemma BlocksAreGroups(st: Stream, text: string)
    requires '\r' !in text
    ensures Filled(BlockLines(Init(SplitBlocks(text)))) == Filled(Scan(text).groups)
    ensures SameToCaller(DispatchAll(st, Init(SplitBlocks(text))), DispatchGroups(st, Filled(Scan(text).groups)))
  {
    ScanFindsTheBlocks(text);
    BlocksSayWhatTheirLinesSay(st, Init(SplitBlocks(text)));
  }

  lemma GroupsWithoutEmpty(st: Stream, s: string)
    ensures SameToCaller(DispatchGroups(st, Scan(s).groups), DispatchGroups(st, Filled(Scan(s).groups)))
  {
    ScannedLinesAreNotEmpty(s);
    EmptyGroupsSayNothing(st, Scan(s).groups);
  }

  // ---- where the reader departs from the standard -------------------------------------------------

  /** A text without line feeds in front changes only the first piece. */
  lemma {:induction false} PiecesBehind(line: string, rest: string)
    requires '\n' !in line
    ensures |SplitBlocks(line + rest)| == |SplitBlocks(rest)|
  {
    if line == "" {
      assert line + rest == rest;
    } else {
      assert line[0] in line && line == [line[0]] + line[1..];
      assert (line + rest)[1..] == line[1..] + rest;
      PiecesBehind(line[1..], rest);
    }
  }

  lemma NormalizeBehind(line: string, rest: string)
    requires '\r' !in line
    ensures Normalize(line + rest) == line + Normalize(rest)
  {
    NormalizeNoCr(line);
    NormalizeAppend(line, rest);
  }

  lemma {:induction false} DispatchCount(st: Stream, blocks: seq<string>)
    ensures |DispatchAll(st, blocks).events| == |st.events| + |blocks|
  {
    if blocks != [] {
      DispatchCount(st, Init(blocks));
    }
  }

  predicate PlainLine(s: string) {
    s != "" && '\n' !in s && '\r' !in s
  }

  lemma EndedLine(q: string, x: string)
    requires PlainLine(q) && x == q + "\n\n"
    ensures |SplitBlocks(x)| == 2 && |SplitBlocks("\n" + x)| == 2 && |SplitBlocks("\n" + ("\n" + x))| == 3
    ensures Normalize(x) == x
  {
    PiecesBehind(q, "\n\n");
    assert "\n\n"[2..] == "" && SplitBlocks("\n\n") == [""] + SplitBlocks("");
    assert x[0] == q[0] && q[0] in q && ("\n" + x)[1..] == x && ("\n" + ("\n" + x))[2..] == x;
    NormalizeNoCr(x);
  }

  /** For any two lines of one event: a chunk boundary inside the CR LF between them makes two events of it. */
  lemma SplitCrLfTearsAnEvent(st: Stream, p: string, q: string, x: string)
    requires PlainLine(p) && PlainLine(q) && x == q + "\n\n"
    ensures |FeedAll(st, [p + ("\r\n" + x)]).1.events| == |st.events| + 1
    ensures |FeedAll(st, [p + "\r", "\n" + x]).1.events| == |st.events| + 2
  {
    EndedLine(q, x);
    WholeText(p, x);
    TornText(p, x);
    OneChunk(st, p + ("\r\n" + x));
    TwoChunks(st, p + "\r", "\n" + x);
  }

  lemma WholeText(p: string, x: string)
    requires PlainLine(p) && Normalize(x) == x
    ensures |SplitBlocks(Normalize(p + ("\r\n" + x)))| == |SplitBlocks("\n" + x)|
  {
    NormalizeBehind(p, "\r\n" + x);
    assert ("\r\n" + x)[2..] == x;
    PiecesBehind(p, "\n" + x);
  }

  lemma TornText(p: string, x: string)
    requires PlainLine(p) && Normalize(x) == x
    ensures |SplitBlocks(Normalize(p + "\r") + Normalize("\n" + x))| == |SplitBlocks("\n" + ("\n" + x))|
  {
    var y := "\n" + x;
    assert Normalize(p + "\r") == p + "\n" by {
      NormalizeBehind(p, "\r");
      assert "\r"[1..] == "" && Normalize("\r") == "\n";
    }
    assert Normalize(y) == y by {
      NormalizeBehind("\n", x);
    }
    Regroup(p, "\n", y);
    PiecesBehind(p, "\n" + y);
  }

  lemma Regroup(a: string, b: string, c: string)
    ensures (a + b) + c == a + (b + c)
  {
  }

  lemma OneChunk(st: Stream, a: string)
    ensures |FeedAll(st, [a]).1.events| == |st.events| + |SplitBlocks(Normalize(a))| - 1
  {
    assert Init([a]) == [] && "" + Normalize(a) == Normalize(a);
    ChunksEqualWhole(st, [a]);
    DispatchCount(st, Init(SplitBlocks(Normalize(a))));
  }

  lemma TwoChunks(st: Stream, a: string, b: string)
    ensures |FeedAll(st, [a, b]).1.events| == |st.events| + |SplitBlocks(Normalize(a) + Normalize(b))| - 1
  {
    assert Init([a, b]) == [a] && Init([a]) == [] && "" + Normalize(a) == Normalize(a);
    assert NormalizeEach([a]) == Normalize(a) && NormalizeEach([a, b]) == Normalize(a) + Normalize(b);
    ChunksEqualWhole(st, [a, b]);
    DispatchCount(st, Init(SplitBlocks(Normalize(a) + Normalize(b))));
  }

  /** The value of a field by section 9.2.6 of the WHATWG HTML Living Standard: one leading space is dropped. */
  function StandardValue(rest: string): string {
    if rest != "" && rest[0] == ' ' then rest[1..] else rest
  }

  /** The reader's value of a field is the standard's exactly when no more white space leads it. */
  lemma FieldValueIff(rest: string)
    ensures SkipSpace(rest) == StandardValue(rest) <==> StandardValue(rest) == "" || !IsJsSpace(StandardValue(rest)[0])
  {
    var v := StandardValue(rest);
    SkipSpaceShortens(v);
    if rest != "" && rest[0] == ' ' {
      assert SkipSpace(rest) == SkipSpace(v);
    }
  }

  lemma {:induction false} SkipSpaceShortens(s: string)
    ensures |SkipSpace(s)| <= |s|
    ensures SkipSpace(s) == s <==> s == "" || !IsJsSpace(s[0])
  {
    if s != "" && IsJsSpace(s[0]) {
      SkipSpaceShortens(s[1..]);
    }
  }

  /** What one line that is not blank means by section 9.2.6: the field before the first colon, if there is one. */
  function StandardLine(p: Parsed, line: string): Parsed {
    var parts := SplitColon(line);
    var name := if parts.Some? then parts.value.0 else line;
    var value := if parts.Some? then StandardValue(parts.value.1) else "";
    if name == "data" then p.(data := p.data + [value])
    else if name == "event" then p.(event := Some(value))
    else if name == "id" then (if '\0' in value then p else p.(id := Some(value)))
    else if name == "retry" then (if value != "" && AllDigits(value) then p.(retry := ValueOf(value)) else p)
    else p
  }

  predicate SameValue(rest: string) {
    StandardValue(rest) == "" || !IsJsSpace(StandardValue(rest)[0])
  }

  /** White space up to position `k`, and from there a digit, or a sign and a digit. */
  predicate NumberAt(s: string, k: nat) {
    && k < |s| && (forall j :: 0 <= j < k ==> IsJsSpace(s[j]))
    && (IsDigit(s[k]) || ((s[k] == '-' || s[k] == '+') && k + 1 < |s| && IsDigit(s[k + 1])))
  }

  predicate StartsWithNumber(s: string) {
    exists k :: 0 <= k < |s| && NumberAt(s, k)
  }

  lemma {:induction false} SpacesSkipped(s: string, k: nat)
    requires k <= |s| && (forall j :: 0 <= j < k ==> IsJsSpace(s[j])) && (k < |s| ==> !IsJsSpace(s[k]))
    ensures SkipSpace(s) == s[k..]
  {
    if k > 0 {
      SpacesSkipped(s[1..], k - 1);
    }
  }

  lemma {:induction false} SkippedSpaces(s: string) returns (k: nat)
    ensures k <= |s| && (forall j :: 0 <= j < k ==> IsJsSpace(s[j])) && (k < |s| ==> !IsJsSpace(s[k]))
    ensures SkipSpace(s) == s[k..]
  {
    if s != "" && IsJsSpace(s[0]) {
      k := SkippedSpaces(s[1..]);
      k := k + 1;
    } else {
      k := 0;
    }
  }

  /** The reader finds a number exactly where one starts after white space, whatever follows its digits. */
  lemma ParseIntIff(rest: string)
    ensures ParseInt(SkipSpace(rest)).Some? <==> StartsWithNumber(rest)
  {
    var k := SkippedSpaces(rest);
    SkipSpaceShortens(rest[k..]);
    if ParseInt(SkipSpace(rest)).Some? {
      assert NumberAt(rest, k);
    }
    if n :| 0 <= n < |rest| && NumberAt(rest, n) {
      SpacesSkipped(rest, n);
      SkipSpaceShortens(rest[n..]);
    }
  }

  /**
   Where the reader follows the standard: a known field needs its colon, its value no second white space
   in front, an id no null character, and a retry digits only, unless no number starts there at all.
   */
  predicate FollowsStandard(line: string) {
    match SplitColon(line)
    case None => line != "data" && line != "event" && line != "id"
    case Some((name, rest)) =>
      var value := StandardValue(rest);
      if name == "data" || name == "event" then SameValue(rest)
      else if name == "id" then SameValue(rest) && '\0' !in value
      else if name == "retry" then (value != "" && AllDigits(value)) || !StartsWithNumber(rest)
      else true
  }

  lemma PrefixIsField(line: string, name: string)
    requires ':' !in name
    ensures StartsWith(line, name + ":") <==> SplitColon(line).Some? && SplitColon(line).value.0 == name
    ensures StartsWith(line, name + ":") ==> SplitColon(line).value.1 == line[|name| + 1..]
  {
    SplitColonParts(line);
    if StartsWith(line, name + ":") {
      assert line == name + ":" + line[|name| + 1..];
      SplitAtColon(name, line[|name| + 1..]);
    }
  }

  lemma {:induction false} DigitPrefixOfDigits(s: string)
    requires AllDigits(s)
    ensures DigitPrefix(s) == s
  {
    if s != "" {
      assert s == [s[0]] + s[1..] && s[0] in s;
      DigitPrefixOfDigits(s[1..]);
    }
  }

  /** A value of digits only is the same number to both. */
  lemma DigitsAreTheNumber(rest: string)
    requires StandardValue(rest) != "" && AllDigits(StandardValue(rest))
    ensures ParseInt(SkipSpace(rest)) == Some(ValueOf(StandardValue(rest)))
  {
    var v := StandardValue(rest);
    assert v[0] in v;
    FieldValueIff(rest);
    DigitsParse(v);
  }

  lemma DigitsParse(v: string)
    requires v != "" && AllDigits(v)
    ensures ParseInt(v) == Some(ValueOf(v))
  {
    assert v[0] in v;
    DigitIsNoSpace(v[0]);
    SkipSpaceShortens(v);
    DigitPrefixOfDigits(v);
  }

  lemma DigitIsNoSpace(c: char)
    requires IsDigit(c)
    ensures !IsJsSpace(c) && c != '-' && c != '+'
  {
  }

  /** What the reader makes of a line, read off its field. */
  lemma ReaderLine(p: Parsed, line: string)
    ensures ParseLine(p, line) ==
      match SplitColon(line)
      case None => p
      case Some((name, rest)) =>
        if name == "data" then p.(data := p.data + [SkipSpace(rest)])
        else if name == "event" then p.(event := Some(SkipSpace(rest)))
        else if name == "id" then p.(id := Some(SkipSpace(rest)))
        else if name == "retry" && ParseInt(SkipSpace(rest)).Some? then p.(retry := ParseInt(SkipSpace(rest)).value)
        else p
  {
    PrefixIsField(line, "data");
    PrefixIsField(line, "event");
    PrefixIsField(line, "id");
    PrefixIsField(line, "retry");
    assert "data" + ":" == "data:" && "event" + ":" == "event:" && "id" + ":" == "id:" && "retry" + ":" == "retry:";
  }

  /** A line means to the reader what it means by the standard, whatever came before, exactly if FollowsStandard. */
  lemma LineFollowsIff(line: string)
    ensures (forall p :: ParseLine(p, line) == StandardLine(p, line)) <==> FollowsStandard(line)
  {
    if FollowsStandard(line) {
      forall p ensures ParseLine(p, line) == StandardLine(p, line) {
        FollowingLine(p, line);
      }
    } else {
      var p := DepartingLine(line);
    }
  }

  lemma FollowingLine(p: Parsed, line: string)
    requires FollowsStandard(line)
    ensures ParseLine(p, line) == StandardLine(p, line)
  {
    ReaderLine(p, line);
    var parts := SplitColon(line);
    if parts.Some? {
      FieldValueIff(parts.value.1);
      ParseIntIff(parts.value.1);
      if StandardValue(parts.value.1) != "" && AllDigits(StandardValue(parts.value.1)) {
        DigitsAreTheNumber(parts.value.1);
      }
    }
  }

  lemma DepartingLine(line: string) returns (p: Parsed)
    requires !FollowsStandard(line)
    ensures ParseLine(p, line) != StandardLine(p, line)
  {
    p := Parsed([], None, None, 0);
    var parts := SplitColon(line);
    if parts.Some? {
      var rest := parts.value.1;
      FieldValueIff(rest);
      ParseIntIff(rest);
      if parts.value.0 == "retry" {
        p := p.(retry := ParseInt(SkipSpace(rest)).value + 1);
      } else if parts.value.0 == "data" {
        assert (p.data + [SkipSpace(rest)])[0] == SkipSpace(rest);
        assert (p.data + [StandardValue(rest)])[0] == StandardValue(rest);
      }
    } else if line == "data" {
      assert |StandardLine(p, line).data| == 1;
    }
    ReaderLine(p, line);
  }
}
