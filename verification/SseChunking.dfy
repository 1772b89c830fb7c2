/**
 What a chunk boundary between a CR and its LF does to the incremental reader: exactly which boundaries
 change the groups of lines it dispatches.
 */
module SseChunking {
  import opened Sequences
  import opened SseReader

  // ---- a reader that forgets a CR at each boundary ------------------------------------------------

  /** Where the chunks begin in the stream. */
  function Cuts(chunks: seq<string>): set<nat> {
    if chunks == [] then {} else Cuts(Init(chunks)) + {|Concat(Init(chunks))|}
  }

  function Forget(m: Scanner, forget: bool): Scanner {
    if forget then m.(afterCr := false) else m
  }

  /** The scanner of one character at a time, which does not know at a cut whether a CR came before. */
  function CutScan(s: string, cuts: set<nat>): Scanner {
    if s == "" then Scan("")
    else ScanChar(Forget(CutScan(Init(s), cuts), |s| - 1 in cuts), Last(s))
  }

  function ScanMore(m: Scanner, s: string): Scanner {
    if s == "" then m else ScanChar(ScanMore(m, Init(s)), Last(s))
  }

  lemma {:induction false} ScanAppend(s: string, t: string)
    ensures Scan(s + t) == ScanMore(Scan(s), t)
  {
    if t == "" {
      assert s + t == s;
    } else {
      assert Init(s + t) == s + Init(t) && Last(s + t) == Last(t);
      ScanAppend(s, Init(t));
    }
  }

  lemma {:induction false} MoreAfterCr(m: Scanner, s: string)
    requires !m.afterCr
    ensures ScanMore(m, s).afterCr <==> s != "" && Last(s) == '\r'
  {
    if s != "" {
      MoreAfterCr(m, Init(s));
    }
  }

  /** From any state that is not behind a CR, normalising makes no difference to the scanner. */
  lemma {:induction false} MoreNormalizes(m: Scanner, s: string)
    requires !m.afterCr
    ensures ScanMore(m, Normalize(s)) == Forget(ScanMore(m, s), true)
  {
    if s != "" {
      var p, c := Init(s), Last(s);
      assert s == p + [c];
      MoreNormalizes(m, p);
      MoreAfterCr(m, p);
      NormalizeLast(p, c);
      MoreThanNormalized(m, p, c);
    }
  }

  lemma MoreThanNormalized(m: Scanner, p: string, c: char)
    ensures var n := if c == '\r' then '\n' else c;
      ScanMore(m, Normalize(p) + [n]) == ScanChar(ScanMore(m, Normalize(p)), n)
  {
    var n := if c == '\r' then '\n' else c;
    assert Init(Normalize(p) + [n]) == Normalize(p);
  }

  lemma {:induction false} LaterCutsDoNotMatter(s: string, cuts: set<nat>, more: set<nat>)
    requires cuts <= more && forall n :: n in more && n < |s| ==> n in cuts
    ensures CutScan(s, more) == CutScan(s, cuts)
  {
    if s != "" {
      LaterCutsDoNotMatter(Init(s), cuts, more);
    }
  }

  /** Between two cuts the scanner goes on as if there were none. */
  lemma {:induction false} BetweenCuts(s: string, t: string, cuts: set<nat>)
    requires t != "" && |s| in cuts && forall n :: |s| < n < |s| + |t| ==> n !in cuts
    ensures CutScan(s + t, cuts) == ScanMore(Forget(CutScan(s, cuts), true), t)
  {
    assert Init(s + t) == s + Init(t) && Last(s + t) == Last(t);
    if |t| > 1 {
      BetweenCuts(s, Init(t), cuts);
    } else {
      assert s + Init(t) == s;
    }
  }

  lemma {:induction false} CutsBound(chunks: seq<string>)
    ensures forall n :: n in Cuts(chunks) ==> n <= |Concat(chunks)|
  {
    if chunks != [] {
      CutsBound(Init(chunks));
    }
  }

  /** Scanning what the reader reads is scanning the stream, forgetting a CR at each chunk boundary. */
  lemma {:induction false} ReaderForgets(chunks: seq<string>)
    ensures Scan(NormalizeEach(chunks)) == Forget(CutScan(Concat(chunks), Cuts(chunks)), true)
  {
    if chunks != [] {
      var s, t, cuts := Concat(Init(chunks)), Last(chunks), Cuts(chunks);
      ReaderForgets(Init(chunks));
      CutsBound(Init(chunks));
      LaterCutsDoNotMatter(s, Cuts(Init(chunks)), cuts);
      ScanAppend(NormalizeEach(Init(chunks)), Normalize(t));
      MoreNormalizes(Scan(NormalizeEach(Init(chunks))), t);
      if t == "" {
        assert s + t == s;
      } else {
        BetweenCuts(s, t, cuts);
      }
    }
  }

  // ---- when that changes the groups of lines ---------------------------------------------------------

  predicate EndsLine(c: char) {
    c == '\n' || c == '\r'
  }

  /** A cut at `n` lies inside a CR LF behind a line that is not blank, and no blank line follows. */
  predicate Tears(s: string, n: int) {
    && 2 <= n < |s| && s[n - 1] == '\r' && s[n] == '\n'
    && !EndsLine(s[n - 2]) && (n + 1 == |s| || !EndsLine(s[n + 1]))
  }

  ghost predicate TornBefore(s: string, cuts: set<nat>, m: int) {
    exists n :: n in cuts && n < m && Tears(s, n)
  }

  lemma TearsGrow(p: string, c: char, n: int)
    ensures n + 1 < |p| ==> (Tears(p + [c], n) <==> Tears(p, n))
    ensures n + 1 == |p| ==> (Tears(p + [c], n) <==> Tears(p, n) && !EndsLine(c))
    ensures n == |p| ==>
      (Tears(p + [c], n) <==> |p| >= 2 && Last(p) == '\r' && c == '\n' && !EndsLine(p[|p| - 2]))
  {
  }

  lemma TornBeforeGrows(p: string, c: char, cuts: set<nat>)
    ensures TornBefore(p + [c], cuts, |p|) <==>
      TornBefore(p, cuts, |p| - 1) || (|p| - 1 in cuts && Tears(p, |p| - 1) && !EndsLine(c))
  {
    if n :| n in cuts && n < |p| && Tears(p + [c], n) {
      TearsGrow(p, c, n);
    }
    if n :| n in cuts && n < |p| - 1 && Tears(p, n) {
      TearsGrow(p, c, n);
    }
    if |p| - 1 in cuts && Tears(p, |p| - 1) && !EndsLine(c) {
      TearsGrow(p, c, |p| - 1);
    }
  }

  /** How the reader's groups stand to those of the stream, once `s` has been read. */
  datatype Verdict = Together | Ahead | Apart

  ghost function VerdictOf(s: string, cuts: set<nat>): Verdict {
    if TornBefore(s, cuts, |s| - 1) then Apart
    else if |s| - 1 in cuts && Tears(s, |s| - 1) then Ahead
    else Together
  }

  function NextVerdict(v: Verdict, c: char, tears: bool): Verdict {
    match v
    case Together => if tears then Ahead else Together
    case Ahead => if EndsLine(c) then Together else Apart
    case Apart => Apart
  }

  lemma VerdictGrows(p: string, c: char, cuts: set<nat>)
    ensures VerdictOf(p + [c], cuts) == NextVerdict(VerdictOf(p, cuts), c, |p| in cuts && Tears(p + [c], |p|))
  {
    TornBeforeGrows(p, c, cuts);
    TearsGrow(p, c, |p| - 1);
  }

  lemma VerdictIff(s: string, cuts: set<nat>)
    ensures VerdictOf(s, cuts) == Together <==> forall n :: n in cuts ==> !Tears(s, n)
  {
    if n :| n in cuts && Tears(s, n) {
      assert n < |s| - 1 ==> TornBefore(s, cuts, |s| - 1);
    }
  }

  /** A line has been begun exactly if the last character did not end one. */
  lemma {:induction false} LineIsOpen(s: string)
    ensures Scan(s).line != "" <==> s != "" && !EndsLine(Last(s))
  {
    if s != "" {
      LineIsOpen(Init(s));
    }
  }

  /** A line feed behind a CR, on its own, finishes a group that has lines exactly if a cut there tears. */
  lemma BehindCr(p: string, c: char)
    ensures Scan(p).afterCr ==> Scan(p).line == ""
    ensures Tears(p + [c], |p|) <==> c == '\n' && Scan(p).afterCr && Scan(p).lines != []
  {
    if Scan(p).afterCr {
      LineIsOpen(Init(p));
    }
  }

  /** Group `k` of the first scanner is not group `k` of the other, nor will it ever be. */
  ghost predicate Differ(t: Scanner, w: Scanner, k: nat) {
    var f, g := Filled(t.groups), Filled(w.groups);
    && k < |f| && k <= |g|
    && (k < |g| ==> g[k] != f[k])
    && (k == |g| ==> |w.lines| > |f[k]| || (w.lines == f[k] && w.line != ""))
  }

  /** The same lines so far; or a group finished that is still open for the other; or different groups. */
  ghost predicate Stand(v: Verdict, t: Scanner, w: Scanner, k: nat) {
    match v
    case Together => Filled(t.groups) == Filled(w.groups) && t.lines == w.lines && t.line == w.line
    case Ahead =>
      && t.line == "" && w.line == "" && t.lines == [] && w.lines != []
      && Filled(t.groups) == Filled(w.groups) + [w.lines]
    case Apart => Differ(t, w, k)
  }

  lemma StandDecides(v: Verdict, t: Scanner, w: Scanner, k: nat)
    requires Stand(v, t, w, k)
    ensures Filled(t.groups) == Filled(w.groups) <==> v == Together
  {
    assert v == Ahead ==> |Filled(t.groups)| == |Filled(w.groups)| + 1;
  }

  lemma EndTogether(t: Scanner, w: Scanner, t': Scanner, w': Scanner)
    requires Stand(Together, t, w, 0) && t' == EndLine(t) && w' == EndLine(w)
    ensures Stand(Together, t', w', 0)
    ensures w.line == "" ==> Stand(if w.lines == [] then Together else Ahead, t', w, 0)
  {
    FilledGrows(t.groups, t.lines);
    FilledGrows(w.groups, w.lines);
  }

  lemma EndAhead(t: Scanner, w: Scanner, t': Scanner, w': Scanner)
    requires Stand(Ahead, t, w, 0) && t' == EndLine(t) && w' == EndLine(w)
    ensures Stand(Together, t', w', 0)
  {
    FilledGrows(t.groups, []);
    FilledGrows(w.groups, w.lines);
  }

  lemma TextAhead(t: Scanner, w: Scanner, t': Scanner, w': Scanner, c: char)
    requires Stand(Ahead, t, w, 0) && t' == t.(line := [c]) && w' == w.(line := [c])
    ensures Stand(Apart, t', w', |Filled(w.groups)|)
  {
  }

  lemma EndApart(t: Scanner, w: Scanner, t': Scanner, w': Scanner, k: nat)
    requires Stand(Apart, t, w, k) && t' == EndLine(t) && w' == EndLine(w)
    ensures Stand(Apart, t', w, k) && Stand(Apart, t, w', k) && Stand(Apart, t', w', k)
  {
    FilledGrows(t.groups, t.lines);
    FilledGrows(w.groups, w.lines);
  }

  /** The verdict does not depend on what is remembered of a CR. */
  lemma StandForgets(v: Verdict, t: Scanner, w: Scanner, t': Scanner, w': Scanner, k: nat)
    requires Stand(v, t, w, k) && t' == t.(afterCr := t'.afterCr) && w' == w.(afterCr := w'.afterCr)
    ensures Stand(v, t', w', k)
  {
  }

  lemma StepTogether(t: Scanner, w: Scanner, t': Scanner, w': Scanner, c: char)
    requires Stand(Together, t, w, 0) && t' == ScanChar(t, c) && w' == ScanChar(w, c)
    requires (t.afterCr ==> w.afterCr) && (w.afterCr ==> w.line == "")
    ensures Stand(if c == '\n' && w.afterCr && !t.afterCr && w.lines != [] then Ahead else Together, t', w', 0)
  {
    if EndsLine(c) {
      var v := if w.lines == [] then Together else Ahead;
      EndTogether(t, w, EndLine(t), EndLine(w));
      if c == '\n' && w.afterCr {
        if t.afterCr {
          StandForgets(Together, t, w, t', w', 0);
        } else {
          StandForgets(v, EndLine(t), w, t', w', 0);
        }
      } else {
        StandForgets(Together, EndLine(t), EndLine(w), t', w', 0);
      }
    }
  }

  /** Behind a cut inside a CR LF neither scanner is behind a CR. */
  lemma StepAhead(t: Scanner, w: Scanner, t': Scanner, w': Scanner, c: char) returns (k: nat)
    requires Stand(Ahead, t, w, 0) && t' == ScanChar(t, c) && w' == ScanChar(w, c) && !t.afterCr && !w.afterCr
    ensures Stand(NextVerdict(Ahead, c, false), t', w', k)
  {
    if EndsLine(c) {
      k := 0;
      EndAhead(t, w, EndLine(t), EndLine(w));
      StandForgets(Together, EndLine(t), EndLine(w), t', w', 0);
    } else {
      k := |Filled(w.groups)|;
      TextAhead(t, w, t', w', c);
    }
  }

  lemma StepApart(t: Scanner, w: Scanner, t': Scanner, w': Scanner, k: nat, c: char)
    requires Stand(Apart, t, w, k) && t' == ScanChar(t, c) && w' == ScanChar(w, c)
    ensures Stand(Apart, t', w', k)
  {
    if EndsLine(c) {
      EndApart(t, w, EndLine(t), EndLine(w), k);
    }
  }

  /** One more character, for the scanner that may have forgotten a CR and for the one that never does. */
  lemma StandStep(p: string, c: char, v: Verdict, cut: bool, t: Scanner, t': Scanner, k: nat) returns (k': nat)
    requires Stand(v, t, Scan(p), k) && t.afterCr == Scan(p).afterCr && t' == ScanChar(Forget(t, cut), c)
    requires v == Ahead ==> p != "" && Last(p) == '\n'
    ensures Stand(NextVerdict(v, c, cut && Tears(p + [c], |p|)), t', ScanChar(Scan(p), c), k')
  {
    k' := k;
    BehindCr(p, c);
    var w := Scan(p);
    StandForgets(v, t, w, Forget(t, cut), w, k);
    match v {
      case Together =>
        StepTogether(Forget(t, cut), w, t', ScanChar(w, c), c);
      case Ahead => k' := StepAhead(Forget(t, cut), w, t', ScanChar(w, c), c);
      case Apart => StepApart(Forget(t, cut), w, t', ScanChar(w, c), k, c);
    }
  }

  lemma {:induction false} Compare(s: string, cuts: set<nat>) returns (k: nat)
    ensures Stand(VerdictOf(s, cuts), CutScan(s, cuts), Scan(s), k)
    ensures CutScan(s, cuts).afterCr == Scan(s).afterCr
  {
    if s == "" {
      k := 0;
    } else {
      var p, c := Init(s), Last(s);
      assert s == p + [c];
      k := Compare(p, cuts);
      VerdictGrows(p, c, cuts);
      k := StandStep(p, c, VerdictOf(p, cuts), |p| in cuts, CutScan(p, cuts), CutScan(s, cuts), k);
    }
  }

  /** The reader finds the groups of lines of the stream exactly if no chunk boundary tears one. */
  lemma GroupsAgreeIff(chunks: seq<string>)
    ensures Filled(BlockLines(Init(SplitBlocks(NormalizeEach(chunks))))) == Filled(Scan(Concat(chunks)).groups)
      <==> forall n :: n in Cuts(chunks) ==> !Tears(Concat(chunks), n)
  {
    var s, cuts := Concat(chunks), Cuts(chunks);
    ReaderForgets(chunks);
    NormalizeEachHasNoCr(chunks);
    BlocksAreGroups(Stream(None, 0, []), NormalizeEach(chunks));
    var k := Compare(s, cuts);
    StandDecides(VerdictOf(s, cuts), CutScan(s, cuts), Scan(s), k);
    VerdictIff(s, cuts);
  }

  /**
   However a stream is chunked, as long as no boundary tears a group of lines, the reader yields what a
   reader yields that goes through the stream once, character by character, and dispatches at every blank
   line; and it remembers the same last event id and retry delay.
   */
  lemma ReaderEqualsLineReader(st: Stream, chunks: seq<string>)
    requires forall n :: n in Cuts(chunks) ==> !Tears(Concat(chunks), n)
    ensures SameToCaller(FeedAll(st, chunks).1, DispatchGroups(st, Scan(Concat(chunks)).groups))
  {
    GroupsAgreeIff(chunks);
    ChunksEqualWhole(st, chunks);
    NormalizeEachHasNoCr(chunks);
    BlocksAreGroups(st, NormalizeEach(chunks));
    GroupsWithoutEmpty(st, Concat(chunks));
  }

  /** A boundary that keeps every CR LF together tears nothing. */
  lemma {:induction false} KeptCrLfTearsNothing(chunks: seq<string>, n: nat)
    requires CutsKeepCrLf(chunks) && n in Cuts(chunks)
    ensures !Tears(Concat(chunks), n)
  {
    var p := Concat(Init(chunks));
    CutsBound(Init(chunks));
    if n < |p| && n in Cuts(Init(chunks)) {
      KeptCrLfTearsNothing(Init(chunks), n);
      assert Concat(chunks)[n] == p[n];
    }
  }
}
