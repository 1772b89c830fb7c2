/** Text helpers with the semantics of Rust's `str::trim` and `str::split`. */
module Text {
  import opened Sequences

  /** Unicode White_Space. */
  predicate IsWhitespace(c: char) {
    || '\t' <= c <= '\r' || c == ' ' || c == '\U{85}' || c == '\U{A0}' || c == '\U{1680}'
    || '\U{2000}' <= c <= '\U{200A}' || c == '\U{2028}' || c == '\U{2029}' || c == '\U{202F}'
    || c == '\U{205F}' || c == '\U{3000}'
  }

  function TrimStart(s: string): string {
    if s != [] && IsWhitespace(s[0]) then TrimStart(s[1..]) else s
  }

  function TrimEnd(s: string): string {
    if s != [] && IsWhitespace(s[|s| - 1]) then TrimEnd(s[..|s| - 1]) else s
  }

  function Trim(s: string): string {
    TrimEnd(TrimStart(s))
  }

  lemma TrimOfNoSpace(s: string)
    requires forall c :: c in s ==> !IsWhitespace(c)
    ensures Trim(s) == s
  {
  }

  lemma {:induction false} TrimStartMeaning(s: string) returns (i: nat)
    ensures i <= |s| && TrimStart(s) == s[i..] && forall k :: 0 <= k < i ==> IsWhitespace(s[k])
    ensures i < |s| ==> !IsWhitespace(s[i])
  {
    if s != [] && IsWhitespace(s[0]) {
      i := TrimStartMeaning(s[1..]);
      i := i + 1;
    } else {
      i := 0;
    }
  }

  lemma {:induction false} TrimEndMeaning(s: string) returns (j: nat)
    ensures j <= |s| && TrimEnd(s) == s[..j] && forall k :: j <= k < |s| ==> IsWhitespace(s[k])
    ensures j > 0 ==> !IsWhitespace(s[j - 1])
  {
    if s != [] && IsWhitespace(s[|s| - 1]) {
      j := TrimEndMeaning(s[..|s| - 1]);
    } else {
      j := |s|;
    }
  }

  /** Trimming drops the white space at both ends and nothing else. */
  lemma TrimMeaning(s: string) returns (i: nat, j: nat)
    ensures i <= j <= |s| && Trim(s) == s[i..j]
    ensures forall k :: 0 <= k < i || j <= k < |s| ==> IsWhitespace(s[k])
    ensures i < j ==> !IsWhitespace(s[i]) && !IsWhitespace(s[j - 1])
  {
    i := TrimStartMeaning(s);
    var t := s[i..];
    var n := TrimEndMeaning(t);
    j := i + n;
    forall k | j <= k < |s| ensures IsWhitespace(s[k]) {
      assert t[k - i] == s[k];
    }
    assert n > 0 ==> t[n - 1] == s[j - 1];
  }

  lemma TrimEmptyIff(s: string)
    ensures Trim(s) == "" <==> forall c :: c in s ==> IsWhitespace(c)
  {
    var i, j := TrimMeaning(s);
    if i < j {
      assert s[i] in s;
    } else {
      forall k | 0 <= k < |s| ensures IsWhitespace(s[k]) {
      }
    }
  }

  predicate StartsWith(s: string, prefix: string) {
    prefix <= s
  }

  /** Puts a character in front of the first piece. */
  function Prepend(c: char, pieces: seq<string>): (r: seq<string>)
    requires pieces != []
    ensures |r| == |pieces|
  {
    [[c] + pieces[0]] + pieces[1..]
  }

  /** The pieces of `s` between occurrences of `separator`; always at least one. */
  function Split(s: string, separator: char): (pieces: seq<string>)
    ensures pieces != []
  {
    if s == [] then [""]
    else
      var rest := Split(s[1..], separator);
      if s[0] == separator then [""] + rest else Prepend(s[0], rest)
  }

  /** Puts a character behind the last piece. */
  function GrowLast(pieces: seq<string>, c: char): (r: seq<string>)
    requires pieces != []
    ensures |r| == |pieces|
  {
    Init(pieces) + [Last(pieces) + [c]]
  }

  lemma GrowLastOfPrepend(c: char, pieces: seq<string>, d: char)
    requires pieces != []
    ensures GrowLast(Prepend(c, pieces), d) == Prepend(c, GrowLast(pieces, d))
    ensures GrowLast([""] + pieces, d) == [""] + GrowLast(pieces, d)
    ensures Prepend(c, pieces) + [""] == Prepend(c, pieces + [""])
  {
    if |pieces| == 1 {
      assert ([c] + pieces[0]) + [d] == [c] + (pieces[0] + [d]);
    }
  }

  /** One more character ends the last piece or is appended to it. */
  lemma {:induction false} SplitGrows(s: string, c: char, separator: char)
    ensures Split(s + [c], separator) ==
      if c == separator then Split(s, separator) + [""] else GrowLast(Split(s, separator), c)
  {
    if s == "" {
      assert s + [c] == [c] && [c][1..] == "" && [c] + "" == [c];
      assert Split("", separator) == [""];
    } else {
      assert (s + [c])[1..] == s[1..] + [c];
      SplitGrows(s[1..], c, separator);
      GrowLastOfPrepend(s[0], Split(s[1..], separator), c);
    }
  }

  /** The text before and after the first colon, if there is one. */
  function SplitColon(s: string): Option<(string, string)> {
    if s == "" then None
    else if s[0] == ':' then Some(("", s[1..]))
    else
      var rest := SplitColon(s[1..]);
      if rest.None? then None else Some(([s[0]] + rest.value.0, rest.value.1))
  }

  lemma {:induction false} SplitAtColon(before: string, after: string)
    requires ':' !in before
    ensures SplitColon(before + ":" + after) == Some((before, after))
  {
    var s := before + ":" + after;
    if before == "" {
      assert s[1..] == after;
    } else {
      assert s[1..] == before[1..] + ":" + after;
      SplitAtColon(before[1..], after);
      assert before == [before[0]] + before[1..];
    }
  }

  lemma {:induction false} SplitColonParts(s: string)
    ensures SplitColon(s).Some? ==>
      ':' !in SplitColon(s).value.0 && s == SplitColon(s).value.0 + ":" + SplitColon(s).value.1
  {
    if s != "" && s[0] != ':' {
      SplitColonParts(s[1..]);
      assert s == [s[0]] + s[1..];
    }
  }

  function Join(pieces: seq<string>, separator: string): string {
    if pieces == [] then ""
    else if |pieces| == 1 then pieces[0]
    else pieces[0] + separator + Join(pieces[1..], separator)
  }

  lemma {:induction false} SplitPiece(piece: string, rest: string, separator: char)
    requires separator !in piece
    ensures Split(piece + [separator] + rest, separator) == [piece] + Split(rest, separator)
  {
    var s := piece + [separator] + rest;
    if piece == [] {
      assert s[1..] == rest;
    } else {
      assert s[1..] == piece[1..] + [separator] + rest;
      SplitPiece(piece[1..], rest, separator);
      assert [s[0]] + piece[1..] == piece;
    }
  }

  lemma {:induction false} SplitSingle(piece: string, separator: char)
    requires separator !in piece
    ensures Split(piece, separator) == [piece]
  {
    if piece != [] {
      SplitSingle(piece[1..], separator);
      assert [piece[0]] + piece[1..] == piece;
    }
  }

  /** Splitting undoes joining, for any non-empty list of pieces that avoid the separator. */
  lemma {:induction false} SplitJoin(pieces: seq<string>, separator: char)
    requires pieces != [] && forall p :: p in pieces ==> separator !in p
    ensures Split(Join(pieces, [separator]), separator) == pieces
  {
    if |pieces| == 1 {
      SplitSingle(pieces[0], separator);
    } else {
      assert forall p :: p in pieces[1..] ==> p in pieces;
      assert pieces == [pieces[0]] + pieces[1..];
      SplitJoin(pieces[1..], separator);
      SplitPiece(pieces[0], Join(pieces[1..], [separator]), separator);
    }
  }
}
