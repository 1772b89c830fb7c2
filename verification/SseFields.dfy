/** What one block of lines says to the event reader: its fields, one by one, and the event made of them. */
module SseFields {
  import opened Integers
  import opened Sequences
  import opened Text
  import opened SseReader

  /** What the lines that start with `field` say after it, in order, without white space in front. */
  function Values(lines: seq<string>, field: string): seq<string> {
    if lines == [] then []
    else if StartsWith(Last(lines), field) then Values(Init(lines), field) + [SkipSpace(Last(lines)[|field|..])]
    else Values(Init(lines), field)
  }

  /** The last value, or what there was before. */
  function LastOr<T>(values: seq<T>, before: T): T {
    if values == [] then before else Last(values)
  }

  function Somes(values: seq<string>): seq<Option<string>> {
    if values == [] then [] else Somes(Init(values)) + [Some(Last(values))]
  }

  /** The numbers among the values. */
  function NumbersIn(values: seq<string>): seq<int> {
    if values == [] then []
    else
      var before, n := NumbersIn(Init(values)), ParseInt(Last(values));
      if n.Some? then before + [n.value] else before
  }

  /** A line is one of at most one field. */
  lemma FirstLetters(line: string)
    ensures StartsWith(line, "data:") ==> line[0] == 'd'
    ensures StartsWith(line, "event:") ==> line[0] == 'e'
    ensures StartsWith(line, "id:") ==> line[0] == 'i'
    ensures StartsWith(line, "retry:") ==> line[0] == 'r'
  {
  }

  /** What a line adds to what the lines before it say. */
  lemma LineSays(p: Parsed, line: string)
    ensures var q := ParseLine(p, line);
      && q.data == (if StartsWith(line, "data:") then p.data + [SkipSpace(line[5..])] else p.data)
      && q.event == (if StartsWith(line, "event:") then Some(SkipSpace(line[6..])) else p.event)
      && q.id == (if StartsWith(line, "id:") then Some(SkipSpace(line[3..])) else p.id)
  {
    FirstLetters(line);
  }

  lemma RetryLine(p: Parsed, line: string, value: string)
    requires StartsWith(line, "retry:") ==> value == SkipSpace(line[6..])
    ensures ParseLine(p, line).retry ==
      if StartsWith(line, "retry:") && ParseInt(value).Some? then ParseInt(value).value else p.retry
  {
    FirstLetters(line);
  }

  lemma {:induction false} DataSays(lines: seq<string>, id: Option<string>, retry: int)
    ensures ParseLines(lines, id, retry).data == Values(lines, "data:")
  {
    if lines != [] {
      DataSays(Init(lines), id, retry);
      LineSays(ParseLines(Init(lines), id, retry), Last(lines));
    }
  }

  lemma LastSome(values: seq<string>, value: string)
    ensures Somes(values + [value]) == Somes(values) + [Some(value)]
  {
    assert Init(values + [value]) == values;
  }

  lemma {:induction false} EventNameSays(lines: seq<string>, id: Option<string>, retry: int)
    ensures ParseLines(lines, id, retry).event == LastOr(Somes(Values(lines, "event:")), None)
  {
    if lines != [] {
      EventNameSays(Init(lines), id, retry);
      LineSays(ParseLines(Init(lines), id, retry), Last(lines));
      if StartsWith(Last(lines), "event:") {
        LastSome(Values(Init(lines), "event:"), SkipSpace(Last(lines)[6..]));
      }
    }
  }

  lemma {:induction false} IdSays(lines: seq<string>, id: Option<string>, retry: int)
    ensures ParseLines(lines, id, retry).id == LastOr(Somes(Values(lines, "id:")), id)
  {
    if lines != [] {
      IdSays(Init(lines), id, retry);
      LineSays(ParseLines(Init(lines), id, retry), Last(lines));
      if StartsWith(Last(lines), "id:") {
        LastSome(Values(Init(lines), "id:"), SkipSpace(Last(lines)[3..]));
      }
    }
  }

  lemma LastNumber(values: seq<string>, value: string)
    ensures NumbersIn(values + [value]) ==
      if ParseInt(value).Some? then NumbersIn(values) + [ParseInt(value).value] else NumbersIn(values)
  {
    assert Init(values + [value]) == values;
  }

  lemma RetryGrows(p: Parsed, values: seq<string>, line: string, value: string, retry: int)
    requires p.retry == LastOr(NumbersIn(values), retry)
    requires StartsWith(line, "retry:") ==> value == SkipSpace(line[6..])
    ensures ParseLine(p, line).retry ==
      LastOr(NumbersIn(if StartsWith(line, "retry:") then values + [value] else values), retry)
  {
    RetryLine(p, line, value);
    LastNumber(values, value);
  }

  lemma {:induction false} RetrySays(lines: seq<string>, id: Option<string>, retry: int)
    ensures ParseLines(lines, id, retry).retry == LastOr(NumbersIn(Values(lines, "retry:")), retry)
  {
    if lines != [] {
      var p, line := Init(lines), Last(lines);
      RetrySays(p, id, retry);
      var value := if StartsWith(line, "retry:") then SkipSpace(line[6..]) else "";
      RetryGrows(ParseLines(p, id, retry), Values(p, "retry:"), line, value, retry);
    }
  }

  predicate SingleLine(s: string) {
    '\n' !in s
  }

  /**
   The event of a block: all its data lines, which its data splits into again, if it has any; its last event
   name; its last id, or else the one before; and the last number of its retry lines, or else the delay before.
   */
  lemma EventSays(st: Stream, lines: seq<string>)
    ensures var next := Dispatch(st, lines); var e := Last(next.events);
      && next.events == st.events + [e] && next.id == e.id && next.retry == e.retry
      && (e.data.Some? <==> Values(lines, "data:") != [])
      && e.event == LastOr(Somes(Values(lines, "event:")), None)
      && e.id == LastOr(Somes(Values(lines, "id:")), st.id)
      && e.retry == LastOr(NumbersIn(Values(lines, "retry:")), st.retry)
  {
    DataSays(lines, st.id, st.retry);
    EventNameSays(lines, st.id, st.retry);
    IdSays(lines, st.id, st.retry);
    RetrySays(lines, st.id, st.retry);
  }

  lemma DataSplits(st: Stream, lines: seq<string>)
    requires Values(lines, "data:") != [] && forall line :: line in lines ==> SingleLine(line)
    ensures var data := Last(Dispatch(st, lines).events).data;
      data.Some? && Split(data.value, '\n') == Values(lines, "data:")
  {
    DataSays(lines, st.id, st.retry);
    ValuesAreSingle(lines, "data:");
    assert "\n" == ['\n'];
    SplitJoin(Values(lines, "data:"), '\n');
  }

  lemma SingleSuffix(line: string, n: nat)
    requires SingleLine(line) && n <= |line|
    ensures SingleLine(SkipSpace(line[n..]))
  {
    var k := SkippedSpaces(line[n..]);
    assert line[n..][k..] == line[n + k..];
  }

  lemma {:induction false} ValuesAreSingle(lines: seq<string>, field: string)
    requires forall line :: line in lines ==> SingleLine(line)
    ensures forall v :: v in Values(lines, field) ==> SingleLine(v)
  {
    if lines != [] {
      assert lines == Init(lines) + [Last(lines)];
      ValuesAreSingle(Init(lines), field);
      assert SingleLine(Last(lines));
      if StartsWith(Last(lines), field) {
        SingleSuffix(Last(lines), |field|);
      }
    }
  }

  lemma {:induction false} DigitPrefixStops(digits: string, rest: string)
    requires AllDigits(digits) && (rest != "" ==> !IsDigit(rest[0]))
    ensures DigitPrefix(digits + rest) == digits
  {
    if digits == "" {
      assert digits + rest == rest;
    } else {
      assert digits[0] in digits && (digits + rest)[1..] == digits[1..] + rest;
      DigitPrefixStops(digits[1..], rest);
    }
  }

  lemma SignedNumber(s: string, number: string, sign: string, digits: string, rest: string)
    requires sign in {"", "+", "-"} && digits != "" && AllDigits(digits) && DigitPrefix(digits + rest) == digits
    requires number == sign + (digits + rest) && SkipSpace(s) == number && digits[0] != '-' && digits[0] != '+'
    ensures ParseInt(s) == Some(if sign == "-" then 0 - ValueOf(digits) else ValueOf(digits))
  {
    assert sign != "" ==> number[1..] == digits + rest;
    assert sign == "" ==> number == digits + rest;
  }

  /** The number a value starts with: white space, a sign, digits; what follows the digits does not matter. */
  lemma NumberIs(spaces: string, sign: string, digits: string, rest: string)
    requires (forall c :: c in spaces ==> IsJsSpace(c)) && sign in {"", "+", "-"}
    requires digits != "" && AllDigits(digits) && (rest != "" ==> !IsDigit(rest[0]))
    ensures ParseInt(spaces + (sign + (digits + rest))) ==
      Some(if sign == "-" then 0 - ValueOf(digits) else ValueOf(digits))
  {
    var number := sign + (digits + rest);
    assert digits[0] in digits;
    DigitIsNoSpace(digits[0]);
    SkipsTo(spaces, number);
    DigitPrefixStops(digits, rest);
    SignedNumber(spaces + number, number, sign, digits, rest);
  }

  lemma SkipsTo(spaces: string, number: string)
    requires (forall c :: c in spaces ==> IsJsSpace(c)) && number != "" && !IsJsSpace(number[0])
    ensures SkipSpace(spaces + number) == number
  {
    SpacesSkipped(spaces + number, |spaces|);
    assert (spaces + number)[|spaces|..] == number;
  }
}
