/** Splitting a text at universal line boundaries. */
module Lines {

  predicate Breaks(c: char) {
    || c == '\n' || c == '\U{0B}' || c == '\U{0C}' || c == '\r' || c == '\U{1C}'
    || c == '\U{1D}' || c == '\U{1E}' || c == '\U{85}' || c == '\U{2028}' || c == '\U{2029}'
  }

  /** Length of the line break at position `at`: a carriage return and a line feed are one break. */
  function BreakLength(text: string, at: nat): (r: nat)
    requires at < |text| && Breaks(text[at])
    ensures at + r <= |text|
  {
    if text[at] == '\r' && at + 1 < |text| && text[at + 1] == '\n' then 2 else 1
  }

  /** The first line break at or after `from`, or the end of the text. */
  function NextBreak(text: string, from: nat): (r: nat)
    requires from <= |text|
    ensures from <= r <= |text|
    ensures forall i :: from <= i < r ==> !Breaks(text[i])
    ensures r < |text| ==> Breaks(text[r])
    decreases |text| - from
  {
    if from == |text| || Breaks(text[from]) then from else NextBreak(text, from + 1)
  }

  function LinesFrom(text: string, start: nat): seq<string>
    requires start <= |text|
    decreases |text| - start, 1
  {
    if start == |text| then []
    else [text[start..NextBreak(text, start)]] + LinesAfter(text, NextBreak(text, start))
  }

  /** The lines that follow the one ended by the break, or by the end of the text, at `at`. */
  function LinesAfter(text: string, at: nat): seq<string>
    requires at <= |text| && (at < |text| ==> Breaks(text[at]))
    decreases |text| - at, 0
  {
    if at == |text| then [] else LinesFrom(text, at + BreakLength(text, at))
  }

  function LinesOf(text: string): seq<string> {
    LinesFrom(text, 0)
  }

  method Splitlines(text: string) returns (lines: seq<string>)
    ensures lines == LinesOf(text)
  {
    lines := [];
    if text == "" { return; }
    var start := 0;
    var at := NextBreak(text, 0);
    while at < |text|
      invariant start <= at <= |text| && at == NextBreak(text, start)
      invariant lines + LinesFrom(text, start) == LinesOf(text)
      decreases |text| - start
    {
      ghost var done := lines;
      lines := lines + [text[start..at]];
      assert done + ([text[start..at]] + LinesAfter(text, at)) == lines + LinesAfter(text, at);
      start := at + BreakLength(text, at);
      at := NextBreak(text, start);
    }
    if start < |text| {
      assert text[start..at] == text[start..];
      lines := lines + [text[start..]];
    }
  }

  // ----- What the split means: it inverts writing each line followed by its break -----

  /** A line together with the break that ended it; only a last line may have none. */
  datatype Line = Line(text: string, ending: string)

  predicate IsBreak(s: string) {
    s == "\r\n" || (|s| == 1 && Breaks(s[0]))
  }

  predicate BreakFree(s: string) {
    forall i :: 0 <= i < |s| ==> !Breaks(s[i])
  }

  function Write(lines: seq<Line>): string {
    if lines == [] then "" else lines[0].text + lines[0].ending + Write(lines[1..])
  }

  /** Lines that a text can consist of: a bare carriage return is never followed by a line feed
      (that would be one break), and only a non-empty last line may be unterminated. */
  ghost predicate WellFormed(lines: seq<Line>) {
    lines != [] ==> MayPrecede(lines[0], Write(lines[1..])) && WellFormed(lines[1..])
  }

  predicate MayPrecede(line: Line, rest: string) {
    && BreakFree(line.text)
    && (IsBreak(line.ending) || (line.ending == "" && line.text != "" && rest == ""))
    && (line.ending == "\r" ==> !("\n" <= rest))
  }

  function Texts(lines: seq<Line>): seq<string> {
    if lines == [] then [] else [lines[0].text] + Texts(lines[1..])
  }

  /** Splitting any well-formed writing of lines gives back exactly those lines. */
  lemma {:induction false} SplitInvertsWrite(lines: seq<Line>)
    requires WellFormed(lines)
    ensures LinesOf(Write(lines)) == Texts(lines)
  {
    SplitInvertsWriteFrom(Write(lines), 0, lines);
  }

  lemma {:induction false} SplitInvertsWriteFrom(text: string, start: nat, lines: seq<Line>)
    requires WellFormed(lines) && start <= |text| && text[start..] == Write(lines)
    ensures LinesFrom(text, start) == Texts(lines)
    decreases |lines|
  {
    if lines != [] {
      var first, rest := lines[0], Write(lines[1..]);
      TextPositions(text, start, first.text, first.ending, rest);
      FirstLineRead(text, start, first, rest);
      SplitInvertsWriteFrom(text, start + |first.text| + |first.ending|, lines[1..]);
    }
  }

  lemma FirstLineRead(text: string, start: nat, first: Line, rest: string)
    requires start + |first.text| + |first.ending| <= |text| && MayPrecede(first, rest)
    requires text[start..start + |first.text|] == first.text
    requires text[start + |first.text|..start + |first.text| + |first.ending|] == first.ending
    requires text[start + |first.text| + |first.ending|..] == rest
    ensures LinesFrom(text, start) == [first.text] + LinesFrom(text, start + |first.text| + |first.ending|)
  {
    if first.ending != "" {
      TerminatedRead(text, start, start + |first.text|, first.ending, rest);
    } else {
      UnterminatedRead(text, start);
    }
  }

  lemma TerminatedRead(text: string, start: nat, at: nat, ending: string, rest: string)
    requires start <= at <= at + |ending| <= |text| && BreakFree(text[start..at])
    requires text[at..at + |ending|] == ending && text[at + |ending|..] == rest
    requires IsBreak(ending) && (ending == "\r" ==> !("\n" <= rest))
    ensures LinesFrom(text, start) == [text[start..at]] + LinesFrom(text, at + |ending|)
  {
    FirstLineFound(text, start, at, text[start..at], ending);
    EndingFound(text, at, ending, rest);
    LinesFromBreak(text, start, at);
  }

  lemma UnterminatedRead(text: string, start: nat)
    requires start < |text| && BreakFree(text[start..])
    ensures LinesFrom(text, start) == [text[start..]] + LinesFrom(text, |text|)
  {
    assert text[start..|text|] == text[start..] && text[|text|..|text|] == "";
    FirstLineFound(text, start, |text|, text[start..], "");
    LinesFromLast(text, start);
  }

  lemma LinesFromBreak(text: string, start: nat, at: nat)
    requires start <= at < |text| && NextBreak(text, start) == at
    ensures LinesFrom(text, start) == [text[start..at]] + LinesFrom(text, at + BreakLength(text, at))
  {
  }

  lemma LinesFromLast(text: string, start: nat)
    requires start < |text| && NextBreak(text, start) == |text|
    ensures LinesFrom(text, start) == [text[start..]] + LinesFrom(text, |text|)
  {
    assert text[start..|text|] == text[start..];
  }

  lemma TextPositions(text: string, start: nat, line: string, ending: string, rest: string)
    requires start <= |text| && text[start..] == line + ending + rest
    ensures start + |line| + |ending| <= |text|
    ensures text[start..start + |line|] == line
    ensures text[start + |line|..start + |line| + |ending|] == ending
    ensures text[start + |line| + |ending|..] == rest
  {
    var tail := line + ending + rest;
    assert forall i :: 0 <= i < |tail| ==> text[start + i] == tail[i];
  }

  lemma FirstLineFound(text: string, start: nat, at: nat, line: string, ending: string)
    requires start <= at <= at + |ending| <= |text| && text[start..at] == line && text[at..at + |ending|] == ending
    requires BreakFree(line) && (IsBreak(ending) || (ending == "" && at == |text|))
    ensures NextBreak(text, start) == at
    decreases at - start
  {
    if start < at {
      assert text[start] == line[0];
      assert text[start + 1..at] == line[1..];
      FirstLineFound(text, start + 1, at, line[1..], ending);
    } else if ending != "" {
      assert text[at] == ending[0];
    }
  }

  lemma EndingFound(text: string, at: nat, ending: string, rest: string)
    requires at + |ending| <= |text| && text[at..at + |ending|] == ending && text[at + |ending|..] == rest
    requires IsBreak(ending) && (ending == "\r" ==> !("\n" <= rest))
    ensures Breaks(text[at]) && BreakLength(text, at) == |ending|
  {
    assert text[at] == ending[0];
    if |ending| == 2 {
      assert text[at + 1] == ending[1];
    } else if at + 1 < |text| {
      assert rest[0] == text[at + 1];
    }
  }

  // ----- The ten characters and eleven separators, written out -----

  /** None of the characters at which Python's `str.splitlines` splits. */
  predicate Plain(line: string) {
    forall c :: c in line ==>
      c !in {'\n', '\U{0B}', '\U{0C}', '\r', '\U{1C}', '\U{1D}', '\U{1E}', '\U{85}', '\U{2028}', '\U{2029}'}
  }

  predicate Separates(separator: string) {
    separator in {"\n", "\r\n", "\r", "\U{0B}", "\U{0C}", "\U{1C}", "\U{1D}", "\U{1E}", "\U{85}", "\U{2028}",
                  "\U{2029}"}
  }

  /** Each line followed by its separator, and a rest without one. */
  function Separated(lines: seq<string>, separators: seq<string>, last: string): string
    requires |lines| == |separators|
  {
    if lines == [] then last else lines[0] + separators[0] + Separated(lines[1..], separators[1..], last)
  }

  /** Next to each other, a carriage return and a line feed would be one separator. */
  predicate Apart(lines: seq<string>, separators: seq<string>)
    requires |lines| == |separators|
  {
    forall i :: 0 <= i < |lines| - 1 ==> !(separators[i] == "\r" && lines[i + 1] == "" && separators[i + 1] == "\n")
  }

  lemma PlainIsBreakFree(line: string)
    ensures Plain(line) <==> BreakFree(line)
  {
    assert forall i :: 0 <= i < |line| ==> line[i] in line;
  }

  lemma SeparatorIsBreak(separator: string)
    requires Separates(separator)
    ensures IsBreak(separator)
  {
  }

  function Unterminated(last: string): seq<Line> {
    if last == "" then [] else [Line(last, "")]
  }

  function Terminated(lines: seq<string>, separators: seq<string>, last: string): seq<Line>
    requires |lines| == |separators|
  {
    if lines == [] then Unterminated(last)
    else [Line(lines[0], separators[0])] + Terminated(lines[1..], separators[1..], last)
  }

  lemma UnterminatedIsWritten(last: string)
    requires Plain(last)
    ensures WellFormed(Unterminated(last)) && Write(Unterminated(last)) == last
    ensures Texts(Unterminated(last)) == if last == "" then [] else [last]
  {
    PlainIsBreakFree(last);
    assert last != "" ==> Unterminated(last)[1..] == [] && last + "" + "" == last;
  }

  lemma {:induction false} TerminatedIsWritten(lines: seq<string>, separators: seq<string>, last: string)
    requires |lines| == |separators| && Plain(last) && Apart(lines, separators)
    requires forall i :: 0 <= i < |lines| ==> Plain(lines[i]) && Separates(separators[i])
    ensures var written := Terminated(lines, separators, last);
      && WellFormed(written) && Write(written) == Separated(lines, separators, last)
      && Texts(written) == lines + if last == "" then [] else [last]
    decreases |lines|
  {
    if lines == [] {
      UnterminatedIsWritten(last);
    } else {
      var first, rest := Line(lines[0], separators[0]), Terminated(lines[1..], separators[1..], last);
      TerminatedIsWritten(lines[1..], separators[1..], last);
      FirstPrecedes(lines, separators, last);
      FirstOfTerminated(first, rest);
      Prepended(lines, if last == "" then [] else [last]);
    }
  }

  lemma Prepended(lines: seq<string>, tail: seq<string>)
    requires lines != []
    ensures [lines[0]] + (lines[1..] + tail) == lines + tail
  {
  }

  lemma FirstOfTerminated(first: Line, rest: seq<Line>)
    requires WellFormed(rest) && MayPrecede(first, Write(rest))
    ensures WellFormed([first] + rest) && Texts([first] + rest) == [first.text] + Texts(rest)
    ensures Write([first] + rest) == first.text + first.ending + Write(rest)
  {
    assert ([first] + rest)[1..] == rest;
  }

  lemma FirstPrecedes(lines: seq<string>, separators: seq<string>, last: string)
    requires |lines| == |separators| && lines != [] && Plain(last) && Apart(lines, separators)
    requires forall i :: 0 <= i < |lines| ==> Plain(lines[i]) && Separates(separators[i])
    ensures MayPrecede(Line(lines[0], separators[0]), Separated(lines[1..], separators[1..], last))
  {
    FirstIsApart(lines, separators, last);
    PlainIsBreakFree(lines[0]);
    SeparatorIsBreak(separators[0]);
  }

  lemma FirstIsApart(lines: seq<string>, separators: seq<string>, last: string)
    requires |lines| == |separators| && lines != [] && Plain(last) && Apart(lines, separators)
    requires forall i :: 0 <= i < |lines| ==> Plain(lines[i]) && Separates(separators[i])
    ensures separators[0] == "\r" ==> !("\n" <= Separated(lines[1..], separators[1..], last))
  {
    var rest := Separated(lines[1..], separators[1..], last);
    if |lines| == 1 {
      assert rest == last && (last != "" ==> last[0] in last);
    } else if lines[1] != "" {
      assert rest[0] == lines[1][0] && lines[1][0] in lines[1];
    } else {
      assert rest[0] == separators[1][0];
    }
  }

  /** Lines without any of the ten characters, each followed by any of the eleven separators, and a rest
      without one: the split gives these lines, and the rest if it is not empty. */
  lemma SplitsAtSeparators(lines: seq<string>, separators: seq<string>, last: string)
    requires |lines| == |separators| && Plain(last) && Apart(lines, separators)
    requires forall i :: 0 <= i < |lines| ==> Plain(lines[i]) && Separates(separators[i])
    ensures LinesOf(Separated(lines, separators, last)) == lines + if last == "" then [] else [last]
  {
    TerminatedIsWritten(lines, separators, last);
    SplitInvertsWrite(Terminated(lines, separators, last));
  }

  /** Every text is the well-formed writing of its lines. */
  lemma {:induction false} EveryTextIsWritten(text: string, start: nat) returns (lines: seq<Line>)
    requires start <= |text|
    ensures WellFormed(lines) && Write(lines) == text[start..] && Texts(lines) == LinesFrom(text, start)
    decreases |text| - start
  {
    if start == |text| {
      return [];
    }
    var at, next := FirstLineEnd(text, start);
    var rest := EveryTextIsWritten(text, next);
    var first := Line(text[start..at], text[at..next]);
    lines := [first] + rest;
    assert lines[1..] == rest;
    CutTwice(text, start, at, next);
  }

  lemma CutTwice(text: string, start: nat, at: nat, next: nat)
    requires start <= at <= next <= |text|
    ensures text[start..] == text[start..at] + text[at..next] + text[next..]
  {
  }

  /** Where the first line ends, with and without its break. */
  lemma FirstLineEnd(text: string, start: nat) returns (at: nat, next: nat)
    requires start < |text|
    ensures start <= at <= next <= |text| && start < next
    ensures MayPrecede(Line(text[start..at], text[at..next]), text[next..])
    ensures LinesFrom(text, start) == [text[start..at]] + LinesFrom(text, next)
  {
    at := NextBreak(text, start);
    next := if at == |text| then at else at + BreakLength(text, at);
    FirstLinePrecedes(text, start, at, next);
  }

  lemma FirstLinePrecedes(text: string, start: nat, at: nat, next: nat)
    requires start < |text| && at == NextBreak(text, start)
    requires next == if at == |text| then at else at + BreakLength(text, at)
    ensures MayPrecede(Line(text[start..at], text[at..next]), text[next..])
  {
    if at < |text| && text[at..next] == "\r" {
      assert text[at..next][0] == text[at];
    }
  }

  /** No line of any text holds one of the ten characters. */
  lemma LinesArePlain(text: string)
    ensures forall line :: line in LinesOf(text) ==> Plain(line)
  {
    var lines := EveryTextIsWritten(text, 0);
    WrittenArePlain(lines);
  }

  lemma {:induction false} WrittenArePlain(lines: seq<Line>)
    requires WellFormed(lines)
    ensures forall line :: line in Texts(lines) ==> Plain(line)
    decreases |lines|
  {
    if lines != [] {
      PlainIsBreakFree(lines[0].text);
      WrittenArePlain(lines[1..]);
    }
  }
}
