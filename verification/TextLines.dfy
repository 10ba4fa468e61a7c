/** Python's line splitting with the line ends kept, and shifting a block of lines by columns. */
module TextLines {
  /** The characters `str.splitlines` ends a line at; a carriage return and a line feed count as one. */
  predicate IsBreak(c: char) {
    || '\n' <= c <= '\r' || '\U{1C}' <= c <= '\U{1E}' || c == '\U{85}' || c == '\U{2028}' || c == '\U{2029}'
  }

  /** The characters `str.strip` removes. */
  predicate IsSpace(c: char) {
    || '\t' <= c <= '\r' || '\U{1C}' <= c <= ' ' || c == '\U{85}' || c == '\U{A0}' || c == '\U{1680}'
    || '\U{2000}' <= c <= '\U{200A}' || c == '\U{2028}' || c == '\U{2029}' || c == '\U{202F}' || c == '\U{205F}'
    || c == '\U{3000}'
  }

  predicate Blank(line: string) {
    forall i | 0 <= i < |line| :: IsSpace(line[i])
  }

  /** Where the first line ends, its end included. */
  function LineEnd(s: string): (r: nat)
    ensures r <= |s| && (s != "" ==> 0 < r)
  {
    if s == "" then 0
    else if 1 < |s| && s[0] == '\r' && s[1] == '\n' then 2
    else if IsBreak(s[0]) then 1
    else 1 + LineEnd(s[1..])
  }

  function SplitLines(s: string): seq<string> {
    if s == "" then [] else [s[..LineEnd(s)]] + SplitLines(s[LineEnd(s)..])
  }

  function Join(lines: seq<string>): string {
    if lines == [] then "" else lines[0] + Join(lines[1..])
  }

  /** A list of lines that some text splits into. */
  predicate WellSplit(lines: seq<string>) {
    && (forall i | 0 <= i < |lines| :: OneLine(lines[i]))
    && (forall i | 0 < i < |lines| :: Closed(lines[i - 1], lines[i]))
  }

  predicate OneLine(line: string) {
    line != "" && LineEnd(line) == |line|
  }

  /** The first line ends before the second begins. */
  predicate Closed(a: string, b: string) {
    a != "" && b != "" && IsBreak(a[|a| - 1]) && !(a[|a| - 1] == '\r' && b[0] == '\n')
  }

  lemma {:induction false} JoinSplit(s: string)
    ensures Join(SplitLines(s)) == s
    decreases |s|
  {
    if s != "" {
      JoinSplit(s[LineEnd(s)..]);
      assert s == s[..LineEnd(s)] + s[LineEnd(s)..];
    }
  }

  lemma {:induction false} JoinConcat(a: seq<string>, b: seq<string>)
    ensures Join(a + b) == Join(a) + Join(b)
  {
    if a == [] {
      assert a + b == b;
    } else {
      JoinConcat(a[1..], b);
      assert (a + b)[1..] == a[1..] + b && (a + b)[0] == a[0];
      assert a[0] + (Join(a[1..]) + Join(b)) == a[0] + Join(a[1..]) + Join(b);
    }
  }

  lemma {:induction false} LineEndStays(line: string, rest: string)
    requires OneLine(line) && (rest == "" || Closed(line, rest))
    ensures LineEnd(line + rest) == |line|
  {
    if rest == "" {
      assert line + rest == line;
    } else if |line| > 1 && !IsBreak(line[0]) {
      assert (line + rest)[1..] == line[1..] + rest;
      LineEndStays(line[1..], rest);
    }
  }

  lemma {:induction false} FirstLineOf(s: string)
    requires s != ""
    ensures OneLine(s[..LineEnd(s)])
    ensures LineEnd(s) < |s| ==> Closed(s[..LineEnd(s)], s[LineEnd(s)..])
  {
    if !IsBreak(s[0]) && 1 < |s| {
      FirstLineOf(s[1..]);
      assert s[..LineEnd(s)][1..] == s[1..][..LineEnd(s[1..])];
    }
  }

  lemma {:induction false} SplitIsWellSplit(s: string)
    ensures WellSplit(SplitLines(s))
    decreases |s|
  {
    if s != "" {
      var e := LineEnd(s);
      FirstLineOf(s);
      SplitIsWellSplit(s[e..]);
      var rest := SplitLines(s[e..]);
      if rest != [] {
        assert rest[0] == s[e..][..LineEnd(s[e..])];
        assert Closed(s[..e], rest[0]);
      }
    }
  }

  lemma {:induction false} SplitJoin(lines: seq<string>)
    requires WellSplit(lines)
    ensures SplitLines(Join(lines)) == lines
  {
    if lines != [] {
      var rest := Join(lines[1..]);
      assert WellSplit(lines[1..]) by {
        forall i | 0 < i < |lines[1..]|
          ensures Closed(lines[1..][i - 1], lines[1..][i])
        {
          assert Closed(lines[i], lines[i + 1]);
        }
      }
      SplitJoin(lines[1..]);
      if 1 < |lines| {
        assert Closed(lines[0], lines[1]);
        assert rest == lines[1] + Join(lines[2..]);
      }
      LineEndStays(lines[0], rest);
      assert (lines[0] + rest)[..|lines[0]|] == lines[0] && (lines[0] + rest)[|lines[0]|..] == rest;
    }
  }

  // ---- Shifting ----

  function Spaces(n: nat): string {
    seq(n, _ => ' ')
  }

  /** Blank lines stay; any other line gains spaces or loses its first columns, whatever they hold. */
  function ShiftLine(line: string, amount: int): string {
    if Blank(line) then line
    else if amount >= 0 then Spaces(amount) + line
    else line[if -amount < |line| then -amount else |line|..]
  }

  function ShiftLines(lines: seq<string>, amount: int): (r: seq<string>)
    ensures |r| == |lines| && forall i | 0 <= i < |r| :: r[i] == ShiftLine(lines[i], amount)
  {
    seq(|lines|, i requires 0 <= i < |lines| => ShiftLine(lines[i], amount))
  }

  function Shift(text: string, amount: int): string {
    Join(ShiftLines(SplitLines(text), amount))
  }

  predicate Indented(line: string, n: nat) {
    n <= |line| && line[..n] == Spaces(n)
  }

  lemma {:induction false} IndentKeepsOneLine(line: string, n: nat)
    requires OneLine(line)
    ensures OneLine(Spaces(n) + line)
    decreases n
  {
    if n == 0 {
      assert Spaces(0) + line == line;
    } else {
      IndentKeepsOneLine(line, n - 1);
      assert (Spaces(n) + line)[1..] == Spaces(n - 1) + line;
    }
  }

  lemma {:induction false} DropKeepsOneLine(line: string, n: nat)
    requires OneLine(line) && n < |line| && forall i | 0 <= i < n :: line[i] == ' '
    ensures OneLine(line[n..])
    decreases n
  {
    if n == 0 {
      assert line[0..] == line;
    } else {
      DropKeepsOneLine(line[1..], n - 1);
      assert line[1..][n - 1..] == line[n..];
    }
  }

  lemma BlankBehindSpaces(line: string, n: nat)
    ensures Blank(Spaces(n) + line) <==> Blank(line)
  {
    var whole := Spaces(n) + line;
    if Blank(whole) {
      forall i | 0 <= i < |line| ensures IsSpace(line[i]) { assert line[i] == whole[n + i]; }
    }
  }

  /** Shifting right changes no line boundary. */
  lemma IndentedLines(lines: seq<string>, n: nat)
    requires WellSplit(lines)
    ensures WellSplit(ShiftLines(lines, n))
  {
    var moved := ShiftLines(lines, n);
    forall i | 0 <= i < |lines|
      ensures OneLine(moved[i]) && moved[i][|moved[i]| - 1] == lines[i][|lines[i]| - 1]
      ensures moved[i][0] == '\n' ==> lines[i][0] == '\n'
    {
      assert OneLine(lines[i]);
      IndentKeepsOneLine(lines[i], n);
      hide OneLine, LineEnd;
    }
    hide OneLine, LineEnd, ShiftLine, ShiftLines;
    forall i | 0 < i < |lines|
      ensures Closed(moved[i - 1], moved[i])
    {
      assert Closed(lines[i - 1], lines[i]);
      assert OneLine(moved[i]) && OneLine(moved[i - 1]);
      NotEmpty(moved[i]);
      NotEmpty(moved[i - 1]);
    }
  }

  lemma NotEmpty(line: string)
    requires OneLine(line)
    ensures line != ""
  {
  }

  lemma ShiftedRight(text: string, n: nat)
    ensures SplitLines(Shift(text, n)) == ShiftLines(SplitLines(text), n)
  {
    SplitIsWellSplit(text);
    IndentedLines(SplitLines(text), n);
    SplitJoin(ShiftLines(SplitLines(text), n));
  }

  /** Shifting right and back again is the identity, blank lines included. */
  lemma ShiftRightAndBack(text: string, n: int)
    requires n >= 0
    ensures Shift(Shift(text, n), -n) == text
  {
    var lines := SplitLines(text);
    ShiftedRight(text, n);
    var back := ShiftLines(ShiftLines(lines, n), -n);
    forall i | 0 <= i < |lines|
      ensures back[i] == lines[i]
    {
      BlankBehindSpaces(lines[i], n);
      if !Blank(lines[i]) {
        assert ShiftLines(lines, n)[i] == Spaces(n) + lines[i];
        assert (Spaces(n) + lines[i])[n..] == lines[i];
      }
    }
    assert back == lines;
    JoinSplit(text);
  }

  /** A block whose lines are all indented by that much loses columns without changing a line boundary. */
  lemma OutdentedLines(lines: seq<string>, n: int)
    requires n >= 0 && WellSplit(lines) && forall i | 0 <= i < |lines| :: Blank(lines[i]) || Indented(lines[i], n)
    ensures WellSplit(ShiftLines(lines, -n))
    ensures ShiftLines(ShiftLines(lines, -n), n) == lines
  {
    var moved := ShiftLines(lines, -n);
    forall i | 0 <= i < |lines|
      ensures OneLine(moved[i]) && moved[i][|moved[i]| - 1] == lines[i][|lines[i]| - 1]
      ensures ShiftLine(moved[i], n) == lines[i]
      ensures moved[i][0] == '\n' ==> n == 0 || Blank(lines[i])
    {
      assert OneLine(lines[i]);
      OutdentedLine(lines[i], n);
    }
    hide OneLine, LineEnd, ShiftLine;
    forall i | 0 < i < |lines|
      ensures Closed(moved[i - 1], moved[i])
    {
      assert Closed(lines[i - 1], lines[i]);
      assert OneLine(moved[i]) && OneLine(moved[i - 1]);
      NotEmpty(moved[i]);
      NotEmpty(moved[i - 1]);
      OutdentedStart(lines[i], n);
    }
    assert ShiftLines(moved, n) == lines;
  }

  lemma OutdentedLine(line: string, n: int)
    requires n >= 0 && OneLine(line) && (Blank(line) || Indented(line, n))
    ensures var moved := ShiftLine(line, -n);
            && OneLine(moved) && moved[|moved| - 1] == line[|line| - 1] && ShiftLine(moved, n) == line
            && (moved[0] == '\n' ==> n == 0 || Blank(line))
  {
    if !Blank(line) {
      assert line == Spaces(n) + line[n..];
      BlankBehindSpaces(line[n..], n);
      assert line[n..] != "";
      assert forall i | 0 <= i < n :: line[i] == line[..n][i];
      DropKeepsOneLine(line, n);
      ContentComesFirst(line[n..]);
    }
  }

  /** A line that starts with a line feed is that line feed alone, so it is blank. */
  lemma ContentComesFirst(line: string)
    requires OneLine(line) && !Blank(line)
    ensures line[0] != '\n'
  {
    assert line[0] == '\n' ==> LineEnd(line) == 1;
    assert |line| == 1 ==> Blank(line) || line[0] != '\n';
  }

  lemma OutdentedStart(line: string, n: int)
    requires n >= 0 && OneLine(line) && (Blank(line) || Indented(line, n))
    ensures var moved := ShiftLine(line, -n); moved != "" && (moved[0] == '\n' ==> line[0] == '\n')
  {
    OutdentedLine(line, n);
    if !Blank(line) && n == 0 { assert line[0..] == line; }
  }

  lemma LeftAndBackCutsSpaces(text: string, n: int)
    requires n >= 0 && Shift(Shift(text, -n), n) == text
    ensures forall line | line in SplitLines(text) :: Blank(line) || Indented(line, n)
  {
    hide SplitLines, Join, LineEnd;
    var lines, from := SplitLines(text), SplitLines(Shift(text, -n));
    ShiftedRight(Shift(text, -n), n);
    hide Shift;
    forall line | line in lines
      ensures Blank(line) || Indented(line, n)
    {
      var i :| 0 <= i < |lines| && lines[i] == line;
      assert line == ShiftLine(from[i], n);
      assert (Spaces(n) + from[i])[..n] == Spaces(n);
    }
  }

  /** Shifting left and back again is the identity exactly when only spaces are cut off. */
  lemma ShiftLeftAndBackExactlyWhen(text: string, n: int)
    requires n >= 0
    ensures Shift(Shift(text, -n), n) == text <==>
            forall line | line in SplitLines(text) :: Blank(line) || Indented(line, n)
  {
    hide SplitLines, Join, LineEnd, WellSplit, ShiftLines, ShiftLine, Blank, Indented;
    var lines := SplitLines(text);
    if Shift(Shift(text, -n), n) == text { LeftAndBackCutsSpaces(text, n); }
    if forall line | line in lines :: Blank(line) || Indented(line, n) {
      SplitIsWellSplit(text);
      JoinSplit(text);
      OutdentedLines(lines, n);
      SplitJoin(ShiftLines(lines, -n));
    }
  }

  lemma IndentIsSpace(line: string, n: nat)
    requires 0 < n && Indented(line, n)
    ensures line[0] == ' '
  {
    assert line[..n][0] == Spaces(n)[0];
  }

  /** A line with text at the margin is cut: no shift to the left of a text with such a line can be undone. */
  lemma LeftShiftCutsText(text: string, line: string, n: int)
    requires n > 0 && line in SplitLines(text) && !Blank(line) && line[0] != ' '
    ensures Shift(Shift(text, -n), n) != text
  {
    hide SplitLines, Shift;
    ShiftLeftAndBackExactlyWhen(text, n);
    if Indented(line, n) { IndentIsSpace(line, n); }
  }

  // ---- The characters and the shape of a line ----

  /** Line feed, vertical tab, form feed, carriage return, three separators, next line, and two Unicode separators. */
  lemma BreaksAre(c: char)
    ensures IsBreak(c) <==> c in "\n\U{0B}\U{0C}\r\U{1C}\U{1D}\U{1E}\U{85}\U{2028}\U{2029}"
  {
  }

  /** The breaks, tab, unit separator, space, and the spaces Unicode names. */
  lemma SpacesAre(c: char)
    ensures IsSpace(c) <==>
            || IsBreak(c) || c in "\t\U{1F} \U{A0}\U{1680}\U{202F}\U{205F}\U{3000}"
            || c in "\U{2000}\U{2001}\U{2002}\U{2003}\U{2004}\U{2005}\U{2006}\U{2007}\U{2008}\U{2009}\U{200A}"
  {
    WideSpaces(c);
    var few := "\t\U{1F} \U{A0}\U{1680}\U{202F}\U{205F}\U{3000}";
    assert c in few <==> (c == '\t' || c == '\U{1F}' || c == ' ' || c == '\U{A0}' || c == '\U{1680}'
                          || c == '\U{202F}' || c == '\U{205F}' || c == '\U{3000}');
  }

  lemma WideSpaces(c: char)
    ensures '\U{2000}' <= c <= '\U{200A}' <==>
            c in "\U{2000}\U{2001}\U{2002}\U{2003}\U{2004}\U{2005}\U{2006}\U{2007}\U{2008}\U{2009}\U{200A}"
  {
  }

  /** One line: no break before its last character, unless the last two are a carriage return and a line feed. */
  lemma {:induction false} OneLineMeans(line: string)
    ensures OneLine(line) <==>
            && line != ""
            && forall i | 0 <= i < |line| - 1 && IsBreak(line[i]) ::
                 i == |line| - 2 && line[i] == '\r' && line[i + 1] == '\n'
    decreases |line|
  {
    hide IsBreak;
    ReturnIsBreak();
    if 1 < |line| && !IsBreak(line[0]) {
      var rest := line[1..];
      OneLineMeans(rest);
      assert OneLine(line) <==> OneLine(rest);
      assert forall i | 1 <= i < |line| - 1 :: line[i] == rest[i - 1] && line[i + 1] == rest[i];
    }
  }

  lemma ReturnIsBreak()
    ensures IsBreak('\r') && IsBreak('\n')
  {
  }
}
