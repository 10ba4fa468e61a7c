/** Where every line of a called action ends up in the expanded workflow, and in which column. */
module WorkflowText {
  import opened Collections
  import opened Sorting
  import opened TextLines
  import opened WorkflowEdits

  // ---- The text put in place of one call ----

  /** A line of an action's step, with the column its step stands at in the action. */
  datatype SourceLine = SourceLine(text: string, column: int)

  /** All lines of the called action's steps, in order. */
  function SourceLines(parts: seq<(string, int)>): seq<SourceLine> {
    if parts == [] then []
    else LinesAt(SplitLines(parts[0].0), parts[0].1) + SourceLines(parts[1..])
  }

  function LinesAt(lines: seq<string>, column: int): (r: seq<SourceLine>)
    ensures |r| == |lines| && forall i | 0 <= i < |r| :: r[i] == SourceLine(lines[i], column)
  {
    seq(|lines|, i requires 0 <= i < |lines| => SourceLine(lines[i], column))
  }

  /** The line stands that many columns further right; to the left it loses its first characters. */
  ghost predicate Stands(now: string, line: string, columns: int) {
    if Blank(line) then now == line
    else if columns >= 0 then
      |now| == columns + |line| && (forall i | 0 <= i < columns :: now[i] == ' ') && now[columns..] == line
    else if -columns <= |line| then now == line[-columns..]
    else now == ""
  }

  /** Line by line, the action's lines moved from the columns of their steps to the column of the call. */
  ghost predicate MovedTo(moved: seq<string>, parts: seq<(string, int)>, column: int) {
    && |moved| == |SourceLines(parts)|
    && forall i | 0 <= i < |moved| ::
         Stands(moved[i], SourceLines(parts)[i].text, column - SourceLines(parts)[i].column)
  }

  lemma ShiftedStands(line: string, columns: int)
    ensures Stands(ShiftLine(line, columns), line, columns)
  {
    hide Blank;
    if !Blank(line) && columns >= 0 { assert (Spaces(columns) + line)[columns..] == line; }
  }

  lemma {:induction false} BodyAtFront(parts: seq<(string, int)>, column: int)
    requires parts != []
    ensures Body(parts, column) == Shift(parts[0].0, column - parts[0].1) + Body(parts[1..], column)
    decreases |parts|
  {
    hide Shift;
    if 1 < |parts| {
      var init := parts[..|parts| - 1];
      BodyAtFront(init, column);
      assert init[1..] == parts[1..][..|parts| - 2];
    }
  }

  lemma PartIsMoved(block: string, columns: int) returns (moved: seq<string>)
    ensures Join(moved) == Shift(block, columns) && |moved| == |SplitLines(block)|
    ensures forall i | 0 <= i < |moved| :: Stands(moved[i], SplitLines(block)[i], columns)
  {
    hide ShiftLine, Stands, SplitLines, Join;
    var lines := SplitLines(block);
    moved := ShiftLines(lines, columns);
    forall i | 0 <= i < |lines|
      ensures Stands(moved[i], lines[i], columns)
    {
      ShiftedStands(lines[i], columns);
    }
  }

  lemma MovedOneMore(first: seq<string>, rest: seq<string>, parts: seq<(string, int)>, column: int)
    requires parts != [] && |first| == |SplitLines(parts[0].0)| && MovedTo(rest, parts[1..], column)
    requires forall i | 0 <= i < |first| :: Stands(first[i], SplitLines(parts[0].0)[i], column - parts[0].1)
    ensures MovedTo(first + rest, parts, column)
  {
    hide Stands, SplitLines;
    assert SourceLines(parts) == LinesAt(SplitLines(parts[0].0), parts[0].1) + SourceLines(parts[1..]);
    hide SourceLines;
  }

  /**
    The text in place of a call is, line by line and in the order of the parts, the action's lines,
    each moved by the distance between the column of the call and the column of its step.
   */
  lemma {:induction false} BodyIsMoved(parts: seq<(string, int)>, column: int) returns (moved: seq<string>)
    ensures MovedTo(moved, parts, column) && Join(moved) == Body(parts, column)
    decreases |parts|
  {
    hide Stands, SplitLines, Join, Body, MovedTo, SourceLines, Shift;
    if parts == [] {
      moved := [];
      NothingMoved(column);
    } else {
      var first := PartIsMoved(parts[0].0, column - parts[0].1);
      var rest := BodyIsMoved(parts[1..], column);
      moved := first + rest;
      JoinConcat(first, rest);
      BodyAtFront(parts, column);
      MovedOneMore(first, rest, parts, column);
    }
  }

  lemma NothingMoved(column: int)
    ensures Join([]) == Body([], column) && MovedTo([], [], column)
  {
  }

  // ---- Columns, when only spaces are cut ----

  /** The number of spaces a line starts with. */
  function Lead(line: string): (n: nat)
    ensures n <= |line| && forall i | 0 <= i < n :: line[i] == ' '
    ensures n < |line| ==> line[n] != ' '
  {
    if line == "" || line[0] != ' ' then 0
    else
      assert forall i | 0 < i <= Lead(line[1..]) :: line[i] == line[1..][i - 1];
      1 + Lead(line[1..])
  }

  lemma LeadIs(line: string, n: nat)
    requires n < |line| && line[n] != ' ' && forall i | 0 <= i < n :: line[i] == ' '
    ensures Lead(line) == n
  {
  }

  lemma OnlySpaces(line: string)
    requires Lead(line) == |line|
    ensures Blank(line)
  {
  }

  /** A nonblank line with enough spaces in front keeps its text and stands exactly that much further right. */
  lemma StandsInColumn(now: string, line: string, columns: int)
    requires Stands(now, line, columns) && !Blank(line) && -columns <= Lead(line)
    ensures Lead(now) == Lead(line) + columns && now[Lead(now)..] == line[Lead(line)..]
  {
    var n := Lead(line);
    if n == |line| { OnlySpaces(line); }
    if columns >= 0 {
      assert now[columns..][n] == line[n];
      assert forall i | columns <= i < columns + n :: now[i] == now[columns..][i - columns];
      LeadIs(now, n + columns);
      assert now[n + columns..] == now[columns..][n..];
    } else {
      LeadIs(now, n + columns);
    }
  }

  /** Every nonblank line of a part has at least the spaces a move to the left takes away. */
  ghost predicate RoomToMove(parts: seq<(string, int)>, column: int) {
    forall l | l in SourceLines(parts) && !Blank(l.text) :: l.column - column <= Lead(l.text)
  }

  /** NO TEXT IS LOST, and every line of the action keeps its place relative to the other lines of its step. */
  lemma MovedKeepsText(moved: seq<string>, parts: seq<(string, int)>, column: int, i: nat)
    requires MovedTo(moved, parts, column) && RoomToMove(parts, column) && i < |moved|
    ensures var l := SourceLines(parts)[i];
            if Blank(l.text) then moved[i] == l.text
            else && Lead(moved[i]) == Lead(l.text) + (column - l.column)
                 && moved[i][Lead(moved[i])..] == l.text[Lead(l.text)..]
  {
    hide SourceLines, Blank;
    var l := SourceLines(parts)[i];
    assert l in SourceLines(parts) && Stands(moved[i], l.text, column - l.column);
    if !Blank(l.text) { StandsInColumn(moved[i], l.text, column - l.column); }
  }

  // ---- In the whole document ----

  lemma {:induction false} TextStands(lines: seq<string>, es: seq<Edit>, from: nat, k: nat)
      returns (before: string, after: string)
    requires InOrder(es, |lines|) && from <= |lines| && (es != [] ==> from <= es[0].first) && k < |es|
    ensures SplicedText(lines, es, from) == before + es[k].text + after
    decreases |es|
  {
    hide Join;
    TailInOrder(es, 1, |lines|);
    var kept, rest := Join(lines[from..es[0].first]), SplicedText(lines, es[1..], es[0].last);
    if k == 0 {
      before, after := kept, rest;
    } else {
      var above;
      above, after := TextStands(lines, es[1..], es[0].last, k - 1);
      before := kept + es[0].text + above;
      assert es[1..][k - 1] == es[k];
    }
  }

  /** An edit that shares its range with no other one survives the collapse. */
  lemma {:induction false} LoneEditStays(es: seq<Edit>, e: Edit)
    requires e in es && forall x | x in es && Shares(x, e) :: x == e
    ensures e in Collapsed(es)
    decreases |es|
  {
    if 1 < |es| {
      if e != es[0] {
        assert e in es[1..];
        LoneEditStays(es[1..], e);
      }
      var rest := Collapsed(es[1..]);
      assert rest == [rest[0]] + rest[1..];
    }
  }

  /** An edit that stands at this step and holds the moved lines of its action. */
  ghost predicate AtCall(jobs: seq<Job>, j: nat, i: nat, e: Edit)
    requires j < |jobs| && i < |jobs[j].steps|
  {
    var s := jobs[j].steps[i];
    && s.call.Some? && e.first == s.first && e.last == s.last && e.text == Body(s.call.value.parts, s.column)
  }

  ghost predicate FromCall(jobs: seq<Job>, e: Edit) {
    exists j, i :: 0 <= j < |jobs| && 0 <= i < |jobs[j].steps| && AtCall(jobs, j, i, e)
  }

  /** An edit that stands at the job's outputs and holds what the call of this step makes of them. */
  ghost predicate AtRewriting(jobs: seq<Job>, j: nat, i: nat, e: Edit)
    requires j < |jobs| && i < |jobs[j].steps|
  {
    var s := jobs[j].steps[i];
    && s.call.Some? && s.call.value.outputs.Some? && AtOutputs(jobs[j], e) && e.text == s.call.value.outputs.value
  }

  ghost predicate FromOutputs(jobs: seq<Job>, e: Edit) {
    exists j, i :: 0 <= j < |jobs| && 0 <= i < |jobs[j].steps| && AtRewriting(jobs, j, i, e)
  }

  /** The call of this step rewrites the outputs of its job. */
  predicate Rewrites(jobs: seq<Job>, j: nat, i: nat)
    requires j < |jobs| && i < |jobs[j].steps|
  {
    jobs[j].outputs.Some? && jobs[j].steps[i].call.Some? && jobs[j].steps[i].call.value.outputs.Some?
  }

  lemma {:induction false} StepEditsAre(jobs: seq<Job>, j: nat, k: nat)
    requires j < |jobs| && k <= |jobs[j].steps|
    ensures var es := StepsEdits(jobs[j].steps[..k], jobs[j].outputs);
            && (forall e | e in es :: FromCall(jobs, e) || FromOutputs(jobs, e))
            && (forall i | 0 <= i < k && jobs[j].steps[i].call.Some? ::
                  exists e :: e in es && AtCall(jobs, j, i, e))
            && (forall i | 0 <= i < k && Rewrites(jobs, j, i) :: exists e :: e in es && AtRewriting(jobs, j, i, e))
    decreases k
  {
    hide Body, StepsEdits;
    NextStepEdits(jobs[j].steps, jobs[j].outputs, 0);
    if 0 < k {
      NextStepEdits(jobs[j].steps, jobs[j].outputs, k - 1);
      StepEditsAre(jobs, j, k - 1);
      OneStepsEdits(jobs, j, k - 1);
    }
  }

  lemma OneStepsEdits(jobs: seq<Job>, j: nat, i: nat)
    requires j < |jobs| && i < |jobs[j].steps|
    ensures var es := StepEdits(jobs[j].steps[i], jobs[j].outputs);
            && (forall e | e in es :: FromCall(jobs, e) || FromOutputs(jobs, e))
            && (jobs[j].steps[i].call.Some? ==> exists e :: e in es && AtCall(jobs, j, i, e))
            && (Rewrites(jobs, j, i) ==> exists e :: e in es && AtRewriting(jobs, j, i, e))
  {
    hide Body;
    var s := jobs[j].steps[i];
    if s.call.Some? {
      var own := Edit(s.first, s.last, Body(s.call.value.parts, s.column));
      assert AtCall(jobs, j, i, own) && StepEdits(s, jobs[j].outputs)[0] == own;
      forall e | e in StepEdits(s, jobs[j].outputs)
        ensures FromCall(jobs, e) || FromOutputs(jobs, e)
      {
        if e != own { assert AtRewriting(jobs, j, i, e); }
      }
      if Rewrites(jobs, j, i) { assert AtRewriting(jobs, j, i, StepEdits(s, jobs[j].outputs)[1]); }
    }
  }

  lemma {:induction false} JobEditsAre(jobs: seq<Job>, n: nat)
    requires n <= |jobs|
    ensures forall e | e in JobsEdits(jobs[..n]) :: FromCall(jobs, e) || FromOutputs(jobs, e)
    ensures forall j, i | 0 <= j < n && 0 <= i < |jobs[j].steps| && jobs[j].steps[i].call.Some? ::
              exists e :: e in JobsEdits(jobs[..n]) && AtCall(jobs, j, i, e)
    ensures forall j, i | 0 <= j < n && 0 <= i < |jobs[j].steps| && Rewrites(jobs, j, i) ::
              exists e :: e in JobsEdits(jobs[..n]) && AtRewriting(jobs, j, i, e)
    decreases n
  {
    hide FromCall, FromOutputs, AtCall, AtRewriting, Rewrites, StepsEdits;
    if 0 < n {
      JobEditsAre(jobs, n - 1);
      JobsEditsSnoc(jobs[..n]);
      assert jobs[..n][..n - 1] == jobs[..n - 1] && jobs[n - 1].steps[..|jobs[n - 1].steps|] == jobs[n - 1].steps;
      StepEditsAre(jobs, n - 1, |jobs[n - 1].steps|);
    }
  }

  lemma {:induction false} StartsAscend(jobs: seq<Job>, starts: seq<nat>, n: nat, a: nat, b: nat)
    requires Document(jobs, starts, n) && a <= b <= |jobs|
    ensures starts[a] <= starts[b]
    decreases b
  {
    if a < b { StartsAscend(jobs, starts, n, a, b - 1); }
  }

  /** Edits of different jobs do not share a range. */
  lemma SharedWithinJob(jobs: seq<Job>, starts: seq<nat>, n: nat, j: nat, k: nat, e: Edit, x: Edit)
    requires Document(jobs, starts, n) && j < |jobs| && k < |jobs| && Shares(x, e)
    requires starts[j] <= e.first < e.last <= starts[j + 1] && starts[k] <= x.first < x.last <= starts[k + 1]
    ensures k == j
  {
    hide Document;
    if k < j { StartsAscend(jobs, starts, n, k + 1, j); }
    if j < k { StartsAscend(jobs, starts, n, j + 1, k); }
  }

  lemma LaidOutAt(jobs: seq<Job>, starts: seq<nat>, n: nat, j: nat)
    requires Document(jobs, starts, n) && j < |jobs|
    ensures |starts| == |jobs| + 1 && LaidOut(jobs[j], starts[j], starts[j + 1])
  {
    hide LaidOut;
  }

  /** Nothing but the edit of a call itself stands at its step. */
  lemma CallStandsAlone(jobs: seq<Job>, starts: seq<nat>, n: nat, j: nat, i: nat, e: Edit, x: Edit)
    requires Document(jobs, starts, n) && j < |jobs| && i < |jobs[j].steps| && AtCall(jobs, j, i, e)
    requires (FromCall(jobs, x) || FromOutputs(jobs, x)) && Shares(x, e)
    ensures x == e
  {
    hide Document, Body;
    LaidOutAt(jobs, starts, n, j);
    if FromCall(jobs, x) {
      var k, m :| 0 <= k < |jobs| && 0 <= m < |jobs[k].steps| && AtCall(jobs, k, m, x);
      LaidOutAt(jobs, starts, n, k);
      SharedWithinJob(jobs, starts, n, j, k, e, x);
    } else {
      var k, m :| 0 <= k < |jobs| && 0 <= m < |jobs[k].steps| && AtRewriting(jobs, k, m, x);
      LaidOutAt(jobs, starts, n, k);
      SharedWithinJob(jobs, starts, n, j, k, e, x);
    }
  }

  /**
    EVERY CALL IS EXPANDED IN PLACE.  In a document whose jobs rewrite their outputs cleanly, the
    expanded text holds, for every call, the lines of its action in the columns of the calling step.
   */
  lemma EveryCallIsExpanded(text: string, jobs: seq<Job>, starts: seq<nat>, j: nat, i: nat)
      returns (before: string, moved: seq<string>, after: string)
    requires Document(jobs, starts, |SplitLines(text)|) && forall job | job in jobs :: RewritesCleanly(job)
    requires j < |jobs| && i < |jobs[j].steps| && jobs[j].steps[i].call.Some?
    ensures MovedTo(moved, jobs[j].steps[i].call.value.parts, jobs[j].steps[i].column)
    ensures var lines, es := SplitLines(text), Sort(JobsEdits(jobs), EditLeq);
            Stacked(es, |lines|) && SplicedAllText(lines, es) == before + Join(moved) + after
  {
    hide *;
    var lines, edits := SplitLines(text), JobsEdits(jobs);
    var es := Sort(edits, EditLeq);
    DocumentSorts(jobs, starts, |lines|);
    EditTotal();
    SortAscends(edits, EditLeq);
    SameMembers(edits, es);
    assert jobs[..|jobs|] == jobs;
    JobEditsAre(jobs, |jobs|);
    var e :| e in edits && AtCall(jobs, j, i, e);
    forall x | x in es && Shares(x, e)
      ensures x == e
    {
      CallStandsAlone(jobs, starts, |lines|, j, i, e, x);
    }
    LoneEditStays(es, e);
    CollapsedInOrder(es, |lines|);
    var k :| 0 <= k < |Collapsed(es)| && Collapsed(es)[k] == e;
    before, after := TextStands(lines, Collapsed(es), 0, k);
    AllTextIs(lines, es);
    CallText(jobs, j, i, e);
    moved := BodyIsMoved(jobs[j].steps[i].call.value.parts, jobs[j].steps[i].column);
  }

  lemma EditTransitive(a: Edit, b: Edit, c: Edit)
    requires EditLeq(a, b) && EditLeq(b, c)
    ensures EditLeq(a, c)
  {
    if a.first == b.first == c.first && a.last == b.last == c.last { StringTransitive(a.text, b.text, c.text); }
  }

  lemma AscendingTail(es: seq<Edit>)
    requires es != [] && Ascending(es, EditLeq)
    ensures Ascending(es[1..], EditLeq) && (1 < |es| ==> EditLeq(es[0], es[1]))
  {
    hide EditLeq;
    forall i | 0 < i < |es[1..]|
      ensures EditLeq(es[1..][i - 1], es[1..][i])
    {
      assert EditLeq(es[i], es[i + 1]);
    }
  }

  /** Of the edits that share a range with this one, the collapse holds one that is not after it. */
  lemma {:induction false} CollapsedHoldsLeast(es: seq<Edit>, x: Edit) returns (c: Edit)
    requires Ascending(es, EditLeq) && x in es
    ensures c in Collapsed(es) && c in es && (c == x || Shares(c, x)) && EditLeq(c, x)
    decreases |es|
  {
    hide EditLeq, Ascending;
    EditTotal();
    AscendingTail(es);
    if x == es[0] {
      assert EditLeq(x, x) || EditLeq(x, x);
      return x;
    }
    assert x in es[1..];
    c := CollapsedHoldsLeast(es[1..], x);
    var rest := Collapsed(es[1..]);
    assert rest == [rest[0]] + rest[1..] && rest[0] == es[1];
    if Shares(es[0], es[1]) && c !in rest[1..] {
      EditTransitive(es[0], es[1], x);
      c := es[0];
    }
  }

  /** What shares a range with the outputs of a job rewrites them. */
  lemma SharesOutputs(jobs: seq<Job>, starts: seq<nat>, n: nat, j: nat, i: nat, e: Edit, x: Edit) returns (m: nat)
    requires Document(jobs, starts, n) && j < |jobs| && i < |jobs[j].steps| && AtRewriting(jobs, j, i, e)
    requires (FromCall(jobs, x) || FromOutputs(jobs, x)) && (x == e || Shares(x, e))
    ensures m < |jobs[j].steps| && AtRewriting(jobs, j, m, x)
  {
    hide Document, Body;
    LaidOutAt(jobs, starts, n, j);
    if x == e {
      m := i;
    } else if FromOutputs(jobs, x) {
      var k, l :| 0 <= k < |jobs| && 0 <= l < |jobs[k].steps| && AtRewriting(jobs, k, l, x);
      LaidOutAt(jobs, starts, n, k);
      SharedWithinJob(jobs, starts, n, j, k, e, x);
      m := l;
    } else {
      var k, l :| 0 <= k < |jobs| && 0 <= l < |jobs[k].steps| && AtCall(jobs, k, l, x);
      LaidOutAt(jobs, starts, n, k);
      SharedWithinJob(jobs, starts, n, j, k, e, x);
      assert false;
    }
  }

  /**
    EVERY REWRITTEN BLOCK STANDS.  In such a document the expanded text holds, for every job whose outputs are
    rewritten, one of the rewritten texts, and none of them comes before it.
   */
  lemma EveryRewritingStands(text: string, jobs: seq<Job>, starts: seq<nat>, j: nat, i: nat)
      returns (before: string, m: nat, after: string)
    requires Document(jobs, starts, |SplitLines(text)|) && forall job | job in jobs :: RewritesCleanly(job)
    requires j < |jobs| && i < |jobs[j].steps| && Rewrites(jobs, j, i)
    ensures m < |jobs[j].steps| && Rewrites(jobs, j, m)
    ensures !Before(jobs[j].steps[i].call.value.outputs.value, jobs[j].steps[m].call.value.outputs.value)
    ensures var lines, es := SplitLines(text), Sort(JobsEdits(jobs), EditLeq);
            && Stacked(es, |lines|)
            && SplicedAllText(lines, es) == before + jobs[j].steps[m].call.value.outputs.value + after
  {
    hide *;
    var lines, edits := SplitLines(text), JobsEdits(jobs);
    var es := Sort(edits, EditLeq);
    DocumentSorts(jobs, starts, |lines|);
    EditTotal();
    SortAscends(edits, EditLeq);
    SameMembers(edits, es);
    assert jobs[..|jobs|] == jobs;
    JobEditsAre(jobs, |jobs|);
    var e :| e in edits && AtRewriting(jobs, j, i, e);
    var c := CollapsedHoldsLeast(es, e);
    m := SharesOutputs(jobs, starts, |lines|, j, i, e, c);
    var k :| 0 <= k < |Collapsed(es)| && Collapsed(es)[k] == c;
    AllTextIs(lines, es);
    before, after := TextStands(lines, Collapsed(es), 0, k);
    RewritingText(jobs, j, i, e);
    RewritingText(jobs, j, m, c);
    NotBeforeLeast(c, e);
  }

  lemma RewritingText(jobs: seq<Job>, j: nat, i: nat, e: Edit)
    requires j < |jobs| && i < |jobs[j].steps| && AtRewriting(jobs, j, i, e)
    ensures Rewrites(jobs, j, i) && e.text == jobs[j].steps[i].call.value.outputs.value
  {
  }

  lemma NotBeforeLeast(c: Edit, e: Edit)
    requires EditLeq(c, e) && (c == e || Shares(c, e))
    ensures !Before(e.text, c.text)
  {
    hide Before;
    BeforeMeans(e.text, c.text);
    if StringLeq(e.text, c.text) && StringLeq(c.text, e.text) { StringAntisymmetric(e.text, c.text); }
  }

  lemma CallText(jobs: seq<Job>, j: nat, i: nat, e: Edit)
    requires j < |jobs| && i < |jobs[j].steps| && AtCall(jobs, j, i, e)
    ensures jobs[j].steps[i].call.Some?
            && e.text == Body(jobs[j].steps[i].call.value.parts, jobs[j].steps[i].column)
  {
  }

  lemma AllTextIs(lines: seq<string>, es: seq<Edit>)
    requires Stacked(es, |lines|)
    ensures InOrder(Collapsed(es), |lines|)
            && (Collapsed(es) != [] ==> 0 <= Collapsed(es)[0].first)
            && SplicedAllText(lines, es) == SplicedText(lines, Collapsed(es), 0)
  {
    CollapsedInOrder(es, |lines|);
  }

  // ---- Which of two rewritings stands ----

  /** Edits are ordered by their first line, then their last line, then the characters of their texts. */
  lemma EditOrderMeans(a: Edit, b: Edit)
    ensures EditLeq(a, b) && a != b <==>
            || a.first < b.first
            || (a.first == b.first && a.last < b.last)
            || (a.first == b.first && a.last == b.last && Before(a.text, b.text))
  {
    hide StringLeq, Before;
    BeforeMeans(a.text, b.text);
    if a == b { StringTotalFor(a.text, a.text); }
  }

  /** Of two edits of one range the text that comes first by its characters stands, whichever was found first. */
  lemma SmallerTextStands(lines: seq<string>, a: Edit, b: Edit)
    requires Shares(a, b) && a.last <= |lines| && FillsRange(b) && Before(a.text, b.text)
    ensures Sort([a, b], EditLeq) == [a, b] == Sort([b, a], EditLeq)
    ensures Layered([a, b], |lines|) && Overlaid(lines, [a, b], 0) == Replace(lines, a)
  {
    hide StringLeq, Before, SplitLines, Replace;
    EditOrderMeans(a, b);
    EditTotal();
    BackwardsIsNotOrdered(a, b);
    SortOfTwo(a, b);
    SortOfTwo(b, a);
    assert [a, b][1..] == [b] && [b][1..] == [];
    OneMoreLayered(lines, [a, b]);
    OneMoreLayered(lines, [b]);
    assert Overlaid(lines, [], 0) == lines;
    SharedRangeKeepsOne(lines, a, b);
  }

  lemma BackwardsIsNotOrdered(a: Edit, b: Edit)
    requires EditLeq(a, b) && a != b
    ensures !EditLeq(b, a)
  {
    if EditLeq(b, a) && a.first == b.first && a.last == b.last { StringAntisymmetric(a.text, b.text); }
  }

  lemma SortOfTwo(a: Edit, b: Edit)
    ensures Sort([a, b], EditLeq) == if EditLeq(a, b) then [a, b] else [b, a]
  {
    hide EditLeq;
    assert [a, b][1..] == [b] && [b][1..] == [];
    assert Sort([], EditLeq) == [] && Sort([b], EditLeq) == Insert(b, [], EditLeq) == [b];
    assert Sort([a, b], EditLeq) == Insert(a, [b], EditLeq);
    assert Insert(a, [], EditLeq) == [a];
  }
}
