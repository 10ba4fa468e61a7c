/** What each number and class of an accounting means, in the names of the six result lists. */
module MrtsOutcomes {
  import opened Wrappers
  import opened Characters
  import opened Collections
  import opened MrtsResults
  import opened MrtsEvidence

  /** How often a list names the id; unreadable lists name nothing. */
  function Times(stats: Stats, field: string, id: string): nat {
    match Ids(stats, field)
    case Err(_) => 0
    case Ok(ids) => multiset(ids)[id]
  }

  /** How often the id is reported in all. */
  function AllTimes(stats: Stats, id: string): nat {
    Times(stats, "success", id) + Times(stats, "failed", id) + Times(stats, "skipped", id)
    + Times(stats, "ignored", id) + Times(stats, "forced-pass", id) + Times(stats, "forced-fail", id)
  }

  function Length(stats: Stats, field: string): nat {
    match Ids(stats, field)
    case Err(_) => 0
    case Ok(ids) => |ids|
  }

  function AllLengths(stats: Stats): nat {
    Length(stats, "success") + Length(stats, "failed") + Length(stats, "skipped")
    + Length(stats, "ignored") + Length(stats, "forced-pass") + Length(stats, "forced-fail")
  }

  ghost predicate SixReadable(stats: Stats) {
    && Ids(stats, "success").Ok? && Ids(stats, "failed").Ok? && Ids(stats, "skipped").Ok?
    && Ids(stats, "ignored").Ok? && Ids(stats, "forced-pass").Ok? && Ids(stats, "forced-fail").Ok?
  }

  // ---- The six lists, one after the other ----

  function ListOf(stats: Stats, field: string, outcome: Outcome): seq<Event> {
    match Ids(stats, field)
    case Err(_) => []
    case Ok(ids) => Tagged(ids, outcome)
  }

  function SixLists(stats: Stats): seq<Event> {
    ListOf(stats, "success", PASS) + ListOf(stats, "failed", FAIL) + ListOf(stats, "skipped", SKIP)
    + ListOf(stats, "ignored", IGNORED) + ListOf(stats, "forced-pass", FORCED_PASS)
    + ListOf(stats, "forced-fail", FORCED_FAIL)
  }

  lemma ListStep(stats: Stats, f: nat, field: string, outcome: Outcome, before: seq<Event>)
    requires f < |FIELDS| && FIELDS[f] == (field, outcome)
    requires Events(stats, FIELDS[..f]) == Ok(before)
    ensures if Ids(stats, field).Ok? then Events(stats, FIELDS[..f + 1]) == Ok(before + ListOf(stats, field, outcome))
            else Events(stats, FIELDS).Err?
  {
    hide Ids;
    EventsStep(stats, f);
    if Ids(stats, field).Err? { EventsFail(stats, f + 1); }
  }

  lemma EventsAreSixLists(stats: Stats)
    ensures if SixReadable(stats) then Events(stats, FIELDS) == Ok(SixLists(stats)) else Events(stats, FIELDS).Err?
  {
    hide Events, Ids, ListOf;
    var a, b := ListOf(stats, "success", PASS), ListOf(stats, "failed", FAIL);
    var c, d := ListOf(stats, "skipped", SKIP), ListOf(stats, "ignored", IGNORED);
    var e, f := ListOf(stats, "forced-pass", FORCED_PASS), ListOf(stats, "forced-fail", FORCED_FAIL);
    NoEvents(stats);
    ListStep(stats, 0, "success", PASS, []);
    assert [] + a == a;
    assert FIELDS[..6] == FIELDS;
    if Ids(stats, "success").Err? { return; }
    ListStep(stats, 1, "failed", FAIL, a);
    if Ids(stats, "failed").Err? { return; }
    ListStep(stats, 2, "skipped", SKIP, a + b);
    if Ids(stats, "skipped").Err? { return; }
    ListStep(stats, 3, "ignored", IGNORED, a + b + c);
    if Ids(stats, "ignored").Err? { return; }
    ListStep(stats, 4, "forced-pass", FORCED_PASS, a + b + c + d);
    if Ids(stats, "forced-pass").Err? { return; }
    ListStep(stats, 5, "forced-fail", FORCED_FAIL, a + b + c + d + e);
  }

  lemma NoEvents(stats: Stats)
    ensures FIELDS[..0] == [] && Events(stats, []) == Ok([])
  {
  }

  lemma {:induction false} ValuesConcat(a: seq<Event>, b: seq<Event>, id: string)
    ensures Values(a + b, id) == Values(a, id) + Values(b, id)
    decreases |b|
  {
    if b == [] {
      assert a + b == a;
    } else {
      assert (a + b)[..|a + b| - 1] == a + b[..|b| - 1];
      ValuesConcat(a, b[..|b| - 1], id);
    }
  }

  lemma ListValues(stats: Stats, field: string, outcome: Outcome, id: string)
    ensures |ListOf(stats, field, outcome)| == Length(stats, field)
    ensures var vs := Values(ListOf(stats, field, outcome), id);
            |vs| == Times(stats, field, id) && (Times(stats, field, id) == 1 ==> vs == [outcome])
  {
    hide Ids;
    if Ids(stats, field).Ok? {
      ValuesCount(Ids(stats, field).value, outcome, id);
      var vs := Values(ListOf(stats, field, outcome), id);
      if |vs| == 1 { assert vs[0] in vs; }
    }
  }

  /** The one outcome an id has that is reported once. */
  ghost predicate OnlyIn(stats: Stats, field: string, id: string) {
    Times(stats, field, id) == 1 && AllTimes(stats, id) == 1
  }

  ghost predicate IsOutcome(stats: Stats, id: string, o: Outcome) {
    match o
    case PASS => OnlyIn(stats, "success", id)
    case FAIL => OnlyIn(stats, "failed", id)
    case SKIP => OnlyIn(stats, "skipped", id)
    case IGNORED => OnlyIn(stats, "ignored", id)
    case FORCED_PASS => OnlyIn(stats, "forced-pass", id)
    case FORCED_FAIL => OnlyIn(stats, "forced-fail", id)
    case INVALID => AllTimes(stats, id) > 1
    case UNEXPECTED => false
  }

  lemma SixValues(stats: Stats, id: string)
    ensures |SixLists(stats)| == AllLengths(stats)
    ensures |Values(SixLists(stats), id)| == AllTimes(stats, id)
    ensures AllTimes(stats, id) == 1 ==>
              forall o :: IsOutcome(stats, id, o) <==> Values(SixLists(stats), id) == [o]
  {
    hide Values, ListOf, Times, Length;
    var a, b := ListOf(stats, "success", PASS), ListOf(stats, "failed", FAIL);
    var c, d := ListOf(stats, "skipped", SKIP), ListOf(stats, "ignored", IGNORED);
    var e, f := ListOf(stats, "forced-pass", FORCED_PASS), ListOf(stats, "forced-fail", FORCED_FAIL);
    ValuesConcat(a, b, id);
    ValuesConcat(a + b, c, id);
    ValuesConcat(a + b + c, d, id);
    ValuesConcat(a + b + c + d, e, id);
    ValuesConcat(a + b + c + d + e, f, id);
    ListValues(stats, "success", PASS, id);
    ListValues(stats, "failed", FAIL, id);
    ListValues(stats, "skipped", SKIP, id);
    ListValues(stats, "ignored", IGNORED, id);
    ListValues(stats, "forced-pass", FORCED_PASS, id);
    ListValues(stats, "forced-fail", FORCED_FAIL, id);
    if AllTimes(stats, id) == 1 {
      var o := TheOutcome(stats, id);
      OneOutcome(stats, id, o);
      assert Values(SixLists(stats), id) == [o] by { EveryOutcome(o); }
    }
  }

  /** An id that is reported once has the outcome of one list, and no other. */
  lemma TheOutcome(stats: Stats, id: string) returns (o: Outcome)
    requires AllTimes(stats, id) == 1
    ensures IsOutcome(stats, id, o)
  {
    hide Times;
    o := if Times(stats, "success", id) == 1 then PASS
         else if Times(stats, "failed", id) == 1 then FAIL
         else if Times(stats, "skipped", id) == 1 then SKIP
         else if Times(stats, "ignored", id) == 1 then IGNORED
         else if Times(stats, "forced-pass", id) == 1 then FORCED_PASS
         else FORCED_FAIL;
  }

  lemma OneOutcome(stats: Stats, id: string, o: Outcome)
    requires AllTimes(stats, id) == 1 && IsOutcome(stats, id, o)
    ensures forall x :: IsOutcome(stats, id, x) <==> x == o
  {
    hide Times;
    forall x
      ensures IsOutcome(stats, id, x) <==> x == o
    {
      EveryOutcome(x);
      EveryOutcome(o);
    }
  }

  // ---- Classes ----

  /** With a selection only selected ids are wanted; without one every id is. */
  predicate Wanted(selected: seq<string>, id: string) {
    selected == [] || id in selected
  }

  lemma SelectedSet(selected: seq<string>, id: string)
    ensures id in SetOf(selected) <==> id in selected
    ensures SetOf(selected) == {} <==> selected == []
  {
    if selected != [] { assert selected[0] in SetOf(selected); }
  }

  lemma OutcomesOf(selected: seq<string>, stats: Stats)
    requires ObservedResults(selected, stats).Ok?
    ensures SixReadable(stats)
    ensures ObservedResults(selected, stats).value.outcomes == Outcomes(SixLists(stats), SetOf(selected))
  {
    hide SixReadable, SixLists, Outcomes, AllComplaints, Events, SelectionProblems, Cases, Count;
    EventsAreSixLists(stats);
  }

  /**
    ONE CLASS PER CASE.  A case is listed exactly when some list names it; it is UNEXPECTED exactly
    when it is not wanted, INVALID exactly when it is reported more than once, and otherwise has the
    outcome of the one list that names it.
   */
  lemma ClassOfCase(selected: seq<string>, stats: Stats, id: string)
    requires ObservedResults(selected, stats).Ok?
    ensures var outcomes := ObservedResults(selected, stats).value.outcomes;
            && (id in outcomes <==> AllTimes(stats, id) > 0)
            && (id in outcomes && !Wanted(selected, id) ==> outcomes[id] == UNEXPECTED)
            && (id in outcomes && Wanted(selected, id) ==>
                  forall o :: outcomes[id] == o <==> IsOutcome(stats, id, o))
  {
    hide ObservedResults, Values, SixLists, AllTimes, Times;
    OutcomesOf(selected, stats);
    SixValues(stats, id);
    SeenHaveValues(SixLists(stats));
    SelectedSet(selected, id);
    hide SetOf;
    forall o
      ensures IsOutcome(stats, id, o) ==> AllTimes(stats, id) > 0
    {
      EveryOutcome(o);
    }
    SomeOutcome(stats, id);
  }

  lemma SomeOutcome(stats: Stats, id: string)
    ensures AllTimes(stats, id) > 1 ==> forall o :: IsOutcome(stats, id, o) <==> o == INVALID
    ensures AllTimes(stats, id) == 1 ==> !IsOutcome(stats, id, INVALID)
  {
    hide Times;
    forall o
      ensures AllTimes(stats, id) > 1 ==> (IsOutcome(stats, id, o) <==> o == INVALID)
    {
      EveryOutcome(o);
    }
  }

  // ---- Numbers ----

  ghost predicate Holds(selected: seq<string>, stats: Stats, cases: set<string>, o: Outcome) {
    forall id :: id in cases <==> Wanted(selected, id) && IsOutcome(stats, id, o)
  }

  lemma CasesAre(selected: seq<string>, stats: Stats, o: Outcome)
    requires ObservedResults(selected, stats).Ok? && o != UNEXPECTED
    ensures Holds(selected, stats, Cases(ObservedResults(selected, stats).value.outcomes, o), o)
  {
    hide ObservedResults, IsOutcome, Wanted, AllTimes;
    var outcomes := ObservedResults(selected, stats).value.outcomes;
    forall id
      ensures id in Cases(outcomes, o) <==> Wanted(selected, id) && IsOutcome(stats, id, o)
    {
      ClassOfCase(selected, stats, id);
      OutcomeIsReported(stats, id, o);
    }
  }

  lemma OutcomeIsReported(stats: Stats, id: string, o: Outcome)
    ensures IsOutcome(stats, id, o) ==> AllTimes(stats, id) > 0
  {
    EveryOutcome(o);
  }

  /**
    EVERY NUMBER of an accounting, as the size of a set of ids read off the raw lists: passed, failed,
    skipped, ignored, forced, missing, and the totals.
   */
  lemma NumbersMean(selected: seq<string>, stats: Stats)
      returns (passed: set<string>, failed: set<string>, skipped: set<string>, ignored: set<string>,
               forcedPass: set<string>, forcedFail: set<string>)
    requires ObservedResults(selected, stats).Ok?
    ensures Holds(selected, stats, passed, PASS) && Holds(selected, stats, failed, FAIL)
    ensures Holds(selected, stats, skipped, SKIP) && Holds(selected, stats, ignored, IGNORED)
    ensures Holds(selected, stats, forcedPass, FORCED_PASS) && Holds(selected, stats, forcedFail, FORCED_FAIL)
    ensures var r := ObservedResults(selected, stats).value;
            && r.passed == |passed| && r.failed == |failed| && r.failedCases == failed
            && r.skipped == |skipped| && r.ignored == |ignored| && r.forced == |forcedPass| + |forcedFail|
            && r.executed == |passed| + |failed|
            && r.attempted == (if "run" in stats then stats["run"].i else 0)
            && r.selectedCases == (set id | id in selected) && r.selected == |r.selectedCases|
            && (forall id :: id in r.missingCases <==> id in selected && AllTimes(stats, id) == 0)
            && r.missing == |r.missingCases|
  {
    hide Holds, ObservedResults, Cases, AllTimes, IsOutcome;
    var r := ObservedResults(selected, stats).value;
    passed, failed := Cases(r.outcomes, PASS), Cases(r.outcomes, FAIL);
    skipped, ignored := Cases(r.outcomes, SKIP), Cases(r.outcomes, IGNORED);
    forcedPass, forcedFail := Cases(r.outcomes, FORCED_PASS), Cases(r.outcomes, FORCED_FAIL);
    CasesAre(selected, stats, PASS);
    CasesAre(selected, stats, FAIL);
    CasesAre(selected, stats, SKIP);
    CasesAre(selected, stats, IGNORED);
    CasesAre(selected, stats, FORCED_PASS);
    CasesAre(selected, stats, FORCED_FAIL);
    NumbersAre(selected, stats);
    forall id
      ensures id in r.outcomes <==> AllTimes(stats, id) > 0
    {
      ClassOfCase(selected, stats, id);
    }
  }

  lemma NumbersAre(selected: seq<string>, stats: Stats)
    requires ObservedResults(selected, stats).Ok?
    ensures var r := ObservedResults(selected, stats).value;
            && r.passed == |Cases(r.outcomes, PASS)| && r.failed == |Cases(r.outcomes, FAIL)|
            && r.failedCases == Cases(r.outcomes, FAIL)
            && r.skipped == |Cases(r.outcomes, SKIP)| && r.ignored == |Cases(r.outcomes, IGNORED)|
            && r.forced == |Cases(r.outcomes, FORCED_PASS)| + |Cases(r.outcomes, FORCED_FAIL)|
            && r.executed == |Cases(r.outcomes, PASS)| + |Cases(r.outcomes, FAIL)|
            && r.attempted == (if "run" in stats then stats["run"].i else 0)
            && r.selectedCases == (set id | id in selected) && r.selected == |r.selectedCases|
            && r.missingCases == r.selectedCases - r.outcomes.Keys && r.missing == |r.missingCases|
  {
    hide Outcomes, Cases, AllComplaints, SelectionProblems, Events;
  }

  // ---- Complaints ----

  lemma {:induction false} ComplaintsAre(events: seq<Event>, order: seq<string>, expected: set<string>, id: string)
    ensures Duplicate(id) in AllComplaints(events, order, expected) <==> id in order && |Values(events, id)| != 1
    ensures NotSelected(id) in AllComplaints(events, order, expected) <==>
            id in order && expected != {} && id !in expected
    ensures forall p | p in AllComplaints(events, order, expected) :: p.Duplicate? || p.NotSelected?
    decreases |order|
  {
    hide Values;
    if order != [] {
      ComplaintsAre(events, order[..|order| - 1], expected, id);
      assert order == order[..|order| - 1] + [order[|order| - 1]];
    }
  }

  lemma ErrorsAre(selected: seq<string>, stats: Stats)
    requires ObservedResults(selected, stats).Ok?
    ensures var r, events := ObservedResults(selected, stats).value, SixLists(stats);
            && r.errors == SelectionProblems(selected) + AllComplaints(events, FirstSeen(events), SetOf(selected))
                           + (if r.attempted != |events| then [TotalMismatch] else [])
                           + (if r.forced != 0 then [Forced] else [])
            && (r.complete <==> r.errors == [] && r.missingCases == {} && selected != [])
  {
    hide FirstSeen, Outcomes, SixLists, SixReadable, Events, SetOf, AllComplaints, SelectionProblems, Cases;
    EventsAreSixLists(stats);
  }

  lemma ComplaintsOf(selected: seq<string>, stats: Stats, id: string)
    ensures var all := AllComplaints(SixLists(stats), FirstSeen(SixLists(stats)), SetOf(selected));
            && (Duplicate(id) in all <==> AllTimes(stats, id) > 1)
            && (NotSelected(id) in all <==> !Wanted(selected, id) && AllTimes(stats, id) > 0)
  {
    hide Values, FirstSeen, SixLists, AllTimes, SetOf, AllComplaints;
    SeenHaveValues(SixLists(stats));
    SixValues(stats, id);
    SelectedSet(selected, id);
    ComplaintsAre(SixLists(stats), FirstSeen(SixLists(stats)), SetOf(selected), id);
  }

  lemma SelectionProblemsAre(selected: seq<string>)
    ensures EmptySelection in SelectionProblems(selected) <==> selected == []
    ensures DuplicateSelected in SelectionProblems(selected) <==> !Distinct(selected)
    ensures forall p | p in SelectionProblems(selected) :: p == EmptySelection || p == DuplicateSelected
  {
    hide SetOf, Distinct;
    SetSize(selected);
  }

  /** Which errors are recorded, and that a result is complete exactly when there are none and none is missing. */
  lemma ErrorsMean(selected: seq<string>, stats: Stats)
    requires ObservedResults(selected, stats).Ok?
    ensures var r := ObservedResults(selected, stats).value;
            && (EmptySelection in r.errors <==> selected == [])
            && (DuplicateSelected in r.errors <==> !Distinct(selected))
            && (forall id :: Duplicate(id) in r.errors <==> AllTimes(stats, id) > 1)
            && (forall id :: NotSelected(id) in r.errors <==> !Wanted(selected, id) && AllTimes(stats, id) > 0)
            && (TotalMismatch in r.errors <==> r.attempted != AllLengths(stats))
            && (Forced in r.errors <==> r.forced > 0)
            && Raised !in r.errors
            && (r.complete <==> r.errors == [] && r.missingCases == {} && selected != [])
  {
    hide *;
    ErrorsAre(selected, stats);
    SelectionProblemsAre(selected);
    SixValues(stats, "");
    ComplaintsAre(SixLists(stats), FirstSeen(SixLists(stats)), SetOf(selected), "");
    forall id
      ensures var all := AllComplaints(SixLists(stats), FirstSeen(SixLists(stats)), SetOf(selected));
              && (Duplicate(id) in all <==> AllTimes(stats, id) > 1)
              && (NotSelected(id) in all <==> !Wanted(selected, id) && AllTimes(stats, id) > 0)
    {
      ComplaintsOf(selected, stats, id);
    }
  }

  // ---- What is readable ----

  ghost predicate IsCaseText(s: string, a: string, b: string) {
    && s == a + "-" + b && a != "" && b != ""
    && (forall c | c in a :: c in DIGITS) && (forall c | c in b :: c in DIGITS)
  }

  /** Digits, a dash, digits. */
  lemma CaseIdMeans(s: string)
    ensures ValidCaseId(s) <==> exists a, b :: IsCaseText(s, a, b)
  {
    hide IsCaseText, Digits;
    if ValidCaseId(s) {
      var i :| 0 <= i < |s| && s[i] == '-' && Digits(s[..i]) && Digits(s[i + 1..]);
      CaseTextParts(s, i);
    }
    forall a, b | IsCaseText(s, a, b)
      ensures ValidCaseId(s)
    {
      CaseTextIsId(s, a, b);
    }
  }

  lemma CaseTextParts(s: string, i: nat)
    requires i < |s| && s[i] == '-' && Digits(s[..i]) && Digits(s[i + 1..])
    ensures IsCaseText(s, s[..i], s[i + 1..])
  {
    hide Digits;
    assert s == s[..i] + "-" + s[i + 1..];
    DigitsMean(s[..i]);
    DigitsMean(s[i + 1..]);
  }

  lemma CaseTextIsId(s: string, a: string, b: string)
    requires IsCaseText(s, a, b)
    ensures ValidCaseId(s)
  {
    hide Digits;
    DigitsMean(a);
    DigitsMean(b);
    assert s[|a|] == '-' && s[..|a|] == a && s[|a| + 1..] == b;
  }

  lemma DigitsMean(s: string)
    ensures Digits(s) <==> s != "" && forall c | c in s :: c in DIGITS
  {
    forall c: char
      ensures '0' <= c <= '9' <==> c in DIGITS
    {
      DigitMeans(c);
    }
    assert forall i | 0 <= i < |s| :: s[i] in s;
  }

  /** The accounting raises exactly for a bad id in the selection, an unreadable list, or a bad run count. */
  lemma AcceptedExactlyWhen(selected: seq<string>, stats: Stats)
    ensures ObservedResults(selected, stats).Ok? <==>
            && (forall id | id in selected :: ValidCaseId(id))
            && SixReadable(stats)
            && ("run" in stats ==> stats["run"].JInt? && stats["run"].i >= 0)
  {
    hide Events, SixReadable, Summary, AllComplaints, Outcomes, SixLists, ValidCaseId;
    EventsAreSixLists(stats);
    assert forall i | 0 <= i < |selected| :: selected[i] in selected;
  }

  /** A list is readable exactly when it is absent, null, or a list of case ids; it then names those. */
  lemma ListIsReadExactlyWhen(stats: Stats, field: string)
    ensures field !in stats || stats[field].JNull? ==> Ids(stats, field) == Ok([])
    ensures field in stats && !stats[field].JNull? ==>
              (Ids(stats, field).Ok? <==>
                 stats[field].JList? && forall x | x in stats[field].items :: x.JString? && ValidCaseId(x.s))
    ensures field in stats && stats[field].JList? && Ids(stats, field).Ok? ==>
              |Ids(stats, field).value| == |stats[field].items|
              && forall i | 0 <= i < |stats[field].items| ::
                   stats[field].items[i] == JString(Ids(stats, field).value[i])
  {
    hide ValidCaseId;
    if field in stats && stats[field].JList? {
      assert forall i | 0 <= i < |stats[field].items| :: stats[field].items[i] in stats[field].items;
    }
  }

  // ---- Logs ----

  /** The line says "passed in" for the case last announced, and nothing has been taken for that since. */
  ghost predicate Passes(lines: seq<LogLine>, i: nat, id: string) {
    && i < |lines| && lines[i].passedIn && lines[i].failed.None? && Waits(lines[..i + 1], id)
  }

  /** Of all lines the last announcement is of this case, and no line between it and the last one took it up. */
  ghost predicate Waits(lines: seq<LogLine>, id: string) {
    exists j :: 0 <= j < |lines| && WaitsSince(lines, id, j)
  }

  ghost predicate WaitsSince(lines: seq<LogLine>, id: string, j: nat)
    requires j < |lines|
  {
    && lines[j].running == Some(id) && (forall m | j < m < |lines| :: lines[m].running.None?)
    && (forall m | j <= m < |lines| - 1 :: lines[m].failed.None? && !lines[m].passedIn)
  }

  lemma OnlyOneWaits(lines: seq<LogLine>, a: string, b: string)
    requires Waits(lines, a) && Waits(lines, b)
    ensures a == b
  {
    var i :| 0 <= i < |lines| && WaitsSince(lines, a, i);
    var j :| 0 <= j < |lines| && WaitsSince(lines, b, j);
  }

  /** The case that waits once the announcement of the last line is read. */
  function Current(s: Scan, line: LogLine): Option<string> {
    if line.running.Some? then line.running else s.current
  }

  lemma WaitsNext(init: seq<LogLine>, line: LogLine, id: string)
    ensures Waits(init + [line], id) <==>
            line.running == Some(id)
            || (line.running.None? && Waits(init, id)
                && init[|init| - 1].failed.None? && !init[|init| - 1].passedIn)
  {
    var lines := init + [line];
    assert lines[|init|] == line && forall m | 0 <= m < |init| :: lines[m] == init[m];
    if Waits(lines, id) {
      var j :| 0 <= j < |lines| && WaitsSince(lines, id, j);
      if j < |init| { assert WaitsSince(init, id, j); }
    }
    if line.running == Some(id) { assert WaitsSince(lines, id, |init|); }
    if line.running.None? && Waits(init, id) && init[|init| - 1].failed.None? && !init[|init| - 1].passedIn {
      var j :| 0 <= j < |init| && WaitsSince(init, id, j);
      assert WaitsSince(lines, id, j);
    }
  }

  lemma {:induction false} CurrentWaits(lines: seq<LogLine>, id: string)
    requires lines != []
    ensures Current(ScanLines(lines[..|lines| - 1]), lines[|lines| - 1]) == Some(id) <==> Waits(lines, id)
    decreases |lines|
  {
    hide Waits;
    var init, line := lines[..|lines| - 1], lines[|lines| - 1];
    assert lines == init + [line];
    WaitsNext(init, line, id);
    if init == [] {
      NobodyWaits(id);
    } else {
      CurrentWaits(init, id);
    }
  }

  lemma NobodyWaits(id: string)
    ensures !Waits([], id)
  {
  }

  /** These lines, in order, are the ones that pass a case, and these the cases. */
  ghost predicate PassedAt(lines: seq<LogLine>, at: seq<nat>, success: seq<string>) {
    && |at| == |success| && (forall i, j | 0 <= i < j < |at| :: at[i] < at[j])
    && (forall k | 0 <= k < |at| :: Passes(lines, at[k], success[k]))
    && (forall i: nat, id :: Passes(lines, i, id) ==> i in at)
  }

  ghost predicate FailedAt(lines: seq<LogLine>, at: seq<nat>, failed: seq<string>) {
    && |at| == |failed| && (forall i, j | 0 <= i < j < |at| :: at[i] < at[j])
    && (forall k | 0 <= k < |at| :: at[k] < |lines| && lines[at[k]].failed == Some(failed[k]))
    && (forall i: nat | i < |lines| && lines[i].failed.Some? :: i in at)
  }

  lemma PassesBefore(lines: seq<LogLine>, i: nat, id: string)
    requires lines != [] && i < |lines| - 1
    ensures Passes(lines, i, id) <==> Passes(lines[..|lines| - 1], i, id)
  {
    hide Waits;
    assert lines[..i + 1] == lines[..|lines| - 1][..i + 1];
  }

  lemma PassesLast(lines: seq<LogLine>, current: Option<string>, id: string)
    requires lines != [] && current == Current(ScanLines(lines[..|lines| - 1]), lines[|lines| - 1])
    ensures Passes(lines, |lines| - 1, id) <==>
            lines[|lines| - 1].passedIn && lines[|lines| - 1].failed.None? && current == Some(id)
  {
    hide Waits;
    CurrentWaits(lines, id);
    assert lines[..|lines| - 1 + 1] == lines;
  }

  lemma PassesWithin(lines: seq<LogLine>, i: nat, id: string)
    requires Passes(lines, i, id)
    ensures i < |lines|
  {
  }

  lemma PassedNext(lines: seq<LogLine>, at: seq<nat>, success: seq<string>, current: Option<string>)
    requires lines != [] && current == Current(ScanLines(lines[..|lines| - 1]), lines[|lines| - 1])
    requires PassedAt(lines[..|lines| - 1], at, success)
    ensures var line := lines[|lines| - 1];
            if line.failed.None? && current.Some? && line.passedIn then
              PassedAt(lines, at + [|lines| - 1], success + [current.value])
            else PassedAt(lines, at, success)
  {
    var init, last := lines[..|lines| - 1], |lines| - 1;
    forall i: nat, id
      ensures i < last ==> (Passes(lines, i, id) <==> Passes(init, i, id))
      ensures i == last ==> (Passes(lines, i, id) <==>
                               lines[last].passedIn && lines[last].failed.None? && current == Some(id))
      ensures Passes(lines, i, id) ==> i <= last
      ensures Passes(init, i, id) ==> i < last
    {
      if i < last { PassesBefore(lines, i, id); }
      if i == last { PassesLast(lines, current, id); }
      if Passes(lines, i, id) { PassesWithin(lines, i, id); }
      if Passes(init, i, id) { PassesWithin(init, i, id); }
    }
    hide Passes, Current, ScanLines;
    assert forall i | 0 <= i < |at| :: at[i] in at + [last];
    assert last in at + [last];
  }

  lemma FailedNext(lines: seq<LogLine>, at: seq<nat>, failed: seq<string>)
    requires lines != [] && FailedAt(lines[..|lines| - 1], at, failed)
    ensures if lines[|lines| - 1].failed.Some? then
              FailedAt(lines, at + [|lines| - 1], failed + [lines[|lines| - 1].failed.value])
            else FailedAt(lines, at, failed)
  {
    var init, last := lines[..|lines| - 1], |lines| - 1;
    assert forall i | 0 <= i < last :: lines[i] == init[i];
    assert forall i | 0 <= i < |at| :: at[i] in at + [last];
    assert last in at + [last];
  }

  /**
    WHAT A LOG SAYS.  The successes are the cases of the lines that say "passed in" for the case last announced,
    in order; the failures are those named by the lines that say "failed".
   */
  lemma {:induction false} LogMeans(lines: seq<LogLine>) returns (passed: seq<nat>, failed: seq<nat>)
    ensures PassedAt(lines, passed, ScanLines(lines).success) && FailedAt(lines, failed, ScanLines(lines).failed)
    decreases |lines|
  {
    hide PassedAt, FailedAt, Current;
    if lines == [] {
      passed, failed := [], [];
      NothingLogged();
    } else {
      var init, line := lines[..|lines| - 1], lines[|lines| - 1];
      passed, failed := LogMeans(init);
      var current := Current(ScanLines(init), line);
      LastLine(init, lines, current);
      PassedNext(lines, passed, ScanLines(init).success, current);
      FailedNext(lines, failed, ScanLines(init).failed);
      if line.failed.None? && current.Some? && line.passedIn { passed := passed + [|lines| - 1]; }
      if line.failed.Some? { failed := failed + [|lines| - 1]; }
      assert ScanLines(init).success + [] == ScanLines(init).success;
      assert ScanLines(init).failed + [] == ScanLines(init).failed;
    }
  }

  lemma NothingLogged()
    ensures PassedAt([], [], ScanLines([]).success) && FailedAt([], [], ScanLines([]).failed)
  {
  }

  lemma LastLine(init: seq<LogLine>, lines: seq<LogLine>, current: Option<string>)
    requires lines != [] && init == lines[..|lines| - 1] && current == Current(ScanLines(init), lines[|lines| - 1])
    ensures var line := lines[|lines| - 1];
            && ScanLines(lines).success
               == ScanLines(init).success
                  + (if line.failed.None? && current.Some? && line.passedIn then [current.value] else [])
            && ScanLines(lines).failed
               == ScanLines(init).failed + if line.failed.Some? then [line.failed.value] else []
  {
  }

  /** The listed failures that are added: the well-formed ones not known before, each once. */
  lemma {:induction false} ListedMean(failed: seq<string>, listed: seq<string>)
    ensures failed <= AddListed(failed, listed)
    ensures Distinct(AddListed(failed, listed)[|failed|..])
    ensures forall id :: id in AddListed(failed, listed)[|failed|..] <==>
                         id in listed && ValidCaseId(id) && id !in failed
    decreases |listed|
  {
    hide ValidCaseId;
    if listed != [] {
      var init, id := listed[..|listed| - 1], listed[|listed| - 1];
      ListedMean(failed, init);
      assert listed == init + [id];
      var before := AddListed(failed, init);
      assert before == failed + before[|failed|..];
      assert (before + [id])[|failed|..] == before[|failed|..] + [id];
    }
  }
}
