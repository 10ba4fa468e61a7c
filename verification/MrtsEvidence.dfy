/** What a complete result means, what every result conserves, and the status a job is written with. */
module MrtsEvidence {
  import opened Wrappers
  import opened Collections
  import opened MrtsResults

  // ---- Counting ----

  lemma SetSnoc(init: seq<string>, last: string)
    ensures |SetOf(init + [last])| == if last in init then |SetOf(init)| else |SetOf(init)| + 1
  {
    assert SetOf(init + [last]) == SetOf(init) + {last};
    assert last in init ==> SetOf(init) + {last} == SetOf(init);
  }

  lemma {:induction false} SetSize(s: seq<string>)
    ensures |SetOf(s)| <= |s|
    ensures |SetOf(s)| == |s| <==> Distinct(s)
  {
    if s == [] {
      assert SetOf(s) == {};
    } else {
      var init, last := s[..|s| - 1], s[|s| - 1];
      assert s == init + [last];
      SetSize(init);
      SetSnoc(init, last);
      DistinctSnoc(init, last);
      hide SetOf, Distinct;
    }
  }

  lemma {:induction false} OccursOnce(s: seq<string>, x: string)
    requires Distinct(s)
    ensures multiset(s)[x] == if x in s then 1 else 0
  {
    if s != [] {
      var init, last := s[..|s| - 1], s[|s| - 1];
      assert s == init + [last];
      OccursOnce(init, x);
      assert last !in init;
    }
  }

  lemma {:induction false} ValuesCount(ids: seq<string>, o: Outcome, id: string)
    ensures |Values(Tagged(ids, o), id)| == multiset(ids)[id]
    ensures forall v | v in Values(Tagged(ids, o), id) :: v == o
  {
    if ids != [] {
      var init := ids[..|ids| - 1];
      var t := Tagged(ids, o);
      assert ids == init + [ids[|ids| - 1]];
      assert t[..|t| - 1] == Tagged(init, o);
      ValuesCount(init, o, id);
    }
  }

  lemma {:induction false} EventIsValue(events: seq<Event>, i: nat)
    requires i < |events|
    ensures events[i].outcome in Values(events, events[i].id)
  {
    if i < |events| - 1 {
      assert events[..|events| - 1][i] == events[i];
      EventIsValue(events[..|events| - 1], i);
    }
  }

  lemma {:induction false} NoComplaints(events: seq<Event>, order: seq<string>, expected: set<string>)
    ensures AllComplaints(events, order, expected) == [] <==>
            forall id | id in order :: |Values(events, id)| == 1 && (expected == {} || id in expected)
  {
    if order != [] {
      var init, last := order[..|order| - 1], order[|order| - 1];
      NoComplaints(events, init, expected);
      assert forall id :: id in order <==> id in init || id == last by { assert order == init + [last]; }
      assert Complaints(Values(events, last), last, expected) == [] <==>
             |Values(events, last)| == 1 && (expected == {} || last in expected);
    }
  }

  // ---- The six result lists ----

  ghost predicate AllReadable(stats: Stats) {
    forall f | 0 <= f < |FIELDS| :: Ids(stats, FIELDS[f].0).Ok?
  }

  function Listed(stats: Stats, f: nat): seq<Event>
    requires f < |FIELDS| && Ids(stats, FIELDS[f].0).Ok?
  {
    Tagged(Ids(stats, FIELDS[f].0).value, FIELDS[f].1)
  }

  lemma {:induction false} EventsList(stats: Stats, n: nat)
    requires n <= |FIELDS|
    ensures Events(stats, FIELDS[..n]).Ok? <==> forall f | 0 <= f < n :: Ids(stats, FIELDS[f].0).Ok?
    ensures Events(stats, FIELDS[..n]).Ok? ==>
              forall e :: e in Events(stats, FIELDS[..n]).value <==> exists f :: 0 <= f < n && e in Listed(stats, f)
  {
    if n != 0 {
      assert FIELDS[..n][..n - 1] == FIELDS[..n - 1];
      EventsList(stats, n - 1);
      if Events(stats, FIELDS[..n]).Ok? {
        forall e
          ensures e in Events(stats, FIELDS[..n]).value <==> exists f :: 0 <= f < n && e in Listed(stats, f)
        {
          if e in Events(stats, FIELDS[..n - 1]).value {
            var f :| 0 <= f < n - 1 && e in Listed(stats, f);
          } else if e in Listed(stats, n - 1) {
            assert e in Events(stats, FIELDS[..n]).value;
          }
        }
      }
    }
  }

  /** With the other lists empty, the events are the success list. */
  lemma OnlySuccess(stats: Stats)
    requires AllReadable(stats) && forall f | 1 <= f < |FIELDS| :: Ids(stats, FIELDS[f].0).value == []
    ensures Events(stats, FIELDS) == Ok(Listed(stats, 0))
  {
    var events := Listed(stats, 0);
    assert FIELDS[..0] == [];
    var n := 1;
    assert FIELDS[..1][..0] == FIELDS[..0];
    assert [] + events == events;
    while n < |FIELDS|
      invariant 1 <= n <= |FIELDS| && Events(stats, FIELDS[..n]) == Ok(events)
    {
      assert FIELDS[..n + 1][..n] == FIELDS[..n];
      assert events + [] == events;
      n := n + 1;
    }
    assert FIELDS[..n] == FIELDS;
  }

  // ---- A complete result without failures, skips or ignored cases ----

  /**
    The required evidence, read off the raw statistics: a non-empty selection of distinct valid
    ids, the success list a permutation of it, every other list empty, and a matching run count.
   */
  ghost predicate AllPassed(selected: seq<string>, stats: Stats) {
    && selected != [] && ValidCaseIds(selected) && Distinct(selected)
    && AllReadable(stats)
    && multiset(Ids(stats, FIELDS[0].0).value) == multiset(selected)
    && (forall f | 1 <= f < |FIELDS| :: Ids(stats, FIELDS[f].0).value == [])
    && ReportedRun(stats) == Ok(|selected|)
  }

  predicate CleanPass(r: Results) {
    r.complete && r.failed == 0 && r.skipped == 0 && r.ignored == 0
  }

  lemma NoCases(outcomes: map<string, Outcome>, o: Outcome)
    ensures Count(outcomes, o) == 0 <==> forall id | id in outcomes :: outcomes[id] != o
  {
    if Count(outcomes, o) == 0 {
      assert Cases(outcomes, o) == {};
      forall id | id in outcomes ensures outcomes[id] != o { assert id !in Cases(outcomes, o); }
    } else {
      var id :| id in Cases(outcomes, o);
    }
  }

  ghost predicate Genuine(events: seq<Event>) {
    forall i | 0 <= i < |events| :: events[i].outcome != INVALID && events[i].outcome != UNEXPECTED
  }

  lemma {:induction false} GenuineValues(events: seq<Event>, id: string)
    requires Genuine(events)
    ensures INVALID !in Values(events, id) && UNEXPECTED !in Values(events, id)
  {
    if events != [] { GenuineValues(events[..|events| - 1], id); }
  }

  ghost predicate OnePassEach(events: seq<Event>, selected: seq<string>) {
    forall id :: Values(events, id) == if id in selected then [PASS] else []
  }

  /** Every seen case was selected and reported once, none is missing, and none ended otherwise than PASS. */
  ghost predicate Spotless(events: seq<Event>, expected: set<string>) {
    && (forall id | id in FirstSeen(events) :: |Values(events, id)| == 1 && id in expected)
    && expected <= Outcomes(events, expected).Keys
    && (forall id | id in Outcomes(events, expected) ::
          Outcomes(events, expected)[id] !in {FAIL, SKIP, IGNORED, FORCED_PASS, FORCED_FAIL})
  }

  lemma SpotlessMeansOnePassEach(events: seq<Event>, selected: seq<string>)
    requires Genuine(events) && selected != []
    ensures Spotless(events, SetOf(selected)) <==> OnePassEach(events, selected)
  {
    var expected := SetOf(selected);
    assert selected[0] in expected;
    SeenHaveValues(events);
    if Spotless(events, expected) {
      forall id
        ensures Values(events, id) == if id in selected then [PASS] else []
      {
        GenuineValues(events, id);
        var values := Values(events, id);
        if id in expected {
          assert id in Outcomes(events, expected);
          assert id in FirstSeen(events) && |values| == 1;
          assert Outcomes(events, expected)[id] == values[0] && values[0] in values;
          assert values[0] == PASS;
          assert id in selected;
        } else {
          assert id !in FirstSeen(events) && id !in selected;
        }
      }
    }
  }

  /** A clean pass leaves exactly one PASS per selected id and nothing else. */
  lemma CleanIsPointwise(events: seq<Event>, selected: seq<string>, reported: nat)
    requires Genuine(events)
    ensures var expected := SetOf(selected);
            CleanPass(Summary(expected, selected != [], reported, Outcomes(events, expected),
                              SelectionProblems(selected) + AllComplaints(events, FirstSeen(events), expected)
                              + (if reported != |events| then [TotalMismatch] else [])))
            <==> selected != [] && Distinct(selected) && reported == |events| && OnePassEach(events, selected)
  {
    var expected := SetOf(selected);
    var outcomes := Outcomes(events, expected);
    if selected != [] {
      assert selected[0] in expected;
      SetSize(selected);
      NoComplaints(events, FirstSeen(events), expected);
      NoCases(outcomes, FAIL);
      NoCases(outcomes, SKIP);
      NoCases(outcomes, IGNORED);
      NoCases(outcomes, FORCED_PASS);
      NoCases(outcomes, FORCED_FAIL);
      hide SetOf, Count, Cases, Outcomes, AllComplaints, Distinct;
      SpotlessMeansOnePassEach(events, selected);
    }
  }

  /** ALL PASSED: a result is clean exactly when the raw statistics justify it. */
  lemma CleanExactlyWhenAllPassed(selected: seq<string>, stats: Stats)
    ensures ObservedResults(selected, stats).Ok? && CleanPass(ObservedResults(selected, stats).value)
            <==> AllPassed(selected, stats)
  {
    EventsList(stats, |FIELDS|);
    assert FIELDS[..|FIELDS|] == FIELDS;
    if ValidCaseIds(selected) && AllReadable(stats) && ReportedRun(stats).Ok? {
      var events := Events(stats, FIELDS).value;
      GenuineEvents(stats);
      CleanIsPointwise(events, selected, ReportedRun(stats).value);
      hide Summary, CleanPass, Outcomes, Events, Ids, ValidCaseIds, OnePassEach, FirstSeen, AllComplaints, Distinct;
      if selected != [] && Distinct(selected) { OnePassEachIsPermutation(selected, stats, events); }
    }
  }

  lemma GenuineEvents(stats: Stats)
    requires Events(stats, FIELDS).Ok?
    ensures Genuine(Events(stats, FIELDS).value)
  {
    EventsList(stats, |FIELDS|);
    assert FIELDS[..|FIELDS|] == FIELDS;
    var events := Events(stats, FIELDS).value;
    forall i | 0 <= i < |events|
      ensures events[i].outcome != INVALID && events[i].outcome != UNEXPECTED
    {
      assert events[i] in events;
      var f :| 0 <= f < |FIELDS| && events[i] in Listed(stats, f);
    }
  }

  lemma OnePassEachIsPermutation(selected: seq<string>, stats: Stats, events: seq<Event>)
    requires selected != [] && Distinct(selected) && AllReadable(stats) && Events(stats, FIELDS) == Ok(events)
    ensures OnePassEach(events, selected) && ReportedRun(stats) == Ok(|events|) <==>
            && multiset(Ids(stats, FIELDS[0].0).value) == multiset(selected)
            && (forall f | 1 <= f < |FIELDS| :: Ids(stats, FIELDS[f].0).value == [])
            && ReportedRun(stats) == Ok(|selected|)
  {
    var passed := Ids(stats, FIELDS[0].0).value;
    if OnePassEach(events, selected) {
      OtherListsEmpty(selected, stats, events);
    }
    if forall f | 1 <= f < |FIELDS| :: Ids(stats, FIELDS[f].0).value == [] {
      OnlySuccess(stats);
      PermutationPointwise(selected, passed);
    }
  }

  lemma OtherListsEmpty(selected: seq<string>, stats: Stats, events: seq<Event>)
    requires AllReadable(stats) && Events(stats, FIELDS) == Ok(events) && OnePassEach(events, selected)
    ensures forall f | 1 <= f < |FIELDS| :: Ids(stats, FIELDS[f].0).value == []
  {
    OnlyTheFirstPasses();
    hide Ids, Events, FIELDS, OnePassEach, Values;
    forall f | 1 <= f < |FIELDS|
      ensures Ids(stats, FIELDS[f].0).value == []
    {
      OtherListEmpty(selected, stats, events, f);
    }
  }

  lemma OnlyTheFirstPasses()
    ensures forall f | 1 <= f < |FIELDS| :: FIELDS[f].1 != PASS
  {
  }

  /** Whatever a field lists is an event with the outcome of the field. */
  lemma ListedIsEvent(stats: Stats, events: seq<Event>, f: nat, k: nat) returns (i: nat)
    requires Events(stats, FIELDS) == Ok(events) && f < |FIELDS| && Ids(stats, FIELDS[f].0).Ok?
    requires k < |Ids(stats, FIELDS[f].0).value|
    ensures i < |events| && events[i].outcome == FIELDS[f].1
  {
    EventsList(stats, |FIELDS|);
    assert FIELDS[..|FIELDS|] == FIELDS;
    hide Events, Ids, FIELDS;
    var e := Listed(stats, f)[k];
    assert e in Listed(stats, f);
    assert e in events;
    i :| 0 <= i < |events| && events[i] == e;
  }

  lemma OtherListEmpty(selected: seq<string>, stats: Stats, events: seq<Event>, f: nat)
    requires AllReadable(stats) && Events(stats, FIELDS) == Ok(events) && OnePassEach(events, selected)
    requires f < |FIELDS| && FIELDS[f].1 != PASS
    ensures Ids(stats, FIELDS[f].0).value == []
  {
    hide Events, Ids, FIELDS, Values;
    if Ids(stats, FIELDS[f].0).value != [] {
      var i := ListedIsEvent(stats, events, f, 0);
      EventIsValue(events, i);
    }
  }

  lemma PermutationPointwise(selected: seq<string>, passed: seq<string>)
    requires Distinct(selected)
    ensures multiset(passed) == multiset(selected) <==> OnePassEach(Tagged(passed, PASS), selected)
    ensures multiset(passed) == multiset(selected) ==> |passed| == |selected|
  {
    var events := Tagged(passed, PASS);
    forall id
      ensures |Values(events, id)| == multiset(passed)[id] && multiset(selected)[id] == if id in selected then 1 else 0
      ensures |Values(events, id)| == 1 ==> Values(events, id) == [PASS]
    {
      ValuesCount(passed, PASS, id);
      OccursOnce(selected, id);
      if |Values(events, id)| == 1 { assert Values(events, id)[0] in Values(events, id); }
    }
    if OnePassEach(events, selected) {
      forall id
        ensures multiset(passed)[id] == multiset(selected)[id]
      {
        assert Values(events, id) == if id in selected then [PASS] else [];
      }
    }
    assert |multiset(passed)| == |passed| && |multiset(selected)| == |selected|;
  }

  // ---- Conservation ----

  /**
    Every selected case is either missing or observed, and the outcome classes account for every
    observed case once; `invalid` and `unexpected` are the classes the record does not print.
   */
  ghost predicate Conserved(r: Results) {
    && r.selected == r.missing + |r.selectedCases * r.outcomes.Keys|
    && r.missingCases == r.selectedCases - r.outcomes.Keys
    && r.passed + r.failed + r.skipped + r.ignored + r.forced + Count(r.outcomes, INVALID)
        + Count(r.outcomes, UNEXPECTED)
       == |r.outcomes|
    && r.executed == r.passed + r.failed
    && r.failedCases == Cases(r.outcomes, FAIL) && r.failed == |r.failedCases|
  }

  function CasesIn(outcomes: map<string, Outcome>, among: set<Outcome>): set<string> {
    set id | id in outcomes && outcomes[id] in among
  }

  lemma CasesApart(outcomes: map<string, Outcome>, a: set<Outcome>, o: Outcome)
    requires o !in a
    ensures |CasesIn(outcomes, a + {o})| == |CasesIn(outcomes, a)| + Count(outcomes, o)
  {
    assert CasesIn(outcomes, a + {o}) == CasesIn(outcomes, a) + Cases(outcomes, o);
    assert CasesIn(outcomes, a) !! Cases(outcomes, o);
  }

  lemma AllCasesIn(outcomes: map<string, Outcome>)
    ensures CasesIn(outcomes, {}) == {}
    ensures CasesIn(outcomes, {PASS, FAIL, SKIP, IGNORED, FORCED_PASS, FORCED_FAIL, INVALID,
             UNEXPECTED}) == outcomes.Keys
  {
    forall id | id in outcomes
      ensures outcomes[id] in {PASS, FAIL, SKIP, IGNORED, FORCED_PASS, FORCED_FAIL, INVALID, UNEXPECTED}
    {
      EveryOutcome(outcomes[id]);
    }
  }

  lemma EveryOutcome(o: Outcome)
    ensures o in {PASS, FAIL, SKIP, IGNORED, FORCED_PASS, FORCED_FAIL, INVALID, UNEXPECTED}
  {
    match o {
      case PASS =>
      case FAIL =>
      case SKIP =>
      case IGNORED =>
      case FORCED_PASS =>
      case FORCED_FAIL =>
      case INVALID =>
      case UNEXPECTED =>
    }
  }

  lemma ClassesAddUp(outcomes: map<string, Outcome>)
    ensures Count(outcomes, PASS) + Count(outcomes, FAIL) + Count(outcomes, SKIP) + Count(outcomes, IGNORED)
            + Count(outcomes, FORCED_PASS) + Count(outcomes, FORCED_FAIL)
            + Count(outcomes, INVALID) + Count(outcomes, UNEXPECTED) == |outcomes|
  {
    AllCasesIn(outcomes);
    hide CasesIn, Count, Cases;
    var a, b, c := {PASS}, {PASS, FAIL}, {PASS, FAIL, SKIP};
    CasesApart(outcomes, {}, PASS);
    assert {} + {PASS} == a;
    CasesApart(outcomes, a, FAIL);
    assert a + {FAIL} == b;
    CasesApart(outcomes, b, SKIP);
    assert b + {SKIP} == c;
    var d, e := c + {IGNORED}, c + {IGNORED} + {FORCED_PASS};
    CasesApart(outcomes, c, IGNORED);
    CasesApart(outcomes, d, FORCED_PASS);
    CasesApart(outcomes, e, FORCED_FAIL);
    CasesApart(outcomes, e + {FORCED_FAIL}, INVALID);
    CasesApart(outcomes, e + {FORCED_FAIL} + {INVALID}, UNEXPECTED);
    assert e + {FORCED_FAIL} + {INVALID} + {UNEXPECTED}
        == {PASS, FAIL, SKIP, IGNORED, FORCED_PASS, FORCED_FAIL, INVALID, UNEXPECTED};
  }

  lemma SummaryConserves(expected: set<string>, nonempty: bool, reported: nat, outcomes: map<string, Outcome>,
      problems: seq<Problem>)
    ensures Conserved(Summary(expected, nonempty, reported, outcomes, problems))
  {
    ClassesAddUp(outcomes);
    assert expected == (expected - outcomes.Keys) + expected * outcomes.Keys;
    hide Count;
  }

  lemma ObservedConserves(selected: seq<string>, stats: Stats)
    requires ObservedResults(selected, stats).Ok?
    ensures Conserved(ObservedResults(selected, stats).value)
  {
    var events := Events(stats, FIELDS).value;
    var expected := SetOf(selected);
    SummaryConserves(expected, selected != [], ReportedRun(stats).value, Outcomes(events, expected),
                     SelectionProblems(selected) + AllComplaints(events, FirstSeen(events), expected)
                     + (if ReportedRun(stats).value != |events| then [TotalMismatch] else []));
    hide Summary, Outcomes, Conserved;
  }

  // ---- Legacy logs ----

  /** One log line: the ids matched by its two patterns, and whether it says "passed in". */
  datatype LogLine = LogLine(running: Option<string>, failed: Option<string>, passedIn: bool)

  /** The whole log: its lines, the items of its "failed to run" list, its "total tests" number. */
  datatype Log = Log(lines: seq<LogLine>, listed: seq<string>, total: Option<nat>)

  datatype Scan = Scan(success: seq<string>, failed: seq<string>, current: Option<string>)

  function ScanLine(s: Scan, line: LogLine): Scan {
    var current := if line.running.Some? then line.running else s.current;
    if line.failed.Some? then Scan(s.success, s.failed + [line.failed.value], None)
    else if current.Some? && line.passedIn then Scan(s.success + [current.value], s.failed, None)
    else Scan(s.success, s.failed, current)
  }

  function ScanLines(lines: seq<LogLine>): Scan {
    if lines == [] then Scan([], [], None) else ScanLine(ScanLines(lines[..|lines| - 1]), lines[|lines| - 1])
  }

  /** Listed failures not already known are added once, in order. */
  function AddListed(failed: seq<string>, listed: seq<string>): seq<string> {
    if listed == [] then failed
    else
      var before := AddListed(failed, listed[..|listed| - 1]);
      var id := listed[|listed| - 1];
      if ValidCaseId(id) && id !in before then before + [id] else before
  }

  function JsonIds(ids: seq<string>): Json {
    JList(seq(|ids|, i requires 0 <= i < |ids| => JString(ids[i])))
  }

  function StatsFrom(success: seq<string>, failed: seq<string>): Stats {
    map["success" := JsonIds(success), "failed" := JsonIds(failed), "run" := JInt(|success| + |failed|)]
  }

  function LogStats(log: Log): Stats {
    var s := ScanLines(log.lines);
    StatsFrom(s.success, AddListed(s.failed, log.listed))
  }

  lemma ReportedBoth(success: seq<string>, failed: seq<string>)
    ensures ReportedRun(StatsFrom(success, failed)) == Ok(|success| + |failed|)
  {
    hide JsonIds;
  }

  /** The two patterns only match case ids. */
  ghost predicate Matched(lines: seq<LogLine>) {
    forall i | 0 <= i < |lines| ::
      && (lines[i].running.Some? ==> ValidCaseId(lines[i].running.value))
      && (lines[i].failed.Some? ==> ValidCaseId(lines[i].failed.value))
  }

  lemma {:induction false} ScanIsValid(lines: seq<LogLine>)
    requires Matched(lines)
    ensures ValidCaseIds(ScanLines(lines).success) && ValidCaseIds(ScanLines(lines).failed)
    ensures ScanLines(lines).current.Some? ==> ValidCaseId(ScanLines(lines).current.value)
  {
    if lines != [] { ScanIsValid(lines[..|lines| - 1]); }
  }

  lemma {:induction false} ListedIsValid(failed: seq<string>, listed: seq<string>)
    requires ValidCaseIds(failed)
    ensures ValidCaseIds(AddListed(failed, listed))
  {
    if listed != [] { ListedIsValid(failed, listed[..|listed| - 1]); }
  }

  lemma JsonIdsRead(stats: Stats, field: string, ids: seq<string>)
    requires field in stats && stats[field] == JsonIds(ids) && ValidCaseIds(ids)
    ensures Ids(stats, field) == Ok(ids)
  {
    assert Ids(stats, field).value == ids;
  }

  lemma LogIsReadable(log: Log)
    requires Matched(log.lines)
    ensures ObservedResults([], LogStats(log)).Ok?
  {
    var stats := LogStats(log);
    ScanIsValid(log.lines);
    ListedIsValid(ScanLines(log.lines).failed, log.listed);
    JsonIdsRead(stats, "success", ScanLines(log.lines).success);
    JsonIdsRead(stats, "failed", AddListed(ScanLines(log.lines).failed, log.listed));
    EventsList(stats, |FIELDS|);
    assert FIELDS[..|FIELDS|] == FIELDS;
  }

  function LogResults(log: Log): Results
    requires Matched(log.lines)
  {
    LogIsReadable(log);
    var stats := LogStats(log);
    var r := ObservedResults([], stats).value;
    r.(attempted := if log.total.Some? then log.total.value else ReportedRun(stats).value)
  }

  /** A success is only ever taken from an earlier "running" line for the same id. */
  lemma {:induction false} SuccessWasAnnounced(lines: seq<LogLine>, id: string)
    requires id in ScanLines(lines).success || ScanLines(lines).current == Some(id)
    ensures exists i :: 0 <= i < |lines| && lines[i].running == Some(id)
  {
    var init, last := lines[..|lines| - 1], lines[|lines| - 1];
    if last.running == Some(id) {
      assert lines[|lines| - 1].running == Some(id);
    } else {
      SuccessWasAnnounced(init, id);
      var i :| 0 <= i < |init| && init[i].running == Some(id);
      assert lines[i].running == Some(id);
    }
  }

  method ScanLog(lines: seq<LogLine>) returns (success: seq<string>, failed: seq<string>)
    ensures success == ScanLines(lines).success && failed == ScanLines(lines).failed
  {
    var current: Option<string> := None;
    success, failed := [], [];
    for i := 0 to |lines|
      invariant Scan(success, failed, current) == ScanLines(lines[..i])
    {
      var line := lines[i];
      assert lines[..i + 1][..i] == lines[..i];
      if line.running.Some? { current := line.running; }
      if line.failed.Some? {
        failed := failed + [line.failed.value];
        current := None;
      } else if current.Some? && line.passedIn {
        success := success + [current.value];
        current := None;
      }
    }
    assert lines[..|lines|] == lines;
  }

  method AddListedFailures(failed0: seq<string>, listed: seq<string>) returns (failed: seq<string>)
    ensures failed == AddListed(failed0, listed)
  {
    failed := failed0;
    for i := 0 to |listed|
      invariant failed == AddListed(failed0, listed[..i])
    {
      var id := listed[i];
      assert listed[..i + 1][..i] == listed[..i];
      if ValidCaseId(id) && id !in failed { failed := failed + [id]; }
    }
    assert listed[..|listed|] == listed;
  }

  method ResultsFromLog(log: Log) returns (r: Results)
    requires Matched(log.lines)
    ensures r == LogResults(log)
  {
    LogIsReadable(log);
    hide ObservedResults, ScanLines, AddListed, Matched, StatsFrom, ReportedRun;
    var success, failed := ScanLog(log.lines);
    failed := AddListedFailures(failed, log.listed);
    ReportedBoth(success, failed);
    var stats := StatsFrom(success, failed);
    var observed := Observe([], stats);
    r := observed.value;
    r := r.(attempted := if log.total.Some? then log.total.value else |success| + |failed|);
  }

  lemma LogConserves(log: Log)
    requires Matched(log.lines)
    ensures Conserved(LogResults(log)) && !LogResults(log).complete
  {
    LogIsReadable(log);
    hide LogStats, ObservedResults, ReportedRun, Conserved, Matched;
    ObservedConserves([], LogStats(log));
    NothingSelectedIsIncomplete(LogStats(log));
    AttemptedIsFree(ObservedResults([], LogStats(log)).value, LogResults(log).attempted);
  }

  /** The reported total takes no part in the accounting. */
  lemma AttemptedIsFree(r: Results, total: nat)
    requires Conserved(r)
    ensures Conserved(r.(attempted := total))
  {
    hide Count, Cases;
  }

  lemma NothingSelectedIsIncomplete(stats: Stats)
    requires ObservedResults([], stats).Ok?
    ensures !ObservedResults([], stats).value.complete
  {
  }

  // ---- Writing the job ----

  /** What the writer can read: a selection, statistics, the per-corpus attachment, and the log. */
  datatype Inputs = Inputs(selection: Result<seq<string>, Reason>, stats: Result<Stats, Reason>, corpora: bool,
      log: Log)

  /** Selection, statistics and corpora all read; an error of any of them is raised. */
  function Read(inputs: Inputs): Result<Results, Reason> {
    match inputs.selection
    case Err(e) => Err(e)
    case Ok(selected) =>
      match inputs.stats
      case Err(e) => Err(e)
      case Ok(stats) =>
        match ObservedResults(selected, stats)
        case Err(e) => Err(e)
        case Ok(r) => if inputs.corpora then Ok(r) else Err(Unreadable)
  }

  function Flag(r: Results): Results {
    r.(errors := r.errors + [Raised])
  }

  /** The results the writer records; the last fallback can itself raise, and then nothing is written. */
  function Gather(inputs: Inputs): Result<Results, Reason>
    requires Matched(inputs.log.lines)
  {
    match Read(inputs)
    case Ok(r) => Ok(r)
    case Err(_) =>
      if inputs.selection.Ok? && inputs.selection.value != [] then
        match ObservedResults(inputs.selection.value, map[])
        case Err(e) => Err(e)
        case Ok(r) => Ok(Flag(r))
      else Ok(Flag(LogResults(inputs.log)))
  }

  /** The inputs justify a PASS. */
  ghost predicate Justifies(inputs: Inputs) {
    && inputs.selection.Ok? && inputs.stats.Ok? && inputs.corpora
    && AllPassed(inputs.selection.value, inputs.stats.value)
  }

  lemma PassingNeedsReports(selected: seq<string>, stats: Stats)
    requires AllPassed(selected, stats)
    ensures Ids(stats, FIELDS[0].0).value != []
  {
    assert |multiset(selected)| == |selected|;
  }

  lemma FallbackIsNeverClean(selected: seq<string>)
    requires ObservedResults(selected, map[]).Ok?
    ensures !CleanPass(ObservedResults(selected, map[]).value)
  {
    CleanExactlyWhenAllPassed(selected, map[]);
    assert Ids(map[], FIELDS[0].0) == Ok([]);
    hide ObservedResults;
    if AllPassed(selected, map[]) { PassingNeedsReports(selected, map[]); }
  }

  lemma GatherIsCleanExactlyWhenJustified(inputs: Inputs)
    requires Matched(inputs.log.lines)
    ensures Gather(inputs).Ok? && CleanPass(Gather(inputs).value) <==> Justifies(inputs)
  {
    if inputs.selection.Ok? {
      if inputs.stats.Ok? { CleanExactlyWhenAllPassed(inputs.selection.value, inputs.stats.value); }
      if ObservedResults(inputs.selection.value, map[]).Ok? { FallbackIsNeverClean(inputs.selection.value); }
    }
    LogConserves(inputs.log);
    hide ObservedResults, AllPassed, LogResults, Conserved;
  }

  /** Conservation also holds on both fallback paths. */
  lemma GatherConserves(inputs: Inputs)
    requires Matched(inputs.log.lines) && Gather(inputs).Ok?
    ensures Conserved(Gather(inputs).value)
  {
    hide ObservedResults, LogResults;
    if Read(inputs).Ok? {
      ObservedConserves(inputs.selection.value, inputs.stats.value);
    } else if inputs.selection.Ok? && inputs.selection.value != [] {
      ObservedConserves(inputs.selection.value, map[]);
      FlagConserves(ObservedResults(inputs.selection.value, map[]).value);
    } else {
      LogConserves(inputs.log);
      FlagConserves(LogResults(inputs.log));
    }
    hide Conserved;
  }

  lemma FlagConserves(r: Results)
    requires Conserved(r)
    ensures Conserved(Flag(r))
  {
    hide Count, Cases;
  }

  datatype Job = Job(status: string, exitCode: int, results: Results)

  method WriteJob(inputs: Inputs, status: string, exitCode: int) returns (job: Option<Job>, code: int)
    requires Matched(inputs.log.lines)
    ensures job.Some? <==> Gather(inputs).Ok?
    ensures job.Some? ==> job.value.results == Gather(inputs).value && Conserved(job.value.results)
    ensures job.Some? ==> (job.value.status == "PASS" <==> status == "PASS" && exitCode == 0 && Justifies(inputs))
    ensures job.Some? ==>
              job.value.status in {status, "FAIL", "INCOMPLETE"} && (status != "PASS" ==> job.value.status == status)
    ensures job.Some? ==> job.value.exitCode == if job.value.status == status then exitCode else 2
    ensures job.Some? ==> (status == "PASS" && job.value.status == "FAIL" <==>
                             status == "PASS" && (exitCode != 0 || job.value.results.failed != 0))
    ensures code == 0 <==> job.Some? && (status == "PASS" ==> job.value.status == "PASS")
  {
    GatherIsCleanExactlyWhenJustified(inputs);
    if Gather(inputs).Ok? { GatherConserves(inputs); }
    hide ObservedResults, LogResults, Justifies, Conserved;
    var gathered := ReadOrFallBack(inputs);
    if gathered.Err? { return None, 2; }
    var results := gathered.value;
    var final := status;
    if final == "PASS" && (exitCode != 0 || results.failed != 0) {
      final := "FAIL";
    } else if final == "PASS" && (!results.complete || results.skipped != 0 || results.ignored != 0) {
      final := "INCOMPLETE";
    }
    job := Some(Job(final, if final == status then exitCode else 2, results));
    code := if status == "PASS" && final != "PASS" then 2 else 0;
  }

  method ReadOrFallBack(inputs: Inputs) returns (r: Result<Results, Reason>)
    requires Matched(inputs.log.lines)
    ensures r == Gather(inputs)
  {
    var selected := [];
    if inputs.selection.Ok? {
      selected := inputs.selection.value;
      if inputs.stats.Ok? {
        r := Observe(selected, inputs.stats.value);
        if r.Ok? && inputs.corpora { return; }
      }
    }
    if selected != [] {
      r := Observe(selected, map[]);
      if r.Ok? { r := Ok(Flag(r.value)); }
    } else {
      var legacy := ResultsFromLog(inputs.log);
      r := Ok(Flag(legacy));
    }
  }
}
