/**
  Observed MRTS outcomes: one outcome per case id out of explicit result lists, and the status a
  native job may be written with.  JSON values and matched log tokens are the inputs.
 */
module MrtsResults {
  import opened Wrappers

  datatype Json = JNull | JBool(b: bool) | JInt(i: int) | JReal | JString(s: string) | JList(items: seq<Json>) | JObject

  type Stats = map<string, Json>

  datatype Outcome = PASS | FAIL | SKIP | IGNORED | FORCED_PASS | FORCED_FAIL | INVALID | UNEXPECTED

  datatype Problem =
    | EmptySelection
    | DuplicateSelected
    | Duplicate(id: string)
    | NotSelected(id: string)
    | TotalMismatch
    | Forced
    | Raised

  /** Why an operation raised. */
  datatype Reason = InvalidSelected | InvalidIds | InvalidRun | Unreadable

  datatype Event = Event(id: string, outcome: Outcome)

  /** The sorted lists of the original are sets here. */
  datatype Results = Results(
    selected: nat, selectedCases: set<string>, attempted: nat, executed: nat, passed: nat, failed: nat,
    skipped: nat, ignored: nat, forced: nat, missing: nat, missingCases: set<string>, failedCases: set<string>,
    outcomes: map<string, Outcome>, errors: seq<Problem>, complete: bool)

  // ---- Case ids and result lists ----

  predicate Digits(s: string) {
    s != [] && forall i | 0 <= i < |s| :: '0' <= s[i] <= '9'
  }

  predicate ValidCaseId(s: string) {
    exists i :: 0 <= i < |s| && s[i] == '-' && Digits(s[..i]) && Digits(s[i + 1..])
  }

  predicate ValidCaseIds(ids: seq<string>) {
    forall i | 0 <= i < |ids| :: ValidCaseId(ids[i])
  }

  /** The ids of one result field; an absent or null field is an empty list. */
  function Ids(stats: Stats, field: string): (r: Result<seq<string>, Reason>)
    ensures r.Ok? ==> ValidCaseIds(r.value)
  {
    if field !in stats || stats[field].JNull? then Ok([])
    else if !stats[field].JList? then Err(InvalidIds)
    else
      var items := stats[field].items;
      if forall i | 0 <= i < |items| :: items[i].JString? && ValidCaseId(items[i].s)
      then Ok(seq(|items|, i requires 0 <= i < |items| => items[i].s))
      else Err(InvalidIds)
  }

  const FIELDS: seq<(string, Outcome)> :=
    [("success", PASS), ("failed", FAIL), ("skipped", SKIP), ("ignored", IGNORED),
     ("forced-pass", FORCED_PASS), ("forced-fail", FORCED_FAIL)]

  function Tagged(ids: seq<string>, outcome: Outcome): (r: seq<Event>)
    ensures |r| == |ids| && forall i | 0 <= i < |ids| :: r[i] == Event(ids[i], outcome)
  {
    seq(|ids|, i requires 0 <= i < |ids| => Event(ids[i], outcome))
  }

  /** Every reported result of the given fields, in the order the fields list them. */
  function Events(stats: Stats, fields: seq<(string, Outcome)>): Result<seq<Event>, Reason> {
    if fields == [] then Ok([])
    else
      var last := fields[|fields| - 1];
      match Events(stats, fields[..|fields| - 1])
      case Err(e) => Err(e)
      case Ok(before) =>
        match Ids(stats, last.0)
        case Err(e) => Err(e)
        case Ok(ids) => Ok(before + Tagged(ids, last.1))
  }

  // ---- Per-case view of the events ----

  /** The outcomes reported for one case. */
  function Values(events: seq<Event>, id: string): seq<Outcome> {
    if events == [] then []
    else
      var last := events[|events| - 1];
      Values(events[..|events| - 1], id) + (if last.id == id then [last.outcome] else [])
  }

  /** The dictionary order: case ids by first appearance. */
  function FirstSeen(events: seq<Event>): seq<string> {
    if events == [] then []
    else
      var before := FirstSeen(events[..|events| - 1]);
      if events[|events| - 1].id in before then before else before + [events[|events| - 1].id]
  }

  function Classify(values: seq<Outcome>, id: string, expected: set<string>): Outcome
    requires values != []
  {
    if expected != {} && id !in expected then UNEXPECTED
    else if |values| != 1 then INVALID
    else values[0]
  }

  function Complaints(values: seq<Outcome>, id: string, expected: set<string>): seq<Problem> {
    (if |values| != 1 then [Duplicate(id)] else []) +
    (if expected != {} && id !in expected then [NotSelected(id)] else [])
  }

  function AllComplaints(events: seq<Event>, order: seq<string>, expected: set<string>): seq<Problem> {
    if order == [] then []
    else
      var last := order[|order| - 1];
      AllComplaints(events, order[..|order| - 1], expected) + Complaints(Values(events, last), last, expected)
  }

  /** The ids seen are those with a value. */
  ghost predicate SeenIsComplete(events: seq<Event>) {
    && (forall id :: id in FirstSeen(events) <==> Values(events, id) != [])
    && (forall i | 0 <= i < |events| :: events[i].id in FirstSeen(events))
  }

  lemma OneMoreEvent(before: seq<Event>, last: Event)
    requires SeenIsComplete(before)
    ensures SeenIsComplete(before + [last])
  {
    OneMoreValue(before, last);
    OneMoreSeen(before, last);
    hide Values, FirstSeen;
  }

  lemma {:induction false} SeenComplete(events: seq<Event>)
    ensures SeenIsComplete(events)
  {
    if events != [] {
      var before, last := events[..|events| - 1], events[|events| - 1];
      assert events == before + [last];
      hide SeenIsComplete;
      SeenComplete(before);
      OneMoreEvent(before, last);
    }
  }

  lemma SeenHaveValues(events: seq<Event>)
    ensures forall id :: id in FirstSeen(events) <==> Values(events, id) != []
    ensures forall i | 0 <= i < |events| :: events[i].id in FirstSeen(events)
  {
    SeenComplete(events);
  }

  lemma {:induction false} SeenOnce(events: seq<Event>)
    ensures forall i, j | 0 <= i < j < |FirstSeen(events)| :: FirstSeen(events)[i] != FirstSeen(events)[j]
  {
    if events != [] { SeenOnce(events[..|events| - 1]); }
  }

  function Outcomes(events: seq<Event>, expected: set<string>): map<string, Outcome> {
    SeenHaveValues(events);
    map id | id in FirstSeen(events) :: Classify(Values(events, id), id, expected)
  }

  function Cases(outcomes: map<string, Outcome>, o: Outcome): set<string> {
    set id | id in outcomes && outcomes[id] == o
  }

  function Count(outcomes: map<string, Outcome>, o: Outcome): nat {
    |Cases(outcomes, o)|
  }

  function ReportedRun(stats: Stats): Result<nat, Reason> {
    if "run" !in stats then Ok(0)
    else if stats["run"].JInt? && stats["run"].i >= 0 then Ok(stats["run"].i)
    else Err(InvalidRun)
  }

  function SelectionProblems(selected: seq<string>): seq<Problem> {
    (if selected == [] then [EmptySelection] else []) +
    (if |SetOf(selected)| != |selected| then [DuplicateSelected] else [])
  }

  function SetOf(ids: seq<string>): set<string> {
    set id | id in ids
  }

  function Summary(expected: set<string>, nonempty: bool, reported: nat, outcomes: map<string, Outcome>,
      problems: seq<Problem>): Results {
    var missing := expected - outcomes.Keys;
    var forced := Count(outcomes, FORCED_PASS) + Count(outcomes, FORCED_FAIL);
    var errors := problems + (if forced != 0 then [Forced] else []);
    Results(|expected|, expected, reported, Count(outcomes, PASS) + Count(outcomes, FAIL), Count(outcomes, PASS),
            Count(outcomes, FAIL), Count(outcomes, SKIP), Count(outcomes, IGNORED), forced, |missing|, missing,
            Cases(outcomes, FAIL), outcomes, errors, nonempty && errors == [] && missing == {})
  }

  function ObservedResults(selected: seq<string>, stats: Stats): Result<Results, Reason> {
    if !ValidCaseIds(selected) then Err(InvalidSelected)
    else match Events(stats, FIELDS)
      case Err(e) => Err(e)
      case Ok(events) =>
        match ReportedRun(stats)
        case Err(e) => Err(e)
        case Ok(reported) =>
          var expected := SetOf(selected);
          Ok(Summary(expected, selected != [], reported, Outcomes(events, expected),
                     SelectionProblems(selected) + AllComplaints(events, FirstSeen(events), expected)
                     + (if reported != |events| then [TotalMismatch] else [])))
  }

  // ---- The loops ----

  /** The dictionary of observed outcomes, with its insertion order. */
  ghost predicate Records(observed: map<string, seq<Outcome>>, order: seq<string>, events: seq<Event>) {
    && order == FirstSeen(events)
    && (forall id :: id in observed <==> id in order)
    && (forall id | id in order :: observed[id] == Values(events, id))
  }

  lemma RecordOne(observed: map<string, seq<Outcome>>, order: seq<string>, events: seq<Event>, e: Event)
    requires Records(observed, order, events)
    ensures Records(observed[e.id := (if e.id in observed then observed[e.id] else []) + [e.outcome]],
                    if e.id in order then order else order + [e.id], events + [e])
  {
    hide Values, FirstSeen;
    SeenHaveValues(events);
    OneMoreValue(events, e);
    OneMoreSeen(events, e);
  }

  lemma OneMoreValue(events: seq<Event>, e: Event)
    ensures forall id :: Values(events + [e], id)
                      == if e.id == id then Values(events, id) + [e.outcome] else Values(events, id)
  {
    assert (events + [e])[..|events|] == events;
    assert forall id :: Values(events, id) + [] == Values(events, id);
  }

  lemma OneMoreSeen(events: seq<Event>, e: Event)
    ensures FirstSeen(events + [e])
         == if e.id in FirstSeen(events) then FirstSeen(events) else FirstSeen(events) + [e.id]
  {
    assert (events + [e])[..|events|] == events;
  }

  method AddResults(observed0: map<string, seq<Outcome>>, order0: seq<string>, ids: seq<string>, outcome: Outcome,
      ghost before: seq<Event>)
    returns (observed: map<string, seq<Outcome>>, order: seq<string>)
    requires Records(observed0, order0, before)
    ensures Records(observed, order, before + Tagged(ids, outcome))
  {
    hide Records;
    observed, order := observed0, order0;
    assert before + Tagged(ids, outcome)[..0] == before;
    for i := 0 to |ids|
      invariant Records(observed, order, before + Tagged(ids, outcome)[..i])
    {
      var id := ids[i];
      ghost var events := before + Tagged(ids, outcome)[..i];
      RecordOne(observed, order, events, Event(id, outcome));
      assert Tagged(ids, outcome)[..i + 1] == Tagged(ids, outcome)[..i] + [Event(id, outcome)];
      assert before + Tagged(ids, outcome)[..i + 1] == events + [Event(id, outcome)];
      observed := observed[id := (if id in observed then observed[id] else []) + [outcome]];
      order := if id in order then order else order + [id];
    }
    assert Tagged(ids, outcome)[..|ids|] == Tagged(ids, outcome);
  }

  method CollectObservedIds(stats: Stats)
    returns (r: Result<map<string, seq<Outcome>>, Reason>, order: seq<string>, ghost events: seq<Event>)
    ensures r.Err? ==> Events(stats, FIELDS) == Err(r.error)
    ensures r.Ok? ==> Events(stats, FIELDS) == Ok(events) && Records(r.value, order, events)
  {
    var observed: map<string, seq<Outcome>> := map[];
    order, events := [], [];
    hide Records;
    StartRecords();
    for f := 0 to |FIELDS|
      invariant Events(stats, FIELDS[..f]) == Ok(events) && Records(observed, order, events)
    {
      EventsStep(stats, f);
      var (field, outcome) := FIELDS[f];
      var ids := Ids(stats, field);
      if ids.Err? {
        EventsFail(stats, f + 1);
        return Err(ids.error), order, events;
      }
      observed, order := AddResults(observed, order, ids.value, outcome, events);
      events := events + Tagged(ids.value, outcome);
    }
    assert FIELDS[..|FIELDS|] == FIELDS;
    r := Ok(observed);
  }

  lemma StartRecords()
    ensures Records(map[], [], [])
  {
  }

  lemma EventsStep(stats: Stats, f: nat)
    requires f < |FIELDS| && Events(stats, FIELDS[..f]).Ok?
    ensures Events(stats, FIELDS[..f + 1]) ==
            match Ids(stats, FIELDS[f].0)
            case Err(e) => Err(e)
            case Ok(ids) => Ok(Events(stats, FIELDS[..f]).value + Tagged(ids, FIELDS[f].1))
  {
    assert FIELDS[..f + 1][..f] == FIELDS[..f];
  }

  lemma {:induction false} EventsFail(stats: Stats, n: nat)
    requires n <= |FIELDS| && Events(stats, FIELDS[..n]).Err?
    ensures Events(stats, FIELDS) == Events(stats, FIELDS[..n])
    decreases |FIELDS| - n
  {
    if n == |FIELDS| {
      assert FIELDS[..n] == FIELDS;
    } else {
      assert FIELDS[..n + 1][..n] == FIELDS[..n];
      EventsFail(stats, n + 1);
    }
  }

  ghost predicate Classified(outcomes: map<string, Outcome>, events: seq<Event>, done: seq<string>,
      expected: set<string>) {
    && (forall id :: id in outcomes <==> id in done)
    && (forall id | id in done ::
          Values(events, id) != [] && outcomes[id] == Classify(Values(events, id), id, expected))
  }

  /** The body of the classification loop. */
  method ClassifyCase(values: seq<Outcome>, id: string, expected: set<string>)
      returns (outcome: Outcome, errors: seq<Problem>)
    requires values != []
    ensures outcome == Classify(values, id, expected) && errors == Complaints(values, id, expected)
  {
    errors := [];
    outcome := values[0];
    if |values| != 1 {
      errors := errors + [Duplicate(id)];
      outcome := INVALID;
    }
    if expected != {} && id !in expected {
      errors := errors + [NotSelected(id)];
      outcome := UNEXPECTED;
    }
  }

  method ClassifyObservedIds(observed: map<string, seq<Outcome>>, order: seq<string>, expected: set<string>,
      ghost events: seq<Event>)
    returns (outcomes: map<string, Outcome>, errors: seq<Problem>)
    requires Records(observed, order, events)
    ensures outcomes == Outcomes(events, expected) && errors == AllComplaints(events, order, expected)
  {
    hide Progress, Records, Outcomes, Values, Classify, Complaints, AllComplaints;
    outcomes, errors := map[], [];
    NothingClassified(events, expected);
    for i := 0 to |order|
      invariant Progress(outcomes, errors, events, order[..i], expected)
    {
      var id := order[i];
      assert order[..i + 1] == order[..i] + [id];
      RecordedValue(observed, order, events, id);
      var outcome, complaints := ClassifyCase(observed[id], id, expected);
      OneMoreCase(outcomes, errors, observed, order, events, order[..i], id, expected);
      errors := errors + complaints;
      outcomes := outcomes[id := outcome];
    }
    assert order[..|order|] == order;
    ClassifiedAll(outcomes, errors, observed, order, events, expected);
  }

  lemma RecordedValue(observed: map<string, seq<Outcome>>, order: seq<string>, events: seq<Event>, id: string)
    requires Records(observed, order, events) && id in order
    ensures id in observed && observed[id] != []
  {
    SeenHaveValues(events);
  }

  /** Outcomes and complaints of the ids done so far. */
  ghost predicate Progress(outcomes: map<string, Outcome>, errors: seq<Problem>, events: seq<Event>,
      done: seq<string>, expected: set<string>) {
    Classified(outcomes, events, done, expected) && errors == AllComplaints(events, done, expected)
  }

  lemma OneMoreCase(outcomes: map<string, Outcome>, errors: seq<Problem>, observed: map<string, seq<Outcome>>,
      order: seq<string>,
                    events: seq<Event>, done: seq<string>, id: string, expected: set<string>)
    requires Progress(outcomes, errors, events, done, expected) && Records(observed, order, events) && id in order
    ensures id in observed && observed[id] != []
    ensures Progress(outcomes[id := Classify(observed[id], id, expected)],
                     errors + Complaints(observed[id], id, expected),
                     events, done + [id], expected)
  {
    RecordedValue(observed, order, events, id);
    hide Complaints, Classify;
    assert (done + [id])[..|done|] == done;
  }

  lemma NothingClassified(events: seq<Event>, expected: set<string>)
    ensures Progress(map[], [], events, [], expected)
  {
  }

  lemma ClassifiedAll(outcomes: map<string, Outcome>, errors: seq<Problem>, observed: map<string, seq<Outcome>>,
                      order: seq<string>, events: seq<Event>, expected: set<string>)
    requires Records(observed, order, events) && Progress(outcomes, errors, events, order, expected)
    ensures outcomes == Outcomes(events, expected) && errors == AllComplaints(events, order, expected)
  {
  }

  method Observe(selected: seq<string>, stats: Stats) returns (r: Result<Results, Reason>)
    ensures r == ObservedResults(selected, stats)
  {
    hide Events, ReportedRun, AllComplaints, Outcomes, Summary, FirstSeen;
    var errors := if selected == [] then [EmptySelection] else [];
    if !ValidCaseIds(selected) { return Err(InvalidSelected); }
    var expected := SetOf(selected);
    if |expected| != |selected| { errors := errors + [DuplicateSelected]; }
    assert errors == SelectionProblems(selected);
    var observed, order, events := CollectObservedIds(stats);
    if observed.Err? { return Err(observed.error); }
    var outcomes, complaints := ClassifyObservedIds(observed.value, order, expected, events);
    errors := errors + complaints;
    var reported := ReportedRun(stats);
    if reported.Err? { return Err(reported.error); }
    var total := TotalReported(observed.value, order, events);
    assert errors + [] == errors;
    if reported.value != total { errors := errors + [TotalMismatch]; }
    r := Ok(Summary(expected, selected != [], reported.value, outcomes, errors));
  }

  /** Summing the list lengths of the dictionary counts every reported result. */
  method TotalReported(observed: map<string, seq<Outcome>>, order: seq<string>, ghost events: seq<Event>)
      returns (total: nat)
    requires Records(observed, order, events)
    ensures total == |events|
  {
    total := 0;
    for i := 0 to |order|
      invariant total == Total(events, order[..i])
    {
      assert order[i] in order && order[..i + 1][..i] == order[..i];
      total := total + |observed[order[i]]|;
    }
    assert order[..|order|] == order;
    TotalIsAll(events);
  }

  function Total(events: seq<Event>, order: seq<string>): nat {
    if order == [] then 0 else Total(events, order[..|order| - 1]) + |Values(events, order[|order| - 1])|
  }

  lemma {:induction false} TotalGrows(events: seq<Event>, order: seq<string>)
    requires events != []
    requires forall i, j | 0 <= i < j < |order| :: order[i] != order[j]
    ensures Total(events, order)
         == Total(events[..|events| - 1], order) + (if events[|events| - 1].id in order then 1 else 0)
  {
    if order != [] {
      var init := order[..|order| - 1];
      TotalGrows(events, init);
      assert order == init + [order[|order| - 1]];
    }
  }

  lemma {:induction false} TotalIsAll(events: seq<Event>)
    ensures Total(events, FirstSeen(events)) == |events|
  {
    if events != [] {
      var init, last := events[..|events| - 1], events[|events| - 1];
      TotalIsAll(init);
      SeenOnce(events);
      SeenHaveValues(init);
      TotalGrows(events, FirstSeen(events));
      if last.id !in FirstSeen(init) {
        var order := FirstSeen(events);
        assert order[..|order| - 1] == FirstSeen(init);
      }
    }
  }
}
