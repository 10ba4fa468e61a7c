/**
  The closed union of expectations as a relation: which values say which expectation, field by field,
  in the names, limits and words of the contract.
 */
module ExpectationRules {
  import opened Wrappers
  import opened Characters
  import opened Collections
  import opened Sorting
  import opened Expectations
  import opened ExpectationRoundTrip

  // ---- Scalars and lists ----

  /** A lower-case letter, then at most 127 letters, digits or signs, without two dots or slashes in a row. */
  ghost predicate IsIdText(s: string) {
    && 1 <= |s| <= 128 && s[0] in LOWER && (forall c | c in s[1..] :: c in LOWER + DIGITS + "_.:/-")
    && (forall i | 0 <= i < |s| - 1 :: s[i] == s[i + 1] ==> s[i] != '.' && s[i] != '/')
  }

  lemma IdCharMeans(c: char)
    ensures IdentifierChar(c) <==> c in LOWER + DIGITS + "_.:/-"
  {
    LowerMeans(c);
    DigitMeans(c);
  }

  lemma IdentifierMeans(s: string)
    ensures IsIdentifier(s) <==> IsIdText(s)
  {
    if s != "" {
      LowerMeans(s[0]);
      TailCharsMean(s);
      PairsMean(s);
    }
    hide IdentifierChar;
  }

  lemma TailCharsMean(s: string)
    requires s != ""
    ensures (forall i | 1 <= i < |s| :: IdentifierChar(s[i]))
       <==> forall c | c in s[1..] :: c in LOWER + DIGITS + "_.:/-"
  {
    forall c
      ensures IdentifierChar(c) <==> c in LOWER + DIGITS + "_.:/-"
    {
      IdCharMeans(c);
    }
    hide IdentifierChar;
    assert forall i | 1 <= i < |s| :: s[i] == s[1..][i - 1] && s[i] in s[1..];
  }

  lemma PairsMean(s: string)
    ensures (forall i | 0 < i < |s| :: !(s[i - 1] == '.' && s[i] == '.') && !(s[i - 1] == '/' && s[i] == '/'))
       <==> forall i | 0 <= i < |s| - 1 :: s[i] == s[i + 1] ==> s[i] != '.' && s[i] != '/'
  {
    if forall i | 0 < i < |s| :: !(s[i - 1] == '.' && s[i] == '.') && !(s[i - 1] == '/' && s[i] == '/') {
      forall i | 0 <= i < |s| - 1
        ensures s[i] == s[i + 1] ==> s[i] != '.' && s[i] != '/'
      {
        var k := i + 1;
        assert !(s[k - 1] == '.' && s[k] == '.') && !(s[k - 1] == '/' && s[k] == '/');
      }
    }
    if forall i | 0 <= i < |s| - 1 :: s[i] == s[i + 1] ==> s[i] != '.' && s[i] != '/' {
      forall i | 0 < i < |s|
        ensures !(s[i - 1] == '.' && s[i] == '.') && !(s[i - 1] == '/' && s[i] == '/')
      {
        var k := i - 1;
        assert s[k] == s[k + 1] ==> s[k] != '.' && s[k] != '/';
      }
    }
  }

  /** The rule ids of a list: 1 to 128 different numbers up to 9999999, in ascending order. */
  ghost predicate ListsIds(v: Value, ids: seq<int>) {
    && v.VList? && 1 <= |v.items| <= 128 && |ids| == |v.items|
    && (forall x | x in v.items :: x.VInt? && 1 <= x.i <= 9999999)
    && (forall n :: n in ids <==> VInt(n) in v.items)
    && (forall i | 0 < i < |ids| :: ids[i - 1] < ids[i])
  }

  lemma RuleIdsMean(v: Value, ids: seq<int>)
    ensures RuleIds(v) == Ok(ids) <==> ListsIds(v, ids)
  {
    if RuleIds(v) == Ok(ids) { IdsAreListed(v, ids); }
    if ListsIds(v, ids) { ListedIdsAreRead(v, ids); }
  }

  lemma IdsAreListed(v: Value, ids: seq<int>)
    requires RuleIds(v) == Ok(ids)
    ensures ListsIds(v, ids)
  {
    hide Sort, Distinct;
    var raw := Ints(v.items);
    RuleIdsMeaning(v);
    IntTotal();
    SortAscends(raw, IntLeq);
    SortedIds(raw);
    StrictlyAscends(ids);
    assert forall i | 0 <= i < |v.items| :: v.items[i] in v.items;
  }

  lemma StrictlyAscends(ids: seq<int>)
    requires Ascending(ids, IntLeq) && Distinct(ids)
    ensures forall i | 0 < i < |ids| :: ids[i - 1] < ids[i]
  {
    assert forall i | 0 < i < |ids| :: IntLeq(ids[i - 1], ids[i]) && ids[i - 1] != ids[i];
  }

  lemma {:induction false} AscendingDiffer(ids: seq<int>, i: nat, j: nat)
    requires i < j < |ids| && forall k | 0 < k < |ids| :: ids[k - 1] < ids[k]
    ensures ids[i] < ids[j]
    decreases j
  {
    if i < j - 1 { AscendingDiffer(ids, i, j - 1); }
  }

  lemma AscendingIsDistinct(ids: seq<int>)
    requires forall k | 0 < k < |ids| :: ids[k - 1] < ids[k]
    ensures Distinct(ids) && Sort(ids, IntLeq) == ids
  {
    forall i, j | 0 <= i < j < |ids|
      ensures ids[i] != ids[j]
    {
      AscendingDiffer(ids, i, j);
    }
    AscendingIsSorted(ids, IntLeq);
  }

  /** A list as long as a list of different members with the same members is a permutation of it. */
  lemma SameLengthPermutes<T>(a: seq<T>, b: seq<T>)
    requires Distinct(a) && |a| == |b| && forall x :: x in a <==> x in b
    ensures Distinct(b) && multiset(a) == multiset(b)
  {
    DistinctCounts(a);
    forall x
      ensures multiset(a)[x] <= multiset(b)[x]
    {
      if x in a { assert x in multiset(b); }
    }
    assert |multiset(a)| == |multiset(b)|;
    SubMultisetOfSameSize(multiset(a), multiset(b));
    DistinctCounts(b);
  }

  lemma SubMultisetOfSameSize<T>(a: multiset<T>, b: multiset<T>)
    requires a <= b && |a| == |b|
    ensures a == b
  {
    assert b == a + (b - a);
    assert |b - a| == 0;
  }

  lemma IntsSortAlike(a: seq<int>, b: seq<int>)
    requires multiset(a) == multiset(b)
    ensures Sort(a, IntLeq) == Sort(b, IntLeq)
  {
    IntTotal();
    SortAscends(a, IntLeq);
    SortAscends(b, IntLeq);
    AscendingIntsUnique(Sort(a, IntLeq), Sort(b, IntLeq));
  }

  lemma {:induction false} FirstIntIsLeast(s: seq<int>, i: nat)
    requires Ascending(s, IntLeq) && i < |s|
    ensures s[0] <= s[i]
  {
    if 0 < i {
      FirstIntIsLeast(s, i - 1);
      assert IntLeq(s[i - 1], s[i]);
    }
  }

  lemma {:induction false} AscendingIntsUnique(a: seq<int>, b: seq<int>)
    requires Ascending(a, IntLeq) && Ascending(b, IntLeq) && multiset(a) == multiset(b)
    ensures a == b
  {
    assert |multiset(a)| == |a| && |multiset(b)| == |b|;
    if a != [] {
      SameFirst(a, b);
      TailContents(a);
      TailContents(b);
      IntTailAscends(a);
      IntTailAscends(b);
      hide Ascending;
      AscendingIntsUnique(a[1..], b[1..]);
    }
  }

  lemma SameFirst(a: seq<int>, b: seq<int>)
    requires Ascending(a, IntLeq) && Ascending(b, IntLeq) && multiset(a) == multiset(b) && a != [] && b != []
    ensures a[0] == b[0]
  {
    hide Ascending;
    SameMembers(a, b);
    assert a[0] in b && b[0] in a;
    var i :| 0 <= i < |b| && b[i] == a[0];
    var j :| 0 <= j < |a| && a[j] == b[0];
    FirstIntIsLeast(b, i);
    FirstIntIsLeast(a, j);
  }

  lemma IntTailAscends(s: seq<int>)
    requires s != [] && Ascending(s, IntLeq)
    ensures Ascending(s[1..], IntLeq)
  {
    forall i | 0 < i < |s[1..]|
      ensures IntLeq(s[1..][i - 1], s[1..][i])
    {
      assert IntLeq(s[i], s[i + 1]);
    }
  }

  lemma ListedIdsAreRead(v: Value, ids: seq<int>)
    requires ListsIds(v, ids)
    ensures RuleIds(v) == Ok(ids)
  {
    hide Sort, Distinct;
    assert forall i | 0 <= i < |v.items| :: v.items[i] in v.items;
    var raw := Ints(v.items);
    IntsMembers(v.items);
    AscendingIsDistinct(ids);
    forall n: int
      ensures n in ids <==> n in raw
    {
      assert n in ids <==> VInt(n) in v.items;
      assert n in raw <==> VInt(n) in v.items;
    }
    SameLengthPermutes(ids, raw);
    IntsSortAlike(ids, raw);
  }

  /** The names of a list: different identifiers in the order of their characters. */
  ghost predicate ListsNames(v: Value, names: seq<string>, minimum: nat) {
    && v.VList? && minimum <= |v.items| <= 128 && |names| == |v.items|
    && (forall x | x in v.items :: x.VStr? && IsIdText(x.s))
    && (forall n :: n in names <==> VStr(n) in v.items)
    && (forall i | 0 < i < |names| :: Before(names[i - 1], names[i]))
  }

  lemma NamesMean(v: Value, code: Code, names: seq<string>, minimum: nat)
    ensures IdentifierList(v, code, minimum) == Ok(names) <==> ListsNames(v, names, minimum)
  {
    if IdentifierList(v, code, minimum) == Ok(names) { NamesAreListed(v, code, names, minimum); }
    if ListsNames(v, names, minimum) { ListedNamesAreRead(v, code, names, minimum); }
  }

  lemma NamesAreListed(v: Value, code: Code, names: seq<string>, minimum: nat)
    requires IdentifierList(v, code, minimum) == Ok(names)
    ensures ListsNames(v, names, minimum)
  {
    hide Sort, Distinct, IsIdentifier, Before, StringLeq, IsIdText;
    var raw := Strs(v.items);
    IdentifierListMeaning(v, code, minimum);
    StringTotal();
    SortAscends(raw, StringLeq);
    SortKeepsDistinct(raw, names);
    NamesAscend(names);
    forall x | x in v.items
      ensures x.VStr? && IsIdText(x.s)
    {
      var i :| 0 <= i < |v.items| && v.items[i] == x;
      IdentifierMeans(x.s);
    }
  }

  lemma NamesAscend(names: seq<string>)
    requires Ascending(names, StringLeq) && Distinct(names)
    ensures forall i | 0 < i < |names| :: Before(names[i - 1], names[i])
  {
    hide Before, StringLeq;
    forall i | 0 < i < |names|
      ensures Before(names[i - 1], names[i])
    {
      assert StringLeq(names[i - 1], names[i]) && names[i - 1] != names[i];
      BeforeMeans(names[i - 1], names[i]);
    }
  }

  lemma {:induction false} NamesDifferInOrder(names: seq<string>, i: nat, j: nat)
    requires i < j < |names| && Ascending(names, StringLeq)
    requires forall k | 0 < k < |names| :: names[k - 1] != names[k]
    ensures StringLeq(names[i], names[j]) && names[i] != names[j]
    decreases j
  {
    hide StringLeq;
    assert StringLeq(names[j - 1], names[j]);
    if i < j - 1 {
      NamesDifferInOrder(names, i, j - 1);
      StringTransitive(names[i], names[j - 1], names[j]);
      if names[i] == names[j] { StringAntisymmetric(names[j - 1], names[j]); }
    }
  }

  lemma AscendingNamesAreDistinct(names: seq<string>)
    requires forall i | 0 < i < |names| :: Before(names[i - 1], names[i])
    ensures Distinct(names) && Ascending(names, StringLeq) && Sort(names, StringLeq) == names
  {
    hide Before, StringLeq, Sort;
    forall i | 0 < i < |names|
      ensures StringLeq(names[i - 1], names[i]) && names[i - 1] != names[i]
    {
      BeforeMeans(names[i - 1], names[i]);
    }
    forall i, j | 0 <= i < j < |names|
      ensures names[i] != names[j]
    {
      NamesDifferInOrder(names, i, j);
    }
    AscendingIsSorted(names, StringLeq);
  }

  lemma ListedNamesAreRead(v: Value, code: Code, names: seq<string>, minimum: nat)
    requires ListsNames(v, names, minimum)
    ensures IdentifierList(v, code, minimum) == Ok(names)
  {
    hide Sort, Distinct, IsIdentifier, Before, StringLeq, IsIdText;
    forall i | 0 <= i < |v.items|
      ensures v.items[i].VStr? && IsIdentifier(v.items[i].s)
    {
      assert v.items[i] in v.items;
      IdentifierMeans(v.items[i].s);
    }
    var raw := Strs(v.items);
    StrsMembers(v.items);
    forall n: string
      ensures n in names <==> n in raw
    {
      assert n in names <==> VStr(n) in v.items;
      assert n in raw <==> VStr(n) in v.items;
    }
    AscendingNamesAreDistinct(names);
    SameLengthPermutes(names, raw);
    StringTotal();
    SortAscends(raw, StringLeq);
    AscendingIsUnique(names, Sort(raw, StringLeq));
  }

  // ---- What the fields of each kind say ----

  ghost predicate Named(f: Fields, kind: string) {
    "kind" in f && f["kind"] == VStr(kind)
  }

  ghost predicate SaysStatus(f: Fields, status: int) {
    "http_status" in f && f["http_status"] == VInt(status) && 100 <= status <= 599
  }

  ghost predicate SaysAction(f: Fields, action: string) {
    && "action" in f && f["action"] == VStr(action)
    && action in {"deny", "pass", "none", "redirect", "block", "drop", "abort_connection", "log_only"}
  }

  ghost predicate MaySayIds(f: Fields, ids: Option<seq<int>>) {
    match ids case None => "rule_ids" !in f case Some(ns) => "rule_ids" in f && ListsIds(f["rule_ids"], ns)
  }

  ghost predicate MaySayStatus(f: Fields, status: Option<int>) {
    match status case None => "http_status" !in f case Some(n) => SaysStatus(f, n)
  }

  ghost predicate SaysId(f: Fields, key: string, text: string) {
    key in f && f[key] == VStr(text) && IsIdText(text)
  }

  /** An accepted configuration run exits with 0 and no error class; a started one is nginx with a rules file. */
  ghost predicate SaysConfiguration(f: Fields, c: Configuration) {
    && SaysId(f, "connector", c.connector) && SaysId(f, "operation", c.operation)
    && SaysId(f, "directive", c.directive) && SaysId(f, "outcome", c.outcome)
    && SaysId(f, "error_class", c.errorClass)
    && "exit_code" in f && f["exit_code"] == VInt(c.exitCode) && 0 <= c.exitCode <= 255
  }

  ghost predicate Coherent(c: Configuration) {
    && (c.operation == "configtest" || c.operation == "startup")
    && ((c.outcome == "config_accepted" && c.exitCode == 0 && c.errorClass == "none")
        || (c.outcome == "config_rejected" && c.exitCode != 0 && c.errorClass != "none"))
    && (c.operation == "startup" ==>
          c.connector == "nginx" && c.directive == "modsecurity_rules_file" && c.exitCode == 0)
  }

  ghost predicate IsStateOf(subject: Subject, state: string) {
    match subject
    case RequestBody => state in {"observed", "matched", "buffered", "streaming", "incremental", "absent", "redacted"}
    case ResponseBody => state in {"observed", "matched", "buffered", "streaming", "incremental", "absent", "redacted"}
    case Transport =>
      state in {"connection_aborted", "stream_reset", "http1", "http2", "http3", "keep_alive",
                "first_byte_before_response_end", "no_full_response_buffering"}
    case Cleanup => state in {"balanced", "completed", "reused", "isolated"}
  }

  function SubjectName(subject: Subject): string {
    match subject
    case RequestBody => "request_body"
    case ResponseBody => "response_body"
    case Transport => "transport"
    case Cleanup => "cleanup"
  }

  ghost predicate SaysPredicates(v: Value, p: map<string, bool>) {
    && v.VMap? && v.fields.Keys == p.Keys && p.Keys != {}
    && (forall k | k in p :: v.fields[k] == VBool(p[k]))
    && p.Keys <= {"host_started", "request_completed", "response_committed", "connection_reused",
                  "transaction_isolated", "client_aborted", "upstream_aborted", "cleanup_balanced"}
  }

  /** The fields say just this single condition. */
  ghost predicate SaysLeaf(f: Fields, e: Expectation)
    requires !e.Compound?
  {
    match e
    case HttpStatusIs(status) => Named(f, "http_status") && f.Keys == {"kind", "http_status"} && SaysStatus(f, status)
    case InterventionIs(action, status, ids) =>
      && Named(f, "intervention") && f.Keys <= {"kind", "action", "http_status", "rule_ids"}
      && SaysAction(f, action) && MaySayStatus(f, status) && MaySayIds(f, ids)
    case ActionIs(action, ids) =>
      Named(f, "action") && f.Keys <= {"kind", "action", "rule_ids"} && SaysAction(f, action) && MaySayIds(f, ids)
    case RuleMatch(ids) =>
      Named(f, "rule_match") && f.Keys == {"kind", "rule_ids"} && ListsIds(f["rule_ids"], ids)
    case EventIs(names, event) =>
      && Named(f, "event") && f.Keys <= {"kind", "fields", "event_type"} && (names.Some? || event.Some?)
      && (match names case None => "fields" !in f case Some(ns) => "fields" in f && ListsNames(f["fields"], ns, 1))
      && (match event case None => "event_type" !in f case Some(t) => SaysId(f, "event_type", t))
    case ConfigurationIs(c) =>
      && Named(f, "configuration") && SaysConfiguration(f, c) && Coherent(c)
      && f.Keys == {"kind", "connector", "operation", "directive", "exit_code", "outcome", "error_class"}
    case RequestHeaders(names) =>
      Named(f, "request_headers") && f.Keys == {"kind", "names"} && ListsNames(f["names"], names, 1)
    case ResponseHeaders(names) =>
      Named(f, "response_headers") && f.Keys == {"kind", "names"} && ListsNames(f["names"], names, 1)
    case StateIs(subject, state) =>
      && Named(f, SubjectName(subject)) && f.Keys == {"kind", "state"}
      && f["state"] == VStr(state) && IsStateOf(subject, state)
    case LifecycleIs(p) =>
      Named(f, "lifecycle") && f.Keys == {"kind", "predicates"} && SaysPredicates(f["predicates"], p)
    case NotApplicable(reason) =>
      && Named(f, "not_applicable") && f.Keys == {"kind", "reason"} && f["reason"] == VStr(reason)
      && reason in {"unsupported_by_host_model", "not_implemented", "connector_gap", "future_target",
                    "runtime_difference"}
  }

  /**
    The value says this expectation: a single condition, or two to sixteen different ones a level deeper,
    with at most four levels below the outermost.
   */
  ghost predicate Says(v: Value, e: Expectation, depth: nat)
    decreases e
  {
    && v.VMap? && depth <= 4
    && if !e.Compound? then SaysLeaf(v.fields, e)
       else
         && Named(v.fields, "compound") && v.fields.Keys == {"kind", "conditions"}
         && var c := v.fields["conditions"];
            && c.VList? && |c.items| == |e.conditions| && 2 <= |c.items| <= 16
            && (forall i | 0 <= i < |c.items| :: Says(c.items[i], e.conditions[i], depth + 1))
            && (forall i, j | 0 <= i < j < |c.items| :: e.conditions[i] != e.conditions[j])
  }

  // ---- Each kind's handler ----

  lemma StatusSaid(f: Fields, e: Expectation)
    requires Named(f, "http_status")
    ensures DecodeHttpStatus(f) == Ok(e) <==> e.HttpStatusIs? && SaysLeaf(f, e)
  {
  }

  lemma ActionSaid(f: Fields, action: string)
    requires "action" in f
    ensures Member(f["action"], ACTIONS, "invalid_action") == Ok(action) <==> SaysAction(f, action)
  {
  }

  lemma IdsSaid(f: Fields, ids: Option<seq<int>>)
    ensures OptionalRuleIds(f) == Ok(ids) <==> MaySayIds(f, ids)
  {
    hide RuleIds, ListsIds;
    if "rule_ids" in f && ids.Some? { RuleIdsMean(f["rule_ids"], ids.value); }
  }

  lemma OptionalStatusSaid(f: Fields, status: Option<int>)
    ensures OptionalStatus(f) == Ok(status) <==> MaySayStatus(f, status)
  {
  }

  lemma InterventionSaid(f: Fields, e: Expectation)
    requires Named(f, "intervention")
    ensures DecodeIntervention(f) == Ok(e) <==> e.InterventionIs? && SaysLeaf(f, e)
  {
    hide Member, OptionalStatus, OptionalRuleIds, SaysAction, MaySayStatus, MaySayIds;
    if "action" in f {
      var action := Member(f["action"], ACTIONS, "invalid_action");
      var status, ids := OptionalStatus(f), OptionalRuleIds(f);
      if action.Ok? { ActionSaid(f, action.value); }
      if status.Ok? { OptionalStatusSaid(f, status.value); }
      if ids.Ok? { IdsSaid(f, ids.value); }
      if e.InterventionIs? {
        ActionSaid(f, e.act);
        OptionalStatusSaid(f, e.httpStatus);
        IdsSaid(f, e.ids);
      }
    }
    ActionNeeded(f);
  }

  lemma ActionNeeded(f: Fields)
    ensures "action" !in f ==> forall a :: !SaysAction(f, a)
  {
  }

  lemma ActionIsSaid(f: Fields, e: Expectation)
    requires Named(f, "action")
    ensures DecodeAction(f) == Ok(e) <==> e.ActionIs? && SaysLeaf(f, e)
  {
    hide Member, OptionalRuleIds, SaysAction, MaySayIds;
    if "action" in f {
      var action, ids := Member(f["action"], ACTIONS, "invalid_action"), OptionalRuleIds(f);
      if action.Ok? { ActionSaid(f, action.value); }
      if ids.Ok? { IdsSaid(f, ids.value); }
      if e.ActionIs? {
        ActionSaid(f, e.action);
        IdsSaid(f, e.ruleIds);
      }
    }
    ActionNeeded(f);
  }

  lemma RulesSaid(f: Fields, e: Expectation)
    requires Named(f, "rule_match")
    ensures DecodeRuleMatch(f) == Ok(e) <==> e.RuleMatch? && SaysLeaf(f, e)
  {
    hide RuleIds, ListsIds;
    if "rule_ids" in f {
      if RuleIds(f["rule_ids"]).Ok? { RuleIdsMean(f["rule_ids"], RuleIds(f["rule_ids"]).value); }
      if e.RuleMatch? { RuleIdsMean(f["rule_ids"], e.rules); }
    }
  }

  lemma IdSaid(f: Fields, key: string, text: string)
    requires key in f
    ensures Identifier(f[key]) == Ok(text) <==> SaysId(f, key, text)
  {
    hide IsIdentifier, IsIdText;
    IdentifierMeans(text);
    if f[key].VStr? { IdentifierMeans(f[key].s); }
  }

  lemma EventSaid(f: Fields, e: Expectation)
    requires Named(f, "event")
    ensures DecodeEvent(f) == Ok(e) <==> e.EventIs? && SaysLeaf(f, e)
  {
    hide IdentifierList, Identifier, ListsNames, SaysId;
    if "fields" in f {
      var names := IdentifierList(f["fields"], "invalid_event", 1);
      if names.Ok? { NamesMean(f["fields"], "invalid_event", names.value, 1); }
      if e.EventIs? && e.eventFields.Some? { NamesMean(f["fields"], "invalid_event", e.eventFields.value, 1); }
    }
    if "event_type" in f {
      var event := Identifier(f["event_type"]);
      if event.Ok? { IdSaid(f, "event_type", event.value); }
      if e.EventIs? && e.eventType.Some? { IdSaid(f, "event_type", e.eventType.value); }
    }
    EventTypeNeeded(f);
  }

  lemma EventTypeNeeded(f: Fields)
    ensures "event_type" !in f ==> forall t :: !SaysId(f, "event_type", t)
  {
  }

  lemma SettingsSaid(f: Fields, c: Configuration)
    requires CONFIGURATION_FIELDS <= f.Keys
    ensures ConfigurationValues(f) == Ok(c) <==> SaysConfiguration(f, c)
  {
    hide Identifier, SaysId;
    IdSaid(f, "connector", c.connector);
    IdSaid(f, "operation", c.operation);
    IdSaid(f, "directive", c.directive);
    IdSaid(f, "outcome", c.outcome);
    IdSaid(f, "error_class", c.errorClass);
  }

  lemma CoherentMeans(c: Configuration)
    ensures CoherentConfiguration(c) <==> Coherent(c)
  {
  }

  lemma ConfigurationSaid(f: Fields, e: Expectation)
    requires Named(f, "configuration")
    ensures DecodeConfiguration(f) == Ok(e) <==> e.ConfigurationIs? && SaysLeaf(f, e)
  {
    hide ConfigurationValues, CoherentConfiguration, Coherent, SaysConfiguration;
    var fields := {"kind", "connector", "operation", "directive", "exit_code", "outcome", "error_class"};
    assert CONFIGURATION_FIELDS + {"kind"} == fields;
    if f.Keys == fields {
      var c := ConfigurationValues(f);
      if c.Ok? {
        SettingsSaid(f, c.value);
        CoherentMeans(c.value);
      }
      if e.ConfigurationIs? {
        SettingsSaid(f, e.configuration);
        CoherentMeans(e.configuration);
      }
    }
  }

  lemma HeadersSaid(f: Fields, names: seq<string>)
    ensures HeaderNames(f) == Ok(names) <==> f.Keys == {"kind", "names"} && ListsNames(f["names"], names, 1)
  {
    hide IdentifierList, ListsNames;
    if "names" in f { NamesMean(f["names"], "invalid_header_names", names, 1); }
  }

  lemma StateSaid(f: Fields, subject: Subject, e: Expectation)
    requires Named(f, SubjectName(subject))
    ensures DecodeState(f, subject) == Ok(e) <==> e.StateIs? && e.subject == subject && SaysLeaf(f, e)
  {
    StatesOf(subject);
    hide AllowedStates, IsStateOf, SubjectName;
  }

  lemma StatesOf(subject: Subject)
    ensures forall state :: state in AllowedStates(subject) <==> IsStateOf(subject, state)
  {
  }

  lemma PredicatesSaid(v: Value, p: map<string, bool>)
    ensures v.VMap? && ValidPredicates(v.fields) && Booleans(v.fields) == p <==> SaysPredicates(v, p)
  {
    if v.VMap? && ValidPredicates(v.fields) { assert Booleans(v.fields).Keys == v.fields.Keys; }
    if SaysPredicates(v, p) { assert Booleans(v.fields) == p; }
  }

  lemma LifecycleSaid(f: Fields, e: Expectation)
    requires Named(f, "lifecycle")
    ensures DecodeLifecycle(f) == Ok(e) <==> e.LifecycleIs? && SaysLeaf(f, e)
  {
    hide SaysPredicates, PREDICATES;
    if "predicates" in f {
      var v := f["predicates"];
      if v.VMap? && ValidPredicates(v.fields) { PredicatesSaid(v, Booleans(v.fields)); }
      if e.LifecycleIs? { PredicatesSaid(v, e.predicates); }
    }
  }

  lemma ReasonSaid(f: Fields, e: Expectation)
    requires Named(f, "not_applicable")
    ensures DecodeNotApplicable(f) == Ok(e) <==> e.NotApplicable? && SaysLeaf(f, e)
  {
  }

  // ---- The whole union ----

  /** What is said names its kind. */
  lemma KindSaid(f: Fields, e: Expectation)
    requires !e.Compound? && SaysLeaf(f, e)
    ensures Named(f, KindName(KindOf(e)))
  {
    hide Named, ListsIds, ListsNames, SaysConfiguration, Coherent, SaysPredicates, IsStateOf, SaysStatus, SaysAction,
      MaySayIds, MaySayStatus, SaysId;
    if e.StateIs? { StatesNamed(e); }
  }

  lemma StatesNamed(e: Expectation)
    requires e.StateIs?
    ensures KindName(KindOf(e)) == SubjectName(e.subject)
  {
  }

  lemma LeafSaid(f: Fields, e: Expectation, depth: nat)
    requires !e.Compound? && depth <= MAX_DEPTH && Named(f, KindName(KindOf(e)))
    ensures DecodeKind(KindOf(e), f, depth) == Ok(e) <==> SaysLeaf(f, e)
  {
    hide DecodeHttpStatus, DecodeIntervention, DecodeAction, DecodeRuleMatch, DecodeEvent, DecodeConfiguration,
      HeaderNames, DecodeState, DecodeLifecycle, DecodeNotApplicable, ListsNames;
    match e
    case HttpStatusIs(_) => StatusSaid(f, e);
    case InterventionIs(_, _, _) => InterventionSaid(f, e);
    case ActionIs(_, _) => ActionIsSaid(f, e);
    case RuleMatch(_) => RulesSaid(f, e);
    case EventIs(_, _) => EventSaid(f, e);
    case ConfigurationIs(_) => ConfigurationSaid(f, e);
    case RequestHeaders(names) => HeadersSaid(f, names);
    case ResponseHeaders(names) => HeadersSaid(f, names);
    case StateIs(subject, _) =>
      StatesNamed(e);
      StateSaid(f, subject, e);
    case LifecycleIs(_) => LifecycleSaid(f, e);
    case NotApplicable(_) => ReasonSaid(f, e);
  }

  /** A list of conditions decodes to these exactly when each value decodes to its condition. */
  lemma AllSaid(vs: seq<Value>, depth: nat, cs: seq<Expectation>)
    requires depth <= MAX_DEPTH + 1
    ensures DecodeAll(vs, depth) == Ok(cs) <==>
            |vs| == |cs| && forall i | 0 <= i < |vs| :: Decode(vs[i], depth) == Ok(cs[i])
  {
    hide Decode, DecodeAll;
    if DecodeAll(vs, depth).Ok? { DecodeAllPointwise(vs, depth); }
    if |vs| == |cs| && forall i | 0 <= i < |vs| :: Decode(vs[i], depth) == Ok(cs[i]) { EncodeAll(cs, depth, vs); }
  }

  lemma CompoundSaid(f: Fields, depth: nat, e: Expectation)
    requires depth <= MAX_DEPTH && Named(f, "compound")
    ensures DecodeCompound(f, depth) == Ok(e) <==>
            && e.Compound? && f.Keys == {"kind", "conditions"} && f["conditions"].VList?
            && 2 <= |f["conditions"].items| <= 16 && Distinct(e.conditions)
            && |f["conditions"].items| == |e.conditions|
            && forall i | 0 <= i < |e.conditions| ::
                 Decode(f["conditions"].items[i], depth + 1) == Ok(e.conditions[i])
  {
    hide Decode, DecodeAll, Distinct;
    if "conditions" in f && f["conditions"].VList? {
      var items := f["conditions"].items;
      var all := DecodeAll(items, depth + 1);
      if all.Ok? { AllSaid(items, depth + 1, all.value); }
      if e.Compound? { AllSaid(items, depth + 1, e.conditions); }
    }
  }

  lemma NotTooDeep(v: Value, depth: nat)
    requires depth == MAX_DEPTH + 1
    ensures Decode(v, depth).Err?
  {
  }

  /**
    THE UNION, DECLARED.  A value is accepted as an expectation exactly when it says it: for every kind,
    field, limit and word, at every nesting.
   */
  lemma {:induction false} DecodeMeans(v: Value, depth: nat, e: Expectation)
    requires depth <= MAX_DEPTH + 1
    ensures Decode(v, depth) == Ok(e) <==> Says(v, e, depth)
    decreases e, 1
  {
    hide Decode, DecodeKind, SaysLeaf, KindName, DecodeCompound;
    if depth == MAX_DEPTH + 1 {
      NotTooDeep(v, depth);
    } else if v.VMap? {
      if !e.Compound? { LeafDecodes(v.fields, e, depth); } else { CompoundDecodes(v.fields, e, depth); }
    } else {
      OnlyMaps(v, depth);
    }
  }

  lemma OnlyMaps(v: Value, depth: nat)
    requires depth <= MAX_DEPTH && !v.VMap?
    ensures Decode(v, depth).Err?
  {
  }

  lemma LeafDecodes(f: Fields, e: Expectation, depth: nat)
    requires depth <= MAX_DEPTH && !e.Compound?
    ensures Decode(VMap(f), depth) == Ok(e) <==> SaysLeaf(f, e)
  {
    hide Decode, DecodeKind, SaysLeaf, KindName;
    if Decode(VMap(f), depth) == Ok(e) {
      var k := DecodedKind(VMap(f), depth);
      DecodesKindOf(k, f, depth);
      LeafSaid(f, e, depth);
    }
    if SaysLeaf(f, e) {
      KindSaid(f, e);
      DecodesByKind(f, KindOf(e), depth);
      LeafSaid(f, e, depth);
    }
  }

  lemma CompoundHandled(f: Fields, depth: nat)
    requires depth <= MAX_DEPTH
    ensures DecodeKind(KCompound, f, depth) == DecodeCompound(f, depth) && KindName(KCompound) == "compound"
  {
  }

  lemma {:induction false} CompoundDecodes(f: Fields, e: Expectation, depth: nat)
    requires depth <= MAX_DEPTH && e.Compound?
    ensures Decode(VMap(f), depth) == Ok(e) <==> Says(VMap(f), e, depth)
    decreases e, 0
  {
    hide Decode, DecodeKind, SaysLeaf, KindName, DecodeCompound;
    CompoundHandled(f, depth);
    if Decode(VMap(f), depth) == Ok(e) {
      var k := DecodedKind(VMap(f), depth);
      DecodesKindOf(k, f, depth);
    } else if Named(f, "compound") {
      DecodesByKind(f, KCompound, depth);
    }
    if Named(f, "compound") {
      CompoundSaid(f, depth, e);
      if "conditions" in f && f["conditions"].VList? && |f["conditions"].items| == |e.conditions| {
        forall i | 0 <= i < |e.conditions|
          ensures Decode(f["conditions"].items[i], depth + 1) == Ok(e.conditions[i]) <==>
                  Says(f["conditions"].items[i], e.conditions[i], depth + 1)
        {
          DecodeMeans(f["conditions"].items[i], depth + 1, e.conditions[i]);
        }
      }
    }
  }

  /** What the public normaliser accepts. */
  lemma AcceptedExactlyWhen(v: Value, normal: Value)
    ensures Normalise(v) == Ok(normal) <==> exists e :: Says(v, e, 0) && normal == Encode(e)
  {
    hide Decode, Encode, Says;
    if Normalise(v) == Ok(normal) { DecodeMeans(v, 0, Decode(v, 0).value); }
    forall e | Says(v, e, 0)
      ensures Normalise(v) == Ok(Encode(e))
    {
      DecodeMeans(v, 0, e);
    }
  }
}
