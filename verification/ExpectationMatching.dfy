/**
  Matching a validated result against an expectation.  The matcher works on values, raw or normal
  alike; the reference says what each kind demands of an observation.
 */
module ExpectationMatching {
  import opened Wrappers
  import opened Expectations
  import opened ExpectationRoundTrip

  // ---- Results ----

  datatype ObservedConfiguration = ObservedConfiguration(settings: Configuration, started: bool, listening: bool)

  datatype Observation = Observation(
    status: Option<int>, action: Option<string>, ruleIds: Option<seq<int>>, eventFields: Option<seq<string>>,
    eventType: Option<string>, requestNames: Option<seq<string>>, responseNames: Option<seq<string>>,
    requestBody: Option<string>, responseBody: Option<string>, transport: Option<string>, cleanup: Option<string>,
    applicability: Option<string>, lifecycle: Option<map<string, bool>>, configuration: Option<ObservedConfiguration>)

  const RESULT_FIELDS: set<string> :=
    {"http_status", "action", "rule_ids", "event_fields", "event_type", "request_header_names", "response_header_names",
     "request_body_state", "response_body_state", "transport", "lifecycle", "cleanup", "applicability", "configuration"}

  const SENSITIVE: set<string> :=
    {"authorization", "cookie", "password", "secret", "payload", "request_body", "response_body", "request_headers",
        "response_headers"}

  const OBSERVED_FIELDS: set<string> := CONFIGURATION_FIELDS + {"process_started", "listener_created"}

  function OptionalStatusOf(v: Option<Value>): Result<Option<int>, Code> {
    if v.None? then Ok(None) else var x :- HttpStatus(v.value); Ok(Some(x))
  }

  function OptionalMember(v: Option<Value>, allowed: set<string>): Result<Option<string>, Code> {
    if v.None? then Ok(None) else var x :- Member(v.value, allowed, "invalid_result"); Ok(Some(x))
  }

  function OptionalIds(v: Option<Value>): Result<Option<seq<int>>, Code> {
    if v.None? then Ok(None) else var x :- RuleIds(v.value); Ok(Some(x))
  }

  function OptionalNames(v: Option<Value>): Result<Option<seq<string>>, Code> {
    if v.None? then Ok(None) else var x :- IdentifierList(v.value, "invalid_result", 1); Ok(Some(x))
  }

  function OptionalIdentifier(v: Option<Value>): Result<Option<string>, Code> {
    if v.None? then Ok(None) else var x :- Identifier(v.value); Ok(Some(x))
  }

  function OptionalLifecycle(v: Option<Value>): Result<Option<map<string, bool>>, Code> {
    if v.None? then Ok(None)
    else if v.value.VMap? && ValidPredicates(v.value.fields) then Ok(Some(Booleans(v.value.fields)))
    else Err("invalid_result")
  }

  function OptionalConfiguration(v: Option<Value>): Result<Option<ObservedConfiguration>, Code> {
    if v.None? then Ok(None)
    else if !v.value.VMap? || v.value.fields.Keys != OBSERVED_FIELDS then Err("invalid_result")
    else
      var f := v.value.fields;
      var c :- ConfigurationValues(f);
      if f["process_started"].VBool? && f["listener_created"].VBool?
      then Ok(Some(ObservedConfiguration(c, f["process_started"].b, f["listener_created"].b)))
      else Err("invalid_result")
  }

  function DecodeResult(v: Value): Result<Observation, Code> {
    if !v.VMap? || v.fields.Keys == {} then Err("invalid_result")
    else if v.fields.Keys !! SENSITIVE then
      if v.fields.Keys <= RESULT_FIELDS then DecodeFields(v.fields) else Err("invalid_result")
    else Err("sensitive_result_field")
  }

  function DecodeFields(f: Fields): Result<Observation, Code> {
    var status :- OptionalStatusOf(Get(f, "http_status"));
    var action :- OptionalMember(Get(f, "action"), ACTIONS);
    var ids :- OptionalIds(Get(f, "rule_ids"));
    var fields :- OptionalNames(Get(f, "event_fields"));
    var event :- OptionalIdentifier(Get(f, "event_type"));
    var requestNames :- OptionalNames(Get(f, "request_header_names"));
    var responseNames :- OptionalNames(Get(f, "response_header_names"));
    var requestBody :- OptionalMember(Get(f, "request_body_state"), BODY_STATES);
    var responseBody :- OptionalMember(Get(f, "response_body_state"), BODY_STATES);
    var transport :- OptionalMember(Get(f, "transport"), TRANSPORT_STATES);
    var cleanup :- OptionalMember(Get(f, "cleanup"), CLEANUP_STATES);
    var applicability :- OptionalMember(Get(f, "applicability"), REASONS);
    var lifecycle :- OptionalLifecycle(Get(f, "lifecycle"));
    var configuration :- OptionalConfiguration(Get(f, "configuration"));
    Ok(Observation(status, action, ids, fields, event, requestNames, responseNames, requestBody, responseBody,
                   transport, cleanup, applicability, lifecycle, configuration))
  }

  // ---- The matcher on values ----

  function Items(v: Option<Value>): seq<Value> {
    if v.Some? && v.value.VList? then v.value.items else []
  }

  function Entries(v: Option<Value>): Fields {
    if v.Some? && v.value.VMap? then v.value.fields else map[]
  }

  predicate Subset(wanted: seq<Value>, seen: seq<Value>) {
    forall i | 0 <= i < |wanted| :: wanted[i] in seen
  }

  function Unless(ok: bool, code: Code): seq<Code> {
    if ok then [] else [code]
  }

  function MatchAction(e: Fields, r: Fields): seq<Code> {
    Unless(Get(r, "action") == Get(e, "action"), "action_mismatch")
    + Unless("http_status" !in e || Get(r, "http_status") == Get(e, "http_status"), "http_status_mismatch")
    + Unless("rule_ids" !in e || Subset(Items(Get(e, "rule_ids")), Items(Get(r, "rule_ids"))), "rule_id_mismatch")
  }

  function MatchEvent(e: Fields, r: Fields): seq<Code> {
    Unless("fields" !in e || Subset(Items(Get(e, "fields")), Items(Get(r, "event_fields"))), "event_fields_mismatch")
    + Unless("event_type" !in e || Get(r, "event_type") == Get(e, "event_type"), "event_type_mismatch")
  }

  function MatchConfiguration(e: Fields, r: Fields): seq<Code> {
    CompareConfiguration(e, Entries(Get(r, "configuration")))
  }

  /** Settings in the order of their names, then what was started. */
  function CompareConfiguration(e: Fields, o: Fields): seq<Code> {
    CompareSettings(e, o) + CompareRun(e, o)
  }

  function CompareSettings(e: Fields, o: Fields): seq<Code> {
    Unless(Get(o, "connector") == Get(e, "connector"), "configuration_connector_mismatch")
    + Unless(Get(o, "directive") == Get(e, "directive"), "configuration_directive_mismatch")
    + Unless(Get(o, "error_class") == Get(e, "error_class"), "configuration_error_class_mismatch")
    + Unless(Get(o, "exit_code") == Get(e, "exit_code"), "configuration_exit_code_mismatch")
  }

  function CompareRun(e: Fields, o: Fields): seq<Code> {
    var startup := Some(VBool(Get(e, "operation") == Some(VStr("startup"))));
    Unless(Get(o, "operation") == Get(e, "operation"), "configuration_operation_mismatch")
    + Unless(Get(o, "outcome") == Get(e, "outcome"), "configuration_outcome_mismatch")
    + Unless(Get(o, "process_started") == startup, "configuration_process_started_mismatch")
    + Unless(Get(o, "listener_created") == startup, "configuration_listener_created_mismatch")
  }

  predicate AllEqual(wanted: Fields, seen: Fields) {
    forall k | k in wanted :: Get(seen, k) == Some(wanted[k])
  }

  /** What a decoded compound value looks like. */
  lemma CompoundParts(v: Value, depth: nat)
    requires depth <= MAX_DEPTH + 1 && Decode(v, depth).Ok?
    requires FindKind(v.fields["kind"].s, KINDS) == Some(KCompound)
    ensures depth <= MAX_DEPTH && "conditions" in v.fields && v.fields["conditions"].VList?
    ensures Decode(v, depth).value.Compound?
    ensures var items, cs := v.fields["conditions"].items, Decode(v, depth).value.conditions;
            |items| == |cs| && 2 <= |cs| <= 16 && forall i | 0 <= i < |items| ::
                Decode(items[i], depth + 1) == Ok(cs[i])
  {
    assert Decode(v, depth) == DecodeCompound(v.fields, depth);
    hide Decode;
    DecodeAllPointwise(v.fields["conditions"].items, depth + 1);
  }

  /** The failures of one value against one result; conditions are matched in order. */
  function Match(v: Value, depth: nat, r: Fields): seq<Code>
    requires depth <= MAX_DEPTH + 1 && Decode(v, depth).Ok?
    decreases MAX_DEPTH + 1 - depth, 0, 0
  {
    var e := v.fields;
    var kind := FindKind(e["kind"].s, KINDS).value;
    if kind == KCompound then
      CompoundParts(v, depth);
      MatchAll(e["conditions"].items, depth + 1, r)
    else MatchLeaf(kind, e, r)
  }

  function MatchLeaf(kind: Kind, e: Fields, r: Fields): seq<Code> {
    match kind
    case KHttpStatus => Unless(Get(r, "http_status") == Get(e, "http_status"), "http_status_mismatch")
    case KIntervention => MatchAction(e, r)
    case KAction => MatchAction(e, r)
    case KRuleMatch => Unless(Subset(Items(Get(e, "rule_ids")), Items(Get(r, "rule_ids"))), "rule_id_mismatch")
    case KEvent => MatchEvent(e, r)
    case KConfiguration => MatchConfiguration(e, r)
    case KRequestHeaders =>
      Unless(Subset(Items(Get(e, "names")), Items(Get(r, "request_header_names"))), "request_headers_mismatch")
    case KResponseHeaders =>
      Unless(Subset(Items(Get(e, "names")), Items(Get(r, "response_header_names"))), "response_headers_mismatch")
    case KRequestBody => Unless(Get(r, "request_body_state") == Get(e, "state"), "request_body_mismatch")
    case KResponseBody => Unless(Get(r, "response_body_state") == Get(e, "state"), "response_body_mismatch")
    case KTransport => Unless(Get(r, "transport") == Get(e, "state"), "transport_mismatch")
    case KLifecycle => Unless(AllEqual(Entries(Get(e, "predicates")), Entries(Get(r, "lifecycle"))),
        "lifecycle_mismatch")
    case KCleanup => Unless(Get(r, "cleanup") == Get(e, "state"), "cleanup_mismatch")
    case KNotApplicable => Unless(Get(r, "applicability") == Get(e, "reason"), "applicability_mismatch")
    case KCompound => []
  }

  function MatchAll(vs: seq<Value>, depth: nat, r: Fields): seq<Code>
    requires depth <= MAX_DEPTH + 1 && forall i | 0 <= i < |vs| :: Decode(vs[i], depth).Ok?
    decreases MAX_DEPTH + 1 - depth, 1, |vs|
  {
    if vs == [] then [] else MatchAll(vs[..|vs| - 1], depth, r) + Match(vs[|vs| - 1], depth, r)
  }

  // ---- Reference: what each kind demands ----

  predicate Contains<T(==)>(seen: Option<seq<T>>, wanted: seq<T>) {
    forall x | x in wanted :: seen.Some? && x in seen.value
  }

  function FailsIf(bad: bool, code: Code): set<Code> {
    if bad then {code} else {}
  }

  /** The codes of a single condition. */
  function LeafFailures(e: Expectation, o: Observation): set<Code>
    requires !e.Compound?
  {
    match e
    case HttpStatusIs(status) => FailsIf(o.status != Some(status), "http_status_mismatch")
    case InterventionIs(action, status, ids) =>
      FailsIf(o.action != Some(action), "action_mismatch")
      + FailsIf(status.Some? && o.status != status, "http_status_mismatch")
      + FailsIf(ids.Some? && !Contains(o.ruleIds, ids.value), "rule_id_mismatch")
    case ActionIs(action, ids) =>
      FailsIf(o.action != Some(action), "action_mismatch")
      + FailsIf(ids.Some? && !Contains(o.ruleIds, ids.value), "rule_id_mismatch")
    case RuleMatch(ids) => FailsIf(!Contains(o.ruleIds, ids), "rule_id_mismatch")
    case EventIs(names, event) =>
      FailsIf(names.Some? && !Contains(o.eventFields, names.value), "event_fields_mismatch")
      + FailsIf(event.Some? && o.eventType != event, "event_type_mismatch")
    case ConfigurationIs(c) => ConfigurationFailures(c, o.configuration)
    case RequestHeaders(names) => FailsIf(!Contains(o.requestNames, names), "request_headers_mismatch")
    case ResponseHeaders(names) => FailsIf(!Contains(o.responseNames, names), "response_headers_mismatch")
    case StateIs(subject, state) =>
      (match subject
       case RequestBody => FailsIf(o.requestBody != Some(state), "request_body_mismatch")
       case ResponseBody => FailsIf(o.responseBody != Some(state), "response_body_mismatch")
       case Transport => FailsIf(o.transport != Some(state), "transport_mismatch")
       case Cleanup => FailsIf(o.cleanup != Some(state), "cleanup_mismatch"))
    case LifecycleIs(p) =>
      FailsIf(!(forall k | k in p :: o.lifecycle.Some? && k in o.lifecycle.value && o.lifecycle.value[k] == p[k]),
          "lifecycle_mismatch")
    case NotApplicable(reason) => FailsIf(o.applicability != Some(reason), "applicability_mismatch")
  }

  /** An absent observation misses every setting; only a startup may start a process and a listener. */
  function ConfigurationFailures(c: Configuration, seen: Option<ObservedConfiguration>): set<Code> {
    SettingsFailures(c, seen) + RunFailures(c, seen)
  }

  function SettingsFailures(c: Configuration, seen: Option<ObservedConfiguration>): set<Code> {
    FailsIf(seen.None? || seen.value.settings.connector != c.connector, "configuration_connector_mismatch")
    + FailsIf(seen.None? || seen.value.settings.directive != c.directive, "configuration_directive_mismatch")
    + FailsIf(seen.None? || seen.value.settings.errorClass != c.errorClass, "configuration_error_class_mismatch")
    + FailsIf(seen.None? || seen.value.settings.exitCode != c.exitCode, "configuration_exit_code_mismatch")
  }

  function RunFailures(c: Configuration, seen: Option<ObservedConfiguration>): set<Code> {
    var startup := c.operation == "startup";
    FailsIf(seen.None? || seen.value.settings.operation != c.operation, "configuration_operation_mismatch")
    + FailsIf(seen.None? || seen.value.settings.outcome != c.outcome, "configuration_outcome_mismatch")
    + FailsIf(seen.None? || seen.value.started != startup, "configuration_process_started_mismatch")
    + FailsIf(seen.None? || seen.value.listening != startup, "configuration_listener_created_mismatch")
  }

  /** The single conditions of an arbitrarily nested expectation. */
  function Conditions(e: Expectation): (r: set<Expectation>)
    ensures forall x | x in r :: !x.Compound?
    decreases e
  {
    if e.Compound? then set c, x | c in e.conditions && x in Conditions(c) :: x else {e}
  }

  function Failures(e: Expectation, o: Observation): set<Code> {
    set x, code | x in Conditions(e) && code in LeafFailures(x, o) :: code
  }

  function Codes(s: seq<Code>): set<Code> {
    set c | c in s
  }

  // ---- The matcher computes the reference ----

  function StrOption(s: Option<string>): Option<Value> {
    if s.Some? then Some(VStr(s.value)) else None
  }

  function IntOption(i: Option<int>): Option<Value> {
    if i.Some? then Some(VInt(i.value)) else None
  }

  ghost predicate ListsInts(v: Option<Value>, ids: Option<seq<int>>) {
    && (v.None? <==> ids.None?)
    && (forall x :: VInt(x) in Items(v) <==> ids.Some? && x in ids.value)
    && (forall x | x in Items(v) :: x.VInt?)
  }

  ghost predicate ListsStrs(v: Option<Value>, names: Option<seq<string>>) {
    && (v.None? <==> names.None?)
    && (forall x :: VStr(x) in Items(v) <==> names.Some? && x in names.value)
    && (forall x | x in Items(v) :: x.VStr?)
  }

  lemma IdsListed(v: Option<Value>)
    requires OptionalIds(v).Ok?
    ensures ListsInts(v, OptionalIds(v).value)
  {
    hide RuleIds;
    if v.Some? { IdsOfList(v.value); }
  }

  lemma IdsOfList(v: Value)
    requires RuleIds(v).Ok?
    ensures ListsInts(Some(v), Some(RuleIds(v).value))
  {
    RuleIdsMeaning(v);
    assert v.VList?;
    hide RuleIds;
  }

  lemma NamesListed(v: Option<Value>)
    requires OptionalNames(v).Ok?
    ensures ListsStrs(v, OptionalNames(v).value)
  {
    hide IdentifierList;
    if v.Some? { NamesOfList(v.value, "invalid_result"); }
  }

  lemma NamesOfList(v: Value, code: Code)
    requires IdentifierList(v, code, 1).Ok?
    ensures ListsStrs(Some(v), Some(IdentifierList(v, code, 1).value))
  {
    IdentifierListMeaning(v, code, 1);
    assert v.VList?;
    hide IdentifierList;
  }

  /** A raw list is contained in a raw list exactly when the normal ones are. */
  lemma SubsetOfInts(wanted: Option<Value>, ids: seq<int>, seen: Option<Value>, o: Option<seq<int>>)
    requires ListsInts(wanted, Some(ids)) && ListsInts(seen, o)
    ensures Subset(Items(wanted), Items(seen)) <==> Contains(o, ids)
  {
    var all, have := Items(wanted), Items(seen);
    if Subset(all, have) {
      forall x | x in ids
        ensures o.Some? && x in o.value
      {
        assert VInt(x) in all;
        var j :| 0 <= j < |all| && all[j] == VInt(x);
        assert all[j] in have;
      }
    } else {
      var i :| 0 <= i < |all| && all[i] !in have;
      assert all[i] in all && all[i] == VInt(all[i].i);
      assert all[i].i in ids && !(o.Some? && all[i].i in o.value);
    }
  }

  lemma SubsetOfStrs(wanted: Option<Value>, names: seq<string>, seen: Option<Value>, o: Option<seq<string>>)
    requires ListsStrs(wanted, Some(names)) && ListsStrs(seen, o)
    ensures Subset(Items(wanted), Items(seen)) <==> Contains(o, names)
  {
    var all, have := Items(wanted), Items(seen);
    if Subset(all, have) {
      forall x | x in names
        ensures o.Some? && x in o.value
      {
        assert VStr(x) in all;
        var j :| 0 <= j < |all| && all[j] == VStr(x);
        assert all[j] in have;
      }
    } else {
      var i :| 0 <= i < |all| && all[i] !in have;
      assert all[i] in all && all[i] == VStr(all[i].s);
      assert all[i].s in names && !(o.Some? && all[i].s in o.value);
    }
  }

  /** What the decoded result says about each raw field. */
  ghost predicate Reads(r: Fields, o: Observation) {
    && Get(r, "http_status") == IntOption(o.status)
    && Get(r, "action") == StrOption(o.action)
    && ListsInts(Get(r, "rule_ids"), o.ruleIds)
    && ListsStrs(Get(r, "event_fields"), o.eventFields)
    && Get(r, "event_type") == StrOption(o.eventType)
    && ListsStrs(Get(r, "request_header_names"), o.requestNames)
    && ListsStrs(Get(r, "response_header_names"), o.responseNames)
    && Get(r, "request_body_state") == StrOption(o.requestBody)
    && Get(r, "response_body_state") == StrOption(o.responseBody)
    && Get(r, "transport") == StrOption(o.transport)
    && Get(r, "cleanup") == StrOption(o.cleanup)
    && Get(r, "applicability") == StrOption(o.applicability)
    && OptionalLifecycle(Get(r, "lifecycle")) == Ok(o.lifecycle)
    && OptionalConfiguration(Get(r, "configuration")) == Ok(o.configuration)
  }

  lemma DecodedReads(r: Fields)
    requires DecodeFields(r).Ok?
    ensures Reads(r, DecodeFields(r).value)
  {
    hide OptionalIds, OptionalNames, OptionalLifecycle, OptionalConfiguration, IsIdentifier, ListsInts, ListsStrs;
    IdsListed(Get(r, "rule_ids"));
    NamesListed(Get(r, "event_fields"));
    NamesListed(Get(r, "request_header_names"));
    NamesListed(Get(r, "response_header_names"));
  }

  lemma ActionMatches(e: Fields, r: Fields, x: Expectation, o: Observation)
    requires DecodeIntervention(e) == Ok(x) || DecodeAction(e) == Ok(x)
    requires Reads(r, o) && !x.Compound?
    ensures Codes(MatchAction(e, r)) == LeafFailures(x, o)
  {
    hide RuleIds, ACTIONS, ListsInts, ListsStrs, OptionalLifecycle, OptionalConfiguration, Subset, Contains;
    if "rule_ids" in e {
      IdsOfList(e["rule_ids"]);
      SubsetOfInts(Get(e, "rule_ids"), RuleIds(e["rule_ids"]).value, Get(r, "rule_ids"), o.ruleIds);
    }
  }

  lemma RuleMatches(e: Fields, r: Fields, x: Expectation, o: Observation)
    requires DecodeRuleMatch(e) == Ok(x) && Reads(r, o)
    ensures Codes(MatchLeaf(KRuleMatch, e, r)) == LeafFailures(x, o)
  {
    hide RuleIds, ListsInts, ListsStrs, OptionalLifecycle, OptionalConfiguration, Subset, Contains;
    IdsOfList(e["rule_ids"]);
    SubsetOfInts(Get(e, "rule_ids"), RuleIds(e["rule_ids"]).value, Get(r, "rule_ids"), o.ruleIds);
  }

  lemma EventMatches(e: Fields, r: Fields, x: Expectation, o: Observation)
    requires DecodeEvent(e) == Ok(x) && Reads(r, o)
    ensures Codes(MatchEvent(e, r)) == LeafFailures(x, o)
  {
    hide IdentifierList, IsIdentifier, ListsInts, ListsStrs, OptionalLifecycle, OptionalConfiguration, Subset, Contains;
    if "fields" in e {
      NamesOfList(e["fields"], "invalid_event");
      SubsetOfStrs(Get(e, "fields"), IdentifierList(e["fields"], "invalid_event", 1).value, Get(r, "event_fields"),
          o.eventFields);
    }
  }

  lemma HeadersMatch(e: Fields, seen: Option<Value>, o: Option<seq<string>>)
    requires HeaderNames(e).Ok? && ListsStrs(seen, o)
    ensures Subset(Items(Get(e, "names")), Items(seen)) <==> Contains(o, HeaderNames(e).value)
  {
    hide IdentifierList, ListsStrs, Subset, Contains;
    NamesOfList(e["names"], "invalid_header_names");
    SubsetOfStrs(Get(e, "names"), HeaderNames(e).value, seen, o);
  }

  lemma LifecycleMatches(e: Fields, r: Fields, x: Expectation, o: Observation)
    requires DecodeLifecycle(e) == Ok(x) && OptionalLifecycle(Get(r, "lifecycle")) == Ok(o.lifecycle)
    ensures AllEqual(Entries(Get(e, "predicates")), Entries(Get(r, "lifecycle"))) <==>
            forall k | k in x.predicates :: o.lifecycle.Some? && k in o.lifecycle.value
                && o.lifecycle.value[k] == x.predicates[k]
  {
    hide PREDICATES;
    var wanted, seen := Entries(Get(e, "predicates")), Entries(Get(r, "lifecycle"));
    assert wanted.Keys == x.predicates.Keys && forall k | k in wanted :: wanted[k] == VBool(x.predicates[k]);
    if o.lifecycle.Some? {
      assert seen.Keys == o.lifecycle.value.Keys && forall k | k in seen :: seen[k] == VBool(o.lifecycle.value[k]);
    } else {
      assert seen == map[];
    }
  }

  /** The settings of a decoded expectation and the codes the reference gives it. */
  lemma DecodedConfiguration(e: Fields, x: Expectation, o: Observation)
    requires DecodeConfiguration(e) == Ok(x)
    ensures x.ConfigurationIs? && CONFIGURATION_FIELDS <= e.Keys && ConfigurationValues(e) == Ok(x.configuration)
    ensures LeafFailures(x, o) == ConfigurationFailures(x.configuration, o.configuration)
  {
    hide ConfigurationValues, CoherentConfiguration, ConfigurationFailures;
  }

  lemma ConfigurationShown(v: Option<Value>, o: Option<ObservedConfiguration>)
    requires OptionalConfiguration(v) == Ok(o)
    ensures Shows(Entries(v), o)
  {
    hide IsIdentifier, ConfigurationValues;
    if o.Some? { ObservedRead(Entries(v), o.value); }
  }

  lemma ConfigurationMatches(e: Fields, r: Fields, x: Expectation, o: Observation)
    requires DecodeConfiguration(e) == Ok(x) && OptionalConfiguration(Get(r, "configuration")) == Ok(o.configuration)
    ensures Codes(MatchConfiguration(e, r)) == LeafFailures(x, o)
  {
    hide ConfigurationValues, OptionalConfiguration, ConfigurationFailures, LeafFailures, DecodeConfiguration, Shows,
         CompareConfiguration, Codes, Get, Entries, CONFIGURATION_FIELDS;
    DecodedConfiguration(e, x, o);
    SettingsRead(e, x.configuration);
    ConfigurationShown(Get(r, "configuration"), o.configuration);
    ConfigurationCompared(Entries(Get(r, "configuration")), e, x.configuration, o.configuration);
  }

  /** The raw settings of an observation, or of none. */
  ghost predicate Shows(seen: Fields, o: Option<ObservedConfiguration>) {
    && Get(seen, "connector") == (if o.Some? then Some(VStr(o.value.settings.connector)) else None)
    && Get(seen, "directive") == (if o.Some? then Some(VStr(o.value.settings.directive)) else None)
    && Get(seen, "error_class") == (if o.Some? then Some(VStr(o.value.settings.errorClass)) else None)
    && Get(seen, "exit_code") == (if o.Some? then Some(VInt(o.value.settings.exitCode)) else None)
    && Get(seen, "operation") == (if o.Some? then Some(VStr(o.value.settings.operation)) else None)
    && Get(seen, "outcome") == (if o.Some? then Some(VStr(o.value.settings.outcome)) else None)
    && Get(seen, "process_started") == (if o.Some? then Some(VBool(o.value.started)) else None)
    && Get(seen, "listener_created") == (if o.Some? then Some(VBool(o.value.listening)) else None)
  }

  lemma UnlessFails(ok: bool, bad: bool, code: Code)
    requires ok <==> !bad
    ensures Codes(Unless(ok, code)) == FailsIf(bad, code)
  {
  }

  lemma CodesConcat(a: seq<Code>, b: seq<Code>)
    ensures Codes(a + b) == Codes(a) + Codes(b)
  {
  }

  lemma FourCodes(a: seq<Code>, b: seq<Code>, c: seq<Code>, d: seq<Code>)
    ensures Codes(a + b + c + d) == Codes(a) + Codes(b) + Codes(c) + Codes(d)
  {
    CodesConcat(a, b);
    CodesConcat(a + b, c);
    CodesConcat(a + b + c, d);
    hide Codes;
  }

  lemma FieldCode(seen: Option<Value>, wanted: Option<Value>, bad: bool, code: Code)
    requires seen == wanted <==> !bad
    ensures Codes(Unless(seen == wanted, code)) == FailsIf(bad, code)
  {
    UnlessFails(seen == wanted, bad, code);
  }

  lemma SettingsCompared(seen: Fields, e: Fields, c: Configuration, o: Option<ObservedConfiguration>)
    requires Shows(seen, o)
    requires Get(e, "connector") == Some(VStr(c.connector)) && Get(e, "directive") == Some(VStr(c.directive))
    requires Get(e, "exit_code") == Some(VInt(c.exitCode)) && Get(e, "error_class") == Some(VStr(c.errorClass))
    ensures Codes(CompareSettings(e, seen)) == SettingsFailures(c, o)
  {
    hide Codes, Unless, FailsIf, Get;
    FourCodes(Unless(Get(seen, "connector") == Get(e, "connector"), "configuration_connector_mismatch"),
              Unless(Get(seen, "directive") == Get(e, "directive"), "configuration_directive_mismatch"),
              Unless(Get(seen, "error_class") == Get(e, "error_class"), "configuration_error_class_mismatch"),
              Unless(Get(seen, "exit_code") == Get(e, "exit_code"), "configuration_exit_code_mismatch"));
    FieldCode(Get(seen, "connector"), Get(e, "connector"), o.None? || o.value.settings.connector != c.connector,
        "configuration_connector_mismatch");
    FieldCode(Get(seen, "directive"), Get(e, "directive"), o.None? || o.value.settings.directive != c.directive,
        "configuration_directive_mismatch");
    FieldCode(Get(seen, "error_class"), Get(e, "error_class"),
        o.None? || o.value.settings.errorClass != c.errorClass, "configuration_error_class_mismatch");
    FieldCode(Get(seen, "exit_code"), Get(e, "exit_code"), o.None? || o.value.settings.exitCode != c.exitCode,
        "configuration_exit_code_mismatch");
  }

  lemma RunCompared(seen: Fields, e: Fields, c: Configuration, o: Option<ObservedConfiguration>)
    requires Shows(seen, o)
    requires Get(e, "operation") == Some(VStr(c.operation)) && Get(e, "outcome") == Some(VStr(c.outcome))
    ensures Codes(CompareRun(e, seen)) == RunFailures(c, o)
  {
    hide Codes, Unless, FailsIf, Get;
    var startup := c.operation == "startup";
    var s := Some(VBool(startup));
    FourCodes(Unless(Get(seen, "operation") == Get(e, "operation"), "configuration_operation_mismatch"),
              Unless(Get(seen, "outcome") == Get(e, "outcome"), "configuration_outcome_mismatch"),
              Unless(Get(seen, "process_started") == s, "configuration_process_started_mismatch"),
              Unless(Get(seen, "listener_created") == s, "configuration_listener_created_mismatch"));
    FieldCode(Get(seen, "operation"), Get(e, "operation"), o.None? || o.value.settings.operation != c.operation,
        "configuration_operation_mismatch");
    FieldCode(Get(seen, "outcome"), Get(e, "outcome"), o.None? || o.value.settings.outcome != c.outcome,
        "configuration_outcome_mismatch");
    FieldCode(Get(seen, "process_started"), s, o.None? || o.value.started != startup,
        "configuration_process_started_mismatch");
    FieldCode(Get(seen, "listener_created"), s, o.None? || o.value.listening != startup,
        "configuration_listener_created_mismatch");
  }

  lemma ConfigurationCompared(seen: Fields, e: Fields, c: Configuration, o: Option<ObservedConfiguration>)
    requires Shows(seen, o)
    requires Get(e, "connector") == Some(VStr(c.connector)) && Get(e, "operation") == Some(VStr(c.operation))
    requires Get(e, "directive") == Some(VStr(c.directive)) && Get(e, "exit_code") == Some(VInt(c.exitCode))
    requires Get(e, "outcome") == Some(VStr(c.outcome)) && Get(e, "error_class") == Some(VStr(c.errorClass))
    ensures Codes(CompareConfiguration(e, seen)) == ConfigurationFailures(c, o)
  {
    hide CompareSettings, CompareRun, SettingsFailures, RunFailures, Shows, Codes;
    SettingsCompared(seen, e, c, o);
    RunCompared(seen, e, c, o);
    CodesConcat(CompareSettings(e, seen), CompareRun(e, seen));
  }

  lemma SettingsRead(f: Fields, c: Configuration)
    requires CONFIGURATION_FIELDS <= f.Keys && ConfigurationValues(f) == Ok(c)
    ensures Get(f, "connector") == Some(VStr(c.connector)) && Get(f, "operation") == Some(VStr(c.operation))
    ensures Get(f, "directive") == Some(VStr(c.directive)) && Get(f, "exit_code") == Some(VInt(c.exitCode))
    ensures Get(f, "outcome") == Some(VStr(c.outcome)) && Get(f, "error_class") == Some(VStr(c.errorClass))
  {
    hide IsIdentifier;
  }

  lemma ObservedRead(f: Fields, o: ObservedConfiguration)
    requires f.Keys == OBSERVED_FIELDS && ConfigurationValues(f) == Ok(o.settings)
    requires f["process_started"] == VBool(o.started) && f["listener_created"] == VBool(o.listening)
    ensures Get(f, "connector") == Some(VStr(o.settings.connector))
             && Get(f, "operation") == Some(VStr(o.settings.operation))
    ensures Get(f, "directive") == Some(VStr(o.settings.directive))
             && Get(f, "exit_code") == Some(VInt(o.settings.exitCode))
    ensures Get(f, "outcome") == Some(VStr(o.settings.outcome))
             && Get(f, "error_class") == Some(VStr(o.settings.errorClass))
    ensures Get(f, "process_started") == Some(VBool(o.started))
             && Get(f, "listener_created") == Some(VBool(o.listening))
  {
    SettingsRead(f, o.settings);
  }

  lemma StateMatches(e: Fields, subject: Subject, x: Expectation, r: Fields, o: Observation)
    requires DecodeState(e, subject) == Ok(x) && Reads(r, o)
    ensures var seen := match subject
                        case RequestBody => o.requestBody
                        case ResponseBody => o.responseBody
                        case Transport => o.transport
                        case Cleanup => o.cleanup;
            x == StateIs(subject, x.state) && Get(e, "state") == Some(VStr(x.state))
            && (StrOption(seen) == Get(e, "state") <==> seen == Some(x.state))
  {
    hide AllowedStates, Reads;
  }

  /** One condition of any kind: the matcher's codes are the reference's. */
  lemma LeafMatches(kind: Kind, e: Fields, depth: nat, r: Fields, x: Expectation, o: Observation)
    requires depth <= MAX_DEPTH && kind != KCompound && DecodeKind(kind, e, depth) == Ok(x) && Reads(r, o)
    ensures !x.Compound? && Codes(MatchLeaf(kind, e, r)) == LeafFailures(x, o)
  {
    hide RuleIds, IdentifierList, ListsInts, ListsStrs, OptionalLifecycle, OptionalConfiguration, Subset, Contains,
        AllEqual;
    hide DecodeIntervention, DecodeAction, DecodeRuleMatch, DecodeEvent, DecodeConfiguration, DecodeState,
        DecodeLifecycle, HeaderNames;
    hide MatchAction, MatchEvent, MatchConfiguration, ConfigurationFailures;
    DecodesKindOf(kind, e, depth);
    match kind {
      case KHttpStatus =>
      case KIntervention => ActionMatches(e, r, x, o);
      case KAction => ActionMatches(e, r, x, o);
      case KRuleMatch => RuleMatches(e, r, x, o);
      case KEvent => EventMatches(e, r, x, o);
      case KConfiguration => ConfigurationMatches(e, r, x, o);
      case KRequestHeaders => HeadersMatch(e, Get(r, "request_header_names"), o.requestNames);
      case KResponseHeaders => HeadersMatch(e, Get(r, "response_header_names"), o.responseNames);
      case KRequestBody => StateMatches(e, RequestBody, x, r, o);
      case KResponseBody => StateMatches(e, ResponseBody, x, r, o);
      case KTransport => StateMatches(e, Transport, x, r, o);
      case KLifecycle => LifecycleMatches(e, r, x, o);
      case KCleanup => StateMatches(e, Cleanup, x, r, o);
      case KNotApplicable =>
    }
  }
}
