/**
  The closed union of expectations: validation and normalisation of parsed values, and the value a
  normal expectation is written as.  Parsed JSON is the input; strings are compared by code point.
 */
module Expectations {
  import opened Wrappers
  import opened Collections
  import opened Sorting

  datatype Value =
    | VNull | VBool(b: bool) | VInt(i: int) | VReal | VStr(s: string)
    | VList(items: seq<Value>) | VMap(fields: map<string, Value>)

  type Code = string
  type Fields = map<string, Value>

  const MAX_LIST_ITEMS: nat := 128
  const MAX_DEPTH: nat := 4
  const MAX_RULE_ID: int := 9999999

  const ACTIONS: set<string> := {"deny", "pass", "none", "redirect", "block", "drop", "abort_connection", "log_only"}
  const BODY_STATES: set<string> := {"observed", "matched", "buffered", "streaming", "incremental", "absent",
      "redacted"}
  const TRANSPORT_STATES: set<string> :=
    {"connection_aborted", "stream_reset", "http1", "http2", "http3", "keep_alive",
     "first_byte_before_response_end", "no_full_response_buffering"}
  const CLEANUP_STATES: set<string> := {"balanced", "completed", "reused", "isolated"}
  const REASONS: set<string> :=
    {"unsupported_by_host_model", "not_implemented", "connector_gap", "future_target", "runtime_difference"}
  const PREDICATES: set<string> :=
    {"host_started", "request_completed", "response_committed", "connection_reused", "transaction_isolated",
     "client_aborted", "upstream_aborted", "cleanup_balanced"}

  datatype Configuration = Configuration(
    connector: string, operation: string, directive: string, exitCode: int, outcome: string, errorClass: string)

  datatype Subject = RequestBody | ResponseBody | Transport | Cleanup

  datatype Expectation =
    | HttpStatusIs(status: int)
    | InterventionIs(act: string, httpStatus: Option<int>, ids: Option<seq<int>>)
    | ActionIs(action: string, ruleIds: Option<seq<int>>)
    | RuleMatch(rules: seq<int>)
    | EventIs(eventFields: Option<seq<string>>, eventType: Option<string>)
    | ConfigurationIs(configuration: Configuration)
    | RequestHeaders(requestNames: seq<string>)
    | ResponseHeaders(responseNames: seq<string>)
    | StateIs(subject: Subject, state: string)
    | LifecycleIs(predicates: map<string, bool>)
    | Compound(conditions: seq<Expectation>)
    | NotApplicable(reason: string)

  datatype Kind =
    | KHttpStatus | KIntervention | KAction | KRuleMatch | KEvent | KConfiguration | KRequestHeaders | KResponseHeaders
    | KRequestBody | KResponseBody | KTransport | KLifecycle | KCleanup | KCompound | KNotApplicable

  function KindName(k: Kind): string {
    match k
    case KHttpStatus => "http_status"
    case KIntervention => "intervention"
    case KAction => "action"
    case KRuleMatch => "rule_match"
    case KEvent => "event"
    case KConfiguration => "configuration"
    case KRequestHeaders => "request_headers"
    case KResponseHeaders => "response_headers"
    case KRequestBody => "request_body"
    case KResponseBody => "response_body"
    case KTransport => "transport"
    case KLifecycle => "lifecycle"
    case KCleanup => "cleanup"
    case KCompound => "compound"
    case KNotApplicable => "not_applicable"
  }

  const KINDS: seq<Kind> :=
    [KHttpStatus, KIntervention, KAction, KRuleMatch, KEvent, KConfiguration, KRequestHeaders, KResponseHeaders,
     KRequestBody, KResponseBody, KTransport, KLifecycle, KCleanup, KCompound, KNotApplicable]

  /** The kind of that name among the first ones listed. */
  function FindKind(name: string, kinds: seq<Kind>): (r: Option<Kind>)
    ensures r.Some? ==> KindName(r.value) == name
    ensures r.None? ==> forall i | 0 <= i < |kinds| :: KindName(kinds[i]) != name
  {
    if kinds == [] then None
    else if KindName(kinds[0]) == name then Some(kinds[0])
    else FindKind(name, kinds[1..])
  }

  function Get(f: Fields, key: string): Option<Value> {
    if key in f then Some(f[key]) else None
  }

  // ---- Scalars ----

  predicate IdentifierChar(c: char) {
    'a' <= c <= 'z' || '0' <= c <= '9' || c in "_.:/-"
  }

  predicate IsIdentifier(s: string) {
    && 1 <= |s| <= 128 && 'a' <= s[0] <= 'z' && (forall i | 1 <= i < |s| :: IdentifierChar(s[i]))
    && (forall i | 0 < i < |s| :: !(s[i - 1] == '.' && s[i] == '.') && !(s[i - 1] == '/' && s[i] == '/'))
  }

  function Identifier(v: Value): (r: Result<string, Code>)
    ensures r.Ok? <==> v.VStr? && IsIdentifier(v.s)
    ensures r.Ok? ==> v == VStr(r.value)
  {
    if v.VStr? && IsIdentifier(v.s) then Ok(v.s) else Err("invalid_identifier")
  }

  function HttpStatus(v: Value): (r: Result<int, Code>)
    ensures r.Ok? <==> v.VInt? && 100 <= v.i <= 599
    ensures r.Ok? ==> v == VInt(r.value)
  {
    if v.VInt? && 100 <= v.i <= 599 then Ok(v.i) else Err("invalid_http_status")
  }

  function Member(v: Value, allowed: set<string>, code: Code): (r: Result<string, Code>)
    ensures r.Ok? <==> v.VStr? && v.s in allowed
    ensures r.Ok? ==> v == VStr(r.value)
  {
    if v.VStr? && v.s in allowed then Ok(v.s) else Err(code)
  }

  // ---- Lists ----

  function Ints(items: seq<Value>): (r: seq<int>)
    requires forall i | 0 <= i < |items| :: items[i].VInt?
    ensures |r| == |items| && forall i | 0 <= i < |items| :: items[i] == VInt(r[i])
  {
    seq(|items|, i requires 0 <= i < |items| => items[i].i)
  }

  function IntValues(ids: seq<int>): (r: Value)
    ensures r.VList? && |r.items| == |ids| && forall i | 0 <= i < |ids| :: r.items[i] == VInt(ids[i])
  {
    VList(seq(|ids|, i requires 0 <= i < |ids| => VInt(ids[i])))
  }

  function RuleIds(v: Value): (r: Result<seq<int>, Code>) {
    if !v.VList? || !(1 <= |v.items| <= MAX_LIST_ITEMS) then Err("invalid_rule_ids")
    else if !(forall i | 0 <= i < |v.items| :: v.items[i].VInt? && 1 <= v.items[i].i <= MAX_RULE_ID) then
        Err("invalid_rule_ids")
    else if !Distinct(Ints(v.items)) then Err("invalid_rule_ids")
    else Ok(Sort(Ints(v.items), IntLeq))
  }

  function Strs(items: seq<Value>): (r: seq<string>)
    requires forall i | 0 <= i < |items| :: items[i].VStr?
    ensures |r| == |items| && forall i | 0 <= i < |items| :: items[i] == VStr(r[i])
  {
    seq(|items|, i requires 0 <= i < |items| => items[i].s)
  }

  function StrValues(ids: seq<string>): (r: Value)
    ensures r.VList? && |r.items| == |ids| && forall i | 0 <= i < |ids| :: r.items[i] == VStr(ids[i])
  {
    VList(seq(|ids|, i requires 0 <= i < |ids| => VStr(ids[i])))
  }

  /** A list of distinct identifiers, sorted, of a least length. */
  function IdentifierList(v: Value, code: Code, minimum: nat): (r: Result<seq<string>, Code>) {
    if !v.VList? || !(minimum <= |v.items| <= MAX_LIST_ITEMS) then Err(code)
    else if !(forall i | 0 <= i < |v.items| :: Identifier(v.items[i]).Ok?) then Err("invalid_identifier")
    else if !Distinct(Strs(v.items)) then Err(code)
    else Ok(Sort(Strs(v.items), StringLeq))
  }

  lemma IntsBack(ids: seq<int>)
    ensures Ints(IntValues(ids).items) == ids
  {
  }

  lemma IntsMembers(items: seq<Value>)
    requires forall i | 0 <= i < |items| :: items[i].VInt?
    ensures forall x :: x in Ints(items) <==> VInt(x) in items
    ensures forall x | x in items :: x.VInt?
  {
    var raw := Ints(items);
    forall x
      ensures x in raw <==> VInt(x) in items
    {
      if VInt(x) in items { var j :| 0 <= j < |items| && items[j] == VInt(x); assert raw[j] == x; }
      if x in raw { var j :| 0 <= j < |raw| && raw[j] == x; assert items[j] == VInt(x); }
    }
  }

  lemma SortedIds(raw: seq<int>)
    requires Distinct(raw) && forall i | 0 <= i < |raw| :: 1 <= raw[i] <= MAX_RULE_ID
    ensures var ids := Sort(raw, IntLeq);
            && Distinct(ids) && (forall i | 0 <= i < |ids| :: 1 <= ids[i] <= MAX_RULE_ID) && Sort(ids, IntLeq) == ids
            && (forall x :: x in ids <==> x in raw)
  {
    hide Sort;
    var ids := Sort(raw, IntLeq);
    SortKeepsDistinct(raw, ids);
    SameMembers(raw, ids);
    IntTotal();
    SortTwice(raw, IntLeq);
    hide Distinct;
    assert forall i | 0 <= i < |ids| :: ids[i] in ids;
  }

  /** A rule-id list and the value it came from have the same members; a sorted one is kept as it is. */
  lemma RuleIdsMeaning(v: Value)
    requires RuleIds(v).Ok?
    ensures var ids := RuleIds(v).value;
            && RuleIds(IntValues(ids)) == Ok(ids)
            && (forall x :: x in ids <==> VInt(x) in v.items) && (forall x | x in v.items :: x.VInt?)
  {
    hide Sort, Distinct;
    IntsMembers(v.items);
    SortedIds(Ints(v.items));
    IntsBack(RuleIds(v).value);
  }

  lemma StrsBack(ids: seq<string>)
    ensures Strs(StrValues(ids).items) == ids
  {
  }

  lemma StrsMembers(items: seq<Value>)
    requires forall i | 0 <= i < |items| :: items[i].VStr?
    ensures forall x :: x in Strs(items) <==> VStr(x) in items
    ensures forall x | x in items :: x.VStr?
  {
    var raw := Strs(items);
    forall x
      ensures x in raw <==> VStr(x) in items
    {
      if VStr(x) in items { var j :| 0 <= j < |items| && items[j] == VStr(x); assert raw[j] == x; }
      if x in raw { var j :| 0 <= j < |raw| && raw[j] == x; assert items[j] == VStr(x); }
    }
  }

  lemma SortedNames(raw: seq<string>)
    requires Distinct(raw) && forall i | 0 <= i < |raw| :: IsIdentifier(raw[i])
    ensures var ids := Sort(raw, StringLeq);
            && Distinct(ids) && (forall i | 0 <= i < |ids| :: IsIdentifier(ids[i])) && Sort(ids, StringLeq) == ids
            && (forall x :: x in ids <==> x in raw)
  {
    hide Sort, IsIdentifier;
    var ids := Sort(raw, StringLeq);
    SortKeepsDistinct(raw, ids);
    SameMembers(raw, ids);
    StringTotal();
    SortTwice(raw, StringLeq);
    hide Distinct;
    assert forall i | 0 <= i < |ids| :: ids[i] in ids;
    assert forall x | x in raw :: IsIdentifier(x);
  }

  lemma IdentifierListMeaning(v: Value, code: Code, minimum: nat)
    requires IdentifierList(v, code, minimum).Ok?
    ensures var ids := IdentifierList(v, code, minimum).value;
            && IdentifierList(StrValues(ids), code, minimum) == Ok(ids)
            && (forall x :: x in ids <==> VStr(x) in v.items) && (forall x | x in v.items :: x.VStr?)
  {
    hide Sort, Distinct, IsIdentifier;
    StrsMembers(v.items);
    assert forall i | 0 <= i < |v.items| :: IsIdentifier(v.items[i].s);
    SortedNames(Strs(v.items));
    StrsBack(IdentifierList(v, code, minimum).value);
  }

  // ---- Field sets ----

  function ExactFields(f: Fields, required: set<string>, allowed: set<string>): (r: Result<(), Code>)
    ensures r.Ok? <==> required <= f.Keys <= allowed
  {
    if required <= f.Keys && f.Keys <= allowed then Ok(()) else Err("invalid_expectation_fields")
  }

  // ---- Kinds ----

  function DecodeHttpStatus(f: Fields): Result<Expectation, Code> {
    var _ :- ExactFields(f, {"kind", "http_status"}, {"kind", "http_status"});
    var status :- HttpStatus(f["http_status"]);
    Ok(HttpStatusIs(status))
  }

  function OptionalStatus(f: Fields): Result<Option<int>, Code> {
    if "http_status" in f then var s :- HttpStatus(f["http_status"]); Ok(Some(s)) else Ok(None)
  }

  function OptionalRuleIds(f: Fields): Result<Option<seq<int>>, Code> {
    if "rule_ids" in f then var ids :- RuleIds(f["rule_ids"]); Ok(Some(ids)) else Ok(None)
  }

  function DecodeIntervention(f: Fields): Result<Expectation, Code> {
    var _ :- ExactFields(f, {"kind", "action"}, {"kind", "action", "http_status", "rule_ids"});
    var action :- Member(f["action"], ACTIONS, "invalid_action");
    var status :- OptionalStatus(f);
    var ids :- OptionalRuleIds(f);
    Ok(InterventionIs(action, status, ids))
  }

  function DecodeAction(f: Fields): Result<Expectation, Code> {
    var _ :- ExactFields(f, {"kind", "action"}, {"kind", "action", "rule_ids"});
    var action :- Member(f["action"], ACTIONS, "invalid_action");
    var ids :- OptionalRuleIds(f);
    Ok(ActionIs(action, ids))
  }

  function DecodeRuleMatch(f: Fields): Result<Expectation, Code> {
    var _ :- ExactFields(f, {"kind", "rule_ids"}, {"kind", "rule_ids"});
    var ids :- RuleIds(f["rule_ids"]);
    Ok(RuleMatch(ids))
  }

  function DecodeEvent(f: Fields): Result<Expectation, Code> {
    var _ :- ExactFields(f, {"kind"}, {"kind", "fields", "event_type"});
    if "fields" !in f && "event_type" !in f then Err("invalid_event")
    else
      var names :- if "fields" in f then (var n :- IdentifierList(f["fields"], "invalid_event", 1); Ok(Some(n)))
          else Ok(None);
      var event :- if "event_type" in f then (var t :- Identifier(f["event_type"]); Ok(Some(t))) else Ok(None);
      Ok(EventIs(names, event))
  }

  const CONFIGURATION_FIELDS: set<string> := {"connector", "operation", "directive", "exit_code", "outcome",
      "error_class"}

  function ConfigurationValues(f: Fields): Result<Configuration, Code>
    requires CONFIGURATION_FIELDS <= f.Keys
  {
    var exit := f["exit_code"];
    if !exit.VInt? || !(0 <= exit.i <= 255) then Err("invalid_configuration")
    else
      var connector :- Identifier(f["connector"]);
      var operation :- Identifier(f["operation"]);
      var directive :- Identifier(f["directive"]);
      var outcome :- Identifier(f["outcome"]);
      var error :- Identifier(f["error_class"]);
      Ok(Configuration(connector, operation, directive, exit.i, outcome, error))
  }

  predicate CoherentConfiguration(c: Configuration) {
    && c.operation in {"configtest", "startup"} && c.outcome in {"config_accepted", "config_rejected"}
    && (c.outcome == "config_accepted" <==> c.exitCode == 0)
    && (c.outcome == "config_accepted" <==> c.errorClass == "none")
    && (c.operation == "startup" ==>
          c.connector == "nginx" && c.directive == "modsecurity_rules_file" && c.outcome == "config_accepted")
  }

  function DecodeConfiguration(f: Fields): Result<Expectation, Code> {
    var _ :- ExactFields(f, CONFIGURATION_FIELDS + {"kind"}, CONFIGURATION_FIELDS + {"kind"});
    var c :- ConfigurationValues(f);
    if CoherentConfiguration(c) then Ok(ConfigurationIs(c)) else Err("invalid_configuration")
  }

  function HeaderNames(f: Fields): Result<seq<string>, Code> {
    var _ :- ExactFields(f, {"kind", "names"}, {"kind", "names"});
    IdentifierList(f["names"], "invalid_header_names", 1)
  }

  function AllowedStates(s: Subject): set<string> {
    match s
    case RequestBody => BODY_STATES
    case ResponseBody => BODY_STATES
    case Transport => TRANSPORT_STATES
    case Cleanup => CLEANUP_STATES
  }

  function StateCode(s: Subject): Code {
    match s
    case RequestBody => "invalid_body_state"
    case ResponseBody => "invalid_body_state"
    case Transport => "invalid_transport"
    case Cleanup => "invalid_cleanup"
  }

  function DecodeState(f: Fields, subject: Subject): Result<Expectation, Code> {
    var _ :- ExactFields(f, {"kind", "state"}, {"kind", "state"});
    var state :- Member(f["state"], AllowedStates(subject), StateCode(subject));
    Ok(StateIs(subject, state))
  }

  predicate ValidPredicates(p: Fields) {
    p.Keys <= PREDICATES && p.Keys != {} && forall k | k in p :: p[k].VBool?
  }

  function Booleans(p: Fields): map<string, bool>
    requires forall k | k in p :: p[k].VBool?
  {
    map k | k in p :: p[k].b
  }

  function DecodeLifecycle(f: Fields): Result<Expectation, Code> {
    var _ :- ExactFields(f, {"kind", "predicates"}, {"kind", "predicates"});
    var p := f["predicates"];
    if p.VMap? && ValidPredicates(p.fields) then Ok(LifecycleIs(Booleans(p.fields))) else Err("invalid_lifecycle")
  }

  function DecodeNotApplicable(f: Fields): Result<Expectation, Code> {
    var _ :- ExactFields(f, {"kind", "reason"}, {"kind", "reason"});
    var reason :- Member(f["reason"], REASONS, "invalid_not_applicable");
    Ok(NotApplicable(reason))
  }

  /** Every condition normalised one level deeper; the first failure is raised. */
  function DecodeAll(vs: seq<Value>, depth: nat): (r: Result<seq<Expectation>, Code>)
    requires depth <= MAX_DEPTH + 1
    ensures r.Ok? ==> |r.value| == |vs|
    decreases MAX_DEPTH + 1 - depth, |vs| + 1
  {
    if vs == [] then Ok([])
    else
      var before :- DecodeAll(vs[..|vs| - 1], depth);
      var last :- Decode(vs[|vs| - 1], depth);
      Ok(before + [last])
  }

  function DecodeCompound(f: Fields, depth: nat): Result<Expectation, Code>
    requires depth <= MAX_DEPTH
    decreases MAX_DEPTH + 1 - depth, 0, 0, 0
  {
    var _ :- ExactFields(f, {"kind", "conditions"}, {"kind", "conditions"});
    var c := f["conditions"];
    if !c.VList? || !(2 <= |c.items| <= 16) then Err("invalid_compound")
    else
      var normal :- DecodeAll(c.items, depth + 1);
      if Distinct(normal) then Ok(Compound(normal)) else Err("invalid_compound")
  }

  function Decode(v: Value, depth: nat): Result<Expectation, Code>
    requires depth <= MAX_DEPTH + 1
    decreases MAX_DEPTH + 1 - depth, 0, 1
  {
    if depth > MAX_DEPTH || !v.VMap? then Err("invalid_expectation")
    else
      var f := v.fields;
      match Get(f, "kind")
      case Some(VStr(name)) =>
        (match FindKind(name, KINDS)
         case Some(kind) => DecodeKind(kind, f, depth)
         case None => Err("unknown_expectation_kind"))
      case _ => Err("unknown_expectation_kind")
  }

  function DecodeKind(kind: Kind, f: Fields, depth: nat): Result<Expectation, Code>
    requires depth <= MAX_DEPTH
    decreases MAX_DEPTH + 1 - depth, 0, 0, 1
  {
    match kind
    case KHttpStatus => DecodeHttpStatus(f)
    case KIntervention => DecodeIntervention(f)
    case KAction => DecodeAction(f)
    case KRuleMatch => DecodeRuleMatch(f)
    case KEvent => DecodeEvent(f)
    case KConfiguration => DecodeConfiguration(f)
    case KRequestHeaders => (var names :- HeaderNames(f); Ok(RequestHeaders(names)))
    case KResponseHeaders => (var names :- HeaderNames(f); Ok(ResponseHeaders(names)))
    case KRequestBody => DecodeState(f, RequestBody)
    case KResponseBody => DecodeState(f, ResponseBody)
    case KTransport => DecodeState(f, Transport)
    case KLifecycle => DecodeLifecycle(f)
    case KCleanup => DecodeState(f, Cleanup)
    case KCompound => DecodeCompound(f, depth)
    case KNotApplicable => DecodeNotApplicable(f)
  }

  // ---- The normal form as a value ----

  function KindOf(e: Expectation): Kind {
    match e
    case HttpStatusIs(_) => KHttpStatus
    case InterventionIs(_, _, _) => KIntervention
    case ActionIs(_, _) => KAction
    case RuleMatch(_) => KRuleMatch
    case EventIs(_, _) => KEvent
    case ConfigurationIs(_) => KConfiguration
    case RequestHeaders(_) => KRequestHeaders
    case ResponseHeaders(_) => KResponseHeaders
    case StateIs(s, _) =>
      (match s
       case RequestBody => KRequestBody
       case ResponseBody => KResponseBody
       case Transport => KTransport
       case Cleanup => KCleanup)
    case LifecycleIs(_) => KLifecycle
    case Compound(_) => KCompound
    case NotApplicable(_) => KNotApplicable
  }

  function BoolValues(p: map<string, bool>): Fields {
    map k | k in p :: VBool(p[k])
  }

  /** Adds a field when there is a value for it. */
  function With(f: Fields, key: string, v: Option<Value>): Fields {
    if v.Some? then f[key := v.value] else f
  }

  function IntsOption(ids: Option<seq<int>>): Option<Value> {
    if ids.Some? then Some(IntValues(ids.value)) else None
  }

  function Base(e: Expectation): Fields {
    map["kind" := VStr(KindName(KindOf(e)))]
  }

  function ConfigurationFields(f: Fields, c: Configuration): Fields {
    f["connector" := VStr(c.connector)]["operation" := VStr(c.operation)]["directive" := VStr(c.directive)]
     ["exit_code" := VInt(c.exitCode)]["outcome" := VStr(c.outcome)]["error_class" := VStr(c.errorClass)]
  }

  function Encode(e: Expectation): Value
    decreases e
  {
    var base := Base(e);
    match e
    case HttpStatusIs(status) => VMap(base["http_status" := VInt(status)])
    case InterventionIs(action, status, ids) =>
      VMap(With(With(base["action" := VStr(action)], "http_status",
                     if status.Some? then Some(VInt(status.value)) else None),
                "rule_ids", IntsOption(ids)))
    case ActionIs(action, ids) => VMap(With(base["action" := VStr(action)], "rule_ids", IntsOption(ids)))
    case RuleMatch(ids) => VMap(base["rule_ids" := IntValues(ids)])
    case EventIs(names, event) =>
      VMap(With(With(base, "fields", if names.Some? then Some(StrValues(names.value)) else None),
                "event_type", if event.Some? then Some(VStr(event.value)) else None))
    case ConfigurationIs(c) => VMap(ConfigurationFields(base, c))
    case RequestHeaders(names) => VMap(base["names" := StrValues(names)])
    case ResponseHeaders(names) => VMap(base["names" := StrValues(names)])
    case StateIs(_, state) => VMap(base["state" := VStr(state)])
    case LifecycleIs(p) => VMap(base["predicates" := VMap(BoolValues(p))])
    case Compound(cs) => VMap(base["conditions" := VList(seq(|cs|, i requires 0 <= i < |cs| => Encode(cs[i])))])
    case NotApplicable(reason) => VMap(base["reason" := VStr(reason)])
  }

  /** What the library function returns: the normal form, as a value again. */
  function Normalise(v: Value): Result<Value, Code> {
    var e :- Decode(v, 0);
    Ok(Encode(e))
  }

  // ---- The round trip ----

  lemma BooleansBack(p: Fields)
    requires ValidPredicates(p)
    ensures ValidPredicates(BoolValues(Booleans(p))) && Booleans(BoolValues(Booleans(p))) == Booleans(p)
  {
    assert BoolValues(Booleans(p)).Keys == p.Keys;
  }

  lemma EncodeAll(es: seq<Expectation>, depth: nat, vs: seq<Value>)
    requires depth <= MAX_DEPTH + 1 && |vs| == |es|
    requires forall i | 0 <= i < |es| :: Decode(vs[i], depth) == Ok(es[i])
    ensures DecodeAll(vs, depth) == Ok(es)
  {
    hide Decode;
    if vs != [] {
      EncodeAll(es[..|es| - 1], depth, vs[..|vs| - 1]);
      assert es == es[..|es| - 1] + [es[|es| - 1]];
    } else {
      assert es == [];
    }
  }

  lemma {:induction false} DecodeAllPointwise(vs: seq<Value>, depth: nat)
    requires depth <= MAX_DEPTH + 1 && DecodeAll(vs, depth).Ok?
    ensures forall i | 0 <= i < |vs| :: Decode(vs[i], depth) == Ok(DecodeAll(vs, depth).value[i])
    decreases |vs|
  {
    hide Decode;
    if vs != [] {
      DecodeAllPointwise(vs[..|vs| - 1], depth);
      assert forall i | 0 <= i < |vs| - 1 :: vs[..|vs| - 1][i] == vs[i];
    }
  }

  lemma NamesDiffer(a: Kind, b: Kind)
    requires KindName(a) == KindName(b)
    ensures a == b
  {
  }

  lemma {:induction false} FindsKind(k: Kind, kinds: seq<Kind>)
    requires k in kinds
    ensures FindKind(KindName(k), kinds) == Some(k)
  {
    if kinds[0] == k {
    } else {
      if KindName(kinds[0]) == KindName(k) { NamesDiffer(kinds[0], k); }
      FindsKind(k, kinds[1..]);
    }
  }

  lemma EveryKindListed(k: Kind)
    ensures k in KINDS
  {
    match k {
      case KHttpStatus => assert KINDS[0] == k;
      case KIntervention => assert KINDS[1] == k;
      case KAction => assert KINDS[2] == k;
      case KRuleMatch => assert KINDS[3] == k;
      case KEvent => assert KINDS[4] == k;
      case KConfiguration => assert KINDS[5] == k;
      case KRequestHeaders => assert KINDS[6] == k;
      case KResponseHeaders => assert KINDS[7] == k;
      case KRequestBody => assert KINDS[8] == k;
      case KResponseBody => assert KINDS[9] == k;
      case KTransport => assert KINDS[10] == k;
      case KLifecycle => assert KINDS[11] == k;
      case KCleanup => assert KINDS[12] == k;
      case KCompound => assert KINDS[13] == k;
      case KNotApplicable => assert KINDS[14] == k;
    }
  }

  /** A value of a named kind is decoded by that kind's handler. */
  lemma DecodesByKind(f: Fields, k: Kind, depth: nat)
    requires depth <= MAX_DEPTH && Get(f, "kind") == Some(VStr(KindName(k)))
    ensures Decode(VMap(f), depth) == DecodeKind(k, f, depth)
  {
    hide DecodeKind, KindName;
    EveryKindListed(k);
    FindsKind(k, KINDS);
  }

  lemma DecodedKind(v: Value, depth: nat) returns (k: Kind)
    requires depth <= MAX_DEPTH + 1 && Decode(v, depth).Ok?
    ensures depth <= MAX_DEPTH && v.VMap? && Get(v.fields, "kind") == Some(VStr(KindName(k)))
    ensures Decode(v, depth) == DecodeKind(k, v.fields, depth)
  {
    hide DecodeKind, KindName;
    k := FindKind(v.fields["kind"].s, KINDS).value;
  }
}
