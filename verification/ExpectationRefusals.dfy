/** The code a value is refused with: that of the first rule it breaks, kind by kind. */
module ExpectationRefusals {
  import opened Wrappers
  import opened Collections
  import opened Expectations
  import opened ExpectationRoundTrip
  import opened ExpectationRules

  const FIELDS_CODE: Code := "invalid_expectation_fields"

  /** The fifteen kinds. */
  const KIND_NAMES: set<string> :=
    {"http_status", "intervention", "action", "rule_match", "event", "configuration", "request_headers",
     "response_headers", "request_body", "response_body", "transport", "lifecycle", "cleanup", "compound",
     "not_applicable"}

  lemma KindNamesAre(name: string)
    ensures FindKind(name, KINDS).Some? <==> name in KIND_NAMES
  {
    hide KINDS, KindName;
    forall k: Kind
      ensures FindKind(KindName(k), KINDS) == Some(k)
    {
      EveryKindListed(k);
      FindsKind(k, KINDS);
    }
    NamesOfKinds(name);
  }

  lemma NamesOfKinds(name: string)
    ensures name in KIND_NAMES <==> exists k: Kind :: KindName(k) == name
  {
    assert KindName(KHttpStatus) == "http_status" && KindName(KIntervention) == "intervention";
    assert KindName(KAction) == "action" && KindName(KRuleMatch) == "rule_match" && KindName(KEvent) == "event";
    assert KindName(KConfiguration) == "configuration" && KindName(KRequestHeaders) == "request_headers";
    assert KindName(KResponseHeaders) == "response_headers" && KindName(KRequestBody) == "request_body";
    assert KindName(KResponseBody) == "response_body" && KindName(KTransport) == "transport";
    assert KindName(KLifecycle) == "lifecycle" && KindName(KCleanup) == "cleanup";
    assert KindName(KCompound) == "compound" && KindName(KNotApplicable) == "not_applicable";
    forall k: Kind
      ensures KindName(k) in KIND_NAMES
    {
      OneOfFifteen(k);
    }
  }

  lemma OneOfFifteen(k: Kind)
    ensures KindName(k) in KIND_NAMES
  {
    match k
    case KHttpStatus =>
    case KIntervention =>
    case KAction =>
    case KRuleMatch =>
    case KEvent =>
    case KConfiguration =>
    case KRequestHeaders =>
    case KResponseHeaders =>
    case KRequestBody =>
    case KResponseBody =>
    case KTransport =>
    case KLifecycle =>
    case KCleanup =>
    case KCompound =>
    case KNotApplicable =>
  }

  /** Too deep, or no map; and then no known kind. */
  lemma UnknownIsRefused(v: Value, depth: nat)
    requires depth <= 5
    ensures depth == 5 || !v.VMap? ==> Decode(v, depth) == Err("invalid_expectation")
    ensures depth <= 4 && v.VMap? && !(exists name :: name in KIND_NAMES && Named(v.fields, name)) ==>
              Decode(v, depth) == Err("unknown_expectation_kind")
  {
    hide KINDS, KIND_NAMES, DecodeKind;
    if depth <= 4 && v.VMap? && "kind" in v.fields && v.fields["kind"].VStr? {
      KindNamesAre(v.fields["kind"].s);
      assert Named(v.fields, v.fields["kind"].s);
    }
  }

  // ---- Scalars and lists ----

  lemma ScalarRefusals(v: Value)
    ensures Identifier(v).Err? ==> Identifier(v).error == "invalid_identifier"
    ensures HttpStatus(v).Err? ==> HttpStatus(v).error == "invalid_http_status"
    ensures RuleIds(v).Err? ==> RuleIds(v).error == "invalid_rule_ids"
  {
  }

  /** Everything that is wrong with a list has the caller's code, but an item that is no identifier. */
  lemma ListRefusals(v: Value, code: Code, minimum: nat)
    requires IdentifierList(v, code, minimum).Err?
    ensures IdentifierList(v, code, minimum).error ==
            if v.VList? && minimum <= |v.items| <= 128
               && exists i :: 0 <= i < |v.items| && !(v.items[i].VStr? && IsIdText(v.items[i].s))
            then "invalid_identifier" else code
  {
    hide IsIdentifier, IsIdText, Distinct;
    if v.VList? {
      forall i | 0 <= i < |v.items| && v.items[i].VStr?
        ensures IsIdentifier(v.items[i].s) <==> IsIdText(v.items[i].s)
      {
        IdentifierMeans(v.items[i].s);
      }
    }
  }

  // ---- Kinds ----

  lemma StatusRefused(f: Fields)
    requires DecodeHttpStatus(f).Err?
    ensures DecodeHttpStatus(f).error
         == if f.Keys != {"kind", "http_status"} then FIELDS_CODE else "invalid_http_status"
  {
  }

  /** An action, then its status, then its rule ids. */
  lemma ActionRefused(f: Fields, intervention: bool)
    requires if intervention then DecodeIntervention(f).Err? else DecodeAction(f).Err?
    ensures var allowed := if intervention then {"kind", "action", "http_status", "rule_ids"}
                           else {"kind", "action", "rule_ids"};
            var error := if intervention then DecodeIntervention(f).error else DecodeAction(f).error;
            error == if !({"kind", "action"} <= f.Keys <= allowed) then FIELDS_CODE
                     else if !(exists action :: SaysAction(f, action)) then "invalid_action"
                     else if intervention && "http_status" in f && !HttpStatus(f["http_status"]).Ok? then
                       "invalid_http_status"
                     else "invalid_rule_ids"
  {
    hide RuleIds, HttpStatus, Member, SaysAction;
    if "action" in f {
      MemberRefused(f["action"], ACTIONS, "invalid_action");
      ActionExists(f);
    }
    if "http_status" in f { ScalarRefusals(f["http_status"]); }
    if "rule_ids" in f { ScalarRefusals(f["rule_ids"]); }
  }

  lemma MemberRefused(v: Value, words: set<string>, code: Code)
    ensures Member(v, words, code).Err? ==> Member(v, words, code).error == code
  {
  }

  lemma ActionExists(f: Fields)
    requires "action" in f
    ensures Member(f["action"], ACTIONS, "invalid_action").Ok? <==> exists action :: SaysAction(f, action)
  {
    hide Member, SaysAction;
    var m := Member(f["action"], ACTIONS, "invalid_action");
    if m.Ok? { ActionSaid(f, m.value); }
    forall action | SaysAction(f, action)
      ensures m.Ok?
    {
      ActionSaid(f, action);
    }
  }

  lemma RulesRefused(f: Fields)
    requires DecodeRuleMatch(f).Err?
    ensures DecodeRuleMatch(f).error == if f.Keys != {"kind", "rule_ids"} then FIELDS_CODE else "invalid_rule_ids"
  {
    hide RuleIds;
    if "rule_ids" in f { ScalarRefusals(f["rule_ids"]); }
  }

  /** An event without both parts; then what is wrong with its fields; then its type. */
  lemma EventRefused(f: Fields)
    requires DecodeEvent(f).Err?
    ensures DecodeEvent(f).error ==
            if !({"kind"} <= f.Keys <= {"kind", "fields", "event_type"}) then FIELDS_CODE
            else if f.Keys == {"kind"} then "invalid_event"
            else if "fields" in f && IdentifierList(f["fields"], "invalid_event", 1).Err? then
              IdentifierList(f["fields"], "invalid_event", 1).error
            else "invalid_identifier"
  {
    hide IdentifierList, Identifier;
    if "event_type" in f { ScalarRefusals(f["event_type"]); }
  }

  lemma ConfigurationRefused(f: Fields)
    requires DecodeConfiguration(f).Err?
    ensures DecodeConfiguration(f).error ==
            if f.Keys != {"kind", "connector", "operation", "directive", "exit_code", "outcome", "error_class"} then
              FIELDS_CODE
            else if f["exit_code"].VInt? && 0 <= f["exit_code"].i <= 255
                    && !(forall key | key in {"connector", "operation", "directive", "outcome", "error_class"} ::
                           Identifier(f[key]).Ok?)
            then "invalid_identifier"
            else "invalid_configuration"
  {
    hide Identifier, CoherentConfiguration;
    assert CONFIGURATION_FIELDS + {"kind"}
        == {"kind", "connector", "operation", "directive", "exit_code", "outcome", "error_class"};
    if f.Keys == CONFIGURATION_FIELDS + {"kind"} {
      ScalarRefusals(f["connector"]);
      ScalarRefusals(f["operation"]);
      ScalarRefusals(f["directive"]);
      ScalarRefusals(f["outcome"]);
      ScalarRefusals(f["error_class"]);
    }
  }

  lemma HeadersRefused(f: Fields)
    requires HeaderNames(f).Err?
    ensures HeaderNames(f).error == if f.Keys != {"kind", "names"} then FIELDS_CODE
                                    else IdentifierList(f["names"], "invalid_header_names", 1).error
    ensures f.Keys == {"kind", "names"} ==> IdentifierList(f["names"], "invalid_header_names", 1).Err?
  {
    hide IdentifierList;
  }

  lemma StateRefused(f: Fields, subject: Subject)
    requires DecodeState(f, subject).Err?
    ensures DecodeState(f, subject).error ==
            if f.Keys != {"kind", "state"} then FIELDS_CODE
            else match subject
              case RequestBody => "invalid_body_state"
              case ResponseBody => "invalid_body_state"
              case Transport => "invalid_transport"
              case Cleanup => "invalid_cleanup"
  {
    hide AllowedStates;
  }

  lemma LifecycleRefused(f: Fields)
    requires DecodeLifecycle(f).Err?
    ensures DecodeLifecycle(f).error == if f.Keys != {"kind", "predicates"} then FIELDS_CODE else "invalid_lifecycle"
  {
    hide ValidPredicates;
  }

  lemma ReasonRefused(f: Fields)
    requires DecodeNotApplicable(f).Err?
    ensures DecodeNotApplicable(f).error ==
            if f.Keys != {"kind", "reason"} then FIELDS_CODE else "invalid_not_applicable"
  {
  }

  /** The list, then the first condition that is refused, then two conditions that are alike. */
  lemma CompoundRefused(f: Fields, depth: nat)
    requires depth <= 4 && DecodeCompound(f, depth).Err?
    ensures f.Keys != {"kind", "conditions"} ==> DecodeCompound(f, depth).error == FIELDS_CODE
    ensures f.Keys == {"kind", "conditions"} ==>
              var c := f["conditions"];
              if !(c.VList? && 2 <= |c.items| <= 16) then DecodeCompound(f, depth).error == "invalid_compound"
              else if forall i | 0 <= i < |c.items| :: Decode(c.items[i], depth + 1).Ok? then
                DecodeCompound(f, depth).error == "invalid_compound"
              else
                exists i :: 0 <= i < |c.items| && Decode(c.items[i], depth + 1) == Err(DecodeCompound(f, depth).error)
                            && forall j | 0 <= j < i :: Decode(c.items[j], depth + 1).Ok?
  {
    hide Decode, DecodeAll, Distinct;
    if f.Keys == {"kind", "conditions"} && f["conditions"].VList? { FirstRefused(f["conditions"].items, depth + 1); }
  }

  lemma {:induction false} FirstRefused(vs: seq<Value>, depth: nat)
    requires depth <= 5
    ensures DecodeAll(vs, depth).Ok? <==> forall i | 0 <= i < |vs| :: Decode(vs[i], depth).Ok?
    ensures DecodeAll(vs, depth).Err? ==>
              exists i :: 0 <= i < |vs| && Decode(vs[i], depth) == Err(DecodeAll(vs, depth).error)
                          && forall j | 0 <= j < i :: Decode(vs[j], depth).Ok?
    decreases |vs|
  {
    hide Decode;
    if vs != [] {
      var init, last := vs[..|vs| - 1], |vs| - 1;
      FirstRefused(init, depth);
      assert forall i | 0 <= i < last :: init[i] == vs[i];
      if DecodeAll(init, depth).Err? {
        var i :| 0 <= i < |init| && Decode(init[i], depth) == Err(DecodeAll(init, depth).error)
                 && forall j | 0 <= j < i :: Decode(init[j], depth).Ok?;
        assert Decode(vs[i], depth) == Err(DecodeAll(vs, depth).error);
      } else if Decode(vs[last], depth).Err? {
        assert Decode(vs[last], depth) == Err(DecodeAll(vs, depth).error);
      }
    }
  }
}
