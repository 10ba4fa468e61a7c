/** Normalisation is idempotent: the written normal form decodes to itself, for every kind and nesting. */
module ExpectationRoundTrip {
  import opened Wrappers
  import opened Collections
  import opened Expectations

  lemma KindKept(e: Expectation)
    ensures Encode(e).VMap? && Get(Encode(e).fields, "kind") == Some(VStr(KindName(KindOf(e))))
  {
    hide KindName;
  }

  lemma HttpStatusBack(f: Fields, e: Expectation)
    requires DecodeHttpStatus(f) == Ok(e)
    ensures DecodeHttpStatus(Encode(e).fields) == Ok(e)
  {
    hide KindName;
    assert Encode(e).fields.Keys == {"kind", "http_status"};
  }

  lemma RuleIdsBack(v: Value, ids: seq<int>)
    requires RuleIds(v) == Ok(ids)
    ensures RuleIds(IntValues(ids)) == Ok(ids)
  {
    hide RuleIds;
    RuleIdsMeaning(v);
  }

  lemma NamesBack(v: Value, code: Code, names: seq<string>)
    requires IdentifierList(v, code, 1) == Ok(names)
    ensures IdentifierList(StrValues(names), code, 1) == Ok(names)
  {
    hide IdentifierList;
    IdentifierListMeaning(v, code, 1);
  }

  lemma InterventionBack(f: Fields, e: Expectation)
    requires DecodeIntervention(f) == Ok(e)
    ensures DecodeIntervention(Encode(e).fields) == Ok(e)
  {
    hide KindName, RuleIds, ACTIONS;
    if e.ids.Some? { RuleIdsBack(f["rule_ids"], e.ids.value); }
    var g := Encode(e).fields;
    assert g.Keys == {"kind", "action"} + (if e.httpStatus.Some? then {"http_status"} else {})
                     + (if e.ids.Some? then {"rule_ids"} else {});
    assert g["action"] == VStr(e.act);
    assert e.httpStatus.Some? ==> g["http_status"] == VInt(e.httpStatus.value);
    assert e.ids.Some? ==> g["rule_ids"] == IntValues(e.ids.value);
    assert Member(g["action"], ACTIONS, "invalid_action") == Ok(e.act);
    assert OptionalStatus(g) == Ok(e.httpStatus);
    assert OptionalRuleIds(g) == Ok(e.ids);
  }

  lemma ActionBack(f: Fields, e: Expectation)
    requires DecodeAction(f) == Ok(e)
    ensures DecodeAction(Encode(e).fields) == Ok(e)
  {
    hide KindName, RuleIds, ACTIONS;
    if e.ruleIds.Some? { RuleIdsBack(f["rule_ids"], e.ruleIds.value); }
    var g := Encode(e).fields;
    assert g.Keys == {"kind", "action"} + (if e.ruleIds.Some? then {"rule_ids"} else {});
    assert g["action"] == VStr(e.action);
    assert e.ruleIds.Some? ==> g["rule_ids"] == IntValues(e.ruleIds.value);
    assert Member(g["action"], ACTIONS, "invalid_action") == Ok(e.action);
    assert OptionalRuleIds(g) == Ok(e.ruleIds);
  }

  lemma RuleMatchBack(f: Fields, e: Expectation)
    requires DecodeRuleMatch(f) == Ok(e)
    ensures DecodeRuleMatch(Encode(e).fields) == Ok(e)
  {
    hide KindName, RuleIds;
    RuleIdsBack(f["rule_ids"], e.rules);
    assert Encode(e).fields.Keys == {"kind", "rule_ids"};
  }

  lemma EventBack(f: Fields, e: Expectation)
    requires DecodeEvent(f) == Ok(e)
    ensures DecodeEvent(Encode(e).fields) == Ok(e)
  {
    hide KindName, IdentifierList, IsIdentifier;
    if e.eventFields.Some? { NamesBack(f["fields"], "invalid_event", e.eventFields.value); }
    var g := Encode(e).fields;
    assert g.Keys == {"kind"} + (if e.eventFields.Some? then {"fields"} else {})
                     + (if e.eventType.Some? then {"event_type"} else {});
    assert e.eventFields.Some? ==> g["fields"] == StrValues(e.eventFields.value);
    assert e.eventType.Some? ==> g["event_type"] == VStr(e.eventType.value);
  }

  /** Fields that hold what was read from other fields read the same. */
  lemma ConfigurationAgain(f: Fields, g: Fields, c: Configuration)
    requires CONFIGURATION_FIELDS <= f.Keys && ConfigurationValues(f) == Ok(c) && CONFIGURATION_FIELDS <= g.Keys
    requires g["connector"] == VStr(c.connector) && g["operation"] == VStr(c.operation)
    requires g["directive"] == VStr(c.directive) && g["exit_code"] == VInt(c.exitCode)
    requires g["outcome"] == VStr(c.outcome) && g["error_class"] == VStr(c.errorClass)
    ensures ConfigurationValues(g) == Ok(c)
  {
    hide IsIdentifier;
  }

  lemma ConfigurationBack(f: Fields, e: Expectation)
    requires DecodeConfiguration(f) == Ok(e)
    ensures DecodeConfiguration(Encode(e).fields) == Ok(e)
  {
    hide KindName, CoherentConfiguration, ConfigurationValues, Identifier;
    var g := Encode(e).fields;
    var c := e.configuration;
    assert g.Keys == CONFIGURATION_FIELDS + {"kind"};
    assert g["connector"] == VStr(c.connector) && g["operation"] == VStr(c.operation);
    assert g["directive"] == VStr(c.directive) && g["exit_code"] == VInt(c.exitCode);
    assert g["outcome"] == VStr(c.outcome) && g["error_class"] == VStr(c.errorClass);
    ConfigurationAgain(f, g, c);
  }

  lemma HeadersBack(f: Fields, e: Expectation, names: seq<string>)
    requires HeaderNames(f) == Ok(names)
    requires e == RequestHeaders(names) || e == ResponseHeaders(names)
    ensures HeaderNames(Encode(e).fields) == Ok(names)
  {
    hide KindName, IdentifierList;
    NamesBack(f["names"], "invalid_header_names", names);
    assert Encode(e).fields.Keys == {"kind", "names"};
  }

  lemma StateBack(f: Fields, subject: Subject, e: Expectation)
    requires DecodeState(f, subject) == Ok(e)
    ensures DecodeState(Encode(e).fields, subject) == Ok(e)
  {
    hide KindName, AllowedStates;
    assert Encode(e).fields.Keys == {"kind", "state"};
  }

  lemma LifecycleBack(f: Fields, e: Expectation)
    requires DecodeLifecycle(f) == Ok(e)
    ensures DecodeLifecycle(Encode(e).fields) == Ok(e)
  {
    hide KindName, ValidPredicates, Booleans, BoolValues;
    BooleansBack(f["predicates"].fields);
    var g := Encode(e).fields;
    assert g.Keys == {"kind", "predicates"};
    assert g["predicates"] == VMap(BoolValues(e.predicates));
  }

  lemma NotApplicableBack(f: Fields, e: Expectation)
    requires DecodeNotApplicable(f) == Ok(e)
    ensures DecodeNotApplicable(Encode(e).fields) == Ok(e)
  {
    hide KindName, REASONS;
    assert Encode(e).fields.Keys == {"kind", "reason"};
  }

  lemma CompoundBack(f: Fields, depth: nat, e: Expectation)
    requires depth <= MAX_DEPTH && DecodeCompound(f, depth) == Ok(e)
    requires forall i | 0 <= i < |e.conditions| :: Decode(Encode(e.conditions[i]), depth + 1) == Ok(e.conditions[i])
    ensures DecodeCompound(Encode(e).fields, depth) == Ok(e)
  {
    hide *;
    CompoundDecoded(f, depth, e);
    CompoundWritten(e);
    WrittenDecode(e, depth);
    CompoundFrom(Encode(e).fields, depth, e.conditions);
  }

  /** The written conditions decode, one and all. */
  lemma WrittenDecode(e: Expectation, depth: nat)
    requires depth <= MAX_DEPTH && e.Compound?
    requires forall i | 0 <= i < |e.conditions| :: Decode(Encode(e.conditions[i]), depth + 1) == Ok(e.conditions[i])
    ensures Encode(e).VMap? && Encode(e).fields.Keys == {"kind", "conditions"} && Encode(e).fields["conditions"].VList?
    ensures DecodeAll(Encode(e).fields["conditions"].items, depth + 1) == Ok(e.conditions)
  {
    hide Decode, DecodeAll, KindName;
    CompoundWritten(e);
    var items := Encode(e).fields["conditions"].items;
    forall i | 0 <= i < |e.conditions|
      ensures Decode(items[i], depth + 1) == Ok(e.conditions[i])
    {
      assert items[i] == Encode(e.conditions[i]);
    }
    EncodeAll(e.conditions, depth + 1, items);
  }

  lemma CompoundDecoded(f: Fields, depth: nat, e: Expectation)
    requires depth <= MAX_DEPTH && DecodeCompound(f, depth) == Ok(e)
    ensures e.Compound? && 2 <= |e.conditions| <= 16 && Distinct(e.conditions)
  {
    hide Distinct, DecodeAll;
  }

  lemma CompoundWritten(e: Expectation)
    requires e.Compound?
    ensures Encode(e).VMap? && Encode(e).fields.Keys == {"kind", "conditions"} && Encode(e).fields["conditions"].VList?
    ensures var items := Encode(e).fields["conditions"].items;
            |items| == |e.conditions| && forall i | 0 <= i < |items| :: items[i] == Encode(e.conditions[i])
  {
    hide KindName;
  }

  lemma CompoundFrom(g: Fields, depth: nat, cs: seq<Expectation>)
    requires depth <= MAX_DEPTH && g.Keys == {"kind", "conditions"} && g["conditions"].VList?
    requires DecodeAll(g["conditions"].items, depth + 1) == Ok(cs) && 2 <= |cs| <= 16 && Distinct(cs)
    ensures DecodeCompound(g, depth) == Ok(Compound(cs))
  {
    hide Distinct, DecodeAll;
  }

  /** ROUND TRIP: whatever decodes is written so that it decodes to the same expectation. */
  lemma {:induction false} EncodeDecodes(v: Value, depth: nat)
    requires depth <= MAX_DEPTH + 1 && Decode(v, depth).Ok?
    ensures Decode(Encode(Decode(v, depth).value), depth) == Decode(v, depth)
    decreases MAX_DEPTH + 1 - depth, 1
  {
    var e := Decode(v, depth).value;
    var k := DecodedKind(v, depth);
    var f := v.fields;
    KindKept(e);
    DecodesKindOf(k, f, depth);
    DecodesByKind(Encode(e).fields, k, depth);
    hide Decode, Encode, KindName, DecodeHttpStatus, DecodeIntervention, DecodeAction, DecodeRuleMatch, DecodeEvent;
    hide DecodeConfiguration, HeaderNames, DecodeState, DecodeLifecycle, DecodeNotApplicable, Base, FindKind, KINDS,
        Get, DecodeCompound;
    match k {
      case KHttpStatus => HttpStatusBack(f, e);
      case KIntervention => InterventionBack(f, e);
      case KAction => ActionBack(f, e);
      case KRuleMatch => RuleMatchBack(f, e);
      case KEvent => EventBack(f, e);
      case KConfiguration => ConfigurationBack(f, e);
      case KRequestHeaders => HeadersBack(f, e, HeaderNames(f).value);
      case KResponseHeaders => HeadersBack(f, e, HeaderNames(f).value);
      case KRequestBody => StateBack(f, RequestBody, e);
      case KResponseBody => StateBack(f, ResponseBody, e);
      case KTransport => StateBack(f, Transport, e);
      case KLifecycle => LifecycleBack(f, e);
      case KCleanup => StateBack(f, Cleanup, e);
      case KNotApplicable => NotApplicableBack(f, e);
      case KCompound =>
        ConditionsBack(f, depth, e);
        CompoundBack(f, depth, e);
    }
  }

  lemma {:induction false} ConditionsBack(f: Fields, depth: nat, e: Expectation)
    requires depth <= MAX_DEPTH && DecodeCompound(f, depth) == Ok(e)
    ensures forall i | 0 <= i < |e.conditions| :: Decode(Encode(e.conditions[i]), depth + 1) == Ok(e.conditions[i])
    decreases MAX_DEPTH + 1 - depth, 0
  {
    hide Decode, Encode, DecodeAll;
    var items := f["conditions"].items;
    DecodeAllPointwise(items, depth + 1);
    forall i | 0 <= i < |e.conditions|
      ensures Decode(Encode(e.conditions[i]), depth + 1) == Ok(e.conditions[i])
    {
      assert Decode(items[i], depth + 1) == Ok(e.conditions[i]);
      EncodeDecodes(items[i], depth + 1);
    }
  }

  /** A kind's handler builds an expectation of that kind. */
  lemma DecodesKindOf(k: Kind, f: Fields, depth: nat)
    requires depth <= MAX_DEPTH && DecodeKind(k, f, depth).Ok?
    ensures KindOf(DecodeKind(k, f, depth).value) == k
  {
    hide RuleIds, IdentifierList, ConfigurationValues, CoherentConfiguration, HttpStatus, Member, ValidPredicates,
        DecodeAll;
  }

  /** IDEMPOTENCE of the public normaliser. */
  lemma NormaliseTwice(v: Value)
    requires Normalise(v).Ok?
    ensures Normalise(Normalise(v).value) == Normalise(v)
  {
    hide Decode, Encode;
    EncodeDecodes(v, 0);
  }
}
