/** Meaning of expectations: the matcher is the reference, normalisation preserves it, nesting does not matter. */
module ExpectationMeaning {
  import opened Wrappers
  import opened Collections
  import opened Sorting
  import opened Expectations
  import opened ExpectationRoundTrip
  import opened ExpectationMatching

  // ---- Nesting ----

  lemma SingleCondition(e: Expectation, o: Observation)
    requires !e.Compound?
    ensures Failures(e, o) == LeafFailures(e, o)
  {
    assert Conditions(e) == {e};
    hide LeafFailures;
  }

  /** The failures of several expectations. */
  function AnyFailures(es: seq<Expectation>, o: Observation): set<Code> {
    set e, code | e in es && code in Failures(e, o) :: code
  }

  lemma CompoundFailures(cs: seq<Expectation>, o: Observation)
    ensures Failures(Compound(cs), o) == AnyFailures(cs, o)
  {
    hide LeafFailures;
    var all := Conditions(Compound(cs));
    forall code
      ensures code in Failures(Compound(cs), o) <==> code in AnyFailures(cs, o)
    {
      if code in Failures(Compound(cs), o) {
        var x :| x in all && code in LeafFailures(x, o);
        var c :| c in cs && x in Conditions(c);
        assert code in Failures(c, o);
      }
      if code in AnyFailures(cs, o) {
        var c :| c in cs && code in Failures(c, o);
        var x :| x in Conditions(c) && code in LeafFailures(x, o);
        assert x in all;
      }
    }
  }

  lemma AnyFailuresSnoc(es: seq<Expectation>, last: Expectation, o: Observation)
    ensures AnyFailures(es + [last], o) == AnyFailures(es, o) + Failures(last, o)
  {
    hide Failures;
    assert forall e :: e in es + [last] <==> e in es || e == last;
  }

  // ---- The matcher computes the reference on every nesting ----

  lemma {:induction false} MatchAllIsAny(vs: seq<Value>, depth: nat, r: Fields, es: seq<Expectation>, o: Observation)
    requires depth <= MAX_DEPTH + 1 && |vs| == |es| && forall i | 0 <= i < |vs| :: Decode(vs[i], depth) == Ok(es[i])
    requires Reads(r, o)
    ensures Codes(MatchAll(vs, depth, r)) == AnyFailures(es, o)
    decreases MAX_DEPTH + 1 - depth, 1, |vs|
  {
    hide Decode, Match, Failures, Reads;
    if vs == [] {
      assert es == [];
    } else {
      var n := |vs| - 1;
      MatchAllIsAny(vs[..n], depth, r, es[..n], o);
      MatchIsFailures(vs[n], depth, r, o);
      CodesConcat(MatchAll(vs[..n], depth, r), Match(vs[n], depth, r));
      AnyFailuresSnoc(es[..n], es[n], o);
      assert es == es[..n] + [es[n]];
      hide AnyFailures, Codes;
    }
  }

  /** The codes the matcher returns are the reference's, over every kind and every nesting. */
  lemma {:induction false} MatchIsFailures(v: Value, depth: nat, r: Fields, o: Observation)
    requires depth <= MAX_DEPTH + 1 && Decode(v, depth).Ok? && Reads(r, o)
    ensures Codes(Match(v, depth, r)) == Failures(Decode(v, depth).value, o)
    decreases MAX_DEPTH + 1 - depth, 0, 0
  {
    var e := Decode(v, depth).value;
    var k := DecodedKind(v, depth);
    FindsTheKind(k);
    DecodesKindOf(k, v.fields, depth);
    if k == KCompound {
      CompoundParts(v, depth);
      MatchesAll(v, depth, r);
      hide Decode, Reads, Failures, Match, DecodeKind, KINDS;
      MatchAllIsAny(v.fields["conditions"].items, depth + 1, r, e.conditions, o);
      CompoundFailures(e.conditions, o);
    } else {
      MatchesLeaf(v, depth, r, k);
      LeafMatches(k, v.fields, depth, r, e, o);
      hide Decode, Reads, Failures, Match, MatchLeaf, LeafFailures, DecodeKind, KINDS;
      SingleCondition(e, o);
    }
  }

  /** A compound value is matched condition by condition. */
  lemma MatchesAll(v: Value, depth: nat, r: Fields)
    requires depth <= MAX_DEPTH && Decode(v, depth).Ok? && FindKind(v.fields["kind"].s, KINDS) == Some(KCompound)
    ensures "conditions" in v.fields && v.fields["conditions"].VList?
    ensures forall i | 0 <= i < |v.fields["conditions"].items| :: Decode(v.fields["conditions"].items[i], depth + 1).Ok?
    ensures Match(v, depth, r) == MatchAll(v.fields["conditions"].items, depth + 1, r)
  {
    CompoundParts(v, depth);
    hide DecodeKind;
  }

  /** Any other value is matched by its kind. */
  lemma MatchesLeaf(v: Value, depth: nat, r: Fields, k: Kind)
    requires depth <= MAX_DEPTH && Decode(v, depth).Ok? && FindKind(v.fields["kind"].s, KINDS) == Some(k)
             && k != KCompound
    ensures Match(v, depth, r) == MatchLeaf(k, v.fields, r)
  {
    hide DecodeKind, MatchLeaf;
  }

  lemma FindsTheKind(k: Kind)
    ensures FindKind(KindName(k), KINDS) == Some(k)
  {
    EveryKindListed(k);
    FindsKind(k, KINDS);
  }

  // ---- Writing a normal result ----

  datatype Field =
    | FStatus | FAction | FRuleIds | FEventFields | FEventType | FRequestNames | FResponseNames | FRequestBody
    | FResponseBody | FTransport | FCleanup | FApplicability | FLifecycle | FConfiguration

  function FieldName(f: Field): string {
    match f
    case FStatus => "http_status"
    case FAction => "action"
    case FRuleIds => "rule_ids"
    case FEventFields => "event_fields"
    case FEventType => "event_type"
    case FRequestNames => "request_header_names"
    case FResponseNames => "response_header_names"
    case FRequestBody => "request_body_state"
    case FResponseBody => "response_body_state"
    case FTransport => "transport"
    case FCleanup => "cleanup"
    case FApplicability => "applicability"
    case FLifecycle => "lifecycle"
    case FConfiguration => "configuration"
  }

  lemma FieldNamesDiffer(a: Field, b: Field)
    requires FieldName(a) == FieldName(b)
    ensures a == b
  {
  }

  const FIELDS: seq<Field> :=
    [FStatus, FAction, FRuleIds, FEventFields, FEventType, FRequestNames, FResponseNames, FRequestBody, FResponseBody,
     FTransport, FCleanup, FApplicability, FLifecycle, FConfiguration]

  lemma EveryFieldListed(f: Field)
    ensures f in FIELDS
  {
    match f {
      case FStatus => assert FIELDS[0] == f;
      case FAction => assert FIELDS[1] == f;
      case FRuleIds => assert FIELDS[2] == f;
      case FEventFields => assert FIELDS[3] == f;
      case FEventType => assert FIELDS[4] == f;
      case FRequestNames => assert FIELDS[5] == f;
      case FResponseNames => assert FIELDS[6] == f;
      case FRequestBody => assert FIELDS[7] == f;
      case FResponseBody => assert FIELDS[8] == f;
      case FTransport => assert FIELDS[9] == f;
      case FCleanup => assert FIELDS[10] == f;
      case FApplicability => assert FIELDS[11] == f;
      case FLifecycle => assert FIELDS[12] == f;
      case FConfiguration => assert FIELDS[13] == f;
    }
  }

  function NamesOption(names: Option<seq<string>>): Option<Value> {
    if names.Some? then Some(StrValues(names.value)) else None
  }

  function LifecycleOption(p: Option<map<string, bool>>): Option<Value> {
    if p.Some? then Some(VMap(BoolValues(p.value))) else None
  }

  function ConfigurationOption(c: Option<ObservedConfiguration>): Option<Value> {
    if c.Some? then
      Some(VMap(ConfigurationFields(map[], c.value.settings)
                  ["process_started" := VBool(c.value.started)]["listener_created" := VBool(c.value.listening)]))
    else None
  }

  function Part(o: Observation, f: Field): Option<Value> {
    match f
    case FStatus => IntOption(o.status)
    case FAction => StrOption(o.action)
    case FRuleIds => IntsOption(o.ruleIds)
    case FEventFields => NamesOption(o.eventFields)
    case FEventType => StrOption(o.eventType)
    case FRequestNames => NamesOption(o.requestNames)
    case FResponseNames => NamesOption(o.responseNames)
    case FRequestBody => StrOption(o.requestBody)
    case FResponseBody => StrOption(o.responseBody)
    case FTransport => StrOption(o.transport)
    case FCleanup => StrOption(o.cleanup)
    case FApplicability => StrOption(o.applicability)
    case FLifecycle => LifecycleOption(o.lifecycle)
    case FConfiguration => ConfigurationOption(o.configuration)
  }

  /** The listed fields that were observed. */
  function WriteFields(o: Observation, fs: seq<Field>): Fields {
    if fs == [] then map[]
    else With(WriteFields(o, fs[..|fs| - 1]), FieldName(fs[|fs| - 1]), Part(o, fs[|fs| - 1]))
  }

  /** The normal result as fields: those, and only those, that were observed. */
  function EncodeResult(o: Observation): Fields {
    WriteFields(o, FIELDS)
  }

  lemma {:induction false} WrittenField(o: Observation, fs: seq<Field>, f: Field)
    ensures Get(WriteFields(o, fs), FieldName(f)) == if f in fs then Part(o, f) else None
    decreases |fs|
  {
    hide Part, FieldName;
    if fs != [] {
      var before, last := fs[..|fs| - 1], fs[|fs| - 1];
      WrittenField(o, before, f);
      assert fs == before + [last];
      if FieldName(last) == FieldName(f) { FieldNamesDiffer(last, f); }
    }
  }

  lemma EncodedField(o: Observation, f: Field)
    ensures Get(EncodeResult(o), FieldName(f)) == Part(o, f)
  {
    hide Part, FieldName, WriteFields;
    EveryFieldListed(f);
    WrittenField(o, FIELDS, f);
  }

  lemma StatusBack(v: Option<Value>, s: Option<int>)
    requires OptionalStatusOf(v) == Ok(s)
    ensures OptionalStatusOf(IntOption(s)) == Ok(s)
  {
    assert v == IntOption(s);
  }

  lemma MemberBack(v: Option<Value>, allowed: set<string>, s: Option<string>)
    requires OptionalMember(v, allowed) == Ok(s)
    ensures OptionalMember(StrOption(s), allowed) == Ok(s)
  {
    assert v == StrOption(s);
  }

  lemma IdentifierBack(v: Option<Value>, s: Option<string>)
    requires OptionalIdentifier(v) == Ok(s)
    ensures OptionalIdentifier(StrOption(s)) == Ok(s)
  {
    hide IsIdentifier;
    assert v == StrOption(s);
  }

  lemma IdsBack(v: Option<Value>, ids: Option<seq<int>>)
    requires OptionalIds(v) == Ok(ids)
    ensures OptionalIds(IntsOption(ids)) == Ok(ids)
  {
    hide RuleIds;
    if v.Some? { RuleIdsBack(v.value, ids.value); }
  }

  lemma OptionalNamesBack(v: Option<Value>, names: Option<seq<string>>)
    requires OptionalNames(v) == Ok(names)
    ensures OptionalNames(NamesOption(names)) == Ok(names)
  {
    hide IdentifierList;
    if v.Some? { NamesBack(v.value, "invalid_result", names.value); }
  }

  lemma OptionalLifecycleBack(v: Option<Value>, p: Option<map<string, bool>>)
    requires OptionalLifecycle(v) == Ok(p)
    ensures OptionalLifecycle(LifecycleOption(p)) == Ok(p)
  {
    hide ValidPredicates, Booleans, BoolValues;
    if v.Some? { BooleansBack(v.value.fields); }
  }

  lemma OptionalConfigurationBack(v: Option<Value>, c: Option<ObservedConfiguration>)
    requires OptionalConfiguration(v) == Ok(c)
    ensures OptionalConfiguration(ConfigurationOption(c)) == Ok(c)
  {
    hide ConfigurationValues, Identifier;
    if v.Some? {
      var g := ConfigurationOption(c).value.fields;
      var s := c.value.settings;
      assert g.Keys == OBSERVED_FIELDS;
      assert g["connector"] == VStr(s.connector) && g["operation"] == VStr(s.operation);
      assert g["directive"] == VStr(s.directive) && g["exit_code"] == VInt(s.exitCode);
      assert g["outcome"] == VStr(s.outcome) && g["error_class"] == VStr(s.errorClass);
      assert g["process_started"] == VBool(c.value.started) && g["listener_created"] == VBool(c.value.listening);
      ConfigurationAgain(v.value.fields, g, s);
    }
  }

  /** Field by field: what decoding a result means. */
  ghost predicate DecodesTo(f: Fields, o: Observation) {
    && OptionalStatusOf(Get(f, "http_status")) == Ok(o.status)
    && OptionalMember(Get(f, "action"), ACTIONS) == Ok(o.action)
    && OptionalIds(Get(f, "rule_ids")) == Ok(o.ruleIds)
    && OptionalNames(Get(f, "event_fields")) == Ok(o.eventFields)
    && OptionalIdentifier(Get(f, "event_type")) == Ok(o.eventType)
    && OptionalNames(Get(f, "request_header_names")) == Ok(o.requestNames)
    && OptionalNames(Get(f, "response_header_names")) == Ok(o.responseNames)
    && OptionalMember(Get(f, "request_body_state"), BODY_STATES) == Ok(o.requestBody)
    && OptionalMember(Get(f, "response_body_state"), BODY_STATES) == Ok(o.responseBody)
    && OptionalMember(Get(f, "transport"), TRANSPORT_STATES) == Ok(o.transport)
    && OptionalMember(Get(f, "cleanup"), CLEANUP_STATES) == Ok(o.cleanup)
    && OptionalMember(Get(f, "applicability"), REASONS) == Ok(o.applicability)
    && OptionalLifecycle(Get(f, "lifecycle")) == Ok(o.lifecycle)
    && OptionalConfiguration(Get(f, "configuration")) == Ok(o.configuration)
  }

  lemma DecodedFieldByField(f: Fields, o: Observation)
    ensures DecodeFields(f) == Ok(o) <==> DecodesTo(f, o)
  {
    hide OptionalStatusOf, OptionalMember, OptionalIds, OptionalNames, OptionalIdentifier, OptionalLifecycle,
        OptionalConfiguration,
         Get, ACTIONS, BODY_STATES, TRANSPORT_STATES, CLEANUP_STATES, REASONS;
  }

  lemma ScalarsBack(r: Fields, o: Observation)
    requires DecodesTo(r, o)
    ensures var g := EncodeResult(o);
            && OptionalStatusOf(Get(g, "http_status")) == Ok(o.status)
            && OptionalMember(Get(g, "action"), ACTIONS) == Ok(o.action)
            && OptionalIdentifier(Get(g, "event_type")) == Ok(o.eventType)
            && OptionalMember(Get(g, "transport"), TRANSPORT_STATES) == Ok(o.transport)
            && OptionalMember(Get(g, "cleanup"), CLEANUP_STATES) == Ok(o.cleanup)
            && OptionalMember(Get(g, "applicability"), REASONS) == Ok(o.applicability)
  {
    hide OptionalStatusOf, OptionalMember, OptionalIds, OptionalNames, OptionalIdentifier, OptionalLifecycle,
        OptionalConfiguration,
         Get, EncodeResult, ACTIONS, BODY_STATES, TRANSPORT_STATES, CLEANUP_STATES, REASONS;
    EncodedField(o, FStatus);
    EncodedField(o, FAction);
    EncodedField(o, FEventType);
    EncodedField(o, FTransport);
    EncodedField(o, FCleanup);
    EncodedField(o, FApplicability);
    StatusBack(Get(r, "http_status"), o.status);
    MemberBack(Get(r, "action"), ACTIONS, o.action);
    IdentifierBack(Get(r, "event_type"), o.eventType);
    MemberBack(Get(r, "transport"), TRANSPORT_STATES, o.transport);
    MemberBack(Get(r, "cleanup"), CLEANUP_STATES, o.cleanup);
    MemberBack(Get(r, "applicability"), REASONS, o.applicability);
  }

  lemma BodiesBack(r: Fields, o: Observation)
    requires DecodesTo(r, o)
    ensures var g := EncodeResult(o);
            && OptionalMember(Get(g, "request_body_state"), BODY_STATES) == Ok(o.requestBody)
            && OptionalMember(Get(g, "response_body_state"), BODY_STATES) == Ok(o.responseBody)
            && OptionalLifecycle(Get(g, "lifecycle")) == Ok(o.lifecycle)
            && OptionalConfiguration(Get(g, "configuration")) == Ok(o.configuration)
  {
    hide OptionalStatusOf, OptionalMember, OptionalIds, OptionalNames, OptionalIdentifier, OptionalLifecycle,
        OptionalConfiguration,
         Get, EncodeResult, ACTIONS, BODY_STATES, TRANSPORT_STATES, CLEANUP_STATES, REASONS;
    EncodedField(o, FRequestBody);
    EncodedField(o, FResponseBody);
    EncodedField(o, FLifecycle);
    EncodedField(o, FConfiguration);
    MemberBack(Get(r, "request_body_state"), BODY_STATES, o.requestBody);
    MemberBack(Get(r, "response_body_state"), BODY_STATES, o.responseBody);
    OptionalLifecycleBack(Get(r, "lifecycle"), o.lifecycle);
    OptionalConfigurationBack(Get(r, "configuration"), o.configuration);
  }

  lemma ListsBack(r: Fields, o: Observation)
    requires DecodesTo(r, o)
    ensures var g := EncodeResult(o);
            && OptionalIds(Get(g, "rule_ids")) == Ok(o.ruleIds)
            && OptionalNames(Get(g, "event_fields")) == Ok(o.eventFields)
            && OptionalNames(Get(g, "request_header_names")) == Ok(o.requestNames)
            && OptionalNames(Get(g, "response_header_names")) == Ok(o.responseNames)
  {
    hide OptionalStatusOf, OptionalMember, OptionalIds, OptionalNames, OptionalIdentifier, OptionalLifecycle,
        OptionalConfiguration,
         Get, EncodeResult, ACTIONS, BODY_STATES, TRANSPORT_STATES, CLEANUP_STATES, REASONS;
    EncodedField(o, FRuleIds);
    EncodedField(o, FEventFields);
    EncodedField(o, FRequestNames);
    EncodedField(o, FResponseNames);
    IdsBack(Get(r, "rule_ids"), o.ruleIds);
    OptionalNamesBack(Get(r, "event_fields"), o.eventFields);
    OptionalNamesBack(Get(r, "request_header_names"), o.requestNames);
    OptionalNamesBack(Get(r, "response_header_names"), o.responseNames);
  }

  /** A decoded result is written so that it decodes to the same observation. */
  lemma ResultRoundTrip(r: Fields)
    requires DecodeFields(r).Ok?
    ensures DecodeFields(EncodeResult(DecodeFields(r).value)) == DecodeFields(r)
  {
    hide DecodeFields, EncodeResult, Get, OptionalStatusOf, OptionalMember, OptionalIds, OptionalNames,
        OptionalIdentifier,
         OptionalLifecycle, OptionalConfiguration, ACTIONS, BODY_STATES, TRANSPORT_STATES, CLEANUP_STATES, REASONS;
    var o := DecodeFields(r).value;
    DecodedFieldByField(r, o);
    ScalarsBack(r, o);
    BodiesBack(r, o);
    ListsBack(r, o);
    DecodedFieldByField(EncodeResult(o), o);
  }

  // ---- Main results ----

  /**
    MEANING PRESERVED.  Matching the normal expectation against the normal result gives the same
    failure codes, hence the same verdict, as matching the validated raw ones.
   */
  lemma NormalisationKeepsMeaning(v: Value, r: Fields)
    requires Normalise(v).Ok? && DecodeFields(r).Ok?
    ensures Decode(v, 0).Ok? && Decode(Normalise(v).value, 0).Ok?
    ensures Codes(Match(Normalise(v).value, 0, EncodeResult(DecodeFields(r).value))) == Codes(Match(v, 0, r))
  {
    hide Decode, DecodeFields, EncodeResult, Reads, Failures, Match, Encode, Codes;
    var o := DecodeFields(r).value;
    assert Normalise(v).value == Encode(Decode(v, 0).value);
    EncodeDecodes(v, 0);
    ResultRoundTrip(r);
    DecodedReads(r);
    DecodedReads(EncodeResult(o));
    MatchIsFailures(v, 0, r, o);
    MatchIsFailures(Encode(Decode(v, 0).value), 0, EncodeResult(o), o);
  }

  /**
    `valid` and `failure_codes` of the public validation: the normal expectation, as the catalog holds
    it, is matched against the normal result.
   */
  function ValidateTestResult(expectation: Value, result: Value): Result<(bool, seq<Code>), Code> {
    var e :- Normalise(expectation);
    var o :- DecodeResult(result);
    EncodeDecodes(expectation, 0);
    var codes := SortedSet(Match(e, 0, EncodeResult(o)));
    Ok((codes == [], codes))
  }

  /** The codes of the normal pair are those of the reference. */
  lemma ValidatedCodes(expectation: Value, result: Value)
    requires ValidateTestResult(expectation, result).Ok?
    ensures Decode(expectation, 0).Ok? && DecodeResult(result).Ok?
    ensures var codes := ValidateTestResult(expectation, result).value.1;
            && Codes(codes) == Failures(Decode(expectation, 0).value, DecodeResult(result).value)
            && Ascending(codes, StringLeq) && Distinct(codes)
  {
    hide Decode, DecodeFields, EncodeResult, Reads, Failures, Match, Encode, SortedSet, Ascending, Distinct;
    var e, o := Decode(expectation, 0).value, DecodeResult(result).value;
    EncodeDecodes(expectation, 0);
    ResultRoundTrip(result.fields);
    DecodedReads(EncodeResult(o));
    MatchIsFailures(Encode(e), 0, EncodeResult(o), o);
    SortedSetHolds(Match(Encode(e), 0, EncodeResult(o)));
  }

  /**
    A result is valid exactly when every single condition of the expectation holds, at any nesting, and
    the failure codes are the sorted union of the codes of the single conditions, without duplicates.
   */
  lemma ValidExactlyWhenEveryConditionHolds(expectation: Value, result: Value)
    requires ValidateTestResult(expectation, result).Ok?
    ensures Decode(expectation, 0).Ok? && DecodeResult(result).Ok?
    ensures var e, o := Decode(expectation, 0).value, DecodeResult(result).value;
            var (valid, codes) := ValidateTestResult(expectation, result).value;
            && (valid <==> forall x | x in Conditions(e) :: LeafFailures(x, o) == {})
            && (forall code :: code in codes <==> exists x :: x in Conditions(e) && code in LeafFailures(x, o))
            && Ascending(codes, StringLeq) && Distinct(codes)
  {
    ValidatedCodes(expectation, result);
    var e, o := Decode(expectation, 0).value, DecodeResult(result).value;
    var (valid, codes) := ValidateTestResult(expectation, result).value;
    assert valid <==> codes == [];
    hide ValidateTestResult, Decode, DecodeResult, LeafFailures, Ascending, Distinct, Conditions;
    assert forall code :: code in codes <==> code in Failures(e, o);
    if codes == [] {
      forall x | x in Conditions(e)
        ensures LeafFailures(x, o) == {}
      {
        forall code ensures code !in LeafFailures(x, o) { assert code !in Failures(e, o); }
      }
    } else {
      assert codes[0] in codes;
    }
  }

  /** Flattening or permuting compounds changes nothing: only the set of single conditions matters. */
  lemma OnlyConditionsMatter(a: Value, b: Value, result: Value)
    requires ValidateTestResult(a, result).Ok? && ValidateTestResult(b, result).Ok?
    requires Normalise(a).Ok? && Normalise(b).Ok?
    requires Conditions(Decode(a, 0).value) == Conditions(Decode(b, 0).value)
    ensures ValidateTestResult(a, result) == ValidateTestResult(b, result)
  {
    var o := DecodeResult(result).value;
    ValidatedCodes(a, result);
    ValidatedCodes(b, result);
    EncodeDecodes(a, 0);
    EncodeDecodes(b, 0);
    var x, y := ValidateTestResult(a, result).value.1, ValidateTestResult(b, result).value.1;
    assert ValidateTestResult(a, result) == Ok((x == [], x)) && ValidateTestResult(b, result) == Ok((y == [], y));
    hide ValidateTestResult, Decode, DecodeResult, Conditions, LeafFailures;
    assert Codes(x) == Codes(y);
    assert forall code :: code in x <==> code in Codes(x);
    assert forall code :: code in y <==> code in Codes(y);
    SameDistinctContents(x, y);
    AscendingIsUnique(x, y);
  }

  /** Conditions in another order, or repeated, are the same conditions. */
  lemma PermutingKeepsConditions(a: seq<Expectation>, b: seq<Expectation>)
    requires forall c :: c in a <==> c in b
    ensures Conditions(Compound(a)) == Conditions(Compound(b))
  {
  }

  /** A nested compound may be replaced by its conditions. */
  lemma FlatteningKeepsConditions(before: seq<Expectation>, inner: seq<Expectation>, after: seq<Expectation>)
    ensures Conditions(Compound(before + [Compound(inner)] + after)) == Conditions(Compound(before + inner + after))
  {
    var nested, flat := before + [Compound(inner)] + after, before + inner + after;
    forall x
      ensures x in Conditions(Compound(nested)) <==> x in Conditions(Compound(flat))
    {
      if x in Conditions(Compound(nested)) {
        var c :| c in nested && x in Conditions(c);
        if c == Compound(inner) {
          var d :| d in inner && x in Conditions(d);
          assert d in flat;
        } else {
          assert c in flat;
        }
      }
      if x in Conditions(Compound(flat)) {
        var c :| c in flat && x in Conditions(c);
        if c in inner {
          assert x in Conditions(Compound(inner)) && Compound(inner) in nested;
        } else {
          assert c in nested;
        }
      }
    }
  }

  /** So flattening changes neither the verdict nor a code. */
  lemma FlatteningKeepsVerdict(a: Value, b: Value, result: Value, before: seq<Expectation>, inner: seq<Expectation>,
                               after: seq<Expectation>)
    requires ValidateTestResult(a, result).Ok? && ValidateTestResult(b, result).Ok?
    requires Decode(a, 0) == Ok(Compound(before + [Compound(inner)] + after))
    requires Decode(b, 0) == Ok(Compound(before + inner + after))
    ensures ValidateTestResult(a, result) == ValidateTestResult(b, result)
  {
    hide ValidateTestResult, Decode, Conditions;
    FlatteningKeepsConditions(before, inner, after);
    OnlyConditionsMatter(a, b, result);
  }

  /** Nor does the order of the conditions of a compound. */
  lemma PermutingKeepsVerdict(a: Value, b: Value, result: Value, cs: seq<Expectation>, ds: seq<Expectation>)
    requires ValidateTestResult(a, result).Ok? && ValidateTestResult(b, result).Ok?
    requires Decode(a, 0) == Ok(Compound(cs)) && Decode(b, 0) == Ok(Compound(ds)) && multiset(cs) == multiset(ds)
    ensures ValidateTestResult(a, result) == ValidateTestResult(b, result)
  {
    hide ValidateTestResult, Decode, Conditions;
    forall c
      ensures c in cs <==> c in ds
    {
      assert c in cs <==> c in multiset(cs);
      assert c in ds <==> c in multiset(ds);
    }
    PermutingKeepsConditions(cs, ds);
    OnlyConditionsMatter(a, b, result);
  }

  // ---- Size ----

  function Leaves(e: Expectation): nat
    decreases e, 0
  {
    if e.Compound? then LeavesOf(e, |e.conditions|) else 1
  }

  /** The leaves of the first conditions of a compound. */
  function LeavesOf(e: Expectation, n: nat): nat
    requires e.Compound? && n <= |e.conditions|
    decreases e, 0, n
  {
    if n == 0 then 0 else LeavesOf(e, n - 1) + Leaves(e.conditions[n - 1])
  }

  function Power16(n: nat): nat {
    if n == 0 then 1 else 16 * Power16(n - 1)
  }

  lemma {:induction false} SumIsBounded(e: Expectation, n: nat, bound: nat)
    requires e.Compound? && n <= |e.conditions|
    requires forall c | c in e.conditions :: Leaves(c) <= bound
    ensures LeavesOf(e, n) <= n * bound
  {
    if n != 0 {
      SumIsBounded(e, n - 1, bound);
      assert e.conditions[n - 1] in e.conditions;
      assert n * bound == (n - 1) * bound + bound;
    }
  }

  predicate AtMost16To(e: Expectation, n: nat) {
    Leaves(e) <= Power16(n)
  }

  /** BOUND: an expectation accepted at a depth has at most 16 to the remaining depth leaves. */
  lemma {:induction false} LeavesAreBounded(v: Value, depth: nat, e: Expectation)
    requires depth <= MAX_DEPTH && Decode(v, depth) == Ok(e)
    ensures AtMost16To(e, MAX_DEPTH - depth)
    decreases MAX_DEPTH - depth
  {
    hide *;
    if e.Compound? {
      var items := CompoundItems(v, depth);
      forall i | 0 <= i < |e.conditions|
        ensures AtMost16To(e.conditions[i], MAX_DEPTH - depth - 1)
      {
        LeavesAreBounded(items[i], depth + 1, e.conditions[i]);
      }
      CompoundIsBounded(e, MAX_DEPTH - depth - 1);
    } else {
      LeafIsBounded(e, MAX_DEPTH - depth);
    }
  }

  /** The values the conditions of an accepted compound come from. */
  lemma CompoundItems(v: Value, depth: nat) returns (items: seq<Value>)
    requires depth <= MAX_DEPTH && Decode(v, depth).Ok? && Decode(v, depth).value.Compound?
    ensures var cs := Decode(v, depth).value.conditions;
            && depth < MAX_DEPTH && |items| == |cs| <= 16
            && forall i | 0 <= i < |items| :: Decode(items[i], depth + 1) == Ok(cs[i])
  {
    var k := DecodedKind(v, depth);
    DecodesKindOf(k, v.fields, depth);
    FindsTheKind(k);
    hide DecodeKind, KINDS;
    CompoundParts(v, depth);
    items := v.fields["conditions"].items;
    NotTooDeep(items[0], depth + 1);
  }

  lemma LeafIsBounded(e: Expectation, n: nat)
    requires !e.Compound?
    ensures AtMost16To(e, n)
  {
    PowerIsPositive(n);
  }

  lemma CompoundIsBounded(e: Expectation, n: nat)
    requires e.Compound? && |e.conditions| <= 16
    requires forall i | 0 <= i < |e.conditions| :: AtMost16To(e.conditions[i], n)
    ensures AtMost16To(e, n + 1)
  {
    SumIsBounded(e, |e.conditions|, Power16(n));
    Scale(|e.conditions|, 16, Power16(n));
  }

  lemma NotTooDeep(v: Value, depth: nat)
    requires depth <= MAX_DEPTH + 1 && Decode(v, depth).Ok?
    ensures depth <= MAX_DEPTH
  {
  }

  lemma Scale(a: nat, b: nat, c: nat)
    requires a <= b
    ensures a * c <= b * c
  {
  }

  lemma {:induction false} PowerIsPositive(n: nat)
    ensures 1 <= Power16(n)
  {
    if n != 0 { PowerIsPositive(n - 1); }
  }

  lemma SixteenToTheFourth()
    ensures Power16(4) == 65536
  {
    assert Power16(1) == 16 && Power16(2) == 256 && Power16(3) == 4096;
  }

  lemma AcceptedExpectationsAreSmall(v: Value)
    requires Normalise(v).Ok?
    ensures Leaves(Decode(v, 0).value) <= 65536
  {
    hide Decode, Leaves;
    LeavesAreBounded(v, 0, Decode(v, 0).value);
    SixteenToTheFourth();
  }
}
