/** Which values say which test result, field by field, and which are refused as sensitive. */
module ResultRules {
  import opened Wrappers
  import opened Expectations
  import opened ExpectationMatching
  import opened ExpectationRules
  import opened ExpectationRefusals

  // ---- Optional fields ----

  ghost predicate MaySayMember(f: Fields, key: string, text: Option<string>, words: set<string>) {
    match text case None => key !in f case Some(t) => key in f && f[key] == VStr(t) && t in words
  }

  ghost predicate MaySayNames(f: Fields, key: string, names: Option<seq<string>>) {
    match names case None => key !in f case Some(ns) => key in f && ListsNames(f[key], ns, 1)
  }

  ghost predicate MaySayId(f: Fields, key: string, text: Option<string>) {
    match text case None => key !in f case Some(t) => SaysId(f, key, t)
  }

  ghost predicate MaySayPredicates(f: Fields, key: string, p: Option<map<string, bool>>) {
    match p case None => key !in f case Some(q) => key in f && SaysPredicates(f[key], q)
  }

  ghost predicate SaysRun(v: Value, c: ObservedConfiguration) {
    && v.VMap?
    && v.fields.Keys == {"connector", "operation", "directive", "exit_code", "outcome", "error_class",
                         "process_started", "listener_created"}
    && SaysConfiguration(v.fields, c.settings)
    && v.fields["process_started"] == VBool(c.started) && v.fields["listener_created"] == VBool(c.listening)
  }

  ghost predicate MaySayRun(f: Fields, key: string, c: Option<ObservedConfiguration>) {
    match c case None => key !in f case Some(run) => key in f && SaysRun(f[key], run)
  }

  /** The fields say this observation: each field its own part, an absent one nothing. */
  ghost predicate SaysFields(f: Fields, o: Observation) {
    && SaysRequest(f, o)
    && SaysStates(f, o)
    && MaySayPredicates(f, "lifecycle", o.lifecycle) && MaySayRun(f, "configuration", o.configuration)
  }

  ghost predicate SaysRequest(f: Fields, o: Observation) {
    && MaySayStatus(f, o.status) && MaySayIds(f, o.ruleIds)
    && MaySayMember(f, "action", o.action,
                    {"deny", "pass", "none", "redirect", "block", "drop", "abort_connection", "log_only"})
    && MaySayNames(f, "event_fields", o.eventFields) && MaySayId(f, "event_type", o.eventType)
    && MaySayNames(f, "request_header_names", o.requestNames)
    && MaySayNames(f, "response_header_names", o.responseNames)
  }

  ghost predicate SaysStates(f: Fields, o: Observation) {
    var body := {"observed", "matched", "buffered", "streaming", "incremental", "absent", "redacted"};
    && MaySayMember(f, "request_body_state", o.requestBody, body)
    && MaySayMember(f, "response_body_state", o.responseBody, body)
    && MaySayMember(f, "transport", o.transport,
                    {"connection_aborted", "stream_reset", "http1", "http2", "http3", "keep_alive",
                     "first_byte_before_response_end", "no_full_response_buffering"})
    && MaySayMember(f, "cleanup", o.cleanup, {"balanced", "completed", "reused", "isolated"})
    && MaySayMember(f, "applicability", o.applicability,
                    {"unsupported_by_host_model", "not_implemented", "connector_gap", "future_target",
                     "runtime_difference"})
  }

  // ---- Each field ----

  lemma StatusOf(f: Fields, status: Option<int>)
    ensures OptionalStatusOf(Get(f, "http_status")) == Ok(status) <==> MaySayStatus(f, status)
  {
  }

  lemma IdsOf(f: Fields, ids: Option<seq<int>>)
    ensures OptionalIds(Get(f, "rule_ids")) == Ok(ids) <==> MaySayIds(f, ids)
  {
    hide RuleIds, ListsIds;
    if "rule_ids" in f && ids.Some? { RuleIdsMean(f["rule_ids"], ids.value); }
  }

  lemma MemberOf(f: Fields, key: string, text: Option<string>, words: set<string>)
    ensures OptionalMember(Get(f, key), words) == Ok(text) <==> MaySayMember(f, key, text, words)
  {
  }

  lemma NamesOf(f: Fields, key: string, names: Option<seq<string>>)
    ensures OptionalNames(Get(f, key)) == Ok(names) <==> MaySayNames(f, key, names)
  {
    hide IdentifierList, ListsNames;
    if key in f && names.Some? { NamesMean(f[key], "invalid_result", names.value, 1); }
  }

  lemma IdOf(f: Fields, key: string, text: Option<string>)
    ensures OptionalIdentifier(Get(f, key)) == Ok(text) <==> MaySayId(f, key, text)
  {
    hide Identifier, IsIdText;
    if key in f && text.Some? { IdSaid(f, key, text.value); }
  }

  lemma PredicatesOf(f: Fields, key: string, p: Option<map<string, bool>>)
    ensures OptionalLifecycle(Get(f, key)) == Ok(p) <==> MaySayPredicates(f, key, p)
  {
    hide SaysPredicates, PREDICATES;
    if key in f && p.Some? { PredicatesSaid(f[key], p.value); }
    if key in f && f[key].VMap? && ValidPredicates(f[key].fields) { PredicatesSaid(f[key], Booleans(f[key].fields)); }
  }

  lemma RunOf(f: Fields, key: string, c: Option<ObservedConfiguration>)
    ensures OptionalConfiguration(Get(f, key)) == Ok(c) <==> MaySayRun(f, key, c)
  {
    hide ConfigurationValues, SaysConfiguration;
    ObservedNames();
    if key in f && f[key].VMap? && f[key].fields.Keys == OBSERVED_FIELDS {
      var g := f[key].fields;
      if ConfigurationValues(g).Ok? { SettingsSaid(g, ConfigurationValues(g).value); }
      if c.Some? { SettingsSaid(g, c.value.settings); }
    }
  }

  lemma ObservedNames()
    ensures OBSERVED_FIELDS == {"connector", "operation", "directive", "exit_code", "outcome", "error_class",
                                "process_started", "listener_created"}
    ensures CONFIGURATION_FIELDS <= OBSERVED_FIELDS
  {
  }

  // ---- The whole result ----

  lemma RequestOf(f: Fields, o: Observation)
    ensures SaysRequest(f, o) <==>
            && OptionalStatusOf(Get(f, "http_status")) == Ok(o.status)
            && OptionalMember(Get(f, "action"), ACTIONS) == Ok(o.action)
            && OptionalIds(Get(f, "rule_ids")) == Ok(o.ruleIds)
            && OptionalNames(Get(f, "event_fields")) == Ok(o.eventFields)
            && OptionalIdentifier(Get(f, "event_type")) == Ok(o.eventType)
            && OptionalNames(Get(f, "request_header_names")) == Ok(o.requestNames)
            && OptionalNames(Get(f, "response_header_names")) == Ok(o.responseNames)
  {
    hide OptionalStatusOf, OptionalMember, OptionalIds, OptionalNames, OptionalIdentifier, Get, MaySayStatus, MaySayIds,
      MaySayMember, MaySayNames, MaySayId;
    StatusOf(f, o.status);
    MemberOf(f, "action", o.action, ACTIONS);
    IdsOf(f, o.ruleIds);
    NamesOf(f, "event_fields", o.eventFields);
    IdOf(f, "event_type", o.eventType);
    NamesOf(f, "request_header_names", o.requestNames);
    NamesOf(f, "response_header_names", o.responseNames);
  }

  lemma StatesOfResult(f: Fields, o: Observation)
    ensures SaysStates(f, o) <==>
            && OptionalMember(Get(f, "request_body_state"), BODY_STATES) == Ok(o.requestBody)
            && OptionalMember(Get(f, "response_body_state"), BODY_STATES) == Ok(o.responseBody)
            && OptionalMember(Get(f, "transport"), TRANSPORT_STATES) == Ok(o.transport)
            && OptionalMember(Get(f, "cleanup"), CLEANUP_STATES) == Ok(o.cleanup)
            && OptionalMember(Get(f, "applicability"), REASONS) == Ok(o.applicability)
  {
    hide OptionalMember, Get, MaySayMember;
    MemberOf(f, "request_body_state", o.requestBody, BODY_STATES);
    MemberOf(f, "response_body_state", o.responseBody, BODY_STATES);
    MemberOf(f, "transport", o.transport, TRANSPORT_STATES);
    MemberOf(f, "cleanup", o.cleanup, CLEANUP_STATES);
    MemberOf(f, "applicability", o.applicability, REASONS);
  }

  lemma FieldsMean(f: Fields, o: Observation)
    ensures DecodeFields(f) == Ok(o) <==> SaysFields(f, o)
  {
    hide OptionalStatusOf, OptionalMember, OptionalIds, OptionalNames, OptionalIdentifier, OptionalLifecycle,
      OptionalConfiguration, Get, SaysRequest, SaysStates, MaySayPredicates, MaySayRun, ACTIONS, BODY_STATES,
      TRANSPORT_STATES, CLEANUP_STATES, REASONS;
    RequestOf(f, o);
    StatesOfResult(f, o);
    PredicatesOf(f, "lifecycle", o.lifecycle);
    RunOf(f, "configuration", o.configuration);
  }

  /**
    THE RESULT, DECLARED.  A value is accepted as a result exactly when it is a nonempty map of known fields
    that each say their part; a field that could carry a payload or a secret is refused as sensitive.
   */
  lemma ResultMeans(v: Value, o: Observation)
    ensures DecodeResult(v) == Ok(o) <==>
            && v.VMap? && v.fields.Keys != {} && SaysFields(v.fields, o)
            && v.fields.Keys <= {"http_status", "action", "rule_ids", "event_fields", "event_type",
                                 "request_header_names", "response_header_names", "request_body_state",
                                 "response_body_state", "transport", "lifecycle", "cleanup", "applicability",
                                 "configuration"}
  {
    hide DecodeFields, SaysFields;
    if v.VMap? { FieldsMean(v.fields, o); }
    KnownIsNotSensitive();
  }

  lemma KnownIsNotSensitive()
    ensures RESULT_FIELDS !! SENSITIVE
  {
  }

  lemma SensitiveIsRefused(v: Value)
    ensures DecodeResult(v) == Err("sensitive_result_field") <==>
            v.VMap? && !(v.fields.Keys !! {"authorization", "cookie", "password", "secret", "payload", "request_body",
                                           "response_body", "request_headers", "response_headers"})
  {
    hide DecodeFields;
    if v.VMap? && v.fields.Keys !! SENSITIVE { OtherRefusals(v.fields); }
  }

  /** No field's own check refuses with that code. */
  lemma OtherRefusals(f: Fields)
    ensures DecodeFields(f) != Err("sensitive_result_field")
  {
    hide OptionalStatusOf, OptionalMember, OptionalIds, OptionalNames, OptionalIdentifier, OptionalLifecycle,
      OptionalConfiguration;
    FieldRefusals(Get(f, "http_status"), ACTIONS);
    FieldRefusals(Get(f, "action"), ACTIONS);
    FieldRefusals(Get(f, "rule_ids"), ACTIONS);
    FieldRefusals(Get(f, "event_fields"), ACTIONS);
    FieldRefusals(Get(f, "event_type"), ACTIONS);
    FieldRefusals(Get(f, "request_header_names"), ACTIONS);
    FieldRefusals(Get(f, "response_header_names"), ACTIONS);
    FieldRefusals(Get(f, "request_body_state"), BODY_STATES);
    FieldRefusals(Get(f, "response_body_state"), BODY_STATES);
    FieldRefusals(Get(f, "transport"), TRANSPORT_STATES);
    FieldRefusals(Get(f, "cleanup"), CLEANUP_STATES);
    FieldRefusals(Get(f, "applicability"), REASONS);
    FieldRefusals(Get(f, "lifecycle"), REASONS);
    FieldRefusals(Get(f, "configuration"), REASONS);
  }

  lemma FieldRefusals(v: Option<Value>, words: set<string>)
    ensures OptionalStatusOf(v) != Err("sensitive_result_field")
    ensures OptionalMember(v, words) != Err("sensitive_result_field")
    ensures OptionalIds(v) != Err("sensitive_result_field") && OptionalNames(v) != Err("sensitive_result_field")
    ensures OptionalIdentifier(v) != Err("sensitive_result_field")
    ensures OptionalLifecycle(v) != Err("sensitive_result_field")
    ensures OptionalConfiguration(v) != Err("sensitive_result_field")
  {
    hide IsIdentifier, ValidPredicates;
  }

  // ---- Refusals ----

  /** No map, an empty one, or an unknown field, when nothing is sensitive. */
  lemma ShapeIsRefused(v: Value)
    ensures !v.VMap? || v.fields.Keys == {} ==> DecodeResult(v) == Err("invalid_result")
    ensures v.VMap? && v.fields.Keys !! SENSITIVE && !(v.fields.Keys <= RESULT_FIELDS) ==>
              DecodeResult(v) == Err("invalid_result")
  {
    hide SENSITIVE, RESULT_FIELDS;
  }

  /** The code a field is refused with. */
  lemma FieldIsRefused(v: Option<Value>, words: set<string>)
    ensures OptionalStatusOf(v).Err? ==> OptionalStatusOf(v).error == "invalid_http_status"
    ensures OptionalMember(v, words).Err? ==> OptionalMember(v, words).error == "invalid_result"
    ensures OptionalIds(v).Err? ==> OptionalIds(v).error == "invalid_rule_ids"
    ensures OptionalIdentifier(v).Err? ==> OptionalIdentifier(v).error == "invalid_identifier"
    ensures OptionalLifecycle(v).Err? ==> OptionalLifecycle(v).error == "invalid_result"
    ensures OptionalNames(v).Err? ==>
              v.Some? && OptionalNames(v).error == IdentifierList(v.value, "invalid_result", 1).error
  {
    hide IdentifierList, ValidPredicates, IsIdentifier;
    if v.Some? { ScalarRefusals(v.value); }
  }

  /** A run is refused for its field names, then for its settings, then for flags that are no booleans. */
  lemma RunIsRefused(v: Option<Value>)
    requires OptionalConfiguration(v).Err?
    ensures v.Some?
    ensures OptionalConfiguration(v).error ==
            if !v.value.VMap? || v.value.fields.Keys != OBSERVED_FIELDS then "invalid_result"
            else if ConfigurationValues(v.value.fields).Err? then ConfigurationValues(v.value.fields).error
            else "invalid_result"
  {
    hide ConfigurationValues;
    ObservedNames();
  }
}
