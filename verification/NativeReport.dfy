/** The report's reading of a stored job, and its agreement with the writer. */
module NativeReport {
  import opened Wrappers
  import opened Characters
  import opened MrtsResults
  import opened MrtsEvidence

  /** What the report can reach: whether both paths are safe, and what reading them gives. */
  datatype Sources = Sources(ftwSafe: bool, statsSafe: bool, inputs: Inputs)

  /** The counts the report re-reads.  A raised error leaves the last results assigned, marked. */
  function RunCounts(s: Sources): Results
    requires Matched(s.inputs.log.lines)
  {
    var legacy := LogResults(s.inputs.log);
    if !s.ftwSafe then legacy
    else if s.inputs.selection.Err? then Flag(legacy)
    else match ObservedResults(s.inputs.selection.value, map[])
      case Err(_) => Flag(legacy)
      case Ok(empty) =>
        if !s.statsSafe then empty
        else match Read(s.inputs) case Ok(r) => r case Err(_) => Flag(empty)
  }

  method CollectRunCounts(s: Sources) returns (results: Results)
    requires Matched(s.inputs.log.lines)
    ensures results == RunCounts(s)
  {
    hide ObservedResults, LogResults;
    results := ResultsFromLog(s.inputs.log);
    if !s.ftwSafe { return; }
    if s.inputs.selection.Err? { return Flag(results); }
    var selected := s.inputs.selection.value;
    var empty := Observe(selected, map[]);
    if empty.Err? { return Flag(results); }
    results := empty.value;
    if s.statsSafe {
      if s.inputs.stats.Err? { return Flag(results); }
      var full := Observe(selected, s.inputs.stats.value);
      if full.Err? || !s.inputs.corpora { return Flag(results); }
      results := full.value;
    }
  }

  /** The re-read observations justify a PASS. */
  ghost predicate ReadJustifies(s: Sources) {
    s.ftwSafe && s.statsSafe && Justifies(s.inputs)
  }

  lemma CountsAreCleanExactlyWhenJustified(s: Sources)
    requires Matched(s.inputs.log.lines)
    ensures CleanPass(RunCounts(s)) <==> ReadJustifies(s)
  {
    hide ObservedResults, LogResults, AllPassed, Conserved, CleanPass;
    UncleanFallbacks(s.inputs);
    if s.inputs.selection.Ok? {
      var selected := s.inputs.selection.value;
      EmptyStatsReadable(selected);
      if s.inputs.stats.Ok? {
        CleanExactlyWhenAllPassed(selected, s.inputs.stats.value);
        if AllPassed(selected, s.inputs.stats.value) { AllPassedIsValid(selected, s.inputs.stats.value); }
      }
    }
  }

  lemma UncleanFallbacks(inputs: Inputs)
    requires Matched(inputs.log.lines)
    ensures !CleanPass(LogResults(inputs.log)) && !CleanPass(Flag(LogResults(inputs.log)))
    ensures inputs.selection.Ok? && ObservedResults(inputs.selection.value, map[]).Ok? ==>
              !CleanPass(ObservedResults(inputs.selection.value, map[]).value)
              && !CleanPass(Flag(ObservedResults(inputs.selection.value, map[]).value))
  {
    hide ObservedResults, LogResults, Conserved;
    LogConserves(inputs.log);
    if inputs.selection.Ok? && ObservedResults(inputs.selection.value, map[]).Ok? {
      FallbackIsNeverClean(inputs.selection.value);
    }
  }

  lemma EmptyStatsReadable(selected: seq<string>)
    ensures ValidCaseIds(selected) ==> ObservedResults(selected, map[]).Ok?
  {
    EventsList(map[], |FIELDS|);
    assert FIELDS[..|FIELDS|] == FIELDS;
  }

  lemma AllPassedIsValid(selected: seq<string>, stats: Stats)
    requires AllPassed(selected, stats)
    ensures ValidCaseIds(selected)
  {
  }

  function UpperChar(c: char): char {
    if 'a' <= c <= 'z' then c - 'a' + 'A' else if c == '-' then '_' else c
  }

  /** ASCII upper case with dashes turned into underscores; an empty status reads UNKNOWN. */
  function NormalStatus(status: string): string {
    if status == "" then "UNKNOWN" else seq(|status|, i requires 0 <= i < |status| => UpperChar(status[i]))
  }

  /** Lower-case letters become upper-case ones and dashes underscores; everything else stays. */
  lemma NormalStatusMeans(status: string)
    ensures status == "" ==> NormalStatus(status) == "UNKNOWN"
    ensures status != "" ==> |NormalStatus(status)| == |status|
    ensures forall i | 0 <= i < |status| ::
              && (forall k | 0 <= k < 26 && status[i] == LOWER[k] :: NormalStatus(status)[i] == UPPER[k])
              && (status[i] == '-' ==> NormalStatus(status)[i] == '_')
              && (status[i] !in LOWER && status[i] != '-' ==> NormalStatus(status)[i] == status[i])
  {
    hide UpperChar;
    forall i | 0 <= i < |status|
      ensures forall k | 0 <= k < 26 && status[i] == LOWER[k] :: UpperChar(status[i]) == UPPER[k]
      ensures status[i] == '-' ==> UpperChar(status[i]) == '_'
      ensures status[i] !in LOWER && status[i] != '-' ==> UpperChar(status[i]) == status[i]
    {
      OtherStays(status[i]);
      forall k | 0 <= k < 26
        ensures UpperChar(LOWER[k]) == UPPER[k]
      {
        LetterRises(k);
      }
    }
  }

  lemma LetterRises(k: nat)
    requires k < 26
    ensures UpperChar(LOWER[k]) == UPPER[k]
  {
  }

  lemma OtherStays(c: char)
    ensures c == '-' ==> UpperChar(c) == '_'
    ensures c !in LOWER && c != '-' ==> UpperChar(c) == c
  {
    hide LOWER;
    LowerMeans(c);
  }

  function FailedReason(): string {
    "native process or observed MRTS case failed despite recorded PASS"
  }

  function MissingReason(): string {
    "required native MRTS results are missing, skipped, invalid or failed"
  }

  datatype Shown = Shown(status: string, reason: string, counts: Results, blocked: nat)

  /**
    The report shows PASS exactly when the stored status reads PASS, the recorded exit code is the
    integer 0, and the observations it re-reads justify a PASS by themselves.
   */
  method NormalizeJob(status: string, exitCode: Json, reason: string, s: Sources) returns (shown: Shown)
    requires Matched(s.inputs.log.lines)
    ensures shown.status == "PASS" <==> NormalStatus(status) == "PASS" && exitCode == JInt(0) && ReadJustifies(s)
    ensures NormalStatus(status) != "PASS" ==> shown.status == NormalStatus(status) && shown.reason == reason
    ensures shown.status in {NormalStatus(status), "FAIL", "INCOMPLETE"}
    ensures NormalStatus(status) == "PASS" ==>
              (shown.status == "FAIL" <==> shown.counts.failed != 0 || (exitCode.JInt? && exitCode.i != 0))
    ensures NormalStatus(status) == "PASS" ==>
              shown.reason == if shown.status == "FAIL" then FailedReason()
                              else if shown.status == "INCOMPLETE" then MissingReason() else reason
    ensures shown.counts == RunCounts(s)
    ensures shown.blocked == 1 <==> NormalStatus(status) == "BLOCKED" && shown.counts.executed == 0
  {
    hide RunCounts, ReadJustifies, NormalStatus, Matched, FailedReason, MissingReason;
    CountsAreCleanExactlyWhenJustified(s);
    var final := NormalStatus(status);
    var counts := CollectRunCounts(s);
    var blocked := if final == "BLOCKED" && counts.executed == 0 then 1 else 0;
    var why := reason;
    if final == "PASS" && (counts.failed != 0 || (exitCode.JInt? && exitCode.i != 0)) {
      final := "FAIL";
      why := FailedReason();
    } else if final == "PASS" && (!exitCode.JInt? || !counts.complete || counts.skipped != 0 || counts.ignored != 0) {
      final := "INCOMPLETE";
      why := MissingReason();
    }
    shown := Shown(final, why, counts, blocked);
  }

  /** END TO END: a job written as PASS is shown as PASS when the same sources are read back. */
  method WriteThenReport(inputs: Inputs, status: string, exitCode: int, reason: string) returns (shown: Option<Shown>)
    requires Matched(inputs.log.lines)
    ensures shown.Some? && status == "PASS" && exitCode == 0 && Justifies(inputs) ==> shown.value.status == "PASS"
    ensures shown.Some? && shown.value.status == "PASS" ==>
              Justifies(inputs) && exitCode == 0 && NormalStatus(status) == "PASS"
  {
    hide NormalStatus, RunCounts, Justifies, Gather, FailedReason, MissingReason, Matched;
    PassIsNormal();
    FailIsNormal();
    var job, code := WriteJob(inputs, status, exitCode);
    if job.None? { return None; }
    var read := NormalizeJob(job.value.status, JInt(job.value.exitCode), reason, Sources(true, true, inputs));
    shown := Some(read);
  }

  lemma PassIsNormal()
    ensures NormalStatus("PASS") == "PASS"
  {
    assert NormalStatus("PASS") == "PASS";
  }

  lemma FailIsNormal()
    ensures NormalStatus("FAIL") != "PASS" && NormalStatus("INCOMPLETE") != "PASS"
  {
    assert NormalStatus("FAIL")[0] == 'F';
    assert |NormalStatus("INCOMPLETE")| == 10;
  }
}
