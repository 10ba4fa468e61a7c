/** Reading pin assignments: references are replaced pass by pass, never by running the file. */
module CanonicalPins {
  import opened Wrappers
  import opened Characters

  /** A line of the file: an assignment to a pin name with its quoted raw text, or anything else. */
  datatype Line = Other | Assignment(name: string, raw: string)

  datatype Error = Unresolved(name: string) | InvalidPrefix | Unsafe | Duplicate(pin: string) | NoPins

  type Values = map<string, string>

  // ---- References ----

  datatype Reference = Reference(name: string, prefix: string, length: nat)

  predicate NameChar(c: char) {
    'A' <= c <= 'Z' || '0' <= c <= '9' || c == '_'
  }

  function NameRun(s: string): (r: nat)
    ensures r <= |s|
  {
    if s == "" || !NameChar(s[0]) then 0 else 1 + NameRun(s[1..])
  }

  function PrefixRun(s: string): (r: nat)
    ensures r <= |s|
  {
    if s == "" || s[0] == '{' || s[0] == '}' then 0 else 1 + PrefixRun(s[1..])
  }

  /** The reference `${NAME}` or `${NAME#prefix}` that the text starts with; no prefix and an empty one are alike. */
  function ReferenceAt(s: string): (r: Option<Reference>)
    ensures r.Some? ==> 3 < r.value.length <= |s| && s[0] == '$'
  {
    if |s| < 3 || s[0] != '$' || s[1] != '{' || !('A' <= s[2] <= 'Z') then None
    else
      var n := 2 + NameRun(s[2..]);
      if n < |s| && s[n] == '}' then Some(Reference(s[2..n], "", n + 1))
      else if n < |s| && s[n] == '#' then
        var m := n + 1 + PrefixRun(s[n + 1..]);
        if m < |s| && s[m] == '}' then Some(Reference(s[2..n], s[n + 1..m], m + 1)) else None
      else None
  }

  predicate HasReference(s: string) {
    s != "" && (ReferenceAt(s).Some? || HasReference(s[1..]))
  }

  function Replacement(r: Reference, values: Values): Result<string, Error> {
    if r.name !in values then Err(Unresolved(r.name))
    else if r.prefix <= values[r.name] then Ok(values[r.name][|r.prefix|..])
    else Err(InvalidPrefix)
  }

  /** One pass: every reference from left to right, not looking into what was put in. */
  function Substitute(s: string, values: Values): Result<string, Error>
    decreases |s|
  {
    if s == "" then Ok("")
    else match ReferenceAt(s)
      case Some(r) =>
        var here :- Replacement(r, values);
        var rest :- Substitute(s[r.length..], values);
        Ok(here + rest)
      case None =>
        var rest :- Substitute(s[1..], values);
        Ok([s[0]] + rest)
  }

  // ---- What a reference is ----

  /** How a reference is written, with or without a prefix to remove. */
  function Written(name: string, prefix: Option<string>): string {
    "${" + name + (if prefix.Some? then "#" + prefix.value else "") + "}"
  }

  predicate IsName(s: string) {
    s != "" && 'A' <= s[0] <= 'Z' && forall i | 0 <= i < |s| :: NameChar(s[i])
  }

  predicate IsPrefix(s: string) {
    '{' !in s && '}' !in s
  }

  /** A name is an upper-case letter and any number of upper-case letters, digits and underscores. */
  lemma NameMeans(s: string)
    ensures IsName(s) <==>
            && s != "" && s[0] in UPPER && forall c | c in s :: c in UPPER + DIGITS + "_"
  {
    forall c: char
      ensures NameChar(c) <==> c in UPPER + DIGITS + "_"
      ensures 'A' <= c <= 'Z' <==> c in UPPER
    {
      LetterMeans(c);
    }
    hide NameChar;
    assert forall i | 0 <= i < |s| :: s[i] in s;
  }

  lemma LetterMeans(c: char)
    ensures 'A' <= c <= 'Z' <==> c in UPPER
    ensures NameChar(c) <==> c in UPPER + DIGITS + "_"
  {
    UpperMeans(c);
    DigitMeans(c);
  }

  lemma {:induction false} NameRunStops(s: string)
    ensures forall i | 0 <= i < NameRun(s) :: NameChar(s[i])
    ensures NameRun(s) < |s| ==> !NameChar(s[NameRun(s)])
  {
    if s != "" && NameChar(s[0]) { NameRunStops(s[1..]); }
  }

  lemma {:induction false} PrefixRunStops(s: string)
    ensures IsPrefix(s[..PrefixRun(s)])
    ensures PrefixRun(s) < |s| ==> s[PrefixRun(s)] == '{' || s[PrefixRun(s)] == '}'
  {
    if s != "" && s[0] != '{' && s[0] != '}' {
      PrefixRunStops(s[1..]);
      assert s[..PrefixRun(s)] == [s[0]] + s[1..][..PrefixRun(s[1..])];
    }
  }

  lemma {:induction false} NameRunOf(name: string, rest: string)
    requires forall i | 0 <= i < |name| :: NameChar(name[i])
    requires rest != "" && !NameChar(rest[0])
    ensures NameRun(name + rest) == |name|
  {
    if name == "" {
      assert name + rest == rest;
    } else {
      NameRunOf(name[1..], rest);
      assert (name + rest)[1..] == name[1..] + rest;
    }
  }

  lemma {:induction false} PrefixRunOf(prefix: string, rest: string)
    requires IsPrefix(prefix) && rest != "" && rest[0] == '}'
    ensures PrefixRun(prefix + rest) == |prefix|
  {
    if prefix == "" {
      assert prefix + rest == rest;
    } else {
      assert prefix[0] in prefix;
      PrefixRunOf(prefix[1..], rest);
      assert (prefix + rest)[1..] == prefix[1..] + rest;
    }
  }

  lemma WrittenPlain(s: string, n: nat)
    requires 2 <= n < |s| && s[0] == '$' && s[1] == '{' && s[n] == '}'
    ensures s[..n + 1] == Written(s[2..n], None)
  {
    assert s[..n + 1] == s[..2] + s[2..n] + [s[n]];
    assert s[..2] == "${";
    assert s[2..n] + "" == s[2..n];
  }

  lemma WrittenWithPrefix(s: string, n: nat, m: nat)
    requires 2 <= n < m < |s| && s[0] == '$' && s[1] == '{' && s[n] == '#' && s[m] == '}'
    ensures s[..m + 1] == Written(s[2..n], Some(s[n + 1..m]))
  {
    assert s[..m + 1] == s[..2] + s[2..n] + ([s[n]] + s[n + 1..m]) + [s[m]];
    assert s[..2] == "${";
  }

  lemma NameStands(s: string)
    requires s != "" && 'A' <= s[0] <= 'Z'
    ensures IsName(s[..NameRun(s)])
  {
    NameRunStops(s);
  }

  /** Whatever is found at the start of a text is written there. */
  lemma FoundIsWritten(s: string)
    requires ReferenceAt(s).Some?
    ensures var r := ReferenceAt(s).value;
            && IsName(r.name) && IsPrefix(r.prefix)
            && (s[..r.length] == Written(r.name, Some(r.prefix))
                || (r.prefix == "" && s[..r.length] == Written(r.name, None)))
  {
    hide NameRun, PrefixRun, Written, IsName, IsPrefix;
    var n := 2 + NameRun(s[2..]);
    NameStands(s[2..]);
    assert s[2..][..NameRun(s[2..])] == s[2..n];
    if s[n] == '}' {
      WrittenPlain(s, n);
      NoPrefix();
    } else {
      var m := n + 1 + PrefixRun(s[n + 1..]);
      PrefixRunStops(s[n + 1..]);
      assert s[n + 1..][..PrefixRun(s[n + 1..])] == s[n + 1..m];
      WrittenWithPrefix(s, n, m);
    }
  }

  lemma NoPrefix()
    ensures IsPrefix("")
  {
  }

  /** Whatever is written at the start of a text is found. */
  lemma WrittenIsFound(name: string, prefix: Option<string>, tail: string)
    requires IsName(name) && (prefix.Some? ==> IsPrefix(prefix.value))
    ensures ReferenceAt(Written(name, prefix) + tail)
         == Some(Reference(name, if prefix.Some? then prefix.value else "", |Written(name, prefix)|))
  {
    var s := Written(name, prefix) + tail;
    assert s[0] == '$' && s[1] == '{' && s[2] == name[0];
    if prefix.None? {
      assert s[2..] == name + ("}" + tail);
      NameRunOf(name, "}" + tail);
      assert s[2..2 + |name|] == name;
    } else {
      assert s[2..] == name + ("#" + prefix.value + "}" + tail);
      NameRunOf(name, "#" + prefix.value + "}" + tail);
      assert s[2..2 + |name|] == name;
      assert s[2 + |name| + 1..] == prefix.value + ("}" + tail);
      PrefixRunOf(prefix.value, "}" + tail);
      assert s[2 + |name| + 1..2 + |name| + 1 + |prefix.value|] == prefix.value;
    }
  }

  /** A replacement is what is left of the named value behind the prefix, and there is one only then. */
  lemma ReplacementIsTheRest(r: Reference, values: Values, v: string)
    ensures Replacement(r, values) == Ok(v) <==> r.name in values && values[r.name] == r.prefix + v
  {
    if r.name in values && r.prefix <= values[r.name] {
      assert values[r.name] == r.prefix + values[r.name][|r.prefix|..];
    }
  }

  lemma OneCharacterKept(s: string, values: Values)
    requires s != "" && s[0] != '$'
    ensures Substitute(s, values).Ok? <==> Substitute(s[1..], values).Ok?
    ensures Substitute(s[1..], values).Ok? ==> Substitute(s, values) == Ok([s[0]] + Substitute(s[1..], values).value)
  {
    assert ReferenceAt(s).None?;
    hide ReferenceAt, Replacement;
  }

  /** Text without a dollar sign is kept. */
  lemma {:induction false} SubstituteKeepsText(text: string, tail: string, values: Values)
    requires '$' !in text
    ensures Substitute(text + tail, values).Ok? <==> Substitute(tail, values).Ok?
    ensures Substitute(tail, values).Ok? ==>
              Substitute(text + tail, values) == Ok(text + Substitute(tail, values).value)
  {
    hide Substitute;
    if text == "" {
      assert text + tail == tail;
      if Substitute(tail, values).Ok? {
        assert text + Substitute(tail, values).value == Substitute(tail, values).value;
      }
    } else {
      assert text[0] in text;
      SubstituteKeepsText(text[1..], tail, values);
      assert (text + tail)[1..] == text[1..] + tail;
      OneCharacterKept(text + tail, values);
      if Substitute(tail, values).Ok? {
        var rest := Substitute(tail, values).value;
        assert [text[0]] + (text[1..] + rest) == text + rest;
      }
    }
  }

  /** A written reference is replaced, and the pass goes on behind it. */
  lemma SubstituteReplaces(name: string, prefix: Option<string>, tail: string, values: Values, v: string)
    requires IsName(name) && (prefix.Some? ==> IsPrefix(prefix.value))
    requires name in values && values[name] == (if prefix.Some? then prefix.value else "") + v
    requires Substitute(tail, values).Ok?
    ensures Substitute(Written(name, prefix) + tail, values) == Ok(v + Substitute(tail, values).value)
  {
    var s := Written(name, prefix) + tail;
    WrittenIsFound(name, prefix, tail);
    var r := ReferenceAt(s).value;
    ReplacementIsTheRest(r, values, v);
    assert s[r.length..] == tail;
  }

  const RESCANS: nat := 3

  /** Substitutes again while references are left, a bounded number of times; any other dollar sign is refused. */
  function Resolve(raw: string, values: Values, depth: nat): Result<string, Error>
    requires depth <= RESCANS
    decreases RESCANS - depth
  {
    var value :- Substitute(raw, values);
    if depth < RESCANS && HasReference(value) then Resolve(value, values, depth + 1)
    else if '$' in value then Err(Unsafe)
    else Ok(value)
  }

  // ---- Resolution without a bound ----

  predicate DollarFree(values: Values) {
    forall k | k in values :: '$' !in values[k]
  }

  function Dollars(s: string): nat {
    multiset(s)['$']
  }

  lemma {:induction false} NoReferenceNoChange(s: string, values: Values)
    requires !HasReference(s)
    ensures Substitute(s, values) == Ok(s)
  {
    if s != "" {
      NoReferenceNoChange(s[1..], values);
      assert s == [s[0]] + s[1..];
    }
  }

  lemma DollarsConcat(a: string, b: string)
    ensures Dollars(a + b) == Dollars(a) + Dollars(b)
    ensures '$' in a <==> Dollars(a) > 0
  {
    assert multiset(a + b) == multiset(a) + multiset(b);
  }

  lemma DropDollars(s: string, n: nat)
    requires 0 < n <= |s|
    ensures Dollars(s) == Dollars(s[..n]) + Dollars(s[n..]) && (s[0] == '$' ==> Dollars(s[..n]) >= 1)
  {
    assert s == s[..n] + s[n..];
    DollarsConcat(s[..n], s[n..]);
    assert s[..n][0] == s[0];
  }

  lemma ReplacementHasNone(r: Reference, values: Values)
    requires DollarFree(values) && Replacement(r, values).Ok?
    ensures Dollars(Replacement(r, values).value) == 0
  {
    var v := Replacement(r, values).value;
    DollarsConcat(v, "");
  }

  /** Replacing references by dollar-free values uses dollar signs up. */
  lemma {:induction false} SubstituteUsesDollars(s: string, values: Values)
    requires DollarFree(values) && Substitute(s, values).Ok?
    ensures Dollars(Substitute(s, values).value) <= Dollars(s)
    ensures HasReference(s) ==> Dollars(Substitute(s, values).value) < Dollars(s)
    decreases |s|
  {
    if s != "" {
      match ReferenceAt(s) {
        case Some(r) =>
          SubstituteUsesDollars(s[r.length..], values);
          DropDollars(s, r.length);
          ReplacementHasNone(r, values);
          DollarsConcat(Replacement(r, values).value, Substitute(s[r.length..], values).value);
        case None =>
          SubstituteUsesDollars(s[1..], values);
          DropDollars(s, 1);
          DollarsConcat([s[0]], Substitute(s[1..], values).value);
          assert s[..1] == [s[0]];
      }
    }
  }

  lemma {:induction false} ReferenceNeedsDollar(s: string)
    requires HasReference(s)
    ensures '$' in s
  {
    if ReferenceAt(s).None? { ReferenceNeedsDollar(s[1..]); }
  }

  lemma PassShrinks(raw: string, values: Values)
    requires DollarFree(values) && Substitute(raw, values).Ok? && HasReference(Substitute(raw, values).value)
    ensures Dollars(Substitute(raw, values).value) < Dollars(raw)
  {
    if !HasReference(raw) { NoReferenceNoChange(raw, values); }
    SubstituteUsesDollars(raw, values);
  }

  /** The reference: substitute until no reference is left. */
  function ResolveFully(raw: string, values: Values): Result<string, Error>
    requires DollarFree(values)
    decreases Dollars(raw)
  {
    var value :- Substitute(raw, values);
    if HasReference(value) then
      PassShrinks(raw, values);
      ResolveFully(value, values)
    else if '$' in value then Err(Unsafe)
    else Ok(value)
  }

  /** How many passes that takes. */
  function Passes(raw: string, values: Values): (r: nat)
    requires DollarFree(values) && ResolveFully(raw, values).Ok?
    ensures 1 <= r
    decreases Dollars(raw)
  {
    var value := Substitute(raw, values).value;
    if HasReference(value) then
      PassShrinks(raw, values);
      1 + Passes(value, values)
    else 1
  }

  /** Passes never outnumber the dollar signs of the raw text, whatever references substitution forms. */
  lemma {:induction false} PassesAreBounded(raw: string, values: Values)
    requires DollarFree(values) && ResolveFully(raw, values).Ok?
    ensures Passes(raw, values) <= Dollars(raw) + 1
    decreases Dollars(raw)
  {
    var value := Substitute(raw, values).value;
    if HasReference(value) {
      PassShrinks(raw, values);
      PassesAreBounded(value, values);
    }
  }

  /**
    The bounded resolution yields a value exactly when the unbounded one does within the allowed
    passes, and then the same value.
   */
  lemma {:induction false} BoundedResolution(raw: string, values: Values, depth: nat)
    requires DollarFree(values) && depth <= RESCANS
    ensures Resolve(raw, values, depth).Ok? <==>
            ResolveFully(raw, values).Ok? && Passes(raw, values) <= RESCANS + 1 - depth
    ensures Resolve(raw, values, depth).Ok? ==> Resolve(raw, values, depth) == ResolveFully(raw, values)
    decreases RESCANS - depth
  {
    hide HasReference, Substitute;
    if Substitute(raw, values).Ok? && HasReference(Substitute(raw, values).value) {
      var value := Substitute(raw, values).value;
      ReferenceNeedsDollar(value);
      PassShrinks(raw, values);
      if depth < RESCANS { BoundedResolution(value, values, depth + 1); }
    }
  }

  lemma {:induction false} ResolvedIsDollarFree(raw: string, values: Values, depth: nat)
    requires depth <= RESCANS && Resolve(raw, values, depth).Ok?
    ensures '$' !in Resolve(raw, values, depth).value
    decreases RESCANS - depth
  {
    hide HasReference, Substitute;
    var value := Substitute(raw, values).value;
    if depth < RESCANS && HasReference(value) { ResolvedIsDollarFree(value, values, depth + 1); }
  }

  // ---- Only known names matter ----

  predicate Extends(more: Values, values: Values) {
    forall k | k in values :: k in more && more[k] == values[k]
  }

  lemma {:induction false} SubstituteExtends(s: string, values: Values, more: Values)
    requires Extends(more, values) && Substitute(s, values).Ok?
    ensures Substitute(s, more) == Substitute(s, values)
    decreases |s|
  {
    if s != "" {
      match ReferenceAt(s) {
        case Some(r) => SubstituteExtends(s[r.length..], values, more);
        case None => SubstituteExtends(s[1..], values, more);
      }
    }
  }

  /** Names assigned later cannot change a value that was resolved without them. */
  lemma {:induction false} ResolveExtends(raw: string, values: Values, more: Values, depth: nat)
    requires depth <= RESCANS && Extends(more, values) && Resolve(raw, values, depth).Ok?
    ensures Resolve(raw, more, depth) == Resolve(raw, values, depth)
    decreases RESCANS - depth
  {
    hide HasReference, Substitute;
    SubstituteExtends(raw, values, more);
    var value := Substitute(raw, values).value;
    if depth < RESCANS && HasReference(value) { ResolveExtends(value, values, more, depth + 1); }
  }

  /** The names a pass looks up. */
  function Names(s: string): set<string>
    decreases |s|
  {
    if s == "" then {}
    else match ReferenceAt(s)
      case Some(r) => {r.name} + Names(s[r.length..])
      case None => Names(s[1..])
  }

  /** A pass looks up the name of a written reference, and then those of the text behind it. */
  lemma NamesOfWritten(name: string, prefix: Option<string>, tail: string)
    requires IsName(name) && (prefix.Some? ==> IsPrefix(prefix.value))
    ensures Names(Written(name, prefix) + tail) == {name} + Names(tail)
  {
    var s := Written(name, prefix) + tail;
    WrittenIsFound(name, prefix, tail);
    assert s[ReferenceAt(s).value.length..] == tail;
  }

  lemma {:induction false} SubstituteKnows(s: string, values: Values)
    requires Substitute(s, values).Ok?
    ensures Names(s) <= values.Keys
    decreases |s|
  {
    if s != "" {
      match ReferenceAt(s) {
        case Some(r) => SubstituteKnows(s[r.length..], values);
        case None => SubstituteKnows(s[1..], values);
      }
    }
  }

  // ---- Loading ----

  function Scan(lines: seq<Line>): Result<Values, Error> {
    if lines == [] then Ok(map[])
    else
      var values :- Scan(lines[..|lines| - 1]);
      match lines[|lines| - 1]
      case Other => Ok(values)
      case Assignment(name, raw) =>
        if name in values then Err(Duplicate(name))
        else
          var value :- Resolve(raw, values, 0);
          Ok(values[name := value])
  }

  function Load(lines: seq<Line>): Result<Values, Error> {
    var values :- Scan(lines);
    if values.Keys == {} then Err(NoPins) else Ok(values)
  }

  lemma {:induction false} FirstErrorStays(lines: seq<Line>, k: nat)
    requires k <= |lines| && Scan(lines[..k]).Err?
    ensures Scan(lines) == Err(Scan(lines[..k]).error)
    decreases |lines|
  {
    hide Resolve;
    if k < |lines| {
      assert lines[..|lines| - 1][..k] == lines[..k];
      FirstErrorStays(lines[..|lines| - 1], k);
    } else {
      assert lines[..k] == lines;
    }
  }

  /** The loop of the loader; raised errors are those of the first offending line. */
  method LoadCanonicalPins(lines: seq<Line>) returns (r: Result<Values, Error>)
    ensures r == Load(lines)
  {
    var values: Values := map[];
    for i := 0 to |lines|
      invariant Scan(lines[..i]) == Ok(values)
    {
      assert lines[..i + 1][..i] == lines[..i];
      if lines[i].Assignment? {
        if lines[i].name in values {
          FirstErrorStays(lines, i + 1);
          return Err(Duplicate(lines[i].name));
        }
        var value := Resolve(lines[i].raw, values, 0);
        if value.Err? {
          FirstErrorStays(lines, i + 1);
          return Err(value.error);
        }
        values := values[lines[i].name := value.value];
      }
    }
    assert lines[..|lines|] == lines;
    if values.Keys == {} { return Err(NoPins); }
    return Ok(values);
  }

  lemma {:induction false} ScannedIsDollarFree(lines: seq<Line>)
    requires Scan(lines).Ok?
    ensures DollarFree(Scan(lines).value)
  {
    hide Resolve;
    if lines != [] {
      ScannedIsDollarFree(lines[..|lines| - 1]);
      var last := lines[|lines| - 1];
      if last.Assignment? { ResolvedIsDollarFree(last.raw, Scan(lines[..|lines| - 1]).value, 0); }
    }
  }

  /** Every loaded value is free of dollar signs. */
  lemma LoadedIsDollarFree(lines: seq<Line>)
    requires Load(lines).Ok?
    ensures DollarFree(Load(lines).value)
  {
    ScannedIsDollarFree(lines);
  }

  lemma {:induction false} ScanOfPrefix(lines: seq<Line>, k: nat)
    requires k <= |lines| && Scan(lines).Ok?
    ensures Scan(lines[..k]).Ok? && Extends(Scan(lines).value, Scan(lines[..k]).value)
    decreases |lines|
  {
    hide Resolve;
    if k < |lines| {
      ScanOfPrefix(lines[..|lines| - 1], k);
      assert lines[..|lines| - 1][..k] == lines[..k];
    } else {
      assert lines[..k] == lines;
    }
  }

  /** Appending lines to an accepted file never changes a value that was already loaded. */
  lemma AppendingKeepsValues(lines: seq<Line>, more: seq<Line>)
    requires Load(lines).Ok? && Load(lines + more).Ok?
    ensures Extends(Load(lines + more).value, Load(lines).value)
  {
    ScanOfPrefix(lines + more, |lines|);
    assert (lines + more)[..|lines|] == lines;
  }

  /** An assignment and what came before it. */
  lemma AcceptedAssignment(lines: seq<Line>, i: nat)
    requires i < |lines| && lines[i].Assignment? && Scan(lines).Ok?
    ensures Scan(lines[..i]).Ok? && lines[i].name !in Scan(lines[..i]).value
    ensures Resolve(lines[i].raw, Scan(lines[..i]).value, 0).Ok?
    ensures lines[i].name in Scan(lines).value
    ensures Scan(lines).value[lines[i].name] == Resolve(lines[i].raw, Scan(lines[..i]).value, 0).value
  {
    hide Resolve;
    ScanOfPrefix(lines, i + 1);
    assert lines[..i + 1][..i] == lines[..i];
  }

  predicate Assigns(line: Line, name: string) {
    line.Assignment? && line.name == name
  }

  lemma {:induction false} ScannedNames(lines: seq<Line>)
    requires Scan(lines).Ok?
    ensures forall name :: name in Scan(lines).value <==> exists i :: 0 <= i < |lines| && Assigns(lines[i], name)
    decreases |lines|
  {
    hide Resolve;
    if lines != [] {
      var before, last := lines[..|lines| - 1], lines[|lines| - 1];
      ScannedNames(before);
      forall name
        ensures name in Scan(lines).value <==> exists i :: 0 <= i < |lines| && Assigns(lines[i], name)
      {
        if name in Scan(before).value {
          var i :| 0 <= i < |before| && Assigns(before[i], name);
          assert lines[i] == before[i];
        }
        if i :| 0 <= i < |lines| && Assigns(lines[i], name) {
          if i < |before| { assert before[i] == lines[i]; }
        }
      }
    }
  }

  /**
    References go only to earlier assignments: every name an accepted assignment looks up, and every
    name its value is computed from, is assigned on an earlier line; and its value is the full
    resolution over those, reached within four passes.
   */
  lemma ReferencesGoBack(lines: seq<Line>, i: nat)
    requires i < |lines| && lines[i].Assignment? && Load(lines).Ok?
    ensures forall name | name in Names(lines[i].raw) ::
              exists j :: 0 <= j < i && Assigns(lines[j], name)
    ensures Scan(lines[..i]).Ok? && DollarFree(Scan(lines[..i]).value)
    ensures lines[i].name in Load(lines).value
    ensures ResolveFully(lines[i].raw, Scan(lines[..i]).value) == Ok(Load(lines).value[lines[i].name])
    ensures Passes(lines[i].raw, Scan(lines[..i]).value) <= 4
  {
    hide Substitute, Names, Scan;
    AcceptedAssignment(lines, i);
    var before := Scan(lines[..i]).value;
    ScannedIsDollarFree(lines[..i]);
    BoundedResolution(lines[i].raw, before, 0);
    SubstituteKnows(lines[i].raw, before);
    ScannedNames(lines[..i]);
    hide Resolve, ResolveFully, Passes;
    forall name | name in Names(lines[i].raw)
      ensures exists j :: 0 <= j < i && Assigns(lines[j], name)
    {
      var j :| 0 <= j < i && Assigns(lines[..i][j], name);
      assert lines[j] == lines[..i][j];
    }
  }

  /** A scan succeeds exactly when no name is assigned twice and every assignment resolves over the earlier ones. */
  lemma {:induction false} ScanSucceedsExactlyWhen(lines: seq<Line>)
    ensures Scan(lines).Ok? <==>
            forall i | 0 <= i < |lines| && lines[i].Assignment? ::
              && Scan(lines[..i]).Ok? && lines[i].name !in Scan(lines[..i]).value
              && Resolve(lines[i].raw, Scan(lines[..i]).value, 0).Ok?
    decreases |lines|
  {
    hide Resolve;
    if Scan(lines).Ok? {
      forall i | 0 <= i < |lines| && lines[i].Assignment?
        ensures Scan(lines[..i]).Ok? && lines[i].name !in Scan(lines[..i]).value
        ensures Resolve(lines[i].raw, Scan(lines[..i]).value, 0).Ok?
      {
        AcceptedAssignment(lines, i);
      }
    } else if lines != [] {
      var n := |lines| - 1;
      ScanSucceedsExactlyWhen(lines[..n]);
      if Scan(lines[..n]).Err? {
        var i :| 0 <= i < n && lines[..n][i].Assignment? &&
                 !(&& Scan(lines[..n][..i]).Ok? && lines[..n][i].name !in Scan(lines[..n][..i]).value
                   && Resolve(lines[..n][i].raw, Scan(lines[..n][..i]).value, 0).Ok?);
        assert lines[..n][..i] == lines[..i] && lines[i] == lines[..n][i];
      }
    }
  }

  // ---- Nested references ----

  /** A name inside so many reference brackets. */
  function Nested(depth: nat, name: string, tail: string): string {
    if depth == 0 then name + tail else "${" + Nested(depth - 1, name, "}" + tail)
  }

  lemma NotAReference(rest: string)
    requires rest != "" && rest[0] == '$'
    ensures ReferenceAt("${" + rest).None? && ReferenceAt("{" + rest).None?
  {
    assert ("${" + rest)[2] == '$' && ("{" + rest)[0] == '{';
  }

  lemma OpeningIsKept(rest: string, values: Values)
    requires rest != "" && rest[0] == '$' && Substitute(rest, values).Ok?
    ensures Substitute("${" + rest, values) == Ok("${" + Substitute(rest, values).value)
    ensures HasReference(rest) ==> HasReference("${" + rest)
  {
    hide ReferenceAt, Replacement;
    var s := "${" + rest;
    NotAReference(rest);
    assert s[1..] == "{" + rest && s[1..][1..] == rest;
    var v := Substitute(rest, values).value;
    assert Substitute(s[1..], values) == Ok(['{'] + v);
    assert ['$'] + (['{'] + v) == "${" + v;
  }

  lemma {:induction false} NestedStarts(depth: nat, name: string, tail: string)
    requires depth > 0
    ensures Nested(depth, name, tail) != "" && Nested(depth, name, tail)[0] == '$'
  {
  }

  lemma InnermostIsReplaced(name: string, tail: string, values: Values)
    requires IsName(name) && '$' !in tail && name in values && values[name] == name
    ensures Substitute(Nested(1, name, tail), values) == Ok(name + tail) && HasReference(Nested(1, name, tail))
  {
    assert "${" + name + "" + "}" == Written(name, None);
    assert Nested(1, name, tail) == Written(name, None) + tail;
    WrittenIsFound(name, None, tail);
    SubstituteKeepsText(tail, "", values);
    assert tail + "" == tail;
    hide ReferenceAt, Written;
    SubstituteReplaces(name, None, tail, values, name);
  }

  /** A pass takes one pair of brackets off. */
  lemma {:induction false} PassUnnests(depth: nat, name: string, tail: string, values: Values)
    requires depth > 0 && IsName(name) && '$' !in tail && name in values && values[name] == name
    ensures Substitute(Nested(depth, name, tail), values) == Ok(Nested(depth - 1, name, tail))
    ensures HasReference(Nested(depth, name, tail))
    decreases depth
  {
    hide Substitute, HasReference, IsName;
    if depth == 1 {
      InnermostIsReplaced(name, tail, values);
    } else {
      PassUnnests(depth - 1, name, "}" + tail, values);
      NestedStarts(depth - 1, name, "}" + tail);
      OpeningIsKept(Nested(depth - 1, name, "}" + tail), values);
    }
  }

  lemma NameHasNoDollar(name: string)
    requires IsName(name)
    ensures '$' !in name
  {
  }

  /** Unlimited resolution of n nested brackets takes n passes. */
  lemma {:induction false} NestingTakesPasses(depth: nat, name: string, values: Values)
    requires depth > 0 && IsName(name) && DollarFree(values) && name in values && values[name] == name
    ensures ResolveFully(Nested(depth, name, ""), values) == Ok(name)
    ensures Passes(Nested(depth, name, ""), values) == depth
    decreases depth
  {
    hide Substitute, HasReference, IsName;
    PassUnnests(depth, name, "", values);
    NameHasNoDollar(name);
    if depth == 1 {
      assert Nested(0, name, "") == name;
      if HasReference(name) { ReferenceNeedsDollar(name); }
    } else {
      PassUnnests(depth - 1, name, "", values);
      NestingTakesPasses(depth - 1, name, values);
    }
  }

  /** Over loadable values: four brackets resolve, and five or more are refused although they have a value. */
  lemma DeepNestingIsRefused(depth: nat, name: string, values: Values)
    requires depth > 0 && IsName(name) && DollarFree(values) && name in values && values[name] == name
    ensures ResolveFully(Nested(depth, name, ""), values) == Ok(name)
    ensures Resolve(Nested(depth, name, ""), values, 0).Ok? <==> depth <= 4
  {
    hide Substitute, HasReference, ResolveFully, Passes, Resolve, Nested;
    NestingTakesPasses(depth, name, values);
    BoundedResolution(Nested(depth, name, ""), values, 0);
  }

  lemma PlainResolves(text: string, values: Values)
    requires '$' !in text
    ensures Resolve(text, values, 0) == Ok(text)
  {
    if HasReference(text) { ReferenceNeedsDollar(text); }
    NoReferenceNoChange(text, values);
  }

  lemma ScanSnoc(lines: seq<Line>, name: string, raw: string)
    requires Scan(lines).Ok? && name !in Scan(lines).value
    ensures Scan(lines + [Assignment(name, raw)]) ==
            match Resolve(raw, Scan(lines).value, 0)
            case Ok(v) => Ok(Scan(lines).value[name := v])
            case Err(e) => Err(e)
  {
    hide Resolve;
    assert (lines + [Assignment(name, raw)])[..|lines|] == lines;
  }

  /** The file: a pin that holds its own name, and a second pin with that name in so many brackets. */
  lemma DeepNestingRefusesTheFile(depth: nat, name: string, other: string)
    requires depth > 0 && IsName(name) && other != name
    ensures Load([Assignment(name, name), Assignment(other, Nested(depth, name, ""))]).Ok? <==> depth <= 4
  {
    hide Resolve, Nested, IsName, Scan;
    var first := [Assignment(name, name)];
    StartOfFile(name);
    var values := Scan(first).value;
    DeepNestingIsRefused(depth, name, values);
    ScanSnoc(first, other, Nested(depth, name, ""));
    assert first + [Assignment(other, Nested(depth, name, ""))]
        == [Assignment(name, name), Assignment(other, Nested(depth, name, ""))];
  }

  lemma StartOfFile(name: string)
    requires IsName(name)
    ensures Scan([Assignment(name, name)]).Ok?
    ensures var values := Scan([Assignment(name, name)]).value;
            name in values && values[name] == name && values.Keys == {name} && DollarFree(values)
  {
    NameHasNoDollar(name);
    hide Resolve, IsName;
    ScanSnoc([], name, name);
    PlainResolves(name, Scan([]).value);
    assert [] + [Assignment(name, name)] == [Assignment(name, name)];
  }
}
