/** The binary tree object: a cursor parser, its printer, and the proof that they are inverse. */
module GitTree {
  import opened Wrappers

  type Byte = x: int | 0 <= x < 256
  type Bytes = seq<Byte>

  const NUL: Byte := 0
  const SPACE: Byte := 32
  const DOT: Byte := 46
  const SLASH: Byte := 47

  datatype Mode = Directory | Regular | Executable | Symlink | Gitlink

  /** `id` is the lowercase hexadecimal spelling of the twenty identity bytes. */
  datatype Entry = Entry(mode: Mode, name: Bytes, id: Bytes)

  datatype TreeError = Truncated | Unsafe

  // ---- Lexical pieces ----

  /** Position of the first occurrence of b. */
  function IndexOf(s: Bytes, b: Byte): (r: Option<nat>)
    ensures r.Some? ==> r.value < |s| && s[r.value] == b && b !in s[..r.value]
    ensures r.None? ==> b !in s
  {
    if s == [] then None
    else if s[0] == b then Some(0)
    else match IndexOf(s[1..], b)
      case None => None
      case Some(i) => assert s[..i + 1] == [s[0]] + s[1..][..i]; Some(i + 1)
  }

  lemma {:induction false} IndexAfter(a: Bytes, b: Byte, c: Bytes)
    requires b !in a
    ensures IndexOf(a + [b] + c, b) == Some(|a|)
  {
    if a != [] {
      assert (a + [b] + c)[1..] == a[1..] + [b] + c;
      IndexAfter(a[1..], b, c);
    }
  }

  function ModeBytes(m: Mode): Bytes {
    match m
    case Directory => [52, 48, 48, 48, 48]
    case Regular => [49, 48, 48, 54, 52, 52]
    case Executable => [49, 48, 48, 55, 53, 53]
    case Symlink => [49, 50, 48, 48, 48, 48]
    case Gitlink => [49, 54, 48, 48, 48, 48]
  }

  function ParseMode(s: Bytes): Option<Mode> {
    if s == ModeBytes(Directory) then Some(Directory)
    else if s == ModeBytes(Regular) then Some(Regular)
    else if s == ModeBytes(Executable) then Some(Executable)
    else if s == ModeBytes(Symlink) then Some(Symlink)
    else if s == ModeBytes(Gitlink) then Some(Gitlink)
    else None
  }

  function HexDigit(n: int): Byte
    requires 0 <= n < 16
  {
    if n < 10 then 48 + n else 87 + n
  }

  predicate IsHexDigit(b: Byte) {
    48 <= b <= 57 || 97 <= b <= 102
  }

  function HexValue(b: Byte): int
    requires IsHexDigit(b)
  {
    if b <= 57 then b - 48 else b - 87
  }

  function Hex(s: Bytes): (r: Bytes)
    ensures |r| == 2 * |s| && forall i | 0 <= i < |r| :: IsHexDigit(r[i])
  {
    if s == [] then [] else [HexDigit(s[0] / 16), HexDigit(s[0] % 16)] + Hex(s[1..])
  }

  function Unhex(s: Bytes): (r: Bytes)
    requires |s| % 2 == 0 && forall i | 0 <= i < |s| :: IsHexDigit(s[i])
    ensures 2 * |r| == |s|
  {
    if s == [] then [] else [HexValue(s[0]) * 16 + HexValue(s[1])] + Unhex(s[2..])
  }

  lemma {:induction false} UnhexHex(s: Bytes)
    ensures Unhex(Hex(s)) == s
  {
    if s != [] {
      assert Hex(s)[2..] == Hex(s[1..]);
      UnhexHex(s[1..]);
    }
  }

  lemma PairUnhex(a: Byte, b: Byte)
    requires IsHexDigit(a) && IsHexDigit(b)
    ensures var v := HexValue(a) * 16 + HexValue(b);
            0 <= v < 256 && HexDigit(v / 16) == a && HexDigit(v % 16) == b
  {
  }

  lemma {:induction false} HexUnhex(s: Bytes)
    requires |s| % 2 == 0 && forall i | 0 <= i < |s| :: IsHexDigit(s[i])
    ensures Hex(Unhex(s)) == s
  {
    hide HexDigit, HexValue, IsHexDigit;
    if s != [] {
      PairUnhex(s[0], s[1]);
      assert Unhex(s)[1..] == Unhex(s[2..]);
      HexUnhex(s[2..]);
    }
  }

  /** An exact lowercase forty-character revision. */
  predicate IsRevision(s: Bytes) {
    |s| == 40 && forall i | 0 <= i < |s| :: IsHexDigit(s[i])
  }

  predicate SafeName(name: Bytes) {
    && name != [] && name != [DOT] && name != [DOT, DOT] && name != [DOT, 103, 105, 116]
    && SLASH !in name
  }

  // ---- Specification of the parser ----

  /** The first row of a non-empty payload, and its length. */
  function NextEntry(s: Bytes, names: set<Bytes>): (r: Result<(Entry, nat), TreeError>)
    ensures r.Ok? ==> 21 <= r.value.1 <= |s|
  {
    match IndexOf(s, NUL)
    case None => Err(Truncated)
    case Some(end) =>
      if end + 21 > |s| then Err(Truncated)
      else match IndexOf(s[..end], SPACE)
        case None => Err(Unsafe)
        case Some(gap) =>
          var name := s[gap + 1..end];
          var mode := ParseMode(s[..gap]);
          if !SafeName(name) || name in names || mode.None? then Err(Unsafe)
          else Ok((Entry(mode.value, name, Hex(s[end + 1..end + 21])), end + 21))
  }

  function Parse(s: Bytes, names: set<Bytes>): Result<seq<Entry>, TreeError>
    decreases |s|
  {
    if s == [] then Ok([])
    else match NextEntry(s, names)
      case Err(e) => Err(e)
      case Ok((entry, used)) =>
        match Parse(s[used..], names + {entry.name})
        case Err(e) => Err(e)
        case Ok(rest) => Ok([entry] + rest)
  }

  // ---- The cursor loop ----

  function Prepend(entries: seq<Entry>, rest: Result<seq<Entry>, TreeError>): Result<seq<Entry>, TreeError> {
    match rest
    case Err(e) => Err(e)
    case Ok(more) => Ok(entries + more)
  }

  lemma PrependNothing(rest: Result<seq<Entry>, TreeError>)
    ensures Prepend([], rest) == rest
  {
    if rest.Ok? { assert [] + rest.value == rest.value; }
  }

  /** One turn of the loop: a row moves from the payload to the entries, or its error is the outcome. */
  lemma OneRow(s: Bytes, entries: seq<Entry>, names: set<Bytes>)
    requires s != []
    ensures NextEntry(s, names).Err? ==> Prepend(entries, Parse(s, names)) == Err(NextEntry(s, names).error)
    ensures NextEntry(s, names).Ok? ==>
              var (entry, used) := NextEntry(s, names).value;
              Prepend(entries, Parse(s, names)) == Prepend(entries + [entry], Parse(s[used..], names + {entry.name}))
  {
    hide NextEntry;
    if NextEntry(s, names).Ok? {
      var (entry, used) := NextEntry(s, names).value;
      var rest := Parse(s[used..], names + {entry.name});
      if rest.Ok? { assert entries + ([entry] + rest.value) == entries + [entry] + rest.value; }
    }
  }

  lemma NothingLeft(entries: seq<Entry>, names: set<Bytes>)
    ensures Prepend(entries, Parse([], names)) == Ok(entries)
  {
    assert entries + [] == entries;
  }

  method TreeEntries(payload: Bytes) returns (r: Result<seq<Entry>, TreeError>)
    ensures r == Parse(payload, {})
  {
    hide NextEntry, Parse, Prepend;
    var entries: seq<Entry> := [];
    var position := 0;
    var names: set<Bytes> := {};
    assert payload[0..] == payload;
    PrependNothing(Parse(payload, {}));
    while position < |payload|
      invariant position <= |payload|
      invariant Parse(payload, {}) == Prepend(entries, Parse(payload[position..], names))
    {
      var next := NextEntry(payload[position..], names);
      OneRow(payload[position..], entries, names);
      if next.Err? { return Err(next.error); }
      var (entry, used) := next.value;
      assert payload[position..][used..] == payload[position + used..];
      names := names + {entry.name};
      entries := entries + [entry];
      position := position + used;
    }
    NothingLeft(entries, names);
    assert payload[position..] == [];
    r := Ok(entries);
  }

  // ---- The printer ----

  predicate PrintableEntry(e: Entry) {
    SafeName(e.name) && NUL !in e.name && IsRevision(e.id)
  }

  function Row(e: Entry): (r: Bytes)
    requires PrintableEntry(e)
    ensures 28 <= |r|
  {
    ModeBytes(e.mode) + [SPACE] + e.name + [NUL] + Unhex(e.id)
  }

  ghost predicate ValidEntries(es: seq<Entry>) {
    && (forall i | 0 <= i < |es| :: PrintableEntry(es[i]))
    && (forall i, j | 0 <= i < j < |es| :: es[i].name != es[j].name)
  }

  function Print(es: seq<Entry>): Bytes
    requires forall i | 0 <= i < |es| :: PrintableEntry(es[i])
  {
    if es == [] then [] else Row(es[0]) + Print(es[1..])
  }

  ghost predicate Avoids(es: seq<Entry>, names: set<Bytes>) {
    forall i | 0 <= i < |es| :: es[i].name !in names
  }

  /** The four stretches of a row and what follows it. */
  lemma RowSlices(mode: Bytes, name: Bytes, id: Bytes, tail: Bytes)
    ensures var s := mode + [SPACE] + name + [NUL] + id + tail;
            var end := |mode| + 1 + |name|;
            && s == (mode + [SPACE] + name) + [NUL] + (id + tail)
            && s[..end] == mode + [SPACE] + name && s[..|mode|] == mode && s[|mode| + 1..end] == name
            && s[end + 1..end + 1 + |id|] == id
  {
  }

  lemma RowParses(e: Entry, tail: Bytes, names: set<Bytes>)
    requires PrintableEntry(e) && e.name !in names
    ensures NextEntry(Row(e) + tail, names) == Ok((e, |Row(e)|))
  {
    hide Hex, Unhex, IndexOf, ModeBytes, ParseMode, SafeName;
    var mode, id := ModeBytes(e.mode), Unhex(e.id);
    RowSlices(mode, e.name, id, tail);
    ModeReadsBack(e.mode);
    IndexAfter(mode + [SPACE] + e.name, NUL, id + tail);
    IndexAfter(mode, SPACE, e.name);
    HexUnhex(e.id);
  }

  lemma ModeReadsBack(m: Mode)
    ensures NUL !in ModeBytes(m) && SPACE !in ModeBytes(m) && ParseMode(ModeBytes(m)) == Some(m)
  {
  }

  lemma ModeIsPrinted(s: Bytes, m: Mode)
    requires ParseMode(s) == Some(m)
    ensures s == ModeBytes(m)
  {
  }

  lemma SlicesRow(s: Bytes, gap: nat, end: nat)
    requires gap < end && end + 21 <= |s| && s[gap] == SPACE && s[end] == NUL
    ensures s[..gap] + [SPACE] + s[gap + 1..end] + [NUL] + s[end + 1..end + 21] == s[..end + 21]
  {
  }

  /** What an accepted row consists of. */
  lemma AcceptedRow(s: Bytes, names: set<Bytes>) returns (gap: nat, end: nat)
    requires NextEntry(s, names).Ok?
    ensures gap < end && end + 21 <= |s| && s[gap] == SPACE && s[end] == NUL && NUL !in s[..end]
    ensures var (e, used) := NextEntry(s, names).value;
            && used == end + 21 && e.name == s[gap + 1..end] && SafeName(e.name) && e.name !in names
            && ParseMode(s[..gap]) == Some(e.mode) && e.id == Hex(s[end + 1..end + 21])
  {
    hide SafeName, ParseMode, Hex;
    end := IndexOf(s, NUL).value;
    gap := IndexOf(s[..end], SPACE).value;
    assert s[..end][gap] == s[gap] && s[..end][..gap] == s[..gap];
  }

  lemma PartOf(s: Bytes, b: Byte, from: nat, to: nat)
    requires from <= to <= |s| && b !in s[..to]
    ensures b !in s[from..to]
  {
    assert forall x | x in s[from..to] :: x in s[..to];
  }

  lemma NextEntryPrints(s: Bytes, names: set<Bytes>)
    requires NextEntry(s, names).Ok?
    ensures var (e, used) := NextEntry(s, names).value;
            PrintableEntry(e) && e.name !in names && Row(e) == s[..used]
  {
    hide NextEntry, ModeBytes, ParseMode, Hex, Unhex, SafeName, IsRevision;
    var (e, used) := NextEntry(s, names).value;
    var gap, end := AcceptedRow(s, names);
    PartOf(s, NUL, gap + 1, end);
    ModeIsPrinted(s[..gap], e.mode);
    UnhexHex(s[end + 1..end + 21]);
    HexIsRevision(s[end + 1..end + 21]);
    SlicesRow(s, gap, end);
  }

  lemma HexIsRevision(id: Bytes)
    requires |id| == 20
    ensures IsRevision(Hex(id))
  {
  }

  /** Printing an accepted payload gives it back byte for byte, and n entries take at least 28n bytes. */
  lemma {:induction false} PrintParsed(s: Bytes, names: set<Bytes>)
    requires Parse(s, names).Ok?
    ensures var es := Parse(s, names).value;
            ValidEntries(es) && Avoids(es, names) && Print(es) == s && 28 * |es| <= |s|
    decreases |s|
  {
    hide NextEntry, Row, PrintableEntry;
    if s != [] {
      var (e, used) := NextEntry(s, names).value;
      NextEntryPrints(s, names);
      PrintParsed(s[used..], names + {e.name});
      var rest := Parse(s[used..], names + {e.name}).value;
      assert ([e] + rest)[1..] == rest;
      assert s == s[..used] + s[used..];
    }
  }

  /** Parsing the print of a valid entry list gives back the list. */
  lemma {:induction false} ParsePrinted(es: seq<Entry>, names: set<Bytes>)
    requires ValidEntries(es) && Avoids(es, names)
    ensures Parse(Print(es), names) == Ok(es)
    decreases |es|
  {
    hide Row, NextEntry, PrintableEntry;
    if es != [] {
      var tail := Print(es[1..]);
      RowParses(es[0], tail, names);
      assert (Row(es[0]) + tail)[|Row(es[0])|..] == tail;
      ParsePrinted(es[1..], names + {es[0].name});
      assert [es[0]] + es[1..] == es;
    }
  }

  /** The parser accepts exactly the prints of valid entry lists, and each names one list. */
  lemma AcceptsExactlyPrints(payload: Bytes, es: seq<Entry>)
    ensures Parse(payload, {}) == Ok(es) <==> ValidEntries(es) && Print(es) == payload
  {
    if Parse(payload, {}) == Ok(es) { PrintParsed(payload, {}); }
    if ValidEntries(es) { ParsePrinted(es, {}); }
  }
}
