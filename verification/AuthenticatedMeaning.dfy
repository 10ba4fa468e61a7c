/**
  What tree objects and bounds mean, in the texts and numbers Git itself uses: the spelling of a
  mode, the shape of a row, of an identity and of a commit's first line, and the three bounds.
 */
module AuthenticatedMeaning {
  import opened Wrappers
  import opened GitTree
  import opened AuthenticatedTree

  function Code(c: char): Byte {
    if c as int < 128 then c as int else 0
  }

  function Ascii(text: string): (r: Bytes)
    ensures |r| == |text| && forall i | 0 <= i < |text| :: r[i] == Code(text[i])
  {
    if text == "" then [] else [Code(text[0])] + Ascii(text[1..])
  }

  // ---- One row ----

  /** `end` is the first NUL and `gap` the first space before it; twenty bytes follow. */
  ghost predicate RowAt(s: Bytes, gap: nat, end: nat) {
    && gap < end && end + 21 <= |s|
    && s[gap] == Code(' ') && Code(' ') !in s[..gap]
    && s[end] == 0 && 0 !in s[..end]
  }

  ghost predicate IsModeText(text: Bytes) {
    || text == Ascii("40000") || text == Ascii("100644") || text == Ascii("100755")
    || text == Ascii("120000") || text == Ascii("160000")
  }

  ghost predicate IsAllowedName(name: Bytes) {
    && name != [] && name != Ascii(".") && name != Ascii("..") && name != Ascii(".git")
    && Code('/') !in name
  }

  /** The mode is what the text before the first space spells. */
  ghost predicate Spells(text: Bytes, mode: Mode) {
    && (mode.Directory? <==> text == Ascii("40000"))
    && (mode.Regular? <==> text == Ascii("100644"))
    && (mode.Executable? <==> text == Ascii("100755"))
    && (mode.Symlink? <==> text == Ascii("120000"))
    && (mode.Gitlink? <==> text == Ascii("160000"))
  }

  const HEX_DIGITS: string := "0123456789abcdef"

  /** Two lowercase hexadecimal digits a byte. */
  ghost predicate IsHexOf(text: Bytes, raw: Bytes) {
    && |text| == 2 * |raw|
    && forall i | 0 <= i < |raw| ::
         text[2 * i] == Code(HEX_DIGITS[raw[i] / 16]) && text[2 * i + 1] == Code(HEX_DIGITS[raw[i] % 16])
  }

  lemma TextBytes(text: string, bytes: Bytes)
    requires |text| == |bytes| && forall i | 0 <= i < |text| :: Code(text[i]) == bytes[i]
    ensures Ascii(text) == bytes
  {
    hide Ascii;
  }

  lemma ModeTexts()
    ensures ModeBytes(Directory) == Ascii("40000") && ModeBytes(Regular) == Ascii("100644")
    ensures ModeBytes(Executable) == Ascii("100755") && ModeBytes(Symlink) == Ascii("120000")
    ensures ModeBytes(Gitlink) == Ascii("160000")
  {
    hide Ascii;
    TextBytes("40000", ModeBytes(Directory));
    TextBytes("100644", ModeBytes(Regular));
    TextBytes("100755", ModeBytes(Executable));
    TextBytes("120000", ModeBytes(Symlink));
    TextBytes("160000", ModeBytes(Gitlink));
  }

  lemma ModeTextsDiffer()
    ensures Ascii("40000") != Ascii("100644") && Ascii("40000") != Ascii("100755") && Ascii("40000") != Ascii("120000")
    ensures Ascii("40000") != Ascii("160000") && Ascii("100644") != Ascii("100755")
    ensures Ascii("100644") != Ascii("120000") && Ascii("100644") != Ascii("160000")
    ensures Ascii("100755") != Ascii("120000") && Ascii("100755") != Ascii("160000")
    ensures Ascii("120000") != Ascii("160000")
  {
    assert |Ascii("40000")| == 5 && |Ascii("160000")| == 6;
    assert Ascii("100644")[3] == Code('6') && Ascii("100755")[3] == Code('7');
    assert Ascii("120000")[1] == Code('2') && Ascii("160000")[1] == Code('6') && Ascii("100644")[1] == Code('0')
        && Ascii("100755")[1] == Code('0');
  }

  lemma ModeSpells(text: Bytes)
    ensures ParseMode(text).Some? <==> IsModeText(text)
    ensures ParseMode(text).Some? ==> Spells(text, ParseMode(text).value)
  {
    hide ModeBytes, Ascii;
    ModeTexts();
    ModeTextsDiffer();
  }

  lemma NameIsAllowed(name: Bytes)
    ensures SafeName(name) <==> IsAllowedName(name)
  {
    assert Ascii(".") == [DOT] && Ascii("..") == [DOT, DOT];
    assert Ascii(".git") == [DOT, 103, 105, 116];
  }

  lemma {:induction false} HexSpells(raw: Bytes)
    ensures IsHexOf(Hex(raw), raw)
  {
    hide IsHexOf, Hex, HexDigit;
    NoHex();
    if raw != [] {
      HexSpells(raw[1..]);
      DigitSpells(raw[0] / 16);
      DigitSpells(raw[0] % 16);
      HexFirst(raw);
      OneMoreByte(raw, HexDigit(raw[0] / 16), HexDigit(raw[0] % 16), Hex(raw[1..]));
    }
  }

  lemma NoHex()
    ensures IsHexOf(Hex([]), [])
  {
  }

  lemma HexFirst(raw: Bytes)
    requires raw != []
    ensures Hex(raw) == [HexDigit(raw[0] / 16), HexDigit(raw[0] % 16)] + Hex(raw[1..])
  {
  }

  lemma OneMoreByte(raw: Bytes, high: Byte, low: Byte, text: Bytes)
    requires raw != [] && IsHexOf(text, raw[1..])
    requires high == Code(HEX_DIGITS[raw[0] / 16]) && low == Code(HEX_DIGITS[raw[0] % 16])
    ensures IsHexOf([high, low] + text, raw)
  {
    hide Code;
    var all := [high, low] + text;
    forall i | 0 <= i < |raw|
      ensures all[2 * i] == Code(HEX_DIGITS[raw[i] / 16]) && all[2 * i + 1] == Code(HEX_DIGITS[raw[i] % 16])
    {
      if 0 < i {
        assert raw[i] == raw[1..][i - 1];
        assert all[2 * i] == text[2 * (i - 1)] && all[2 * i + 1] == text[2 * (i - 1) + 1];
      }
    }
  }

  lemma DigitSpells(n: int)
    requires 0 <= n < 16
    ensures HexDigit(n) == Code(HEX_DIGITS[n])
  {
  }

  lemma RowIndices(s: Bytes, gap: nat, end: nat)
    requires RowAt(s, gap, end)
    ensures IndexOf(s, NUL) == Some(end) && IndexOf(s[..end], SPACE) == Some(gap)
    ensures s[..end][..gap] == s[..gap]
  {
    assert s[..end][..gap] == s[..gap];
    FirstIs(s, NUL, end);
    FirstIs(s[..end], SPACE, gap);
  }

  /** A complete row is accepted exactly when its mode is one of five texts and its name is allowed and new. */
  lemma RowIsAcceptedExactlyWhen(s: Bytes, names: set<Bytes>, gap: nat, end: nat)
    requires RowAt(s, gap, end)
    ensures var name := s[gap + 1..end];
            NextEntry(s, names).Ok? <==> IsModeText(s[..gap]) && IsAllowedName(name) && name !in names
    ensures NextEntry(s, names).Err? ==> NextEntry(s, names).error == Unsafe
    ensures NextEntry(s, names).Ok? ==>
              var (e, used) := NextEntry(s, names).value;
              && used == end + 21 && e.name == s[gap + 1..end] && Spells(s[..gap], e.mode)
              && IsHexOf(e.id, s[end + 1..end + 21])
  {
    hide IndexOf, ParseMode, SafeName, Hex, IsModeText, IsAllowedName, Spells, IsHexOf;
    RowIndices(s, gap, end);
    ModeSpells(s[..gap]);
    NameIsAllowed(s[gap + 1..end]);
    HexSpells(s[end + 1..end + 21]);
  }

  lemma FirstIs(s: Bytes, b: Byte, i: nat)
    requires i < |s| && s[i] == b && b !in s[..i]
    ensures IndexOf(s, b) == Some(i)
  {
    IndexAfter(s[..i], b, s[i + 1..]);
    assert s == s[..i] + [b] + s[i + 1..];
  }

  /** A row without its NUL or its twenty identity bytes is truncated, one without a space is unsafe. */
  lemma BrokenRowIsRefused(s: Bytes, names: set<Bytes>)
    ensures 0 !in s ==> NextEntry(s, names) == Err(Truncated)
    ensures forall end | 0 <= end < |s| && s[end] == 0 && 0 !in s[..end] ::
              if |s| < end + 21 then NextEntry(s, names) == Err(Truncated)
              else Code(' ') !in s[..end] ==> NextEntry(s, names) == Err(Unsafe)
  {
    hide ParseMode, SafeName, Hex, IndexOf;
    forall end | 0 <= end < |s| && s[end] == 0 && 0 !in s[..end]
      ensures if |s| < end + 21 then NextEntry(s, names) == Err(Truncated)
              else Code(' ') !in s[..end] ==> NextEntry(s, names) == Err(Unsafe)
    {
      FirstIs(s, 0, end);
    }
  }

  // ---- Whole trees ----

  function TextOf(mode: Mode): string {
    match mode
    case Directory => "40000"
    case Regular => "100644"
    case Executable => "100755"
    case Symlink => "120000"
    case Gitlink => "160000"
  }

  /** A tree object as Git writes it: mode, space, name, NUL and twenty identity bytes a row. */
  ghost predicate IsTreeOf(payload: Bytes, es: seq<Entry>)
    decreases |es|
  {
    if es == [] then payload == []
    else exists raw: Bytes, rest: Bytes ::
           && |raw| == 20 && IsHexOf(es[0].id, raw) && IsTreeOf(rest, es[1..])
           && payload == Ascii(TextOf(es[0].mode)) + Ascii(" ") + es[0].name + [0] + raw + rest
  }

  lemma RowIsText(e: Entry) returns (raw: Bytes)
    requires PrintableEntry(e)
    ensures |raw| == 20 && IsHexOf(e.id, raw)
    ensures Row(e) == Ascii(TextOf(e.mode)) + Ascii(" ") + e.name + [0] + raw
  {
    hide Ascii, ModeBytes, Hex, Unhex, SafeName, IsHexOf;
    raw := Unhex(e.id);
    ModeTexts();
    HexUnhex(e.id);
    HexSpells(raw);
    SpaceText();
  }

  lemma SpaceText()
    ensures Ascii(" ") == [SPACE]
  {
  }

  /** Every accepted payload is Git's writing of the entries it parses to. */
  lemma {:induction false} AcceptedIsTree(payload: Bytes, es: seq<Entry>)
    requires ValidEntries(es) && Print(es) == payload
    ensures IsTreeOf(payload, es)
    decreases |es|
  {
    hide Row, PrintableEntry, IsHexOf, Ascii;
    if es != [] {
      var rest := Print(es[1..]);
      var raw := RowIsText(es[0]);
      AcceptedIsTree(rest, es[1..]);
      assert payload == Ascii(TextOf(es[0].mode)) + Ascii(" ") + es[0].name + [0] + raw + rest;
    }
  }

  lemma ReadTreeIsWritten(store: Store, tree: Bytes, es: seq<Entry>)
    requires Entries(store, tree) == Ok(es)
    ensures RawObject(store, tree, TreeObject).Ok? && IsTreeOf(RawObject(store, tree, TreeObject).value, es)
  {
    hide Parse, RawObject, IsTreeOf;
    var payload := RawObject(store, tree, TreeObject).value;
    AcceptsExactlyPrints(payload, es);
    AcceptedIsTree(payload, es);
  }

  // ---- Paths of the map ----

  /** The path is `prefix`, empty or up to a slash, and an entry of an authentic tree, with its mode and identity. */
  ghost predicate IsEntryOf(store: Store, path: Bytes, leaf: Leaf, prefix: Bytes, tree: Bytes, es: seq<Entry>,
      e: Entry) {
    && Entries(store, tree) == Ok(es) && e in es && leaf == Leaf(e.mode, e.id) && !e.mode.Directory?
    && path == prefix + e.name && (prefix == [] || prefix[|prefix| - 1] == Code('/'))
  }

  lemma {:induction false} PathHasEntry(store: Store, tree: Bytes, path: Bytes)
      returns (prefix: Bytes, at: Bytes, es: seq<Entry>, e: Entry)
    requires Lookup(store, tree, path).Some?
    ensures IsEntryOf(store, path, Lookup(store, tree, path).value, prefix, at, es, e)
    decreases |path|
  {
    hide Entries, IndexOf, Find, IsEntryOf;
    es := Entries(store, tree).value;
    match IndexOf(path, SLASH)
    case None =>
      e := Find(es, path).value;
      prefix, at := [], tree;
      LastComponent(store, path, tree, es, e);
    case Some(i) =>
      var below, leaf := Find(es, path[..i]).value.id, Lookup(store, tree, path).value;
      prefix, at, es, e := PathHasEntry(store, below, path[i + 1..]);
      LongerPath(store, path[..i + 1], path[i + 1..], leaf, prefix, at, es, e);
      assert path[..i + 1] + path[i + 1..] == path;
      prefix := path[..i + 1] + prefix;
  }

  lemma LastComponent(store: Store, path: Bytes, tree: Bytes, es: seq<Entry>, e: Entry)
    requires Entries(store, tree) == Ok(es) && e in es && e.name == path && !e.mode.Directory?
    ensures IsEntryOf(store, path, Leaf(e.mode, e.id), [], tree, es, e)
  {
    hide Entries;
    assert [] + e.name == path;
  }

  lemma LongerPath(store: Store, first: Bytes, rest: Bytes, leaf: Leaf, prefix: Bytes, tree: Bytes, es: seq<Entry>,
      e: Entry)
    requires first != [] && first[|first| - 1] == SLASH && IsEntryOf(store, rest, leaf, prefix, tree, es, e)
    ensures IsEntryOf(store, first + rest, leaf, first + prefix, tree, es, e)
  {
    hide Entries;
    assert first + (prefix + e.name) == first + prefix + e.name;
  }

  /**
    Every path of a faithful map ends in a row of an authentic tree, and its blob was authenticated
    unless that row spells 160000.
   */
  lemma ExemptExactlyWhenGitlink(store: Store, root: Bytes, files: map<Bytes, Leaf>, path: Bytes)
      returns (prefix: Bytes, tree: Bytes, es: seq<Entry>, e: Entry)
    requires Faithful(store, root, files) && path in files
    ensures IsEntryOf(store, path, files[path], prefix, tree, es, e)
    ensures RawObject(store, tree, TreeObject).Ok? && IsTreeOf(RawObject(store, tree, TreeObject).value, es)
    ensures TextOf(files[path].mode) == "160000" || RawObject(store, files[path].id, BlobObject).Ok?
  {
    hide IsTreeOf, IsEntryOf, RawObject, Lookup;
    prefix, tree, es, e := PathHasEntry(store, root, path);
    EntryWasRead(store, path, files[path], prefix, tree, es, e);
    ReadTreeIsWritten(store, tree, es);
  }

  lemma EntryWasRead(store: Store, path: Bytes, leaf: Leaf, prefix: Bytes, tree: Bytes, es: seq<Entry>, e: Entry)
    requires IsEntryOf(store, path, leaf, prefix, tree, es, e)
    ensures Entries(store, tree) == Ok(es)
  {
  }

  /** An accepted row's entry needs no authentic blob exactly when the row spells 160000. */
  lemma NeedsNoBlobExactlyWhen(store: Store, s: Bytes, names: set<Bytes>, gap: nat, end: nat)
    requires RowAt(s, gap, end) && NextEntry(s, names).Ok?
    ensures var e := NextEntry(s, names).value.0;
            Authentic(store, e) <==> s[..gap] == Ascii("160000") || RawObject(store, e.id, BlobObject).Ok?
  {
    hide Ascii, RowAt, NextEntry, RawObject, IsHexOf;
    RowIsAcceptedExactlyWhen(s, names, gap, end);
  }

  // ---- Identities and the commit's first line ----

  lemma HexDigitMeans(b: Byte)
    ensures IsHexDigit(b) <==> b in Ascii(HEX_DIGITS)
  {
    hide Ascii;
    if IsHexDigit(b) {
      DigitSpells(HexValue(b));
      assert Ascii(HEX_DIGITS)[HexValue(b)] == b;
    } else if i :| 0 <= i < 16 && Ascii(HEX_DIGITS)[i] == b {
      DigitSpells(i);
    }
  }

  /** A revision is forty lowercase hexadecimal digits. */
  lemma RevisionMeans(s: Bytes)
    ensures IsRevision(s) <==> |s| == 40 && forall b | b in s :: b in Ascii(HEX_DIGITS)
  {
    hide Ascii, IsHexDigit;
    forall b: Byte
      ensures IsHexDigit(b) <==> b in Ascii(HEX_DIGITS)
    {
      HexDigitMeans(b);
    }
    assert forall i | 0 <= i < |s| :: s[i] in s;
  }

  /** The root tree is named by a first line that is exactly the word, a space and a revision. */
  lemma RootTreeMeans(commit: Bytes, id: Bytes)
    ensures RootTree(commit) == Some(id) <==>
            IsRevision(id) && (commit == Ascii("tree ") + id || Ascii("tree ") + id + Ascii("\n") <= commit)
  {
    hide RootTree, Ascii, IsRevision;
    WordTexts();
    if IsRevision(id) && (commit == TREE_WORD + id || TREE_WORD + id + [NEWLINE] <= commit) {
      FirstLineNames(commit, id);
    }
    if RootTree(commit) == Some(id) { NamedByFirstLine(commit, id); }
  }

  lemma FirstLineNames(commit: Bytes, id: Bytes)
    requires IsRevision(id) && (commit == TREE_WORD + id || TREE_WORD + id + [NEWLINE] <= commit)
    ensures RootTree(commit) == Some(id)
  {
    hide IndexOf, IsRevision;
    var start := TREE_WORD + id;
    RevisionHasNoNewline(id);
    assert NEWLINE !in start && |start| == 45 && start[..5] == TREE_WORD && start[5..] == id;
    if commit != start {
      assert commit[..45] == start && commit[45] == NEWLINE;
      FirstIs(commit, NEWLINE, 45);
    }
  }

  lemma NamedByFirstLine(commit: Bytes, id: Bytes)
    requires RootTree(commit) == Some(id)
    ensures IsRevision(id) && (commit == TREE_WORD + id || TREE_WORD + id + [NEWLINE] <= commit)
  {
    hide IndexOf, IsHexDigit;
    match IndexOf(commit, NEWLINE)
    case None => assert commit == commit[..5] + commit[5..];
    case Some(i) =>
      var line := commit[..i];
      assert line == line[..5] + line[5..];
      assert commit[..i + 1] == line + [NEWLINE];
  }

  lemma WordTexts()
    ensures Ascii("tree ") == TREE_WORD && Ascii("\n") == [NEWLINE]
  {
  }

  lemma RevisionHasNoNewline(id: Bytes)
    requires IsRevision(id)
    ensures |id| == 40 && NEWLINE !in id
  {
  }

  // ---- The three bounds ----

  lemma ReadableExactlyWhen(store: Store, id: Bytes, kind: Kind)
    ensures RawObject(store, id, kind).Ok? <==>
            && IsRevision(id) && id in store.objects && store.objects[id].0 == kind
            && |store.objects[id].1| <= 33554432 && store.hash(kind, store.objects[id].1) == id
  {
  }

  lemma BoundInNumbers(store: Store, root: Bytes)
    ensures WithinBounds(store, root) <==>
            Measure(store, root, 0).Some? && Measure(store, root, 0).value <= 100000 + LastLeaves(store, root, 0)
  {
  }

  /** Trees inside each other, each the only entry of the one before it. */
  ghost predicate Nested(store: Store, ids: seq<Bytes>, name: Bytes) {
    && ids != [] && Entries(store, ids[|ids| - 1]) == Ok([])
    && forall i | 0 <= i < |ids| - 1 :: Entries(store, ids[i]) == Ok([Entry(Directory, name, ids[i + 1])])
  }

  lemma {:induction false} NestedMeasure(store: Store, ids: seq<Bytes>, name: Bytes, i: nat)
    requires Nested(store, ids, name) && i < |ids|
    ensures Measure(store, ids[i], i) == if |ids| <= 129 then Some(|ids| - i) else None
    decreases |ids| - i
  {
    hide Entries;
    if i < |ids| - 1 {
      NestedMeasure(store, ids, name, i + 1);
      if i <= 128 {
        var es := [Entry(Directory, name, ids[i + 1])];
        assert Entries(store, ids[i]) == Ok(es) && es[..0] == [];
        MeasureUnfolds(store, ids[i], es, i);
        assert MeasureAll(store, [], i) == Some(0);
        assert MeasureAll(store, es, i) == Sum(MeasureAll(store, es[..0], i), MeasureEntry(store, es[0], i));
      }
    }
  }

  /** Trees nested in each other are accepted exactly down to the one below 128 slashes. */
  lemma NestedIsWithinBoundsExactlyWhen(store: Store, ids: seq<Bytes>, name: Bytes)
    requires Nested(store, ids, name)
    ensures WithinBounds(store, ids[0]) <==> |ids| <= 129
  {
    NestedMeasure(store, ids, name, 0);
    hide Measure, LastLeaves, Entries;
  }
}
