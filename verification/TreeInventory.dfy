/** How far an accepted inventory goes beyond the bound: the leaves of the last tree are not counted. */
module TreeInventory {
  import opened Wrappers
  import opened GitTree
  import opened AuthenticatedTree

  /** Whatever unfolds to no more than the bound is accepted. */
  lemma SmallIsWithinBounds(store: Store, root: Bytes)
    requires Measure(store, root, 0).Some? && Measure(store, root, 0).value <= MAX_INVENTORY
    ensures WithinBounds(store, root)
  {
  }

  ghost predicate Flat(store: Store, es: seq<Entry>) {
    forall e | e in es :: !e.mode.Directory? && Authentic(store, e)
  }

  lemma {:induction false} FlatMeasure(store: Store, es: seq<Entry>, depth: nat)
    requires Flat(store, es) && depth <= MAX_DEPTH
    ensures MeasureAll(store, es, depth) == Some(|es|) && OwnLeaves(es) == |es| && FirstDirectory(es) == None
  {
    hide Authentic;
    if es != [] {
      assert es[|es| - 1] in es;
      FlatMeasure(store, es[..|es| - 1], depth);
      LeafMeasure(store, es[|es| - 1], depth);
    }
  }

  /** A tree without subtrees is accepted however many authentic entries it has. */
  lemma FlatIsWithinBounds(store: Store, root: Bytes, es: seq<Entry>)
    requires Entries(store, root) == Ok(es) && Flat(store, es)
    ensures WithinBounds(store, root) && UnfoldsTo(store, root, |es| + 1)
  {
    hide Entries, MeasureAll;
    FlatMeasure(store, es, 0);
    MeasureUnfolds(store, root, es, 0);
    LastLeavesUnfold(store, root, es, 0);
  }

  // ---- A commit whose root tree holds n gitlinks ----

  function Digits(n: nat, digit: Byte): (r: Bytes)
    ensures |r| == n && forall i | 0 <= i < n :: r[i] == digit
  {
    if n == 0 then [] else Digits(n - 1, digit) + [digit]
  }

  const COMMIT_ID: Bytes := Digits(40, 50)
  const ROOT_ID: Bytes := Digits(40, 49)
  const LINKED_ID: Bytes := Digits(40, 48)

  const FLAT_LIMIT: nat := 64 * 64 * 64

  function FlatName(i: nat): Bytes
    requires i < FLAT_LIMIT
  {
    [64 + i / 4096, 64 + i / 64 % 64, 64 + i % 64]
  }

  function FlatEntries(n: nat): (r: seq<Entry>)
    requires n <= FLAT_LIMIT
    ensures |r| == n && forall i | 0 <= i < n :: r[i] == Entry(Gitlink, FlatName(i), LINKED_ID)
  {
    if n == 0 then [] else FlatEntries(n - 1) + [Entry(Gitlink, FlatName(n - 1), LINKED_ID)]
  }

  lemma NameTellsIndex(i: nat)
    requires i < FLAT_LIMIT
    ensures var name := FlatName(i);
            i == 4096 * (name[0] as int - 64) + 64 * (name[1] as int - 64) + (name[2] as int - 64)
  {
  }

  lemma FlatNamesDiffer(i: nat, j: nat)
    requires i < j < FLAT_LIMIT
    ensures FlatName(i) != FlatName(j)
  {
    NameTellsIndex(i);
    NameTellsIndex(j);
  }

  lemma FlatNameIsSafe(i: nat)
    requires i < FLAT_LIMIT
    ensures |FlatName(i)| == 3 && SafeName(FlatName(i)) && NUL !in FlatName(i)
  {
  }

  lemma FlatEntriesAreValid(n: nat)
    requires n <= FLAT_LIMIT
    ensures ValidEntries(FlatEntries(n))
  {
    var es := FlatEntries(n);
    IdentitiesAreApart();
    hide FlatEntries, Digits, IsRevision;
    forall i | 0 <= i < n
      ensures PrintableEntry(es[i])
    {
      FlatNameIsSafe(i);
    }
    hide FlatName, PrintableEntry;
    forall i, j | 0 <= i < j < n
      ensures es[i].name != es[j].name
    {
      FlatNamesDiffer(i, j);
    }
  }

  lemma {:induction false} FlatPrintLength(es: seq<Entry>)
    requires forall i | 0 <= i < |es| :: PrintableEntry(es[i]) && es[i].mode == Gitlink && |es[i].name| == 3
    ensures |Print(es)| == 31 * |es|
  {
    if es != [] { FlatPrintLength(es[1..]); }
  }

  function FlatHash(kind: Kind, payload: Bytes): Bytes {
    if kind.CommitObject? then COMMIT_ID else ROOT_ID
  }

  function FlatStore(n: nat): Store
    requires n <= FLAT_LIMIT
  {
    FlatEntriesAreValid(n);
    Store(map[COMMIT_ID := (CommitObject, TREE_WORD + ROOT_ID), ROOT_ID := (TreeObject, Print(FlatEntries(n)))],
          FlatHash)
  }

  lemma IdentitiesAreApart()
    ensures IsRevision(COMMIT_ID) && IsRevision(ROOT_ID) && IsRevision(LINKED_ID) && COMMIT_ID != ROOT_ID
  {
    assert COMMIT_ID[0] == 50 && ROOT_ID[0] == 49;
  }

  lemma RootTreeIsRead(id: Bytes)
    requires IsRevision(id)
    ensures RootTree(TREE_WORD + id) == Some(id)
  {
    var line := TREE_WORD + id;
    assert line[..5] == TREE_WORD && line[5..] == id;
    assert NEWLINE !in TREE_WORD && NEWLINE !in id;
  }

  lemma FlatCommit(n: nat)
    requires n <= FLAT_LIMIT
    ensures CommitTree(FlatStore(n), COMMIT_ID) == Ok(ROOT_ID)
  {
    hide FlatEntries, Print, RootTree, IsRevision, Digits;
    IdentitiesAreApart();
    RootTreeIsRead(ROOT_ID);
  }

  lemma FlatEntriesAreRead(n: nat)
    requires n <= FLAT_LIMIT
    ensures Entries(FlatStore(n), ROOT_ID) == Ok(FlatEntries(n))
  {
    hide FlatEntries, Print, IsRevision, Digits, Parse, FlatName;
    IdentitiesAreApart();
    FlatEntriesAreValid(n);
    FlatEntriesAreShort(n);
    FlatPrintLength(FlatEntries(n));
    ParsePrinted(FlatEntries(n), {});
  }

  lemma FlatEntriesAreShort(n: nat)
    requires n <= FLAT_LIMIT
    ensures forall i | 0 <= i < n :: FlatEntries(n)[i].mode == Gitlink && |FlatEntries(n)[i].name| == 3
  {
  }

  /** THE BOUND IS PASSED.  A commit with n gitlinks in its root tree is accepted, also for n = 262144. */
  lemma FlatCommitIsAccepted(n: nat)
    requires n <= FLAT_LIMIT
    ensures CommitTree(FlatStore(n), COMMIT_ID) == Ok(ROOT_ID)
    ensures WithinBounds(FlatStore(n), ROOT_ID) && UnfoldsTo(FlatStore(n), ROOT_ID, n + 1)
  {
    hide *;
    FlatCommit(n);
    FlatEntriesAreRead(n);
    FlatEntriesAreGitlinks(n);
    GitlinksAreFlat(FlatStore(n), FlatEntries(n));
    FlatIsWithinBounds(FlatStore(n), ROOT_ID, FlatEntries(n));
  }

  lemma FlatEntriesAreGitlinks(n: nat)
    requires n <= FLAT_LIMIT
    ensures |FlatEntries(n)| == n && forall i | 0 <= i < |FlatEntries(n)| :: FlatEntries(n)[i].mode == Gitlink
  {
  }

  lemma GitlinksAreFlat(store: Store, es: seq<Entry>)
    requires forall i | 0 <= i < |es| :: es[i].mode == Gitlink
    ensures Flat(store, es)
  {
  }
}
