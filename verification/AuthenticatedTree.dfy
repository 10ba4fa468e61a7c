/**
  The authenticated traversal of a commit's tree.  The object store and the hash are arbitrary:
  objects may be missing, mistyped, unauthentic, shared or even cyclic.
 */
module AuthenticatedTree {
  import opened Wrappers
  import opened Collections
  import opened GitTree

  const MAX_OBJECT: nat := 32 * 1024 * 1024
  const MAX_INVENTORY: nat := 100000
  const MAX_DEPTH: nat := 128

  datatype Kind = CommitObject | TreeObject | BlobObject

  datatype Store = Store(objects: map<Bytes, (Kind, Bytes)>, hash: (Kind, Bytes) -> Bytes)

  datatype Failure =
    | BadRevision | Unavailable | WrongType | NotAuthentic | NoRootTree | BadTree(reason: TreeError) | TooLarge

  datatype Leaf = Leaf(mode: Mode, id: Bytes)

  /** The object's bytes, only if they hash to the identity they were asked for by. */
  function RawObject(store: Store, id: Bytes, kind: Kind): (r: Result<Bytes, Failure>)
    ensures r.Ok? ==> store.hash(kind, r.value) == id
  {
    if !IsRevision(id) then Err(BadRevision)
    else if id !in store.objects || |store.objects[id].1| > MAX_OBJECT then Err(Unavailable)
    else if store.objects[id].0 != kind then Err(WrongType)
    else if store.hash(kind, store.objects[id].1) != id then Err(NotAuthentic)
    else Ok(store.objects[id].1)
  }

  function Entries(store: Store, id: Bytes): (r: Result<seq<Entry>, Failure>)
    ensures r.Ok? ==> ValidEntries(r.value)
  {
    match RawObject(store, id, TreeObject)
    case Err(e) => Err(e)
    case Ok(payload) =>
      match Parse(payload, {})
      case Err(e) => Err(BadTree(e))
      case Ok(es) => PrintParsed(payload, {}); Ok(es)
  }

  // ---- Reference: resolving one path, and measuring the unfolded tree ----

  function Find(es: seq<Entry>, name: Bytes): (r: Option<Entry>)
    ensures r.Some? ==> r.value in es && r.value.name == name
    ensures r.None? ==> forall e | e in es :: e.name != name
  {
    if es == [] then None
    else if es[0].name == name then Some(es[0])
    else Find(es[1..], name)
  }

  /** The leaf a path names below a tree, found one component at a time. */
  function Lookup(store: Store, tree: Bytes, path: Bytes): Option<Leaf>
    decreases |path|
  {
    match Entries(store, tree)
    case Err(_) => None
    case Ok(es) =>
      match IndexOf(path, SLASH)
      case None =>
        (match Find(es, path)
         case None => None
         case Some(e) => if e.mode.Directory? then None else Some(Leaf(e.mode, e.id)))
      case Some(i) =>
        match Find(es, path[..i])
        case None => None
        case Some(e) => if e.mode.Directory? then Lookup(store, e.id, path[i + 1..]) else None
  }

  predicate Authentic(store: Store, e: Entry) {
    e.mode.Gitlink? || RawObject(store, e.id, BlobObject).Ok?
  }

  /** Trees plus leaves of the unfolded tree; None when an object is bad or the depth bound is passed. */
  function Measure(store: Store, tree: Bytes, depth: nat): (r: Option<nat>)
    ensures r.Some? ==> 1 <= r.value
    decreases MAX_DEPTH + 1 - depth, 1, 0
  {
    if depth > MAX_DEPTH then None
    else match Entries(store, tree)
      case Err(_) => None
      case Ok(es) =>
        match MeasureAll(store, es, depth)
        case None => None
        case Some(n) => Some(n + 1)
  }

  function MeasureAll(store: Store, es: seq<Entry>, depth: nat): Option<nat>
    requires depth <= MAX_DEPTH
    decreases MAX_DEPTH + 1 - depth, 0, |es|, 1
  {
    if es == [] then Some(0)
    else Sum(MeasureAll(store, es[..|es| - 1], depth), MeasureEntry(store, es[|es| - 1], depth))
  }

  function MeasureEntry(store: Store, e: Entry, depth: nat): Option<nat>
    requires depth <= MAX_DEPTH
    decreases MAX_DEPTH + 1 - depth, 0, 0, 0
  {
    if e.mode.Directory? then Measure(store, e.id, depth + 1)
    else if Authentic(store, e) then Some(1) else None
  }

  function Plus(n: nat, r: Option<nat>): Option<nat> {
    match r case None => None case Some(m) => Some(n + m)
  }

  function Sum(a: Option<nat>, b: Option<nat>): Option<nat> {
    match (a, b) case (Some(m), Some(n)) => Some(m + n) case _ => None
  }

  // ---- Reference: the tree that is expanded last ----

  function OwnLeaves(es: seq<Entry>): nat {
    if es == [] then 0
    else OwnLeaves(es[..|es| - 1]) + (if es[|es| - 1].mode.Directory? then 0 else 1)
  }

  function FirstDirectory(es: seq<Entry>): Option<Entry> {
    if es == [] then None
    else
      match FirstDirectory(es[..|es| - 1])
      case Some(e) => Some(e)
      case None => if es[|es| - 1].mode.Directory? then Some(es[|es| - 1]) else None
  }

  /** The leaves of the tree at the end of the chain of first directories; the work list expands it last. */
  function LastLeaves(store: Store, tree: Bytes, depth: nat): nat
    decreases MAX_DEPTH + 1 - depth
  {
    if depth > MAX_DEPTH then 0
    else match Entries(store, tree)
      case Err(_) => 0
      case Ok(es) =>
        match FirstDirectory(es)
        case None => OwnLeaves(es)
        case Some(e) => LastLeaves(store, e.id, depth + 1)
  }

  /**
    The unfolded tree is readable and within the depth bound, and its inventory without the leaves
    of the tree expanded last is within the size bound.
   */
  ghost predicate WithinBounds(store: Store, root: Bytes) {
    Measure(store, root, 0).Some? && Measure(store, root, 0).value <= MAX_INVENTORY + LastLeaves(store, root, 0)
  }

  // ---- What one tree contributes ----

  function Leaves(prefix: Bytes, es: seq<Entry>): map<Bytes, Leaf> {
    if es == [] then map[]
    else
      var last := es[|es| - 1];
      var before := Leaves(prefix, es[..|es| - 1]);
      if last.mode.Directory? then before else before[prefix + last.name := Leaf(last.mode, last.id)]
  }

  lemma NextCollected(prefix: Bytes, es: seq<Entry>, i: nat)
    ensures Leaves(prefix, []) == map[] && Children(prefix, []) == []
    ensures i < |es| && es[i].mode.Directory? ==>
              && Leaves(prefix, es[..i + 1]) == Leaves(prefix, es[..i])
              && Children(prefix, es[..i + 1])
                 == Children(prefix, es[..i]) + [Pending(prefix + es[i].name + [SLASH], es[i].id)]
    ensures i < |es| && !es[i].mode.Directory? ==>
              && Leaves(prefix, es[..i + 1])
                 == Leaves(prefix, es[..i])[prefix + es[i].name := Leaf(es[i].mode, es[i].id)]
              && Children(prefix, es[..i + 1]) == Children(prefix, es[..i])
  {
    if i < |es| { assert es[..i + 1][..i] == es[..i]; }
  }

  datatype Pending = Pending(prefix: Bytes, id: Bytes)

  function Children(prefix: Bytes, es: seq<Entry>): seq<Pending> {
    if es == [] then []
    else
      var last := es[|es| - 1];
      var before := Children(prefix, es[..|es| - 1]);
      if last.mode.Directory? then before + [Pending(prefix + last.name + [SLASH], last.id)] else before
  }

  function Slashes(s: Bytes): nat {
    if s == [] then 0 else Slashes(s[..|s| - 1]) + (if s[|s| - 1] == SLASH then 1 else 0)
  }

  // ---- Facts about one tree ----

  lemma {:induction false} FindFinds(es: seq<Entry>, e: Entry)
    requires ValidEntries(es) && e in es
    ensures Find(es, e.name) == Some(e)
  {
    if es[0] != e {
      var i :| 0 < i < |es| && es[i] == e;
      assert es[1..][i - 1] == e;
      FindFinds(es[1..], e);
    }
  }

  lemma ValidPrefix(es: seq<Entry>)
    requires ValidEntries(es) && es != []
    ensures ValidEntries(es[..|es| - 1])
    ensures forall e | e in es[..|es| - 1] :: e in es && e.name != es[|es| - 1].name
    ensures forall e | e in es :: e in es[..|es| - 1] || e == es[|es| - 1]
  {
    assert es == es[..|es| - 1] + [es[|es| - 1]];
  }

  lemma SamePrefix(prefix: Bytes, a: Bytes, b: Bytes)
    ensures prefix + a == prefix + b <==> a == b
    ensures (prefix + a)[|prefix|..] == a
  {
    assert (prefix + a)[|prefix|..] == a && (prefix + b)[|prefix|..] == b;
  }

  ghost predicate IsLeafOf(prefix: Bytes, es: seq<Entry>, path: Bytes, leaf: Leaf) {
    exists e :: e in es && !e.mode.Directory? && path == prefix + e.name && leaf == Leaf(e.mode, e.id)
  }

  lemma {:induction false} LeavesAre(prefix: Bytes, es: seq<Entry>)
    requires ValidEntries(es)
    ensures forall p | p in Leaves(prefix, es) :: IsLeafOf(prefix, es, p, Leaves(prefix, es)[p])
    ensures forall e | e in es && !e.mode.Directory? :: prefix + e.name in Leaves(prefix, es)
  {
    if es != [] {
      ValidPrefix(es);
      LeavesAre(prefix, es[..|es| - 1]);
    }
  }

  ghost predicate IsChildOf(prefix: Bytes, es: seq<Entry>, p: Pending) {
    exists e :: e in es && e.mode.Directory? && p == Pending(prefix + e.name + [SLASH], e.id)
  }

  lemma {:induction false} ChildrenAre(prefix: Bytes, es: seq<Entry>)
    requires ValidEntries(es)
    ensures forall p | p in Children(prefix, es) :: IsChildOf(prefix, es, p)
    ensures forall e | e in es && e.mode.Directory? :: Pending(prefix + e.name + [SLASH], e.id) in Children(prefix, es)
  {
    if es != [] {
      ValidPrefix(es);
      ChildrenAre(prefix, es[..|es| - 1]);
    }
  }

  lemma SlashesBelow(prefix: Bytes, name: Bytes)
    requires SLASH !in name
    ensures Slashes(prefix + name + [SLASH]) == Slashes(prefix) + 1
  {
    var s := prefix + name + [SLASH];
    assert s[..|s| - 1] == prefix + name;
    SlashesPlain(prefix, name);
  }

  lemma {:induction false} SlashesPlain(prefix: Bytes, name: Bytes)
    requires SLASH !in name
    ensures Slashes(prefix + name) == Slashes(prefix)
    decreases |name|
  {
    if name == [] {
      assert prefix + name == prefix;
    } else {
      var s := prefix + name;
      assert s[..|s| - 1] == prefix + name[..|name| - 1];
      assert s[|s| - 1] == name[|name| - 1];
      SlashesPlain(prefix, name[..|name| - 1]);
    }
  }

  // ---- The traversal invariant ----

  /** What the pending trees still unfold to. */
  function Remaining(store: Store, pending: seq<Pending>): (r: Option<nat>)
    ensures r.Some? ==> |pending| <= r.value
  {
    if pending == [] then Some(0)
    else
      var last := pending[|pending| - 1];
      Sum(Remaining(store, pending[..|pending| - 1]), Measure(store, last.id, Slashes(last.prefix)))
  }

  lemma {:induction false} RemainingConcat(store: Store, a: seq<Pending>, b: seq<Pending>)
    ensures Remaining(store, a + b) == Sum(Remaining(store, a), Remaining(store, b))
    decreases |b|
  {
    hide Measure, Slashes;
    if b == [] {
      assert a + b == a;
    } else {
      assert (a + b)[..|a + b| - 1] == a + b[..|b| - 1];
      RemainingConcat(store, a, b[..|b| - 1]);
    }
  }

  lemma OneMoreLeaf(prefix: Bytes, es: seq<Entry>)
    requires ValidEntries(es) && es != [] && !es[|es| - 1].mode.Directory?
    ensures |Leaves(prefix, es)| == |Leaves(prefix, es[..|es| - 1])| + 1
    ensures Children(prefix, es) == Children(prefix, es[..|es| - 1])
  {
    var init, last := es[..|es| - 1], es[|es| - 1];
    ValidPrefix(es);
    LeavesAre(prefix, init);
    forall e | e in init
      ensures prefix + e.name != prefix + last.name
    {
      SamePrefix(prefix, e.name, last.name);
    }
  }

  lemma ChildrenStep(prefix: Bytes, es: seq<Entry>)
    requires es != [] && es[|es| - 1].mode.Directory?
    ensures Leaves(prefix, es) == Leaves(prefix, es[..|es| - 1])
    ensures var last := es[|es| - 1];
            Children(prefix, es) == Children(prefix, es[..|es| - 1]) + [Pending(prefix + last.name + [SLASH], last.id)]
  {
  }

  lemma DirectoryMeasure(store: Store, e: Entry, depth: nat)
    requires e.mode.Directory? && depth <= MAX_DEPTH
    ensures MeasureEntry(store, e, depth) == Measure(store, e.id, depth + 1)
  {
  }

  lemma OneMoreChild(store: Store, prefix: Bytes, es: seq<Entry>)
    requires ValidEntries(es) && es != [] && es[|es| - 1].mode.Directory? && Slashes(prefix) <= MAX_DEPTH
    ensures Leaves(prefix, es) == Leaves(prefix, es[..|es| - 1])
    ensures Remaining(store, Children(prefix, es))
         == Sum(Remaining(store, Children(prefix, es[..|es| - 1])), MeasureEntry(store, es[|es| - 1], Slashes(prefix)))
  {
    var init, last := es[..|es| - 1], es[|es| - 1];
    SlashesBelow(prefix, last.name);
    var child := Pending(prefix + last.name + [SLASH], last.id);
    ChildrenStep(prefix, es);
    DirectoryMeasure(store, last, Slashes(prefix));
    hide *;
    RemainingSnoc(store, Children(prefix, es), Children(prefix, init), child, Slashes(prefix) + 1,
        MeasureEntry(store, last, Slashes(prefix)));
  }

  lemma RemainingSnoc(store: Store, all: seq<Pending>, before: seq<Pending>, child: Pending, depth: nat, m: Option<nat>)
    requires all == before + [child] && Slashes(child.prefix) == depth && Measure(store, child.id, depth) == m
    ensures Remaining(store, all) == Sum(Remaining(store, before), m)
  {
    hide *;
    RemainingLast(store, before, child);
  }

  /** A tree's own leaves and what its children unfold to. */
  function Contribution(store: Store, prefix: Bytes, es: seq<Entry>): Option<nat> {
    Plus(|Leaves(prefix, es)|, Remaining(store, Children(prefix, es)))
  }

  lemma ContributionStep(store: Store, prefix: Bytes, es: seq<Entry>)
    requires ValidEntries(es) && es != [] && Slashes(prefix) <= MAX_DEPTH
    requires es[|es| - 1].mode.Directory? || Authentic(store, es[|es| - 1])
    ensures Contribution(store, prefix, es)
         == Sum(Contribution(store, prefix, es[..|es| - 1]), MeasureEntry(store, es[|es| - 1], Slashes(prefix)))
  {
    hide Measure, MeasureEntry, Slashes, ValidEntries, Authentic, Leaves, Children, Remaining;
    if es[|es| - 1].mode.Directory? {
      OneMoreChild(store, prefix, es);
    } else {
      OneMoreLeaf(prefix, es);
      LeafMeasure(store, es[|es| - 1], Slashes(prefix));
    }
  }

  lemma LeafMeasure(store: Store, e: Entry, depth: nat)
    requires depth <= MAX_DEPTH && !e.mode.Directory? && Authentic(store, e)
    ensures MeasureEntry(store, e, depth) == Some(1)
  {
  }

  lemma {:induction false} MeasureSplits(store: Store, prefix: Bytes, es: seq<Entry>)
    requires ValidEntries(es) && Slashes(prefix) <= MAX_DEPTH
    requires forall e | e in es && !e.mode.Directory? :: Authentic(store, e)
    ensures MeasureAll(store, es, Slashes(prefix)) == Contribution(store, prefix, es)
  {
    hide Measure, MeasureEntry, Slashes, Authentic;
    if es != [] {
      ValidPrefix(es);
      MeasureSplits(store, prefix, es[..|es| - 1]);
      ContributionStep(store, prefix, es);
      hide Contribution, ValidEntries;
    }
  }

  lemma {:induction false} BadBlobHasNoMeasure(store: Store, es: seq<Entry>, depth: nat, e: Entry)
    requires depth <= MAX_DEPTH && e in es && !e.mode.Directory? && !Authentic(store, e)
    ensures MeasureAll(store, es, depth) == None
  {
    if es[|es| - 1] != e {
      assert e in es[..|es| - 1];
      BadBlobHasNoMeasure(store, es[..|es| - 1], depth, e);
    }
  }

  /** Looking up below `prefix` from the root is looking up in the pending tree. */
  ghost predicate Reached(store: Store, root: Bytes, p: Pending) {
    forall s :: Lookup(store, root, p.prefix + s) == Lookup(store, p.id, s)
  }

  ghost predicate Complete(store: Store, root: Bytes, files: map<Bytes, Leaf>, pending: seq<Pending>) {
    forall p | Lookup(store, root, p).Some? :: p in files || exists k :: 0 <= k < |pending| && pending[k].prefix <= p
  }

  ghost predicate Disjoint(files: map<Bytes, Leaf>, pending: seq<Pending>) {
    && (forall j, k | 0 <= j < k < |pending| ::
          !(pending[j].prefix <= pending[k].prefix) && !(pending[k].prefix <= pending[j].prefix))
    && (forall p, k | p in files && 0 <= k < |pending| :: !(pending[k].prefix <= p))
  }

  ghost predicate Explored(store: Store, root: Bytes, files: map<Bytes, Leaf>, pending: seq<Pending>) {
    && (forall p | p in files :: Lookup(store, root, p) == Some(files[p]))
    && (forall k | 0 <= k < |pending| :: Reached(store, root, pending[k]))
    && Complete(store, root, files, pending)
    && Disjoint(files, pending)
  }

  lemma ChildReached(store: Store, root: Bytes, top: Pending, es: seq<Entry>, e: Entry)
    requires Reached(store, root, top) && Entries(store, top.id) == Ok(es)
    requires e in es && e.mode.Directory?
    ensures Reached(store, root, Pending(top.prefix + e.name + [SLASH], e.id))
  {
    FindFinds(es, e);
    forall s
      ensures Lookup(store, root, top.prefix + e.name + [SLASH] + s) == Lookup(store, e.id, s)
    {
      var below := e.name + [SLASH] + s;
      assert top.prefix + e.name + [SLASH] + s == top.prefix + below;
      IndexAfter(e.name, SLASH, s);
      assert below[..|e.name|] == e.name && below[|e.name| + 1..] == s;
    }
  }

  lemma LeafFound(store: Store, root: Bytes, top: Pending, es: seq<Entry>, e: Entry)
    requires Reached(store, root, top) && Entries(store, top.id) == Ok(es)
    requires e in es && !e.mode.Directory?
    ensures Lookup(store, root, top.prefix + e.name) == Some(Leaf(e.mode, e.id))
  {
    FindFinds(es, e);
  }

  lemma LookupPlain(store: Store, tree: Bytes, es: seq<Entry>, path: Bytes) returns (e: Entry)
    requires Entries(store, tree) == Ok(es) && Lookup(store, tree, path).Some? && SLASH !in path
    ensures e in es && !e.mode.Directory? && e.name == path
  {
    e := Find(es, path).value;
  }

  lemma LookupBelow(store: Store, tree: Bytes, es: seq<Entry>, path: Bytes) returns (e: Entry)
    requires Entries(store, tree) == Ok(es) && Lookup(store, tree, path).Some? && SLASH in path
    ensures e in es && e.mode.Directory? && e.name + [SLASH] <= path
  {
    hide Entries, ValidEntries;
    var i := IndexOf(path, SLASH).value;
    assert Find(es, path[..i]).Some? && Find(es, path[..i]).value.mode.Directory?;
    hide *;
    e := Find(es, path[..i]).value;
    assert e.name + [SLASH] == path[..i + 1];
  }

  lemma SplitsPlain(store: Store, top: Pending, es: seq<Entry>, s: Bytes)
    requires Entries(store, top.id) == Ok(es) && Lookup(store, top.id, s).Some? && SLASH !in s
    ensures top.prefix + s in Leaves(top.prefix, es)
  {
    var e := LookupPlain(store, top.id, es, s);
    LeavesAre(top.prefix, es);
  }

  lemma SplitsBelow(store: Store, top: Pending, es: seq<Entry>, s: Bytes) returns (c: Pending)
    requires Entries(store, top.id) == Ok(es) && Lookup(store, top.id, s).Some? && SLASH in s
    ensures c in Children(top.prefix, es) && c.prefix <= top.prefix + s
  {
    var e := LookupBelow(store, top.id, es, s);
    ChildrenAre(top.prefix, es);
    hide Lookup, Entries, Children;
    c := Pending(top.prefix + e.name + [SLASH], e.id);
    assert IsChildOf(top.prefix, es, c);
    PrefixBefore(top.prefix, e.name + [SLASH], s);
    assert top.prefix + e.name + [SLASH] == top.prefix + (e.name + [SLASH]);
  }

  lemma PrefixBefore(a: Bytes, b: Bytes, s: Bytes)
    requires b <= s
    ensures a + b <= a + s
  {
  }

  /** Whatever the popped tree still hides is one of its leaves or below one of its children. */
  lemma Splits(store: Store, root: Bytes, top: Pending, es: seq<Entry>, p: Bytes)
    requires Reached(store, root, top) && Entries(store, top.id) == Ok(es)
    requires Lookup(store, root, p).Some? && top.prefix <= p
    ensures p in Leaves(top.prefix, es)
            || exists c :: c in Children(top.prefix, es) && c.prefix <= p
  {
    hide Lookup, Leaves, Children, Entries;
    var s := p[|top.prefix|..];
    assert p == top.prefix + s;
    assert Lookup(store, top.id, s).Some?;
    if SLASH in s {
      var c := SplitsBelow(store, top, es, s);
    } else {
      SplitsPlain(store, top, es, s);
    }
  }

  lemma CompleteStep(store: Store, root: Bytes, files: map<Bytes, Leaf>, rest: seq<Pending>, top: Pending,
      es: seq<Entry>)
    requires Reached(store, root, top) && Entries(store, top.id) == Ok(es)
    requires Complete(store, root, files, rest + [top])
    ensures Complete(store, root, files + Leaves(top.prefix, es), rest + Children(top.prefix, es))
  {
    var more := rest + Children(top.prefix, es);
    forall p | Lookup(store, root, p).Some? && p !in files + Leaves(top.prefix, es)
      ensures exists k :: 0 <= k < |more| && more[k].prefix <= p
    {
      var k :| 0 <= k < |rest + [top]| && (rest + [top])[k].prefix <= p;
      if k < |rest| {
        assert more[k].prefix <= p;
      } else {
        Splits(store, root, top, es, p);
        var c :| c in Children(top.prefix, es) && c.prefix <= p;
        var j :| 0 <= j < |Children(top.prefix, es)| && Children(top.prefix, es)[j] == c;
        assert more[|rest| + j] == c;
      }
    }
  }

  // ---- Disjointness ----

  lemma SlashPrefix(a: Bytes, s: Bytes)
    requires SLASH !in a && a + [SLASH] <= s
    ensures IndexOf(s, SLASH) == Some(|a|) && s[..|a|] == a
  {
    IndexAfter(a, SLASH, s[|a| + 1..]);
    assert a + [SLASH] + s[|a| + 1..] == s;
  }

  lemma DropPrefix(prefix: Bytes, a: Bytes, b: Bytes)
    requires prefix + a <= prefix + b
    ensures a <= b
  {
    assert a == (prefix + a)[|prefix|..] && b == (prefix + b)[|prefix|..];
  }

  lemma NotBelow(prefix: Bytes, a: Bytes, b: Bytes)
    requires SLASH !in a && SLASH !in b && a != b
    ensures !(prefix + a + [SLASH] <= prefix + b + [SLASH])
    ensures !(prefix + a + [SLASH] <= prefix + b)
  {
    IndexAfter(b, SLASH, []);
    assert b + [SLASH] + [] == b + [SLASH] && (b + [SLASH])[..|b|] == b;
    assert prefix + a + [SLASH] == prefix + (a + [SLASH]);
    assert prefix + b + [SLASH] == prefix + (b + [SLASH]);
    if prefix + a + [SLASH] <= prefix + b + [SLASH] {
      DropPrefix(prefix, a + [SLASH], b + [SLASH]);
      SlashPrefix(a, b + [SLASH]);
    }
    if prefix + a + [SLASH] <= prefix + b {
      DropPrefix(prefix, a + [SLASH], b);
      SlashPrefix(a, b);
    }
  }

  lemma {:induction false} ChildrenDisjoint(prefix: Bytes, es: seq<Entry>, j: nat, k: nat)
    requires ValidEntries(es) && j < k < |Children(prefix, es)|
    ensures !(Children(prefix, es)[j].prefix <= Children(prefix, es)[k].prefix)
    ensures !(Children(prefix, es)[k].prefix <= Children(prefix, es)[j].prefix)
    decreases |es|
  {
    ValidPrefix(es);
    var init, last := es[..|es| - 1], es[|es| - 1];
    if k < |Children(prefix, init)| {
      ChildrenDisjoint(prefix, init, j, k);
    } else {
      ChildrenAre(prefix, init);
      assert Children(prefix, init)[j] in Children(prefix, init);
      var e :| e in init && e.mode.Directory? && Children(prefix, init)[j] == Pending(prefix + e.name + [SLASH], e.id);
      NotBelow(prefix, e.name, last.name);
      NotBelow(prefix, last.name, e.name);
    }
  }

  lemma LeafNotBelowChild(prefix: Bytes, es: seq<Entry>, p: Bytes, c: Pending)
    requires ValidEntries(es) && p in Leaves(prefix, es) && c in Children(prefix, es)
    ensures !(c.prefix <= p)
  {
    hide Leaves, Children, ValidEntries, Find;
    LeavesAre(prefix, es);
    ChildrenAre(prefix, es);
    EntriesAreSafe(es);
    assert IsLeafOf(prefix, es, p, Leaves(prefix, es)[p]) && IsChildOf(prefix, es, c);
    var e :| e in es && !e.mode.Directory? && p == prefix + e.name;
    var d :| d in es && d.mode.Directory? && c == Pending(prefix + d.name + [SLASH], d.id);
    FindFinds(es, e);
    FindFinds(es, d);
    NotBelow(prefix, d.name, e.name);
  }

  lemma NewPathsBelow(prefix: Bytes, es: seq<Entry>)
    requires ValidEntries(es)
    ensures forall p | p in Leaves(prefix, es) :: prefix <= p
    ensures forall c | c in Children(prefix, es) :: prefix <= c.prefix
  {
    LeavesAre(prefix, es);
    ChildrenAre(prefix, es);
    forall c | c in Children(prefix, es)
      ensures prefix <= c.prefix
    {
      assert IsChildOf(prefix, es, c);
    }
  }

  lemma DisjointStep(files: map<Bytes, Leaf>, rest: seq<Pending>, top: Pending, es: seq<Entry>)
    requires ValidEntries(es) && Disjoint(files, rest + [top])
    ensures Disjoint(files + Leaves(top.prefix, es), rest + Children(top.prefix, es))
    ensures files.Keys !! Leaves(top.prefix, es).Keys
  {
    var all, added := rest + [top], Children(top.prefix, es);
    var now := rest + added;
    NewPathsBelow(top.prefix, es);
    assert all[|rest|] == top;
    forall j, k | 0 <= j < k < |now|
      ensures !(now[j].prefix <= now[k].prefix) && !(now[k].prefix <= now[j].prefix)
    {
      if |rest| <= j {
        ChildrenDisjoint(top.prefix, es, j - |rest|, k - |rest|);
      } else {
        assert all[j] == rest[j];
        if |rest| <= k {
          assert added[k - |rest|] in added;
          Apart(rest[j].prefix, top.prefix, now[k].prefix);
        } else {
          assert all[k] == rest[k];
        }
      }
    }
    forall p, k | p in files + Leaves(top.prefix, es) && 0 <= k < |now|
      ensures !(now[k].prefix <= p)
    {
      if k < |rest| {
        assert all[k] == rest[k];
        if p in Leaves(top.prefix, es) { Apart(rest[k].prefix, top.prefix, p); }
      } else {
        assert added[k - |rest|] in added;
        if p in Leaves(top.prefix, es) { LeafNotBelowChild(top.prefix, es, p, now[k]); }
      }
    }
  }

  lemma Apart(a: Bytes, b: Bytes, below: Bytes)
    requires b <= below && !(a <= b) && !(b <= a)
    ensures !(a <= below) && !(below <= a)
  {
    if a <= below { PrefixesOfOne(a, b, below); }
  }

  /** Expanding one popped tree keeps the invariant. */
  lemma ExploreStep(store: Store, root: Bytes, files: map<Bytes, Leaf>, rest: seq<Pending>, top: Pending,
      es: seq<Entry>)
    requires Entries(store, top.id) == Ok(es) && Explored(store, root, files, rest + [top])
    ensures Explored(store, root, files + Leaves(top.prefix, es), rest + Children(top.prefix, es))
    ensures |files + Leaves(top.prefix, es)| == |files| + |Leaves(top.prefix, es)|
  {
    var all, leaves, added := rest + [top], Leaves(top.prefix, es), Children(top.prefix, es);
    assert all[|rest|] == top;
    CompleteStep(store, root, files, rest, top, es);
    DisjointStep(files, rest, top, es);
    DisjointUnion(files, leaves);
    LeavesAre(top.prefix, es);
    forall p | p in files + leaves
      ensures Lookup(store, root, p) == Some((files + leaves)[p])
    {
      if p in leaves {
        assert IsLeafOf(top.prefix, es, p, leaves[p]);
        var e :| e in es && !e.mode.Directory? && p == top.prefix + e.name && leaves[p] == Leaf(e.mode, e.id);
        LeafFound(store, root, top, es, e);
      }
    }
    ChildrenAre(top.prefix, es);
    forall k | 0 <= k < |rest + added|
      ensures Reached(store, root, (rest + added)[k])
    {
      if k < |rest| {
        assert all[k] == rest[k];
      } else {
        var c := added[k - |rest|];
        assert c in added && IsChildOf(top.prefix, es, c);
        var e :| e in es && e.mode.Directory? && c == Pending(top.prefix + e.name + [SLASH], e.id);
        ChildReached(store, root, top, es, e);
      }
    }
  }

  // ---- The traversal ----

  class Traversal {
    const store: Store
    var files: map<Bytes, Leaf>
    var pending: seq<Pending>
    var seen: set<Bytes>
    var trees: nat

    constructor (store: Store)
      ensures this.store == store && files == map[] && pending == [] && seen == {} && trees == 0
    {
      this.store, files, pending, seen, trees := store, map[], [], {}, 0;
    }

    ghost predicate SeenAuthentic()
      reads this
    {
      forall id | id in seen :: RawObject(store, id, BlobObject).Ok?
    }

    /** Either every entry is taken over, or some blob could not be authenticated. */
    method CollectEntries(prefix: Bytes, es: seq<Entry>) returns (failure: Option<Failure>)
      requires SeenAuthentic()
      modifies this`files, this`pending, this`seen
      ensures SeenAuthentic()
      ensures failure.None? ==> files == old(files) + Leaves(prefix, es)
      ensures failure.None? ==> pending == old(pending) + Children(prefix, es)
      ensures failure.None? <==> forall e | e in es && !e.mode.Directory? :: Authentic(store, e)
    {
      hide Leaves, Children, RawObject;
      var i := 0;
      NextCollected(prefix, es, 0);
      while i < |es|
        invariant i <= |es| && SeenAuthentic()
        invariant files == old(files) + Leaves(prefix, es[..i])
        invariant pending == old(pending) + Children(prefix, es[..i])
        invariant forall e | e in es[..i] && !e.mode.Directory? :: Authentic(store, e)
      {
        var e := es[i];
        NextCollected(prefix, es, i);
        var path := prefix + e.name;
        if e.mode.Directory? {
          pending := pending + [Pending(path + [SLASH], e.id)];
        } else {
          files := files[path := Leaf(e.mode, e.id)];
          if !e.mode.Gitlink? && e.id !in seen {
            var blob := RawObject(store, e.id, BlobObject);
            if blob.Err? { assert e in es; return Some(blob.error); }
            seen := seen + {e.id};
          }
        }
        i := i + 1;
      }
      assert es[..|es|] == es;
      failure := None;
    }

    /** Every non-gitlink leaf recorded so far was authenticated, directly or through `seen`. */
    ghost predicate AllAuthentic()
      reads this
    {
      Authenticated(store, files)
    }

    /** One accepted pop: both inventory bounds hold when it is made. */
    method Expand(ghost root: Bytes, top: Pending) returns (failure: Option<Failure>)
      requires Slashes(top.prefix) <= MAX_DEPTH && trees + |files| + |pending| <= MAX_INVENTORY
      requires SeenAuthentic() && AllAuthentic() && Explored(store, root, files, pending + [top])
      requires 1 <= trees && Accounted(store, root, trees - 1 + |files|, pending + [top])
      requires LastAhead(store, root, trees - 1 + |files|, pending + [top])
      modifies this`files, this`pending, this`seen
      ensures failure.None? ==> SeenAuthentic() && AllAuthentic() && Explored(store, root, files, pending)
      ensures failure.None? ==> Accounted(store, root, trees + |files|, pending)
      ensures failure.None? ==> LastAhead(store, root, trees + |files|, pending)
      ensures failure.Some? ==> !WithinBounds(store, root)
    {
      hide Explored, Accounted, LastAhead, WithinBounds, RawObject, Authentic, Authenticated, Leaves, Children, Slashes;
      ghost var before, rest := trees - 1 + |files|, pending;
      var entries := Entries(store, top.id);
      if entries.Err? {
        UnreadableHasNoMeasure(store, root, before, rest, top);
        return Some(entries.error);
      }
      var es := entries.value;
      failure := CollectEntries(top.prefix, es);
      if failure.Some? {
        var e :| e in es && !e.mode.Directory? && !Authentic(store, e);
        BadBlobRefused(store, root, before, rest, top, es, e);
      } else {
        ExploreStep(store, root, old(files), rest, top, es);
        LeavesAuthentic(store, top.prefix, es);
        AuthenticatedUnion(store, old(files), Leaves(top.prefix, es));
        AccountedStep(store, root, before, rest, top, es, trees + |files|);
        LastAheadStep(store, root, before, rest, top, es, trees + |files|);
      }
    }

    /** The work-list loop.  Its result does not depend on the order of the work list. */
    method Walk(root: Bytes) returns (failure: Option<Failure>)
      requires files == map[] && pending == [] && seen == {} && trees == 0
      modifies this
      ensures trees <= MAX_INVENTORY + 1
      ensures failure.None? ==> Resolved(store, root, files, trees) && WithinBounds(store, root)
      ensures failure.Some? ==> !WithinBounds(store, root)
    {
      hide Explored, Faithful, Accounted, LastAhead, WithinBounds, UnfoldsTo, RawObject, Authenticated;
      pending := [Pending([], root)];
      StartExplored(store, root);
      NothingAuthenticated(store);
      while pending != []
        invariant trees <= MAX_INVENTORY
        invariant SeenAuthentic() && AllAuthentic() && Explored(store, root, files, pending)
        invariant Accounted(store, root, trees + |files|, pending)
        invariant LastAhead(store, root, trees + |files|, pending)
        decreases MAX_INVENTORY - trees
      {
        var top := pending[|pending| - 1];
        var rest := pending[..|pending| - 1];
        assert pending == rest + [top];
        pending := rest;
        trees := trees + 1;
        if trees + |files| + |pending| > MAX_INVENTORY || Slashes(top.prefix) > MAX_DEPTH {
          PopRefused(store, root, trees - 1 + |files|, rest, top);
          return Some(TooLarge);
        }
        failure := Expand(root, top);
        if failure.Some? { return; }
      }
      ExploredIsFaithful(store, root, files);
      AccountedAtEnd(store, root, trees + |files|);
      failure := None;
    }
  }

  /** The inventory so far and what is left to unfold make up the whole tree. */
  ghost predicate Accounted(store: Store, root: Bytes, n: nat, pending: seq<Pending>) {
    Measure(store, root, 0) == Plus(n, Remaining(store, pending))
  }

  lemma PopRefused(store: Store, root: Bytes, n: nat, rest: seq<Pending>, top: Pending)
    requires Accounted(store, root, n, rest + [top]) && LastAhead(store, root, n, rest + [top])
    requires n + 1 + |rest| > MAX_INVENTORY || Slashes(top.prefix) > MAX_DEPTH
    ensures !WithinBounds(store, root)
  {
    RemainingLast(store, rest, top);
    if Slashes(top.prefix) > MAX_DEPTH {
      TooDeep(store, top.id, Slashes(top.prefix));
    } else if Remaining(store, rest + [top]).Some? {
      hide Measure, LastLeaves, Slashes, Remaining;
      RemainingHoldsLast(store, rest + [top]);
    }
  }

  // ---- The tree expanded last ----

  /** The bottom of the work list leads to the tree expanded last; with nothing left, it was counted. */
  ghost predicate LastAhead(store: Store, root: Bytes, n: nat, pending: seq<Pending>) {
    if pending == [] then n <= MAX_INVENTORY + LastLeaves(store, root, 0)
    else LastLeaves(store, pending[0].id, Slashes(pending[0].prefix)) == LastLeaves(store, root, 0)
  }

  lemma {:induction false} ChildrenFrom(prefix: Bytes, es: seq<Entry>)
    ensures match FirstDirectory(es)
            case None => Children(prefix, es) == []
            case Some(e) => e in es && e.mode.Directory? && Children(prefix, es) != []
                            && Children(prefix, es)[0] == Pending(prefix + e.name + [SLASH], e.id)
  {
    if es != [] { ChildrenFrom(prefix, es[..|es| - 1]); }
  }

  lemma {:induction false} OwnLeavesAre(prefix: Bytes, es: seq<Entry>)
    requires ValidEntries(es)
    ensures OwnLeaves(es) == |Leaves(prefix, es)|
  {
    if es != [] {
      ValidPrefix(es);
      OwnLeavesAre(prefix, es[..|es| - 1]);
      if !es[|es| - 1].mode.Directory? { OneMoreLeaf(prefix, es); }
    }
  }

  lemma LastLeavesUnfold(store: Store, id: Bytes, es: seq<Entry>, depth: nat)
    requires Entries(store, id) == Ok(es) && depth <= MAX_DEPTH
    ensures LastLeaves(store, id, depth)
         == match FirstDirectory(es) case None => OwnLeaves(es) case Some(e) => LastLeaves(store, e.id, depth + 1)
  {
  }

  lemma LastAheadBelow(store: Store, root: Bytes, n: nat, top: Pending, es: seq<Entry>, now: nat)
    requires LastAhead(store, root, n, [top]) && Entries(store, top.id) == Ok(es) && Slashes(top.prefix) <= MAX_DEPTH
    requires n + 1 <= MAX_INVENTORY && now == n + 1 + |Leaves(top.prefix, es)|
    ensures LastAhead(store, root, now, Children(top.prefix, es))
  {
    hide LastLeaves, Slashes, Leaves, Children, Entries, FirstDirectory, OwnLeaves, ValidEntries;
    LastLeavesUnfold(store, top.id, es, Slashes(top.prefix));
    ChildrenFrom(top.prefix, es);
    OwnLeavesAre(top.prefix, es);
    EntriesAreSafe(es);
    if FirstDirectory(es).Some? { SlashesBelow(top.prefix, FirstDirectory(es).value.name); }
  }

  lemma LastAheadStep(store: Store, root: Bytes, n: nat, rest: seq<Pending>, top: Pending, es: seq<Entry>, now: nat)
    requires LastAhead(store, root, n, rest + [top]) && Entries(store, top.id) == Ok(es)
             && Slashes(top.prefix) <= MAX_DEPTH
    requires n + 1 + |rest| <= MAX_INVENTORY && now == n + 1 + |Leaves(top.prefix, es)|
    ensures LastAhead(store, root, now, rest + Children(top.prefix, es))
  {
    hide LastLeaves, Slashes, Leaves, Children, Entries;
    if rest == [] {
      assert rest + [top] == [top] && rest + Children(top.prefix, es) == Children(top.prefix, es);
      LastAheadBelow(store, root, n, top, es, now);
    } else {
      assert (rest + [top])[0] == rest[0] == (rest + Children(top.prefix, es))[0];
    }
  }

  lemma EntriesAreSafe(es: seq<Entry>)
    requires ValidEntries(es)
    ensures forall e | e in es :: SLASH !in e.name
  {
  }

  /** An entry list that unfolds holds its own leaves, and whatever each of its directories unfolds to. */
  lemma {:induction false} MeasureAllHolds(store: Store, es: seq<Entry>, depth: nat)
    requires depth <= MAX_DEPTH && MeasureAll(store, es, depth).Some?
    ensures OwnLeaves(es) <= MeasureAll(store, es, depth).value
    ensures forall e | e in es && e.mode.Directory? ::
              Measure(store, e.id, depth + 1).Some?
              && Measure(store, e.id, depth + 1).value <= MeasureAll(store, es, depth).value
    decreases |es|
  {
    if es != [] {
      assert forall e | e in es :: e in es[..|es| - 1] || e == es[|es| - 1];
      MeasureAllHolds(store, es[..|es| - 1], depth);
      hide Measure;
    }
  }

  lemma {:induction false} MeasureHoldsLast(store: Store, id: Bytes, depth: nat)
    requires Measure(store, id, depth).Some?
    ensures LastLeaves(store, id, depth) < Measure(store, id, depth).value
    decreases MAX_DEPTH + 1 - depth
  {
    var es := Entries(store, id).value;
    MeasureUnfolds(store, id, es, depth);
    LastLeavesUnfold(store, id, es, depth);
    ChildrenFrom([], es);
    hide Measure, LastLeaves, Entries, Children, FirstDirectory, OwnLeaves, MeasureAll;
    MeasureAllHolds(store, es, depth);
    if FirstDirectory(es).Some? { MeasureHoldsLast(store, FirstDirectory(es).value.id, depth + 1); }
  }

  lemma {:induction false} RemainingHoldsLast(store: Store, pending: seq<Pending>)
    requires pending != [] && Remaining(store, pending).Some?
    ensures |pending| + LastLeaves(store, pending[0].id, Slashes(pending[0].prefix)) <= Remaining(store, pending).value
  {
    hide Measure, LastLeaves, Slashes;
    var last := pending[|pending| - 1];
    if |pending| == 1 {
      MeasureHoldsLast(store, last.id, Slashes(last.prefix));
    } else {
      RemainingHoldsLast(store, pending[..|pending| - 1]);
    }
  }

  lemma UnreadableHasNoMeasure(store: Store, root: Bytes, n: nat, rest: seq<Pending>, top: Pending)
    requires Accounted(store, root, n, rest + [top]) && Entries(store, top.id).Err?
    ensures !WithinBounds(store, root)
  {
    RemainingLast(store, rest, top);
    assert Measure(store, top.id, Slashes(top.prefix)) == None;
  }

  lemma BadBlobRefused(store: Store, root: Bytes, n: nat, rest: seq<Pending>, top: Pending, es: seq<Entry>, e: Entry)
    requires Accounted(store, root, n, rest + [top]) && Entries(store, top.id) == Ok(es)
             && Slashes(top.prefix) <= MAX_DEPTH
    requires e in es && !e.mode.Directory? && !Authentic(store, e)
    ensures !WithinBounds(store, root)
  {
    RemainingLast(store, rest, top);
    BadBlobHasNoMeasure(store, es, Slashes(top.prefix), e);
    MeasureUnfolds(store, top.id, es, Slashes(top.prefix));
  }

  lemma AccountedStep(store: Store, root: Bytes, n: nat, rest: seq<Pending>, top: Pending, es: seq<Entry>, now: nat)
    requires Accounted(store, root, n, rest + [top]) && Entries(store, top.id) == Ok(es)
             && Slashes(top.prefix) <= MAX_DEPTH
    requires forall e | e in es && !e.mode.Directory? :: Authentic(store, e)
    requires now == n + 1 + |Leaves(top.prefix, es)|
    ensures Accounted(store, root, now, rest + Children(top.prefix, es))
  {
    hide Measure, MeasureAll, Slashes, Leaves, Children, Entries, Remaining;
    PopMeasure(store, rest, top, es);
  }

  /** The whole tree, unfolded, is that many trees and leaves. */
  ghost predicate UnfoldsTo(store: Store, root: Bytes, n: nat) {
    Measure(store, root, 0) == Some(n)
  }

  /** A faithful map, and pops plus paths make up the whole unfolded tree, so no path was assigned twice. */
  ghost predicate Resolved(store: Store, root: Bytes, files: map<Bytes, Leaf>, pops: nat) {
    Faithful(store, root, files) && UnfoldsTo(store, root, pops + |files|) && pops <= MAX_INVENTORY
  }

  lemma AccountedAtEnd(store: Store, root: Bytes, n: nat)
    requires Accounted(store, root, n, []) && LastAhead(store, root, n, [])
    ensures UnfoldsTo(store, root, n) && WithinBounds(store, root)
  {
  }

  lemma TooDeep(store: Store, id: Bytes, depth: nat)
    requires MAX_DEPTH < depth
    ensures Measure(store, id, depth) == None
  {
  }

  lemma RootReached(store: Store, root: Bytes)
    ensures Reached(store, root, Pending([], root))
  {
    hide Lookup;
    forall s
      ensures Lookup(store, root, Pending([], root).prefix + s) == Lookup(store, root, s)
    {
      assert [] + s == s;
    }
  }

  lemma RootComplete(store: Store, root: Bytes)
    ensures Complete(store, root, map[], [Pending([], root)])
  {
    hide Lookup;
    var all := [Pending([], root)];
    forall path | Lookup(store, root, path).Some?
      ensures exists k :: 0 <= k < |all| && all[k].prefix <= path
    {
      assert all[0].prefix <= path;
    }
  }

  lemma NothingRemains(store: Store)
    ensures Remaining(store, []) == Some(0) && Slashes([]) == 0
  {
  }

  lemma StartExplored(store: Store, root: Bytes)
    ensures Explored(store, root, map[], [Pending([], root)])
    ensures Accounted(store, root, 0, [Pending([], root)]) && LastAhead(store, root, 0, [Pending([], root)])
  {
    hide Lookup, Measure, Reached, Complete, LastLeaves, Slashes, Remaining;
    RootReached(store, root);
    RootComplete(store, root);
    NothingRemains(store);
    RemainingLast(store, [], Pending([], root));
    assert [] + [Pending([], root)] == [Pending([], root)];
  }

  /** The map is the path-by-path resolution of the tree, and every blob in it was authenticated. */
  ghost predicate Faithful(store: Store, root: Bytes, files: map<Bytes, Leaf>) {
    && (forall p :: p in files <==> Lookup(store, root, p).Some?)
    && (forall p | p in files :: Lookup(store, root, p) == Some(files[p]))
    && Authenticated(store, files)
  }

  lemma ExploredIsFaithful(store: Store, root: Bytes, files: map<Bytes, Leaf>)
    requires Explored(store, root, files, [])
    requires Authenticated(store, files)
    ensures Faithful(store, root, files)
  {
    hide Lookup, RawObject;
  }

  /** The tree determines the map: no other order of the work list could have produced another one. */
  lemma FaithfulIsUnique(store: Store, root: Bytes, a: map<Bytes, Leaf>, b: map<Bytes, Leaf>)
    requires Faithful(store, root, a) && Faithful(store, root, b)
    ensures a == b
  {
    hide Lookup, RawObject;
    assert forall p :: p in a <==> p in b;
  }

  lemma RemainingLast(store: Store, rest: seq<Pending>, top: Pending)
    ensures Remaining(store, rest + [top]) == Sum(Remaining(store, rest), Measure(store, top.id, Slashes(top.prefix)))
  {
    assert (rest + [top])[..|rest + [top]| - 1] == rest;
    hide Measure, Slashes;
  }

  lemma PopMeasure(store: Store, rest: seq<Pending>, top: Pending, es: seq<Entry>)
    requires Entries(store, top.id) == Ok(es) && Slashes(top.prefix) <= MAX_DEPTH
    requires forall e | e in es && !e.mode.Directory? :: Authentic(store, e)
    ensures Remaining(store, rest + [top])
         == Plus(1 + |Leaves(top.prefix, es)|, Remaining(store, rest + Children(top.prefix, es)))
  {
    hide Measure, MeasureAll, Slashes, Leaves, Children, Entries, Remaining;
    MeasureSplits(store, top.prefix, es);
    MeasureUnfolds(store, top.id, es, Slashes(top.prefix));
    RemainingLast(store, rest, top);
    RemainingConcat(store, rest, Children(top.prefix, es));
  }

  lemma MeasureUnfolds(store: Store, id: Bytes, es: seq<Entry>, depth: nat)
    requires Entries(store, id) == Ok(es) && depth <= MAX_DEPTH
    ensures Measure(store, id, depth) == Plus(1, MeasureAll(store, es, depth))
  {
    hide MeasureAll, Entries;
  }

  ghost predicate Authenticated(store: Store, files: map<Bytes, Leaf>) {
    forall p | p in files && !files[p].mode.Gitlink? :: RawObject(store, files[p].id, BlobObject).Ok?
  }

  lemma NothingAuthenticated(store: Store)
    ensures Authenticated(store, map[])
  {
  }

  lemma AuthenticatedUnion(store: Store, a: map<Bytes, Leaf>, b: map<Bytes, Leaf>)
    requires Authenticated(store, a) && Authenticated(store, b)
    ensures Authenticated(store, a + b)
  {
    hide RawObject;
  }

  lemma LeavesAuthentic(store: Store, prefix: Bytes, es: seq<Entry>)
    requires ValidEntries(es) && forall e | e in es && !e.mode.Directory? :: Authentic(store, e)
    ensures Authenticated(store, Leaves(prefix, es))
  {
    LeavesAre(prefix, es);
    forall p | p in Leaves(prefix, es) && !Leaves(prefix, es)[p].mode.Gitlink?
      ensures RawObject(store, Leaves(prefix, es)[p].id, BlobObject).Ok?
    {
      assert IsLeafOf(prefix, es, p, Leaves(prefix, es)[p]);
    }
  }

  // ---- The commit ----

  const NEWLINE: Byte := 10
  const TREE_WORD: Bytes := [116, 114, 101, 101, 32]

  /** The identity in the commit's first line, which must be exactly "tree " and a revision. */
  function RootTree(commit: Bytes): Option<Bytes> {
    var line := match IndexOf(commit, NEWLINE) case None => commit case Some(i) => commit[..i];
    if |line| == 45 && line[..5] == TREE_WORD && IsRevision(line[5..]) then Some(line[5..]) else None
  }

  function CommitTree(store: Store, revision: Bytes): Result<Bytes, Failure> {
    match RawObject(store, revision, CommitObject)
    case Err(e) => Err(e)
    case Ok(commit) => match RootTree(commit) case None => Err(NoRootTree) case Some(t) => Ok(t)
  }

  /**
    The returned map is the path-by-path resolution of the commit's tree, every blob in it was
    authenticated, and no assignment overwrote another: pops plus paths make up the whole unfolded
    tree.  A commit is accepted exactly when its tree is within bounds.  At most MAX_INVENTORY + 1
    trees are popped, whatever the store.
   */
  method AuthenticatedFiles(store: Store, revision: Bytes)
      returns (r: Result<map<Bytes, Leaf>, Failure>, ghost pops: nat)
    ensures pops <= MAX_INVENTORY + 1
    ensures r.Ok? <==> CommitTree(store, revision).Ok? && WithinBounds(store, CommitTree(store, revision).value)
    ensures r.Ok? ==> Resolved(store, CommitTree(store, revision).value, r.value, pops)
  {
    pops := 0;
    hide *;
    var commit := CommitTree(store, revision);
    if commit.Err? { return Err(commit.error), 0; }
    var traversal := new Traversal(store);
    var failure := traversal.Walk(commit.value);
    pops := traversal.trees;
    if failure.Some? { return Err(failure.value), pops; }
    r := Ok(traversal.files);
  }
}
