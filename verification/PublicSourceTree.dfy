/** The bounded walk over the public source namespace, against a reference that knows no order and no counters. */
module PublicSourceTree {
  import opened Wrappers
  import opened Collections

  type Bytes = seq<bv8>
  type Digest = string

  datatype Node = Directory(entries: seq<Entry>) | Regular(body: Bytes) | Symlink | Special
  datatype Entry = Entry(name: string, node: Node)

  const MAX_FILES: nat := 1024
  const MAX_NODES: nat := 4096
  const MAX_BYTES: nat := 1048576
  const MAX_TOTAL_BYTES: nat := 16777216
  const MAX_DEPTH: nat := 32

  const NAMESPACE: string := "modsecurity_test_framework"

  datatype Error =
    | DepthExceeded | NodesExceeded | SymlinkFound | NotBoundedRegular | SizeExceeded | TotalExceeded | EmptyNamespace

  predicate IsPython(name: string) {
    |name| >= 3 && name[|name| - 3..] == ".py"
  }

  function PathOf(relative: string, name: string): string {
    relative + "/" + name
  }

  /** What a file system guarantees of the names of one directory, all the way down. */
  ghost predicate WellNamed(node: Node)
    decreases node
  {
    node.Directory? ==>
      && (forall e | e in node.entries :: e.name != "" && '/' !in e.name && WellNamed(e.node))
      && (forall i, j | 0 <= i < j < |node.entries| :: node.entries[i].name != node.entries[j].name)
  }

  // ---- Reference ----

  /** Everything below a node. */
  function Count(node: Node): nat
    decreases node, 1
  {
    if node.Directory? then CountIn(node, |node.entries|) else 0
  }

  function CountIn(d: Node, n: nat): nat
    requires d.Directory? && n <= |d.entries|
    decreases d, 0, n
  {
    if n == 0 then 0 else CountIn(d, n - 1) + 1 + Count(d.entries[n - 1].node)
  }

  /** The Python files at or below an entry, by path, with the digests of their bodies. */
  function Found(e: Entry, relative: string, hash: Bytes -> Digest): map<string, Digest>
    decreases e.node, 1
  {
    match e.node
    case Directory(entries) => FoundIn(e.node, PathOf(relative, e.name), |entries|, hash)
    case Regular(body) => if IsPython(e.name) then map[PathOf(relative, e.name) := hash(body)] else map[]
    case _ => map[]
  }

  function FoundIn(d: Node, path: string, n: nat, hash: Bytes -> Digest): map<string, Digest>
    requires d.Directory? && n <= |d.entries|
    decreases d, 0, n
  {
    if n == 0 then map[] else FoundIn(d, path, n - 1, hash) + Found(d.entries[n - 1], path, hash)
  }

  /** The size of the bodies of those files, together. */
  function Size(e: Entry): nat
    decreases e.node, 1
  {
    match e.node
    case Directory(entries) => SizeIn(e.node, |entries|)
    case Regular(body) => if IsPython(e.name) then |body| else 0
    case _ => 0
  }

  function SizeIn(d: Node, n: nat): nat
    requires d.Directory? && n <= |d.entries|
    decreases d, 0, n
  {
    if n == 0 then 0 else SizeIn(d, n - 1) + Size(d.entries[n - 1])
  }

  /** No symlink, no directory too deep, and every Python file a regular file of bounded size. */
  predicate Clean(e: Entry, depth: nat)
    decreases e.node, 1
  {
    match e.node
    case Directory(entries) => depth + 1 <= MAX_DEPTH && CleanIn(e.node, depth + 1, |entries|)
    case Regular(body) => IsPython(e.name) ==> |body| <= MAX_BYTES
    case Special => !IsPython(e.name)
    case Symlink => false
  }

  predicate CleanIn(d: Node, depth: nat, n: nat)
    requires d.Directory? && n <= |d.entries|
    decreases d, 0, n
  {
    n == 0 || (CleanIn(d, depth, n - 1) && Clean(d.entries[n - 1], depth))
  }

  predicate WithinBounds(nodes: nat, files: nat, total: nat) {
    nodes <= MAX_NODES && files <= MAX_FILES && total <= MAX_TOTAL_BYTES
  }

  // ---- Paths never collide ----

  /** At the path or below it. */
  predicate Under(key: string, path: string) {
    key == path || path + "/" <= key
  }

  predicate NoneAt(sources: map<string, Digest>, path: string) {
    forall key | key in sources :: !Under(key, path)
  }

  predicate NoneBelow(sources: map<string, Digest>, path: string) {
    forall key | key in sources :: !(path + "/" <= key)
  }

  lemma UnderParent(key: string, path: string, name: string)
    requires Under(key, PathOf(path, name))
    ensures path + "/" <= key
  {
    assert path + "/" <= PathOf(path, name);
    if key != PathOf(path, name) {
      assert PathOf(path, name) <= PathOf(path, name) + "/";
      assert key[..|path| + 1] == (PathOf(path, name) + "/")[..|path| + 1];
    }
  }

  lemma InEither<K, V>(a: map<K, V>, b: map<K, V>)
    ensures forall key :: key in a + b <==> key in a || key in b
  {
  }

  lemma {:induction false} FoundUnder(e: Entry, relative: string, hash: Bytes -> Digest)
    ensures forall key | key in Found(e, relative, hash) :: Under(key, PathOf(relative, e.name))
    decreases e.node, 1
  {
    if e.node.Directory? { FoundInUnder(e.node, PathOf(relative, e.name), |e.node.entries|, hash); }
  }

  lemma {:induction false} FoundInUnder(d: Node, path: string, n: nat, hash: Bytes -> Digest)
    requires d.Directory? && n <= |d.entries|
    ensures forall key | key in FoundIn(d, path, n, hash) :: path + "/" <= key
    ensures forall key | key in FoundIn(d, path, n, hash) ::
              exists i :: 0 <= i < n && Under(key, PathOf(path, d.entries[i].name))
    decreases d, 0, n
  {
    if n != 0 {
      FoundInUnder(d, path, n - 1, hash);
      FoundUnder(d.entries[n - 1], path, hash);
      InEither(FoundIn(d, path, n - 1, hash), Found(d.entries[n - 1], path, hash));
      hide Found, Under, PathOf;
      forall key | key in FoundIn(d, path, n, hash)
        ensures path + "/" <= key
        ensures exists i :: 0 <= i < n && Under(key, PathOf(path, d.entries[i].name))
      {
        if key in Found(d.entries[n - 1], path, hash) {
          UnderParent(key, path, d.entries[n - 1].name);
        } else {
          var i :| 0 <= i < n - 1 && Under(key, PathOf(path, d.entries[i].name));
        }
      }
    }
  }

  /** A slash-free name is what stands before the next slash. */
  function FirstName(rest: string): string {
    if rest == "" || rest[0] == '/' then "" else [rest[0]] + FirstName(rest[1..])
  }

  lemma {:induction false} FirstNameOf(name: string, tail: string)
    requires '/' !in name && (tail == "" || tail[0] == '/')
    ensures FirstName(name + tail) == name
  {
    if name == "" {
      assert name + tail == tail;
    } else {
      FirstNameOf(name[1..], tail);
      assert (name + tail)[1..] == name[1..] + tail;
    }
  }

  lemma NameBelow(key: string, path: string, name: string)
    requires '/' !in name && Under(key, PathOf(path, name))
    ensures path + "/" <= key && FirstName(key[|path| + 1..]) == name
  {
    UnderParent(key, path, name);
    var whole := PathOf(path, name);
    assert whole <= key by {
      if key != whole { assert whole <= whole + "/" && key[..|whole|] == (whole + "/")[..|whole|]; }
    }
    var tail := key[|whole|..];
    assert key[|path| + 1..] == name + tail;
    if key != whole { assert tail[0] == (whole + "/")[|whole|]; }
    FirstNameOf(name, tail);
  }

  lemma SiblingsApart(key: string, path: string, a: string, b: string)
    requires '/' !in a && '/' !in b && a != b
    ensures !(Under(key, PathOf(path, a)) && Under(key, PathOf(path, b)))
  {
    if Under(key, PathOf(path, a)) { NameBelow(key, path, a); }
    if Under(key, PathOf(path, b)) { NameBelow(key, path, b); }
  }

  // ---- What grows ----

  /** The next entry's files are at new paths. */
  lemma FoundGrows(d: Node, path: string, n: nat, hash: Bytes -> Digest)
    requires d.Directory? && n < |d.entries| && WellNamed(d)
    ensures FoundIn(d, path, n, hash).Keys !! Found(d.entries[n], path, hash).Keys
    ensures |FoundIn(d, path, n + 1, hash)| == |FoundIn(d, path, n, hash)| + |Found(d.entries[n], path, hash)|
  {
    var a, b := FoundIn(d, path, n, hash), Found(d.entries[n], path, hash);
    FoundInUnder(d, path, n, hash);
    FoundUnder(d.entries[n], path, hash);
    assert forall i | 0 <= i < |d.entries| :: d.entries[i] in d.entries;
    forall key | key in a
      ensures key !in b
    {
      var i :| 0 <= i < n && Under(key, PathOf(path, d.entries[i].name));
      SiblingsApart(key, path, d.entries[i].name, d.entries[n].name);
    }
    DisjointUnion(a, b);
  }

  /** Failing early is failing: every quantity the walk checks only grows. */
  lemma {:induction false} PrefixesAreSmaller(d: Node, path: string, depth: nat, k: nat, n: nat, hash: Bytes -> Digest)
    requires d.Directory? && k <= n <= |d.entries| && WellNamed(d)
    ensures CountIn(d, k) <= CountIn(d, n) && SizeIn(d, k) <= SizeIn(d, n)
    ensures |FoundIn(d, path, k, hash)| <= |FoundIn(d, path, n, hash)|
    ensures CleanIn(d, depth, n) ==> CleanIn(d, depth, k)
    decreases n
  {
    hide WellNamed, Found, Size, Clean;
    if k < n {
      PrefixesAreSmaller(d, path, depth, k, n - 1, hash);
      FoundGrows(d, path, n - 1, hash);
    }
  }

  /** The first entries are clean and, on top of what was recorded before, fit the bounds. */
  predicate Allowed(d: Node, path: string, depth: nat, n: nat, nodes: nat, files: nat, total: nat,
      hash: Bytes -> Digest)
    requires d.Directory? && n <= |d.entries|
  {
    && CleanIn(d, depth, n)
    && WithinBounds(nodes + CountIn(d, n), files + |FoundIn(d, path, n, hash)|, total + SizeIn(d, n))
  }

  /** The same for one entry that has just been counted itself. */
  predicate EntryAllowed(e: Entry, relative: string, depth: nat, nodes: nat, files: nat, total: nat,
      hash: Bytes -> Digest) {
    Clean(e, depth) && WithinBounds(nodes + Count(e.node), files + |Found(e, relative, hash)|, total + Size(e))
  }

  lemma NothingAllowed(d: Node, path: string, depth: nat, nodes: nat, sources: map<string, Digest>, total: nat,
      hash: Bytes -> Digest)
    requires d.Directory? && WithinBounds(nodes, |sources|, total)
    ensures Allowed(d, path, depth, 0, nodes, |sources|, total, hash)
    ensures CountIn(d, 0) == 0 && SizeIn(d, 0) == 0 && sources + FoundIn(d, path, 0, hash) == sources
    ensures |FoundIn(d, path, 0, hash)| == 0
  {
  }

  lemma AllowedPrefix(
    d: Node, path: string, depth: nat, k: nat, n: nat, nodes: nat, files: nat, total: nat, hash: Bytes -> Digest)
    requires d.Directory? && k <= n <= |d.entries| && WellNamed(d)
    ensures Allowed(d, path, depth, n, nodes, files, total, hash) ==>
              Allowed(d, path, depth, k, nodes, files, total, hash)
  {
    hide WellNamed, CountIn, FoundIn, SizeIn, CleanIn;
    PrefixesAreSmaller(d, path, depth, k, n, hash);
  }

  /** One entry further, from what was recorded before it. */
  lemma AllowedStep(
    d: Node, path: string, depth: nat, n: nat, nodes: nat, files: nat, total: nat, hash: Bytes -> Digest,
    nodesNow: nat, filesNow: nat, totalNow: nat)
    requires d.Directory? && n < |d.entries| && WellNamed(d) && Allowed(d, path, depth, n, nodes, files, total, hash)
    requires nodesNow == nodes + CountIn(d, n) + 1 && filesNow == files + |FoundIn(d, path, n, hash)|
    requires totalNow == total + SizeIn(d, n)
    ensures CountIn(d, n + 1) == CountIn(d, n) + 1 + Count(d.entries[n].node)
    ensures SizeIn(d, n + 1) == SizeIn(d, n) + Size(d.entries[n])
    ensures FoundIn(d, path, n + 1, hash) == FoundIn(d, path, n, hash) + Found(d.entries[n], path, hash)
    ensures |FoundIn(d, path, n + 1, hash)| == |FoundIn(d, path, n, hash)| + |Found(d.entries[n], path, hash)|
    ensures Allowed(d, path, depth, n + 1, nodes, files, total, hash) <==>
            nodesNow <= MAX_NODES && EntryAllowed(d.entries[n], path, depth, nodesNow, filesNow, totalNow, hash)
  {
    hide WellNamed, Clean, Found, Size, Count;
    FoundGrows(d, path, n, hash);
  }

  lemma DirectoryAllowed(e: Entry, relative: string, depth: nat, nodes: nat, files: nat, total: nat,
      hash: Bytes -> Digest)
    requires e.node.Directory?
    ensures Count(e.node) == CountIn(e.node, |e.node.entries|) && Size(e) == SizeIn(e.node, |e.node.entries|)
    ensures Found(e, relative, hash) == FoundIn(e.node, PathOf(relative, e.name), |e.node.entries|, hash)
    ensures EntryAllowed(e, relative, depth, nodes, files, total, hash) <==>
            depth + 1 <= MAX_DEPTH
            && Allowed(e.node, PathOf(relative, e.name), depth + 1, |e.node.entries|, nodes, files, total, hash)
  {
    hide PathOf, CountIn, SizeIn, FoundIn, CleanIn;
  }

  lemma NothingFound(e: Entry, relative: string, depth: nat, nodes: nat, sources: map<string, Digest>, total: nat,
      hash: Bytes -> Digest)
    requires e.node.Special? || (e.node.Regular? && !IsPython(e.name))
    requires WithinBounds(nodes, |sources|, total)
    ensures Count(e.node) == 0 && Size(e) == 0 && sources + Found(e, relative, hash) == sources
             && |Found(e, relative, hash)| == 0
    ensures EntryAllowed(e, relative, depth, nodes, |sources|, total, hash) <==> !(e.node.Special? && IsPython(e.name))
  {
  }

  lemma PythonFound(e: Entry, relative: string, depth: nat, nodes: nat, sources: map<string, Digest>, total: nat,
      hash: Bytes -> Digest)
    requires e.node.Regular? && IsPython(e.name)
    requires WithinBounds(nodes, |sources|, total) && PathOf(relative, e.name) !in sources
    ensures Count(e.node) == 0 && Size(e) == |e.node.body| && |Found(e, relative, hash)| == 1
    ensures sources[PathOf(relative, e.name) := hash(e.node.body)] == sources + Found(e, relative, hash)
    ensures |sources + Found(e, relative, hash)| == |sources| + 1
    ensures EntryAllowed(e, relative, depth, nodes, |sources|, total, hash) <==>
            |e.node.body| <= MAX_BYTES && |sources| + 1 <= MAX_FILES && total + |e.node.body| <= MAX_TOTAL_BYTES
  {
    OneMoreKey(sources, PathOf(relative, e.name), hash(e.node.body));
    hide IsPython, PathOf;
  }

  lemma NodeFits(nodes: nat, files: nat, total: nat)
    requires 1 <= nodes <= MAX_NODES && WithinBounds(nodes - 1, files, total)
    ensures WithinBounds(nodes, files, total)
  {
  }

  // ---- The reference is exactly what is reachable ----

  /** The names lead from a directory to a regular Python file with that body. */
  ghost predicate Leads(d: Node, names: seq<string>, body: Bytes)
    decreases |names|
  {
    d.Directory? && names != [] && exists e :: e in d.entries && Step(e, names, body)
  }

  ghost predicate Step(e: Entry, names: seq<string>, body: Bytes)
    requires names != []
    decreases |names|, 0
  {
    && e.name == names[0]
    && if |names| == 1 then e.node == Regular(body) && IsPython(e.name) else Leads(e.node, names[1..], body)
  }

  function Path(relative: string, names: seq<string>): string
    decreases |names|
  {
    if names == [] then relative else Path(PathOf(relative, names[0]), names[1..])
  }

  lemma FoundNext(d: Node, path: string, n: nat, hash: Bytes -> Digest)
    requires d.Directory? && 0 < n <= |d.entries|
    ensures FoundIn(d, path, n, hash) == FoundIn(d, path, n - 1, hash) + Found(d.entries[n - 1], path, hash)
  {
    hide Found;
  }

  predicate Maps<K, V(==)>(m: map<K, V>, key: K, v: V) {
    key in m && m[key] == v
  }

  lemma SumMaps<K, V>(sum: map<K, V>, a: map<K, V>, b: map<K, V>, key: K, v: V)
    requires sum == a + b && a.Keys !! b.Keys && (Maps(a, key, v) || Maps(b, key, v))
    ensures Maps(sum, key, v)
  {
  }

  /** Later entries never replace what an earlier one gave. */
  lemma {:induction false} PartFound(d: Node, path: string, i: nat, n: nat, hash: Bytes -> Digest, key: string,
      v: Digest)
    requires d.Directory? && i < n <= |d.entries| && WellNamed(d) && Maps(Found(d.entries[i], path, hash), key, v)
    ensures Maps(FoundIn(d, path, n, hash), key, v)
    decreases n
  {
    hide WellNamed, Found, PathOf, FoundIn, Maps;
    FoundNext(d, path, n, hash);
    FoundGrows(d, path, n - 1, hash);
    if i < n - 1 { PartFound(d, path, i, n - 1, hash, key, v); }
    SumMaps(FoundIn(d, path, n, hash), FoundIn(d, path, n - 1, hash), Found(d.entries[n - 1], path, hash), key, v);
  }

  lemma {:induction false} ReachableIsFound(d: Node, path: string, names: seq<string>, body: Bytes,
      hash: Bytes -> Digest)
    requires Leads(d, names, body) && WellNamed(d)
    ensures Maps(FoundIn(d, path, |d.entries|, hash), Path(path, names), hash(body))
    decreases |names|
  {
    var e :| e in d.entries && Step(e, names, body);
    var i :| 0 <= i < |d.entries| && d.entries[i] == e;
    var below := PathOf(path, e.name);
    assert Path(path, names) == Path(below, names[1..]);
    if |names| == 1 {
      assert Path(below, []) == below;
      assert names[1..] == [];
      FoundAlone(e, path, hash);
    } else {
      ReachableIsFound(e.node, below, names[1..], body, hash);
      FoundOfDirectory(e, path, hash);
    }
    hide Found, FoundIn, WellNamed, Leads, Step, Path, PathOf;
    PartFound(d, path, i, |d.entries|, hash, Path(path, names), hash(body));
  }

  lemma FoundAlone(e: Entry, path: string, hash: Bytes -> Digest)
    requires e.node.Regular? && IsPython(e.name)
    ensures var p := PathOf(path, e.name); p in Found(e, path, hash) && Found(e, path, hash)[p] == hash(e.node.body)
    ensures Found(e, path, hash).Keys == {PathOf(path, e.name)}
  {
  }

  lemma FoundOfDirectory(e: Entry, path: string, hash: Bytes -> Digest)
    requires e.node.Directory?
    ensures Found(e, path, hash) == FoundIn(e.node, PathOf(path, e.name), |e.node.entries|, hash)
  {
  }

  lemma {:induction false} FoundIsReachable(d: Node, path: string, n: nat, hash: Bytes -> Digest, key: string)
    requires d.Directory? && n <= |d.entries| && key in FoundIn(d, path, n, hash)
    ensures exists names, body :: Leads(d, names, body) && Path(path, names) == key
             && hash(body) == FoundIn(d, path, n, hash)[key]
    decreases d, 0, n
  {
    var e := d.entries[n - 1];
    hide Found;
    if key in Found(e, path, hash) {
      assert FoundIn(d, path, n, hash)[key] == Found(e, path, hash)[key];
      var names, body := EntryReachable(e, path, hash, key);
      assert e in d.entries;
      assert Leads(d, names, body);
    } else {
      assert key in FoundIn(d, path, n - 1, hash);
      FoundIsReachable(d, path, n - 1, hash, key);
    }
  }

  lemma {:induction false} EntryReachable(e: Entry, path: string, hash: Bytes -> Digest, key: string)
    returns (names: seq<string>, body: Bytes)
    requires key in Found(e, path, hash)
    ensures names != [] && Step(e, names, body) && Path(path, names) == key && hash(body) == Found(e, path, hash)[key]
    decreases e.node, 1
  {
    var below := PathOf(path, e.name);
    if e.node.Directory? {
      FoundOfDirectory(e, path, hash);
      hide Found, FoundIn;
      FoundIsReachable(e.node, below, |e.node.entries|, hash, key);
      var more, b :| Leads(e.node, more, b) && Path(below, more) == key
                     && hash(b) == FoundIn(e.node, below, |e.node.entries|, hash)[key];
      names, body := [e.name] + more, b;
      assert names[1..] == more;
    } else {
      FoundAlone(e, path, hash);
      names, body := [e.name], e.node.body;
      assert names[1..] == [];
      assert Path(below, []) == below;
    }
  }

  // ---- The listing order ----

  /** The same tree, every directory of it listed in some other order. */
  ghost predicate Relisted(a: Node, b: Node)
    decreases a, 1
  {
    if a.Directory? then
      b.Directory? && exists entries: seq<Entry> :: SameEntries(a, entries) && multiset(entries) == multiset(b.entries)
    else a == b
  }

  ghost predicate SameEntries(a: Node, entries: seq<Entry>)
    requires a.Directory?
    decreases a, 0
  {
    && |entries| == |a.entries|
    && forall i | 0 <= i < |entries| ::
         entries[i].name == a.entries[i].name && Relisted(a.entries[i].node, entries[i].node)
  }

  function Total(es: seq<Entry>, weight: Entry -> nat): nat {
    if es == [] then 0 else Total(es[..|es| - 1], weight) + weight(es[|es| - 1])
  }

  function Nodes(e: Entry): nat {
    1 + Count(e.node)
  }

  lemma {:induction false} TotalConcat(a: seq<Entry>, b: seq<Entry>, weight: Entry -> nat)
    ensures Total(a + b, weight) == Total(a, weight) + Total(b, weight)
    decreases |b|
  {
    if b == [] {
      assert a + b == a;
    } else {
      TotalConcat(a, b[..|b| - 1], weight);
      assert (a + b)[..|a + b| - 1] == a + b[..|b| - 1];
    }
  }

  lemma Cancel<T>(x: multiset<T>, y: multiset<T>, z: multiset<T>)
    requires x + z == y + z
    ensures x == y
  {
    assert x == (x + z) - z && y == (y + z) - z;
  }

  lemma {:induction false} TotalPermutes(a: seq<Entry>, b: seq<Entry>, weight: Entry -> nat)
    requires multiset(a) == multiset(b)
    ensures Total(a, weight) == Total(b, weight)
    decreases |a|
  {
    if a == [] {
      assert |multiset(b)| == 0;
    } else {
      var init, last := a[..|a| - 1], a[|a| - 1];
      assert a == init + [last] && last in multiset(b);
      var j :| 0 <= j < |b| && b[j] == last;
      var rest := b[..j] + b[j + 1..];
      assert b == b[..j] + [last] + b[j + 1..];
      assert multiset(b) == multiset(b[..j]) + multiset([last]) + multiset(b[j + 1..]);
      assert multiset(a) == multiset(init) + multiset([last]);
      assert multiset(rest) == multiset(b[..j]) + multiset(b[j + 1..]);
      Cancel(multiset(init), multiset(rest), multiset([last]));
      TotalPermutes(init, rest, weight);
      TotalConcat(b[..j], b[j + 1..], weight);
      TotalConcat(b[..j] + [last], b[j + 1..], weight);
      TotalConcat(b[..j], [last], weight);
      assert Total([last], weight) == weight(last);
    }
  }

  lemma {:induction false} TotalPointwise(a: seq<Entry>, b: seq<Entry>, weight: Entry -> nat)
    requires |a| == |b| && forall i | 0 <= i < |a| :: weight(a[i]) == weight(b[i])
    ensures Total(a, weight) == Total(b, weight)
    decreases |a|
  {
    if a != [] { TotalPointwise(a[..|a| - 1], b[..|b| - 1], weight); }
  }

  lemma {:induction false} InIsTotal(d: Node, n: nat)
    requires d.Directory? && n <= |d.entries|
    ensures CountIn(d, n) == Total(d.entries[..n], Nodes) && SizeIn(d, n) == Total(d.entries[..n], Size)
    decreases n
  {
    hide Size, Count;
    if n != 0 {
      InIsTotal(d, n - 1);
      assert d.entries[..n][..n - 1] == d.entries[..n - 1];
    }
  }

  lemma {:induction false} CleanInIsAll(d: Node, depth: nat, n: nat)
    requires d.Directory? && n <= |d.entries|
    ensures CleanIn(d, depth, n) <==> forall i | 0 <= i < n :: Clean(d.entries[i], depth)
    decreases n
  {
    hide Clean;
    if n != 0 { CleanInIsAll(d, depth, n - 1); }
  }

  lemma {:induction false} FoundInSome(d: Node, path: string, n: nat, hash: Bytes -> Digest, key: string, v: Digest)
    requires d.Directory? && n <= |d.entries| && Maps(FoundIn(d, path, n, hash), key, v)
    ensures exists i :: 0 <= i < n && Maps(Found(d.entries[i], path, hash), key, v)
    decreases n
  {
    hide Found;
    assert n != 0;
    FoundNext(d, path, n, hash);
    var last := Found(d.entries[n - 1], path, hash);
    if key in last {
      assert Maps(last, key, v);
    } else {
      FoundInSome(d, path, n - 1, hash, key, v);
    }
  }

  /** Two directories whose entries find the same files find the same files. */
  lemma SameFound(a: Node, b: Node, path: string, hash: Bytes -> Digest)
    requires a.Directory? && b.Directory? && WellNamed(a) && WellNamed(b)
    requires forall e | e in a.entries :: exists f :: f in b.entries && Found(e, path, hash) == Found(f, path, hash)
    requires forall f | f in b.entries :: exists e :: e in a.entries && Found(e, path, hash) == Found(f, path, hash)
    ensures FoundIn(a, path, |a.entries|, hash) == FoundIn(b, path, |b.entries|, hash)
  {
    hide WellNamed, Found, FoundIn;
    var x, y := FoundIn(a, path, |a.entries|, hash), FoundIn(b, path, |b.entries|, hash);
    forall key, v
      ensures Maps(x, key, v) <==> Maps(y, key, v)
    {
      if Maps(x, key, v) { FoundElsewhere(a, b, path, hash, key, v); }
      if Maps(y, key, v) { FoundElsewhere(b, a, path, hash, key, v); }
    }
    SameMaps(x, y);
  }

  lemma SameMaps(x: map<string, Digest>, y: map<string, Digest>)
    requires forall key, v :: Maps(x, key, v) <==> Maps(y, key, v)
    ensures x == y
  {
    assert forall key | key in x :: Maps(x, key, x[key]) && Maps(y, key, x[key]);
    assert forall key | key in y :: Maps(y, key, y[key]) && Maps(x, key, y[key]);
  }

  lemma FoundElsewhere(a: Node, b: Node, path: string, hash: Bytes -> Digest, key: string, v: Digest)
    requires a.Directory? && b.Directory? && WellNamed(b) && Maps(FoundIn(a, path, |a.entries|, hash), key, v)
    requires forall e | e in a.entries :: exists f :: f in b.entries && Found(e, path, hash) == Found(f, path, hash)
    ensures Maps(FoundIn(b, path, |b.entries|, hash), key, v)
  {
    hide WellNamed, Found, FoundIn, Maps;
    FoundInSome(a, path, |a.entries|, hash, key, v);
    var i :| 0 <= i < |a.entries| && Maps(Found(a.entries[i], path, hash), key, v);
    assert a.entries[i] in a.entries;
    var f :| f in b.entries && Found(a.entries[i], path, hash) == Found(f, path, hash);
    var j :| 0 <= j < |b.entries| && b.entries[j] == f;
    PartFound(b, path, j, |b.entries|, hash, key, v);
  }

  /** What the walk asks of an entry. */
  ghost predicate SameAnswers(e: Entry, f: Entry, relative: string, depth: nat, hash: Bytes -> Digest) {
    && Nodes(e) == Nodes(f) && Size(e) == Size(f) && (Clean(e, depth) <==> Clean(f, depth))
    && Found(e, relative, hash) == Found(f, relative, hash)
  }

  lemma {:induction false} EntryAgrees(e: Entry, f: Entry, relative: string, depth: nat, hash: Bytes -> Digest)
    requires e.name == f.name && Relisted(e.node, f.node) && WellNamed(e.node) && WellNamed(f.node)
    ensures SameAnswers(e, f, relative, depth, hash)
    decreases e.node, 1
  {
    if e.node.Directory? {
      ListingOrderDoesNotMatter(e.node, f.node, PathOf(relative, e.name), depth + 1, hash);
      hide CountIn, SizeIn, CleanIn, FoundIn, PathOf, Relisted, WellNamed;
    }
  }

  lemma {:induction false} EntriesAgree(a: Node, entries: seq<Entry>, path: string, depth: nat, hash: Bytes -> Digest)
    requires a.Directory? && SameEntries(a, entries) && WellNamed(a) && forall e | e in entries :: WellNamed(e.node)
    ensures forall i | 0 <= i < |entries| :: SameAnswers(a.entries[i], entries[i], path, depth, hash)
    decreases a, 0, 0
  {
    forall i | 0 <= i < |entries|
      ensures SameAnswers(a.entries[i], entries[i], path, depth, hash)
    {
      ChildWellNamed(a, i);
      assert entries[i] in entries;
      EntryAgrees(a.entries[i], entries[i], path, depth, hash);
    }
  }

  /** The counts, the sizes, the cleanliness and the map of a directory do not depend on the listing order. */
  lemma {:induction false} ListingOrderDoesNotMatter(a: Node, b: Node, path: string, depth: nat, hash: Bytes -> Digest)
    requires a.Directory? && Relisted(a, b) && WellNamed(a) && WellNamed(b)
    ensures b.Directory? && CountIn(a, |a.entries|) == CountIn(b, |b.entries|)
             && SizeIn(a, |a.entries|) == SizeIn(b, |b.entries|)
    ensures CleanIn(a, depth, |a.entries|) <==> CleanIn(b, depth, |b.entries|)
    ensures FoundIn(a, path, |a.entries|, hash) == FoundIn(b, path, |b.entries|, hash)
    decreases a, 0, 1
  {
    var entries: seq<Entry> :| SameEntries(a, entries) && multiset(entries) == multiset(b.entries);
    SameMembers(entries, b.entries);
    assert forall e | e in entries :: WellNamed(e.node);
    EntriesAgree(a, entries, path, depth, hash);
    hide Relisted, SameEntries, WellNamed;
    EntriesDecide(a, b, entries, path, depth, hash);
  }

  lemma EntriesDecide(a: Node, b: Node, entries: seq<Entry>, path: string, depth: nat, hash: Bytes -> Digest)
    requires a.Directory? && b.Directory? && WellNamed(a) && WellNamed(b) && |entries| == |a.entries|
    requires forall i | 0 <= i < |entries| :: SameAnswers(a.entries[i], entries[i], path, depth, hash)
    requires multiset(entries) == multiset(b.entries) && forall e :: e in entries <==> e in b.entries
    ensures CountIn(a, |a.entries|) == CountIn(b, |b.entries|) && SizeIn(a, |a.entries|) == SizeIn(b, |b.entries|)
    ensures CleanIn(a, depth, |a.entries|) <==> CleanIn(b, depth, |b.entries|)
    ensures FoundIn(a, path, |a.entries|, hash) == FoundIn(b, path, |b.entries|, hash)
  {
    hide WellNamed, Nodes, Size, Clean, Found, CountIn, SizeIn, CleanIn, FoundIn;
    assert a.entries[..|a.entries|] == a.entries && b.entries[..|b.entries|] == b.entries;
    InIsTotal(a, |a.entries|);
    InIsTotal(b, |b.entries|);
    TotalPointwise(a.entries, entries, Nodes);
    TotalPointwise(a.entries, entries, Size);
    TotalPermutes(entries, b.entries, Nodes);
    TotalPermutes(entries, b.entries, Size);
    CleanInIsAll(a, depth, |a.entries|);
    CleanInIsAll(b, depth, |b.entries|);
    AllCleanOrNot(a, b, entries, path, depth, hash);
    FoundByOther(a, b, entries, path, depth, hash);
    SameFound(a, b, path, hash);
  }

  lemma AllCleanOrNot(a: Node, b: Node, entries: seq<Entry>, path: string, depth: nat, hash: Bytes -> Digest)
    requires a.Directory? && b.Directory? && |entries| == |a.entries| && forall e :: e in entries <==> e in b.entries
    requires forall i | 0 <= i < |entries| :: SameAnswers(a.entries[i], entries[i], path, depth, hash)
    ensures (forall i | 0 <= i < |a.entries| :: Clean(a.entries[i], depth))
       <==> (forall j | 0 <= j < |b.entries| :: Clean(b.entries[j], depth))
  {
    hide Nodes, Size, Clean, Found;
    if forall i | 0 <= i < |a.entries| :: Clean(a.entries[i], depth) {
      forall j | 0 <= j < |b.entries|
        ensures Clean(b.entries[j], depth)
      {
        assert b.entries[j] in entries;
        var i :| 0 <= i < |entries| && entries[i] == b.entries[j];
      }
    }
    if forall j | 0 <= j < |b.entries| :: Clean(b.entries[j], depth) {
      forall i | 0 <= i < |a.entries|
        ensures Clean(a.entries[i], depth)
      {
        assert entries[i] in b.entries;
        var j :| 0 <= j < |b.entries| && b.entries[j] == entries[i];
      }
    }
  }

  lemma FoundByOther(a: Node, b: Node, entries: seq<Entry>, path: string, depth: nat, hash: Bytes -> Digest)
    requires a.Directory? && b.Directory? && |entries| == |a.entries| && forall e :: e in entries <==> e in b.entries
    requires forall i | 0 <= i < |entries| :: SameAnswers(a.entries[i], entries[i], path, depth, hash)
    ensures forall e | e in a.entries :: exists f :: f in b.entries && Found(e, path, hash) == Found(f, path, hash)
    ensures forall f | f in b.entries :: exists e :: e in a.entries && Found(e, path, hash) == Found(f, path, hash)
  {
    hide Nodes, Size, Clean, Found;
    forall e | e in a.entries
      ensures exists f :: f in b.entries && Found(e, path, hash) == Found(f, path, hash)
    {
      var i :| 0 <= i < |a.entries| && a.entries[i] == e;
      assert entries[i] in b.entries && SameAnswers(a.entries[i], entries[i], path, depth, hash);
    }
    forall f | f in b.entries
      ensures exists e :: e in a.entries && Found(e, path, hash) == Found(f, path, hash)
    {
      var i :| 0 <= i < |entries| && entries[i] == f;
      assert a.entries[i] in a.entries && SameAnswers(a.entries[i], entries[i], path, depth, hash);
    }
  }

  // ---- The walk ----

  class Tree {
    const hash: Bytes -> Digest
    var sources: map<string, Digest>
    var nodes: nat
    var total: nat

    ghost predicate Valid()
      reads this
    {
      WithinBounds(nodes, |sources|, total)
    }

    constructor (hash: Bytes -> Digest)
      ensures Valid() && this.hash == hash && sources == map[] && nodes == 0 && total == 0
    {
      this.hash := hash;
      sources, nodes, total := map[], 0, 0;
    }

    lemma ValidIsWithinBounds()
      requires Valid()
      ensures WithinBounds(nodes, |sources|, total)
    {
    }

    /** What the first entries of a directory add to an earlier record. */
    ghost predicate Recorded(
      d: Node, relative: string, n: nat, nodesBefore: nat, before: map<string, Digest>, totalBefore: nat)
      requires d.Directory? && n <= |d.entries|
      reads this
    {
      && Valid() && nodes == nodesBefore + CountIn(d, n) && total == totalBefore + SizeIn(d, n)
      && sources == before + FoundIn(d, relative, n, hash)
      && |sources| == |before| + |FoundIn(d, relative, n, hash)|
    }

    /** A directory in the order it is listed: succeeds exactly when all of it is clean and fits the bounds. */
    method Visit(d: Node, relative: string, depth: nat) returns (r: Result<(), Error>)
      requires d.Directory? && WellNamed(d) && Valid()
      requires NoneBelow(sources, relative)
      modifies this
      ensures r.Ok? <==>
              && depth <= MAX_DEPTH
              && Allowed(d, relative, depth, |d.entries|, old(nodes), |old(sources)|, old(total), hash)
      ensures r.Ok? ==> Recorded(d, relative, |d.entries|, old(nodes), old(sources), old(total))
      decreases d, 2
    {
      hide WellNamed, CountIn, FoundIn, SizeIn, CleanIn, Allowed, NoneBelow, Recorded;
      if depth > MAX_DEPTH { return Err(DepthExceeded); }
      NothingAllowed(d, relative, depth, nodes, sources, total, hash);
      NothingRecorded(d, relative);
      for i := 0 to |d.entries|
        invariant Recorded(d, relative, i, old(nodes), old(sources), old(total))
        invariant Allowed(d, relative, depth, i, old(nodes), |old(sources)|, old(total), hash)
      {
        AllowedPrefix(d, relative, depth, i + 1, |d.entries|, old(nodes), |old(sources)|, old(total), hash);
        r := VisitNext(d, relative, depth, i, old(nodes), old(sources), old(total));
        if r.Err? { return; }
      }
      r := Ok(());
    }

    lemma NothingRecorded(d: Node, relative: string)
      requires d.Directory? && Valid()
      ensures Recorded(d, relative, 0, nodes, sources, total)
    {
    }

    /** The loop body: counts the next entry, then looks at it. */
    method VisitNext(d: Node, relative: string, depth: nat, i: nat,
                     ghost nodesBefore: nat, ghost before: map<string, Digest>, ghost totalBefore: nat)
      returns (r: Result<(), Error>)
      requires d.Directory? && i < |d.entries| && WellNamed(d) && NoneBelow(before, relative)
      requires Recorded(d, relative, i, nodesBefore, before, totalBefore)
      requires Allowed(d, relative, depth, i, nodesBefore, |before|, totalBefore, hash)
      modifies this
      ensures r.Ok? <==> Allowed(d, relative, depth, i + 1, nodesBefore, |before|, totalBefore, hash)
      ensures r.Ok? ==> Recorded(d, relative, i + 1, nodesBefore, before, totalBefore)
      decreases d, 1
    {
      hide PathOf, Under, IsPython, Found, Size, Clean, Count, WellNamed, CountIn, FoundIn, SizeIn, CleanIn, Allowed,
           EntryAllowed, NoneAt, NoneBelow;
      var e := d.entries[i];
      ChildWellNamed(d, i);
      KeysAreApart(before, d, relative, i, hash);
      nodes := nodes + 1;
      AllowedStep(d, relative, depth, i, nodesBefore, |before|, totalBefore, hash, nodes, |sources|, total);
      if nodes > MAX_NODES { return Err(NodesExceeded); }
      NodeFits(nodes, |sources|, total);
      r := VisitEntry(relative, depth, e);
      MapSum(before, FoundIn(d, relative, i, hash), Found(e, relative, hash));
    }

    /** One entry: a symlink is refused, a directory walked, a Python file read, anything else only counted. */
    method VisitEntry(relative: string, depth: nat, e: Entry) returns (r: Result<(), Error>)
      requires WellNamed(e.node) && Valid() && NoneAt(sources, PathOf(relative, e.name))
      modifies this
      ensures r.Ok? <==> EntryAllowed(e, relative, depth, old(nodes), |old(sources)|, old(total), hash)
      ensures r.Ok? ==> EntryRecorded(relative, e, old(nodes), old(sources), old(total))
      decreases e.node, 3
    {
      hide *;
      ValidIsWithinBounds();
      if e.node.Symlink? {
        SymlinkRefused(e, relative, depth, nodes, |sources|, total, hash);
        return Err(SymlinkFound);
      }
      if e.node.Directory? {
        var path := PathOf(relative, e.name);
        DirectoryAllowed(e, relative, depth, nodes, |sources|, total, hash);
        NothingBelow(sources, path);
        r := Visit(e.node, path, depth + 1);
        assert r.Ok? ==> EntryRecorded(relative, e, old(nodes), old(sources), old(total)) by {
          if r.Ok? { DirectoryRecorded(relative, e, old(nodes), old(sources), old(total)); }
        }
      } else if IsPython(e.name) {
        r := ReadSource(relative, depth, e);
      } else {
        NothingFound(e, relative, depth, nodes, sources, total, hash);
        OtherRecorded(relative, e);
        r := Ok(());
      }
    }

    /** What an entry adds to an earlier record. */
    ghost predicate EntryRecorded(relative: string, e: Entry, nodesBefore: nat, before: map<string, Digest>,
        totalBefore: nat)
      reads this
    {
      && Valid() && nodes == nodesBefore + Count(e.node) && total == totalBefore + Size(e)
      && sources == before + Found(e, relative, hash)
      && |sources| == |before| + |Found(e, relative, hash)|
    }

    lemma DirectoryRecorded(relative: string, e: Entry, nodesBefore: nat, before: map<string, Digest>, totalBefore: nat)
      requires e.node.Directory?
      requires Recorded(e.node, PathOf(relative, e.name), |e.node.entries|, nodesBefore, before, totalBefore)
      ensures EntryRecorded(relative, e, nodesBefore, before, totalBefore)
    {
      hide CountIn, FoundIn, SizeIn, PathOf;
    }

    lemma OtherRecorded(relative: string, e: Entry)
      requires Valid() && (e.node.Special? || (e.node.Regular? && !IsPython(e.name)))
      ensures EntryRecorded(relative, e, nodes, sources, total)
    {
      NothingFound(e, relative, 0, nodes, sources, total, hash);
      hide Count, Found, Size, IsPython;
    }

    /** A name that ends in `.py`: a regular file of bounded size, while there is room for it. */
    method ReadSource(relative: string, depth: nat, e: Entry) returns (r: Result<(), Error>)
      requires Valid() && IsPython(e.name) && (e.node.Special? || e.node.Regular?)
      requires NoneAt(sources, PathOf(relative, e.name))
      modifies this
      ensures r.Ok? <==> EntryAllowed(e, relative, depth, old(nodes), |old(sources)|, old(total), hash)
      ensures r.Ok? ==> EntryRecorded(relative, e, old(nodes), old(sources), old(total))
    {
      hide IsPython, PathOf, Count, Found, Size, EntryAllowed, NoneAt;
      if e.node.Special? {
        NothingFound(e, relative, depth, nodes, sources, total, hash);
        return Err(NotBoundedRegular);
      }
      var path := PathOf(relative, e.name);
      NotRecorded(sources, path);
      PythonFound(e, relative, depth, nodes, sources, total, hash);
      if |sources| >= MAX_FILES { return Err(NotBoundedRegular); }
      if |e.node.body| > MAX_BYTES { return Err(SizeExceeded); }
      total := total + |e.node.body|;
      if total > MAX_TOTAL_BYTES { return Err(TotalExceeded); }
      sources := sources[path := hash(e.node.body)];
      r := Ok(());
    }
  }

  lemma SymlinkRefused(e: Entry, relative: string, depth: nat, nodes: nat, files: nat, total: nat,
      hash: Bytes -> Digest)
    requires e.node.Symlink?
    ensures !EntryAllowed(e, relative, depth, nodes, files, total, hash)
  {
  }

  lemma NothingBelow(sources: map<string, Digest>, path: string)
    requires NoneAt(sources, path)
    ensures NoneBelow(sources, path)
  {
  }

  lemma NotRecorded(sources: map<string, Digest>, path: string)
    requires NoneAt(sources, path)
    ensures path !in sources
  {
  }

  lemma ChildWellNamed(d: Node, i: nat)
    requires d.Directory? && i < |d.entries| && WellNamed(d)
    ensures WellNamed(d.entries[i].node)
  {
    assert d.entries[i] in d.entries;
  }

  lemma OneMoreKey<V>(m: map<string, V>, key: string, v: V)
    requires key !in m
    ensures m[key := v] == m + map[key := v] && |m[key := v]| == |m| + 1 && |map[key := v]| == 1
  {
    assert m[key := v].Keys == m.Keys + {key};
    assert map[key := v].Keys == {key};
  }

  lemma EmptySum<K, V>(m: map<K, V>)
    ensures map[] + m == m
  {
  }

  lemma MapSum<K, V>(a: map<K, V>, b: map<K, V>, c: map<K, V>)
    ensures (a + b) + c == a + (b + c)
  {
  }

  /** What is already recorded is not at the next entry's path. */
  lemma KeysAreApart(before: map<string, Digest>, d: Node, path: string, n: nat, hash: Bytes -> Digest)
    requires d.Directory? && n < |d.entries| && WellNamed(d)
    requires NoneBelow(before, path)
    ensures NoneAt(before + FoundIn(d, path, n, hash), PathOf(path, d.entries[n].name))
  {
    FoundInUnder(d, path, n, hash);
    InEither(before, FoundIn(d, path, n, hash));
    assert forall i | 0 <= i < |d.entries| :: d.entries[i] in d.entries;
    forall key | key in before + FoundIn(d, path, n, hash)
      ensures !Under(key, PathOf(path, d.entries[n].name))
    {
      if key in before {
        if Under(key, PathOf(path, d.entries[n].name)) { UnderParent(key, path, d.entries[n].name); }
      } else {
        var i :| 0 <= i < n && Under(key, PathOf(path, d.entries[i].name));
        SiblingsApart(key, path, d.entries[i].name, d.entries[n].name);
      }
    }
  }

  /** The walk accepts a namespace that is clean, within every bound, and holds a Python file. */
  predicate Acceptable(namespace: Node, hash: Bytes -> Digest)
    requires namespace.Directory?
  {
    var n := |namespace.entries|;
    var found := FoundIn(namespace, NAMESPACE, n, hash);
    CleanIn(namespace, 0, n) && found != map[] && WithinBounds(CountIn(namespace, n), |found|, SizeIn(namespace, n))
  }

  /** Two listings of one namespace get one verdict and one map. */
  lemma SameVerdictForEveryListing(a: Node, b: Node, hash: Bytes -> Digest)
    requires a.Directory? && Relisted(a, b) && WellNamed(a) && WellNamed(b)
    ensures b.Directory? && (Acceptable(a, hash) <==> Acceptable(b, hash))
    ensures FoundIn(a, NAMESPACE, |a.entries|, hash) == FoundIn(b, NAMESPACE, |b.entries|, hash)
  {
    hide NAMESPACE, WithinBounds;
    ListingOrderDoesNotMatter(a, b, NAMESPACE, 0, hash);
    hide CountIn, SizeIn, CleanIn, FoundIn, Relisted, WellNamed;
  }

  /**
    The public source hashes: the walk succeeds exactly when the namespace is acceptable, and then its
    map is the reference.
   */
  method PublicSourceHashes(namespace: Node, hash: Bytes -> Digest) returns (r: Result<map<string, Digest>, Error>)
    requires namespace.Directory? && WellNamed(namespace)
    ensures r.Ok? <==> Acceptable(namespace, hash)
    ensures r.Ok? ==> r.value == FoundIn(namespace, NAMESPACE, |namespace.entries|, hash)
  {
    hide WellNamed, CountIn, FoundIn, SizeIn, CleanIn, NAMESPACE;
    EmptySum(FoundIn(namespace, NAMESPACE, |namespace.entries|, hash));
    var tree := new Tree(hash);
    var done := tree.Visit(namespace, NAMESPACE, 0);
    if done.Err? {
      r := Err(done.error);
    } else {
      r := if tree.sources == map[] then Err(EmptyNamespace) else Ok(tree.sources);
    }
  }

  // ---- Names and numbers ----

  lemma PythonMeans(name: string)
    ensures IsPython(name) <==> exists stem: string :: name == stem + ".py"
  {
    if IsPython(name) { assert name == name[..|name| - 3] + ".py"; }
    if stem: string :| name == stem + ".py" { assert name[|name| - 3..] == ".py"; }
  }

  /** Nothing below the directory, at any depth, stands in the way. */
  ghost predicate InOrder(d: Node, depth: nat)
    requires d.Directory?
    decreases d, depth
  {
    forall e | e in d.entries ::
      && !e.node.Symlink?
      && (e.node.Special? ==> !exists stem: string :: e.name == stem + ".py")
      && (e.node.Regular? && (exists stem: string :: e.name == stem + ".py") ==> |e.node.body| <= 1048576)
      && (e.node.Directory? ==> depth < 32 && InOrder(e.node, depth + 1))
  }

  lemma {:induction false} CleanMeans(d: Node, depth: nat)
    requires d.Directory?
    ensures CleanIn(d, depth, |d.entries|) <==> InOrder(d, depth)
    decreases d, 0
  {
    hide CleanIn, IsPython;
    CleanInIsAll(d, depth, |d.entries|);
    forall e | e in d.entries
      ensures Clean(e, depth) <==>
              && !e.node.Symlink?
              && (e.node.Special? ==> !exists stem: string :: e.name == stem + ".py")
              && (e.node.Regular? && (exists stem: string :: e.name == stem + ".py") ==> |e.node.body| <= 1048576)
              && (e.node.Directory? ==> depth < 32 && InOrder(e.node, depth + 1))
    {
      PythonMeans(e.name);
      if e.node.Directory? { CleanMeans(e.node, depth + 1); }
    }
    assert forall i | 0 <= i < |d.entries| :: d.entries[i] in d.entries;
  }

  /**
    A namespace is acceptable exactly when it holds a Python file, at most 4096 nodes, 1024 Python files and
    16 MiB of their text, no symlink, no Python name that is not a regular file of at most 1 MiB, and no
    directory more than 32 levels down.
   */
  lemma AcceptableExactlyWhen(namespace: Node, hash: Bytes -> Digest)
    requires namespace.Directory?
    ensures var found := FoundIn(namespace, "modsecurity_test_framework", |namespace.entries|, hash);
            Acceptable(namespace, hash) <==>
              && InOrder(namespace, 0) && found.Keys != {} && |found| <= 1024
              && CountIn(namespace, |namespace.entries|) <= 4096
              && SizeIn(namespace, |namespace.entries|) <= 16777216
  {
    hide CountIn, SizeIn, FoundIn, CleanIn, InOrder;
    CleanMeans(namespace, 0);
    var found := FoundIn(namespace, NAMESPACE, |namespace.entries|, hash);
    assert found == map[] <==> found.Keys == {};
  }
}
