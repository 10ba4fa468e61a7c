/** Stable version identities: parsing, the padded comparison, and the four update policies. */
module Versions {
  import opened Wrappers

  // ---- Parsing ----

  predicate IsDigit(c: char) {
    '0' <= c <= '9'
  }

  /** The value of a non-empty run of decimal digits. */
  function Number(s: string): Option<nat> {
    if s == [] then None
    else
      var last := s[|s| - 1];
      if !IsDigit(last) then None
      else if |s| == 1 then Some(last as int - '0' as int)
      else match Number(s[..|s| - 1])
        case None => None
        case Some(n) => Some(10 * n + (last as int - '0' as int))
  }

  /** The pieces between dots; a string without dots is one piece. */
  function Pieces(s: string): (r: seq<string>)
    ensures |r| > 0
  {
    if s == [] then [[]]
    else
      var rest := Pieces(s[1..]);
      if s[0] == '.' then [[]] + rest else [[s[0]] + rest[0]] + rest[1..]
  }

  function Numbers(pieces: seq<string>): Option<seq<nat>> {
    if pieces == [] then Some([])
    else match (Number(pieces[0]), Numbers(pieces[1..]))
      case (Some(n), Some(ns)) => Some([n] + ns)
      case _ => None
  }

  /** Pieces joined by dots. */
  function Dotted(pieces: seq<string>): string
    requires pieces != []
  {
    if |pieces| == 1 then pieces[0] else pieces[0] + "." + Dotted(pieces[1..])
  }

  /** The pieces are the dot-free strings that, joined by dots, are the text. */
  lemma {:induction false} PiecesJoin(s: string)
    ensures Dotted(Pieces(s)) == s && forall i | 0 <= i < |Pieces(s)| :: '.' !in Pieces(s)[i]
  {
    if s != [] {
      PiecesJoin(s[1..]);
      var rest := Pieces(s[1..]);
      assert s == [s[0]] + s[1..];
      if s[0] == '.' {
        assert ([[]] + rest)[1..] == rest;
      } else {
        var p := Pieces(s);
        assert p[1..] == rest[1..];
        assert |p| == 1 ==> Dotted(p) == [s[0]] + rest[0];
        assert |p| > 1 ==> Dotted(p) == [s[0]] + (rest[0] + "." + Dotted(rest[1..]));
      }
    }
  }

  /** Decimal notation without leading zeros. */
  function Decimal(n: nat): (r: string)
    ensures r != []
  {
    var digit := [(n % 10) as char + '0'];
    if n < 10 then digit else Decimal(n / 10) + digit
  }

  /** Reading a number in decimal notation gives it back. */
  lemma {:induction false} NumberOfDecimal(n: nat)
    ensures Number(Decimal(n)) == Some(n)
  {
    if n >= 10 {
      NumberOfDecimal(n / 10);
      var s := Decimal(n);
      assert s[..|s| - 1] == Decimal(n / 10);
    }
  }

  /** The numeric parts of a stable version: an optional leading v and two to four numbers. */
  function VersionTuple(value: string): (r: Option<seq<nat>>)
    ensures r.Some? ==> 2 <= |r.value| <= 4
  {
    var plain := if value != [] && value[0] == 'v' then value[1..] else value;
    match Numbers(Pieces(plain))
    case None => None
    case Some(parts) => if 2 <= |parts| <= 4 then Some(parts) else None
  }

  predicate IsVersion(value: string) {
    VersionTuple(value).Some?
  }

  lemma ZeroIsVersion()
    ensures IsVersion("0.0")
  {
    PieceEnds("");
    PieceEnds("0");
    PieceEnds(".0");
    PieceEnds("0.0");
    assert "0.0"[1..] == ".0" && ".0"[1..] == "0" && "0"[1..] == "";
    var none: seq<char>, zero := [], ['0'];
    assert Pieces("0")[0] == zero && Pieces("0")[1..] == [];
    assert Pieces("0") == [zero];
    assert Pieces(".0") == [none, zero];
    assert Pieces("0.0") == [zero, zero];
    assert Number(zero) == Some(0);
    assert [zero, zero][1..] == [zero] && [zero][1..] == [];
    var no: seq<nat> := [];
    assert Numbers([]) == Some(no) && [0] + no == [0];
    assert Numbers([zero]) == Some([0]);
    assert Numbers([zero, zero]) == Some([0] + [0]);
  }

  lemma PieceEnds(s: string)
    ensures s == [] ==> Pieces(s) == [[]]
    ensures s != [] && s[0] != '.' ==> Pieces(s) == [[s[0]] + Pieces(s[1..])[0]] + Pieces(s[1..])[1..]
    ensures s != [] && s[0] == '.' ==> Pieces(s) == [[]] + Pieces(s[1..])
  {
  }

  /** A stable version identity. */
  type Version = s: string | IsVersion(s) witness (ZeroIsVersion(); "0.0")

  function Parts(value: Version): (r: seq<nat>)
    ensures 2 <= |r| <= 4
  {
    VersionTuple(value).value
  }

  // ---- Comparison ----

  /** Comparison of two tuples, a proper prefix being smaller. */
  function Lex(a: seq<nat>, b: seq<nat>): int {
    if a == [] then (if b == [] then 0 else -1)
    else if b == [] then 1
    else if a[0] < b[0] then -1
    else if a[0] > b[0] then 1
    else Lex(a[1..], b[1..])
  }

  function Zeros(n: nat): (r: seq<nat>)
    ensures |r| == n && forall i | 0 <= i < n :: r[i] == 0
  {
    seq(n, _ => 0)
  }

  function Padded(a: seq<nat>, width: nat): seq<nat>
    requires |a| <= width
  {
    a + Zeros(width - |a|)
  }

  /** Both sides padded with zeros to the wider one. */
  function Compare(a: seq<nat>, b: seq<nat>): int {
    var width := if |a| < |b| then |b| else |a|;
    Lex(Padded(a, width), Padded(b, width))
  }

  function CompareVersions(left: Version, right: Version): int {
    Compare(Parts(left), Parts(right))
  }

  /** Reference form: compare number by number, a missing one counting as zero. */
  function Rank(a: seq<nat>, b: seq<nat>): (r: int)
    ensures r in {-1, 0, 1}
    decreases |a| + |b|
  {
    if a == [] && b == [] then 0
    else
      var x := if a == [] then 0 else a[0];
      var y := if b == [] then 0 else b[0];
      if x < y then -1 else if x > y then 1 else Rank(Tail(a), Tail(b))
  }

  function Tail(a: seq<nat>): seq<nat> {
    if a == [] then [] else a[1..]
  }

  lemma PaddedTail(a: seq<nat>, width: nat)
    requires |a| <= width && 0 < width
    ensures Padded(a, width)[0] == (if a == [] then 0 else a[0])
    ensures Padded(a, width)[1..] == Padded(Tail(a), width - 1)
  {
  }

  lemma {:induction false} LexIsRank(a: seq<nat>, b: seq<nat>, width: nat)
    requires |a| <= width && |b| <= width
    ensures Lex(Padded(a, width), Padded(b, width)) == Rank(a, b)
    decreases width
  {
    if width != 0 {
      PaddedTail(a, width);
      PaddedTail(b, width);
      LexIsRank(Tail(a), Tail(b), width - 1);
      if a == [] && b == [] { assert Rank(Tail(a), Tail(b)) == 0; }
    }
  }

  lemma CompareIsRank(a: seq<nat>, b: seq<nat>)
    ensures Compare(a, b) == Rank(a, b)
  {
    LexIsRank(a, b, if |a| < |b| then |b| else |a|);
  }

  lemma {:induction false} RankFlips(a: seq<nat>, b: seq<nat>)
    ensures Rank(a, b) == -Rank(b, a)
    decreases |a| + |b|
  {
    if a != [] || b != [] { RankFlips(Tail(a), Tail(b)); }
  }

  lemma {:induction false} RankTransitive(a: seq<nat>, b: seq<nat>, c: seq<nat>)
    requires Rank(a, b) <= 0 && Rank(b, c) <= 0
    ensures Rank(a, c) <= 0
    ensures Rank(a, c) == 0 ==> Rank(a, b) == 0 && Rank(b, c) == 0
    decreases |a| + |b| + |c|
  {
    if a != [] || b != [] || c != [] {
      var x := if a == [] then 0 else a[0];
      var y := if b == [] then 0 else b[0];
      var z := if c == [] then 0 else c[0];
      if x == y == z { RankTransitive(Tail(a), Tail(b), Tail(c)); }
    }
  }

  /** TOTAL PREORDER: comparison is sign-symmetric and transitive on all stable versions. */
  lemma CompareIsTotalPreorder(a: Version, b: Version, c: Version)
    ensures CompareVersions(a, a) == 0 && CompareVersions(a, b) == -CompareVersions(b, a)
    ensures CompareVersions(a, b) <= 0 && CompareVersions(b, c) <= 0 ==> CompareVersions(a, c) <= 0
    ensures CompareVersions(a, b) < 0 && CompareVersions(b, c) <= 0 ==> CompareVersions(a, c) < 0
  {
    var x, y, z := Parts(a), Parts(b), Parts(c);
    CompareIsRank(x, x);
    CompareIsRank(x, y);
    CompareIsRank(y, x);
    CompareIsRank(y, z);
    CompareIsRank(x, z);
    RankFlips(x, x);
    RankFlips(x, y);
    hide Rank, Compare, Parts;
    if Rank(x, y) <= 0 && Rank(y, z) <= 0 { RankTransitive(x, y, z); }
  }

  /** The unpadded order refines the padded one. */
  lemma {:induction false} LexImpliesRank(a: seq<nat>, b: seq<nat>)
    requires Lex(a, b) <= 0
    ensures Rank(a, b) <= 0
    decreases |a| + |b|
  {
    if a == [] {
      if b != [] && b[0] == 0 {
        assert Lex([], b[1..]) <= 0;
        LexImpliesRank([], b[1..]);
      }
    } else if a[0] == b[0] {
      LexImpliesRank(a[1..], b[1..]);
    }
  }

  // ---- Listings and policies ----

  /** A sorted list of the distinct stable tags among the records; ties may come in any order. */
  ghost predicate IsListing(tags: seq<Version>, records: set<string>) {
    && (forall t :: t in tags <==> t in records && IsVersion(t))
    && (forall i, j | 0 <= i < j < |tags| :: tags[i] != tags[j] && Lex(Parts(tags[i]), Parts(tags[j])) <= 0)
  }

  lemma LexReflexive(a: seq<nat>)
    ensures Lex(a, a) == 0
  {
  }

  /** Sorting on the unpadded tuples puts a maximum of the padded comparison last. */
  lemma LastIsMaximal(tags: seq<Version>, records: set<string>, t: Version)
    requires IsListing(tags, records) && t in tags
    ensures CompareVersions(t, tags[|tags| - 1]) <= 0
  {
    var last := tags[|tags| - 1];
    var i :| 0 <= i < |tags| && tags[i] == t;
    LexReflexive(Parts(t));
    LexImpliesRank(Parts(t), Parts(last));
    CompareIsRank(Parts(t), Parts(last));
  }

  datatype Policy = PatchOnly | SameMinor | SameMajor | ZeroSameMinor

  function SameLine(current: seq<nat>, candidate: seq<nat>, policy: Policy): bool
    requires 2 <= |current| && 2 <= |candidate|
  {
    match policy
    case PatchOnly => current[..2] == candidate[..2]
    case SameMinor => current[..2] == candidate[..2]
    case SameMajor => current[..1] == candidate[..1]
    case ZeroSameMinor =>
      || (current[..1] == [0] && candidate[..1] == [0] && current[..2] == candidate[..2])
      || (current[..1] != [0] && current[..1] == candidate[..1])
  }

  predicate SamePolicyLine(current: Version, candidate: Version, policy: Policy) {
    SameLine(Parts(current), Parts(candidate), policy)
  }

  /** EQUIVALENCE: each policy partitions the stable versions into lines. */
  lemma PolicyIsEquivalence(a: Version, b: Version, c: Version, policy: Policy)
    ensures SamePolicyLine(a, a, policy)
    ensures SamePolicyLine(a, b, policy) <==> SamePolicyLine(b, a, policy)
    ensures SamePolicyLine(a, b, policy) && SamePolicyLine(b, c, policy) ==> SamePolicyLine(a, c, policy)
  {
    hide VersionTuple, Parts;
    var x, y, z := Parts(a), Parts(b), Parts(c);
    assert x[..2] == y[..2] ==> x[..1] == y[..1] by { assert x[..1] == x[..2][..1] && y[..1] == y[..2][..1]; }
    assert y[..2] == z[..2] ==> y[..1] == z[..1] by { assert y[..1] == y[..2][..1] && z[..1] == z[..2][..1]; }
  }
}
