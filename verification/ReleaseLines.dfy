/** Versions as texts: which are stable, what their lines are, and when a release check goes through. */
module ReleaseLines {
  import opened Wrappers
  import opened Characters
  import opened Versions
  import opened ReleaseResolver

  // ---- Texts and numbers ----

  /** Numbers in decimal notation, joined by dots. */
  function DottedNumbers(ns: seq<nat>): string
    requires ns != []
  {
    Dotted(DecimalPieces(ns))
  }

  function DecimalPieces(ns: seq<nat>): (r: seq<string>)
    ensures |r| == |ns| && forall i | 0 <= i < |r| :: r[i] == Decimal(ns[i])
  {
    seq(|ns|, i requires 0 <= i < |ns| => Decimal(ns[i]))
  }

  lemma {:induction false} DecimalHasNoDot(n: nat)
    ensures forall c | c in Decimal(n) :: c in DIGITS
  {
    assert forall d | 0 <= d < 10 :: (d as char + '0') == DIGITS[d];
    if n >= 10 { DecimalHasNoDot(n / 10); }
  }

  lemma {:induction false} PiecesOfPiece(s: string)
    requires '.' !in s
    ensures Pieces(s) == [s]
  {
    if s != "" {
      PiecesOfPiece(s[1..]);
      assert s == [s[0]] + s[1..];
    }
  }

  lemma {:induction false} PiecesOfFirst(s: string, rest: string)
    requires '.' !in s
    ensures Pieces(s + "." + rest) == [s] + Pieces(rest)
  {
    var all := s + "." + rest;
    if s == "" {
      assert all[1..] == rest && all[0] == '.';
    } else {
      assert all[1..] == s[1..] + "." + rest && all[0] == s[0];
      PiecesOfFirst(s[1..], rest);
      assert s == [s[0]] + s[1..];
    }
  }

  lemma {:induction false} PiecesOfDotted(ps: seq<string>)
    requires ps != [] && forall p | p in ps :: '.' !in p
    ensures Pieces(Dotted(ps)) == ps
  {
    if |ps| == 1 {
      PiecesOfPiece(ps[0]);
      assert ps == [ps[0]];
    } else {
      PiecesOfFirst(ps[0], Dotted(ps[1..]));
      PiecesOfDotted(ps[1..]);
      assert ps == [ps[0]] + ps[1..];
    }
  }

  lemma {:induction false} NumbersOfDecimals(ns: seq<nat>)
    ensures Numbers(DecimalPieces(ns)) == Some(ns)
  {
    hide Number, Decimal;
    if ns != [] {
      NumberOfDecimal(ns[0]);
      NumbersOfDecimals(ns[1..]);
      assert DecimalPieces(ns)[1..] == DecimalPieces(ns[1..]);
      assert ns == [ns[0]] + ns[1..];
    }
  }

  lemma DottedStart(ns: seq<nat>)
    requires ns != []
    ensures DottedNumbers(ns) != "" && DottedNumbers(ns)[0] in DIGITS
  {
    DecimalHasNoDot(ns[0]);
    assert DecimalPieces(ns)[0] == Decimal(ns[0]) && Decimal(ns[0])[0] in Decimal(ns[0]);
  }

  /** ROUND TRIP: two to four numbers, with or without a leading v, are a stable version with just these parts. */
  lemma VersionOfNumbers(ns: seq<nat>)
    requires ns != []
    ensures VersionTuple(DottedNumbers(ns)) == if 2 <= |ns| <= 4 then Some(ns) else None
    ensures VersionTuple("v" + DottedNumbers(ns)) == if 2 <= |ns| <= 4 then Some(ns) else None
  {
    hide Pieces, Numbers, Dotted, Decimal;
    var ps := DecimalPieces(ns);
    forall p | p in ps
      ensures '.' !in p
    {
      var i :| 0 <= i < |ps| && ps[i] == p;
      DecimalHasNoDot(ns[i]);
    }
    PiecesOfDotted(ps);
    NumbersOfDecimals(ns);
    DottedStart(ns);
    assert ("v" + DottedNumbers(ns))[1..] == DottedNumbers(ns);
  }

  predicate DigitsOnly(s: string) {
    s != "" && forall c | c in s :: c in DIGITS
  }

  lemma DigitsSnoc(s: string)
    requires s != ""
    ensures DigitsOnly(s) <==> IsDigit(s[|s| - 1]) && (|s| == 1 || DigitsOnly(s[..|s| - 1]))
  {
    hide IsDigit;
    assert s == s[..|s| - 1] + [s[|s| - 1]];
    DigitIs(s[|s| - 1]);
  }

  lemma DigitIs(c: char)
    ensures IsDigit(c) <==> c in DIGITS
  {
    DigitMeans(c);
  }

  lemma {:induction false} NumberMeans(s: string)
    ensures Number(s).Some? <==> DigitsOnly(s)
  {
    hide DigitsOnly, IsDigit;
    if s == "" {
      NoDigits();
    } else {
      DigitsSnoc(s);
      NumberMeans(s[..|s| - 1]);
    }
  }

  lemma NoDigits()
    ensures !DigitsOnly("")
  {
  }

  lemma {:induction false} NumbersMean(ps: seq<string>)
    ensures Numbers(ps).Some? <==> forall p | p in ps :: DigitsOnly(p)
    ensures Numbers(ps).Some? ==> |Numbers(ps).value| == |ps|
  {
    hide Number, DigitsOnly;
    if ps != [] {
      NumberMeans(ps[0]);
      NumbersMean(ps[1..]);
      assert forall p :: p in ps <==> p == ps[0] || p in ps[1..];
    }
  }

  /** A text is a stable version exactly when it is two to four runs of digits between dots, after at most one v. */
  lemma VersionExactlyWhen(s: string)
    ensures IsVersion(s) <==>
            exists ps: seq<string> ::
              && 2 <= |ps| <= 4 && (forall p | p in ps :: DigitsOnly(p))
              && (s == Dotted(ps) || s == "v" + Dotted(ps))
  {
    hide Pieces, Numbers, Dotted, DigitsOnly;
    var plain := if s != [] && s[0] == 'v' then s[1..] else s;
    PiecesJoin(plain);
    NumbersMean(Pieces(plain));
    if IsVersion(s) {
      var ps := Pieces(plain);
      assert s == plain || s == "v" + plain;
      assert 2 <= |ps| <= 4 && (s == Dotted(ps) || s == "v" + Dotted(ps));
    }
    forall ps: seq<string> |
        && 2 <= |ps| <= 4 && (forall p | p in ps :: DigitsOnly(p))
        && (s == Dotted(ps) || s == "v" + Dotted(ps))
      ensures IsVersion(s)
    {
      DigitsHaveNoDots(ps);
      PiecesOfDotted(ps);
      DottedStartsWithDigit(ps);
      assert ("v" + Dotted(ps))[1..] == Dotted(ps);
      NumbersMean(ps);
    }
  }

  lemma DigitsHaveNoDots(ps: seq<string>)
    requires forall p | p in ps :: DigitsOnly(p)
    ensures forall p | p in ps :: '.' !in p
  {
  }

  lemma DottedStartsWithDigit(ps: seq<string>)
    requires ps != [] && forall p | p in ps :: DigitsOnly(p)
    ensures Dotted(ps) != "" && Dotted(ps)[0] in DIGITS && Dotted(ps)[0] != 'v'
  {
    assert ps[0] in ps && DigitsOnly(ps[0]);
    assert ps[0][0] in ps[0];
  }

  // ---- Lines ----

  /** A version that spells these numbers, with or without the leading v. */
  ghost predicate Spells(s: string, ns: seq<nat>) {
    2 <= |ns| <= 4 && (s == DottedNumbers(ns) || s == "v" + DottedNumbers(ns))
  }

  /**
    THE FOUR POLICIES, on the numbers a version spells: patch and minor updates keep the first two
    numbers, major updates the first one, and the last policy the second one as well below 1.
   */
  lemma LinesMean(a: string, b: string, x: seq<nat>, y: seq<nat>)
    requires Spells(a, x) && Spells(b, y)
    ensures IsVersion(a) && IsVersion(b)
    ensures SamePolicyLine(a, b, PatchOnly) <==> x[0] == y[0] && x[1] == y[1]
    ensures SamePolicyLine(a, b, SameMinor) <==> x[0] == y[0] && x[1] == y[1]
    ensures SamePolicyLine(a, b, SameMajor) <==> x[0] == y[0]
    ensures SamePolicyLine(a, b, ZeroSameMinor) <==> x[0] == y[0] && (x[0] == 0 ==> x[1] == y[1])
  {
    hide VersionTuple, DottedNumbers;
    VersionOfNumbers(x);
    VersionOfNumbers(y);
    assert Parts(a) == x && Parts(b) == y;
    TwoNumbers(x);
    TwoNumbers(y);
  }

  lemma TwoNumbers(ns: seq<nat>)
    requires 2 <= |ns|
    ensures ns[..1] == [ns[0]] && ns[..2] == [ns[0], ns[1]]
  {
  }

  /** The missing numbers of the shorter version count as zero; the first difference decides. */
  lemma OrderMeans(a: string, b: string, x: seq<nat>, y: seq<nat>)
    requires Spells(a, x) && Spells(b, y)
    ensures IsVersion(a) && IsVersion(b)
    ensures CompareVersions(a, b) < 0 <==>
            exists k :: 0 <= k < 4 && At(x, k) < At(y, k) && forall i | 0 <= i < k :: At(x, i) == At(y, i)
    ensures CompareVersions(a, b) == 0 <==> forall i | 0 <= i < 4 :: At(x, i) == At(y, i)
  {
    hide VersionTuple, DottedNumbers, Compare, Rank;
    VersionOfNumbers(x);
    VersionOfNumbers(y);
    assert Parts(a) == x && Parts(b) == y;
    CompareIsRank(x, y);
    RankMeans(x, y, 4);
  }

  function At(ns: seq<nat>, i: nat): nat {
    if i < |ns| then ns[i] else 0
  }

  lemma {:induction false} RankMeans(x: seq<nat>, y: seq<nat>, n: nat)
    requires |x| <= n && |y| <= n
    ensures Rank(x, y) < 0 <==>
            exists k :: 0 <= k < n && At(x, k) < At(y, k) && forall i | 0 <= i < k :: At(x, i) == At(y, i)
    ensures Rank(x, y) == 0 <==> forall i | 0 <= i < n :: At(x, i) == At(y, i)
    decreases n
  {
    if n != 0 {
      var s, t := Tail(x), Tail(y);
      RankMeans(s, t, n - 1);
      assert forall i: nat :: At(s, i) == At(x, i + 1) && At(t, i) == At(y, i + 1);
      RankStep(x, y);
      if At(x, 0) == At(y, 0) {
        forall k | 0 <= k < n - 1 && At(s, k) < At(t, k) && forall i | 0 <= i < k :: At(s, i) == At(t, i)
          ensures At(x, k + 1) < At(y, k + 1) && forall i | 0 <= i < k + 1 :: At(x, i) == At(y, i)
        {
          forall i | 0 <= i < k + 1 ensures At(x, i) == At(y, i) { if 0 < i { assert At(s, i - 1) == At(t, i - 1); } }
        }
        forall k | 0 <= k < n && At(x, k) < At(y, k) && forall i | 0 <= i < k :: At(x, i) == At(y, i)
          ensures 0 < k && At(s, k - 1) < At(t, k - 1) && forall i | 0 <= i < k - 1 :: At(s, i) == At(t, i)
        {
        }
        forall i | 0 <= i < n && forall m | 0 <= m < n - 1 :: At(s, m) == At(t, m)
          ensures At(x, i) == At(y, i)
        {
          if 0 < i { assert At(s, i - 1) == At(t, i - 1); }
        }
      } else {
        forall k | 0 <= k < n && At(x, k) < At(y, k) && forall i | 0 <= i < k :: At(x, i) == At(y, i)
          ensures k == 0
        {
        }
      }
    }
  }

  lemma RankStep(x: seq<nat>, y: seq<nat>)
    ensures Rank(x, y) == if At(x, 0) < At(y, 0) then -1 else if At(x, 0) > At(y, 0) then 1 else Rank(Tail(x), Tail(y))
  {
    if x == [] && y == [] { assert Rank([], []) == 0; }
  }

  // ---- Release checks ----

  predicate IsCommitText(s: string) {
    |s| == 40 && forall c | c in s :: c in LOWER_HEX
  }

  lemma CommitMeans(s: string)
    ensures IsCommit(s) <==> IsCommitText(s)
  {
    forall c: char
      ensures ('0' <= c <= '9' || 'a' <= c <= 'f') <==> c in LOWER_HEX
    {
      HexMeans(c);
    }
    assert forall i | 0 <= i < |s| :: s[i] in s;
  }

  /** Tag, ref, aliases and approved commit all name the one release the tag peels to. */
  ghost predicate NamesOneRelease(p: Pins, peel: Peel) {
    && IsVersion(p.tag) && p.ref == p.tag && (forall alias | alias in p.aliases :: alias == p.tag)
    && IsCommitText(p.commit) && peel(p.tag) == Some(p.commit)
  }

  /** The line has a release, and the listing one that is not older than the current version. */
  ghost predicate IsListed(current: Version, records: set<string>, policy: Policy) {
    && (exists t: Version :: t in records && SamePolicyLine(current, t, policy))
    && (exists t: Version :: t in records && CompareVersions(current, t) <= 0)
  }

  lemma LatestExactlyWhen(current: Version, tags: seq<Version>, records: set<string>, policy: Policy)
    requires IsListing(tags, records)
    ensures Latest(current, tags, policy).Some? <==> IsListed(current, records, policy)
  {
    hide CompareVersions, SamePolicyLine, VersionTuple, Parts, Lex;
    var compatible := Compatible(current, tags, policy);
    if compatible != [] {
      assert compatible[0] in compatible;
      var last := tags[|tags| - 1];
      assert last in tags;
      forall t: Version | t in records && CompareVersions(current, t) <= 0
        ensures CompareVersions(current, last) <= 0
      {
        assert t in tags;
        LastIsMaximal(tags, records, t);
        CompareIsTotalPreorder(current, t, last);
      }
    }
    if t: Version :| t in records && SamePolicyLine(current, t, policy) {
      assert t in tags && t in compatible;
    }
  }

  /**
    A CHECK GOES THROUGH exactly when the pins name one release, the line is listed, and the releases it
    would propose or review can be peeled; it updates exactly when the pins are behind their line.
   */
  lemma CheckedExactlyWhen(p: Pins, tags: seq<Version>, records: set<string>, peel: Peel, policy: Policy)
    requires IsListing(tags, records)
    ensures var check := ResolveGitRelease(p, tags, peel, policy);
            && (check.Checked? ==> NamesOneRelease(p, peel) && IsListed(p.tag, records, policy))
            && (NamesOneRelease(p, peel) && IsListed(p.tag, records, policy) ==>
                  && Latest(p.tag, tags, policy).Some?
                  && var (upstream, compatible) := Latest(p.tag, tags, policy).value;
                     var behind := CompareVersions(p.tag, compatible) < 0;
                     && (check.Checked? <==>
                           (behind ==> peel(compatible).Some?) && (upstream != compatible ==> peel(upstream).Some?))
                     && (check.Checked? ==>
                           check.latestCompatible == compatible && check.latestUpstream == upstream
                           && (check.updates.Some? <==> behind)))
  {
    hide CompareVersions, SamePolicyLine, VersionTuple, Latest, IsCommit, IsListed;
    CommitMeans(p.commit);
    assert forall i | 0 <= i < |p.aliases| :: p.aliases[i] in p.aliases;
    if IsVersion(p.tag) { LatestExactlyWhen(p.tag, tags, records, policy); }
  }

  /** The interpreter pin is checked exactly when it is listed and a newer patch release has a build. */
  lemma PythonCheckedExactlyWhen(current: string, tags: seq<Version>, records: set<string>, built: Version -> bool)
    requires IsListing(tags, records)
    ensures var check := ResolvePython(current, tags, built);
            && (check.Some? ==> IsVersion(current) && IsListed(current, records, PatchOnly))
            && (IsVersion(current) && IsListed(current, records, PatchOnly) ==>
                  && Latest(current, tags, PatchOnly).Some?
                  && var compatible := Latest(current, tags, PatchOnly).value.1;
                     var behind := CompareVersions(current, compatible) < 0;
                     && (check.Some? <==> (behind ==> built(compatible)))
                     && (check.Some? ==>
                           check.value == (compatible, if behind then Some(compatible) else None)))
  {
    hide CompareVersions, SamePolicyLine, VersionTuple, Latest, IsListed;
    if IsVersion(current) { LatestExactlyWhen(current, tags, records, PatchOnly); }
  }
}
