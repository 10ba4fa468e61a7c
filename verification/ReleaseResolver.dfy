/**
  The release planner for one component, and why planning after applying a plan finds nothing left.
  The release page, the peeling of tags and the runner-build manifest are arbitrary oracles.
 */
module ReleaseResolver {
  import opened Wrappers
  import opened Versions

  /** The canonical assignments of one Git release component. */
  datatype Pins = Pins(tag: string, ref: string, commit: string, aliases: seq<string>)

  /** Peeling a tag gives a commit, or raises. */
  type Peel = string -> Option<string>

  datatype Update = Update(tag: Version, commit: string)

  datatype Check =
    | Blocked
    | Checked(latestCompatible: Version, latestUpstream: Version, updates: Option<Update>)

  predicate IsCommit(s: string) {
    |s| == 40 && forall i | 0 <= i < |s| :: '0' <= s[i] <= '9' || 'a' <= s[i] <= 'f'
  }

  /** The pins name one stable release whose peeled commit is the approved one. */
  predicate Consistent(p: Pins, peel: Peel) {
    && IsVersion(p.tag) && p.ref == p.tag && IsCommit(p.commit)
    && (forall i | 0 <= i < |p.aliases| :: p.aliases[i] == p.tag)
    && peel(p.tag) == Some(p.commit)
  }

  function Compatible(current: Version, tags: seq<Version>, policy: Policy): (r: seq<Version>)
    ensures forall t :: t in r <==> t in tags && SamePolicyLine(current, t, policy)
  {
    if tags == [] then []
    else
      var last := tags[|tags| - 1];
      var before := Compatible(current, tags[..|tags| - 1], policy);
      if SamePolicyLine(current, last, policy) then before + [last] else before
  }

  /** (latest upstream, latest compatible), or None when the resolver raises. */
  function Latest(current: Version, tags: seq<Version>, policy: Policy): Option<(Version, Version)> {
    if tags == [] then None
    else
      var compatible := Compatible(current, tags, policy);
      if compatible == [] then None
      else if CompareVersions(current, tags[|tags| - 1]) > 0 then None
      else Some((tags[|tags| - 1], compatible[|compatible| - 1]))
  }

  function ResolveGitRelease(p: Pins, tags: seq<Version>, peel: Peel, policy: Policy): Check {
    if !Consistent(p, peel) then Blocked
    else match Latest(p.tag, tags, policy)
      case None => Blocked
      case Some((upstream, compatible)) =>
        var behind := CompareVersions(p.tag, compatible) < 0;
        if behind && peel(compatible) == None then Blocked
        else if upstream != compatible && peel(upstream) == None then Blocked
        else Checked(compatible, upstream, if behind then Some(Update(compatible, peel(compatible).value)) else None)
  }

  /** Applying an update rewrites tag and commit; ref and aliases are derived from the tag. */
  function Apply(p: Pins, u: Update): Pins {
    Pins(u.tag, u.tag, u.commit, seq(|p.aliases|, _ => u.tag))
  }

  lemma PrefixIsListing(tags: seq<Version>, records: set<string>)
    requires IsListing(tags, records) && tags != []
    ensures IsListing(tags[..|tags| - 1], records - {tags[|tags| - 1]})
  {
    hide Parts, Lex, VersionTuple;
    var init, last := tags[..|tags| - 1], tags[|tags| - 1];
    assert tags == init + [last];
  }

  lemma {:induction false} LastCompatibleIsMaximal(current: Version, tags: seq<Version>, records: set<string>,
      policy: Policy, t: Version)
    requires IsListing(tags, records) && t in Compatible(current, tags, policy)
    ensures var c := Compatible(current, tags, policy); CompareVersions(t, c[|c| - 1]) <= 0
    decreases |tags|
  {
    hide CompareVersions, SamePolicyLine, VersionTuple, Parts, Lex, IsListing;
    var init, last := tags[..|tags| - 1], tags[|tags| - 1];
    assert tags == init + [last];
    if SamePolicyLine(current, last, policy) {
      LastIsMaximal(tags, records, t);
    } else {
      PrefixIsListing(tags, records);
      LastCompatibleIsMaximal(current, init, records - {last}, policy, t);
    }
  }

  /** The newest compatible release is listed, on the line, and no release on the line is newer. */
  lemma LatestIsBest(current: Version, tags: seq<Version>, records: set<string>, policy: Policy)
    requires IsListing(tags, records) && Latest(current, tags, policy).Some?
    ensures var (upstream, compatible) := Latest(current, tags, policy).value;
            && compatible in records && upstream in records && SamePolicyLine(current, compatible, policy)
            && (forall t: Version | t in records :: CompareVersions(t, upstream) <= 0)
            && (forall t: Version | t in records && SamePolicyLine(current, t, policy) ::
                CompareVersions(t, compatible) <= 0)
  {
    hide CompareVersions, SamePolicyLine, VersionTuple, Parts, Lex;
    var c := Compatible(current, tags, policy);
    var newest := c[|c| - 1];
    assert newest in c && tags[|tags| - 1] in tags;
    forall t: Version | t in records
      ensures CompareVersions(t, tags[|tags| - 1]) <= 0
      ensures SamePolicyLine(current, t, policy) ==> CompareVersions(t, newest) <= 0
    {
      assert t in tags;
      LastIsMaximal(tags, records, t);
      if SamePolicyLine(current, t, policy) { LastCompatibleIsMaximal(current, tags, records, policy, t); }
    }
  }

  /**
    Every update strictly raises the version, stays on its policy line, never passes the latest
    upstream release, is a listed release no other on the line exceeds, and carries its commit.
   */
  lemma UpdatesAreSafe(p: Pins, tags: seq<Version>, records: set<string>, peel: Peel, policy: Policy)
    requires IsListing(tags, records)
    requires ResolveGitRelease(p, tags, peel, policy).Checked? && ResolveGitRelease(p, tags, peel, policy).updates.Some?
    ensures var check := ResolveGitRelease(p, tags, peel, policy);
            var u := check.updates.value;
            && u.tag in records && peel(u.tag) == Some(u.commit)
            && IsVersion(p.tag) && CompareVersions(p.tag, u.tag) < 0 && SamePolicyLine(p.tag, u.tag, policy)
            && CompareVersions(u.tag, check.latestUpstream) <= 0
            && (forall t: Version | t in records && SamePolicyLine(p.tag, t, policy) :: CompareVersions(t, u.tag) <= 0)
  {
    hide CompareVersions, SamePolicyLine, VersionTuple, Compatible;
    LatestIsBest(p.tag, tags, records, policy);
  }

  /** On the line of an applied update any listing ends no higher than the update. */
  lemma NothingNewerOnTheLine(current: Version, applied: Version, again: seq<Version>, records: set<string>,
      policy: Policy)
    requires IsListing(again, records) && applied in records && SamePolicyLine(current, applied, policy)
    requires forall t: Version | t in records && SamePolicyLine(current, t, policy) :: CompareVersions(t, applied) <= 0
    ensures Latest(applied, again, policy).Some?
    ensures CompareVersions(applied, Latest(applied, again, policy).value.1) >= 0
  {
    hide CompareVersions, SamePolicyLine, VersionTuple;
    PolicyIsEquivalence(applied, applied, applied, policy);
    assert applied in again;
    LastIsMaximal(again, records, applied);
    var c := Compatible(applied, again, policy);
    assert applied in c;
    var newest := c[|c| - 1];
    assert newest in c;
    PolicyIsEquivalence(current, applied, newest, policy);
    CompareIsTotalPreorder(newest, applied, applied);
  }

  /** The second check goes through: the applied pins and the latest release can be confirmed. */
  predicate Confirmable(u: Update, again: seq<Version>, peel: Peel, policy: Policy) {
    var latest := Latest(u.tag, again, policy);
    && IsCommit(u.commit)
    && (latest.Some? && latest.value.0 != latest.value.1 ==> peel(latest.value.0).Some?)
  }

  /**
    CONVERGENCE.  Applying the planned update and resolving again against the same releases, in
    whatever order ties are listed, plans nothing more; the second check is not blocked exactly
    when the applied commit is a full commit id and the latest release, where it differs from the
    compatible one, can be peeled for its review.
   */
  lemma PlanConverges(p: Pins, tags: seq<Version>, again: seq<Version>, records: set<string>, peel: Peel,
      policy: Policy)
    requires IsListing(tags, records) && IsListing(again, records)
    requires ResolveGitRelease(p, tags, peel, policy).Checked? && ResolveGitRelease(p, tags, peel, policy).updates.Some?
    ensures var u := ResolveGitRelease(p, tags, peel, policy).updates.value;
            var second := ResolveGitRelease(Apply(p, u), again, peel, policy);
            && (second.Checked? ==> second.updates == None)
            && (second.Checked? <==> Confirmable(u, again, peel, policy))
  {
    hide CompareVersions, SamePolicyLine, VersionTuple, Latest, IsCommit;
    var u := ResolveGitRelease(p, tags, peel, policy).updates.value;
    UpdatesAreSafe(p, tags, records, peel, policy);
    NothingNewerOnTheLine(p.tag, u.tag, again, records, policy);
  }

  // ---- The interpreter pin ----

  /** `built` says whether the runner manifest has a build of a version. */
  function ResolvePython(current: string, tags: seq<Version>, built: Version -> bool)
    : Option<(Version, Option<Version>)>
  {
    if !IsVersion(current) then None
    else match Latest(current, tags, PatchOnly)
      case None => None
      case Some((upstream, compatible)) =>
        if CompareVersions(current, compatible) < 0 then
          if built(compatible) then Some((compatible, Some(compatible))) else None
        else Some((compatible, None))
  }

  /** The interpreter pin converges too: after its update the check succeeds and proposes nothing. */
  lemma PythonConverges(current: string, tags: seq<Version>, again: seq<Version>, records: set<string>,
      built: Version -> bool)
    requires IsListing(tags, records) && IsListing(again, records)
    requires ResolvePython(current, tags, built).Some? && ResolvePython(current, tags, built).value.1.Some?
    ensures var applied := ResolvePython(current, tags, built).value.1.value;
            ResolvePython(applied, again, built).Some? && ResolvePython(applied, again, built).value.1 == None
  {
    hide CompareVersions, SamePolicyLine, VersionTuple, Latest;
    var applied := ResolvePython(current, tags, built).value.1.value;
    LatestIsBest(current, tags, records, PatchOnly);
    NothingNewerOnTheLine(current, applied, again, records, PatchOnly);
  }
}
