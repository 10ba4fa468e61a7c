/**
  The maintenance transaction over the tracked files of a worktree: edit common.sh, regenerate the
  views, and roll back on any failure.  The edit and the generators may do anything to any file.
 */
module MaintenanceTransaction {
  import opened Wrappers

  type Path = string

  datatype File = File(data: string, mode: nat, regular: bool)

  type Files = map<Path, File>

  /** An external step: the files it leaves, whether it raised, and whether it reports all views current. */
  datatype Step = Step(files: Files, raised: bool, current: bool)

  /** The edit of common.sh, the generators in write mode, the generators in check mode. */
  datatype Tools = Tools(edit: Files -> Step, sync: Files -> Step, check: Files -> Step)

  /** A validated plan with the two digests it is bound to; `matches` compares its old values with common.sh. */
  datatype Plan = Plan(valid: bool, safe: bool, source: string, candidate: string, matches: string -> bool)

  datatype Outcome =
    | Refused                      // raised before the transaction began
    | Changed(paths: set<Path>)    // returned
    | RolledBack                   // raised after a completed rollback
    | RollbackFailed               // raised because the rollback could not complete

  predicate Executable(f: File) {
    (f.mode / 64) % 2 == 1
  }

  /** `git diff --name-only`: tracked paths that are gone, or differ in content, kind or executable bit. */
  function Diff(index: Files, files: Files): set<Path> {
    set p | p in index && (p !in files || files[p].data != index[p].data || files[p].regular != index[p].regular
                           || Executable(files[p]) != Executable(index[p]))
  }

  /** A clean worktree: exactly the tracked files, none different. */
  predicate Clean(index: Files, files: Files) {
    files.Keys == index.Keys && Diff(index, files) == {}
  }

  // ---- The transaction body as a function of the files it starts from ----

  datatype Attempt = Failed(files: Files) | Succeeded(files: Files)

  function Body(index: Files, start: Files, plan: Plan, tools: Tools, digest: string -> string,
                allowed: set<Path>, common: Path): Attempt
  {
    if common !in start || digest(start[common].data) != plan.source || !plan.matches(start[common].data) then
        Failed(start)
    else
      var edit := tools.edit(start);
      if edit.raised || common !in edit.files || digest(edit.files[common].data) != plan.candidate then
          Failed(edit.files)
      else
        var sync := tools.sync(edit.files);
        if sync.raised || !sync.current then Failed(sync.files)
        else
          var check := tools.check(sync.files);
          if check.raised || !check.current then Failed(check.files)
          else if Diff(index, check.files) <= allowed then Succeeded(check.files)
          else Failed(check.files)
  }

  class Worktree {
    const index: Files
    const allowed: set<Path>
    const common: Path
    const digest: string -> string
    var files: Files

    constructor (index: Files, allowed: set<Path>, common: Path, digest: string -> string, files: Files)
      ensures this.index == index && this.allowed == allowed && this.common == common
      ensures this.digest == digest && this.files == files
    {
      this.index, this.allowed, this.common, this.digest, this.files := index, allowed, common, digest, files;
    }

    /** Content and permission bits of every allowed file that exists; an irregular file raises. */
    method SnapshotAllowedViews() returns (r: Option<Files>)
      ensures r.Some? <==> forall p | p in allowed && p in files :: files[p].regular
      ensures r.Some? ==> r.value == map p | p in allowed && p in files :: files[p]
    {
      var snapshots: Files := map[];
      var todo := allowed;
      while todo != {}
        invariant todo <= allowed
        invariant snapshots == map p | p in allowed - todo && p in files :: files[p]
        invariant forall p | p in allowed - todo && p in files :: files[p].regular
      {
        var p :| p in todo;
        if p in files {
          if !files[p].regular { return None; }
          snapshots := snapshots[p := files[p]];
        }
        todo := todo - {p};
      }
      r := Some(snapshots);
    }

    /**
      Restores every changed path from its snapshot.  A changed path outside the allowed set stops
      the rollback before anything is restored; so would an allowed path without a snapshot.
     */
    method RollbackAllowedViews(snapshots: Files) returns (completed: bool)
      requires forall p | p in snapshots :: snapshots[p].regular
      modifies this`files
      ensures completed ==> Diff(index, old(files)) <= allowed * snapshots.Keys
      ensures Diff(index, old(files)) <= allowed && Diff(index, old(files)) <= snapshots.Keys ==> completed
      ensures completed ==> forall p :: p in Diff(index, old(files)) ==> p in files && files[p] == snapshots[p]
      ensures completed ==>
                forall p :: p !in Diff(index, old(files)) ==>
                  (p in files <==> p in old(files)) && (p in files ==> files[p] == old(files)[p])
      ensures !(Diff(index, old(files)) <= allowed) ==> !completed && files == old(files)
    {
      var changed := Diff(index, files);
      if changed - allowed != {} { return false; }
      assert changed == changed * allowed + (changed - allowed);
      var todo := changed;
      while todo != {}
        invariant todo <= changed && changed == Diff(index, old(files)) && changed <= allowed
        invariant changed - todo <= snapshots.Keys
        invariant forall p :: p in changed - todo ==> p in files && files[p] == snapshots[p]
        invariant forall p :: p !in changed - todo ==>
                    (p in files <==> p in old(files)) && (p in files ==> files[p] == old(files)[p])
      {
        var p :| p in todo;
        if p !in snapshots { return false; }
        files := files[p := snapshots[p]];
        todo := todo - {p};
      }
      completed := true;
    }

    method RunBody(plan: Plan, tools: Tools) returns (ok: bool)
      modifies this`files
      ensures var body := Body(index, old(files), plan, tools, digest, allowed, common);
              files == body.files && (ok <==> body.Succeeded?)
    {
      if common !in files || digest(files[common].data) != plan.source
          || !plan.matches(files[common].data) { return false; }
      var edit := tools.edit(files);
      files := edit.files;
      if edit.raised || common !in files || digest(files[common].data) != plan.candidate { return false; }
      var sync := tools.sync(files);
      files := sync.files;
      if sync.raised || !sync.current { return false; }
      var check := tools.check(files);
      files := check.files;
      if check.raised || !check.current { return false; }
      ok := Diff(index, files) <= allowed;
    }

    /**
      TRANSACTION.  It returns only with allowlisted tracked changes; a rollback that completes gives
      every tracked file its initial bytes; and the rollback completes exactly when the failing
      steps touched no tracked path outside the allowed set, otherwise nothing at all is restored.
     */
    method ApplySafeUpdates(plan: Plan, tools: Tools) returns (outcome: Outcome)
      modifies this`files
      ensures outcome.Refused? ==> files == old(files)
      ensures outcome.Refused? <==>
                !(plan.valid && plan.safe && Ready(index, old(files), allowed))
      ensures var body := Body(index, old(files), plan, tools, digest, allowed, common);
              !outcome.Refused? ==>
                && (outcome.Changed? <==> body.Succeeded?)
                && (outcome.RollbackFailed? <==> body.Failed? && !(Diff(index, body.files) <= allowed))
                && (outcome.Changed? || outcome.RollbackFailed? ==> files == body.files)
      ensures outcome.Changed? ==> outcome.paths == Diff(index, files) && outcome.paths <= allowed
      ensures outcome.RolledBack? ==>
                forall p :: p in index ==> p in files && p in old(files) && files[p].data == old(files)[p].data
    {
      if !plan.valid || !plan.safe || !Clean(index, files) { return Refused; }
      hide Body, Diff, Clean;
      var snapshots := SnapshotAllowedViews();
      if snapshots.None? { return Refused; }
      var ok := RunBody(plan, tools);
      if ok { return Changed(Diff(index, files)); }
      ghost var failed := files;
      ChangedIsSnapshotted(index, old(files), failed, allowed, snapshots.value);
      var completed := RollbackAllowedViews(snapshots.value);
      if completed { RollbackRestores(index, old(files), failed, files, allowed, snapshots.value); }
      outcome := if completed then RolledBack else RollbackFailed;
    }
  }

  /** In a clean worktree every allowed tracked path was snapshotted. */
  lemma ChangedIsSnapshotted(index: Files, start: Files, failed: Files, allowed: set<Path>, snapshots: Files)
    requires Clean(index, start)
    requires snapshots == map p | p in allowed && p in start :: start[p]
    ensures Diff(index, failed) <= allowed ==> Diff(index, failed) <= snapshots.Keys
  {
  }

  lemma RollbackRestores(index: Files, start: Files, failed: Files, end: Files, allowed: set<Path>, snapshots: Files)
    requires Clean(index, start)
    requires snapshots == map p | p in allowed && p in start :: start[p]
    requires Diff(index, failed) <= allowed * snapshots.Keys
    requires forall p :: p in Diff(index, failed) ==> p in end && end[p] == snapshots[p]
    requires forall p :: p !in Diff(index, failed) ==> (p in end <==> p in failed) && (p in end ==> end[p] == failed[p])
    ensures forall p :: p in index ==> p in end && p in start && end[p].data == start[p].data
  {
    forall p | p in index
      ensures p in end && p in start && end[p].data == start[p].data
    {
      assert p !in Diff(index, start);
      assert p in Diff(index, failed) || p !in Diff(index, failed);
    }
  }

  // ---- The candidate digest ----

  /** A step that leaves common.sh as it finds it. */
  ghost predicate Preserves(step: Files -> Step, common: Path) {
    forall f: Files | common in f :: common in step(f).files && step(f).files[common].data == f[common].data
  }

  /** On success common.sh matches the bound candidate, if both generator runs leave it alone. */
  lemma SuccessMatchesCandidate(index: Files, start: Files, plan: Plan, tools: Tools, digest: string -> string,
                                allowed: set<Path>, common: Path)
    requires Body(index, start, plan, tools, digest, allowed, common).Succeeded?
    requires Preserves(tools.sync, common) && Preserves(tools.check, common)
    ensures var end := Body(index, start, plan, tools, digest, allowed, common).files;
            common in end && digest(end[common].data) == plan.candidate
  {
    var edit := tools.edit(start);
    var sync := tools.sync(edit.files);
    assert common in sync.files && sync.files[common].data == edit.files[common].data;
  }

  /** A worktree the transaction starts from: clean, and the allowed files in it are regular. */
  predicate Ready(index: Files, start: Files, allowed: set<Path>) {
    Clean(index, start) && forall p | p in allowed && p in start :: start[p].regular
  }

  /** Whatever valid safe plan is applied to a ready worktree by whatever edit, a success leaves the bound candidate. */
  ghost predicate AlwaysTheCandidate(index: Files, sync: Files -> Step, check: Files -> Step, digest: string -> string,
                                     allowed: set<Path>, common: Path) {
    forall start: Files, plan: Plan, edit: Files -> Step | plan.valid && plan.safe && Ready(index, start, allowed) ::
      var body := Body(index, start, plan, Tools(edit, sync, check), digest, allowed, common);
      body.Succeeded? ==> common in body.files && digest(body.files[common].data) == plan.candidate
  }

  /** A property of the generators alone: two accepted runs keep the digest of common.sh. */
  ghost predicate KeepsDigest(f: Files, index: Files, sync: Files -> Step, check: Files -> Step,
      digest: string -> string, allowed: set<Path>, common: Path)
    requires common in f
  {
    var s := sync(f);
    var c := check(s.files);
    !s.raised && s.current && !c.raised && c.current && Diff(index, c.files) <= allowed ==>
      common in c.files && digest(c.files[common].data) == digest(f[common].data)
  }

  /**
    In a worktree that tracks common.sh and regular allowed files, every success leaves the bound
    candidate exactly for generators whose accepted runs keep the digest of common.sh.
   */
  lemma CandidateExactlyWhenDigestIsKept(index: Files, sync: Files -> Step, check: Files -> Step,
      digest: string -> string, allowed: set<Path>, common: Path)
    requires common in index && Ready(index, index, allowed)
    ensures AlwaysTheCandidate(index, sync, check, digest, allowed, common) <==>
            forall f: Files | common in f :: KeepsDigest(f, index, sync, check, digest, allowed, common)
  {
    if AlwaysTheCandidate(index, sync, check, digest, allowed, common) {
      forall f: Files | common in f
        ensures KeepsDigest(f, index, sync, check, digest, allowed, common)
      {
        var plan := Plan(true, true, digest(index[common].data), digest(f[common].data), _ => true);
        var edit := (g: Files) => Step(f, false, true);
        var body := Body(index, index, plan, Tools(edit, sync, check), digest, allowed, common);
        assert body.Succeeded? ==> common in body.files && digest(body.files[common].data) == plan.candidate;
      }
    }
    if forall f: Files | common in f :: KeepsDigest(f, index, sync, check, digest, allowed, common) {
      forall start: Files, plan: Plan, edit: Files -> Step | plan.valid && plan.safe && Ready(index, start, allowed)
        ensures var body := Body(index, start, plan, Tools(edit, sync, check), digest, allowed, common);
                body.Succeeded? ==> common in body.files && digest(body.files[common].data) == plan.candidate
      {
        var edited := edit(start).files;
        if common in edited { assert KeepsDigest(edited, index, sync, check, digest, allowed, common); }
      }
    }
  }

  /**
    Without that, the bound candidate is not what is left behind: the digest is compared before the
    generators run, common.sh is itself an allowed path, and nothing compares it again.
   */
  lemma GeneratorMayReplaceCandidate(common: Path)
    ensures var plain := (s: string) => s;
            var index := map[common := File("old", 0, true)];
            var plan := Plan(true, true, "old", "new", s => true);
            var tools := Tools(f => Step(map[common := File("new", 0, true)], false, true),
                               f => Step(map[common := File("other", 0, true)], false, true),
                               f => Step(f, false, true));
            var body := Body(index, index, plan, tools, plain, {common}, common);
            Clean(index, index) && body.Succeeded? && body.files[common].data != plan.candidate
  {
  }

  // ---- A rollback that gives up ----

  lemma EscapingBody(index: Files, plan: Plan, tools: Tools, digest: string -> string, allowed: set<Path>,
                     common: Path, other: Path)
    requires common in index && digest(index[common].data) == plan.source
    requires plan.matches(index[common].data)
    requires tools.edit(index).raised && other in index && other in tools.edit(index).files && other !in allowed
    requires tools.edit(index).files[other].data != index[other].data
    ensures var body := Body(index, index, plan, tools, digest, allowed, common);
            body == Failed(tools.edit(index).files) && !(Diff(index, body.files) <= allowed)
  {
    assert other in Diff(index, tools.edit(index).files);
  }

  /**
    Whenever the edit raises after it changed a tracked file outside the allowed set, the transaction
    ends with everything the edit did still in place: the changed file, and common.sh with it.
   */
  method EscapingEditIsNotUndone(index: Files, plan: Plan, tools: Tools, digest: string -> string, allowed: set<Path>,
                                 common: Path, other: Path)
    returns (outcome: Outcome, files: Files)
    requires plan.valid && plan.safe && Ready(index, index, allowed) && common in index && other in index
    requires digest(index[common].data) == plan.source && plan.matches(index[common].data)
    requires tools.edit(index).raised && other in tools.edit(index).files && other !in allowed
    requires tools.edit(index).files[other].data != index[other].data
    ensures outcome.RollbackFailed? && files == tools.edit(index).files && files[other].data != index[other].data
  {
    EscapingBody(index, plan, tools, digest, allowed, common, other);
    hide Body, Ready, Diff;
    var worktree := new Worktree(index, allowed, common, digest, index);
    outcome := worktree.ApplySafeUpdates(plan, tools);
    files := worktree.files;
  }

  lemma EscapingSyncBody(index: Files, plan: Plan, tools: Tools, digest: string -> string, allowed: set<Path>,
                         common: Path, other: Path)
    requires common in index && digest(index[common].data) == plan.source && plan.matches(index[common].data)
    requires var edited := tools.edit(index);
             && !edited.raised && common in edited.files && digest(edited.files[common].data) == plan.candidate
             && tools.check(tools.sync(edited.files).files).files == tools.sync(edited.files).files
             && other !in allowed && other in Diff(index, tools.sync(edited.files).files)
    ensures Body(index, index, plan, tools, digest, allowed, common)
         == Failed(tools.sync(tools.edit(index).files).files)
  {
  }

  /**
    The escape the path check is there for: after an edit as planned, a generator writes a tracked
    file outside the allowed set.  Whatever the generators report, and whether they raise, the
    transaction fails and cannot roll back: that file keeps what the generator wrote, and
    common.sh keeps the candidate.
   */
  method EscapingSyncIsNotUndone(index: Files, plan: Plan, tools: Tools, digest: string -> string, allowed: set<Path>,
                                 common: Path, other: Path)
    returns (outcome: Outcome, files: Files)
    requires plan.valid && plan.safe && Ready(index, index, allowed) && common in index
    requires digest(index[common].data) == plan.source && plan.matches(index[common].data)
    requires var edited := tools.edit(index);
             && !edited.raised && common in edited.files && digest(edited.files[common].data) == plan.candidate
             && tools.check(tools.sync(edited.files).files).files == tools.sync(edited.files).files
             && other !in allowed && other in Diff(index, tools.sync(edited.files).files)
             && common in tools.sync(edited.files).files
             && tools.sync(edited.files).files[common] == edited.files[common]
    ensures outcome.RollbackFailed? && files == tools.sync(tools.edit(index).files).files
    ensures common in files && digest(files[common].data) == plan.candidate
  {
    EscapingSyncBody(index, plan, tools, digest, allowed, common, other);
    hide Body, Ready, Diff;
    var worktree := new Worktree(index, allowed, common, digest, index);
    outcome := worktree.ApplySafeUpdates(plan, tools);
    files := worktree.files;
  }

  // ---- What a success and a difference are ----

  /** Of the octal digits of a mode only the owner's counts, and of that the bit for executing. */
  lemma ExecutableMeans(data: string, regular: bool, above: nat, owner: nat, group: nat, other: nat)
    requires owner < 8 && group < 8 && other < 8
    ensures Executable(File(data, 512 * above + 64 * owner + 8 * group + other, regular)) <==> owner in {1, 3, 5, 7}
  {
    assert 512 * above + 64 * owner + 8 * group + other == 64 * (8 * above + owner) + (8 * group + other);
    Quotient(8 * above + owner, 8 * group + other);
    LastBit(above, owner);
  }

  lemma Quotient(x: nat, y: nat)
    requires y < 64
    ensures (64 * x + y) / 64 == x
  {
  }

  lemma LastBit(above: nat, owner: nat)
    ensures (8 * above + owner) % 2 == owner % 2
  {
  }

  /** A tracked path is unchanged when it is there with its content, its kind and its executable bit. */
  ghost predicate Unchanged(index: Files, files: Files, p: Path)
    requires p in index
  {
    && p in files && files[p].data == index[p].data && files[p].regular == index[p].regular
    && (Executable(files[p]) <==> Executable(index[p]))
  }

  lemma DiffMeans(index: Files, files: Files, p: Path)
    ensures p in Diff(index, files) <==> p in index && !Unchanged(index, files, p)
  {
    hide Executable;
  }

  /**
    A SUCCESS needs a start whose digest and old values are the plan's, an edit that gives the
    candidate, generators that report every view current, and no tracked change outside the allowed set.
   */
  lemma SucceedsExactlyWhen(index: Files, start: Files, plan: Plan, tools: Tools, digest: string -> string,
      allowed: set<Path>, common: Path)
    ensures Body(index, start, plan, tools, digest, allowed, common).Succeeded? <==>
            && common in start && digest(start[common].data) == plan.source && plan.matches(start[common].data)
            && var edit := tools.edit(start);
               var sync := tools.sync(edit.files);
               var check := tools.check(sync.files);
               && !edit.raised && common in edit.files && digest(edit.files[common].data) == plan.candidate
               && !sync.raised && sync.current && !check.raised && check.current
               && forall p | p in Diff(index, check.files) :: p in allowed
  {
    hide Diff;
  }

  /**
    A PLAN IS APPLIED ONCE.  In the worktree an applied plan leaves, where the generators kept the
    candidate, the same plan succeeds no more: the source it is bound to is gone.
   */
  lemma AppliedPlanIsRefusedAgain(index: Files, start: Files, plan: Plan, tools: Tools, digest: string -> string,
      allowed: set<Path>, common: Path)
    requires Body(index, start, plan, tools, digest, allowed, common).Succeeded? && plan.source != plan.candidate
    requires Preserves(tools.sync, common) && Preserves(tools.check, common)
    ensures var end := Body(index, start, plan, tools, digest, allowed, common).files;
            Body(end, end, plan, tools, digest, allowed, common) == Failed(end)
  {
    hide Diff;
    SuccessMatchesCandidate(index, start, plan, tools, digest, allowed, common);
  }
}
