/**
  The whole tree by descent: a true descendant of the started process may have lost the chain of
  parents that leads to it.  Who of the descendants is killed, and when none is left.
 */
module OwnedTreeDescent {
  import opened Wrappers
  import opened ProcessTable
  import opened OwnedTree
  import opened OwnedTreeSafety
  import opened OwnedTreeKill

  /** A process that is not a zombie and was forked, over any number of generations, from `began`. */
  ghost predicate LiveDescendant(w: World, p: nat, began: nat) {
    p in w.table && !w.table[p].state.Zombie? && Descends(w.origin, w.table[p].start, began)
  }

  ghost predicate NoneLeft(w: World, began: nat) {
    forall p | p in w.table :: !LiveDescendant(w, p, began)
  }

  /** `began` is the start time of the started process and of no process under another pid. */
  ghost predicate OnlyRoot(w: World, root: nat, began: nat) {
    root != INIT && began < w.clock && forall p | p in w.table && w.table[p].start == began :: p == root
  }

  lemma OnlyRootIsStable(before: World, now: World, root: nat, began: nat)
    requires Evolves(before, now) && OnlyRoot(before, root, began)
    ensures OnlyRoot(now, root, began)
  {
    forall p | p in now.table && now.table[p].start == began
      ensures p == root
    {
      assert Continues(before, now, p);
    }
  }

  /** It holds no selected pid under another start time. */
  ghost predicate Unhidden(w: World, selected: Selection, p: nat)
    requires p in w.table
  {
    p in selected ==> selected[p].Some? && selected[p].value.start == w.table[p].start
  }

  /** It still has a parent other than init; the started process still has its recorded one. */
  ghost predicate KeepsParent(w: World, selected: Selection, root: nat, p: nat)
    requires p in w.table
  {
    if p == root then root in selected && Matches(w, root, selected[root]) else w.table[p].ppid != INIT
  }

  ghost predicate NoneAstray(w: World, selected: Selection, root: nat, began: nat) {
    forall p | p in w.table && LiveDescendant(w, p, began) ::
      Unhidden(w, selected, p) && KeepsParent(w, selected, root, p)
  }

  /** Every live descendant is a member with its recorded identity. */
  ghost predicate AllMatch(w: World, selected: Selection, began: nat) {
    forall p | p in w.table && LiveDescendant(w, p, began) :: p in selected && Matches(w, p, selected[p])
  }

  /** The parent of a live descendant is a live descendant, unless it is init. */
  lemma ParentDescends(w: World, p: nat, root: nat, began: nat)
    requires Sound(w) && OnlyRoot(w, root, began) && LiveDescendant(w, p, began)
    requires p != root && w.table[p].ppid != INIT
    ensures LiveDescendant(w, w.table[p].ppid, began) && w.table[w.table[p].ppid].start < w.table[p].start
  {
    assert ParentSound(w, p);
    ParentIsOlder(w, p);
  }

  lemma ChildIsMember(w: World, selected: Selection, order: seq<nat>, root: nat, began: nat, p: nat)
    requires Tracks(w, selected, order, root, began) && Closed(w, selected)
    requires p in w.table && w.table[p].ppid != INIT && Unhidden(w, selected, p)
    requires w.table[p].ppid in selected && Matches(w, w.table[p].ppid, selected[w.table[p].ppid])
    ensures p in selected && Matches(w, p, selected[p])
  {
    assert p in selected;
    assert Known(w, p, selected[p].value);
  }

  /** In a closed selection a live descendant that did not go astray is a member with its recorded identity. */
  lemma {:induction false} DescendantIsMember(w: World, selected: Selection, order: seq<nat>, root: nat, began: nat,
      p: nat)
    requires Sound(w) && Tracks(w, selected, order, root, began) && OnlyRoot(w, root, began)
    requires Closed(w, selected) && NoneAstray(w, selected, root, began)
    requires LiveDescendant(w, p, began)
    ensures p in selected && Matches(w, p, selected[p])
    decreases w.table[p].start
  {
    hide Sound, Tracks, OnlyRoot, Closed, Matches;
    assert Unhidden(w, selected, p) && KeepsParent(w, selected, root, p);
    if p != root {
      ParentDescends(w, p, root, began);
      DescendantIsMember(w, selected, order, root, began, w.table[p].ppid);
      ChildIsMember(w, selected, order, root, began, p);
    }
  }

  // ---- A selection without strays: nobody is left ----

  lemma {:induction false} DescentWasThere(before: World, now: World, s: nat, began: nat)
    requires Evolves(before, now) && s < before.clock && Descends(now.origin, s, began)
    ensures Descends(before.origin, s, began)
    decreases s
  {
    if s != began {
      assert s in before.origin && now.origin[s] == before.origin[s];
      DescentWasThere(before, now, now.origin[s], began);
    }
  }

  ghost predicate NoneRuns(w: World, began: nat) {
    forall p | p in w.table && LiveDescendant(w, p, began) :: !w.table[p].state.Running?
  }

  /** When no descendant runs, none forks, and a fork of a descendant is what a new one would be. */
  lemma {:induction false} DescendantsAreOld(w: World, now: World, s: nat, began: nat)
    requires Evolves(w, now) && began < w.clock && NoneRuns(w, began)
    requires Descends(now.origin, s, began)
    ensures s < w.clock
    decreases s
  {
    if s != began {
      var o := now.origin[s];
      DescendantsAreOld(w, now, o, began);
      DescentWasThere(w, now, o, began);
      NoneForks(w, o, began);
    }
  }

  lemma NoneForks(w: World, s: nat, began: nat)
    requires NoneRuns(w, began) && Descends(w.origin, s, began) && s < w.clock
    ensures !CanFork(w, s)
  {
    forall q | q in w.table && w.table[q].start == s
      ensures !w.table[q].state.Running?
    {
      assert w.table[q].state.Zombie? || LiveDescendant(w, q, began);
    }
  }

  /** A live descendant of the later world was one of the earlier world, under the same pid. */
  lemma LiveDescendantWasLive(w: World, now: World, p: nat, began: nat)
    requires Evolves(w, now) && began < w.clock && NoneRuns(w, began)
    requires LiveDescendant(now, p, began)
    ensures LiveDescendant(w, p, began) && w.table[p].start == now.table[p].start
  {
    var s := now.table[p].start;
    DescendantsAreOld(w, now, s, began);
    DescentWasThere(w, now, s, began);
    assert Continues(w, now, p);
  }

  lemma MembersDoNotRun(w: World, selected: Selection, order: seq<nat>, root: nat, began: nat)
    requires Tracks(w, selected, order, root, began) && AllMatch(w, selected, began) && Held(w, order, selected)
    ensures NoneRuns(w, began)
  {
    forall p | p in w.table && LiveDescendant(w, p, began)
      ensures !w.table[p].state.Running?
    {
      assert p in selected && p in order;
    }
  }

  lemma AllMatchNoneLeft(env: Environment, f: Freeze, root: nat, began: nat)
    requires Sound(f.kernel.world) && Tracks(f.kernel.world, f.selected, f.order, root, began)
    requires Covers(f.selected, f.order) && Held(f.kernel.world, f.order, f.selected)
    requires began < f.kernel.world.clock && AllMatch(f.kernel.world, f.selected, began)
    requires Undisturbed(env, f.kernel.tick, f.selected)
    ensures NoneLeft(KillAll(env, f).world, began)
  {
    var w, end := f.kernel.world, KillAll(env, f).world;
    assert forall p | p in w.table && LiveDescendant(w, p, began) ::
        p in f.selected && Matches(w, p, f.selected[p]);
    hide *;
    KillKeeps(env, f, root, began);
    MembersDoNotRun(w, f.selected, f.order, root, began);
    forall p | p in end.table
      ensures !LiveDescendant(end, p, began)
    {
      if LiveDescendant(end, p, began) {
        LiveDescendantWasLive(w, end, p, began);
        WasInTable(w, p, began);
        MatchingMembersDie(env, f, root, began, p);
        DeadIsNotLive(w, end, f.selected, p, began);
      }
    }
    NoneLeftWhen(end, began);
  }

  lemma WasInTable(w: World, p: nat, began: nat)
    requires LiveDescendant(w, p, began)
    ensures p in w.table
  {
  }

  lemma DeadIsNotLive(w: World, end: World, selected: Selection, p: nat, began: nat)
    requires p in w.table && p in end.table && w.table[p].start == end.table[p].start
    requires p in selected && Matches(w, p, selected[p]) && Dead(end, selected[p].value.start)
    ensures !LiveDescendant(end, p, began)
  {
  }

  lemma NoneLeftWhen(w: World, began: nat)
    requires forall p | p in w.table :: !LiveDescendant(w, p, began)
    ensures NoneLeft(w, began)
  {
  }

  lemma KillKeeps(env: Environment, f: Freeze, root: nat, began: nat)
    requires Sound(f.kernel.world) && Tracks(f.kernel.world, f.selected, f.order, root, began)
    requires Covers(f.selected, f.order)
    ensures Sound(KillAll(env, f).world) && Evolves(f.kernel.world, KillAll(env, f).world)
  {
    ReversedCovers(f.selected, f.order);
    hide Sound, Evolves, Tracks, Sends, Covers, Sweep;
    SweepKeeps(env, f.kernel, Reversed(f.order), f.selected, Kill, f.order, root, began);
  }

  // ---- Whoever is no matching member outlives the run ----

  lemma {:induction false} SweepPasses(env: Environment, k: Kernel, order: seq<nat>, selected: Selection,
      signal: Signal, p: nat, start: nat)
    requires Covers(selected, order) && p !in order && Alive(k.world, p, start)
    requires Unharmed(env, k.tick, {p})
    ensures var n := Sweep(env, k, order, selected, signal).world;
            Alive(n, p, start) && (Orphan(k.world, p, start) ==> Orphan(n, p, start))
    decreases |order|
  {
    if order != [] {
      var last := |order| - 1;
      var m := Sweep(env, k, order[..last], selected, signal);
      SweepPasses(env, k, order[..last], selected, signal, p, start);
      TicksGrow(env, k, order[..last], selected, signal);
      assert Spares(env(m.tick), {p});
      RunKeepsAlive(m.world, env(m.tick), p, start, {p});
      assert order[last] in order;
    }
  }

  lemma KillPasses(env: Environment, f: Freeze, p: nat, start: nat)
    requires Covers(f.selected, f.order) && p !in f.order && Alive(f.kernel.world, p, start)
    requires Unharmed(env, f.kernel.tick, {p})
    ensures Alive(KillAll(env, f).world, p, start)
  {
    ReversedCovers(f.selected, f.order);
    SweepPasses(env, f.kernel, Reversed(f.order), f.selected, Kill, p, start);
  }

  lemma MismatchSurvives(env: Environment, f: Freeze, root: nat, began: nat, p: nat)
    requires Sound(f.kernel.world) && Tracks(f.kernel.world, f.selected, f.order, root, began)
    requires Covers(f.selected, f.order) && p in f.kernel.world.table && !f.kernel.world.table[p].state.Zombie?
    requires p in f.selected ==> !Matches(f.kernel.world, p, f.selected[p])
    requires Undisturbed(env, f.kernel.tick, f.selected) && Unharmed(env, f.kernel.tick, {p})
    ensures !Dead(KillAll(env, f).world, f.kernel.world.table[p].start)
  {
    if p !in f.selected {
      KillPasses(env, f, p, f.kernel.world.table[p].start);
    } else if Unhidden(f.kernel.world, f.selected, p) {
      KillPhase(env, f, root, began, p);
    } else {
      HiddenSurvives(env, f, p);
    }
  }

  lemma MismatchIsLeft(env: Environment, f: Freeze, root: nat, began: nat, p: nat)
    requires Sound(f.kernel.world) && Tracks(f.kernel.world, f.selected, f.order, root, began)
    requires Covers(f.selected, f.order) && LiveDescendant(f.kernel.world, p, began)
    requires p in f.selected ==> !Matches(f.kernel.world, p, f.selected[p])
    requires Undisturbed(env, f.kernel.tick, f.selected) && Unharmed(env, f.kernel.tick, {p})
    ensures !NoneLeft(KillAll(env, f).world, began)
  {
    var w, end := f.kernel.world, KillAll(env, f).world;
    KillKeeps(env, f, root, began);
    MismatchSurvives(env, f, root, began, p);
    hide KillAll, Tracks, Covers, Undisturbed, Unharmed, Matches;
    assert w.table[p].start < w.clock;
    DescentIsPermanent(w.origin, end.origin, w.table[p].start, began);
    var q :| q in end.table && end.table[q].start == w.table[p].start && !end.table[q].state.Zombie?;
    assert LiveDescendant(end, q, began);
  }

  // ---- The two exact conditions ----

  ghost function LiveDescendants(w: World, began: nat): set<nat> {
    set p | p in w.table && LiveDescendant(w, p, began)
  }

  lemma UnharmedEach(env: Environment, from: nat, pids: set<nat>, p: nat)
    requires Unharmed(env, from, pids) && p in pids
    ensures Unharmed(env, from, {p})
  {
    assert forall t: nat | from <= t :: Spares(env(t), pids);
  }

  /**
    NOBODY IS LEFT, EXACTLY WHEN.  In every run in which nothing else ends a member, a member's
    parent or a descendant while the kills go out, no descendant of the started process is alive in
    the end if and only if at the freeze every live one was a member with its recorded identity.
   */
  lemma NobodyIsLeftExactlyWhen(env: Environment, listing: Listing, k: Kernel, root: nat, identity: Option<Identity>,
      began: nat)
    requires Lists(listing) && Started(k.world, root, identity, began) && began < k.world.clock
    requires var f := Frozen(env, listing, k, root, identity);
             && Undisturbed(env, f.kernel.tick, f.selected)
             && Unharmed(env, f.kernel.tick, LiveDescendants(f.kernel.world, began))
    ensures var f := Frozen(env, listing, k, root, identity);
            NoneLeft(KillAll(env, f).world, began) <==> AllMatch(f.kernel.world, f.selected, began)
  {
    var f := Frozen(env, listing, k, root, identity);
    FreezeClosure(env, listing, k, root, identity, began);
    assert k.world.clock <= f.kernel.world.clock;
    hide Lists, Started, Tracks, Sound, Evolves, Undisturbed, Unharmed, Closed, Held, Matches, NoneLeft,
      KillAll, Frozen, LiveDescendant, Covers;
    if AllMatch(f.kernel.world, f.selected, began) {
      AllMatchNoneLeft(env, f, root, began);
    } else {
      var p :| p in f.kernel.world.table && LiveDescendant(f.kernel.world, p, began)
               && !(p in f.selected && Matches(f.kernel.world, p, f.selected[p]));
      UnharmedEach(env, f.kernel.tick, LiveDescendants(f.kernel.world, began), p);
      MismatchIsLeft(env, f, root, began, p);
    }
  }

  /** The recorded parent of every member but the first is a member, so it is not init. */
  lemma MatchingMemberKeepsParent(w: World, selected: Selection, order: seq<nat>, root: nat, began: nat, p: nat)
    requires Tracks(w, selected, order, root, began) && p in selected && Matches(w, p, selected[p])
    ensures Unhidden(w, selected, p) && KeepsParent(w, selected, root, p)
  {
    if p != root {
      var i :| 0 <= i < |order| && order[i] == p;
      assert AdmittedAfterParent(w.origin, selected, order, i);
    }
  }

  lemma ClosedAllMatchExactlyWhen(w: World, selected: Selection, order: seq<nat>, root: nat, began: nat)
    requires Sound(w) && Tracks(w, selected, order, root, began) && OnlyRoot(w, root, began) && Closed(w, selected)
    ensures AllMatch(w, selected, began) <==> NoneAstray(w, selected, root, began)
  {
    hide Sound, Tracks, OnlyRoot, Closed, Matches, LiveDescendant, KeepsParent, Unhidden;
    if NoneAstray(w, selected, root, began) {
      forall p | p in w.table && LiveDescendant(w, p, began)
        ensures p in selected && Matches(w, p, selected[p])
      {
        DescendantIsMember(w, selected, order, root, began, p);
      }
    }
    if AllMatch(w, selected, began) {
      forall p | p in w.table && LiveDescendant(w, p, began)
        ensures Unhidden(w, selected, p) && KeepsParent(w, selected, root, p)
      {
        MatchingMemberKeepsParent(w, selected, order, root, began, p);
      }
    }
  }

  /**
    NOBODY IS LEFT after a loop that settled in round two or later, exactly when: at the freeze no
    live descendant held a selected pid under another start time, none but the started process had
    init as its parent, and the started process, if it still lived, had its recorded identity.
   */
  lemma NobodyIsLeftUnlessAstray(env: Environment, listing: Listing, k: Kernel, root: nat, identity: Option<Identity>,
      began: nat)
    requires Lists(listing) && Started(k.world, root, identity, began) && OnlyRoot(k.world, root, began)
    requires var f := Frozen(env, listing, k, root, identity);
             && f.settled && 2 <= f.rounds && Undisturbed(env, f.kernel.tick, f.selected)
             && Unharmed(env, f.kernel.tick, LiveDescendants(f.kernel.world, began))
    ensures var f := Frozen(env, listing, k, root, identity);
            NoneLeft(KillAll(env, f).world, began) <==> NoneAstray(f.kernel.world, f.selected, root, began)
  {
    var f := Frozen(env, listing, k, root, identity);
    FreezeClosure(env, listing, k, root, identity, began);
    OnlyRootIsStable(k.world, f.kernel.world, root, began);
    NobodyIsLeftExactlyWhen(env, listing, k, root, identity, began);
    hide *;
    assert Closed(f.kernel.world, f.selected);
    ClosedAllMatchExactlyWhen(f.kernel.world, f.selected, f.order, root, began);
  }
}
