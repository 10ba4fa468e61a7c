/** The kill phase: who dies, who is spared, and what can no longer run when it is over. */
module OwnedTreeKill {
  import opened Wrappers
  import opened ProcessTable
  import opened OwnedTree
  import opened OwnedTreeSafety

  /** The process with this start time is a zombie or gone, for good. */
  ghost predicate Dead(w: World, start: nat) {
    start < w.clock && forall p | p in w.table && w.table[p].start == start :: w.table[p].state.Zombie?
  }

  lemma DeathIsPermanent(before: World, now: World, start: nat)
    requires Evolves(before, now) && Dead(before, start)
    ensures Dead(now, start)
  {
    forall p | p in now.table && now.table[p].start == start
      ensures now.table[p].state.Zombie?
    {
      assert Continues(before, now, p);
    }
  }

  // ---- Other processes during the kill phase ----

  ghost predicate Spares(actions: seq<Action>, pids: set<nat>) {
    forall a | a in actions && a.Exit? :: a.pid !in pids
  }

  /** The parents whose exit would detach a member: the members themselves and the started process's parent. */
  ghost function Parents(selected: Selection): set<nat> {
    set p | p in selected && selected[p].Some? :: selected[p].value.ppid
  }

  /** Nothing but the supervisor ends a process on one of these pids from tick `from` on. */
  ghost predicate Unharmed(env: Environment, from: nat, pids: set<nat>) {
    forall t: nat | from <= t :: Spares(env(t), pids)
  }

  /** Nothing but the supervisor ends a member or a member's parent from tick `from` on. */
  ghost predicate Undisturbed(env: Environment, from: nat, selected: Selection) {
    Unharmed(env, from, selected.Keys + Parents(selected))
  }

  ghost predicate MatchedOrDead(w: World, p: nat, expected: Option<Identity>) {
    expected.Some? && (Matches(w, p, expected) || Dead(w, expected.value.start))
  }

  lemma ActKeepsMember(w: World, a: Action, p: nat, id: Identity)
    requires Sound(w) && Matches(w, p, Some(id)) && (a.Exit? ==> a.pid != id.ppid)
    ensures MatchedOrDead(Act(w, a), p, Some(id))
  {
  }

  lemma {:induction false} RunKeepsMember(w: World, actions: seq<Action>, p: nat, id: Identity, pids: set<nat>)
    requires Sound(w) && Spares(actions, pids) && id.ppid in pids && MatchedOrDead(w, p, Some(id))
    ensures MatchedOrDead(Run(w, actions), p, Some(id))
    decreases |actions|
  {
    RunKeeps(w, actions);
    if Dead(w, id.start) {
      DeathIsPermanent(w, Run(w, actions), id.start);
    } else if actions != [] {
      assert actions[0] in actions;
      ActKeepsMember(w, actions[0], p, id);
      assert Run(w, [actions[0]]) == Act(w, actions[0]) by {
        assert [actions[0]][1..] == [];
      }
      RunKeeps(w, [actions[0]]);
      RunKeepsMember(Act(w, actions[0]), actions[1..], p, id, pids);
    }
  }

  // ---- The kill sweep ----

  lemma KillKillsItsTarget(w: World, p: nat, id: Identity)
    requires Sound(w) && p != INIT && Matches(w, p, Some(id))
    ensures Dead(Deliver(w, p, Kill), id.start)
  {
  }

  /** Reverse order of admission: the supervisor never kills the parent of a member still waiting. */
  lemma WaitingMemberKeepsItsParent(w: World, selected: Selection, order: seq<nat>, root: nat, began: nat, i: nat,
      j: nat)
    requires Sound(w) && Tracks(w, selected, order, root, began)
    requires i < j < |order|
    requires selected[order[i]].Some? && Matches(w, order[i], selected[order[i]])
    requires selected[order[j]].Some? && Matches(w, order[j], selected[order[j]])
    ensures selected[order[i]].value.ppid != order[j]
  {
    if 0 < i {
      assert AdmittedAfterParent(w.origin, selected, order, i);
      var k :| 0 <= k < i && order[k] == selected[order[i]].value.ppid;
    } else if selected[root].value.ppid == order[j] {
      assert ParentSound(w, root);
      DescentGoesForward(w.origin, selected[order[j]].value.start, began);
    }
  }

  lemma KillKeepsWaiting(w: World, selected: Selection, order: seq<nat>, root: nat, began: nat, i: nat, j: nat)
    requires Sound(w) && Tracks(w, selected, order, root, began)
    requires i < j < |order| && order[j] in selected && order[i] in selected
    requires Matches(w, order[j], selected[order[j]]) && MatchedOrDead(w, order[i], selected[order[i]])
    ensures MatchedOrDead(Deliver(w, order[j], Kill), order[i], selected[order[i]])
  {
    if Dead(w, selected[order[i]].value.start) {
      DeliverKeeps(w, order[j], Kill);
      DeathIsPermanent(w, Deliver(w, order[j], Kill), selected[order[i]].value.start);
    } else {
      WaitingMemberKeepsItsParent(w, selected, order, root, began, i, j);
      assert order[i] != order[j];
    }
  }

  /** The members that matched at `w0`: those still waiting match or are dead, those passed are dead. */
  ghost predicate Killed(w0: World, w: World, selected: Selection, order: seq<nat>, waiting: nat)
    requires waiting <= |order| && Covers(selected, order)
  {
    forall i | 0 <= i < |order| && Matches(w0, order[i], selected[order[i]]) ::
      if i < waiting then MatchedOrDead(w, order[i], selected[order[i]])
      else Dead(w, selected[order[i]].value.start)
  }

  lemma KillStep(env: Environment, w0: World, m: Kernel, selected: Selection, order: seq<nat>, root: nat, began: nat,
      j: nat)
    requires Sound(m.world) && Tracks(m.world, selected, order, root, began) && Covers(selected, order)
    requires j < |order| && Killed(w0, m.world, selected, order, j + 1)
    requires Spares(env(m.tick), selected.Keys + Parents(selected))
    ensures Killed(w0, SignalOwned(env, m, order[j], selected[order[j]], Kill).world, selected, order, j)
  {
    var expected := selected[order[j]];
    if expected.Some? {
      var now := Observe(env, m);
      var n := SignalOwned(env, m, order[j], expected, Kill);
      ObserveKeeps(env, m);
      TracksIsStable(m.world, now.world, selected, order, root, began);
      forall i | 0 <= i < |order| && Matches(w0, order[i], selected[order[i]])
        ensures if i < j then MatchedOrDead(n.world, order[i], selected[order[i]])
                else Dead(n.world, selected[order[i]].value.start)
      {
        var id := selected[order[i]].value;
        if i <= j {
          RunKeepsMember(m.world, env(m.tick), order[i], id, selected.Keys + Parents(selected));
        } else {
          DeathIsPermanent(m.world, now.world, id.start);
        }
        if Matches(now.world, order[j], expected) {
          DeliverKeeps(now.world, order[j], Kill);
          if i < j {
            KillKeepsWaiting(now.world, selected, order, root, began, i, j);
          } else if i == j {
            KillKillsItsTarget(now.world, order[j], id);
          } else {
            DeathIsPermanent(now.world, n.world, id.start);
          }
        }
      }
    }
  }

  lemma {:induction false} TicksGrow(env: Environment, k: Kernel, order: seq<nat>, selected: Selection, signal: Signal)
    requires Covers(selected, order)
    ensures k.tick <= Sweep(env, k, order, selected, signal).tick
    decreases |order|
  {
    if order != [] { TicksGrow(env, k, order[..|order| - 1], selected, signal); }
  }

  lemma {:induction false} KillSweep(env: Environment, k: Kernel, back: seq<nat>, selected: Selection, order: seq<nat>,
                                     root: nat, began: nat)
    requires Sound(k.world) && Tracks(k.world, selected, order, root, began) && Covers(selected, order)
    requires |back| <= |order| && back == Reversed(order)[..|back|] && Covers(selected, back)
    requires Undisturbed(env, k.tick, selected)
    ensures Killed(k.world, Sweep(env, k, back, selected, Kill).world, selected, order, |order| - |back|)
    decreases |back|
  {
    hide *;
    if back == [] {
      NothingSwept(env, k, selected, Kill);
      NoneKilledYet(k.world, selected, order);
    } else {
      var last := |back| - 1;
      NextInReverse(order, back);
      NextTurn(env, k, back, selected);
      var m := Sweep(env, k, back[..last], selected, Kill);
      KillSweep(env, k, back[..last], selected, order, root, began);
      SweepKeeps(env, k, back[..last], selected, Kill, order, root, began);
      TicksGrow(env, k, back[..last], selected, Kill);
      UndisturbedAt(env, k.tick, m.tick, selected);
      KillStep(env, k.world, m, selected, order, root, began, |order| - |back|);
    }
  }

  lemma NothingSwept(env: Environment, k: Kernel, selected: Selection, signal: Signal)
    ensures Covers(selected, []) && Sweep(env, k, [], selected, signal) == k
  {
  }

  lemma NoneKilledYet(w: World, selected: Selection, order: seq<nat>)
    requires Covers(selected, order)
    ensures Killed(w, w, selected, order, |order|)
  {
  }

  lemma NextInReverse(order: seq<nat>, back: seq<nat>)
    requires 0 < |back| <= |order| && back == Reversed(order)[..|back|]
    ensures back[..|back| - 1] == Reversed(order)[..|back| - 1] && back[|back| - 1] == order[|order| - |back|]
  {
  }

  lemma UndisturbedAt(env: Environment, from: nat, t: nat, selected: Selection)
    requires Undisturbed(env, from, selected) && from <= t
    ensures Spares(env(t), selected.Keys + Parents(selected))
  {
  }

  lemma NextTurn(env: Environment, k: Kernel, back: seq<nat>, selected: Selection)
    requires Covers(selected, back) && back != []
    ensures Covers(selected, back[..|back| - 1]) && back[|back| - 1] in selected
    ensures Sweep(env, k, back, selected, Kill)
         == SignalOwned(env, Sweep(env, k, back[..|back| - 1], selected, Kill), back[|back| - 1],
                        selected[back[|back| - 1]], Kill)
  {
  }

  lemma MatchingMembersDie(env: Environment, f: Freeze, root: nat, began: nat, p: nat)
    requires Sound(f.kernel.world) && Tracks(f.kernel.world, f.selected, f.order, root, began)
    requires Covers(f.selected, f.order) && Undisturbed(env, f.kernel.tick, f.selected)
    requires p in f.selected && Matches(f.kernel.world, p, f.selected[p])
    ensures Dead(KillAll(env, f).world, f.selected[p].value.start)
  {
    assert forall x | x in Reversed(f.order) :: x in f.order;
    assert Reversed(f.order) == Reversed(f.order)[..|f.order|];
    KillSweep(env, f.kernel, Reversed(f.order), f.selected, f.order, root, began);
    var i :| 0 <= i < |f.order| && f.order[i] == p;
  }

  // ---- Members that lost their parent before the kill phase are spared ----

  ghost predicate Alive(w: World, p: nat, start: nat) {
    p in w.table && w.table[p].start == start && !w.table[p].state.Zombie?
  }

  ghost predicate Orphan(w: World, p: nat, start: nat) {
    Alive(w, p, start) && w.table[p].ppid == INIT
  }

  ghost predicate Detached(w: World, p: nat, id: Identity) {
    Orphan(w, p, id.start) && id.ppid != INIT
  }

  /** A process that is not ended stays alive, and an orphan stays an orphan. */
  lemma {:induction false} RunKeepsAlive(w: World, actions: seq<Action>, p: nat, start: nat, pids: set<nat>)
    requires Spares(actions, pids) && p in pids && Alive(w, p, start)
    ensures Alive(Run(w, actions), p, start)
    ensures Orphan(w, p, start) ==> Orphan(Run(w, actions), p, start)
    decreases |actions|
  {
    if actions != [] {
      assert actions[0] in actions;
      RunKeepsAlive(Act(w, actions[0]), actions[1..], p, start, pids);
    }
  }

  lemma {:induction false} SweepSpares(env: Environment, k: Kernel, back: seq<nat>, selected: Selection, p: nat)
    requires Covers(selected, back) && p in selected && selected[p].Some? && Detached(k.world, p, selected[p].value)
    requires Undisturbed(env, k.tick, selected)
    ensures Detached(Sweep(env, k, back, selected, Kill).world, p, selected[p].value)
    decreases |back|
  {
    if back != [] {
      var last := |back| - 1;
      var m := Sweep(env, k, back[..last], selected, Kill);
      SweepSpares(env, k, back[..last], selected, p);
      TicksGrow(env, k, back[..last], selected, Kill);
      assert Spares(env(m.tick), selected.Keys + Parents(selected));
      RunKeepsAlive(m.world, env(m.tick), p, selected[p].value.start, selected.Keys + Parents(selected));
    }
  }

  /**
    WHO IS KILLED.  If nothing else ends a member or a member's parent during the kill phase, a
    live member is dead when the phase is over exactly when it still had its recorded identity as
    the phase began: none that matches is missed, and one that lost its parent earlier is spared.
   */
  lemma KillPhase(env: Environment, f: Freeze, root: nat, began: nat, p: nat)
    requires Sound(f.kernel.world) && Tracks(f.kernel.world, f.selected, f.order, root, began)
    requires Covers(f.selected, f.order) && Undisturbed(env, f.kernel.tick, f.selected)
    requires p in f.selected && f.selected[p].Some? && Alive(f.kernel.world, p, f.selected[p].value.start)
    ensures Dead(KillAll(env, f).world, f.selected[p].value.start) <==> Matches(f.kernel.world, p, f.selected[p])
  {
    assert forall x | x in Reversed(f.order) :: x in f.order;
    if Matches(f.kernel.world, p, f.selected[p]) {
      MatchingMembersDie(env, f, root, began, p);
    } else {
      SweepSpares(env, f.kernel, Reversed(f.order), f.selected, p);
    }
  }

  // ---- The whole tree ----

  /** p is the started process or reaches it through current parents. */
  ghost predicate Attached(w: World, p: nat, root: nat)
    requires Sound(w)
    decreases if p in w.table then w.table[p].start else 0
  {
    && p in w.table
    && (p == root
        || (p != INIT && w.table[p].ppid != INIT
            && (ParentIsOlder(w, p); Attached(w, w.table[p].ppid, root))))
  }

  lemma ParentIsOlder(w: World, p: nat)
    requires Sound(w) && p in w.table && p != INIT && w.table[p].ppid != INIT
    ensures w.table[p].ppid in w.table && w.table[w.table[p].ppid].start < w.table[p].start
  {
    assert ParentSound(w, p);
  }

  /** No live process attached to the started one holds a selected pid under another start time. */
  ghost predicate NoneHidden(w: World, selected: Selection, root: nat)
    requires Sound(w)
  {
    forall p | p in w.table && !w.table[p].state.Zombie? && Attached(w, p, root) && p in selected ::
      selected[p].Some? && w.table[p].start == selected[p].value.start
  }

  /** The started process, if it still lives, has its recorded identity. */
  ghost predicate RootIntact(w: World, root: nat, identity: Option<Identity>) {
    root in w.table && !w.table[root].state.Zombie? ==> Matches(w, root, identity)
  }

  lemma {:induction false} AttachedIsSelected(w: World, selected: Selection, order: seq<nat>, root: nat, began: nat,
      p: nat)
    requires Sound(w) && Tracks(w, selected, order, root, began)
    requires Closed(w, selected) && NoneHidden(w, selected, root)
    requires root in selected && RootIntact(w, root, selected[root])
    requires Attached(w, p, root) && !w.table[p].state.Zombie?
    ensures p in selected && Matches(w, p, selected[p])
    decreases if p in w.table then w.table[p].start else 0
  {
    if p != root {
      var q := w.table[p].ppid;
      ParentIsOlder(w, p);
      assert ParentSound(w, p);
      AttachedIsSelected(w, selected, order, root, began, q);
      assert p in selected;
      assert Known(w, p, selected[p].value);
    }
  }

  lemma {:induction false} RootStaysSelected(env: Environment, listing: Listing, f: Freeze, root: nat)
    requires Lists(listing) && Covers(f.selected, f.order) && f.rounds <= ROUNDS && root in f.selected
    ensures var r := StopRounds(env, listing, f); root in r.selected && r.selected[root] == f.selected[root]
    decreases ROUNDS - f.rounds
  {
    if !f.settled && f.rounds < ROUNDS { RootStaysSelected(env, listing, StopRound(env, listing, f), root); }
  }

  lemma HeldMembersDoNotFork(before: World, now: World, selected: Selection, order: seq<nat>, p: nat, s: nat)
    requires Sound(before) && Evolves(before, now) && Held(before, order, selected)
    requires p in order && p in selected && Matches(before, p, selected[p])
    requires s in now.origin && now.origin[s] == before.table[p].start
    ensures s < before.clock
  {
    assert before.clock <= s ==> CanFork(before, before.table[p].start);
  }

  /** A zombie never runs again, so it is dead and done with forking. */
  lemma ZombieIsGone(before: World, now: World, p: nat)
    requires Sound(before) && Evolves(before, now) && p in before.table && before.table[p].state.Zombie?
    ensures Gone(now, before, p)
  {
    var start := before.table[p].start;
    DeathIsPermanent(before, now, start);
    assert !CanFork(before, start);
  }

  lemma MatchingMemberIsGone(env: Environment, f: Freeze, root: nat, began: nat, p: nat)
    requires Sound(f.kernel.world) && Tracks(f.kernel.world, f.selected, f.order, root, began)
    requires Covers(f.selected, f.order) && Held(f.kernel.world, f.order, f.selected)
    requires p in f.selected && Matches(f.kernel.world, p, f.selected[p]) && Undisturbed(env, f.kernel.tick, f.selected)
    ensures Gone(KillAll(env, f).world, f.kernel.world, p)
  {
    assert p in f.order;
    MatchingMembersDie(env, f, root, began, p);
    assert forall x | x in Reversed(f.order) :: x in f.order;
    SweepKeeps(env, f.kernel, Reversed(f.order), f.selected, Kill, f.order, root, began);
    var end := KillAll(env, f).world;
    hide Tracks, Sound, Evolves, Undisturbed, Held;
    forall s | s in end.origin && end.origin[s] == f.kernel.world.table[p].start
      ensures s < f.kernel.world.clock
    {
      HeldMembersDoNotFork(f.kernel.world, end, f.selected, f.order, p, s);
    }
  }

  lemma FrozenTreeDies(env: Environment, f: Freeze, root: nat, began: nat, p: nat)
    requires Sound(f.kernel.world) && Tracks(f.kernel.world, f.selected, f.order, root, began)
    requires Covers(f.selected, f.order) && Held(f.kernel.world, f.order, f.selected)
    requires Closed(f.kernel.world, f.selected) && NoneHidden(f.kernel.world, f.selected, root)
    requires root in f.selected && RootIntact(f.kernel.world, root, f.selected[root])
    requires Attached(f.kernel.world, p, root) && Undisturbed(env, f.kernel.tick, f.selected)
    ensures Gone(KillAll(env, f).world, f.kernel.world, p)
  {
    if f.kernel.world.table[p].state.Zombie? {
      assert forall x | x in Reversed(f.order) :: x in f.order;
      SweepKeeps(env, f.kernel, Reversed(f.order), f.selected, Kill, f.order, root, began);
      hide Tracks, Sound, Evolves, Attached, Undisturbed, Closed, Held, NoneHidden, Gone;
      ZombieIsGone(f.kernel.world, KillAll(env, f).world, p);
    } else {
      AttachedIsSelected(f.kernel.world, f.selected, f.order, root, began, p);
      hide Tracks, Sound, Attached, Undisturbed, Closed, Held, NoneHidden, Gone;
      MatchingMemberIsGone(env, f, root, began, p);
    }
  }

  /** The process that held pid p at the freeze is dead in `end` and has not forked since. */
  ghost predicate Gone(end: World, freeze: World, p: nat)
    requires p in freeze.table
  {
    && Dead(end, freeze.table[p].start)
    && (forall s | s in end.origin && end.origin[s] == freeze.table[p].start :: s < freeze.clock)
  }

  // ---- A hidden process is never signalled ----

  lemma {:induction false} SweepSparesHidden(env: Environment, k: Kernel, back: seq<nat>, selected: Selection,
      p: nat, start: nat)
    requires Covers(selected, back) && p in selected && Alive(k.world, p, start)
    requires selected[p].Some? ==> selected[p].value.start != start
    requires Undisturbed(env, k.tick, selected)
    ensures Alive(Sweep(env, k, back, selected, Kill).world, p, start)
    decreases |back|
  {
    if back != [] {
      var last := |back| - 1;
      var m := Sweep(env, k, back[..last], selected, Kill);
      SweepSparesHidden(env, k, back[..last], selected, p, start);
      TicksGrow(env, k, back[..last], selected, Kill);
      assert Spares(env(m.tick), selected.Keys + Parents(selected));
      RunKeepsAlive(m.world, env(m.tick), p, start, selected.Keys + Parents(selected));
    }
  }

  lemma HiddenSurvives(env: Environment, f: Freeze, p: nat)
    requires Covers(f.selected, f.order) && Undisturbed(env, f.kernel.tick, f.selected)
    requires p in f.selected && p in f.kernel.world.table && !f.kernel.world.table[p].state.Zombie?
    requires f.selected[p].Some? ==> f.selected[p].value.start != f.kernel.world.table[p].start
    ensures !Dead(KillAll(env, f).world, f.kernel.world.table[p].start)
  {
    assert forall x | x in Reversed(f.order) :: x in f.order;
    SweepSparesHidden(env, f.kernel, Reversed(f.order), f.selected, p, f.kernel.world.table[p].start);
  }

  /** Every process attached to the started one is dead in the end. */
  ghost predicate AllDie(env: Environment, f: Freeze, root: nat)
    requires Sound(f.kernel.world) && Covers(f.selected, f.order)
  {
    forall p | p in f.kernel.world.table && Attached(f.kernel.world, p, root) ::
      Dead(KillAll(env, f).world, f.kernel.world.table[p].start)
  }

  /** A started process that lost its recorded parent before the kill phase survives it. */
  lemma DetachedRootSurvives(env: Environment, f: Freeze, root: nat, began: nat)
    requires Sound(f.kernel.world) && Tracks(f.kernel.world, f.selected, f.order, root, began)
    requires Covers(f.selected, f.order) && Undisturbed(env, f.kernel.tick, f.selected)
    requires root in f.selected && NoneHidden(f.kernel.world, f.selected, root)
    requires !RootIntact(f.kernel.world, root, f.selected[root])
    ensures Attached(f.kernel.world, root, root) && !Dead(KillAll(env, f).world, f.kernel.world.table[root].start)
  {
    assert Attached(f.kernel.world, root, root);
    KillPhase(env, f, root, began, root);
  }

  /**
    NOTHING ESCAPES, EXACTLY WHEN.  Let the stop rounds settle after the first and nothing else end
    members while the kills go out.  Then every process attached to the started one is dead in the
    end if and only if no live one of them holds a selected pid under another start time and the
    started process, if it still lives, has its recorded identity; and then none of them has forked
    since the freeze.
   */
  lemma NothingEscapes(env: Environment, listing: Listing, k: Kernel, root: nat, identity: Option<Identity>, began: nat)
    requires Lists(listing) && Started(k.world, root, identity, began)
    requires var f := Frozen(env, listing, k, root, identity);
             f.settled && 2 <= f.rounds && Undisturbed(env, f.kernel.tick, f.selected)
    ensures var f := Frozen(env, listing, k, root, identity);
            && Sound(f.kernel.world)
            && var intact := NoneHidden(f.kernel.world, f.selected, root) && RootIntact(f.kernel.world, root, identity);
               && (AllDie(env, f, root) <==> intact)
               && (intact ==>
                     forall p | p in f.kernel.world.table && Attached(f.kernel.world, p, root) ::
                       Gone(KillAll(env, f).world, f.kernel.world, p))
  {
    var f := Frozen(env, listing, k, root, identity);
    FreezeClosure(env, listing, k, root, identity, began);
    RootStaysSelected(env, listing, Freeze(k, map[root := identity], [root], 0, false), root);
    hide Lists, Started, Tracks, Sound, Evolves, Attached, Undisturbed, Closed, Held, Matches, Dead, KillAll, Frozen,
      RootIntact;
    if !NoneHidden(f.kernel.world, f.selected, root) {
      var p :| p in f.kernel.world.table && !f.kernel.world.table[p].state.Zombie? && Attached(f.kernel.world, p, root)
               && p in f.selected
               && !(f.selected[p].Some? && f.kernel.world.table[p].start == f.selected[p].value.start);
      HiddenSurvives(env, f, p);
    } else if !RootIntact(f.kernel.world, root, identity) {
      DetachedRootSurvives(env, f, root, began);
    } else {
      forall p | p in f.kernel.world.table && Attached(f.kernel.world, p, root)
        ensures Gone(KillAll(env, f).world, f.kernel.world, p)
      {
        FrozenTreeDies(env, f, root, began, p);
      }
    }
  }

  /**
    OWNERSHIP.  Over a whole run, under every interleaving, every signal reaches the started
    process or a true descendant of it, and every SIGKILL goes to a member that still had its
    recorded identity when the kill phase began.
   */
  lemma EverySignalIsOwned(env: Environment, listing: Listing, k: Kernel, root: nat, identity: Option<Identity>,
      began: nat)
    requires Lists(listing) && Started(k.world, root, identity, began)
    ensures var f := Frozen(env, listing, k, root, identity);
            var end := KillAll(env, f);
            && Owned(end.world, end.sent, |k.sent|, began)
            && Sends(f.kernel.world, f.kernel.sent, end.sent, f.selected, Kill)
  {
    var f := Frozen(env, listing, k, root, identity);
    var end := KillAll(env, f);
    FreezeClosure(env, listing, k, root, identity, began);
    assert Covers(f.selected, Reversed(f.order)) by {
      assert forall x | x in Reversed(f.order) :: x in f.order;
    }
    hide Lists, Started, Tracks, Sound, Evolves, Held, Sends, Covers, Closed, Owned;
    SweepKeeps(env, f.kernel, Reversed(f.order), f.selected, Kill, f.order, root, began);
    OwnedGrows(f.kernel.world, end.world, f.kernel.sent, end.sent, |k.sent|, f.selected, f.order, root, began,
               Kill, f.kernel.world);
  }
}
