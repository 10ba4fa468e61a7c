/** Where the guarantees end: four families of runs in which a descendant survives, and why. */
module OwnedTreeLimits {
  import opened Wrappers
  import opened Collections
  import opened ProcessTable
  import opened OwnedTree
  import opened OwnedTreeSafety
  import opened OwnedTreeKill
  import opened OwnedTreeDescent

  // ---- Leaving the loop in the first round ----

  /** The started process forks once, between the first snapshot and the first SIGSTOP. */
  function ForkBeforeStop(tick: nat, root: nat, child: nat): Environment {
    t => if t == tick + 1 then [Fork(root, child)] else []
  }

  /**
    A break in round one closes nothing: whenever the started process runs without children, some
    interleaving makes the loop leave in round one and keeps a live child that is never selected,
    never stopped and still running after the kill phase.
   */
  lemma FirstRoundBreakLeaks(listing: Listing, k: Kernel, root: nat, id: Identity, child: nat)
    requires Lists(listing) && Sound(k.world) && root != INIT
    requires Matches(k.world, root, Some(id)) && k.world.table[root].state.Running?
    requires forall p | p in k.world.table :: k.world.table[p].ppid != root
    requires child != 0 && child !in k.world.table
    ensures var env := ForkBeforeStop(k.tick, root, child);
            var f := Frozen(env, listing, k, root, Some(id));
            && f.settled && f.rounds == 1 && !Closed(f.kernel.world, f.selected)
            && child !in f.selected && child in KillAll(env, f).world.table
            && KillAll(env, f).world.table[child].state.Running?
  {
    hide StopRounds, KillAll;
    LeakyRun(ForkBeforeStop(k.tick, root, child), listing, k, root, child, map[root := Some(id)]);
  }

  lemma FrozenAfterOneRound(env: Environment, listing: Listing, f: Freeze)
    requires Lists(listing) && Covers(f.selected, f.order) && f.rounds == 0 && !f.settled
    requires StopRound(env, listing, f).settled
    ensures StopRounds(env, listing, f) == StopRound(env, listing, f)
  {
  }

  lemma OneReversed(p: nat)
    ensures Reversed([p]) == [p]
  {
  }

  lemma NoChildrenNoAdmission(w: World, selected: Selection, root: nat)
    requires selected.Keys == {root}
    requires forall p | p in w.table :: w.table[p].ppid != root
    ensures Admitted(w, selected).Keys == {}
  {
  }

  lemma SelectNothing(selected: Selection, found: map<nat, Identity>)
    requires found.Keys == {}
    ensures Select(selected, found) == selected
  {
  }

  /** A round that admits nothing only sweeps the members it already had. */
  lemma EmptyRound(env: Environment, listing: Listing, f: Freeze)
    requires Lists(listing) && Covers(f.selected, f.order)
    requires Admitted(Observe(env, f.kernel).world, f.selected).Keys == {}
    ensures StopRound(env, listing, f)
         == Freeze(Sweep(env, Observe(env, f.kernel), f.order, f.selected, Stop), f.selected, f.order, f.rounds + 1,
             true)
  {
    var found := Admitted(Observe(env, f.kernel).world, f.selected);
    ListsNone(listing);
    SelectNothing(f.selected, found);
    assert f.order + [] == f.order;
  }

  /** Stopping a matching process changes nothing but its own state. */
  lemma StopSweepOne(env: Environment, k: Kernel, p: nat, selected: Selection, w: World)
    requires p in selected && selected[p].Some? && p != INIT
    requires Run(k.world, env(k.tick)) == w && Matches(w, p, selected[p])
    ensures Sweep(env, k, [p], selected, Stop).tick == k.tick + 1
    ensures Sweep(env, k, [p], selected, Stop).world == Deliver(w, p, Stop)
  {
    SweepOne(env, k, p, selected, Stop);
  }

  lemma ForkedChild(w: World, root: nat, child: nat)
    requires root in w.table && w.table[root].state.Running? && root != INIT
    requires child != 0 && child !in w.table
    ensures var n := Act(w, Fork(root, child));
            && n.table.Keys == w.table.Keys + {child} && n.clock == w.clock + 1
            && n.origin == w.origin[w.clock := w.table[root].start]
            && root in n.table && n.table[root] == w.table[root]
            && child in n.table && n.table[child] == Process(root, w.clock, Running)
  {
  }

  lemma StopLeavesOthers(w: World, root: nat, child: nat)
    requires root in w.table && child in w.table && root != child && w.table[root].state.Running?
    ensures var n := Deliver(w, root, Stop);
            && root in n.table && IdentityOf(n.table[root]) == IdentityOf(w.table[root])
            && child in n.table && n.table[child] == w.table[child]
  {
  }

  lemma QuietObserve(env: Environment, k: Kernel)
    requires env(k.tick) == []
    ensures Observe(env, k) == k.(tick := k.tick + 1)
  {
  }

  lemma LateFork(env: Environment, k: Kernel, root: nat, child: nat, selected: Selection)
    requires root != INIT && root in selected && Matches(k.world, root, selected[root])
    requires k.world.table[root].state.Running? && child != 0 && child !in k.world.table
    requires env(k.tick) == [Fork(root, child)]
    ensures var n := Sweep(env, k, [root], selected, Stop);
            && n.tick == k.tick + 1 && Matches(n.world, root, selected[root])
            && child in n.world.table && n.world.table[child].ppid == root && n.world.table[child].state.Running?
  {
    var forked := Act(k.world, Fork(root, child));
    RunOne(k.world, Fork(root, child));
    ForkedChild(k.world, root, child);
    hide Act, Deliver;
    StopSweepOne(env, k, root, selected, forked);
    StopLeavesOthers(forked, root, child);
  }

  /** One round of a process that forks right after the snapshot; `env` is quiet but for that fork. */
  lemma LeakyRun(env: Environment, listing: Listing, k: Kernel, root: nat, child: nat, selected: Selection)
    requires Lists(listing) && root != INIT && root != child
    requires selected.Keys == {root} && Matches(k.world, root, selected[root])
    requires k.world.table[root].state.Running? && child != 0 && child !in k.world.table
    requires forall p | p in k.world.table :: k.world.table[p].ppid != root
    requires env(k.tick) == env(k.tick + 2) == [] && env(k.tick + 1) == [Fork(root, child)]
    ensures Covers(selected, [root])
    ensures var f := StopRounds(env, listing, Freeze(k, selected, [root], 0, false));
            && f.settled && f.rounds == 1 && !Closed(f.kernel.world, f.selected)
            && child !in f.selected && child in KillAll(env, f).world.table
            && KillAll(env, f).world.table[child].state.Running?
  {
    var f0 := Freeze(k, selected, [root], 0, false);
    QuietObserve(env, k);
    NoChildrenNoAdmission(k.world, selected, root);
    EmptyRound(env, listing, f0);
    LateFork(env, k.(tick := k.tick + 1), root, child, selected);
    FrozenAfterOneRound(env, listing, f0);
    OneReversed(root);
    hide StopRound, Sweep, Run, Act, Observe;
    KillLeavesOrphan(env, StopRound(env, listing, f0).kernel, root, child, selected);
  }

  lemma KillLeavesOrphan(env: Environment, k: Kernel, root: nat, child: nat, selected: Selection)
    requires root in selected && root != INIT && root != child && env(k.tick) == []
    requires child in k.world.table && k.world.table[child].state.Running?
    ensures var n := Sweep(env, k, [root], selected, Kill);
            child in n.world.table && n.world.table[child].state.Running?
  {
    SweepOne(env, k, root, selected, Kill);
  }

  lemma RunOne(w: World, a: Action)
    ensures Run(w, [a]) == Act(w, a)
  {
    assert [a][1..] == [];
  }

  lemma SweepOne(env: Environment, k: Kernel, p: nat, selected: Selection, signal: Signal)
    requires p in selected
    ensures Sweep(env, k, [p], selected, signal) == SignalOwned(env, k, p, selected[p], signal)
  {
    assert [p][..0] == [];
  }

  // ---- A reused pid ----

  /** After the first snapshot the child exits, is reaped, and a new child takes over its pid. */
  function ReuseBeforeStop(tick: nat, root: nat, child: nat): Environment {
    t => if t == tick + 1 then [Exit(child), Reap(child), Fork(root, child)] else []
  }

  /** The started process runs and has one child, which runs and has none. */
  ghost predicate Family(w: World, root: nat, child: nat) {
    && Sound(w) && root != INIT && child != INIT && root != child
    && root in w.table && w.table[root].state.Running?
    && child in w.table && w.table[child].state.Running? && w.table[child].ppid == root
    && (forall p | p in w.table :: w.table[p].ppid != child && (w.table[p].ppid == root ==> p == child))
  }

  /** The same family, but the child's pid is held by a process with another start time. */
  ghost predicate Reborn(before: World, w: World, root: nat, child: nat) {
    && root in before.table && root in w.table && IdentityOf(w.table[root]) == IdentityOf(before.table[root])
    && child in before.table && child in w.table && w.table[child].start != before.table[child].start
    && w.table[child].ppid == root && w.table[child].state.Running?
    && (forall p | p in w.table :: w.table[p].ppid != child && (w.table[p].ppid == root ==> p == child))
  }

  lemma RunThree(w: World, a: Action, b: Action, c: Action)
    ensures Run(w, [a, b, c]) == Act(Act(Act(w, a), b), c)
  {
    assert [a, b, c][1..] == [b, c] && [b, c][1..] == [c];
    RunOne(Act(Act(w, a), b), c);
  }

  lemma ChildExits(w: World, root: nat, child: nat)
    requires Family(w, root, child)
    ensures var n := Act(w, Exit(child));
            && n.clock == w.clock && n.table.Keys == w.table.Keys
            && n.table[child].state.Zombie?
            && (forall p | p in w.table && p != child :: n.table[p] == w.table[p])
  {
  }

  lemma Rebirth(w: World, root: nat, child: nat)
    requires Family(w, root, child)
    ensures Reborn(w, Run(w, [Exit(child), Reap(child), Fork(root, child)]), root, child)
  {
    var dead := Act(w, Exit(child));
    ChildExits(w, root, child);
    var gone := Act(dead, Reap(child));
    assert gone.table.Keys == dead.table.Keys - {child};
    ForkedChild(gone, root, child);
    RunThree(w, Exit(child), Reap(child), Fork(root, child));
  }

  lemma StopKeepsReborn(before: World, w: World, root: nat, child: nat)
    requires Reborn(before, w, root, child)
    ensures Reborn(before, Deliver(w, root, Stop), root, child)
  {
  }

  /** In a sweep over both pids only the started process is reached. */
  lemma PairSweep(env: Environment, k: Kernel, before: World, w: World, root: nat, child: nat, selected: Selection)
    requires root in selected && child in selected && root != INIT
    requires Reborn(before, w, root, child) && Run(k.world, env(k.tick)) == w && env(k.tick + 1) == []
    requires selected[root] == Some(IdentityOf(before.table[root]))
    requires selected[child] == Some(IdentityOf(before.table[child]))
    ensures var n := Sweep(env, k, [root, child], selected, Stop);
            n.tick == k.tick + 2 && Reborn(before, n.world, root, child)
  {
    StopSweepOne(env, k, root, selected, w);
    SweepTwo(env, k, root, child, selected, Stop);
    SweepOne(env, k, root, selected, Stop);
    StopKeepsReborn(before, w, root, child);
    hide Deliver;
    QuietObserve(env, Sweep(env, k, [root], selected, Stop));
  }

  lemma OnlyChildAdmitted(w: World, root: nat, child: nat, selected: Selection)
    requires Family(w, root, child) && selected.Keys == {root} && Matches(w, root, selected[root])
    ensures Admitted(w, selected).Keys == {child}
    ensures Select(selected, Admitted(w, selected)).Keys == {root, child}
    ensures Select(selected, Admitted(w, selected))[root] == selected[root]
    ensures Select(selected, Admitted(w, selected))[child] == Some(IdentityOf(w.table[child]))
  {
  }

  lemma RebornAdmitsNothing(before: World, w: World, root: nat, child: nat, selected: Selection)
    requires Reborn(before, w, root, child) && selected.Keys == {root, child}
    ensures Admitted(w, selected).Keys == {}
  {
  }

  lemma OneAdmission(env: Environment, listing: Listing, f: Freeze, root: nat, child: nat)
    requires Lists(listing) && Covers(f.selected, f.order) && f.order == [root]
    requires Admitted(Observe(env, f.kernel).world, f.selected).Keys == {child}
    ensures var members := Select(f.selected, Admitted(Observe(env, f.kernel).world, f.selected));
            && Covers(members, [root, child])
            && StopRound(env, listing, f)
            == Freeze(Sweep(env, Observe(env, f.kernel), [root, child], members, Stop), members, [root, child],
                f.rounds + 1, false)
  {
    ListsOne(listing, child);
    assert [root] + [child] == [root, child];
    AdmissionCovers(Observe(env, f.kernel).world, listing, f.selected, f.order);
    assert child in Admitted(Observe(env, f.kernel).world, f.selected);
  }

  /** Round one admits the child, then loses it. */
  lemma ReuseRoundOne(env: Environment, listing: Listing, k: Kernel, root: nat, child: nat, selected: Selection)
    requires Lists(listing) && Family(k.world, root, child)
    requires selected.Keys == {root} && selected[root] == Some(IdentityOf(k.world.table[root]))
    requires env(k.tick) == env(k.tick + 2) == []
    requires env(k.tick + 1) == [Exit(child), Reap(child), Fork(root, child)]
    ensures var r := StopRound(env, listing, Freeze(k, selected, [root], 0, false));
            && !r.settled && r.rounds == 1 && r.order == [root, child] && r.selected.Keys == {root, child}
            && r.selected[root] == selected[root]
            && r.selected[child] == Some(IdentityOf(k.world.table[child]))
            && r.kernel.tick == k.tick + 3 && Reborn(k.world, r.kernel.world, root, child)
  {
    QuietObserve(env, k);
    OnlyChildAdmitted(k.world, root, child, selected);
    OneAdmission(env, listing, Freeze(k, selected, [root], 0, false), root, child);
    Rebirth(k.world, root, child);
    var members := Select(selected, Admitted(k.world, selected));
    var now := k.(tick := k.tick + 1);
    hide Act, Run, Sound, StopRound, Select, Admitted, Sweep;
    PairSweep(env, now, k.world, Run(k.world, env(k.tick + 1)), root, child, members);
  }

  /** Round two admits nothing, because the new child hides behind a selected pid. */
  lemma ReuseRoundTwo(env: Environment, listing: Listing, f: Freeze, before: World, root: nat, child: nat)
    requires Lists(listing) && root != INIT
    requires f.order == [root, child] && f.selected.Keys == {root, child} && Reborn(before, f.kernel.world, root, child)
    requires f.selected[root] == Some(IdentityOf(before.table[root]))
    requires f.selected[child] == Some(IdentityOf(before.table[child]))
    requires env(f.kernel.tick) == env(f.kernel.tick + 1) == env(f.kernel.tick + 2) == []
    ensures var r := StopRound(env, listing, f);
            && r.settled && r.rounds == f.rounds + 1 && r.order == f.order && r.selected == f.selected
            && r.kernel.tick == f.kernel.tick + 3 && Reborn(before, r.kernel.world, root, child)
  {
    QuietObserve(env, f.kernel);
    RebornAdmitsNothing(before, f.kernel.world, root, child, f.selected);
    EmptyRound(env, listing, f);
    var now := f.kernel.(tick := f.kernel.tick + 1);
    assert Run(now.world, []) == f.kernel.world;
    PairSweep(env, now, before, f.kernel.world, root, child, f.selected);
  }

  lemma KillReborn(w: World, before: World, root: nat, child: nat)
    requires Reborn(before, w, root, child) && root != child && root != INIT
    ensures var n := Deliver(w, root, Kill);
            child in n.table && n.table[child].state.Running? && n.table[child].start == w.table[child].start
  {
  }

  lemma ReuseKill(env: Environment, f: Freeze, before: World, root: nat, child: nat)
    requires Covers(f.selected, f.order) && f.order == [root, child] && root != child && root != INIT
    requires Reborn(before, f.kernel.world, root, child)
    requires root in f.selected && f.selected[root] == Some(IdentityOf(before.table[root]))
    requires child in f.selected && f.selected[child] == Some(IdentityOf(before.table[child]))
    requires env(f.kernel.tick) == env(f.kernel.tick + 1) == []
    ensures var n := KillAll(env, f);
            && child in n.world.table && n.world.table[child].state.Running?
            && n.world.table[child].start == f.kernel.world.table[child].start
  {
    assert Reversed([root, child]) == [child, root];
    SweepTwo(env, f.kernel, child, root, f.selected, Kill);
    QuietObserve(env, f.kernel);
    QuietObserve(env, f.kernel.(tick := f.kernel.tick + 1));
    KillReborn(f.kernel.world, before, root, child);
    hide Deliver;
  }

  /**
    The freeze is by identity, the exclusion of known pids is not: whenever the started process
    has one childless child, some interleaving makes the loop settle in round two with the started
    process intact, while a live child of it holds a selected pid under another start time; that
    child is never admitted, never signalled, and runs on after the kill phase.
   */
  lemma ReusedPidLeaks(listing: Listing, k: Kernel, root: nat, child: nat)
    requires Lists(listing) && Family(k.world, root, child)
    ensures var env := ReuseBeforeStop(k.tick, root, child);
            var f := Frozen(env, listing, k, root, Some(IdentityOf(k.world.table[root])));
            && f.settled && f.rounds == 2
            && Matches(f.kernel.world, root, Some(IdentityOf(k.world.table[root])))
            && child in f.kernel.world.table && f.kernel.world.table[child].ppid == root
            && Sound(f.kernel.world) && !NoneHidden(f.kernel.world, f.selected, root)
            && child in KillAll(env, f).world.table && KillAll(env, f).world.table[child].state.Running?
            && KillAll(env, f).world.table[child].start == f.kernel.world.table[child].start
  {
    hide StopRounds, KillAll, Sound, Lists, NoneHidden;
    var id := IdentityOf(k.world.table[root]);
    var env := ReuseBeforeStop(k.tick, root, child);
    FamilyFrozen(env, listing, k, root, child);
    ReuseRun(env, listing, k, root, child, map[root := Some(id)]);
    hide Family, ReuseBeforeStop;
    ChildIsHidden(Frozen(env, listing, k, root, Some(id)), root, child);
  }

  lemma FamilyStarts(w: World, root: nat, child: nat)
    requires Family(w, root, child)
    ensures Started(w, root, Some(IdentityOf(w.table[root])), w.table[root].start)
  {
  }

  lemma FamilyFrozen(env: Environment, listing: Listing, k: Kernel, root: nat, child: nat)
    requires Lists(listing) && Family(k.world, root, child)
    ensures Sound(Frozen(env, listing, k, root, Some(IdentityOf(k.world.table[root]))).kernel.world)
  {
    FamilyStarts(k.world, root, child);
    var id := IdentityOf(k.world.table[root]);
    FreezeClosure(env, listing, k, root, Some(id), id.start);
    hide Frozen, Sound, Started, Closed, Lists, Tracks, Evolves, Owned, Held;
  }

  lemma ChildIsHidden(f: Freeze, root: nat, child: nat)
    requires Sound(f.kernel.world) && root in f.kernel.world.table && root != INIT && child != root && child != INIT
    requires child in f.kernel.world.table && f.kernel.world.table[child].ppid == root
    requires f.kernel.world.table[child].state.Running? && child in f.selected
    requires f.selected[child].Some? && f.selected[child].value.start != f.kernel.world.table[child].start
    ensures !NoneHidden(f.kernel.world, f.selected, root)
  {
    assert Attached(f.kernel.world, root, root);
    assert Attached(f.kernel.world, child, root);
  }

  lemma ReuseRun(env: Environment, listing: Listing, k: Kernel, root: nat, child: nat, selected: Selection)
    requires Lists(listing) && Family(k.world, root, child)
    requires selected.Keys == {root} && selected[root] == Some(IdentityOf(k.world.table[root]))
    requires env(k.tick) == [] && forall t: nat | k.tick + 2 <= t :: env(t) == []
    requires env(k.tick + 1) == [Exit(child), Reap(child), Fork(root, child)]
    ensures Covers(selected, [root])
    ensures var f := StopRounds(env, listing, Freeze(k, selected, [root], 0, false));
            && f.settled && f.rounds == 2
            && Matches(f.kernel.world, root, Some(IdentityOf(k.world.table[root])))
            && child in f.kernel.world.table && f.kernel.world.table[child].ppid == root
            && f.kernel.world.table[child].state.Running? && child in f.selected
            && f.selected[child].Some? && f.selected[child].value.start != f.kernel.world.table[child].start
            && child in KillAll(env, f).world.table && KillAll(env, f).world.table[child].state.Running?
            && KillAll(env, f).world.table[child].start == f.kernel.world.table[child].start
  {
    hide StopRound, Observe, Run, Act, Sound, KillAll, StopRounds;
    var f0 := Freeze(k, selected, [root], 0, false);
    ReuseRoundOne(env, listing, k, root, child, selected);
    var f1 := StopRound(env, listing, f0);
    ReuseRoundTwo(env, listing, f1, k.world, root, child);
    var f2 := StopRound(env, listing, f1);
    ReuseKill(env, f2, k.world, root, child);
    FrozenAfterTwoRounds(env, listing, f0);
  }

  lemma FrozenAfterTwoRounds(env: Environment, listing: Listing, f: Freeze)
    requires Lists(listing) && Covers(f.selected, f.order) && f.rounds == 0 && !f.settled
    requires !StopRound(env, listing, f).settled
    requires StopRound(env, listing, StopRound(env, listing, f)).settled
    ensures StopRounds(env, listing, f) == StopRound(env, listing, StopRound(env, listing, f))
  {
    hide StopRound;
    var f1 := StopRound(env, listing, f);
    var f2 := StopRound(env, listing, f1);
    assert f1.rounds == 1 && f2.rounds == 2;
    assert StopRounds(env, listing, f2) == f2;
    assert StopRounds(env, listing, f1) == f2;
  }

  lemma FirstIsListed(s: seq<nat>)
    ensures s == [] || s[0] in s
  {
  }

  lemma ListsNone(listing: Listing)
    requires Lists(listing)
    ensures listing({}) == []
  {
    FirstIsListed(listing({}));
  }

  lemma TwoDiffer(s: seq<nat>)
    requires Distinct(s) && 2 <= |s|
    ensures s[0] != s[1] && s[0] in s && s[1] in s
  {
  }

  lemma OnlyOnce(s: seq<nat>, p: nat)
    requires Distinct(s) && p in s && forall x | x in s :: x == p
    ensures s == [p]
  {
    if 2 <= |s| { TwoDiffer(s); }
  }

  lemma ListsOne(listing: Listing, p: nat)
    requires Lists(listing)
    ensures listing({p}) == [p]
  {
    assert p in listing({p});
    OnlyOnce(listing({p}), p);
  }

  lemma SweepTwo(env: Environment, k: Kernel, p: nat, q: nat, selected: Selection, signal: Signal)
    requires p in selected && q in selected
    ensures Sweep(env, k, [p, q], selected, signal)
         == SignalOwned(env, SignalOwned(env, k, p, selected[p], signal), q, selected[q], signal)
  {
    assert [p, q][..1] == [p];
    SweepOne(env, k, p, selected, signal);
  }

  // ---- More generations than rounds ----

  function Quiet(): Environment {
    t => []
  }

  /** Each process is the child of the one before it. */
  ghost predicate Generations(w: World, chain: seq<nat>) {
    && (forall i | 0 <= i < |chain| :: chain[i] in w.table)
    && (forall i | 0 < i < |chain| :: w.table[chain[i]].ppid == chain[i - 1])
  }

  /** Nothing but the states of listed processes differs. */
  ghost predicate OnlyStopped(before: World, now: World, order: seq<nat>) {
    && now.table.Keys == before.table.Keys
    && (forall p | p in now.table :: IdentityOf(now.table[p]) == IdentityOf(before.table[p]))
    && (forall p | p in now.table && p !in order :: now.table[p] == before.table[p])
  }

  lemma {:induction false} QuietStopSweep(k: Kernel, order: seq<nat>, selected: Selection)
    requires Covers(selected, order)
    ensures OnlyStopped(k.world, Sweep(Quiet(), k, order, selected, Stop).world, order)
    decreases |order|
  {
    if order != [] {
      QuietStopSweep(k, order[..|order| - 1], selected);
      var m := Sweep(Quiet(), k, order[..|order| - 1], selected, Stop);
      if selected[order[|order| - 1]].Some? { QuietObserve(Quiet(), m); }
    }
  }

  lemma {:induction false} QuietKillSweep(k: Kernel, order: seq<nat>, selected: Selection, p: nat)
    requires Covers(selected, order) && p !in order && p in k.world.table && k.world.table[p].state.Running?
    ensures var n := Sweep(Quiet(), k, order, selected, Kill).world; p in n.table && n.table[p].state.Running?
    decreases |order|
  {
    if order != [] {
      QuietKillSweep(k, order[..|order| - 1], selected, p);
      var m := Sweep(Quiet(), k, order[..|order| - 1], selected, Kill);
      if selected[order[|order| - 1]].Some? { QuietObserve(Quiet(), m); }
    }
  }

  lemma {:induction false} GenerationsDiffer(w: World, chain: seq<nat>, i: nat, j: nat)
    requires Sound(w) && Generations(w, chain) && chain != [] && chain[0] != INIT && i < j < |chain|
    ensures chain[j] != INIT && w.table[chain[i]].start < w.table[chain[j]].start
    decreases j
  {
    assert chain[j - 1] in w.table && w.table[chain[j]].ppid == chain[j - 1];
    if 1 < j { GenerationsDiffer(w, chain, 0, j - 1); }
    ParentIsOlder(w, chain[j]);
    if i < j - 1 { GenerationsDiffer(w, chain, i, j - 1); }
  }

  /** After as many rounds exactly the first generations are selected, with their identities. */
  ghost predicate Reached(before: World, f: Freeze, chain: seq<nat>)
    requires f.rounds < |chain| && Generations(before, chain)
  {
    && !f.settled && Covers(f.selected, f.order) && f.kernel.world.table.Keys == before.table.Keys
    && (forall p | p in before.table :: IdentityOf(f.kernel.world.table[p]) == IdentityOf(before.table[p]))
    && (forall p | p in before.table && p !in f.selected :: f.kernel.world.table[p] == before.table[p])
    && (forall i | 0 <= i <= f.rounds ::
          chain[i] in f.selected && f.selected[chain[i]] == Some(IdentityOf(before.table[chain[i]])))
    && (forall i | f.rounds < i < |chain| :: chain[i] !in f.selected)
  }

  lemma NextAdmitted(before: World, f: Freeze, chain: seq<nat>)
    requires Sound(before) && Generations(before, chain) && f.rounds + 1 < |chain| && Reached(before, f, chain)
    ensures var found := Admitted(f.kernel.world, f.selected);
            && chain[f.rounds + 1] in found
            && found[chain[f.rounds + 1]] == IdentityOf(before.table[chain[f.rounds + 1]])
            && (forall i | f.rounds + 1 < i < |chain| :: chain[i] !in found)
            && (forall p | p in found :: p in before.table && p !in f.selected)
  {
    var w, next := f.kernel.world, f.rounds + 1;
    assert chain[next] in w.table && chain[next - 1] in w.table && w.table[chain[next]].ppid == chain[next - 1];
    forall i | next < i < |chain|
      ensures chain[i] !in Admitted(w, f.selected)
    {
      assert chain[i] in w.table && w.table[chain[i]].ppid == chain[i - 1];
    }
  }

  /** Stopping members leaves what was reached. */
  lemma ReachedAfterSweep(before: World, f: Freeze, n: Freeze, chain: seq<nat>)
    requires Generations(before, chain) && f.rounds + 1 < |chain| && Reached(before, f, chain)
    requires var found := Admitted(f.kernel.world, f.selected);
             && chain[f.rounds + 1] in found
             && found[chain[f.rounds + 1]] == IdentityOf(before.table[chain[f.rounds + 1]])
             && (forall i | f.rounds + 1 < i < |chain| :: chain[i] !in found)
             && n.selected == Select(f.selected, found)
             && (forall p | p in found :: p in before.table && p !in f.selected)
    requires n.rounds == f.rounds + 1 && !n.settled && Covers(n.selected, n.order)
    requires OnlyStopped(f.kernel.world, n.kernel.world, n.order)
    ensures Reached(before, n, chain)
  {
    hide Admitted;
    assert forall p | p in before.table && p !in n.selected :: p !in f.selected && p !in n.order;
    forall i | 0 <= i <= n.rounds
      ensures chain[i] in n.selected && n.selected[chain[i]] == Some(IdentityOf(before.table[chain[i]]))
    {
      if i < n.rounds { assert chain[i] in f.selected; }
    }
  }

  lemma QuietRound(listing: Listing, f: Freeze)
    requires Lists(listing) && Covers(f.selected, f.order)
    ensures var n, found := StopRound(Quiet(), listing, f), Admitted(f.kernel.world, f.selected);
            && n.selected == Select(f.selected, found) && n.rounds == f.rounds + 1 && n.settled == (found == map[])
            && OnlyStopped(f.kernel.world, n.kernel.world, n.order)
  {
    var found := Admitted(f.kernel.world, f.selected);
    hide Admitted, Lists, Sweep, Covers, Select, OnlyStopped;
    AdmissionCovers(f.kernel.world, listing, f.selected, f.order);
    QuietObserve(Quiet(), f.kernel);
    var now := f.kernel.(tick := f.kernel.tick + 1);
    hide Admitted, Lists, Sweep, Observe, Covers, Select, OnlyStopped, Quiet;
    QuietStopSweep(now, f.order + listing(found.Keys), Select(f.selected, found));
  }

  lemma NotEmpty(found: map<nat, Identity>, p: nat)
    requires p in found
    ensures found != map[]
  {
  }

  /** One quiet round admits the next generation and no later one. */
  lemma NextGeneration(listing: Listing, before: World, f: Freeze, chain: seq<nat>)
    requires Lists(listing) && Sound(before) && Generations(before, chain)
    requires f.rounds + 1 < |chain| && Reached(before, f, chain)
    ensures Reached(before, StopRound(Quiet(), listing, f), chain)
  {
    assert Covers(f.selected, f.order);
    hide Reached, Sound, Generations, Admitted, Lists, Covers, Select, OnlyStopped, StopRound;
    NextAdmitted(before, f, chain);
    NotEmpty(Admitted(f.kernel.world, f.selected), chain[f.rounds + 1]);
    QuietRound(listing, f);
    ReachedAfterSweep(before, f, StopRound(Quiet(), listing, f), chain);
  }

  lemma {:induction false} GenerationsReached(listing: Listing, before: World, f: Freeze, chain: seq<nat>)
    requires Lists(listing) && Sound(before) && Generations(before, chain) && |chain| == ROUNDS + 2 && chain[0] != INIT
    requires f.rounds <= ROUNDS && Reached(before, f, chain)
    ensures var r := StopRounds(Quiet(), listing, f); r.rounds == ROUNDS && Reached(before, r, chain)
    decreases ROUNDS - f.rounds
  {
    if f.rounds < ROUNDS {
      NextGeneration(listing, before, f, chain);
      assert !f.settled;
      hide Reached, StopRound;
      GenerationsReached(listing, before, StopRound(Quiet(), listing, f), chain);
    }
  }

  lemma ChainStarts(k: Kernel, id: Identity, chain: seq<nat>)
    requires Sound(k.world) && Generations(k.world, chain) && 1 < |chain| && chain[0] != INIT
    requires Matches(k.world, chain[0], Some(id))
    ensures Reached(k.world, Freeze(k, map[chain[0] := Some(id)], [chain[0]], 0, false), chain)
  {
    forall i | 0 < i < |chain|
      ensures chain[i] != chain[0]
    {
      GenerationsDiffer(k.world, chain, 0, i);
    }
  }

  lemma LastGenerationRemains(listing: Listing, before: World, f: Freeze, chain: seq<nat>)
    requires Sound(before) && Generations(before, chain) && |chain| == ROUNDS + 2 && f.rounds == ROUNDS
    requires Reached(before, f, chain) && before.table[chain[ROUNDS + 1]].state.Running?
    ensures !f.settled && !Closed(f.kernel.world, f.selected)
    ensures var n := KillAll(Quiet(), f).world;
            chain[ROUNDS + 1] in n.table && n.table[chain[ROUNDS + 1]].state.Running?
  {
    var p, q := chain[ROUNDS + 1], chain[ROUNDS];
    assert before.table[p].ppid == q;
    assert p !in f.selected && f.kernel.world.table[p] == before.table[p];
    assert Matches(f.kernel.world, q, f.selected[q]);
    assert forall x | x in Reversed(f.order) :: x in f.order;
    hide Sound, Generations, Reached;
    QuietKillSweep(f.kernel, Reversed(f.order), f.selected, p);
  }

  /**
    Sixteen rounds admit sixteen generations.  Without any interference at all, whenever the started
    process has a running descendant in the seventeenth generation, the loop uses up its rounds
    unsettled, leaves that descendant unselected under a stopped parent, and it outlives the kill phase.
   */
  lemma DeepTreeLeaks(listing: Listing, k: Kernel, id: Identity, chain: seq<nat>)
    requires Lists(listing) && Sound(k.world) && |chain| == 18 && Generations(k.world, chain)
    requires chain[0] != INIT && Matches(k.world, chain[0], Some(id))
    requires k.world.table[chain[17]].state.Running?
    ensures var f := Frozen(Quiet(), listing, k, chain[0], Some(id));
            var end := KillAll(Quiet(), f).world;
            && !f.settled && f.rounds == 16 && !Closed(f.kernel.world, f.selected)
            && chain[17] !in f.selected
            && chain[17] in end.table && end.table[chain[17]].state.Running?
  {
    ChainStarts(k, id, chain);
    var f0 := Freeze(k, map[chain[0] := Some(id)], [chain[0]], 0, false);
    GenerationsReached(listing, k.world, f0, chain);
    LastGenerationRemains(listing, k.world, StopRounds(Quiet(), listing, f0), chain);
    hide StopRounds, KillAll, Closed, Sound;
  }

  // ---- A descendant whose own parent has exited ----

  /** A round never admits an orphan and never signals it. */
  lemma RoundPassesOrphan(env: Environment, listing: Listing, k0: Kernel, f: Freeze, root: nat, began: nat, p: nat,
      start: nat)
    requires Lists(listing) && Covers(f.selected, f.order) && Invariant(k0, f, root, began)
    requires p !in f.selected && Orphan(f.kernel.world, p, start) && Unharmed(env, f.kernel.tick, {p})
    ensures var r := StopRound(env, listing, f);
            p !in r.selected && Orphan(r.kernel.world, p, start) && f.kernel.tick <= r.kernel.tick
  {
    var now := Observe(env, f.kernel);
    RunKeepsAlive(f.kernel.world, env(f.kernel.tick), p, start, {p});
    var found := Admitted(now.world, f.selected);
    assert INIT !in f.selected && p !in found;
    var members, longer := Select(f.selected, found), f.order + listing(found.Keys);
    AdmissionCovers(now.world, listing, f.selected, f.order);
    hide Invariant, Sweep;
    SweepPasses(env, now, longer, members, Stop, p, start);
    TicksGrow(env, now, longer, members, Stop);
  }

  lemma {:induction false} RoundsPassOrphan(env: Environment, listing: Listing, k0: Kernel, f: Freeze, root: nat,
      began: nat, p: nat, start: nat)
    requires Lists(listing) && Covers(f.selected, f.order) && Invariant(k0, f, root, began) && f.rounds <= ROUNDS
    requires p !in f.selected && Orphan(f.kernel.world, p, start) && Unharmed(env, f.kernel.tick, {p})
    ensures var r := StopRounds(env, listing, f);
            p !in r.selected && Orphan(r.kernel.world, p, start) && f.kernel.tick <= r.kernel.tick
    decreases ROUNDS - f.rounds
  {
    if !f.settled && f.rounds < ROUNDS {
      RoundKeeps(env, listing, k0, f, root, began);
      RoundPassesOrphan(env, listing, k0, f, root, began, p, start);
      assert Unharmed(env, StopRound(env, listing, f).kernel.tick, {p});
      RoundsPassOrphan(env, listing, k0, StopRound(env, listing, f), root, began, p, start);
    }
  }

  /**
    A descendant whose own parent exited before the first reading has init as its parent.  Whatever
    the rest of the environment does, no round selects it, no signal reaches it, and it is alive
    when the supervisor is done.
   */
  lemma OrphanLeaks(env: Environment, listing: Listing, k: Kernel, root: nat, identity: Option<Identity>, began: nat,
      p: nat)
    requires Lists(listing) && Started(k.world, root, identity, began) && p != root
    requires LiveDescendant(k.world, p, began) && k.world.table[p].ppid == INIT && Unharmed(env, k.tick, {p})
    ensures var f := Frozen(env, listing, k, root, identity);
            p !in f.selected && LiveDescendant(KillAll(env, f).world, p, began)
  {
    hide *;
    var f0, f := Freeze(k, map[root := identity], [root], 0, false), Frozen(env, listing, k, root, identity);
    OrphanStarts(k, root, identity, began, p);
    LoopStart(env, listing, k, root, identity);
    RoundsPassOrphan(env, listing, k, f0, root, began, p, k.world.table[p].start);
    FreezeClosure(env, listing, k, root, identity, began);
    FrozenOrphanIsLeft(env, k, f, root, began, p);
  }

  lemma OrphanStarts(k: Kernel, root: nat, identity: Option<Identity>, began: nat, p: nat)
    requires Started(k.world, root, identity, began)
    requires p != root && LiveDescendant(k.world, p, began) && k.world.table[p].ppid == INIT
    ensures p in k.world.table && Orphan(k.world, p, k.world.table[p].start)
    ensures Invariant(k, Freeze(k, map[root := identity], [root], 0, false), root, began)
  {
    StartTracks(k.world, root, identity, began);
    SelfEvolves(k.world);
    hide Sound, Evolves, Tracks, Descends;
  }

  lemma FrozenOrphanIsLeft(env: Environment, k: Kernel, f: Freeze, root: nat, began: nat, p: nat)
    requires Invariant(k, f, root, began) && Covers(f.selected, f.order) && LiveDescendant(k.world, p, began)
    requires p !in f.selected && Orphan(f.kernel.world, p, k.world.table[p].start)
    requires Unharmed(env, k.tick, {p}) && k.tick <= f.kernel.tick
    ensures LiveDescendant(KillAll(env, f).world, p, began)
  {
    var start, end := k.world.table[p].start, KillAll(env, f).world;
    hide Sound, Evolves, Tracks, Held, KillAll, Owned;
    KillPasses(env, f, p, start);
    KillKeeps(env, f, root, began);
    EvolvesTransitive(k.world, f.kernel.world, end);
    DescentStays(k.world, end, start, began);
  }

  lemma DescentStays(before: World, now: World, s: nat, began: nat)
    requires Evolves(before, now) && Descends(before.origin, s, began)
    ensures Descends(now.origin, s, began)
  {
    DescentIsPermanent(before.origin, now.origin, s, began);
  }

  /** Such orphans arise below every running process. */
  lemma OrphansArise(w: World, root: nat, child: nat, grandchild: nat)
    requires Sound(w) && root in w.table && w.table[root].state.Running? && root != INIT
    requires child != 0 && grandchild != 0 && child != grandchild && child !in w.table && grandchild !in w.table
    ensures var n := Run(w, [Fork(root, child), Fork(child, grandchild), Exit(child)]);
            LiveDescendant(n, grandchild, w.table[root].start) && n.table[grandchild].ppid == INIT
  {
    assert w.table[root].start < w.clock && INIT in w.table;
    hide *;
    var born := Act(w, Fork(root, child));
    RunThree(w, Fork(root, child), Fork(child, grandchild), Exit(child));
    ForkedChild(w, root, child);
    ForkedChild(born, child, grandchild);
    var grown := Act(born, Fork(child, grandchild));
    ExitOrphans(grown, child, grandchild);
    GrandchildDescends(grown.origin, w.clock, w.table[root].start);
    OrphanIsLive(Act(grown, Exit(child)), grandchild, w.table[root].start);
  }

  lemma ExitOrphans(w: World, child: nat, grandchild: nat)
    requires child in w.table && child != INIT && w.table[child].state.Running?
    requires grandchild in w.table && w.table[grandchild].ppid == child && grandchild != child
    ensures var n := Act(w, Exit(child));
            && n.origin == w.origin && grandchild in n.table
            && n.table[grandchild] == w.table[grandchild].(ppid := INIT)
  {
  }

  lemma GrandchildDescends(origin: map<nat, nat>, s: nat, began: nat)
    requires s in origin && s + 1 in origin && origin[s + 1] == s && origin[s] == began && began < s
    ensures Descends(origin, s + 1, began)
  {
    assert Descends(origin, s, began);
  }

  lemma OrphanIsLive(w: World, p: nat, began: nat)
    requires p in w.table && w.table[p].state.Running? && Descends(w.origin, w.table[p].start, began)
    ensures LiveDescendant(w, p, began)
  {
  }
}
