/** What holds of every run of the supervisor, under every interleaving with the environment. */
module OwnedTreeSafety {
  import opened Wrappers
  import opened ProcessTable
  import opened OwnedTree

  // ---- One signal and one sweep ----

  lemma ObserveKeeps(env: Environment, k: Kernel)
    requires Sound(k.world)
    ensures Sound(Observe(env, k).world) && Evolves(k.world, Observe(env, k).world)
  {
    RunKeeps(k.world, env(k.tick));
  }

  lemma SignalKeeps(env: Environment, k: Kernel, pid: nat, expected: Option<Identity>, signal: Signal)
    requires Sound(k.world)
    ensures var n := SignalOwned(env, k, pid, expected, signal);
            Sound(n.world) && Evolves(k.world, n.world)
  {
    if expected.None? {
      SelfEvolves(k.world);
    } else {
      ObserveKeeps(env, k);
      var now := Observe(env, k);
      if Matches(now.world, pid, expected) {
        DeliverKeeps(now.world, pid, signal);
        EvolvesTransitive(k.world, now.world, Deliver(now.world, pid, signal));
      }
    }
  }

  /** The event reports a signal to a member that still had its recorded identity at `w`. */
  ghost predicate Justified(w: World, selected: Selection, e: Event, signal: Signal) {
    && e.signal == signal
    && e.pid in selected && Matches(w, e.pid, selected[e.pid]) && selected[e.pid].value.start == e.start
  }

  ghost predicate Sends(w: World, before: seq<Event>, now: seq<Event>, selected: Selection, signal: Signal) {
    before <= now && forall i | |before| <= i < |now| :: Justified(w, selected, now[i], signal)
  }

  lemma SignalSends(env: Environment, k: Kernel, m: Kernel, pid: nat, selected: Selection, signal: Signal,
                    all: seq<nat>, root: nat, began: nat)
    requires Sound(m.world) && Evolves(k.world, m.world) && Tracks(k.world, selected, all, root, began)
    requires pid in selected && Sends(k.world, k.sent, m.sent, selected, signal)
    ensures Sends(k.world, k.sent, SignalOwned(env, m, pid, selected[pid], signal).sent, selected, signal)
  {
    var n := SignalOwned(env, m, pid, selected[pid], signal);
    if n.sent != m.sent {
      var now := Observe(env, m);
      ObserveKeeps(env, m);
      EvolvesTransitive(k.world, m.world, now.world);
      MatchedBefore(k.world, now.world, pid, selected[pid].value);
      assert n.sent == m.sent + [Event(pid, selected[pid].value.start, signal)];
    }
  }

  /**
    A sweep only lets the world evolve, keeps what is known about the members, and every signal
    it sends goes to a member that already had its recorded identity when the sweep began.
   */
  lemma {:induction false} SweepKeeps(env: Environment, k: Kernel, order: seq<nat>, selected: Selection,
                                      signal: Signal, all: seq<nat>, root: nat, began: nat)
    requires Sound(k.world) && Tracks(k.world, selected, all, root, began) && Covers(selected, order)
    ensures var n := Sweep(env, k, order, selected, signal);
            && Sound(n.world) && Evolves(k.world, n.world) && Tracks(n.world, selected, all, root, began)
            && Sends(k.world, k.sent, n.sent, selected, signal)
    decreases |order|
  {
    if order == [] {
      SelfEvolves(k.world);
    } else {
      var last := |order| - 1;
      var m := Sweep(env, k, order[..last], selected, signal);
      SweepKeeps(env, k, order[..last], selected, signal, all, root, began);
      hide Sound, Evolves, Tracks, Sends;
      SignalKeeps(env, m, order[last], selected[order[last]], signal);
      EvolvesTransitive(k.world, m.world, SignalOwned(env, m, order[last], selected[order[last]], signal).world);
      TracksIsStable(k.world, SignalOwned(env, m, order[last], selected[order[last]], signal).world, selected, all,
          root, began);
      SignalSends(env, k, m, order[last], selected, signal, all, root, began);
    }
  }

  /** No listed member that still has its recorded identity is running. */
  ghost predicate Held(w: World, members: seq<nat>, selected: Selection) {
    forall p | p in members && p in selected && Matches(w, p, selected[p]) :: !w.table[p].state.Running?
  }

  lemma HeldIsStable(before: World, now: World, members: seq<nat>, selected: Selection, all: seq<nat>, root: nat,
      began: nat)
    requires Evolves(before, now) && Tracks(before, selected, all, root, began) && Held(before, members, selected)
    ensures Held(now, members, selected)
  {
    forall p | p in members && p in selected && Matches(now, p, selected[p])
      ensures !now.table[p].state.Running?
    {
      MatchedBefore(before, now, p, selected[p].value);
    }
  }

  lemma StopHolds(env: Environment, m: Kernel, pid: nat, selected: Selection)
    requires pid in selected && pid != INIT
    ensures Held(SignalOwned(env, m, pid, selected[pid], Stop).world, [pid], selected)
  {
  }

  lemma HeldTogether(w: World, order: seq<nat>, last: nat, selected: Selection)
    requires order != [] && last == order[|order| - 1]
    requires Held(w, order[..|order| - 1], selected) && Held(w, [last], selected)
    ensures Held(w, order, selected)
  {
    assert order == order[..|order| - 1] + [last];
    assert last in [last];
  }

  lemma {:induction false} StopSweepHolds(env: Environment, k: Kernel, order: seq<nat>, selected: Selection,
                                          all: seq<nat>, root: nat, began: nat)
    requires Sound(k.world) && Tracks(k.world, selected, all, root, began) && Covers(selected, order)
    ensures Held(Sweep(env, k, order, selected, Stop).world, order, selected)
    decreases |order|
  {
    if order != [] {
      var last := |order| - 1;
      assert order[last] in order && order[last] != INIT;
      var m := Sweep(env, k, order[..last], selected, Stop);
      SweepKeeps(env, k, order[..last], selected, Stop, all, root, began);
      StopSweepHolds(env, k, order[..last], selected, all, root, began);
      hide Sound, Evolves, Tracks, Sends, Held;
      var n := SignalOwned(env, m, order[last], selected[order[last]], Stop);
      SignalKeeps(env, m, order[last], selected[order[last]], Stop);
      HeldIsStable(m.world, n.world, order[..last], selected, all, root, began);
      StopHolds(env, m, order[last], selected);
      HeldTogether(n.world, order, order[last], selected);
    }
  }

  // ---- The stop rounds ----

  /** Every signal reached the started process or a true descendant of it. */
  ghost predicate Owned(w: World, sent: seq<Event>, from: nat, began: nat) {
    forall i | from <= i < |sent| :: Descends(w.origin, sent[i].start, began)
  }

  ghost predicate Invariant(k0: Kernel, f: Freeze, root: nat, began: nat) {
    && Sound(f.kernel.world) && Evolves(k0.world, f.kernel.world)
    && Tracks(f.kernel.world, f.selected, f.order, root, began)
    && k0.sent <= f.kernel.sent && Owned(f.kernel.world, f.kernel.sent, |k0.sent|, began)
    && (0 < f.rounds ==> Held(f.kernel.world, f.order, f.selected))
  }

  /** Every live process whose parent is a member with its recorded identity is itself selected. */
  ghost predicate Closed(w: World, selected: Selection) {
    forall p | p in w.table && w.table[p].ppid in selected
               && Matches(w, w.table[p].ppid, selected[w.table[p].ppid]) :: p in selected
  }

  lemma OwnedGrows(before: World, now: World, sent: seq<Event>, more: seq<Event>, from: nat, selected: Selection,
                   all: seq<nat>, root: nat, began: nat, signal: Signal, at: World)
    requires Evolves(before, now) && Owned(before, sent, from, began)
    requires Evolves(at, now) && Tracks(at, selected, all, root, began)
    requires Sends(at, sent, more, selected, signal)
    ensures Owned(now, more, from, began)
  {
    forall i | from <= i < |more|
      ensures Descends(now.origin, more[i].start, began)
    {
      if i < |sent| {
        DescentIsPermanent(before.origin, now.origin, sent[i].start, began);
      } else {
        assert Justified(at, selected, more[i], signal);
        DescentIsPermanent(at.origin, now.origin, more[i].start, began);
      }
    }
  }

  lemma RoundKeeps(env: Environment, listing: Listing, k0: Kernel, f: Freeze, root: nat, began: nat)
    requires Lists(listing) && Covers(f.selected, f.order) && Invariant(k0, f, root, began)
    ensures Invariant(k0, StopRound(env, listing, f), root, began)
  {
    var now := Observe(env, f.kernel);
    var r := StopRound(env, listing, f);
    ObserveKeeps(env, f.kernel);
    TracksIsStable(f.kernel.world, now.world, f.selected, f.order, root, began);
    AdmissionTracks(now.world, listing, f.selected, f.order, root, began);
    SweepKeeps(env, now, r.order, r.selected, Stop, r.order, root, began);
    StopSweepHolds(env, now, r.order, r.selected, r.order, root, began);
    EvolvesTransitive(k0.world, f.kernel.world, now.world);
    EvolvesTransitive(k0.world, now.world, r.kernel.world);
    EvolvesTransitive(f.kernel.world, now.world, r.kernel.world);
    OwnedGrows(f.kernel.world, r.kernel.world, f.kernel.sent, r.kernel.sent, |k0.sent|, r.selected, r.order,
               root, began, Stop, now.world);
  }

  lemma OnlyRunningProcessesFork(before: World, now: World, p: nat, q: nat)
    requires Sound(before) && Sound(now) && Evolves(before, now)
    requires p in now.table && now.table[p].ppid == q && q != INIT
    requires q in before.table && Continues(before, now, q)
    requires before.clock <= now.table[p].start
    ensures before.table[q].state.Running?
  {
    assert ParentSound(now, p);
    assert CanFork(before, before.table[q].start);
  }

  /** A child of a member that was not running before is a child the member already had. */
  lemma StoppedParentsDoNotFork(before: World, now: World, selected: Selection, order: seq<nat>, root: nat,
      began: nat, p: nat)
    requires Sound(before) && Sound(now) && Evolves(before, now)
    requires Tracks(before, selected, order, root, began) && Held(before, order, selected)
    requires p in now.table && now.table[p].ppid in selected
             && Matches(now, now.table[p].ppid, selected[now.table[p].ppid])
    ensures p in before.table && before.table[p].ppid == now.table[p].ppid
    ensures Matches(before, now.table[p].ppid, selected[now.table[p].ppid])
  {
    var q := now.table[p].ppid;
    MatchedBefore(before, now, q, selected[q].value);
    assert q in order && !before.table[q].state.Running?;
    if before.clock <= now.table[p].start {
      OnlyRunningProcessesFork(before, now, p, q);
    } else {
      assert Continues(before, now, p);
    }
  }

  lemma NoAdmissionIsClosed(before: World, now: World, selected: Selection, order: seq<nat>, root: nat, began: nat)
    requires Sound(before) && Sound(now) && Evolves(before, now)
    requires Tracks(before, selected, order, root, began) && Held(before, order, selected)
    requires Admitted(before, selected) == map[]
    ensures Closed(now, selected)
  {
    forall p | p in now.table && now.table[p].ppid in selected
               && Matches(now, now.table[p].ppid, selected[now.table[p].ppid])
      ensures p in selected
    {
      StoppedParentsDoNotFork(before, now, selected, order, root, began, p);
      assert p !in Admitted(before, selected);
    }
  }

  /** A round that admits nothing, after a round has already stopped the members, leaves no gap. */
  lemma SettledRoundCloses(env: Environment, listing: Listing, k0: Kernel, f: Freeze, root: nat, began: nat)
    requires Lists(listing) && Covers(f.selected, f.order) && Invariant(k0, f, root, began)
    requires 0 < f.rounds && StopRound(env, listing, f).settled
    ensures Closed(StopRound(env, listing, f).kernel.world, StopRound(env, listing, f).selected)
  {
    hide Sound, Evolves, Tracks, Sends, Held, Closed, Lists, Covers, Sweep, Admitted;
    var now := Observe(env, f.kernel);
    var r := StopRound(env, listing, f);
    ObserveKeeps(env, f.kernel);
    TracksIsStable(f.kernel.world, now.world, f.selected, f.order, root, began);
    HeldIsStable(f.kernel.world, now.world, f.order, f.selected, f.order, root, began);
    AdmissionTracks(now.world, listing, f.selected, f.order, root, began);
    SweepKeeps(env, now, r.order, r.selected, Stop, r.order, root, began);
    assert r.selected == f.selected;
    NoAdmissionIsClosed(now.world, r.kernel.world, f.selected, f.order, root, began);
  }

  lemma {:induction false} RoundsKeep(env: Environment, listing: Listing, k0: Kernel, f: Freeze, root: nat, began: nat)
    requires Lists(listing) && Covers(f.selected, f.order) && Invariant(k0, f, root, began)
    requires f.rounds <= ROUNDS
    requires f.settled && 2 <= f.rounds ==> Closed(f.kernel.world, f.selected)
    ensures var r := StopRounds(env, listing, f);
            && Invariant(k0, r, root, began) && r.rounds <= ROUNDS
            && (r.settled && 2 <= r.rounds ==> Closed(r.kernel.world, r.selected))
    decreases ROUNDS - f.rounds
  {
    if !f.settled && f.rounds < ROUNDS {
      var n := StopRound(env, listing, f);
      RoundKeeps(env, listing, k0, f, root, began);
      if n.settled && 2 <= n.rounds { SettledRoundCloses(env, listing, k0, f, root, began); }
      RoundsKeep(env, listing, k0, n, root, began);
    }
  }

  /** FREEZE CLOSURE, with the ownership and admission-order facts that hold after every round. */
  lemma FreezeClosure(env: Environment, listing: Listing, k: Kernel, root: nat, identity: Option<Identity>, began: nat)
    requires Lists(listing) && Started(k.world, root, identity, began)
    ensures var f := Frozen(env, listing, k, root, identity);
            && Invariant(k, f, root, began)
            && (f.settled && 2 <= f.rounds ==> Closed(f.kernel.world, f.selected))
  {
    StartTracks(k.world, root, identity, began);
    SelfEvolves(k.world);
    RoundsKeep(env, listing, k, Freeze(k, map[root := identity], [root], 0, false), root, began);
  }
}
