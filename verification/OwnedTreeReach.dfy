/**
  A tree that is left alone: without interference, how many generations the rounds reach, when the
  loop settles, and when every descendant of the started process is dead in the end.
 */
module OwnedTreeReach {
  import opened Wrappers
  import opened ProcessTable
  import opened OwnedTree
  import opened OwnedTreeKill
  import opened OwnedTreeDescent
  import opened OwnedTreeLimits

  /** A line of processes from the started one down, each the child of the one before it. */
  ghost predicate Line(w: World, root: nat, chain: seq<nat>) {
    chain != [] && chain[0] == root && Generations(w, chain)
  }

  /** At most n parent links lead from p up to the started process. */
  ghost predicate Within(w: World, root: nat, p: nat, n: nat)
    decreases n
  {
    p in w.table && (p == root || (0 < n && Within(w, root, w.table[p].ppid, n - 1)))
  }

  lemma {:induction false} WithinMore(w: World, root: nat, p: nat, n: nat, m: nat)
    requires Within(w, root, p, n) && n <= m
    ensures Within(w, root, p, m)
    decreases n
  {
    if p != root { WithinMore(w, root, w.table[p].ppid, n - 1, m - 1); }
  }

  lemma {:induction false} LineWithin(w: World, root: nat, chain: seq<nat>, i: nat)
    requires Line(w, root, chain) && i < |chain|
    ensures Within(w, root, chain[i], i)
    decreases i
  {
    if 0 < i { LineWithin(w, root, chain, i - 1); }
  }

  lemma {:induction false} LineNotNearer(w: World, root: nat, chain: seq<nat>, i: nat, n: nat)
    requires Sound(w) && root != INIT && Line(w, root, chain) && n < i < |chain|
    ensures !Within(w, root, chain[i], n)
    decreases n
  {
    GenerationsDiffer(w, chain, 0, i);
    if 0 < n { LineNotNearer(w, root, chain, i - 1, n - 1); }
  }

  lemma {:induction false} LineTo(w: World, root: nat, p: nat, n: nat) returns (chain: seq<nat>)
    requires Within(w, root, p, n)
    ensures Line(w, root, chain) && |chain| <= n + 1 && chain[|chain| - 1] == p
    decreases n
  {
    if p == root {
      chain := [p];
    } else {
      var above := LineTo(w, root, w.table[p].ppid, n - 1);
      chain := above + [p];
    }
  }

  lemma LinePart(w: World, root: nat, chain: seq<nat>, n: nat)
    requires Line(w, root, chain) && 0 < n <= |chain|
    ensures Line(w, root, chain[..n])
  {
  }

  // ---- Quiet rounds ----

  /** Nothing happened but that processes were stopped. */
  ghost predicate OnlyStops(before: World, now: World) {
    && now.table.Keys == before.table.Keys && now.origin == before.origin
    && (forall p | p in now.table ::
          IdentityOf(now.table[p]) == IdentityOf(before.table[p])
          && (now.table[p].state.Zombie? <==> before.table[p].state.Zombie?))
  }

  lemma {:induction false} QuietSweepStops(k: Kernel, order: seq<nat>, selected: Selection)
    requires Covers(selected, order)
    ensures OnlyStops(k.world, Sweep(Quiet(), k, order, selected, Stop).world)
    decreases |order|
  {
    if order != [] {
      QuietSweepStops(k, order[..|order| - 1], selected);
      var m := Sweep(Quiet(), k, order[..|order| - 1], selected, Stop);
      if selected[order[|order| - 1]].Some? { QuietObserve(Quiet(), m); }
    }
  }

  /** Everything within reach of the rounds so far is selected; the last round settled if it reached nobody new. */
  ghost predicate Reaches(before: World, f: Freeze, root: nat) {
    && Covers(f.selected, f.order) && OnlyStops(before, f.kernel.world)
    && (forall p :: p in f.selected <==> Within(before, root, p, f.rounds))
    && (forall p | p in f.selected :: p in before.table && f.selected[p] == Some(IdentityOf(before.table[p])))
    && (if f.rounds == 0 then !f.settled else f.settled <==> NobodyNew(before, root, f.rounds - 1))
  }

  /** One more link leads to nobody further. */
  ghost predicate NobodyNew(w: World, root: nat, n: nat) {
    forall p | Within(w, root, p, n + 1) :: Within(w, root, p, n)
  }

  lemma AdmittedIsNext(before: World, f: Freeze, root: nat)
    requires Reaches(before, f, root)
    ensures var found := Admitted(f.kernel.world, f.selected);
            && (forall p :: p in found <==> Within(before, root, p, f.rounds + 1) && !Within(before, root, p, f.rounds))
            && (forall p | p in found :: p in before.table && found[p] == IdentityOf(before.table[p]))
  {
    var w := f.kernel.world;
    assert w.table.Keys == before.table.Keys;
    forall p
      ensures p in Admitted(w, f.selected)
         <==> Within(before, root, p, f.rounds + 1) && !Within(before, root, p, f.rounds)
      ensures p in Admitted(w, f.selected) ==> Admitted(w, f.selected)[p] == IdentityOf(before.table[p])
    {
      if p in w.table {
        assert IdentityOf(w.table[p]) == IdentityOf(before.table[p]);
        var q := w.table[p].ppid;
        assert q in f.selected <==> Within(before, root, q, f.rounds);
        if q in f.selected { assert q in before.table && IdentityOf(w.table[q]) == IdentityOf(before.table[q]); }
      }
    }
  }

  lemma QuietRoundStops(listing: Listing, f: Freeze)
    requires Lists(listing) && Covers(f.selected, f.order)
    ensures OnlyStops(f.kernel.world, StopRound(Quiet(), listing, f).kernel.world)
  {
    hide Admitted, Lists, Sweep, Covers, Select, OnlyStops, Quiet;
    var found := Admitted(f.kernel.world, f.selected);
    AdmissionCovers(f.kernel.world, listing, f.selected, f.order);
    IsQuiet(f.kernel);
    QuietSweepStops(f.kernel.(tick := f.kernel.tick + 1), f.order + listing(found.Keys), Select(f.selected, found));
  }

  lemma IsQuiet(k: Kernel)
    ensures Observe(Quiet(), k) == k.(tick := k.tick + 1)
  {
    QuietObserve(Quiet(), k);
  }

  lemma StopsAdd(a: World, b: World, c: World)
    requires OnlyStops(a, b) && OnlyStops(b, c)
    ensures OnlyStops(a, c)
  {
  }

  lemma NobodyFound(found: map<nat, Identity>)
    ensures found == map[] <==> forall p :: p !in found
  {
    if found != map[] { assert found.Keys != {}; var p :| p in found.Keys; }
  }

  lemma NextSelected(before: World, f: Freeze, members: Selection, found: map<nat, Identity>, root: nat)
    requires Reaches(before, f, root) && members == Select(f.selected, found)
    requires forall p :: p in found <==> Within(before, root, p, f.rounds + 1) && !Within(before, root, p, f.rounds)
    requires forall p | p in found :: p in before.table && found[p] == IdentityOf(before.table[p])
    ensures forall p :: p in members <==> Within(before, root, p, f.rounds + 1)
    ensures forall p | p in members :: p in before.table && members[p] == Some(IdentityOf(before.table[p]))
    ensures found == map[] <==> NobodyNew(before, root, f.rounds)
  {
    hide Within, OnlyStops, Covers;
    forall p | Within(before, root, p, f.rounds)
      ensures Within(before, root, p, f.rounds + 1)
    {
      WithinMore(before, root, p, f.rounds, f.rounds + 1);
    }
    NobodyFound(found);
  }

  lemma RoundReaches(listing: Listing, before: World, f: Freeze, root: nat)
    requires Lists(listing) && Reaches(before, f, root)
    ensures Reaches(before, StopRound(Quiet(), listing, f), root)
  {
    hide *;
    ReachesParts(before, f, root);
    QuietRound(listing, f);
    QuietRoundStops(listing, f);
    var n, found := StopRound(Quiet(), listing, f), Admitted(f.kernel.world, f.selected);
    StopsAdd(before, f.kernel.world, n.kernel.world);
    AdmittedIsNext(before, f, root);
    NextSelected(before, f, n.selected, found, root);
    ReachesWhole(before, n, root);
  }

  lemma ReachesParts(before: World, f: Freeze, root: nat)
    requires Reaches(before, f, root)
    ensures Covers(f.selected, f.order) && OnlyStops(before, f.kernel.world)
  {
  }

  lemma ReachesWhole(before: World, f: Freeze, root: nat)
    requires Covers(f.selected, f.order) && OnlyStops(before, f.kernel.world) && 0 < f.rounds
    requires forall p :: p in f.selected <==> Within(before, root, p, f.rounds)
    requires forall p | p in f.selected :: p in before.table && f.selected[p] == Some(IdentityOf(before.table[p]))
    requires f.settled <==> NobodyNew(before, root, f.rounds - 1)
    ensures Reaches(before, f, root)
  {
  }

  lemma {:induction false} RoundsReach(listing: Listing, before: World, f: Freeze, root: nat)
    requires Lists(listing) && Reaches(before, f, root) && f.rounds <= ROUNDS
    ensures var r := StopRounds(Quiet(), listing, f);
            Reaches(before, r, root) && r.rounds <= ROUNDS && (r.settled || r.rounds == ROUNDS)
    decreases ROUNDS - f.rounds
  {
    if !f.settled && f.rounds < ROUNDS {
      RoundReaches(listing, before, f, root);
      assert Covers(f.selected, f.order);
      hide Reaches, StopRound;
      RoundsReach(listing, before, StopRound(Quiet(), listing, f), root);
    }
  }

  lemma StartReaches(k: Kernel, root: nat, id: Identity)
    requires Matches(k.world, root, Some(id))
    ensures Reaches(k.world, Freeze(k, map[root := Some(id)], [root], 0, false), root)
  {
  }

  lemma QuietFreeze(listing: Listing, k: Kernel, root: nat, id: Identity)
    requires Lists(listing) && Matches(k.world, root, Some(id))
    ensures var f := Frozen(Quiet(), listing, k, root, Some(id));
            Reaches(k.world, f, root) && 0 < f.rounds <= 16 && (f.settled || f.rounds == 16)
  {
    hide Reaches, Matches, StopRounds;
    StartReaches(k, root, id);
    RoundsReach(listing, k.world, Freeze(k, map[root := Some(id)], [root], 0, false), root);
  }

  // ---- When the loop settles ----

  lemma {:induction false} NobodyNewEver(w: World, root: nat, n: nat, p: nat, m: nat)
    requires NobodyNew(w, root, n) && Within(w, root, p, m)
    ensures Within(w, root, p, n)
    decreases m
  {
    if p != root {
      NobodyNewEver(w, root, n, w.table[p].ppid, m - 1);
      assert Within(w, root, p, n + 1);
    }
  }

  /**
    THE LOOP SETTLES, without interference, exactly when no line of processes from the started one
    down has more than sixteen members.
   */
  lemma QuietLoopSettlesExactlyWhen(listing: Listing, k: Kernel, root: nat, id: Identity)
    requires Lists(listing) && Sound(k.world) && root != INIT && Matches(k.world, root, Some(id))
    ensures Frozen(Quiet(), listing, k, root, Some(id)).settled
       <==> forall chain | Line(k.world, root, chain) :: |chain| <= 16
  {
    hide Sound, Line, Within, Frozen;
    QuietFreeze(listing, k, root, id);
    var w, f := k.world, Frozen(Quiet(), listing, k, root, Some(id));
    if f.settled {
      forall chain | Line(w, root, chain)
        ensures |chain| <= 16
      {
        if 16 < |chain| {
          LineWithin(w, root, chain, 16);
          NobodyNewEver(w, root, f.rounds - 1, chain[16], 16);
          LineNotNearer(w, root, chain, 16, f.rounds - 1);
        }
      }
    } else {
      var p :| Within(w, root, p, 16) && !Within(w, root, p, 15);
      var chain := LineTo(w, root, p, 16);
      LineWithin(w, root, chain, |chain| - 1);
      if |chain| <= 16 { WithinMore(w, root, p, |chain| - 1, 15); }
      assert Line(w, root, chain) && 16 < |chain|;
    }
  }

  // ---- Who is left ----

  /** No live descendant but the started process has init as its parent. */
  ghost predicate NoOrphans(w: World, root: nat, began: nat) {
    forall p | p in w.table && LiveDescendant(w, p, began) && p != root :: w.table[p].ppid != INIT
  }

  lemma {:induction false} DescendantIsWithin(w: World, root: nat, began: nat, p: nat)
    requires Sound(w) && OnlyRoot(w, root, began) && NoOrphans(w, root, began) && LiveDescendant(w, p, began)
    ensures Within(w, root, p, w.table[p].start)
    decreases w.table[p].start
  {
    if p != root {
      ParentDescends(w, p, root, began);
      DescendantIsWithin(w, root, began, w.table[p].ppid);
      WithinMore(w, root, w.table[p].ppid, w.table[w.table[p].ppid].start, w.table[p].start - 1);
    }
  }

  lemma {:induction false} LineDescends(w: World, root: nat, chain: seq<nat>, i: nat)
    requires Sound(w) && root != INIT && Line(w, root, chain) && i < |chain|
    ensures Descends(w.origin, w.table[chain[i]].start, w.table[root].start)
    ensures i + 1 < |chain| ==> !w.table[chain[i]].state.Zombie?
    decreases i
  {
    if i + 1 < |chain| {
      GenerationsDiffer(w, chain, 0, i + 1);
      assert ParentSound(w, chain[i + 1]);
    }
    if 0 < i {
      GenerationsDiffer(w, chain, 0, i);
      assert ParentSound(w, chain[i]);
      LineDescends(w, root, chain, i - 1);
      if 1 < i { GenerationsDiffer(w, chain, 0, i - 1); }
    }
  }

  lemma OnlyRootAtStart(w: World, root: nat, id: Identity)
    requires Sound(w) && root != INIT && Matches(w, root, Some(id))
    ensures OnlyRoot(w, root, id.start) && root != 0 && Started(w, root, Some(id), id.start)
  {
  }

  /** Stopping processes changes nobody's descent. */
  lemma StopsKeepLive(before: World, now: World, p: nat, began: nat)
    requires OnlyStops(before, now)
    ensures LiveDescendant(now, p, began) <==> LiveDescendant(before, p, began)
  {
  }

  lemma AllMatchIsAllSelected(before: World, f: Freeze, root: nat, began: nat)
    requires Reaches(before, f, root)
    ensures AllMatch(f.kernel.world, f.selected, began)
       <==> forall p | p in before.table && LiveDescendant(before, p, began) :: Within(before, root, p, f.rounds)
  {
    hide Within, LiveDescendant;
    forall p
      ensures LiveDescendant(f.kernel.world, p, began) <==> LiveDescendant(before, p, began)
    {
      StopsKeepLive(before, f.kernel.world, p, began);
    }
  }

  /** Among live descendants, those out of reach make lines of eighteen. */
  lemma OutOfReach(w: World, f: Freeze, root: nat, id: Identity, p: nat)
    requires Sound(w) && root != INIT && Matches(w, root, Some(id)) && NoOrphans(w, root, id.start)
    requires Reaches(w, f, root) && 0 < f.rounds <= 16 && (f.settled || f.rounds == 16)
    requires LiveDescendant(w, p, id.start) && !Within(w, root, p, f.rounds)
    ensures exists chain :: Line(w, root, chain) && |chain| == 18 && !w.table[chain[17]].state.Zombie?
  {
    hide Line, Within, Sound, NoOrphans;
    OnlyRootAtStart(w, root, id);
    DescendantIsWithin(w, root, id.start, p);
    var n := w.table[p].start;
    if f.settled {
      NobodyNewEver(w, root, f.rounds - 1, p, n);
      WithinMore(w, root, p, f.rounds - 1, f.rounds);
    } else {
      var chain := LineTo(w, root, p, n);
      LineWithin(w, root, chain, |chain| - 1);
      if |chain| <= 17 { WithinMore(w, root, p, |chain| - 1, 16); }
      LinePart(w, root, chain, 18);
      if 18 < |chain| { LineDescends(w, root, chain, 17); }
      assert chain[..18][17] == chain[17];
    }
  }

  lemma QuietIsUndisturbed(from: nat, selected: Selection, pids: set<nat>)
    ensures Undisturbed(Quiet(), from, selected) && Unharmed(Quiet(), from, pids)
  {
  }

  /**
    NOBODY IS LEFT, without interference and without orphans, exactly when no line of processes from
    the started one down has a live eighteenth member: sixteen rounds reach sixteen generations.
   */
  lemma QuietTreeDiesExactlyWhen(listing: Listing, k: Kernel, root: nat, id: Identity)
    requires Lists(listing) && Sound(k.world) && root != INIT && Matches(k.world, root, Some(id))
    requires NoOrphans(k.world, root, id.start)
    ensures NoneLeft(KillAll(Quiet(), Frozen(Quiet(), listing, k, root, Some(id))).world, id.start)
       <==> forall chain | Line(k.world, root, chain) && |chain| == 18 :: k.world.table[chain[17]].state.Zombie?
  {
    hide *;
    QuietFreeze(listing, k, root, id);
    OnlyRootAtStart(k.world, root, id);
    var w, f := k.world, Frozen(Quiet(), listing, k, root, Some(id));
    QuietIsUndisturbed(f.kernel.tick, f.selected, LiveDescendants(f.kernel.world, id.start));
    BeganBefore(w, root, id.start);
    NobodyIsLeftExactlyWhen(Quiet(), listing, k, root, Some(id), id.start);
    AllMatchIsAllSelected(w, f, root, id.start);
    if p: nat :| p in w.table && LiveDescendant(w, p, id.start) && !Within(w, root, p, f.rounds) {
      OutOfReach(w, f, root, id, p);
    } else {
      forall chain | Line(w, root, chain) && |chain| == 18
        ensures chain[17] in w.table && w.table[chain[17]].state.Zombie?
      {
        LineMember(w, root, id, chain, 17);
        if !w.table[chain[17]].state.Zombie? { LineNotNearer(w, root, chain, 17, f.rounds); }
      }
    }
  }

  lemma BeganBefore(w: World, root: nat, began: nat)
    requires OnlyRoot(w, root, began)
    ensures began < w.clock
  {
  }

  lemma LineMember(w: World, root: nat, id: Identity, chain: seq<nat>, i: nat)
    requires Sound(w) && root != INIT && Matches(w, root, Some(id)) && Line(w, root, chain) && i < |chain|
    ensures chain[i] in w.table
    ensures !w.table[chain[i]].state.Zombie? ==> LiveDescendant(w, chain[i], id.start)
  {
    LineDescends(w, root, chain, i);
  }
}
