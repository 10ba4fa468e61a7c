/**
  Termination of an owned process tree: repeated snapshots admit descendants of the started
  process, every wave is stopped, and the members are killed in reverse order of admission.

  The environment is an arbitrary function from the tick of the supervisor's next reading of
  /proc to the steps taken before it, so a statement about all environments is a statement about
  all interleavings.  `listing` is the order in which a reading lists a set of new pids; the sets
  admitted in different rounds are disjoint, so one function loses no orders.
 */
module OwnedTree {
  import opened Wrappers
  import opened Collections
  import opened ProcessTable

  const ROUNDS: nat := 16

  type Environment = nat -> seq<Action>
  type Listing = set<nat> -> seq<nat>
  type Selection = map<nat, Option<Identity>>

  datatype Event = Event(pid: nat, start: nat, signal: Signal)

  datatype Kernel = Kernel(world: World, tick: nat, sent: seq<Event>)

  /** The supervisor's state: the kernel, the `selected` dictionary and its insertion order. */
  datatype Freeze = Freeze(kernel: Kernel, selected: Selection, order: seq<nat>, rounds: nat, settled: bool)

  ghost predicate Lists(listing: Listing) {
    forall s: set<nat> :: Distinct(listing(s)) && (forall p :: p in listing(s) <==> p in s)
  }

  function Reversed(s: seq<nat>): (r: seq<nat>)
    ensures |r| == |s|
    ensures forall i | 0 <= i < |s| :: r[i] == s[|s| - 1 - i]
  {
    if s == [] then [] else Reversed(s[1..]) + [s[0]]
  }

  // ---- The algorithm as a function of the environment ----

  function Observe(env: Environment, k: Kernel): Kernel {
    Kernel(Run(k.world, env(k.tick)), k.tick + 1, k.sent)
  }

  predicate Matches(w: World, pid: nat, expected: Option<Identity>) {
    expected.Some? && pid in w.table && IdentityOf(w.table[pid]) == expected.value
  }

  function SignalOwned(env: Environment, k: Kernel, pid: nat, expected: Option<Identity>, signal: Signal): Kernel {
    if expected.None? then k
    else
      var now := Observe(env, k);
      if Matches(now.world, pid, expected) then
        Kernel(Deliver(now.world, pid, signal), now.tick, now.sent + [Event(pid, expected.value.start, signal)])
      else now
  }

  function Sweep(env: Environment, k: Kernel, order: seq<nat>, selected: Selection, signal: Signal): Kernel
    requires Covers(selected, order)
  {
    if order == [] then k
    else
      var last := |order| - 1;
      SignalOwned(env, Sweep(env, k, order[..last], selected, signal), order[last], selected[order[last]], signal)
  }

  function Admitted(w: World, selected: Selection): map<nat, Identity> {
    var records := Records(w);
    map pid | pid in records && pid !in selected && records[pid].ppid in selected
              && Matches(w, records[pid].ppid, selected[records[pid].ppid]) :: records[pid]
  }

  function Select(selected: Selection, found: map<nat, Identity>): Selection {
    selected + map pid | pid in found :: Some(found[pid])
  }

  ghost predicate Covers(selected: Selection, order: seq<nat>) {
    forall p | p in order :: p in selected
  }

  lemma AdmissionCovers(w: World, listing: Listing, selected: Selection, order: seq<nat>)
    requires Lists(listing) && Covers(selected, order)
    ensures Covers(Select(selected, Admitted(w, selected)), order + listing(Admitted(w, selected).Keys))
  {
    var keys := Admitted(w, selected).Keys;
    assert forall p :: p in listing(keys) <==> p in keys;
  }

  /** One stop round: a snapshot, its admissions, and a SIGSTOP sweep over all members. */
  function StopRound(env: Environment, listing: Listing, f: Freeze): (r: Freeze)
    requires Lists(listing) && Covers(f.selected, f.order)
    ensures Covers(r.selected, r.order) && r.rounds == f.rounds + 1
  {
    var now := Observe(env, f.kernel);
    var found := Admitted(now.world, f.selected);
    var members := Select(f.selected, found);
    var longer := f.order + listing(found.Keys);
    AdmissionCovers(now.world, listing, f.selected, f.order);
    Freeze(Sweep(env, now, longer, members, Stop), members, longer, f.rounds + 1, found == map[])
  }

  /** The rounds still to come; the loop leaves as soon as a round admits nothing. */
  function StopRounds(env: Environment, listing: Listing, f: Freeze): (r: Freeze)
    requires Lists(listing) && Covers(f.selected, f.order) && f.rounds <= ROUNDS
    ensures Covers(r.selected, r.order) && f.rounds <= r.rounds
    decreases ROUNDS - f.rounds
  {
    if f.settled || f.rounds == ROUNDS then f else StopRounds(env, listing, StopRound(env, listing, f))
  }

  lemma OneRound(env: Environment, listing: Listing, f: Freeze)
    requires Lists(listing) && Covers(f.selected, f.order) && f.rounds < ROUNDS && !f.settled
    ensures StopRounds(env, listing, f) == StopRounds(env, listing, StopRound(env, listing, f))
  {
    hide StopRound;
  }

  function Frozen(env: Environment, listing: Listing, k: Kernel, root: nat, identity: Option<Identity>): (r: Freeze)
    requires Lists(listing)
    ensures Covers(r.selected, r.order) && 0 < r.rounds
  {
    StopRounds(env, listing, Freeze(k, map[root := identity], [root], 0, false))
  }

  lemma LoopStart(env: Environment, listing: Listing, k: Kernel, root: nat, identity: Option<Identity>)
    requires Lists(listing)
    ensures Covers(map[root := identity], [root])
    ensures Frozen(env, listing, k, root, identity)
         == StopRounds(env, listing, Freeze(k, map[root := identity], [root], 0, false))
  {
  }

  lemma LoopEnd(env: Environment, listing: Listing, f: Freeze)
    requires Lists(listing) && Covers(f.selected, f.order) && f.rounds <= ROUNDS && (f.settled || f.rounds == ROUNDS)
    ensures StopRounds(env, listing, f) == f
  {
  }

  lemma ReversedCovers(selected: Selection, order: seq<nat>)
    requires Covers(selected, order)
    ensures Covers(selected, Reversed(order))
  {
    assert forall p | p in Reversed(order) :: p in order;
  }

  function KillAll(env: Environment, f: Freeze): Kernel
    requires Covers(f.selected, f.order)
  {
    assert forall p | p in Reversed(f.order) :: p in f.order;
    Sweep(env, f.kernel, Reversed(f.order), f.selected, Kill)
  }

  // ---- The supervisor ----

  class Supervisor {
    const env: Environment
    const listing: Listing
    var kernel: Kernel

    constructor (env: Environment, listing: Listing, kernel: Kernel)
      ensures this.env == env && this.listing == listing && this.kernel == kernel
    {
      this.env, this.listing, this.kernel := env, listing, kernel;
    }

    method SignalOwnedProcess(pid: nat, expected: Option<Identity>, signal: Signal)
      modifies this`kernel
      ensures kernel == SignalOwned(env, old(kernel), pid, expected, signal)
    {
      if expected.Some? {
        kernel := Observe(env, kernel);
        if Matches(kernel.world, pid, expected) {
          kernel := kernel.(world := Deliver(kernel.world, pid, signal),
                            sent := kernel.sent + [Event(pid, expected.value.start, signal)]);
        }
      }
    }

    method SignalAll(order: seq<nat>, selected: Selection, signal: Signal)
      requires Covers(selected, order)
      modifies this`kernel
      ensures kernel == Sweep(env, old(kernel), order, selected, signal)
    {
      for i := 0 to |order|
        invariant kernel == Sweep(env, old(kernel), order[..i], selected, signal)
      {
        assert order[..i + 1][..i] == order[..i];
        SignalOwnedProcess(order[i], selected[order[i]], signal);
      }
      assert order[..|order|] == order;
    }

    /** The body of the round loop. */
    method StopWave(selected: Selection, order: seq<nat>, ghost round: nat)
      returns (members: Selection, longer: seq<nat>, settled: bool)
      requires Lists(listing) && Covers(selected, order)
      modifies this`kernel
      ensures Freeze(kernel, members, longer, round + 1, settled)
           == StopRound(env, listing, Freeze(old(kernel), selected, order, round, false))
    {
      kernel := Observe(env, kernel);
      var found := Admitted(kernel.world, selected);
      AdmissionCovers(kernel.world, listing, selected, order);
      members := Select(selected, found);
      longer := order + listing(found.Keys);
      SignalAll(longer, members, Stop);
      settled := found == map[];
    }

    /** The final wait for the started process is not part of this model. */
    method TerminateOwnedTree(root: nat, identity: Option<Identity>)
      requires Lists(listing)
      modifies this`kernel
      ensures kernel == KillAll(env, Frozen(env, listing, old(kernel), root, identity))
    {
      var selected: Selection := map[root := identity];
      var order := [root];
      var round := 0;
      var settled := false;
      ghost var goal := Frozen(env, listing, kernel, root, identity);
      LoopStart(env, listing, kernel, root, identity);
      hide StopRound, StopRounds, Sweep, SignalOwned, Covers, Lists, Frozen, Reversed;
      while round < ROUNDS && !settled
        invariant round <= ROUNDS && Covers(selected, order)
        invariant goal == StopRounds(env, listing, Freeze(kernel, selected, order, round, settled))
        decreases ROUNDS - round
      {
        OneRound(env, listing, Freeze(kernel, selected, order, round, false));
        selected, order, settled := StopWave(selected, order, round);
        round := round + 1;
      }
      LoopEnd(env, listing, Freeze(kernel, selected, order, round, settled));
      ReversedCovers(selected, order);
      SignalAll(Reversed(order), selected, Kill);
    }
  }

  // ---- What the supervisor knows about its members ----

  ghost predicate Known(w: World, pid: nat, id: Identity) {
    && id.start < w.clock
    && (pid in w.table && w.table[pid].start == id.start ==>
          w.table[pid].ppid == id.ppid || w.table[pid].ppid == INIT)
  }

  /** The member was admitted after its parent, which is the process that forked it. */
  ghost predicate AdmittedAfterParent(origin: map<nat, nat>, selected: Selection, order: seq<nat>, i: nat)
    requires i < |order|
  {
    && order[i] in selected && selected[order[i]].Some?
    && var id := selected[order[i]].value;
       && id.ppid in order[..i]
       && id.ppid in selected && selected[id.ppid].Some?
       && id.start in origin && origin[id.start] == selected[id.ppid].value.start
  }

  ghost predicate Shaped(selected: Selection, order: seq<nat>, root: nat) {
    && 0 < |order| && order[0] == root && Distinct(order)
    && (forall p :: p in order <==> p in selected)
    && INIT !in selected && 0 !in selected
  }

  ghost predicate AllKnown(w: World, selected: Selection, root: nat, began: nat) {
    && (root in selected && selected[root].Some? ==> selected[root].value.start == began)
    && (forall p | p in selected && selected[p].Some? ::
          Known(w, p, selected[p].value) && Descends(w.origin, selected[p].value.start, began))
  }

  ghost predicate Tracks(w: World, selected: Selection, order: seq<nat>, root: nat, began: nat) {
    && Shaped(selected, order, root)
    && AllKnown(w, selected, root, began)
    && (forall i | 0 < i < |order| :: AdmittedAfterParent(w.origin, selected, order, i))
  }

  /** What is true when the process was started: its identity, if read at all, was read from /proc. */
  ghost predicate Started(w: World, root: nat, identity: Option<Identity>, began: nat) {
    && Sound(w) && root != 0 && root != INIT
    && (identity.Some? ==> identity.value.start == began && Known(w, root, identity.value))
  }

  lemma StartTracks(w: World, root: nat, identity: Option<Identity>, began: nat)
    requires Started(w, root, identity, began)
    ensures Tracks(w, map[root := identity], [root], root, began)
  {
  }

  lemma MatchedBefore(before: World, now: World, pid: nat, id: Identity)
    requires Evolves(before, now) && Known(before, pid, id) && Matches(now, pid, Some(id))
    ensures Matches(before, pid, Some(id)) && Continues(before, now, pid)
  {
    assert Continues(before, now, pid);
  }

  lemma TracksIsStable(before: World, now: World, selected: Selection, order: seq<nat>, root: nat, began: nat)
    requires Evolves(before, now) && Tracks(before, selected, order, root, began)
    ensures Tracks(now, selected, order, root, began)
  {
    forall p | p in selected && selected[p].Some?
      ensures Known(now, p, selected[p].value) && Descends(now.origin, selected[p].value.start, began)
    {
      var id := selected[p].value;
      assert Known(before, p, id);
      if p in now.table && now.table[p].start == id.start { assert Continues(before, now, p); }
      DescentIsPermanent(before.origin, now.origin, id.start, began);
    }
    forall i | 0 < i < |order|
      ensures AdmittedAfterParent(now.origin, selected, order, i)
    {
      assert AdmittedAfterParent(before.origin, selected, order, i);
    }
  }

  /** An admitted pid is a fork of a member that still has its recorded identity. */
  lemma AdmissionIsOwned(w: World, selected: Selection, order: seq<nat>, root: nat, began: nat, p: nat)
    requires Sound(w) && Tracks(w, selected, order, root, began) && p in Admitted(w, selected)
    ensures p != INIT && p != 0 && p !in selected
    ensures var q := Records(w)[p].ppid;
            q in selected && selected[q].Some? && Records(w)[p].start in w.origin
            && w.origin[Records(w)[p].start] == selected[q].value.start
    ensures Known(w, p, Records(w)[p]) && Descends(w.origin, Records(w)[p].start, began)
  {
    assert p != INIT;
    assert ParentSound(w, p);
  }

  lemma AppendsDistinct(a: seq<nat>, b: seq<nat>)
    requires Distinct(a) && Distinct(b) && forall p | p in b :: p !in a
    ensures Distinct(a + b)
    ensures forall p :: p in a + b <==> p in a || p in b
  {
    var c := a + b;
    forall i, j | 0 <= i < j < |c|
      ensures c[i] != c[j]
    {
      if i < |a| <= j {
        assert c[i] in a && c[j] in b;
      }
    }
  }

  lemma AdmissionInOrder(w: World, selected: Selection, order: seq<nat>, added: seq<nat>, root: nat, began: nat, i: nat)
    requires Sound(w) && Tracks(w, selected, order, root, began)
    requires forall p | p in added :: p in Admitted(w, selected)
    requires |order| <= i < |order + added|
    ensures AdmittedAfterParent(w.origin, Select(selected, Admitted(w, selected)), order + added, i)
  {
    var p := (order + added)[i];
    assert p == added[i - |order|] && p in added;
    AdmissionIsOwned(w, selected, order, root, began, p);
    var q := Records(w)[p].ppid;
    assert q in order;
    assert (order + added)[..i] == order + added[..i - |order|];
  }

  lemma AdmissionIsKnown(w: World, selected: Selection, order: seq<nat>, root: nat, began: nat)
    requires Sound(w) && Tracks(w, selected, order, root, began)
    ensures AllKnown(w, Select(selected, Admitted(w, selected)), root, began)
  {
    var found := Admitted(w, selected);
    var members := Select(selected, found);
    forall p | p in members && members[p].Some?
      ensures Known(w, p, members[p].value) && Descends(w.origin, members[p].value.start, began)
    {
      if p in found {
        AdmissionIsOwned(w, selected, order, root, began, p);
      } else {
        assert members[p] == selected[p];
      }
    }
  }

  lemma AdmissionShape(w: World, selected: Selection, order: seq<nat>, added: seq<nat>, root: nat, began: nat)
    requires Sound(w) && Tracks(w, selected, order, root, began)
    requires Distinct(added) && forall p :: p in added <==> p in Admitted(w, selected)
    ensures Shaped(Select(selected, Admitted(w, selected)), order + added, root)
  {
    forall p | p in added
      ensures p != INIT && p != 0 && p !in order
    {
      AdmissionIsOwned(w, selected, order, root, began, p);
    }
    AppendsDistinct(order, added);
  }

  lemma AdmissionTracks(w: World, listing: Listing, selected: Selection, order: seq<nat>, root: nat, began: nat)
    requires Sound(w) && Lists(listing) && Tracks(w, selected, order, root, began)
    ensures var found := Admitted(w, selected);
            Tracks(w, Select(selected, found), order + listing(found.Keys), root, began)
  {
    var found := Admitted(w, selected);
    var members, added := Select(selected, found), listing(found.Keys);
    assert forall p :: p in added <==> p in found.Keys;
    AdmissionIsKnown(w, selected, order, root, began);
    AdmissionShape(w, selected, order, added, root, began);
    forall i | 0 < i < |order + added|
      ensures AdmittedAfterParent(w.origin, members, order + added, i)
    {
      if i < |order| {
        assert AdmittedAfterParent(w.origin, selected, order, i);
        assert (order + added)[..i] == order[..i];
      } else {
        AdmissionInOrder(w, selected, order, added, root, began, i);
      }
    }
  }
}
