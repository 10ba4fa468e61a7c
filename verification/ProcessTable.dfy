/**
  The operating system seen by the process supervisor: a process table that other processes
  change by forking, exiting and being reaped, and the two signals the supervisor sends.

  Start times are handed out by a clock, so a reused pid always has a new start time.  `origin`
  records, for every process ever forked, the start time of the process that forked it; it is
  never read by the supervisor and is what "true descendant" means.
 */
module ProcessTable {
  const INIT: nat := 1

  datatype State = Running | Stopped | Zombie

  datatype Process = Process(ppid: nat, start: nat, state: State)

  /** What /proc shows of a process, and what the supervisor remembers about it. */
  datatype Identity = Identity(ppid: nat, start: nat)

  datatype World = World(table: map<nat, Process>, clock: nat, origin: map<nat, nat>)

  /** A step of the environment.  A step that is not possible changes nothing. */
  datatype Action = Fork(parent: nat, child: nat) | Exit(pid: nat) | Reap(pid: nat)

  datatype Signal = Stop | Kill

  function IdentityOf(p: Process): Identity {
    Identity(p.ppid, p.start)
  }

  /** One atomic reading of /proc. */
  function Records(w: World): map<nat, Identity> {
    map pid | pid in w.table :: IdentityOf(w.table[pid])
  }

  /** The process stays in the table until it is reaped; its children move to init. */
  function Terminate(w: World, pid: nat): World
    requires pid in w.table
  {
    w.(table := map p | p in w.table ::
         if p == pid then w.table[p].(state := Zombie)
         else if w.table[p].ppid == pid then w.table[p].(ppid := INIT)
         else w.table[p])
  }

  function Act(w: World, a: Action): World {
    match a
    case Fork(parent, child) =>
      if parent in w.table && w.table[parent].state.Running? && child != 0 && child !in w.table then
        World(w.table[child := Process(parent, w.clock, Running)],
              w.clock + 1,
              w.origin[w.clock := w.table[parent].start])
      else w
    case Exit(pid) =>
      if pid in w.table && pid != INIT && !w.table[pid].state.Zombie? then Terminate(w, pid) else w
    case Reap(pid) =>
      if pid in w.table && w.table[pid].state.Zombie? then
        w.(table := map p | p in w.table && p != pid :: w.table[p])
      else w
  }

  function Run(w: World, actions: seq<Action>): World
    decreases |actions|
  {
    if actions == [] then w else Run(Act(w, actions[0]), actions[1..])
  }

  /** Init ignores both signals, a zombie ignores everything, a stopped process stays stopped. */
  function Deliver(w: World, pid: nat, signal: Signal): World
    requires pid in w.table
  {
    if pid == INIT || w.table[pid].state.Zombie? then w
    else match signal
      case Stop => w.(table := w.table[pid := w.table[pid].(state := Stopped)])
      case Kill => Terminate(w, pid)
  }

  ghost predicate Sound(w: World) {
    && 0 !in w.table
    && INIT in w.table && w.table[INIT] == Process(0, 0, Running)
    && (forall p | p in w.table :: w.table[p].start < w.clock)
    && (forall p, q | p in w.table && q in w.table && p != q :: w.table[p].start != w.table[q].start)
    && (forall p | p in w.table && p != INIT :: ParentSound(w, p))
    && (forall s | s in w.origin :: s < w.clock && w.origin[s] < s)
  }

  /** A parent is in the table and not a zombie; unless it is init, it is the process that forked p. */
  ghost predicate ParentSound(w: World, p: nat)
    requires p in w.table
  {
    var q := w.table[p].ppid;
    && q in w.table
    && !w.table[q].state.Zombie?
    && (q != INIT ==> w.table[p].start in w.origin && w.origin[w.table[p].start] == w.table[q].start)
  }

  /** The table entry p of `now` is the process that held pid p in `before`. */
  ghost predicate Continues(before: World, now: World, p: nat)
    requires p in now.table
  {
    && p in before.table
    && before.table[p].start == now.table[p].start
    && (now.table[p].ppid == before.table[p].ppid || now.table[p].ppid == INIT)
    && (!before.table[p].state.Running? ==> !now.table[p].state.Running?)
    && (before.table[p].state.Zombie? ==> now.table[p].state.Zombie?)
  }

  /** The process with this start time runs in `w`, or is yet to be forked. */
  ghost predicate CanFork(w: World, start: nat) {
    start >= w.clock || exists q :: q in w.table && w.table[q].start == start && w.table[q].state.Running?
  }

  /**
    What no interleaving can undo: old processes keep their pid and start time, lose their parent
    only to init and never resume, and only a process that was running before can fork afterwards.
   */
  ghost predicate Evolves(before: World, now: World) {
    && before.clock <= now.clock
    && (forall s | s in before.origin :: s in now.origin && now.origin[s] == before.origin[s])
    && (forall s | s in now.origin && s < before.clock :: s in before.origin)
    && (forall p | p in now.table && now.table[p].start < before.clock :: Continues(before, now, p))
    && (forall s | s in now.origin && before.clock <= s :: CanFork(before, now.origin[s]))
  }

  lemma EvolvesTransitive(a: World, b: World, c: World)
    requires Evolves(a, b) && Evolves(b, c)
    ensures Evolves(a, c)
  {
    forall p | p in c.table && c.table[p].start < a.clock
      ensures Continues(a, c, p)
    {
      assert Continues(b, c, p) && Continues(a, b, p);
    }
    forall s | s in c.origin && a.clock <= s
      ensures CanFork(a, c.origin[s])
    {
      var o := c.origin[s];
      if s < b.clock {
        assert s in b.origin && b.origin[s] == o;
      } else if o < a.clock {
        assert CanFork(b, o);
        var q :| q in b.table && b.table[q].start == o && b.table[q].state.Running?;
        assert Continues(a, b, q);
      }
    }
  }

  /** What becomes of a single table entry. */
  lemma TerminatedEntry(w: World, pid: nat, p: nat)
    requires pid in w.table && p in w.table
    ensures var n := Terminate(w, pid).table;
            && p in n && n[p].start == w.table[p].start
            && n[p].ppid == (if p != pid && w.table[p].ppid == pid then INIT else w.table[p].ppid)
            && n[p].state == (if p == pid then Zombie else w.table[p].state)
  {
  }

  lemma TerminatedParent(w: World, pid: nat, p: nat)
    requires Sound(w) && pid in w.table && pid != INIT && p in w.table && p != INIT
    ensures p in Terminate(w, pid).table && ParentSound(Terminate(w, pid), p)
  {
    assert ParentSound(w, p);
    TerminatedEntry(w, pid, p);
    TerminatedEntry(w, pid, INIT);
    TerminatedEntry(w, pid, w.table[p].ppid);
    hide Terminate, Sound;
  }

  lemma TerminateIsSound(w: World, pid: nat)
    requires Sound(w) && pid in w.table && pid != INIT
    ensures Sound(Terminate(w, pid))
  {
    var n := Terminate(w, pid);
    assert n.table.Keys == w.table.Keys;
    forall p | p in w.table
      ensures n.table[p].start == w.table[p].start
    {
      TerminatedEntry(w, pid, p);
    }
    TerminatedEntry(w, pid, INIT);
    forall p | p in n.table && p != INIT
      ensures ParentSound(n, p)
    {
      TerminatedParent(w, pid, p);
    }
    hide ParentSound;
  }

  lemma TerminateKeeps(w: World, pid: nat)
    requires Sound(w) && pid in w.table && pid != INIT
    ensures Sound(Terminate(w, pid)) && Evolves(w, Terminate(w, pid))
  {
    TerminateIsSound(w, pid);
    var n := Terminate(w, pid);
    assert n.table.Keys == w.table.Keys && n.clock == w.clock && n.origin == w.origin;
    assert forall s | s in w.origin :: s < w.clock;
    hide Sound;
    forall p | p in n.table
      ensures Continues(w, n, p)
    {
      TerminatedEntry(w, pid, p);
    }
  }

  lemma ForkKeeps(w: World, parent: nat, child: nat)
    requires Sound(w)
    ensures Sound(Act(w, Fork(parent, child))) && Evolves(w, Act(w, Fork(parent, child)))
  {
    SelfEvolves(w);
    if parent in w.table && w.table[parent].state.Running? && child != 0 && child !in w.table {
      ForkIsSound(w, parent, child);
      ForkEvolves(w, parent, child);
      hide Act, Sound, Evolves;
    }
  }

  lemma ForkIsSound(w: World, parent: nat, child: nat)
    requires Sound(w) && parent in w.table && w.table[parent].state.Running? && child != 0 && child !in w.table
    ensures Sound(Act(w, Fork(parent, child)))
  {
    var n := Act(w, Fork(parent, child));
    assert n.table == w.table[child := Process(parent, w.clock, Running)] && n.clock == w.clock + 1;
    assert n.origin == w.origin[w.clock := w.table[parent].start];
    hide ParentSound, Act;
    forall p | p in n.table && p != INIT
      ensures ParentSound(n, p)
    {
      ForkedParent(w, parent, child, p);
    }
  }

  lemma ForkedParent(w: World, parent: nat, child: nat, p: nat)
    requires Sound(w) && parent in w.table && w.table[parent].state.Running? && child != 0 && child !in w.table
    requires p != INIT && (p in w.table || p == child)
    ensures p in Act(w, Fork(parent, child)).table && ParentSound(Act(w, Fork(parent, child)), p)
  {
    if p != child { assert ParentSound(w, p); }
  }

  lemma ForkEvolves(w: World, parent: nat, child: nat)
    requires Sound(w) && parent in w.table && w.table[parent].state.Running? && child != 0 && child !in w.table
    ensures Evolves(w, Act(w, Fork(parent, child)))
  {
    var n := Act(w, Fork(parent, child));
    assert n.origin[w.clock] == w.table[parent].start;
    assert CanFork(w, w.table[parent].start);
    hide ParentSound;
    forall p | p in n.table && n.table[p].start < w.clock
      ensures Continues(w, n, p)
    {
    }
  }

  lemma ReapKeeps(w: World, pid: nat)
    requires Sound(w)
    ensures Sound(Act(w, Reap(pid))) && Evolves(w, Act(w, Reap(pid)))
  {
    var n := Act(w, Reap(pid));
    forall p | p in n.table && p != INIT
      ensures ParentSound(n, p)
    {
      assert ParentSound(w, p);
    }
    forall p | p in n.table
      ensures Continues(w, n, p)
    {
    }
  }

  lemma RunKeeps(w: World, actions: seq<Action>)
    requires Sound(w)
    ensures Sound(Run(w, actions)) && Evolves(w, Run(w, actions))
    decreases |actions|
  {
    if actions == [] {
      SelfEvolves(w);
    } else {
      var n := Act(w, actions[0]);
      match actions[0] {
        case Fork(parent, child) => ForkKeeps(w, parent, child);
        case Exit(pid) =>
          SelfEvolves(w);
          if n != w { TerminateKeeps(w, pid); }
        case Reap(pid) => ReapKeeps(w, pid);
      }
      RunKeeps(n, actions[1..]);
      EvolvesTransitive(w, n, Run(n, actions[1..]));
    }
  }

  lemma SelfEvolves(w: World)
    requires Sound(w)
    ensures Evolves(w, w)
  {
    forall p | p in w.table
      ensures Continues(w, w, p)
    {
    }
  }

  lemma DeliverKeeps(w: World, pid: nat, signal: Signal)
    requires Sound(w) && pid in w.table
    ensures Sound(Deliver(w, pid, signal)) && Evolves(w, Deliver(w, pid, signal))
  {
    SelfEvolves(w);
    if pid != INIT && !w.table[pid].state.Zombie? {
      match signal {
        case Kill => TerminateKeeps(w, pid);
        case Stop => StopKeeps(w, pid);
      }
    }
    hide Sound, Evolves, Terminate;
  }

  lemma StopKeeps(w: World, pid: nat)
    requires Sound(w) && pid in w.table && pid != INIT && !w.table[pid].state.Zombie?
    ensures Sound(Deliver(w, pid, Stop)) && Evolves(w, Deliver(w, pid, Stop))
  {
    StopIsSound(w, pid);
    var n := Deliver(w, pid, Stop);
    assert n.table.Keys == w.table.Keys && n.clock == w.clock && n.origin == w.origin;
    assert forall s | s in w.origin :: s < w.clock;
    hide Sound;
    forall p | p in n.table
      ensures Continues(w, n, p)
    {
    }
  }

  lemma StopIsSound(w: World, pid: nat)
    requires Sound(w) && pid in w.table && pid != INIT && !w.table[pid].state.Zombie?
    ensures Sound(Deliver(w, pid, Stop))
  {
    var n := Deliver(w, pid, Stop);
    assert n.table == w.table[pid := w.table[pid].(state := Stopped)] && n.table.Keys == w.table.Keys;
    forall p | p in n.table && p != INIT
      ensures ParentSound(n, p)
    {
      StoppedParent(w, pid, p);
    }
    hide ParentSound, Deliver;
  }

  lemma StoppedParent(w: World, pid: nat, p: nat)
    requires Sound(w) && pid in w.table && pid != INIT && !w.table[pid].state.Zombie? && p in w.table && p != INIT
    ensures p in Deliver(w, pid, Stop).table && ParentSound(Deliver(w, pid, Stop), p)
  {
    assert ParentSound(w, p);
    hide Sound;
  }

  /** True descent: a chain of forks leads from the process started at `root` to the one started at `s`. */
  ghost predicate Descends(origin: map<nat, nat>, s: nat, root: nat)
    decreases s
  {
    s == root || (s in origin && origin[s] < s && Descends(origin, origin[s], root))
  }

  lemma {:induction false} DescentIsPermanent(before: map<nat, nat>, now: map<nat, nat>, s: nat, root: nat)
    requires Descends(before, s, root)
    requires forall x | x in before :: x in now && now[x] == before[x]
    ensures Descends(now, s, root)
    decreases s
  {
    if s != root { DescentIsPermanent(before, now, before[s], root); }
  }

  lemma {:induction false} DescentGoesForward(origin: map<nat, nat>, s: nat, root: nat)
    requires Descends(origin, s, root)
    ensures root <= s
    decreases s
  {
    if s != root { DescentGoesForward(origin, origin[s], root); }
  }
}
