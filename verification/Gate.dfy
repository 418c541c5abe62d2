/** The shared/exclusive gate over the memory store and the LLM slots nested in it, for any number of
    threads (src/memline/daemon.py). One step per lock, wait or semaphore action. */
module Gate {
  import opened Strings

  /** The two fields of the gate. */
  datatype GateState = GateState(shared: int, exclusive: bool)

  /** What a request needs: the exclusive side or the shared side, with or without an LLM slot. */
  datatype Job = Job(exclusive: bool, llm: bool)

  /** The wait condition of the acquire loops. */
  predicate Blocked(g: GateState, job: Job)
  {
    if job.exclusive then g.exclusive || g.shared != 0 else g.exclusive
  }

  function Entered(g: GateState, job: Job): GateState
  {
    if job.exclusive then g.(exclusive := true) else g.(shared := g.shared + 1)
  }

  function Left(g: GateState, job: Job): GateState
  {
    if job.exclusive then g.(exclusive := false) else g.(shared := g.shared - 1)
  }

  /** Whether the thread that just left wakes the sleepers. */
  predicate Wakes(g: GateState, job: Job)
  {
    job.exclusive || g.shared == 0
  }

  /** The gate itself; each method is what one critical section does between taking the lock and
      releasing it or going to sleep. */
  class RwGate {
    var shared: int
    var exclusive: bool

    constructor ()
      ensures State() == GateState(0, false)
    {
      shared, exclusive := 0, false;
    }

    function State(): GateState
      reads this
    {
      GateState(shared, exclusive)
    }

    /** One pass of the loop in `acquire_shared`; false means wait. */
    method TryAcquireShared() returns (acquired: bool)
      modifies this
      ensures acquired <==> !Blocked(old(State()), Job(false, false))
      ensures State() == if acquired then Entered(old(State()), Job(false, false)) else old(State())
    {
      if exclusive {
        return false;
      }
      shared := shared + 1;
      return true;
    }

    method ReleaseShared() returns (notifyAll: bool)
      modifies this
      ensures State() == Left(old(State()), Job(false, false))
      ensures notifyAll <==> Wakes(State(), Job(false, false))
    {
      shared := shared - 1;
      notifyAll := shared == 0;
    }

    method TryAcquireExclusive() returns (acquired: bool)
      modifies this
      ensures acquired <==> !Blocked(old(State()), Job(true, false))
      ensures State() == if acquired then Entered(old(State()), Job(true, false)) else old(State())
    {
      if exclusive || shared != 0 {
        return false;
      }
      exclusive := true;
      return true;
    }

    method ReleaseExclusive() returns (notifyAll: bool)
      modifies this
      ensures State() == Left(old(State()), Job(true, false))
      ensures notifyAll <==> Wakes(State(), Job(true, false))
    {
      exclusive := false;
      notifyAll := true;
    }
  }

  // ---------------------------------------------------------------------------
  // Threads
  // ---------------------------------------------------------------------------

  datatype Pc =
    | Idle
    | WantGate   // about to take the condition's lock
    | Checking   // holds the lock, tests the wait condition
    | Sleeping   // waits without the lock
    | Woken      // notified, needs the lock back
    | Inside     // has the gate
    | WantSlot   // asks for an LLM slot
    | Running    // the handler runs
    | Leaving    // handler done, about to take the lock
    | Releasing  // holds the lock, about to leave the gate
    | Notifying  // holds the lock, has left the gate, about to notify

  datatype Thread = Thread(job: Job, pc: Pc)

  type Tid = nat

  datatype Daemon = Daemon(gate: GateState, lock: Option<Tid>, slotsUsed: nat, threads: seq<Thread>)

  predicate InCritical(t: Thread)
  {
    t.pc.Checking? || t.pc.Releasing? || t.pc.Notifying?
  }

  predicate Holds(t: Thread)
  {
    t.pc.Inside? || t.pc.WantSlot? || t.pc.Running? || t.pc.Leaving? || t.pc.Releasing?
  }

  predicate HoldsShared(t: Thread)
  {
    Holds(t) && !t.job.exclusive
  }

  predicate HoldsExclusive(t: Thread)
  {
    Holds(t) && t.job.exclusive
  }

  predicate HasSlot(t: Thread)
  {
    t.pc.Running? && t.job.llm
  }

  function MovedTo(d: Daemon, t: Tid, pc: Pc): Daemon
    requires t < |d.threads|
  {
    d.(threads := d.threads[t := d.threads[t].(pc := pc)])
  }

  /** notify_all */
  function WokenAll(threads: seq<Thread>): (r: seq<Thread>)
    ensures |r| == |threads|
  {
    seq(|threads|, i requires 0 <= i < |threads| =>
      if threads[i].pc.Sleeping? then threads[i].(pc := Woken) else threads[i])
  }

  /** Thread `t` can act (an idle thread acts by accepting a request, see Arrive). */
  predicate Enabled(d: Daemon, t: Tid, slots: nat)
  {
    t < |d.threads| &&
    match d.threads[t].pc
    case Idle => false
    case Sleeping => false
    case WantGate => d.lock.None?
    case Woken => d.lock.None?
    case Leaving => d.lock.None?
    case WantSlot => d.slotsUsed < slots
    case _ => true
  }

  function Act(d: Daemon, t: Tid, slots: nat): Daemon
    requires Enabled(d, t, slots)
  {
    var job := d.threads[t].job;
    match d.threads[t].pc
    case Idle => d
    case Sleeping => d
    case WantGate => MovedTo(d, t, Checking).(lock := Some(t))
    case Woken => MovedTo(d, t, Checking).(lock := Some(t))
    case Checking =>
      if Blocked(d.gate, job) then MovedTo(d, t, Sleeping).(lock := None)
      else MovedTo(d, t, Inside).(lock := None, gate := Entered(d.gate, job))
    case Inside => MovedTo(d, t, if job.llm then WantSlot else Running)
    case WantSlot => MovedTo(d, t, Running).(slotsUsed := d.slotsUsed + 1)
    case Running => MovedTo(d, t, Leaving).(slotsUsed := if job.llm && d.slotsUsed > 0 then d.slotsUsed - 1 else d.slotsUsed)
    case Leaving => MovedTo(d, t, Releasing).(lock := Some(t))
    case Releasing => MovedTo(d, t, Notifying).(gate := Left(d.gate, job))
    case Notifying =>
      var e := MovedTo(d, t, Idle);
      e.(lock := None, threads := if Wakes(d.gate, job) then WokenAll(e.threads) else e.threads)
  }

  function Arrive(d: Daemon, t: Tid, job: Job): Daemon
    requires t < |d.threads| && d.threads[t].pc.Idle?
  {
    d.(threads := d.threads[t := Thread(job, WantGate)])
  }

  // ---------------------------------------------------------------------------
  // Counting threads
  // ---------------------------------------------------------------------------

  function Count(threads: seq<Thread>, p: Thread -> bool): nat
  {
    if threads == [] then 0
    else Count(threads[..|threads| - 1], p) + (if p(threads[|threads| - 1]) then 1 else 0)
  }

  lemma {:induction false} CountUpdate(threads: seq<Thread>, t: Tid, x: Thread, p: Thread -> bool)
    requires t < |threads|
    ensures Count(threads[t := x], p) == Count(threads, p) - (if p(threads[t]) then 1 else 0) + (if p(x) then 1 else 0)
  {
    var n := |threads| - 1;
    if t == n {
      assert threads[t := x][..n] == threads[..n];
    } else {
      assert threads[t := x][..n] == threads[..n][t := x];
      CountUpdate(threads[..n], t, x, p);
    }
  }

  lemma {:induction false} CountSame(a: seq<Thread>, b: seq<Thread>, p: Thread -> bool)
    requires |a| == |b| && forall i :: 0 <= i < |a| ==> p(a[i]) == p(b[i])
    ensures Count(a, p) == Count(b, p)
  {
    if a != [] {
      CountSame(a[..|a| - 1], b[..|b| - 1], p);
    }
  }

  lemma {:induction false} CountPositive(threads: seq<Thread>, p: Thread -> bool)
    ensures Count(threads, p) > 0 <==> exists i :: 0 <= i < |threads| && p(threads[i])
  {
    if threads != [] {
      var n := |threads| - 1;
      CountPositive(threads[..n], p);
      if p(threads[n]) {
        assert 0 <= n < |threads| && p(threads[n]);
      }
      if i :| 0 <= i < |threads| && p(threads[i]) && i < n {
        assert p(threads[..n][i]);
      }
    }
  }

  lemma {:induction false} CountTwo(threads: seq<Thread>, p: Thread -> bool, i: nat, j: nat)
    requires i < j < |threads| && p(threads[i]) && p(threads[j])
    ensures Count(threads, p) >= 2
  {
    var n := |threads| - 1;
    if j == n {
      CountPositive(threads[..n], p);
      assert p(threads[..n][i]);
    } else {
      CountTwo(threads[..n], p, i, j);
    }
  }

  function Shared(d: Daemon): nat
  {
    Count(d.threads, (t: Thread) => HoldsShared(t))
  }

  function Exclusive(d: Daemon): nat
  {
    Count(d.threads, (t: Thread) => HoldsExclusive(t))
  }

  function SlotHolders(d: Daemon): nat
  {
    Count(d.threads, (t: Thread) => HasSlot(t))
  }

  // ---------------------------------------------------------------------------
  // The invariant
  // ---------------------------------------------------------------------------

  ghost predicate LockOk(d: Daemon)
  {
    && (d.lock.Some? ==> d.lock.value < |d.threads| && InCritical(d.threads[d.lock.value]))
    && (forall t :: 0 <= t < |d.threads| && InCritical(d.threads[t]) ==> d.lock == Some(t))
  }

  /** The fields count their holders, and the two sides exclude each other. */
  ghost predicate GateOk(d: Daemon, slots: nat)
  {
    && d.gate.shared == Shared(d)
    && Exclusive(d) == (if d.gate.exclusive then 1 else 0)
    && (d.gate.exclusive ==> d.gate.shared == 0)
    && d.slotsUsed == SlotHolders(d) <= slots
    && (forall t :: 0 <= t < |d.threads| && d.threads[t].pc.WantSlot? ==> d.threads[t].job.llm)
  }

  /** Somebody is about to wake everybody. */
  ghost predicate WakePending(d: Daemon)
  {
    d.lock.Some? && d.lock.value < |d.threads| && d.threads[d.lock.value].pc.Notifying?
    && Wakes(d.gate, d.threads[d.lock.value].job)
  }

  /** No lost wake-up: a sleeping thread still has reason to sleep, or is about to be woken. */
  ghost predicate SleepOk(d: Daemon)
  {
    forall t :: 0 <= t < |d.threads| && d.threads[t].pc.Sleeping? ==> Blocked(d.gate, d.threads[t].job) || WakePending(d)
  }

  ghost predicate Inv(d: Daemon, slots: nat)
  {
    LockOk(d) && GateOk(d, slots) && SleepOk(d)
  }

  /** One thread changes: how the counters move. */
  lemma CountersMove(d: Daemon, e: Daemon, t: Tid, x: Thread)
    requires t < |d.threads| && e.threads == d.threads[t := x]
    ensures Shared(e) == Shared(d) - (if HoldsShared(d.threads[t]) then 1 else 0) + (if HoldsShared(x) then 1 else 0)
    ensures Exclusive(e) == Exclusive(d) - (if HoldsExclusive(d.threads[t]) then 1 else 0) + (if HoldsExclusive(x) then 1 else 0)
    ensures SlotHolders(e) == SlotHolders(d) - (if HasSlot(d.threads[t]) then 1 else 0) + (if HasSlot(x) then 1 else 0)
  {
    CountUpdate(d.threads, t, x, (y: Thread) => HoldsShared(y));
    CountUpdate(d.threads, t, x, (y: Thread) => HoldsExclusive(y));
    CountUpdate(d.threads, t, x, (y: Thread) => HasSlot(y));
  }

  lemma WakingKeepsCounters(d: Daemon, e: Daemon)
    requires e.threads == WokenAll(d.threads)
    ensures Shared(e) == Shared(d) && Exclusive(e) == Exclusive(d) && SlotHolders(e) == SlotHolders(d)
  {
    CountSame(d.threads, e.threads, (y: Thread) => HoldsShared(y));
    CountSame(d.threads, e.threads, (y: Thread) => HoldsExclusive(y));
    CountSame(d.threads, e.threads, (y: Thread) => HasSlot(y));
  }

  /** A holder is counted. */
  lemma HolderCounted(d: Daemon, t: Tid)
    requires t < |d.threads|
    ensures HoldsShared(d.threads[t]) ==> Shared(d) > 0
    ensures HoldsExclusive(d.threads[t]) ==> Exclusive(d) > 0
    ensures HasSlot(d.threads[t]) ==> SlotHolders(d) > 0
  {
    CountPositive(d.threads, (y: Thread) => HoldsShared(y));
    CountPositive(d.threads, (y: Thread) => HoldsExclusive(y));
    CountPositive(d.threads, (y: Thread) => HasSlot(y));
  }

  lemma ActKeepsGate(d: Daemon, t: Tid, slots: nat)
    requires Inv(d, slots) && Enabled(d, t, slots)
    ensures GateOk(Act(d, t, slots), slots)
  {
    var e := Act(d, t, slots);
    HolderCounted(d, t);
    if d.threads[t].pc.Notifying? {
      var f := MovedTo(d, t, Idle);
      CountersMove(d, f, t, f.threads[t]);
      if Wakes(d.gate, d.threads[t].job) {
        WakingKeepsCounters(f, e);
      }
    } else {
      CountersMove(d, e, t, e.threads[t]);
    }
  }

  lemma ActKeepsLock(d: Daemon, t: Tid, slots: nat)
    requires Inv(d, slots) && Enabled(d, t, slots)
    ensures LockOk(Act(d, t, slots))
  {
  }

  lemma ActKeepsSleep(d: Daemon, t: Tid, slots: nat)
    requires Inv(d, slots) && Enabled(d, t, slots)
    ensures SleepOk(Act(d, t, slots))
  {
    ActKeepsGate(d, t, slots);
  }

  lemma ActKeepsInv(d: Daemon, t: Tid, slots: nat)
    requires Inv(d, slots) && Enabled(d, t, slots)
    ensures Inv(Act(d, t, slots), slots)
  {
    ActKeepsLock(d, t, slots);
    ActKeepsGate(d, t, slots);
    ActKeepsSleep(d, t, slots);
  }

  lemma ArriveKeepsInv(d: Daemon, t: Tid, job: Job, slots: nat)
    requires Inv(d, slots) && t < |d.threads| && d.threads[t].pc.Idle?
    ensures Inv(Arrive(d, t, job), slots)
  {
    CountersMove(d, Arrive(d, t, job), t, Thread(job, WantGate));
  }

  // ---------------------------------------------------------------------------
  // Every run
  // ---------------------------------------------------------------------------

  datatype Event = Acts(t: Tid) | Arrives(t: Tid, job: Job)

  predicate CanHappen(d: Daemon, e: Event, slots: nat)
  {
    match e
    case Acts(t) => Enabled(d, t, slots)
    case Arrives(t, _) => t < |d.threads| && d.threads[t].pc.Idle?
  }

  function Happen(d: Daemon, e: Event, slots: nat): Daemon
    requires CanHappen(d, e, slots)
  {
    match e
    case Acts(t) => Act(d, t, slots)
    case Arrives(t, job) => Arrive(d, t, job)
  }

  /** `after` is reached from `d` by some schedule of the events `es`. */
  predicate Runs(d: Daemon, es: seq<Event>, after: Daemon, slots: nat)
    decreases es
  {
    if es == [] then d == after
    else CanHappen(d, es[0], slots) && Runs(Happen(d, es[0], slots), es[1..], after, slots)
  }

  /** A daemon that has just started, with `n` threads of any kind. */
  predicate Fresh(d: Daemon)
  {
    d.gate == GateState(0, false) && d.lock == None && d.slotsUsed == 0
    && forall t :: 0 <= t < |d.threads| ==> d.threads[t].pc.Idle?
  }

  lemma FreshInv(d: Daemon, slots: nat)
    requires Fresh(d)
    ensures Inv(d, slots)
  {
    CountPositive(d.threads, (y: Thread) => HoldsShared(y));
    CountPositive(d.threads, (y: Thread) => HoldsExclusive(y));
    CountPositive(d.threads, (y: Thread) => HasSlot(y));
  }

  lemma {:induction false} RunKeepsInv(d: Daemon, es: seq<Event>, after: Daemon, slots: nat)
    requires Inv(d, slots) && Runs(d, es, after, slots)
    ensures Inv(after, slots) && |after.threads| == |d.threads|
    decreases es
  {
    if es != [] {
      match es[0] {
        case Acts(t) => ActKeepsInv(d, t, slots);
        case Arrives(t, job) => ArriveKeepsInv(d, t, job, slots);
      }
      RunKeepsInv(Happen(d, es[0], slots), es[1..], after, slots);
    }
  }

  /** Nobody holds the gate beside an exclusive holder. */
  ghost predicate MutuallyExclusive(d: Daemon)
  {
    forall i, j :: 0 <= i < |d.threads| && 0 <= j < |d.threads| && HoldsExclusive(d.threads[i]) && Holds(d.threads[j])
      ==> i == j
  }

  lemma InvExcludes(d: Daemon, slots: nat)
    requires Inv(d, slots)
    ensures MutuallyExclusive(d)
  {
    forall i, j | 0 <= i < |d.threads| && 0 <= j < |d.threads| && HoldsExclusive(d.threads[i]) && Holds(d.threads[j])
      ensures i == j
    {
      HolderCounted(d, i);
      HolderCounted(d, j);
      if i < j {
        CountTwo(d.threads, (y: Thread) => HoldsExclusive(y), i, j);
      } else if j < i {
        CountTwo(d.threads, (y: Thread) => HoldsExclusive(y), j, i);
      }
    }
  }

  /** Over every schedule of any number of threads: an exclusive holder is alone, no more than `slots`
      handlers hold an LLM slot, and no thread sleeps although its wait condition is already false
      (unless the thread about to notify it still holds the lock). */
  lemma GateSafe(d: Daemon, es: seq<Event>, after: Daemon, slots: nat)
    requires Fresh(d) && Runs(d, es, after, slots)
    ensures MutuallyExclusive(after)
    ensures SlotHolders(after) <= slots
    ensures SleepOk(after)
  {
    FreshInv(d, slots);
    RunKeepsInv(d, es, after, slots);
    InvExcludes(after, slots);
  }

  // ---------------------------------------------------------------------------
  // No deadlock
  // ---------------------------------------------------------------------------

  predicate AllIdle(d: Daemon)
  {
    forall t :: 0 <= t < |d.threads| ==> d.threads[t].pc.Idle?
  }

  lemma SomeHolder(d: Daemon, slots: nat) returns (u: Tid)
    requires Inv(d, slots) && (d.gate.exclusive || d.gate.shared != 0)
    ensures u < |d.threads| && Holds(d.threads[u])
  {
    CountPositive(d.threads, (y: Thread) => HoldsShared(y));
    CountPositive(d.threads, (y: Thread) => HoldsExclusive(y));
    u :| 0 <= u < |d.threads| && Holds(d.threads[u]);
  }

  lemma HolderMoves(d: Daemon, t: Tid, slots: nat) returns (u: Tid)
    requires Inv(d, slots) && slots >= 1 && d.lock.None? && t < |d.threads| && Holds(d.threads[t])
    ensures Enabled(d, u, slots)
  {
    u := t;
    if d.threads[t].pc.WantSlot? && d.slotsUsed >= slots {
      CountPositive(d.threads, (y: Thread) => HasSlot(y));
      u :| 0 <= u < |d.threads| && HasSlot(d.threads[u]);
    }
  }

  /** While some request is unfinished, some thread can move: the gate and the slots nested inside it
      cannot deadlock, for any number of threads and at least one slot. */
  lemma SomeThreadMoves(d: Daemon, t: Tid, slots: nat) returns (u: Tid)
    requires Inv(d, slots) && slots >= 1 && t < |d.threads| && !d.threads[t].pc.Idle?
    ensures Enabled(d, u, slots)
  {
    if d.lock.Some? {
      u := d.lock.value;
    } else if d.threads[t].pc.Sleeping? {
      assert Blocked(d.gate, d.threads[t].job);
      u := SomeHolder(d, slots);
      u := HolderMoves(d, u, slots);
    } else if Holds(d.threads[t]) {
      u := HolderMoves(d, t, slots);
    } else {
      u := t;
    }
  }

  lemma StuckMeansIdle(d: Daemon, slots: nat)
    requires Inv(d, slots) && slots >= 1
    ensures AllIdle(d) || exists u :: Enabled(d, u, slots)
  {
    if !AllIdle(d) {
      var t: nat :| t < |d.threads| && !d.threads[t].pc.Idle?;
      var u := SomeThreadMoves(d, t, slots);
    }
  }

  lemma NeverDeadlocked(d: Daemon, es: seq<Event>, after: Daemon, slots: nat)
    requires Fresh(d) && Runs(d, es, after, slots) && slots >= 1
    ensures AllIdle(after) || exists u :: Enabled(after, u, slots)
  {
    FreshInv(d, slots);
    RunKeepsInv(d, es, after, slots);
    StuckMeansIdle(after, slots);
  }

  // ---------------------------------------------------------------------------
  // The work drains
  // ---------------------------------------------------------------------------

  function Rank(pc: Pc): (r: nat)
    ensures r <= 10 && (r == 0 <==> pc.Idle?)
  {
    match pc
    case Idle => 0
    case WantGate => 10
    case Woken => 10
    case Checking => 9
    case Sleeping => 8
    case Inside => 7
    case WantSlot => 6
    case Running => 5
    case Leaving => 4
    case Releasing => 3
    case Notifying => 2
  }

  /** Finishing a request is worth more than waking every sleeper costs. */
  function Weight(t: Thread, n: nat): nat
  {
    if t.pc.Idle? then 0 else 2 * n + Rank(t.pc)
  }

  function Total(threads: seq<Thread>, n: nat): nat
  {
    if threads == [] then 0 else Total(threads[..|threads| - 1], n) + Weight(threads[|threads| - 1], n)
  }

  lemma {:induction false} TotalUpdate(threads: seq<Thread>, t: Tid, x: Thread, n: nat)
    requires t < |threads|
    ensures Total(threads[t := x], n) == Total(threads, n) - Weight(threads[t], n) + Weight(x, n)
  {
    var m := |threads| - 1;
    if t == m {
      assert threads[t := x][..m] == threads[..m];
    } else {
      assert threads[t := x][..m] == threads[..m][t := x];
      TotalUpdate(threads[..m], t, x, n);
    }
  }

  lemma {:induction false} TotalWoken(threads: seq<Thread>, n: nat)
    ensures Total(WokenAll(threads), n) <= Total(threads, n) + 2 * |threads|
  {
    if threads != [] {
      var m := |threads| - 1;
      assert WokenAll(threads)[..m] == WokenAll(threads[..m]);
      TotalWoken(threads[..m], n);
    }
  }

  lemma {:induction false} TotalBound(threads: seq<Thread>, n: nat)
    ensures Total(threads, n) <= |threads| * (2 * n + 10)
  {
    if threads != [] {
      var m := |threads| - 1;
      TotalBound(threads[..m], n);
      assert |threads| * (2 * n + 10) == m * (2 * n + 10) + (2 * n + 10);
    }
  }

  function Work(d: Daemon): nat
  {
    Total(d.threads, |d.threads|)
  }

  lemma ActDrains(d: Daemon, t: Tid, slots: nat)
    requires Enabled(d, t, slots)
    ensures |Act(d, t, slots).threads| == |d.threads|
    ensures Work(Act(d, t, slots)) < Work(d)
  {
    var n := |d.threads|;
    var e := Act(d, t, slots);
    if d.threads[t].pc.Notifying? {
      var f := MovedTo(d, t, Idle);
      TotalUpdate(d.threads, t, f.threads[t], n);
      TotalWoken(f.threads, n);
    } else {
      TotalUpdate(d.threads, t, e.threads[t], n);
    }
  }

  predicate OnlyActs(es: seq<Event>)
  {
    forall i :: 0 <= i < |es| ==> es[i].Acts?
  }

  lemma {:induction false} ActsDrain(d: Daemon, es: seq<Event>, after: Daemon, slots: nat)
    requires OnlyActs(es) && Runs(d, es, after, slots)
    ensures |es| + Work(after) <= Work(d)
    decreases es
  {
    if es != [] {
      ActDrains(d, es[0].t, slots);
      assert OnlyActs(es[1..]);
      ActsDrain(Happen(d, es[0], slots), es[1..], after, slots);
    }
  }

  /** Once no new request arrives, every schedule is over after at most n(2n + 10) steps, and it can only
      stop with every request answered. */
  lemma GateDrains(d: Daemon, before: seq<Event>, now: Daemon, es: seq<Event>, after: Daemon, slots: nat)
    requires Fresh(d) && Runs(d, before, now, slots) && slots >= 1
    requires OnlyActs(es) && Runs(now, es, after, slots)
    ensures |es| <= |now.threads| * (2 * |now.threads| + 10)
    ensures (forall u :: !Enabled(after, u, slots)) ==> AllIdle(after)
  {
    ActsDrain(now, es, after, slots);
    TotalBound(now.threads, |now.threads|);
    FreshInv(d, slots);
    RunKeepsInv(d, before, now, slots);
    RunKeepsInv(now, es, after, slots);
    StuckMeansIdle(after, slots);
  }
}
