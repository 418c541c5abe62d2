/** The event queue as a transition system: enqueues, workers, retries and acknowledgements (from the daemon
    or from a command that opens the queue itself), crashes and restarts, one step per SQL statement or file
    access (src/memline/queue.py, daemon.py, ops.py, cli/_support.py). */
module EventProtocol {
  import opened Strings
  import opened EventQueue

  type ActorId = nat

  /** One refresh of the alerts file: its number among all refreshes, the tables its two queries saw, and
      what they answered. */
  datatype View = View(serial: nat, first: Rows, at: Instant, second: Rows, error: Option<string>)

  /** What it writes: no file without unacknowledged failures. */
  function AlertOf(v: View): Option<Alert>
  {
    if UnackedIds(v.first) == {} then None else Some(Alert(|UnackedIds(v.first)|, v.error, v.at))
  }

  /** A thread between its statements: a worker that has claimed an event and runs its handler, or any
      thread that has changed a row and still has to refresh the alerts file. */
  datatype Actor =
    | Handling(id: EventId, attempts: nat)
    | Refreshing                                           // about to count the failures
    | Counting(serial: nat, first: Rows, at: Instant)      // about to read the latest error
    | Writing(view: View)                                  // about to write the file

  /** Start-up runs recover_stale, purge and refresh_alerts, in this order, before any worker starts; in
      PurgedPhase the thread `main` does the refresh. */
  datatype Phase = Down | Started | RecoveredPhase | PurgedPhase(main: ActorId) | Up

  datatype Accepted = Accepted(op: string, args: Json)

  /** `accepted`, `owner`, `deleted`, `produced` and `crashes` record history; `crashes` counts the crashes
      that caught the event in processing since it was enqueued or last retried. `refreshes` counts the
      refreshes that have begun, `latest` is what the last of them saw once it is done reading, `shown` is
      what the last write came from, and `clock` is the latest time a statement has stamped. */
  datatype State = State(
    rows: Rows, alerts: Option<Alert>, phase: Phase, actors: map<ActorId, Actor>,
    accepted: map<EventId, Accepted>, owner: map<EventId, ActorId>, deleted: map<EventId, Row>,
    produced: map<EventId, Json>, crashes: map<EventId, nat>,
    refreshes: nat, latest: Option<View>, shown: View, clock: Instant)

  datatype Verdict = Succeeds(result: Json) | Raises(error: string)

  datatype Step =
    | Enqueue(id: EventId, op: string, args: Json, now: Instant)
    | Claim(a: ActorId, id: EventId, now: Instant)
    | Finish(a: ActorId, verdict: Verdict, now: Instant)
    | Retry(a: ActorId, id: EventId, now: Instant)
    | Ack(a: ActorId, only: Option<EventId>, now: Instant)
    | Count(a: ActorId, at: Instant)
    | ReadError(a: ActorId, error: Option<string>)
    | Write(a: ActorId)
    | Crash(survivors: set<ActorId>)
    | Restart
    | RecoverStale(now: Instant)
    | Purge(main: ActorId, cutoff: Instant)
    | Ready

  predicate Free(s: State, a: ActorId)
  {
    a !in s.actors
  }

  ghost predicate Can(s: State, step: Step)
  {
    match step
    case Enqueue(id, _, _, _) => id !in s.accepted
    case Claim(a, id, _) => s.phase.Up? && Free(s, a) && IsNext(s.rows, id)
    case Finish(a, _, _) => a in s.actors && s.actors[a].Handling?
    case Retry(a, _, _) => Free(s, a)
    case Ack(a, _, _) => Free(s, a)
    case Count(a, at) => a in s.actors && s.actors[a].Refreshing? && LatestAt(s.rows, at)
    case ReadError(a, error) => a in s.actors && s.actors[a].Counting? && LatestError(s.rows, error)
    case Write(a) => a in s.actors && s.actors[a].Writing?
    case Crash(_) => !s.phase.Down?
    case Restart => s.phase.Down?
    case RecoverStale(_) => s.phase.Started?
    case Purge(main, _) => s.phase.RecoveredPhase? && Free(s, main)
    case Ready => s.phase.PurgedPhase? && s.phase.main !in s.actors
  }

  function DoFinish(s: State, a: ActorId, verdict: Verdict, now: Instant): State
    requires a in s.actors && s.actors[a].Handling?
  {
    var id := s.actors[a].id;
    match verdict
    case Succeeds(result) =>
      s.(rows := Completed(s.rows, id, result, now), produced := s.produced[id := result],
         owner := s.owner - {id}, actors := s.actors[a := Refreshing])
    case Raises(error) =>
      s.(rows := FailedOnce(s.rows, id, error, s.actors[a].attempts, now),
         owner := s.owner - {id}, actors := s.actors[a := Refreshing])
  }

  function CrashesOf(s: State, id: EventId): nat
  {
    if id in s.crashes then s.crashes[id] else 0
  }

  /** The daemon's threads die where they are; threads of other processes survive. */
  function DoCrash(s: State, survivors: set<ActorId>): State
  {
    s.(phase := Down, owner := map[],
       actors := map a | a in s.actors && a in survivors && !s.actors[a].Handling? :: s.actors[a],
       crashes := map id | id in s.rows ::
         if s.rows[id].status == Processing && id in s.owner then CrashesOf(s, id) + 1 else CrashesOf(s, id))
  }

  function DoPurge(s: State, main: ActorId, cutoff: Instant): State
  {
    s.(rows := Purged(s.rows, cutoff), phase := PurgedPhase(main), actors := s.actors[main := Refreshing],
       deleted := map id | id in s.rows.Keys + s.deleted.Keys && (id in s.deleted || Purgeable(s.rows[id], cutoff)) ::
         if id in s.deleted then s.deleted[id] else s.rows[id])
  }

  function DoReadError(s: State, a: ActorId, error: Option<string>): State
    requires a in s.actors && s.actors[a].Counting?
  {
    var view := View(s.actors[a].serial, s.actors[a].first, s.actors[a].at, s.rows, error);
    s.(actors := s.actors[a := Writing(view)], latest := if view.serial == s.refreshes then Some(view) else s.latest)
  }

  /** The time a step stamps on the rows it changes. */
  function Stamp(step: Step): Option<Instant>
  {
    match step
    case Enqueue(_, _, _, now) => Some(now)
    case Claim(_, _, now) => Some(now)
    case Finish(_, _, now) => Some(now)
    case Retry(_, _, now) => Some(now)
    case Ack(_, _, now) => Some(now)
    case RecoverStale(now) => Some(now)
    case _ => None
  }

  function ClockAfter(s: State, step: Step): Instant
  {
    if Stamp(step).Some? && Stamp(step).value > s.clock then Stamp(step).value else s.clock
  }

  ghost function Do(s: State, step: Step): State
    requires Can(s, step)
  {
    Change(s, step).(clock := ClockAfter(s, step))
  }

  ghost function Change(s: State, step: Step): State
    requires Can(s, step)
  {
    match step
    case Enqueue(id, op, args, now) =>
      s.(rows := Enqueued(s.rows, id, op, args, now), accepted := s.accepted[id := Accepted(op, args)])
    case Claim(a, id, now) =>
      s.(rows := Claimed(s.rows, id, now), owner := s.owner[id := a],
         actors := s.actors[a := Handling(id, s.rows[id].attempts + 1)])
    case Finish(a, verdict, now) => DoFinish(s, a, verdict, now)
    case Retry(a, id, now) =>
      s.(rows := Retried(s.rows, id, now), actors := s.actors[a := Refreshing],
         crashes := if id in s.rows && s.rows[id].status == FailedStatus then s.crashes - {id} else s.crashes)
    case Ack(a, only, now) => s.(rows := Acknowledged(s.rows, only, now), actors := s.actors[a := Refreshing])
    case Count(a, at) =>
      s.(actors := s.actors[a := Counting(s.refreshes + 1, s.rows, at)], refreshes := s.refreshes + 1, latest := None)
    case ReadError(a, error) => DoReadError(s, a, error)
    case Write(a) =>
      s.(alerts := AlertOf(s.actors[a].view), shown := s.actors[a].view, actors := s.actors - {a})
    case Crash(survivors) => DoCrash(s, survivors)
    case Restart => s.(phase := Started)
    case RecoverStale(now) => s.(rows := Recovered(s.rows, now), phase := RecoveredPhase)
    case Purge(main, cutoff) => DoPurge(s, main, cutoff)
    case Ready => s.(phase := Up)
  }

  ghost predicate Runs(s: State, steps: seq<Step>, t: State)
    decreases steps
  {
    if steps == [] then s == t else Can(s, steps[0]) && Runs(Do(s, steps[0]), steps[1..], t)
  }

  /** No file stands for an empty table. */
  const NOTHING := View(0, map[], 0, map[], None)

  predicate Fresh(s: State)
  {
    s == State(map[], None, Down, map[], map[], map[], map[], map[], map[], 0, Some(NOTHING), NOTHING, 0)
  }

  // ---------------------------------------------------------------------------
  // The invariant
  // ---------------------------------------------------------------------------

  predicate Settled(r: Row)
  {
    r.status == DoneStatus || (r.status == FailedStatus && r.acked)
  }

  /** What each row promises; `c` is the number of crashes that caught it. */
  predicate RowOk(r: Row, c: nat)
  {
    && (r.acked ==> r.status == FailedStatus)
    && (r.status == Queued ==> r.attempts < MAX_ATTEMPTS + c)
    && r.attempts <= MAX_ATTEMPTS + c
    && (r.status == FailedStatus ==> r.attempts >= MAX_ATTEMPTS && r.error.Some?)
    && (r.status == Processing ==> r.attempts >= 1)
  }

  /** The table holds what was asked for; a done row carries what a worker produced for it, and nothing
      else has been produced. */
  predicate LiveOk(s: State, id: EventId)
  {
    id in s.rows ==>
      && id in s.accepted && s.accepted[id] == Accepted(s.rows[id].op, s.rows[id].args)
      && RowOk(s.rows[id], CrashesOf(s, id))
      && (s.rows[id].status == DoneStatus <==> id in s.produced)
      && (id in s.produced ==> s.rows[id].result == Some(s.produced[id]))
  }

  /** Only settled events were ever deleted. */
  predicate DeletedOk(s: State, id: EventId)
  {
    && (id in s.deleted ==>
          id !in s.rows && Settled(s.deleted[id])
          && id in s.accepted && s.accepted[id] == Accepted(s.deleted[id].op, s.deleted[id].args))
    && (id in s.accepted ==> id in s.rows || id in s.deleted)
    && (id in s.produced ==> id in s.accepted)
  }

  /** While workers run, a processing row and the worker handling it name each other; a processing row
      nobody owns was caught by a crash, which is counted. */
  predicate OwnerOk(s: State, id: EventId)
  {
    && (id in s.owner ==>
          id in s.rows && s.rows[id].status == Processing && s.owner[id] in s.actors
          && s.actors[s.owner[id]] == Handling(id, s.rows[id].attempts))
    && (id in s.rows && s.rows[id].status == Processing && id !in s.owner ==>
          !s.phase.Up? && !s.phase.RecoveredPhase? && !s.phase.PurgedPhase?
          && s.rows[id].attempts < MAX_ATTEMPTS + CrashesOf(s, id))
  }

  predicate EventOk(s: State, id: EventId)
  {
    LiveOk(s, id) && DeletedOk(s, id) && OwnerOk(s, id)
  }

  predicate ActorOk(s: State, a: ActorId)
  {
    a in s.actors && s.actors[a].Handling? ==>
      s.phase.Up? && s.actors[a].id in s.owner && s.owner[s.actors[a].id] == a
  }

  predicate IdleUnlessUp(s: State)
  {
    !s.phase.Up? ==> s.owner == map[]
  }

  ghost predicate Inv(s: State)
  {
    IdleUnlessUp(s) && (forall id :: EventOk(s, id)) && (forall a :: ActorOk(s, a))
  }

  lemma EnqueueKeepsEvent(s: State, step: Step, id: EventId)
    requires Can(s, step) && step.Enqueue? && IdleUnlessUp(s) && EventOk(s, id)
    ensures EventOk(Do(s, step), id)
  {
  }

  lemma ClaimKeepsEvent(s: State, step: Step, id: EventId)
    requires Can(s, step) && step.Claim? && IdleUnlessUp(s) && EventOk(s, id)
    ensures EventOk(Do(s, step), id)
  {
  }

  lemma FinishedKeepsEvent(s: State, a: ActorId, verdict: Verdict, now: Instant)
    requires a in s.actors && s.actors[a].Handling? && ActorOk(s, a) && EventOk(s, s.actors[a].id)
    ensures EventOk(DoFinish(s, a, verdict, now), s.actors[a].id)
  {
    var id := s.actors[a].id;
    var t := DoFinish(s, a, verdict, now);
    assert LiveOk(t, id);
    assert OwnerOk(t, id);
    assert DeletedOk(t, id);
  }

  lemma OthersKeepEvent(s: State, a: ActorId, verdict: Verdict, now: Instant, id: EventId)
    requires a in s.actors && s.actors[a].Handling? && id != s.actors[a].id && EventOk(s, id)
    ensures EventOk(DoFinish(s, a, verdict, now), id)
  {
    var t := DoFinish(s, a, verdict, now);
    assert LiveOk(t, id);
    assert OwnerOk(t, id);
    assert DeletedOk(t, id);
  }

  lemma FinishKeepsEvent(s: State, step: Step, id: EventId)
    requires Can(s, step) && step.Finish? && EventOk(s, id) && ActorOk(s, step.a)
    ensures EventOk(Do(s, step), id)
  {
    if id == s.actors[step.a].id {
      FinishedKeepsEvent(s, step.a, step.verdict, step.now);
    } else {
      OthersKeepEvent(s, step.a, step.verdict, step.now, id);
    }
  }

  lemma RetryKeepsEvent(s: State, step: Step, id: EventId)
    requires Can(s, step) && step.Retry? && IdleUnlessUp(s) && EventOk(s, id)
    ensures EventOk(Do(s, step), id)
  {
  }

  lemma AckKeepsEvent(s: State, step: Step, id: EventId)
    requires Can(s, step) && step.Ack? && IdleUnlessUp(s) && EventOk(s, id)
    ensures EventOk(Do(s, step), id)
  {
  }

  lemma CountKeepsEvent(s: State, step: Step, id: EventId)
    requires Can(s, step) && step.Count? && IdleUnlessUp(s) && EventOk(s, id)
    ensures EventOk(Do(s, step), id)
  {
  }

  lemma ReadErrorKeepsEvent(s: State, step: Step, id: EventId)
    requires Can(s, step) && step.ReadError? && IdleUnlessUp(s) && EventOk(s, id)
    ensures EventOk(Do(s, step), id)
  {
  }

  lemma WriteKeepsEvent(s: State, step: Step, id: EventId)
    requires Can(s, step) && step.Write? && IdleUnlessUp(s) && EventOk(s, id)
    ensures EventOk(Do(s, step), id)
  {
  }

  lemma CrashKeepsEvent(s: State, step: Step, id: EventId)
    requires Can(s, step) && step.Crash? && IdleUnlessUp(s) && EventOk(s, id)
    ensures EventOk(Do(s, step), id)
  {
  }

  lemma RestartKeepsEvent(s: State, step: Step, id: EventId)
    requires Can(s, step) && step.Restart? && IdleUnlessUp(s) && EventOk(s, id)
    ensures EventOk(Do(s, step), id)
  {
  }

  lemma RecoverStaleKeepsEvent(s: State, step: Step, id: EventId)
    requires Can(s, step) && step.RecoverStale? && IdleUnlessUp(s) && EventOk(s, id)
    ensures EventOk(Do(s, step), id)
  {
  }

  lemma PurgeKeepsEvent(s: State, step: Step, id: EventId)
    requires Can(s, step) && step.Purge? && IdleUnlessUp(s) && EventOk(s, id)
    ensures EventOk(Do(s, step), id)
  {
  }

  lemma ReadyKeepsEvent(s: State, step: Step, id: EventId)
    requires Can(s, step) && step.Ready? && IdleUnlessUp(s) && EventOk(s, id)
    ensures EventOk(Do(s, step), id)
  {
  }

  lemma ClaimKeepsActor(s: State, step: Step, a: ActorId)
    requires Can(s, step) && step.Claim? && ActorOk(s, a) && EventOk(s, step.id)
    ensures ActorOk(Do(s, step), a)
  {
  }

  lemma FinishKeepsActor(s: State, step: Step, a: ActorId)
    requires Can(s, step) && step.Finish? && ActorOk(s, a) && ActorOk(s, step.a)
    ensures ActorOk(Do(s, step), a)
  {
  }

  lemma StepKeepsActor(s: State, step: Step, a: ActorId)
    requires Inv(s) && Can(s, step)
    ensures ActorOk(Do(s, step), a)
  {
    assert ActorOk(s, a);
    if step.Claim? {
      assert EventOk(s, step.id);
      ClaimKeepsActor(s, step, a);
    } else if step.Finish? {
      assert ActorOk(s, step.a);
      FinishKeepsActor(s, step, a);
    }
  }

  lemma StepKeepsEvent(s: State, step: Step, id: EventId)
    requires Inv(s) && Can(s, step)
    ensures EventOk(Do(s, step), id)
  {
    assert EventOk(s, id);
    match step {
      case Enqueue(_, _, _, _) => EnqueueKeepsEvent(s, step, id);
      case Claim(_, _, _) => ClaimKeepsEvent(s, step, id);
      case Finish(a, _, _) => assert ActorOk(s, a); FinishKeepsEvent(s, step, id);
      case Retry(_, _, _) => RetryKeepsEvent(s, step, id);
      case Ack(_, _, _) => AckKeepsEvent(s, step, id);
      case Count(_, _) => CountKeepsEvent(s, step, id);
      case ReadError(_, _) => ReadErrorKeepsEvent(s, step, id);
      case Write(_) => WriteKeepsEvent(s, step, id);
      case Crash(_) => CrashKeepsEvent(s, step, id);
      case Restart => RestartKeepsEvent(s, step, id);
      case RecoverStale(_) => RecoverStaleKeepsEvent(s, step, id);
      case Purge(_, _) => PurgeKeepsEvent(s, step, id);
      case Ready => ReadyKeepsEvent(s, step, id);
    }
  }

  lemma StepKeepsInv(s: State, step: Step)
    requires Inv(s) && Can(s, step)
    ensures Inv(Do(s, step))
  {
    forall id: EventId ensures EventOk(Do(s, step), id) {
      StepKeepsEvent(s, step, id);
    }
    forall a: ActorId ensures ActorOk(Do(s, step), a) {
      StepKeepsActor(s, step, a);
    }
  }

  lemma {:induction false} RunKeepsInv(s: State, steps: seq<Step>, t: State)
    requires Inv(s) && Runs(s, steps, t)
    ensures Inv(t)
    decreases steps
  {
    if steps != [] {
      StepKeepsInv(s, steps[0]);
      RunKeepsInv(Do(s, steps[0]), steps[1..], t);
    }
  }

  // ---------------------------------------------------------------------------
  // What every run keeps
  // ---------------------------------------------------------------------------

  lemma FreshInv(s: State)
    requires Fresh(s)
    ensures Inv(s)
  {
  }

  /** Over every interleaving, crash and restart: an accepted event is still in the table with its own
      operation and arguments, or it was deleted after it was done or acknowledged as failed; it has been
      tried at most three times plus once per crash since its last retry, failed means tried three times,
      and acknowledged means failed. */
  lemma AcceptedWorkIsKept(s: State, steps: seq<Step>, t: State, id: EventId)
    requires Fresh(s) && Runs(s, steps, t) && id in t.accepted
    ensures id in t.rows || id in t.deleted
    ensures id in t.deleted ==>
              Settled(t.deleted[id]) && t.accepted[id] == Accepted(t.deleted[id].op, t.deleted[id].args)
    ensures id in t.rows ==>
              && t.accepted[id] == Accepted(t.rows[id].op, t.rows[id].args)
              && t.rows[id].attempts <= MAX_ATTEMPTS + CrashesOf(t, id)
              && (t.rows[id].status == FailedStatus ==> t.rows[id].attempts >= MAX_ATTEMPTS)
              && (t.rows[id].acked ==> t.rows[id].status == FailedStatus)
  {
    FreshInv(s);
    RunKeepsInv(s, steps, t);
    assert EventOk(t, id);
  }

  /** No step deletes a row that is queued, processing or failed without acknowledgement. */
  lemma OnlySettledDeleted(s: State, step: Step, id: EventId)
    requires Can(s, step) && id in s.rows
    ensures id in Do(s, step).rows || (step.Purge? && Settled(s.rows[id]) && s.rows[id].updatedAt < step.cutoff)
  {
  }

  lemma StepKeepsSuccess(s: State, step: Step, id: EventId)
    requires Inv(s) && Can(s, step) && id in s.produced
    ensures id in Do(s, step).produced && Do(s, step).produced[id] == s.produced[id]
  {
    if step.Finish? {
      assert ActorOk(s, step.a);
      assert EventOk(s, s.actors[step.a].id);
    }
  }

  lemma {:induction false} RunKeepsSuccess(s: State, steps: seq<Step>, t: State, id: EventId)
    requires Inv(s) && Runs(s, steps, t) && id in s.produced
    ensures id in t.produced && t.produced[id] == s.produced[id]
    decreases steps
  {
    if steps != [] {
      StepKeepsInv(s, steps[0]);
      StepKeepsSuccess(s, steps[0], id);
      RunKeepsSuccess(Do(s, steps[0]), steps[1..], t, id);
    }
  }

  /** An event succeeds at most once: from then on its row is done with that very result until it is
      purged, whatever else happens. */
  lemma SuccessIsFinal(s: State, first: seq<Step>, m: State, rest: seq<Step>, t: State, id: EventId)
    requires Fresh(s) && Runs(s, first, m) && Runs(m, rest, t) && id in m.produced
    ensures id in t.rows ==> t.rows[id].status == DoneStatus && t.rows[id].result == Some(m.produced[id])
    ensures id !in t.rows ==> id in t.deleted
  {
    FreshInv(s);
    RunKeepsInv(s, first, m);
    RunKeepsSuccess(m, rest, t, id);
    RunKeepsInv(m, rest, t);
    assert EventOk(t, id);
  }

  // ---------------------------------------------------------------------------
  // The queue drains
  // ---------------------------------------------------------------------------

  ghost function Sum<K>(m: map<K, nat>): nat
    decreases |m|
  {
    if m == map[] then 0
    else var k :| k in m; m[k] + Sum(m - {k})
  }

  lemma {:induction false} SumRemove<K>(m: map<K, nat>, k: K)
    requires k in m
    ensures Sum(m) == m[k] + Sum(m - {k})
    decreases |m|
  {
    var j :| j in m && Sum(m) == m[j] + Sum(m - {j});
    if j != k {
      SumRemove(m - {j}, k);
      SumRemove(m - {k}, j);
      assert m - {j} - {k} == m - {k} - {j};
    }
  }

  lemma SumUpdate<K>(m: map<K, nat>, k: K, v: nat)
    ensures Sum(m[k := v]) == Sum(m) + v - (if k in m then m[k] else 0)
  {
    SumRemove(m[k := v], k);
    if k in m {
      SumRemove(m, k);
    }
    assert m[k := v] - {k} == m - {k};
    if k !in m {
      assert m - {k} == m;
    }
  }

  function Max(a: int, b: int): int
  {
    if a >= b then a else b
  }

  /** How many statements an event can still cost. */
  function RowWeight(r: Row): nat
  {
    match r.status
    case Queued => 2 * Max(MAX_ATTEMPTS - r.attempts, 1)
    case Processing => 2 * Max(MAX_ATTEMPTS - r.attempts, 0) + 1
    case _ => 0
  }

  function ActorWeight(a: Actor): nat
  {
    match a
    case Handling(_, _) => 0
    case Refreshing => 3
    case Counting(_, _, _) => 2
    case Writing(_) => 1
  }

  function RowWeights(rows: Rows): map<EventId, nat>
  {
    map id | id in rows :: RowWeight(rows[id])
  }

  function ActorWeights(actors: map<ActorId, Actor>): map<ActorId, nat>
  {
    map a | a in actors :: ActorWeight(actors[a])
  }

  ghost function Work(s: State): nat
  {
    4 * Sum(RowWeights(s.rows)) + Sum(ActorWeights(s.actors))
  }

  /** The steps of the daemon's own threads working off the queue. */
  predicate IsWork(step: Step)
  {
    step.Claim? || step.Finish? || step.Count? || step.ReadError? || step.Write?
  }

  lemma RowMoves(rows: Rows, id: EventId, r: Row)
    requires id in rows
    ensures Sum(RowWeights(rows[id := r])) == Sum(RowWeights(rows)) + RowWeight(r) - RowWeight(rows[id])
  {
    assert RowWeights(rows[id := r]) == RowWeights(rows)[id := RowWeight(r)];
    SumUpdate(RowWeights(rows), id, RowWeight(r));
  }

  lemma ActorMoves(actors: map<ActorId, Actor>, a: ActorId, x: Actor)
    ensures Sum(ActorWeights(actors[a := x]))
         == Sum(ActorWeights(actors)) + ActorWeight(x) - (if a in actors then ActorWeight(actors[a]) else 0)
  {
    assert ActorWeights(actors[a := x]) == ActorWeights(actors)[a := ActorWeight(x)];
    SumUpdate(ActorWeights(actors), a, ActorWeight(x));
  }

  lemma ActorGoes(actors: map<ActorId, Actor>, a: ActorId)
    requires a in actors
    ensures Sum(ActorWeights(actors - {a})) == Sum(ActorWeights(actors)) - ActorWeight(actors[a])
  {
    assert ActorWeights(actors - {a}) == ActorWeights(actors) - {a};
    SumRemove(ActorWeights(actors), a);
  }

  lemma ClaimShrinks(s: State, step: Step)
    requires Can(s, step) && step.Claim?
    ensures Work(Do(s, step)) < Work(s)
  {
    var t := Do(s, step);
    RowMoves(s.rows, step.id, t.rows[step.id]);
    ActorMoves(s.actors, step.a, t.actors[step.a]);
  }

  lemma FinishShrinks(s: State, a: ActorId, verdict: Verdict, now: Instant)
    requires a in s.actors && s.actors[a].Handling? && ActorOk(s, a) && EventOk(s, s.actors[a].id)
    ensures Work(DoFinish(s, a, verdict, now)) < Work(s)
  {
    var t := DoFinish(s, a, verdict, now);
    var id := s.actors[a].id;
    RowMoves(s.rows, id, t.rows[id]);
    ActorMoves(s.actors, a, t.actors[a]);
  }

  lemma WorkShrinks(s: State, step: Step)
    requires Inv(s) && Can(s, step) && IsWork(step)
    ensures Work(Do(s, step)) < Work(s)
  {
    match step {
      case Claim(_, _, _) => ClaimShrinks(s, step);
      case Finish(a, verdict, now) =>
        assert ActorOk(s, a);
        assert EventOk(s, s.actors[a].id);
        FinishShrinks(s, a, verdict, now);
      case Count(a, at) => ActorMoves(s.actors, a, Counting(s.refreshes + 1, s.rows, at));
      case ReadError(a, error) => ActorMoves(s.actors, a, DoReadError(s, a, error).actors[a]);
      case Write(a) => ActorGoes(s.actors, a);
    }
  }

  lemma {:induction false} WorkRunsOut(s: State, steps: seq<Step>, t: State)
    requires Inv(s) && Runs(s, steps, t) && forall i :: 0 <= i < |steps| ==> IsWork(steps[i])
    ensures |steps| + Work(t) <= Work(s)
    decreases steps
  {
    if steps != [] {
      StepKeepsInv(s, steps[0]);
      WorkShrinks(s, steps[0]);
      WorkRunsOut(Do(s, steps[0]), steps[1..], t);
    }
  }

  /** With the daemon up, something is left to do exactly as long as some event is queued or processing
      or some refresh is pending. */
  predicate Quiet(s: State)
  {
    s.actors == map[] && forall id :: id in s.rows ==> s.rows[id].status == DoneStatus || s.rows[id].status == FailedStatus
  }

  ghost predicate WorkLeft(s: State)
  {
    exists step :: IsWork(step) && Can(s, step)
  }

  lemma ActorCanMove(s: State, a: ActorId)
    requires a in s.actors
    ensures WorkLeft(s)
  {
    match s.actors[a] {
      case Handling(_, _) =>
        var step := Finish(a, Succeeds(""), 0);
        assert IsWork(step) && Can(s, step);
      case Refreshing =>
        var at, error := Answers(s.rows);
        var step := Count(a, at);
        assert IsWork(step) && Can(s, step);
      case Counting(_, _, _) =>
        var at, error := Answers(s.rows);
        var step := ReadError(a, error);
        assert IsWork(step) && Can(s, step);
      case Writing(_) =>
        var step := Write(a);
        assert IsWork(step) && Can(s, step);
    }
  }

  /** Both queries of a refresh always have an answer. */
  lemma Answers(rows: Rows) returns (at: Instant, error: Option<string>)
    ensures LatestAt(rows, at) && LatestError(rows, error)
  {
    var ids := UnackedIds(rows);
    if ids == {} {
      at, error := 0, None;
    } else {
      var newest := LatestExists(rows, ids);
      at, error := rows[newest].updatedAt, rows[newest].error;
      assert IsNewest(rows, newest);
    }
  }

  lemma StuckMeansQuiet(s: State)
    requires Inv(s) && s.phase.Up? && !Quiet(s)
    ensures WorkLeft(s)
  {
    if a :| a in s.actors {
      ActorCanMove(s, a);
    } else {
      var id :| id in s.rows && s.rows[id].status != DoneStatus && s.rows[id].status != FailedStatus;
      assert EventOk(s, id);
      var next := SomeNext(s.rows, id);
      var step := Claim(0, next, 0);
      assert IsWork(step) && Can(s, step);
    }
  }

  /** Without new events, retries or crashes the queue drains: whatever the handlers answer and however the
      workers interleave, at most Work(s) statements remain, and they stop only when every event is done or
      failed and every refresh is written. */
  lemma QueueDrains(s: State, first: seq<Step>, m: State, rest: seq<Step>, t: State)
    requires Fresh(s) && Runs(s, first, m) && m.phase.Up?
    requires Runs(m, rest, t) && forall i :: 0 <= i < |rest| ==> IsWork(rest[i])
    ensures |rest| <= Work(m)
    ensures t.phase.Up? && !WorkLeft(t) ==> Quiet(t)
  {
    FreshInv(s);
    RunKeepsInv(s, first, m);
    WorkRunsOut(m, rest, t);
    RunKeepsInv(m, rest, t);
    if t.phase.Up? && !Quiet(t) {
      StuckMeansQuiet(t);
    }
  }
}
