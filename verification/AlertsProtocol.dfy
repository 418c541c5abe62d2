/** When the alerts file is right: over every interleaving of refreshes, each of which counts the failures,
    reads the latest error and writes the file in three separate steps (src/memline/queue.py). */
module AlertsProtocol {
  import opened EventProtocol
  import opened EventQueue
  import opened Strings

  /** The failures the file speaks of. */
  function Failures(rows: Rows): Rows
  {
    map id | id in UnackedIds(rows) :: rows[id]
  }

  lemma SameFailures(rows: Rows, after: Rows)
    requires Failures(rows) == Failures(after)
    ensures UnackedIds(rows) == UnackedIds(after) && forall id :: id in UnackedIds(rows) ==> after[id] == rows[id]
  {
    assert UnackedIds(rows) == Failures(rows).Keys && UnackedIds(after) == Failures(after).Keys;
    forall id | id in UnackedIds(rows) ensures after[id] == rows[id] {
      assert Failures(rows)[id] == rows[id] && Failures(after)[id] == after[id];
    }
  }

  /** The queries answered for the tables they saw. */
  ghost predicate ViewOk(v: View)
  {
    LatestAt(v.first, v.at) && LatestError(v.second, v.error)
  }

  /** What a refresh writes describes the table if neither query has been overtaken. */
  lemma CurrentDescribes(v: View, rows: Rows)
    requires ViewOk(v) && Failures(v.first) == Failures(rows) && Failures(v.second) == Failures(rows)
    ensures Describes(AlertOf(v), rows)
  {
    SameFailures(v.first, rows);
    SameFailures(v.second, rows);
    if UnackedIds(rows) != {} {
      var id :| IsNewest(v.second, id) && v.second[id].error == v.error;
      var k :| k in UnackedIds(v.first) && v.first[k].updatedAt == v.at;
      assert v.second[id] == rows[id] && v.first[k] == rows[k] && v.first[id] == rows[id];
      assert k in UnackedIds(v.second) && id in UnackedIds(v.first);
      assert v.second[k].updatedAt <= v.second[id].updatedAt && v.first[id].updatedAt <= v.at;
      assert rows[id].updatedAt == v.at;
    }
  }

  // ---------------------------------------------------------------------------
  // The last refresh to begin
  // ---------------------------------------------------------------------------

  predicate RefresherIs(s: State, a: ActorId)
  {
    a in s.actors && s.actors[a].Refreshing?
  }

  predicate CounterIs(s: State, a: ActorId)
  {
    a in s.actors && s.actors[a].Counting?
  }

  predicate WriterIs(s: State, a: ActorId)
  {
    a in s.actors && s.actors[a].Writing?
  }

  predicate Pending(s: State)
  {
    exists a :: a in s.actors && !s.actors[a].Handling?
  }

  /** The numbers of the refreshes tell them apart: at most one has the latest number, and what it has read
      is `latest`. */
  ghost predicate LinkOk(s: State, v: View)
  {
    ViewOk(v) && v.serial <= s.refreshes && (v.serial == s.refreshes ==> s.latest == Some(v))
  }

  ghost predicate CounterOk(s: State, a: ActorId)
  {
    CounterIs(s, a) ==>
      && LatestAt(s.actors[a].first, s.actors[a].at) && s.actors[a].serial <= s.refreshes
      && (s.actors[a].serial == s.refreshes ==> s.latest == None)
  }

  ghost predicate LatestOk(s: State)
  {
    && s.alerts == AlertOf(s.shown) && LinkOk(s, s.shown)
    && (s.latest.Some? ==> LinkOk(s, s.latest.value) && s.latest.value.serial == s.refreshes)
    && (forall a :: WriterIs(s, a) ==> LinkOk(s, s.actors[a].view))
    && (forall a :: CounterOk(s, a))
    && (forall a, b :: CounterIs(s, a) && CounterIs(s, b) && s.actors[a].serial == s.actors[b].serial ==> a == b)
  }

  /** Some refresh is still to begin, or the last one to begin has seen the failures there are. */
  ghost predicate Promised(s: State)
  {
    || (exists a :: RefresherIs(s, a))
    || (exists a :: CounterIs(s, a) && s.actors[a].serial == s.refreshes && Failures(s.actors[a].first) == Failures(s.rows))
    || (s.latest.Some? && Failures(s.latest.value.first) == Failures(s.rows) == Failures(s.latest.value.second))
  }

  ghost predicate AlertsOk(s: State)
  {
    LatestOk(s) && (s.phase.Up? || s.phase.PurgedPhase? ==> Promised(s))
  }

  /** Steps that start or end no query and no write. */
  lemma OthersKeepLatest(s: State, t: State)
    requires LatestOk(s)
    requires t.alerts == s.alerts && t.shown == s.shown && t.latest == s.latest && t.refreshes == s.refreshes
    requires forall a :: WriterIs(t, a) || CounterIs(t, a) ==> a in s.actors && t.actors[a] == s.actors[a]
    ensures LatestOk(t)
  {
    forall a | WriterIs(t, a) ensures LinkOk(t, t.actors[a].view) {
      assert WriterIs(s, a);
    }
    forall a ensures CounterOk(t, a) {
      assert CounterOk(s, a);
    }
    forall a, b | CounterIs(t, a) && CounterIs(t, b) && t.actors[a].serial == t.actors[b].serial ensures a == b {
      assert CounterIs(s, a) && CounterIs(s, b);
    }
  }

  lemma CountKeepsLatest(s: State, step: Step)
    requires LatestOk(s) && Can(s, step) && step.Count?
    ensures LatestOk(Do(s, step))
  {
    var t := Do(s, step);
    forall a | WriterIs(t, a) ensures LinkOk(t, t.actors[a].view) {
      assert WriterIs(s, a) && LinkOk(s, s.actors[a].view);
    }
    forall a ensures CounterOk(t, a) {
      assert CounterOk(s, a);
    }
    forall a, b | CounterIs(t, a) && CounterIs(t, b) && t.actors[a].serial == t.actors[b].serial ensures a == b {
      assert a != step.a ==> CounterIs(s, a) && CounterOk(s, a);
      assert b != step.a ==> CounterIs(s, b) && CounterOk(s, b);
    }
  }

  lemma ReadErrorKeepsLatest(s: State, step: Step)
    requires LatestOk(s) && Can(s, step) && step.ReadError?
    ensures LatestOk(Do(s, step))
  {
    var t, a0 := Do(s, step), step.a;
    assert CounterIs(s, a0) && CounterOk(s, a0);
    assert LinkOk(t, t.actors[a0].view);
    forall a | WriterIs(t, a) ensures LinkOk(t, t.actors[a].view) {
      assert a != a0 ==> WriterIs(s, a) && LinkOk(s, s.actors[a].view);
    }
    forall a ensures CounterOk(t, a) {
      assert CounterOk(s, a);
      assert CounterIs(t, a) ==> CounterIs(s, a);
    }
    forall a, b | CounterIs(t, a) && CounterIs(t, b) && t.actors[a].serial == t.actors[b].serial ensures a == b {
      assert CounterIs(s, a) && CounterIs(s, b);
    }
  }

  lemma WriteKeepsLatest(s: State, step: Step)
    requires LatestOk(s) && Can(s, step) && step.Write?
    ensures LatestOk(Do(s, step))
  {
    var t := Do(s, step);
    assert WriterIs(s, step.a) && LinkOk(s, s.actors[step.a].view);
    forall a | WriterIs(t, a) ensures LinkOk(t, t.actors[a].view) {
      assert WriterIs(s, a);
    }
    forall a ensures CounterOk(t, a) {
      assert CounterOk(s, a);
    }
    forall a, b | CounterIs(t, a) && CounterIs(t, b) && t.actors[a].serial == t.actors[b].serial ensures a == b {
      assert CounterIs(s, a) && CounterIs(s, b);
    }
  }

  lemma StepKeepsLatest(s: State, step: Step)
    requires LatestOk(s) && Can(s, step)
    ensures LatestOk(Do(s, step))
  {
    hide LatestOk, Can, Do;
    if step.Count? {
      CountKeepsLatest(s, step);
    } else if step.ReadError? {
      ReadErrorKeepsLatest(s, step);
    } else if step.Write? {
      WriteKeepsLatest(s, step);
    } else {
      OtherFile(s, step);
      forall a | WriterIs(Do(s, step), a) || CounterIs(Do(s, step), a)
        ensures a in s.actors && Do(s, step).actors[a] == s.actors[a]
      {
        OtherActor(s, step, a);
      }
      OthersKeepLatest(s, Do(s, step));
    }
  }

  lemma OtherActor(s: State, step: Step, a: ActorId)
    requires Can(s, step) && !step.Count? && !step.ReadError? && !step.Write?
    ensures var t := Do(s, step); WriterIs(t, a) || CounterIs(t, a) ==> a in s.actors && t.actors[a] == s.actors[a]
  {
    hide Enqueued, Claimed, Completed, FailedOnce, Retried, Acknowledged, Recovered, Purged;
  }

  lemma OtherFile(s: State, step: Step)
    requires Can(s, step) && !step.Count? && !step.ReadError? && !step.Write?
    ensures var t := Do(s, step);
            t.alerts == s.alerts && t.shown == s.shown && t.latest == s.latest && t.refreshes == s.refreshes
  {
    hide Enqueued, Claimed, Completed, FailedOnce, Retried, Acknowledged, Recovered, Purged;
  }

  // ---------------------------------------------------------------------------
  // The promise
  // ---------------------------------------------------------------------------

  /** Enqueue and claim change no failure. */
  lemma QuietStep(s: State, step: Step)
    requires Inv(s) && Can(s, step) && (step.Enqueue? || step.Claim?)
    ensures Failures(Do(s, step).rows) == Failures(s.rows)
  {
    var t := Do(s, step);
    if step.Enqueue? {
      assert EventOk(s, step.id);
    }
    assert UnackedIds(t.rows) == UnackedIds(s.rows);
  }

  lemma SamePromise(s: State, t: State)
    requires Promised(s) && Failures(t.rows) == Failures(s.rows) && t.latest == s.latest && t.refreshes == s.refreshes
    requires forall a :: RefresherIs(s, a) || CounterIs(s, a) ==> a in t.actors && t.actors[a] == s.actors[a]
    ensures Promised(t)
  {
    if a :| RefresherIs(s, a) {
      assert RefresherIs(t, a);
    } else if a :| CounterIs(s, a) && s.actors[a].serial == s.refreshes && Failures(s.actors[a].first) == Failures(s.rows) {
      assert CounterIs(t, a);
    }
  }

  lemma CountKeepsPromise(s: State, step: Step)
    requires Can(s, step) && step.Count?
    ensures Promised(Do(s, step))
  {
    var t := Do(s, step);
    assert CounterIs(t, step.a) && t.actors[step.a].serial == t.refreshes && t.actors[step.a].first == t.rows;
  }

  lemma ReadErrorKeepsPromise(s: State, step: Step)
    requires LatestOk(s) && Promised(s) && Can(s, step) && step.ReadError?
    ensures Promised(Do(s, step))
  {
    var t, a0 := Do(s, step), step.a;
    assert CounterIs(s, a0);
    if a :| RefresherIs(s, a) {
      assert RefresherIs(t, a);
    } else if a :| CounterIs(s, a) && s.actors[a].serial == s.refreshes && Failures(s.actors[a].first) == Failures(s.rows) {
      if a != a0 {
        assert CounterIs(t, a);
      }
    } else {
      assert CounterOk(s, a0);
    }
  }

  /** A thread that has changed a row owes a refresh. */
  lemma ChangeKeepsPromise(s: State, step: Step)
    requires Can(s, step) && (step.Finish? || step.Retry? || step.Ack? || step.Purge?)
    ensures Promised(Do(s, step))
  {
    hide Failures;
    assert RefresherIs(Do(s, step), if step.Purge? then step.main else step.a);
  }

  lemma WriteKeepsPromise(s: State, step: Step)
    requires Promised(s) && Can(s, step) && (step.Write? || step.Ready?)
    ensures Promised(Do(s, step))
  {
    var t := Do(s, step);
    hide Failures, Promised;
    SamePromise(s, t);
  }

  lemma QuietKeepsPromise(s: State, step: Step)
    requires Inv(s) && Promised(s) && Can(s, step) && (step.Enqueue? || step.Claim?)
    ensures Promised(Do(s, step))
  {
    var t := Do(s, step);
    QuietStep(s, step);
    hide Failures, Promised, Inv;
    SamePromise(s, t);
  }

  /** In the other steps the daemon is down, or not yet far enough to promise anything. */
  predicate Promising(step: Step)
  {
    !step.Crash? && !step.Restart? && !step.RecoverStale?
  }

  lemma NotPromising(s: State, step: Step)
    requires Can(s, step) && (Do(s, step).phase.Up? || Do(s, step).phase.PurgedPhase?)
    ensures Promising(step) && (step.Purge? || s.phase.Up? || s.phase.PurgedPhase?)
  {
  }

  lemma StepKeepsPromise(s: State, step: Step)
    requires Inv(s) && LatestOk(s) && Promised(s) && Can(s, step) && Promising(step)
    ensures Promised(Do(s, step))
  {
    hide LatestOk, Inv, Promised, Can, Do;
    if step.Count? {
      CountKeepsPromise(s, step);
    } else if step.ReadError? {
      ReadErrorKeepsPromise(s, step);
    } else if step.Write? || step.Ready? {
      WriteKeepsPromise(s, step);
    } else if step.Enqueue? || step.Claim? {
      QuietKeepsPromise(s, step);
    } else {
      ChangeKeepsPromise(s, step);
    }
  }

  lemma StepKeepsAlerts(s: State, step: Step)
    requires Inv(s) && AlertsOk(s) && Can(s, step)
    ensures AlertsOk(Do(s, step))
  {
    hide LatestOk, Inv, Promised, Can, Do;
    var t := Do(s, step);
    StepKeepsLatest(s, step);
    if t.phase.Up? || t.phase.PurgedPhase? {
      NotPromising(s, step);
      if step.Purge? {
        ChangeKeepsPromise(s, step);
      } else {
        StepKeepsPromise(s, step);
      }
    }
  }

  lemma FreshAlerts(s: State)
    requires Fresh(s)
    ensures AlertsOk(s)
  {
  }

  lemma {:induction false} RunKeepsAlerts(s: State, steps: seq<Step>, t: State)
    requires Inv(s) && AlertsOk(s) && Runs(s, steps, t)
    ensures AlertsOk(t)
    decreases steps
  {
    hide Inv, AlertsOk;
    if steps != [] {
      StepKeepsInv(s, steps[0]);
      StepKeepsAlerts(s, steps[0]);
      RunKeepsAlerts(Do(s, steps[0]), steps[1..], t);
    }
  }

  /** The last write came from the refresh that was the last to begin. */
  predicate InOrder(s: State)
  {
    s.shown.serial == s.refreshes
  }

  /** With no refresh pending the file says what the table says, whatever refreshes overlapped before, as soon
      as the last write came from the refresh that was the last to begin. */
  lemma AlertsAgree(s: State, steps: seq<Step>, t: State)
    requires Fresh(s) && Runs(s, steps, t)
    requires t.phase.Up? && !Pending(t) && InOrder(t)
    ensures Describes(t.alerts, t.rows)
  {
    FreshInv(s);
    FreshAlerts(s);
    RunKeepsAlerts(s, steps, t);
    assert forall a :: !CounterIs(t, a) && !RefresherIs(t, a);
    CurrentDescribes(t.shown, t.rows);
  }

  // ---------------------------------------------------------------------------
  // Exactly when the file is right
  // ---------------------------------------------------------------------------

  /** Every statement that stamps a time stamps a later one than all before it. */
  ghost predicate Timed(s: State, steps: seq<Step>)
    decreases steps
  {
    steps != [] ==>
      && Can(s, steps[0]) && (Stamp(steps[0]).Some? ==> Stamp(steps[0]).value > s.clock)
      && Timed(Do(s, steps[0]), steps[1..])
  }

  /** Every row is as the table `before` had it, or newer than all of that table. */
  predicate GrewFrom(before: Rows, rows: Rows)
  {
    forall id :: id in rows ==>
      (id in before && before[id] == rows[id]) || forall k :: k in before ==> before[k].updatedAt < rows[id].updatedAt
  }

  predicate StampedBy(rows: Rows, clock: Instant)
  {
    forall id :: id in rows ==> rows[id].updatedAt <= clock
  }

  /** No two failures of the same time. */
  predicate Apart(rows: Rows)
  {
    forall i, j :: i in UnackedIds(rows) && j in UnackedIds(rows) && rows[i].updatedAt == rows[j].updatedAt ==> i == j
  }

  predicate SnapshotOk(before: Rows, s: State)
  {
    StampedBy(before, s.clock) && GrewFrom(before, s.rows)
  }

  ghost predicate TimesOk(s: State)
  {
    && StampedBy(s.rows, s.clock) && Apart(s.rows)
    && SnapshotOk(s.shown.first, s) && Apart(s.shown.second)
    && (forall a :: WriterIs(s, a) ==> SnapshotOk(s.actors[a].view.first, s) && Apart(s.actors[a].view.second))
    && (forall a :: CounterIs(s, a) ==> SnapshotOk(s.actors[a].first, s))
  }

  ghost function RowsAfter(s: State, step: Step): Rows
    requires Can(s, step)
  {
    match step
    case Enqueue(id, op, args, now) => Enqueued(s.rows, id, op, args, now)
    case Claim(_, id, now) => Claimed(s.rows, id, now)
    case Finish(a, verdict, now) =>
      if verdict.Succeeds? then Completed(s.rows, s.actors[a].id, verdict.result, now)
      else FailedOnce(s.rows, s.actors[a].id, verdict.error, s.actors[a].attempts, now)
    case Retry(_, id, now) => Retried(s.rows, id, now)
    case Ack(_, only, now) => Acknowledged(s.rows, only, now)
    case RecoverStale(now) => Recovered(s.rows, now)
    case Purge(_, cutoff) => Purged(s.rows, cutoff)
    case _ => s.rows
  }

  lemma RowsAre(s: State, step: Step)
    requires Can(s, step)
    ensures Do(s, step).rows == RowsAfter(s, step)
  {
    hide Enqueued, Claimed, Completed, FailedOnce, Retried, Acknowledged, Recovered, Purged;
  }

  /** A step leaves a row as it is or stamps it. */
  lemma RowKeptOrStamped(s: State, step: Step, id: EventId)
    requires Can(s, step) && id in Do(s, step).rows
    ensures (id in s.rows && Do(s, step).rows[id] == s.rows[id])
            || (Stamp(step).Some? && Do(s, step).rows[id].updatedAt == Stamp(step).value)
  {
    hide Do;
    RowsAre(s, step);
  }

  lemma TableKept(before: Rows, s: State, step: Step)
    requires SnapshotOk(before, s) && Can(s, step) && (Stamp(step).Some? ==> Stamp(step).value > s.clock)
    ensures SnapshotOk(before, Do(s, step))
  {
    var t := Do(s, step);
    assert t.clock >= s.clock;
    forall id | id in t.rows
      ensures (id in before && before[id] == t.rows[id]) || forall k :: k in before ==> before[k].updatedAt < t.rows[id].updatedAt
    {
      RowKeptOrStamped(s, step, id);
      hide Do, Can;
    }
  }

  lemma RowsStamped(s: State, step: Step)
    requires StampedBy(s.rows, s.clock) && Can(s, step)
    ensures StampedBy(Do(s, step).rows, Do(s, step).clock)
  {
    var t := Do(s, step);
    assert t.clock >= s.clock && (Stamp(step).Some? ==> t.clock >= Stamp(step).value);
    forall id | id in t.rows ensures t.rows[id].updatedAt <= t.clock {
      RowKeptOrStamped(s, step, id);
    }
  }

  /** Only a worker that reports an error makes a failure, one at a time. */
  lemma FailureMoves(s: State, step: Step, id: EventId)
    requires Can(s, step) && id in UnackedIds(Do(s, step).rows)
    ensures (id in UnackedIds(s.rows) && Do(s, step).rows[id] == s.rows[id])
            || (step.Finish? && id == s.actors[step.a].id && Do(s, step).rows[id].updatedAt == step.now)
  {
    hide Do;
    RowsAre(s, step);
  }

  lemma StaysApart(s: State, step: Step)
    requires Can(s, step) && (Stamp(step).Some? ==> Stamp(step).value > s.clock)
    requires Apart(s.rows) && StampedBy(s.rows, s.clock)
    ensures Apart(Do(s, step).rows)
  {
    var t := Do(s, step);
    forall i, j | i in UnackedIds(t.rows) && j in UnackedIds(t.rows) && t.rows[i].updatedAt == t.rows[j].updatedAt
      ensures i == j
    {
      FailureMoves(s, step, i);
      FailureMoves(s, step, j);
    }
  }

  /** What a reader or writer holds after a step it held before, or has just read. */
  lemma HeldBefore(s: State, step: Step, a: ActorId)
    requires Can(s, step)
    ensures WriterIs(Do(s, step), a) ==>
              (WriterIs(s, a) && Do(s, step).actors[a] == s.actors[a])
              || (CounterIs(s, a) && Do(s, step).actors[a].view.first == s.actors[a].first
                  && Do(s, step).actors[a].view.second == s.rows)
    ensures CounterIs(Do(s, step), a) ==>
              (CounterIs(s, a) && Do(s, step).actors[a] == s.actors[a]) || Do(s, step).actors[a].first == s.rows
    ensures Do(s, step).shown == s.shown || (step.Write? && WriterIs(s, step.a) && Do(s, step).shown == s.actors[step.a].view)
  {
    hide Enqueued, Claimed, Completed, FailedOnce, Retried, Acknowledged, Recovered, Purged;
  }

  lemma StepKeepsTimes(s: State, step: Step)
    requires TimesOk(s) && Can(s, step) && (Stamp(step).Some? ==> Stamp(step).value > s.clock)
    ensures TimesOk(Do(s, step))
  {
    hide Can, Do, StampedBy, GrewFrom, Apart, SnapshotOk;
    var t := Do(s, step);
    RowsStamped(s, step);
    StaysApart(s, step);
    HeldBefore(s, step, 0);
    NowOk(s);
    TableKept(s.rows, s, step);
    TableKept(s.shown.first, s, step);
    if t.shown != s.shown {
      TableKept(t.shown.first, s, step);
    }
    forall a | WriterIs(t, a) ensures SnapshotOk(t.actors[a].view.first, t) && Apart(t.actors[a].view.second) {
      HeldBefore(s, step, a);
      TableKept(t.actors[a].view.first, s, step);
    }
    forall a | CounterIs(t, a) ensures SnapshotOk(t.actors[a].first, t) {
      HeldBefore(s, step, a);
      TableKept(t.actors[a].first, s, step);
    }
  }

  lemma NowOk(s: State)
    requires StampedBy(s.rows, s.clock)
    ensures SnapshotOk(s.rows, s)
  {
  }

  lemma {:induction false} RunKeepsTimes(s: State, steps: seq<Step>, t: State)
    requires LatestOk(s) && TimesOk(s) && Runs(s, steps, t) && Timed(s, steps)
    ensures LatestOk(t) && TimesOk(t)
    decreases steps
  {
    hide LatestOk, TimesOk;
    if steps != [] {
      StepKeepsLatest(s, steps[0]);
      StepKeepsTimes(s, steps[0]);
      RunKeepsTimes(Do(s, steps[0]), steps[1..], t);
    }
  }

  /** The newest failures the two tables show have the same error. */
  ghost predicate SameError(rows: Rows, after: Rows)
  {
    exists e :: LatestError(rows, e) && LatestError(after, e)
  }

  lemma LatestErrorUnique(rows: Rows, e: Option<string>, f: Option<string>)
    requires Apart(rows) && LatestError(rows, e) && LatestError(rows, f)
    ensures e == f
  {
    if UnackedIds(rows) != {} {
      var i :| IsNewest(rows, i) && rows[i].error == e;
      var j :| IsNewest(rows, j) && rows[j].error == f;
      assert rows[i].updatedAt == rows[j].updatedAt;
    }
  }

  lemma SubsetOfSameSize<T>(a: set<T>, b: set<T>)
    requires a <= b && |a| == |b|
    ensures a == b
  {
    assert b == a + (b - a);
    assert |b - a| == 0;
    assert b - a == {};
  }

  /** If the file describes the table, its count saw the failures there are now. */
  lemma RightMeansSame(v: View, rows: Rows)
    requires ViewOk(v) && GrewFrom(v.first, rows) && Describes(AlertOf(v), rows)
    ensures Failures(v.first) == Failures(rows)
  {
    var ids := UnackedIds(rows);
    if ids == {} {
      assert UnackedIds(v.first) == {};
    } else {
      var k :| k in UnackedIds(v.first) && v.first[k].updatedAt == v.at;
      forall id | id in ids ensures id in UnackedIds(v.first) && v.first[id] == rows[id] {
        assert rows[id].updatedAt <= v.at == v.first[k].updatedAt;
      }
      SubsetOfSameSize(ids, UnackedIds(v.first));
    }
  }

  lemma RightMeansSameError(v: View, rows: Rows)
    requires ViewOk(v) && Describes(AlertOf(v), rows) && UnackedIds(rows) != {}
    ensures SameError(v.second, rows)
  {
    var id :| id in UnackedIds(rows) && rows[id].updatedAt == v.at && rows[id].error == v.error;
    assert IsNewest(rows, id);
    assert LatestError(rows, v.error);
  }

  lemma SameMeansRight(v: View, rows: Rows)
    requires ViewOk(v) && Apart(v.second)
    requires Failures(v.first) == Failures(rows) && (UnackedIds(rows) != {} ==> SameError(v.second, rows))
    ensures Describes(AlertOf(v), rows)
  {
    SameFailures(v.first, rows);
    if UnackedIds(rows) != {} {
      var e :| LatestError(v.second, e) && LatestError(rows, e);
      LatestErrorUnique(v.second, e, v.error);
      var id :| IsNewest(rows, id) && rows[id].error == e;
      var k :| k in UnackedIds(v.first) && v.first[k].updatedAt == v.at;
      assert rows[k] == v.first[k] && v.first[id] == rows[id];
      assert id in UnackedIds(v.first);
    }
  }

  /** When no two statements stamp the same time, the file is right, at any moment, if and only if the
      failures the last writer's count saw are the failures there are, and the newest failure its second
      query saw has the error of the newest there is. */
  lemma AlertsExact(s: State, steps: seq<Step>, t: State)
    requires Fresh(s) && Runs(s, steps, t) && Timed(s, steps)
    ensures Describes(t.alerts, t.rows) <==>
              && Failures(t.shown.first) == Failures(t.rows)
              && (UnackedIds(t.rows) != {} ==> SameError(t.shown.second, t.rows))
  {
    FreshAlerts(s);
    RunKeepsTimes(s, steps, t);
    hide Describes, Failures, SameError, GrewFrom, Apart, ViewOk;
    assert ViewOk(t.shown) && GrewFrom(t.shown.first, t.rows) && Apart(t.shown.second);
    if Describes(t.alerts, t.rows) {
      RightMeansSame(t.shown, t.rows);
      if UnackedIds(t.rows) != {} {
        RightMeansSameError(t.shown, t.rows);
      }
    } else if Failures(t.shown.first) == Failures(t.rows) && (UnackedIds(t.rows) != {} ==> SameError(t.shown.second, t.rows)) {
      SameMeansRight(t.shown, t.rows);
    }
  }

  // ---------------------------------------------------------------------------
  // A file that stays wrong
  // ---------------------------------------------------------------------------

  lemma {:induction false} RunsAppend(s: State, a: seq<Step>, m: State, b: seq<Step>, t: State)
    requires Runs(s, a, m) && Runs(m, b, t)
    ensures Runs(s, a + b, t)
    decreases a
  {
    if a == [] {
      assert a + b == b;
    } else {
      RunsAppend(Do(s, a[0]), a[1..], m, b, t);
      assert (a + b)[1..] == a[1..] + b;
    }
  }

  lemma OneMore(s: State, steps: seq<Step>, m: State, step: Step)
    requires Runs(s, steps, m) && Can(m, step)
    ensures Runs(s, steps + [step], Do(m, step))
  {
    assert [step][1..] == [];
    RunsAppend(s, steps, m, [step], Do(m, step));
  }

  lemma CountEffect(m: State, a: ActorId, at: Instant)
    requires RefresherIs(m, a) && LatestAt(m.rows, at)
    ensures Can(m, Count(a, at))
    ensures Do(m, Count(a, at)) == m.(actors := m.actors[a := Counting(m.refreshes + 1, m.rows, at)],
                                      refreshes := m.refreshes + 1, latest := None)
  {
  }

  lemma ReadErrorEffect(m: State, a: ActorId, error: Option<string>)
    requires CounterIs(m, a) && LatestError(m.rows, error)
    ensures Can(m, ReadError(a, error))
    ensures Do(m, ReadError(a, error)) == DoReadError(m, a, error)
  {
  }

  /** A thread reads for its refresh, and does not write yet. */
  lemma ReadBoth(s: State, steps: seq<Step>, m: State, a: ActorId) returns (more: seq<Step>, t: State)
    requires Runs(s, steps, m) && RefresherIs(m, a)
    ensures Runs(s, more, t) && t.rows == m.rows && t.phase == m.phase && t.accepted == m.accepted && t.alerts == m.alerts
    ensures WriterIs(t, a) && t.actors == m.actors[a := t.actors[a]] && t.actors[a].view.first == m.rows
    ensures t.actors[a].view.serial == t.refreshes
  {
    hide Runs, Do, Can;
    var at, error := Answers(m.rows);
    CountEffect(m, a, at);
    OneMore(s, steps, m, Count(a, at));
    var n := Do(m, Count(a, at));
    ReadErrorEffect(n, a, error);
    OneMore(s, steps + [Count(a, at)], n, ReadError(a, error));
    more, t := steps + [Count(a, at)] + [ReadError(a, error)], Do(n, ReadError(a, error));
  }

  lemma WriteEffect(m: State, a: ActorId)
    requires WriterIs(m, a)
    ensures Can(m, Write(a))
    ensures Do(m, Write(a)) == m.(alerts := AlertOf(m.actors[a].view), shown := m.actors[a].view, actors := m.actors - {a})
  {
  }

  lemma WriteOnce(s: State, steps: seq<Step>, m: State, a: ActorId) returns (more: seq<Step>, t: State)
    requires Runs(s, steps, m) && WriterIs(m, a)
    ensures Runs(s, more, t) && t.rows == m.rows && t.phase == m.phase && t.accepted == m.accepted
    ensures t.actors == m.actors - {a} && t.alerts == AlertOf(m.actors[a].view)
    ensures t.shown == m.actors[a].view && t.refreshes == m.refreshes
  {
    hide Runs, Do, Can;
    WriteEffect(m, a);
    OneMore(s, steps, m, Write(a));
    more, t := steps + [Write(a)], Do(m, Write(a));
  }

  lemma Refresh(s: State, steps: seq<Step>, m: State, a: ActorId) returns (more: seq<Step>, t: State)
    requires Runs(s, steps, m) && m.actors == map[a := Refreshing]
    ensures Runs(s, more, t) && t.rows == m.rows && t.phase == m.phase && t.accepted == m.accepted
    ensures t.actors == map[] && InOrder(t)
  {
    hide Runs;
    var read, n := ReadBoth(s, steps, m, a);
    more, t := WriteOnce(s, read, n, a);
    assert t.actors == map[];
  }

  /** Whatever went wrong before, the next refresh that runs alone puts the file right. */
  lemma LoneRefreshRepairs(s: State, steps: seq<Step>, m: State, a: ActorId) returns (more: seq<Step>, t: State)
    requires Fresh(s) && Runs(s, steps, m) && m.phase.Up? && m.actors == map[a := Refreshing]
    ensures Runs(s, more, t) && t.rows == m.rows && Describes(t.alerts, t.rows)
  {
    hide Runs;
    more, t := Refresh(s, steps, m, a);
    AlertsAgree(s, more, t);
  }

  lemma RetryEffect(m: State, a: ActorId, id: EventId, now: Instant)
    requires a !in m.actors && id !in m.rows
    ensures Can(m, Retry(a, id, now))
    ensures var t := Do(m, Retry(a, id, now));
            t.rows == m.rows && t.phase == m.phase && t.actors == m.actors[a := Refreshing] && t.alerts == m.alerts
  {
  }

  lemma AckEffect(m: State, a: ActorId, now: Instant)
    requires a !in m.actors
    ensures Can(m, Ack(a, None, now))
    ensures var t := Do(m, Ack(a, None, now));
            UnackedIds(t.rows) == {} && t.phase == m.phase && t.actors == m.actors[a := Refreshing]
  {
  }

  /** Two overlapping refreshes leave the file wrong with nothing pending: from any idle state with an
      unacknowledged failure a run goes on to one where the file still announces it although everything is
      acknowledged. */
  lemma OverlapLags(s: State, steps: seq<Step>, m: State, id: EventId, now: Instant) returns (more: seq<Step>, t: State)
    requires Runs(s, steps, m) && m.phase.Up? && m.actors == map[] && UnackedIds(m.rows) != {} && id !in m.rows
    ensures Runs(s, more, t) && t.phase.Up? && !Pending(t) && !Describes(t.alerts, t.rows)
  {
    hide Runs, Do, Can, UnackedIds;
    RetryEffect(m, 0, id, now);
    OneMore(s, steps, m, Retry(0, id, now));
    var early, n := ReadBoth(s, steps + [Retry(0, id, now)], Do(m, Retry(0, id, now)), 0);
    AckEffect(n, 1, now);
    OneMore(s, early, n, Ack(1, None, now));
    var late, p := ReadBoth(s, early + [Ack(1, None, now)], Do(n, Ack(1, None, now)), 1);
    var first, q := WriteOnce(s, late, p, 1);
    more, t := WriteOnce(s, first, q, 0);
    assert t.actors == map[];
  }

  lemma StartEffect(s: State)
    requires Fresh(s)
    ensures Can(s, Restart)
    ensures var a := Do(s, Restart);
            && Can(a, RecoverStale(0))
            && var b := Do(a, RecoverStale(0));
            b.phase.RecoveredPhase? && b.rows == map[] && b.actors == map[] && b.accepted == map[]
  {
  }

  lemma PurgeEffect(b: State)
    requires b.phase.RecoveredPhase? && b.rows == map[] && b.actors == map[]
    ensures Can(b, Purge(0, 0))
    ensures var c := Do(b, Purge(0, 0));
            c.phase == PurgedPhase(0) && c.rows == map[] && c.actors == map[0 := Refreshing] && c.accepted == b.accepted
  {
  }

  lemma ReadyEffect(d: State)
    requires d.phase.PurgedPhase? && d.actors == map[]
    ensures Can(d, Ready) && Do(d, Ready) == d.(phase := Up)
  {
  }

  /** The daemon comes up on an empty table. */
  lemma ComesUp(s: State) returns (steps: seq<Step>, t: State)
    requires Fresh(s)
    ensures Runs(s, steps, t) && t.phase.Up? && t.actors == map[] && t.rows == map[] && t.accepted == map[]
  {
    assert Runs(s, [], s);
    hide Runs, Do, Can;
    StartEffect(s);
    OneMore(s, [], s, Restart);
    var a := Do(s, Restart);
    OneMore(s, [] + [Restart], a, RecoverStale(0));
    var b := Do(a, RecoverStale(0));
    PurgeEffect(b);
    OneMore(s, [] + [Restart] + [RecoverStale(0)], b, Purge(0, 0));
    var refreshed, d := Refresh(s, [] + [Restart] + [RecoverStale(0)] + [Purge(0, 0)], Do(b, Purge(0, 0)), 0);
    ReadyEffect(d);
    OneMore(s, refreshed, d, Ready);
    steps, t := refreshed + [Ready], Do(d, Ready);
  }

  /** One event, queued or failed, and nobody at work. */
  predicate Lone(m: State, id: EventId, attempts: nat, status: Status)
  {
    && m.phase.Up? && m.actors == map[] && m.rows.Keys == {id}
    && m.rows[id].attempts == attempts && m.rows[id].status == status && !m.rows[id].acked
  }

  lemma EnqueueEffect(m: State, id: EventId)
    requires m.phase.Up? && m.actors == map[] && m.rows == map[] && m.accepted == map[]
    ensures Can(m, Enqueue(id, "add", "", 0)) && Lone(Do(m, Enqueue(id, "add", "", 0)), id, 0, Queued)
  {
  }

  lemma ClaimEffect(m: State, id: EventId, n: nat)
    requires Lone(m, id, n, Queued)
    ensures Can(m, Claim(0, id, 0))
    ensures var t := Do(m, Claim(0, id, 0));
            && t.phase.Up? && t.actors == map[0 := Handling(id, n + 1)] && t.rows.Keys == {id}
            && t.rows[id].attempts == n + 1 && !t.rows[id].acked
  {
  }

  lemma RaiseEffect(m: State, id: EventId, n: nat)
    requires m.phase.Up? && m.actors == map[0 := Handling(id, n)] && m.rows.Keys == {id}
    requires m.rows[id].attempts == n && !m.rows[id].acked
    ensures Can(m, Finish(0, Raises(""), 0))
    ensures var t := Do(m, Finish(0, Raises(""), 0));
            t.actors == map[0 := Refreshing]
            && Lone(t.(actors := map[]), id, n, if n >= MAX_ATTEMPTS then FailedStatus else Queued)
  {
  }

  /** A worker claims the event and its handler raises. */
  lemma FailsOnce(s: State, steps: seq<Step>, m: State, id: EventId, n: nat) returns (more: seq<Step>, t: State)
    requires Runs(s, steps, m) && Lone(m, id, n, Queued)
    ensures Runs(s, more, t) && Lone(t, id, n + 1, if n + 1 >= MAX_ATTEMPTS then FailedStatus else Queued)
  {
    hide Runs, Do, Can;
    ClaimEffect(m, id, n);
    OneMore(s, steps, m, Claim(0, id, 0));
    var a := Do(m, Claim(0, id, 0));
    RaiseEffect(a, id, n + 1);
    OneMore(s, steps + [Claim(0, id, 0)], a, Finish(0, Raises(""), 0));
    more, t := Refresh(s, steps + [Claim(0, id, 0)] + [Finish(0, Raises(""), 0)], Do(a, Finish(0, Raises(""), 0)), 0);
  }

  /** Such a run starts with nothing: an event fails three times, then two refreshes overlap. */
  lemma AlertsCanLag(s: State) returns (steps: seq<Step>, t: State)
    requires Fresh(s)
    ensures Runs(s, steps, t) && t.phase.Up? && !Pending(t) && !Describes(t.alerts, t.rows) && !InOrder(t)
  {
    hide Runs, Do, Can;
    var up, a := ComesUp(s);
    var add := Enqueue("event", "add", "", 0);
    EnqueueEffect(a, "event");
    OneMore(s, up, a, add);
    var once, b := FailsOnce(s, up + [add], Do(a, add), "event", 0);
    var twice, c := FailsOnce(s, once, b, "event", 1);
    var thrice, d := FailsOnce(s, twice, c, "event", 2);
    assert "event" in UnackedIds(d.rows);
    assert "other" !in d.rows.Keys;
    steps, t := OverlapLags(s, thrice, d, "other", 0);
    if InOrder(t) {
      AlertsAgree(s, steps, t);
    }
  }
}
