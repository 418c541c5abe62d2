/** The persistent queue of asynchronous adds (src/memline/queue.py). The statements are functions on the
    table; class Queue runs them in place. Instants stand for the UTC texts the rows carry, whose order is
    the text order (see Timestamps). */
module EventQueue {
  import opened Strings

  type EventId = string
  type Json = string
  type Instant = nat

  const MAX_ATTEMPTS := 3

  datatype Status = Queued | Processing | DoneStatus | FailedStatus

  datatype Row = Row(op: string, args: Json, status: Status, attempts: nat, acked: bool,
                     createdAt: Instant, updatedAt: Instant, result: Option<Json>, error: Option<string>)

  type Rows = map<EventId, Row>

  /** The contents of the alerts file. */
  datatype Alert = Alert(failedUnacked: nat, latestError: Option<string>, updatedAt: Instant)

  // ---------------------------------------------------------------------------
  // The statements
  // ---------------------------------------------------------------------------

  function Enqueued(rows: Rows, id: EventId, op: string, args: Json, now: Instant): Rows
  {
    rows[id := Row(op, args, Queued, 0, false, now, now, None, None)]
  }

  predicate IsQueued(rows: Rows, id: EventId)
  {
    id in rows && rows[id].status == Queued
  }

  /** A row the claim query may return: oldest first, ties in any order. */
  predicate IsNext(rows: Rows, id: EventId)
  {
    IsQueued(rows, id) && forall k :: k in rows && IsQueued(rows, k) ==> rows[id].createdAt <= rows[k].createdAt
  }

  function Claimed(rows: Rows, id: EventId, now: Instant): Rows
    requires id in rows
  {
    rows[id := rows[id].(status := Processing, attempts := rows[id].attempts + 1, updatedAt := now)]
  }

  /** No status guard, as in the source. */
  function Completed(rows: Rows, id: EventId, result: Json, now: Instant): Rows
  {
    if id in rows
    then rows[id := rows[id].(status := DoneStatus, result := Some(result), error := None, updatedAt := now)]
    else rows
  }

  /** No status guard, as in the source; `attempts` is what the worker remembers. */
  function FailedOnce(rows: Rows, id: EventId, error: string, attempts: nat, now: Instant): Rows
  {
    if id in rows
    then rows[id := rows[id].(status := if attempts >= MAX_ATTEMPTS then FailedStatus else Queued,
                              error := Some(error), updatedAt := now)]
    else rows
  }

  predicate Purgeable(r: Row, cutoff: Instant)
  {
    r.updatedAt < cutoff && (r.status == DoneStatus || (r.status == FailedStatus && r.acked))
  }

  function Purged(rows: Rows, cutoff: Instant): Rows
  {
    map id | id in rows && !Purgeable(rows[id], cutoff) :: rows[id]
  }

  function Recovered(rows: Rows, now: Instant): Rows
  {
    map id | id in rows ::
      if rows[id].status == Processing then rows[id].(status := Queued, updatedAt := now) else rows[id]
  }

  function Retried(rows: Rows, id: EventId, now: Instant): Rows
  {
    if id in rows && rows[id].status == FailedStatus
    then rows[id := rows[id].(status := Queued, attempts := 0, acked := false, error := None, updatedAt := now)]
    else rows
  }

  /** One event, or every unacknowledged failure when no id is given. */
  function Acknowledged(rows: Rows, id: Option<EventId>, now: Instant): Rows
  {
    if id.Some?
    then
      if id.value in rows && rows[id.value].status == FailedStatus
      then rows[id.value := rows[id.value].(acked := true, updatedAt := now)] else rows
    else
      map k | k in rows :: if Unacked(rows[k]) then rows[k].(acked := true, updatedAt := now) else rows[k]
  }

  predicate Unacked(r: Row)
  {
    r.status == FailedStatus && !r.acked
  }

  function UnackedIds(rows: Rows): set<EventId>
  {
    set id | id in rows && Unacked(rows[id])
  }

  /** What the alerts file says is what the table says: no file when nothing failed unacknowledged, else
      the count, the time of the latest such failure, and the error of a failure at that time. */
  predicate Describes(alert: Option<Alert>, rows: Rows)
  {
    var ids := UnackedIds(rows);
    if ids == {} then alert == None
    else
      && alert.Some?
      && alert.value.failedUnacked == |ids|
      && (forall id :: id in ids ==> rows[id].updatedAt <= alert.value.updatedAt)
      && (exists id :: id in ids && rows[id].updatedAt == alert.value.updatedAt && rows[id].error == alert.value.latestError)
  }

  /** `MAX(updated_at)` of the unacknowledged failures, if there are any */
  predicate LatestAt(rows: Rows, at: Instant)
  {
    var ids := UnackedIds(rows);
    ids != {} ==> (exists id :: id in ids && rows[id].updatedAt == at) && forall id :: id in ids ==> rows[id].updatedAt <= at
  }

  /** The failure the second query of `refresh_alerts` may take. */
  predicate IsNewest(rows: Rows, id: EventId)
  {
    id in UnackedIds(rows) && forall k :: k in UnackedIds(rows) ==> rows[k].updatedAt <= rows[id].updatedAt
  }

  /** The error of a latest unacknowledged failure, or nothing when there is none */
  ghost predicate LatestError(rows: Rows, error: Option<string>)
  {
    if UnackedIds(rows) == {} then error == None else exists id :: IsNewest(rows, id) && rows[id].error == error
  }

  /** Acknowledging without an id leaves no failure unacknowledged, acknowledging one leaves all but that one;
      no event changes its status or its error, and those that were not waiting for it do not change at all. */
  lemma AcknowledgedExactly(rows: Rows, id: Option<EventId>, now: Instant)
    ensures var after := Acknowledged(rows, id, now);
            && after.Keys == rows.Keys
            && UnackedIds(after) == (if id.Some? then UnackedIds(rows) - {id.value} else {})
            && (forall k :: k in rows ==> after[k] == rows[k].(acked := after[k].acked, updatedAt := after[k].updatedAt))
            && (forall k :: k in rows && (rows[k].status != FailedStatus || (id.Some? && k != id.value)) ==> after[k] == rows[k])
            && (forall k :: k in rows && k in UnackedIds(rows) && k !in UnackedIds(after) ==> after[k].acked && after[k].updatedAt == now)
  {
  }

  /** A purge takes the events that were settled before the cutoff, all of them, and no others; what stays is
      unchanged, and purging again with the same or an older cutoff takes nothing. */
  lemma PurgedExactly(rows: Rows, cutoff: Instant, older: Instant, id: EventId)
    requires older <= cutoff
    ensures var after := Purged(rows, cutoff);
            && (id in after <==> id in rows && (rows[id].updatedAt >= cutoff || rows[id].status in {Queued, Processing}
                                                || (rows[id].status == FailedStatus && !rows[id].acked)))
            && (id in after ==> after[id] == rows[id])
            && Purged(after, older) == after
  {
    var after := Purged(rows, cutoff);
    assert Purged(after, older) == after;
  }

  /** Recovery puts what was in processing back into the queue with its attempts counted, and nothing else. */
  lemma RecoveredExactly(rows: Rows, now: Instant, id: EventId)
    ensures var after := Recovered(rows, now);
            && (id in after <==> id in rows)
            && (id in rows ==>
                  after[id] == if rows[id].status == Processing
                               then Row(rows[id].op, rows[id].args, Queued, rows[id].attempts, rows[id].acked,
                                        rows[id].createdAt, now, rows[id].result, rows[id].error)
                               else rows[id])
  {
  }

  /** An event enters the queue behind those that are there, with no attempt counted, stamped with the time it came,
      and without changing any other. */
  lemma EnqueuedExactly(rows: Rows, id: EventId, op: string, args: Json, now: Instant, k: EventId)
    requires id !in rows
    ensures var after := Enqueued(rows, id, op, args, now);
            && (k in after <==> k in rows || k == id) && (k in rows ==> after[k] == rows[k])
            && after[id].op == op && after[id].args == args && after[id].attempts == 0
            && after[id].createdAt == now == after[id].updatedAt
            && (IsNext(after, k) && k != id ==> rows[k].createdAt <= now)
            && (IsNext(after, id) <==> forall j :: j in rows && IsQueued(rows, j) ==> now <= rows[j].createdAt)
  {
    var after := Enqueued(rows, id, op, args, now);
    assert forall j :: j in rows ==> j in after && after[j] == rows[j] && (IsQueued(after, j) <==> IsQueued(rows, j));
  }

  /** A claim counts an attempt, at the time of the claim, and changes no other event. */
  lemma ClaimedExactly(rows: Rows, id: EventId, now: Instant, k: EventId)
    requires id in rows
    ensures var after := Claimed(rows, id, now);
            && (k in after <==> k in rows)
            && (k in rows ==>
                  after[k] == if k == id
                              then Row(rows[k].op, rows[k].args, Processing, rows[k].attempts + 1, rows[k].acked, rows[k].createdAt, now,
                                       rows[k].result, rows[k].error)
                              else rows[k])
  {
  }

  /** A finished handler's result is kept, earlier errors are forgotten, and only its event changes. */
  lemma CompletedExactly(rows: Rows, id: EventId, result: Json, now: Instant, k: EventId)
    ensures var after := Completed(rows, id, result, now);
            && (k in after <==> k in rows)
            && (k in rows ==>
                  after[k] == if k == id
                              then Row(rows[k].op, rows[k].args, DoneStatus, rows[k].attempts, rows[k].acked, rows[k].createdAt, now,
                                       Some(result), None)
                              else rows[k])
  {
  }

  /** An error is kept with its event, which is tried again until the third attempt has failed. */
  lemma FailedExactly(rows: Rows, id: EventId, error: string, attempts: nat, now: Instant, k: EventId)
    ensures var after := FailedOnce(rows, id, error, attempts, now);
            && (k in after <==> k in rows)
            && (k in rows ==>
                  after[k] == if k == id
                              then Row(rows[k].op, rows[k].args, if attempts < 3 then Queued else FailedStatus, rows[k].attempts,
                                       rows[k].acked, rows[k].createdAt, now, rows[k].result, Some(error))
                              else rows[k])
  {
  }

  /** A retry starts a failed event afresh, and only a failed one: queued, no attempts counted, its failure
      forgotten. */
  lemma RetriedExactly(rows: Rows, id: EventId, now: Instant, k: EventId)
    ensures var after := Retried(rows, id, now);
            && (k in after <==> k in rows)
            && (k in rows ==>
                  after[k] == if k == id && rows[k].status == FailedStatus
                              then Row(rows[k].op, rows[k].args, Queued, 0, false, rows[k].createdAt, now, rows[k].result, None)
                              else rows[k])
  {
  }

  lemma {:induction false} LatestExists(rows: Rows, ids: set<EventId>) returns (id: EventId)
    requires ids <= rows.Keys && ids != {}
    ensures id in ids && forall k :: k in ids ==> rows[k].updatedAt <= rows[id].updatedAt
    decreases |ids|
  {
    var k :| k in ids;
    if forall other :: other in ids ==> other == k {
      id := k;
    } else {
      var other :| other in ids && other != k;
      assert other in ids - {k};
      var best := LatestExists(rows, ids - {k});
      id := if rows[k].updatedAt > rows[best].updatedAt then k else best;
    }
  }

  lemma {:induction false} NextExists(rows: Rows, ids: set<EventId>) returns (id: EventId)
    requires ids <= rows.Keys && ids != {}
    ensures id in ids && forall k :: k in ids ==> rows[id].createdAt <= rows[k].createdAt
    decreases |ids|
  {
    var k :| k in ids;
    if forall other :: other in ids ==> other == k {
      id := k;
    } else {
      var other :| other in ids && other != k;
      assert other in ids - {k};
      var best := NextExists(rows, ids - {k});
      id := if rows[k].createdAt < rows[best].createdAt then k else best;
    }
  }

  /** A claim finds a row whenever some row is queued. */
  lemma SomeNext(rows: Rows, id: EventId) returns (next: EventId)
    requires IsQueued(rows, id)
    ensures IsNext(rows, next)
  {
    var queued := set k | k in rows && IsQueued(rows, k);
    assert id in queued;
    next := NextExists(rows, queued);
    assert forall k :: k in rows && IsQueued(rows, k) ==> k in queued;
  }

  class Queue {
    var rows: Rows
    var alerts: Option<Alert>

    constructor ()
      ensures rows == map[] && alerts == None
    {
      rows, alerts := map[], None;
    }

    method Enqueue(id: EventId, op: string, args: Json, now: Instant)
      requires id !in rows
      modifies this
      ensures rows == Enqueued(old(rows), id, op, args, now) && alerts == old(alerts)
    {
      rows := rows[id := Row(op, args, Queued, 0, false, now, now, None, None)];
    }

    method ClaimNext(now: Instant) returns (r: Option<(EventId, Json, nat)>)
      modifies this
      ensures alerts == old(alerts)
      ensures r.None? <==> forall k :: k in old(rows) ==> !IsQueued(old(rows), k)
      ensures r.None? ==> rows == old(rows)
      ensures r.Some? ==> IsNext(old(rows), r.value.0) && rows == Claimed(old(rows), r.value.0, now)
                          && r.value.1 == old(rows)[r.value.0].args && r.value.2 == rows[r.value.0].attempts
    {
      var queued := set k | k in rows && IsQueued(rows, k);
      if queued == {} {
        assert forall k :: k in rows && IsQueued(rows, k) ==> k in queued;
        return None;
      }
      ghost var best := NextExists(rows, queued);
      assert forall k :: k in rows && IsQueued(rows, k) ==> k in queued;
      assert IsNext(rows, best);
      var id :| id in rows && IsNext(rows, id);
      var attempts := rows[id].attempts + 1;
      rows := rows[id := rows[id].(status := Processing, attempts := attempts, updatedAt := now)];
      return Some((id, rows[id].args, attempts));
    }

    method Complete(id: EventId, result: Json, now: Instant)
      modifies this
      ensures rows == Completed(old(rows), id, result, now) && alerts == old(alerts)
    {
      if id in rows {
        rows := rows[id := rows[id].(status := DoneStatus, result := Some(result), error := None, updatedAt := now)];
      }
    }

    method Fail(id: EventId, error: string, attempts: nat, now: Instant) returns (terminal: bool)
      modifies this
      ensures rows == FailedOnce(old(rows), id, error, attempts, now) && alerts == old(alerts)
      ensures terminal <==> attempts >= MAX_ATTEMPTS
    {
      terminal := attempts >= MAX_ATTEMPTS;
      if id in rows {
        var status := if terminal then FailedStatus else Queued;
        rows := rows[id := rows[id].(status := status, error := Some(error), updatedAt := now)];
      }
    }

    method Purge(cutoff: Instant) returns (count: nat)
      modifies this
      ensures rows == Purged(old(rows), cutoff) && alerts == old(alerts)
      ensures count == |old(rows)| - |rows|
    {
      var before := rows;
      rows := map id | id in rows && !Purgeable(rows[id], cutoff) :: rows[id];
      var gone := set id | id in before && Purgeable(before[id], cutoff);
      assert rows.Keys == before.Keys - gone;
      assert |rows.Keys| == |before.Keys| - |gone|;
      count := |gone|;
    }

    method RecoverStale(now: Instant)
      modifies this
      ensures rows == Recovered(old(rows), now) && alerts == old(alerts)
    {
      rows := map id | id in rows ::
        if rows[id].status == Processing then rows[id].(status := Queued, updatedAt := now) else rows[id];
    }

    method Retry(id: EventId, now: Instant) returns (retried: bool)
      modifies this
      ensures rows == Retried(old(rows), id, now) && alerts == old(alerts)
      ensures retried <==> id in old(rows) && old(rows)[id].status == FailedStatus
    {
      retried := id in rows && rows[id].status == FailedStatus;
      if retried {
        rows := rows[id := rows[id].(status := Queued, attempts := 0, acked := false, error := None, updatedAt := now)];
      }
    }

    method Ack(id: Option<EventId>, now: Instant)
      modifies this
      ensures rows == Acknowledged(old(rows), id, now) && alerts == old(alerts)
    {
      if id.Some? {
        if id.value in rows && rows[id.value].status == FailedStatus {
          rows := rows[id.value := rows[id.value].(acked := true, updatedAt := now)];
        }
      } else {
        rows := map k | k in rows ::
          if rows[k].status == FailedStatus && !rows[k].acked
          then rows[k].(acked := true, updatedAt := now) else rows[k];
      }
    }

    /** The read half of `refresh_alerts`: the two SELECT statements. */
    method ReadAlerts() returns (alert: Option<Alert>)
      ensures Describes(alert, rows)
    {
      var ids := set id | id in rows && Unacked(rows[id]);
      if ids == {} {
        return None;
      }
      ghost var best := LatestExists(rows, ids);
      assert best in ids && forall k :: k in ids ==> rows[k].updatedAt <= rows[best].updatedAt;
      var latest :| latest in ids && forall k :: k in ids ==> rows[k].updatedAt <= rows[latest].updatedAt;
      alert := Some(Alert(|ids|, rows[latest].error, rows[latest].updatedAt));
      assert latest in UnackedIds(rows) && rows[latest].updatedAt == alert.value.updatedAt;
    }

    method RefreshAlerts()
      modifies this
      ensures rows == old(rows) && Describes(alerts, rows)
    {
      alerts := ReadAlerts();
    }

    /** `event retry`. */
    method EventRetry(id: EventId, now: Instant) returns (retried: bool)
      modifies this
      ensures rows == Retried(old(rows), id, now) && Describes(alerts, rows)
      ensures retried <==> id in old(rows) && old(rows)[id].status == FailedStatus
    {
      retried := Retry(id, now);
      RefreshAlerts();
    }

    /** `event ack`. */
    method EventAck(id: Option<EventId>, now: Instant)
      modifies this
      ensures rows == Acknowledged(old(rows), id, now) && Describes(alerts, rows)
    {
      Ack(id, now);
      RefreshAlerts();
    }

    /** The queue part of daemon start-up. */
    method StartUp(now: Instant, cutoff: Instant)
      modifies this
      ensures rows == Purged(Recovered(old(rows), now), cutoff) && Describes(alerts, rows)
    {
      RecoverStale(now);
      var _ := Purge(cutoff);
      RefreshAlerts();
    }
  }
}
