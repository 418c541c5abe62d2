/** The SQLite mailbox between sandboxed clients and the daemon (src/memline/bridge.py).
    The statements are functions on the table; class Queue runs them in place. */
module Bridge {
  import opened Strings

  type RequestId = string
  type Json = string

  const PROTOCOL_VERSION := 1
  const HEARTBEAT_STALE_MS := 5000

  datatype Status = Queued | Processing | DoneStatus | ErrorStatus

  /** What a response document says besides its status: what a handler produced, or one of the
      fixed messages of the mailbox itself. */
  datatype Body =
    | Produced(json: Json)
    | Restarted         // the daemon restarted while the request was processing: outcome unknown
    | StoppedUnclaimed  // the daemon stopped before the request was claimed
    | TimedOut
    | Missing           // a NULL response column

  /** A response document: `ok` says whether its status field is "ok". */
  datatype Response = Response(ok: bool, body: Body)

  const NO_RESPONSE := Response(false, Missing)
  const RESTARTED := Response(false, Restarted)

  datatype Row = Row(version: int, payload: Json, status: Status, createdAt: nat, updatedAt: nat,
                     response: Option<Response>, acknowledged: bool)

  type Rows = map<RequestId, Row>

  predicate Finished(s: Status)
  {
    s == DoneStatus || s == ErrorStatus
  }

  // ---------------------------------------------------------------------------
  // The statements
  // ---------------------------------------------------------------------------

  function Enqueued(rows: Rows, id: RequestId, payload: Json, now: nat): Rows
  {
    if id in rows then rows
    else rows[id := Row(PROTOCOL_VERSION, payload, Queued, now, now, None, false)]
  }

  function ResponseOf(rows: Rows, id: RequestId): Option<Response>
  {
    if id in rows && Finished(rows[id].status)
    then Some(if rows[id].response.Some? then rows[id].response.value else NO_RESPONSE)
    else None
  }

  function Acknowledged(rows: Rows, id: RequestId): Rows
  {
    if id in rows && Finished(rows[id].status) then rows - {id} else rows
  }

  function Cancelled(rows: Rows, id: RequestId, reason: Body, now: nat): Rows
  {
    if id in rows && rows[id].status == Queued
    then rows[id := rows[id].(status := ErrorStatus, response := Some(Response(false, reason)), updatedAt := now)]
    else rows
  }

  predicate Claimable(rows: Rows, id: RequestId)
  {
    id in rows && rows[id].status == Queued && rows[id].version == PROTOCOL_VERSION
  }

  /** A row the claim query may return: oldest first, ties in any order. */
  predicate IsNext(rows: Rows, id: RequestId)
  {
    Claimable(rows, id) && forall k :: k in rows && Claimable(rows, k) ==> rows[id].createdAt <= rows[k].createdAt
  }

  function Claimed(rows: Rows, id: RequestId, now: nat): Rows
  {
    if id in rows && rows[id].status == Queued
    then rows[id := rows[id].(status := Processing, updatedAt := now)] else rows
  }

  /** No status guard, as in the source. */
  function Completed(rows: Rows, id: RequestId, response: Response, now: nat): Rows
  {
    if id in rows
    then rows[id := rows[id].(status := if response.ok then DoneStatus else ErrorStatus,
                              response := Some(response), updatedAt := now)]
    else rows
  }

  function Recovered(rows: Rows, now: nat): Rows
  {
    map id | id in rows ::
      if rows[id].status == Processing
      then rows[id].(status := ErrorStatus, response := Some(RESTARTED), updatedAt := now) else rows[id]
  }

  predicate Purgeable(r: Row, cutoff: nat)
  {
    r.acknowledged || (r.updatedAt < cutoff && Finished(r.status))
  }

  function Purged(rows: Rows, cutoff: nat): Rows
  {
    map id | id in rows && !Purgeable(rows[id], cutoff) :: rows[id]
  }

  /** A request enters the queue behind those that are there: of this protocol version, unread, stamped with the time
      it came, and without changing any other. */
  lemma EnqueuedExactly(rows: Rows, id: RequestId, payload: Json, now: nat, k: RequestId)
    requires id !in rows
    ensures var after := Enqueued(rows, id, payload, now);
            && (k in after <==> k in rows || k == id) && (k in rows ==> after[k] == rows[k])
            && after[id].payload == payload && ResponseOf(after, id) == None && !after[id].acknowledged
            && after[id].createdAt == now == after[id].updatedAt
            && (IsNext(after, k) && k != id ==> rows[k].createdAt <= now)
            && (IsNext(after, id) <==> forall j :: j in rows && Claimable(rows, j) ==> now <= rows[j].createdAt)
  {
  }

  /** A claim takes a queued request out of the queue at the time of the claim and changes no other. */
  lemma ClaimedExactly(rows: Rows, id: RequestId, now: nat, k: RequestId)
    requires id in rows && rows[id].status == Queued
    ensures var after := Claimed(rows, id, now);
            && (k in after <==> k in rows)
            && (k in rows ==>
                  after[k] == if k == id
                              then Row(rows[k].version, rows[k].payload, Processing, rows[k].createdAt, now, rows[k].response,
                                       rows[k].acknowledged)
                              else rows[k])
  {
  }

  /** Only queued requests of this protocol version are handed to a worker, the oldest first. */
  lemma NextExactly(rows: Rows, id: RequestId)
    ensures IsNext(rows, id) <==>
              && id in rows && rows[id].status == Queued && rows[id].version == 1
              && forall k :: k in rows && rows[k].status == Queued && rows[k].version == 1 ==> rows[id].createdAt <= rows[k].createdAt
  {
  }

  /** A handler's response is what its client reads, whatever it says, and the row is done or failed as the response
      is well or not; nobody else's row changes. */
  lemma CompletedAnswers(rows: Rows, id: RequestId, response: Response, now: nat, k: RequestId)
    requires id in rows
    ensures var after := Completed(rows, id, response, now);
            && ResponseOf(after, id) == Some(response) && (after[id].status == DoneStatus <==> response.ok)
            && after[id].payload == rows[id].payload && after[id].updatedAt == now
            && (k != id ==> (k in after <==> k in rows) && (k in rows ==> after[k] == rows[k]))
  {
  }

  /** A request that is withdrawn in time answers with the reason, and not well; any other is left alone. */
  lemma CancelledAnswers(rows: Rows, id: RequestId, reason: Body, now: nat)
    ensures var after := Cancelled(rows, id, reason, now);
            if id in rows && rows[id].status == Queued
            then ResponseOf(after, id) == Some(Response(false, reason)) && after[id].payload == rows[id].payload
                 && (forall k :: k in after <==> k in rows) && forall k :: k in rows && k != id ==> after[k] == rows[k]
            else after == rows
  {
  }

  /** After a restart nobody is left waiting for a handler that died: whoever asks for the response of a
      request that was in processing reads that its outcome is unknown, everybody else reads what he would
      have read, and recovering again changes nothing. */
  lemma RecoveredAnswers(rows: Rows, now: nat, later: nat, id: RequestId)
    ensures var after := Recovered(rows, now);
            && after.Keys == rows.Keys && Recovered(after, later) == after
            && (id in rows ==> after[id].status != Processing && after[id].payload == rows[id].payload)
            && ResponseOf(after, id)
               == (if id in rows && rows[id].status == Processing then Some(RESTARTED) else ResponseOf(rows, id))
            && (id in rows && rows[id].status != Processing ==> after[id] == rows[id])
  {
    var after := Recovered(rows, now);
    assert forall k :: k in after ==> after[k].status != Processing;
    assert Recovered(after, later) == after;
  }

  /** A purge only takes what nobody needs any more: a row stays, unchanged, exactly when nobody has read its
      answer and it is not finished or finished since the cutoff; purging again with the same or an older
      cutoff changes nothing. */
  lemma PurgedKeeps(rows: Rows, cutoff: nat, older: nat, id: RequestId)
    requires older <= cutoff
    ensures var after := Purged(rows, cutoff);
            && (id in after <==> id in rows && !rows[id].acknowledged
                                 && (Finished(rows[id].status) ==> rows[id].updatedAt >= cutoff))
            && (id in after ==> after[id] == rows[id])
            && Purged(after, older) == after
  {
    var after := Purged(rows, cutoff);
    assert Purged(after, older) == after;
  }

  /** Some oldest claimable row exists whenever any claimable row does. */
  lemma {:induction false} NextExists(rows: Rows, ids: set<RequestId>) returns (id: RequestId)
    requires ids <= rows.Keys && ids != {} && forall k :: k in ids ==> Claimable(rows, k)
    ensures id in ids && forall k :: k in ids ==> rows[id].createdAt <= rows[k].createdAt
    decreases |ids|
  {
    var k :| k in ids;
    if forall other :: other in ids ==> other == k {
      id := k;
    } else {
      var other :| other in ids && other != k;
      assert other in ids - {k};
      var best := NextExists(rows, ids - {k});
      id := if rows[k].createdAt < rows[best].createdAt then k else best;
    }
  }

  class Queue {
    var rows: Rows

    constructor ()
      ensures rows == map[]
    {
      rows := map[];
    }

    method Enqueue(id: RequestId, payload: Json, now: nat)
      modifies this
      ensures rows == Enqueued(old(rows), id, payload, now)
    {
      if id !in rows {
        rows := rows[id := Row(PROTOCOL_VERSION, payload, Queued, now, now, None, false)];
      }
    }

    method Acknowledge(id: RequestId)
      modifies this
      ensures rows == Acknowledged(old(rows), id)
    {
      if id in rows && (rows[id].status == DoneStatus || rows[id].status == ErrorStatus) {
        rows := rows - {id};
      }
    }

    method CancelIfQueued(id: RequestId, reason: Body, now: nat) returns (cancelled: bool)
      modifies this
      ensures rows == Cancelled(old(rows), id, reason, now)
      ensures cancelled <==> id in old(rows) && old(rows)[id].status == Queued
    {
      cancelled := id in rows && rows[id].status == Queued;
      if cancelled {
        rows := rows[id := rows[id].(status := ErrorStatus, response := Some(Response(false, reason)), updatedAt := now)];
      }
    }

    /** The read half of `claim_next`. */
    method SelectQueued() returns (r: Option<(RequestId, Json)>)
      ensures r.None? <==> forall k :: k in rows ==> !Claimable(rows, k)
      ensures r.Some? ==> IsNext(rows, r.value.0) && r.value.1 == rows[r.value.0].payload
    {
      var queued := set k | k in rows && Claimable(rows, k);
      if queued == {} {
        assert forall k :: k in rows && Claimable(rows, k) ==> k in queued;
        return None;
      }
      ghost var best := NextExists(rows, queued);
      assert IsNext(rows, best);
      var id :| id in rows && IsNext(rows, id);
      return Some((id, rows[id].payload));
    }

    /** The conditional update that decides who runs the request. */
    method ClaimSelected(id: RequestId, now: nat) returns (won: bool)
      modifies this
      ensures rows == Claimed(old(rows), id, now)
      ensures won <==> id in old(rows) && old(rows)[id].status == Queued
    {
      won := id in rows && rows[id].status == Queued;
      if won {
        rows := rows[id := rows[id].(status := Processing, updatedAt := now)];
      }
    }

    method Complete(id: RequestId, response: Response, now: nat)
      modifies this
      ensures rows == Completed(old(rows), id, response, now)
    {
      if id in rows {
        var status := if response.ok then DoneStatus else ErrorStatus;
        rows := rows[id := rows[id].(status := status, response := Some(response), updatedAt := now)];
      }
    }

    method RecoverStale(now: nat)
      modifies this
      ensures rows == Recovered(old(rows), now)
    {
      rows := map id | id in rows ::
        if rows[id].status == Processing
        then rows[id].(status := ErrorStatus, response := Some(RESTARTED), updatedAt := now) else rows[id];
    }

    method Purge(cutoff: nat)
      modifies this
      ensures rows == Purged(old(rows), cutoff)
    {
      rows := map id | id in rows && !Purgeable(rows[id], cutoff) :: rows[id];
    }
  }
}
