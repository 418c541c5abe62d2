/** What each operation on a memory does to it, told by what a reader of the store can see: its text, its
    successors, its protection, whether it is in the search pool and when its expiry comes up
    (src/memline/staleness.py, src/memline/ops.py, src/memline/cli/stale.py). */
module LifecycleEffects {
  import opened Strings
  import opened Supersession
  import opened PairStore
  import opened Lifecycle
  import opened LifecycleInvariants

  /** No memory appears or goes, and no memory but this one changes. */
  predicate OnlyAt(g: Memories, h: Memories, id: MemoryId)
  {
    h.Keys == g.Keys && forall m :: m in g && m != id ==> h[m] == g[m]
  }

  function ProtectionOf(p: Payload): Option<Time>
  {
    if p.Empty? then None else p.protectedUntil
  }

  function SupersededSince(p: Payload): Option<Time>
  {
    if p.Empty? then None else p.supersededAt
  }

  function Deadline(p: Payload): Option<Time>
  {
    if p.Empty? then None else p.ttlExpiresAt
  }

  function Stamp(p: Payload): Option<Time>
  {
    if p.Empty? then None else p.ttlExpiredAt
  }

  predicate SameSuccessors(p: Payload, q: Payload)
  {
    SupersededIds(p) == SupersededIds(q) && SupersededSince(p) == SupersededSince(q)
  }

  predicate SameExpiry(p: Payload, q: Payload)
  {
    Deadline(p) == Deadline(q) && Stamp(p) == Stamp(q)
  }

  /** No open pair that meets the condition is left; the others are as they were. */
  ghost predicate ClosedOpen(before: Rows, after: Rows, filter: PairKey -> bool)
  {
    && |after| == |before|
    && (forall i :: 0 <= i < |after| ==> after[i].judgment == before[i].judgment)
    && (forall i :: 0 <= i < |after| && filter(after[i].judgment.key) ==> !after[i].disposition.Open?)
    && (forall i :: 0 <= i < |after| && !(before[i].disposition.Open? && filter(before[i].judgment.key)) ==> after[i] == before[i])
  }

  // ---------------------------------------------------------------------------
  // Expiry
  // ---------------------------------------------------------------------------

  /** How a memory stands in the pool and in the harvest loop after `set_ttl`, at any time `t`. */
  predicate TtlStands(g: Memories, h: Memories, id: MemoryId, mode: TtlMode, now: Time, t: Time)
    requires id in g && id in h
  {
    match mode
    case Clear => (InPool(h[id], t) <==> SupersededIds(g[id]) == []) && !Stamped(h[id]) && !Due(h, id, t)
    case ExpireNow => (InPool(h[id], t) <==> SupersededIds(g[id]) == [] && !Le(now, t)) && Stamped(h[id]) && !Due(h, id, t)
    case ExpiresAt(deadline) =>
      && (InPool(h[id], t) <==> SupersededIds(g[id]) == [] && (deadline == "" || !Le(deadline, t)))
      && !Stamped(h[id]) && (Due(h, id, t) <==> id != "" && deadline != "" && Le(deadline, t))
  }

  /** `set_ttl` on a memory that is there: clearing puts it back into the pool unless it is superseded;
      expiring it now takes it out from this moment on, and the harvest loop will not ask about it; a deadline
      takes it out, and makes it due, from the deadline on. Text, successors, protection and all other memories
      stay, and of the pairs only its open expiry flags are closed. */
  lemma TtlSetExactly(w: World, id: MemoryId, mode: TtlMode, now: Time, actor: Actor, t: Time)
    requires id in w.mems && now != ""
    ensures var (v, outcome) := TtlSet(w, id, mode, now, actor);
            && outcome.Done? && OnlyAt(w.mems, v.mems, id)
            && Data(v.mems[id]) == Data(w.mems[id]) && SameSuccessors(v.mems[id], w.mems[id])
            && ProtectionOf(v.mems[id]) == ProtectionOf(w.mems[id])
            && TtlStands(w.mems, v.mems, id, mode, now, t)
            && ClosedOpen(w.rows, v.rows, Targets(id, Some(TtlExpiry)))
  {
  }

  /** `set_ttl` on a memory that is not there raises and changes nothing. */
  lemma TtlSetMissing(w: World, id: MemoryId, mode: TtlMode, now: Time, actor: Actor)
    requires id !in w.mems
    ensures TtlSet(w, id, mode, now, actor) == (w, Raised(MemoryNotFound))
  {
  }

  /** `delete`: a memory that is superseded, or (if the scan for it succeeds) supersedes another, is kept with its
      text, successors and protection, leaves the pool from this moment on, and is not asked about again; any
      other memory is gone, and nothing else has changed. */
  lemma DeletedExactly(w: World, id: MemoryId, scanOk: bool, now: Time, actor: Actor, t: Time)
    requires id in w.mems && now != ""
    ensures var (v, outcome) := Deleted(w, id, scanOk, now, actor);
            && outcome.Done?
            && (if SupersededIds(w.mems[id]) != [] || (scanOk && exists n :: n in w.mems && id in SupersededIds(w.mems[n]))
                then
                  && OnlyAt(w.mems, v.mems, id)
                  && Data(v.mems[id]) == Data(w.mems[id]) && SameSuccessors(v.mems[id], w.mems[id])
                  && ProtectionOf(v.mems[id]) == ProtectionOf(w.mems[id])
                  && (InPool(v.mems[id], t) <==> SupersededIds(w.mems[id]) == [] && !Le(now, t)) && !Due(v.mems, id, t)
                  && ClosedOpen(w.rows, v.rows, Targets(id, Some(TtlExpiry)))
                else
                  && (forall m :: m in v.mems <==> m in w.mems && m != id)
                  && (forall m :: m in v.mems ==> v.mems[m] == w.mems[m])
                  && v.rows == w.rows)
  {
    hide TtlSet;
    TtlSetExactly(w, id, ExpireNow, now, actor, t);
  }

  /** After `close_pairs_for_deleted` no open pair mentions the memory at either end: those aimed at it are
      obsolete, those it started are expired, every other pair is as it was. */
  lemma DeletedPairsExactly(rows: Rows, id: MemoryId, now: Time)
    ensures ClosedOpen(rows, ClosedForDeleted(rows, id, now), (k: PairKey) => k.oldId == id || k.newId == id)
    ensures forall i :: 0 <= i < |rows| && rows[i].disposition.Open? && rows[i].judgment.key.oldId == id ==>
              ClosedForDeleted(rows, id, now)[i].disposition == Obsoleted
    ensures forall i :: 0 <= i < |rows| && rows[i].disposition.Open? && rows[i].judgment.key.oldId != id
                        && rows[i].judgment.key.newId == id ==>
              ClosedForDeleted(rows, id, now)[i].disposition == Expired
  {
  }

  /** A confirmed necessity pair: its memory leaves the pool from this moment on without being asked about
      again, keeping text, successors and protection; the pair stays confirmed, its expiry flags are closed, and
      nothing else has changed. */
  lemma ConfirmedNecessity(w: World, pairId: nat, now: Time, actor: Actor, t: Time)
    requires TableOk(w.rows) && OpenPair(w, pairId) && w.rows[pairId].judgment.key.kind == Necessity && now != ""
    ensures var id := w.rows[pairId].judgment.key.oldId;
            var (v, outcome) := PairConfirmed(w, pairId, true, now, actor);
            if id !in w.mems then v == w && outcome == Raised(MemoryNotFound)
            else
              && outcome.Done? && OnlyAt(w.mems, v.mems, id)
              && Data(v.mems[id]) == Data(w.mems[id]) && SameSuccessors(v.mems[id], w.mems[id])
              && ProtectionOf(v.mems[id]) == ProtectionOf(w.mems[id])
              && (InPool(v.mems[id], t) <==> SupersededIds(w.mems[id]) == [] && !Le(now, t)) && !Due(v.mems, id, t)
              && |v.rows| == |w.rows|
              && v.rows[pairId] == w.rows[pairId].(disposition := Confirmed, closure := Closure(actor, Some(now)))
              && (forall i :: 0 <= i < |v.rows| && i != pairId ==>
                    v.rows[i] == (if w.rows[i].disposition.Open? && w.rows[i].judgment.key.oldId == id
                                     && w.rows[i].judgment.key.kind == TtlExpiry
                                  then w.rows[i].(disposition := Ttl, closure := Closure(actor, Some(now))) else w.rows[i]))
  {
    var id := w.rows[pairId].judgment.key.oldId;
    if id in w.mems {
      var disposed := w.(rows := Disposed(w.rows, pairId, Confirmed, Closure(actor, Some(now))));
      assert PairConfirmed(w, pairId, true, now, actor).0 == TtlSet(disposed, id, ExpireNow, now, actor).0;
      TtlSetExactly(disposed, id, ExpireNow, now, actor, t);
    } else {
      ReopenUndoesDispose(w.rows, pairId, Confirmed, Closure(actor, Some(now)));
    }
  }

  /** The harvest of a memory that is due: it is stamped and stays out of the pool exactly as before, its text,
      successors and protection stay, every open pair aimed at it is closed, and unless its flag is there already
      one open flag is added, on this text with this deadline. A memory that is not due is left alone. */
  lemma HarvestedExactly(w: World, id: MemoryId, now: Time, t: Time)
    requires now != ""
    ensures var v := HarvestedOne(w, id, now);
            if !(id != "" && id in w.mems && TtlExpired(w.mems[id], now) && (Stamp(w.mems[id]) == None || Stamp(w.mems[id]) == Some("")))
            then v == w
            else
              && OnlyAt(w.mems, v.mems, id) && Stamp(v.mems[id]) == Some(now) && Deadline(v.mems[id]) == Deadline(w.mems[id])
              && Data(v.mems[id]) == Data(w.mems[id]) && SameSuccessors(v.mems[id], w.mems[id])
              && ProtectionOf(v.mems[id]) == ProtectionOf(w.mems[id]) && (InPool(v.mems[id], t) <==> InPool(w.mems[id], t))
              && |w.rows| <= |v.rows| <= |w.rows| + 1 && ClosedOpen(w.rows, v.rows[..|w.rows|], Targets(id, None))
              && (|v.rows| == |w.rows| + 1 ==>
                    && v.rows[|w.rows|].disposition == Open
                    && v.rows[|w.rows|].judgment.key
                       == PairKey(TtlExpiry, id, id, Sha256(Data(w.mems[id]) + "@@" + Deadline(w.mems[id]).value)))
  {
  }

  // ---------------------------------------------------------------------------
  // Supersession
  // ---------------------------------------------------------------------------

  /** Successors are kept in the order in which they were first named. */
  lemma {:induction false} DedupedOrder(ids: seq<MemoryId>, seen: set<MemoryId>, i: nat, j: nat) returns (p: nat)
    requires i < j < |Deduped(ids, seen)|
    ensures p < |ids| && ids[p] == Deduped(ids, seen)[i] && Deduped(ids, seen)[j] !in ids[..p + 1]
  {
    var more := if ids[0] == "" || ids[0] in seen then seen else seen + {ids[0]};
    DedupedMeaning(ids[1..], more);
    var rest := Deduped(ids[1..], more);
    if more == seen && Deduped(ids, seen) == rest {
      p := DedupedOrder(ids[1..], seen, i, j);
      assert rest[j] in rest && rest[j] != ids[0];
      assert ids[..p + 2] == [ids[0]] + ids[1..][..p + 1];
      p := p + 1;
    } else if i == 0 {
      p := 0;
      assert rest[j - 1] in rest;
    } else {
      p := DedupedOrder(ids[1..], more, i - 1, j - 1);
      assert rest[j - 1] in rest;
      assert ids[..p + 2] == [ids[0]] + ids[1..][..p + 1];
      p := p + 1;
    }
  }

  /** `invalidate`: the memory is superseded by just the ids that were given, leaves the pool at every time and
      loses its protection, its text and expiry stay, all open pairs aimed at it are closed, and nothing else
      has changed; a refused one changes nothing. */
  lemma InvalidatedExactly(w: World, id: MemoryId, byIds: seq<MemoryId>, now: Time, actor: Actor, t: Time)
    ensures var (v, outcome) := Invalidated(w, id, byIds, now, actor);
            if outcome.Raised? then v == w
            else
              && id in w.mems && SupersededIds(w.mems[id]) == [] && OnlyAt(w.mems, v.mems, id)
              && (forall m :: m in SupersededIds(v.mems[id]) <==> m in byIds && m != "")
              && SupersededIds(v.mems[id]) != [] && Distinct(SupersededIds(v.mems[id]))
              && (forall m :: m in SupersededIds(v.mems[id]) ==> m in w.mems && m != id)
              && SupersededSince(v.mems[id]) == Some(now) && ProtectionOf(v.mems[id]) == None
              && !InPool(v.mems[id], t)
              && Data(v.mems[id]) == Data(w.mems[id]) && SameExpiry(v.mems[id], w.mems[id])
              && ClosedOpen(w.rows, v.rows, Targets(id, None))
  {
    var successors := Deduped(byIds, {});
    DedupedMeaning(byIds, {});
    if InvalidateError(w.mems, id, successors).None? {
      hide Deduped, CheckNoCycle;
      forall m | m in successors ensures m in w.mems && m != id {
        var i :| 0 <= i < |successors| && successors[i] == m;
      }
    }
  }

  /** A memory cannot supersede itself, whatever else is named beside it. */
  lemma SelfRefused(w: World, id: MemoryId, byIds: seq<MemoryId>, now: Time, actor: Actor)
    requires id in byIds && id != ""
    ensures Invalidated(w, id, byIds, now, actor) == (w, Raised(SelfSuperseded))
  {
    DedupedMeaning(byIds, {});
  }

  /** `revive`: a memory that is superseded has no successors afterwards and is in the pool again unless its
      expiry keeps it out; everything else stays. Any other memory is refused. */
  lemma RevivedExactly(w: World, id: MemoryId, t: Time)
    ensures var (v, outcome) := Revived(w, id);
            if id !in w.mems || SupersededIds(w.mems[id]) == [] then v == w && outcome.Raised?
            else
              && outcome.Done? && OnlyAt(w.mems, v.mems, id) && v.rows == w.rows
              && SupersededIds(v.mems[id]) == [] && SupersededSince(v.mems[id]) == None
              && (InPool(v.mems[id], t) <==> !TtlExpired(w.mems[id], t))
              && Data(v.mems[id]) == Data(w.mems[id]) && SameExpiry(v.mems[id], w.mems[id])
              && ProtectionOf(v.mems[id]) == ProtectionOf(w.mems[id])
  {
  }

  /** Reviving undoes an invalidation: the store is what it was, except that the protection is not given
      back. The pairs that were closed stay closed. */
  lemma ReviveUndoesInvalidate(w: World, id: MemoryId, byIds: seq<MemoryId>, now: Time, actor: Actor)
    requires Invalidated(w, id, byIds, now, actor).1.Done? && SupersededSince(w.mems[id]) == None
    ensures var (v, outcome) := Revived(Invalidated(w, id, byIds, now, actor).0, id);
            && outcome.Done? && v.mems == w.mems[id := Present(w.mems[id]).(protectedUntil := None)]
            && ClosedOpen(w.rows, v.rows, Targets(id, None))
  {
    InvalidatedExactly(w, id, byIds, now, actor, now);
    var v := Revived(Invalidated(w, id, byIds, now, actor).0, id).0;
    assert forall m :: m in v.mems <==> m in w.mems;
  }

  // ---------------------------------------------------------------------------
  // Text and protection
  // ---------------------------------------------------------------------------

  /** `update`: the memory carries the new text and loses its protection if that is another text; successors,
      expiry and its place in the pool stay, and so does everything else but the open pairs judged on another
      text, which are closed. */
  lemma UpdatedExactly(w: World, id: MemoryId, text: string, now: Time, t: Time)
    ensures var (v, outcome) := Updated(w, id, text, now);
            if id !in w.mems then v == w && outcome == Raised(MemoryNotFound)
            else
              && outcome.Done? && OnlyAt(w.mems, v.mems, id) && Data(v.mems[id]) == text
              && ProtectionOf(v.mems[id]) == (if Data(w.mems[id]) == text then ProtectionOf(w.mems[id]) else None)
              && SameSuccessors(v.mems[id], w.mems[id]) && SameExpiry(v.mems[id], w.mems[id])
              && (InPool(v.mems[id], t) <==> InPool(w.mems[id], t))
              && ClosedOpen(w.rows, v.rows, (k: PairKey) => k.oldId == id && k.oldTextHash != Sha256(text))
  {
  }

  /** A granted protection runs to the end that was asked for and changes nothing else. */
  lemma GrantedExactly(w: World, id: MemoryId, protection: Protection, now: Time, t: Time)
    ensures var (v, outcome) := Protected(w, id, protection, now);
            if outcome.Raised? then v == w
            else
              && id in w.mems && OnlyAt(w.mems, v.mems, id) && v.rows == w.rows
              && ProtectionOf(v.mems[id]) == Some(protection.until)
              && Data(v.mems[id]) == Data(w.mems[id]) && SameSuccessors(v.mems[id], w.mems[id])
              && SameExpiry(v.mems[id], w.mems[id]) && (InPool(v.mems[id], t) <==> InPool(w.mems[id], t))
  {
  }

  /** Clearing a protection leaves the memory without one and changes nothing else; doing it twice is doing it
      once. */
  lemma UnprotectedExactly(w: World, id: MemoryId, t: Time)
    ensures var (v, outcome) := Unprotected(w, id);
            if id !in w.mems then v == w && outcome == Raised(MemoryNotFound)
            else
              && outcome.Done? && OnlyAt(w.mems, v.mems, id) && v.rows == w.rows
              && ProtectionOf(v.mems[id]) == None && Unprotected(v, id) == (v, Done)
              && Data(v.mems[id]) == Data(w.mems[id]) && SameSuccessors(v.mems[id], w.mems[id])
              && SameExpiry(v.mems[id], w.mems[id]) && (InPool(v.mems[id], t) <==> InPool(w.mems[id], t))
  {
  }

  // ---------------------------------------------------------------------------
  // Judgments
  // ---------------------------------------------------------------------------

  /** A judgment is recorded once for each kind, pair and text. A new one opens a suspicion when it says, with the
      confidence its kind asks for, that the older memory is superseded or a duplicate, not durable, not
      consistent or not clean; any other is only remembered. */
  lemma RecordedExactly(rows: Rows, j: Judgment)
    ensures var after := Recorded(rows, j); var confidence := if j.confidence.Some? then j.confidence.value else 0.0;
            if exists i :: 0 <= i < |rows| && rows[i].judgment.key == j.key then after == rows
            else
              && |after| == |rows| + 1 && after[..|rows|] == rows
              && after[|rows|].judgment == j && after[|rows|].closure == NOT_CLOSED
              && (after[|rows|].disposition.Open? || after[|rows|].disposition.Cached?)
              && (after[|rows|].disposition.Open? <==>
                    || (j.key.kind.Displacement? && j.verdict in {"SUPERSEDED", "DUPLICATE"} && confidence >= 0.6)
                    || (j.key.kind.Necessity? && j.verdict != "DURABLE" && confidence >= 0.8)
                    || (j.key.kind.Correctness? && j.verdict != "CONSISTENT" && confidence >= 0.8)
                    || (j.key.kind.Safety? && j.verdict != "CLEAN" && confidence >= 0.6)
                    || (j.key.kind.TtlExpiry? && confidence >= 0.0))
  {
  }

  // ---------------------------------------------------------------------------
  // Decisions on pairs
  // ---------------------------------------------------------------------------

  /** A pair can be confirmed exactly when it is open and not about correctness, the actor may, and what follows
      can be done: nothing for an expiry flag, the expiry of a memory that is there for a necessity pair, the
      invalidation for any other. */
  lemma ConfirmedExactly(w: World, pairId: nat, authorized: bool, now: Time, actor: Actor)
    ensures PairConfirmed(w, pairId, authorized, now, actor).1.Done? <==>
              && pairId < |w.rows| && w.rows[pairId].disposition.Open? && authorized
              && var key := w.rows[pairId].judgment.key;
                 && !key.kind.Correctness? && (key.kind.Necessity? ==> key.oldId in w.mems)
                 && (!key.kind.Necessity? && !key.kind.TtlExpiry? ==>
                       Invalidated(w, key.oldId, [key.newId], now, actor).1.Done?)
  {
  }

  /** Confirming an expiry flag settles the flag and does nothing else. */
  lemma ConfirmedExpiry(w: World, pairId: nat, now: Time, actor: Actor)
    requires OpenPair(w, pairId) && w.rows[pairId].judgment.key.kind == TtlExpiry
    ensures PairConfirmed(w, pairId, true, now, actor)
         == (World(w.mems, w.rows[pairId := PairRow(w.rows[pairId].judgment, Confirmed, Closure(actor, Some(now)))]), Done)
  {
  }

  /** A deadline can be set through a pair exactly when the pair is open, a necessity pair or an expiry flag, and
      its memory is there. */
  lemma PairTtlExactly(w: World, pairId: nat, deadline: Time, now: Time, actor: Actor)
    ensures PairTtl(w, pairId, deadline, now, actor).1.Done? <==>
              && pairId < |w.rows| && w.rows[pairId].disposition.Open?
              && w.rows[pairId].judgment.key.kind in {Necessity, TtlExpiry} && w.rows[pairId].judgment.key.oldId in w.mems
  {
  }

  /** A pair can be dismissed exactly when it is open and the actor may; only the pair changes. */
  lemma DismissedExactly(w: World, pairId: nat, authorized: bool, now: Time, actor: Actor)
    ensures var (v, outcome) := PairDismissed(w, pairId, authorized, now, actor);
            && (outcome.Done? <==> pairId < |w.rows| && w.rows[pairId].disposition.Open? && authorized)
            && v.mems == w.mems
            && (if outcome.Raised? then v == w
                else v.rows == w.rows[pairId := PairRow(w.rows[pairId].judgment, Dismissed, Closure(actor, Some(now)))])
  {
  }
}
