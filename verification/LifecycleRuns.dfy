/** The review loop of expiry deadlines, dispositions with rollback, and the theorems over whole runs. */
module LifecycleRuns {
  import opened Strings
  import opened Supersession
  import opened PairStore
  import opened Lifecycle
  import opened LifecycleInvariants
  import opened Timestamps

  // ---------------------------------------------------------------------------
  // An open expiry flag means the memory is expired and stamped
  // ---------------------------------------------------------------------------

  predicate IsFlag(r: PairRow, m: MemoryId)
  {
    r.judgment.key.kind == TtlExpiry && r.judgment.key.oldId == m
  }

  predicate Flagged(rows: Rows, m: MemoryId)
  {
    exists i :: 0 <= i < |rows| && rows[i].disposition.Open? && IsFlag(rows[i], m)
  }

  predicate Gone(p: Payload, now: Time)
  {
    TtlExpired(p, now) && Stamped(p)
  }

  ghost predicate FlagsOk(w: World, now: Time)
  {
    forall m :: m in w.mems && Flagged(w.rows, m) ==> Gone(w.mems[m], now)
  }

  lemma FlagsLater(w: World, t: Time, now: Time)
    requires FlagsOk(w, t) && Le(t, now)
    ensures FlagsOk(w, now)
  {
    forall m | m in w.mems && Flagged(w.rows, m) ensures Gone(w.mems[m], now) {
      LeTransitive(w.mems[m].ttlExpiresAt.value, t, now);
    }
  }

  /** No flag appears on a table whose open rows were open before. */
  ghost predicate OnlyCloses(before: Rows, after: Rows)
  {
    |before| == |after| && forall i :: 0 <= i < |after| ==>
      after[i].judgment == before[i].judgment && (after[i].disposition.Open? ==> before[i].disposition.Open?)
  }

  lemma OnlyClosesFlags(before: Rows, after: Rows, m: MemoryId)
    requires OnlyCloses(before, after) && Flagged(after, m)
    ensures Flagged(before, m)
  {
    var i :| 0 <= i < |after| && after[i].disposition.Open? && IsFlag(after[i], m);
    assert before[i].disposition.Open? && IsFlag(before[i], m);
  }

  /** The deadline fields of every surviving memory are as before. */
  ghost predicate SameDeadlines(before: Memories, after: Memories)
  {
    forall m :: m in after ==> m in before && forall t :: Gone(before[m], t) ==> Gone(after[m], t)
  }

  lemma QuietStep(w: World, v: World, now: Time)
    requires FlagsOk(w, now) && OnlyCloses(w.rows, v.rows) && SameDeadlines(w.mems, v.mems)
    ensures FlagsOk(v, now)
  {
    forall m | m in v.mems && Flagged(v.rows, m) ensures Gone(v.mems[m], now) {
      OnlyClosesFlags(w.rows, v.rows, m);
    }
  }

  lemma TtlSetKeepsFlags(w: World, id: MemoryId, mode: TtlMode, now: Time, actor: Actor)
    requires FlagsOk(w, now)
    ensures FlagsOk(TtlSet(w, id, mode, now, actor).0, now)
    ensures TtlSet(w, id, mode, now, actor).1.Done? ==> !Flagged(TtlSet(w, id, mode, now, actor).0.rows, id)
  {
    var v := TtlSet(w, id, mode, now, actor).0;
    forall m | m in v.mems && Flagged(v.rows, m) ensures Gone(v.mems[m], now) {
      OnlyClosesFlags(w.rows, v.rows, m);
    }
  }

  lemma InvalidatedKeepsFlags(w: World, id: MemoryId, byIds: seq<MemoryId>, now: Time, actor: Actor)
    requires FlagsOk(w, now)
    ensures FlagsOk(Invalidated(w, id, byIds, now, actor).0, now)
  {
    QuietStep(w, Invalidated(w, id, byIds, now, actor).0, now);
  }

  lemma HarvestedOneKeepsFlags(w: World, id: MemoryId, now: Time)
    requires FlagsOk(w, now) && now != ""
    ensures FlagsOk(HarvestedOne(w, id, now), now)
  {
    if Due(w.mems, id, now) {
      var v := HarvestedOne(w, id, now);
      var closed := ClosedForOld(w.rows, id, None, Expired, Closure(None, Some(now)));
      forall m | m in v.mems && Flagged(v.rows, m) ensures Gone(v.mems[m], now) {
        if m != id {
          var i :| 0 <= i < |v.rows| && v.rows[i].disposition.Open? && IsFlag(v.rows[i], m);
          assert i < |closed| && closed[i] == v.rows[i];
          OnlyClosesFlags(w.rows, closed, m);
        }
      }
    }
  }

  lemma {:induction false} HarvestedKeepsFlags(w: World, scan: seq<MemoryId>, now: Time)
    requires FlagsOk(w, now) && now != ""
    ensures FlagsOk(Harvested(w, scan, now), now)
  {
    if scan != [] {
      HarvestedKeepsFlags(w, scan[..|scan| - 1], now);
      HarvestedOneKeepsFlags(Harvested(w, scan[..|scan| - 1], now), scan[|scan| - 1], now);
    }
  }

  // ---------------------------------------------------------------------------
  // Dispositions with rollback
  // ---------------------------------------------------------------------------

  /** A failed follow-up restores the world exactly. */
  lemma RollbackRestores(w: World, pairId: nat, d: Disposition, now: Time, actor: Actor,
                         mutate: World -> (World, Outcome))
    requires TableOk(w.rows) && d in {Confirmed, Merged, Ttl}
    requires pairId < |w.rows| && (w.rows[pairId].disposition.Open? || Final(w.rows[pairId].disposition))
    requires var v := w.(rows := Disposed(w.rows, pairId, d, Closure(actor, Some(now))));
             mutate(v).0 == v && mutate(v).1.Raised?
    ensures WithRollback(w, pairId, d, now, actor, mutate).0 == w
  {
    if w.rows[pairId].disposition.Open? {
      ReopenUndoesDispose(w.rows, pairId, d, Closure(actor, Some(now)));
    }
  }

  /** `stale confirm` is all or nothing: either it raises and nothing at all has changed, or the pair
      is confirmed (not relabelled by the cascade) and its mutation has happened. */
  lemma ConfirmAllOrNothing(w: World, pairId: nat, authorized: bool, now: Time, actor: Actor)
    requires TableOk(w.rows)
    ensures var (v, outcome) := PairConfirmed(w, pairId, authorized, now, actor);
            && (outcome.Raised? ==> v == w)
            && (outcome.Done? ==>
                  && OpenPair(w, pairId) && |v.rows| == |w.rows|
                  && v.rows[pairId] == w.rows[pairId].(disposition := Confirmed, closure := Closure(actor, Some(now))))
  {
    if OpenPair(w, pairId) {
      var key := w.rows[pairId].judgment.key;
      var mutate := (x: World) => ConfirmMutation(x, key, now, actor);
      var d := w.(rows := Disposed(w.rows, pairId, Confirmed, Closure(actor, Some(now))));
      if mutate(d).1.Raised? {
        RollbackRestores(w, pairId, Confirmed, now, actor, mutate);
      }
    }
  }

  /** A confirmed displacement leaves the old memory superseded by exactly the new one, closes every other
      open pair aimed at it as obsolete, and touches no other memory and no other row. */
  lemma ConfirmedDisplacement(w: World, pairId: nat, now: Time, actor: Actor)
    requires TableOk(w.rows) && OpenPair(w, pairId) && w.rows[pairId].judgment.key.kind == Displacement
    ensures var key := w.rows[pairId].judgment.key;
            var (v, outcome) := PairConfirmed(w, pairId, true, now, actor);
            outcome.Done? ==>
              && v.mems.Keys == w.mems.Keys && key.oldId in w.mems && key.newId in w.mems
              && SupersededIds(v.mems[key.oldId]) == [key.newId]
              && (forall m :: m in w.mems && m != key.oldId ==> v.mems[m] == w.mems[m])
              && (forall i :: 0 <= i < |v.rows| && v.rows[i].disposition.Open? ==> v.rows[i].judgment.key.oldId != key.oldId)
              && (forall i :: 0 <= i < |v.rows| && i != pairId ==>
                    v.rows[i] == (if w.rows[i].disposition.Open? && w.rows[i].judgment.key.oldId == key.oldId
                                  then w.rows[i].(disposition := Obsoleted, closure := Closure(actor, Some(now)))
                                  else w.rows[i]))
  {
    var key := w.rows[pairId].judgment.key;
    DedupedMeaning([key.newId], {});
    assert PairConfirmed(w, pairId, true, now, actor).1.Done? ==> Deduped([key.newId], {}) == [key.newId];
  }

  /** `stale ttl` is all or nothing too; on success no expiry flag of the memory is left open. */
  lemma PairTtlAllOrNothing(w: World, pairId: nat, deadline: Time, now: Time, actor: Actor)
    requires TableOk(w.rows)
    ensures var (v, outcome) := PairTtl(w, pairId, deadline, now, actor);
            && (outcome.Raised? ==> v == w)
            && (outcome.Done? ==>
                  && OpenPair(w, pairId) && pairId < |v.rows| && v.rows[pairId].disposition == Ttl
                  && var m := w.rows[pairId].judgment.key.oldId;
                     && m in v.mems && v.mems[m].Payload? && v.mems[m].ttlExpiresAt == Some(deadline)
                     && !Stamped(v.mems[m]) && !Flagged(v.rows, m))
  {
    if OpenPair(w, pairId) {
      var key := w.rows[pairId].judgment.key;
      var mutate := (x: World) => TtlSet(x, key.oldId, ExpiresAt(deadline), now, actor);
      var d := w.(rows := Disposed(w.rows, pairId, Ttl, Closure(actor, Some(now))));
      if mutate(d).1.Raised? {
        RollbackRestores(w, pairId, Ttl, now, actor, mutate);
      }
    }
  }

  /** `stale merge`: a refused merge changes nothing; a failed invalidation leaves exactly the rewritten
      text behind, the pair open again unless the rewrite itself expired it. */
  lemma MergeAllOrNothing(w: World, pairId: nat, text: string, authorized: bool, now: Time, actor: Actor)
    requires TableOk(w.rows)
    ensures var (v, outcome) := PairMerged(w, pairId, text, authorized, now, actor);
            && (outcome.Raised? ==>
                  v == w || (OpenPair(w, pairId) && v == Updated(w, w.rows[pairId].judgment.key.newId, text, now).0))
            && (outcome.Done? ==>
                  && OpenPair(w, pairId) && pairId < |v.rows| && v.rows[pairId].disposition == Merged
                  && var key := w.rows[pairId].judgment.key;
                     && key.oldId in v.mems && SupersededIds(v.mems[key.oldId]) == [key.newId]
                     && key.newId in v.mems && Data(v.mems[key.newId]) == text)
  {
    if OpenPair(w, pairId) && PairMerged(w, pairId, text, authorized, now, actor) !=
                              (w, PairMerged(w, pairId, text, authorized, now, actor).1) {
      var key := w.rows[pairId].judgment.key;
      var u := Updated(w, key.newId, text, now).0;
      UpdatedKeepsTable(w, key.newId, text, now);
      var mutate := (x: World) => Invalidated(x, key.oldId, [key.newId], now, actor);
      var d := u.(rows := Disposed(u.rows, pairId, Merged, Closure(actor, Some(now))));
      DedupedMeaning([key.newId], {});
      if mutate(d).1.Raised? {
        RollbackRestores(u, pairId, Merged, now, actor, mutate);
      } else {
        assert Deduped([key.newId], {}) == [key.newId] && key.newId != key.oldId;
      }
    }
  }

  lemma MergedKeepsFlags(w: World, pairId: nat, text: string, authorized: bool, now: Time, actor: Actor)
    requires FlagsOk(w, now) && TableOk(w.rows)
    ensures FlagsOk(PairMerged(w, pairId, text, authorized, now, actor).0, now)
  {
    MergeAllOrNothing(w, pairId, text, authorized, now, actor);
    var (v, outcome) := PairMerged(w, pairId, text, authorized, now, actor);
    if OpenPair(w, pairId) {
      hide TableOk, Invalidated;
      var key := w.rows[pairId].judgment.key;
      var u := Updated(w, key.newId, text, now).0;
      QuietStep(w, u, now);
      if outcome.Done? {
        var d := u.(rows := Disposed(u.rows, pairId, Merged, Closure(actor, Some(now))));
        QuietStep(u, d, now);
        InvalidatedKeepsFlags(d, key.oldId, [key.newId], now, actor);
      }
    }
  }

  lemma ConfirmedKeepsFlags(w: World, pairId: nat, authorized: bool, now: Time, actor: Actor)
    requires FlagsOk(w, now) && TableOk(w.rows)
    ensures FlagsOk(PairConfirmed(w, pairId, authorized, now, actor).0, now)
  {
    ConfirmAllOrNothing(w, pairId, authorized, now, actor);
    if PairConfirmed(w, pairId, authorized, now, actor).1.Done? {
      var key := w.rows[pairId].judgment.key;
      var d := w.(rows := Disposed(w.rows, pairId, Confirmed, Closure(actor, Some(now))));
      QuietStep(w, d, now);
      TtlSetKeepsFlags(d, key.oldId, ExpireNow, now, actor);
      InvalidatedKeepsFlags(d, key.oldId, [key.newId], now, actor);
    }
  }

  lemma ApplyKeepsFlags(w: World, op: Op, now: Time, actor: Actor)
    requires FlagsOk(w, now) && TableOk(w.rows) && Allowed(w, op, now)
    ensures FlagsOk(Apply(w, op, now, actor).0, now)
  {
    var v := Apply(w, op, now, actor).0;
    match op
    case Delete(id, scanOk) => DeletedKeepsFlags(w, id, scanOk, now, actor);
    case SetTtl(id, mode) => TtlSetKeepsFlags(w, id, mode, now, actor);
    case Harvest(scan) => HarvestedKeepsFlags(w, scan, now);
    case Judge(j) =>
      forall m | m in v.mems && Flagged(v.rows, m) ensures Gone(v.mems[m], now) {
        assert Flagged(w.rows, m);
      }
    case StaleConfirm(pairId, authorized) => ConfirmedKeepsFlags(w, pairId, authorized, now, actor);
    case StaleTtl(pairId, deadline) =>
      PairTtlAllOrNothing(w, pairId, deadline, now, actor);
      if PairTtl(w, pairId, deadline, now, actor).1.Done? {
        var d := w.(rows := Disposed(w.rows, pairId, Ttl, Closure(actor, Some(now))));
        QuietStep(w, d, now);
        TtlSetKeepsFlags(d, w.rows[pairId].judgment.key.oldId, ExpiresAt(deadline), now, actor);
      }
    case StaleMerge(pairId, text, authorized) => MergedKeepsFlags(w, pairId, text, authorized, now, actor);
    case _ => QuietCasesKeepFlags(w, op, now, actor);
  }

  lemma DeletedKeepsFlags(w: World, id: MemoryId, scanOk: bool, now: Time, actor: Actor)
    requires FlagsOk(w, now)
    ensures FlagsOk(Deleted(w, id, scanOk, now, actor).0, now)
  {
    if Guarded(w.mems, id, scanOk) {
      TtlSetKeepsFlags(w, id, ExpireNow, now, actor);
    } else {
      QuietStep(w, Deleted(w, id, scanOk, now, actor).0, now);
    }
  }

  lemma QuietCasesKeepFlags(w: World, op: Op, now: Time, actor: Actor)
    requires FlagsOk(w, now) && Allowed(w, op, now)
    requires op.Add? || op.Update? || op.CloseDeleted? || op.Invalidate? || op.Revive? || op.Protect?
             || op.Unprotect? || op.StaleDismiss?
    ensures FlagsOk(Apply(w, op, now, actor).0, now)
  {
    var v := Apply(w, op, now, actor).0;
    if op.Add? {
      forall m | m in v.mems && Flagged(v.rows, m) ensures Gone(v.mems[m], now) {
        assert m != op.id;
      }
    } else if op.CloseDeleted? {
      var moot := ClosedWhere(w.rows, (k: PairKey) => k.oldId == op.id, Obsoleted, Closure(None, Some(now)));
      QuietStep(w, w.(rows := moot), now);
      QuietStep(w.(rows := moot), v, now);
    } else {
      QuietStep(w, v, now);
    }
  }

  // ---------------------------------------------------------------------------
  // Runs
  // ---------------------------------------------------------------------------

  datatype Step = Step(op: Op, now: Time, actor: Actor)

  ghost predicate Run(ws: seq<World>, steps: seq<Step>)
  {
    && |ws| == |steps| + 1
    && forall i :: 0 <= i < |steps| ==>
         Allowed(ws[i], steps[i].op, steps[i].now) && ws[i + 1] == Apply(ws[i], steps[i].op, steps[i].now, steps[i].actor).0
  }

  /** The clock never goes back. */
  ghost predicate ClockOk(start: Time, steps: seq<Step>)
  {
    && (forall i :: 0 <= i < |steps| ==> Le(start, steps[i].now))
    && (forall i, j :: 0 <= i < j < |steps| ==> Le(steps[i].now, steps[j].now))
  }

  function TimeAt(start: Time, steps: seq<Step>, n: nat): Time
    requires n <= |steps|
  {
    if n == 0 then start else steps[n - 1].now
  }

  ghost predicate WorldOk(w: World, now: Time)
  {
    GraphOk(w.mems) && TableOk(w.rows) && FlagsOk(w, now)
  }

  lemma EmptyWorldOk(now: Time)
    ensures WorldOk(World(map[], []), now)
  {
    forall n: MemoryId, hops: nat | hops > 0 ensures !Walk(map[], n, n, hops) {
      if Walk(map[], n, n, hops) {
        var s := WalkFirst(map[], n, n, hops);
      }
    }
  }

  lemma {:induction false} RunPrefixOk(ws: seq<World>, steps: seq<Step>, start: Time, n: nat)
    requires Run(ws, steps) && ClockOk(start, steps) && WorldOk(ws[0], start) && n <= |steps|
    requires forall i :: 0 <= i < |steps| && steps[i].op.Delete? ==> steps[i].op.scanOk
    ensures WorldOk(ws[n], TimeAt(start, steps, n))
  {
    if n > 0 {
      RunPrefixOk(ws, steps, start, n - 1);
      var s := steps[n - 1];
      FlagsLater(ws[n - 1], TimeAt(start, steps, n - 1), s.now);
      ApplyKeepsGraph(ws[n - 1], s.op, s.now, s.actor);
      ApplyKeepsTable(ws[n - 1], s.op, s.now, s.actor);
      ApplyKeepsFlags(ws[n - 1], s.op, s.now, s.actor);
    }
  }

  lemma {:induction false} RunTable(ws: seq<World>, steps: seq<Step>, m: nat, n: nat)
    requires Run(ws, steps) && TableOk(ws[0].rows) && m <= n <= |steps|
    ensures TableOk(ws[n].rows) && Extends(ws[m].rows, ws[n].rows)
    decreases n
  {
    if n > 0 {
      var k := if m < n then m else n - 1;
      RunTable(ws, steps, k, n - 1);
      var s := steps[n - 1];
      ApplyKeepsTable(ws[n - 1], s.op, s.now, s.actor);
      ExtendsTransitive(ws[k].rows, ws[n - 1].rows, ws[n].rows);
    }
  }

  /** Over every run in which guard scans succeed: the supersession graph stays acyclic and free of
      dangling pointers, judgments stay unique, decisions stay final, and every open expiry flag
      belongs to an expired, stamped memory. */
  lemma RunSafe(ws: seq<World>, steps: seq<Step>, start: Time)
    requires Run(ws, steps) && ClockOk(start, steps) && WorldOk(ws[0], start)
    requires forall i :: 0 <= i < |steps| && steps[i].op.Delete? ==> steps[i].op.scanOk
    ensures forall n :: 0 <= n <= |steps| ==> WorldOk(ws[n], TimeAt(start, steps, n))
    ensures forall m, n :: 0 <= m <= n <= |steps| ==> Extends(ws[m].rows, ws[n].rows)
  {
    forall n | 0 <= n <= |steps| ensures WorldOk(ws[n], TimeAt(start, steps, n)) {
      RunPrefixOk(ws, steps, start, n);
    }
    forall m, n | 0 <= m <= n <= |steps| ensures Extends(ws[m].rows, ws[n].rows) {
      RunTable(ws, steps, m, n);
    }
  }

  /** In particular over every run that starts with nothing stored. */
  lemma RunFromNothing(ws: seq<World>, steps: seq<Step>, start: Time, n: nat)
    requires Run(ws, steps) && ClockOk(start, steps) && ws[0] == World(map[], []) && n <= |steps|
    requires forall i :: 0 <= i < |steps| && steps[i].op.Delete? ==> steps[i].op.scanOk
    ensures GraphOk(ws[n].mems) && TableOk(ws[n].rows) && FlagsOk(ws[n], TimeAt(start, steps, n))
  {
    EmptyWorldOk(start);
    RunPrefixOk(ws, steps, start, n);
  }

  // ---------------------------------------------------------------------------
  // A settled expiry is never asked about again
  // ---------------------------------------------------------------------------

  /** Steps that give `m` a new deadline or none. */
  predicate Renews(w: World, op: Op, m: MemoryId)
  {
    match op
    case Add(id, _) => id == m
    case SetTtl(id, mode) => id == m && !mode.ExpireNow?
    case StaleTtl(pairId, _) => pairId < |w.rows| && w.rows[pairId].judgment.key.oldId == m
    case _ => false
  }

  ghost predicate Settled(w: World, m: MemoryId)
  {
    m in w.mems ==> Stamped(w.mems[m])
  }

  ghost predicate NoNewFlag(before: Rows, after: Rows, m: MemoryId)
  {
    |before| <= |after| && forall i :: |before| <= i < |after| ==> !IsFlag(after[i], m)
  }

  lemma {:induction false} HarvestedSettled(w: World, scan: seq<MemoryId>, now: Time, m: MemoryId)
    requires Settled(w, m) && now != ""
    ensures Settled(Harvested(w, scan, now), m) && NoNewFlag(w.rows, Harvested(w, scan, now).rows, m)
  {
    if scan != [] {
      HarvestedSettled(w, scan[..|scan| - 1], now, m);
    }
  }

  /** The operations on one store, and the two that close a pair by dismissing or deleting. */
  lemma PlainSettled(w: World, op: Op, now: Time, actor: Actor, m: MemoryId)
    requires Settled(w, m) && Allowed(w, op, now) && !Renews(w, op, m) && TableOk(w.rows)
    requires !op.Harvest? && !op.StaleConfirm? && !op.StaleTtl? && !op.StaleMerge?
    ensures Settled(Apply(w, op, now, actor).0, m) && NoNewFlag(w.rows, Apply(w, op, now, actor).0.rows, m)
  {
  }

  lemma ConfirmSettled(w: World, pairId: nat, authorized: bool, now: Time, actor: Actor, m: MemoryId)
    requires Settled(w, m) && TableOk(w.rows) && now != ""
    ensures var v := PairConfirmed(w, pairId, authorized, now, actor).0; Settled(v, m) && NoNewFlag(w.rows, v.rows, m)
  {
    ConfirmAllOrNothing(w, pairId, authorized, now, actor);
  }

  lemma PairTtlSettled(w: World, pairId: nat, deadline: Time, now: Time, actor: Actor, m: MemoryId)
    requires Settled(w, m) && TableOk(w.rows) && !Renews(w, Op.StaleTtl(pairId, deadline), m)
    ensures var v := PairTtl(w, pairId, deadline, now, actor).0; Settled(v, m) && NoNewFlag(w.rows, v.rows, m)
  {
    PairTtlAllOrNothing(w, pairId, deadline, now, actor);
  }

  lemma MergeSettled(w: World, pairId: nat, text: string, authorized: bool, now: Time, actor: Actor, m: MemoryId)
    requires Settled(w, m) && TableOk(w.rows)
    ensures var v := PairMerged(w, pairId, text, authorized, now, actor).0; Settled(v, m) && NoNewFlag(w.rows, v.rows, m)
  {
    MergeAllOrNothing(w, pairId, text, authorized, now, actor);
  }

  lemma StepSettled(w: World, op: Op, now: Time, actor: Actor, m: MemoryId)
    requires Settled(w, m) && Allowed(w, op, now) && !Renews(w, op, m) && TableOk(w.rows)
    ensures Settled(Apply(w, op, now, actor).0, m) && NoNewFlag(w.rows, Apply(w, op, now, actor).0.rows, m)
  {
    hide Settled, NoNewFlag, TableOk, PairConfirmed, PairTtl, PairMerged;
    if op.Harvest? {
      HarvestedSettled(w, op.scan, now, m);
    } else if op.StaleConfirm? {
      ConfirmSettled(w, op.pairId, op.authorized, now, actor, m);
    } else if op.StaleTtl? {
      PairTtlSettled(w, op.pairId, op.deadline, now, actor, m);
    } else if op.StaleMerge? {
      MergeSettled(w, op.pairId, op.text, op.authorized, now, actor, m);
    } else {
      PlainSettled(w, op, now, actor, m);
    }
  }

  /** Once a memory's expiry is stamped (by harvest, by `expire_now`, by an agent's confirmation or by a
      downgraded delete), no later harvest raises a flag for it, until somebody renews its deadline. */
  lemma {:induction false} NeverReasked(ws: seq<World>, steps: seq<Step>, m: MemoryId, n: nat)
    requires Run(ws, steps) && TableOk(ws[0].rows) && n <= |steps|
    requires m in ws[0].mems && Stamped(ws[0].mems[m])
    requires forall i :: 0 <= i < n ==> !Renews(ws[i], steps[i].op, m)
    ensures Settled(ws[n], m) && NoNewFlag(ws[0].rows, ws[n].rows, m)
  {
    if n > 0 {
      NeverReasked(ws, steps, m, n - 1);
      RunTable(ws, steps, 0, n - 1);
      RunTable(ws, steps, n - 1, n);
      var s := steps[n - 1];
      StepSettled(ws[n - 1], s.op, s.now, s.actor, m);
      forall i | |ws[0].rows| <= i < |ws[n].rows| ensures !IsFlag(ws[n].rows[i], m) {
        if i < |ws[n - 1].rows| {
          assert ws[n].rows[i].judgment == ws[n - 1].rows[i].judgment;
        }
      }
    }
  }

  // ---------------------------------------------------------------------------
  // Harvest
  // ---------------------------------------------------------------------------

  /** What the bounded scan may return: expired memories, each once, at most `limit`; all of them
      when fewer than `limit` were returned. */
  ghost predicate ScanOf(g: Memories, now: Time, limit: nat, scan: seq<MemoryId>)
  {
    && |scan| <= limit && Distinct(scan)
    && (forall i :: 0 <= i < |scan| ==> scan[i] in g && TtlExpired(g[scan[i]], now))
    && (|scan| < limit ==> forall m :: m in g && TtlExpired(g[m], now) ==> m in scan)
  }

  lemma {:induction false} HarvestedDue(w: World, scan: seq<MemoryId>, now: Time, m: MemoryId)
    requires now != ""
    ensures Due(Harvested(w, scan, now).mems, m, now) <==> Due(w.mems, m, now) && m !in scan
    ensures m in Harvested(w, scan, now).mems <==> m in w.mems
    ensures m in w.mems ==>
              && (forall t :: InPool(Harvested(w, scan, now).mems[m], t) <==> InPool(w.mems[m], t))
              && Data(Harvested(w, scan, now).mems[m]) == Data(w.mems[m])
  {
    if scan != [] {
      HarvestedDue(w, scan[..|scan| - 1], now, m);
      assert scan == scan[..|scan| - 1] + [scan[|scan| - 1]];
    }
  }

  /** A harvest never changes which memories default search may return, at any time. */
  lemma HarvestKeepsPool(w: World, scan: seq<MemoryId>, now: Time)
    requires now != ""
    ensures Harvested(w, scan, now).mems.Keys == w.mems.Keys
    ensures forall m, t :: m in w.mems ==> (InPool(Harvested(w, scan, now).mems[m], t) <==> InPool(w.mems[m], t))
  {
    forall m ensures (m in Harvested(w, scan, now).mems <==> m in w.mems) &&
                     (m in w.mems ==> forall t :: InPool(Harvested(w, scan, now).mems[m], t) <==> InPool(w.mems[m], t)) {
      HarvestedDue(w, scan, now, m);
    }
  }

  lemma {:induction false} NothingDueNothingDone(w: World, scan: seq<MemoryId>, now: Time)
    requires forall i :: 0 <= i < |scan| ==> !Due(w.mems, scan[i], now)
    ensures Harvested(w, scan, now) == w
  {
    if scan != [] {
      NothingDueNothingDone(w, scan[..|scan| - 1], now);
    }
  }

  /** A second harvest at the same time does nothing exactly when everything due in its scan was in the
      first scan as well. */
  lemma SecondHarvestIdle(w: World, scan: seq<MemoryId>, again: seq<MemoryId>, now: Time)
    requires now != ""
    ensures Harvested(Harvested(w, scan, now), again, now) == Harvested(w, scan, now) <==>
            forall i :: 0 <= i < |again| && Due(w.mems, again[i], now) ==> again[i] in scan
  {
    var v := Harvested(w, scan, now);
    forall m ensures Due(v.mems, m, now) <==> Due(w.mems, m, now) && m !in scan {
      HarvestedDue(w, scan, now, m);
    }
    if forall i :: 0 <= i < |again| && Due(w.mems, again[i], now) ==> again[i] in scan {
      NothingDueNothingDone(v, again, now);
    } else {
      var i :| 0 <= i < |again| && Due(w.mems, again[i], now) && again[i] !in scan;
      HarvestedDue(v, again, now, again[i]);
    }
  }

  /** In particular after a scan that stayed below its limit. */
  lemma CompleteHarvestIsFinal(w: World, limit: nat, scan: seq<MemoryId>, again: seq<MemoryId>, now: Time)
    requires now != "" && ScanOf(w.mems, now, limit, scan) && |scan| < limit
    ensures Harvested(Harvested(w, scan, now), again, now) == Harvested(w, scan, now)
  {
    SecondHarvestIdle(w, scan, again, now);
  }

  /** The limit counts memories that were stamped long ago: as soon as `limit` of them exist, a scan may
      consist of them alone, and then the harvest does nothing however many memories are due. */
  lemma HarvestMayStarve(w: World, limit: nat, stamped: seq<MemoryId>, now: Time)
    requires |stamped| == limit && Distinct(stamped)
    requires forall i :: 0 <= i < |stamped| ==>
               stamped[i] in w.mems && TtlExpired(w.mems[stamped[i]], now) && Stamped(w.mems[stamped[i]])
    ensures ScanOf(w.mems, now, limit, stamped) && Harvested(w, stamped, now) == w
  {
    NothingDueNothingDone(w, stamped, now);
  }

  /** Afterwards, for each memory that was due and scanned: it is stamped, its judgment for this text and
      deadline exists, every open pair aimed at it is that judgment, and it is open if it is new. */
  ghost predicate FlagRaised(w: World, v: World, m: MemoryId, now: Time)
    requires Due(w.mems, m, now)
  {
    var key := FlagKey(m, w.mems[m].data, w.mems[m].ttlExpiresAt.value);
    && m in v.mems && v.mems[m] == w.mems[m].(ttlExpiredAt := Some(now))
    && HasKey(v.rows, key)
    && (forall i :: 0 <= i < |v.rows| && v.rows[i].disposition.Open? && v.rows[i].judgment.key.oldId == m
          ==> v.rows[i].judgment.key == key)
    && (!HasKey(w.rows, key) ==>
          exists i :: |w.rows| <= i < |v.rows| && v.rows[i].disposition.Open? && v.rows[i].judgment.key == key)
  }

  /** Harvesting other memories does not disturb `m`. */
  lemma OtherHarvest(w: World, id: MemoryId, now: Time, m: MemoryId)
    requires id != m || !Due(w.mems, id, now)
    ensures var v := HarvestedOne(w, id, now);
            && (m in v.mems <==> m in w.mems) && (m in w.mems ==> v.mems[m] == w.mems[m])
            && |w.rows| <= |v.rows|
            && (forall i :: 0 <= i < |w.rows| ==> v.rows[i].judgment == w.rows[i].judgment)
            && (forall i :: 0 <= i < |w.rows| && w.rows[i].judgment.key.oldId == m ==> v.rows[i] == w.rows[i])
            && (forall i :: |w.rows| <= i < |v.rows| ==> v.rows[i].judgment.key.oldId != m)
  {
  }

  lemma OwnHarvest(w: World, now: Time, m: MemoryId)
    requires Due(w.mems, m, now)
    ensures FlagRaised(w, HarvestedOne(w, m, now), m, now)
  {
    var v := HarvestedOne(w, m, now);
    var key := FlagKey(m, w.mems[m].data, w.mems[m].ttlExpiresAt.value);
    var closed := ClosedForOld(w.rows, m, None, Expired, Closure(None, Some(now)));
    assert forall i :: 0 <= i < |closed| ==> closed[i].judgment == w.rows[i].judgment;
    assert HasKey(closed, key) <==> HasKey(w.rows, key);
    if !HasKey(closed, key) {
      assert v.rows[|closed|].judgment.key == key && v.rows[|closed|].disposition.Open?;
    }
  }

  lemma {:induction false} HarvestRaisesFlag(w: World, scan: seq<MemoryId>, now: Time, m: MemoryId)
    requires now != "" && Due(w.mems, m, now)
    ensures m in scan ==> FlagRaised(w, Harvested(w, scan, now), m, now)
    ensures m !in scan ==>
              var v := Harvested(w, scan, now);
              && m in v.mems && v.mems[m] == w.mems[m] && |w.rows| <= |v.rows|
              && (forall i :: 0 <= i < |w.rows| ==> v.rows[i].judgment == w.rows[i].judgment)
              && (forall i :: |w.rows| <= i < |v.rows| ==> v.rows[i].judgment.key.oldId != m)
  {
    if scan != [] {
      var rest, id := scan[..|scan| - 1], scan[|scan| - 1];
      assert scan == rest + [id];
      HarvestRaisesFlag(w, rest, now, m);
      var v := Harvested(w, rest, now);
      if id == m && m !in rest {
        OwnHarvest(v, now, m);
        var key := FlagKey(m, w.mems[m].data, w.mems[m].ttlExpiresAt.value);
        assert HasKey(v.rows, key) <==> HasKey(w.rows, key);
      } else {
        OtherHarvest(v, id, now, m);
        if m in rest {
          FlagSurvives(w, v, HarvestedOne(v, id, now), m, now);
        }
      }
    }
  }

  lemma FlagSurvives(w: World, v: World, u: World, m: MemoryId, now: Time)
    requires Due(w.mems, m, now) && FlagRaised(w, v, m, now)
    requires m in u.mems && u.mems[m] == v.mems[m] && |v.rows| <= |u.rows|
    requires forall i :: 0 <= i < |v.rows| ==> u.rows[i].judgment == v.rows[i].judgment
    requires forall i :: 0 <= i < |v.rows| && v.rows[i].judgment.key.oldId == m ==> u.rows[i] == v.rows[i]
    requires forall i :: |v.rows| <= i < |u.rows| ==> u.rows[i].judgment.key.oldId != m
    ensures FlagRaised(w, u, m, now)
  {
    var key := FlagKey(m, w.mems[m].data, w.mems[m].ttlExpiresAt.value);
    var k :| 0 <= k < |v.rows| && v.rows[k].judgment.key == key;
    assert u.rows[k].judgment.key == key;
    if !HasKey(w.rows, key) {
      var i :| |w.rows| <= i < |v.rows| && v.rows[i].disposition.Open? && v.rows[i].judgment.key == key;
      assert u.rows[i] == v.rows[i];
    }
  }

  // ---------------------------------------------------------------------------
  // One flag per memory, text and deadline
  // ---------------------------------------------------------------------------

  predicate SeparatorAt(s: string, i: nat)
  {
    i + 1 < |s| && s[i] == '@' && s[i + 1] == '@'
  }

  /** The deadline begins with an `@`, or holds a separator of its own. */
  predicate Splits(deadline: Time)
  {
    exists k :: 0 < k <= |deadline| && SeparatorAt("@@" + deadline, k)
  }

  /** Two different pairs of text and deadline behind one salted text; the second deadline is the shorter. */
  predicate Shares(text: string, deadline: Time, text': string, deadline': Time)
  {
    Salted(text, deadline) == Salted(text', deadline') && |deadline'| < |deadline|
  }

  lemma SharedSplits(text: string, deadline: Time, text': string, deadline': Time)
    requires Shares(text, deadline, text', deadline')
    ensures Splits(deadline)
  {
    var s, k := Salted(text, deadline), |text'| - |text|;
    assert "@@" + deadline == s[|text|..];
    assert s[|text'|] == '@' && s[|text'| + 1] == '@';
    assert SeparatorAt("@@" + deadline, k);
  }

  lemma SplitsShare(text: string, deadline: Time, k: nat)
    requires 0 < k <= |deadline| && SeparatorAt("@@" + deadline, k)
    ensures var s := Salted(text, deadline); Shares(text, deadline, s[..|text| + k], s[|text| + k + 2..])
  {
    var s, u, n := Salted(text, deadline), "@@" + deadline, |text| + k;
    assert u == s[|text|..];
    assert s[n] == u[k] && s[n + 1] == u[k + 1];
    assert s == s[..n] + "@@" + s[n + 2..];
  }

  /** A deadline shares its flags with a shorter one exactly when it splits. */
  lemma SaltExact(text: string, deadline: Time)
    ensures Splits(deadline) <==> exists text', deadline' :: Shares(text, deadline, text', deadline')
  {
    if Splits(deadline) {
      var k :| 0 < k <= |deadline| && SeparatorAt("@@" + deadline, k);
      SplitsShare(text, deadline, k);
    }
    if text', deadline' :| Shares(text, deadline, text', deadline') {
      SharedSplits(text, deadline, text', deadline');
    }
  }

  /** Among deadlines that do not split, equal salted texts have equal texts and deadlines. */
  lemma SaltInjective(text: string, deadline: Time, text': string, deadline': Time)
    requires !Splits(deadline) && !Splits(deadline')
    requires Salted(text, deadline) == Salted(text', deadline')
    ensures text == text' && deadline == deadline'
  {
    var s := Salted(text, deadline);
    if |deadline'| < |deadline| {
      SharedSplits(text, deadline, text', deadline');
    } else if |deadline| < |deadline'| {
      SharedSplits(text', deadline', text, deadline);
    } else {
      assert s[..|text|] == text && s[..|text|] == text';
      assert s[|text| + 2..] == deadline && s[|text| + 2..] == deadline';
    }
  }

  /** A deadline that is printed from a moment, as `set_ttl` does for a number of days, does not split. */
  lemma PrintedNeverSplits(t: Instant)
    ensures !Splits(Iso(t))
  {
    NoAtSign(t);
    var u := "@@" + Iso(t);
    assert forall i :: 0 <= i < |Iso(t)| ==> u[i + 2] == Iso(t)[i];
    forall k | 0 < k <= |Iso(t)| ensures !SeparatorAt(u, k) {
      assert u[k + 1] == Iso(t)[k - 1];
    }
  }

  lemma NoAtSign(t: Instant)
    ensures forall i :: 0 <= i < |Iso(t)| ==> Iso(t)[i] != '@'
  {
    assert forall i :: 0 <= i < |ToSecond(t)| ==> ToSecond(t)[i] != '@';
    assert forall i :: 0 <= i < |Fraction(t.micro)| ==> Fraction(t.micro)[i] != '@';
  }

  /** Harvesting a memory that is due stamps it, leaves no other pair aimed at it open, and adds a flag exactly
      when no row has its key yet. */
  lemma FlagAddedExactly(w: World, m: MemoryId, now: Time)
    requires Due(w.mems, m, now)
    ensures var v := HarvestedOne(w, m, now); var key := FlagKey(m, w.mems[m].data, w.mems[m].ttlExpiresAt.value);
            && v.mems[m] == w.mems[m].(ttlExpiredAt := Some(now))
            && |v.rows| == |w.rows| + (if HasKey(w.rows, key) then 0 else 1)
            && (HasKey(w.rows, key) ==> forall i :: 0 <= i < |v.rows| && v.rows[i].disposition.Open? ==> v.rows[i].judgment.key.oldId != m)
  {
    var key := FlagKey(m, w.mems[m].data, w.mems[m].ttlExpiresAt.value);
    var closed := ClosedForOld(w.rows, m, None, Expired, Closure(None, Some(now)));
    assert forall i :: 0 <= i < |closed| ==> closed[i].judgment == w.rows[i].judgment;
    assert HasKey(closed, key) <==> HasKey(w.rows, key);
  }

  /** What sharing a key costs: a memory that was harvested once, then rewritten and given a deadline so that
      text and deadline salt to the same, is stamped by its next harvest without any flag, new or open. Neither
      `set_ttl` nor the daemon looks at the deadline it is given. */
  lemma SharedFlagSkipped(w: World, m: MemoryId, now: Time, text: string, deadline: Time, later: Time, actor: Actor)
    requires Due(w.mems, m, now) && Salted(w.mems[m].data, w.mems[m].ttlExpiresAt.value) == Salted(text, deadline)
    requires deadline != "" && Le(deadline, later)
    ensures var v := HarvestedOne(w, m, now);
            var u := TtlSet(Updated(v, m, text, later).0, m, ExpiresAt(deadline), later, actor).0;
            var z := HarvestedOne(u, m, later);
            && Due(u.mems, m, later) && z.mems[m] == u.mems[m].(ttlExpiredAt := Some(later)) && |z.rows| == |u.rows|
            && forall i :: 0 <= i < |z.rows| && z.rows[i].disposition.Open? ==> z.rows[i].judgment.key.oldId != m
  {
    var v := HarvestedOne(w, m, now);
    var u1 := Updated(v, m, text, later).0;
    var u := TtlSet(u1, m, ExpiresAt(deadline), later, actor).0;
    var key := FlagKey(m, text, deadline);
    OwnHarvest(w, now, m);
    assert HasKey(v.rows, key);
    assert forall i :: 0 <= i < |v.rows| ==> u1.rows[i].judgment == v.rows[i].judgment;
    assert forall i :: 0 <= i < |u1.rows| ==> u.rows[i].judgment == u1.rows[i].judgment;
    var k :| 0 <= k < |v.rows| && v.rows[k].judgment.key == key;
    assert u.rows[k].judgment.key == key;
    FlagAddedExactly(u, m, later);
  }

  /** Over a whole run there is at most one flag row for each memory, text and deadline, whatever
      became of it in the meantime. */
  lemma OneFlagPerDeadline(ws: seq<World>, steps: seq<Step>, a: nat, b: nat, i: nat, j: nat,
                           m: MemoryId, text: string, deadline: Time)
    requires Run(ws, steps) && TableOk(ws[0].rows) && a <= b <= |steps|
    requires i < |ws[a].rows| && ws[a].rows[i].judgment.key == FlagKey(m, text, deadline)
    requires j < |ws[b].rows| && ws[b].rows[j].judgment.key == FlagKey(m, text, deadline)
    ensures i == j
  {
    RunTable(ws, steps, a, b);
    assert ws[b].rows[i].judgment == ws[a].rows[i].judgment;
  }
}
