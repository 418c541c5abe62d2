/** What every operation keeps, and what holds over every run of operations. */
module LifecycleInvariants {
  import opened Strings
  import opened Supersession
  import opened PairStore
  import opened Lifecycle

  // ---------------------------------------------------------------------------
  // The graph: acyclic, no dangling pointer
  // ---------------------------------------------------------------------------

  ghost predicate GraphOk(g: Memories)
  {
    Acyclic(g) && NoDangling(g)
  }

  /** Patching a memory without adding pointers keeps the graph sound. */
  lemma PatchKeepsGraph(g: Memories, id: MemoryId, p: Payload)
    requires GraphOk(g)
    requires forall s :: s in SupersededIds(p) ==> s in Successors(g, id)
    ensures GraphOk(g[id := p])
  {
    FewerPointersKeepAcyclic(g, g[id := p]);
  }

  lemma RemovalKeepsGraph(g: Memories, id: MemoryId)
    requires GraphOk(g) && !Supersedes(g, id)
    ensures GraphOk(g - {id})
  {
    FewerPointersKeepAcyclic(g, g - {id});
  }

  lemma {:induction false} DedupedMeaning(ids: seq<MemoryId>, seen: set<MemoryId>)
    ensures forall x :: x in Deduped(ids, seen) <==> x in ids && x != "" && x !in seen
    ensures Distinct(Deduped(ids, seen))
  {
    if ids != [] {
      assert ids == [ids[0]] + ids[1..];
      if ids[0] == "" || ids[0] in seen {
        DedupedMeaning(ids[1..], seen);
      } else {
        DedupedMeaning(ids[1..], seen + {ids[0]});
      }
    }
  }

  /** A successful invalidation keeps the graph sound: the bounded search proved the target
      unreachable from its superseders. */
  lemma InvalidatedKeepsGraph(w: World, id: MemoryId, byIds: seq<MemoryId>, now: Time, actor: Actor)
    requires GraphOk(w.mems)
    ensures GraphOk(Invalidated(w, id, byIds, now, actor).0.mems)
  {
    var g, successors := w.mems, Deduped(byIds, {});
    if InvalidateError(g, id, successors).None? {
      var h := g[id := Superseded(g[id], successors, now)];
      CheckNoCycleExact(g, id, successors);
      forall b, k: nat | b in successors ensures !Walk(g, b, id, k) {
        if Walk(g, b, id, k) {
          WalkIsReach(g, Elements(successors), b, id, k);
        }
      }
      RepointKeepsAcyclic(g, h, id, successors);
      assert forall s :: s in successors ==> s in g;
    }
  }

  /** Hard deletion leaves a dangling pointer exactly when the guard's scan failed on a memory
      that supersedes others and is not superseded itself. */
  lemma DeletedKeepsGraph(w: World, id: MemoryId, scanOk: bool, now: Time, actor: Actor)
    requires GraphOk(w.mems)
    ensures GraphOk(Deleted(w, id, scanOk, now, actor).0.mems) <==>
            !(!scanOk && id in w.mems && SupersededIds(w.mems[id]) == [] && Supersedes(w.mems, id))
  {
    var g := w.mems;
    if Guarded(g, id, scanOk) {
      PatchKeepsGraph(g, id, TtlPatched(g[id], ExpireNow, now));
    } else if id in g {
      if Supersedes(g, id) {
        var n :| n in g && id in SupersededIds(g[n]);
        assert Walk(g, id, id, 0);
        WalkStep(g, n, id);
        assert n != id;
        assert !NoDangling(g - {id}) by {
          assert n in g - {id} && id in SupersededIds((g - {id})[n]);
        }
      } else {
        RemovalKeepsGraph(g, id);
      }
    }
  }

  lemma {:induction false} HarvestedKeepsGraph(w: World, scan: seq<MemoryId>, now: Time)
    requires GraphOk(w.mems)
    ensures GraphOk(Harvested(w, scan, now).mems)
  {
    if scan != [] {
      HarvestedKeepsGraph(w, scan[..|scan| - 1], now);
      var v, id := Harvested(w, scan[..|scan| - 1], now), scan[|scan| - 1];
      if Due(v.mems, id, now) {
        PatchKeepsGraph(v.mems, id, v.mems[id].(ttlExpiredAt := Some(now)));
      }
    }
  }

  lemma TtlSetKeepsGraph(w: World, id: MemoryId, mode: TtlMode, now: Time, actor: Actor)
    requires GraphOk(w.mems)
    ensures GraphOk(TtlSet(w, id, mode, now, actor).0.mems)
  {
    if id in w.mems {
      PatchKeepsGraph(w.mems, id, TtlPatched(w.mems[id], mode, now));
    }
  }

  lemma UpdatedKeepsGraph(w: World, id: MemoryId, text: string, now: Time)
    requires GraphOk(w.mems)
    ensures GraphOk(Updated(w, id, text, now).0.mems)
  {
    if id in w.mems {
      PatchKeepsGraph(w.mems, id, Updated(w, id, text, now).0.mems[id]);
    }
  }

  /** The two follow-ups of a confirmed pair. */
  lemma ConfirmKeepsGraph(w: World, pairId: nat, now: Time, actor: Actor)
    requires GraphOk(w.mems) && OpenPair(w, pairId)
    ensures var key := w.rows[pairId].judgment.key;
            var d := w.(rows := Disposed(w.rows, pairId, Confirmed, Closure(actor, Some(now))));
            && GraphOk(TtlSet(d, key.oldId, ExpireNow, now, actor).0.mems)
            && GraphOk(Invalidated(d, key.oldId, [key.newId], now, actor).0.mems)
  {
    hide GraphOk;
    var key := w.rows[pairId].judgment.key;
    var d := w.(rows := Disposed(w.rows, pairId, Confirmed, Closure(actor, Some(now))));
    TtlSetKeepsGraph(d, key.oldId, ExpireNow, now, actor);
    InvalidatedKeepsGraph(d, key.oldId, [key.newId], now, actor);
  }

  /** The rewritten text of a merged pair, and its invalidation. */
  lemma MergeKeepsGraph(w: World, pairId: nat, text: string, now: Time, actor: Actor)
    requires GraphOk(w.mems) && OpenPair(w, pairId)
    ensures var key := w.rows[pairId].judgment.key; var u := Updated(w, key.newId, text, now).0;
            var d := u.(rows := Disposed(u.rows, pairId, Merged, Closure(actor, Some(now))));
            GraphOk(u.mems) && GraphOk(Invalidated(d, key.oldId, [key.newId], now, actor).0.mems)
  {
    hide GraphOk;
    var key := w.rows[pairId].judgment.key;
    var u := Updated(w, key.newId, text, now).0;
    UpdatedKeepsGraph(w, key.newId, text, now);
    InvalidatedKeepsGraph(u.(rows := Disposed(u.rows, pairId, Merged, Closure(actor, Some(now)))),
                          key.oldId, [key.newId], now, actor);
  }

  /** Every step keeps the graph sound, provided a delete's guard scan succeeds. */
  lemma ApplyKeepsGraph(w: World, op: Op, now: Time, actor: Actor)
    requires GraphOk(w.mems) && Allowed(w, op, now) && (op.Delete? ==> op.scanOk)
    ensures GraphOk(Apply(w, op, now, actor).0.mems)
  {
    hide GraphOk, Invalidated, TtlSet, Updated, Deleted, Harvested, Strip, ProtectionEligible, ProtectionFault;
    match op
    case Add(id, data) => PatchKeepsGraph(w.mems, id, Payload(data, [], None, None, None, None));
    case Update(id, data) => UpdatedKeepsGraph(w, id, data, now);
    case Delete(id, scanOk) => DeletedKeepsGraph(w, id, scanOk, now, actor);
    case CloseDeleted(id) =>
    case Invalidate(id, byIds) => InvalidatedKeepsGraph(w, id, byIds, now, actor);
    case Revive(id) =>
      if id in w.mems && SupersededIds(w.mems[id]) != [] {
        PatchKeepsGraph(w.mems, id, Revived(w, id).0.mems[id]);
      }
    case SetTtl(id, mode) => TtlSetKeepsGraph(w, id, mode, now, actor);
    case Harvest(scan) => HarvestedKeepsGraph(w, scan, now);
    case Protect(id, protection) =>
      if Protected(w, id, protection, now).1.Done? {
        PatchKeepsGraph(w.mems, id, Protected(w, id, protection, now).0.mems[id]);
      }
    case Unprotect(id) =>
      if id in w.mems {
        PatchKeepsGraph(w.mems, id, Unprotected(w, id).0.mems[id]);
      }
    case Judge(j) =>
    case StaleConfirm(pairId, authorized) =>
      if OpenPair(w, pairId) {
        ConfirmKeepsGraph(w, pairId, now, actor);
      }
    case StaleTtl(pairId, deadline) =>
      if OpenPair(w, pairId) {
        var d := w.(rows := Disposed(w.rows, pairId, Ttl, Closure(actor, Some(now))));
        TtlSetKeepsGraph(d, w.rows[pairId].judgment.key.oldId, ExpiresAt(deadline), now, actor);
      }
    case StaleDismiss(pairId, authorized) =>
    case StaleMerge(pairId, text, authorized) =>
      if OpenPair(w, pairId) {
        MergeKeepsGraph(w, pairId, text, now, actor);
      }
  }

  // ---------------------------------------------------------------------------
  // The table: unique judgments, final decisions
  // ---------------------------------------------------------------------------

  ghost predicate TableStep(before: Rows, after: Rows)
  {
    TableOk(after) && Extends(before, after)
  }

  lemma TableStepTransitive(a: Rows, b: Rows, c: Rows)
    requires TableStep(a, b) && TableStep(b, c)
    ensures TableStep(a, c)
  {
    ExtendsTransitive(a, b, c);
  }

  lemma {:induction false} HarvestedKeepsTable(w: World, scan: seq<MemoryId>, now: Time)
    requires TableOk(w.rows)
    ensures TableStep(w.rows, Harvested(w, scan, now).rows)
  {
    if scan != [] {
      HarvestedKeepsTable(w, scan[..|scan| - 1], now);
      var v, id := Harvested(w, scan[..|scan| - 1], now), scan[|scan| - 1];
      if Due(v.mems, id, now) {
        var c := Closure(None, Some(now));
        ClosedWhereOk(v.rows, Targets(id, None), Expired, c);
        var closed := ClosedForOld(v.rows, id, None, Expired, c);
        RecordedOk(closed, FlagOf(v.mems, id, now));
        TableStepTransitive(v.rows, closed, Harvested(w, scan, now).rows);
        TableStepTransitive(w.rows, v.rows, Harvested(w, scan, now).rows);
      }
    }
  }

  lemma InvalidatedKeepsTable(w: World, id: MemoryId, byIds: seq<MemoryId>, now: Time, actor: Actor)
    requires TableOk(w.rows)
    ensures TableStep(w.rows, Invalidated(w, id, byIds, now, actor).0.rows)
  {
    ClosedWhereOk(w.rows, Targets(id, None), Obsoleted, Closure(actor, Some(now)));
  }

  lemma TtlSetKeepsTable(w: World, id: MemoryId, mode: TtlMode, now: Time, actor: Actor)
    requires TableOk(w.rows)
    ensures TableStep(w.rows, TtlSet(w, id, mode, now, actor).0.rows)
  {
    ClosedWhereOk(w.rows, Targets(id, Some(TtlExpiry)), Ttl, Closure(actor, Some(now)));
  }

  lemma UpdatedKeepsTable(w: World, id: MemoryId, text: string, now: Time)
    requires TableOk(w.rows)
    ensures TableStep(w.rows, Updated(w, id, text, now).0.rows)
  {
    ClosedWhereOk(w.rows, (k: PairKey) => k.oldId == id && k.oldTextHash != Sha256(text), Expired, Closure(None, Some(now)));
  }

  /** A dispose-mutate-reopen sequence keeps the table whenever the mutation does. */
  lemma RollbackKeepsTable(w: World, pairId: nat, d: Disposition, now: Time, actor: Actor,
                           mutate: World -> (World, Outcome))
    requires TableOk(w.rows) && Disposable(d)
    requires var v := w.(rows := Disposed(w.rows, pairId, d, Closure(actor, Some(now))));
             TableStep(v.rows, mutate(v).0.rows)
    ensures TableStep(w.rows, WithRollback(w, pairId, d, now, actor, mutate).0.rows)
  {
    var v := w.(rows := Disposed(w.rows, pairId, d, Closure(actor, Some(now))));
    DisposedOk(w.rows, pairId, d, Closure(actor, Some(now)));
    var m := mutate(v).0;
    TableStepTransitive(w.rows, v.rows, m.rows);
    ReopenedOk(m.rows, pairId);
    ExtendsTransitive(w.rows, m.rows, Reopened(m.rows, pairId));
  }

  lemma ApplyKeepsTable(w: World, op: Op, now: Time, actor: Actor)
    requires TableOk(w.rows)
    ensures TableStep(w.rows, Apply(w, op, now, actor).0.rows)
  {
    match op
    case Add(_, _) =>
    case Update(id, data) => UpdatedKeepsTable(w, id, data, now);
    case Delete(id, scanOk) => TtlSetKeepsTable(w, id, ExpireNow, now, actor);
    case CloseDeleted(id) => ClosedForDeletedOk(w.rows, id, now);
    case Invalidate(id, byIds) => InvalidatedKeepsTable(w, id, byIds, now, actor);
    case Revive(_) =>
    case SetTtl(id, mode) => TtlSetKeepsTable(w, id, mode, now, actor);
    case Harvest(scan) => HarvestedKeepsTable(w, scan, now);
    case Protect(_, _) =>
    case Unprotect(_) =>
    case Judge(j) => RecordedOk(w.rows, j);
    case StaleConfirm(pairId, authorized) => ConfirmedKeepsTable(w, pairId, authorized, now, actor);
    case StaleTtl(pairId, deadline) => PairTtlKeepsTable(w, pairId, deadline, now, actor);
    case StaleDismiss(pairId, _) => DisposedOk(w.rows, pairId, Dismissed, Closure(actor, Some(now)));
    case StaleMerge(pairId, text, authorized) => MergedKeepsTable(w, pairId, text, authorized, now, actor);
  }

  lemma ConfirmedKeepsTable(w: World, pairId: nat, authorized: bool, now: Time, actor: Actor)
    requires TableOk(w.rows)
    ensures TableStep(w.rows, PairConfirmed(w, pairId, authorized, now, actor).0.rows)
  {
    if OpenPair(w, pairId) {
      var key := w.rows[pairId].judgment.key;
      var v := w.(rows := Disposed(w.rows, pairId, Confirmed, Closure(actor, Some(now))));
      DisposedOk(w.rows, pairId, Confirmed, Closure(actor, Some(now)));
      TtlSetKeepsTable(v, key.oldId, ExpireNow, now, actor);
      InvalidatedKeepsTable(v, key.oldId, [key.newId], now, actor);
      RollbackKeepsTable(w, pairId, Confirmed, now, actor, (x: World) => ConfirmMutation(x, key, now, actor));
    }
  }

  lemma PairTtlKeepsTable(w: World, pairId: nat, deadline: Time, now: Time, actor: Actor)
    requires TableOk(w.rows)
    ensures TableStep(w.rows, PairTtl(w, pairId, deadline, now, actor).0.rows)
  {
    if OpenPair(w, pairId) {
      var key := w.rows[pairId].judgment.key;
      var v := w.(rows := Disposed(w.rows, pairId, Ttl, Closure(actor, Some(now))));
      DisposedOk(w.rows, pairId, Ttl, Closure(actor, Some(now)));
      TtlSetKeepsTable(v, key.oldId, ExpiresAt(deadline), now, actor);
      RollbackKeepsTable(w, pairId, Ttl, now, actor, (x: World) => TtlSet(x, key.oldId, ExpiresAt(deadline), now, actor));
    }
  }

  lemma MergedKeepsTable(w: World, pairId: nat, text: string, authorized: bool, now: Time, actor: Actor)
    requires TableOk(w.rows)
    ensures TableStep(w.rows, PairMerged(w, pairId, text, authorized, now, actor).0.rows)
  {
    if OpenPair(w, pairId) {
      var key := w.rows[pairId].judgment.key;
      var u := Updated(w, key.newId, text, now).0;
      UpdatedKeepsTable(w, key.newId, text, now);
      var v := u.(rows := Disposed(u.rows, pairId, Merged, Closure(actor, Some(now))));
      DisposedOk(u.rows, pairId, Merged, Closure(actor, Some(now)));
      InvalidatedKeepsTable(v, key.oldId, [key.newId], now, actor);
      RollbackKeepsTable(u, pairId, Merged, now, actor, (x: World) => Invalidated(x, key.oldId, [key.newId], now, actor));
      TableStepTransitive(w.rows, u.rows, WithRollback(u, pairId, Merged, now, actor,
                          (x: World) => Invalidated(x, key.oldId, [key.newId], now, actor)).0.rows);
    }
  }

  /** A memory is protected exactly when it is live, the request is within its bounds (a reason of at most 500
      characters, at most 90 days, an agent and a session), and the latest three suspicions ever opened on
      this text are all dismissed; otherwise nothing changes. */
  lemma ProtectedExactly(w: World, id: MemoryId, p: Protection, now: Time)
    requires TableOk(w.rows)
    ensures Protected(w, id, p, now).1.Done? <==>
              && id in w.mems && SupersededIds(w.mems[id]) == [] && !TtlExpired(w.mems[id], now)
              && 0 < |Strip(p.reason)| <= 500 && 0.0 < p.days <= 90.0
              && Strip(p.agent) != "" && Strip(p.session) != ""
              && var ids := LatestEvidence(w.rows, id, Data(w.mems[id]), REQUIRED_FALSE_POSITIVES);
              |ids| == 3 && AllDismissed(w.rows, ids)
    ensures var t := Protected(w, id, p, now).0;
            && t.rows == w.rows && (forall m :: m in w.mems && m != id ==> m in t.mems && t.mems[m] == w.mems[m])
            && (Protected(w, id, p, now).1.Raised? ==> t == w)
  {
    if id in w.mems {
      EligibleExactly(w.rows, id, Data(w.mems[id]));
    }
  }
}
