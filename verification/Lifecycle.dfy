/** Every operation that changes the memory store or the suspicion-pair table, as one
    atomic step on both (src/memline/staleness.py, src/memline/ops.py, src/memline/cli/stale.py). */
module Lifecycle {
  import opened Strings
  import opened Supersession
  import opened PairStore

  datatype World = World(mems: Memories, rows: Rows)

  datatype Error =
    | MemoryNotFound | NoSuperseder | SelfSuperseded | AlreadyInvalidated | SupersederNotFound
    | CreatesCycle | ChainTooDeep | NotInvalidated | CannotProtect
    | NoReason | ReasonTooLong | DaysOutOfBounds | NoProtector | NotEligible | PairNotOpen | WrongKind | NotAuthorized

  datatype Outcome = Done | Raised(error: Error)

  type Actor = Option<string>

  /** A request to protect a memory from displacement: how long, why, and who asks. */
  datatype Protection = Protection(until: Time, days: real, reason: string, agent: string, session: string)

  datatype TtlMode = Clear | ExpireNow | ExpiresAt(deadline: Time)

  datatype Op =
    | Add(id: MemoryId, data: string)
    | Update(id: MemoryId, data: string)
    | Delete(id: MemoryId, scanOk: bool)
    | CloseDeleted(id: MemoryId)
    | Invalidate(id: MemoryId, byIds: seq<MemoryId>)
    | Revive(id: MemoryId)
    | SetTtl(id: MemoryId, mode: TtlMode)
    | Harvest(scan: seq<MemoryId>)
    | Protect(id: MemoryId, protection: Protection)
    | Unprotect(id: MemoryId)
    | Judge(judgment: Judgment)
    | StaleConfirm(pairId: nat, authorized: bool)
    | StaleTtl(pairId: nat, deadline: Time)
    | StaleDismiss(pairId: nat, authorized: bool)
    | StaleMerge(pairId: nat, text: string, authorized: bool)

  // ---------------------------------------------------------------------------
  // Payload facts
  // ---------------------------------------------------------------------------

  /** Patching a bare point gives it a payload. */
  function Present(p: Payload): (r: Payload)
    ensures r.Payload?
  {
    if p.Empty? then Payload("", [], None, None, None, None) else p
  }

  function Data(p: Payload): string
  {
    if p.Empty? then "" else p.data
  }

  /** The lazy deadline check: a plain comparison of two texts. */
  predicate TtlExpired(p: Payload, now: Time)
  {
    p.Payload? && p.ttlExpiresAt.Some? && p.ttlExpiresAt.value != "" && Le(p.ttlExpiresAt.value, now)
  }

  predicate Stamped(p: Payload)
  {
    p.Payload? && p.ttlExpiredAt.Some? && p.ttlExpiredAt.value != ""
  }

  /** Default search keeps exactly these memories. */
  predicate InPool(p: Payload, now: Time)
  {
    SupersededIds(p) == [] && !TtlExpired(p, now)
  }

  /** Text of the expiry flag: salted with the deadline. */
  function Salted(text: string, deadline: Time): string
  {
    text + "@@" + deadline
  }

  function FlagKey(id: MemoryId, text: string, deadline: Time): PairKey
  {
    PairKey(TtlExpiry, id, id, Sha256(Salted(text, deadline)))
  }

  // ---------------------------------------------------------------------------
  // The operations
  // ---------------------------------------------------------------------------

  /** First occurrences, empty ids dropped. */
  function Deduped(ids: seq<MemoryId>, seen: set<MemoryId>): seq<MemoryId>
  {
    if ids == [] then []
    else if ids[0] == "" || ids[0] in seen then Deduped(ids[1..], seen)
    else [ids[0]] + Deduped(ids[1..], seen + {ids[0]})
  }

  function InvalidateError(g: Memories, id: MemoryId, successors: seq<MemoryId>): Option<Error>
  {
    if successors == [] then Some(NoSuperseder)
    else if id in successors then Some(SelfSuperseded)
    else if id !in g then Some(MemoryNotFound)
    else if SupersededIds(g[id]) != [] then Some(AlreadyInvalidated)
    else if exists i :: 0 <= i < |successors| && successors[i] !in g then Some(SupersederNotFound)
    else match CheckNoCycle(g, id, successors)
      case CycleVia(_) => Some(CreatesCycle)
      case TooDeep => Some(ChainTooDeep)
      case NoCycle => None
  }

  function Superseded(p: Payload, successors: seq<MemoryId>, now: Time): Payload
  {
    var q := Present(p);
    q.(supersededBy := successors, supersededAt := Some(now), protectedUntil := None)
  }

  function Invalidated(w: World, id: MemoryId, byIds: seq<MemoryId>, now: Time, actor: Actor): (World, Outcome)
  {
    var successors := Deduped(byIds, {});
    match InvalidateError(w.mems, id, successors)
    case Some(e) => (w, Raised(e))
    case None =>
      assert id in w.mems;
      (World(w.mems[id := Superseded(w.mems[id], successors, now)],
             ClosedForOld(w.rows, id, None, Obsoleted, Closure(actor, Some(now)))), Done)
  }

  function Revived(w: World, id: MemoryId): (World, Outcome)
  {
    if id !in w.mems then (w, Raised(MemoryNotFound))
    else if SupersededIds(w.mems[id]) == [] then (w, Raised(NotInvalidated))
    else (w.(mems := w.mems[id := w.mems[id].(supersededBy := [], supersededAt := None)]), Done)
  }

  function TtlPatched(p: Payload, mode: TtlMode, now: Time): Payload
  {
    var q := Present(p);
    match mode
    case Clear => q.(ttlExpiresAt := None, ttlExpiredAt := None)
    case ExpireNow => q.(ttlExpiresAt := Some(now), ttlExpiredAt := Some(now))
    case ExpiresAt(deadline) => q.(ttlExpiresAt := Some(deadline), ttlExpiredAt := None)
  }

  function TtlSet(w: World, id: MemoryId, mode: TtlMode, now: Time, actor: Actor): (World, Outcome)
  {
    if id !in w.mems then (w, Raised(MemoryNotFound))
    else
      (World(w.mems[id := TtlPatched(w.mems[id], mode, now)],
             ClosedForOld(w.rows, id, Some(TtlExpiry), Ttl, Closure(actor, Some(now)))), Done)
  }

  /** Whether the harvest loop acts on `id`. */
  predicate Due(g: Memories, id: MemoryId, now: Time)
  {
    id != "" && id in g && !Stamped(g[id]) && TtlExpired(g[id], now)
  }

  function FlagOf(g: Memories, id: MemoryId, now: Time): Judgment
    requires Due(g, id, now)
  {
    Judgment(FlagKey(id, g[id].data, g[id].ttlExpiresAt.value), "TTL_EXPIRED", Some(1.0), now, None)
  }

  function HarvestedOne(w: World, id: MemoryId, now: Time): World
  {
    if !Due(w.mems, id, now) then w
    else
      World(w.mems[id := w.mems[id].(ttlExpiredAt := Some(now))],
            Recorded(ClosedForOld(w.rows, id, None, Expired, Closure(None, Some(now))), FlagOf(w.mems, id, now)))
  }

  function Harvested(w: World, scan: seq<MemoryId>, now: Time): World
  {
    if scan == [] then w else HarvestedOne(Harvested(w, scan[..|scan| - 1], now), scan[|scan| - 1], now)
  }

  predicate Supersedes(g: Memories, id: MemoryId)
  {
    exists n :: n in g && id in SupersededIds(g[n])
  }

  /** delete_guard: the scan for memories superseded by `id` may fail, and then it fails open. */
  predicate Guarded(g: Memories, id: MemoryId, scanOk: bool)
  {
    id in g && (SupersededIds(g[id]) != [] || (scanOk && Supersedes(g, id)))
  }

  function Deleted(w: World, id: MemoryId, scanOk: bool, now: Time, actor: Actor): (World, Outcome)
  {
    if Guarded(w.mems, id, scanOk) then TtlSet(w, id, ExpireNow, now, actor)
    else if id !in w.mems then (w, Raised(MemoryNotFound))
    else (w.(mems := w.mems - {id}), Done)
  }

  function Updated(w: World, id: MemoryId, text: string, now: Time): (World, Outcome)
  {
    if id !in w.mems then (w, Raised(MemoryNotFound))
    else
      var p := w.mems[id];
      var q := Present(p).(data := text);
      (World(w.mems[id := if Data(p) != text then q.(protectedUntil := None) else q],
             ClosedForUpdated(w.rows, id, text, now)), Done)
  }

  const MAX_PROTECTION_DAYS := 90.0
  const MAX_REASON_CHARS := 500

  /** What is wrong with the request itself, in the order it is looked at */
  function ProtectionFault(p: Protection): Option<Error>
  {
    if Strip(p.reason) == "" then Some(NoReason)
    else if |Strip(p.reason)| > MAX_REASON_CHARS then Some(ReasonTooLong)
    else if p.days <= 0.0 || p.days > MAX_PROTECTION_DAYS then Some(DaysOutOfBounds)
    else if Strip(p.agent) == "" || Strip(p.session) == "" then Some(NoProtector)
    else None
  }

  function Protected(w: World, id: MemoryId, protection: Protection, now: Time): (World, Outcome)
  {
    if id !in w.mems then (w, Raised(MemoryNotFound))
    else
      var p := w.mems[id];
      if SupersededIds(p) != [] || TtlExpired(p, now) then (w, Raised(CannotProtect))
      else if ProtectionFault(protection).Some? then (w, Raised(ProtectionFault(protection).value))
      else if !ProtectionEligible(w.rows, id, Data(p)) then (w, Raised(NotEligible))
      else (w.(mems := w.mems[id := var q := Present(p); q.(protectedUntil := Some(protection.until))]), Done)
  }

  function Unprotected(w: World, id: MemoryId): (World, Outcome)
  {
    if id !in w.mems then (w, Raised(MemoryNotFound))
    else if w.mems[id].Empty? || w.mems[id].protectedUntil.None? then (w, Done)
    else (w.(mems := w.mems[id := w.mems[id].(protectedUntil := None)]), Done)
  }

  predicate OpenPair(w: World, pairId: nat)
  {
    pairId < |w.rows| && w.rows[pairId].disposition.Open?
  }

  /** The mutation that follows a confirmed pair. */
  function ConfirmMutation(w: World, key: PairKey, now: Time, actor: Actor): (World, Outcome)
  {
    match key.kind
    case TtlExpiry => (w, Done)
    case Necessity => TtlSet(w, key.oldId, ExpireNow, now, actor)
    case _ => Invalidated(w, key.oldId, [key.newId], now, actor)
  }

  /** Dispose first, mutate, reopen on failure. */
  function WithRollback(w: World, pairId: nat, d: Disposition, now: Time, actor: Actor,
                        mutate: World -> (World, Outcome)): (World, Outcome)
  {
    var disposed := w.(rows := Disposed(w.rows, pairId, d, Closure(actor, Some(now))));
    var (after, outcome) := mutate(disposed);
    if outcome.Done? then (after, Done) else (after.(rows := Reopened(after.rows, pairId)), outcome)
  }

  function PairConfirmed(w: World, pairId: nat, authorized: bool, now: Time, actor: Actor): (World, Outcome)
  {
    if !OpenPair(w, pairId) then (w, Raised(PairNotOpen))
    else
      var key := w.rows[pairId].judgment.key;
      if key.kind.Correctness? then (w, Raised(WrongKind))
      else if !authorized then (w, Raised(NotAuthorized))
      else WithRollback(w, pairId, Confirmed, now, actor, (v: World) => ConfirmMutation(v, key, now, actor))
  }

  function PairTtl(w: World, pairId: nat, deadline: Time, now: Time, actor: Actor): (World, Outcome)
  {
    if !OpenPair(w, pairId) then (w, Raised(PairNotOpen))
    else
      var key := w.rows[pairId].judgment.key;
      if !key.kind.Necessity? && !key.kind.TtlExpiry? then (w, Raised(WrongKind))
      else WithRollback(w, pairId, Ttl, now, actor, (v: World) => TtlSet(v, key.oldId, ExpiresAt(deadline), now, actor))
  }

  function PairDismissed(w: World, pairId: nat, authorized: bool, now: Time, actor: Actor): (World, Outcome)
  {
    if !OpenPair(w, pairId) then (w, Raised(PairNotOpen))
    else if !authorized then (w, Raised(NotAuthorized))
    else (w.(rows := Disposed(w.rows, pairId, Dismissed, Closure(actor, Some(now)))), Done)
  }

  function PairMerged(w: World, pairId: nat, text: string, authorized: bool, now: Time, actor: Actor): (World, Outcome)
  {
    if !OpenPair(w, pairId) then (w, Raised(PairNotOpen))
    else
      var key := w.rows[pairId].judgment.key;
      if !key.kind.Displacement? then (w, Raised(WrongKind))
      else if !authorized then (w, Raised(NotAuthorized))
      else if key.newId !in w.mems then (w, Raised(MemoryNotFound))
      else WithRollback(Updated(w, key.newId, text, now).0, pairId, Merged, now, actor,
                        (v: World) => Invalidated(v, key.oldId, [key.newId], now, actor))
  }

  /** What the environment guarantees about a step: fresh ids are mentioned nowhere yet, and only
      the harvest loop raises expiry flags. */
  predicate Allowed(w: World, op: Op, now: Time)
  {
    && now != ""
    && match op
       case Add(id, _) => id !in w.mems && forall i :: 0 <= i < |w.rows| ==> w.rows[i].judgment.key.oldId != id
       case Judge(j) => !j.key.kind.TtlExpiry?
       case _ => true
  }

  function Apply(w: World, op: Op, now: Time, actor: Actor): (World, Outcome)
  {
    match op
    case Add(id, data) => (w.(mems := w.mems[id := Payload(data, [], None, None, None, None)]), Done)
    case Update(id, data) => Updated(w, id, data, now)
    case Delete(id, scanOk) => Deleted(w, id, scanOk, now, actor)
    case CloseDeleted(id) => (w.(rows := ClosedForDeleted(w.rows, id, now)), Done)
    case Invalidate(id, byIds) => Invalidated(w, id, byIds, now, actor)
    case Revive(id) => Revived(w, id)
    case SetTtl(id, mode) => TtlSet(w, id, mode, now, actor)
    case Harvest(scan) => (Harvested(w, scan, now), Done)
    case Protect(id, protection) => Protected(w, id, protection, now)
    case Unprotect(id) => Unprotected(w, id)
    case Judge(j) => (w.(rows := Recorded(w.rows, j)), Done)
    case StaleConfirm(pairId, authorized) => PairConfirmed(w, pairId, authorized, now, actor)
    case StaleTtl(pairId, deadline) => PairTtl(w, pairId, deadline, now, actor)
    case StaleDismiss(pairId, authorized) => PairDismissed(w, pairId, authorized, now, actor)
    case StaleMerge(pairId, text, authorized) => PairMerged(w, pairId, text, authorized, now, actor)
  }
}
