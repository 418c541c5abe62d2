/** The imperative operations on the vector store and the pair table, each proved to be its
    specification in module Lifecycle (src/memline/staleness.py, ops.py, cli/stale.py, cli/_support.py). */
module Staleness {
  import opened Strings
  import opened Supersession
  import opened PairStore
  import opened Lifecycle

  /** The vector store: payloads by memory id, patched in place. */
  class Client {
    var memories: Memories

    constructor ()
      ensures memories == map[]
    {
      memories := map[];
    }
  }

  ghost function State(client: Client, store: Store): World
    reads client, store
  {
    World(client.memories, store.rows)
  }

  /** The superseders in the order given, each once. */
  method WithoutRepeats(byIds: seq<MemoryId>) returns (successors: seq<MemoryId>)
    ensures successors == Deduped(byIds, {})
  {
    var seen: set<MemoryId>;
    successors, seen := [], {};
    for i := 0 to |byIds|
      invariant Deduped(byIds, {}) == successors + Deduped(byIds[i..], seen)
    {
      assert byIds[i..][0] == byIds[i] && byIds[i..][1..] == byIds[i + 1..];
      if byIds[i] != "" && byIds[i] !in seen {
        successors, seen := successors + [byIds[i]], seen + {byIds[i]};
      }
    }
  }

  lemma PatchedIs(p: Payload, q: Payload, successors: seq<MemoryId>, now: Time)
    requires q.Payload? && q == Present(p)
    ensures q.(supersededBy := successors, supersededAt := Some(now), protectedUntil := None) == Superseded(p, successors, now)
  {
  }

  method Invalidate(client: Client, store: Store, id: MemoryId, byIds: seq<MemoryId>, now: Time, actor: Actor)
    returns (r: Outcome)
    modifies client, store
    ensures (State(client, store), r) == Invalidated(old(State(client, store)), id, byIds, now, actor)
  {
    var successors := WithoutRepeats(byIds);
    hide Deduped, CheckNoCycle, ClosedForOld, Superseded;
    if successors == [] {
      return Raised(NoSuperseder);
    }
    if id in successors {
      return Raised(SelfSuperseded);
    }
    if id !in client.memories {
      return Raised(MemoryNotFound);
    }
    var payload := client.memories[id];
    if SupersededIds(payload) != [] {
      return Raised(AlreadyInvalidated);
    }
    for i := 0 to |successors|
      invariant forall k :: 0 <= k < i ==> successors[k] in client.memories
    {
      if successors[i] !in client.memories {
        return Raised(SupersederNotFound);
      }
    }
    var check := AssertNoCycle(client.memories, id, successors);
    if check.CycleVia? {
      return Raised(CreatesCycle);
    }
    if check.TooDeep? {
      return Raised(ChainTooDeep);
    }
    var patched := Present(payload);
    patched := patched.(supersededBy := successors);
    patched := patched.(supersededAt := Some(now));
    patched := patched.(protectedUntil := None);
    PatchedIs(payload, Present(payload), successors, now);
    client.memories := client.memories[id := patched];
    var closed := store.CloseForOld(id, Obsoleted, actor, None, now);
    return Done;
  }

  method Revive(client: Client, store: Store, id: MemoryId) returns (r: Outcome)
    modifies client
    ensures (State(client, store), r) == Revived(old(State(client, store)), id)
  {
    if id !in client.memories {
      return Raised(MemoryNotFound);
    }
    if SupersededIds(client.memories[id]) == [] {
      return Raised(NotInvalidated);
    }
    client.memories := client.memories[id := client.memories[id].(supersededBy := [], supersededAt := None)];
    return Done;
  }

  method SetTtl(client: Client, store: Store, id: MemoryId, mode: TtlMode, now: Time, actor: Actor)
    returns (r: Outcome)
    modifies client, store
    ensures (State(client, store), r) == TtlSet(old(State(client, store)), id, mode, now, actor)
  {
    if id !in client.memories {
      return Raised(MemoryNotFound);
    }
    var p := Present(client.memories[id]);
    match mode {
      case Clear => p := p.(ttlExpiresAt := None, ttlExpiredAt := None);
      case ExpireNow => p := p.(ttlExpiresAt := Some(now), ttlExpiredAt := Some(now));
      case ExpiresAt(deadline) => p := p.(ttlExpiresAt := Some(deadline), ttlExpiredAt := None);
    }
    client.memories := client.memories[id := p];
    var closed := store.CloseForOld(id, Ttl, actor, Some(TtlExpiry), now);
    return Done;
  }

  /** The loop over the scanned items. */
  method HarvestExpired(client: Client, store: Store, scan: seq<MemoryId>, now: Time) returns (harvested: nat)
    modifies client, store
    ensures State(client, store) == Harvested(old(State(client, store)), scan, now)
    ensures harvested <= |scan|
  {
    harvested := 0;
    for i := 0 to |scan|
      invariant State(client, store) == Harvested(old(State(client, store)), scan[..i], now)
      invariant harvested <= i
    {
      assert scan[..i + 1][..i] == scan[..i] && scan[..i + 1][i] == scan[i];
      var id := scan[i];
      if id == "" || id !in client.memories || Stamped(client.memories[id]) {
        continue;
      }
      if !TtlExpired(client.memories[id], now) {
        continue;
      }
      var item := client.memories[id];
      client.memories := client.memories[id := item.(ttlExpiredAt := Some(now))];
      var closed := store.CloseForOld(id, Expired, None, None, now);
      var key := PairKey(TtlExpiry, id, id, Sha256(item.data + "@@" + item.ttlExpiresAt.value));
      var inserted := store.RecordJudgment(Judgment(key, "TTL_EXPIRED", Some(1.0), now, None));
      harvested := harvested + 1;
    }
    assert scan[..|scan|] == scan;
  }

  method Delete(client: Client, store: Store, id: MemoryId, scanOk: bool, now: Time, actor: Actor)
    returns (r: Outcome)
    modifies client, store
    ensures (State(client, store), r) == Deleted(old(State(client, store)), id, scanOk, now, actor)
  {
    var participates := false;
    if id in client.memories {
      if SupersededIds(client.memories[id]) != [] {
        participates := true;
      } else if scanOk && Supersedes(client.memories, id) {
        participates := true;
      }
    }
    if participates {
      r := SetTtl(client, store, id, ExpireNow, now, actor);
      return;
    }
    if id !in client.memories {
      return Raised(MemoryNotFound);
    }
    client.memories := client.memories - {id};
    return Done;
  }

  method Update(client: Client, store: Store, id: MemoryId, text: string, now: Time) returns (r: Outcome)
    modifies client, store
    ensures (State(client, store), r) == Updated(old(State(client, store)), id, text, now)
  {
    if id !in client.memories {
      return Raised(MemoryNotFound);
    }
    var textChanged := Data(client.memories[id]) != text;
    var p := Present(client.memories[id]);
    p := p.(data := text);
    client.memories := client.memories[id := p];
    if textChanged {
      client.memories := client.memories[id := p.(protectedUntil := None)];
      assert client.memories == old(client.memories)[id := p.(protectedUntil := None)];
    }
    store.CloseForUpdatedText(id, text, now);
    return Done;
  }

  method SetDisplacementProtection(client: Client, store: Store, id: MemoryId, protection: Protection, now: Time)
    returns (r: Outcome)
    modifies client
    ensures (State(client, store), r) == Protected(old(State(client, store)), id, protection, now)
  {
    if id !in client.memories {
      return Raised(MemoryNotFound);
    }
    var payload := client.memories[id];
    if SupersededIds(payload) != [] || TtlExpired(payload, now) {
      return Raised(CannotProtect);
    }
    var reason := Strip(protection.reason);
    if reason == "" {
      return Raised(NoReason);
    }
    if |reason| > MAX_REASON_CHARS {
      return Raised(ReasonTooLong);
    }
    if protection.days <= 0.0 || protection.days > MAX_PROTECTION_DAYS {
      return Raised(DaysOutOfBounds);
    }
    if Strip(protection.agent) == "" || Strip(protection.session) == "" {
      return Raised(NoProtector);
    }
    var eligible, evidence := store.ConsecutiveDismissedEvidence(id, Data(payload));
    if !eligible {
      return Raised(NotEligible);
    }
    var p := Present(payload);
    client.memories := client.memories[id := p.(protectedUntil := Some(protection.until))];
    return Done;
  }

  method StaleConfirm(client: Client, store: Store, pairId: nat, authorized: bool, now: Time, actor: Actor)
    returns (r: Outcome)
    modifies client, store
    ensures (State(client, store), r) == PairConfirmed(old(State(client, store)), pairId, authorized, now, actor)
  {
    if !(pairId < |store.rows| && store.rows[pairId].disposition.Open?) {
      return Raised(PairNotOpen);
    }
    var key := store.rows[pairId].judgment.key;
    if key.kind.Correctness? {
      return Raised(WrongKind);
    }
    if !authorized {
      return Raised(NotAuthorized);
    }
    var disposed := store.Dispose(pairId, Confirmed, actor, now);
    if key.kind.TtlExpiry? {
      r := Done;
    } else if key.kind.Necessity? {
      r := SetTtl(client, store, key.oldId, ExpireNow, now, actor);
    } else {
      r := Invalidate(client, store, key.oldId, [key.newId], now, actor);
    }
    if r.Raised? {
      var reopened := store.Reopen(pairId);
    }
  }

  method StaleTtl(client: Client, store: Store, pairId: nat, deadline: Time, now: Time, actor: Actor)
    returns (r: Outcome)
    modifies client, store
    ensures (State(client, store), r) == PairTtl(old(State(client, store)), pairId, deadline, now, actor)
  {
    if !(pairId < |store.rows| && store.rows[pairId].disposition.Open?) {
      return Raised(PairNotOpen);
    }
    var key := store.rows[pairId].judgment.key;
    if !key.kind.Necessity? && !key.kind.TtlExpiry? {
      return Raised(WrongKind);
    }
    var disposed := store.Dispose(pairId, Ttl, actor, now);
    r := SetTtl(client, store, key.oldId, ExpiresAt(deadline), now, actor);
    if r.Raised? {
      var reopened := store.Reopen(pairId);
    }
  }

  method StaleMerge(client: Client, store: Store, pairId: nat, text: string, authorized: bool, now: Time, actor: Actor)
    returns (r: Outcome)
    modifies client, store
    ensures (State(client, store), r) == PairMerged(old(State(client, store)), pairId, text, authorized, now, actor)
  {
    if !(pairId < |store.rows| && store.rows[pairId].disposition.Open?) {
      return Raised(PairNotOpen);
    }
    var key := store.rows[pairId].judgment.key;
    if !key.kind.Displacement? {
      return Raised(WrongKind);
    }
    if !authorized {
      return Raised(NotAuthorized);
    }
    if key.newId !in client.memories {
      return Raised(MemoryNotFound);
    }
    var updated := Update(client, store, key.newId, text, now);
    var disposed := store.Dispose(pairId, Merged, actor, now);
    r := Invalidate(client, store, key.oldId, [key.newId], now, actor);
    if r.Raised? {
      var reopened := store.Reopen(pairId);
    }
  }
}
