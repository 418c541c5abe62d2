/** Which merges of a suspicion pair go through, which change nothing, and which stop half-way
    (src/memline/cli/stale.py). */
module MergeOutcome {
  import opened Strings
  import opened Supersession
  import opened PairStore
  import opened Lifecycle
  import opened LifecycleInvariants
  import opened LifecycleRuns

  // ---------------------------------------------------------------------------
  // Invalidation looks at ids and successors only
  // ---------------------------------------------------------------------------

  /** The same memories with the same successors. */
  predicate SamePointers(g: Memories, h: Memories)
  {
    g.Keys == h.Keys && forall n :: n in g ==> SupersededIds(g[n]) == SupersededIds(h[n])
  }

  lemma {:induction false} SameExpand(g: Memories, h: Memories, frontier: seq<MemoryId>, visited: set<MemoryId>)
    requires SamePointers(g, h)
    ensures Expand(g, frontier, visited) == Expand(h, frontier, visited)
  {
    if frontier != [] {
      SameExpand(g, h, frontier[1..], visited);
      SameExpand(g, h, frontier[1..], visited + {frontier[0]});
      assert frontier[0] in g <==> frontier[0] in h;
    }
  }

  lemma {:induction false} SameSearch(g: Memories, h: Memories, target: MemoryId, frontier: seq<MemoryId>,
                                      visited: set<MemoryId>, depth: nat, limit: nat)
    requires SamePointers(g, h) && depth <= limit
    ensures Search(g, target, frontier, visited, depth, limit) == Search(h, target, frontier, visited, depth, limit)
    decreases limit - depth
  {
    if frontier != [] && depth < limit && target !in frontier {
      SameExpand(g, h, frontier, visited);
      var (next, seen) := Expand(g, frontier, visited);
      SameSearch(g, h, target, next, seen, depth + 1, limit);
    }
  }

  lemma SameError(g: Memories, h: Memories, id: MemoryId, successors: seq<MemoryId>)
    requires SamePointers(g, h)
    ensures InvalidateError(g, id, successors) == InvalidateError(h, id, successors)
  {
    hide Search;
    SameSearch(g, h, id, successors, {}, 0, MAX_CHAIN_DEPTH);
    assert id in g <==> id in h;
    assert forall i :: 0 <= i < |successors| ==> (successors[i] in g <==> successors[i] in h);
  }

  lemma UpdateKeepsPointers(w: World, id: MemoryId, text: string, now: Time)
    ensures SamePointers(w.mems, Updated(w, id, text, now).0.mems)
  {
    hide ClosedForUpdated;
  }

  // ---------------------------------------------------------------------------
  // The three outcomes
  // ---------------------------------------------------------------------------

  /** The checks before anything is written: an open displacement pair, authority, and a memory to rewrite. */
  predicate Mergeable(w: World, pairId: nat, authorized: bool)
  {
    && OpenPair(w, pairId) && w.rows[pairId].judgment.key.kind.Displacement? && authorized
    && w.rows[pairId].judgment.key.newId in w.mems
  }

  /** What invalidating the older memory would answer now. */
  function Refusal(w: World, key: PairKey): Option<Error>
  {
    InvalidateError(w.mems, key.oldId, Deduped([key.newId], {}))
  }

  lemma MergeFollows(w: World, pairId: nat, text: string, now: Time, actor: Actor)
    requires TableOk(w.rows) && Mergeable(w, pairId, true)
    ensures var key := w.rows[pairId].judgment.key;
            var (v, outcome) := PairMerged(w, pairId, text, true, now, actor);
            && (outcome.Done? <==> Refusal(w, key).None?)
            && (outcome.Raised? ==> outcome.error == Refusal(w, key).value && v == Updated(w, key.newId, text, now).0)
  {
    var key := w.rows[pairId].judgment.key;
    var u := Updated(w, key.newId, text, now).0;
    UpdateKeepsPointers(w, key.newId, text, now);
    SameError(w.mems, u.mems, key.oldId, Deduped([key.newId], {}));
    UpdatedKeepsTable(w, key.newId, text, now);
    var mutate := (x: World) => Invalidated(x, key.oldId, [key.newId], now, actor);
    hide InvalidateError, Deduped, TableOk, Updated, SamePointers;
    if mutate(u.(rows := Disposed(u.rows, pairId, Merged, Closure(actor, Some(now))))).1.Raised? {
      RollbackRestores(u, pairId, Merged, now, actor, mutate);
    }
  }

  /** A rewrite leaves no trace exactly when the text is the one that was there and every open pair on the
      memory was judged on it. */
  lemma UpdateIdle(w: World, id: MemoryId, text: string, now: Time)
    requires id in w.mems
    ensures Updated(w, id, text, now).0 == w <==>
              && w.mems[id].Payload? && w.mems[id].data == text
              && forall i :: 0 <= i < |w.rows| && w.rows[i].disposition.Open? && w.rows[i].judgment.key.oldId == id
                   ==> w.rows[i].judgment.key.oldTextHash == Sha256(text)
  {
    var u := Updated(w, id, text, now).0;
    assert u == w ==> u.mems[id] == w.mems[id] && u.rows == w.rows;
    assert |u.rows| == |w.rows|;
    if u == w {
      forall i | 0 <= i < |w.rows| && w.rows[i].disposition.Open? && w.rows[i].judgment.key.oldId == id
        ensures w.rows[i].judgment.key.oldTextHash == Sha256(text)
      {
        assert u.rows[i] == w.rows[i];
      }
    }
    if w.mems[id].Payload? && w.mems[id].data == text {
      assert u.mems == w.mems;
    }
  }

  /** A merge goes through exactly when it passes its checks and the invalidation would be accepted as things
      stand before the merge. It stops half-way, with the text rewritten and nothing else done, exactly when it
      passes its checks, the invalidation would be refused, and the rewrite is not idle; then that refusal is
      the error. */
  lemma MergeExactly(w: World, pairId: nat, text: string, authorized: bool, now: Time, actor: Actor)
    requires TableOk(w.rows)
    ensures var (v, outcome) := PairMerged(w, pairId, text, authorized, now, actor);
            && (outcome.Done? <==> Mergeable(w, pairId, authorized) && Refusal(w, w.rows[pairId].judgment.key).None?)
            && (outcome.Raised? && v != w <==>
                  && Mergeable(w, pairId, authorized) && Refusal(w, w.rows[pairId].judgment.key).Some?
                  && Updated(w, w.rows[pairId].judgment.key.newId, text, now).0 != w)
            && (outcome.Raised? && v != w ==>
                  && v == Updated(w, w.rows[pairId].judgment.key.newId, text, now).0
                  && outcome.error == Refusal(w, w.rows[pairId].judgment.key).value)
  {
    if Mergeable(w, pairId, authorized) {
      hide PairMerged, Updated, Refusal, TableOk;
      MergeFollows(w, pairId, text, now, actor);
    }
  }

  /** For instance on every pair whose older memory is superseded already: a new text for the newer memory is
      written although the merge is refused. */
  lemma MergeOfSuperseded(w: World, pairId: nat, text: string, now: Time, actor: Actor)
    requires TableOk(w.rows) && Mergeable(w, pairId, true)
    requires var key := w.rows[pairId].judgment.key;
             && key.oldId in w.mems && SupersededIds(w.mems[key.oldId]) != [] && Data(w.mems[key.newId]) != text
    ensures var key := w.rows[pairId].judgment.key;
            var (v, outcome) := PairMerged(w, pairId, text, true, now, actor);
            outcome.Raised? && v != w && Data(v.mems[key.newId]) == text
  {
    var key := w.rows[pairId].judgment.key;
    UpdateIdle(w, key.newId, text, now);
    MergeExactly(w, pairId, text, true, now, actor);
    assert Refusal(w, key).Some?;
  }

  /** Such a world: the older memory gave way to a third one before the pair was decided. */
  lemma MergeHalfDone(now: Time)
    ensures var key := PairKey(Displacement, "new", "old", Sha256("a"));
            var row := PairRow(Judgment(key, "SUPERSEDED", Some(1.0), now, None), Open, NOT_CLOSED);
            var w := World(map["old" := Payload("a", ["third"], Some(now), None, None, None),
                               "new" := Payload("b", [], None, None, None, None),
                               "third" := Payload("c", [], None, None, None, None)], [row]);
            var (v, outcome) := PairMerged(w, 0, "a and b", true, now, None);
            && GraphOk(w.mems) && TableOk(w.rows)
            && outcome == Raised(AlreadyInvalidated) && v.mems["new"].data == "a and b" && v.rows == w.rows
  {
    var key := PairKey(Displacement, "new", "old", Sha256("a"));
    var row := PairRow(Judgment(key, "SUPERSEDED", Some(1.0), now, None), Open, NOT_CLOSED);
    var g := map["old" := Payload("a", ["third"], Some(now), None, None, None),
                 "new" := Payload("b", [], None, None, None, None),
                 "third" := Payload("c", [], None, None, None, None)];
    var w := World(g, [row]);
    OneHop(g);
    assert TableOk(w.rows);
    MergeOfSuperseded(w, 0, "a and b", now, None);
    MergeFollows(w, 0, "a and b", now, None);
    assert Deduped(["new"], {}) == ["new"] by {
      assert ["new"][1..] == [];
    }
    assert Refusal(w, key) == Some(AlreadyInvalidated);
    assert ClosedForUpdated([row], "new", "a and b", now) == [row];
  }

  /** A graph with one pointer, from "old" to "third". */
  lemma OneHop(g: Memories)
    requires g.Keys == {"old", "new", "third"}
    requires SupersededIds(g["old"]) == ["third"] && SupersededIds(g["new"]) == [] && SupersededIds(g["third"]) == []
    ensures GraphOk(g)
  {
    forall n: MemoryId, hops: nat | hops > 0 ensures !Walk(g, n, n, hops) {
      if Walk(g, n, n, hops) {
        var s := WalkFirst(g, n, n, hops);
        NothingFollows(g, s, n, hops - 1);
      }
    }
  }

  lemma NothingFollows(g: Memories, a: MemoryId, b: MemoryId, hops: nat)
    requires Successors(g, a) == [] && Walk(g, a, b, hops)
    ensures a == b
  {
    if hops > 0 {
      var s := WalkFirst(g, a, b, hops);
    }
  }
}
