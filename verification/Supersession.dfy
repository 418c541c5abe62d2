/** The supersession graph of the memory store: every memory carries the ids of
    the memories that supersede it. Models the walks of src/memline/staleness.py. */
module Supersession {
  import opened Strings

  type MemoryId = string
  type Time = string  // ISO-8601 UTC text, compared as text

  const MAX_CHAIN_DEPTH := 100

  /** The payload fields that feed back into later decisions. `Empty` is a stored
      point without any payload, which reads as an empty dict. */
  datatype Payload =
    | Empty
    | Payload(data: string, supersededBy: seq<MemoryId>, supersededAt: Option<Time>,
              ttlExpiresAt: Option<Time>, ttlExpiredAt: Option<Time>,
              protectedUntil: Option<Time>)

  type Memories = map<MemoryId, Payload>

  function SupersededIds(p: Payload): seq<MemoryId>
  {
    if p.Empty? then [] else p.supersededBy
  }

  function Successors(g: Memories, n: MemoryId): seq<MemoryId>
  {
    if n in g then SupersededIds(g[n]) else []
  }

  /** `n` is reached from `sources` by following exactly `hops` pointers. */
  ghost predicate ReachIn(g: Memories, sources: set<MemoryId>, n: MemoryId, hops: nat)
    decreases hops
  {
    if hops == 0 then n in sources
    else exists m :: ReachIn(g, sources, m, hops - 1) && n in Successors(g, m)
  }

  /** ... by fewer than `bound` pointers. */
  ghost predicate Within(g: Memories, sources: set<MemoryId>, n: MemoryId, bound: nat)
  {
    exists k: nat :: k < bound && ReachIn(g, sources, n, k)
  }

  ghost predicate Walk(g: Memories, a: MemoryId, b: MemoryId, hops: nat)
  {
    ReachIn(g, {a}, b, hops)
  }

  ghost predicate Acyclic(g: Memories)
  {
    forall n, hops: nat :: hops > 0 ==> !Walk(g, n, n, hops)
  }

  predicate NoDangling(g: Memories)
  {
    forall n :: n in g ==> forall s :: s in SupersededIds(g[n]) ==> s in g
  }

  // ---------------------------------------------------------------------------
  // Walks
  // ---------------------------------------------------------------------------

  lemma {:induction false} WalkConcat(g: Memories, a: MemoryId, b: MemoryId, c: MemoryId, i: nat, j: nat)
    requires Walk(g, a, b, i) && Walk(g, b, c, j)
    ensures Walk(g, a, c, i + j)
    decreases j
  {
    if j > 0 {
      var m :| ReachIn(g, {b}, m, j - 1) && c in Successors(g, m);
      WalkConcat(g, a, b, m, i, j - 1);
      assert ReachIn(g, {a}, m, i + j - 1);
    }
  }

  lemma WalkStep(g: Memories, a: MemoryId, b: MemoryId)
    requires b in Successors(g, a)
    ensures Walk(g, a, b, 1)
  {
    assert ReachIn(g, {a}, a, 0);
  }

  /** A non-empty walk has a first pointer. */
  lemma {:induction false} WalkFirst(g: Memories, a: MemoryId, b: MemoryId, hops: nat) returns (s: MemoryId)
    requires hops > 0 && Walk(g, a, b, hops)
    ensures s in Successors(g, a) && Walk(g, s, b, hops - 1)
    decreases hops
  {
    var m :| ReachIn(g, {a}, m, hops - 1) && b in Successors(g, m);
    if hops == 1 {
      s := b;
    } else {
      s := WalkFirst(g, a, m, hops - 1);
      assert ReachIn(g, {s}, m, hops - 2);
    }
  }

  lemma {:induction false} WalkIsReach(g: Memories, sources: set<MemoryId>, b: MemoryId, n: MemoryId, hops: nat)
    requires b in sources && Walk(g, b, n, hops)
    ensures ReachIn(g, sources, n, hops)
    decreases hops
  {
    if hops > 0 {
      var m :| ReachIn(g, {b}, m, hops - 1) && n in Successors(g, m);
      WalkIsReach(g, sources, b, m, hops - 1);
    }
  }

  /** Fewer pointers, fewer walks. */
  lemma {:induction false} WalkMonotone(g: Memories, h: Memories, a: MemoryId, b: MemoryId, hops: nat)
    requires forall n :: forall s :: s in Successors(h, n) ==> s in Successors(g, n)
    requires Walk(h, a, b, hops)
    ensures Walk(g, a, b, hops)
    decreases hops
  {
    if hops > 0 {
      var m :| ReachIn(h, {a}, m, hops - 1) && b in Successors(h, m);
      WalkMonotone(g, h, a, m, hops - 1);
    }
  }

  // ---------------------------------------------------------------------------
  // One round of the breadth-first walk
  // ---------------------------------------------------------------------------

  /** The next frontier and the enlarged visited set. */
  function Expand(g: Memories, frontier: seq<MemoryId>, visited: set<MemoryId>): (seq<MemoryId>, set<MemoryId>)
  {
    if frontier == [] then ([], visited)
    else if frontier[0] in visited then Expand(g, frontier[1..], visited)
    else
      var (next, seen) := Expand(g, frontier[1..], visited + {frontier[0]});
      (Successors(g, frontier[0]) + next, seen)
  }

  lemma {:induction false} ExpandMeaning(g: Memories, frontier: seq<MemoryId>, visited: set<MemoryId>)
    ensures Expand(g, frontier, visited).1 == visited + (set n | n in frontier)
    ensures forall s :: s in Expand(g, frontier, visited).0 <==>
              exists n :: n in frontier && n !in visited && s in Successors(g, n)
  {
    if frontier != [] {
      var n0, rest := frontier[0], frontier[1..];
      assert frontier == [n0] + rest;
      if n0 in visited {
        ExpandMeaning(g, rest, visited);
      } else {
        ExpandMeaning(g, rest, visited + {n0});
        forall s
          ensures s in Expand(g, frontier, visited).0 <==>
                  exists n :: n in frontier && n !in visited && s in Successors(g, n)
        {
          if s in Successors(g, n0) {
            assert n0 in frontier;
          }
        }
      }
    }
  }

  /** State of the walk before round `depth`. */
  ghost predicate Rounds(g: Memories, sources: set<MemoryId>, frontier: seq<MemoryId>,
                         visited: set<MemoryId>, depth: nat)
  {
    && (forall n :: n in frontier ==> ReachIn(g, sources, n, depth))
    && (forall n :: n in visited <==> Within(g, sources, n, depth))
    && (forall n :: ReachIn(g, sources, n, depth) ==> n in frontier || n in visited)
  }

  lemma VisitedStep(g: Memories, sources: set<MemoryId>, frontier: seq<MemoryId>, visited: set<MemoryId>,
                    depth: nat, n: MemoryId)
    requires Rounds(g, sources, frontier, visited, depth)
    ensures n in visited || n in frontier <==> Within(g, sources, n, depth + 1)
  {
    if Within(g, sources, n, depth + 1) {
      var k: nat :| k < depth + 1 && ReachIn(g, sources, n, k);
      if k < depth {
        assert Within(g, sources, n, depth);
      }
    }
    if n in visited {
      var k: nat :| k < depth && ReachIn(g, sources, n, k);
      assert k < depth + 1;
    }
    if n in frontier {
      assert depth < depth + 1 && ReachIn(g, sources, n, depth);
    }
  }

  lemma FrontierStep(g: Memories, sources: set<MemoryId>, frontier: seq<MemoryId>, visited: set<MemoryId>,
                     depth: nat, n: MemoryId)
    requires Rounds(g, sources, frontier, visited, depth) && ReachIn(g, sources, n, depth + 1)
    ensures Within(g, sources, n, depth + 1) || exists m :: m in frontier && m !in visited && n in Successors(g, m)
  {
    var m :| ReachIn(g, sources, m, depth) && n in Successors(g, m);
    if m in visited {
      assert Within(g, sources, m, depth);
      var k: nat :| k < depth && ReachIn(g, sources, m, k);
      assert ReachIn(g, sources, n, k + 1);
    } else {
      assert m in frontier;
    }
  }

  lemma RoundsStep(g: Memories, sources: set<MemoryId>, frontier: seq<MemoryId>, visited: set<MemoryId>, depth: nat)
    requires Rounds(g, sources, frontier, visited, depth)
    ensures var e := Expand(g, frontier, visited); Rounds(g, sources, e.0, e.1, depth + 1)
  {
    var e := Expand(g, frontier, visited);
    ExpandMeaning(g, frontier, visited);
    forall n ensures n in e.1 <==> Within(g, sources, n, depth + 1) {
      VisitedStep(g, sources, frontier, visited, depth, n);
    }
    forall n | n in e.0 ensures ReachIn(g, sources, n, depth + 1) {
      var m :| m in frontier && m !in visited && n in Successors(g, m);
      assert ReachIn(g, sources, m, depth);
    }
    forall n | ReachIn(g, sources, n, depth + 1) ensures n in e.0 || n in e.1 {
      FrontierStep(g, sources, frontier, visited, depth, n);
    }
  }

  /** An exhausted walk has seen everything that can be reached. */
  lemma {:induction false} RoundsExhausted(g: Memories, sources: set<MemoryId>, visited: set<MemoryId>,
                                           depth: nat, n: MemoryId, hops: nat)
    requires Rounds(g, sources, [], visited, depth) && ReachIn(g, sources, n, hops)
    ensures n in visited
    decreases hops
  {
    if hops < depth {
      assert Within(g, sources, n, depth);
    } else if hops == 0 {
      assert ReachIn(g, sources, n, depth);
    } else {
      var m :| ReachIn(g, sources, m, hops - 1) && n in Successors(g, m);
      RoundsExhausted(g, sources, visited, depth, m, hops - 1);
      var k: nat :| k < depth && ReachIn(g, sources, m, k);
      assert ReachIn(g, sources, n, k + 1);
      if k + 1 < depth {
        assert Within(g, sources, n, depth);
      }
    }
  }

  // ---------------------------------------------------------------------------
  // The cycle check of `invalidate`
  // ---------------------------------------------------------------------------

  datatype CycleCheck = NoCycle | CycleVia(node: MemoryId) | TooDeep

  function Search(g: Memories, target: MemoryId, frontier: seq<MemoryId>, visited: set<MemoryId>,
                  depth: nat, limit: nat): CycleCheck
    requires depth <= limit
    decreases limit - depth
  {
    if frontier == [] then NoCycle
    else if depth == limit then TooDeep
    else if target in frontier then CycleVia(target)
    else
      var (next, seen) := Expand(g, frontier, visited);
      Search(g, target, next, seen, depth + 1, limit)
  }

  function CheckNoCycle(g: Memories, target: MemoryId, byIds: seq<MemoryId>): CycleCheck
  {
    Search(g, target, byIds, {}, 0, MAX_CHAIN_DEPTH)
  }

  ghost function Elements(s: seq<MemoryId>): set<MemoryId>
  {
    set x | x in s
  }

  /** What the answers mean: "cycle" exactly when the target lies fewer than `limit` hops from
      a superseder; "no cycle" is sound without any bound; a refusal for depth only happens
      when some chain really is `limit` hops long. */
  ghost predicate Answers(g: Memories, target: MemoryId, sources: set<MemoryId>, r: CycleCheck, limit: nat)
  {
    match r
    case CycleVia(node) => node == target && Within(g, sources, target, limit)
    case NoCycle => forall k: nat :: !ReachIn(g, sources, target, k)
    case TooDeep => !Within(g, sources, target, limit) && exists n :: ReachIn(g, sources, n, limit)
  }

  lemma {:induction false} SearchMeaning(g: Memories, target: MemoryId, sources: set<MemoryId>,
                                         frontier: seq<MemoryId>, visited: set<MemoryId>, depth: nat, limit: nat)
    requires depth <= limit
    requires Rounds(g, sources, frontier, visited, depth) && target !in visited
    ensures Answers(g, target, sources, Search(g, target, frontier, visited, depth, limit), limit)
    decreases limit - depth
  {
    if frontier == [] {
      forall k: nat ensures !ReachIn(g, sources, target, k) {
        if ReachIn(g, sources, target, k) {
          RoundsExhausted(g, sources, visited, depth, target, k);
        }
      }
    } else if depth == limit {
      assert ReachIn(g, sources, frontier[0], depth);
    } else if target in frontier {
      assert ReachIn(g, sources, target, depth);
    } else {
      var (next, seen) := Expand(g, frontier, visited);
      assert target !in seen by {
        ExpandMeaning(g, frontier, visited);
      }
      RoundsStep(g, sources, frontier, visited, depth);
      SearchMeaning(g, target, sources, next, seen, depth + 1, limit);
    }
  }

  lemma CheckNoCycleExact(g: Memories, target: MemoryId, byIds: seq<MemoryId>)
    ensures Answers(g, target, Elements(byIds), CheckNoCycle(g, target, byIds), 100)
  {
    SearchMeaning(g, target, Elements(byIds), byIds, {}, 0, MAX_CHAIN_DEPTH);
  }

  /** The nested loops of the source. */
  method AssertNoCycle(g: Memories, target: MemoryId, byIds: seq<MemoryId>) returns (r: CycleCheck)
    ensures r == CheckNoCycle(g, target, byIds)
  {
    var frontier, visited, depth := byIds, {}, 0;
    while frontier != [] && depth < MAX_CHAIN_DEPTH
      invariant depth <= MAX_CHAIN_DEPTH
      invariant Search(g, target, frontier, visited, depth, MAX_CHAIN_DEPTH) == CheckNoCycle(g, target, byIds)
      decreases MAX_CHAIN_DEPTH - depth
    {
      var next: seq<MemoryId>, seen := [], visited;
      for i := 0 to |frontier|
        invariant target !in frontier[..i]
        invariant Expand(g, frontier, visited).0 == next + Expand(g, frontier[i..], seen).0
        invariant Expand(g, frontier, visited).1 == Expand(g, frontier[i..], seen).1
      {
        if frontier[i] == target {
          return CycleVia(target);
        }
        assert frontier[i..][0] == frontier[i] && frontier[i..][1..] == frontier[i + 1..];
        if frontier[i] in seen {
          continue;
        }
        seen := seen + {frontier[i]};
        next := next + Successors(g, frontier[i]);
      }
      assert frontier[|frontier|..] == [] && next + [] == next && frontier[..|frontier|] == frontier;
      frontier, visited, depth := next, seen, depth + 1;
    }
    return if frontier != [] then TooDeep else NoCycle;
  }

  // ---------------------------------------------------------------------------
  // Adding and removing pointers
  // ---------------------------------------------------------------------------

  /** `h` is `g` with the pointers of `target` replaced by `byIds`. */
  ghost predicate Repointed(g: Memories, h: Memories, target: MemoryId, byIds: seq<MemoryId>)
  {
    && (forall n :: n != target ==> Successors(h, n) == Successors(g, n))
    && Successors(h, target) == byIds
  }

  /** A node that could not reach `target` still cannot. */
  lemma {:induction false} StillUnreachable(g: Memories, h: Memories, target: MemoryId, byIds: seq<MemoryId>,
                                            x: MemoryId, hops: nat)
    requires Repointed(g, h, target, byIds)
    requires forall k: nat :: !Walk(g, x, target, k)
    ensures !Walk(h, x, target, hops)
    decreases hops
  {
    if Walk(h, x, target, hops) {
      assert Walk(g, x, x, 0);
      assert x != target;
      assert hops > 0;
      var y := WalkFirst(h, x, target, hops);
      forall k: nat ensures !Walk(g, y, target, k) {
        if Walk(g, y, target, k) {
          WalkStep(g, x, y);
          WalkConcat(g, x, y, target, 1, k);
        }
      }
      StillUnreachable(g, h, target, byIds, y, hops - 1);
    }
  }

  /** A walk of the new graph is an old walk or passes through `target`. */
  lemma {:induction false} OldOrThrough(g: Memories, h: Memories, target: MemoryId, byIds: seq<MemoryId>,
                                        a: MemoryId, b: MemoryId, hops: nat)
    requires Repointed(g, h, target, byIds) && Walk(h, a, b, hops)
    ensures Walk(g, a, b, hops) ||
            exists i: nat :: i < hops && Walk(h, a, target, i) && Walk(h, target, b, hops - i)
    decreases hops
  {
    if hops > 0 {
      var m :| ReachIn(h, {a}, m, hops - 1) && b in Successors(h, m);
      if m == target {
        WalkStep(h, target, b);
        assert Walk(h, a, target, hops - 1) && Walk(h, target, b, hops - (hops - 1));
      } else {
        OldOrThrough(g, h, target, byIds, a, m, hops - 1);
        if !Walk(g, a, m, hops - 1) {
          var i: nat :| i < hops - 1 && Walk(h, a, target, i) && Walk(h, target, m, hops - 1 - i);
          assert Walk(h, target, b, hops - i);
        }
      }
    }
  }

  /** Superseding by memories that cannot reach the target keeps the graph acyclic. */
  lemma RepointKeepsAcyclic(g: Memories, h: Memories, target: MemoryId, byIds: seq<MemoryId>)
    requires Acyclic(g) && Repointed(g, h, target, byIds)
    requires forall b, k: nat :: b in byIds ==> !Walk(g, b, target, k)
    ensures Acyclic(h)
  {
    forall n, hops: nat | hops > 0 ensures !Walk(h, n, n, hops) {
      if Walk(h, n, n, hops) {
        OldOrThrough(g, h, target, byIds, n, n, hops);
        var i: nat :| i < hops && Walk(h, n, target, i) && Walk(h, target, n, hops - i);
        WalkConcat(h, target, n, target, hops - i, i);
        var b := WalkFirst(h, target, target, hops);
        StillUnreachable(g, h, target, byIds, b, hops - 1);
      }
    }
  }

  lemma FewerPointersKeepAcyclic(g: Memories, h: Memories)
    requires Acyclic(g)
    requires forall n :: forall s :: s in Successors(h, n) ==> s in Successors(g, n)
    ensures Acyclic(h)
  {
    forall n, hops: nat | hops > 0 ensures !Walk(h, n, n, hops) {
      if Walk(h, n, n, hops) {
        WalkMonotone(g, h, n, n, hops);
      }
    }
  }

  // ---------------------------------------------------------------------------
  // resolve_head
  // ---------------------------------------------------------------------------

  datatype Heads = NotFound | Heads(heads: seq<MemoryId>, hops: nat)

  /** A memory at the end of a chain, with something stored in it. */
  predicate Active(g: Memories, n: MemoryId)
  {
    n in g && !g[n].Empty? && SupersededIds(g[n]) == []
  }

  /** The active nodes met for the first time in one round, in order. */
  function NewHeads(g: Memories, frontier: seq<MemoryId>, visited: set<MemoryId>): seq<MemoryId>
  {
    if frontier == [] then []
    else if frontier[0] in visited then NewHeads(g, frontier[1..], visited)
    else (if Active(g, frontier[0]) then [frontier[0]] else []) + NewHeads(g, frontier[1..], visited + {frontier[0]})
  }

  /** Rounds `hops`, ..., `limit` of the walk. */
  function Resolve(g: Memories, frontier: seq<MemoryId>, visited: set<MemoryId>, heads: seq<MemoryId>,
                   hops: nat, limit: nat): Heads
    requires hops <= limit + 1
    decreases limit + 1 - hops
  {
    if frontier == [] || hops == limit + 1 then Heads(heads, hops)
    else
      var (next, seen) := Expand(g, frontier, visited);
      var found := heads + NewHeads(g, frontier, visited);
      if next == [] then Heads(found, hops) else Resolve(g, next, seen, found, hops + 1, limit)
  }

  function ResolveHeadSpec(g: Memories, id: MemoryId): Heads
  {
    if id !in g then NotFound else Resolve(g, [id], {}, [], 0, MAX_CHAIN_DEPTH)
  }

  predicate Distinct(s: seq<MemoryId>)
  {
    forall i, j :: 0 <= i < j < |s| ==> s[i] != s[j]
  }

  lemma {:induction false} NewHeadsMeaning(g: Memories, frontier: seq<MemoryId>, visited: set<MemoryId>)
    ensures forall n :: n in NewHeads(g, frontier, visited) <==> n in frontier && n !in visited && Active(g, n)
    ensures Distinct(NewHeads(g, frontier, visited))
  {
    if frontier != [] {
      var n0, rest := frontier[0], frontier[1..];
      assert frontier == [n0] + rest;
      if n0 in visited {
        NewHeadsMeaning(g, rest, visited);
      } else {
        NewHeadsMeaning(g, rest, visited + {n0});
      }
    }
  }

  /** Before round `hops` the heads are the active nodes seen so far. */
  ghost predicate Collected(g: Memories, visited: set<MemoryId>, heads: seq<MemoryId>)
  {
    Distinct(heads) && forall n :: n in heads <==> n in visited && Active(g, n)
  }

  lemma CollectedStep(g: Memories, frontier: seq<MemoryId>, visited: set<MemoryId>, heads: seq<MemoryId>)
    requires Collected(g, visited, heads)
    ensures Collected(g, Expand(g, frontier, visited).1, heads + NewHeads(g, frontier, visited))
  {
    ExpandMeaning(g, frontier, visited);
    NewHeadsMeaning(g, frontier, visited);
    var more := NewHeads(g, frontier, visited);
    forall n ensures n in heads + more <==> n in Expand(g, frontier, visited).1 && Active(g, n) {
      assert n in heads + more <==> n in heads || n in more;
    }
    forall i, j | 0 <= i < j < |heads + more| ensures (heads + more)[i] != (heads + more)[j] {
      if i < |heads| <= j {
        assert heads[i] in visited && more[j - |heads|] in more;
      }
    }
  }

  ghost predicate ExactHeads(g: Memories, sources: set<MemoryId>, r: Heads, bound: nat)
  {
    r.Heads? && Distinct(r.heads) && forall n :: n in r.heads <==> Active(g, n) && Within(g, sources, n, bound)
  }

  lemma {:induction false} ResolveMeaning(g: Memories, sources: set<MemoryId>, frontier: seq<MemoryId>,
                                          visited: set<MemoryId>, heads: seq<MemoryId>, hops: nat, limit: nat)
    requires hops <= limit + 1
    requires Rounds(g, sources, frontier, visited, hops) && Collected(g, visited, heads)
    ensures ExactHeads(g, sources, Resolve(g, frontier, visited, heads, hops, limit), limit + 1)
    decreases limit + 1 - hops
  {
    var (next, seen) := Expand(g, frontier, visited);
    var found := heads + NewHeads(g, frontier, visited);
    if frontier == [] {
      ExhaustedHeads(g, sources, visited, heads, hops, hops, limit + 1);
    } else if hops == limit + 1 {
      CutOffHeads(g, sources, frontier, visited, heads, hops);
    } else if next == [] {
      LastRound(g, sources, frontier, visited, heads, hops, limit);
    } else {
      assert ExactHeads(g, sources, Resolve(g, next, seen, found, hops + 1, limit), limit + 1) by {
        RoundDone(g, sources, frontier, visited, heads, hops);
        ResolveMeaning(g, sources, next, seen, found, hops + 1, limit);
      }
    }
  }

  lemma LastRound(g: Memories, sources: set<MemoryId>, frontier: seq<MemoryId>, visited: set<MemoryId>,
                  heads: seq<MemoryId>, hops: nat, limit: nat)
    requires hops <= limit && frontier != [] && Expand(g, frontier, visited).0 == []
    requires Rounds(g, sources, frontier, visited, hops) && Collected(g, visited, heads)
    ensures ExactHeads(g, sources, Resolve(g, frontier, visited, heads, hops, limit), limit + 1)
  {
    hide Rounds, Collected, ExactHeads, NewHeads;
    var (next, seen) := Expand(g, frontier, visited);
    var found := heads + NewHeads(g, frontier, visited);
    RoundDone(g, sources, frontier, visited, heads, hops);
    assert ExactHeads(g, sources, Heads(found, hops), limit + 1) by {
      ExhaustedHeads(g, sources, seen, found, hops + 1, hops, limit + 1);
    }
    assert Resolve(g, frontier, visited, heads, hops, limit) == Heads(found, hops);
  }

  lemma RoundDone(g: Memories, sources: set<MemoryId>, frontier: seq<MemoryId>, visited: set<MemoryId>,
                  heads: seq<MemoryId>, hops: nat)
    requires Rounds(g, sources, frontier, visited, hops) && Collected(g, visited, heads)
    ensures var (next, seen) := Expand(g, frontier, visited);
            Rounds(g, sources, next, seen, hops + 1) && Collected(g, seen, heads + NewHeads(g, frontier, visited))
  {
    RoundsStep(g, sources, frontier, visited, hops);
    CollectedStep(g, frontier, visited, heads);
  }

  lemma CutOffHeads(g: Memories, sources: set<MemoryId>, frontier: seq<MemoryId>, visited: set<MemoryId>,
                    heads: seq<MemoryId>, hops: nat)
    requires Rounds(g, sources, frontier, visited, hops) && Collected(g, visited, heads)
    ensures ExactHeads(g, sources, Heads(heads, hops), hops)
  {
  }

  lemma ExhaustedHeads(g: Memories, sources: set<MemoryId>, visited: set<MemoryId>, heads: seq<MemoryId>,
                       depth: nat, hops: nat, bound: nat)
    requires depth <= bound && Rounds(g, sources, [], visited, depth) && Collected(g, visited, heads)
    ensures ExactHeads(g, sources, Heads(heads, hops), bound)
  {
    ExhaustedWithin(g, sources, visited, depth, bound);
  }

  lemma ExhaustedWithin(g: Memories, sources: set<MemoryId>, visited: set<MemoryId>, depth: nat, bound: nat)
    requires depth <= bound && Rounds(g, sources, [], visited, depth)
    ensures forall n :: n in visited <==> Within(g, sources, n, bound)
  {
    forall n ensures n in visited <==> Within(g, sources, n, bound) {
      if n in visited {
        var k: nat :| k < depth && ReachIn(g, sources, n, k);
      }
      if Within(g, sources, n, bound) {
        var k: nat :| k < bound && ReachIn(g, sources, n, k);
        RoundsExhausted(g, sources, visited, depth, n, k);
      }
    }
  }

  /** `resolve_head` returns each active memory within 100 hops exactly once, and nothing else. */
  lemma ResolveHeadExact(g: Memories, id: MemoryId)
    ensures id !in g ==> ResolveHeadSpec(g, id) == NotFound
    ensures id in g ==> ExactHeads(g, {id}, ResolveHeadSpec(g, id), MAX_CHAIN_DEPTH + 1)
    ensures id in g ==>
              forall n :: n in ResolveHeadSpec(g, id).heads <==>
                n in g && g[n].Payload? && g[n].supersededBy == [] && Within(g, {id}, n, 101)
  {
    if id in g {
      ResolveMeaning(g, {id}, [id], {}, [], 0, MAX_CHAIN_DEPTH);
    }
  }

  /** `n` lies strictly below every member of `above`. */
  ghost predicate Below(g: Memories, above: set<MemoryId>, n: MemoryId)
  {
    forall x :: x in above ==> exists k: nat :: k > 0 && Walk(g, x, n, k)
  }

  lemma BelowStep(g: Memories, above: set<MemoryId>, n: MemoryId, m: MemoryId)
    requires Acyclic(g) && Below(g, above, n) && m in Successors(g, n)
    ensures n !in above && Below(g, above + {n}, m)
  {
    WalkStep(g, n, m);
    forall x | x in above ensures exists k: nat :: k > 0 && Walk(g, x, m, k) {
      var k: nat :| k > 0 && Walk(g, x, n, k);
      WalkConcat(g, x, n, m, k, 1);
    }
  }

  /** Some chain from `n` ends in a memory without successors. */
  ghost predicate Ends(g: Memories, n: MemoryId)
  {
    exists sink, hops: nat :: sink in g && SupersededIds(g[sink]) == [] && Walk(g, n, sink, hops)
  }

  lemma EndsStep(g: Memories, n: MemoryId, m: MemoryId)
    requires m in Successors(g, n) && Ends(g, m)
    ensures Ends(g, n)
  {
    var sink, hops: nat :| sink in g && SupersededIds(g[sink]) == [] && Walk(g, m, sink, hops);
    WalkStep(g, n, m);
    WalkConcat(g, n, m, sink, 1, hops);
  }

  /** On an acyclic graph without dangling pointers every chain ends. */
  lemma {:induction false} ChainEnds(g: Memories, n: MemoryId, above: set<MemoryId>)
    requires Acyclic(g) && NoDangling(g) && n in g
    requires above <= g.Keys && Below(g, above, n)
    ensures Ends(g, n)
    decreases |g.Keys - above|
  {
    if SupersededIds(g[n]) == [] {
      assert Walk(g, n, n, 0);
    } else {
      var m := SupersededIds(g[n])[0];
      assert m in Successors(g, n) && m in g;
      BelowStep(g, above, n, m);
      assert n in g.Keys - above && n !in g.Keys - (above + {n});
      SubsetSmaller(g.Keys - (above + {n}), g.Keys - above);
      ChainEnds(g, m, above + {n});
      EndsStep(g, n, m);
    }
  }

  lemma SubsetSmaller(a: set<MemoryId>, b: set<MemoryId>)
    requires a < b
    ensures |a| < |b|
  {
    assert b == a + (b - a);
    assert b - a != {};
  }

  /** When everything reachable lies within 100 hops, `resolve_head` finds all heads, and on a
      healthy graph with non-empty payloads there is at least one. */
  lemma ResolveHeadFindsAHead(g: Memories, id: MemoryId)
    requires id in g && Acyclic(g) && NoDangling(g) && forall n :: n in g ==> !g[n].Empty?
    requires forall n, k: nat :: Walk(g, id, n, k) ==> Within(g, {id}, n, MAX_CHAIN_DEPTH + 1)
    ensures var r := ResolveHeadSpec(g, id);
            && r.Heads? && r.heads != []
            && forall n, k: nat :: Active(g, n) && Walk(g, id, n, k) ==> n in r.heads
  {
    ResolveHeadExact(g, id);
    ChainEnds(g, id, {});
    var sink, hops: nat :| sink in g && SupersededIds(g[sink]) == [] && Walk(g, id, sink, hops);
    assert Active(g, sink);
    assert sink in ResolveHeadSpec(g, id).heads;
  }

  /** The loop of the source. */
  method ResolveHead(g: Memories, id: MemoryId) returns (r: Heads)
    ensures r == ResolveHeadSpec(g, id)
  {
    if id !in g {
      return NotFound;
    }
    var heads: seq<MemoryId>, visited, frontier, hops := [], {}, [id], 0;
    while frontier != [] && hops <= MAX_CHAIN_DEPTH
      invariant hops <= MAX_CHAIN_DEPTH + 1
      invariant Resolve(g, frontier, visited, heads, hops, MAX_CHAIN_DEPTH) == ResolveHeadSpec(g, id)
      decreases MAX_CHAIN_DEPTH + 1 - hops, frontier != []
    {
      var next: seq<MemoryId>, seen, found := [], visited, heads;
      for i := 0 to |frontier|
        invariant Expand(g, frontier, visited).0 == next + Expand(g, frontier[i..], seen).0
        invariant Expand(g, frontier, visited).1 == Expand(g, frontier[i..], seen).1
        invariant heads + NewHeads(g, frontier, visited) == found + NewHeads(g, frontier[i..], seen)
      {
        assert frontier[i..][0] == frontier[i] && frontier[i..][1..] == frontier[i + 1..];
        var node := frontier[i];
        if node in seen {
          continue;
        }
        seen := seen + {node};
        if Successors(g, node) != [] {
          next := next + Successors(g, node);
        } else if node in g && !g[node].Empty? {
          found := found + [node];
        }
      }
      assert frontier[|frontier|..] == [] && next + [] == next && found + [] == found;
      frontier, visited, heads := next, seen, found;
      if frontier != [] {
        hops := hops + 1;
      }
    }
    return Heads(heads, hops);
  }
}
