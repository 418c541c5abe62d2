/** What the batch plan guarantees (src/memline/wiki/batch.py). */
module BatchLaws {
  import opened Strings
  import opened Batch
  import opened Sequences

  // ---------------------------------------------------------------------------
  // Grouping loses nothing
  // ---------------------------------------------------------------------------

  lemma {:induction false} FlattenAppend(a: seq<Group>, b: seq<Group>)
    ensures Flatten(a + b) == Flatten(a) + Flatten(b)
  {
    if b == [] {
      assert a + b == a;
    } else {
      var n := |b| - 1;
      LastOfAppend(a, b);
      FlattenAppend(a, b[..n]);
      Associative(Flatten(a), Flatten(b[..n]), b[n].members);
    }
  }

  lemma FlattenOne(g: Group)
    ensures Flatten([g]) == g.members
  {
    assert [g][..0] == [];
    assert Flatten([g]) == Flatten([]) + g.members;
  }

  lemma AppendKeeps(groups: seq<Group>, m: Memory)
    ensures multiset(Flatten(Append(groups, m))) == multiset(Flatten(groups)) + multiset{m}
  {
    var i := Find(groups, m.session);
    if i < |groups| {
      var g := Group(m.session, groups[i].members + [m]);
      var before, after := groups[..i], groups[i + 1..];
      assert groups == before + [groups[i]] + after;
      assert Append(groups, m) == before + [g] + after;
      FlattenAppend(before + [groups[i]], after);
      FlattenAppend(before, [groups[i]]);
      FlattenAppend(before + [g], after);
      FlattenAppend(before, [g]);
      FlattenOne(g);
      FlattenOne(groups[i]);
    } else {
      FlattenAppend(groups, [Group(m.session, [m])]);
      FlattenOne(Group(m.session, [m]));
    }
  }

  lemma LastOfLedger(ms: seq<Memory>, n: nat)
    requires n == |ms| - 1
    ensures multiset(LedgerOf(ms)) == multiset(LedgerOf(ms[..n])) + if InLedger(ms[n]) then multiset{ms[n]} else multiset{}
  {
    var last := if InLedger(ms[n]) then [ms[n]] else [];
    assert multiset(LedgerOf(ms[..n]) + last) == multiset(LedgerOf(ms[..n])) + multiset(last);
  }

  lemma LastGrouped(ms: seq<Memory>, n: nat)
    requires n == |ms| - 1
    ensures Groups(ms) == if InLedger(ms[n]) then Groups(ms[..n]) else Append(Groups(ms[..n]), ms[n])
  {
  }

  lemma {:induction false} GroupingKeeps(ms: seq<Memory>)
    ensures multiset(Flatten(Groups(ms))) + multiset(LedgerOf(ms)) == multiset(ms)
  {
    if ms != [] {
      hide Flatten, LedgerOf, Groups, Append;
      var n := |ms| - 1;
      GroupingKeeps(ms[..n]);
      SplitLast(ms);
      LastOfLedger(ms, n);
      LastGrouped(ms, n);
      if !InLedger(ms[n]) {
        AppendKeeps(Groups(ms[..n]), ms[n]);
      }
    }
  }

  /** One group per session, holding memories of that session only, in the order of their first memories. */
  predicate WellGrouped(groups: seq<Group>, ms: seq<Memory>)
  {
    && (forall i, j :: 0 <= i < j < |groups| ==> groups[i].sid != groups[j].sid)
    && (forall i :: 0 <= i < |groups| ==> groups[i].members != [] && groups[i].members[0] in ms)
    && (forall i, j :: 0 <= i < |groups| && 0 <= j < |groups[i].members| ==>
          groups[i].members[j].session == groups[i].sid && !InLedger(groups[i].members[j]))
  }

  predicate FirstsOrdered(groups: seq<Group>)
    requires AllFilled(groups)
  {
    forall i, j :: 0 <= i < j < |groups| ==> Before(groups[i].members[0], groups[j].members[0])
  }

  lemma AppendWell(groups: seq<Group>, ms: seq<Memory>, m: Memory)
    requires WellGrouped(groups, ms) && !InLedger(m)
    ensures WellGrouped(Append(groups, m), ms + [m])
  {
    var i := Find(groups, m.session);
    var after := Append(groups, m);
    if i < |groups| {
      assert after[i].members[0] == groups[i].members[0];
    }
  }

  lemma AppendOrdered(groups: seq<Group>, ms: seq<Memory>, m: Memory)
    requires WellGrouped(groups, ms) && AllFilled(groups) && FirstsOrdered(groups)
    requires forall x :: x in ms ==> Before(x, m)
    ensures AllFilled(Append(groups, m)) && FirstsOrdered(Append(groups, m))
  {
  }

  lemma {:induction false} GroupsWell(ms: seq<Memory>)
    requires Ordered(ms)
    ensures WellGrouped(Groups(ms), ms) && AllFilled(Groups(ms)) && FirstsOrdered(Groups(ms))
  {
    if ms != [] {
      var n := |ms| - 1;
      GroupsWell(ms[..n]);
      assert ms == ms[..n] + [ms[n]];
      if !InLedger(ms[n]) {
        AppendWell(Groups(ms[..n]), ms[..n], ms[n]);
        AppendOrdered(Groups(ms[..n]), ms[..n], ms[n]);
      }
    }
  }

  /** The sort of the sessions finds them in order already: the order of a plan is the order of first
      memories, ties broken by id. */
  lemma {:induction false} SessionsInOrder(groups: seq<Group>)
    requires AllFilled(groups) && FirstsOrdered(groups)
    ensures SortGroups(groups) == groups
  {
    if groups != [] {
      hide Before;
      RestOrdered(groups);
      SessionsInOrder(groups[1..]);
      assert groups == [groups[0]] + groups[1..];
    }
  }

  lemma RestOrdered(groups: seq<Group>)
    requires groups != [] && AllFilled(groups) && FirstsOrdered(groups)
    ensures AllFilled(groups[1..]) && FirstsOrdered(groups[1..])
    ensures |groups| > 1 ==> Le(Created(groups[0].members[0]), Created(groups[1].members[0]))
  {
    if |groups| > 1 {
      assert Before(groups[0].members[0], groups[1].members[0]);
      LeReflexive(Created(groups[0].members[0]));
    }
    forall i, j | 0 <= i < j < |groups[1..]| ensures Before(groups[1..][i].members[0], groups[1..][j].members[0]) {
      assert Before(groups[i + 1].members[0], groups[j + 1].members[0]);
    }
  }

  /** The sessions of a plan, in the order of the plan. */
  function SessionsOf(memories: seq<Memory>): seq<Group>
  {
    Groups(SortMemories(memories))
  }

  lemma PlanOf(memories: seq<Memory>, max: nat, threshold: int)
    requires max >= 1
    ensures AllFilled(SessionsOf(memories))
    ensures Plan(memories, max, threshold)
         == SessionBatches(SessionsOf(memories), max, threshold) + LedgerBatches(LedgerOf(SortMemories(memories)), max)
  {
    SortSorts(memories);
    GroupsWell(SortMemories(memories));
    SessionsInOrder(SessionsOf(memories));
  }

  // ---------------------------------------------------------------------------
  // Conservation
  // ---------------------------------------------------------------------------

  function AllIds(batches: seq<BatchPlan>): seq<MemoryId>
  {
    if batches == [] then [] else AllIds(batches[..|batches| - 1]) + batches[|batches| - 1].memoryIds
  }

  lemma {:induction false} AllIdsAppend(a: seq<BatchPlan>, b: seq<BatchPlan>)
    ensures AllIds(a + b) == AllIds(a) + AllIds(b)
  {
    if b == [] {
      assert a + b == a;
    } else {
      var n := |b| - 1;
      LastOfAppend(a, b);
      AllIdsAppend(a, b[..n]);
      Associative(AllIds(a), AllIds(b[..n]), b[n].memoryIds);
    }
  }

  lemma AllIdsOne(b: BatchPlan)
    ensures AllIds([b]) == b.memoryIds
  {
    assert [b][..0] == [];
    assert AllIds([b]) == AllIds([]) + b.memoryIds;
  }

  lemma IdsAppend(a: seq<Memory>, b: seq<Memory>)
    ensures IdsOf(a + b) == IdsOf(a) + IdsOf(b)
  {
  }

  function Joined(chunks: seq<seq<Memory>>): seq<Memory>
  {
    if chunks == [] then [] else chunks[0] + Joined(chunks[1..])
  }

  /** The chunks are the memories, cut. */
  lemma {:induction false} ChunksJoin(ms: seq<Memory>, max: nat)
    requires max >= 1
    ensures Joined(Chunks(ms, max)) == ms
    decreases |ms|
  {
    if ms != [] {
      if |ms| <= max {
        assert [ms][1..] == [];
      } else {
        ChunksJoin(ms[max..], max);
        assert ([ms[..max]] + Chunks(ms[max..], max))[1..] == Chunks(ms[max..], max);
        assert ms == ms[..max] + ms[max..];
      }
    }
  }

  lemma {:induction false} ChunkIds(batches: seq<BatchPlan>, chunks: seq<seq<Memory>>)
    requires |batches| == |chunks| && forall i :: 0 <= i < |batches| ==> batches[i].memoryIds == IdsOf(chunks[i])
    ensures AllIds(batches) == IdsOf(Joined(chunks))
  {
    if batches != [] {
      ChunkIds(batches[1..], chunks[1..]);
      assert batches == [batches[0]] + batches[1..];
      AllIdsAppend([batches[0]], batches[1..]);
      AllIdsOne(batches[0]);
      IdsAppend(chunks[0], Joined(chunks[1..]));
    }
  }

  lemma PartIds(g: Group, max: nat)
    requires max >= 1
    ensures AllIds(PartBatches(g, max)) == IdsOf(g.members)
  {
    ChunkIds(PartBatches(g, max), Chunks(g.members, max));
    ChunksJoin(g.members, max);
  }

  lemma FlushIds(batches: seq<BatchPlan>, pending: seq<Group>)
    requires AllFilled(pending)
    ensures AllIds(Flushed(batches, pending)) == AllIds(batches) + IdsOf(Flatten(pending))
  {
    if pending != [] {
      AllIdsAppend(batches, [PackBatch(pending)]);
      AllIdsOne(PackBatch(pending));
    } else {
      assert IdsOf(Flatten(pending)) == [];
    }
  }

  lemma NoIds()
    ensures IdsOf(Flatten([])) == []
  {
  }

  lemma PlacedIds(p: Packing, g: Group, max: nat, threshold: int)
    requires max >= 1 && AllFilled(p.pending) && g.members != []
    ensures var q := Placed(p, g, max, threshold);
            AllIds(q.batches) + IdsOf(Flatten(q.pending)) == AllIds(p.batches) + IdsOf(Flatten(p.pending)) + IdsOf(g.members)
  {
    hide Flushed, AllIds, Flatten, PartBatches, IdsOf;
    FlushIds(p.batches, p.pending);
    FlattenOne(g);
    NoIds();
    if |g.members| > max {
      AllIdsAppend(Flushed(p.batches, p.pending), PartBatches(g, max));
      PartIds(g, max);
    } else if |g.members| >= threshold {
      FlushIds(Flushed(p.batches, p.pending), [g]);
    } else if Load(p.pending) + |g.members| <= max {
      FlattenAppend(p.pending, [g]);
      IdsAppend(Flatten(p.pending), g.members);
    }
  }

  lemma {:induction false} PackedIds(groups: seq<Group>, max: nat, threshold: int)
    requires max >= 1 && AllFilled(groups)
    ensures var p := Packed(groups, max, threshold);
            AllIds(p.batches) + IdsOf(Flatten(p.pending)) == IdsOf(Flatten(groups))
  {
    if groups != [] {
      hide Placed;
      var n := |groups| - 1;
      PackedIds(groups[..n], max, threshold);
      PlacedIds(Packed(groups[..n], max, threshold), groups[n], max, threshold);
      IdsAppend(Flatten(groups[..n]), groups[n].members);
    }
  }

  /** The plan holds the memories session by session in the order of their first memories, each session in
      order, then the ledger in order: as a sequence of ids, the plan is exactly that. */
  lemma PlanIds(memories: seq<Memory>, max: nat, threshold: int)
    requires max >= 1
    ensures AllIds(Plan(memories, max, threshold))
         == IdsOf(Flatten(SessionsOf(memories))) + IdsOf(LedgerOf(SortMemories(memories)))
  {
    var groups, ledger := SessionsOf(memories), LedgerOf(SortMemories(memories));
    PlanOf(memories, max, threshold);
    var p := Packed(groups, max, threshold);
    PackedIds(groups, max, threshold);
    FlushIds(p.batches, p.pending);
    AllIdsAppend(SessionBatches(groups, max, threshold), LedgerBatches(ledger, max));
    ChunkIds(LedgerBatches(ledger, max), Chunks(ledger, max));
    ChunksJoin(ledger, max);
  }

  lemma RemoveAt(b: seq<Memory>, i: nat)
    requires i < |b|
    ensures multiset(b[..i] + b[i + 1..]) == multiset(b) - multiset{b[i]}
    ensures multiset(IdsOf(b)) == multiset(IdsOf(b[..i] + b[i + 1..])) + multiset{b[i].id}
  {
    hide IdsOf;
    var l, x, r := b[..i], [b[i]], b[i + 1..];
    assert b == l + x + r;
    IdsAppend(l + x, r);
    IdsAppend(l, x);
    IdsAppend(l, r);
    assert IdsOf(x) == [b[i].id];
  }

  lemma Locate(x: Memory, b: seq<Memory>) returns (i: nat)
    requires x in multiset(b)
    ensures i < |b| && b[i] == x
  {
    i :| 0 <= i < |b| && b[i] == x;
  }

  lemma RemoveFirst(a: seq<Memory>)
    requires a != []
    ensures multiset(a[1..]) == multiset(a) - multiset{a[0]}
    ensures multiset(IdsOf(a)) == multiset(IdsOf(a[1..])) + multiset{a[0].id}
  {
    hide IdsOf;
    var x, t := [a[0]], a[1..];
    assert a == x + t;
    assert multiset(x + t) == multiset(x) + multiset(t);
    IdsAppend(x, t);
    assert IdsOf(x) == [a[0].id];
    assert multiset(IdsOf(x) + IdsOf(t)) == multiset([a[0].id]) + multiset(IdsOf(t));
  }

  lemma NoneLeft(a: seq<Memory>, b: seq<Memory>)
    requires multiset(a) == multiset(b)
    ensures |a| == |b|
  {
    assert |multiset(a)| == |a| && |multiset(b)| == |b|;
  }

  lemma {:induction false} IdsMultiset(a: seq<Memory>, b: seq<Memory>)
    requires multiset(a) == multiset(b)
    ensures multiset(IdsOf(a)) == multiset(IdsOf(b))
    decreases |a|
  {
    hide IdsOf;
    NoneLeft(a, b);
    if a == [] {
      assert a == b;
    } else {
      assert a[0] in multiset(a);
      var i := Locate(a[0], b);
      var rest := b[..i] + b[i + 1..];
      RemoveFirst(a);
      RemoveAt(b, i);
      IdsMultiset(a[1..], rest);
    }
  }

  /** Nothing is lost and nothing is doubled: the ids in the batches are the ids of the memories. */
  lemma PlanConserves(memories: seq<Memory>, max: nat, threshold: int)
    requires max >= 1
    ensures multiset(AllIds(Plan(memories, max, threshold))) == multiset(IdsOf(memories))
  {
    var ms := SortMemories(memories);
    PlanIds(memories, max, threshold);
    SortSorts(memories);
    GroupingKeeps(ms);
    var parts := Flatten(Groups(ms)) + LedgerOf(ms);
    assert multiset(parts) == multiset(memories);
    IdsMultiset(parts, memories);
    IdsAppend(Flatten(Groups(ms)), LedgerOf(ms));
  }

  lemma {:induction false} InBatches(batches: seq<BatchPlan>, i: nat, id: MemoryId)
    requires i < |batches| && id in batches[i].memoryIds
    ensures id in AllIds(batches)
  {
    if i < |batches| - 1 {
      InBatches(batches[..|batches| - 1], i, id);
    }
  }

  lemma {:induction false} FromBatch(batches: seq<BatchPlan>, id: MemoryId)
    requires id in AllIds(batches)
    ensures exists i :: 0 <= i < |batches| && id in batches[i].memoryIds
  {
    var n := |batches| - 1;
    if id in batches[n].memoryIds {
    } else {
      FromBatch(batches[..n], id);
      var i :| 0 <= i < n && id in batches[..n][i].memoryIds;
      assert id in batches[i].memoryIds;
    }
  }

  lemma TwoBatches(batches: seq<BatchPlan>, i: nat, j: nat, id: MemoryId)
    requires i < j < |batches| && id in batches[i].memoryIds && id in batches[j].memoryIds
    ensures multiset(AllIds(batches))[id] >= 2
  {
    var a, b := batches[..j], batches[j..];
    assert batches == a + b;
    AllIdsAppend(a, b);
    InBatches(a, i, id);
    InBatches(b, 0, id);
  }

  /** With distinct ids, every memory lies in exactly one batch. */
  lemma PlanPartitions(memories: seq<Memory>, max: nat, threshold: int, m: Memory)
    requires max >= 1 && DistinctIds(memories) && m in memories
    ensures var batches := Plan(memories, max, threshold);
            && (exists i :: 0 <= i < |batches| && m.id in batches[i].memoryIds)
            && (forall i, j :: 0 <= i < |batches| && 0 <= j < |batches| && m.id in batches[i].memoryIds && m.id in batches[j].memoryIds
                  ==> i == j)
  {
    hide Plan, AllIds;
    var batches := Plan(memories, max, threshold);
    PlanConserves(memories, max, threshold);
    var k :| 0 <= k < |memories| && memories[k] == m;
    assert IdsOf(memories)[k] == m.id;
    assert m.id in multiset(IdsOf(memories));
    assert m.id in multiset(AllIds(batches));
    FromBatch(batches, m.id);
    OneOccurrence(IdsOf(memories), k);
    forall i, j | 0 <= i < |batches| && 0 <= j < |batches| && m.id in batches[i].memoryIds && m.id in batches[j].memoryIds
      ensures i == j
    {
      if i < j {
        TwoBatches(batches, i, j, m.id);
      } else if j < i {
        TwoBatches(batches, j, i, m.id);
      }
    }
  }

  lemma OneOccurrence(s: seq<MemoryId>, k: nat)
    requires k < |s| && forall i, j :: 0 <= i < j < |s| ==> s[i] != s[j]
    ensures multiset(s)[s[k]] == 1
  {
    assert s == s[..k] + [s[k]] + s[k + 1..];
    assert s[k] !in s[..k] && s[k] !in s[k + 1..];
  }

  // ---------------------------------------------------------------------------
  // The ceiling
  // ---------------------------------------------------------------------------

  predicate WithinCeiling(batches: seq<BatchPlan>, max: nat)
  {
    forall i :: 0 <= i < |batches| ==> 1 <= |batches[i].memoryIds| == batches[i].memoryCount <= max
  }

  lemma LoadOne(g: Group)
    ensures Load([g]) == |g.members|
  {
    FlattenOne(g);
  }

  lemma LoadMore(pending: seq<Group>, g: Group)
    ensures Load(pending + [g]) == Load(pending) + |g.members|
  {
    FlattenAppend(pending, [g]);
    FlattenOne(g);
  }

  lemma NoLoad()
    ensures Load([]) == 0
  {
  }

  lemma FlushWithin(batches: seq<BatchPlan>, pending: seq<Group>, max: nat)
    requires AllFilled(pending) && WithinCeiling(batches, max) && Load(pending) <= max
    ensures WithinCeiling(Flushed(batches, pending), max)
  {
    if pending != [] {
      FlattenFilled(pending);
    }
  }

  lemma WithinAppend(a: seq<BatchPlan>, b: seq<BatchPlan>, max: nat)
    requires WithinCeiling(a, max) && WithinCeiling(b, max)
    ensures WithinCeiling(a + b, max)
  {
  }

  lemma ChunksWithin(g: Group, ledger: seq<Memory>, max: nat)
    requires max >= 1
    ensures WithinCeiling(PartBatches(g, max), max) && WithinCeiling(LedgerBatches(ledger, max), max)
  {
  }

  lemma PlacedWithin(p: Packing, g: Group, max: nat, threshold: int)
    requires max >= 1 && AllFilled(p.pending) && g.members != []
    requires WithinCeiling(p.batches, max) && Load(p.pending) <= max
    ensures var q := Placed(p, g, max, threshold); WithinCeiling(q.batches, max) && Load(q.pending) <= max
  {
    hide WithinCeiling, Load, Flushed, PartBatches;
    LoadOne(g);
    LoadMore(p.pending, g);
    NoLoad();
    FlushWithin(p.batches, p.pending, max);
    if |g.members| > max {
      ChunksWithin(g, [], max);
      WithinAppend(Flushed(p.batches, p.pending), PartBatches(g, max), max);
    } else if |g.members| >= threshold {
      FlushWithin(Flushed(p.batches, p.pending), [g], max);
    }
  }

  lemma {:induction false} PackedWithin(groups: seq<Group>, max: nat, threshold: int)
    requires max >= 1 && AllFilled(groups)
    ensures var p := Packed(groups, max, threshold); WithinCeiling(p.batches, max) && Load(p.pending) <= max
  {
    if groups != [] {
      hide Placed, WithinCeiling;
      PackedWithin(groups[..|groups| - 1], max, threshold);
      PlacedWithin(Packed(groups[..|groups| - 1], max, threshold), groups[|groups| - 1], max, threshold);
    } else {
      assert Flatten([]) == [];
    }
  }

  /** No batch is empty and none exceeds the ceiling. */
  lemma PlanWithinCeiling(memories: seq<Memory>, max: nat, threshold: int)
    requires max >= 1
    ensures WithinCeiling(Plan(memories, max, threshold), max)
  {
    var groups := SessionsOf(memories);
    PlanOf(memories, max, threshold);
    hide WithinCeiling, Load, Flushed, Packed, LedgerBatches;
    PackedWithin(groups, max, threshold);
    var p := Packed(groups, max, threshold);
    FlushWithin(p.batches, p.pending, max);
    ChunksWithin(Group("", []), LedgerOf(SortMemories(memories)), max);
    WithinAppend(SessionBatches(groups, max, threshold), LedgerBatches(LedgerOf(SortMemories(memories)), max), max);
  }

  // ---------------------------------------------------------------------------
  // Parts and order
  // ---------------------------------------------------------------------------

  /** The parts of a session too large for one call: numbered from 1, each told the right count, and
      together the session, in order. */
  lemma PartsRejoin(g: Group, max: nat)
    requires max >= 1
    ensures var parts := PartBatches(g, max);
            && AllIds(parts) == IdsOf(g.members)
            && forall i :: 0 <= i < |parts| ==>
                 parts[i].kind == SessionPart && parts[i].sessionIds == [g.sid] && parts[i].part == PartOf(i + 1, |parts|)
  {
    PartIds(g, max);
  }

  /** The batches from position `at` on begin with `part`. */
  predicate Contains(batches: seq<BatchPlan>, part: seq<BatchPlan>, at: nat)
  {
    at + |part| <= |batches| && batches[at..at + |part|] == part
  }

  lemma ContainsLonger(batches: seq<BatchPlan>, part: seq<BatchPlan>, at: nat, more: seq<BatchPlan>)
    requires Contains(batches, part, at)
    ensures Contains(batches + more, part, at)
  {
    assert (batches + more)[at..at + |part|] == batches[at..at + |part|];
  }

  lemma FlushedPrefix(batches: seq<BatchPlan>, pending: seq<Group>) returns (more: seq<BatchPlan>)
    requires AllFilled(pending)
    ensures Flushed(batches, pending) == batches + more
  {
    more := if pending == [] then [] else [PackBatch(pending)];
  }

  lemma PlacedPrefix(p: Packing, g: Group, max: nat, threshold: int) returns (more: seq<BatchPlan>)
    requires max >= 1 && AllFilled(p.pending) && g.members != []
    ensures Placed(p, g, max, threshold).batches == p.batches + more
    ensures |g.members| > max ==> |more| >= |PartBatches(g, max)| && more[|more| - |PartBatches(g, max)|..] == PartBatches(g, max)
  {
    hide Flushed, PartBatches;
    var first := FlushedPrefix(p.batches, p.pending);
    if |g.members| > max {
      more := first + PartBatches(g, max);
      Associative(p.batches, first, PartBatches(g, max));
    } else if |g.members| >= threshold {
      var own := FlushedPrefix(Flushed(p.batches, p.pending), [g]);
      more := first + own;
      Associative(p.batches, first, own);
    } else if Load(p.pending) + |g.members| > max {
      more := first;
    } else {
      more := [];
    }
  }

  lemma EndsWith(batches: seq<BatchPlan>, more: seq<BatchPlan>, part: seq<BatchPlan>) returns (at: nat)
    requires |more| >= |part| && more[|more| - |part|..] == part
    ensures Contains(batches + more, part, at)
  {
    at := |batches| + |more| - |part|;
    assert (batches + more)[at..at + |part|] == more[|more| - |part|..];
  }

  lemma {:induction false} OversizedPacked(groups: seq<Group>, max: nat, threshold: int, k: nat) returns (at: nat)
    requires max >= 1 && AllFilled(groups) && k < |groups| && |groups[k].members| > max
    ensures Contains(Packed(groups, max, threshold).batches, PartBatches(groups[k], max), at)
  {
    var n := |groups| - 1;
    var p := Packed(groups[..n], max, threshold);
    var more := PlacedPrefix(p, groups[n], max, threshold);
    assert Packed(groups, max, threshold) == Placed(p, groups[n], max, threshold);
    hide Packed, Placed, PartBatches;
    if k == n {
      at := EndsWith(p.batches, more, PartBatches(groups[k], max));
    } else {
      hide Contains;
      at := OversizedPacked(groups[..n], max, threshold, k);
      ContainsLonger(p.batches, PartBatches(groups[k], max), at, more);
    }
  }

  /** A session too large for one call sits in the plan as its parts, one after the other. */
  lemma OversizedStaysTogether(memories: seq<Memory>, max: nat, threshold: int, k: nat) returns (at: nat)
    requires max >= 1 && k < |SessionsOf(memories)| && |SessionsOf(memories)[k].members| > max
    ensures Contains(Plan(memories, max, threshold), PartBatches(SessionsOf(memories)[k], max), at)
  {
    var groups := SessionsOf(memories);
    PlanOf(memories, max, threshold);
    var p := Packed(groups, max, threshold);
    at := OversizedPacked(groups, max, threshold, k);
    var last := FlushedPrefix(p.batches, p.pending);
    ContainsLonger(p.batches, PartBatches(groups[k], max), at, last);
    ContainsLonger(p.batches + last, PartBatches(groups[k], max), at, LedgerBatches(LedgerOf(SortMemories(memories)), max));
  }

  /** The sessions a batch opens: later parts open none. */
  function Opens(b: BatchPlan): seq<SessionId>
  {
    if b.part.PartOf? && b.part.number > 1 then [] else b.sessionIds
  }

  function Opened(batches: seq<BatchPlan>): seq<SessionId>
  {
    if batches == [] then [] else Opened(batches[..|batches| - 1]) + Opens(batches[|batches| - 1])
  }

  lemma {:induction false} OpenedAppend(a: seq<BatchPlan>, b: seq<BatchPlan>)
    ensures Opened(a + b) == Opened(a) + Opened(b)
  {
    if b == [] {
      assert a + b == a;
    } else {
      var n := |b| - 1;
      LastOfAppend(a, b);
      OpenedAppend(a, b[..n]);
      Associative(Opened(a), Opened(b[..n]), Opens(b[n]));
    }
  }

  lemma OpenedOne(b: BatchPlan)
    ensures Opened([b]) == Opens(b)
  {
    assert [b][..0] == [];
    assert Opened([b]) == Opened([]) + Opens(b);
  }

  lemma {:induction false} LaterPartsOpenNothing(parts: seq<BatchPlan>)
    requires forall i :: 0 <= i < |parts| ==> Opens(parts[i]) == []
    ensures Opened(parts) == []
  {
    if parts != [] {
      LaterPartsOpenNothing(parts[..|parts| - 1]);
    }
  }

  lemma PartOpens(g: Group, max: nat)
    requires max >= 1 && g.members != []
    ensures var parts := PartBatches(g, max);
            parts != [] && forall i :: 0 <= i < |parts| ==> Opens(parts[i]) == if i == 0 then [g.sid] else []
  {
  }

  lemma {:induction false} OnlyFirstOpens(parts: seq<BatchPlan>, sid: SessionId)
    requires parts != [] && forall i :: 0 <= i < |parts| ==> Opens(parts[i]) == if i == 0 then [sid] else []
    ensures Opened(parts) == [sid]
  {
    hide Opens;
    var n := |parts| - 1;
    if n > 0 {
      OnlyFirstOpens(parts[..n], sid);
    } else {
      assert parts[..n] == [];
    }
  }

  lemma PartsOpenOnce(g: Group, max: nat)
    requires max >= 1 && g.members != []
    ensures Opened(PartBatches(g, max)) == [g.sid]
  {
    PartOpens(g, max);
    OnlyFirstOpens(PartBatches(g, max), g.sid);
  }

  lemma FlushOpens(batches: seq<BatchPlan>, pending: seq<Group>)
    requires AllFilled(pending)
    ensures Opened(Flushed(batches, pending)) == Opened(batches) + Sids(pending)
  {
    if pending != [] {
      OpenedAppend(batches, [PackBatch(pending)]);
      OpenedOne(PackBatch(pending));
    } else {
      assert Sids(pending) == [];
    }
  }

  lemma SidsAppend(a: seq<Group>, g: Group)
    ensures Sids(a + [g]) == Sids(a) + [g.sid] && Sids([g]) == [g.sid] && Sids([]) == []
  {
  }

  lemma PlacedOpens(p: Packing, g: Group, max: nat, threshold: int)
    requires max >= 1 && AllFilled(p.pending) && g.members != []
    ensures var q := Placed(p, g, max, threshold);
            Opened(q.batches) + Sids(q.pending) == Opened(p.batches) + Sids(p.pending) + [g.sid]
  {
    hide Flushed, Opened, PartBatches, Sids;
    FlushOpens(p.batches, p.pending);
    SidsAppend(p.pending, g);
    if |g.members| > max {
      OpenedAppend(Flushed(p.batches, p.pending), PartBatches(g, max));
      PartsOpenOnce(g, max);
    } else if |g.members| >= threshold {
      FlushOpens(Flushed(p.batches, p.pending), [g]);
    }
  }

  lemma {:induction false} PackedOpens(groups: seq<Group>, max: nat, threshold: int)
    requires max >= 1 && AllFilled(groups)
    ensures var p := Packed(groups, max, threshold); Opened(p.batches) + Sids(p.pending) == Sids(groups)
  {
    if groups == [] {
      assert Opened([]) + Sids([]) == [];
    } else {
      var n := |groups| - 1;
      var p := Packed(groups[..n], max, threshold);
      assert Packed(groups, max, threshold) == Placed(p, groups[n], max, threshold);
      SplitLast(groups);
      hide Packed, Placed, Opened, Sids;
      PackedOpens(groups[..n], max, threshold);
      PlacedOpens(p, groups[n], max, threshold);
      SidsAppend(groups[..n], groups[n]);
    }
  }

  /** Every session is opened once, in the order of first memories. */
  lemma SessionOrderKept(memories: seq<Memory>, max: nat, threshold: int)
    requires max >= 1
    ensures Opened(Plan(memories, max, threshold)) == Sids(SessionsOf(memories))
  {
    var groups, ledger := SessionsOf(memories), LedgerOf(SortMemories(memories));
    PlanOf(memories, max, threshold);
    PackedOpens(groups, max, threshold);
    var p := Packed(groups, max, threshold);
    FlushOpens(p.batches, p.pending);
    OpenedAppend(SessionBatches(groups, max, threshold), LedgerBatches(ledger, max));
    LaterPartsOpenNothing(LedgerBatches(ledger, max));
  }

  // ---------------------------------------------------------------------------
  // Packs are full
  // ---------------------------------------------------------------------------

  /** A batch of sessions that are each too small for a call of their own. */
  predicate Small(b: BatchPlan, threshold: int)
  {
    (b.kind.Pack? || b.kind.Session?) && b.sessions != []
    && forall i :: 0 <= i < |b.sessions| ==> |b.sessions[i].memoryIds| < threshold
  }

  /** Two packs in a row together exceed the ceiling: they could not have been one. */
  predicate PacksFull(batches: seq<BatchPlan>, max: nat, threshold: int)
  {
    forall i :: 0 < i < |batches| && Small(batches[i - 1], threshold) && Small(batches[i], threshold)
      ==> batches[i - 1].memoryCount + batches[i].memoryCount > max
  }

  predicate AllSmall(pending: seq<Group>, threshold: int)
  {
    forall i :: 0 <= i < |pending| ==> |pending[i].members| < threshold
  }

  /** While packing: what is pending does not fit into a pack that precedes it, and a pack is only ever followed
      directly by something pending. */
  predicate PackingFull(p: Packing, max: nat, threshold: int)
  {
    && PacksFull(p.batches, max, threshold) && AllSmall(p.pending, threshold)
    && (p.batches != [] && Small(p.batches[|p.batches| - 1], threshold)
        ==> p.pending != [] && p.batches[|p.batches| - 1].memoryCount + Load(p.pending) > max)
  }

  lemma FullAppend(batches: seq<BatchPlan>, b: BatchPlan, max: nat, threshold: int)
    requires PacksFull(batches, max, threshold)
    requires batches != [] && Small(batches[|batches| - 1], threshold) && Small(b, threshold)
             ==> batches[|batches| - 1].memoryCount + b.memoryCount > max
    ensures PacksFull(batches + [b], max, threshold)
  {
  }

  lemma {:induction false} FullParts(batches: seq<BatchPlan>, more: seq<BatchPlan>, max: nat, threshold: int)
    requires PacksFull(batches, max, threshold) && forall i :: 0 <= i < |more| ==> !Small(more[i], threshold)
    ensures PacksFull(batches + more, max, threshold)
  {
    if more != [] {
      var n := |more| - 1;
      FullParts(batches, more[..n], max, threshold);
      FullAppend(batches + more[..n], more[n], max, threshold);
      assert batches + more == batches + more[..n] + [more[n]];
    } else {
      assert batches + more == batches;
    }
  }

  lemma PackCount(pending: seq<Group>)
    requires pending != [] && AllFilled(pending)
    ensures PackBatch(pending).memoryCount == Load(pending)
  {
  }

  lemma FlushFull(p: Packing, max: nat, threshold: int)
    requires AllFilled(p.pending) && PackingFull(p, max, threshold)
    ensures PacksFull(Flushed(p.batches, p.pending), max, threshold)
  {
    if p.pending != [] {
      PackCount(p.pending);
      hide PacksFull, Small, PackBatch, Load;
      FullAppend(p.batches, PackBatch(p.pending), max, threshold);
    }
  }

  lemma OwnBatchNotSmall(g: Group, threshold: int)
    requires g.members != [] && |g.members| >= threshold
    ensures !Small(PackBatch([g]), threshold)
  {
    var own := PackBatch([g]);
    assert own.sessions == Entries([g]) && |own.sessions[0].memoryIds| >= threshold;
  }

  lemma FlushedOne(batches: seq<BatchPlan>, g: Group)
    requires g.members != []
    ensures Flushed(batches, [g]) == batches + [PackBatch([g])]
  {
  }

  lemma PartsNotSmall(g: Group, max: nat, threshold: int)
    requires max >= 1 && g.members != []
    ensures PartBatches(g, max) != [] && forall i :: 0 <= i < |PartBatches(g, max)| ==> !Small(PartBatches(g, max)[i], threshold)
  {
  }

  lemma FlushedLast(batches: seq<BatchPlan>, pending: seq<Group>)
    requires AllFilled(pending) && pending != []
    ensures var f := Flushed(batches, pending); f != [] && f[|f| - 1].memoryCount == Load(pending)
  {
  }

  lemma PlacedFull(p: Packing, g: Group, max: nat, threshold: int)
    requires max >= 1 && AllFilled(p.pending) && g.members != [] && PackingFull(p, max, threshold)
    ensures PackingFull(Placed(p, g, max, threshold), max, threshold)
  {
    hide Small, PacksFull, Flushed, Load;
    var flushed := Flushed(p.batches, p.pending);
    FlushFull(p, max, threshold);
    if |g.members| > max {
      PartsNotSmall(g, max, threshold);
      assert |PartBatches(g, max)| > 0;
      FullParts(flushed, PartBatches(g, max), max, threshold);
    } else if |g.members| >= threshold {
      OwnBatchNotSmall(g, threshold);
      FlushedOne(flushed, g);
      FullAppend(flushed, PackBatch([g]), max, threshold);
    } else if Load(p.pending) + |g.members| > max {
      SmallStarts(p, g, max, threshold);
    } else {
      SmallJoins(p, g, max, threshold);
    }
  }

  lemma SmallJoins(p: Packing, g: Group, max: nat, threshold: int)
    requires PackingFull(p, max, threshold) && |g.members| < threshold
    ensures PackingFull(Packing(p.batches, p.pending + [g]), max, threshold)
  {
    hide PacksFull, Small, Load;
    LoadMore(p.pending, g);
  }

  /** A small session that does not fit starts a new pack. */
  lemma SmallStarts(p: Packing, g: Group, max: nat, threshold: int)
    requires max >= 1 && AllFilled(p.pending) && PacksFull(Flushed(p.batches, p.pending), max, threshold)
    requires 1 <= |g.members| <= max && |g.members| < threshold && Load(p.pending) + |g.members| > max
    ensures PackingFull(Packing(Flushed(p.batches, p.pending), [g]), max, threshold)
  {
    hide PacksFull, Small, PackBatch;
    LoadOne(g);
    if p.pending != [] {
      FlushedLast(p.batches, p.pending);
    } else {
      NoLoad();
    }
  }

  lemma {:induction false} PackedFull(groups: seq<Group>, max: nat, threshold: int)
    requires max >= 1 && AllFilled(groups)
    ensures PackingFull(Packed(groups, max, threshold), max, threshold)
  {
    if groups != [] {
      hide Placed, PackingFull;
      var n := |groups| - 1;
      PackedFull(groups[..n], max, threshold);
      PlacedFull(Packed(groups[..n], max, threshold), groups[n], max, threshold);
    }
  }

  /** No call is wasted: any two neighbouring packs of small sessions together exceed the ceiling. */
  lemma PlanPacksFull(memories: seq<Memory>, max: nat, threshold: int)
    requires max >= 1
    ensures PacksFull(Plan(memories, max, threshold), max, threshold)
  {
    var groups, ledger := SessionsOf(memories), LedgerOf(SortMemories(memories));
    PlanOf(memories, max, threshold);
    PackedFull(groups, max, threshold);
    FlushFull(Packed(groups, max, threshold), max, threshold);
    FullParts(SessionBatches(groups, max, threshold), LedgerBatches(ledger, max), max, threshold);
  }

  // ---------------------------------------------------------------------------
  // The plan does not depend on the order of the rows
  // ---------------------------------------------------------------------------

  lemma DistinctPermuted(a: seq<Memory>, b: seq<Memory>)
    requires multiset(a) == multiset(b) && DistinctIds(a)
    ensures DistinctIds(b)
  {
    IdsMultiset(a, b);
    forall i, j | 0 <= i < j < |b| ensures b[i].id != b[j].id {
      if b[i].id == b[j].id {
        Twice(IdsOf(b), i, j);
        assert IdsOf(b)[i] in multiset(IdsOf(a));
        var k :| 0 <= k < |a| && IdsOf(a)[k] == IdsOf(b)[i];
        OneOccurrence(IdsOf(a), k);
      }
    }
  }

  /** With distinct ids the store may return its rows in any order: the plan is the same. */
  lemma PlanIgnoresRowOrder(a: seq<Memory>, b: seq<Memory>, max: nat, threshold: int)
    requires max >= 1 && multiset(a) == multiset(b) && DistinctIds(a)
    ensures Plan(a, max, threshold) == Plan(b, max, threshold)
  {
    SameSorted(a, b);
  }

  lemma SameSorted(a: seq<Memory>, b: seq<Memory>)
    requires multiset(a) == multiset(b) && DistinctIds(a)
    ensures SortMemories(a) == SortMemories(b)
  {
    SortSorts(a);
    SortSorts(b);
    DistinctPermuted(a, SortMemories(a));
    OrderUnique(SortMemories(a), SortMemories(b));
  }

  predicate OnePerSession(groups: seq<Group>)
  {
    forall i, j :: 0 <= i < j < |groups| ==> groups[i].sid != groups[j].sid
  }

  lemma FlattenThree(l: seq<Group>, x: Group, r: seq<Group>)
    ensures Flatten(l + [x] + r) == Flatten(l) + x.members + Flatten(r)
  {
    hide Flatten;
    FlattenAppend(l + [x], r);
    FlattenAppend(l, [x]);
    FlattenOne(x);
  }

  lemma SplitAround(b: seq<Group>, i: nat)
    requires i < |b|
    ensures b == b[..i] + [b[i]] + b[i + 1..]
  {
  }

  lemma FlattenRemove(b: seq<Group>, i: nat)
    requires i < |b|
    ensures multiset(Flatten(b)) == multiset(Flatten(b[..i] + b[i + 1..])) + multiset(b[i].members)
  {
    hide Flatten;
    SplitAround(b, i);
    FlattenThree(b[..i], b[i], b[i + 1..]);
    FlattenAppend(b[..i], b[i + 1..]);
  }

  lemma RestMembers(b: seq<Group>, i: nat, g: Group)
    requires i < |b| && OnePerSession(b)
    ensures OnePerSession(b[..i] + b[i + 1..])
    ensures g in b[..i] + b[i + 1..] <==> g in b && g != b[i]
  {
    if g in b && g != b[i] {
      var j :| 0 <= j < |b| && b[j] == g;
      if j < i {
        assert b[..i][j] == g;
      } else {
        assert b[i + 1..][j - i - 1] == g;
      }
    }
  }

  /** Sessions walked from a list of sessions bring in no memory the list does not have. */
  lemma {:induction false} WalkedWithin(a: seq<Group>, b: seq<Group>)
    requires OnePerSession(a) && OnePerSession(b) && forall g :: g in a ==> g in b
    ensures multiset(Flatten(a)) <= multiset(Flatten(b))
    ensures (forall g :: g in b ==> g in a) ==> multiset(Flatten(a)) == multiset(Flatten(b))
    decreases |a|
  {
    hide Flatten;
    if a == [] {
      NothingWalked(b);
    } else {
      assert a[0] in b;
      var i :| 0 <= i < |b| && b[i] == a[0];
      var rest := b[..i] + b[i + 1..];
      FlattenRemove(a, 0);
      FlattenRemove(b, i);
      assert a[..0] + a[1..] == a[1..];
      RestMembers(a, 0, a[0]);
      RestMembers(b, i, a[0]);
      forall g ensures (g in a[1..] <==> g in a && g != a[0]) && (g in rest <==> g in b && g != a[0]) {
        RestMembers(a, 0, g);
        RestMembers(b, i, g);
      }
      WalkedWithin(a[1..], rest);
    }
  }

  lemma NothingWalked(b: seq<Group>)
    ensures Flatten([]) == [] && ((forall g :: g in b ==> g in []) ==> b == [])
  {
    if b != [] {
      assert b[0] in b;
    }
  }

  lemma {:induction false} RecentWithin(ms: seq<Memory>, since: string)
    ensures multiset(RecentOf(ms, since)) <= multiset(ms)
  {
    if ms != [] {
      RecentWithin(ms[..|ms| - 1], since);
      assert ms == ms[..|ms| - 1] + [ms[|ms| - 1]];
    }
  }

  lemma SubDistinct(a: seq<Memory>, b: seq<Memory>)
    requires multiset(a) <= multiset(b) && DistinctIds(b)
    ensures DistinctIds(a)
  {
    forall i, j | 0 <= i < j < |a| ensures a[i].id != a[j].id {
      assert a[i] in multiset(a) && a[j] in multiset(a);
      var k := Locate(a[i], b);
      var l := Locate(a[j], b);
      if k == l {
        Twice(a, i, j);
        OnceIn(b, k);
      }
    }
  }

  lemma OnceIn(b: seq<Memory>, k: nat)
    requires k < |b| && DistinctIds(b)
    ensures multiset(b)[b[k]] == 1
  {
    assert b == b[..k] + [b[k]] + b[k + 1..];
    assert b[k] !in b[..k] && b[k] !in b[k + 1..];
  }

  lemma SelectedDistinct(memories: seq<Memory>, since: string, order: seq<Group>)
    requires DistinctIds(memories) && WalksMoved(order, SessionsOf(memories), since)
    ensures DistinctIds(Selected(memories, since, order))
  {
    var ms := SortMemories(memories);
    SortSorts(memories);
    GroupsWell(ms);
    GroupingKeeps(ms);
    WalkedWithin(order, Groups(ms));
    RecentWithin(LedgerOf(ms), since);
    SubDistinct(Selected(memories, since, order), memories);
  }

  /** An incremental run walks the set of moved sessions in whatever order it iterates: the plan is the same. */
  lemma PlanIgnoresSetOrder(memories: seq<Memory>, since: string, x: seq<Group>, y: seq<Group>, max: nat, threshold: int)
    requires max >= 1 && DistinctIds(memories)
    requires WalksMoved(x, SessionsOf(memories), since) && WalksMoved(y, SessionsOf(memories), since)
    ensures Plan(Selected(memories, since, x), max, threshold) == Plan(Selected(memories, since, y), max, threshold)
  {
    WalkedWithin(x, y);
    SelectedDistinct(memories, since, x);
    PlanIgnoresRowOrder(Selected(memories, since, x), Selected(memories, since, y), max, threshold);
  }

  /** Neither the order of the rows the store returns nor the order in which the set of moved sessions
      iterates shows in the plan of an incremental run. */
  lemma PlanIgnoresOrder(a: seq<Memory>, b: seq<Memory>, since: string, x: seq<Group>, y: seq<Group>, max: nat, threshold: int)
    requires max >= 1 && multiset(a) == multiset(b) && DistinctIds(a)
    requires WalksMoved(x, SessionsOf(a), since) && WalksMoved(y, SessionsOf(b), since)
    ensures Plan(Selected(a, since, x), max, threshold) == Plan(Selected(b, since, y), max, threshold)
  {
    hide Plan, Selected, WalksMoved, SortMemories;
    SameSelection(a, b, since, y);
    PlanIgnoresSetOrder(a, since, x, y, max, threshold);
  }

  lemma SameSelection(a: seq<Memory>, b: seq<Memory>, since: string, y: seq<Group>)
    requires multiset(a) == multiset(b) && DistinctIds(a)
    ensures SessionsOf(a) == SessionsOf(b) && Selected(a, since, y) == Selected(b, since, y)
  {
    SameSorted(a, b);
  }

  // ---------------------------------------------------------------------------
  // What an incremental run reads again
  // ---------------------------------------------------------------------------

  predicate Holds(g: Group, x: Memory)
  {
    x in g.members
  }

  lemma {:induction false} FlattenMember(groups: seq<Group>, x: Memory)
    ensures x in Flatten(groups) <==> exists i :: 0 <= i < |groups| && Holds(groups[i], x)
  {
    if groups != [] {
      var n := |groups| - 1;
      FlattenMember(groups[..n], x);
      if i :| 0 <= i < |groups| && Holds(groups[i], x) && i < n {
        assert Holds(groups[..n][i], x);
      }
      if i :| 0 <= i < |groups[..n]| && Holds(groups[..n][i], x) {
        assert Holds(groups[i], x);
      }
      assert x in groups[n].members ==> Holds(groups[n], x);
    }
  }

  lemma {:induction false} LedgerMember(ms: seq<Memory>, x: Memory)
    ensures x in LedgerOf(ms) <==> x in ms && InLedger(x)
  {
    if ms != [] {
      var n := |ms| - 1;
      LedgerMember(ms[..n], x);
      assert x in ms <==> x in ms[..n] || x == ms[n];
    }
  }

  lemma {:induction false} RecentMember(ms: seq<Memory>, since: string, x: Memory)
    ensures x in RecentOf(ms, since) <==> x in ms && Recent(x, since)
  {
    if ms != [] {
      var n := |ms| - 1;
      RecentMember(ms[..n], since, x);
      assert x in ms <==> x in ms[..n] || x == ms[n];
    }
  }

  lemma SortedMember(memories: seq<Memory>, x: Memory)
    ensures x in SortMemories(memories) <==> x in memories
  {
    SortSorts(memories);
    assert x in multiset(SortMemories(memories)) <==> x in multiset(memories);
  }

  /** A memory with a session is in the group of that session, and only there. */
  lemma SessionMember(memories: seq<Memory>, i: nat, x: Memory)
    requires i < |SessionsOf(memories)|
    ensures Holds(SessionsOf(memories)[i], x) <==> x in memories && !InLedger(x) && x.session == SessionsOf(memories)[i].sid
  {
    var ms, groups := SortMemories(memories), SessionsOf(memories);
    SortSorts(memories);
    SortedMember(memories, x);
    GroupsWell(ms);
    GroupingKeeps(ms);
    LedgerMember(ms, x);
    FlattenMember(groups, x);
    assert x in multiset(ms) <==> x in multiset(Flatten(groups)) || x in multiset(LedgerOf(ms));
    if x in memories && !InLedger(x) && x.session == groups[i].sid {
      var j :| 0 <= j < |groups| && Holds(groups[j], x);
      assert j == i;
    }
  }

  lemma HasGroup(memories: seq<Memory>, x: Memory) returns (i: nat)
    requires x in memories && !InLedger(x)
    ensures i < |SessionsOf(memories)| && Holds(SessionsOf(memories)[i], x)
  {
    var ms, groups := SortMemories(memories), SessionsOf(memories);
    SortedMember(memories, x);
    GroupingKeeps(ms);
    LedgerMember(ms, x);
    FlattenMember(groups, x);
    assert x in multiset(ms) <==> x in multiset(Flatten(groups)) || x in multiset(LedgerOf(ms));
    i :| 0 <= i < |groups| && Holds(groups[i], x);
  }

  /** Some memory of the same session changed since the cursor. */
  predicate SessionMoved(memories: seq<Memory>, since: string, x: Memory)
  {
    exists k :: 0 <= k < |memories| && !InLedger(memories[k]) && memories[k].session == x.session && Recent(memories[k], since)
  }

  lemma MovedExactly(memories: seq<Memory>, since: string, i: nat, x: Memory)
    requires i < |SessionsOf(memories)| && Holds(SessionsOf(memories)[i], x)
    ensures Moved(SessionsOf(memories)[i], since) <==> SessionMoved(memories, since, x)
  {
    var g := SessionsOf(memories)[i];
    SessionMember(memories, i, x);
    if Moved(g, since) {
      var j :| 0 <= j < |g.members| && Recent(g.members[j], since);
      SessionMember(memories, i, g.members[j]);
      assert Holds(g, g.members[j]);
      var k :| 0 <= k < |memories| && memories[k] == g.members[j];
    }
    if k :| 0 <= k < |memories| && !InLedger(memories[k]) && memories[k].session == x.session && Recent(memories[k], since) {
      SessionMember(memories, i, memories[k]);
      var j :| 0 <= j < |g.members| && g.members[j] == memories[k];
    }
  }

  /** An incremental run reads again exactly the memories of the sessions in which something changed, whole,
      and the ledger memories that changed themselves. */
  lemma SelectedExactly(memories: seq<Memory>, since: string, order: seq<Group>, x: Memory)
    requires WalksMoved(order, SessionsOf(memories), since)
    ensures x in Selected(memories, since, order)
            <==> x in memories && if InLedger(x) then Recent(x, since) else SessionMoved(memories, since, x)
  {
    var ledger := LedgerOf(SortMemories(memories));
    SortedMember(memories, x);
    LedgerMember(SortMemories(memories), x);
    RecentMember(ledger, since, x);
    FlattenMember(order, x);
    if i :| 0 <= i < |order| && Holds(order[i], x) {
      assert order[i] in order;
      var k :| 0 <= k < |SessionsOf(memories)| && SessionsOf(memories)[k] == order[i];
      SessionMember(memories, k, x);
      MovedExactly(memories, since, k, x);
    }
    if x in memories && !InLedger(x) && SessionMoved(memories, since, x) {
      var k := HasGroup(memories, x);
      MovedExactly(memories, since, k, x);
      assert SessionsOf(memories)[k] in order;
      var i :| 0 <= i < |order| && order[i] == SessionsOf(memories)[k];
      assert Holds(order[i], x);
    }
  }
}
