/** What each batch of a plan holds, field by field, and what its order means in time
    (src/memline/wiki/batch.py). */
module PlanContents {
  import opened Strings
  import opened Sequences
  import opened Batch
  import opened BatchLaws
  import T = Timestamps

  // ---------------------------------------------------------------------------
  // Batches
  // ---------------------------------------------------------------------------

  predicate Among(gs: seq<Group>, groups: seq<Group>)
  {
    forall i :: 0 <= i < |gs| ==> gs[i] in groups
  }

  /** A batch of whole sessions: one session, or several that are each too small for a call of their own. */
  predicate HoldsSessions(b: BatchPlan, gs: seq<Group>, max: nat, threshold: int)
    requires AllFilled(gs)
  {
    && gs != [] && (b.kind == if |gs| > 1 then Pack else Session) && b.part == WholeBatch
    && (forall i :: 0 <= i < |gs| ==> |gs[i].members| <= max && (|gs| > 1 ==> |gs[i].members| < threshold))
    && |b.sessionIds| == |b.sessions| == |gs|
    && (forall i :: 0 <= i < |gs| ==>
          b.sessionIds[i] == b.sessions[i].sid == gs[i].sid && b.sessions[i].memoryIds == IdsOf(gs[i].members)
          && b.sessions[i].span == SpanOf(gs[i].members))
    && b.memoryIds == IdsOf(Flatten(gs)) && b.memoryCount == |b.memoryIds| && Flatten(gs) != [] && b.span == SpanOf(Flatten(gs))
  }

  /** What is left of the memories after the first `n` cuts of `max`, up to the next cut. */
  function Slice(ms: seq<Memory>, max: nat, n: nat): seq<Memory>
    decreases n
  {
    if n == 0 then (if |ms| <= max then ms else ms[..max]) else if |ms| <= max then [] else Slice(ms[max..], max, n - 1)
  }

  /** One part of a session that is too large for a call: its number, how many there are, and its share. */
  predicate HoldsPart(b: BatchPlan, g: Group, max: nat, n: nat, count: nat)
  {
    && b.kind == SessionPart && b.sessionIds == [g.sid] && b.part == PartOf(n + 1, count) && n < count && |g.members| > max
    && Slice(g.members, max, n) != [] && b.memoryIds == IdsOf(Slice(g.members, max, n)) && b.memoryCount == |b.memoryIds|
    && b.span == SpanOf(Slice(g.members, max, n)) && b.sessions == []
  }

  predicate HoldsLedger(b: BatchPlan, ledger: seq<Memory>, max: nat, n: nat)
  {
    && b.kind == Ledger && b.sessionIds == [] && b.part == WholeBatch && b.sessions == []
    && Slice(ledger, max, n) != [] && b.memoryIds == IdsOf(Slice(ledger, max, n)) && b.memoryCount == |b.memoryIds|
    && b.span == SpanOf(Slice(ledger, max, n))
  }

  ghost predicate SessionBatch(b: BatchPlan, groups: seq<Group>, max: nat, threshold: int)
  {
    || (exists gs :: AllFilled(gs) && Among(gs, groups) && HoldsSessions(b, gs, max, threshold))
    || (exists g, n: nat, count: nat :: g in groups && HoldsPart(b, g, max, n, count))
  }

  ghost predicate AllSessionBatches(batches: seq<BatchPlan>, groups: seq<Group>, max: nat, threshold: int)
  {
    forall i :: 0 <= i < |batches| ==> SessionBatch(batches[i], groups, max, threshold)
  }

  lemma {:induction false} ChunkIsSlice(ms: seq<Memory>, max: nat, i: nat)
    requires max >= 1 && i < |Chunks(ms, max)|
    ensures Chunks(ms, max)[i] == Slice(ms, max, i)
    decreases |ms|
  {
    if |ms| > max && i > 0 {
      ChunkIsSlice(ms[max..], max, i - 1);
    }
  }

  lemma PackHolds(pending: seq<Group>, max: nat, threshold: int)
    requires pending != [] && AllFilled(pending) && forall i :: 0 <= i < |pending| ==> |pending[i].members| <= max
    requires |pending| > 1 ==> AllSmall(pending, threshold)
    ensures HoldsSessions(PackBatch(pending), pending, max, threshold)
  {
    FlattenFilled(pending);
  }

  lemma PackIsSessionBatch(pending: seq<Group>, groups: seq<Group>, max: nat, threshold: int)
    requires pending != [] && AllFilled(pending) && forall i :: 0 <= i < |pending| ==> |pending[i].members| <= max
    requires (|pending| > 1 ==> AllSmall(pending, threshold)) && Among(pending, groups)
    ensures SessionBatch(PackBatch(pending), groups, max, threshold)
  {
    PackHolds(pending, max, threshold);
    hide HoldsSessions, PackBatch;
  }

  lemma PartIsSessionBatch(g: Group, groups: seq<Group>, max: nat, threshold: int, i: nat)
    requires max >= 1 && |g.members| > max && g in groups && i < |PartBatches(g, max)|
    ensures SessionBatch(PartBatches(g, max)[i], groups, max, threshold)
  {
    ChunkIsSlice(g.members, max, i);
    assert HoldsPart(PartBatches(g, max)[i], g, max, i, |PartBatches(g, max)|);
  }

  /** What is pending will make a batch. */
  predicate PendingRight(pending: seq<Group>, groups: seq<Group>, max: nat, threshold: int)
  {
    AllFilled(pending) && Among(pending, groups) && AllSmall(pending, threshold)
    && forall i :: 0 <= i < |pending| ==> |pending[i].members| <= max
  }

  lemma FlushedRight(batches: seq<BatchPlan>, pending: seq<Group>, groups: seq<Group>, max: nat, threshold: int)
    requires AllSessionBatches(batches, groups, max, threshold) && PendingRight(pending, groups, max, threshold)
    ensures AllSessionBatches(Flushed(batches, pending), groups, max, threshold)
  {
    if pending != [] {
      PackIsSessionBatch(pending, groups, max, threshold);
    }
    hide SessionBatch, PackBatch;
  }

  lemma OneMoreRight(batches: seq<BatchPlan>, b: BatchPlan, groups: seq<Group>, max: nat, threshold: int)
    requires AllSessionBatches(batches, groups, max, threshold) && SessionBatch(b, groups, max, threshold)
    ensures AllSessionBatches(batches + [b], groups, max, threshold)
  {
    hide SessionBatch;
  }

  lemma PartsRight(batches: seq<BatchPlan>, g: Group, groups: seq<Group>, max: nat, threshold: int)
    requires max >= 1 && |g.members| > max && g in groups && AllSessionBatches(batches, groups, max, threshold)
    ensures AllSessionBatches(batches + PartBatches(g, max), groups, max, threshold)
  {
    hide SessionBatch;
    var all := batches + PartBatches(g, max);
    forall i | 0 <= i < |all| ensures SessionBatch(all[i], groups, max, threshold) {
      if i >= |batches| {
        PartIsSessionBatch(g, groups, max, threshold, i - |batches|);
      }
    }
  }

  lemma PlacedRight(p: Packing, g: Group, groups: seq<Group>, max: nat, threshold: int)
    requires max >= 1 && g.members != [] && g in groups
    requires AllSessionBatches(p.batches, groups, max, threshold) && PendingRight(p.pending, groups, max, threshold)
    ensures var q := Placed(p, g, max, threshold);
            AllSessionBatches(q.batches, groups, max, threshold) && PendingRight(q.pending, groups, max, threshold)
  {
    hide SessionBatch, PackBatch, AllSessionBatches, Load;
    FlushedRight(p.batches, p.pending, groups, max, threshold);
    var flushed := Flushed(p.batches, p.pending);
    if |g.members| > max {
      PartsRight(flushed, g, groups, max, threshold);
    } else if |g.members| >= threshold {
      PackIsSessionBatch([g], groups, max, threshold);
      OneMoreRight(flushed, PackBatch([g]), groups, max, threshold);
    }
  }

  lemma {:induction false} PackedRight(groups: seq<Group>, n: nat, max: nat, threshold: int)
    requires max >= 1 && AllFilled(groups) && n <= |groups|
    ensures var p := Packed(groups[..n], max, threshold);
            AllSessionBatches(p.batches, groups, max, threshold) && PendingRight(p.pending, groups, max, threshold)
  {
    hide SessionBatch, AllSessionBatches, PendingRight, Placed;
    if n == 0 {
      NothingPacked(groups, max, threshold);
    } else {
      PackedRight(groups, n - 1, max, threshold);
      assert groups[..n][..n - 1] == groups[..n - 1];
      PlacedRight(Packed(groups[..n - 1], max, threshold), groups[n - 1], groups, max, threshold);
    }
  }

  lemma NothingPacked(groups: seq<Group>, max: nat, threshold: int)
    ensures AllSessionBatches([], groups, max, threshold) && PendingRight([], groups, max, threshold)
  {
  }

  /** The ledger is what was imported in bulk or belongs to no session. */
  lemma {:induction false} LedgerExactly(ms: seq<Memory>, x: Memory)
    ensures x in LedgerOf(ms) <==> x in ms && (x.ledger || x.session == "")
  {
    if ms != [] {
      LedgerExactly(ms[..|ms| - 1], x);
    }
  }

  /** Every session of a plan has a name, and its memories are the others that carry it. */
  lemma SessionExactly(memories: seq<Memory>, i: nat, x: Memory)
    requires i < |SessionsOf(memories)|
    ensures x in SessionsOf(memories)[i].members
            <==> x in memories && !x.ledger && x.session == SessionsOf(memories)[i].sid && x.session != ""
  {
    SessionMember(memories, i, x);
  }

  lemma LedgerRight(ledger: seq<Memory>, max: nat, i: nat)
    requires max >= 1 && i < |LedgerBatches(ledger, max)|
    ensures HoldsLedger(LedgerBatches(ledger, max)[i], ledger, max, i)
  {
    ChunkIsSlice(ledger, max, i);
  }

  /** Every batch of a plan is one of three things, and says so in all its fields: whole sessions of the store, of
      which one that reaches the threshold is never packed with another; a numbered part of a session above the
      ceiling; or a stretch of the ledger. */
  lemma PlanReads(memories: seq<Memory>, max: nat, threshold: int, k: nat)
    requires max >= 1 && k < |Plan(memories, max, threshold)|
    ensures var b := Plan(memories, max, threshold)[k];
            SessionBatch(b, SessionsOf(memories), max, threshold)
            || exists n: nat :: HoldsLedger(b, LedgerOf(SortMemories(memories)), max, n)
  {
    hide SessionBatch, HoldsLedger, Packed, PackBatch;
    var groups, ledger := SessionsOf(memories), LedgerOf(SortMemories(memories));
    PlanOf(memories, max, threshold);
    PackedRight(groups, |groups|, max, threshold);
    assert groups[..|groups|] == groups;
    var p := Packed(groups, max, threshold);
    FlushedRight(p.batches, p.pending, groups, max, threshold);
    var sessions := SessionBatches(groups, max, threshold);
    if k >= |sessions| {
      LedgerRight(ledger, max, k - |sessions|);
    }
  }

  // ---------------------------------------------------------------------------
  // Time
  // ---------------------------------------------------------------------------

  /** The days of the spans: year, month and day of the creation, which compare as days do. */
  lemma DaysAreChronological(a: Memory, ta: T.Instant, b: Memory, tb: T.Instant)
    requires T.Valid(ta) && T.Valid(tb) && a.createdAt == T.Iso(ta) && b.createdAt == T.Iso(tb)
    ensures Date(a) == Day(ta)
    ensures Le(Date(a), Date(b)) <==>
              ta.year < tb.year || (ta.year == tb.year && (ta.month < tb.month || (ta.month == tb.month && ta.day <= tb.day)))
  {
    DateIsDay(a, ta);
    DateIsDay(b, tb);
    T.Powers();
    hide T.Iso, T.ToSecond, Le, T.Pad, Date, T.Power;
    LeReflexive("");
    T.FieldDecides(ta.day, tb.day, 2, "", "");
    LePrefix("-", T.Pad(ta.day, 2) + "", T.Pad(tb.day, 2) + "");
    T.FieldDecides(ta.month, tb.month, 2, "-" + (T.Pad(ta.day, 2) + ""), "-" + (T.Pad(tb.day, 2) + ""));
    LePrefix("-", T.Pad(ta.month, 2) + ("-" + (T.Pad(ta.day, 2) + "")), T.Pad(tb.month, 2) + ("-" + (T.Pad(tb.day, 2) + "")));
    T.FieldDecides(ta.year, tb.year, 4, "-" + (T.Pad(ta.month, 2) + ("-" + (T.Pad(ta.day, 2) + ""))),
                   "-" + (T.Pad(tb.month, 2) + ("-" + (T.Pad(tb.day, 2) + ""))));
  }

  function Day(t: T.Instant): string
  {
    T.Pad(t.year, 4) + ("-" + (T.Pad(t.month, 2) + ("-" + (T.Pad(t.day, 2) + ""))))
  }

  lemma DateIsDay(m: Memory, t: T.Instant)
    requires m.createdAt == T.Iso(t)
    ensures Date(m) == Day(t)
  {
    CutToSecond(t);
    var y, mo, d := T.Pad(t.year, 4), T.Pad(t.month, 2), T.Pad(t.day, 2);
    var rest := "T" + (T.Pad(t.hour, 2) + (":" + (T.Pad(t.minute, 2) + (":" + T.Pad(t.second, 2)))));
    assert T.ToSecond(t) == (y + ("-" + (mo + ("-" + d)))) + rest;
    assert (y + ("-" + (mo + ("-" + d))))[..10] == y + ("-" + (mo + ("-" + d)));
    assert d + "" == d;
  }

  lemma CutToSecond(t: T.Instant)
    ensures Cut(T.Iso(t), 19) == T.Iso(t)[..19] == T.ToSecond(t)
  {
  }

  /** Memories whose creation was printed by the program are ordered by the second of their creation, and by id
      within one second. */
  lemma OrderIsChronological(a: Memory, ta: T.Instant, b: Memory, tb: T.Instant)
    requires T.Valid(ta) && T.Valid(tb) && a.createdAt == T.Iso(ta) && b.createdAt == T.Iso(tb)
    ensures Before(a, b) <==> T.SecondNotAfter(ta, tb, Le(a.id, b.id))
  {
    hide Le, T.Iso, T.ToSecond;
    CutToSecond(ta);
    CutToSecond(tb);
    T.CutOrderIsChronological(ta, tb);
    T.CutOrderIsChronological(tb, ta);
    if Le(Created(a), Created(b)) && Le(Created(b), Created(a)) {
      LeAntisymmetric(Created(a), Created(b));
    }
    LeReflexive(Created(a));
  }

  lemma {:induction false} LatestAmong(stamps: seq<string>, since: string)
    ensures Le(since, Latest(stamps)) <==> since == "" || exists i :: 0 <= i < |stamps| && Le(since, Cut(stamps[i], 19))
  {
    if stamps != [] {
      var n := |stamps| - 1;
      var before, last := Latest(stamps[..n]), Cut(stamps[n], 19);
      LatestAmong(stamps[..n], since);
      LeTotal(last, before);
      if Le(since, last) && Le(last, before) {
        LeTransitive(since, last, before);
      }
      if Le(since, before) && Le(before, last) {
        LeTransitive(since, before, last);
      }
      if i :| 0 <= i < n && Le(since, Cut(stamps[..n][i], 19)) {
        assert Le(since, Cut(stamps[i], 19));
      }
      if i :| 0 <= i < |stamps| && Le(since, Cut(stamps[i], 19)) && i < n {
        assert Le(since, Cut(stamps[..n][i], 19));
      }
    } else {
      assert Le(since, "") <==> since == "";
    }
  }

  /** A memory counts as changed since the cursor exactly when one of its stamps lies in a later second. */
  lemma RecentIsChronological(m: Memory, times: seq<T.Instant>, cursor: T.Instant)
    requires T.Valid(cursor) && |times| == |m.stamps|
    requires forall i :: 0 <= i < |times| ==> T.Valid(times[i]) && m.stamps[i] == T.Iso(times[i])
    ensures Recent(m, T.Iso(cursor)) <==> exists i :: 0 <= i < |times| && T.SecondNotAfter(cursor, times[i], false)
  {
    hide Le, T.Iso, T.ToSecond;
    LatestAmong(m.stamps, T.Iso(cursor));
    PrintedIsSomething(cursor);
    forall i | 0 <= i < |times| ensures Le(T.Iso(cursor), Cut(m.stamps[i], 19)) <==> T.SecondNotAfter(cursor, times[i], false) {
      CutToSecond(times[i]);
      T.CursorSkipsItsSecond(cursor, times[i]);
    }
    if i :| 0 <= i < |m.stamps| && Le(T.Iso(cursor), Cut(m.stamps[i], 19)) {
      assert T.SecondNotAfter(cursor, times[i], false);
    }
    if i :| 0 <= i < |times| && T.SecondNotAfter(cursor, times[i], false) {
      assert Le(T.Iso(cursor), Cut(m.stamps[i], 19));
    }
  }

  lemma PrintedIsSomething(t: T.Instant)
    ensures T.Iso(t) != ""
  {
  }
}
