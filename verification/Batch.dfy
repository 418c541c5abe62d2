/** Cutting the memory store into batches for profiling (src/memline/wiki/batch.py). */
module Batch {
  import opened Strings

  type MemoryId = string
  type SessionId = string

  /** `stamps` are the moments that count as a change; `ledger` marks the bulk import. */
  datatype Memory = Memory(id: MemoryId, createdAt: string, session: SessionId, ledger: bool, stamps: seq<string>)

  datatype Group = Group(sid: SessionId, members: seq<Memory>)

  datatype Kind = Pack | Session | SessionPart | Ledger

  datatype Part = WholeBatch | PartOf(number: nat, count: nat)

  datatype Span = Span(first: string, last: string)

  datatype SessionEntry = SessionEntry(sid: SessionId, memoryIds: seq<MemoryId>, span: Span)

  datatype BatchPlan = BatchPlan(kind: Kind, sessionIds: seq<SessionId>, part: Part, memoryIds: seq<MemoryId>, memoryCount: nat,
                                 span: Span, sessions: seq<SessionEntry>)

  function Cut(s: string, n: nat): string
  {
    if |s| <= n then s else s[..n]
  }

  function Created(m: Memory): string
  {
    Cut(m.createdAt, 19)
  }

  /** Order by creation second, then by id. */
  predicate Before(a: Memory, b: Memory)
  {
    Lt(Created(a), Created(b)) || (Created(a) == Created(b) && Le(a.id, b.id))
  }

  lemma BeforeTotal(a: Memory, b: Memory)
    ensures Before(a, b) || Before(b, a)
  {
    LeTotal(Created(a), Created(b));
    LeTotal(a.id, b.id);
  }

  lemma BeforeTransitive(a: Memory, b: Memory, c: Memory)
    requires Before(a, b) && Before(b, c)
    ensures Before(a, c)
  {
    if Created(a) == Created(b) == Created(c) {
      LeTransitive(a.id, b.id, c.id);
    } else {
      LeReflexive(Created(a));
      LeReflexive(Created(b));
      LeTransitive(Created(a), Created(b), Created(c));
      if Created(a) == Created(c) {
        LeAntisymmetric(Created(a), Created(b));
      }
    }
  }

  lemma BeforeAntisymmetric(a: Memory, b: Memory)
    requires Before(a, b) && Before(b, a)
    ensures a.id == b.id
  {
    if Created(a) == Created(b) {
      LeAntisymmetric(a.id, b.id);
    } else {
      LeAntisymmetric(Created(a), Created(b));
    }
  }

  predicate Ordered(ms: seq<Memory>)
  {
    forall i, j :: 0 <= i < j < |ms| ==> Before(ms[i], ms[j])
  }

  // ---------------------------------------------------------------------------
  // sorted(...)
  // ---------------------------------------------------------------------------

  function Insert(m: Memory, ms: seq<Memory>): seq<Memory>
  {
    if ms == [] then [m]
    else if Before(m, ms[0]) then [m] + ms
    else [ms[0]] + Insert(m, ms[1..])
  }

  function SortMemories(ms: seq<Memory>): seq<Memory>
  {
    if ms == [] then [] else Insert(ms[0], SortMemories(ms[1..]))
  }

  lemma {:induction false} InsertKeeps(m: Memory, ms: seq<Memory>)
    ensures multiset(Insert(m, ms)) == multiset{m} + multiset(ms)
  {
    if ms != [] {
      assert ms == [ms[0]] + ms[1..];
      InsertKeeps(m, ms[1..]);
    }
  }

  lemma FirstBefore(m: Memory, ms: seq<Memory>)
    requires ms != [] && Ordered(ms) && Before(m, ms[0])
    ensures Ordered([m] + ms)
  {
    forall j | 0 <= j < |ms| ensures Before(m, ms[j]) {
      if j > 0 {
        BeforeTransitive(m, ms[0], ms[j]);
      }
    }
  }

  lemma {:induction false} InsertSorts(m: Memory, ms: seq<Memory>)
    requires Ordered(ms)
    ensures Ordered(Insert(m, ms))
  {
    if ms != [] {
      if Before(m, ms[0]) {
        FirstBefore(m, ms);
      } else {
        var rest := Insert(m, ms[1..]);
        InsertSorts(m, ms[1..]);
        assert rest != [] && (rest[0] == m || (|ms| > 1 && rest[0] == ms[1]));
        BeforeTotal(m, ms[0]);
        FirstBefore(ms[0], rest);
      }
    }
  }

  lemma {:induction false} SortSorts(ms: seq<Memory>)
    ensures Ordered(SortMemories(ms)) && multiset(SortMemories(ms)) == multiset(ms)
  {
    if ms != [] {
      SortSorts(ms[1..]);
      InsertSorts(ms[0], SortMemories(ms[1..]));
      InsertKeeps(ms[0], SortMemories(ms[1..]));
      assert ms == [ms[0]] + ms[1..];
    }
  }

  predicate DistinctIds(ms: seq<Memory>)
  {
    forall i, j :: 0 <= i < j < |ms| ==> ms[i].id != ms[j].id
  }

  lemma SameFirst(a: seq<Memory>, b: seq<Memory>)
    requires Ordered(a) && Ordered(b) && multiset(a) == multiset(b) && DistinctIds(a) && a != [] && b != []
    ensures a[0] == b[0]
  {
    assert a[0] in multiset(b) && b[0] in multiset(a);
    var i :| 0 <= i < |b| && b[i] == a[0];
    var j :| 0 <= j < |a| && a[j] == b[0];
    if i > 0 && j > 0 {
      assert Before(a[0], a[j]) && Before(b[0], b[i]);
      BeforeAntisymmetric(a[0], b[0]);
    }
  }

  /** Memories with distinct ids have one order. */
  lemma {:induction false} OrderUnique(a: seq<Memory>, b: seq<Memory>)
    requires Ordered(a) && Ordered(b) && multiset(a) == multiset(b) && DistinctIds(a)
    ensures a == b
  {
    assert |multiset(a)| == |a| && |multiset(b)| == |b|;
    if a != [] {
      SameFirst(a, b);
      hide Before;
      assert a == [a[0]] + a[1..] && b == [b[0]] + b[1..];
      assert multiset(a[1..]) == multiset(a) - multiset{a[0]};
      assert multiset(b[1..]) == multiset(b) - multiset{b[0]};
      OrderUnique(a[1..], b[1..]);
    }
  }

  // ---------------------------------------------------------------------------
  // group_by_session
  // ---------------------------------------------------------------------------

  predicate InLedger(m: Memory)
  {
    m.ledger || m.session == ""
  }

  /** The position of the session in the dictionary, or its length. */
  function Find(groups: seq<Group>, sid: SessionId): (i: nat)
    ensures i <= |groups| && (i < |groups| ==> groups[i].sid == sid)
    ensures forall k :: 0 <= k < i ==> groups[k].sid != sid
  {
    if groups == [] then 0 else if groups[0].sid == sid then 0 else 1 + Find(groups[1..], sid)
  }

  /** `sessions.setdefault(sid, []).append(m)`, keeping the insertion order of the dictionary */
  function Append(groups: seq<Group>, m: Memory): seq<Group>
  {
    var i := Find(groups, m.session);
    if i < |groups| then groups[i := Group(m.session, groups[i].members + [m])] else groups + [Group(m.session, [m])]
  }

  function Groups(ms: seq<Memory>): seq<Group>
  {
    if ms == [] then []
    else
      var n := |ms| - 1;
      if InLedger(ms[n]) then Groups(ms[..n]) else Append(Groups(ms[..n]), ms[n])
  }

  function LedgerOf(ms: seq<Memory>): seq<Memory>
  {
    if ms == [] then []
    else LedgerOf(ms[..|ms| - 1]) + if InLedger(ms[|ms| - 1]) then [ms[|ms| - 1]] else []
  }

  method GroupBySession(memories: seq<Memory>) returns (sessions: seq<Group>, ledger: seq<Memory>)
    ensures sessions == Groups(SortMemories(memories)) && ledger == LedgerOf(SortMemories(memories))
  {
    var ms := SortMemories(memories);
    sessions, ledger := [], [];
    for k := 0 to |ms|
      invariant sessions == Groups(ms[..k]) && ledger == LedgerOf(ms[..k])
    {
      assert ms[..k + 1][..k] == ms[..k];
      var m := ms[k];
      if m.ledger || m.session == "" {
        ledger := ledger + [m];
      } else {
        var i := Find(sessions, m.session);
        if i < |sessions| {
          sessions := sessions[i := Group(m.session, sessions[i].members + [m])];
        } else {
          sessions := sessions + [Group(m.session, [m])];
        }
      }
    }
    assert ms[..|ms|] == ms;
  }

  // ---------------------------------------------------------------------------
  // select_since
  // ---------------------------------------------------------------------------

  /** The latest of the stamps, cut to the second. */
  function Latest(stamps: seq<string>): string
  {
    if stamps == [] then ""
    else
      var before, last := Latest(stamps[..|stamps| - 1]), Cut(stamps[|stamps| - 1], 19);
      if Le(last, before) then before else last
  }

  function Touched(m: Memory): string
  {
    Latest(m.stamps)
  }

  predicate Recent(m: Memory, since: string)
  {
    Le(since, Touched(m))
  }

  predicate Moved(g: Group, since: string)
  {
    exists i :: 0 <= i < |g.members| && Recent(g.members[i], since)
  }

  function RecentOf(ms: seq<Memory>, since: string): seq<Memory>
  {
    if ms == [] then []
    else RecentOf(ms[..|ms| - 1], since) + if Recent(ms[|ms| - 1], since) then [ms[|ms| - 1]] else []
  }

  function Flatten(groups: seq<Group>): seq<Memory>
  {
    if groups == [] then [] else Flatten(groups[..|groups| - 1]) + groups[|groups| - 1].members
  }

  /** `moved` is a set: `order` is one order in which it may be walked. */
  ghost predicate WalksMoved(order: seq<Group>, groups: seq<Group>, since: string)
  {
    && (forall i, j :: 0 <= i < j < |order| ==> order[i].sid != order[j].sid)
    && (forall g :: g in order <==> g in groups && Moved(g, since))
  }

  function Selected(memories: seq<Memory>, since: string, order: seq<Group>): seq<Memory>
  {
    Flatten(order) + RecentOf(LedgerOf(SortMemories(memories)), since)
  }

  // ---------------------------------------------------------------------------
  // plan_batches
  // ---------------------------------------------------------------------------

  function IdsOf(ms: seq<Memory>): (ids: seq<MemoryId>)
    ensures |ids| == |ms| && forall i :: 0 <= i < |ids| ==> ids[i] == ms[i].id
  {
    seq(|ms|, i requires 0 <= i < |ms| => ms[i].id)
  }

  function Date(m: Memory): string
  {
    Cut(Created(m), 10)
  }

  /** The first and the last day. */
  function SpanOf(ms: seq<Memory>): Span
    requires ms != []
  {
    var n := |ms| - 1;
    if n == 0 then Span(Date(ms[0]), Date(ms[0]))
    else
      var s := SpanOf(ms[..n]);
      Span(if Le(s.first, Date(ms[n])) then s.first else Date(ms[n]), if Le(Date(ms[n]), s.last) then s.last else Date(ms[n]))
  }

  lemma {:induction false} SpanMeaning(ms: seq<Memory>)
    requires ms != []
    ensures forall i :: 0 <= i < |ms| ==> Le(SpanOf(ms).first, Date(ms[i])) && Le(Date(ms[i]), SpanOf(ms).last)
    ensures exists i :: 0 <= i < |ms| && SpanOf(ms).first == Date(ms[i])
    ensures exists i :: 0 <= i < |ms| && SpanOf(ms).last == Date(ms[i])
  {
    var n := |ms| - 1;
    LeReflexive(Date(ms[n]));
    if n > 0 {
      var s := SpanOf(ms[..n]);
      SpanMeaning(ms[..n]);
      LeTotal(s.first, Date(ms[n]));
      LeTotal(s.last, Date(ms[n]));
      forall i | 0 <= i < n ensures Le(SpanOf(ms).first, Date(ms[i])) && Le(Date(ms[i]), SpanOf(ms).last) {
        assert ms[..n][i] == ms[i];
        if !Le(s.first, Date(ms[n])) {
          LeTransitive(Date(ms[n]), s.first, Date(ms[i]));
        }
        if !Le(Date(ms[n]), s.last) {
          LeTransitive(Date(ms[i]), s.last, Date(ms[n]));
        }
      }
      var i :| 0 <= i < n && s.first == Date(ms[..n][i]);
      var j :| 0 <= j < n && s.last == Date(ms[..n][j]);
      assert s.first == Date(ms[i]) && s.last == Date(ms[j]);
      assert SpanOf(ms).first == Date(ms[i]) || SpanOf(ms).first == Date(ms[n]);
      assert SpanOf(ms).last == Date(ms[j]) || SpanOf(ms).last == Date(ms[n]);
    }
  }

  predicate AllFilled(groups: seq<Group>)
  {
    forall i :: 0 <= i < |groups| ==> groups[i].members != []
  }

  function Sids(groups: seq<Group>): (r: seq<SessionId>)
    ensures |r| == |groups| && forall i :: 0 <= i < |r| ==> r[i] == groups[i].sid
  {
    seq(|groups|, i requires 0 <= i < |groups| => groups[i].sid)
  }

  function Entries(groups: seq<Group>): (r: seq<SessionEntry>)
    requires AllFilled(groups)
    ensures |r| == |groups|
    ensures forall i :: 0 <= i < |r| ==> r[i] == SessionEntry(groups[i].sid, IdsOf(groups[i].members), SpanOf(groups[i].members))
  {
    seq(|groups|, i requires 0 <= i < |groups| => SessionEntry(groups[i].sid, IdsOf(groups[i].members), SpanOf(groups[i].members)))
  }

  lemma FlattenFilled(groups: seq<Group>)
    requires groups != [] && AllFilled(groups)
    ensures Flatten(groups) != []
  {
  }

  function PackBatch(pending: seq<Group>): BatchPlan
    requires pending != [] && AllFilled(pending)
  {
    var members := Flatten(pending);
    FlattenFilled(pending);
    BatchPlan(if |pending| > 1 then Pack else Session, Sids(pending), WholeBatch, IdsOf(members), |members|, SpanOf(members), Entries(pending))
  }

  /** flush_pack */
  function Flushed(batches: seq<BatchPlan>, pending: seq<Group>): seq<BatchPlan>
    requires AllFilled(pending)
  {
    if pending == [] then batches else batches + [PackBatch(pending)]
  }

  /** `[group[i:i + max] for i in range(0, len(group), max)]` */
  function Chunks(ms: seq<Memory>, max: nat): (r: seq<seq<Memory>>)
    requires max >= 1
    ensures forall i :: 0 <= i < |r| ==> 1 <= |r[i]| <= max
    decreases |ms|
  {
    if ms == [] then [] else if |ms| <= max then [ms] else [ms[..max]] + Chunks(ms[max..], max)
  }

  function PartBatch(sid: SessionId, part: seq<Memory>, number: nat, count: nat): BatchPlan
    requires part != []
  {
    BatchPlan(SessionPart, [sid], PartOf(number, count), IdsOf(part), |part|, SpanOf(part), [])
  }

  function PartBatches(g: Group, max: nat): (r: seq<BatchPlan>)
    requires max >= 1
    ensures |r| == |Chunks(g.members, max)|
    ensures forall i :: 0 <= i < |r| ==> r[i] == PartBatch(g.sid, Chunks(g.members, max)[i], i + 1, |r|)
  {
    var parts := Chunks(g.members, max);
    seq(|parts|, i requires 0 <= i < |parts| => PartBatch(g.sid, parts[i], i + 1, |parts|))
  }

  function LedgerBatch(chunk: seq<Memory>): BatchPlan
    requires chunk != []
  {
    BatchPlan(Ledger, [], WholeBatch, IdsOf(chunk), |chunk|, SpanOf(chunk), [])
  }

  function LedgerBatches(ledger: seq<Memory>, max: nat): (r: seq<BatchPlan>)
    requires max >= 1
    ensures |r| == |Chunks(ledger, max)| && forall i :: 0 <= i < |r| ==> r[i] == LedgerBatch(Chunks(ledger, max)[i])
  {
    var chunks := Chunks(ledger, max);
    seq(|chunks|, i requires 0 <= i < |chunks| => LedgerBatch(chunks[i]))
  }

  /** The loop state of the planner. */
  datatype Packing = Packing(batches: seq<BatchPlan>, pending: seq<Group>)

  function Load(groups: seq<Group>): nat
  {
    |Flatten(groups)|
  }

  function Placed(p: Packing, g: Group, max: nat, threshold: int): (r: Packing)
    requires max >= 1 && AllFilled(p.pending) && g.members != []
    ensures AllFilled(r.pending)
  {
    if |g.members| > max then Packing(Flushed(p.batches, p.pending) + PartBatches(g, max), [])
    else if |g.members| >= threshold then Packing(Flushed(Flushed(p.batches, p.pending), [g]), [])
    else if Load(p.pending) + |g.members| > max then Packing(Flushed(p.batches, p.pending), [g])
    else Packing(p.batches, p.pending + [g])
  }

  function Packed(groups: seq<Group>, max: nat, threshold: int): (r: Packing)
    requires max >= 1 && AllFilled(groups)
    ensures AllFilled(r.pending)
  {
    if groups == [] then Packing([], [])
    else Placed(Packed(groups[..|groups| - 1], max, threshold), groups[|groups| - 1], max, threshold)
  }

  /** The batches of sessions and packs. */
  function SessionBatches(groups: seq<Group>, max: nat, threshold: int): seq<BatchPlan>
    requires max >= 1 && AllFilled(groups)
  {
    var p := Packed(groups, max, threshold);
    Flushed(p.batches, p.pending)
  }

  // ---------------------------------------------------------------------------
  // The order of the sessions
  // ---------------------------------------------------------------------------

  /** Stable sort of the sessions by the creation second of their first memory. */
  function InsertGroup(g: Group, groups: seq<Group>): seq<Group>
    requires g.members != [] && AllFilled(groups)
  {
    if groups == [] then [g]
    else if Le(Created(g.members[0]), Created(groups[0].members[0])) then [g] + groups
    else [groups[0]] + InsertGroup(g, groups[1..])
  }

  function SortGroups(groups: seq<Group>): (r: seq<Group>)
    requires AllFilled(groups)
    ensures AllFilled(r)
  {
    if groups == [] then []
    else
      InsertFilled(groups[0], SortGroups(groups[1..]));
      InsertGroup(groups[0], SortGroups(groups[1..]))
  }

  lemma {:induction false} InsertFilled(g: Group, groups: seq<Group>)
    requires g.members != [] && AllFilled(groups)
    ensures AllFilled(InsertGroup(g, groups))
  {
    if groups != [] && !Le(Created(g.members[0]), Created(groups[0].members[0])) {
      InsertFilled(g, groups[1..]);
    }
  }

  lemma {:induction false} GroupsFilled(ms: seq<Memory>)
    ensures AllFilled(Groups(ms))
  {
    if ms != [] {
      GroupsFilled(ms[..|ms| - 1]);
    }
  }

  /** `plan_batches` without a cursor */
  function Plan(memories: seq<Memory>, max: nat, threshold: int): seq<BatchPlan>
    requires max >= 1
  {
    var ms := SortMemories(memories);
    GroupsFilled(ms);
    SessionBatches(SortGroups(Groups(ms)), max, threshold) + LedgerBatches(LedgerOf(ms), max)
  }

  /** The loop body: where the next session goes. */
  method Place(batches0: seq<BatchPlan>, pending0: seq<Group>, group: Group, max: nat, threshold: int)
    returns (batches: seq<BatchPlan>, pending: seq<Group>)
    requires max >= 1 && AllFilled(pending0) && group.members != []
    ensures AllFilled(pending)
    ensures Packing(batches, pending) == Placed(Packing(batches0, pending0), group, max, threshold)
  {
    batches, pending := batches0, pending0;
    if |group.members| > max {
      batches := Flushed(batches, pending) + PartBatches(group, max);
      pending := [];
    } else if |group.members| >= threshold {
      batches := Flushed(batches, pending);
      pending := [group];
      batches := Flushed(batches, pending);
      pending := [];
    } else {
      if Load(pending) + |group.members| > max {
        batches := Flushed(batches, pending);
        pending := [];
      }
      pending := pending + [group];
      assert [] + [group] == [group];
    }
  }

  /** A plan, or the ValueError of `range` with a step of zero. */
  datatype Planned = Planned(batches: seq<BatchPlan>) | ZeroStep

  /** `plan_batches` for any ceiling. The ranges that cut sessions and ledger into chunks raise on a step of
      zero and are empty for a negative one; every session is above such a ceiling, so it is cut into no parts
      at all. */
  method PlanBatches(memories: seq<Memory>, max: int, threshold: int) returns (r: Planned)
    ensures max >= 1 ==> r == Planned(Plan(memories, max, threshold))
    ensures max == 0 ==> r == ZeroStep
    ensures max < 0 ==> r == Planned([])
  {
    if max == 0 {
      return ZeroStep;
    }
    if max < 0 {
      return Planned([]);
    }
    var batches := PlanUnderCeiling(memories, max, threshold);
    return Planned(batches);
  }

  method PlanUnderCeiling(memories: seq<Memory>, max: nat, threshold: int) returns (batches: seq<BatchPlan>)
    requires max >= 1
    ensures batches == Plan(memories, max, threshold)
  {
    var sessions, ledger := GroupBySession(memories);
    GroupsFilled(SortMemories(memories));
    var ordered := SortGroups(sessions);
    batches := [];
    var pending: seq<Group> := [];
    for k := 0 to |ordered|
      invariant AllFilled(pending)
      invariant Packing(batches, pending) == Packed(ordered[..k], max, threshold)
    {
      hide Placed;
      assert ordered[..k + 1][..k] == ordered[..k];
      batches, pending := Place(batches, pending, ordered[k], max, threshold);
    }
    assert ordered[..|ordered|] == ordered;
    batches := Flushed(batches, pending);
    var ledgerBatches := ChunkLedger(ledger, max);
    batches := batches + ledgerBatches;
  }

  method ChunkLedger(ledger: seq<Memory>, max: nat) returns (batches: seq<BatchPlan>)
    requires max >= 1
    ensures batches == LedgerBatches(ledger, max)
  {
    batches := [];
    var chunks := Chunks(ledger, max);
    for k := 0 to |chunks|
      invariant batches == LedgerBatches(ledger, max)[..k]
    {
      batches := batches + [LedgerBatch(chunks[k])];
    }
  }
}
