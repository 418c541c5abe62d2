/** The append-only table of suspicion pairs (src/memline/staleness.py, class PairStore).
    A row keeps its position for ever, so the position is the row id. */
module PairStore {
  import opened Strings
  import opened Supersession

  datatype Kind = Displacement | Necessity | Correctness | TtlExpiry | Safety | Other(name: string)

  datatype Disposition = Open | Cached | Confirmed | Dismissed | Obsoleted | Expired | Merged | Ttl

  /** SHA-256 of a text, taken as injective. */
  datatype TextHash = Sha256(text: string)

  /** What identifies a judgment: one kind of check of one text version. */
  datatype PairKey = PairKey(kind: Kind, newId: MemoryId, oldId: MemoryId, oldTextHash: TextHash)

  datatype Judgment = Judgment(key: PairKey, verdict: string, confidence: Option<real>,
                               judgedAt: Time, sessionId: Option<string>)

  /** How a row left `Open`: who and when. */
  datatype Closure = Closure(actor: Option<string>, at: Option<Time>)

  const NOT_CLOSED := Closure(None, None)

  datatype PairRow = PairRow(judgment: Judgment, disposition: Disposition, closure: Closure)

  type Rows = seq<PairRow>

  const SUSPICION_CONFIDENCE_FLOOR: real := 0.6
  const SELF_CHECK_CONFIDENCE_FLOOR: real := 0.8
  const REQUIRED_FALSE_POSITIVES := 3

  // ---------------------------------------------------------------------------
  // Which verdicts open a suspicion
  // ---------------------------------------------------------------------------

  function KindFloor(kind: Kind): real
  {
    match kind
    case Displacement => 0.6
    case Necessity => 0.8
    case Correctness => 0.8
    case Safety => 0.6
    case TtlExpiry => 0.0
    case Other(_) => SELF_CHECK_CONFIDENCE_FLOOR
  }

  predicate OpeningVerdict(kind: Kind, verdict: string)
  {
    match kind
    case Displacement => verdict == "SUPERSEDED" || verdict == "DUPLICATE"
    case Necessity => verdict != "DURABLE"
    case Correctness => verdict != "CONSISTENT"
    case Safety => verdict != "CLEAN"
    case TtlExpiry => true
    case Other(_) => false
  }

  predicate Opens(j: Judgment)
  {
    OpeningVerdict(j.key.kind, j.verdict)
    && (if j.confidence.Some? then j.confidence.value else 0.0) >= KindFloor(j.key.kind)
  }

  // ---------------------------------------------------------------------------
  // The statements, as functions on the table
  // ---------------------------------------------------------------------------

  predicate HasKey(rows: Rows, key: PairKey)
  {
    exists i :: 0 <= i < |rows| && rows[i].judgment.key == key
  }

  /** INSERT OR IGNORE */
  function Recorded(rows: Rows, j: Judgment): Rows
  {
    if HasKey(rows, j.key) then rows
    else rows + [PairRow(j, if Opens(j) then Open else Cached, NOT_CLOSED)]
  }

  /** UPDATE ... SET disposition WHERE filter AND disposition = 'open' */
  function ClosedWhere(rows: Rows, filter: PairKey -> bool, d: Disposition, c: Closure): (r: Rows)
    ensures |r| == |rows|
  {
    seq(|rows|, i requires 0 <= i < |rows| =>
      if rows[i].disposition.Open? && filter(rows[i].judgment.key)
      then rows[i].(disposition := d, closure := c) else rows[i])
  }

  function CountOpen(rows: Rows, filter: PairKey -> bool): nat
  {
    if rows == [] then 0
    else CountOpen(rows[..|rows| - 1], filter) +
         (if rows[|rows| - 1].disposition.Open? && filter(rows[|rows| - 1].judgment.key) then 1 else 0)
  }

  predicate Disposable(d: Disposition)
  {
    d in {Confirmed, Dismissed, Obsoleted, Expired, Merged, Ttl}
  }

  function Disposed(rows: Rows, pairId: nat, d: Disposition, c: Closure): Rows
  {
    if pairId < |rows| && rows[pairId].disposition.Open?
    then rows[pairId := rows[pairId].(disposition := d, closure := c)] else rows
  }

  function Reopened(rows: Rows, pairId: nat): Rows
  {
    if pairId < |rows| && rows[pairId].disposition in {Confirmed, Merged, Ttl}
    then rows[pairId := rows[pairId].(disposition := Open, closure := NOT_CLOSED)] else rows
  }

  function Targets(oldId: MemoryId, kind: Option<Kind>): PairKey -> bool
  {
    (k: PairKey) => k.oldId == oldId && (kind.Some? ==> k.kind == kind.value)
  }

  function ClosedForOld(rows: Rows, oldId: MemoryId, kind: Option<Kind>, d: Disposition, c: Closure): Rows
  {
    ClosedWhere(rows, Targets(oldId, kind), d, c)
  }

  function ClosedForDeleted(rows: Rows, id: MemoryId, now: Time): Rows
  {
    var moot := ClosedWhere(rows, (k: PairKey) => k.oldId == id, Obsoleted, Closure(None, Some(now)));
    ClosedWhere(moot, (k: PairKey) => k.newId == id, Expired, Closure(None, Some(now)))
  }

  function ClosedForUpdated(rows: Rows, id: MemoryId, text: string, now: Time): Rows
  {
    ClosedWhere(rows, (k: PairKey) => k.oldId == id && k.oldTextHash != Sha256(text), Expired, Closure(None, Some(now)))
  }

  // ---------------------------------------------------------------------------
  // Protection evidence
  // ---------------------------------------------------------------------------

  /** The WHERE clause of the evidence query. */
  predicate IsEvidence(r: PairRow, oldId: MemoryId, text: string)
  {
    var j := r.judgment;
    && j.key.kind == Displacement && j.key.oldId == oldId && j.key.oldTextHash == Sha256(text)
    && (j.verdict == "SUPERSEDED" || j.verdict == "DUPLICATE")
    && j.confidence.Some? && j.confidence.value >= SUSPICION_CONFIDENCE_FLOOR
  }

  predicate RowIds(rows: Rows, ids: seq<nat>)
  {
    forall i :: 0 <= i < |ids| ==> ids[i] < |rows|
  }

  /** Places row `id` in a list of row ids sorted by (judged_at DESC, rowid DESC);
      `id` is larger than every id in the list. */
  function Placed(rows: Rows, sorted: seq<nat>, id: nat): (r: seq<nat>)
    requires id < |rows| && RowIds(rows, sorted)
    ensures RowIds(rows, r) && multiset(r) == multiset(sorted) + multiset{id}
  {
    if sorted == [] || Le(rows[sorted[0]].judgment.judgedAt, rows[id].judgment.judgedAt) then [id] + sorted
    else
      assert sorted == [sorted[0]] + sorted[1..];
      [sorted[0]] + Placed(rows, sorted[1..], id)
  }

  /** Evidence row ids among the first `n` rows, newest first. */
  function Evidence(rows: Rows, n: nat, oldId: MemoryId, text: string): (r: seq<nat>)
    requires n <= |rows|
    ensures RowIds(rows, r)
  {
    if n == 0 then []
    else
      var rest := Evidence(rows, n - 1, oldId, text);
      if IsEvidence(rows[n - 1], oldId, text) then Placed(rows, rest, n - 1) else rest
  }

  function Limited(ids: seq<nat>, limit: nat): seq<nat>
  {
    if |ids| <= limit then ids else ids[..limit]
  }

  /** Length of the leading run of dismissed rows with pairwise distinct new ids. */
  function DismissedRun(rows: Rows, ids: seq<nat>, seen: set<MemoryId>): (n: nat)
    requires RowIds(rows, ids)
    ensures n <= |ids|
  {
    if ids == [] then 0
    else
      var r := rows[ids[0]];
      if !r.disposition.Dismissed? || r.judgment.key.newId in seen then 0
      else 1 + DismissedRun(rows, ids[1..], seen + {r.judgment.key.newId})
  }

  function LatestEvidence(rows: Rows, oldId: MemoryId, text: string, required: nat): (r: seq<nat>)
    ensures RowIds(rows, r)
  {
    Limited(Evidence(rows, |rows|, oldId, text), required)
  }

  predicate ProtectionEligible(rows: Rows, oldId: MemoryId, text: string)
  {
    DismissedRun(rows, LatestEvidence(rows, oldId, text, REQUIRED_FALSE_POSITIVES), {}) >= REQUIRED_FALSE_POSITIVES
  }

  // ---------------------------------------------------------------------------
  // What the table always satisfies
  // ---------------------------------------------------------------------------

  ghost predicate UniqueKeys(rows: Rows)
  {
    forall i, j :: 0 <= i < j < |rows| ==> rows[i].judgment.key != rows[j].judgment.key
  }

  /** A row is `Cached` exactly when its verdict did not open its kind, and an open row
      carries no trace of a closure. */
  predicate RowOk(r: PairRow)
  {
    (r.disposition.Cached? <==> !Opens(r.judgment)) && (r.disposition.Open? ==> r.closure == NOT_CLOSED)
  }

  ghost predicate TableOk(rows: Rows)
  {
    UniqueKeys(rows) && forall i :: 0 <= i < |rows| ==> RowOk(rows[i])
  }

  predicate Final(d: Disposition)
  {
    d in {Cached, Dismissed, Obsoleted, Expired}
  }

  /** Later versions of a table: rows are never removed, what was judged never changes,
      final decisions stay as they are, and nothing becomes `Cached` after the fact. */
  ghost predicate Extends(before: Rows, after: Rows)
  {
    && |before| <= |after|
    && forall i :: 0 <= i < |before| ==>
         && after[i].judgment == before[i].judgment
         && (Final(before[i].disposition) ==> after[i] == before[i])
         && (after[i].disposition.Cached? ==> before[i].disposition.Cached?)
  }

  /** ... and, without `reopen`, every closed row stays as it is. */
  ghost predicate ClosedStaysClosed(before: Rows, after: Rows)
  {
    |before| <= |after| && forall i :: 0 <= i < |before| && !before[i].disposition.Open? ==> after[i] == before[i]
  }

  lemma ExtendsTransitive(a: Rows, b: Rows, c: Rows)
    requires Extends(a, b) && Extends(b, c)
    ensures Extends(a, c)
  {
    forall i | 0 <= i < |a|
      ensures c[i].judgment == a[i].judgment && (Final(a[i].disposition) ==> c[i] == a[i])
              && (c[i].disposition.Cached? ==> a[i].disposition.Cached?)
    {
      assert b[i].judgment == a[i].judgment;
    }
  }

  lemma RecordedOk(rows: Rows, j: Judgment)
    requires TableOk(rows)
    ensures TableOk(Recorded(rows, j)) && Extends(rows, Recorded(rows, j)) && ClosedStaysClosed(rows, Recorded(rows, j))
    ensures HasKey(Recorded(rows, j), j.key)
  {
    var r := Recorded(rows, j);
    if !HasKey(rows, j.key) {
      assert r[|rows|].judgment.key == j.key;
    }
  }

  lemma ClosedWhereOk(rows: Rows, filter: PairKey -> bool, d: Disposition, c: Closure)
    requires TableOk(rows) && Disposable(d)
    ensures TableOk(ClosedWhere(rows, filter, d, c)) && Extends(rows, ClosedWhere(rows, filter, d, c))
    ensures ClosedStaysClosed(rows, ClosedWhere(rows, filter, d, c))
  {
  }

  lemma DisposedOk(rows: Rows, pairId: nat, d: Disposition, c: Closure)
    requires TableOk(rows) && Disposable(d)
    ensures TableOk(Disposed(rows, pairId, d, c)) && Extends(rows, Disposed(rows, pairId, d, c))
    ensures ClosedStaysClosed(rows, Disposed(rows, pairId, d, c))
  {
  }

  lemma ReopenedOk(rows: Rows, pairId: nat)
    requires TableOk(rows)
    ensures TableOk(Reopened(rows, pairId)) && Extends(rows, Reopened(rows, pairId))
  {
  }

  lemma ClosedForDeletedOk(rows: Rows, id: MemoryId, now: Time)
    requires TableOk(rows)
    ensures TableOk(ClosedForDeleted(rows, id, now)) && Extends(rows, ClosedForDeleted(rows, id, now))
    ensures ClosedStaysClosed(rows, ClosedForDeleted(rows, id, now))
  {
    var c := Closure(None, Some(now));
    ClosedWhereOk(rows, (k: PairKey) => k.oldId == id, Obsoleted, c);
    var moot := ClosedWhere(rows, (k: PairKey) => k.oldId == id, Obsoleted, c);
    ClosedWhereOk(moot, (k: PairKey) => k.newId == id, Expired, c);
    ExtendsTransitive(rows, moot, ClosedForDeleted(rows, id, now));
  }

  /** After an update every open pair on the memory was judged on its present text: the others are expired,
      for good, no other pair is touched, and updating to the same text again closes nothing. */
  lemma UpdateLeavesPresentText(rows: Rows, id: MemoryId, text: string, now: Time, later: Time)
    requires TableOk(rows)
    ensures var after := ClosedForUpdated(rows, id, text, now);
            && TableOk(after) && Extends(rows, after) && ClosedStaysClosed(rows, after)
            && (forall i :: 0 <= i < |after| && after[i].disposition.Open? && after[i].judgment.key.oldId == id ==>
                  after[i].judgment.key.oldTextHash == Sha256(text))
            && (forall i :: 0 <= i < |rows| && after[i] != rows[i] ==>
                  rows[i].disposition.Open? && rows[i].judgment.key.oldId == id && after[i].disposition.Expired?)
            && (forall i :: 0 <= i < |rows| && rows[i].judgment.key.oldTextHash == Sha256(text) ==> after[i] == rows[i])
            && ClosedForUpdated(after, id, text, later) == after
  {
    ClosedWhereOk(rows, (k: PairKey) => k.oldId == id && k.oldTextHash != Sha256(text), Expired, Closure(None, Some(now)));
    var after := ClosedForUpdated(rows, id, text, now);
    assert ClosedForUpdated(after, id, text, later) == after;
  }

  /** Disposing and reopening an open pair leaves no trace. */
  lemma ReopenUndoesDispose(rows: Rows, pairId: nat, d: Disposition, c: Closure)
    requires TableOk(rows) && pairId < |rows| && rows[pairId].disposition.Open?
    requires d in {Confirmed, Merged, Ttl}
    ensures Reopened(Disposed(rows, pairId, d, c), pairId) == rows
  {
    assert RowOk(rows[pairId]);
  }

  // ---------------------------------------------------------------------------
  // Protection needs three dismissals in a row
  // ---------------------------------------------------------------------------

  /** On a sound table the evidence query selects exactly the displacement rows of this
      text version that were ever opened. */
  lemma EvidenceIsEverOpened(rows: Rows, i: nat, oldId: MemoryId, text: string)
    requires TableOk(rows) && i < |rows|
    ensures IsEvidence(rows[i], oldId, text) <==>
            && rows[i].judgment.key.kind == Displacement
            && rows[i].judgment.key.oldId == oldId
            && rows[i].judgment.key.oldTextHash == Sha256(text)
            && !rows[i].disposition.Cached?
  {
    assert RowOk(rows[i]);
  }

  /** `a` was judged after `b` (ties broken by row id). */
  predicate Newer(rows: Rows, a: nat, b: nat)
    requires a < |rows| && b < |rows|
  {
    var ta, tb := rows[a].judgment.judgedAt, rows[b].judgment.judgedAt;
    Lt(tb, ta) || (ta == tb && a > b)
  }

  ghost predicate NewestFirst(rows: Rows, ids: seq<nat>)
  {
    RowIds(rows, ids) && forall i, j :: 0 <= i < j < |ids| ==> Newer(rows, ids[i], ids[j])
  }

  lemma NewerTransitive(rows: Rows, a: nat, b: nat, c: nat)
    requires a < |rows| && b < |rows| && c < |rows|
    requires Newer(rows, a, b) && Newer(rows, b, c)
    ensures Newer(rows, a, c)
  {
    var ta, tb, tc := rows[a].judgment.judgedAt, rows[b].judgment.judgedAt, rows[c].judgment.judgedAt;
    LeReflexive(tb);
    LeTransitive(tc, tb, ta);
    if ta == tc && ta != tb {
      LeAntisymmetric(ta, tb);
    }
  }

  lemma {:induction false} PlacedNewestFirst(rows: Rows, sorted: seq<nat>, id: nat)
    requires id < |rows| && NewestFirst(rows, sorted)
    requires forall i :: 0 <= i < |sorted| ==> sorted[i] < id
    ensures NewestFirst(rows, Placed(rows, sorted, id))
  {
    if sorted != [] {
      var head, rest := sorted[0], sorted[1..];
      var th, tid := rows[head].judgment.judgedAt, rows[id].judgment.judgedAt;
      if Le(th, tid) {
        forall i | 0 <= i < |sorted| ensures Newer(rows, id, sorted[i]) {
          if i > 0 {
            NewerTransitive(rows, id, head, sorted[i]);
          }
        }
      } else {
        LeTotal(th, tid);
        PlacedNewestFirst(rows, rest, id);
        var placed := Placed(rows, rest, id);
        forall i | 0 <= i < |placed| ensures Newer(rows, head, placed[i]) {
          assert placed[i] in multiset(placed);
          assert placed[i] in rest || placed[i] == id;
          if placed[i] != id {
            var k :| 0 <= k < |rest| && rest[k] == placed[i];
            assert sorted[k + 1] == placed[i];
          }
        }
      }
    }
  }

  /** The evidence list holds exactly the evidence rows. */
  lemma {:induction false} EvidenceMembers(rows: Rows, n: nat, oldId: MemoryId, text: string, k: nat)
    requires n <= |rows|
    ensures k in Evidence(rows, n, oldId, text) <==> k < n && IsEvidence(rows[k], oldId, text)
  {
    if n > 0 {
      EvidenceMembers(rows, n - 1, oldId, text, k);
      if IsEvidence(rows[n - 1], oldId, text) {
        var rest := Evidence(rows, n - 1, oldId, text);
        var placed := Placed(rows, rest, n - 1);
        assert k in placed <==> k in multiset(placed);
      }
    }
  }

  /** ... newest first, and therefore each once. */
  lemma {:induction false} EvidenceNewestFirst(rows: Rows, n: nat, oldId: MemoryId, text: string)
    requires n <= |rows|
    ensures NewestFirst(rows, Evidence(rows, n, oldId, text))
  {
    if n > 0 {
      EvidenceNewestFirst(rows, n - 1, oldId, text);
      var rest := Evidence(rows, n - 1, oldId, text);
      forall i | 0 <= i < |rest| ensures rest[i] < n - 1 {
        EvidenceMembers(rows, n - 1, oldId, text, rest[i]);
      }
      if IsEvidence(rows[n - 1], oldId, text) {
        PlacedNewestFirst(rows, rest, n - 1);
      }
    }
  }

  ghost predicate AllDismissed(rows: Rows, ids: seq<nat>)
    requires RowIds(rows, ids)
  {
    forall i :: 0 <= i < |ids| ==> rows[ids[i]].disposition.Dismissed?
  }

  /** The run covers the whole list exactly when every row is dismissed, provided the
      rows are evidence of one text version: unique keys make their new ids distinct. */
  lemma {:induction false} FullRun(rows: Rows, ids: seq<nat>, seen: set<MemoryId>, oldId: MemoryId, text: string)
    requires TableOk(rows) && RowIds(rows, ids)
    requires forall i :: 0 <= i < |ids| ==> IsEvidence(rows[ids[i]], oldId, text)
    requires forall i, j :: 0 <= i < j < |ids| ==> ids[i] != ids[j]
    requires forall i :: 0 <= i < |ids| ==> rows[ids[i]].judgment.key.newId !in seen
    ensures DismissedRun(rows, ids, seen) == |ids| <==> AllDismissed(rows, ids)
  {
    if ids != [] {
      var r, rest := rows[ids[0]], ids[1..];
      if r.disposition.Dismissed? {
        forall i | 0 <= i < |rest|
          ensures rows[rest[i]].judgment.key.newId !in seen + {r.judgment.key.newId}
        {
          assert rest[i] == ids[i + 1] && ids[0] != ids[i + 1];
          assert rows[rest[i]].judgment.key != rows[ids[0]].judgment.key;
        }
        FullRun(rows, rest, seen + {r.judgment.key.newId}, oldId, text);
        assert AllDismissed(rows, rest) <==> AllDismissed(rows, ids) by {
          assert forall i :: 0 < i < |ids| ==> ids[i] == rest[i - 1];
        }
      }
    }
  }

  /** The run ends where a row was not dismissed or repeats a new id, on any table. */
  lemma {:induction false} RunExactly(rows: Rows, ids: seq<nat>, seen: set<MemoryId>)
    requires RowIds(rows, ids)
    ensures var n := DismissedRun(rows, ids, seen);
            && (forall i :: 0 <= i < n ==> rows[ids[i]].disposition.Dismissed? && rows[ids[i]].judgment.key.newId !in seen)
            && (forall i, j :: 0 <= i < j < n ==> rows[ids[i]].judgment.key.newId != rows[ids[j]].judgment.key.newId)
            && (n < |ids| ==>
                  || !rows[ids[n]].disposition.Dismissed? || rows[ids[n]].judgment.key.newId in seen
                  || exists i :: 0 <= i < n && rows[ids[i]].judgment.key.newId == rows[ids[n]].judgment.key.newId)
  {
    if ids != [] {
      var newId := rows[ids[0]].judgment.key.newId;
      var rest, m := ids[1..], DismissedRun(rows, ids[1..], seen + {newId});
      RunExactly(rows, rest, seen + {newId});
      if rows[ids[0]].disposition.Dismissed? && newId !in seen {
        assert forall i :: 0 <= i < |rest| ==> rest[i] == ids[i + 1];
        forall i, j | 0 <= i < j < m + 1 ensures rows[ids[i]].judgment.key.newId != rows[ids[j]].judgment.key.newId {
          assert rest[j - 1] == ids[j];
          assert i > 0 ==> rest[i - 1] == ids[i];
        }
        if m < |rest| && rows[rest[m]].disposition.Dismissed? && rows[rest[m]].judgment.key.newId !in seen {
          if i :| 0 <= i < m && rows[rest[i]].judgment.key.newId == rows[rest[m]].judgment.key.newId {
            assert ids[i + 1] == rest[i];
          } else {
            assert rows[ids[0]].judgment.key.newId == rows[ids[m + 1]].judgment.key.newId;
          }
        }
      }
    }
  }

  /** Eligibility: there are three ever-opened displacement rows of this text version,
      and the latest three are all dismissed. That their new ids differ is implied. */
  lemma EligibleExactly(rows: Rows, oldId: MemoryId, text: string)
    requires TableOk(rows)
    ensures var ids := LatestEvidence(rows, oldId, text, REQUIRED_FALSE_POSITIVES);
            && NewestFirst(rows, ids)
            && (forall i :: 0 <= i < |ids| ==> IsEvidence(rows[ids[i]], oldId, text))
            && (forall k: nat, i :: k < |rows| && IsEvidence(rows[k], oldId, text) && k !in ids && 0 <= i < |ids|
                  ==> Newer(rows, ids[i], k))
            && (ProtectionEligible(rows, oldId, text) <==> |ids| == 3 && AllDismissed(rows, ids))
  {
    var all := Evidence(rows, |rows|, oldId, text);
    var ids := LatestEvidence(rows, oldId, text, REQUIRED_FALSE_POSITIVES);
    EvidenceNewestFirst(rows, |rows|, oldId, text);
    forall k: nat ensures k in all <==> k < |rows| && IsEvidence(rows[k], oldId, text) {
      EvidenceMembers(rows, |rows|, oldId, text, k);
    }
    assert forall i :: 0 <= i < |ids| ==> all[i] == ids[i] && all[i] in all;
    forall i, j | 0 <= i < j < |ids| ensures ids[i] != ids[j] {
      assert Newer(rows, all[i], all[j]);
    }
    FullRun(rows, ids, {}, oldId, text);
    forall k: nat, i | k < |rows| && IsEvidence(rows[k], oldId, text) && k !in ids && 0 <= i < |ids|
      ensures Newer(rows, ids[i], k)
    {
      assert forall m :: 0 <= m < |ids| ==> all[m] in ids;
      var n :| 0 <= n < |all| && all[n] == k;
      assert all[i] == ids[i] && Newer(rows, all[i], all[n]);
    }
  }

  // ---------------------------------------------------------------------------
  // The store
  // ---------------------------------------------------------------------------

  class Store {
    var rows: Rows

    constructor ()
      ensures rows == []
    {
      rows := [];
    }

    method RecordJudgment(j: Judgment) returns (inserted: bool)
      modifies this
      ensures rows == Recorded(old(rows), j)
      ensures inserted <==> !HasKey(old(rows), j.key)
    {
      var opens := OpeningVerdict(j.key.kind, j.verdict)
        && (match j.confidence case Some(c) => c case None => 0.0) >= KindFloor(j.key.kind);
      inserted := !HasKey(rows, j.key);
      if inserted {
        rows := rows + [PairRow(j, if opens then Open else Cached, NOT_CLOSED)];
      }
    }

    method HasJudgment(key: PairKey) returns (found: bool)
      ensures found <==> exists i :: 0 <= i < |rows| && rows[i].judgment.key == key
    {
      found := HasKey(rows, key);
    }

    /** Candidates judged against the probe in either direction, version by version. */
    method JudgedEither(probeId: MemoryId, probeText: string, candidates: seq<(MemoryId, string)>)
      returns (judged: set<MemoryId>)
      ensures forall id :: id in judged <==>
                exists c :: c in candidates && c.0 == id &&
                  (HasKey(rows, PairKey(Displacement, probeId, c.0, Sha256(c.1))) ||
                   HasKey(rows, PairKey(Displacement, c.0, probeId, Sha256(probeText))))
    {
      judged := {};
      for n := 0 to |candidates|
        invariant forall id :: id in judged <==>
                    exists c :: c in candidates[..n] && c.0 == id &&
                      (HasKey(rows, PairKey(Displacement, probeId, c.0, Sha256(c.1))) ||
                       HasKey(rows, PairKey(Displacement, c.0, probeId, Sha256(probeText))))
      {
        var c := candidates[n];
        assert candidates[..n + 1] == candidates[..n] + [c];
        if HasKey(rows, PairKey(Displacement, probeId, c.0, Sha256(c.1)))
           || HasKey(rows, PairKey(Displacement, c.0, probeId, Sha256(probeText))) {
          judged := judged + {c.0};
        }
      }
      assert candidates[..|candidates|] == candidates;
    }

    /** `None` is the source's error for an unknown disposition. */
    method Dispose(pairId: nat, d: Disposition, actor: Option<string>, now: Time) returns (r: Option<bool>)
      modifies this
      ensures r.None? <==> !Disposable(d)
      ensures r.None? ==> rows == old(rows)
      ensures r.Some? ==> rows == Disposed(old(rows), pairId, d, Closure(actor, Some(now)))
      ensures r.Some? ==> (r.value <==> pairId < |old(rows)| && old(rows)[pairId].disposition.Open?)
    {
      if d !in {Confirmed, Dismissed, Obsoleted, Expired, Merged, Ttl} {
        return None;
      }
      var hit := pairId < |rows| && rows[pairId].disposition.Open?;
      if hit {
        rows := rows[pairId := rows[pairId].(disposition := d, closure := Closure(actor, Some(now)))];
      }
      return Some(hit);
    }

    method Reopen(pairId: nat) returns (hit: bool)
      modifies this
      ensures rows == Reopened(old(rows), pairId)
      ensures hit <==> pairId < |old(rows)| && old(rows)[pairId].disposition in {Confirmed, Merged, Ttl}
    {
      hit := pairId < |rows| && rows[pairId].disposition in {Confirmed, Merged, Ttl};
      if hit {
        rows := rows[pairId := rows[pairId].(disposition := Open, closure := NOT_CLOSED)];
      }
    }

    method CloseForOld(oldId: MemoryId, d: Disposition, actor: Option<string>, kind: Option<Kind>, now: Time)
      returns (closed: nat)
      modifies this
      ensures rows == ClosedForOld(old(rows), oldId, kind, d, Closure(actor, Some(now)))
      ensures closed == CountOpen(old(rows), Targets(oldId, kind))
    {
      closed := CountOpen(rows, Targets(oldId, kind));
      rows := ClosedWhere(rows, Targets(oldId, kind), d, Closure(actor, Some(now)));
    }

    method CloseForDeletedMemory(id: MemoryId, now: Time)
      modifies this
      ensures rows == ClosedForDeleted(old(rows), id, now)
    {
      rows := ClosedWhere(rows, (k: PairKey) => k.oldId == id, Obsoleted, Closure(None, Some(now)));
      rows := ClosedWhere(rows, (k: PairKey) => k.newId == id, Expired, Closure(None, Some(now)));
    }

    method CloseForUpdatedText(id: MemoryId, text: string, now: Time)
      modifies this
      ensures rows == ClosedForUpdated(old(rows), id, text, now)
    {
      rows := ClosedWhere(rows, (k: PairKey) => k.oldId == id && k.oldTextHash != Sha256(text), Expired,
                          Closure(None, Some(now)));
    }

    /** The loop over the fetched evidence rows. */
    method ConsecutiveDismissedEvidence(oldId: MemoryId, text: string) returns (eligible: bool, pairIds: seq<nat>)
      ensures eligible <==> ProtectionEligible(rows, oldId, text)
      ensures pairIds <= LatestEvidence(rows, oldId, text, REQUIRED_FALSE_POSITIVES)
      ensures RowIds(rows, pairIds) && AllDismissed(rows, pairIds)
    {
      var fetched := LatestEvidence(rows, oldId, text, REQUIRED_FALSE_POSITIVES);
      pairIds := [];
      var newIds: set<MemoryId> := {};
      var n := 0;
      while n < |fetched|
        invariant n <= |fetched| && pairIds == fetched[..n]
        invariant AllDismissed(rows, pairIds)
        invariant DismissedRun(rows, fetched, {}) == n + DismissedRun(rows, fetched[n..], newIds)
      {
        var row := rows[fetched[n]];
        assert fetched[n..][1..] == fetched[n + 1..];
        if !row.disposition.Dismissed? || row.judgment.key.newId in newIds {
          break;
        }
        pairIds := pairIds + [fetched[n]];
        newIds := newIds + {row.judgment.key.newId};
        n := n + 1;
      }
      eligible := |pairIds| >= REQUIRED_FALSE_POSITIVES;
    }
  }
}
