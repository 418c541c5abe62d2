/** Which memories a limited harvest can miss (src/memline/staleness.py). */
module HarvestLimit {
  import opened Strings
  import opened Supersession
  import opened Lifecycle
  import opened LifecycleRuns

  /** What the scan of a harvest asks the store for, stamped memories included. */
  function Expired(g: Memories, now: Time): set<MemoryId>
  {
    set m | m in g && TtlExpired(g[m], now)
  }

  /** Any `n` elements of a set can be listed. */
  lemma {:induction false} Listing(s: set<MemoryId>, n: nat) returns (r: seq<MemoryId>)
    requires n <= |s|
    ensures |r| == n && Distinct(r) && forall i :: 0 <= i < n ==> r[i] in s
    decreases n
  {
    if n == 0 {
      r := [];
    } else {
      var k :| k in s;
      var rest := Listing(s - {k}, n - 1);
      r := rest + [k];
    }
  }

  /** A distinct list has as many elements as it is long. */
  lemma {:induction false} ListedCount(r: seq<MemoryId>)
    requires Distinct(r)
    ensures |set m | m in r| == |r|
  {
    if r == [] {
      assert (set m | m in r) == {};
    } else {
      var n := |r| - 1;
      ListedCount(r[..n]);
      assert (set m | m in r) == (set m | m in r[..n]) + {r[n]};
    }
  }

  lemma SubsetSize(a: set<MemoryId>, b: set<MemoryId>)
    requires a <= b
    ensures |a| <= |b|
  {
    assert b == a + (b - a);
  }

  /** Whatever the store returns, the scan holds a memory that is due, if and only if no more memories are
      expired than the limit allows for, those counted that were stamped long ago. */
  lemma ScannedExactly(g: Memories, now: Time, limit: nat, m: MemoryId)
    requires Due(g, m, now)
    ensures (forall scan :: ScanOf(g, now, limit, scan) ==> m in scan) <==> |Expired(g, now)| <= limit
  {
    var all := Expired(g, now);
    if |all| <= limit {
      forall scan | ScanOf(g, now, limit, scan) ensures m in scan {
        if m !in scan {
          ListedCount(scan);
          SubsetSize((set x | x in scan), all - {m});
        }
      }
    } else {
      var scan := Listing(all - {m}, limit);
      assert ScanOf(g, now, limit, scan) && m !in scan;
    }
  }

  predicate StampedIn(w: World, m: MemoryId)
  {
    m in w.mems && Stamped(w.mems[m])
  }

  /** A memory that is due is stamped by the next harvest, whatever the store returns, if and only if no more
      than `limit` memories are expired. */
  lemma StampedExactly(w: World, now: Time, limit: nat, m: MemoryId)
    requires now != "" && Due(w.mems, m, now)
    ensures (forall scan :: ScanOf(w.mems, now, limit, scan) ==> StampedIn(Harvested(w, scan, now), m))
            <==> |Expired(w.mems, now)| <= limit
  {
    forall scan ensures StampedIn(Harvested(w, scan, now), m) <==> m in scan {
      HarvestRaisesFlag(w, scan, now, m);
    }
    ScannedExactly(w.mems, now, limit, m);
  }

  /** Once more than `limit` memories are expired, every due one of them can be missed time and again: there is
      a scan without it, and after that harvest it is still due, among as many expired ones. */
  lemma MissedAgain(w: World, now: Time, limit: nat, m: MemoryId) returns (scan: seq<MemoryId>)
    requires now != "" && Due(w.mems, m, now) && |Expired(w.mems, now)| > limit
    ensures ScanOf(w.mems, now, limit, scan)
    ensures var v := Harvested(w, scan, now); Due(v.mems, m, now) && |Expired(v.mems, now)| > limit
  {
    ScannedExactly(w.mems, now, limit, m);
    scan :| ScanOf(w.mems, now, limit, scan) && m !in scan;
    HarvestedDue(w, scan, now, m);
    var v := Harvested(w, scan, now);
    forall x ensures x in Expired(v.mems, now) <==> x in Expired(w.mems, now) {
      HarvestKeepsDeadline(w, scan, now, x);
    }
    assert Expired(v.mems, now) == Expired(w.mems, now);
  }

  lemma {:induction false} HarvestKeepsDeadline(w: World, scan: seq<MemoryId>, now: Time, x: MemoryId)
    ensures x in Harvested(w, scan, now).mems <==> x in w.mems
    ensures x in w.mems ==> (TtlExpired(Harvested(w, scan, now).mems[x], now) <==> TtlExpired(w.mems[x], now))
  {
    if scan != [] {
      HarvestKeepsDeadline(w, scan[..|scan| - 1], now, x);
    }
  }
}
