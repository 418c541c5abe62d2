/** Merging passes later onto a prior merge is merging them all at once
    (src/memline/wiki/review_report.py). */
module ReviewSplit {
  import opened Sequences
  import opened Strings
  import opened Sorting
  import opened ReviewReport
  import opened MergedReport
  import opened ReviewMerge
  import opened ReviewAgreement

  // ---------------------------------------------------------------------------
  // Claims
  // ---------------------------------------------------------------------------

  lemma {:induction false} FoldAppend(claims: Claims, a: seq<Report>, b: seq<Report>, offset: nat)
    ensures FoldPasses(claims, a + b, offset) == FoldPasses(FoldPasses(claims, a, offset), b, offset + |a|)
  {
    hide FoldPass, Elements;
    if b == [] {
      assert a + b == a;
    } else {
      FoldAppend(claims, a, b[..|b| - 1], offset);
      LastOfAppend(a, b);
    }
  }

  lemma {:induction false} ReadBackKeys(claims: Claims, keys: seq<ClaimId>, total: nat)
    requires Ascending(keys) && forall k :: k in keys ==> k in claims
    ensures ReadClaims(ClaimList(claims, keys, total)).Keys == (set k | k in keys)
    ensures forall k :: k in keys ==> ReadClaims(ClaimList(claims, keys, total))[k] == claims[k]
  {
    if keys != [] {
      var n := |keys| - 1;
      LastKeyNew(keys, n);
      ReadBackKeys(claims, keys[..n], total);
      assert keys[n] in keys;
      assert ClaimList(claims, keys, total)[..n] == ClaimList(claims, keys[..n], total);
      assert PriorEntry(Listed(claims, keys[n], total)) == claims[keys[n]];
    }
  }

  /** The merged claim list, read as a prior report, gives the claims back. */
  lemma ReadBack(claims: Claims, total: nat)
    ensures ReadClaims(SortedClaims(claims, total)) == claims
  {
    var keys := Sorted(claims.Keys);
    ReadBackKeys(claims, keys, total);
    assert forall k :: k in keys <==> k in claims;
  }

  // ---------------------------------------------------------------------------
  // Lists
  // ---------------------------------------------------------------------------

  lemma {:induction false} StampedAppend(a: seq<Report>, b: seq<Report>, offset: nat)
    ensures StampedAll(a + b, offset) == StampedAll(a, offset) + StampedAll(b, offset + |a|)
  {
    hide Stamped, Elements;
    if b == [] {
      assert a + b == a;
    } else {
      var n := |b| - 1;
      StampedAppend(a, b[..n], offset);
      assert (a + b)[..|a + b| - 1] == a + b[..n] && (a + b)[|a + b| - 1] == b[n];
    }
  }

  lemma {:induction false} ScopesAppend(a: seq<Report>, b: seq<Report>, offset: nat)
    ensures ScopesAll(a + b, offset) == ScopesAll(a, offset) + ScopesAll(b, offset + |a|)
  {
    if b == [] {
      assert a + b == a;
    } else {
      var n := |b| - 1;
      ScopesAppend(a, b[..n], offset);
      assert (a + b)[..|a + b| - 1] == a + b[..n];
    }
  }

  lemma RecordsAppend(a: seq<Report>, b: seq<Report>, offset: nat)
    ensures Records(a + b, offset) == Records(a, offset) + Records(b, offset + |a|)
  {
    var left, right := Records(a + b, offset), Records(a, offset) + Records(b, offset + |a|);
    forall i | 0 <= i < |left| ensures left[i] == right[i] {
      if i >= |a| {
        assert right[i] == Records(b, offset + |a|)[i - |a|];
      }
    }
  }

  lemma {:induction false} FailedAppend(a: seq<PassRecord>, b: seq<PassRecord>)
    ensures FailedPasses(a + b) == FailedPasses(a) + FailedPasses(b)
  {
    if b == [] {
      assert a + b == a;
    } else {
      var n := |b| - 1;
      FailedAppend(a, b[..n]);
      assert (a + b)[..|a + b| - 1] == a + b[..n];
    }
  }

  // ---------------------------------------------------------------------------
  // The overall verdict
  // ---------------------------------------------------------------------------

  predicate AllKnown(words: seq<Word<Overall>>)
  {
    forall i :: 0 <= i < |words| ==> words[i].Known?
  }

  /** The harshest of known verdicts is one of them, and none is harsher. */
  lemma {:induction false} HarshestMeaning(words: seq<Word<Overall>>)
    requires words != [] && AllKnown(words)
    ensures Harshest(words) in words && Harshest(words).Known?
    ensures forall w :: w in words ==> OverallRank(w) <= OverallRank(Harshest(words))
  {
    if |words| > 1 {
      var n := |words| - 1;
      HarshestMeaning(words[..n]);
      assert forall w :: w in words ==> w in words[..n] || w == words[n];
    }
  }

  /** Known verdicts are told apart by their rank. */
  lemma HarshestUnique(words: seq<Word<Overall>>, others: seq<Word<Overall>>)
    requires words != [] && AllKnown(words) && others != [] && AllKnown(others)
    requires Harshest(words) in others
    requires forall w :: w in others ==> OverallRank(w) <= OverallRank(Harshest(words))
    ensures Harshest(others) == Harshest(words)
  {
    HarshestMeaning(words);
    HarshestMeaning(others);
  }

  lemma HarshestSplit(a: seq<Word<Overall>>, b: seq<Word<Overall>>, last: seq<Word<Overall>>)
    requires a != [] && AllKnown(a) && b != [] && AllKnown(b) && AllKnown(last)
    ensures Harshest(b + [Harshest(a + last)]) == Harshest((a + b) + last)
  {
    var inner, all := a + last, (a + b) + last;
    HarshestMeaning(inner);
    HarshestMeaning(all);
    var outer := b + [Harshest(inner)];
    assert forall w :: w in all <==> w in inner || w in b;
    assert forall w :: w in outer <==> w in b || w == Harshest(inner);
    if Harshest(all) in inner {
      assert OverallRank(Harshest(inner)) == OverallRank(Harshest(all));
      assert Harshest(inner) == Harshest(all);
    }
    HarshestUnique(all, outer);
  }

  // ---------------------------------------------------------------------------
  // The aggregate
  // ---------------------------------------------------------------------------

  lemma FailedSplit(before: seq<Item<PassRecord>>, a: seq<Item<PassRecord>>, b: seq<Item<PassRecord>>)
    ensures FailedPasses(Objects(before + a)) + FailedPasses(Objects(b))
         == FailedPasses(Objects(before)) + FailedPasses(Objects(a + b))
  {
    hide FailedPasses, Objects;
    ObjectsAppend(before, a);
    ObjectsAppend(a, b);
    FailedAppend(Objects(before), Objects(a));
    FailedAppend(Objects(a), Objects(b));
  }

  lemma TruthyAppend(before: seq<Item<PassRecord>>, a: seq<Report>, offset: nat)
    requires AllTruthy(Objects(before)) && AllPassValid(a)
    ensures AllTruthy(Objects(before + Records(a, offset)))
  {
    RecordsGood(a, offset);
    ObjectsAppend(before, Records(a, offset));
    var left, right := Objects(before), Objects(Records(a, offset));
    var all := left + right;
    forall i | 0 <= i < |all| ensures Truthy(all[i].reportValid) {
      if i >= |left| {
        assert right[i - |left|].reportValid.Yes?;
      }
    }
  }

  /** The later merge sees the earlier one's records. */
  lemma AggregateSplit(a: seq<Report>, b: seq<Report>, prior: Option<Merged>, m: Merged, bundle: Bundle)
    requires a != [] && b != [] && AllPassed(a, bundle) && AllPassed(b, bundle)
    requires Offset(Some(m)) == Offset(prior) + |a| && m.validation == Object(MergedAggregate(a, prior))
    requires AllTruthy(Objects(PriorRecords(prior)))
    ensures MergedAggregate(b, Some(m)) == MergedAggregate(a + b, prior).(scopeClean := FlagOf(AllInScope(b)))
  {
    RecordsSplit(a, b, prior, m);
    AllPassedAppend(a, b, bundle);
    PassedParts(a, bundle);
    PassedParts(b, bundle);
    PassedParts(a + b, bundle);
    TruthyAppend(PriorRecords(prior), a, Offset(prior));
    hide FailedPasses, Objects, AllPassed, AllTruthy, AllPassValid, AllDeterministic, AllInScope, Expected, MostExpected,
         PriorRecords, Records;
    var twice, once := MergedAggregate(b, Some(m)), MergedAggregate(a + b, prior);
    assert twice.perPass == once.perPass && twice.invalidPasses == once.invalidPasses;
    assert twice.reportValid == once.reportValid;
  }

  lemma RecordsSplit(a: seq<Report>, b: seq<Report>, prior: Option<Merged>, m: Merged)
    requires Offset(Some(m)) == Offset(prior) + |a| && m.validation == Object(MergedAggregate(a, prior))
    ensures PriorRecords(Some(m)) == PriorRecords(prior) + Records(a, Offset(prior))
    ensures var rb := Records(b, Offset(Some(m)));
            && PriorRecords(Some(m)) + rb == PriorRecords(prior) + Records(a + b, Offset(prior))
            && FailedPasses(Objects(PriorRecords(Some(m)))) + FailedPasses(Objects(rb))
               == FailedPasses(Objects(PriorRecords(prior))) + FailedPasses(Objects(Records(a + b, Offset(prior))))
  {
    hide FailedPasses, Objects, Records;
    var before, ra, rb := PriorRecords(prior), Records(a, Offset(prior)), Records(b, Offset(prior) + |a|);
    assert PriorRecords(Some(m)) == before + ra;
    RecordsAppend(a, b, Offset(prior));
    assert (before + ra) + rb == before + (ra + rb);
    FailedSplit(before, ra, rb);
  }

  lemma AllPassedAppend(a: seq<Report>, b: seq<Report>, bundle: Bundle)
    requires AllPassed(a, bundle) && AllPassed(b, bundle)
    ensures AllPassed(a + b, bundle)
  {
    forall i | 0 <= i < |a + b| ensures Passed((a + b)[i], bundle) {
      if i < |a| {
        assert Passed(a[i], bundle);
      } else {
        assert Passed(b[i - |a|], bundle);
      }
    }
  }

  lemma InScopeAppend(a: seq<Report>, b: seq<Report>)
    ensures AllInScope(a + b) <==> AllInScope(a) && AllInScope(b)
  {
    if AllInScope(a + b) {
      forall i | 0 <= i < |a| ensures a[i].validation.Some? && a[i].validation.value.scopeClean {
        assert (a + b)[i] == a[i];
      }
      forall i | 0 <= i < |b| ensures b[i].validation.Some? && b[i].validation.value.scopeClean {
        assert (a + b)[|a| + i] == b[i];
      }
    }
  }

  // ---------------------------------------------------------------------------
  // The split
  // ---------------------------------------------------------------------------

  lemma ClaimsSplit(a: seq<Report>, b: seq<Report>, prior: Option<Merged>, m: Merged)
    requires Offset(Some(m)) == Offset(prior) + |a|
    requires m.claims == List(SortedClaims(AllClaims(a, prior), Offset(prior) + |a|))
    ensures AllClaims(b, Some(m)) == AllClaims(a + b, prior)
  {
    hide FoldPasses, ReadClaims, SortedClaims;
    ReadBack(AllClaims(a, prior), Offset(prior) + |a|);
    FoldAppend(PriorClaims(prior), a, b, Offset(prior));
  }

  /** Valid passes merged onto a prior merge give what merging all of them at once gives, except that
      `scope_clean` only speaks of the later passes: the two merges are equal exactly when the later passes
      were not all in scope or the earlier ones were. */
  lemma SplittingIsHarmless(a: seq<Report>, b: seq<Report>, prior: Option<Merged>, bundle: Bundle, once: Merged,
                            earlier: Merged, twice: Merged)
    requires a != [] && b != [] && AllValid(a, bundle) && AllValid(b, bundle)
    requires prior.Some? ==> MergedFindings(prior.value, bundle) == []
    requires once == Merge(a + b, prior, bundle)
    requires earlier == Merge(a, prior, bundle) && twice == Merge(b, Some(earlier), bundle)
    ensures twice == once.(validation := Object(once.validation.value.(scopeClean := FlagOf(AllInScope(b)))))
    ensures twice == once <==> (AllInScope(b) ==> AllInScope(a))
  {
    if prior.Some? {
      MergedExact(prior.value, bundle);
    }
    SplitMerges(a, b, prior, bundle, once, earlier, twice);
    InScopeAppend(a, b);
  }

  lemma SplitMerges(a: seq<Report>, b: seq<Report>, prior: Option<Merged>, bundle: Bundle, once: Merged,
                    earlier: Merged, twice: Merged)
    requires a != [] && b != [] && AllValid(a, bundle) && AllValid(b, bundle)
    requires prior.Some? ==> WellMerged(prior.value, bundle)
    requires once == Merge(a + b, prior, bundle)
    requires earlier == Merge(a, prior, bundle) && twice == Merge(b, Some(earlier), bundle)
    ensures twice == once.(validation := Object(once.validation.value.(scopeClean := FlagOf(AllInScope(b)))))
  {
    hide WellMerged, AllReviewed, AllPassed, AllValid, AllInScope, SortedClaims, AllClaims, MergedAggregate, StampedAll,
         ScopesAll, Flagged, FlaggedExactly, Expected, Harshest, Overalls, Provenances, PriorScopes, PriorOmissions,
         PriorProvenance, PriorRecords, AllTruthy, Objects;
    ValidParts(a, bundle);
    ValidParts(b, bundle);
    if prior.Some? {
      OverallKnown(prior, bundle);
    }
    SplitLists(a, b, prior, bundle, once, earlier, twice);
    SplitCounts(a, b, prior, bundle, once, earlier, twice);
    PriorRecordsTruthy(prior, bundle);
    AggregateSplit(a, b, prior, earlier, bundle);
  }

  lemma OverallKnown(prior: Option<Merged>, bundle: Bundle)
    requires prior.Some? && WellMerged(prior.value, bundle)
    ensures prior.value.overall.Known?
  {
  }

  lemma SplitCounts(a: seq<Report>, b: seq<Report>, prior: Option<Merged>, bundle: Bundle, once: Merged,
                    earlier: Merged, twice: Merged)
    requires a != [] && b != [] && once == Merge(a + b, prior, bundle)
    requires earlier == Merge(a, prior, bundle) && twice == Merge(b, Some(earlier), bundle)
    ensures twice.passes == once.passes && twice.claims == once.claims && twice.flaggedClaims == once.flaggedClaims
    ensures twice.unanimousClaims == once.unanimousClaims && twice.singlePassClaims == once.singlePassClaims
  {
    hide SortedClaims, AllClaims, MergedAggregate, StampedAll, ScopesAll, Flagged, FlaggedExactly, Harshest, Overalls,
         Provenances, PriorScopes, PriorOmissions, PriorProvenance;
    ClaimsSplit(a, b, prior, earlier);
    assert Offset(Some(earlier)) + |b| == Offset(prior) + |a + b|;
  }

  lemma SplitLists(a: seq<Report>, b: seq<Report>, prior: Option<Merged>, bundle: Bundle, once: Merged,
                   earlier: Merged, twice: Merged)
    requires a != [] && forall i :: 0 <= i < |a| ==> a[i].overall.Known? && a[i].scope.Object?
    requires b != [] && forall i :: 0 <= i < |b| ==> b[i].overall.Known?
    requires prior.Some? ==> prior.value.overall.Known?
    requires once == Merge(a + b, prior, bundle)
    requires earlier == Merge(a, prior, bundle) && twice == Merge(b, Some(earlier), bundle)
    ensures twice.omissions == once.omissions && twice.scopes == once.scopes
    ensures twice.provenance == once.provenance && twice.overall == once.overall
  {
    hide SortedClaims, AllClaims, MergedAggregate, StampedAll, ScopesAll, Flagged, FlaggedExactly, Harshest,
         Overalls, Provenances, PriorScopes;
    StampedAppend(a, b, Offset(prior));
    Associative(PriorOmissions(prior), StampedAll(a, Offset(prior)), StampedAll(b, Offset(prior) + |a|));
    ScopesSplit(a, b, prior, earlier);
    OverallSplit(a, b, prior);
    ProvenanceSplit(a, b);
    Associative(PriorProvenance(prior), Provenances(a), Provenances(b));
  }

  lemma KeptScopes(m: Merged, kept: seq<Item<MergedScope>>)
    requires m.scopes == Some(List(kept)) && kept != []
    ensures PriorScopes(Some(m)) == kept
  {
  }

  lemma SomeScopes(a: seq<Report>, offset: nat)
    requires a != [] && forall i :: 0 <= i < |a| ==> a[i].scope.Object?
    ensures ScopesAll(a, offset) != []
  {
    ScopesListed(a, offset);
  }

  lemma ScopesSplit(a: seq<Report>, b: seq<Report>, prior: Option<Merged>, m: Merged)
    requires a != [] && (forall i :: 0 <= i < |a| ==> a[i].scope.Object?) && Offset(Some(m)) == Offset(prior) + |a|
    requires m.scopes == Some(List(PriorScopes(prior) + ScopesAll(a, Offset(prior))))
    ensures PriorScopes(Some(m)) + ScopesAll(b, Offset(Some(m))) == PriorScopes(prior) + ScopesAll(a + b, Offset(prior))
  {
    hide ScopesAll, PriorScopes;
    SomeScopes(a, Offset(prior));
    ScopesAppend(a, b, Offset(prior));
    KeptScopes(m, PriorScopes(prior) + ScopesAll(a, Offset(prior)));
  }

  lemma PriorRecordsTruthy(prior: Option<Merged>, bundle: Bundle)
    requires prior.Some? ==> WellMerged(prior.value, bundle)
    ensures AllTruthy(Objects(PriorRecords(prior)))
  {
    PriorRecordsGood(prior, bundle);
  }

  lemma OverallSplit(a: seq<Report>, b: seq<Report>, prior: Option<Merged>)
    requires a != [] && (forall i :: 0 <= i < |a| ==> a[i].overall.Known?)
    requires b != [] && (forall i :: 0 <= i < |b| ==> b[i].overall.Known?)
    requires prior.Some? ==> prior.value.overall.Known?
    ensures var last := if prior.Some? then [prior.value.overall] else [];
            Harshest(Overalls(b) + [Harshest(Overalls(a) + last)]) == Harshest(Overalls(a + b) + last)
  {
    var last := if prior.Some? then [prior.value.overall] else [];
    HarshestSplit(Overalls(a), Overalls(b), last);
    assert Overalls(a + b) == Overalls(a) + Overalls(b);
  }

  lemma ProvenanceSplit(a: seq<Report>, b: seq<Report>)
    ensures Provenances(a + b) == Provenances(a) + Provenances(b)
  {
  }
}
