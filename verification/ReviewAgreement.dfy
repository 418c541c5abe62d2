/** The producer and the independent validator of merged reviews agree
    (src/memline/wiki/review_report.py). */
module ReviewAgreement {
  import opened Strings
  import opened Sorting
  import opened ReviewReport
  import opened MergedReport
  import opened ReviewMerge

  // ---------------------------------------------------------------------------
  // Claims
  // ---------------------------------------------------------------------------

  lemma KeysDistinct(claims: Claims, keys: seq<ClaimId>, total: nat)
    requires Ascending(keys) && forall k :: k in keys ==> k in claims
    ensures DistinctIds(ClaimList(claims, keys, total), MergedId)
  {
  }

  lemma ListedGood(claims: Claims, total: nat, expected: map<ClaimId, set<string>>)
    requires ClaimsOk(claims, total, expected) && total > 0
    ensures GoodMergedClaims(List(SortedClaims(claims, total)), expected, total)
  {
    var keys := Sorted(claims.Keys);
    var items := ClaimList(claims, keys, total);
    KeysDistinct(claims, keys, total);
    forall i | 0 <= i < |items| ensures items[i].Object? && GoodMergedClaim(items[i].value, expected, total) {
      assert keys[i] in keys;
      assert ClaimOk(claims, total, expected, keys[i]);
    }
    forall id | id in expected ensures Some(id) in Seen(items, MergedId) {
      assert ClaimOk(claims, total, expected, id);
      assert id in keys;
      var k :| 0 <= k < |keys| && keys[k] == id;
      assert MergedId(items[k].value) == Some(id);
    }
  }

  function Among(claims: Claims, keys: seq<ClaimId>, times: Option<int>): set<ClaimId>
  {
    set id | id in keys && id in claims && Flags(claims[id].flaggedIn, times)
  }

  /** Flagged at all, or flagged exactly so often. */
  predicate Flags(flaggedIn: int, times: Option<int>)
  {
    flaggedIn != 0 && (times.Some? ==> flaggedIn == times.value)
  }

  predicate NonNegative(claims: Claims)
  {
    forall id :: id in claims ==> claims[id].flaggedIn >= 0
  }

  lemma LastKeyNew(keys: seq<ClaimId>, n: nat)
    requires Ascending(keys) && n == |keys| - 1
    ensures keys[n] !in keys[..n] && Ascending(keys[..n]) && keys == keys[..n] + [keys[n]]
  {
  }

  lemma AmongStep(claims: Claims, keys: seq<ClaimId>, n: nat, times: Option<int>)
    requires Ascending(keys) && n == |keys| - 1 && keys[n] in claims
    ensures |Among(claims, keys, times)| == |Among(claims, keys[..n], times)| + if Flags(claims[keys[n]].flaggedIn, times) then 1 else 0
  {
    LastKeyNew(keys, n);
    var before := Among(claims, keys[..n], times);
    var hit := Flags(claims[keys[n]].flaggedIn, times);
    forall id ensures id in Among(claims, keys, times) <==> id in before || (hit && id == keys[n]) {
      assert id in keys <==> id in keys[..n] || id == keys[n];
    }
    if hit {
      assert Among(claims, keys, times) == before + {keys[n]};
    } else {
      assert Among(claims, keys, times) == before;
    }
  }

  /** Counting over the sorted list is counting the claims, whatever the order. */
  lemma {:induction false} FlaggedCounted(claims: Claims, keys: seq<ClaimId>, total: nat)
    requires Ascending(keys) && (forall k :: k in keys ==> k in claims) && NonNegative(claims)
    ensures |FlaggedItems(ClaimList(claims, keys, total))| == |Among(claims, keys, None)|
  {
    if keys != [] {
      var n := |keys| - 1;
      LastKeyNew(keys, n);
      FlaggedCounted(claims, keys[..n], total);
      AmongStep(claims, keys, n, None);
      assert ClaimList(claims, keys, total)[..n] == ClaimList(claims, keys[..n], total);
      assert keys[n] in keys;
    }
  }

  lemma {:induction false} TimesCounted(claims: Claims, keys: seq<ClaimId>, total: nat, times: int)
    requires Ascending(keys) && (forall k :: k in keys ==> k in claims) && NonNegative(claims)
    ensures FlaggedTimes(FlaggedItems(ClaimList(claims, keys, total)), times) == |Among(claims, keys, Some(times))|
  {
    if keys != [] {
      var n := |keys| - 1;
      LastKeyNew(keys, n);
      TimesCounted(claims, keys[..n], total, times);
      AmongStep(claims, keys, n, Some(times));
      assert keys[n] in keys;
      var items := ClaimList(claims, keys, total);
      assert items[..n] == ClaimList(claims, keys[..n], total);
      FlaggedStep(items, n, times);
    }
  }

  lemma FlaggedStep(items: seq<Item<MergedClaim>>, n: nat, times: int)
    requires n == |items| - 1
    ensures FlaggedTimes(FlaggedItems(items), times)
         == FlaggedTimes(FlaggedItems(items[..n]), times)
            + if IsFlagged(items[n]) && Equals(items[n].value.flaggedIn, times) then 1 else 0
  {
    var before, flagged := FlaggedItems(items[..n]), FlaggedItems(items);
    if IsFlagged(items[n]) {
      assert flagged == before + [items[n].value];
      assert flagged[..|flagged| - 1] == before;
    } else {
      assert flagged == before + [];
      assert flagged == before;
    }
  }

  lemma CountsGood(claims: Claims, total: nat)
    requires NonNegative(claims)
    ensures GoodCounts(SortedClaims(claims, total), total,
                       Int(|Flagged(claims)|), Int(|FlaggedExactly(claims, total)|), Int(|FlaggedExactly(claims, 1)|))
  {
    var keys := Sorted(claims.Keys);
    FlaggedCounted(claims, keys, total);
    TimesCounted(claims, keys, total, total);
    TimesCounted(claims, keys, total, 1);
    assert Among(claims, keys, None) == Flagged(claims);
    assert Among(claims, keys, Some(total as int)) == FlaggedExactly(claims, total);
    assert Among(claims, keys, Some(1)) == FlaggedExactly(claims, 1);
  }

  // ---------------------------------------------------------------------------
  // Omissions
  // ---------------------------------------------------------------------------

  lemma GoodConcat(a: seq<Item<Omission>>, b: seq<Item<Omission>>, known: set<string>, article: string)
    requires AllGoodOmissions(a, known, article) && AllGoodOmissions(b, known, article)
    ensures AllGoodOmissions(a + b, known, article)
  {
  }

  lemma {:induction false} StampedGood(items: seq<Item<Omission>>, pass: nat, known: set<string>, article: string)
    requires AllGoodOmissions(items, known, article)
    ensures AllGoodOmissions(Stamped(items, pass), known, article)
  {
    if items != [] {
      var n := |items| - 1;
      StampedGood(items[..n], pass, known, article);
      assert GoodOmission(items[n].value, known, article);
      GoodConcat(Stamped(items[..n], pass), [Object(items[n].value.(pass := Int(pass)))], known, article);
    }
  }

  lemma {:induction false} StampedAllGood(reports: seq<Report>, offset: nat, bundle: Bundle)
    requires forall i :: 0 <= i < |reports| ==> GoodOmissions(reports[i].omissions, bundle)
    ensures AllGoodOmissions(StampedAll(reports, offset), KnownRefs(bundle), bundle.article)
  {
    if reports != [] {
      var n := |reports| - 1;
      StampedAllGood(reports[..n], offset, bundle);
      StampedGood(Elements(reports[n].omissions), offset + n + 1, KnownRefs(bundle), bundle.article);
      GoodConcat(StampedAll(reports[..n], offset), Stamped(Elements(reports[n].omissions), offset + n + 1),
                 KnownRefs(bundle), bundle.article);
    }
  }

  // ---------------------------------------------------------------------------
  // Scope reviews
  // ---------------------------------------------------------------------------

  lemma {:induction false} ScopesListed(reports: seq<Report>, offset: nat)
    requires forall i :: 0 <= i < |reports| ==> reports[i].scope.Object?
    ensures |ScopesAll(reports, offset)| == |reports|
    ensures forall i :: 0 <= i < |reports| ==>
              ScopesAll(reports, offset)[i]
              == Object(MergedScope(Int(offset + i + 1), reports[i].scope.value.verdict, reports[i].scope.value.reason))
  {
    if reports != [] {
      ScopesListed(reports[..|reports| - 1], offset);
    }
  }

  lemma LegacyReasonSaysSomething()
    ensures NonBlank(Text(LEGACY_REASON))
  {
    var last := |LEGACY_REASON| - 1;
    assert LEGACY_REASON[last] == '.';
    assert !IsSpace(LEGACY_REASON[last]);
  }

  lemma PriorScopesGood(prior: Option<Merged>)
    requires prior.Some? ==> GoodScopes(prior.value.scopes, Offset(prior)) && Offset(prior) >= 1
    ensures |PriorScopes(prior)| == Offset(prior) && AllGoodScopes(PriorScopes(prior))
  {
    LegacyReasonSaysSomething();
    if prior.Some? && prior.value.scopes.None? {
      var scopes := LegacyScopes(Offset(prior), AggregateOf(prior.value).scopeClean.Yes?);
      assert forall i :: 0 <= i < |scopes| ==> GoodScope(scopes[i], i + 1);
    }
  }

  /** The scope review of pass `i` explains itself. */
  predicate ScopeExplained(r: Report)
  {
    r.scope.Object? && NonBlank(r.scope.value.reason)
  }

  lemma ScopesAgree(reports: seq<Report>, offset: nat, before: seq<Item<MergedScope>>)
    requires |before| == offset && AllGoodScopes(before)
    requires forall i :: 0 <= i < |reports| ==> reports[i].scope.Object? && reports[i].scope.value.verdict.Known?
    ensures |before + ScopesAll(reports, offset)| == offset + |reports|
    ensures AllGoodScopes(before + ScopesAll(reports, offset)) <==> forall i :: 0 <= i < |reports| ==> ScopeExplained(reports[i])
  {
    ScopesListed(reports, offset);
    var all := before + ScopesAll(reports, offset);
    forall i | 0 <= i < |reports| ensures GoodScope(all[offset + i], offset + i + 1) <==> ScopeExplained(reports[i]) {
      assert all[offset + i] == ScopesAll(reports, offset)[i];
    }
    if forall i :: 0 <= i < |reports| ==> ScopeExplained(reports[i]) {
      forall k | 0 <= k < |all| ensures GoodScope(all[k], k + 1) {
        if k < offset {
          assert all[k] == before[k];
        } else {
          assert ScopeExplained(reports[k - offset]);
        }
      }
    }
    if AllGoodScopes(all) {
      forall i | 0 <= i < |reports| ensures ScopeExplained(reports[i]) {
        assert GoodScope(all[offset + i], offset + i + 1);
      }
    }
  }

  // ---------------------------------------------------------------------------
  // The aggregate
  // ---------------------------------------------------------------------------

  lemma {:induction false} ObjectsAppend<T>(a: seq<Item<T>>, b: seq<Item<T>>)
    ensures Objects(a + b) == Objects(a) + Objects(b)
  {
    if b == [] {
      assert a + b == a;
    } else {
      var n := |b| - 1;
      ObjectsAppend(a, b[..n]);
      assert (a + b)[..|a + b| - 1] == a + b[..n];
    }
  }

  lemma {:induction false} ObjectsOf<T>(items: seq<Item<T>>)
    requires forall i :: 0 <= i < |items| ==> items[i].Object?
    ensures |Objects(items)| == |items| && forall i :: 0 <= i < |items| ==> Objects(items)[i] == items[i].value
  {
    if items != [] {
      ObjectsOf(items[..|items| - 1]);
    }
  }

  predicate AllYes(records: seq<PassRecord>)
  {
    forall i :: 0 <= i < |records| ==> records[i].reportValid.Yes?
  }

  lemma {:induction false} NoInvalid(records: seq<PassRecord>)
    ensures InvalidPasses(records) == [] <==> AllYes(records)
    ensures AllYes(records) ==> FailedPasses(records) == []
  {
    if records != [] {
      var n := |records| - 1;
      NoInvalid(records[..n]);
      assert AllYes(records) <==> AllYes(records[..n]) && records[n].reportValid.Yes?;
    }
  }

  lemma {:induction false} ExpectedAgree(reports: seq<Report>, count: nat)
    requires forall i :: 0 <= i < |reports| ==> reports[i].validation.Some? && reports[i].validation.value.claimsExpected == count
    ensures MostExpected(reports) == if reports == [] then 0 else count
  {
    if reports != [] {
      ExpectedAgree(reports[..|reports| - 1], count);
    }
  }

  lemma RecordsGood(reports: seq<Report>, offset: nat)
    requires AllPassValid(reports)
    ensures var records := Objects(Records(reports, offset));
            |records| == |reports| && AllYes(records) && forall i :: 0 <= i < |records| ==> records[i].pass == Int(offset + i + 1)
  {
    ObjectsOf(Records(reports, offset));
  }

  lemma PriorRecordsGood(prior: Option<Merged>, bundle: Bundle)
    requires prior.Some? ==> GoodAggregate(prior.value.validation, bundle, Offset(prior))
    ensures |PriorRecords(prior)| == Offset(prior)
    ensures NumbersInOrder(Objects(PriorRecords(prior)), Offset(prior)) && AllYes(Objects(PriorRecords(prior)))
  {
    NoInvalid(Objects(PriorRecords(prior)));
  }

  lemma RecordsInOrder(before: seq<PassRecord>, added: seq<PassRecord>)
    requires NumbersInOrder(before, |before|)
    requires forall i :: 0 <= i < |added| ==> added[i].pass == Int(|before| + i + 1)
    ensures NumbersInOrder(before + added, |before| + |added|)
  {
    var all := before + added;
    forall i | 0 <= i < |all| ensures Equals(all[i].pass, i + 1) {
      if i >= |before| {
        assert all[i] == added[i - |before|];
      }
    }
  }

  lemma YesAppend(a: seq<PassRecord>, b: seq<PassRecord>)
    requires AllYes(a) && AllYes(b)
    ensures AllYes(a + b)
  {
  }

  lemma AllRecordsGood(before: seq<Item<PassRecord>>, added: seq<Item<PassRecord>>)
    requires NumbersInOrder(Objects(before), |before|) && |Objects(before)| == |before| && AllYes(Objects(before))
    requires |Objects(added)| == |added| && AllYes(Objects(added))
    requires forall i :: 0 <= i < |Objects(added)| ==> Objects(added)[i].pass == Int(|before| + i + 1)
    ensures NumbersInOrder(Objects(before + added), |before| + |added|)
    ensures InvalidPasses(Objects(before + added)) == []
    ensures FailedPasses(Objects(before)) == [] && FailedPasses(Objects(added)) == []
  {
    hide NumbersInOrder, InvalidPasses, FailedPasses, Objects;
    ObjectsAppend(before, added);
    RecordsInOrder(Objects(before), Objects(added));
    NoInvalid(Objects(before));
    NoInvalid(Objects(added));
    YesAppend(Objects(before), Objects(added));
    NoInvalid(Objects(before + added));
  }

  /** Every report carries a validation of this bundle that found nothing. */
  predicate AllPassed(reports: seq<Report>, bundle: Bundle)
  {
    forall i :: 0 <= i < |reports| ==> Passed(reports[i], bundle)
  }

  predicate Passed(r: Report, bundle: Bundle)
  {
    r.validation.Some? && r.validation.value.reportValid
    && r.validation.value.deterministicClean == bundle.deterministicClean
    && r.validation.value.claimsExpected == |Expected(bundle.packets)|
  }

  lemma PassedParts(reports: seq<Report>, bundle: Bundle)
    requires reports != [] && AllPassed(reports, bundle)
    ensures AllPassValid(reports) && (AllDeterministic(reports) <==> bundle.deterministicClean)
    ensures MostExpected(reports) == |Expected(bundle.packets)|
  {
    forall i | 0 <= i < |reports| ensures PassValid(reports[i]) {
      assert Passed(reports[i], bundle);
    }
    assert Passed(reports[0], bundle);
    ExpectedAgree(reports, |Expected(bundle.packets)|);
  }

  lemma AggregateFromParts(records: seq<Item<PassRecord>>, scope: Flag, bundle: Bundle, passes: nat)
    requires |records| == passes >= 1 && NumbersInOrder(Objects(records), passes) && InvalidPasses(Objects(records)) == []
    ensures GoodAggregate(Object(Aggregate(List(records), Some([]), Yes, Int(|Expected(bundle.packets)|),
                                           FlagOf(bundle.deterministicClean), scope)), bundle, passes)
  {
  }

  lemma RecordsAgree(reports: seq<Report>, prior: Option<Merged>, bundle: Bundle)
    requires AllPassValid(reports)
    requires prior.Some? ==> GoodAggregate(prior.value.validation, bundle, Offset(prior))
    ensures var before, added := PriorRecords(prior), Records(reports, Offset(prior));
            && |before + added| == Offset(prior) + |reports|
            && NumbersInOrder(Objects(before + added), Offset(prior) + |reports|)
            && InvalidPasses(Objects(before + added)) == []
            && FailedPasses(Objects(before)) + FailedPasses(Objects(added)) == []
            && AllTruthy(Objects(before))
  {
    PriorRecordsGood(prior, bundle);
    RecordsGood(reports, Offset(prior));
    AllRecordsGood(PriorRecords(prior), Records(reports, Offset(prior)));
  }

  lemma AggregateAgrees(reports: seq<Report>, prior: Option<Merged>, bundle: Bundle)
    requires reports != [] && AllPassed(reports, bundle)
    requires prior.Some? ==> GoodAggregate(prior.value.validation, bundle, Offset(prior))
    ensures GoodAggregate(Object(MergedAggregate(reports, prior)), bundle, Offset(prior) + |reports|)
  {
    hide AllPassed, NumbersInOrder, AllTruthy, AllPassValid, AllDeterministic, AllInScope, PriorRecords, Records, GoodAggregate;
    PassedParts(reports, bundle);
    RecordsAgree(reports, prior, bundle);
    AggregateFromParts(PriorRecords(prior) + Records(reports, Offset(prior)), FlagOf(AllInScope(reports)), bundle,
                       Offset(prior) + |reports|);
  }

  lemma {:induction false} HarshestKnown(words: seq<Word<Overall>>)
    requires words != [] && forall i :: 0 <= i < |words| ==> words[i].Known?
    ensures Harshest(words).Known?
  {
    if |words| > 1 {
      HarshestKnown(words[..|words| - 1]);
    }
  }

  // ---------------------------------------------------------------------------
  // The agreement
  // ---------------------------------------------------------------------------

  lemma AllNonNegative(claims: Claims, total: nat, expected: map<ClaimId, set<string>>)
    requires ClaimsOk(claims, total, expected)
    ensures NonNegative(claims)
  {
    forall id | id in claims ensures claims[id].flaggedIn >= 0 {
      assert ClaimOk(claims, total, expected, id);
    }
  }

  lemma ClaimsAgree(reports: seq<Report>, prior: Option<Merged>, expected: map<ClaimId, set<string>>)
    requires AllReviewed(reports, expected) && "" !in expected
    requires prior.Some? ==> prior.value.passes.Int? && prior.value.passes.n >= 1
                             && GoodMergedClaims(prior.value.claims, expected, prior.value.passes.n)
    ensures ClaimsOk(AllClaims(reports, prior), Offset(prior) + |reports|, expected)
  {
    hide GoodMergedClaims, GoodClaims, ClaimOk, ClaimsOk;
    PriorClaimsOk(prior, expected);
    PassesKeepClaims(PriorClaims(prior), reports, Offset(prior), expected);
  }

  /** What the validity of each pass gives, part by part. */
  lemma ValidParts(reports: seq<Report>, bundle: Bundle)
    requires AllValid(reports, bundle)
    ensures AllReviewed(reports, Expected(bundle.packets)) && AllPassed(reports, bundle)
    ensures forall i :: 0 <= i < |reports| ==>
              GoodOmissions(reports[i].omissions, bundle) && reports[i].overall.Known?
              && reports[i].scope.Object? && reports[i].scope.value.verdict.Known?
    ensures reports != [] ==> bundle.bundleSha == Some(bundle.computedHash)
  {
    forall i | 0 <= i < |reports| ensures WellFormed(reports[i], bundle) && Passed(reports[i], bundle) {
      ReviewExact(reports[i], bundle);
    }
    if reports != [] {
      assert WellFormed(reports[0], bundle);
    }
  }

  /** Everything the merged validator asks for except the scope reviews. */
  predicate WellMergedButScopes(m: Merged, bundle: Bundle, passes: nat)
  {
    && bundle.bundleSha == Some(bundle.computedHash) && m.articleSha == bundle.articleSha && m.bundleSha == bundle.bundleSha
    && m.passes == Int(passes) && passes >= 1
    && GoodMergedClaims(m.claims, Expected(bundle.packets), passes)
    && GoodCounts(Elements(m.claims), passes, m.flaggedClaims, m.unanimousClaims, m.singlePassClaims)
    && GoodOmissions(m.omissions, bundle)
    && GoodAggregate(m.validation, bundle, passes)
    && m.overall.Known?
    && m.provenance.List? && |m.provenance.items| == passes
  }

  lemma ScopesDecide(m: Merged, bundle: Bundle, passes: nat)
    requires WellMergedButScopes(m, bundle, passes)
    ensures WellMerged(m, bundle) <==> GoodScopes(m.scopes, passes)
  {
    hide GoodMergedClaims, GoodCounts, GoodOmissions, GoodAggregate, GoodScopes;
  }

  lemma OmissionsAgree(reports: seq<Report>, prior: Option<Merged>, bundle: Bundle)
    requires forall i :: 0 <= i < |reports| ==> GoodOmissions(reports[i].omissions, bundle)
    requires prior.Some? ==> GoodOmissions(prior.value.omissions, bundle)
    ensures GoodOmissions(List(PriorOmissions(prior) + StampedAll(reports, Offset(prior))), bundle)
  {
    StampedAllGood(reports, Offset(prior), bundle);
    GoodConcat(PriorOmissions(prior), StampedAll(reports, Offset(prior)), KnownRefs(bundle), bundle.article);
  }

  lemma OverallAgrees(reports: seq<Report>, prior: Option<Merged>)
    requires reports != [] && forall i :: 0 <= i < |reports| ==> reports[i].overall.Known?
    requires prior.Some? ==> prior.value.overall.Known?
    ensures Harshest(Overalls(reports) + if prior.Some? then [prior.value.overall] else []).Known?
  {
    HarshestKnown(Overalls(reports) + if prior.Some? then [prior.value.overall] else []);
  }

  /** Of the merge of valid passes, only the scope reviews are in question. */
  lemma MergeWell(reports: seq<Report>, prior: Option<Merged>, bundle: Bundle)
    requires reports != [] && AllValid(reports, bundle) && NamedPackets(bundle)
    requires prior.Some? ==> WellMerged(prior.value, bundle)
    ensures WellMergedButScopes(Merge(reports, prior, bundle), bundle, Offset(prior) + |reports|)
  {
    hide GoodMergedClaims, GoodCounts, GoodAggregate, GoodOmissions, GoodScopes, AllReviewed, AllPassed, AllValid, ClaimsOk,
         NonNegative, SortedClaims, AllClaims, MergedAggregate, PriorScopes, ScopesAll, StampedAll, PriorOmissions,
         Flagged, FlaggedExactly, Expected, Harshest;
    var claims, total := AllClaims(reports, prior), Offset(prior) + |reports|;
    ValidParts(reports, bundle);
    ClaimsAgree(reports, prior, Expected(bundle.packets));
    ListedGood(claims, total, Expected(bundle.packets));
    AllNonNegative(claims, total, Expected(bundle.packets));
    CountsGood(claims, total);
    OmissionsAgree(reports, prior, bundle);
    AggregateAgrees(reports, prior, bundle);
    OverallAgrees(reports, prior);
  }

  /** For any number of passes that are each valid, with or without a valid prior merge of the same bundle:
      the merged validator finds nothing wrong with the merge exactly when every pass gave a reason for its
      scope verdict, which the single-pass validator does not ask for. */
  lemma ProducerAgrees(reports: seq<Report>, prior: Option<Merged>, bundle: Bundle)
    requires reports != [] && AllValid(reports, bundle) && NamedPackets(bundle)
    requires prior.Some? ==> MergedFindings(prior.value, bundle) == []
    ensures MergedFindings(Merge(reports, prior, bundle), bundle) == []
            <==> forall i :: 0 <= i < |reports| ==> ScopeExplained(reports[i])
  {
    hide GoodMergedClaims, GoodCounts, GoodAggregate, GoodOmissions, AllReviewed, AllPassed, AllValid, SortedClaims, AllClaims,
         MergedAggregate, PriorScopes, ScopesAll, StampedAll, Flagged, FlaggedExactly, Expected, Harshest, MergedFindings,
         AllGoodScopes, WellMergedButScopes, ScopeExplained;
    if prior.Some? {
      MergedExact(prior.value, bundle);
    }
    var m := Merge(reports, prior, bundle);
    ValidParts(reports, bundle);
    MergeWell(reports, prior, bundle);
    ScopesDecide(m, bundle, Offset(prior) + |reports|);
    PriorScopesGood(prior);
    ScopesAgree(reports, Offset(prior), PriorScopes(prior));
    MergedExact(m, bundle);
  }
}
