/** The adjudication gate is exact (src/memline/wiki/adjudication.py, review_report.py). */
module AdjudicationGate {
  import opened Strings
  import opened ReviewReport
  import opened MergedReport
  import opened FindingIds
  import opened Adjudication

  // ---------------------------------------------------------------------------
  // Rulings
  // ---------------------------------------------------------------------------

  function RulingId(r: Ruling): Option<string>
  {
    r.findingId
  }

  predicate AllAccepted(items: seq<Item<Ruling>>, expected: set<string>)
  {
    forall i :: 0 <= i < |items| ==> Accepted(items[i], expected)
  }

  predicate NoneBlocks(items: seq<Item<Ruling>>)
  {
    forall i :: 0 <= i < |items| && items[i].Object? ==> items[i].value.decision == Known(NonBlocking)
  }

  ghost predicate SeenAre(seen: set<string>, items: seq<Item<Ruling>>)
  {
    forall id :: id in seen <==> Some(id) in Seen(items, RulingId)
  }

  lemma OneExact(t: Tally, item: Item<Ruling>, index: nat, expected: set<string>)
    ensures var u := OneRuling(t, item, index, expected);
            && (u.faults == [] <==> t.faults == [] && Accepted(item, expected) && item.value.findingId.value !in t.seen)
            && u.seen == t.seen + (if item.Object? && item.value.findingId.Some? then {item.value.findingId.value} else {})
            && u.adjudicated - t.adjudicated == (if Accepted(item, expected) then 1 else 0)
            && u.blocking - t.blocking == (if Accepted(item, expected) && item.value.decision == Known(Blocking) then 1 else 0)
            && u.nonBlocking - t.nonBlocking == (if Accepted(item, expected) && item.value.decision == Known(NonBlocking) then 1 else 0)
  {
  }

  lemma AcceptedStep(items: seq<Item<Ruling>>, n: nat, expected: set<string>)
    requires n == |items| - 1
    ensures AllAccepted(items, expected) <==> AllAccepted(items[..n], expected) && Accepted(items[n], expected)
    ensures NoneBlocks(items)
            <==> NoneBlocks(items[..n]) && (items[n].Object? ==> items[n].value.decision == Known(NonBlocking))
  {
  }

  lemma SeenStep(before: set<string>, items: seq<Item<Ruling>>, n: nat)
    requires n == |items| - 1 && SeenAre(before, items[..n])
    ensures SeenAre(before + (if items[n].Object? && items[n].value.findingId.Some? then {items[n].value.findingId.value} else {}), items)
  {
    SeenGrows(items, n, RulingId);
    assert items[..n + 1] == items;
  }

  /** What the loop has found out when it is through. */
  ghost predicate Exact(t: Tally, fs: seq<Fault>, items: seq<Item<Ruling>>, expected: set<string>)
  {
    && SeenAre(t.seen, items)
    && (t.faults == [] <==> fs == [] && AllAccepted(items, expected) && DistinctIds(items, RulingId))
    && (AllAccepted(items, expected) ==> t.adjudicated == |items| && (t.blocking == 0 <==> NoneBlocks(items)))
    && t.blocking + t.nonBlocking == t.adjudicated
  }

  lemma {:induction false} RulingsExact(fs: seq<Fault>, items: seq<Item<Ruling>>, expected: set<string>)
    ensures Exact(AllRulings(Tally(fs, {}, 0, 0, 0), items, expected), fs, items, expected)
  {
    if items != [] {
      hide DistinctIds, Seen, SeenAre, AllAccepted, NoneBlocks, OneRuling, Accepted;
      var n := |items| - 1;
      var before := AllRulings(Tally(fs, {}, 0, 0, 0), items[..n], expected);
      RulingsExact(fs, items[..n], expected);
      OneExact(before, items[n], n, expected);
      DistinctStep(items, n, RulingId);
      AcceptedStep(items, n, expected);
      SeenStep(before.seen, items, n);
      NewId(before, items, n, expected);
    }
  }

  lemma NewId(before: Tally, items: seq<Item<Ruling>>, n: nat, expected: set<string>)
    requires n == |items| - 1 && SeenAre(before.seen, items[..n])
    ensures Accepted(items[n], expected) ==>
              items[n].Object? && items[n].value.findingId.Some? && items[n].value.decision.Known?
              && (items[n].value.findingId.value in before.seen <==> RulingId(items[n].value) in Seen(items[..n], RulingId))
  {
  }

  predicate HeaderRight(a: Adjudication, report: AnyReport)
  {
    Equals(a.schema, SCHEMA_VERSION) && a.articleSha == ArticleSha(report) && a.bundleSha == BundleSha(report)
    && a.reportSha == HashOf(report)
  }

  /** Exactly one well-formed ruling for each finding, and none for anything else. */
  ghost predicate RulesEach(a: Adjudication, report: AnyReport)
  {
    var expected := Ids(Collect(report));
    && a.rulings.List? && AllAccepted(a.rulings.items, expected) && DistinctIds(a.rulings.items, RulingId)
    && forall id :: id in expected ==> Some(id) in Seen(a.rulings.items, RulingId)
  }

  /** The adjudication decides everything and blocks nothing. */
  ghost predicate Settles(adjudication: Option<Adjudication>, report: AnyReport)
  {
    if adjudication.None? then Collect(report) == []
    else
      HeaderRight(adjudication.value, report) && RulesEach(adjudication.value, report)
      && NoneBlocks(adjudication.value.rulings.items)
  }

  lemma NoIds(findings: seq<Collected>)
    ensures Ids(findings) == {} <==> findings == []
  {
    if findings != [] {
      assert findings[0].id in Ids(findings);
    }
  }

  lemma NoneMissing(t: Tally, items: seq<Item<Ruling>>, expected: set<string>)
    requires SeenAre(t.seen, items)
    ensures expected - t.seen == {} <==> forall id :: id in expected ==> Some(id) in Seen(items, RulingId)
  {
    if expected - t.seen == {} {
      forall id | id in expected ensures Some(id) in Seen(items, RulingId) {
        assert id !in expected - t.seen;
      }
    }
  }

  /** A clean adjudication has decided as many findings as there are rulings, all non-blocking. */
  lemma CleanCounts(a: Adjudication, report: AnyReport)
    requires Judged(Some(a), report).clean
    ensures var o := Judged(Some(a), report);
            o.blocking == 0 && o.nonBlocking == o.adjudicated == |Elements(a.rulings)|
  {
    var expected := Ids(Collect(report));
    var start := AddFault(HeaderFaults(a, report), a.rulings.NotAList?, RulingsMissing);
    RulingsExact(start, Elements(a.rulings), expected);
  }

  /** The validator calls an adjudication clean exactly when it has the right schema version and hashes and
      holds exactly one well-formed ruling for each finding and none for anything else, none of them
      blocking; without an adjudication, exactly when there is nothing to rule on. */
  lemma AdjudicationExact(adjudication: Option<Adjudication>, report: AnyReport)
    ensures Judged(adjudication, report).clean <==> Settles(adjudication, report)
    ensures var o := Judged(adjudication, report);
            adjudication.Some? && o.clean ==>
              o.blocking == 0 && o.nonBlocking == o.adjudicated == |Elements(adjudication.value.rulings)|
  {
    if adjudication.Some? && Judged(adjudication, report).clean {
      CleanCounts(adjudication.value, report);
    }
    var expected := Ids(Collect(report));
    NoIds(Collect(report));
    if adjudication.Some? {
      hide DistinctIds, Seen, SeenAre, AllAccepted, NoneBlocks, Collect, Ids, AllRulings;
      var a := adjudication.value;
      var start := AddFault(HeaderFaults(a, report), a.rulings.NotAList?, RulingsMissing);
      var t := AllRulings(Tally(start, {}, 0, 0, 0), Elements(a.rulings), expected);
      RulingsExact(start, Elements(a.rulings), expected);
      NoneMissing(t, Elements(a.rulings), expected);
    }
  }

  // ---------------------------------------------------------------------------
  // Finding ids are distinct
  // ---------------------------------------------------------------------------

  predicate Distinct(findings: seq<Collected>)
  {
    forall i, j :: 0 <= i < j < |findings| ==> findings[i].id != findings[j].id
  }

  lemma DistinctAppend(a: seq<Collected>, b: seq<Collected>)
    requires Distinct(a) && Distinct(b) && forall x, y :: x in a && y in b ==> x.id != y.id
    ensures Distinct(a + b)
  {
    var all := a + b;
    forall i, j | 0 <= i < j < |all| ensures all[i].id != all[j].id {
      if i < |a| && j >= |a| {
        assert all[i] == a[i] && all[j] == b[j - |a|];
        assert a[i] in a && b[j - |a|] in b;
      }
    }
  }

  predicate Starts(findings: seq<Collected>, c: char)
  {
    forall x :: x in findings ==> x.id != "" && x.id[0] == c
  }

  /** What a collected omission is. */
  lemma {:induction false} OmissionsCollected(items: seq<Item<Omission>>, merged: bool)
    ensures forall x :: x in CollectOmissions(items, merged) ==>
              exists i :: 0 <= i < |items| && items[i].Object? && x == OfOmission(items[i].value, i, merged)
    ensures Starts(CollectOmissions(items, merged), 'o')
    ensures Distinct(CollectOmissions(items, merged))
  {
    if items != [] {
      var n := |items| - 1;
      OmissionsCollected(items[..n], merged);
      if items[n].Object? {
        var before, last := CollectOmissions(items[..n], merged), OfOmission(items[n].value, n, merged);
        forall x | x in before ensures x.id != last.id {
          var i :| 0 <= i < n && items[..n][i].Object? && x == OfOmission(items[..n][i].value, i, merged);
          OmissionIds(items[i].value, i, items[n].value, n, merged);
        }
        DistinctAppend(before, [last]);
        forall x | x in before + [last]
          ensures exists i :: 0 <= i < |items| && items[i].Object? && x == OfOmission(items[i].value, i, merged)
        {
          if x in before {
            var i :| 0 <= i < n && items[..n][i].Object? && x == OfOmission(items[..n][i].value, i, merged);
            assert x == OfOmission(items[i].value, i, merged);
          } else {
            assert x == OfOmission(items[n].value, n, merged);
          }
        }
      }
    }
  }

  lemma OmissionIds(a: Omission, i: nat, b: Omission, j: nat, merged: bool)
    requires i != j
    ensures OfOmission(a, i, merged).id != OfOmission(b, j, merged).id
  {
    if OfOmission(a, i, merged).id == OfOmission(b, j, merged).id {
      if merged {
        LastPart("omission:pass:" + NumberText(a.pass) + ":item", Dec(i + 1),
                 "omission:pass:" + NumberText(b.pass) + ":item", Dec(j + 1));
      } else {
        LastPart("omission:item", Dec(i + 1), "omission:item", Dec(j + 1));
      }
      DecInjective(i + 1, j + 1);
    }
  }

  lemma {:induction false} ClaimsCollected(items: seq<Item<ClaimReview>>)
    requires (forall i :: 0 <= i < |items| ==> items[i].Object? && items[i].value.id.Some?) && DistinctIds(items, ReviewId)
    ensures forall x :: x in CollectClaims(items) ==> exists i :: 0 <= i < |items| && Doubted(items[i]) && x == OfClaim(items[i].value)
    ensures Distinct(CollectClaims(items)) && Starts(CollectClaims(items), 'c')
  {
    if items != [] {
      var n := |items| - 1;
      DistinctStep(items, n, ReviewId);
      ClaimsCollected(items[..n]);
      if Doubted(items[n]) {
        var before, last := CollectClaims(items[..n]), OfClaim(items[n].value);
        forall x | x in before ensures x.id != last.id {
          var i :| 0 <= i < n && Doubted(items[..n][i]) && x == OfClaim(items[..n][i].value);
          assert ReviewId(items[..n][i].value) in Seen(items[..n], ReviewId);
          assert x.id[6..] == IdText(items[i].value.id) && last.id[6..] == IdText(items[n].value.id);
        }
        DistinctAppend(before, [last]);
        forall x | x in before + [last] ensures exists i :: 0 <= i < |items| && Doubted(items[i]) && x == OfClaim(items[i].value) {
          if x in before {
            var i :| 0 <= i < n && Doubted(items[..n][i]) && x == OfClaim(items[..n][i].value);
            assert Doubted(items[i]) && x == OfClaim(items[i].value);
          } else {
            assert x == OfClaim(items[n].value);
          }
        }
      }
    }
  }

  lemma ClaimIds(a: ClaimId, p: Number, b: ClaimId, q: Number)
    requires ClaimFindingId(Some(a), p) == ClaimFindingId(Some(b), q)
    ensures a == b && NumberText(p) == NumberText(q)
  {
    var s, t := "claim:" + a + ":pass", "claim:" + b + ":pass";
    NumbersHaveNoColon(p);
    NumbersHaveNoColon(q);
    LastPart(s, NumberText(p), t, NumberText(q));
    assert s[6..|s| - 5] == a && t[6..|t| - 5] == b;
  }

  predicate IntPasses(items: seq<Item<MergedFinding>>)
  {
    forall i :: 0 <= i < |items| ==> items[i].Object? && items[i].value.pass.Int? && items[i].value.pass.n >= 1
  }

  /** `x` is this finding of the claim `id`. */
  predicate IsFinding(x: Collected, id: Option<ClaimId>, item: Item<MergedFinding>)
  {
    item.Object? && x == OfFinding(id, item.value)
  }

  predicate AmongFindings(x: Collected, id: Option<ClaimId>, items: seq<Item<MergedFinding>>)
  {
    exists j :: 0 <= j < |items| && IsFinding(x, id, items[j])
  }

  lemma AmongStep(x: Collected, id: Option<ClaimId>, items: seq<Item<MergedFinding>>, n: nat)
    requires n == |items| - 1
    ensures AmongFindings(x, id, items) <==> AmongFindings(x, id, items[..n]) || IsFinding(x, id, items[n])
  {
    hide IsFinding;
    if j :| 0 <= j < n && IsFinding(x, id, items[..n][j]) {
      assert IsFinding(x, id, items[j]);
    }
    if j :| 0 <= j < |items| && IsFinding(x, id, items[j]) && j < n {
      assert IsFinding(x, id, items[..n][j]);
    }
  }

  /** The list of a claim holds its findings and nothing else. */
  lemma {:induction false} FindingListed(id: Option<ClaimId>, items: seq<Item<MergedFinding>>, x: Collected)
    ensures x in CollectFindings(id, items) <==> AmongFindings(x, id, items)
  {
    if items != [] {
      var n := |items| - 1;
      FindingListed(id, items[..n], x);
      LastFinding(id, items[n], x);
      AmongStep(x, id, items, n);
      hide IsFinding, AmongFindings, OfFinding;
    }
  }

  lemma LastFinding(id: Option<ClaimId>, item: Item<MergedFinding>, x: Collected)
    ensures IsFinding(x, id, item) <==> x in if item.Object? then [OfFinding(id, item.value)] else []
  {
  }

  /** The findings of one merged claim, each once. */
  lemma {:induction false} FindingsCollected(id: ClaimId, items: seq<Item<MergedFinding>>)
    requires IntPasses(items) && DistinctIds(items, PassKey)
    ensures Distinct(CollectFindings(Some(id), items)) && Starts(CollectFindings(Some(id), items), 'c')
  {
    if items != [] {
      var n := |items| - 1;
      DistinctStep(items, n, PassKey);
      FindingsCollected(id, items[..n]);
      var before, last := CollectFindings(Some(id), items[..n]), OfFinding(Some(id), items[n].value);
      forall x | x in before ensures x.id != last.id {
        FindingListed(Some(id), items[..n], x);
        var i :| 0 <= i < n && IsFinding(x, Some(id), items[..n][i]);
        DifferentPasses(id, items, i, n);
      }
      DistinctAppend(before, [last]);
    }
  }

  lemma DifferentPasses(id: ClaimId, items: seq<Item<MergedFinding>>, i: nat, n: nat)
    requires i < n < |items| && IntPasses(items) && DistinctIds(items, PassKey)
    ensures OfFinding(Some(id), items[i].value).id != OfFinding(Some(id), items[n].value).id
  {
    assert PassKey(items[i].value) != PassKey(items[n].value);
    PassTexts(items[i].value.pass, items[n].value.pass);
    if OfFinding(Some(id), items[i].value).id == OfFinding(Some(id), items[n].value).id {
      ClaimIds(id, items[i].value.pass, id, items[n].value.pass);
    }
  }

  predicate TidyClaim(item: Item<MergedClaim>)
  {
    item.Object? && item.value.id.Some? && IntPasses(Elements(item.value.findings)) && DistinctIds(Elements(item.value.findings), PassKey)
  }

  /** `x` is one of the findings of the merged claim `item`. */
  predicate FromClaim(x: Collected, item: Item<MergedClaim>)
  {
    item.Object? && AmongFindings(x, item.value.id, Elements(item.value.findings))
  }

  predicate FromClaims(x: Collected, items: seq<Item<MergedClaim>>)
  {
    exists i :: 0 <= i < |items| && FromClaim(x, items[i])
  }

  lemma ItemListed(item: Item<MergedClaim>, x: Collected)
    ensures FromClaim(x, item) <==> item.Object? && x in CollectFindings(item.value.id, Elements(item.value.findings))
  {
    if item.Object? {
      FindingListed(item.value.id, Elements(item.value.findings), x);
    }
  }

  lemma FromStep(x: Collected, items: seq<Item<MergedClaim>>, n: nat)
    requires n == |items| - 1
    ensures FromClaims(x, items) <==> FromClaims(x, items[..n]) || FromClaim(x, items[n])
  {
    hide FromClaim;
    if i :| 0 <= i < n && FromClaim(x, items[..n][i]) {
      assert FromClaim(x, items[i]);
    }
    if i :| 0 <= i < |items| && FromClaim(x, items[i]) && i < n {
      assert FromClaim(x, items[..n][i]);
    }
  }

  /** The list of a merged report's claims holds their findings and nothing else. */
  lemma {:induction false} ClaimListed(items: seq<Item<MergedClaim>>, x: Collected)
    ensures x in CollectMergedClaims(items) <==> FromClaims(x, items)
  {
    if items != [] {
      var n := |items| - 1;
      ClaimListed(items[..n], x);
      ItemListed(items[n], x);
      FromStep(x, items, n);
      hide FromClaim, FromClaims, CollectFindings, Elements;
    }
  }

  /** The findings of all merged claims, each once. */
  lemma {:induction false} MergedCollected(items: seq<Item<MergedClaim>>)
    requires (forall i :: 0 <= i < |items| ==> TidyClaim(items[i])) && DistinctIds(items, MergedId)
    ensures Distinct(CollectMergedClaims(items)) && Starts(CollectMergedClaims(items), 'c')
  {
    if items != [] {
      var n := |items| - 1;
      DistinctStep(items, n, MergedId);
      MergedCollected(items[..n]);
      assert TidyClaim(items[n]);
      var c := items[n].value;
      var before, added := CollectMergedClaims(items[..n]), CollectFindings(c.id, Elements(c.findings));
      FindingsCollected(c.id.value, Elements(c.findings));
      forall x, y | x in before && y in added ensures x.id != y.id {
        ClaimListed(items[..n], x);
        ItemListed(items[n], y);
        var i :| 0 <= i < n && FromClaim(x, items[..n][i]);
        assert TidyClaim(items[i]);
        DifferentClaims(items, i, n, x, y);
      }
      DistinctAppend(before, added);
    }
  }

  lemma DifferentClaims(items: seq<Item<MergedClaim>>, i: nat, n: nat, x: Collected, y: Collected)
    requires i < n < |items| && DistinctIds(items, MergedId) && TidyClaim(items[i]) && TidyClaim(items[n])
    requires FromClaim(x, items[i]) && FromClaim(y, items[n])
    ensures x.id != y.id
  {
    assert MergedId(items[i].value) != MergedId(items[n].value);
    if x.id == y.id {
      ClaimIds(items[i].value.id.value, x.content.pass, items[n].value.id.value, y.content.pass);
    }
  }

  lemma {:induction false} ScopesCollected(items: seq<Item<MergedScope>>)
    requires forall i :: 0 <= i < |items| ==> items[i].Object? && Equals(items[i].value.pass, i + 1)
    ensures forall x :: x in CollectScopes(items) ==> exists i :: 0 <= i < |items| && Drifts(items[i]) && x == OfScope(items[i].value)
    ensures Distinct(CollectScopes(items)) && Starts(CollectScopes(items), 's')
  {
    if items != [] {
      var n := |items| - 1;
      ScopesCollected(items[..n]);
      if Drifts(items[n]) {
        var before, last := CollectScopes(items[..n]), OfScope(items[n].value);
        forall x | x in before ensures x.id != last.id {
          var i :| 0 <= i < n && Drifts(items[..n][i]) && x == OfScope(items[..n][i].value);
          var p, q := items[i].value.pass, items[n].value.pass;
          PassTexts(p, q);
          if x.id == last.id {
            NumbersHaveNoColon(p);
            NumbersHaveNoColon(q);
            LastPart("scope:pass", NumberText(p), "scope:pass", NumberText(q));
          }
        }
        DistinctAppend(before, [last]);
        forall x | x in before + [last] ensures exists i :: 0 <= i < |items| && Drifts(items[i]) && x == OfScope(items[i].value) {
          if x in before {
            var i :| 0 <= i < n && Drifts(items[..n][i]) && x == OfScope(items[..n][i].value);
            assert Drifts(items[i]) && x == OfScope(items[i].value);
          } else {
            assert x == OfScope(items[n].value);
          }
        }
      }
    }
  }

  lemma ThreeParts(a: seq<Collected>, b: seq<Collected>, c: seq<Collected>)
    requires Distinct(a) && Starts(a, 'c') && Distinct(b) && Starts(b, 'o') && Distinct(c) && Starts(c, 's')
    ensures Distinct(a + b + c)
  {
    DistinctAppend(a, b);
    DistinctAppend(a + b, c);
  }

  lemma SingleDistinct(r: Report, bundle: Bundle)
    requires WellFormed(r, bundle)
    ensures Distinct(Collect(Single(r)))
  {
    forall i | 0 <= i < |r.claims.items| ensures r.claims.items[i].Object? && r.claims.items[i].value.id.Some? {
      assert GoodClaim(r.claims.items[i].value, Expected(bundle.packets));
    }
    ClaimsCollected(r.claims.items);
    OmissionsCollected(Elements(r.omissions), false);
    ThreeParts(CollectClaims(r.claims.items), CollectOmissions(Elements(r.omissions), false), SingleScope(r.scope));
  }

  lemma MergedDistinct(m: Merged, bundle: Bundle)
    requires WellMerged(m, bundle)
    ensures Distinct(Collect(Multi(m)))
  {
    var expected, passes := Expected(bundle.packets), m.passes.n;
    forall i | 0 <= i < |m.claims.items| ensures TidyClaim(m.claims.items[i]) {
      assert GoodMergedClaim(m.claims.items[i].value, expected, passes);
      AllInts(m.claims.items[i].value.findings.items, passes, expected[m.claims.items[i].value.id.value]);
    }
    MergedCollected(m.claims.items);
    OmissionsCollected(Elements(m.omissions), true);
    if m.scopes.Some? {
      forall i | 0 <= i < |m.scopes.value.items|
        ensures m.scopes.value.items[i].Object? && Equals(m.scopes.value.items[i].value.pass, i + 1)
      {
        assert GoodScope(m.scopes.value.items[i], i + 1);
      }
      ScopesCollected(m.scopes.value.items);
    }
    ThreeParts(CollectMergedClaims(m.claims.items), CollectOmissions(Elements(m.omissions), true), MergedScopes(m));
  }

  lemma AllInts(items: seq<Item<MergedFinding>>, passes: nat, allowed: set<string>)
    requires AllGoodFindings(items, passes, allowed)
    ensures IntPasses(items)
  {
    forall i | 0 <= i < |items| ensures items[i].Object? && items[i].value.pass.Int? && items[i].value.pass.n >= 1 {
      assert GoodFinding(items[i].value, passes, allowed);
    }
  }

  /** In a valid report no two findings share an id, so a ruling names one finding. */
  lemma FindingIdsDistinct(report: AnyReport, bundle: Bundle)
    requires ReportFindings(report, bundle) == []
    ensures Distinct(Collect(report))
  {
    match report {
      case Single(r) =>
        ReviewExact(r, bundle);
        SingleDistinct(r, bundle);
      case Multi(m) =>
        MergedExact(m, bundle);
        MergedDistinct(m, bundle);
    }
  }

  // ---------------------------------------------------------------------------
  // The template
  // ---------------------------------------------------------------------------

  /** The template with every row ruled non-material for a reason. */
  function Ruled(a: Adjudication, reason: string): Adjudication
    requires a.rulings.List?
  {
    a.(rulings := List(seq(|a.rulings.items|, i requires 0 <= i < |a.rulings.items| =>
      if a.rulings.items[i].Object?
      then Object(a.rulings.items[i].value.(decision := Known(NonBlocking), category := Known(NonMaterial), reason := Text(reason)))
      else a.rulings.items[i])))
  }

  lemma TemplateCovers(report: AnyReport, items: seq<Item<Ruling>>)
    requires Distinct(Collect(report)) && |items| == |Collect(report)|
    requires forall i :: 0 <= i < |items| ==> items[i].Object? && items[i].value.findingId == Some(Collect(report)[i].id)
    ensures DistinctIds(items, RulingId)
    ensures forall id :: id in Ids(Collect(report)) ==> Some(id) in Seen(items, RulingId)
  {
    var findings := Collect(report);
    forall id | id in Ids(findings) ensures Some(id) in Seen(items, RulingId) {
      var i :| 0 <= i < |findings| && findings[i].id == id;
      assert RulingId(items[i].value) == Some(id);
    }
  }

  lemma TemplatePending(report: AnyReport)
    requires Collect(report) != []
    ensures !Judged(Some(Template(report)), report).clean
  {
    AdjudicationExact(Some(Template(report)), report);
    hide Collect, DistinctIds, Seen, Ids;
    var row := Template(report).rulings.items[0];
    assert row.value.decision == Unknown(Absent);
    assert !Accepted(row, Ids(Collect(report)));
  }

  lemma RuledAccepted(report: AnyReport, reason: string)
    requires !Blank(reason)
    ensures AllAccepted(Ruled(Template(report), reason).rulings.items, Ids(Collect(report)))
    ensures NoneBlocks(Ruled(Template(report), reason).rulings.items)
  {
    var findings, items := Collect(report), Ruled(Template(report), reason).rulings.items;
    hide Collect;
    forall i | 0 <= i < |items| ensures Accepted(items[i], Ids(findings)) {
      assert findings[i].id in Ids(findings);
    }
  }

  lemma RuledClean(report: AnyReport, reason: string)
    requires Distinct(Collect(report)) && !Blank(reason)
    ensures Judged(Some(Ruled(Template(report), reason)), report).clean
  {
    var ruled := Ruled(Template(report), reason);
    RuledAccepted(report, reason);
    AdjudicationExact(Some(ruled), report);
    TemplateCovers(report, ruled.rulings.items);
    hide Collect, Distinct, DistinctIds, Seen, Ids, AllAccepted, NoneBlocks, Judged;
  }

  /** The template of a valid report is not clean as long as there is something to rule on, and ruling every
      row non-material, with a reason, makes it clean: nothing is missing from the template. */
  lemma TemplateCompletes(report: AnyReport, bundle: Bundle, reason: string)
    requires ReportFindings(report, bundle) == [] && !Blank(reason)
    ensures Collect(report) != [] ==> !Judged(Some(Template(report)), report).clean
    ensures Judged(Some(Ruled(Template(report), reason)), report).clean
  {
    hide Collect, Judged, Distinct, ReportFindings;
    FindingIdsDistinct(report, bundle);
    RuledClean(report, reason);
    if Collect(report) != [] {
      TemplatePending(report);
    }
  }

  // ---------------------------------------------------------------------------
  // The gate
  // ---------------------------------------------------------------------------

  /** An artifact passes the gate exactly when the report meets its contract, the deterministic check of the
      bundle was clean, and the adjudication settles every finding. */
  lemma GateExact(report: AnyReport, bundle: Bundle, adjudication: Option<Adjudication>)
    ensures ArtifactClean(report, bundle, adjudication)
            <==> (if report.Single? then WellFormed(report.single, bundle) else WellMerged(report.multi, bundle))
                 && bundle.deterministicClean && Settles(adjudication, report)
  {
    AdjudicationExact(adjudication, report);
    match report {
      case Single(r) => ReviewExact(r, bundle);
      case Multi(m) => MergedExact(m, bundle);
    }
  }
}
