/** No finding of any pass is lost or invented between the passes, the merged report and the agent's list
    (src/memline/wiki/review_report.py, src/memline/wiki/adjudication.py). */
module ReviewConservation {
  import opened Sequences
  import opened Strings
  import opened Sorting
  import opened ReviewReport
  import opened MergedReport
  import opened ReviewMerge
  import opened ReviewAgreement
  import opened Adjudication
  import opened AdjudicationGate

  // ---------------------------------------------------------------------------
  // Claim findings
  // ---------------------------------------------------------------------------

  /** Pass `i` of the reports raised the finding `f` about the claim `id`. */
  predicate RaisedIn(items: seq<Item<ClaimReview>>, pass: nat, id: ClaimId, f: MergedFinding)
  {
    exists k :: 0 <= k < |items| && Doubted(items[k]) && items[k].value.id == Some(id) && f == FindingOf(items[k].value, pass)
  }

  predicate Raised(reports: seq<Report>, offset: nat, id: ClaimId, f: MergedFinding)
  {
    exists i :: 0 <= i < |reports| && RaisedIn(Elements(reports[i].claims), offset + i + 1, id, f)
  }

  /** What a pass raises is what its reviewer wrote, in every field. */
  lemma RaisedExactly(items: seq<Item<ClaimReview>>, pass: nat, id: ClaimId, f: MergedFinding)
    ensures RaisedIn(items, pass, id, f) <==>
              exists k :: 0 <= k < |items| && items[k].Object? && items[k].value.id == Some(id)
                          && items[k].value.verdict != Known(Supported)
                          && f.pass == Int(pass) && f.verdict == items[k].value.verdict && f.confidence == items[k].value.confidence
                          && f.reason == items[k].value.reason && f.rewrite == items[k].value.rewrite
                          && f.evidence == items[k].value.evidence
  {
  }

  lemma PassRaises(claims: Claims, items: seq<Item<ClaimReview>>, pass: nat, expected: map<ClaimId, set<string>>, id: ClaimId, f: MergedFinding)
    requires GoodClaims(items, expected) && id in expected && id != ""
    ensures Object(f) in EntryOf(FoldPass(claims, items, pass), id).findings
            <==> Object(f) in EntryOf(claims, id).findings || RaisedIn(items, pass, id, f)
  {
    assert Some(id) in Seen(items, ReviewId);
    var k :| 0 <= k < |items| && items[k].Object? && ReviewId(items[k].value) == Some(id);
    FoldHits(claims, items, pass, k);
    if RaisedIn(items, pass, id, f) {
      var j :| 0 <= j < |items| && Doubted(items[j]) && items[j].value.id == Some(id) && f == FindingOf(items[j].value, pass);
      assert j == k by {
        assert ReviewId(items[j].value) == ReviewId(items[k].value);
      }
    }
  }

  lemma RaisedStep(reports: seq<Report>, n: nat, offset: nat, id: ClaimId, f: MergedFinding)
    requires n == |reports| - 1
    ensures Raised(reports, offset, id, f)
            <==> Raised(reports[..n], offset, id, f) || RaisedIn(Elements(reports[n].claims), offset + n + 1, id, f)
  {
    if Raised(reports[..n], offset, id, f) {
      var i :| 0 <= i < n && RaisedIn(Elements(reports[..n][i].claims), offset + i + 1, id, f);
      assert RaisedIn(Elements(reports[i].claims), offset + i + 1, id, f);
    }
    if i :| 0 <= i < |reports| && RaisedIn(Elements(reports[i].claims), offset + i + 1, id, f) && i < n {
      assert RaisedIn(Elements(reports[..n][i].claims), offset + i + 1, id, f);
    }
  }

  lemma {:induction false} PassesRaise(claims: Claims, reports: seq<Report>, offset: nat, expected: map<ClaimId, set<string>>,
                                       id: ClaimId, f: MergedFinding)
    requires AllReviewed(reports, expected) && id in expected && id != ""
    ensures Object(f) in EntryOf(FoldPasses(claims, reports, offset), id).findings
            <==> Object(f) in EntryOf(claims, id).findings || Raised(reports, offset, id, f)
  {
    hide GoodClaims, FoldPass, RaisedIn;
    if reports != [] {
      var n := |reports| - 1;
      assert AllReviewed(reports[..n], expected);
      PassesRaise(claims, reports[..n], offset, expected, id, f);
      PassRaises(FoldPasses(claims, reports[..n], offset), Elements(reports[n].claims), offset + n + 1, expected, id, f);
      RaisedStep(reports, n, offset, id, f);
    }
  }

  lemma FindingInList(claims: Claims, total: nat, id: ClaimId, f: MergedFinding)
    requires id in claims && Object(f) in claims[id].findings
    ensures OfFinding(Some(id), f) in CollectMergedClaims(SortedClaims(claims, total))
  {
    var keys, items := Sorted(claims.Keys), SortedClaims(claims, total);
    ClaimListed(items, OfFinding(Some(id), f));
    assert id in keys;
    var i :| 0 <= i < |keys| && keys[i] == id;
    var j :| 0 <= j < |claims[id].findings| && claims[id].findings[j] == Object(f);
    assert Elements(items[i].value.findings)[j] == Object(f);
    assert IsFinding(OfFinding(Some(id), f), items[i].value.id, Elements(items[i].value.findings)[j]);
    assert FromClaim(OfFinding(Some(id), f), items[i]);
  }

  lemma FromListed(claims: Claims, total: nat, x: Collected) returns (id: ClaimId, f: MergedFinding)
    requires x in CollectMergedClaims(SortedClaims(claims, total))
    ensures id in claims && Object(f) in claims[id].findings && x == OfFinding(Some(id), f)
  {
    var keys, items := Sorted(claims.Keys), SortedClaims(claims, total);
    ClaimListed(items, x);
    var i :| 0 <= i < |items| && FromClaim(x, items[i]);
    var j :| 0 <= j < |Elements(items[i].value.findings)| && IsFinding(x, items[i].value.id, Elements(items[i].value.findings)[j]);
    assert keys[i] in keys;
    id, f := keys[i], claims[keys[i]].findings[j].value;
  }

  lemma SameFinding(id: ClaimId, f: MergedFinding, other: ClaimId, g: MergedFinding)
    requires OfFinding(Some(id), f) == OfFinding(Some(other), g)
    ensures id == other && f == g
  {
  }

  /** A finding is listed exactly when its claim holds it. */
  lemma ListedExactly(claims: Claims, total: nat, id: ClaimId, f: MergedFinding)
    ensures OfFinding(Some(id), f) in CollectMergedClaims(SortedClaims(claims, total))
            <==> id in claims && Object(f) in claims[id].findings
  {
    hide CollectMergedClaims, SortedClaims, OfFinding;
    if id in claims && Object(f) in claims[id].findings {
      FindingInList(claims, total, id, f);
    }
    if OfFinding(Some(id), f) in CollectMergedClaims(SortedClaims(claims, total)) {
      var other, g := FromListed(claims, total, OfFinding(Some(id), f));
      SameFinding(id, f, other, g);
    }
  }

  lemma ClaimPresent(claims: Claims, total: nat, expected: map<ClaimId, set<string>>, id: ClaimId)
    requires ClaimsOk(claims, total, expected) && id in expected && total > 0
    ensures id in claims
  {
    assert ClaimOk(claims, total, expected, id);
  }

  lemma EntryPresent(claims: Claims, id: ClaimId)
    requires id in claims
    ensures EntryOf(claims, id) == claims[id]
  {
  }

  lemma MergedListed(reports: seq<Report>, prior: Option<Merged>, bundle: Bundle, id: ClaimId, f: MergedFinding)
    requires reports != [] && id in AllClaims(reports, prior)
    ensures OfFinding(Some(id), f) in CollectMergedClaims(Elements(Merge(reports, prior, bundle).claims))
            <==> Object(f) in EntryOf(AllClaims(reports, prior), id).findings
  {
    hide CollectMergedClaims, SortedClaims, AllClaims, MergedAggregate, Flagged, FlaggedExactly, Harshest, PriorScopes,
         ScopesAll, StampedAll, PriorOmissions, PriorProvenance, OfFinding, EntryOf, Expected;
    EntryPresent(AllClaims(reports, prior), id);
    ListedExactly(AllClaims(reports, prior), Offset(prior) + |reports|, id, f);
  }

  /** The agent's list of the merged report holds the claim finding of a pass exactly when that pass raised
      it, or the prior report already held it. Ids are distinct (see FindingIdsDistinct), so each is there
      once. */
  lemma ClaimFindingsKept(reports: seq<Report>, prior: Option<Merged>, bundle: Bundle, id: ClaimId, f: MergedFinding)
    requires reports != [] && AllValid(reports, bundle) && NamedPackets(bundle) && id in Expected(bundle.packets)
    requires prior.Some? ==> WellMerged(prior.value, bundle)
    ensures OfFinding(Some(id), f) in CollectMergedClaims(Elements(Merge(reports, prior, bundle).claims))
            <==> Object(f) in EntryOf(PriorClaims(prior), id).findings || Raised(reports, Offset(prior), id, f)
  {
    hide AllReviewed, ClaimsOk, Raised, CollectMergedClaims, SortedClaims, Expected, AllValid, PriorClaims, EntryOf,
         GoodMergedClaims, GoodCounts, GoodOmissions, GoodAggregate, GoodScopes, OfFinding, Merge;
    var expected := Expected(bundle.packets);
    ValidParts(reports, bundle);
    ClaimsAgree(reports, prior, expected);
    ClaimPresent(AllClaims(reports, prior), Offset(prior) + |reports|, expected, id);
    PassesRaise(PriorClaims(prior), reports, Offset(prior), expected, id, f);
    MergedListed(reports, prior, bundle, id, f);
  }

  lemma ItemHas(item: Item<MergedClaim>, id: ClaimId, f: MergedFinding)
    ensures FromClaim(OfFinding(Some(id), f), item)
            <==> item.Object? && item.value.id == Some(id) && Object(f) in Elements(item.value.findings)
  {
    var x := OfFinding(Some(id), f);
    if item.Object? {
      var fs := Elements(item.value.findings);
      if item.value.id == Some(id) && Object(f) in fs {
        var j :| 0 <= j < |fs| && fs[j] == Object(f);
        assert IsFinding(x, item.value.id, fs[j]);
      }
      if FromClaim(x, item) {
        var j :| 0 <= j < |fs| && IsFinding(x, item.value.id, fs[j]);
        assert fs[j] == Object(f);
      }
    }
  }

  lemma OnlyItem(items: seq<Item<MergedClaim>>, k: nat, id: ClaimId, f: MergedFinding)
    requires DistinctIds(items, MergedId) && k < |items| && items[k].Object? && items[k].value.id == Some(id)
    ensures OfFinding(Some(id), f) in CollectMergedClaims(items) <==> Object(f) in Elements(items[k].value.findings)
  {
    hide FromClaim, OfFinding, CollectMergedClaims, Elements;
    var x := OfFinding(Some(id), f);
    ClaimListed(items, x);
    ItemHas(items[k], id, f);
    if i :| 0 <= i < |items| && FromClaim(x, items[i]) {
      ItemHas(items[i], id, f);
      assert MergedId(items[i].value) == MergedId(items[k].value);
    }
  }

  /** What the prior report held is what its own list shows. */
  lemma PriorFindingShown(prior: Merged, bundle: Bundle, id: ClaimId, f: MergedFinding)
    requires WellMerged(prior, bundle) && id in Expected(bundle.packets)
    ensures Object(f) in EntryOf(PriorClaims(Some(prior)), id).findings
            <==> OfFinding(Some(id), f) in CollectMergedClaims(Elements(prior.claims))
  {
    hide AllGoodMergedClaims, GoodCounts, GoodOmissions, GoodAggregate, GoodScopes, CollectMergedClaims, OfFinding;
    var items := prior.claims.items;
    assert Some(id) in Seen(items, MergedId);
    var k :| 0 <= k < |items| && items[k].Object? && MergedId(items[k].value) == Some(id);
    ReadAt(items, k);
    OnlyItem(items, k, id, f);
  }

  // ---------------------------------------------------------------------------
  // Omissions
  // ---------------------------------------------------------------------------

  function Contents(findings: seq<Collected>): (r: seq<Content>)
    ensures |r| == |findings| && forall i :: 0 <= i < |r| ==> r[i] == findings[i].content
  {
    seq(|findings|, i requires 0 <= i < |findings| => findings[i].content)
  }

  function OmissionContents(omissions: seq<Omission>): (r: seq<Content>)
    ensures |r| == |omissions| && forall i :: 0 <= i < |r| ==> r[i] == OmissionContent(omissions[i])
  {
    seq(|omissions|, i requires 0 <= i < |omissions| => OmissionContent(omissions[i]))
  }

  function InPass(omissions: seq<Omission>, pass: nat): (r: seq<Omission>)
    ensures |r| == |omissions| && forall i :: 0 <= i < |r| ==> r[i] == omissions[i].(pass := Int(pass))
  {
    seq(|omissions|, i requires 0 <= i < |omissions| => omissions[i].(pass := Int(pass)))
  }

  /** The omissions of every pass, in order, each with the number of its pass. */
  function PassOmissions(reports: seq<Report>, offset: nat): seq<Omission>
  {
    if reports == [] then []
    else
      var n := |reports| - 1;
      PassOmissions(reports[..n], offset) + InPass(Objects(Elements(reports[n].omissions)), offset + n + 1)
  }

  lemma {:induction false} CollectedOmissions(items: seq<Item<Omission>>, merged: bool)
    ensures Contents(CollectOmissions(items, merged)) == OmissionContents(Objects(items))
  {
    if items != [] {
      CollectedOmissions(items[..|items| - 1], merged);
    }
  }

  lemma {:induction false} StampedObjects(items: seq<Item<Omission>>, pass: nat)
    ensures Objects(Stamped(items, pass)) == InPass(Objects(items), pass)
  {
    if items != [] {
      var n := |items| - 1;
      StampedObjects(items[..n], pass);
      if items[n].Object? {
        var last := [Object(items[n].value.(pass := Int(pass)))];
        ObjectsAppend(Stamped(items[..n], pass), last);
        ObjectsOf(last);
        assert Objects(last) == [items[n].value.(pass := Int(pass))];
      } else {
        assert Stamped(items, pass) == Stamped(items[..n], pass);
      }
    }
  }

  lemma {:induction false} AllStampedObjects(reports: seq<Report>, offset: nat)
    ensures Objects(StampedAll(reports, offset)) == PassOmissions(reports, offset)
  {
    if reports != [] {
      var n := |reports| - 1;
      var items, pass := Elements(reports[n].omissions), offset + n + 1;
      assert StampedAll(reports, offset) == StampedAll(reports[..n], offset) + Stamped(items, pass);
      assert PassOmissions(reports, offset) == PassOmissions(reports[..n], offset) + InPass(Objects(items), pass);
      hide Stamped, InPass, Elements, Objects, StampedAll, PassOmissions;
      AllStampedObjects(reports[..n], offset);
      StampedObjects(items, pass);
      ObjectsAppend(StampedAll(reports[..n], offset), Stamped(items, pass));
    }
  }

  /** The omissions the agent is asked about are the prior ones followed by those of every pass, none
      dropped, none repeated, none reordered. */
  lemma OmissionsKept(reports: seq<Report>, prior: Option<Merged>, bundle: Bundle)
    requires reports != []
    ensures Contents(CollectOmissions(Elements(Merge(reports, prior, bundle).omissions), true))
         == OmissionContents(Objects(PriorOmissions(prior)) + PassOmissions(reports, Offset(prior)))
  {
    var all := PriorOmissions(prior) + StampedAll(reports, Offset(prior));
    CollectedOmissions(all, true);
    ObjectsAppend(PriorOmissions(prior), StampedAll(reports, Offset(prior)));
    AllStampedObjects(reports, Offset(prior));
  }

  // ---------------------------------------------------------------------------
  // Scope
  // ---------------------------------------------------------------------------

  /** The scope findings of every pass that was not in scope, in order. */
  function PassScopes(reports: seq<Report>, offset: nat): seq<Collected>
  {
    if reports == [] then []
    else
      var n := |reports| - 1;
      var s := reports[n].scope;
      PassScopes(reports[..n], offset)
      + if s.Object? && s.value.verdict != Known(InScope)
        then [OfScope(MergedScope(Int(offset + n + 1), s.value.verdict, s.value.reason))] else []
  }

  lemma {:induction false} ScopesAppendCollected(a: seq<Item<MergedScope>>, b: seq<Item<MergedScope>>)
    ensures CollectScopes(a + b) == CollectScopes(a) + CollectScopes(b)
  {
    if b == [] {
      assert a + b == a;
    } else {
      var n := |b| - 1;
      ScopesAppendCollected(a, b[..n]);
      assert (a + b)[..|a + b| - 1] == a + b[..n];
    }
  }

  lemma {:induction false} PassScopesCollected(reports: seq<Report>, offset: nat)
    ensures CollectScopes(ScopesAll(reports, offset)) == PassScopes(reports, offset)
  {
    if reports != [] {
      var n := |reports| - 1;
      PassScopesCollected(reports[..n], offset);
      var all := ScopesAll(reports, offset);
      if reports[n].scope.Object? {
        assert all[..|all| - 1] == ScopesAll(reports[..n], offset);
      } else {
        assert all == ScopesAll(reports[..n], offset);
      }
    }
  }

  /** Every pass that found the article out of scope is asked about once, after the prior report's. */
  lemma ScopeFindingsKept(reports: seq<Report>, prior: Option<Merged>, bundle: Bundle)
    requires reports != []
    ensures MergedScopes(Merge(reports, prior, bundle)) == CollectScopes(PriorScopes(prior)) + PassScopes(reports, Offset(prior))
  {
    ScopesAppendCollected(PriorScopes(prior), ScopesAll(reports, Offset(prior)));
    PassScopesCollected(reports, Offset(prior));
  }

  // ---------------------------------------------------------------------------
  // Each finding exactly once
  // ---------------------------------------------------------------------------

  lemma {:induction false} DistinctCount(findings: seq<Collected>, x: Collected)
    requires Distinct(findings)
    ensures multiset(findings)[x] == if x in findings then 1 else 0
  {
    if findings != [] {
      var n := |findings| - 1;
      DistinctCount(findings[..n], x);
      SplitLast(findings);
      assert findings[n] !in findings[..n];
    }
  }

  lemma {:induction false} OmissionKind(items: seq<Item<Omission>>, x: Collected)
    requires x in CollectOmissions(items, true)
    ensures x.content.OmissionContent?
  {
    var n := |items| - 1;
    if x in CollectOmissions(items[..n], true) {
      OmissionKind(items[..n], x);
    }
  }

  lemma {:induction false} ScopeKind(items: seq<Item<MergedScope>>, x: Collected)
    requires x in CollectScopes(items)
    ensures x.content.ScopeContent?
  {
    var n := |items| - 1;
    if x in CollectScopes(items[..n]) {
      ScopeKind(items[..n], x);
    }
  }

  /** Findings of the other kinds are not claim findings. */
  lemma ClaimKind(m: Merged, x: Collected)
    requires x.content.ClaimContent?
    ensures x in Collect(Multi(m)) <==> x in CollectMergedClaims(Elements(m.claims))
  {
    if x in CollectOmissions(Elements(m.omissions), true) {
      OmissionKind(Elements(m.omissions), x);
    }
    if x in MergedScopes(m) && m.scopes.Some? && m.scopes.value.List? {
      ScopeKind(m.scopes.value.items, x);
    }
  }

  /** Nothing is lost between the passes and the agent, and nothing is asked twice: for valid passes that
      explained their scope verdicts, merged onto a valid prior report or none, no two findings of the agent's
      list share an id; a claim finding is in the list exactly once if its pass raised it or the prior report
      held it, and not at all otherwise; the omissions and the scope findings are those of the prior report
      and of every pass, in order. */
  lemma EachFindingOnce(reports: seq<Report>, prior: Option<Merged>, bundle: Bundle, m: Merged, id: ClaimId, f: MergedFinding)
    requires reports != [] && AllValid(reports, bundle) && NamedPackets(bundle) && id in Expected(bundle.packets)
    requires prior.Some? ==> MergedFindings(prior.value, bundle) == []
    requires (forall i :: 0 <= i < |reports| ==> ScopeExplained(reports[i])) && m == Merge(reports, prior, bundle)
    ensures Distinct(Collect(Multi(m)))
    ensures multiset(Collect(Multi(m)))[OfFinding(Some(id), f)]
         == if Object(f) in EntryOf(PriorClaims(prior), id).findings || Raised(reports, Offset(prior), id, f) then 1 else 0
    ensures Contents(CollectOmissions(Elements(m.omissions), true))
         == OmissionContents(Objects(PriorOmissions(prior)) + PassOmissions(reports, Offset(prior)))
    ensures MergedScopes(m) == CollectScopes(PriorScopes(prior)) + PassScopes(reports, Offset(prior))
  {
    hide *;
    MergedListDistinct(reports, prior, bundle, m);
    PriorWellMerged(prior, bundle);
    ClaimFindingsKept(reports, prior, bundle, id, f);
    FindingIsClaim(id, f);
    ClaimKind(m, OfFinding(Some(id), f));
    DistinctCount(Collect(Multi(m)), OfFinding(Some(id), f));
    OmissionsKept(reports, prior, bundle);
    ScopeFindingsKept(reports, prior, bundle);
  }

  lemma PriorWellMerged(prior: Option<Merged>, bundle: Bundle)
    requires prior.Some? ==> MergedFindings(prior.value, bundle) == []
    ensures prior.Some? ==> WellMerged(prior.value, bundle)
  {
    if prior.Some? {
      MergedExact(prior.value, bundle);
    }
  }

  lemma MergedListDistinct(reports: seq<Report>, prior: Option<Merged>, bundle: Bundle, m: Merged)
    requires reports != [] && AllValid(reports, bundle) && NamedPackets(bundle)
    requires prior.Some? ==> MergedFindings(prior.value, bundle) == []
    requires (forall i :: 0 <= i < |reports| ==> ScopeExplained(reports[i])) && m == Merge(reports, prior, bundle)
    ensures Distinct(Collect(Multi(m)))
  {
    hide *;
    ProducerAgrees(reports, prior, bundle);
    MultiDistinct(m, bundle);
  }

  lemma MultiDistinct(m: Merged, bundle: Bundle)
    requires MergedFindings(m, bundle) == []
    ensures Distinct(Collect(Multi(m)))
  {
    hide MergedFindings, Collect, Distinct;
    FindingIdsDistinct(Multi(m), bundle);
  }

  lemma FindingIsClaim(id: ClaimId, f: MergedFinding)
    ensures OfFinding(Some(id), f).content.ClaimContent?
  {
  }
}
