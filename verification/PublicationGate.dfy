/** What an agent is asked to rule on and what it takes to publish, told from the report and the rulings
    themselves (src/memline/wiki/adjudication.py, review_report.py). */
module PublicationGate {
  import opened Strings
  import opened ReviewReport
  import RC = ReviewContract
  import opened MergedReport
  import opened FindingIds
  import opened Adjudication
  import opened AdjudicationGate

  // ---------------------------------------------------------------------------
  // What is asked
  // ---------------------------------------------------------------------------

  /** A claim of a single pass is asked about, in the reviewer's words, unless it was found supported. */
  predicate ClaimAsked(item: Item<ClaimReview>, x: Collected)
  {
    && item.Object? && item.value.verdict != Known(Supported)
    && x.id == "claim:" + IdText(item.value.id)
    && x.content.ClaimContent? && x.content.claim == item.value.id && x.content.pass == NoNumber
    && x.content.verdict == item.value.verdict && x.content.confidence == item.value.confidence
    && x.content.reason == item.value.reason && x.content.evidence == item.value.evidence
    && x.content.rewrite == item.value.rewrite
  }

  predicate SomeClaimAsked(items: seq<Item<ClaimReview>>, x: Collected)
  {
    exists i :: 0 <= i < |items| && ClaimAsked(items[i], x)
  }

  lemma ClaimAskedStep(items: seq<Item<ClaimReview>>, n: nat, x: Collected)
    requires n == |items| - 1
    ensures SomeClaimAsked(items, x) <==> SomeClaimAsked(items[..n], x) || ClaimAsked(items[n], x)
  {
    hide ClaimAsked;
    if i :| 0 <= i < n && ClaimAsked(items[..n][i], x) {
      assert ClaimAsked(items[i], x);
    }
    if i :| 0 <= i < |items| && ClaimAsked(items[i], x) && i < n {
      assert ClaimAsked(items[..n][i], x);
    }
  }

  lemma {:induction false} SingleClaimsAsked(items: seq<Item<ClaimReview>>, x: Collected)
    ensures x in CollectClaims(items) <==> SomeClaimAsked(items, x)
  {
    if items != [] {
      var n := |items| - 1;
      SingleClaimsAsked(items[..n], x);
      ClaimAskedStep(items, n, x);
      LastClaimAsked(items[n], x);
      hide SomeClaimAsked, ClaimAsked;
    }
  }

  lemma LastClaimAsked(item: Item<ClaimReview>, x: Collected)
    ensures ClaimAsked(item, x) <==> x in if Doubted(item) then [OfClaim(item.value)] else []
  {
  }

  /** Every finding kept in a merged claim is asked about, once for each pass. */
  predicate FindingAsked(id: Option<ClaimId>, item: Item<MergedFinding>, x: Collected)
  {
    && item.Object?
    && x.id == "claim:" + IdText(id) + ":pass:" + NumberText(item.value.pass)
    && x.content.ClaimContent? && x.content.claim == id && x.content.pass == item.value.pass
    && x.content.verdict == item.value.verdict && x.content.confidence == item.value.confidence
    && x.content.reason == item.value.reason && x.content.evidence == item.value.evidence
    && x.content.rewrite == item.value.rewrite
  }

  predicate SomeFindingAsked(items: seq<Item<MergedClaim>>, x: Collected)
  {
    exists i, j :: 0 <= i < |items| && items[i].Object? && 0 <= j < |Elements(items[i].value.findings)|
                   && FindingAsked(items[i].value.id, Elements(items[i].value.findings)[j], x)
  }

  /** The part of an id before its last colon. */
  lemma ColonJoins(p: string, q: string, x: string)
    ensures p + q + ":" + x == p + (q + ":") + x
  {
  }

  lemma FindingIdText(id: Option<ClaimId>, pass: Number)
    ensures ClaimFindingId(id, pass) == "claim:" + IdText(id) + ":pass:" + NumberText(pass)
  {
    hide NumberText;
    ColonJoins("claim:" + IdText(id), ":pass", NumberText(pass));
    assert ":pass" + ":" == ":pass:";
  }

  lemma FindingIsAsked(id: Option<ClaimId>, item: Item<MergedFinding>, x: Collected)
    ensures FindingAsked(id, item, x) <==> IsFinding(x, id, item)
  {
    hide NumberText, ClaimFindingId;
    if item.Object? {
      FindingIdText(id, item.value.pass);
    }
  }

  lemma MergedClaimsAsked(items: seq<Item<MergedClaim>>, x: Collected)
    ensures x in CollectMergedClaims(items) <==> SomeFindingAsked(items, x)
  {
    hide FindingAsked, IsFinding, Elements;
    ClaimListed(items, x);
    if i :| 0 <= i < |items| && FromClaim(x, items[i]) {
      var fs := Elements(items[i].value.findings);
      var j :| 0 <= j < |fs| && IsFinding(x, items[i].value.id, fs[j]);
      FindingIsAsked(items[i].value.id, fs[j], x);
    }
    if i, j :| 0 <= i < |items| && items[i].Object? && 0 <= j < |Elements(items[i].value.findings)|
               && FindingAsked(items[i].value.id, Elements(items[i].value.findings)[j], x) {
      FindingIsAsked(items[i].value.id, Elements(items[i].value.findings)[j], x);
      assert FromClaim(x, items[i]);
    }
  }

  /** Every omission is asked about, numbered by its place in the report. */
  predicate OmissionAsked(item: Item<Omission>, index: nat, merged: bool, x: Collected)
  {
    && item.Object? && x.content == OmissionContent(item.value)
    && x.id == (if merged then "omission:pass:" + NumberText(item.value.pass) + ":item:" + Dec(index + 1)
                else "omission:item:" + Dec(index + 1))
  }

  predicate SomeOmissionAsked(items: seq<Item<Omission>>, merged: bool, x: Collected)
  {
    exists i :: 0 <= i < |items| && OmissionAsked(items[i], i, merged, x)
  }

  lemma OmissionAskedStep(items: seq<Item<Omission>>, n: nat, merged: bool, x: Collected)
    requires n == |items| - 1
    ensures SomeOmissionAsked(items, merged, x) <==> SomeOmissionAsked(items[..n], merged, x) || OmissionAsked(items[n], n, merged, x)
  {
    hide OmissionAsked;
    if i :| 0 <= i < n && OmissionAsked(items[..n][i], i, merged, x) {
      assert OmissionAsked(items[i], i, merged, x);
    }
    if i :| 0 <= i < |items| && OmissionAsked(items[i], i, merged, x) && i < n {
      assert OmissionAsked(items[..n][i], i, merged, x);
    }
  }

  lemma LastOmissionAsked(item: Item<Omission>, index: nat, merged: bool, x: Collected)
    ensures OmissionAsked(item, index, merged, x)
            <==> x in if item.Object? then [OfOmission(item.value, index, merged)] else []
  {
    if item.Object? {
      assert "omission:pass:" + NumberText(item.value.pass) + ":item" + ":" + Dec(index + 1)
          == "omission:pass:" + NumberText(item.value.pass) + ":item:" + Dec(index + 1);
      assert "omission:item" + ":" + Dec(index + 1) == "omission:item:" + Dec(index + 1);
    }
  }

  lemma {:induction false} OmissionsAsked(items: seq<Item<Omission>>, merged: bool, x: Collected)
    ensures x in CollectOmissions(items, merged) <==> SomeOmissionAsked(items, merged, x)
  {
    if items != [] {
      var n := |items| - 1;
      OmissionsAsked(items[..n], merged, x);
      OmissionAskedStep(items, n, merged, x);
      LastOmissionAsked(items[n], n, merged, x);
      hide SomeOmissionAsked, OmissionAsked, OfOmission;
    }
  }

  /** A pass of a merged report that left the scope, or could not tell, is asked about. */
  predicate ScopeAsked(item: Item<MergedScope>, x: Collected)
  {
    && item.Object? && item.value.verdict != Known(InScope)
    && x.id == "scope:pass:" + NumberText(item.value.pass)
    && x.content == ScopeContent(item.value.pass, item.value.verdict, item.value.reason)
  }

  predicate SomeScopeAsked(items: seq<Item<MergedScope>>, x: Collected)
  {
    exists i :: 0 <= i < |items| && ScopeAsked(items[i], x)
  }

  lemma ScopeAskedStep(items: seq<Item<MergedScope>>, n: nat, x: Collected)
    requires n == |items| - 1
    ensures SomeScopeAsked(items, x) <==> SomeScopeAsked(items[..n], x) || ScopeAsked(items[n], x)
  {
    hide ScopeAsked;
    if i :| 0 <= i < n && ScopeAsked(items[..n][i], x) {
      assert ScopeAsked(items[i], x);
    }
    if i :| 0 <= i < |items| && ScopeAsked(items[i], x) && i < n {
      assert ScopeAsked(items[..n][i], x);
    }
  }

  lemma LastScopeAsked(item: Item<MergedScope>, x: Collected)
    ensures ScopeAsked(item, x) <==> x in if Drifts(item) then [OfScope(item.value)] else []
  {
    if item.Object? {
      assert "scope:pass" + ":" + NumberText(item.value.pass) == "scope:pass:" + NumberText(item.value.pass);
    }
  }

  lemma {:induction false} ScopesAsked(items: seq<Item<MergedScope>>, x: Collected)
    ensures x in CollectScopes(items) <==> SomeScopeAsked(items, x)
  {
    if items != [] {
      var n := |items| - 1;
      ScopesAsked(items[..n], x);
      ScopeAskedStep(items, n, x);
      LastScopeAsked(items[n], x);
      hide SomeScopeAsked, ScopeAsked, OfScope;
    }
  }

  predicate SingleAsked(r: Report, x: Collected)
  {
    || SomeClaimAsked(Elements(r.claims), x)
    || SomeOmissionAsked(Elements(r.omissions), false, x)
    || (r.scope.Object? && r.scope.value.verdict != Known(InScope)
        && x == Collected("scope", ScopeContent(NoNumber, r.scope.value.verdict, r.scope.value.reason)))
  }

  /** A merged report that kept no list of scope reviews is asked about once, unless its aggregate is clean. */
  predicate MergedAsked(m: Merged, x: Collected)
  {
    || SomeFindingAsked(Elements(m.claims), x)
    || SomeOmissionAsked(Elements(m.omissions), true, x)
    || (if m.scopes.Some? && m.scopes.value.List? then SomeScopeAsked(m.scopes.value.items, x)
        else !(m.validation.Object? && m.validation.value.scopeClean.Yes?) && x == Collected("scope:legacy-aggregate", LegacyScope))
  }

  predicate Asked(report: AnyReport, x: Collected)
  {
    match report
    case Single(r) => SingleAsked(r, x)
    case Multi(m) => MergedAsked(m, x)
  }

  /** The list put to the agent holds exactly what is to be asked: for a single pass every claim that was not
      found supported, every omission and a scope verdict other than "in scope"; for a merged report every
      finding kept in a claim, every omission and every such scope verdict. */
  lemma AskedExactly(report: AnyReport, x: Collected)
    ensures x in Collect(report) <==> Asked(report, x)
  {
    hide SomeClaimAsked, SomeFindingAsked, SomeOmissionAsked, SomeScopeAsked, CollectClaims, CollectMergedClaims,
         CollectOmissions, CollectScopes, Elements;
    match report {
      case Single(r) =>
        SingleClaimsAsked(Elements(r.claims), x);
        OmissionsAsked(Elements(r.omissions), false, x);
      case Multi(m) =>
        MergedClaimsAsked(Elements(m.claims), x);
        OmissionsAsked(Elements(m.omissions), true, x);
        if m.scopes.Some? && m.scopes.value.List? {
          ScopesAsked(m.scopes.value.items, x);
        }
    }
  }

  // ---------------------------------------------------------------------------
  // When nothing is asked
  // ---------------------------------------------------------------------------

  /** The reviewers raised no doubt. */
  predicate Undoubted(report: AnyReport)
  {
    match report
    case Single(r) =>
      && (forall i :: 0 <= i < |Elements(r.claims)| && Elements(r.claims)[i].Object? ==>
            Elements(r.claims)[i].value.verdict == Known(Supported))
      && (forall i :: 0 <= i < |Elements(r.omissions)| ==> Elements(r.omissions)[i].NotObject?)
      && (r.scope.Object? ==> r.scope.value.verdict == Known(InScope))
    case Multi(m) =>
      && (forall i :: 0 <= i < |Elements(m.claims)| && Elements(m.claims)[i].Object? ==> Unflagged(Elements(m.claims)[i].value))
      && (forall i :: 0 <= i < |Elements(m.omissions)| ==> Elements(m.omissions)[i].NotObject?)
      && (if m.scopes.Some? && m.scopes.value.List?
          then forall i :: 0 <= i < |m.scopes.value.items| && m.scopes.value.items[i].Object? ==>
                 m.scopes.value.items[i].value.verdict == Known(InScope)
          else m.validation.Object? && m.validation.value.scopeClean.Yes?)
  }

  lemma NoneOfClaims(items: seq<Item<ClaimReview>>, i: nat)
    requires CollectClaims(items) == [] && i < |items| && items[i].Object?
    ensures items[i].value.verdict == Known(Supported)
  {
    if items[i].value.verdict != Known(Supported) {
      SingleClaimsAsked(items, OfClaim(items[i].value));
      assert ClaimAsked(items[i], OfClaim(items[i].value));
    }
  }

  lemma NoneOfFindings(items: seq<Item<MergedClaim>>, i: nat, j: nat)
    requires CollectMergedClaims(items) == [] && i < |items| && items[i].Object? && j < |Elements(items[i].value.findings)|
    ensures Elements(items[i].value.findings)[j].NotObject?
  {
    var f := Elements(items[i].value.findings)[j];
    if f.Object? {
      var x := OfFinding(items[i].value.id, f.value);
      MergedClaimsAsked(items, x);
      FindingIsAsked(items[i].value.id, f, x);
    }
  }

  lemma NoneOfOmissions(items: seq<Item<Omission>>, merged: bool, i: nat)
    requires CollectOmissions(items, merged) == [] && i < |items|
    ensures items[i].NotObject?
  {
    if items[i].Object? {
      var x := OfOmission(items[i].value, i, merged);
      OmissionsAsked(items, merged, x);
      LastOmissionAsked(items[i], i, merged, x);
    }
  }

  lemma NoneOfScopes(items: seq<Item<MergedScope>>, i: nat)
    requires CollectScopes(items) == [] && i < |items| && items[i].Object?
    ensures items[i].value.verdict == Known(InScope)
  {
    if items[i].value.verdict != Known(InScope) {
      var x := OfScope(items[i].value);
      ScopesAsked(items, x);
      LastScopeAsked(items[i], x);
    }
  }

  lemma NoneAsked(report: AnyReport)
    requires Undoubted(report)
    ensures Collect(report) == []
  {
    if Collect(report) != [] {
      var x := Collect(report)[0];
      AskedExactly(report, x);
    }
  }

  lemma SingleUndoubted(r: Report)
    requires Collect(Single(r)) == []
    ensures Undoubted(Single(r))
  {
    forall i | 0 <= i < |Elements(r.claims)| && Elements(r.claims)[i].Object?
      ensures Elements(r.claims)[i].value.verdict == Known(Supported)
    {
      NoneOfClaims(Elements(r.claims), i);
    }
    forall i | 0 <= i < |Elements(r.omissions)| ensures Elements(r.omissions)[i].NotObject? {
      NoneOfOmissions(Elements(r.omissions), false, i);
    }
  }

  lemma MergedUndoubted(m: Merged)
    requires Collect(Multi(m)) == []
    ensures Undoubted(Multi(m))
  {
    hide CollectMergedClaims, CollectOmissions, CollectScopes, Elements;
    forall i | 0 <= i < |Elements(m.claims)| && Elements(m.claims)[i].Object?
      ensures Unflagged(Elements(m.claims)[i].value)
    {
      forall j | 0 <= j < |Elements(Elements(m.claims)[i].value.findings)|
        ensures Elements(Elements(m.claims)[i].value.findings)[j].NotObject?
      {
        NoneOfFindings(Elements(m.claims), i, j);
      }
    }
    forall i | 0 <= i < |Elements(m.omissions)| ensures Elements(m.omissions)[i].NotObject? {
      NoneOfOmissions(Elements(m.omissions), true, i);
    }
    if m.scopes.Some? && m.scopes.value.List? {
      forall i | 0 <= i < |m.scopes.value.items| && m.scopes.value.items[i].Object?
        ensures m.scopes.value.items[i].value.verdict == Known(InScope)
      {
        NoneOfScopes(m.scopes.value.items, i);
      }
    }
  }

  lemma NothingAsked(report: AnyReport)
    ensures Collect(report) == [] <==> Undoubted(report)
  {
    hide Collect, Undoubted;
    if Undoubted(report) {
      NoneAsked(report);
    }
    if Collect(report) == [] {
      match report {
        case Single(r) => SingleUndoubted(r);
        case Multi(m) => MergedUndoubted(m);
      }
    }
  }

  // ---------------------------------------------------------------------------
  // Rulings
  // ---------------------------------------------------------------------------

  /** A blocking ruling names one of the six ways a finding can mislead a reader; a non-blocking one calls the
      finding immaterial. */
  predicate Fits(decision: Word<Decision>, category: Word<Category>)
  {
    || (decision == Known(NonBlocking) && category == Known(NonMaterial))
    || (decision == Known(Blocking)
        && category in {Known(FactualContradiction), Known(SupersededCurrentClaim), Known(CoreClaimUnverifiable),
                        Known(DecisionChangingOmission), Known(SevereCausalOverclaim), Known(SafetyPrivacyOrScope)})
  }

  /** The ruling answers a finding of the report, fits, and says why. */
  ghost predicate Sound(item: Item<Ruling>, report: AnyReport)
  {
    && item.Object? && item.value.findingId.Some?
    && (exists x :: Asked(report, x) && x.id == item.value.findingId.value)
    && Fits(item.value.decision, item.value.category)
    && item.value.reason.Text? && Strip(item.value.reason.text) != ""
  }

  lemma AskedIds(report: AnyReport, id: string)
    ensures id in Ids(Collect(report)) <==> exists x :: Asked(report, x) && x.id == id
  {
    hide Asked, Collect;
    var findings := Collect(report);
    if id in Ids(findings) {
      var i :| 0 <= i < |findings| && findings[i].id == id;
      AskedExactly(report, findings[i]);
    }
    if x :| Asked(report, x) && x.id == id {
      AskedExactly(report, x);
      var i :| 0 <= i < |findings| && findings[i] == x;
      assert findings[i].id in Ids(findings);
    }
  }

  lemma SoundAccepted(item: Item<Ruling>, report: AnyReport)
    ensures Accepted(item, Ids(Collect(report))) <==> Sound(item, report)
  {
    hide Asked, Collect, Strip, Blank;
    if item.Object? && item.value.findingId.Some? {
      AskedIds(report, item.value.findingId.value);
      if item.value.reason.Text? {
        StripBlank(item.value.reason.text);
      }
    }
  }

  /** One ruling for each finding of the report: sound, no finding ruled on twice, none left out. */
  ghost predicate Complete(items: seq<Item<Ruling>>, report: AnyReport)
  {
    && (forall i :: 0 <= i < |items| ==> Sound(items[i], report))
    && (forall i, j :: 0 <= i < j < |items| ==> items[i].value.findingId != items[j].value.findingId)
    && (forall x :: Asked(report, x) ==> RuledOn(items, x.id))
  }

  ghost predicate RuledOn(items: seq<Item<Ruling>>, id: string)
  {
    exists i :: 0 <= i < |items| && items[i].Object? && items[i].value.findingId == Some(id)
  }

  lemma RuledSeen(items: seq<Item<Ruling>>, id: string)
    ensures RuledOn(items, id) <==> Some(id) in Seen(items, RulingId)
  {
    if i :| 0 <= i < |items| && items[i].Object? && items[i].value.findingId == Some(id) {
      assert RulingId(items[i].value) == Some(id);
    }
    if Some(id) in Seen(items, RulingId) {
      var i :| 0 <= i < |items| && items[i].Object? && RulingId(items[i].value) == Some(id);
      assert items[i].value.findingId == Some(id);
    }
  }

  lemma CompleteRules(items: seq<Item<Ruling>>, report: AnyReport)
    ensures Complete(items, report)
            <==> AllAccepted(items, Ids(Collect(report))) && DistinctIds(items, RulingId)
                 && forall id :: id in Ids(Collect(report)) ==> Some(id) in Seen(items, RulingId)
  {
    hide Asked, Collect, Accepted, Sound, Ids, Seen, RuledOn;
    forall i | 0 <= i < |items| ensures Accepted(items[i], Ids(Collect(report))) <==> Sound(items[i], report) {
      SoundAccepted(items[i], report);
    }
    RulingsApart(items, report);
    if forall x :: Asked(report, x) ==> RuledOn(items, x.id) {
      forall id | id in Ids(Collect(report)) ensures Some(id) in Seen(items, RulingId) {
        AskedIds(report, id);
        RuledSeen(items, id);
      }
    }
    if forall id :: id in Ids(Collect(report)) ==> Some(id) in Seen(items, RulingId) {
      forall x | Asked(report, x) ensures RuledOn(items, x.id) {
        AskedIds(report, x.id);
        RuledSeen(items, x.id);
      }
    }
  }

  lemma RulingsApart(items: seq<Item<Ruling>>, report: AnyReport)
    ensures (forall i :: 0 <= i < |items| ==> Sound(items[i], report)) ==>
              (DistinctIds(items, RulingId)
               <==> forall i, j :: 0 <= i < j < |items| ==> items[i].value.findingId != items[j].value.findingId)
  {
    hide Asked, Fits;
    if (forall i :: 0 <= i < |items| ==> Sound(items[i], report)) && DistinctIds(items, RulingId) {
      forall i, j | 0 <= i < j < |items| ensures items[i].value.findingId != items[j].value.findingId {
        assert RulingId(items[i].value) != RulingId(items[j].value);
      }
    }
  }

  /** An adjudication is valid exactly when it carries the schema version and the hashes of this report and
      rules once, soundly, on each finding and on nothing else. */
  lemma AdjudicationValidExactly(a: Adjudication, report: AnyReport)
    ensures Judged(Some(a), report).faults == []
            <==> HeaderRight(a, report) && a.rulings.List? && Complete(a.rulings.items, report)
  {
    hide AllRulings, Complete, AllAccepted, DistinctIds, Seen, SeenAre, NoneBlocks, Collect, Ids;
    var expected := Ids(Collect(report));
    var start := AddFault(HeaderFaults(a, report), a.rulings.NotAList?, RulingsMissing);
    var t := AllRulings(Tally(start, {}, 0, 0, 0), Elements(a.rulings), expected);
    RulingsExact(start, Elements(a.rulings), expected);
    NoneMissing(t, Elements(a.rulings), expected);
    CompleteRules(Elements(a.rulings), report);
  }

  predicate IsBlocking(item: Item<Ruling>)
  {
    item.Object? && item.value.decision == Known(Blocking)
  }

  function BlockingRulings(items: seq<Item<Ruling>>): set<nat>
  {
    set i | 0 <= i < |items| && IsBlocking(items[i])
  }

  lemma BlockingStep(items: seq<Item<Ruling>>, n: nat)
    requires n == |items| - 1
    ensures |BlockingRulings(items)| == |BlockingRulings(items[..n])| + if IsBlocking(items[n]) then 1 else 0
  {
    hide IsBlocking;
    assert BlockingRulings(items) == BlockingRulings(items[..n]) + if IsBlocking(items[n]) then {n} else {};
  }

  lemma {:induction false} BlockingCounted(fs: seq<Fault>, items: seq<Item<Ruling>>, expected: set<string>)
    requires AllAccepted(items, expected)
    ensures AllRulings(Tally(fs, {}, 0, 0, 0), items, expected).blocking == |BlockingRulings(items)|
  {
    if items == [] {
      assert BlockingRulings(items) == {};
    } else {
      hide OneRuling, BlockingRulings, Accepted;
      var n := |items| - 1;
      AcceptedStep(items, n, expected);
      BlockingCounted(fs, items[..n], expected);
      OneExact(AllRulings(Tally(fs, {}, 0, 0, 0), items[..n], expected), items[n], n, expected);
      BlockingStep(items, n);
    }
  }

  predicate Immaterial(item: Item<Ruling>)
  {
    item.Object? && item.value.decision == Known(NonBlocking) && item.value.category == Known(NonMaterial)
  }

  lemma NoneBlocked(items: seq<Item<Ruling>>, report: AnyReport)
    requires Complete(items, report)
    ensures |BlockingRulings(items)| == 0
            <==> forall i :: 0 <= i < |items| ==> Immaterial(items[i])
  {
    hide Asked;
    if BlockingRulings(items) == {} {
      forall i | 0 <= i < |items| ensures Immaterial(items[i]) {
        assert Sound(items[i], report);
        assert i !in BlockingRulings(items);
      }
    } else {
      var i :| i in BlockingRulings(items);
      assert !Immaterial(items[i]);
    }
  }

  lemma BlockingInOutcome(a: Adjudication, report: AnyReport)
    requires a.rulings.List? && AllAccepted(a.rulings.items, Ids(Collect(report)))
    ensures Judged(Some(a), report).blocking == |BlockingRulings(a.rulings.items)|
    ensures Judged(Some(a), report).clean
            <==> Judged(Some(a), report).faults == [] && Judged(Some(a), report).blocking == 0
  {
    hide AllRulings, AllAccepted, Collect, Ids, BlockingRulings, HeaderFaults;
    var start := AddFault(HeaderFaults(a, report), a.rulings.NotAList?, RulingsMissing);
    BlockingCounted(start, a.rulings.items, Ids(Collect(report)));
  }

  /** A valid adjudication counts its blocking rulings as unresolved and is clean when there are none. */
  lemma UnresolvedCounted(a: Adjudication, report: AnyReport)
    requires Judged(Some(a), report).faults == []
    ensures a.rulings.List? && Judged(Some(a), report).blocking == |BlockingRulings(a.rulings.items)|
    ensures Judged(Some(a), report).clean
            <==> forall i :: 0 <= i < |a.rulings.items| ==> Immaterial(a.rulings.items[i])
  {
    hide *;
    AdjudicationValidExactly(a, report);
    CompleteRules(a.rulings.items, report);
    BlockingInOutcome(a, report);
    NoneBlocked(a.rulings.items, report);
  }

  /** Every finding is ruled on, soundly, and none of the rulings blocks. */
  ghost predicate Cleared(a: Adjudication, report: AnyReport)
  {
    && HeaderRight(a, report) && a.rulings.List? && Complete(a.rulings.items, report)
    && forall i :: 0 <= i < |a.rulings.items| ==> a.rulings.items[i].value.decision == Known(NonBlocking)
  }

  lemma CleanIsValid(a: Adjudication, report: AnyReport)
    ensures Judged(Some(a), report).clean ==> Judged(Some(a), report).faults == []
  {
    hide Collect, AllRulings;
  }

  lemma AllFit(items: seq<Item<Ruling>>, report: AnyReport)
    requires Complete(items, report)
    ensures forall i :: 0 <= i < |items| ==>
              items[i].Object? && (items[i].value.decision == Known(NonBlocking) <==> Immaterial(items[i]))
  {
    hide Asked;
    forall i | 0 <= i < |items|
      ensures items[i].Object? && (items[i].value.decision == Known(NonBlocking) <==> Immaterial(items[i]))
    {
      assert Sound(items[i], report);
    }
  }

  lemma ClearedExactly(a: Adjudication, report: AnyReport)
    ensures Judged(Some(a), report).clean <==> Cleared(a, report)
  {
    hide Judged, Complete, HeaderRight;
    AdjudicationValidExactly(a, report);
    CleanIsValid(a, report);
    if Judged(Some(a), report).faults == [] {
      UnresolvedCounted(a, report);
      AllFit(a.rulings.items, report);
    }
  }

  // ---------------------------------------------------------------------------
  // Publication
  // ---------------------------------------------------------------------------

  /** The whole gate, without reference to the lists it builds: an article may be published exactly when its
      report meets the contract, the deterministic check was clean, and either there is nothing to rule on, or
      an adjudication of this very report clears each finding. An adjudication that is given must be right
      even if there is nothing to rule on. */
  lemma PublishedExactly(report: AnyReport, bundle: Bundle, adjudication: Option<Adjudication>)
    ensures ArtifactClean(report, bundle, adjudication)
            <==> (if report.Single? then WellFormed(report.single, bundle) else WellMerged(report.multi, bundle))
                 && bundle.deterministicClean
                 && (if adjudication.None? then Undoubted(report) else Cleared(adjudication.value, report))
  {
    hide Collect, Undoubted, Cleared, RulesEach, WellFormed, WellMerged;
    GateExact(report, bundle, adjudication);
    AdjudicationExact(adjudication, report);
    if adjudication.None? {
      NothingAsked(report);
    } else {
      ClearedExactly(adjudication.value, report);
    }
  }

  /** The verdicts of the reviews, told from the claims of the bundle. */
  lemma AllFoundSupported(items: seq<Item<ClaimReview>>, expected: map<ClaimId, set<string>>)
    requires GoodClaims(items, expected)
    ensures (forall i :: 0 <= i < |items| && items[i].Object? ==> items[i].value.verdict == Known(Supported))
            <==> forall id :: id in expected ==> FoundSupported(items, id)
  {
    hide RefsWithin, HasRefs;
    if forall i :: 0 <= i < |items| && items[i].Object? ==> items[i].value.verdict == Known(Supported) {
      forall id | id in expected ensures FoundSupported(items, id) {
        assert Some(id) in Seen(items, ReviewId);
        var i :| 0 <= i < |items| && items[i].Object? && ReviewId(items[i].value) == Some(id);
      }
    }
    if forall id :: id in expected ==> FoundSupported(items, id) {
      forall i | 0 <= i < |items| && items[i].Object? ensures items[i].value.verdict == Known(Supported) {
        assert GoodClaim(items[i].value, expected);
        assert FoundSupported(items, items[i].value.id.value);
        var j :| 0 <= j < |items| && items[j].Object? && items[j].value.id == items[i].value.id
                 && items[j].value.verdict == Known(Supported);
        assert ReviewId(items[i].value) == ReviewId(items[j].value);
      }
    }
  }

  predicate FoundSupported(items: seq<Item<ClaimReview>>, id: ClaimId)
  {
    exists i :: 0 <= i < |items| && items[i].Object? && items[i].value.id == Some(id) && items[i].value.verdict == Known(Supported)
  }

  lemma NoOmissions(omissions: List<Item<Omission>>, bundle: Bundle)
    requires GoodOmissions(omissions, bundle)
    ensures (forall i :: 0 <= i < |Elements(omissions)| ==> Elements(omissions)[i].NotObject?) <==> omissions == List([])
  {
    hide KnownRefs, GoodOmission;
    if omissions.items != [] {
      assert omissions.items[0].Object? && Elements(omissions)[0] == omissions.items[0];
    }
  }

  /** Without an adjudication a single-pass report is published exactly when the reviewer found every claim of
      the bundle supported, recorded no omission, of whatever severity, and saw the article in scope. */
  lemma PublishedUnruled(r: Report, bundle: Bundle)
    requires WellFormed(r, bundle) && bundle.deterministicClean
    ensures ArtifactClean(Single(r), bundle, None)
            <==> (forall id :: id in Expected(bundle.packets) ==> FoundSupported(r.claims.items, id))
                 && r.omissions == List([]) && r.scope.value.verdict == Known(InScope)
  {
    hide Expected, GoodClaims, GoodOmissions, FoundSupported, ArtifactClean;
    PublishedExactly(Single(r), bundle, None);
    assert Elements(r.claims) == r.claims.items;
    AllFoundSupported(r.claims.items, Expected(bundle.packets));
    NoOmissions(r.omissions, bundle);
  }

  /** A review that is clean by its own account is not yet enough: it is published without rulings exactly when it
      recorded no omission, not even a note. */
  lemma CleanReviewStillAsks(r: Report, bundle: Bundle)
    requires Validated(r, bundle).clean
    ensures ArtifactClean(Single(r), bundle, None) <==> r.omissions == List([])
  {
    hide ArtifactClean, RC.ClaimsAnswered, RC.OmissionsRight, Validated, Expected, FoundSupported, GoodClaims, WellFormed;
    RC.CleanExactly(r, bundle);
    RC.ValidExactly(r, bundle);
    ReviewExact(r, bundle);
    PublishedUnruled(r, bundle);
    RC.ClaimsExactly(r.claims.items, bundle.packets);
    AllFoundSupported(r.claims.items, Expected(bundle.packets));
  }

  predicate AllFoundInScope(m: Merged)
    requires m.scopes.Some? ==> m.scopes.value.List? && forall i :: 0 <= i < |m.scopes.value.items| ==> m.scopes.value.items[i].Object?
    requires m.scopes.None? ==> m.validation.Object?
  {
    if m.scopes.Some? then forall i :: 0 <= i < |m.scopes.value.items| ==> m.scopes.value.items[i].value.verdict == Known(InScope)
    else m.validation.value.scopeClean.Yes?
  }

  lemma GoodScopesObjects(items: seq<Item<MergedScope>>)
    requires AllGoodScopes(items)
    ensures forall i :: 0 <= i < |items| ==> items[i].Object?
  {
    forall i | 0 <= i < |items| ensures items[i].Object? {
      assert GoodScope(items[i], i + 1);
    }
  }

  /** A merged report is, exactly when the merged verdict of every claim is "supported", no pass recorded an
      omission, and every pass, or the aggregate of an older report, was in scope. */
  lemma MergedPublishedUnruled(m: Merged, bundle: Bundle)
    requires WellMerged(m, bundle) && bundle.deterministicClean
    ensures (forall i :: 0 <= i < |m.claims.items| ==> m.claims.items[i].Object?)
            && (m.scopes.Some? ==> m.scopes.value.List? && forall i :: 0 <= i < |m.scopes.value.items| ==> m.scopes.value.items[i].Object?)
            && (ArtifactClean(Multi(m), bundle, None)
                <==> (forall i :: 0 <= i < |m.claims.items| ==> m.claims.items[i].value.verdict == Known(Supported))
                     && m.omissions == List([]) && AllFoundInScope(m))
  {
    hide Expected, GoodCounts, GoodOmissions, GoodMergedClaim, ArtifactClean, GoodScope, AllGoodScopes, AllGoodMergedClaims,
         DistinctIds, Seen, CoversAll, NumbersInOrder, InvalidPasses;
    PublishedExactly(Multi(m), bundle, None);
    NoOmissions(m.omissions, bundle);
    AllUnflagged(m.claims.items, Expected(bundle.packets), m.passes.n);
    if m.scopes.Some? {
      GoodScopesObjects(m.scopes.value.items);
    }
  }

  predicate Unflagged(c: MergedClaim)
  {
    forall j :: 0 <= j < |Elements(c.findings)| ==> Elements(c.findings)[j].NotObject?
  }

  lemma AllUnflagged(items: seq<Item<MergedClaim>>, expected: map<ClaimId, set<string>>, passes: nat)
    requires AllGoodMergedClaims(items, expected, passes)
    ensures forall i :: 0 <= i < |items| ==> items[i].Object?
                                             && (items[i].value.verdict == Known(Supported) <==> Unflagged(items[i].value))
  {
    forall i | 0 <= i < |items|
      ensures items[i].Object? && (items[i].value.verdict == Known(Supported) <==> Unflagged(items[i].value))
    {
      assert GoodMergedClaim(items[i].value, expected, passes);
      SupportedUnflagged(items[i].value, passes, expected[items[i].value.id.value]);
    }
  }

  lemma LastVerdict(fs: seq<Item<MergedFinding>>, passes: nat, allowed: set<string>)
    requires fs != [] && AllGoodFindings(fs, passes, allowed)
    ensures exists v :: v in Verdicts(fs) && v != Supported
  {
    hide NonBlank, RefsWithin, Within;
    var n := |fs| - 1;
    assert fs[n].Object? && GoodFinding(fs[n].value, passes, allowed);
    var v := fs[n].value.verdict.word;
    assert Verdicts(fs) == Verdicts(fs[..n]) + [v];
    assert v in Verdicts(fs);
  }

  lemma StricterThanSupport(verdicts: seq<Verdict>, v: Verdict)
    requires v in verdicts && v != Supported
    ensures Strictest(verdicts) != Supported
  {
    hide Strictest;
    StrictestMeaning(verdicts);
    assert Rank(v) > Rank(Supported);
  }

  /** In a good entry the merged verdict is "supported" only if no pass flagged the claim. */
  lemma SupportedUnflagged(c: MergedClaim, passes: nat, allowed: set<string>)
    requires GoodEntry(c, passes, allowed)
    ensures c.verdict == Known(Supported) <==> Unflagged(c)
  {
    hide GoodFinding, DistinctIds, Equals;
    var fs := c.findings.items;
    if fs != [] {
      assert Elements(c.findings)[0] == fs[0] && fs[0].Object?;
      LastVerdict(fs, passes, allowed);
      var v :| v in Verdicts(fs) && v != Supported;
      StricterThanSupport(Verdicts(fs), v);
    }
  }
}
