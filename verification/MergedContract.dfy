/** What a merged report must say to be valid, told from the report and the packets of the bundle
    (src/memline/wiki/review_report.py). */
module MergedContract {
  import opened Strings
  import opened ReviewReport
  import opened MergedReport
  import opened MergedVerdicts
  import opened ReviewContract

  /** `x == n`, where Python counts True as one and False as zero. */
  predicate IsNumber(x: Number, n: int)
  {
    x == Int(n) || (x == Truth(true) && n == 1) || (x == Truth(false) && n == 0)
  }

  lemma NumberExactly(x: Number, n: int)
    ensures IsNumber(x, n) <==> Equals(x, n)
  {
  }

  // ---------------------------------------------------------------------------
  // Claims
  // ---------------------------------------------------------------------------

  /** A finding kept in a merged claim: from one of the passes, not in support, with all a reviewer must give. */
  predicate FindingRight(item: Item<MergedFinding>, passes: nat, citations: seq<string>)
  {
    && item.Object? && item.value.pass.Int? && 1 <= item.value.pass.n <= passes
    && item.value.verdict.Known? && item.value.verdict != Known(Supported) && item.value.confidence.Known?
    && Filled(item.value.reason) && item.value.rewrite.Text? && !item.value.evidence.BadRefs?
    && (item.value.evidence.Refs? ==> forall j :: 0 <= j < |item.value.evidence.refs| ==>
          item.value.evidence.refs[j].Text? && item.value.evidence.refs[j].text in citations && item.value.evidence.refs[j].text != "")
  }

  /** A merged claim: what it keeps comes from different passes, it counts as flagged in just those, and its verdict
      is the gravest of theirs. */
  predicate EntryRight(c: MergedClaim, passes: nat, citations: seq<string>)
  {
    && c.findings.List? && (forall j :: 0 <= j < |c.findings.items| ==> FindingRight(c.findings.items[j], passes, citations))
    && (forall i, j :: 0 <= i < j < |c.findings.items| ==> c.findings.items[i].value.pass != c.findings.items[j].value.pass)
    && c.flaggedIn == Int(|c.findings.items|) && |c.findings.items| <= passes && IsNumber(c.ofPasses, passes)
    && c.verdict == Gravest(FoundIn(c.findings.items), Known(Supported))
  }

  lemma FindingExactly(item: Item<MergedFinding>, passes: nat, citations: seq<string>, allowed: set<string>)
    requires forall ref :: ref in allowed <==> ref in citations && ref != ""
    ensures FindingRight(item, passes, citations) <==> item.Object? && GoodFinding(item.value, passes, allowed)
  {
    hide Filled, NonBlank;
    if item.Object? {
      FilledExactly(item.value.reason);
    }
  }

  lemma PassesApart(items: seq<Item<MergedFinding>>)
    requires forall j :: 0 <= j < |items| ==> items[j].Object? && items[j].value.pass.Int?
    ensures DistinctIds(items, PassKey) <==> forall i, j :: 0 <= i < j < |items| ==> items[i].value.pass != items[j].value.pass
  {
    if DistinctIds(items, PassKey) {
      forall i, j | 0 <= i < j < |items| ensures items[i].value.pass != items[j].value.pass {
        assert PassKey(items[i].value) != PassKey(items[j].value);
      }
    }
  }

  lemma AllFromPasses(items: seq<Item<MergedFinding>>, passes: nat, citations: seq<string>)
    requires forall j :: 0 <= j < |items| ==> FindingRight(items[j], passes, citations)
    ensures forall j :: 0 <= j < |items| ==> items[j].Object? && items[j].value.pass.Int?
  {
    hide Filled;
    forall j | 0 <= j < |items| ensures items[j].Object? && items[j].value.pass.Int? {
      assert FindingRight(items[j], passes, citations);
    }
  }

  /** The gravest word as the validator reckons it. */
  lemma StrictestFound(items: seq<Item<MergedFinding>>)
    ensures Known(Strictest(Verdicts(items))) == Gravest(FoundIn(items), Known(Supported))
  {
    hide Strictest, Verdicts;
    StrictestExact(Verdicts(items));
    forall v: Verdict | v != Supported ensures v in Verdicts(items) <==> v in FoundIn(items) {
      VerdictsFound(items, v);
    }
    SameGraver((set v: Verdict | v in Verdicts(items)), FoundIn(items));
  }

  lemma EntryExactly(c: MergedClaim, passes: nat, citations: seq<string>, allowed: set<string>)
    requires forall ref :: ref in allowed <==> ref in citations && ref != ""
    ensures EntryRight(c, passes, citations) <==> GoodEntry(c, passes, allowed)
  {
    hide FindingRight, GoodFinding, Strictest, Verdicts, Gravest, FoundIn, DistinctIds, Equals, IsNumber;
    NumberExactly(c.ofPasses, passes);
    if c.findings.List? {
      var items := c.findings.items;
      StrictestFound(items);
      forall j | 0 <= j < |items| ensures FindingRight(items[j], passes, citations) <==> items[j].Object? && GoodFinding(items[j].value, passes, allowed) {
        FindingExactly(items[j], passes, citations, allowed);
      }
      if forall j :: 0 <= j < |items| ==> FindingRight(items[j], passes, citations) {
        AllFromPasses(items, passes, citations);
        PassesApart(items);
      }
    }
  }

  ghost predicate MergedAnswer(item: Item<MergedClaim>, packets: seq<Packet>, passes: nat)
  {
    && item.Object? && item.value.id.Some?
    && exists k: nat :: PacketFor(packets, item.value.id.value, k) && EntryRight(item.value, passes, packets[k].citations)
  }

  lemma AnswerExactly(item: Item<MergedClaim>, packets: seq<Packet>, passes: nat)
    ensures MergedAnswer(item, packets, passes) <==> item.Object? && GoodMergedClaim(item.value, Expected(packets), passes)
  {
    hide EntryRight, GoodEntry, Expected;
    if item.Object? && item.value.id.Some? {
      var id := item.value.id.value;
      ExpectedExactly(packets, id);
      if id in Expected(packets) {
        var k: nat :| PacketFor(packets, id, k);
        OnePacket(packets, id);
        EntryExactly(item.value, passes, packets[k].citations, Expected(packets)[id]);
      }
    }
  }

  ghost predicate MergedAnswers(items: seq<Item<MergedClaim>>, packets: seq<Packet>, passes: nat)
  {
    && (forall i :: 0 <= i < |items| ==> MergedAnswer(items[i], packets, passes))
    && (forall i, j :: 0 <= i < j < |items| ==> items[i].value.id != items[j].value.id)
    && (forall k :: 0 <= k < |packets| ==> MergedAnswerFor(items, packets[k].id))
  }

  predicate MergedAnswerFor(items: seq<Item<MergedClaim>>, id: ClaimId)
  {
    exists i :: 0 <= i < |items| && items[i].Object? && items[i].value.id == Some(id)
  }

  lemma MergedSeen(items: seq<Item<MergedClaim>>, id: ClaimId)
    ensures MergedAnswerFor(items, id) <==> Some(id) in Seen(items, MergedId)
  {
    if i :| 0 <= i < |items| && items[i].Object? && items[i].value.id == Some(id) {
      assert MergedId(items[i].value) == Some(id);
    }
    if Some(id) in Seen(items, MergedId) {
      var i :| 0 <= i < |items| && items[i].Object? && MergedId(items[i].value) == Some(id);
      assert items[i].value.id == Some(id);
    }
  }

  lemma MergedCovered(items: seq<Item<MergedClaim>>, packets: seq<Packet>)
    ensures CoversAll(Seen(items, MergedId), Expected(packets)) <==> forall k :: 0 <= k < |packets| ==> MergedAnswerFor(items, packets[k].id)
  {
    hide Seen, Expected, MergedAnswerFor;
    if CoversAll(Seen(items, MergedId), Expected(packets)) {
      forall k | 0 <= k < |packets| ensures MergedAnswerFor(items, packets[k].id) {
        var last := LastOf(packets, k);
        ExpectedExactly(packets, packets[k].id);
        MergedSeen(items, packets[k].id);
      }
    }
    if forall k :: 0 <= k < |packets| ==> MergedAnswerFor(items, packets[k].id) {
      forall id | id in Expected(packets) ensures Some(id) in Seen(items, MergedId) {
        ExpectedExactly(packets, id);
        var k :| PacketFor(packets, id, k);
        MergedSeen(items, id);
      }
    }
  }

  lemma IdsApart(items: seq<Item<MergedClaim>>)
    requires forall i :: 0 <= i < |items| ==> items[i].Object?
    ensures DistinctIds(items, MergedId) <==> forall i, j :: 0 <= i < j < |items| ==> items[i].value.id != items[j].value.id
  {
    if DistinctIds(items, MergedId) {
      forall i, j | 0 <= i < j < |items| ensures items[i].value.id != items[j].value.id {
        assert MergedId(items[i].value) != MergedId(items[j].value);
      }
    }
  }

  lemma AnswersExactly(claims: List<Item<MergedClaim>>, packets: seq<Packet>, passes: nat)
    ensures GoodMergedClaims(claims, Expected(packets), passes) <==> claims.List? && MergedAnswers(claims.items, packets, passes)
  {
    hide MergedAnswer, GoodMergedClaim, Expected, Seen, MergedAnswerFor, CoversAll;
    if claims.List? {
      var items := claims.items;
      forall i | 0 <= i < |items|
        ensures MergedAnswer(items[i], packets, passes) <==> items[i].Object? && GoodMergedClaim(items[i].value, Expected(packets), passes)
      {
        AnswerExactly(items[i], packets, passes);
      }
      MergedCovered(items, packets);
      if forall i :: 0 <= i < |items| ==> items[i].Object? {
        IdsApart(items);
      }
    }
  }

  // ---------------------------------------------------------------------------
  // Counts
  // ---------------------------------------------------------------------------

  /** The claims in which a number of passes found fault. */
  function FlaggedBy(items: seq<Item<MergedClaim>>, low: int, high: int): set<nat>
  {
    set i | 0 <= i < |items| && items[i].Object? && items[i].value.flaggedIn.Int? && low <= items[i].value.flaggedIn.n <= high
  }

  lemma FlaggedByStep(items: seq<Item<MergedClaim>>, n: nat, low: int, high: int)
    requires n == |items| - 1 && items[n].Object? && items[n].value.flaggedIn.Int?
    ensures |FlaggedBy(items, low, high)| == |FlaggedBy(items[..n], low, high)| + if low <= items[n].value.flaggedIn.n <= high then 1 else 0
  {
    assert FlaggedBy(items, low, high) == FlaggedBy(items[..n], low, high) + if low <= items[n].value.flaggedIn.n <= high then {n} else {};
  }

  lemma {:induction false} FlagsCounted(items: seq<Item<MergedClaim>>, passes: nat, times: nat)
    requires forall i :: 0 <= i < |items| ==> items[i].Object? && items[i].value.flaggedIn.Int? && 0 <= items[i].value.flaggedIn.n <= passes
    requires times >= 1
    ensures |FlaggedItems(items)| == |FlaggedBy(items, 1, passes)|
    ensures FlaggedTimes(FlaggedItems(items), times) == |FlaggedBy(items, times, times)|
  {
    if items == [] {
      assert FlaggedBy(items, 1, passes) == {} && FlaggedBy(items, times, times) == {};
    } else {
      hide FlaggedBy;
      var n := |items| - 1;
      FlagsCounted(items[..n], passes, times);
      FlaggedByStep(items, n, 1, passes);
      FlaggedByStep(items, n, times, times);
      var before := FlaggedItems(items[..n]);
      assert (before + [items[n].value])[..|before|] == before;
      assert before + [] == before;
      assert FlaggedItems(items) == if items[n].value.flaggedIn.n > 0 then before + [items[n].value] else before;
    }
  }

  predicate CountsRight(m: Merged, items: seq<Item<MergedClaim>>, passes: nat)
  {
    && IsNumber(m.flaggedClaims, |FlaggedBy(items, 1, passes)|) && IsNumber(m.unanimousClaims, |FlaggedBy(items, passes, passes)|)
    && IsNumber(m.singlePassClaims, |FlaggedBy(items, 1, 1)|)
  }

  lemma CountsExactly(m: Merged, items: seq<Item<MergedClaim>>, passes: nat)
    requires passes >= 1
    requires forall i :: 0 <= i < |items| ==> items[i].Object? && items[i].value.flaggedIn.Int? && 0 <= items[i].value.flaggedIn.n <= passes
    ensures GoodCounts(items, passes, m.flaggedClaims, m.unanimousClaims, m.singlePassClaims) <==> CountsRight(m, items, passes)
  {
    hide FlaggedItems, FlaggedTimes, FlaggedBy, Equals, IsNumber;
    FlagsCounted(items, passes, passes);
    FlagsCounted(items, passes, 1);
    NumberExactly(m.flaggedClaims, |FlaggedBy(items, 1, passes)|);
    NumberExactly(m.unanimousClaims, |FlaggedBy(items, passes, passes)|);
    NumberExactly(m.singlePassClaims, |FlaggedBy(items, 1, 1)|);
  }

  // ---------------------------------------------------------------------------
  // The aggregate and the scope
  // ---------------------------------------------------------------------------

  /** The record of a pass: its number, and that it honoured its contract. */
  predicate RecordRight(item: Item<PassRecord>, pass: nat)
  {
    item.Object? && IsNumber(item.value.pass, pass) && item.value.reportValid == Yes
  }

  /** A valid record for each pass, in order, and a summary that agrees with them and with the bundle. */
  predicate AggregateRight(validation: Item<Aggregate>, bundle: Bundle, passes: nat)
  {
    && validation.Object? && validation.value.perPass.List? && |validation.value.perPass.items| == passes
    && (forall i :: 0 <= i < passes ==> RecordRight(validation.value.perPass.items[i], i + 1))
    && validation.value.invalidPasses == Some([]) && validation.value.reportValid == Yes
    && IsNumber(validation.value.claimsExpected, |set k | 0 <= k < |bundle.packets| :: bundle.packets[k].id|)
    && validation.value.deterministicClean == if bundle.deterministicClean then Yes else No
  }

  lemma {:induction false} ObjectsRight(items: seq<Item<PassRecord>>, passes: nat)
    requires |items| == passes
    ensures |Objects(items)| == passes <==> forall i :: 0 <= i < passes ==> items[i].Object?
    ensures (forall i :: 0 <= i < passes ==> items[i].Object?) ==> forall i :: 0 <= i < passes ==> Objects(items)[i] == items[i].value
    ensures |Objects(items)| <= passes
  {
    if items != [] {
      ObjectsRight(items[..passes - 1], passes - 1);
    }
  }

  lemma {:induction false} NoneInvalid(records: seq<PassRecord>)
    ensures InvalidPasses(records) == [] <==> forall i :: 0 <= i < |records| ==> records[i].reportValid == Yes
  {
    if records != [] {
      NoneInvalid(records[..|records| - 1]);
    }
  }

  lemma RecordsExactly(items: seq<Item<PassRecord>>, passes: nat)
    requires |items| == passes
    ensures NumbersInOrder(Objects(items), passes) && InvalidPasses(Objects(items)) == []
            <==> forall i :: 0 <= i < passes ==> RecordRight(items[i], i + 1)
  {
    hide Objects, InvalidPasses, Equals, IsNumber;
    ObjectsRight(items, passes);
    NoneInvalid(Objects(items));
    if forall i :: 0 <= i < passes ==> items[i].Object? {
      forall i | 0 <= i < passes ensures IsNumber(items[i].value.pass, i + 1) <==> Equals(Objects(items)[i].pass, i + 1) {
        NumberExactly(items[i].value.pass, i + 1);
      }
    }
  }

  lemma ExpectedCount(packets: seq<Packet>)
    ensures |Expected(packets)| == |set k | 0 <= k < |packets| :: packets[k].id|
  {
    hide Expected;
    var ids := set k | 0 <= k < |packets| :: packets[k].id;
    forall id ensures id in ids <==> id in Expected(packets) {
      ExpectedExactly(packets, id);
      if k :| 0 <= k < |packets| && packets[k].id == id {
        var last := LastOf(packets, k);
      }
    }
    assert Expected(packets).Keys == ids;
  }

  lemma AggregateExactly(validation: Item<Aggregate>, bundle: Bundle, passes: nat)
    requires passes >= 1
    ensures GoodAggregate(validation, bundle, passes) <==> AggregateRight(validation, bundle, passes)
  {
    hide RecordRight, NumbersInOrder, InvalidPasses, Objects, Expected, Equals, IsNumber;
    if validation.Object? && validation.value.perPass.List? && |validation.value.perPass.items| == passes {
      RecordsExactly(validation.value.perPass.items, passes);
      ExpectedCount(bundle.packets);
      NumberExactly(validation.value.claimsExpected, |Expected(bundle.packets)|);
    }
  }

  predicate ScopeRight(item: Item<MergedScope>, pass: nat)
  {
    item.Object? && IsNumber(item.value.pass, pass) && item.value.verdict.Known? && Filled(item.value.reason)
  }

  /** A scope review of every pass, in order; an older report keeps none. */
  predicate ScopesRight(scopes: Option<List<Item<MergedScope>>>, passes: nat)
  {
    scopes.Some? ==>
      scopes.value.List? && |scopes.value.items| == passes && forall i :: 0 <= i < passes ==> ScopeRight(scopes.value.items[i], i + 1)
  }

  lemma ScopesExactly(scopes: Option<List<Item<MergedScope>>>, passes: nat)
    ensures GoodScopes(scopes, passes) <==> ScopesRight(scopes, passes)
  {
    hide Filled, NonBlank, Equals, IsNumber;
    if scopes.Some? && scopes.value.List? {
      forall i | 0 <= i < |scopes.value.items| ensures ScopeRight(scopes.value.items[i], i + 1) <==> GoodScope(scopes.value.items[i], i + 1) {
        if scopes.value.items[i].Object? {
          NumberExactly(scopes.value.items[i].value.pass, i + 1);
          FilledExactly(scopes.value.items[i].value.reason);
        }
      }
    }
  }

  // ---------------------------------------------------------------------------
  // The contract
  // ---------------------------------------------------------------------------

  ghost predicate MergedRight(m: Merged, bundle: Bundle)
  {
    && bundle.bundleSha == Some(bundle.computedHash) && m.bundleSha == bundle.bundleSha && m.articleSha == bundle.articleSha
    && m.passes.Int? && m.passes.n >= 1
    && m.claims.List? && MergedAnswers(m.claims.items, bundle.packets, m.passes.n) && CountsRight(m, m.claims.items, m.passes.n)
    && OmissionsRight(m.omissions, bundle) && AggregateRight(m.validation, bundle, m.passes.n) && m.overall.Known?
    && m.provenance.List? && |m.provenance.items| == m.passes.n && ScopesRight(m.scopes, m.passes.n)
  }

  lemma FlagsInRange(items: seq<Item<MergedClaim>>, packets: seq<Packet>, passes: nat)
    requires MergedAnswers(items, packets, passes)
    ensures forall i :: 0 <= i < |items| ==> items[i].Object? && items[i].value.flaggedIn.Int? && 0 <= items[i].value.flaggedIn.n <= passes
  {
    hide FindingRight, IsNumber, Gravest, FoundIn, PacketFor;
    forall i | 0 <= i < |items| ensures items[i].Object? && items[i].value.flaggedIn.Int? && 0 <= items[i].value.flaggedIn.n <= passes {
      assert MergedAnswer(items[i], packets, passes);
    }
  }

  /** The merged validator has nothing to say exactly about the merged reports that keep this contract. */
  lemma MergedValidExactly(m: Merged, bundle: Bundle)
    ensures MergedFindings(m, bundle) == [] <==> MergedRight(m, bundle)
  {
    hide GoodMergedClaims, MergedAnswers, GoodCounts, CountsRight, OmissionsRight, GoodOmissions, GoodAggregate, AggregateRight,
         GoodScopes, ScopesRight, MergedFindings, Expected;
    MergedExact(m, bundle);
    OmissionsExactly(m.omissions, bundle);
    if m.passes.Int? && m.passes.n >= 1 {
      AnswersExactly(m.claims, bundle.packets, m.passes.n);
      AggregateExactly(m.validation, bundle, m.passes.n);
      ScopesExactly(m.scopes, m.passes.n);
      if m.claims.List? && MergedAnswers(m.claims.items, bundle.packets, m.passes.n) {
        FlagsInRange(m.claims.items, bundle.packets, m.passes.n);
        CountsExactly(m, m.claims.items, m.passes.n);
        assert Elements(m.claims) == m.claims.items;
      }
    }
  }
}
