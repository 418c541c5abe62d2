/** The merged report and its validator (src/memline/wiki/review_report.py). */
module MergedReport {
  import opened Strings
  import opened Sorting
  import opened ReviewReport

  datatype MergedFinding = MergedFinding(pass: Number, verdict: Word<Verdict>, confidence: Word<Confidence>,
                                         reason: Field, rewrite: Field, evidence: Refs)

  datatype MergedClaim = MergedClaim(id: Option<ClaimId>, verdict: Word<Verdict>, flaggedIn: Number, ofPasses: Number,
                                     findings: List<Item<MergedFinding>>)

  datatype MergedScope = MergedScope(pass: Number, verdict: Word<ScopeVerdict>, reason: Field)

  datatype PassRecord = PassRecord(pass: Number, reportValid: Flag, findings: seq<Finding>)

  datatype Aggregate = Aggregate(perPass: List<Item<PassRecord>>, invalidPasses: Option<seq<Number>>, reportValid: Flag,
                                 claimsExpected: Number, deterministicClean: Flag, scopeClean: Flag)

  datatype Merged = Merged(passes: Number, articleSha: Option<Hash>, bundleSha: Option<Hash>, overall: Word<Overall>,
                           claims: List<Item<MergedClaim>>, omissions: List<Item<Omission>>,
                           scopes: Option<List<Item<MergedScope>>>,
                           flaggedClaims: Number, unanimousClaims: Number, singlePassClaims: Number,
                           validation: Item<Aggregate>, provenance: List<Field>)

  /** An absent `validation` object. */
  const NO_AGGREGATE := Aggregate(NotAList, None, NotBool(false), NoNumber, NotBool(false), NotBool(false))

  function AsInt(x: Number): int
  {
    if x.Int? then x.n else if x.Truth? && x.b then 1 else 0
  }

  /** `x == n` */
  predicate Equals(x: Number, n: int)
  {
    !x.NoNumber? && AsInt(x) == n
  }

  /** An integer, no boolean, in the range. */
  predicate Within(x: Number, low: int, high: int)
  {
    x.Int? && low <= x.n <= high
  }

  function FlagOf(b: bool): Flag
  {
    if b then Yes else No
  }

  // ---------------------------------------------------------------------------
  // Verdict strictness
  // ---------------------------------------------------------------------------

  function Rank(v: Verdict): nat
  {
    match v
    case Supported => 0
    case Unverifiable => 1
    case PartiallySupported => 2
    case SupersededMisused => 3
    case Contradicted => 4
  }

  /** `max(verdicts, key=rank)`, or supported when there is none */
  function Strictest(verdicts: seq<Verdict>): Verdict
  {
    if verdicts == [] then Supported
    else
      var before := Strictest(verdicts[..|verdicts| - 1]);
      if Rank(verdicts[|verdicts| - 1]) > Rank(before) then verdicts[|verdicts| - 1] else before
  }

  /** The strictest verdict is among them and none is stricter. */
  lemma {:induction false} StrictestMeaning(verdicts: seq<Verdict>)
    ensures verdicts == [] ==> Strictest(verdicts) == Supported
    ensures verdicts != [] ==> Strictest(verdicts) in verdicts || Strictest(verdicts) == Supported
    ensures forall v :: v in verdicts ==> Rank(v) <= Rank(Strictest(verdicts))
  {
    if verdicts != [] {
      var n := |verdicts| - 1;
      StrictestMeaning(verdicts[..n]);
      assert forall v :: v in verdicts ==> v in verdicts[..n] || v == verdicts[n];
    }
  }

  /** The verdicts of the findings that carry a usable one. */
  function Verdicts(items: seq<Item<MergedFinding>>): seq<Verdict>
  {
    if items == [] then []
    else
      var last := items[|items| - 1];
      Verdicts(items[..|items| - 1])
      + if last.Object? && last.value.verdict.Known? && last.value.verdict.word != Supported then [last.value.verdict.word] else []
  }

  // ---------------------------------------------------------------------------
  // The findings inside one merged claim
  // ---------------------------------------------------------------------------

  function PassKey(f: MergedFinding): Option<int>
  {
    if f.pass.Int? then Some(f.pass.n) else None
  }

  function PassFindings(fs: seq<Finding>, f: MergedFinding, seen: set<Option<int>>, id: Option<ClaimId>, passes: nat): seq<Finding>
  {
    if !Within(f.pass, 1, passes) then fs + [MergedFindingBadPass(id)]
    else Add(fs, PassKey(f) in seen, MergedFindingDuplicatePass(id))
  }

  function ItemFindings(fs: seq<Finding>, item: Item<MergedFinding>, seen: set<Option<int>>, id: Option<ClaimId>,
                        passes: nat, allowed: set<string>): seq<Finding>
  {
    match item
    case NotObject => fs + [MergedFindingNotObject(id)]
    case Object(f) =>
      var f1 := PassFindings(fs, f, seen, id, passes);
      var f2 := Add(f1, f.verdict.Unknown? || f.verdict.word == Supported, MergedFindingBadVerdict(id));
      var f3 := Add(f2, f.confidence.Unknown?, ClaimReviewBadConfidence(id));
      var f4 := Add(f3, !NonBlank(f.reason), ClaimReviewReasonMissing(id));
      var f5 := Add(f4, !f.rewrite.Text?, ClaimReviewRewriteInvalid(id));
      Add(f5, !RefsWithin(f.evidence, allowed), EvidenceOutsidePacket(id))
  }

  function ItemsFindings(fs: seq<Finding>, items: seq<Item<MergedFinding>>, id: Option<ClaimId>,
                         passes: nat, allowed: set<string>): seq<Finding>
  {
    if items == [] then fs
    else
      var n := |items| - 1;
      ItemFindings(ItemsFindings(fs, items[..n], id, passes, allowed), items[n], Seen(items[..n], PassKey), id, passes, allowed)
  }

  predicate GoodFinding(f: MergedFinding, passes: nat, allowed: set<string>)
  {
    && Within(f.pass, 1, passes)
    && f.verdict.Known? && f.verdict.word != Supported
    && f.confidence.Known? && NonBlank(f.reason) && f.rewrite.Text? && RefsWithin(f.evidence, allowed)
  }

  predicate AllGoodFindings(items: seq<Item<MergedFinding>>, passes: nat, allowed: set<string>)
  {
    forall i :: 0 <= i < |items| ==> items[i].Object? && GoodFinding(items[i].value, passes, allowed)
  }

  lemma {:induction false} ItemsExact(fs: seq<Finding>, items: seq<Item<MergedFinding>>, id: Option<ClaimId>,
                                      passes: nat, allowed: set<string>)
    ensures ItemsFindings(fs, items, id, passes, allowed) == []
            <==> fs == [] && AllGoodFindings(items, passes, allowed) && DistinctIds(items, PassKey)
  {
    if items != [] {
      var n := |items| - 1;
      ItemsExact(fs, items[..n], id, passes, allowed);
      DistinctStep(items, n, PassKey);
      assert AllGoodFindings(items, passes, allowed) <==>
        AllGoodFindings(items[..n], passes, allowed) && items[n].Object? && GoodFinding(items[n].value, passes, allowed);
      ItemExact(ItemsFindings(fs, items[..n], id, passes, allowed), items[n], Seen(items[..n], PassKey), id, passes, allowed);
    }
  }

  lemma ItemExact(fs: seq<Finding>, item: Item<MergedFinding>, seen: set<Option<int>>, id: Option<ClaimId>,
                  passes: nat, allowed: set<string>)
    ensures ItemFindings(fs, item, seen, id, passes, allowed) == []
            <==> fs == [] && item.Object? && PassKey(item.value) !in seen && GoodFinding(item.value, passes, allowed)
  {
  }

  // ---------------------------------------------------------------------------
  // Merged claims
  // ---------------------------------------------------------------------------

  function MergedId(c: MergedClaim): Option<ClaimId>
  {
    c.id
  }

  function EntryFindings(fs: seq<Finding>, c: MergedClaim, passes: nat, allowed: set<string>): seq<Finding>
  {
    var items := Elements(c.findings);
    var f1 := Add(fs, c.verdict.Unknown?, ClaimReviewBadVerdict(c.id));
    var f2 := Add(f1, !Within(c.flaggedIn, 0, passes), BadFlaggedIn(c.id));
    var f3 := Add(f2, !Equals(c.ofPasses, passes), BadPassTotal(c.id));
    var f4 := Add(f3, c.findings.NotAList?, MergedFindingsMissing(c.id));
    var f5 := ItemsFindings(f4, items, c.id, passes, allowed);
    var f6 := Add(f5, c.flaggedIn.Int? && c.flaggedIn.n != |items|, FlagCountMismatch(c.id));
    Add(f6, c.verdict != Known(Strictest(Verdicts(items))), MergedVerdictMismatch(c.id))
  }

  function MergedClaimFindings(fs: seq<Finding>, item: Item<MergedClaim>, seen: set<Option<ClaimId>>,
                               expected: map<ClaimId, set<string>>, passes: nat): seq<Finding>
  {
    match item
    case NotObject => fs + [ClaimReviewNotObject]
    case Object(c) =>
      var f1 := Add(fs, c.id in seen, ClaimReviewDuplicate(c.id));
      if c.id.None? || c.id.value !in expected then f1 + [ClaimReviewUnknown(c.id)]
      else EntryFindings(f1, c, passes, expected[c.id.value])
  }

  function MergedClaimsFindings(fs: seq<Finding>, items: seq<Item<MergedClaim>>, expected: map<ClaimId, set<string>>,
                                passes: nat): seq<Finding>
  {
    if items == [] then fs
    else
      var n := |items| - 1;
      MergedClaimFindings(MergedClaimsFindings(fs, items[..n], expected, passes), items[n], Seen(items[..n], MergedId), expected, passes)
  }

  /** A merged claim: each finding comes from a different pass, it is flagged as often as it has findings,
      and its verdict is the strictest of theirs. */
  predicate GoodEntry(c: MergedClaim, passes: nat, allowed: set<string>)
  {
    && c.findings.List? && AllGoodFindings(c.findings.items, passes, allowed) && DistinctIds(c.findings.items, PassKey)
    && c.flaggedIn == Int(|c.findings.items|) && |c.findings.items| <= passes
    && Equals(c.ofPasses, passes)
    && c.verdict == Known(Strictest(Verdicts(c.findings.items)))
  }

  predicate GoodMergedClaim(c: MergedClaim, expected: map<ClaimId, set<string>>, passes: nat)
  {
    c.id.Some? && c.id.value in expected && GoodEntry(c, passes, expected[c.id.value])
  }

  predicate AllGoodMergedClaims(items: seq<Item<MergedClaim>>, expected: map<ClaimId, set<string>>, passes: nat)
  {
    forall i :: 0 <= i < |items| ==> items[i].Object? && GoodMergedClaim(items[i].value, expected, passes)
  }

  lemma EntryExact(fs: seq<Finding>, c: MergedClaim, passes: nat, allowed: set<string>)
    ensures EntryFindings(fs, c, passes, allowed) == [] <==> fs == [] && GoodEntry(c, passes, allowed)
  {
    var f1 := Add(fs, c.verdict.Unknown?, ClaimReviewBadVerdict(c.id));
    var f2 := Add(f1, !Within(c.flaggedIn, 0, passes), BadFlaggedIn(c.id));
    var f3 := Add(f2, !Equals(c.ofPasses, passes), BadPassTotal(c.id));
    ItemsExact(Add(f3, c.findings.NotAList?, MergedFindingsMissing(c.id)), Elements(c.findings), c.id, passes, allowed);
  }

  lemma GoodMergedStep(items: seq<Item<MergedClaim>>, n: nat, expected: map<ClaimId, set<string>>, passes: nat)
    requires n == |items| - 1
    ensures AllGoodMergedClaims(items, expected, passes)
            <==> AllGoodMergedClaims(items[..n], expected, passes) && items[n].Object?
                 && GoodMergedClaim(items[n].value, expected, passes)
  {
  }

  lemma {:induction false} MergedClaimsExact(fs: seq<Finding>, items: seq<Item<MergedClaim>>,
                                             expected: map<ClaimId, set<string>>, passes: nat)
    ensures MergedClaimsFindings(fs, items, expected, passes) == []
            <==> fs == [] && AllGoodMergedClaims(items, expected, passes) && DistinctIds(items, MergedId)
  {
    if items != [] {
      var n := |items| - 1;
      MergedClaimsExact(fs, items[..n], expected, passes);
      DistinctStep(items, n, MergedId);
      GoodMergedStep(items, n, expected, passes);
      MergedClaimExact(MergedClaimsFindings(fs, items[..n], expected, passes), items[n], Seen(items[..n], MergedId), expected, passes);
    }
  }

  lemma MergedClaimExact(fs: seq<Finding>, item: Item<MergedClaim>, seen: set<Option<ClaimId>>,
                         expected: map<ClaimId, set<string>>, passes: nat)
    ensures MergedClaimFindings(fs, item, seen, expected, passes) == []
            <==> fs == [] && item.Object? && item.value.id !in seen && GoodMergedClaim(item.value, expected, passes)
  {
    if item.Object? && item.value.id.Some? && item.value.id.value in expected {
      EntryExact(Add(fs, item.value.id in seen, ClaimReviewDuplicate(item.value.id)), item.value, passes, expected[item.value.id.value]);
    }
  }

  // ---------------------------------------------------------------------------
  // Counts
  // ---------------------------------------------------------------------------

  predicate IsFlagged(item: Item<MergedClaim>)
  {
    item.Object? && AsInt(item.value.flaggedIn) > 0
  }

  function FlaggedItems(items: seq<Item<MergedClaim>>): seq<MergedClaim>
  {
    if items == [] then []
    else FlaggedItems(items[..|items| - 1]) + if IsFlagged(items[|items| - 1]) then [items[|items| - 1].value] else []
  }

  function FlaggedTimes(flagged: seq<MergedClaim>, times: int): nat
  {
    if flagged == [] then 0
    else FlaggedTimes(flagged[..|flagged| - 1], times) + if Equals(flagged[|flagged| - 1].flaggedIn, times) then 1 else 0
  }

  // ---------------------------------------------------------------------------
  // The aggregate and the scope reviews
  // ---------------------------------------------------------------------------

  /** The pass numbers of the records are 1, 2, … */
  predicate NumbersInOrder(records: seq<PassRecord>, passes: nat)
  {
    |records| == passes && forall i :: 0 <= i < |records| ==> Equals(records[i].pass, i + 1)
  }

  function InvalidPasses(records: seq<PassRecord>): seq<Number>
  {
    if records == [] then []
    else
      InvalidPasses(records[..|records| - 1])
      + if records[|records| - 1].reportValid.Yes? then [] else [records[|records| - 1].pass]
  }

  function AggregateOf(m: Merged): Aggregate
  {
    if m.validation.Object? then m.validation.value else NO_AGGREGATE
  }

  /** The per-pass records as far as the validator uses them. */
  function UsedRecords(a: Aggregate, passes: nat): seq<Item<PassRecord>>
  {
    if a.perPass.NotAList? || |a.perPass.items| != passes then [] else a.perPass.items
  }

  function PerPassFindings(fs: seq<Finding>, a: Aggregate, passes: nat): seq<Finding>
  {
    if a.perPass.NotAList? || |a.perPass.items| != passes then fs + [PerPassIncomplete]
    else Add(fs, !NumbersInOrder(Objects(a.perPass.items), passes), PerPassNumbersInvalid)
  }

  function AggregateFindings(fs: seq<Finding>, m: Merged, bundle: Bundle, passes: nat): seq<Finding>
  {
    var a := AggregateOf(m);
    var records := UsedRecords(a, passes);
    var invalid := InvalidPasses(Objects(records));
    var valid := records != [] && invalid == [];
    var f1 := Add(fs, m.validation.NotObject?, MergedValidationMissing);
    var f2 := PerPassFindings(f1, a, passes);
    var f3 := Add(f2, a.invalidPasses != Some(invalid), InvalidPassesMismatch);
    var f4 := Add(f3, a.reportValid != FlagOf(valid), ReportValidMismatch);
    var f5 := Add(f4, !valid, ContainsInvalidPasses);
    var f6 := Add(f5, !Equals(a.claimsExpected, |Expected(bundle.packets)|), ClaimsExpectedMismatch);
    Add(f6, a.deterministicClean != FlagOf(bundle.deterministicClean), DeterministicStatusMismatch)
  }

  predicate GoodAggregate(validation: Item<Aggregate>, bundle: Bundle, passes: nat)
  {
    validation.Object? &&
    var a := validation.value;
    && a.perPass.List? && |a.perPass.items| == passes >= 1
    && NumbersInOrder(Objects(a.perPass.items), passes)
    && InvalidPasses(Objects(a.perPass.items)) == []
    && a.invalidPasses == Some([]) && a.reportValid == Yes
    && Equals(a.claimsExpected, |Expected(bundle.packets)|)
    && a.deterministicClean == FlagOf(bundle.deterministicClean)
  }

  lemma AggregateExact(fs: seq<Finding>, m: Merged, bundle: Bundle, passes: nat)
    ensures AggregateFindings(fs, m, bundle, passes) == [] <==> fs == [] && GoodAggregate(m.validation, bundle, passes)
  {
  }

  predicate GoodScope(item: Item<MergedScope>, pass: nat)
  {
    item.Object? && Equals(item.value.pass, pass) && item.value.verdict.Known? && NonBlank(item.value.reason)
  }

  function ScopesFindings(fs: seq<Finding>, items: seq<Item<MergedScope>>): seq<Finding>
  {
    if items == [] then fs
    else Add(ScopesFindings(fs, items[..|items| - 1]), !GoodScope(items[|items| - 1], |items|), MergedScopeReviewInvalid(|items|))
  }

  function ScopeFindings(fs: seq<Finding>, scopes: Option<List<Item<MergedScope>>>, passes: nat): seq<Finding>
  {
    if scopes.None? then fs
    else if scopes.value.NotAList? || |scopes.value.items| != passes then fs + [ScopeReviewsIncomplete]
    else ScopesFindings(fs, scopes.value.items)
  }

  /** Either every pass has its scope review, or, in an older report, none is kept. */
  predicate GoodScopes(scopes: Option<List<Item<MergedScope>>>, passes: nat)
  {
    scopes.None? ||
    (scopes.value.List? && |scopes.value.items| == passes && AllGoodScopes(scopes.value.items))
  }

  predicate AllGoodScopes(items: seq<Item<MergedScope>>)
  {
    forall i :: 0 <= i < |items| ==> GoodScope(items[i], i + 1)
  }

  lemma {:induction false} ScopesExact(fs: seq<Finding>, items: seq<Item<MergedScope>>)
    ensures ScopesFindings(fs, items) == [] <==> fs == [] && AllGoodScopes(items)
  {
    if items != [] {
      var n := |items| - 1;
      ScopesExact(fs, items[..n]);
      assert AllGoodScopes(items) <==> AllGoodScopes(items[..n]) && GoodScope(items[n], n + 1);
    }
  }

  // ---------------------------------------------------------------------------
  // The merged validator
  // ---------------------------------------------------------------------------

  /** The pass count as far as the validator trusts it. */
  function PassesOf(m: Merged): nat
  {
    if m.passes.Int? && m.passes.n >= 1 then m.passes.n else 0
  }

  function CountFindings(fs: seq<Finding>, m: Merged, passes: nat): seq<Finding>
  {
    var flagged := FlaggedItems(Elements(m.claims));
    var f1 := Add(fs, !Equals(m.flaggedClaims, |flagged|), FlaggedClaimsMismatch);
    var f2 := Add(f1, !Equals(m.unanimousClaims, FlaggedTimes(flagged, passes)), UnanimousClaimsMismatch);
    Add(f2, !Equals(m.singlePassClaims, FlaggedTimes(flagged, 1)), SinglePassClaimsMismatch)
  }

  function AllMergedClaimFindings(fs: seq<Finding>, claims: List<Item<MergedClaim>>, expected: map<ClaimId, set<string>>,
                                  passes: nat): seq<Finding>
  {
    var missing := Missing(expected, Seen(Elements(claims), MergedId));
    var f1 := Add(fs, claims.NotAList?, ClaimReviewsMissing);
    Add(MergedClaimsFindings(f1, Elements(claims), expected, passes), missing != {}, ClaimReviewsIncomplete(Sorted(missing)))
  }

  function MergedFindings(m: Merged, bundle: Bundle): seq<Finding>
  {
    var passes := PassesOf(m);
    var f1 := Add(HashFindings(bundle, m.articleSha, m.bundleSha), passes == 0, BadPassCount);
    var f2 := AllMergedClaimFindings(f1, m.claims, Expected(bundle.packets), passes);
    var f3 := CountFindings(f2, m, passes);
    var f4 := OmissionReviewFindings(f3, m.omissions, bundle);
    var f5 := AggregateFindings(f4, m, bundle, passes);
    var f6 := Add(f5, m.overall.Unknown?, OverallVerdictInvalid);
    var f7 := Add(f6, m.provenance.NotAList? || |m.provenance.items| != passes, ProvenanceIncomplete);
    ScopeFindings(f7, m.scopes, passes)
  }

  predicate GoodMergedClaims(claims: List<Item<MergedClaim>>, expected: map<ClaimId, set<string>>, passes: nat)
  {
    && claims.List? && AllGoodMergedClaims(claims.items, expected, passes) && DistinctIds(claims.items, MergedId)
    && CoversAll(Seen(claims.items, MergedId), expected)
  }

  predicate GoodCounts(claims: seq<Item<MergedClaim>>, passes: nat, flaggedClaims: Number, unanimous: Number, singlePass: Number)
  {
    var flagged := FlaggedItems(claims);
    && Equals(flaggedClaims, |flagged|) && Equals(unanimous, FlaggedTimes(flagged, passes))
    && Equals(singlePass, FlaggedTimes(flagged, 1))
  }

  /** The contract of a merged report. */
  predicate WellMerged(m: Merged, bundle: Bundle)
  {
    && bundle.bundleSha == Some(bundle.computedHash) && m.articleSha == bundle.articleSha && m.bundleSha == bundle.bundleSha
    && m.passes.Int? && m.passes.n >= 1
    && GoodMergedClaims(m.claims, Expected(bundle.packets), m.passes.n)
    && GoodCounts(Elements(m.claims), m.passes.n, m.flaggedClaims, m.unanimousClaims, m.singlePassClaims)
    && GoodOmissions(m.omissions, bundle)
    && GoodAggregate(m.validation, bundle, m.passes.n)
    && m.overall.Known?
    && m.provenance.List? && |m.provenance.items| == m.passes.n
    && GoodScopes(m.scopes, m.passes.n)
  }

  lemma AllMergedClaimsExact(fs: seq<Finding>, claims: List<Item<MergedClaim>>, expected: map<ClaimId, set<string>>, passes: nat)
    ensures AllMergedClaimFindings(fs, claims, expected, passes) == [] <==> fs == [] && GoodMergedClaims(claims, expected, passes)
  {
    MergedClaimsExact(Add(fs, claims.NotAList?, ClaimReviewsMissing), Elements(claims), expected, passes);
    MissingNone(Seen(Elements(claims), MergedId), expected);
  }

  lemma HashExact(bundle: Bundle, articleSha: Option<Hash>, bundleSha: Option<Hash>)
    ensures HashFindings(bundle, articleSha, bundleSha) == []
            <==> bundle.bundleSha == Some(bundle.computedHash) && articleSha == bundle.articleSha && bundleSha == bundle.bundleSha
  {
  }

  lemma CountExact(fs: seq<Finding>, m: Merged, passes: nat)
    ensures CountFindings(fs, m, passes) == []
            <==> fs == [] && GoodCounts(Elements(m.claims), passes, m.flaggedClaims, m.unanimousClaims, m.singlePassClaims)
  {
    hide FlaggedItems, FlaggedTimes, Equals;
  }

  lemma ScopeExact(fs: seq<Finding>, scopes: Option<List<Item<MergedScope>>>, passes: nat)
    ensures ScopeFindings(fs, scopes, passes) == [] <==> fs == [] && GoodScopes(scopes, passes)
  {
    if scopes.Some? && scopes.value.List? {
      ScopesExact(fs, scopes.value.items);
    }
  }

  /** The merged validator reports nothing exactly for the well-formed merged reports. */
  lemma MergedExact(m: Merged, bundle: Bundle)
    ensures MergedFindings(m, bundle) == [] <==> WellMerged(m, bundle)
  {
    hide HashFindings, AllMergedClaimFindings, CountFindings, OmissionReviewFindings, AggregateFindings, ScopeFindings,
         GoodMergedClaims, GoodCounts, GoodOmissions, GoodAggregate, GoodScopes, Expected;
    var passes := PassesOf(m);
    HashExact(bundle, m.articleSha, m.bundleSha);
    var f1 := Add(HashFindings(bundle, m.articleSha, m.bundleSha), passes == 0, BadPassCount);
    AllMergedClaimsExact(f1, m.claims, Expected(bundle.packets), passes);
    var f2 := AllMergedClaimFindings(f1, m.claims, Expected(bundle.packets), passes);
    CountExact(f2, m, passes);
    var f3 := CountFindings(f2, m, passes);
    OmissionReviewsExact(f3, m.omissions, bundle);
    var f4 := OmissionReviewFindings(f3, m.omissions, bundle);
    AggregateExact(f4, m, bundle, passes);
    var f5 := AggregateFindings(f4, m, bundle, passes);
    var f6 := Add(f5, m.overall.Unknown?, OverallVerdictInvalid);
    var f7 := Add(f6, m.provenance.NotAList? || |m.provenance.items| != passes, ProvenanceIncomplete);
    ScopeExact(f7, m.scopes, passes);
  }

  // ---------------------------------------------------------------------------
  // The loops
  // ---------------------------------------------------------------------------

  method CheckFinding(fs: seq<Finding>, f: MergedFinding, seen: set<Option<int>>, id: Option<ClaimId>, passes: nat,
                      allowed: set<string>) returns (findings: seq<Finding>)
    ensures findings == ItemFindings(fs, Object(f), seen, id, passes, allowed)
  {
    findings := fs;
    if !Within(f.pass, 1, passes) {
      findings := findings + [MergedFindingBadPass(id)];
    } else if PassKey(f) in seen {
      findings := findings + [MergedFindingDuplicatePass(id)];
    }
    if f.verdict.Unknown? || f.verdict.word == Supported {
      findings := findings + [MergedFindingBadVerdict(id)];
    }
    if f.confidence.Unknown? {
      findings := findings + [ClaimReviewBadConfidence(id)];
    }
    if !NonBlank(f.reason) {
      findings := findings + [ClaimReviewReasonMissing(id)];
    }
    if !f.rewrite.Text? {
      findings := findings + [ClaimReviewRewriteInvalid(id)];
    }
    if !RefsWithin(f.evidence, allowed) {
      findings := findings + [EvidenceOutsidePacket(id)];
    }
  }

  /** One more finding and the strictest verdict. */
  lemma StrictestStep(items: seq<Item<MergedFinding>>, n: nat)
    requires n == |items| - 1
    ensures var before := Strictest(Verdicts(items[..n]));
            Strictest(Verdicts(items)) ==
            if items[n].Object? && items[n].value.verdict.Known? && items[n].value.verdict.word != Supported
               && Rank(items[n].value.verdict.word) > Rank(before)
            then items[n].value.verdict.word else before
  {
    var vs := Verdicts(items[..n]);
    if items[n].Object? && items[n].value.verdict.Known? && items[n].value.verdict.word != Supported {
      var w := items[n].value.verdict.word;
      assert Verdicts(items) == vs + [w];
      assert (vs + [w])[..|vs + [w]| - 1] == vs;
    } else {
      assert Verdicts(items) == vs + [];
      assert Verdicts(items) == vs;
    }
  }

  /** The inner loop: the findings of one claim and the strictest of their verdicts. */
  method CheckFindings(fs: seq<Finding>, items: seq<Item<MergedFinding>>, id: Option<ClaimId>, passes: nat, allowed: set<string>)
    returns (findings: seq<Finding>, strictest: Verdict)
    ensures findings == ItemsFindings(fs, items, id, passes, allowed)
    ensures strictest == Strictest(Verdicts(items))
  {
    findings, strictest := fs, Supported;
    var seen: set<Option<int>> := {};
    for k := 0 to |items|
      invariant findings == ItemsFindings(fs, items[..k], id, passes, allowed)
      invariant seen == Seen(items[..k], PassKey)
      invariant strictest == Strictest(Verdicts(items[..k]))
    {
      hide Seen, Strictest, ItemFindings;
      assert items[..k + 1][..k] == items[..k];
      SeenGrows(items, k, PassKey);
      StrictestStep(items[..k + 1], k);
      if items[k].NotObject? {
        findings := findings + [MergedFindingNotObject(id)];
      } else {
        var f := items[k].value;
        findings := CheckFinding(findings, f, seen, id, passes, allowed);
        if f.verdict.Known? && f.verdict.word != Supported && Rank(f.verdict.word) > Rank(strictest) {
          strictest := f.verdict.word;
        }
        seen := seen + {PassKey(f)};
      }
    }
    assert items[..|items|] == items;
  }

  method CheckMergedClaim(fs: seq<Finding>, item: Item<MergedClaim>, seen: set<Option<ClaimId>>,
                          expected: map<ClaimId, set<string>>, passes: nat) returns (findings: seq<Finding>)
    ensures findings == MergedClaimFindings(fs, item, seen, expected, passes)
  {
    findings := fs;
    if item.NotObject? {
      return findings + [ClaimReviewNotObject];
    }
    var c := item.value;
    if c.id in seen {
      findings := findings + [ClaimReviewDuplicate(c.id)];
    }
    if c.id.None? || c.id.value !in expected {
      return findings + [ClaimReviewUnknown(c.id)];
    }
    if c.verdict.Unknown? {
      findings := findings + [ClaimReviewBadVerdict(c.id)];
    }
    if !Within(c.flaggedIn, 0, passes) {
      findings := findings + [BadFlaggedIn(c.id)];
    }
    if !Equals(c.ofPasses, passes) {
      findings := findings + [BadPassTotal(c.id)];
    }
    if c.findings.NotAList? {
      findings := findings + [MergedFindingsMissing(c.id)];
    }
    var items := Elements(c.findings);
    var strictest;
    findings, strictest := CheckFindings(findings, items, c.id, passes, expected[c.id.value]);
    if c.flaggedIn.Int? && c.flaggedIn.n != |items| {
      findings := findings + [FlagCountMismatch(c.id)];
    }
    if c.verdict != Known(strictest) {
      findings := findings + [MergedVerdictMismatch(c.id)];
    }
  }

  method CheckMergedClaims(fs: seq<Finding>, claims: List<Item<MergedClaim>>, expected: map<ClaimId, set<string>>, passes: nat)
    returns (findings: seq<Finding>)
    ensures findings == AllMergedClaimFindings(fs, claims, expected, passes)
  {
    var items := Elements(claims);
    findings := if claims.NotAList? then fs + [ClaimReviewsMissing] else fs;
    ghost var before := findings;
    var seen: set<Option<ClaimId>> := {};
    for k := 0 to |items|
      invariant findings == MergedClaimsFindings(before, items[..k], expected, passes)
      invariant seen == Seen(items[..k], MergedId)
    {
      hide Seen, MergedClaimFindings;
      assert items[..k + 1][..k] == items[..k];
      SeenGrows(items, k, MergedId);
      findings := CheckMergedClaim(findings, items[k], seen, expected, passes);
      if items[k].Object? {
        seen := seen + {MergedId(items[k].value)};
      }
    }
    assert items[..|items|] == items;
    var missing := Missing(expected, seen);
    if missing != {} {
      findings := findings + [ClaimReviewsIncomplete(Sorted(missing))];
    }
  }

  method CheckScopes(fs: seq<Finding>, items: seq<Item<MergedScope>>) returns (findings: seq<Finding>)
    ensures findings == ScopesFindings(fs, items)
  {
    findings := fs;
    for k := 0 to |items|
      invariant findings == ScopesFindings(fs, items[..k])
    {
      assert items[..k + 1][..k] == items[..k];
      if !GoodScope(items[k], k + 1) {
        findings := findings + [MergedScopeReviewInvalid(k + 1)];
      }
    }
    assert items[..|items|] == items;
  }

  /** `validate_merged_review_report`: its findings, and the contract they stand for. */
  method ValidateMergedReviewReport(m: Merged, bundle: Bundle) returns (findings: seq<Finding>)
    ensures findings == MergedFindings(m, bundle)
    ensures findings == [] <==> WellMerged(m, bundle)
  {
    MergedExact(m, bundle);
    hide WellMerged;
    findings := HashFindings(bundle, m.articleSha, m.bundleSha);
    var passes := PassesOf(m);
    if passes == 0 {
      findings := findings + [BadPassCount];
    }
    findings := CheckMergedClaims(findings, m.claims, Expected(bundle.packets), passes);
    findings := CountFindings(findings, m, passes);
    findings := ValidateOmissionReviews(findings, m.omissions, bundle);
    findings := AggregateFindings(findings, m, bundle, passes);
    if m.overall.Unknown? {
      findings := findings + [OverallVerdictInvalid];
    }
    if m.provenance.NotAList? || |m.provenance.items| != passes {
      findings := findings + [ProvenanceIncomplete];
    }
    if m.scopes.Some? {
      if m.scopes.value.NotAList? || |m.scopes.value.items| != passes {
        findings := findings + [ScopeReviewsIncomplete];
      } else {
        findings := CheckScopes(findings, m.scopes.value.items);
      }
    }
  }
}
