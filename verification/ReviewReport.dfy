/** The review report and what is wrong with it (src/memline/wiki/review_report.py). A report is parsed
    JSON, so every part can be missing or of the wrong type; the datatypes below keep that apart. */
module ReviewReport {
  import opened Strings
  import opened Sorting

  type ClaimId = string
  type Hash = string

  /** A JSON value where a text is expected. */
  datatype Field = Absent | Text(text: string) | NotText

  /** A JSON value where a word of a closed set is expected. */
  datatype Word<T> = Known(word: T) | Unknown(raw: Field)

  datatype Item<T> = NotObject | Object(value: T)

  /** A JSON value where a list is expected; missing and null are NotAList. */
  datatype List<T> = NotAList | List(items: seq<T>)

  /** `evidence_refs`: nothing (or any falsy value), something that is no list, or a list. */
  datatype Refs = NoRefs | BadRefs | Refs(refs: seq<Field>)

  /** `article_quotes`: null, falsy but no list, truthy but no list, or a list. */
  datatype Quotes = NoQuotes | FalsyQuotes | BadQuotes | Quotes(quotes: seq<Field>)

  /** A JSON value where a number is expected; Python's booleans compare equal to 0 and 1. */
  datatype Number = NoNumber | Int(n: int) | Truth(b: bool)

  datatype Flag = Yes | No | NotBool(truthy: bool)

  datatype Verdict = Supported | PartiallySupported | Contradicted | Unverifiable | SupersededMisused
  datatype ScopeVerdict = InScope | MinorDrift | MajorDrift | UnverifiableScope
  datatype Overall = Pass | Revise | Reject
  datatype Confidence = High | Medium | Low
  datatype Severity = Info | Warning | Error | Critical

  datatype ClaimReview = ClaimReview(id: Option<ClaimId>, verdict: Word<Verdict>, confidence: Word<Confidence>,
                                     reason: Field, rewrite: Field, evidence: Refs)

  datatype Omission = Omission(sensitivity: bool, severity: Word<Severity>, finding: Field, evidence: Refs,
                               quotes: Quotes, location: Field, pass: Number)

  datatype ScopeReview = ScopeReview(verdict: Word<ScopeVerdict>, reason: Field)

  datatype Packet = Packet(id: ClaimId, citations: seq<string>)

  /** `computedHash` is the hash of the bundle's content as it stands. */
  datatype Bundle = Bundle(articleSha: Option<Hash>, bundleSha: Option<Hash>, computedHash: Hash, article: string,
                           packets: seq<Packet>, uncited: seq<string>, deterministicClean: bool)

  datatype Report = Report(articleSha: Option<Hash>, bundleSha: Option<Hash>, summary: Field,
                           claims: List<Item<ClaimReview>>, omissions: List<Item<Omission>>,
                           scope: Item<ScopeReview>, overall: Word<Overall>,
                           validation: Option<Validation>, provenance: Field)

  datatype Finding =
    | BundleHashInvalid
    | ArticleHashMismatch
    | BundleHashMismatch
    | SummaryMissing
    | ClaimReviewsMissing
    | ClaimReviewNotObject
    | ClaimReviewDuplicate(id: Option<ClaimId>)
    | ClaimReviewUnknown(id: Option<ClaimId>)
    | ClaimReviewBadVerdict(id: Option<ClaimId>)
    | ClaimReviewBadConfidence(id: Option<ClaimId>)
    | ClaimReviewReasonMissing(id: Option<ClaimId>)
    | ClaimReviewRewriteInvalid(id: Option<ClaimId>)
    | EvidenceOutsidePacket(id: Option<ClaimId>)
    | SupportedWithoutEvidence(id: Option<ClaimId>)
    | ClaimReviewsIncomplete(missing: seq<ClaimId>)
    | ScopeReviewInvalid
    | OverallVerdictInvalid
    | OmissionReviewsMissing
    | OmissionNotObject(index: nat)
    | OmissionBadSeverity(index: nat)
    | OmissionFindingMissing(index: nat)
    | OmissionUnknownEvidence(index: nat)
    | SensitivityWithoutQuotes(index: nat)
    | QuotesNotStrings(index: nat)
    | QuoteNotInArticle(index: nat, quote: string)
    // merged reports only
    | BadPassCount
    | BadFlaggedIn(id: Option<ClaimId>)
    | BadPassTotal(id: Option<ClaimId>)
    | MergedFindingsMissing(id: Option<ClaimId>)
    | MergedFindingNotObject(id: Option<ClaimId>)
    | MergedFindingBadPass(id: Option<ClaimId>)
    | MergedFindingDuplicatePass(id: Option<ClaimId>)
    | MergedFindingBadVerdict(id: Option<ClaimId>)
    | FlagCountMismatch(id: Option<ClaimId>)
    | MergedVerdictMismatch(id: Option<ClaimId>)
    | FlaggedClaimsMismatch
    | UnanimousClaimsMismatch
    | SinglePassClaimsMismatch
    | MergedValidationMissing
    | PerPassIncomplete
    | PerPassNumbersInvalid
    | InvalidPassesMismatch
    | ReportValidMismatch
    | ContainsInvalidPasses
    | ClaimsExpectedMismatch
    | DeterministicStatusMismatch
    | ProvenanceIncomplete
    | ScopeReviewsIncomplete
    | MergedScopeReviewInvalid(pass: nat)

  datatype Validation = Validation(findings: seq<Finding>, reportValid: bool, deterministicClean: bool,
                                   semanticClean: bool, omissionClean: bool, scopeClean: bool,
                                   claimsExpected: nat, clean: bool)

  /** `if condition: findings.append(finding)` */
  function Add(findings: seq<Finding>, condition: bool, finding: Finding): (r: seq<Finding>)
    ensures r == [] <==> findings == [] && !condition
  {
    if condition then findings + [finding] else findings
  }

  predicate NonBlank(f: Field)
  {
    f.Text? && !Blank(f.text)
  }

  function Elements<T>(l: List<T>): seq<T>
  {
    if l.List? then l.items else []
  }

  // ---------------------------------------------------------------------------
  // What the bundle allows
  // ---------------------------------------------------------------------------

  function CitedRefs(p: Packet): set<string>
  {
    set ref | ref in p.citations && ref != ""
  }

  /** The dictionary of packets by claim id; a repeated id keeps the last packet. */
  function Expected(packets: seq<Packet>): map<ClaimId, set<string>>
  {
    if packets == [] then map[]
    else Expected(packets[..|packets| - 1])[packets[|packets| - 1].id := CitedRefs(packets[|packets| - 1])]
  }

  function KnownRefs(bundle: Bundle): set<string>
  {
    (set ref | ref in bundle.uncited) + (set i, ref | 0 <= i < |bundle.packets| && ref in CitedRefs(bundle.packets[i]) :: ref)
  }

  predicate RefsWithin(refs: Refs, allowed: set<string>)
  {
    !refs.BadRefs? && (refs.Refs? ==> forall i :: 0 <= i < |refs.refs| ==> refs.refs[i].Text? && refs.refs[i].text in allowed)
  }

  predicate HasRefs(refs: Refs)
  {
    refs.BadRefs? || (refs.Refs? && refs.refs != [])
  }

  /** `needle in hay` for texts */
  predicate Occurs(needle: string, hay: string)
  {
    exists i :: 0 <= i <= |hay| - |needle| && At(needle, hay, i)
  }

  // ---------------------------------------------------------------------------
  // Omissions
  // ---------------------------------------------------------------------------

  predicate HasQuotes(q: Quotes)
  {
    q.BadQuotes? || (q.Quotes? && q.quotes != [])
  }

  predicate AssertsLeak(o: Omission)
  {
    o.sensitivity && o.severity.Known? && o.severity.word != Info
  }

  predicate AllTexts(s: seq<Field>)
  {
    forall i :: 0 <= i < |s| ==> s[i].Text?
  }

  function QuoteFindings(fs: seq<Finding>, quotes: seq<Field>, article: string, index: nat): seq<Finding>
    requires AllTexts(quotes)
  {
    if quotes == [] then fs
    else
      var n := |quotes| - 1;
      Add(QuoteFindings(fs, quotes[..n], article, index), !Occurs(quotes[n].text, article), QuoteNotInArticle(index, quotes[n].text))
  }

  function OmissionFindings(fs: seq<Finding>, item: Item<Omission>, known: set<string>, article: string, index: nat): seq<Finding>
  {
    match item
    case NotObject => fs + [OmissionNotObject(index)]
    case Object(o) =>
      var f1 := Add(fs, o.severity.Unknown?, OmissionBadSeverity(index));
      var f2 := Add(f1, !NonBlank(o.finding), OmissionFindingMissing(index));
      var f3 := Add(f2, !RefsWithin(o.evidence, known), OmissionUnknownEvidence(index));
      if AssertsLeak(o) && !HasQuotes(o.quotes) then f3 + [SensitivityWithoutQuotes(index)]
      else if o.quotes.NoQuotes? then f3
      else if !o.quotes.Quotes? || !AllTexts(o.quotes.quotes) then f3 + [QuotesNotStrings(index)]
      else QuoteFindings(f3, o.quotes.quotes, article, index)
  }

  function OmissionsFindings(fs: seq<Finding>, items: seq<Item<Omission>>, known: set<string>, article: string): seq<Finding>
  {
    if items == [] then fs
    else
      var n := |items| - 1;
      OmissionFindings(OmissionsFindings(fs, items[..n], known, article), items[n], known, article, n)
  }

  /** The findings `fs` so far, and then those of the omission records. */
  function OmissionReviewFindings(fs: seq<Finding>, omissions: List<Item<Omission>>, bundle: Bundle): seq<Finding>
  {
    if omissions.NotAList? then fs + [OmissionReviewsMissing]
    else OmissionsFindings(fs, omissions.items, KnownRefs(bundle), bundle.article)
  }

  predicate GoodOmission(o: Omission, known: set<string>, article: string)
  {
    && o.severity.Known? && NonBlank(o.finding) && RefsWithin(o.evidence, known)
    && (o.sensitivity && o.severity.word != Info ==> HasQuotes(o.quotes))
    && (o.quotes.NoQuotes? ||
        (o.quotes.Quotes? && forall i :: 0 <= i < |o.quotes.quotes| ==>
           o.quotes.quotes[i].Text? && Occurs(o.quotes.quotes[i].text, article)))
  }

  predicate GoodOmissions(omissions: List<Item<Omission>>, bundle: Bundle)
  {
    omissions.List? && AllGoodOmissions(omissions.items, KnownRefs(bundle), bundle.article)
  }

  lemma {:induction false} QuotesExact(fs: seq<Finding>, quotes: seq<Field>, article: string, index: nat)
    requires AllTexts(quotes)
    ensures QuoteFindings(fs, quotes, article, index) == []
            <==> fs == [] && forall i :: 0 <= i < |quotes| ==> Occurs(quotes[i].text, article)
  {
    if quotes != [] {
      QuotesExact(fs, quotes[..|quotes| - 1], article, index);
    }
  }

  lemma OmissionExact(fs: seq<Finding>, item: Item<Omission>, known: set<string>, article: string, index: nat)
    ensures OmissionFindings(fs, item, known, article, index) == []
            <==> fs == [] && item.Object? && GoodOmission(item.value, known, article)
  {
    if item.Object? {
      var o := item.value;
      if o.quotes.Quotes? && AllTexts(o.quotes.quotes) {
        var f1 := Add(fs, o.severity.Unknown?, OmissionBadSeverity(index));
        var f2 := Add(f1, !NonBlank(o.finding), OmissionFindingMissing(index));
        var f3 := Add(f2, !RefsWithin(o.evidence, known), OmissionUnknownEvidence(index));
        QuotesExact(f3, o.quotes.quotes, article, index);
      }
    }
  }

  predicate AllGoodOmissions(items: seq<Item<Omission>>, known: set<string>, article: string)
  {
    forall i :: 0 <= i < |items| ==> items[i].Object? && GoodOmission(items[i].value, known, article)
  }

  lemma {:induction false} OmissionsExact(fs: seq<Finding>, items: seq<Item<Omission>>, known: set<string>, article: string)
    ensures OmissionsFindings(fs, items, known, article) == [] <==> fs == [] && AllGoodOmissions(items, known, article)
  {
    if items != [] {
      var n := |items| - 1;
      OmissionsExact(fs, items[..n], known, article);
      OmissionExact(OmissionsFindings(fs, items[..n], known, article), items[n], known, article, n);
    }
  }

  /** The omission part of both validators accepts exactly the well-formed lists. */
  lemma OmissionReviewsExact(fs: seq<Finding>, omissions: List<Item<Omission>>, bundle: Bundle)
    ensures OmissionReviewFindings(fs, omissions, bundle) == [] <==> fs == [] && GoodOmissions(omissions, bundle)
  {
    if omissions.List? {
      OmissionsExact(fs, omissions.items, KnownRefs(bundle), bundle.article);
    }
  }

  // ---------------------------------------------------------------------------
  // Claim reviews of a single pass
  // ---------------------------------------------------------------------------

  function ReviewId(c: ClaimReview): Option<ClaimId>
  {
    c.id
  }

  /** The keys (claim ids, pass numbers) of the items that are objects. */
  function Seen<T, K(==)>(items: seq<Item<T>>, idOf: T -> Option<K>): set<Option<K>>
  {
    set i | 0 <= i < |items| && items[i].Object? :: idOf(items[i].value)
  }

  function ClaimFindings(fs: seq<Finding>, item: Item<ClaimReview>, seen: set<Option<ClaimId>>,
                         expected: map<ClaimId, set<string>>): seq<Finding>
  {
    match item
    case NotObject => fs + [ClaimReviewNotObject]
    case Object(c) =>
      var f1 := Add(fs, c.id in seen, ClaimReviewDuplicate(c.id));
      if c.id.None? || c.id.value !in expected then f1 + [ClaimReviewUnknown(c.id)]
      else
        var f2 := Add(f1, c.verdict.Unknown?, ClaimReviewBadVerdict(c.id));
        var f3 := Add(f2, c.confidence.Unknown?, ClaimReviewBadConfidence(c.id));
        var f4 := Add(f3, !NonBlank(c.reason), ClaimReviewReasonMissing(c.id));
        var f5 := Add(f4, !c.rewrite.Text?, ClaimReviewRewriteInvalid(c.id));
        if !RefsWithin(c.evidence, expected[c.id.value]) then f5 + [EvidenceOutsidePacket(c.id)]
        else Add(f5, c.verdict == Known(Supported) && !HasRefs(c.evidence), SupportedWithoutEvidence(c.id))
  }

  function ClaimsFindings(fs: seq<Finding>, items: seq<Item<ClaimReview>>, expected: map<ClaimId, set<string>>): seq<Finding>
  {
    if items == [] then fs
    else
      var n := |items| - 1;
      ClaimFindings(ClaimsFindings(fs, items[..n], expected), items[n], Seen(items[..n], ReviewId), expected)
  }

  function Missing(expected: map<ClaimId, set<string>>, seen: set<Option<ClaimId>>): set<ClaimId>
  {
    set id | id in expected && Some(id) !in seen
  }

  predicate GoodClaim(c: ClaimReview, expected: map<ClaimId, set<string>>)
  {
    && c.id.Some? && c.id.value in expected
    && c.verdict.Known? && c.confidence.Known? && NonBlank(c.reason) && c.rewrite.Text?
    && RefsWithin(c.evidence, expected[c.id.value])
    && (c.verdict.word.Supported? ==> HasRefs(c.evidence))
  }

  predicate DistinctIds<T, K(==)>(items: seq<Item<T>>, idOf: T -> Option<K>)
  {
    forall i, j :: 0 <= i < j < |items| && items[i].Object? && items[j].Object? ==> idOf(items[i].value) != idOf(items[j].value)
  }

  /** Every expected claim is reviewed, exactly once, and well. */
  predicate GoodClaims(items: seq<Item<ClaimReview>>, expected: map<ClaimId, set<string>>)
  {
    AllGoodClaims(items, expected) && DistinctIds(items, ReviewId) && CoversAll(Seen(items, ReviewId), expected)
  }

  predicate CoversAll(seen: set<Option<ClaimId>>, expected: map<ClaimId, set<string>>)
  {
    forall id :: id in expected ==> Some(id) in seen
  }

  lemma MissingNone(seen: set<Option<ClaimId>>, expected: map<ClaimId, set<string>>)
    ensures Missing(expected, seen) == {} <==> CoversAll(seen, expected)
  {
    if Missing(expected, seen) == {} {
      forall id | id in expected ensures Some(id) in seen {
        assert id !in Missing(expected, seen);
      }
    }
  }

  lemma ClaimExact(fs: seq<Finding>, item: Item<ClaimReview>, seen: set<Option<ClaimId>>, expected: map<ClaimId, set<string>>)
    ensures ClaimFindings(fs, item, seen, expected) == []
            <==> fs == [] && item.Object? && item.value.id !in seen && GoodClaim(item.value, expected)
  {
  }

  predicate AllGoodClaims(items: seq<Item<ClaimReview>>, expected: map<ClaimId, set<string>>)
  {
    forall i :: 0 <= i < |items| ==> items[i].Object? && GoodClaim(items[i].value, expected)
  }

  lemma GoodClaimsStep(items: seq<Item<ClaimReview>>, n: nat, expected: map<ClaimId, set<string>>)
    requires n == |items| - 1
    ensures AllGoodClaims(items, expected)
            <==> AllGoodClaims(items[..n], expected) && items[n].Object? && GoodClaim(items[n].value, expected)
  {
  }

  lemma {:induction false} ClaimsExact(fs: seq<Finding>, items: seq<Item<ClaimReview>>, expected: map<ClaimId, set<string>>)
    ensures ClaimsFindings(fs, items, expected) == [] <==> fs == [] && AllGoodClaims(items, expected) && DistinctIds(items, ReviewId)
  {
    if items != [] {
      var n := |items| - 1;
      ClaimsExact(fs, items[..n], expected);
      ClaimExact(ClaimsFindings(fs, items[..n], expected), items[n], Seen(items[..n], ReviewId), expected);
      DistinctStep(items, n, ReviewId);
      GoodClaimsStep(items, n, expected);
    }
  }

  lemma SeenBefore<T, K>(items: seq<Item<T>>, n: nat, idOf: T -> Option<K>)
    requires n < |items|
    ensures items[n].Object? ==>
              (idOf(items[n].value) in Seen(items[..n], idOf)
               <==> exists i :: 0 <= i < n && items[i].Object? && idOf(items[i].value) == idOf(items[n].value))
  {
    if items[n].Object? {
      var id := idOf(items[n].value);
      if id in Seen(items[..n], idOf) {
        var i :| 0 <= i < |items[..n]| && items[..n][i].Object? && idOf(items[..n][i].value) == id;
        assert idOf(items[i].value) == id;
      }
      if i :| 0 <= i < n && items[i].Object? && idOf(items[i].value) == id {
        assert idOf(items[..n][i].value) == id;
      }
    }
  }

  /** The keys are distinct when the earlier ones are and the last is new. */
  lemma DistinctStep<T, K>(items: seq<Item<T>>, n: nat, idOf: T -> Option<K>)
    requires n == |items| - 1
    ensures DistinctIds(items, idOf) <==>
              DistinctIds(items[..n], idOf) && (items[n].Object? ==> idOf(items[n].value) !in Seen(items[..n], idOf))
  {
    SeenBefore(items, n, idOf);
    if DistinctIds(items, idOf) {
      assert forall i, j :: 0 <= i < j < |items[..n]| ==> items[..n][i] == items[i] && items[..n][j] == items[j];
    }
    if DistinctIds(items[..n], idOf) {
      assert forall i, j :: 0 <= i < j < n ==> items[..n][i] == items[i] && items[..n][j] == items[j];
    }
  }

  lemma SeenGrows<T, K>(items: seq<Item<T>>, k: nat, idOf: T -> Option<K>)
    requires k < |items|
    ensures Seen(items[..k + 1], idOf) == Seen(items[..k], idOf) + if items[k].Object? then {idOf(items[k].value)} else {}
  {
    forall id | id in Seen(items[..k], idOf) ensures id in Seen(items[..k + 1], idOf) {
      var i :| 0 <= i < |items[..k]| && items[..k][i].Object? && idOf(items[..k][i].value) == id;
      assert idOf(items[..k + 1][i].value) == id;
    }
    if items[k].Object? {
      assert idOf(items[..k + 1][k].value) in Seen(items[..k + 1], idOf);
    }
    forall id | id in Seen(items[..k + 1], idOf)
      ensures id in Seen(items[..k], idOf) || (items[k].Object? && id == idOf(items[k].value))
    {
      var i :| 0 <= i < |items[..k + 1]| && items[..k + 1][i].Object? && idOf(items[..k + 1][i].value) == id;
      if i < k {
        assert idOf(items[..k][i].value) == id;
      }
    }
  }

  // ---------------------------------------------------------------------------
  // The single-pass report
  // ---------------------------------------------------------------------------

  function HashFindings(bundle: Bundle, articleSha: Option<Hash>, bundleSha: Option<Hash>): seq<Finding>
  {
    var f1 := Add([], bundle.bundleSha != Some(bundle.computedHash), BundleHashInvalid);
    var f2 := Add(f1, articleSha != bundle.articleSha, ArticleHashMismatch);
    Add(f2, bundleSha != bundle.bundleSha, BundleHashMismatch)
  }

  function AllClaimFindings(fs: seq<Finding>, claims: List<Item<ClaimReview>>, expected: map<ClaimId, set<string>>): seq<Finding>
  {
    var missing := Missing(expected, Seen(Elements(claims), ReviewId));
    var f1 := Add(fs, claims.NotAList?, ClaimReviewsMissing);
    Add(ClaimsFindings(f1, Elements(claims), expected), missing != {}, ClaimReviewsIncomplete(Sorted(missing)))
  }

  function ReviewFindings(r: Report, bundle: Bundle): seq<Finding>
  {
    var f1 := Add(HashFindings(bundle, r.articleSha, r.bundleSha), !NonBlank(r.summary), SummaryMissing);
    var f2 := AllClaimFindings(f1, r.claims, Expected(bundle.packets));
    var f3 := Add(f2, r.scope.NotObject? || r.scope.value.verdict.Unknown?, ScopeReviewInvalid);
    var f4 := Add(f3, r.overall.Unknown?, OverallVerdictInvalid);
    OmissionReviewFindings(f4, r.omissions, bundle)
  }

  /** The contract of a report, without reference to how it is checked. */
  predicate WellFormed(r: Report, bundle: Bundle)
  {
    && bundle.bundleSha == Some(bundle.computedHash) && r.articleSha == bundle.articleSha && r.bundleSha == bundle.bundleSha
    && NonBlank(r.summary)
    && r.claims.List? && GoodClaims(r.claims.items, Expected(bundle.packets))
    && r.scope.Object? && r.scope.value.verdict.Known?
    && r.overall.Known?
    && GoodOmissions(r.omissions, bundle)
  }

  lemma AllClaimsExact(fs: seq<Finding>, claims: List<Item<ClaimReview>>, expected: map<ClaimId, set<string>>)
    ensures AllClaimFindings(fs, claims, expected) == [] <==> fs == [] && claims.List? && GoodClaims(claims.items, expected)
  {
    ClaimsExact(Add(fs, claims.NotAList?, ClaimReviewsMissing), Elements(claims), expected);
    MissingNone(Seen(Elements(claims), ReviewId), expected);
  }

  /** The single-pass validator reports nothing exactly for the well-formed reports. */
  lemma ReviewExact(r: Report, bundle: Bundle)
    ensures ReviewFindings(r, bundle) == [] <==> WellFormed(r, bundle)
  {
    var expected := Expected(bundle.packets);
    var f1 := Add(HashFindings(bundle, r.articleSha, r.bundleSha), !NonBlank(r.summary), SummaryMissing);
    AllClaimsExact(f1, r.claims, expected);
    var f2 := AllClaimFindings(f1, r.claims, expected);
    var f3 := Add(f2, r.scope.NotObject? || r.scope.value.verdict.Unknown?, ScopeReviewInvalid);
    OmissionReviewsExact(Add(f3, r.overall.Unknown?, OverallVerdictInvalid), r.omissions, bundle);
  }

  predicate AllSupported(items: seq<Item<ClaimReview>>)
  {
    forall i :: 0 <= i < |items| && items[i].Object? ==> items[i].value.verdict == Known(Supported)
  }

  function ObjectCount<T>(items: seq<Item<T>>): nat
  {
    |Objects(items)|
  }

  /** The items that are objects, in order. */
  function Objects<T>(items: seq<Item<T>>): seq<T>
  {
    if items == [] then []
    else Objects(items[..|items| - 1]) + if items[|items| - 1].Object? then [items[|items| - 1].value] else []
  }

  predicate OnlyInfo(omissions: List<Item<Omission>>)
  {
    forall i :: 0 <= i < |Elements(omissions)| && Elements(omissions)[i].Object? ==> Elements(omissions)[i].value.severity == Known(Info)
  }

  function Validated(r: Report, bundle: Bundle): Validation
  {
    var findings := ReviewFindings(r, bundle);
    var expected := Expected(bundle.packets);
    var semantic := ObjectCount(Elements(r.claims)) == |expected| && AllSupported(Elements(r.claims));
    var omission := OnlyInfo(r.omissions);
    var scope := r.scope.Object? && r.scope.value.verdict == Known(InScope);
    Validation(findings, findings == [], bundle.deterministicClean, semantic, omission, scope, |expected|,
               findings == [] && bundle.deterministicClean && semantic && omission && scope && r.overall == Known(Pass))
  }

  // ---------------------------------------------------------------------------
  // The loops
  // ---------------------------------------------------------------------------

  method CheckQuotes(fs: seq<Finding>, quotes: seq<Field>, article: string, index: nat) returns (findings: seq<Finding>)
    requires AllTexts(quotes)
    ensures findings == QuoteFindings(fs, quotes, article, index)
  {
    findings := fs;
    for k := 0 to |quotes|
      invariant findings == QuoteFindings(fs, quotes[..k], article, index)
    {
      assert quotes[..k + 1][..k] == quotes[..k];
      if !Occurs(quotes[k].text, article) {
        findings := findings + [QuoteNotInArticle(index, quotes[k].text)];
      }
    }
    assert quotes[..|quotes|] == quotes;
  }

  method CheckOmission(fs: seq<Finding>, o: Omission, known: set<string>, article: string, index: nat) returns (findings: seq<Finding>)
    ensures findings == OmissionFindings(fs, Object(o), known, article, index)
  {
    findings := fs;
    if o.severity.Unknown? {
      findings := findings + [OmissionBadSeverity(index)];
    }
    if !NonBlank(o.finding) {
      findings := findings + [OmissionFindingMissing(index)];
    }
    if !RefsWithin(o.evidence, known) {
      findings := findings + [OmissionUnknownEvidence(index)];
    }
    if AssertsLeak(o) && !HasQuotes(o.quotes) {
      findings := findings + [SensitivityWithoutQuotes(index)];
    } else if !o.quotes.NoQuotes? {
      if !o.quotes.Quotes? || !AllTexts(o.quotes.quotes) {
        findings := findings + [QuotesNotStrings(index)];
      } else {
        findings := CheckQuotes(findings, o.quotes.quotes, article, index);
      }
    }
  }

  method ValidateOmissionReviews(fs: seq<Finding>, omissions: List<Item<Omission>>, bundle: Bundle) returns (findings: seq<Finding>)
    ensures findings == OmissionReviewFindings(fs, omissions, bundle)
    ensures findings == [] <==> fs == [] && GoodOmissions(omissions, bundle)
  {
    OmissionReviewsExact(fs, omissions, bundle);
    if omissions.NotAList? {
      return fs + [OmissionReviewsMissing];
    }
    findings := fs;
    var known := KnownRefs(bundle);
    var items := omissions.items;
    for index := 0 to |items|
      invariant findings == OmissionsFindings(fs, items[..index], known, bundle.article)
    {
      assert items[..index + 1][..index] == items[..index];
      if items[index].NotObject? {
        findings := findings + [OmissionNotObject(index)];
      } else {
        findings := CheckOmission(findings, items[index].value, known, bundle.article, index);
      }
    }
    assert items[..|items|] == items;
  }

  method CheckClaim(fs: seq<Finding>, item: Item<ClaimReview>, seen: set<Option<ClaimId>>, expected: map<ClaimId, set<string>>)
    returns (findings: seq<Finding>)
    ensures findings == ClaimFindings(fs, item, seen, expected)
  {
    findings := fs;
    if item.NotObject? {
      return findings + [ClaimReviewNotObject];
    }
    var c := item.value;
    if c.id in seen {
      findings := findings + [ClaimReviewDuplicate(c.id)];
    }
    if c.id.None? || c.id.value !in expected {
      return findings + [ClaimReviewUnknown(c.id)];
    }
    if c.verdict.Unknown? {
      findings := findings + [ClaimReviewBadVerdict(c.id)];
    }
    if c.confidence.Unknown? {
      findings := findings + [ClaimReviewBadConfidence(c.id)];
    }
    if !NonBlank(c.reason) {
      findings := findings + [ClaimReviewReasonMissing(c.id)];
    }
    if !c.rewrite.Text? {
      findings := findings + [ClaimReviewRewriteInvalid(c.id)];
    }
    if !RefsWithin(c.evidence, expected[c.id.value]) {
      findings := findings + [EvidenceOutsidePacket(c.id)];
    } else if c.verdict == Known(Supported) && !HasRefs(c.evidence) {
      findings := findings + [SupportedWithoutEvidence(c.id)];
    }
  }

  method ValidateClaimReviews(fs: seq<Finding>, claims: List<Item<ClaimReview>>, expected: map<ClaimId, set<string>>)
    returns (findings: seq<Finding>)
    ensures findings == AllClaimFindings(fs, claims, expected)
    ensures findings == [] <==> fs == [] && claims.List? && GoodClaims(claims.items, expected)
  {
    AllClaimsExact(fs, claims, expected);
    var items := Elements(claims);
    findings := if claims.NotAList? then fs + [ClaimReviewsMissing] else fs;
    ghost var before := findings;
    var seen := {};
    for k := 0 to |items|
      invariant findings == ClaimsFindings(before, items[..k], expected)
      invariant seen == Seen(items[..k], ReviewId)
    {
      hide Seen, ClaimFindings, GoodClaims;
      assert items[..k + 1][..k] == items[..k];
      SeenGrows(items, k, ReviewId);
      findings := CheckClaim(findings, items[k], seen, expected);
      if items[k].Object? {
        seen := seen + {ReviewId(items[k].value)};
      }
    }
    assert items[..|items|] == items;
    var missing := Missing(expected, seen);
    if missing != {} {
      findings := findings + [ClaimReviewsIncomplete(Sorted(missing))];
    }
  }

  method ValidateReviewReport(r: Report, bundle: Bundle) returns (v: Validation)
    ensures v == Validated(r, bundle)
    ensures v.reportValid <==> WellFormed(r, bundle)
  {
    ReviewExact(r, bundle);
    var findings := HashFindings(bundle, r.articleSha, r.bundleSha);
    if !NonBlank(r.summary) {
      findings := findings + [SummaryMissing];
    }
    var expected := Expected(bundle.packets);
    findings := ValidateClaimReviews(findings, r.claims, expected);
    if r.scope.NotObject? || r.scope.value.verdict.Unknown? {
      findings := findings + [ScopeReviewInvalid];
    }
    if r.overall.Unknown? {
      findings := findings + [OverallVerdictInvalid];
    }
    findings := ValidateOmissionReviews(findings, r.omissions, bundle);
    var semantic := ObjectCount(Elements(r.claims)) == |expected| && AllSupported(Elements(r.claims));
    var omission := OnlyInfo(r.omissions);
    var scope := r.scope.Object? && r.scope.value.verdict == Known(InScope);
    v := Validation(findings, findings == [], bundle.deterministicClean, semantic, omission, scope, |expected|,
                    findings == [] && bundle.deterministicClean && semantic && omission && scope && r.overall == Known(Pass));
  }
}
