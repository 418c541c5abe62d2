/** Collecting the findings of a review and checking an agent's ruling on each of them
    (src/memline/wiki/adjudication.py). */
module Adjudication {
  import opened Strings
  import opened ReviewReport
  import opened MergedReport
  import opened FindingIds

  datatype AnyReport = Single(single: Report) | Multi(multi: Merged)

  /** SHA-256 of a saved report; no two reports share it. */
  datatype ReportHash = HashOf(report: AnyReport) | OtherHash(text: string)

  datatype Content =
    | ClaimContent(claim: Option<ClaimId>, pass: Number, verdict: Word<Verdict>, confidence: Word<Confidence>,
                   reason: Field, evidence: Refs, rewrite: Field)
    | OmissionContent(omission: Omission)
    | ScopeContent(scopePass: Number, scopeVerdict: Word<ScopeVerdict>, scopeReason: Field)
    | LegacyScope

  datatype Collected = Collected(id: string, content: Content)

  // ---------------------------------------------------------------------------
  // collect_review_findings
  // ---------------------------------------------------------------------------

  function IdText(id: Option<ClaimId>): string
  {
    if id.Some? then id.value else "None"
  }

  function ClaimFindingId(id: Option<ClaimId>, pass: Number): string
  {
    "claim:" + IdText(id) + ":pass" + ":" + NumberText(pass)
  }

  function OfFinding(id: Option<ClaimId>, f: MergedFinding): Collected
  {
    Collected(ClaimFindingId(id, f.pass), ClaimContent(id, f.pass, f.verdict, f.confidence, f.reason, f.evidence, f.rewrite))
  }

  function OfClaim(c: ClaimReview): Collected
  {
    Collected("claim:" + IdText(c.id), ClaimContent(c.id, NoNumber, c.verdict, c.confidence, c.reason, c.evidence, c.rewrite))
  }

  function OfOmission(o: Omission, index: nat, merged: bool): Collected
  {
    Collected(if merged then "omission:pass:" + NumberText(o.pass) + ":item" + ":" + Dec(index + 1)
              else "omission:item" + ":" + Dec(index + 1),
              OmissionContent(o))
  }

  function OfScope(s: MergedScope): Collected
  {
    Collected("scope:pass" + ":" + NumberText(s.pass), ScopeContent(s.pass, s.verdict, s.reason))
  }

  function CollectFindings(id: Option<ClaimId>, items: seq<Item<MergedFinding>>): seq<Collected>
  {
    if items == [] then []
    else
      var last := items[|items| - 1];
      CollectFindings(id, items[..|items| - 1]) + if last.Object? then [OfFinding(id, last.value)] else []
  }

  function CollectMergedClaims(items: seq<Item<MergedClaim>>): seq<Collected>
  {
    if items == [] then []
    else
      var last := items[|items| - 1];
      CollectMergedClaims(items[..|items| - 1])
      + if last.Object? then CollectFindings(last.value.id, Elements(last.value.findings)) else []
  }

  predicate Doubted(item: Item<ClaimReview>)
  {
    item.Object? && item.value.verdict != Known(Supported)
  }

  function CollectClaims(items: seq<Item<ClaimReview>>): seq<Collected>
  {
    if items == [] then []
    else CollectClaims(items[..|items| - 1]) + if Doubted(items[|items| - 1]) then [OfClaim(items[|items| - 1].value)] else []
  }

  function CollectOmissions(items: seq<Item<Omission>>, merged: bool): seq<Collected>
  {
    if items == [] then []
    else
      var n := |items| - 1;
      CollectOmissions(items[..n], merged) + if items[n].Object? then [OfOmission(items[n].value, n, merged)] else []
  }

  predicate Drifts(item: Item<MergedScope>)
  {
    item.Object? && item.value.verdict != Known(InScope)
  }

  function CollectScopes(items: seq<Item<MergedScope>>): seq<Collected>
  {
    if items == [] then []
    else CollectScopes(items[..|items| - 1]) + if Drifts(items[|items| - 1]) then [OfScope(items[|items| - 1].value)] else []
  }

  function SingleScope(s: Item<ScopeReview>): seq<Collected>
  {
    if s.Object? && s.value.verdict != Known(InScope)
    then [Collected("scope", ScopeContent(NoNumber, s.value.verdict, s.value.reason))] else []
  }

  /** An older merged report only kept the aggregate; it stays adjudicable. */
  function MergedScopes(m: Merged): seq<Collected>
  {
    if m.scopes.Some? && m.scopes.value.List? then CollectScopes(m.scopes.value.items)
    else if !AggregateOf(m).scopeClean.Yes? then [Collected("scope:legacy-aggregate", LegacyScope)]
    else []
  }

  function Collect(report: AnyReport): seq<Collected>
  {
    match report
    case Single(r) => CollectClaims(Elements(r.claims)) + CollectOmissions(Elements(r.omissions), false) + SingleScope(r.scope)
    case Multi(m) => CollectMergedClaims(Elements(m.claims)) + CollectOmissions(Elements(m.omissions), true) + MergedScopes(m)
  }

  method CollectReviewFindings(report: AnyReport) returns (findings: seq<Collected>)
    ensures findings == Collect(report)
  {
    var omissions: seq<Item<Omission>>;
    match report {
      case Single(r) =>
        findings := CollectSingleClaims(Elements(r.claims));
        omissions := Elements(r.omissions);
      case Multi(m) =>
        findings := CollectClaimFindings(Elements(m.claims));
        omissions := Elements(m.omissions);
    }
    ghost var claims := findings;
    for index := 0 to |omissions|
      invariant findings == claims + CollectOmissions(omissions[..index], report.Multi?)
    {
      assert omissions[..index + 1][..index] == omissions[..index];
      if omissions[index].Object? {
        findings := findings + [OfOmission(omissions[index].value, index, report.Multi?)];
      }
    }
    assert omissions[..|omissions|] == omissions;
    findings := findings + if report.Single? then SingleScope(report.single.scope) else MergedScopes(report.multi);
  }

  method CollectSingleClaims(items: seq<Item<ClaimReview>>) returns (findings: seq<Collected>)
    ensures findings == CollectClaims(items)
  {
    findings := [];
    for k := 0 to |items|
      invariant findings == CollectClaims(items[..k])
    {
      assert items[..k + 1][..k] == items[..k];
      if items[k].Object? && items[k].value.verdict != Known(Supported) {
        findings := findings + [OfClaim(items[k].value)];
      }
    }
    assert items[..|items|] == items;
  }

  method CollectClaimFindings(items: seq<Item<MergedClaim>>) returns (findings: seq<Collected>)
    ensures findings == CollectMergedClaims(items)
  {
    findings := [];
    for k := 0 to |items|
      invariant findings == CollectMergedClaims(items[..k])
    {
      assert items[..k + 1][..k] == items[..k];
      if items[k].Object? {
        var c := items[k].value;
        var inner := Elements(c.findings);
        ghost var before := findings;
        for j := 0 to |inner|
          invariant findings == before + CollectFindings(c.id, inner[..j])
        {
          assert inner[..j + 1][..j] == inner[..j];
          if inner[j].Object? {
            findings := findings + [OfFinding(c.id, inner[j].value)];
          }
        }
        assert inner[..|inner|] == inner;
      }
    }
    assert items[..|items|] == items;
  }

  // ---------------------------------------------------------------------------
  // Rulings
  // ---------------------------------------------------------------------------

  datatype Decision = Blocking | NonBlocking

  datatype Category =
    | FactualContradiction | SupersededCurrentClaim | CoreClaimUnverifiable | DecisionChangingOmission
    | SevereCausalOverclaim | SafetyPrivacyOrScope
    | NonMaterial

  datatype Ruling = Ruling(findingId: Option<string>, decision: Word<Decision>, category: Word<Category>, reason: Field)

  datatype Adjudication = Adjudication(schema: Number, articleSha: Option<Hash>, bundleSha: Option<Hash>,
                                       reportSha: ReportHash, rulings: List<Item<Ruling>>)

  datatype Fault =
    | AdjudicationMissing
    | SchemaInvalid
    | HashMismatch(field: string)
    | RulingsMissing
    | RulingNotObject(index: nat)
    | RulingIdInvalid(index: nat)
    | RulingDuplicate(id: string)
    | RulingUnknown(id: string)
    | DecisionInvalid(id: string)
    | ReasonMissing(id: string)
    | CategoryInvalid(id: string, decision: Decision)
    | RulingsIncomplete(missing: set<string>)

  const SCHEMA_VERSION := 1

  predicate Allowed(d: Decision, c: Word<Category>)
  {
    c.Known? && (d.NonBlocking? <==> c.word.NonMaterial?)
  }

  function ArticleSha(report: AnyReport): Option<Hash>
  {
    if report.Single? then report.single.articleSha else report.multi.articleSha
  }

  function BundleSha(report: AnyReport): Option<Hash>
  {
    if report.Single? then report.single.bundleSha else report.multi.bundleSha
  }

  function Ids(findings: seq<Collected>): set<string>
  {
    set i | 0 <= i < |findings| :: findings[i].id
  }

  /** The validator's loop state. */
  datatype Tally = Tally(faults: seq<Fault>, seen: set<string>, adjudicated: nat, blocking: nat, nonBlocking: nat)

  predicate Accepted(item: Item<Ruling>, expected: set<string>)
  {
    && item.Object? && item.value.findingId.Some? && item.value.findingId.value in expected
    && item.value.decision.Known? && NonBlank(item.value.reason) && Allowed(item.value.decision.word, item.value.category)
  }

  function OneRuling(t: Tally, item: Item<Ruling>, index: nat, expected: set<string>): Tally
  {
    match item
    case NotObject => t.(faults := t.faults + [RulingNotObject(index)])
    case Object(r) =>
      if r.findingId.None? then t.(faults := t.faults + [RulingIdInvalid(index)])
      else
        var id := r.findingId.value;
        var faults := if id in t.seen then t.faults + [RulingDuplicate(id)] else t.faults;
        var u := t.(faults := faults, seen := t.seen + {id});
        if id !in expected then u.(faults := faults + [RulingUnknown(id)])
        else if r.decision.Unknown? then u.(faults := faults + [DecisionInvalid(id)])
        else if !NonBlank(r.reason) then u.(faults := faults + [ReasonMissing(id)])
        else if !Allowed(r.decision.word, r.category) then u.(faults := faults + [CategoryInvalid(id, r.decision.word)])
        else if r.decision.word.Blocking? then u.(adjudicated := u.adjudicated + 1, blocking := u.blocking + 1)
        else u.(adjudicated := u.adjudicated + 1, nonBlocking := u.nonBlocking + 1)
  }

  function AllRulings(t: Tally, items: seq<Item<Ruling>>, expected: set<string>): Tally
  {
    if items == [] then t
    else OneRuling(AllRulings(t, items[..|items| - 1], expected), items[|items| - 1], |items| - 1, expected)
  }

  datatype Outcome = Outcome(faults: seq<Fault>, total: nat, adjudicated: nat, blocking: nat, nonBlocking: nat, clean: bool)

  function AddFault(faults: seq<Fault>, condition: bool, fault: Fault): (r: seq<Fault>)
    ensures r == [] <==> faults == [] && !condition
  {
    if condition then faults + [fault] else faults
  }

  function HeaderFaults(a: Adjudication, report: AnyReport): seq<Fault>
  {
    var f1 := AddFault([], !Equals(a.schema, SCHEMA_VERSION), SchemaInvalid);
    var f2 := AddFault(f1, a.articleSha != ArticleSha(report), HashMismatch("article"));
    var f3 := AddFault(f2, a.bundleSha != BundleSha(report), HashMismatch("bundle"));
    AddFault(f3, a.reportSha != HashOf(report), HashMismatch("report"))
  }

  function Judged(adjudication: Option<Adjudication>, report: AnyReport): Outcome
  {
    var expected := Ids(Collect(report));
    if adjudication.None? then
      Outcome(if expected != {} then [AdjudicationMissing] else [], |expected|, 0, 0, 0, expected == {})
    else
      var a := adjudication.value;
      var start := AddFault(HeaderFaults(a, report), a.rulings.NotAList?, RulingsMissing);
      var t := AllRulings(Tally(start, {}, 0, 0, 0), Elements(a.rulings), expected);
      var missing := expected - t.seen;
      var faults := AddFault(t.faults, missing != {}, RulingsIncomplete(missing));
      Outcome(faults, |expected|, t.adjudicated, t.blocking, t.nonBlocking, faults == [] && t.blocking == 0)
  }

  method ValidateAdjudication(adjudication: Option<Adjudication>, report: AnyReport) returns (o: Outcome)
    ensures o == Judged(adjudication, report)
  {
    var collected := CollectReviewFindings(report);
    var expected := Ids(collected);
    if adjudication.None? {
      var errors := if expected != {} then [AdjudicationMissing] else [];
      return Outcome(errors, |expected|, 0, 0, 0, expected == {});
    }
    var a := adjudication.value;
    var faults := HeaderFaults(a, report);
    if a.rulings.NotAList? {
      faults := faults + [RulingsMissing];
    }
    var t := Tally(faults, {}, 0, 0, 0);
    ghost var start := t;
    var items := Elements(a.rulings);
    for index := 0 to |items|
      invariant t == AllRulings(start, items[..index], expected)
    {
      hide Collect;
      assert items[..index + 1][..index] == items[..index];
      t := CheckRuling(t, items[index], index, expected);
    }
    assert items[..|items|] == items;
    var missing := expected - t.seen;
    faults := t.faults;
    if missing != {} {
      faults := faults + [RulingsIncomplete(missing)];
    }
    o := Outcome(faults, |expected|, t.adjudicated, t.blocking, t.nonBlocking, faults == [] && t.blocking == 0);
  }

  /** One turn of the loop, with its `continue`s. */
  method CheckRuling(t0: Tally, item: Item<Ruling>, index: nat, expected: set<string>) returns (t: Tally)
    ensures t == OneRuling(t0, item, index, expected)
  {
    t := t0;
    if item.NotObject? {
      return t.(faults := t.faults + [RulingNotObject(index)]);
    }
    if item.value.findingId.None? {
      return t.(faults := t.faults + [RulingIdInvalid(index)]);
    }
    var id := item.value.findingId.value;
    if id in t.seen {
      t := t.(faults := t.faults + [RulingDuplicate(id)]);
    }
    t := t.(seen := t.seen + {id});
    if id !in expected {
      return t.(faults := t.faults + [RulingUnknown(id)]);
    }
    var decision := item.value.decision;
    if decision.Unknown? {
      return t.(faults := t.faults + [DecisionInvalid(id)]);
    }
    if !NonBlank(item.value.reason) {
      return t.(faults := t.faults + [ReasonMissing(id)]);
    }
    if !Allowed(decision.word, item.value.category) {
      return t.(faults := t.faults + [CategoryInvalid(id, decision.word)]);
    }
    t := t.(adjudicated := t.adjudicated + 1);
    if decision.word.Blocking? {
      t := t.(blocking := t.blocking + 1);
    } else {
      t := t.(nonBlocking := t.nonBlocking + 1);
    }
  }

  /** `build_adjudication`: one undecided row per finding. */
  function Template(report: AnyReport): Adjudication
  {
    Adjudication(Int(SCHEMA_VERSION), ArticleSha(report), BundleSha(report), HashOf(report), List(Rows(Collect(report))))
  }

  function Rows(findings: seq<Collected>): (r: seq<Item<Ruling>>)
    ensures |r| == |findings|
  {
    seq(|findings|, i requires 0 <= i < |findings| =>
      Object(Ruling(Some(findings[i].id), Unknown(Absent), Unknown(Absent), Text(""))))
  }

  // ---------------------------------------------------------------------------
  // The gate
  // ---------------------------------------------------------------------------

  function ReportFindings(report: AnyReport, bundle: Bundle): seq<Finding>
  {
    if report.Single? then ReviewFindings(report.single, bundle) else MergedFindings(report.multi, bundle)
  }

  /** `validate_review_artifact(...)["clean"]` */
  predicate ArtifactClean(report: AnyReport, bundle: Bundle, adjudication: Option<Adjudication>)
  {
    var reportValid := ReportFindings(report, bundle) == [];
    var passes := if !reportValid then 0 else if report.Multi? then AsInt(report.multi.passes) else 1;
    reportValid && bundle.deterministicClean && passes >= 1 && Judged(adjudication, report).clean
  }
}
