/** Folding review passes into one merged report, and the agreement between that producer and the
    independent validator (src/memline/wiki/review_report.py, src/memline/wiki/review.py). */
module ReviewMerge {
  import opened Strings
  import opened Sorting
  import opened ReviewReport
  import opened MergedReport

  /** A claim while passes are folded into it. */
  datatype Entry = Entry(verdict: Word<Verdict>, flaggedIn: int, findings: seq<Item<MergedFinding>>)

  type Claims = map<ClaimId, Entry>

  const FRESH := Entry(Known(Supported), 0, [])
  const LEGACY_REASON := "Scope detail was not retained by this legacy review pass."

  function RankOf(w: Word<Verdict>): nat
  {
    if w.Known? then Rank(w.word) else 0
  }

  // ---------------------------------------------------------------------------
  // Claims
  // ---------------------------------------------------------------------------

  function FindingOf(c: ClaimReview, pass: nat): MergedFinding
  {
    MergedFinding(Int(pass), c.verdict, c.confidence, c.reason, c.rewrite, c.evidence)
  }

  /** One more pass has reviewed the claim. */
  function Stepped(e: Entry, c: ClaimReview, pass: nat): Entry
  {
    var verdict := if RankOf(c.verdict) > RankOf(e.verdict) then c.verdict else e.verdict;
    if c.verdict == Known(Supported) then e.(verdict := verdict)
    else Entry(verdict, e.flaggedIn + 1, e.findings + [Object(FindingOf(c, pass))])
  }

  function EntryOf(claims: Claims, id: ClaimId): Entry
  {
    if id in claims then claims[id] else FRESH
  }

  predicate Counted(item: Item<ClaimReview>)
  {
    item.Object? && item.value.id.Some? && item.value.id.value != ""
  }

  function FoldItem(claims: Claims, item: Item<ClaimReview>, pass: nat): Claims
  {
    if Counted(item) then claims[item.value.id.value := Stepped(EntryOf(claims, item.value.id.value), item.value, pass)]
    else claims
  }

  function FoldPass(claims: Claims, items: seq<Item<ClaimReview>>, pass: nat): Claims
  {
    if items == [] then claims else FoldItem(FoldPass(claims, items[..|items| - 1], pass), items[|items| - 1], pass)
  }

  function FoldPasses(claims: Claims, reports: seq<Report>, offset: nat): Claims
  {
    if reports == [] then claims
    else
      var n := |reports| - 1;
      FoldPass(FoldPasses(claims, reports[..n], offset), Elements(reports[n].claims), offset + n + 1)
  }

  function PriorEntry(c: MergedClaim): Entry
  {
    Entry(c.verdict, AsInt(c.flaggedIn), Elements(c.findings))
  }

  function ReadClaims(items: seq<Item<MergedClaim>>): Claims
  {
    if items == [] then map[]
    else
      var before := ReadClaims(items[..|items| - 1]);
      var last := items[|items| - 1];
      if last.Object? && last.value.id.Some? then before[last.value.id.value := PriorEntry(last.value)] else before
  }

  function Listed(claims: Claims, id: ClaimId, total: nat): MergedClaim
    requires id in claims
  {
    MergedClaim(Some(id), claims[id].verdict, Int(claims[id].flaggedIn), Int(total), List(claims[id].findings))
  }

  function ClaimList(claims: Claims, keys: seq<ClaimId>, total: nat): (r: seq<Item<MergedClaim>>)
    requires forall k :: k in keys ==> k in claims
    ensures |r| == |keys| && forall i :: 0 <= i < |r| ==> r[i] == Object(Listed(claims, keys[i], total))
  {
    seq(|keys|, i requires 0 <= i < |keys| => Object(Listed(claims, keys[i], total)))
  }

  /** The claims by id. */
  function SortedClaims(claims: Claims, total: nat): seq<Item<MergedClaim>>
  {
    ClaimList(claims, Sorted(claims.Keys), total)
  }

  function Flagged(claims: Claims): set<ClaimId>
  {
    set id | id in claims && claims[id].flaggedIn != 0
  }

  function FlaggedExactly(claims: Claims, times: int): set<ClaimId>
  {
    set id | id in claims && claims[id].flaggedIn != 0 && claims[id].flaggedIn == times
  }

  // ---------------------------------------------------------------------------
  // Omissions, scope, overall verdict, validation
  // ---------------------------------------------------------------------------

  function Stamped(items: seq<Item<Omission>>, pass: nat): seq<Item<Omission>>
  {
    if items == [] then []
    else
      var last := items[|items| - 1];
      Stamped(items[..|items| - 1], pass) + if last.Object? then [Object(last.value.(pass := Int(pass)))] else []
  }

  function StampedAll(reports: seq<Report>, offset: nat): seq<Item<Omission>>
  {
    if reports == [] then []
    else
      var n := |reports| - 1;
      StampedAll(reports[..n], offset) + Stamped(Elements(reports[n].omissions), offset + n + 1)
  }

  function ScopesAll(reports: seq<Report>, offset: nat): seq<Item<MergedScope>>
  {
    if reports == [] then []
    else
      var n := |reports| - 1;
      ScopesAll(reports[..n], offset)
      + if reports[n].scope.Object?
        then [Object(MergedScope(Int(offset + n + 1), reports[n].scope.value.verdict, reports[n].scope.value.reason))] else []
  }

  function LegacyScopes(offset: nat, clean: bool): seq<Item<MergedScope>>
  {
    seq(offset, i requires 0 <= i < offset =>
      Object(MergedScope(Int(i + 1), Known(if clean then InScope else UnverifiableScope), Text(LEGACY_REASON))))
  }

  function OverallRank(w: Word<Overall>): nat
  {
    if w.Known? then (match w.word case Pass => 0 case Revise => 1 case Reject => 2) else 0
  }

  /** `max(..., key=rank)`: the first of the highest */
  function Harshest(words: seq<Word<Overall>>): Word<Overall>
    requires words != []
  {
    var n := |words| - 1;
    if n == 0 then words[0]
    else
      var before := Harshest(words[..n]);
      if OverallRank(words[n]) > OverallRank(before) then words[n] else before
  }

  function Overalls(reports: seq<Report>): (r: seq<Word<Overall>>)
    ensures |r| == |reports|
  {
    seq(|reports|, i requires 0 <= i < |reports| => reports[i].overall)
  }

  predicate PassValid(r: Report)
  {
    r.validation.Some? && r.validation.value.reportValid
  }

  function RecordOf(r: Report, pass: nat): PassRecord
  {
    if r.validation.None? then PassRecord(Int(pass), NotBool(false), [])
    else PassRecord(Int(pass), FlagOf(r.validation.value.reportValid), r.validation.value.findings)
  }

  function Records(reports: seq<Report>, offset: nat): (r: seq<Item<PassRecord>>)
    ensures |r| == |reports|
  {
    seq(|reports|, i requires 0 <= i < |reports| => Object(RecordOf(reports[i], offset + i + 1)))
  }

  predicate Truthy(f: Flag)
  {
    f.Yes? || (f.NotBool? && f.truthy)
  }

  function FailedPasses(records: seq<PassRecord>): seq<Number>
  {
    if records == [] then []
    else
      FailedPasses(records[..|records| - 1])
      + if Truthy(records[|records| - 1].reportValid) then [] else [records[|records| - 1].pass]
  }

  function MostExpected(reports: seq<Report>): nat
  {
    if reports == [] then 0
    else
      var before := MostExpected(reports[..|reports| - 1]);
      var last := reports[|reports| - 1].validation;
      if last.Some? && last.value.claimsExpected > before then last.value.claimsExpected else before
  }

  function Provenances(reports: seq<Report>): (r: seq<Field>)
    ensures |r| == |reports|
  {
    seq(|reports|, i requires 0 <= i < |reports| => reports[i].provenance)
  }

  // ---------------------------------------------------------------------------
  // The merge
  // ---------------------------------------------------------------------------

  function Offset(prior: Option<Merged>): nat
  {
    if prior.Some? && AsInt(prior.value.passes) > 0 then AsInt(prior.value.passes) else 0
  }

  function PriorClaims(prior: Option<Merged>): Claims
  {
    if prior.Some? then ReadClaims(Elements(prior.value.claims)) else map[]
  }

  function PriorOmissions(prior: Option<Merged>): seq<Item<Omission>>
  {
    if prior.Some? then Elements(prior.value.omissions) else []
  }

  function PriorRecords(prior: Option<Merged>): seq<Item<PassRecord>>
  {
    if prior.Some? then Elements(AggregateOf(prior.value).perPass) else []
  }

  /** A prior report without scope reviews gets one placeholder per pass. */
  function PriorScopes(prior: Option<Merged>): seq<Item<MergedScope>>
  {
    if prior.None? then []
    else
      var kept := if prior.value.scopes.Some? then Elements(prior.value.scopes.value) else [];
      if kept == [] then LegacyScopes(Offset(prior), AggregateOf(prior.value).scopeClean.Yes?) else kept
  }

  function PriorProvenance(prior: Option<Merged>): seq<Field>
  {
    if prior.Some? then Elements(prior.value.provenance) else []
  }

  predicate AllPassValid(reports: seq<Report>)
  {
    forall i :: 0 <= i < |reports| ==> PassValid(reports[i])
  }

  predicate AllTruthy(records: seq<PassRecord>)
  {
    forall i :: 0 <= i < |records| ==> Truthy(records[i].reportValid)
  }

  predicate AllDeterministic(reports: seq<Report>)
  {
    forall i :: 0 <= i < |reports| ==> reports[i].validation.Some? && reports[i].validation.value.deterministicClean
  }

  predicate AllInScope(reports: seq<Report>)
  {
    forall i :: 0 <= i < |reports| ==> reports[i].validation.Some? && reports[i].validation.value.scopeClean
  }

  /** `scope_clean` speaks of the new passes only. */
  function MergedAggregate(reports: seq<Report>, prior: Option<Merged>): Aggregate
  {
    var before, added := PriorRecords(prior), Records(reports, Offset(prior));
    Aggregate(List(before + added),
              Some(FailedPasses(Objects(before)) + FailedPasses(Objects(added))),
              FlagOf(AllPassValid(reports) && AllTruthy(Objects(before))),
              Int(MostExpected(reports)), FlagOf(AllDeterministic(reports)), FlagOf(AllInScope(reports)))
  }

  function AllClaims(reports: seq<Report>, prior: Option<Merged>): Claims
  {
    FoldPasses(PriorClaims(prior), reports, Offset(prior))
  }

  /** `merge_reviews`, with the hashes taken from the bundle as `run_review_passes` does. */
  function Merge(reports: seq<Report>, prior: Option<Merged>, bundle: Bundle): Merged
    requires reports != []
  {
    var offset := Offset(prior);
    var total := offset + |reports|;
    var claims := AllClaims(reports, prior);
    Merged(
      Int(total), bundle.articleSha, bundle.bundleSha,
      Harshest(Overalls(reports) + if prior.Some? then [prior.value.overall] else []),
      List(SortedClaims(claims, total)),
      List(PriorOmissions(prior) + StampedAll(reports, offset)),
      Some(List(PriorScopes(prior) + ScopesAll(reports, offset))),
      Int(|Flagged(claims)|), Int(|FlaggedExactly(claims, total)|), Int(|FlaggedExactly(claims, 1)|),
      Object(MergedAggregate(reports, prior)),
      List(PriorProvenance(prior) + Provenances(reports)))
  }

  method FoldReport(before: Claims, items: seq<Item<ClaimReview>>, pass: nat) returns (claims: Claims)
    ensures claims == FoldPass(before, items, pass)
  {
    claims := before;
    for k := 0 to |items|
      invariant claims == FoldPass(before, items[..k], pass)
    {
      assert items[..k + 1][..k] == items[..k];
      if !Counted(items[k]) {
        continue;
      }
      var item := items[k].value;
      var id := item.id.value;
      var entry := if id in claims then claims[id] else FRESH;
      var verdict := entry.verdict;
      if RankOf(item.verdict) > RankOf(verdict) {
        verdict := item.verdict;
      }
      entry := entry.(verdict := verdict);
      if item.verdict != Known(Supported) {
        entry := entry.(flaggedIn := entry.flaggedIn + 1,
                        findings := entry.findings + [Object(MergedFinding(Int(pass), item.verdict, item.confidence,
                                                                           item.reason, item.rewrite, item.evidence))]);
      }
      claims := claims[id := entry];
    }
    assert items[..|items|] == items;
  }

  /** The loops over the passes. */
  method FoldReports(reports: seq<Report>, offset: nat, claims0: Claims)
    returns (claims: Claims, omissions: seq<Item<Omission>>, scopes: seq<Item<MergedScope>>)
    ensures claims == FoldPasses(claims0, reports, offset)
    ensures omissions == StampedAll(reports, offset)
    ensures scopes == ScopesAll(reports, offset)
  {
    claims, omissions, scopes := claims0, [], [];
    for index := 0 to |reports|
      invariant claims == FoldPasses(claims0, reports[..index], offset)
      invariant omissions == StampedAll(reports[..index], offset)
      invariant scopes == ScopesAll(reports[..index], offset)
    {
      hide Stamped, FoldPass, Elements;
      var r := reports[index];
      assert reports[..index + 1][..index] == reports[..index] && reports[..index + 1][index] == r;
      claims := FoldReport(claims, Elements(r.claims), offset + index + 1);
      omissions := omissions + Stamped(Elements(r.omissions), offset + index + 1);
      scopes := scopes +
        if r.scope.Object? then [Object(MergedScope(Int(offset + index + 1), r.scope.value.verdict, r.scope.value.reason))] else [];
    }
    assert reports[..|reports|] == reports;
  }

  /** `merge_reviews` and the hash override of `run_review_passes`. */
  method MergeReviews(reports: seq<Report>, prior: Option<Merged>, bundle: Bundle) returns (m: Merged)
    requires reports != []
    ensures m == Merge(reports, prior, bundle)
  {
    hide FoldPasses, StampedAll, ScopesAll, SortedClaims, Flagged, FlaggedExactly, MergedAggregate, PriorScopes, PriorClaims,
         Harshest;
    var offset := Offset(prior);
    var total := offset + |reports|;
    var claims, omissions, scopes := FoldReports(reports, offset, PriorClaims(prior));
    m := Merged(
      Int(total), bundle.articleSha, bundle.bundleSha,
      Harshest(Overalls(reports) + if prior.Some? then [prior.value.overall] else []),
      List(SortedClaims(claims, total)), List(PriorOmissions(prior) + omissions), Some(List(PriorScopes(prior) + scopes)),
      Int(|Flagged(claims)|), Int(|FlaggedExactly(claims, total)|), Int(|FlaggedExactly(claims, 1)|),
      Object(MergedAggregate(reports, prior)),
      List(PriorProvenance(prior) + Provenances(reports)));
  }

  // ---------------------------------------------------------------------------
  // What the fold does to one claim
  // ---------------------------------------------------------------------------

  lemma {:induction false} FoldMisses(claims: Claims, items: seq<Item<ClaimReview>>, pass: nat, id: ClaimId)
    requires Some(id) !in Seen(items, ReviewId)
    ensures id in FoldPass(claims, items, pass) <==> id in claims
    ensures EntryOf(FoldPass(claims, items, pass), id) == EntryOf(claims, id)
  {
    if items != [] {
      var n := |items| - 1;
      SeenPrefix(items, n);
      assert items[..n + 1] == items;
      FoldMisses(claims, items[..n], pass, id);
    }
  }

  lemma SeenPrefix(items: seq<Item<ClaimReview>>, n: nat)
    requires n < |items|
    ensures Seen(items[..n], ReviewId) <= Seen(items, ReviewId)
    ensures items[n].Object? ==> items[n].value.id in Seen(items, ReviewId)
  {
    forall id | id in Seen(items[..n], ReviewId) ensures id in Seen(items, ReviewId) {
      var i :| 0 <= i < |items[..n]| && items[..n][i].Object? && ReviewId(items[..n][i].value) == id;
      assert ReviewId(items[i].value) == id;
    }
    if items[n].Object? {
      assert ReviewId(items[n].value) in Seen(items, ReviewId);
    }
  }

  /** A claim reviewed once in a pass is stepped once. */
  lemma {:induction false} FoldHits(claims: Claims, items: seq<Item<ClaimReview>>, pass: nat, k: nat)
    requires DistinctIds(items, ReviewId) && k < |items| && Counted(items[k])
    ensures var id := items[k].value.id.value;
            id in FoldPass(claims, items, pass) && FoldPass(claims, items, pass)[id] == Stepped(EntryOf(claims, id), items[k].value, pass)
  {
    var n := |items| - 1;
    DistinctStep(items, n, ReviewId);
    if k == n {
      FoldMisses(claims, items[..n], pass, items[k].value.id.value);
    } else {
      assert items[..n][k] == items[k];
      FoldHits(claims, items[..n], pass, k);
    }
  }

  // ---------------------------------------------------------------------------
  // Every claim stays well merged
  // ---------------------------------------------------------------------------

  predicate GoodState(e: Entry, passes: nat, allowed: set<string>)
  {
    && AllGoodFindings(e.findings, passes, allowed) && DistinctIds(e.findings, PassKey)
    && e.flaggedIn == |e.findings| <= passes
    && e.verdict == Known(Strictest(Verdicts(e.findings)))
  }

  /** The findings of earlier passes stay good, and a finding of the next pass is distinct from them. */
  lemma FindingsGrow(fs: seq<Item<MergedFinding>>, f: MergedFinding, passes: nat, allowed: set<string>)
    requires AllGoodFindings(fs, passes, allowed) && DistinctIds(fs, PassKey)
    requires f.pass == Int(passes + 1) && GoodFinding(f, passes + 1, allowed)
    ensures AllGoodFindings(fs + [Object(f)], passes + 1, allowed) && DistinctIds(fs + [Object(f)], PassKey)
  {
    var t := fs + [Object(f)];
    assert t[..|fs|] == fs;
    assert PassKey(f) !in Seen(fs, PassKey);
    DistinctStep(t, |fs|, PassKey);
    forall i | 0 <= i < |t| ensures t[i].Object? && GoodFinding(t[i].value, passes + 1, allowed) {
      if i < |fs| {
        assert GoodFinding(fs[i].value, passes, allowed);
      }
    }
  }

  lemma FindingsLast(fs: seq<Item<MergedFinding>>, passes: nat, allowed: set<string>)
    requires AllGoodFindings(fs, passes, allowed)
    ensures AllGoodFindings(fs, passes + 1, allowed)
  {
    forall i | 0 <= i < |fs| ensures fs[i].Object? && GoodFinding(fs[i].value, passes + 1, allowed) {
      assert GoodFinding(fs[i].value, passes, allowed);
    }
  }

  lemma VerdictsGrow(fs: seq<Item<MergedFinding>>, f: MergedFinding)
    requires f.verdict.Known? && f.verdict.word != Supported
    ensures var before := Strictest(Verdicts(fs));
            Strictest(Verdicts(fs + [Object(f)])) == if Rank(f.verdict.word) > Rank(before) then f.verdict.word else before
  {
    assert (fs + [Object(f)])[..|fs|] == fs;
    var vs := Verdicts(fs) + [f.verdict.word];
    assert Verdicts(fs + [Object(f)]) == vs;
    assert vs[..|vs| - 1] == Verdicts(fs);
  }

  lemma SteppedGood(e: Entry, c: ClaimReview, passes: nat, expected: map<ClaimId, set<string>>)
    requires GoodClaim(c, expected) && GoodState(e, passes, expected[c.id.value])
    ensures GoodState(Stepped(e, c, passes + 1), passes + 1, expected[c.id.value])
  {
    var allowed := expected[c.id.value];
    if c.verdict == Known(Supported) {
      FindingsLast(e.findings, passes, allowed);
    } else {
      FindingsGrow(e.findings, FindingOf(c, passes + 1), passes, allowed);
      VerdictsGrow(e.findings, FindingOf(c, passes + 1));
    }
  }

  /** Every report of the run is valid for this bundle and carries its own validation. */
  predicate AllValid(reports: seq<Report>, bundle: Bundle)
  {
    forall i :: 0 <= i < |reports| ==> reports[i].validation == Some(Validated(reports[i], bundle)) && reports[i].validation.value.reportValid
  }

  /** Claim ids are never empty: the bundle numbers its packets. */
  predicate NamedPackets(bundle: Bundle)
  {
    "" !in Expected(bundle.packets)
  }

  /** One claim after `passes` passes. */
  predicate ClaimOk(claims: Claims, passes: nat, expected: map<ClaimId, set<string>>, id: ClaimId)
  {
    && (id in claims ==> id in expected)
    && (id in expected ==> GoodState(EntryOf(claims, id), passes, expected[id]) && (passes > 0 ==> id in claims))
  }

  ghost predicate ClaimsOk(claims: Claims, passes: nat, expected: map<ClaimId, set<string>>)
  {
    forall id :: ClaimOk(claims, passes, expected, id)
  }

  lemma PassKeepsClaim(claims: Claims, items: seq<Item<ClaimReview>>, passes: nat, expected: map<ClaimId, set<string>>, id: ClaimId)
    requires ClaimOk(claims, passes, expected, id) && GoodClaims(items, expected) && "" !in expected
    ensures ClaimOk(FoldPass(claims, items, passes + 1), passes + 1, expected, id)
  {
    if id in expected {
      assert Some(id) in Seen(items, ReviewId);
      var k :| 0 <= k < |items| && items[k].Object? && ReviewId(items[k].value) == Some(id);
      FoldHits(claims, items, passes + 1, k);
      SteppedGood(EntryOf(claims, id), items[k].value, passes, expected);
    } else {
      assert Some(id) !in Seen(items, ReviewId);
      FoldMisses(claims, items, passes + 1, id);
    }
  }

  lemma PassKeepsClaims(claims: Claims, items: seq<Item<ClaimReview>>, passes: nat, expected: map<ClaimId, set<string>>)
    requires ClaimsOk(claims, passes, expected) && GoodClaims(items, expected) && "" !in expected
    ensures ClaimsOk(FoldPass(claims, items, passes + 1), passes + 1, expected)
  {
    var after := FoldPass(claims, items, passes + 1);
    var next := passes + 1;
    forall id ensures ClaimOk(after, next, expected, id) {
      assert ClaimOk(claims, passes, expected, id);
      PassKeepsClaim(claims, items, passes, expected, id);
    }
  }

  predicate AllReviewed(reports: seq<Report>, expected: map<ClaimId, set<string>>)
  {
    forall i :: 0 <= i < |reports| ==> GoodClaims(Elements(reports[i].claims), expected)
  }

  lemma {:induction false} PassesKeepClaims(claims: Claims, reports: seq<Report>, offset: nat, expected: map<ClaimId, set<string>>)
    requires AllReviewed(reports, expected) && "" !in expected
    requires ClaimsOk(claims, offset, expected)
    ensures ClaimsOk(FoldPasses(claims, reports, offset), offset + |reports|, expected)
  {
    if reports != [] {
      var n := |reports| - 1;
      assert AllReviewed(reports[..n], expected);
      PassesKeepClaims(claims, reports[..n], offset, expected);
      PassKeepsClaims(FoldPasses(claims, reports[..n], offset), Elements(reports[n].claims), offset + n, expected);
    }
  }

  // ---------------------------------------------------------------------------
  // Reading a prior report back
  // ---------------------------------------------------------------------------

  lemma {:induction false} ReadAt(items: seq<Item<MergedClaim>>, k: nat)
    requires DistinctIds(items, MergedId) && k < |items| && items[k].Object? && items[k].value.id.Some?
    ensures var id := items[k].value.id.value; id in ReadClaims(items) && ReadClaims(items)[id] == PriorEntry(items[k].value)
  {
    var n := |items| - 1;
    DistinctStep(items, n, MergedId);
    if k < n {
      assert items[..n][k] == items[k];
      ReadAt(items[..n], k);
      assert items[n].Object? ==> items[n].value.id != items[k].value.id by {
        assert MergedId(items[..n][k].value) in Seen(items[..n], MergedId);
      }
    }
  }

  lemma {:induction false} ReadKeys(items: seq<Item<MergedClaim>>, id: ClaimId)
    requires id in ReadClaims(items)
    ensures Some(id) in Seen(items, MergedId)
  {
    var n := |items| - 1;
    var last := items[n];
    if last.Object? && last.value.id == Some(id) {
      assert MergedId(items[n].value) == Some(id);
    } else {
      ReadKeys(items[..n], id);
      var i :| 0 <= i < |items[..n]| && items[..n][i].Object? && MergedId(items[..n][i].value) == Some(id);
      assert MergedId(items[i].value) == Some(id);
    }
  }

  lemma ReadClaimOk(items: seq<Item<MergedClaim>>, passes: nat, expected: map<ClaimId, set<string>>, id: ClaimId)
    requires GoodMergedClaims(List(items), expected, passes)
    ensures ClaimOk(ReadClaims(items), passes, expected, id)
  {
    if id in expected || id in ReadClaims(items) {
      if id in ReadClaims(items) {
        ReadKeys(items, id);
      }
      assert Some(id) in Seen(items, MergedId);
      var k :| 0 <= k < |items| && items[k].Object? && MergedId(items[k].value) == Some(id);
      ReadAt(items, k);
      assert GoodMergedClaim(items[k].value, expected, passes);
    }
  }

  /** The claims read back from a well-merged prior report, or none. */
  lemma PriorClaimsOk(prior: Option<Merged>, expected: map<ClaimId, set<string>>)
    requires prior.Some? ==> prior.value.passes.Int? && prior.value.passes.n >= 1
                             && GoodMergedClaims(prior.value.claims, expected, prior.value.passes.n)
    ensures ClaimsOk(PriorClaims(prior), Offset(prior), expected)
  {
    var claims, offset := PriorClaims(prior), Offset(prior);
    forall id ensures ClaimOk(claims, offset, expected, id) {
      if prior.Some? {
        ReadClaimOk(prior.value.claims.items, offset, expected, id);
      }
    }
  }
}
