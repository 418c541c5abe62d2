/** What a merge of review passes says, verdict by verdict and without ranks
    (src/memline/wiki/review_report.py). */
module MergedVerdicts {
  import opened Strings
  import opened Sorting
  import opened ReviewReport
  import opened MergedReport
  import opened ReviewMerge

  // ---------------------------------------------------------------------------
  // The overall verdict
  // ---------------------------------------------------------------------------

  /** One rejection rejects; without one, a single call for revision asks for it; otherwise nobody objected and
      the first word stands. */
  lemma {:induction false} HarshestExact(words: seq<Word<Overall>>)
    requires words != []
    ensures Harshest(words) == if Known(Reject) in words then Known(Reject) else if Known(Revise) in words then Known(Revise) else words[0]
  {
    if |words| > 1 {
      var n := |words| - 1;
      HarshestExact(words[..n]);
      assert forall w :: w in words <==> w in words[..n] || w == words[n];
    }
  }

  /** Some pass, or the prior report, says so. */
  predicate OverallSaid(reports: seq<Report>, prior: Option<Merged>, word: Overall)
  {
    (exists i :: 0 <= i < |reports| && reports[i].overall == Known(word)) || (prior.Some? && prior.value.overall == Known(word))
  }

  lemma OverallListed(reports: seq<Report>, prior: Option<Merged>, word: Overall)
    ensures Known(word) in Overalls(reports) + (if prior.Some? then [prior.value.overall] else [])
            <==> OverallSaid(reports, prior, word)
  {
    var words := Overalls(reports) + if prior.Some? then [prior.value.overall] else [];
    if Known(word) in words {
      var i :| 0 <= i < |words| && words[i] == Known(word);
      assert i < |reports| ==> reports[i].overall == words[i];
    }
    if i :| 0 <= i < |reports| && reports[i].overall == Known(word) {
      assert words[i] == Known(word);
    }
    if prior.Some? {
      assert words[|reports|] == prior.value.overall;
    }
  }

  /** The merge rejects exactly when some pass or the prior report rejects, asks for a revision exactly when
      some of them does and none rejects, and passes exactly when all of them pass. */
  lemma MergedOverall(reports: seq<Report>, prior: Option<Merged>, bundle: Bundle)
    requires reports != [] && (forall i :: 0 <= i < |reports| ==> reports[i].overall.Known?)
    requires prior.Some? ==> prior.value.overall.Known?
    ensures var overall := Merge(reports, prior, bundle).overall;
            && (overall == Known(Reject) <==> OverallSaid(reports, prior, Reject))
            && (overall == Known(Revise) <==> OverallSaid(reports, prior, Revise) && !OverallSaid(reports, prior, Reject))
            && (overall == Known(Pass) <==>
                  (forall i :: 0 <= i < |reports| ==> reports[i].overall == Known(Pass))
                  && (prior.Some? ==> prior.value.overall == Known(Pass)))
  {
    var words := Overalls(reports) + if prior.Some? then [prior.value.overall] else [];
    HarshestExact(words);
    OverallListed(reports, prior, Reject);
    OverallListed(reports, prior, Revise);
    OverallListed(reports, prior, Pass);
    hide Harshest, SortedClaims, AllClaims, StampedAll, ScopesAll, PriorScopes, MergedAggregate, Flagged, FlaggedExactly;
    assert words[0] == reports[0].overall;
    if !OverallSaid(reports, prior, Reject) && !OverallSaid(reports, prior, Revise) {
      forall i | 0 <= i < |reports| ensures reports[i].overall == Known(Pass) {
        ThreeWords(reports[i].overall);
      }
      ThreeWords(words[|words| - 1]);
    }
  }

  lemma ThreeWords(w: Word<Overall>)
    requires w.Known?
    ensures w == Known(Reject) || w == Known(Revise) || w == Known(Pass)
  {
    match w.word
    case Pass =>
    case Revise =>
    case Reject =>
  }

  // ---------------------------------------------------------------------------
  // The verdict on a claim
  // ---------------------------------------------------------------------------

  /** A contradiction outweighs everything, a misuse of superseded material all but that, then partial support,
      then what could not be verified; if none of these was said, what was said before stands. */
  function Gravest(said: set<Verdict>, before: Word<Verdict>): Word<Verdict>
  {
    if Contradicted in said then Known(Contradicted)
    else if SupersededMisused in said then Known(SupersededMisused)
    else if PartiallySupported in said then Known(PartiallySupported)
    else if Unverifiable in said then Known(Unverifiable)
    else before
  }

  /** The review is about the claim and says so. */
  predicate Says(item: Item<ClaimReview>, id: ClaimId, v: Verdict)
  {
    item.Object? && item.value.id == Some(id) && id != "" && item.value.verdict == Known(v)
  }

  predicate PassSays(items: seq<Item<ClaimReview>>, id: ClaimId, v: Verdict)
  {
    exists k :: 0 <= k < |items| && Says(items[k], id, v)
  }

  predicate ReportsSay(reports: seq<Report>, id: ClaimId, v: Verdict)
  {
    exists i :: 0 <= i < |reports| && PassSays(Elements(reports[i].claims), id, v)
  }

  lemma PassSaysStep(items: seq<Item<ClaimReview>>, n: nat, id: ClaimId, v: Verdict)
    requires n == |items| - 1
    ensures PassSays(items, id, v) <==> PassSays(items[..n], id, v) || Says(items[n], id, v)
  {
    hide Says;
    if k :| 0 <= k < n && Says(items[..n][k], id, v) {
      assert Says(items[k], id, v);
    }
    if k :| 0 <= k < |items| && Says(items[k], id, v) && k < n {
      assert Says(items[..n][k], id, v);
    }
  }

  lemma ReportsSayStep(reports: seq<Report>, n: nat, id: ClaimId, v: Verdict)
    requires n == |reports| - 1
    ensures ReportsSay(reports, id, v) <==> ReportsSay(reports[..n], id, v) || PassSays(Elements(reports[n].claims), id, v)
  {
    hide PassSays, Elements;
    if i :| 0 <= i < n && PassSays(Elements(reports[..n][i].claims), id, v) {
      assert PassSays(Elements(reports[i].claims), id, v);
    }
    if i :| 0 <= i < |reports| && PassSays(Elements(reports[i].claims), id, v) && i < n {
      assert PassSays(Elements(reports[..n][i].claims), id, v);
    }
  }

  /** The word, if it is one of the five. */
  function Uttered(w: Word<Verdict>): set<Verdict>
  {
    if w.Known? then {w.word} else {}
  }

  function PassSaid(items: seq<Item<ClaimReview>>, id: ClaimId): set<Verdict>
  {
    set v: Verdict | PassSays(items, id, v)
  }

  function ReportsSaid(reports: seq<Report>, id: ClaimId): set<Verdict>
  {
    set v: Verdict | ReportsSay(reports, id, v)
  }

  lemma ItemVerdict(claims: Claims, item: Item<ClaimReview>, pass: nat, id: ClaimId)
    ensures var before := EntryOf(claims, id).verdict;
            EntryOf(FoldItem(claims, item, pass), id).verdict
            == Gravest((set v: Verdict | Says(item, id, v)) + Uttered(before), before)
  {
    var said := set v: Verdict | Says(item, id, v);
    if Counted(item) && item.value.id.value == id {
      assert said == Uttered(item.value.verdict);
    } else {
      assert said == {};
    }
  }

  lemma GravestOfMore(said: set<Verdict>, more: set<Verdict>, before: Word<Verdict>)
    requires Uttered(before) <= said
    ensures var word := Gravest(said, before); Gravest(more + Uttered(word), word) == Gravest(said + more, before)
  {
  }

  lemma NothingMore(before: Word<Verdict>)
    ensures Gravest(Uttered(before), before) == before
  {
  }

  lemma {:induction false} PassVerdict(claims: Claims, items: seq<Item<ClaimReview>>, pass: nat, id: ClaimId)
    ensures var before := EntryOf(claims, id).verdict;
            EntryOf(FoldPass(claims, items, pass), id).verdict == Gravest(PassSaid(items, id) + Uttered(before), before)
  {
    var before := EntryOf(claims, id).verdict;
    if items == [] {
      NothingMore(before);
      assert PassSaid([], id) == {};
      assert {} + Uttered(before) == Uttered(before);
    } else {
      hide Says, PassSays, Gravest, FoldItem, EntryOf, Uttered;
      var n := |items| - 1;
      var last := set v: Verdict | Says(items[n], id, v);
      PassVerdict(claims, items[..n], pass, id);
      ItemVerdict(FoldPass(claims, items[..n], pass), items[n], pass, id);
      GravestOfMore(PassSaid(items[..n], id) + Uttered(before), last, before);
      forall v: Verdict ensures v in PassSaid(items, id) <==> v in PassSaid(items[..n], id) || v in last {
        PassSaysStep(items, n, id, v);
      }
      assert PassSaid(items[..n], id) + Uttered(before) + last == PassSaid(items, id) + Uttered(before);
    }
  }

  lemma ReportsSaidStep(reports: seq<Report>, n: nat, id: ClaimId, before: set<Verdict>)
    requires n == |reports| - 1
    ensures ReportsSaid(reports[..n], id) + before + PassSaid(Elements(reports[n].claims), id) == ReportsSaid(reports, id) + before
  {
    hide PassSays, ReportsSay, Elements;
    forall v: Verdict
      ensures v in ReportsSaid(reports, id) <==> v in ReportsSaid(reports[..n], id) || v in PassSaid(Elements(reports[n].claims), id)
    {
      ReportsSayStep(reports, n, id, v);
    }
  }

  lemma {:induction false} PassesVerdict(claims: Claims, reports: seq<Report>, offset: nat, id: ClaimId)
    ensures var before := EntryOf(claims, id).verdict;
            EntryOf(FoldPasses(claims, reports, offset), id).verdict == Gravest(ReportsSaid(reports, id) + Uttered(before), before)
  {
    var before := EntryOf(claims, id).verdict;
    if reports == [] {
      NothingMore(before);
      assert ReportsSaid([], id) == {};
      assert {} + Uttered(before) == Uttered(before);
    } else {
      hide PassSays, ReportsSay, Gravest, FoldPass, EntryOf, Uttered, Elements, PassSaid, ReportsSaid;
      var n := |reports| - 1;
      var last := PassSaid(Elements(reports[n].claims), id);
      PassesVerdict(claims, reports[..n], offset, id);
      PassVerdict(FoldPasses(claims, reports[..n], offset), Elements(reports[n].claims), offset + n + 1, id);
      GravestOfMore(ReportsSaid(reports[..n], id) + Uttered(before), last, before);
      ReportsSaidStep(reports, n, id, Uttered(before));
    }
  }

  /** What the prior report says of the claim; nothing yet is "supported". */
  function PriorVerdict(prior: Option<Merged>, id: ClaimId): Word<Verdict>
  {
    EntryOf(PriorClaims(prior), id).verdict
  }

  lemma ListedVerdict(claims: Claims, total: nat, i: nat)
    requires i < |SortedClaims(claims, total)|
    ensures var item := SortedClaims(claims, total)[i];
            item.Object? && item.value.id.Some? && item.value.verdict == EntryOf(claims, item.value.id.value).verdict
  {
    var keys := Sorted(claims.Keys);
    assert keys[i] in keys;
  }

  /** Every claim of a merged report carries the gravest word that a pass or the prior report has for it:
      whatever the passes are, valid or not, in whatever order, and however often they review a claim. */
  lemma MergedVerdict(reports: seq<Report>, prior: Option<Merged>, bundle: Bundle, i: nat)
    requires reports != [] && i < |Elements(Merge(reports, prior, bundle).claims)|
    ensures var item := Elements(Merge(reports, prior, bundle).claims)[i];
            && item.Object? && item.value.id.Some?
            && item.value.verdict == Gravest(ReportsSaid(reports, item.value.id.value) + Uttered(PriorVerdict(prior, item.value.id.value)),
                                             PriorVerdict(prior, item.value.id.value))
  {
    hide SortedClaims, FoldPasses, Gravest, Harshest, StampedAll, ScopesAll, PriorScopes, MergedAggregate, Flagged, FlaggedExactly,
         EntryOf, PriorClaims;
    var claims := AllClaims(reports, prior);
    ListedVerdict(claims, Offset(prior) + |reports|, i);
    var id := SortedClaims(claims, Offset(prior) + |reports|)[i].value.id.value;
    PassesVerdict(PriorClaims(prior), reports, Offset(prior), id);
  }

  /** The validator's own reckoning of a merged verdict, told the same way. */
  lemma {:induction false} StrictestExact(verdicts: seq<Verdict>)
    ensures Known(Strictest(verdicts)) == Gravest((set v: Verdict | v in verdicts), Known(Supported))
  {
    var said := set v: Verdict | v in verdicts;
    if verdicts != [] {
      var n := |verdicts| - 1;
      StrictestExact(verdicts[..n]);
      var before := set v: Verdict | v in verdicts[..n];
      assert forall v :: v in said <==> v in before || v == verdicts[n];
    }
  }

  function FoundIn(items: seq<Item<MergedFinding>>): set<Verdict>
  {
    set v: Verdict | Finds(items, v)
  }

  predicate Finds(items: seq<Item<MergedFinding>>, v: Verdict)
  {
    exists j :: 0 <= j < |items| && items[j].Object? && items[j].value.verdict == Known(v)
  }

  lemma {:induction false} VerdictsFound(items: seq<Item<MergedFinding>>, v: Verdict)
    requires v != Supported
    ensures v in Verdicts(items) <==> Finds(items, v)
  {
    if items != [] {
      var n := |items| - 1;
      VerdictsFound(items[..n], v);
      if j :| 0 <= j < n && items[..n][j].Object? && items[..n][j].value.verdict == Known(v) {
        assert items[j].value.verdict == Known(v);
      }
      if j :| 0 <= j < |items| && items[j].Object? && items[j].value.verdict == Known(v) && j < n {
        assert items[..n][j].value.verdict == Known(v);
      }
    }
  }

  /** A merged claim that the validator accepts carries the gravest word among its findings. */
  lemma ValidatedVerdict(c: MergedClaim, passes: nat, allowed: set<string>)
    requires GoodEntry(c, passes, allowed)
    ensures c.verdict == Gravest(FoundIn(c.findings.items), Known(Supported))
  {
    hide Strictest, Verdicts;
    var verdicts := Verdicts(c.findings.items);
    StrictestExact(verdicts);
    forall v: Verdict | v != Supported ensures v in verdicts <==> v in FoundIn(c.findings.items) {
      VerdictsFound(c.findings.items, v);
    }
    SameGraver((set v: Verdict | v in verdicts), FoundIn(c.findings.items));
  }

  lemma SameGraver(a: set<Verdict>, b: set<Verdict>)
    requires forall v :: v != Supported ==> (v in a <==> v in b)
    ensures Gravest(a, Known(Supported)) == Gravest(b, Known(Supported))
  {
  }

  // ---------------------------------------------------------------------------
  // The aggregate
  // ---------------------------------------------------------------------------

  /** The pass was validated and honoured its contract. */
  predicate Honoured(r: Report)
  {
    r.validation.Some? && r.validation.value.reportValid
  }

  lemma {:induction false} FailedRecords(records: seq<PassRecord>, pass: Number)
    ensures pass in FailedPasses(records)
            <==> exists i :: 0 <= i < |records| && records[i].pass == pass && (records[i].reportValid.No? || records[i].reportValid == NotBool(false))
  {
    if records != [] {
      var n := |records| - 1;
      FailedRecords(records[..n], pass);
      if i :| 0 <= i < n && records[..n][i].pass == pass
              && (records[..n][i].reportValid.No? || records[..n][i].reportValid == NotBool(false)) {
        assert records[i].pass == pass;
      }
      if i :| 0 <= i < |records| && records[i].pass == pass
              && (records[i].reportValid.No? || records[i].reportValid == NotBool(false)) && i < n {
        assert records[..n][i].pass == pass;
      }
    }
  }

  lemma {:induction false} AllObjects<T>(items: seq<Item<T>>)
    requires forall i :: 0 <= i < |items| ==> items[i].Object?
    ensures |Objects(items)| == |items| && forall i :: 0 <= i < |items| ==> Objects(items)[i] == items[i].value
  {
    if items != [] {
      AllObjects(items[..|items| - 1]);
    }
  }

  lemma FailedReports(reports: seq<Report>, offset: nat, pass: Number)
    ensures pass in FailedPasses(Objects(Records(reports, offset)))
            <==> exists i :: 0 <= i < |reports| && !Honoured(reports[i]) && pass == Int(offset + i + 1)
  {
    var records := Objects(Records(reports, offset));
    AllObjects(Records(reports, offset));
    FailedRecords(records, pass);
    forall i | 0 <= i < |reports|
      ensures records[i].pass == Int(offset + i + 1)
      ensures (records[i].reportValid.No? || records[i].reportValid == NotBool(false)) <==> !Honoured(reports[i])
    {
    }
  }

  lemma {:induction false} MostOf(reports: seq<Report>)
    ensures forall i :: 0 <= i < |reports| && reports[i].validation.Some? ==>
              reports[i].validation.value.claimsExpected <= MostExpected(reports)
    ensures MostExpected(reports) == 0 || exists i :: 0 <= i < |reports| && reports[i].validation.Some?
                                                      && reports[i].validation.value.claimsExpected == MostExpected(reports)
  {
    if reports != [] {
      var n := |reports| - 1;
      MostOf(reports[..n]);
      if i :| 0 <= i < n && reports[..n][i].validation.Some?
              && reports[..n][i].validation.value.claimsExpected == MostExpected(reports[..n]) {
        assert reports[i].validation.value.claimsExpected == MostExpected(reports[..n]);
      }
      assert forall i :: 0 <= i < n ==> reports[..n][i] == reports[i];
    }
  }

  /** The aggregate of any merge, of valid passes or not: it calls the whole valid only if every pass was, names
      the passes that were not, and is clean or in scope only if every new pass was. */
  lemma AggregateTells(reports: seq<Report>, prior: Option<Merged>, pass: Number)
    ensures var a := MergedAggregate(reports, prior); var before := Objects(PriorRecords(prior));
            && (a.reportValid == Yes <==>
                  (forall i :: 0 <= i < |reports| ==> Honoured(reports[i]))
                  && forall i :: 0 <= i < |before| ==> before[i].reportValid == Yes || before[i].reportValid == NotBool(true))
            && a.invalidPasses.Some?
            && (pass in a.invalidPasses.value <==>
                  (exists i :: 0 <= i < |before| && before[i].pass == pass
                               && (before[i].reportValid.No? || before[i].reportValid == NotBool(false)))
                  || exists i :: 0 <= i < |reports| && !Honoured(reports[i]) && pass == Int(Offset(prior) + i + 1))
            && (a.deterministicClean == Yes <==>
                  forall i :: 0 <= i < |reports| ==> reports[i].validation.Some? && reports[i].validation.value.deterministicClean)
            && (a.scopeClean == Yes <==>
                  forall i :: 0 <= i < |reports| ==> reports[i].validation.Some? && reports[i].validation.value.scopeClean)
            && a.claimsExpected.Int?
            && forall i :: 0 <= i < |reports| && reports[i].validation.Some? ==>
                 reports[i].validation.value.claimsExpected <= a.claimsExpected.n
  {
    hide FailedPasses, Objects, Records, MostExpected, AllPassValid, AllTruthy, Honoured, PriorRecords, Offset, MergedAggregate;
    var before := Objects(PriorRecords(prior));
    FailedRecords(before, pass);
    FailedReports(reports, Offset(prior), pass);
    MostOf(reports);
    AllHonoured(reports);
    AllTold(before);
    AggregateParts(reports, prior);
    InEither(FailedPasses(before), FailedPasses(Objects(Records(reports, Offset(prior)))), pass);
  }

  /** The parts of the aggregate, one by one. */
  lemma AggregateParts(reports: seq<Report>, prior: Option<Merged>)
    ensures var a := MergedAggregate(reports, prior); var before := Objects(PriorRecords(prior));
            && (a.reportValid == Yes <==> AllPassValid(reports) && AllTruthy(before))
            && a.invalidPasses == Some(FailedPasses(before) + FailedPasses(Objects(Records(reports, Offset(prior)))))
            && (a.deterministicClean == Yes <==> AllDeterministic(reports)) && (a.scopeClean == Yes <==> AllInScope(reports))
            && a.claimsExpected == Int(MostExpected(reports))
  {
    hide FailedPasses, Objects, Records, MostExpected, AllPassValid, AllTruthy, PriorRecords, Offset, AllDeterministic, AllInScope;
  }

  lemma InEither<T>(a: seq<T>, b: seq<T>, x: T)
    ensures x in a + b <==> x in a || x in b
  {
  }

  lemma AllHonoured(reports: seq<Report>)
    ensures AllPassValid(reports) <==> forall i :: 0 <= i < |reports| ==> Honoured(reports[i])
  {
    assert forall i :: 0 <= i < |reports| ==> (PassValid(reports[i]) <==> Honoured(reports[i]));
  }

  lemma AllTold(records: seq<PassRecord>)
    ensures AllTruthy(records)
            <==> forall i :: 0 <= i < |records| ==> records[i].reportValid == Yes || records[i].reportValid == NotBool(true)
  {
    if forall i :: 0 <= i < |records| ==> records[i].reportValid == Yes || records[i].reportValid == NotBool(true) {
      forall i | 0 <= i < |records| ensures Truthy(records[i].reportValid) {
        assert records[i].reportValid == Yes || records[i].reportValid == NotBool(true);
      }
    }
  }

  /** The other parts of a merge: it counts the passes of both, speaks of the article and bundle at hand, and keeps
      where each pass came from, the prior ones first. */
  lemma MergeKeepsProvenance(reports: seq<Report>, prior: Option<Merged>, bundle: Bundle)
    requires reports != []
    ensures var m := Merge(reports, prior, bundle); var before := if prior.Some? then Elements(prior.value.provenance) else [];
            && m.passes == Int(Offset(prior) + |reports|) && m.articleSha == bundle.articleSha && m.bundleSha == bundle.bundleSha
            && m.provenance.List? && ProvenanceOf(m.provenance.items, before, reports)
  {
    hide SortedClaims, AllClaims, StampedAll, ScopesAll, PriorScopes, MergedAggregate, Flagged, FlaggedExactly, Harshest, Overalls,
         Elements, Offset, PriorOmissions, Provenances, ProvenanceOf;
    ProvenanceJoined(PriorProvenance(prior), reports);
  }

  predicate ProvenanceOf(all: seq<Field>, before: seq<Field>, reports: seq<Report>)
  {
    && |all| == |before| + |reports| && all[..|before|] == before
    && forall i :: 0 <= i < |reports| ==> all[|before|..][i] == reports[i].provenance
  }

  lemma ProvenanceJoined(before: seq<Field>, reports: seq<Report>)
    ensures ProvenanceOf(before + Provenances(reports), before, reports)
  {
    assert (before + Provenances(reports))[|before|..] == Provenances(reports);
  }

  /** A prior report that kept no scope reviews is given one for each of its passes: in scope if its aggregate was,
      and otherwise not verifiable, which the agent is asked about. */
  lemma LegacyScopesExactly(prior: Merged, i: nat)
    requires (prior.scopes.None? || Elements(prior.scopes.value) == []) && i < Offset(Some(prior))
    ensures |PriorScopes(Some(prior))| == Offset(Some(prior))
    ensures var item := PriorScopes(Some(prior))[i];
            && item.Object? && item.value.pass == Int(i + 1) && item.value.reason == Text(LEGACY_REASON)
            && item.value.verdict == if prior.validation.Object? && prior.validation.value.scopeClean == Yes
                                     then Known(InScope) else Known(UnverifiableScope)
  {
  }
}
