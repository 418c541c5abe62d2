/** What a single-pass report must say to be valid and clean, told from the report, the packets of the bundle
    and the article (src/memline/wiki/review_report.py). */
module ReviewContract {
  import opened Strings
  import opened ReviewReport

  // ---------------------------------------------------------------------------
  // What the bundle allows
  // ---------------------------------------------------------------------------

  /** The packet that counts for a claim id: the last one with it. */
  predicate PacketFor(packets: seq<Packet>, id: ClaimId, k: nat)
  {
    k < |packets| && packets[k].id == id && forall j :: k < j < |packets| ==> packets[j].id != id
  }

  lemma {:induction false} ExpectedExactly(packets: seq<Packet>, id: ClaimId)
    ensures id in Expected(packets) <==> exists k :: PacketFor(packets, id, k)
    ensures forall k: nat, ref :: PacketFor(packets, id, k) && id in Expected(packets) ==>
              (ref in Expected(packets)[id] <==> ref in packets[k].citations && ref != "")
  {
    if packets != [] {
      var n := |packets| - 1;
      ExpectedExactly(packets[..n], id);
      if packets[n].id == id {
        assert PacketFor(packets, id, n);
      } else {
        forall k: nat ensures PacketFor(packets, id, k) <==> PacketFor(packets[..n], id, k) {
          assert k < n ==> packets[..n][k] == packets[k];
          assert forall j :: 0 <= j < n ==> packets[..n][j] == packets[j];
        }
        if k :| PacketFor(packets[..n], id, k) {
          assert PacketFor(packets, id, k);
        }
      }
    }
  }

  lemma KnownExactly(bundle: Bundle, ref: string)
    ensures ref in KnownRefs(bundle)
            <==> ref in bundle.uncited || exists k :: 0 <= k < |bundle.packets| && ref in bundle.packets[k].citations && ref != ""
  {
    if k :| 0 <= k < |bundle.packets| && ref in bundle.packets[k].citations && ref != "" {
      assert ref in CitedRefs(bundle.packets[k]);
    }
  }

  // ---------------------------------------------------------------------------
  // The contract
  // ---------------------------------------------------------------------------

  /** A text that says something. */
  predicate Filled(f: Field)
  {
    f.Text? && Strip(f.text) != ""
  }

  lemma FilledExactly(f: Field)
    ensures Filled(f) <==> NonBlank(f)
  {
    if f.Text? {
      StripBlank(f.text);
    }
  }

  /** The reviewer's answer for the claim of packet `k`: a known verdict with a known confidence, a reason and a
      rewrite (which may be empty), evidence from that packet alone, and some evidence if it supports. */
  predicate ClaimRight(c: ClaimReview, packets: seq<Packet>, k: nat)
  {
    && c.id.Some? && PacketFor(packets, c.id.value, k)
    && c.verdict.Known? && c.confidence.Known? && Filled(c.reason) && c.rewrite.Text?
    && !c.evidence.BadRefs?
    && (c.evidence.Refs? ==> forall j :: 0 <= j < |c.evidence.refs| ==>
          c.evidence.refs[j].Text? && c.evidence.refs[j].text in packets[k].citations && c.evidence.refs[j].text != "")
    && (c.verdict == Known(Supported) ==> c.evidence.Refs? && c.evidence.refs != [])
  }

  ghost predicate ClaimAnswered(item: Item<ClaimReview>, packets: seq<Packet>)
  {
    item.Object? && exists k :: ClaimRight(item.value, packets, k)
  }

  lemma ClaimExactly(item: Item<ClaimReview>, packets: seq<Packet>)
    ensures ClaimAnswered(item, packets) <==> item.Object? && GoodClaim(item.value, Expected(packets))
  {
    hide Expected, Strip, NonBlank, Filled;
    if item.Object? && item.value.id.Some? {
      var c, id := item.value, item.value.id.value;
      ExpectedExactly(packets, id);
      FilledExactly(c.reason);
      if id in Expected(packets) {
        var k :| PacketFor(packets, id, k);
        OnePacket(packets, id);
        assert GoodClaim(c, Expected(packets)) <==> ClaimRight(c, packets, k);
      }
    }
  }

  lemma OnePacket(packets: seq<Packet>, id: ClaimId)
    ensures forall j, k :: PacketFor(packets, id, j) && PacketFor(packets, id, k) ==> j == k
  {
  }

  /** Every claim of the bundle is answered, once. */
  ghost predicate ClaimsAnswered(items: seq<Item<ClaimReview>>, packets: seq<Packet>)
  {
    && (forall i :: 0 <= i < |items| ==> ClaimAnswered(items[i], packets))
    && (forall i, j :: 0 <= i < j < |items| ==> items[i].value.id != items[j].value.id)
    && (forall k :: 0 <= k < |packets| ==> AnswerFor(items, packets[k].id))
  }

  predicate AnswerFor(items: seq<Item<ClaimReview>>, id: ClaimId)
  {
    exists i :: 0 <= i < |items| && items[i].Object? && items[i].value.id == Some(id)
  }

  lemma AnsweredSeen(items: seq<Item<ClaimReview>>, id: ClaimId)
    ensures AnswerFor(items, id) <==> Some(id) in Seen(items, ReviewId)
  {
    if i :| 0 <= i < |items| && items[i].Object? && items[i].value.id == Some(id) {
      assert ReviewId(items[i].value) == Some(id);
    }
    if Some(id) in Seen(items, ReviewId) {
      var i :| 0 <= i < |items| && items[i].Object? && ReviewId(items[i].value) == Some(id);
      assert items[i].value.id == Some(id);
    }
  }

  lemma {:induction false} LastOf(packets: seq<Packet>, k: nat) returns (last: nat)
    requires k < |packets|
    ensures PacketFor(packets, packets[k].id, last)
    decreases |packets| - k
  {
    if j :| k < j < |packets| && packets[j].id == packets[k].id {
      last := LastOf(packets, j);
    } else {
      last := k;
    }
  }

  lemma AllCovered(items: seq<Item<ClaimReview>>, packets: seq<Packet>)
    ensures CoversAll(Seen(items, ReviewId), Expected(packets)) <==> forall k :: 0 <= k < |packets| ==> AnswerFor(items, packets[k].id)
  {
    hide Seen, Expected, AnswerFor;
    if CoversAll(Seen(items, ReviewId), Expected(packets)) {
      forall k | 0 <= k < |packets| ensures AnswerFor(items, packets[k].id) {
        var last := LastOf(packets, k);
        ExpectedExactly(packets, packets[k].id);
        AnsweredSeen(items, packets[k].id);
      }
    }
    if forall k :: 0 <= k < |packets| ==> AnswerFor(items, packets[k].id) {
      forall id | id in Expected(packets) ensures Some(id) in Seen(items, ReviewId) {
        ExpectedExactly(packets, id);
        var k :| PacketFor(packets, id, k);
        AnsweredSeen(items, id);
      }
    }
  }

  lemma AnswersApart(items: seq<Item<ClaimReview>>)
    requires forall i :: 0 <= i < |items| ==> items[i].Object?
    ensures DistinctIds(items, ReviewId) <==> forall i, j :: 0 <= i < j < |items| ==> items[i].value.id != items[j].value.id
  {
    if DistinctIds(items, ReviewId) {
      forall i, j | 0 <= i < j < |items| ensures items[i].value.id != items[j].value.id {
        assert ReviewId(items[i].value) != ReviewId(items[j].value);
      }
    }
  }

  lemma ClaimsExactly(items: seq<Item<ClaimReview>>, packets: seq<Packet>)
    ensures GoodClaims(items, Expected(packets)) <==> ClaimsAnswered(items, packets)
  {
    hide ClaimAnswered, GoodClaim, Expected, Seen, AnswerFor, CoversAll;
    forall i | 0 <= i < |items| ensures ClaimAnswered(items[i], packets) <==> items[i].Object? && GoodClaim(items[i].value, Expected(packets)) {
      ClaimExactly(items[i], packets);
    }
    AllCovered(items, packets);
    if forall i :: 0 <= i < |items| ==> items[i].Object? {
      AnswersApart(items);
    }
  }

  predicate CitedOrListed(bundle: Bundle, ref: string)
  {
    ref in bundle.uncited || exists k :: 0 <= k < |bundle.packets| && ref in bundle.packets[k].citations && ref != ""
  }

  ghost predicate StandsIn(quote: string, article: string)
  {
    exists before, after :: article == before + quote + after
  }

  lemma QuoteStands(quote: string, article: string)
    ensures Occurs(quote, article) <==> StandsIn(quote, article)
  {
    if i :| 0 <= i <= |article| - |quote| && At(quote, article, i) {
      assert article == article[..i] + quote + article[i + |quote|..];
    }
    if before, after :| article == before + quote + after {
      assert At(quote, article, |before|);
    }
  }

  /** An omission: a known severity, a finding, evidence that the bundle has, and quotes, if any, from the article.
      A leak that is more than a note must be quoted. */
  ghost predicate OmissionRight(o: Omission, bundle: Bundle)
  {
    && o.severity.Known? && Filled(o.finding) && !o.evidence.BadRefs?
    && (o.evidence.Refs? ==> forall j :: 0 <= j < |o.evidence.refs| ==>
          o.evidence.refs[j].Text? && CitedOrListed(bundle, o.evidence.refs[j].text))
    && (o.quotes.NoQuotes? || o.quotes.Quotes?)
    && (o.quotes.Quotes? ==> forall j :: 0 <= j < |o.quotes.quotes| ==>
          o.quotes.quotes[j].Text? && StandsIn(o.quotes.quotes[j].text, bundle.article))
    && (o.sensitivity && o.severity != Known(Info) ==> o.quotes.Quotes? && o.quotes.quotes != [])
  }

  lemma OmissionExactly(o: Omission, bundle: Bundle)
    ensures OmissionRight(o, bundle) <==> GoodOmission(o, KnownRefs(bundle), bundle.article)
  {
    hide KnownRefs, Occurs, StandsIn, CitedOrListed, Filled, NonBlank;
    FilledExactly(o.finding);
    forall ref ensures ref in KnownRefs(bundle) <==> CitedOrListed(bundle, ref) {
      KnownCited(bundle, ref);
    }
    forall quote ensures Occurs(quote, bundle.article) <==> StandsIn(quote, bundle.article) {
      QuoteStands(quote, bundle.article);
    }
  }

  lemma KnownCited(bundle: Bundle, ref: string)
    ensures ref in KnownRefs(bundle) <==> CitedOrListed(bundle, ref)
  {
    hide KnownRefs;
    KnownExactly(bundle, ref);
  }

  ghost predicate OmissionsRight(omissions: List<Item<Omission>>, bundle: Bundle)
  {
    omissions.List? && forall i :: 0 <= i < |omissions.items| ==> omissions.items[i].Object? && OmissionRight(omissions.items[i].value, bundle)
  }

  lemma OmissionsExactly(omissions: List<Item<Omission>>, bundle: Bundle)
    ensures OmissionsRight(omissions, bundle) <==> GoodOmissions(omissions, bundle)
  {
    hide OmissionRight, GoodOmission, KnownRefs;
    if omissions.List? {
      forall i | 0 <= i < |omissions.items| && omissions.items[i].Object?
        ensures OmissionRight(omissions.items[i].value, bundle)
                <==> GoodOmission(omissions.items[i].value, KnownRefs(bundle), bundle.article)
      {
        OmissionExactly(omissions.items[i].value, bundle);
      }
    }
  }

  /** The single-pass contract: the report is about this article and this untampered bundle, says something, answers
      every claim once, gives a scope and an overall verdict, and lists sound omissions. */
  ghost predicate ReportRight(r: Report, bundle: Bundle)
  {
    && bundle.bundleSha == Some(bundle.computedHash) && r.bundleSha == bundle.bundleSha && r.articleSha == bundle.articleSha
    && Filled(r.summary) && r.claims.List? && ClaimsAnswered(r.claims.items, bundle.packets)
    && r.scope.Object? && r.scope.value.verdict.Known? && r.overall.Known? && OmissionsRight(r.omissions, bundle)
  }

  /** The validator has nothing to say exactly about the reports that keep the contract. */
  lemma ValidExactly(r: Report, bundle: Bundle)
    ensures ReviewFindings(r, bundle) == [] <==> ReportRight(r, bundle)
  {
    hide GoodClaims, ClaimsAnswered, OmissionsRight, GoodOmissions, Filled, NonBlank, Expected, ReviewFindings;
    ReviewExact(r, bundle);
    FilledExactly(r.summary);
    if r.claims.List? {
      ClaimsExactly(r.claims.items, bundle.packets);
    }
    OmissionsExactly(r.omissions, bundle);
  }

  // ---------------------------------------------------------------------------
  // A clean review
  // ---------------------------------------------------------------------------

  lemma {:induction false} ObjectsCounted<T>(items: seq<Item<T>>)
    requires forall i :: 0 <= i < |items| ==> items[i].Object?
    ensures |Objects(items)| == |items|
  {
    if items != [] {
      ObjectsCounted(items[..|items| - 1]);
    }
  }

  lemma {:induction false} IdsCounted(items: seq<Item<ClaimReview>>)
    requires (forall i :: 0 <= i < |items| ==> items[i].Object?) && DistinctIds(items, ReviewId)
    ensures |Seen(items, ReviewId)| == |items|
  {
    if items == [] {
      assert Seen(items, ReviewId) == {};
    } else {
      var n := |items| - 1;
      DistinctStep(items, n, ReviewId);
      IdsCounted(items[..n]);
      SeenGrows(items, n, ReviewId);
      assert items[..n + 1] == items;
    }
  }

  lemma {:induction false} SomeCounted(ids: set<ClaimId>, some: set<Option<ClaimId>>)
    requires forall x :: x in some <==> x.Some? && x.value in ids
    ensures |some| == |ids|
    decreases ids
  {
    if ids == {} {
      assert some == {};
    } else {
      var id :| id in ids;
      SomeCounted(ids - {id}, some - {Some(id)});
    }
  }

  /** A valid report reviews as many claims as the bundle has. */
  lemma ClaimsCounted(items: seq<Item<ClaimReview>>, expected: map<ClaimId, set<string>>)
    requires GoodClaims(items, expected)
    ensures ObjectCount(items) == |expected|
  {
    assert forall i :: 0 <= i < |items| ==> items[i].Object? && GoodClaim(items[i].value, expected);
    ObjectsCounted(items);
    IdsCounted(items);
    forall x ensures x in Seen(items, ReviewId) <==> x.Some? && x.value in expected.Keys {
      if x in Seen(items, ReviewId) {
        var i :| 0 <= i < |items| && items[i].Object? && ReviewId(items[i].value) == x;
      }
    }
    SomeCounted(expected.Keys, Seen(items, ReviewId));
    assert |expected.Keys| == |expected|;
  }

  /** The reviewer's own verdict on the article is clean exactly when the report keeps the contract, the
      deterministic check was clean, every answer is "supported", every omission is a mere note, the article is in
      scope and the overall verdict is "pass". */
  lemma CleanExactly(r: Report, bundle: Bundle)
    ensures Validated(r, bundle).clean
            <==> ReportRight(r, bundle) && bundle.deterministicClean
                 && (forall i :: 0 <= i < |r.claims.items| ==> r.claims.items[i].value.verdict == Known(Supported))
                 && (forall i :: 0 <= i < |r.omissions.items| ==> r.omissions.items[i].value.severity == Known(Info))
                 && r.scope.value.verdict == Known(InScope) && r.overall == Known(Pass)
  {
    hide ClaimAnswered, OmissionRight, AnswerFor, Filled, Expected, GoodClaims, ReviewFindings, ObjectCount;
    ValidExactly(r, bundle);
    if ReportRight(r, bundle) {
      ClaimsExactly(r.claims.items, bundle.packets);
      ClaimsCounted(r.claims.items, Expected(bundle.packets));
      AnswersAreObjects(r.claims.items, bundle.packets);
      assert Elements(r.claims) == r.claims.items && Elements(r.omissions) == r.omissions.items;
      assert OnlyInfo(r.omissions) <==> forall i :: 0 <= i < |r.omissions.items| ==> r.omissions.items[i].value.severity == Known(Info);
      assert AllSupported(r.claims.items) <==> forall i :: 0 <= i < |r.claims.items| ==> r.claims.items[i].value.verdict == Known(Supported);
    }
  }

  lemma AnswersAreObjects(items: seq<Item<ClaimReview>>, packets: seq<Packet>)
    requires ClaimsAnswered(items, packets)
    ensures forall i :: 0 <= i < |items| ==> items[i].Object?
  {
    hide ClaimRight;
    forall i | 0 <= i < |items| ensures items[i].Object? {
      assert ClaimAnswered(items[i], packets);
    }
  }
}
