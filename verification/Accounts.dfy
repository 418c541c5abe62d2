/** Accounting for the evidence of a bundle: the review bundle's list of what nobody cites
    (src/memline/wiki/review.py) against the draft check's (src/memline/wiki/verify.py). */
module Accounts {
  import opened Citations
  import opened Draft
  import opened Packets
  import opened Strings

  function CitedResolved(cites: seq<Ref>, e: Evidence): set<Ref>
  {
    set i | 0 <= i < |cites| && ResolvedRef(ResolveReference(cites[i], e)).Some? :: ResolvedRef(ResolveReference(cites[i], e)).value
  }

  /** What the review bundle lists as cited by nobody. */
  function UncitedEvidence(cites: seq<Ref>, e: Evidence): set<Ref>
  {
    Known(e) - CitedResolved(cites, e)
  }

  /** `{abbreviated.get(c, c) for c in cited}` */
  ghost predicate SettledTo(cite: Ref, e: Evidence, to: Ref)
  {
    if cite in Known(e) then to == cite
    else (ResolvesPrefix(cite, e, Some(to))) || (ResolvesPrefix(cite, e, None) && to == cite)
  }

  ghost predicate IsResolvedSet(resolved: set<Ref>, refs: seq<Ref>, e: Evidence)
  {
    forall x :: x in resolved <==> exists i :: 0 <= i < |refs| && SettledTo(refs[i], e, x)
  }

  lemma SettledKnown(cite: Ref, e: Evidence, x: Ref)
    requires Unsplit(cite, e) && x in Known(e)
    ensures SettledTo(cite, e, x) <==> ResolvedRef(ResolveReference(cite, e)) == Some(x)
  {
    ResolversAgreeExactly(cite, e);
    var mine := ResolvedRef(ResolveReference(cite, e));
    if cite !in Known(e) && IsMem(cite) && mine.Some? {
      assert Candidates(cite, e) == {mine.value};
    }
  }

  lemma CitesAgree(cites: seq<Ref>, e: Evidence, resolved: set<Ref>)
    requires (forall i :: 0 <= i < |cites| ==> Unsplit(cites[i], e)) && IsResolvedSet(resolved, cites, e)
    ensures UncitedEvidence(cites, e) == Known(e) - resolved
  {
    hide Unsplit, Known, SettledTo;
    forall x | x in Known(e) ensures x in CitedResolved(cites, e) <==> x in resolved {
      if x in CitedResolved(cites, e) {
        var i :| 0 <= i < |cites| && ResolvedRef(ResolveReference(cites[i], e)) == Some(x);
        SettledKnown(cites[i], e, x);
      }
      if x in resolved {
        var i :| 0 <= i < |cites| && SettledTo(cites[i], e, x);
        SettledKnown(cites[i], e, x);
      }
    }
  }

  /** What the review bundle lists as uncited, from the packets of the blocks, is what the draft check counts
      as uncited, from the whole draft: if no citation contains a blank line or abbreviates a single memory
      that is listed more than once. */
  lemma UncitedAgree(draft: string, e: Evidence, resolved: set<Ref>)
    requires Unbroken(Scan(draft)) && forall i :: 0 <= i < |Scan(draft)| ==> Unsplit(Scan(draft)[i], e)
    requires IsResolvedSet(resolved, Scan(draft), e)
    ensures UncitedEvidence(Requested(DraftPackets(draft, Blocks(draft), e)), e) == Known(e) - resolved
  {
    EveryCitationPacked(draft, e);
    CitesAgree(Scan(draft), e, resolved);
  }

  /** The two lists of uncited evidence are the same for this bundle. */
  ghost predicate Agree(draft: string, e: Evidence)
  {
    forall resolved: set<Ref> :: IsResolvedSet(resolved, Scan(draft), e) ==>
      UncitedEvidence(Requested(DraftPackets(draft, Blocks(draft), e)), e) == Known(e) - resolved
  }

  lemma UnbrokenAgrees(draft: string, e: Evidence)
    requires Unbroken(Scan(draft)) && DistinctIds(e)
    ensures Agree(draft, e)
  {
    forall resolved: set<Ref> | IsResolvedSet(resolved, Scan(draft), e)
      ensures UncitedEvidence(Requested(DraftPackets(draft, Blocks(draft), e)), e) == Known(e) - resolved
    {
      forall i | 0 <= i < |Scan(draft)| ensures Unsplit(Scan(draft)[i], e) {
        ResolversAgree(Scan(draft)[i], e);
      }
      hide Scan, Unbroken, Blocks, DraftPackets, Unsplit, Requested, IsResolvedSet, DistinctIds;
      UncitedAgree(draft, e, resolved);
    }
  }

  /** The bundle that holds the source of a broken citation and nothing else tells the two lists apart. */
  lemma BrokenDisagrees(draft: string, x: Ref)
    requires x in Scan(draft) && HasBlankLine(x)
    ensures DistinctIds(Evidence([], [x])) && !Agree(draft, Evidence([], [x]))
  {
    hide DraftPackets, Blocks, Scan, Requested, ScanAll, HasBlankLine, IsResolvedSet, UncitedEvidence, Known, Agree, CitedResolved;
    var e := Evidence([], [x]);
    var cites := Requested(DraftPackets(draft, Blocks(draft), e));
    BlocksPacked(draft, Blocks(draft), e);
    BrokenNowhere(draft, x);
    NobodyCites(cites, x);
    LoneSettled(Scan(draft), x);
    LoneUncited(cites, Scan(draft), x);
    Disagree(draft, e, set r | r in Scan(draft));
  }

  lemma LoneUncited(cites: seq<Ref>, all: seq<Ref>, x: Ref)
    requires CitedResolved(cites, Evidence([], [x])) == {} && x in all
    ensures UncitedEvidence(cites, Evidence([], [x])) != Known(Evidence([], [x])) - set r | r in all
  {
    hide CitedResolved;
    var e := Evidence([], [x]);
    assert x in Known(e);
    assert x in UncitedEvidence(cites, e);
    assert x !in Known(e) - set r | r in all;
  }

  lemma Disagree(draft: string, e: Evidence, resolved: set<Ref>)
    requires IsResolvedSet(resolved, Scan(draft), e)
    requires UncitedEvidence(Requested(DraftPackets(draft, Blocks(draft), e)), e) != Known(e) - resolved
    ensures !Agree(draft, e)
  {
    hide DraftPackets, Blocks, Scan, Requested, IsResolvedSet, UncitedEvidence, Known;
  }

  lemma LoneSettled(cites: seq<Ref>, x: Ref)
    ensures IsResolvedSet((set r | r in cites), cites, Evidence([], [x]))
  {
    var e := Evidence([], [x]);
    forall r, to ensures SettledTo(r, e, to) <==> to == r {
      assert Candidates(r, e) == {};
    }
  }

  /** The two lists agree for every bundle of distinct memories if and only if no citation of the draft
      contains a blank line. */
  lemma UncitedAgreeExactly(draft: string)
    ensures (forall e :: DistinctIds(e) ==> Agree(draft, e)) <==> Unbroken(Scan(draft))
  {
    if Unbroken(Scan(draft)) {
      forall e | DistinctIds(e) ensures Agree(draft, e) {
        UnbrokenAgrees(draft, e);
      }
    } else {
      var x :| x in Scan(draft) && HasBlankLine(x);
      BrokenDisagrees(draft, x);
    }
  }

  /** The other way round: a memory cited behind the blank line of a broken citation is cited in a block and
      not in the whole draft, so the review bundle counts it as cited and the draft check does not. */
  lemma HiddenSplit(a: string, id: string, resolved: set<Ref>)
    requires a != "" && '\n' !in a && ']' !in a && '^' !in a && IsRef(MEM + id)
    requires IsResolvedSet(resolved, Scan("^[sources/" + a + ("\n\n" + Cited(MEM + id))), Evidence([id], []))
    ensures var e := Evidence([id], []); var draft := "^[sources/" + a + ("\n\n" + Cited(MEM + id));
            && Known(e) - resolved == {MEM + id}
            && UncitedEvidence(Requested(DraftPackets(draft, Blocks(draft), e)), e) == {}
  {
    hide DraftPackets, Blocks, Scan, Requested, ScanAll, IsRef, Cited, IsResolvedSet, UncitedEvidence, Known;
    var e, m, draft := Evidence([id], []), MEM + id, "^[sources/" + a + ("\n\n" + Cited(MEM + id));
    OneLine(id);
    HiddenCitation(a, m);
    BlocksPacked(draft, Blocks(draft), e);
    MemoryCited(id);
    SourceForeign("sources/" + a + "\n\n^[" + m, id, resolved);
  }

  lemma MemoryCited(id: string)
    ensures UncitedEvidence([MEM + id], Evidence([id], [])) == {} && Known(Evidence([id], [])) == {MEM + id}
  {
    var e := Evidence([id], []);
    LoneMemory(id);
    hide ResolveReference, Known;
    assert ResolvedRef(ResolveReference([MEM + id][0], e)).Some?;
    assert MEM + id in CitedResolved([MEM + id], e);
  }

  lemma SourceForeign(x: Ref, id: string, resolved: set<Ref>)
    requires x != "" && x[0] == 's' && IsResolvedSet(resolved, [x], Evidence([id], []))
    ensures MEM + id !in resolved
  {
    var e := Evidence([id], []);
    LoneMemory(id);
    assert x[..1] == "s" && (MEM + id)[..1] == "m";
    assert !IsMem(x) by {
      assert |x| >= 4 ==> x[..4][0] == x[0];
    }
    ForeignSettled(x, e);
  }

  lemma OneLine(id: string)
    requires IsRef(MEM + id)
    ensures '\n' !in MEM + id
  {
    var m := MEM + id;
    assert m[..4] == MEM && m[0] == 'm';
    assert m[..8][0] == m[0];
    assert forall i :: 0 <= i < 4 ==> m[i] == MEM[i];
  }

  lemma LoneMemory(id: string)
    ensures var e := Evidence([id], []);
            Known(e) == {MEM + id} && ResolvedRef(ResolveReference(MEM + id, e)) == Some(MEM + id)
  {
    var e := Evidence([id], []);
    assert e.memoryIds[0] == id;
    assert forall x :: x in Known(e) <==> x == MEM + id;
  }

  /** A source the bundle does not have settles to itself. */
  lemma ForeignSettled(x: Ref, e: Evidence)
    requires x !in Known(e) && !IsMem(x)
    ensures forall to :: SettledTo(x, e, to) <==> to == x
  {
  }

  /** A citation with a blank line inside splits them: the draft check counts its source as cited, the review
      bundle lists it as cited by nobody. */
  lemma UncitedSplit(x: Ref, resolved: set<Ref>)
    requires IsRef(x) && HasBlankLine(x)
    requires IsResolvedSet(resolved, Scan(Cited(x)), Evidence([], [x]))
    ensures var e := Evidence([], [x]);
            && Known(e) - resolved == {}
            && UncitedEvidence(Requested(DraftPackets(Cited(x), Blocks(Cited(x)), e)), e) == {x}
  {
    var e, cites := Evidence([], [x]), Requested(DraftPackets(Cited(x), Blocks(Cited(x)), Evidence([], [x])));
    BrokenCitation(x);
    BlocksPacked(Cited(x), Blocks(Cited(x)), e);
    hide DraftPackets, Blocks, Scan, Requested, ScanAll, IsRef, HasBlankLine, CitedResolved;
    assert Known(e) == {x};
    assert Scan(Cited(x))[0] == x && SettledTo(x, e, x);
    assert x in resolved;
    NobodyCites(cites, x);
  }

  lemma NobodyCites(cites: seq<Ref>, x: Ref)
    requires x !in cites
    ensures CitedResolved(cites, Evidence([], [x])) == {}
  {
    hide ResolveReference;
    forall i | 0 <= i < |cites| ensures ResolvedRef(ResolveReference(cites[i], Evidence([], [x]))).None? {
      LoneSource(cites[i], x);
    }
  }

  /** A bundle of one source and no memories resolves that source and nothing else. */
  lemma LoneSource(ref: Ref, x: Ref)
    ensures ResolvedRef(ResolveReference(ref, Evidence([], [x]))) == if ref == x then Some(x) else None
  {
    assert MemoryRefs(Evidence([], [x])) == [];
  }

  /** `resolve_prefix(r, memory_refs) or r`: for a declared-unused ref the prefix is looked at first, even if
      the ref is in the bundle. */
  ghost predicate UnusedTo(ref: Ref, e: Evidence, to: Ref)
  {
    ResolvesPrefix(ref, e, Some(to)) || (ResolvesPrefix(ref, e, None) && to == ref)
  }

  ghost predicate IsUnusedSet(resolved: set<Ref>, refs: seq<Ref>, e: Evidence)
  {
    forall x :: x in resolved <==> exists i :: 0 <= i < |refs| && UnusedTo(refs[i], e, x)
  }

  /** The accounting findings of `verify` with a claims sidecar: a cited ref that is not literally in the
      bundle (abbreviated or unknown), an unused ref the bundle does not have, evidence both cited and
      declared unused, and evidence neither cited nor declared unused. */
  ghost predicate AccountsClean(cites: seq<Ref>, unused: seq<Ref>, e: Evidence, resolved: set<Ref>, resolvedUnused: set<Ref>)
  {
    && (forall i :: 0 <= i < |cites| ==> cites[i] in Known(e))
    && (forall i :: 0 <= i < |unused| ==> unused[i] in Known(e) || !ResolvesPrefix(unused[i], e, None))
    && (resolved * Known(e)) * (resolvedUnused * Known(e)) == {}
    && Known(e) - resolved - resolvedUnused == {}
  }

  lemma UnusedKnown(ref: Ref, e: Evidence, x: Ref)
    requires UnusedTo(ref, e, x) && (ref in Known(e) || !ResolvesPrefix(ref, e, None))
    ensures x in Known(e)
  {
    if ResolvesPrefix(ref, e, Some(x)) {
      assert x in Candidates(ref, e);
    }
  }

  lemma Settlement(ref: Ref, e: Evidence) returns (x: Ref)
    ensures UnusedTo(ref, e, x)
    ensures ResolvesPrefix(ref, e, None) ==> x == ref
  {
    x := ref;
    if IsMem(ref) && |Candidates(ref, e)| == 1 {
      x :| x in Candidates(ref, e);
      OnlyOne(Candidates(ref, e), x);
    }
  }

  /** The evidence is split in two: cited literally, or declared unused. */
  predicate Partitioned(cites: seq<Ref>, e: Evidence, resolved: set<Ref>, resolvedUnused: set<Ref>)
  {
    && resolved == (set i | 0 <= i < |cites| :: cites[i])
    && resolved + resolvedUnused == Known(e) && resolved !! resolvedUnused
  }

  lemma CleanPartitions(cites: seq<Ref>, unused: seq<Ref>, e: Evidence, resolved: set<Ref>, resolvedUnused: set<Ref>)
    requires IsResolvedSet(resolved, cites, e) && IsUnusedSet(resolvedUnused, unused, e)
    requires AccountsClean(cites, unused, e, resolved, resolvedUnused)
    ensures Partitioned(cites, e, resolved, resolvedUnused)
  {
    forall x ensures x in resolved <==> x in (set i | 0 <= i < |cites| :: cites[i]) {
      if i :| 0 <= i < |cites| && SettledTo(cites[i], e, x) {
        assert cites[i] == x;
      }
      if i :| 0 <= i < |cites| && cites[i] == x {
        assert SettledTo(cites[i], e, x);
      }
    }
    forall x | x in resolvedUnused ensures x in Known(e) {
      var i :| 0 <= i < |unused| && UnusedTo(unused[i], e, x);
      UnusedKnown(unused[i], e, x);
    }
    forall x | x in Known(e) ensures x in resolved || x in resolvedUnused {
      assert x !in Known(e) - resolved - resolvedUnused;
    }
    forall x | x in resolved ensures x !in resolvedUnused {
      assert x !in (resolved * Known(e)) * (resolvedUnused * Known(e));
    }
  }

  lemma PartitionClean(cites: seq<Ref>, unused: seq<Ref>, e: Evidence, resolved: set<Ref>, resolvedUnused: set<Ref>)
    requires IsResolvedSet(resolved, cites, e) && IsUnusedSet(resolvedUnused, unused, e)
    requires Partitioned(cites, e, resolved, resolvedUnused)
    ensures AccountsClean(cites, unused, e, resolved, resolvedUnused)
  {
    forall i | 0 <= i < |cites| ensures cites[i] in Known(e) {
      assert cites[i] in resolved;
    }
    forall i | 0 <= i < |unused| ensures unused[i] in Known(e) || !ResolvesPrefix(unused[i], e, None) {
      var x := Settlement(unused[i], e);
      assert x in resolvedUnused;
    }
  }

  /** With a sidecar, the account is clean exactly when the draft cites literally and the evidence is
      partitioned: every ref of the bundle is either cited or declared unused, none is both, and neither list
      names anything else. What a declaration names is the memory it abbreviates, if there is one, even when it
      is itself the name of a source. */
  lemma AccountsExact(cites: seq<Ref>, unused: seq<Ref>, e: Evidence, resolved: set<Ref>, resolvedUnused: set<Ref>)
    requires IsResolvedSet(resolved, cites, e) && IsUnusedSet(resolvedUnused, unused, e)
    ensures AccountsClean(cites, unused, e, resolved, resolvedUnused) <==> Partitioned(cites, e, resolved, resolvedUnused)
  {
    if AccountsClean(cites, unused, e, resolved, resolvedUnused) {
      CleanPartitions(cites, unused, e, resolved, resolvedUnused);
    }
    if Partitioned(cites, e, resolved, resolvedUnused) {
      PartitionClean(cites, unused, e, resolved, resolvedUnused);
    }
  }
}
