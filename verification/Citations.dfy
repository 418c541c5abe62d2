/** Resolving what a citation names, in the two places that do it independently: the review bundle
    (src/memline/wiki/review.py) and the draft check (src/memline/wiki/verify.py). */
module Citations {
  import opened Draft
  import opened Strings

  datatype Evidence = Evidence(memoryIds: seq<string>, sources: seq<Ref>)

  const MEM := "mem:"

  function MemoryRefs(e: Evidence): (r: seq<Ref>)
    ensures |r| == |e.memoryIds| && forall i :: 0 <= i < |r| ==> r[i] == MEM + e.memoryIds[i]
  {
    seq(|e.memoryIds|, i requires 0 <= i < |e.memoryIds| => MEM + e.memoryIds[i])
  }

  /** The refs of the bundle. */
  function Known(e: Evidence): set<Ref>
  {
    (set i | 0 <= i < |e.memoryIds| :: MEM + e.memoryIds[i]) + (set s | s in e.sources)
  }

  // ---------------------------------------------------------------------------
  // The two resolvers
  // ---------------------------------------------------------------------------

  datatype Resolution =
    | Exact(resolved: Ref)
    | Abbreviated(resolved: Ref)
    | Ambiguous
    | NotFound

  /** `candidate[4:].startswith(ref[4:])` for a ref that starts with "mem:" */
  predicate Abbreviates(ref: Ref, candidate: Ref)
  {
    |candidate| >= |ref| && candidate[..|ref|] == ref
  }

  /** A memory abbreviated is its ref cut short, by any number of characters or none. */
  lemma AbbreviatesExactly(ref: Ref, candidate: Ref)
    ensures Abbreviates(ref, candidate) <==> exists rest :: candidate == ref + rest
  {
    if Abbreviates(ref, candidate) {
      assert candidate == ref + candidate[|ref|..];
    }
    if rest :| candidate == ref + rest {
      assert candidate[..|ref|] == ref;
    }
  }

  predicate IsMem(ref: Ref)
  {
    |ref| >= 4 && ref[..4] == MEM
  }

  /** The candidates of the list that the ref abbreviates, with repetitions. */
  function Matches(ref: Ref, refs: seq<Ref>): seq<Ref>
  {
    if refs == [] then []
    else Matches(ref, refs[..|refs| - 1]) + if Abbreviates(ref, refs[|refs| - 1]) then [refs[|refs| - 1]] else []
  }

  /** `resolve_reference`, on the list of memory refs */
  function ResolveReference(ref: Ref, e: Evidence): Resolution
  {
    if ref in Known(e) then Exact(ref)
    else if IsMem(ref) then
      var matches := Matches(ref, MemoryRefs(e));
      if |matches| == 1 then Abbreviated(matches[0]) else if |matches| > 1 then Ambiguous else NotFound
    else NotFound
  }

  function ResolvedRef(r: Resolution): Option<Ref>
  {
    if r.Exact? || r.Abbreviated? then Some(r.resolved) else None
  }

  /** The memory refs, as a set, that the ref abbreviates. */
  function Candidates(ref: Ref, e: Evidence): set<Ref>
  {
    set i | 0 <= i < |e.memoryIds| && Abbreviates(ref, MEM + e.memoryIds[i]) :: MEM + e.memoryIds[i]
  }

  /** `resolve_prefix`, on the set of memory refs: the result is `full` */
  ghost predicate ResolvesPrefix(ref: Ref, e: Evidence, full: Option<Ref>)
  {
    if !IsMem(ref) then full == None
    else if full.Some? then Candidates(ref, e) == {full.value}
    else |Candidates(ref, e)| != 1
  }

  /** How verify settles a ref: known as it is, or the one memory it abbreviates. */
  ghost predicate VerifySettles(ref: Ref, e: Evidence, full: Option<Ref>)
  {
    if ref in Known(e) then full == Some(ref) else ResolvesPrefix(ref, e, full)
  }

  predicate DistinctIds(e: Evidence)
  {
    forall i, j :: 0 <= i < j < |e.memoryIds| ==> e.memoryIds[i] != e.memoryIds[j]
  }

  lemma {:induction false} MatchesListed(ref: Ref, refs: seq<Ref>)
    ensures forall x :: x in Matches(ref, refs) <==> x in refs && Abbreviates(ref, x)
  {
    if refs != [] {
      var n := |refs| - 1;
      MatchesListed(ref, refs[..n]);
      forall x ensures x in Matches(ref, refs) <==> x in refs && Abbreviates(ref, x) {
        assert x in refs <==> x in refs[..n] || x == refs[n];
      }
    }
  }

  lemma {:induction false} MatchesDistinct(ref: Ref, refs: seq<Ref>)
    requires forall i, j :: 0 <= i < j < |refs| ==> refs[i] != refs[j]
    ensures forall i, j :: 0 <= i < j < |Matches(ref, refs)| ==> Matches(ref, refs)[i] != Matches(ref, refs)[j]
  {
    if refs != [] {
      var n := |refs| - 1;
      MatchesDistinct(ref, refs[..n]);
      MatchesListed(ref, refs[..n]);
      assert refs[n] !in refs[..n];
    }
  }

  lemma CandidatesAreMatches(ref: Ref, e: Evidence)
    ensures forall x :: x in Candidates(ref, e) <==> x in Matches(ref, MemoryRefs(e))
  {
    var refs := MemoryRefs(e);
    MatchesListed(ref, refs);
    forall x ensures x in Candidates(ref, e) <==> x in Matches(ref, refs) {
      if x in refs && Abbreviates(ref, x) {
        var i :| 0 <= i < |refs| && refs[i] == x;
        assert x == MEM + e.memoryIds[i];
      }
      if x in Candidates(ref, e) {
        var i :| 0 <= i < |e.memoryIds| && Abbreviates(ref, MEM + e.memoryIds[i]) && x == MEM + e.memoryIds[i];
        assert refs[i] == x;
      }
    }
  }

  lemma OnlyOne(c: set<Ref>, x: Ref)
    requires |c| == 1 && x in c
    ensures c == {x}
  {
    var rest := c - {x};
    assert |rest| == 0;
    assert rest == {};
    assert c == {x} + rest;
  }

  /** The ref stands for itself, or for nothing, or for several memories, or for one that is listed once. */
  predicate Unsplit(ref: Ref, e: Evidence)
  {
    ref in Known(e) || !IsMem(ref) || |Candidates(ref, e)| != 1 || |Matches(ref, MemoryRefs(e))| == 1
  }

  /** The resolver of the review bundle and the one of the draft check settle a ref the same way if and only
      if it is not the abbreviation of a single memory that is listed more than once. */
  lemma ResolversAgreeExactly(ref: Ref, e: Evidence)
    ensures VerifySettles(ref, e, ResolvedRef(ResolveReference(ref, e))) <==> Unsplit(ref, e)
  {
    if ref !in Known(e) && IsMem(ref) {
      var matches, c := Matches(ref, MemoryRefs(e)), Candidates(ref, e);
      CandidatesAreMatches(ref, e);
      if |matches| == 1 {
        assert matches[0] in c;
        assert forall x :: x in c ==> x == matches[0];
        assert c == {matches[0]};
      } else if matches == [] {
        assert c == {};
      }
    }
  }

  lemma RefsDistinct(e: Evidence)
    requires DistinctIds(e)
    ensures forall i, j :: 0 <= i < j < |MemoryRefs(e)| ==> MemoryRefs(e)[i] != MemoryRefs(e)[j]
  {
    forall i, j | 0 <= i < j < |MemoryRefs(e)| ensures MemoryRefs(e)[i] != MemoryRefs(e)[j] {
      assert (MEM + e.memoryIds[i])[|MEM|..] == e.memoryIds[i] && (MEM + e.memoryIds[j])[|MEM|..] == e.memoryIds[j];
    }
  }

  /** With distinct memory ids they always agree. */
  lemma ResolversAgree(ref: Ref, e: Evidence)
    requires DistinctIds(e)
    ensures Unsplit(ref, e) && VerifySettles(ref, e, ResolvedRef(ResolveReference(ref, e)))
  {
    if ref !in Known(e) && IsMem(ref) && |Candidates(ref, e)| == 1 {
      var matches := Matches(ref, MemoryRefs(e));
      CandidatesAreMatches(ref, e);
      var x :| x in Candidates(ref, e);
      assert x in matches;
      OnlyOne(Candidates(ref, e), x);
      assert forall y :: y in matches ==> y == x;
      assert |matches| > 1 ==> matches[0] in matches && matches[1] in matches && matches[0] == matches[1];
      RefsDistinct(e);
      MatchesDistinct(ref, MemoryRefs(e));
    }
    ResolversAgreeExactly(ref, e);
  }

  /** A memory listed twice splits them on its abbreviations: ambiguous to the resolver that counts the list,
      and fine for the one that counts the set. */
  lemma ResolversSplit(id: string, k: nat)
    requires k < |id|
    ensures var e := Evidence([id, id], []); var ref := MEM + id[..k];
            !Unsplit(ref, e) && ResolveReference(ref, e) == Ambiguous && VerifySettles(ref, e, Some(MEM + id))
  {
    var e, ref, full := Evidence([id, id], []), MEM + id[..k], MEM + id;
    assert ref[..4] == MEM;
    assert |full| > |ref| && full[..|ref|] == ref;
    var refs := MemoryRefs(e);
    assert refs[..1] == [full] && refs[..1][..0] == [];
    assert Matches(ref, []) == [];
    assert Matches(ref, refs[..1]) == [full];
    assert Matches(ref, refs) == [full, full];
    assert e.memoryIds[0] == id;
    assert full in Candidates(ref, e);
    assert forall x :: x in Candidates(ref, e) ==> x == full;
    assert Candidates(ref, e) == {full};
    assert forall x :: x in Known(e) ==> x == full;
  }
}
