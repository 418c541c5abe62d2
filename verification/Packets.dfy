/** The claim packets and the uncited passages of a draft, as the review bundle lists them
    (src/memline/wiki/review.py). A block is read as a sequence of letters and citations. */
module Packets {
  import opened Citations
  import opened Draft
  import opened Sequences
  import opened Strings

  datatype Token = Letter(c: char) | Cite(ref: Ref)

  type Tokens = seq<Token>

  function Tokenized(t: string): Tokens
  {
    if t == "" then []
    else match Match(t)
      case Some(r) => [Cite(r)] + Tokenized(t[|r| + 3..])
      case None => [Letter(t[0])] + Tokenized(t[1..])
  }

  function TextOf(token: Token): string
  {
    if token.Letter? then [token.c] else Cited(token.ref)
  }

  /** The text the tokens stand for. */
  function Text(block: Tokens): string
  {
    if block == [] then "" else Text(block[..|block| - 1]) + TextOf(block[|block| - 1])
  }

  /** All citations of a block, in order. */
  function CitesOf(block: Tokens): seq<Ref>
  {
    if block == [] then []
    else CitesOf(block[..|block| - 1]) + if block[|block| - 1].Cite? then [block[|block| - 1].ref] else []
  }

  lemma {:induction false} PrependText(x: Token, block: Tokens)
    ensures Text([x] + block) == TextOf(x) + Text(block)
  {
    hide TextOf;
    if block == [] {
      assert ([x] + block)[..0] == [];
    } else {
      var m := |block| - 1;
      LastOfAppend([x], block);
      PrependText(x, block[..m]);
      Associative(TextOf(x), Text(block[..m]), TextOf(block[m]));
    }
  }

  lemma {:induction false} PrependCites(x: Token, block: Tokens)
    ensures CitesOf([x] + block) == (if x.Cite? then [x.ref] else []) + CitesOf(block)
  {
    if block == [] {
      assert ([x] + block)[..0] == [];
    } else {
      var m := |block| - 1;
      LastOfAppend([x], block);
      PrependCites(x, block[..m]);
      var first, last := if x.Cite? then [x.ref] else [], if block[m].Cite? then [block[m].ref] else [];
      Associative(first, CitesOf(block[..m]), last);
    }
  }

  /** The tokens of a text spell it, and their citations are those the pattern finds. */
  lemma {:induction false} TokenizedExact(t: string)
    ensures Text(Tokenized(t)) == t && CitesOf(Tokenized(t)) == Scan(t)
  {
    hide Text, CitesOf, IsRef;
    if t == "" {
      NoTokens();
    } else {
      var n := if Match(t).Some? then |Match(t).value| + 3 else 1;
      TokenizedExact(t[n..]);
      var x := if Match(t).Some? then Cite(Match(t).value) else Letter(t[0]);
      if Match(t).Some? {
        MatchExact(t, x.ref);
      }
      PrependText(x, Tokenized(t[n..]));
      PrependCites(x, Tokenized(t[n..]));
      assert t == TextOf(x) + t[n..];
    }
  }

  lemma NoTokens()
    ensures Text([]) == "" && CitesOf([]) == []
  {
  }

  // ---------------------------------------------------------------------------
  // Groups of citations
  // ---------------------------------------------------------------------------

  /** Citations with nothing but white space in between: the positions they span, and their refs. */
  datatype Run = Run(start: nat, end: nat, refs: seq<Ref>)

  predicate BlankBetween(block: Tokens, low: nat, high: nat)
    requires high <= |block|
  {
    forall i :: low <= i < high ==> block[i].Letter? && IsSpace(block[i].c)
  }

  /** `_citation_groups` */
  function Runs(block: Tokens): seq<Run>
  {
    if block == [] then []
    else
      var n := |block| - 1;
      var before := Runs(block[..n]);
      if block[n].Letter? then before else Extended(before, block, n)
  }

  function Extended(before: seq<Run>, block: Tokens, n: nat): seq<Run>
    requires n < |block| && block[n].Cite?
  {
    if before != [] && BlankBetween(block, before[|before| - 1].end, n)
    then before[..|before| - 1] + [Run(before[|before| - 1].start, n + 1, before[|before| - 1].refs + [block[n].ref])]
    else before + [Run(n, n + 1, [block[n].ref])]
  }

  lemma GroupedOne(block: Tokens, n: nat)
    requires n < |block|
    ensures Runs(block[..n + 1]) == if block[n].Letter? then Runs(block[..n]) else Extended(Runs(block[..n]), block, n)
  {
    assert block[..n + 1][..n] == block[..n];
  }

  method CitationGroups(block: Tokens) returns (runs: seq<Run>)
    ensures runs == Runs(block)
  {
    runs := [];
    for n := 0 to |block|
      invariant runs == Runs(block[..n])
    {
      GroupedOne(block, n);
      hide Runs;
      if block[n].Cite? {
        var last := |runs| - 1;
        if runs != [] && BlankBetween(block, runs[last].end, n) {
          runs := runs[..last] + [Run(runs[last].start, n + 1, runs[last].refs + [block[n].ref])];
        } else {
          runs := runs + [Run(n, n + 1, [block[n].ref])];
        }
      }
    }
    assert block[..|block|] == block;
  }

  function RefsOfRuns(runs: seq<Run>): seq<Ref>
  {
    if runs == [] then [] else RefsOfRuns(runs[..|runs| - 1]) + runs[|runs| - 1].refs
  }

  lemma ExtendedHolds(before: seq<Run>, block: Tokens, n: nat)
    requires n < |block| && block[n].Cite?
    ensures RefsOfRuns(Extended(before, block, n)) == RefsOfRuns(before) + [block[n].ref]
  {
    var runs, m := Extended(before, block, n), |Extended(before, block, n)| - 1;
    if before != [] && BlankBetween(block, before[|before| - 1].end, n) {
      var k := |before| - 1;
      assert runs[..m] == before[..k];
      Associative(RefsOfRuns(before[..k]), before[k].refs, [block[n].ref]);
    } else {
      assert runs[..m] == before;
    }
  }

  /** The runs of a block hold its citations, each once and in order. */
  lemma {:induction false} RunsHoldCites(block: Tokens)
    ensures RefsOfRuns(Runs(block)) == CitesOf(block)
  {
    if block != [] {
      var n := |block| - 1;
      RunsHoldCites(block[..n]);
      if block[n].Cite? {
        var before := Runs(block[..n]);
        ExtendedHolds(before, block, n);
        assert Runs(block) == Extended(before, block, n);
        hide Runs, Extended, RefsOfRuns;
      }
    }
  }

  /** Where the text of the next claim begins: after the last citation so far. */
  function Cursor(runs: seq<Run>): nat
  {
    if runs == [] then 0 else runs[|runs| - 1].end
  }

  /** A run starts with its first citation and ends with its last, with white space in between; the runs
      follow each other. */
  predicate RunOk(block: Tokens, run: Run)
  {
    && run.start < run.end <= |block| && run.refs != [] && block[run.start] == Cite(run.refs[0])
    && forall i :: run.start <= i < run.end ==> block[i].Cite? || IsSpace(block[i].c)
  }

  ghost predicate RunsOk(block: Tokens, runs: seq<Run>)
  {
    && (forall g :: 0 <= g < |runs| ==> RunOk(block, runs[g]))
    && (forall g :: 0 <= g < |runs| ==> Cursor(runs[..g]) <= runs[g].start)
    && (forall i :: Cursor(runs) <= i < |block| ==> block[i].Letter?)
  }

  lemma RunGrows(block: Tokens, n: nat, run: Run)
    requires n < |block| && RunOk(block[..n], run)
    ensures RunOk(block[..n + 1], run)
    ensures block[n].Cite? && BlankBetween(block, run.end, n) ==>
              RunOk(block[..n + 1], Run(run.start, n + 1, run.refs + [block[n].ref]))
  {
    var small, large := block[..n], block[..n + 1];
    assert forall i :: 0 <= i < n ==> small[i] == large[i] == block[i];
  }

  lemma AllGrow(block: Tokens, n: nat, runs: seq<Run>)
    requires n < |block| && RunsOk(block[..n], runs)
    ensures forall g :: 0 <= g < |runs| ==> RunOk(block[..n + 1], runs[g]) && Cursor(runs[..g]) <= runs[g].start
  {
    hide RunOk, Cursor;
    forall g | 0 <= g < |runs| ensures RunOk(block[..n + 1], runs[g]) {
      assert RunOk(block[..n], runs[g]);
      RunGrows(block, n, runs[g]);
    }
  }

  lemma ExtendedOk(block: Tokens, n: nat, before: seq<Run>)
    requires n < |block| && block[n].Cite? && RunsOk(block[..n], before)
    ensures RunsOk(block[..n + 1], Extended(before, block, n))
  {
    hide RunOk, Cursor, BlankBetween;
    var last := |before| - 1;
    AllGrow(block, n, before);
    if before != [] && BlankBetween(block, before[last].end, n) {
      LastRunOk(block[..n], before);
      RunGrows(block, n, before[last]);
      LastReplaced(before, Run(before[last].start, n + 1, before[last].refs + [block[n].ref]), block[..n + 1]);
    } else {
      CursorWithin(block[..n], before);
      OneCite(block, n);
      OneMoreRun(before, Run(n, n + 1, [block[n].ref]), block[..n + 1]);
    }
  }

  lemma LastRunOk(block: Tokens, runs: seq<Run>)
    requires RunsOk(block, runs) && runs != []
    ensures RunOk(block, runs[|runs| - 1])
  {
  }

  lemma LastReplaced(before: seq<Run>, run: Run, block: Tokens)
    requires before != [] && run.start == before[|before| - 1].start && run.end == |block| && RunOk(block, run)
    requires forall g :: 0 <= g < |before| ==> RunOk(block, before[g]) && Cursor(before[..g]) <= before[g].start
    ensures RunsOk(block, before[..|before| - 1] + [run])
  {
    hide RunOk;
    var after := before[..|before| - 1] + [run];
    forall g | 0 <= g < |after| ensures Cursor(after[..g]) <= after[g].start {
      assert after[..g] == before[..g];
    }
  }

  lemma OneMoreRun(before: seq<Run>, run: Run, block: Tokens)
    requires Cursor(before) <= run.start && run.end == |block| && RunOk(block, run)
    requires forall g :: 0 <= g < |before| ==> RunOk(block, before[g]) && Cursor(before[..g]) <= before[g].start
    ensures RunsOk(block, before + [run])
  {
    hide RunOk;
    var after := before + [run];
    forall g | 0 <= g < |after| ensures Cursor(after[..g]) <= after[g].start {
      assert after[..g] == before[..g];
    }
  }

  lemma OneCite(block: Tokens, n: nat)
    requires n < |block| && block[n].Cite?
    ensures RunOk(block[..n + 1], Run(n, n + 1, [block[n].ref]))
  {
  }

  lemma CursorWithin(block: Tokens, runs: seq<Run>)
    requires RunsOk(block, runs)
    ensures Cursor(runs) <= |block|
  {
    if runs != [] {
      LastRunOk(block, runs);
    }
  }

  lemma {:induction false} GroupsOk(block: Tokens)
    ensures RunsOk(block, Runs(block))
  {
    if block != [] {
      var n := |block| - 1;
      GroupsOk(block[..n]);
      var before := Runs(block[..n]);
      assert block[..n + 1] == block;
      hide Runs, RunOk;
      GroupedOne(block, n);
      if block[n].Cite? {
        ExtendedOk(block, n, before);
      } else {
        LetterOk(block, n, before);
      }
    }
  }

  lemma LetterOk(block: Tokens, n: nat, runs: seq<Run>)
    requires n < |block| && block[n].Letter? && RunsOk(block[..n], runs)
    ensures RunsOk(block[..n + 1], runs)
  {
    hide RunOk;
    AllGrow(block, n, runs);
  }

  // ---------------------------------------------------------------------------
  // Packets and passages
  // ---------------------------------------------------------------------------

  datatype Packet = Packet(number: nat, line: nat, text: string, requested: seq<Ref>, citations: seq<Resolution>)

  datatype Passage = Passage(number: nat, line: nat, text: string)

  /** `draft.count("\n", 0, at) + 1` */
  function LineAt(draft: string, at: nat): nat
  {
    multiset(if at <= |draft| then draft[..at] else draft)['\n'] + 1
  }

  /** The letters of `block[low:high]` */
  function LettersIn(block: Tokens, low: nat, high: nat): string
  {
    if high <= low || high > |block| then ""
    else LettersIn(block, low, high - 1) + if block[high - 1].Letter? then [block[high - 1].c] else ""
  }

  /** Where the token `i` stands in the draft. */
  function Position(offset: nat, block: Tokens, i: nat): nat
  {
    offset + |Text(if i <= |block| then block[..i] else block)|
  }

  function Resolutions(refs: seq<Ref>, e: Evidence): (r: seq<Resolution>)
    ensures |r| == |refs| && forall i :: 0 <= i < |r| ==> r[i] == ResolveReference(refs[i], e)
  {
    seq(|refs|, i requires 0 <= i < |refs| => ResolveReference(refs[i], e))
  }

  /** `_plain_passage`: some line that is neither blank nor a heading, and no fence at the start. A line
      starts a heading when its first letter that is not white space is `#`. */
  predicate Plain(text: string)
  {
    var s := Strip(text);
    && !("```" <= s)
    && exists i :: 0 <= i < |s| && !IsSpace(s[i]) && s[i] != '#' && Indented(s[..i])
  }

  /** Nothing but white space since the last line break. */
  predicate Indented(s: string)
  {
    s == "" || LineBreak(s[|s| - 1]) || (IsSpace(s[|s| - 1]) && Indented(s[..|s| - 1]))
  }

  /** Where `splitlines()` splits. */
  predicate LineBreak(c: char)
  {
    || ('\U{000A}' <= c <= '\U{000D}') || ('\U{001C}' <= c <= '\U{001E}')
    || c == '\U{0085}' || c == '\U{2028}' || c == '\U{2029}'
  }

  function PacketOf(draft: string, offset: nat, block: Tokens, cursor: nat, run: Run, number: nat, e: Evidence): Packet
  {
    Packet(number, LineAt(draft, Position(offset, block, run.start)), Strip(LettersIn(block, cursor, run.start)),
           run.refs, Resolutions(run.refs, e))
  }

  /** The packets of a block, after `done` others. */
  function BlockPackets(draft: string, offset: nat, block: Tokens, runs: seq<Run>, done: nat, e: Evidence): (r: seq<Packet>)
    ensures |r| == |runs|
  {
    if runs == [] then []
    else
      var n := |runs| - 1;
      BlockPackets(draft, offset, block, runs[..n], done, e)
      + [PacketOf(draft, offset, block, Cursor(runs[..n]), runs[n], done + n + 1, e)]
  }

  /** What no citation of the block covers: the text after its last citation, or a block without any. */
  function BlockPassages(draft: string, offset: nat, block: Tokens, runs: seq<Run>, done: nat): seq<Passage>
  {
    var tail := Strip(LettersIn(block, Cursor(runs), |block|));
    if Plain(tail) then [Passage(done + 1, LineAt(draft, Position(offset, block, Cursor(runs))), tail)] else []
  }

  function DraftPackets(draft: string, blocks: seq<Block>, e: Evidence): seq<Packet>
  {
    if blocks == [] then []
    else
      var before, b := DraftPackets(draft, blocks[..|blocks| - 1], e), blocks[|blocks| - 1];
      before + BlockPackets(draft, b.offset, Tokenized(b.text), Runs(Tokenized(b.text)), |before|, e)
  }

  function DraftPassages(draft: string, blocks: seq<Block>): seq<Passage>
  {
    if blocks == [] then []
    else
      var before, b := DraftPassages(draft, blocks[..|blocks| - 1]), blocks[|blocks| - 1];
      before + BlockPassages(draft, b.offset, Tokenized(b.text), Runs(Tokenized(b.text)), |before|)
  }

  lemma PackedOne(draft: string, offset: nat, block: Tokens, runs: seq<Run>, g: nat, done: nat, e: Evidence)
    requires g < |runs|
    ensures BlockPackets(draft, offset, block, runs[..g + 1], done, e)
         == BlockPackets(draft, offset, block, runs[..g], done, e)
            + [PacketOf(draft, offset, block, Cursor(runs[..g]), runs[g], done + g + 1, e)]
    ensures Cursor(runs[..g + 1]) == runs[g].end
  {
    hide PacketOf;
    assert runs[..g + 1][..g] == runs[..g];
  }

  lemma PackedNextRun(draft: string, offset: nat, block: Tokens, runs: seq<Run>, g: nat, packets0: seq<Packet>, e: Evidence)
    requires g < |runs|
    ensures packets0 + BlockPackets(draft, offset, block, runs[..g + 1], |packets0|, e)
         == (packets0 + BlockPackets(draft, offset, block, runs[..g], |packets0|, e))
            + [PacketOf(draft, offset, block, Cursor(runs[..g]), runs[g], |packets0| + g + 1, e)]
    ensures Cursor(runs[..g + 1]) == runs[g].end
  {
    hide BlockPackets, PacketOf, Cursor;
    PackedOne(draft, offset, block, runs, g, |packets0|, e);
    Associative(packets0, BlockPackets(draft, offset, block, runs[..g], |packets0|, e),
                [PacketOf(draft, offset, block, Cursor(runs[..g]), runs[g], |packets0| + g + 1, e)]);
  }

  lemma NoneYet(draft: string, offset: nat, block: Tokens, runs: seq<Run>, packets0: seq<Packet>, e: Evidence)
    ensures packets0 + BlockPackets(draft, offset, block, runs[..0], |packets0|, e) == packets0 && Cursor(runs[..0]) == 0
  {
  }

  method PackRuns(draft: string, b: Block, block: Tokens, runs: seq<Run>, packets0: seq<Packet>, e: Evidence)
    returns (packets: seq<Packet>, cursor: nat)
    ensures packets == packets0 + BlockPackets(draft, b.offset, block, runs, |packets0|, e)
    ensures cursor == Cursor(runs)
  {
    hide PacketOf, BlockPackets, Cursor;
    packets, cursor := packets0, 0;
    NoneYet(draft, b.offset, block, runs, packets0, e);
    for g := 0 to |runs|
      invariant cursor == Cursor(runs[..g]) && |packets| == |packets0| + g
      invariant packets == packets0 + BlockPackets(draft, b.offset, block, runs[..g], |packets0|, e)
    {
      PackedNextRun(draft, b.offset, block, runs, g, packets0, e);
      packets := packets + [PacketOf(draft, b.offset, block, cursor, runs[g], |packets| + 1, e)];
      cursor := runs[g].end;
    }
    assert runs[..|runs|] == runs;
  }

  method PackBlock(draft: string, b: Block, packets0: seq<Packet>, uncited0: seq<Passage>, e: Evidence)
    returns (packets: seq<Packet>, uncited: seq<Passage>)
    ensures var block := Tokenized(b.text);
            && packets == packets0 + BlockPackets(draft, b.offset, block, Runs(block), |packets0|, e)
            && uncited == uncited0 + BlockPassages(draft, b.offset, block, Runs(block), |uncited0|)
  {
    hide BlockPackets, Runs, Tokenized, Strip, Plain, LineAt, Position, LettersIn;
    var block := Tokenized(b.text);
    var runs := CitationGroups(block);
    var cursor;
    packets, cursor := PackRuns(draft, b, block, runs, packets0, e);
    uncited := uncited0;
    var tail := Strip(LettersIn(block, cursor, |block|));
    if Plain(tail) {
      uncited := uncited + [Passage(|uncited| + 1, LineAt(draft, Position(b.offset, block, cursor)), tail)];
    }
  }

  lemma PackedNext(draft: string, blocks: seq<Block>, k: nat, e: Evidence)
    requires k < |blocks|
    ensures var before, b := DraftPackets(draft, blocks[..k], e), blocks[k]; var block := Tokenized(b.text);
            DraftPackets(draft, blocks[..k + 1], e)
            == before + BlockPackets(draft, b.offset, block, Runs(block), |before|, e)
    ensures var before, b := DraftPassages(draft, blocks[..k]), blocks[k]; var block := Tokenized(b.text);
            DraftPassages(draft, blocks[..k + 1])
            == before + BlockPassages(draft, b.offset, block, Runs(block), |before|)
  {
    hide BlockPackets, BlockPassages, Tokenized, Runs;
    assert blocks[..k + 1][..k] == blocks[..k];
  }

  /** The packet loop of `build_review_bundle` */
  method BuildPackets(draft: string, e: Evidence) returns (packets: seq<Packet>, uncited: seq<Passage>)
    ensures packets == DraftPackets(draft, Blocks(draft), e)
    ensures uncited == DraftPassages(draft, Blocks(draft))
    ensures WellPacked(packets, draft, e) && WellListed(uncited)
  {
    hide BlockPackets, BlockPassages, Tokenized, Runs, Blocks, Placed, Blank, WellPacked, WellListed;
    var blocks := FindBlocks(draft);
    packets, uncited := [], [];
    assert blocks[..0] == [];
    for k := 0 to |blocks|
      invariant packets == DraftPackets(draft, blocks[..k], e)
      invariant uncited == DraftPassages(draft, blocks[..k])
    {
      hide DraftPackets, DraftPassages;
      PackedNext(draft, blocks, k, e);
      packets, uncited := PackBlock(draft, blocks[k], packets, uncited, e);
    }
    assert blocks[..|blocks|] == blocks;
    DraftWellPacked(draft, blocks, e);
    DraftWellListed(draft, blocks);
  }

  // ---------------------------------------------------------------------------
  // What the packets hold
  // ---------------------------------------------------------------------------

  function Requested(packets: seq<Packet>): seq<Ref>
  {
    if packets == [] then [] else Requested(packets[..|packets| - 1]) + packets[|packets| - 1].requested
  }

  lemma {:induction false} RequestedAppend(a: seq<Packet>, b: seq<Packet>)
    ensures Requested(a + b) == Requested(a) + Requested(b)
  {
    if b == [] {
      assert a + b == a;
    } else {
      var n := |b| - 1;
      LastOfAppend(a, b);
      RequestedAppend(a, b[..n]);
      Associative(Requested(a), Requested(b[..n]), b[n].requested);
    }
  }

  lemma {:induction false} BlockRequests(draft: string, offset: nat, block: Tokens, runs: seq<Run>, done: nat, e: Evidence)
    ensures Requested(BlockPackets(draft, offset, block, runs, done, e)) == RefsOfRuns(runs)
  {
    hide Strip, Resolutions, LineAt, Position;
    if runs != [] {
      var n := |runs| - 1;
      BlockRequests(draft, offset, block, runs[..n], done, e);
      var packets := BlockPackets(draft, offset, block, runs, done, e);
      assert packets[..n] == BlockPackets(draft, offset, block, runs[..n], done, e);
    }
  }

  lemma ScanAllAppend(blocks: seq<Block>, b: Block)
    ensures ScanAll(blocks + [b]) == ScanAll(blocks) + Scan(b.text)
  {
    hide Scan;
    if blocks == [] {
      assert [] + [b] == [b] + [];
      ScanAllPrepend(b, []);
      EmptyScan();
    } else {
      ScanAllAppend(blocks[1..], b);
      assert blocks + [b] == [blocks[0]] + (blocks[1..] + [b]) && blocks == [blocks[0]] + blocks[1..];
      ScanAllPrepend(blocks[0], blocks[1..] + [b]);
      ScanAllPrepend(blocks[0], blocks[1..]);
      Associative(Scan(blocks[0].text), ScanAll(blocks[1..]), Scan(b.text));
    }
  }

  /** The packets hold the citations of the blocks, each in exactly one packet and in order. */
  lemma {:induction false} BlocksPacked(draft: string, blocks: seq<Block>, e: Evidence)
    ensures Requested(DraftPackets(draft, blocks, e)) == ScanAll(blocks)
  {
    hide BlockPackets, Runs, ScanAll;
    if blocks == [] {
      EmptyScan();
    } else {
      var n := |blocks| - 1;
      var before, b := DraftPackets(draft, blocks[..n], e), blocks[n];
      var block := Tokenized(b.text);
      BlocksPacked(draft, blocks[..n], e);
      RunsHoldCites(block);
      TokenizedExact(b.text);
      BlockRequests(draft, b.offset, block, Runs(block), |before|, e);
      RequestedAppend(before, BlockPackets(draft, b.offset, block, Runs(block), |before|, e));
      ScanAllAppend(blocks[..n], b);
      assert blocks == blocks[..n] + [b];
    }
  }

  /** The packets hold the citations of the draft, each in exactly one packet and in draft order, if and only
      if no citation of the draft contains a blank line. */
  lemma EveryCitationPacked(draft: string, e: Evidence)
    ensures Requested(DraftPackets(draft, Blocks(draft), e)) == Scan(draft) <==> Unbroken(Scan(draft))
  {
    BlocksPacked(draft, Blocks(draft), e);
    BlocksKeepCitations(draft);
  }

  /** A packet is numbered by its place, resolves what its citations name, and gives the line on which its
      first citation stands. */
  ghost predicate PacketOk(p: Packet, number: nat, draft: string, e: Evidence)
  {
    && p.number == number && p.citations == Resolutions(p.requested, e) && p.requested != []
    && exists at :: LineOfCitation(draft, at, p.requested[0], p.line)
  }

  predicate LineOfCitation(draft: string, at: nat, ref: Ref, line: nat)
  {
    at <= |draft| && Cited(ref) <= draft[at..] && line == LineAt(draft, at)
  }

  ghost predicate WellPacked(packets: seq<Packet>, draft: string, e: Evidence)
  {
    forall i :: 0 <= i < |packets| ==> PacketOk(packets[i], i + 1, draft, e)
  }

  lemma OneMorePacked(packets: seq<Packet>, p: Packet, draft: string, e: Evidence)
    requires WellPacked(packets, draft, e) && PacketOk(p, |packets| + 1, draft, e)
    ensures WellPacked(packets + [p], draft, e)
  {
    hide PacketOk;
  }

  lemma {:induction false} TextAppend(a: Tokens, b: Tokens)
    ensures Text(a + b) == Text(a) + Text(b)
  {
    hide TextOf;
    if b == [] {
      assert a + b == a;
    } else {
      var n := |b| - 1;
      LastOfAppend(a, b);
      TextAppend(a, b[..n]);
      Associative(Text(a), Text(b[..n]), TextOf(b[n]));
    }
  }

  lemma SplitText(block: Tokens, i: nat)
    requires i < |block|
    ensures Text(block) == Text(block[..i]) + TextOf(block[i]) + Text(block[i + 1..])
  {
    OneMoreText(block, i);
    hide Text, TextOf;
    SplitAt(block, i + 1);
    TextAppend(block[..i + 1], block[i + 1..]);
  }

  lemma OneMoreText(block: Tokens, i: nat)
    requires i < |block|
    ensures Text(block[..i + 1]) == Text(block[..i]) + TextOf(block[i])
  {
    hide TextOf;
    assert block[..i + 1][..i] == block[..i];
  }

  /** A citation token stands in the text where its position says. */
  lemma CiteStands(b: Block, draft: string, i: nat)
    requires Placed(b, draft) && i < |Tokenized(b.text)| && Tokenized(b.text)[i].Cite?
    ensures var at := Position(b.offset, Tokenized(b.text), i);
            at <= |draft| && Cited(Tokenized(b.text)[i].ref) <= draft[at..]
  {
    hide Text, Tokenized, Cited;
    var block := Tokenized(b.text);
    TokenizedExact(b.text);
    SplitText(block, i);
    StandsAt(draft, b.offset, Text(block[..i]), Cited(block[i].ref), Text(block[i + 1..]));
  }

  lemma StandsAt(draft: string, offset: nat, p: string, c: string, q: string)
    requires offset + |p + c + q| <= |draft| && draft[offset..offset + |p + c + q|] == p + c + q
    ensures c <= draft[offset + |p|..]
  {
    var t, at := p + c + q, offset + |p|;
    assert forall i :: 0 <= i < |c| ==> draft[at..][i] == draft[offset..offset + |t|][|p| + i] == t[|p| + i] == c[i];
  }

  lemma PacketWell(draft: string, b: Block, run: Run, cursor: nat, number: nat, e: Evidence)
    requires Placed(b, draft) && RunOk(Tokenized(b.text), run)
    ensures PacketOk(PacketOf(draft, b.offset, Tokenized(b.text), cursor, run, number, e), number, draft, e)
  {
    var block := Tokenized(b.text);
    var p := PacketOf(draft, b.offset, block, cursor, run, number, e);
    CiteStands(b, draft, run.start);
    assert LineOfCitation(draft, Position(b.offset, block, run.start), run.refs[0], p.line);
  }

  lemma {:induction false} BlockWellPacked(before: seq<Packet>, draft: string, b: Block, runs: seq<Run>, e: Evidence)
    requires WellPacked(before, draft, e) && Placed(b, draft)
    requires forall g :: 0 <= g < |runs| ==> RunOk(Tokenized(b.text), runs[g])
    ensures WellPacked(before + BlockPackets(draft, b.offset, Tokenized(b.text), runs, |before|, e), draft, e)
  {
    hide WellPacked, Cursor, PacketOf, PacketOk, RunOk, Placed, Tokenized;
    var block := Tokenized(b.text);
    if runs == [] {
      assert before + BlockPackets(draft, b.offset, block, [], |before|, e) == before;
    } else {
      var n := |runs| - 1;
      assert runs[..n + 1] == runs;
      PackedOne(draft, b.offset, block, runs, n, |before|, e);
      BlockWellPacked(before, draft, b, runs[..n], e);
      var first := BlockPackets(draft, b.offset, block, runs[..n], |before|, e);
      var last := PacketOf(draft, b.offset, block, Cursor(runs[..n]), runs[n], |before| + n + 1, e);
      Associative(before, first, [last]);
      PacketWell(draft, b, runs[n], Cursor(runs[..n]), |before| + n + 1, e);
      OneMorePacked(before + first, last, draft, e);
    }
  }

  lemma {:induction false} DraftWellPacked(draft: string, blocks: seq<Block>, e: Evidence)
    requires forall b :: b in blocks ==> Placed(b, draft)
    ensures WellPacked(DraftPackets(draft, blocks, e), draft, e)
  {
    if blocks != [] {
      hide WellPacked, BlockPackets, Placed, RunOk;
      var before, b := DraftPackets(draft, blocks[..|blocks| - 1], e), blocks[|blocks| - 1];
      DraftWellPacked(draft, blocks[..|blocks| - 1], e);
      GroupsOk(Tokenized(b.text));
      BlockWellPacked(before, draft, b, Runs(Tokenized(b.text)), e);
    } else {
      hide PacketOk;
    }
  }

  /** Passages are numbered by their place, and each has prose to judge. */
  predicate WellListed(uncited: seq<Passage>)
  {
    forall i :: 0 <= i < |uncited| ==> uncited[i].number == i + 1 && Plain(uncited[i].text)
  }

  lemma {:induction false} DraftWellListed(draft: string, blocks: seq<Block>)
    ensures WellListed(DraftPassages(draft, blocks))
  {
    hide Plain, Strip, LettersIn, LineAt, Position, Tokenized, Runs;
    if blocks != [] {
      DraftWellListed(draft, blocks[..|blocks| - 1]);
    }
  }
}
