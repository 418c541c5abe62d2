/** What the packets and passages of a review bundle say, told from the draft: every block is a row of claims,
    each followed by its citations, and a tail (src/memline/wiki/review.py). */
module PacketTexts {
  import opened Citations
  import opened Draft
  import opened Packets
  import opened Sequences
  import opened Strings

  // ---------------------------------------------------------------------------
  // Tokens of a part are part of the tokens
  // ---------------------------------------------------------------------------

  lemma TextCut(block: Tokens, i: nat)
    requires i <= |block|
    ensures Text(block) == Text(block[..i]) + Text(block[i..])
  {
    hide Text;
    SplitAt(block, i);
    TextAppend(block[..i], block[i..]);
  }

  lemma PrefixOfText(t: string, i: nat)
    requires i <= |Tokenized(t)|
    ensures t == Text(Tokenized(t)[..i]) + Text(Tokenized(t)[i..])
  {
    TokenizedExact(t);
    TextCut(Tokenized(t), i);
  }

  /** Reading a text up to the end of one of its tokens finds the tokens up to there. */
  lemma {:induction false} PrefixTokens(t: string, i: nat)
    requires i <= |Tokenized(t)|
    ensures Tokenized(Text(Tokenized(t)[..i])) == Tokenized(t)[..i]
  {
    hide Text, TextOf, IsRef;
    if i == 0 {
      NoTokens();
      assert Tokenized(t)[..0] == [];
    } else {
      var m := Match(t);
      var n := if m.Some? then |m.value| + 3 else 1;
      var x := if m.Some? then Cite(m.value) else Letter(t[0]);
      PrefixTokens(t[n..], i - 1);
      assert Tokenized(t)[..i] == [x] + Tokenized(t[n..])[..i - 1];
      PrependText(x, Tokenized(t[n..])[..i - 1]);
      PrefixOfText(t, i);
      FirstToken(t, Text(Tokenized(t)[..i]), Text(Tokenized(t)[i..]), Text(Tokenized(t[n..])[..i - 1]));
    }
  }

  /** The first token of a text that goes on is the first token of what there is. */
  lemma FirstToken(t: string, p: string, q: string, rest: string)
    requires t == p + q && t != "" && p == TextOf(if Match(t).Some? then Cite(Match(t).value) else Letter(t[0])) + rest
    ensures p != "" && Match(p) == Match(t) && p[0] == t[0]
    ensures p[if Match(t).Some? then |Match(t).value| + 3 else 1..] == rest
  {
    if Match(t).Some? {
      MatchExact(t, Match(t).value);
      MatchCited(Match(t).value, rest);
    } else if Match(p).Some? {
      MatchPrefix(p, q, Match(p).value);
    }
  }

  lemma {:induction false} SuffixTokens(t: string, i: nat)
    requires i <= |Tokenized(t)|
    ensures Tokenized(Text(Tokenized(t)[i..])) == Tokenized(t)[i..]
  {
    hide Text, TextOf, IsRef;
    TokenizedExact(t);
    if i == 0 {
      assert Tokenized(t)[0..] == Tokenized(t);
    } else {
      var n := if Match(t).Some? then |Match(t).value| + 3 else 1;
      SuffixTokens(t[n..], i - 1);
      assert Tokenized(t)[i..] == Tokenized(t[n..])[i - 1..];
    }
  }

  lemma SliceTokens(t: string, i: nat, j: nat)
    requires i <= j <= |Tokenized(t)|
    ensures Tokenized(Text(Tokenized(t)[i..j])) == Tokenized(t)[i..j]
  {
    var block := Tokenized(t);
    PrefixTokens(t, j);
    SuffixTokens(Text(block[..j]), i);
    assert block[..j][i..] == block[i..j];
  }

  /** The part of the draft that the tokens `i` to `j` of the block stand for. */
  lemma SliceStands(draft: string, b: Block, i: nat, j: nat)
    requires Placed(b, draft) && i <= j <= |Tokenized(b.text)|
    ensures var block := Tokenized(b.text); var low, high := Position(b.offset, block, i), Position(b.offset, block, j);
            && b.offset <= low <= high <= b.offset + |b.text| <= |draft|
            && draft[low..high] == Text(block[i..j])
            && Scan(draft[low..high]) == CitesOf(block[i..j])
  {
    hide Text, Tokenized, Scan, CitesOf;
    var block := Tokenized(b.text);
    var x, y, z := Text(block[..i]), Text(block[i..j]), Text(block[j..]);
    TokenizedExact(b.text);
    TextCut(block, j);
    TextCut(block[..j], i);
    assert block[..j][..i] == block[..i] && block[..j][i..] == block[i..j];
    SliceTokens(b.text, i, j);
    TokenizedExact(y);
    MiddlePart(draft, b.offset, x, y, z);
  }

  lemma MiddlePart(draft: string, offset: nat, x: string, y: string, z: string)
    requires offset + |x + y + z| <= |draft| && draft[offset..offset + |x + y + z|] == x + y + z
    ensures draft[offset + |x|..offset + |x + y|] == y
  {
    SliceOfSlice(draft, offset, offset + |x + y + z|, |x|, |x + y|);
    Parts(x, y, z);
  }

  // ---------------------------------------------------------------------------
  // Between the citations
  // ---------------------------------------------------------------------------

  predicate OnlyLetters(block: Tokens, low: nat, high: nat)
    requires high <= |block|
  {
    forall i :: low <= i < high ==> block[i].Letter?
  }

  /** Between two runs there are letters, not all of them white space; a run ends with its last citation. */
  predicate RunApart(block: Tokens, runs: seq<Run>, g: nat)
    requires g < |runs|
  {
    var run := runs[g];
    && Cursor(runs[..g]) <= run.start < run.end <= |block| && run.refs != []
    && OnlyLetters(block, Cursor(runs[..g]), run.start)
    && (g > 0 ==> !BlankBetween(block, Cursor(runs[..g]), run.start))
    && block[run.end - 1].Cite? && block[run.start].Cite?
    && forall i :: run.start <= i < run.end ==> block[i].Cite? || IsSpace(block[i].c)
  }

  ghost predicate RunsApart(block: Tokens, runs: seq<Run>)
  {
    forall g :: 0 <= g < |runs| ==> RunApart(block, runs, g)
  }

  lemma ApartGrows(block: Tokens, n: nat, runs: seq<Run>, g: nat)
    requires n < |block| && g < |runs| && RunApart(block[..n], runs, g)
    ensures RunApart(block[..n + 1], runs, g)
  {
    var small, large := block[..n], block[..n + 1];
    assert forall i :: 0 <= i < n ==> small[i] == large[i];
    if g > 0 {
      var k :| Cursor(runs[..g]) <= k < runs[g].start && !(small[k].Letter? && IsSpace(small[k].c));
      assert !(large[k].Letter? && IsSpace(large[k].c));
    }
  }

  lemma ApartPrefix(block: Tokens, runs: seq<Run>, others: seq<Run>, g: nat)
    requires g < |runs| && g < |others| && runs[..g + 1] == others[..g + 1] && RunApart(block, runs, g)
    ensures RunApart(block, others, g)
  {
    assert runs[g] == runs[..g + 1][g] == others[g];
    assert runs[..g] == runs[..g + 1][..g] == others[..g];
  }

  lemma AppendedApart(block: Tokens, n: nat, before: seq<Run>)
    requires n < |block| && block[n].Cite? && RunsOk(block[..n], before)
    requires before != [] ==> !BlankBetween(block, before[|before| - 1].end, n)
    ensures RunApart(block[..n + 1], before + [Run(n, n + 1, [block[n].ref])], |before|)
  {
    CursorWithin(block[..n], before);
    var after, large := before + [Run(n, n + 1, [block[n].ref])], block[..n + 1];
    assert after[..|before|] == before;
    assert forall i :: Cursor(before) <= i < n ==> large[i] == block[..n][i] && large[i].Letter?;
    if before != [] {
      var k :| Cursor(before) <= k < n && !(block[k].Letter? && IsSpace(block[k].c));
      assert !(large[k].Letter? && IsSpace(large[k].c));
    }
  }

  lemma StretchedApart(block: Tokens, n: nat, before: seq<Run>)
    requires n < |block| && block[n].Cite? && before != [] && RunApart(block[..n], before, |before| - 1)
    requires BlankBetween(block, before[|before| - 1].end, n) && before[|before| - 1].end <= n
    ensures RunApart(block[..n + 1], Extended(before, block, n), |before| - 1)
  {
    var last, after := |before| - 1, Extended(before, block, n);
    ApartGrows(block, n, before, last);
    assert after[..last] == before[..last];
    var large := block[..n + 1];
    forall i | before[last].start <= i < n + 1 ensures large[i].Cite? || IsSpace(large[i].c) {
      if before[last].end <= i < n {
        assert block[i].Letter? && IsSpace(block[i].c);
      }
    }
  }

  lemma {:induction false} GroupsApart(block: Tokens)
    ensures RunsApart(block, Runs(block))
  {
    if block != [] {
      var n := |block| - 1;
      var before, after := Runs(block[..n]), Runs(block);
      GroupsApart(block[..n]);
      GroupsOk(block[..n]);
      assert block[..n + 1] == block;
      CursorWithin(block[..n], before);
      hide RunApart, RunsOk, BlankBetween;
      forall g | 0 <= g < |after| ensures RunApart(block, after, g) {
        if g < |before| {
          ApartGrows(block, n, before, g);
        }
        ApartStep(block, n, before, g);
      }
    }
  }

  lemma ApartStep(block: Tokens, n: nat, before: seq<Run>, g: nat)
    requires n == |block| - 1 && block[..n + 1] == block && RunsOk(block[..n], before) && RunsApart(block[..n], before)
    requires before == Runs(block[..n]) && g < |Runs(block)| && Cursor(before) <= n
    requires g < |before| ==> RunApart(block, before, g)
    ensures RunApart(block, Runs(block), g)
  {
    hide RunApart, RunsOk;
    GroupedOne(block, n);
    if block[n].Cite? {
      if before != [] && BlankBetween(block, before[|before| - 1].end, n) {
        if g == |before| - 1 {
          StretchedApart(block, n, before);
        } else {
          ApartPrefix(block, before, Runs(block), g);
        }
      } else if g == |before| {
        AppendedApart(block, n, before);
      } else {
        ApartPrefix(block, before, Runs(block), g);
      }
    }
  }

  lemma LetterAdds(block: Tokens, low: nat, high: nat)
    requires low < high <= |block| && block[high - 1].Letter?
    ensures LettersIn(block, low, high) == LettersIn(block, low, high - 1) + [block[high - 1].c]
    ensures Text(block[low..high]) == Text(block[low..high - 1]) + [block[high - 1].c]
    ensures CitesOf(block[low..high]) == CitesOf(block[low..high - 1])
  {
    var part := block[low..high];
    assert part[..|part| - 1] == block[low..high - 1] && part[|part| - 1] == block[high - 1];
  }

  lemma NoLetters(block: Tokens, at: nat)
    ensures LettersIn(block, at, at) == ""
  {
  }

  lemma {:induction false} LettersAreText(block: Tokens, low: nat, high: nat)
    requires low <= high <= |block| && OnlyLetters(block, low, high)
    ensures LettersIn(block, low, high) == Text(block[low..high]) && CitesOf(block[low..high]) == []
  {
    hide Text, CitesOf, LettersIn;
    if low < high {
      LettersAreText(block, low, high - 1);
      LetterAdds(block, low, high);
    } else {
      NoTokens();
      NoLetters(block, low);
      assert block[low..high] == [];
    }
  }

  // ---------------------------------------------------------------------------
  // The text of a group
  // ---------------------------------------------------------------------------

  /** The text is these citations, with nothing but white space in between. */
  ghost predicate CitationsOnly(t: string, refs: seq<Ref>)
    decreases |refs|, 1
  {
    if |refs| <= 1 then |refs| == 1 && t == Cited(refs[0])
    else
      exists k :: GroupGoesOn(t, refs, k)
  }

  ghost predicate GroupGoesOn(t: string, refs: seq<Ref>, k: nat)
    requires |refs| > 1
    decreases |refs|, 0
  {
    && |Cited(refs[0])| <= k <= |t| && Cited(refs[0]) <= t && Blank(t[|Cited(refs[0])|..k])
    && CitationsOnly(t[k..], refs[1..])
  }

  /** Where the next citation stands. */
  lemma {:induction false} NextCite(block: Tokens, i: nat) returns (k: nat)
    requires i < |block| && block[|block| - 1].Cite?
    ensures i <= k < |block| && block[k].Cite? && OnlyLetters(block, i, k)
    decreases |block| - i
  {
    if block[i].Cite? {
      k := i;
    } else {
      k := NextCite(block, i + 1);
    }
  }

  lemma {:induction false} BlankTokens(block: Tokens)
    requires forall i :: 0 <= i < |block| ==> block[i].Letter? && IsSpace(block[i].c)
    ensures Blank(Text(block)) && CitesOf(block) == []
  {
    if block != [] {
      BlankTokens(block[..|block| - 1]);
    }
  }

  lemma CitesCut(block: Tokens, i: nat)
    requires i <= |block|
    ensures CitesOf(block) == CitesOf(block[..i]) + CitesOf(block[i..])
  {
    hide CitesOf;
    SplitAt(block, i);
    CitesAppend(block[..i], block[i..]);
  }

  lemma {:induction false} CitesAppend(a: Tokens, b: Tokens)
    ensures CitesOf(a + b) == CitesOf(a) + CitesOf(b)
  {
    if b == [] {
      assert a + b == a;
    } else {
      var n := |b| - 1;
      LastOfAppend(a, b);
      CitesAppend(a, b[..n]);
      Associative(CitesOf(a), CitesOf(b[..n]), if b[n].Cite? then [b[n].ref] else []);
    }
  }

  lemma OneToken(x: Token)
    ensures Text([x]) == TextOf(x) && CitesOf([x]) == if x.Cite? then [x.ref] else []
  {
    assert [x][..0] == [];
    assert [x] + [] == [x];
    NoTokens();
    PrependText(x, []);
  }

  lemma {:induction false} GroupReads(block: Tokens)
    requires block != [] && block[0].Cite? && block[|block| - 1].Cite?
    requires forall i :: 0 <= i < |block| ==> block[i].Cite? || IsSpace(block[i].c)
    ensures CitationsOnly(Text(block), CitesOf(block)) && CitesOf(block) != []
  {
    hide Text, CitesOf;
    OneToken(block[0]);
    if |block| == 1 {
      assert block == [block[0]];
    } else {
      var k := NextCite(block, 1);
      var first, gap, rest := [block[0]], block[1..k], block[k..];
      GroupReads(rest);
      BlankTokens(gap);
      assert block[..k] == first + gap;
      TextCut(block, k);
      CitesCut(block, k);
      TextAppend(first, gap);
      CitesAppend(first, gap);
      GroupPrepends(block[0].ref, Text(gap), Text(rest), CitesOf(rest));
    }
  }

  lemma GroupPrepends(ref: Ref, gap: string, rest: string, refs: seq<Ref>)
    requires Blank(gap) && refs != [] && CitationsOnly(rest, refs)
    ensures CitationsOnly(Cited(ref) + gap + rest, [ref] + [] + refs)
  {
    var t, all, k := Cited(ref) + gap + rest, [ref] + [] + refs, |Cited(ref) + gap|;
    hide CitationsOnly;
    assert all[1..] == refs && all[0] == ref;
    assert t[k..] == rest && t[|Cited(ref)|..k] == gap;
    assert GroupGoesOn(t, all, k);
    MoreThanOne(t, all, k);
  }

  lemma MoreThanOne(t: string, refs: seq<Ref>, k: nat)
    requires |refs| > 1 && GroupGoesOn(t, refs, k)
    ensures CitationsOnly(t, refs)
  {
  }

  /** A run holds just the citations it spans. */
  predicate RunFull(block: Tokens, run: Run)
  {
    run.start < run.end <= |block| && CitesOf(block[run.start..run.end]) == run.refs
  }

  lemma FullGrows(block: Tokens, n: nat, run: Run)
    requires n < |block| && RunFull(block[..n], run)
    ensures RunFull(block[..n + 1], run)
  {
    assert block[..n][run.start..run.end] == block[..n + 1][run.start..run.end];
  }

  lemma LastCite(part: Tokens)
    requires part != [] && part[|part| - 1].Cite?
    ensures CitesOf(part) == CitesOf(part[..|part| - 1]) + [part[|part| - 1].ref]
  {
  }

  lemma BlankAdds(part: Tokens, k: nat)
    requires k <= |part| && forall i :: k <= i < |part| ==> part[i].Letter? && IsSpace(part[i].c)
    ensures CitesOf(part) == CitesOf(part[..k])
  {
    hide CitesOf;
    BlankTokens(part[k..]);
    CitesCut(part, k);
  }

  lemma FullStretches(block: Tokens, n: nat, run: Run)
    requires n < |block| && block[n].Cite? && RunFull(block[..n], run) && BlankBetween(block, run.end, n)
    ensures RunFull(block[..n + 1], Run(run.start, n + 1, run.refs + [block[n].ref]))
  {
    hide CitesOf;
    var part := block[run.start..n + 1];
    assert block[..n + 1][run.start..n + 1] == part;
    LastCite(part);
    var inner := block[run.start..n];
    assert part[..|part| - 1] == inner;
    forall i | run.end - run.start <= i < |inner| ensures inner[i].Letter? && IsSpace(inner[i].c) {
      assert inner[i] == block[run.start + i];
    }
    BlankAdds(inner, run.end - run.start);
    assert inner[..run.end - run.start] == block[..n][run.start..run.end];
  }

  lemma FullAlone(block: Tokens, n: nat)
    requires n < |block| && block[n].Cite?
    ensures RunFull(block[..n + 1], Run(n, n + 1, [block[n].ref]))
  {
    OneToken(block[n]);
    assert block[..n + 1][n..n + 1] == [block[n]];
  }

  lemma {:induction false} GroupsFull(block: Tokens)
    ensures forall g :: 0 <= g < |Runs(block)| ==> RunFull(block, Runs(block)[g])
  {
    if block != [] {
      var n := |block| - 1;
      var before := Runs(block[..n]);
      GroupsFull(block[..n]);
      assert block[..n + 1] == block;
      hide RunFull, BlankBetween;
      forall g | 0 <= g < |before| ensures RunFull(block, before[g]) {
        FullGrows(block, n, before[g]);
      }
      if block[n].Cite? {
        FullAlone(block, n);
        if before != [] && BlankBetween(block, before[|before| - 1].end, n) {
          FullStretches(block, n, before[|before| - 1]);
        }
      }
    }
  }

  // ---------------------------------------------------------------------------
  // A block, read from its start to its end
  // ---------------------------------------------------------------------------

  /** A claim and its citations, as the draft has them: from `from` the text of the claim, from `cites` its
      citations, up to `end`. */
  datatype Stretch = Stretch(from: nat, cites: nat, end: nat)

  function LineBreaks(t: string): nat
  {
    if t == "" then 0 else LineBreaks(t[..|t| - 1]) + if t[|t| - 1] == '\n' then 1 else 0
  }

  lemma {:induction false} LineBreaksCounted(t: string)
    ensures LineBreaks(t) == multiset(t)['\n']
  {
    if t != "" {
      LineBreaksCounted(t[..|t| - 1]);
      SplitLast(t);
    }
  }

  lemma LineNumber(draft: string, at: nat)
    requires at <= |draft|
    ensures LineAt(draft, at) == LineBreaks(draft[..at]) + 1
  {
    LineBreaksCounted(draft[..at]);
  }

  /** The packet is what stands on the stretch: the claim holds no citation, the group is the packet's
      citations and nothing else but white space, and the text is the claim less the white space around it. */
  ghost predicate ReadOn(p: Packet, s: Stretch, draft: string)
  {
    && s.from <= s.cites < s.end <= |draft|
    && Scan(draft[s.from..s.cites]) == [] && CitationsOnly(draft[s.cites..s.end], p.requested)
    && p.text == Strip(draft[s.from..s.cites]) && p.line == LineBreaks(draft[..s.cites]) + 1
  }

  function StretchOf(offset: nat, block: Tokens, runs: seq<Run>, g: nat): Stretch
    requires g < |runs|
  {
    Stretch(Position(offset, block, Cursor(runs[..g])), Position(offset, block, runs[g].start), Position(offset, block, runs[g].end))
  }

  lemma RunReads(draft: string, b: Block, runs: seq<Run>, g: nat)
    requires Placed(b, draft) && g < |runs| && RunApart(Tokenized(b.text), runs, g)
    ensures var block, s := Tokenized(b.text), StretchOf(b.offset, Tokenized(b.text), runs, g);
            && b.offset <= s.from <= s.cites < s.end <= b.offset + |b.text| <= |draft|
            && Scan(draft[s.from..s.cites]) == []
            && CitationsOnly(draft[s.cites..s.end], CitesOf(block[runs[g].start..runs[g].end]))
            && LettersIn(block, Cursor(runs[..g]), runs[g].start) == draft[s.from..s.cites]
            && (g > 0 ==> !Blank(draft[s.from..s.cites]))
  {
    hide Text, Tokenized, Scan, CitesOf, Position, CitationsOnly;
    var block, run, cursor := Tokenized(b.text), runs[g], Cursor(runs[..g]);
    SliceStands(draft, b, cursor, run.start);
    SliceStands(draft, b, run.start, run.end);
    LettersAreText(block, cursor, run.start);
    var group := block[run.start..run.end];
    assert forall i :: 0 <= i < |group| ==> group[i] == block[run.start + i];
    GroupReads(group);
    GroupNotEmpty(Text(group), CitesOf(group));
    if g > 0 {
      SaysSomething(block, cursor, run.start);
    }
  }

  lemma GroupNotEmpty(t: string, refs: seq<Ref>)
    requires CitationsOnly(t, refs)
    ensures t != ""
  {
    if |refs| > 1 {
      var k :| GroupGoesOn(t, refs, k);
    }
  }

  lemma {:induction false} SaysSomething(block: Tokens, low: nat, high: nat)
    requires low <= high <= |block| && OnlyLetters(block, low, high) && !BlankBetween(block, low, high)
    ensures !Blank(Text(block[low..high]))
  {
    if low < high {
      var part := block[low..high];
      assert part[..high - low - 1] == block[low..high - 1] && part[high - low - 1] == block[high - 1];
      var before := Text(block[low..high - 1]);
      assert Text(part) == before + [block[high - 1].c];
      if IsSpace(block[high - 1].c) {
        SaysSomething(block, low, high - 1);
        var i :| 0 <= i < |before| && !IsSpace(before[i]);
        assert Text(part)[i] == before[i];
      } else {
        assert Text(part)[|before|] == block[high - 1].c;
      }
    }
  }

  function Stretches(offset: nat, block: Tokens, runs: seq<Run>): (r: seq<Stretch>)
    ensures |r| == |runs| && forall g :: 0 <= g < |r| ==> r[g] == StretchOf(offset, block, runs, g)
  {
    seq(|runs|, g requires 0 <= g < |runs| => StretchOf(offset, block, runs, g))
  }

  predicate Inside(draft: string, b: Block, s: Stretch)
  {
    b.offset <= s.from <= s.cites < s.end <= b.offset + |b.text| <= |draft|
  }

  predicate Follows(draft: string, b: Block, row: seq<Stretch>, g: nat)
    requires g < |row|
  {
    && Inside(draft, b, row[g]) && row[g].from == (if g == 0 then b.offset else row[g - 1].end)
    && (g > 0 ==> !Blank(draft[row[g].from..row[g].cites]))
  }

  /** The stretches follow each other without a gap, from the start of the block; only the first claim can be
      without words. */
  ghost predicate InRow(draft: string, b: Block, row: seq<Stretch>)
  {
    forall g :: 0 <= g < |row| ==> Follows(draft, b, row, g)
  }

  function TailFrom(b: Block, row: seq<Stretch>): nat
  {
    if row == [] then b.offset else row[|row| - 1].end
  }

  lemma RowStands(draft: string, b: Block)
    requires Placed(b, draft)
    ensures var block := Tokenized(b.text); var row := Stretches(b.offset, block, Runs(block));
            && InRow(draft, b, row) && TailFrom(b, row) == Position(b.offset, block, Cursor(Runs(block)))
  {
    hide Tokenized, Runs, RunApart, Text, Placed, Position, Cursor, LettersIn, Scan, CitesOf, CitationsOnly;
    var block := Tokenized(b.text);
    var runs := Runs(block);
    var row := Stretches(b.offset, block, runs);
    GroupsApart(block);
    forall g | 0 <= g < |row| ensures Follows(draft, b, row, g) {
      RunReads(draft, b, runs, g);
      StretchesMeet(b.offset, block, runs, g);
    }
    TailMeets(b.offset, block, runs);
  }

  lemma StretchesMeet(offset: nat, block: Tokens, runs: seq<Run>, g: nat)
    requires g < |runs|
    ensures StretchOf(offset, block, runs, g).from == if g == 0 then offset else StretchOf(offset, block, runs, g - 1).end
  {
    hide Position;
    StartsAtOnce(offset, block);
    assert g == 0 ==> runs[..g] == [];
  }

  lemma TailMeets(offset: nat, block: Tokens, runs: seq<Run>)
    ensures Position(offset, block, Cursor(runs)) == if runs == [] then offset else StretchOf(offset, block, runs, |runs| - 1).end
  {
    hide Position;
    StartsAtOnce(offset, block);
  }

  lemma PlacedWithin(b: Block, draft: string)
    requires Placed(b, draft)
    ensures b.offset + |b.text| <= |draft|
  {
  }

  lemma StartsAtOnce(offset: nat, block: Tokens)
    ensures Position(offset, block, 0) == offset
  {
    assert block[..0] == [];
    NoTokens();
  }

  lemma EndsAtEnd(b: Block)
    ensures Position(b.offset, Tokenized(b.text), |Tokenized(b.text)|) == b.offset + |b.text|
  {
    hide Tokenized, Text;
    TokenizedExact(b.text);
    assert Tokenized(b.text)[..|Tokenized(b.text)|] == Tokenized(b.text);
  }

  lemma {:induction false} PacketAt(draft: string, offset: nat, block: Tokens, runs: seq<Run>, done: nat, e: Evidence, g: nat)
    requires g < |runs|
    ensures BlockPackets(draft, offset, block, runs, done, e)[g]
         == PacketOf(draft, offset, block, Cursor(runs[..g]), runs[g], done + g + 1, e)
  {
    hide PacketOf, Cursor;
    var n := |runs| - 1;
    if g < n {
      PacketAt(draft, offset, block, runs[..n], done, e, g);
      assert runs[..n][..g] == runs[..g];
    }
  }

  lemma PacketReads(draft: string, b: Block, done: nat, e: Evidence, g: nat)
    requires Placed(b, draft) && g < |Runs(Tokenized(b.text))|
    ensures var block := Tokenized(b.text); var p := BlockPackets(draft, b.offset, block, Runs(block), done, e)[g];
            && p.number == done + g + 1 && p.citations == Resolutions(p.requested, e)
            && ReadOn(p, StretchOf(b.offset, block, Runs(block), g), draft)
  {
    var block := Tokenized(b.text);
    var runs := Runs(block);
    hide Tokenized, Runs, RunApart, Text, Scan, CitesOf, Placed, Position, LettersIn, CitationsOnly, Strip, LineAt, BlockPackets;
    GroupsApart(block);
    GroupsFull(block);
    assert RunFull(block, runs[g]);
    RunReads(draft, b, runs, g);
    PacketAt(draft, b.offset, block, runs, done, e, g);
    LineNumber(draft, StretchOf(b.offset, block, runs, g).cites);
  }

  /** What follows the last citation of a block: no further citation, and a passage if and only if it is prose. */
  lemma TailReads(draft: string, b: Block, done: nat)
    requires Placed(b, draft)
    ensures var block := Tokenized(b.text);
            var from, end := Position(b.offset, block, Cursor(Runs(block))), b.offset + |b.text|;
            && b.offset <= from <= end <= |draft| && Scan(draft[from..end]) == []
            && BlockPassages(draft, b.offset, block, Runs(block), done)
               == if Plain(Strip(draft[from..end])) then [Passage(done + 1, LineBreaks(draft[..from]) + 1, Strip(draft[from..end]))] else []
  {
    hide Tokenized, Runs, Text, Scan, CitesOf, Placed, Position, Strip, LineAt, Plain;
    var block := Tokenized(b.text);
    var cursor := Cursor(Runs(block));
    GroupsOk(block);
    CursorWithin(block, Runs(block));
    TailLetters(block, Runs(block));
    SliceStands(draft, b, cursor, |block|);
    LettersAreText(block, cursor, |block|);
    EndsAtEnd(b);
    LineNumber(draft, Position(b.offset, block, cursor));
  }

  lemma TailLetters(block: Tokens, runs: seq<Run>)
    requires RunsOk(block, runs) && Cursor(runs) <= |block|
    ensures OnlyLetters(block, Cursor(runs), |block|)
  {
  }

  // ---------------------------------------------------------------------------
  // The whole draft
  // ---------------------------------------------------------------------------

  /** How many packets the first `k` blocks give. */
  function PacketsUpTo(draft: string, k: nat, e: Evidence): nat
    requires k <= |Blocks(draft)|
  {
    |DraftPackets(draft, Blocks(draft)[..k], e)|
  }

  function PassagesUpTo(draft: string, k: nat): nat
    requires k <= |Blocks(draft)|
  {
    |DraftPassages(draft, Blocks(draft)[..k])|
  }

  lemma {:induction false} PacketsGrow(draft: string, blocks: seq<Block>, k: nat, e: Evidence)
    requires k <= |blocks|
    ensures DraftPackets(draft, blocks[..k], e) <= DraftPackets(draft, blocks, e)
    ensures DraftPassages(draft, blocks[..k]) <= DraftPassages(draft, blocks)
    decreases |blocks|
  {
    hide BlockPackets, BlockPassages;
    if k < |blocks| {
      var n := |blocks| - 1;
      PacketsGrow(draft, blocks[..n], k, e);
      assert blocks[..n][..k] == blocks[..k];
    } else {
      assert blocks[..k] == blocks;
    }
  }

  lemma PrefixPart<T>(a: seq<T>, b: seq<T>, all: seq<T>)
    requires a + b <= all
    ensures all[|a|..|a| + |b|] == b
  {
    assert all[0..|a + b|] == a + b;
    SliceOfSlice(all, 0, |a + b|, |a|, |a + b|);
  }

  /** The packets of block `k` follow those of the blocks before it. */
  lemma BlockShare(draft: string, k: nat, e: Evidence)
    requires k < |Blocks(draft)|
    ensures var b := Blocks(draft)[k]; var block := Tokenized(b.text); var lo := PacketsUpTo(draft, k, e);
            && PacketsUpTo(draft, k + 1, e) == lo + |Runs(block)| <= |DraftPackets(draft, Blocks(draft), e)|
            && DraftPackets(draft, Blocks(draft), e)[lo..lo + |Runs(block)|]
               == BlockPackets(draft, b.offset, block, Runs(block), lo, e)
    ensures var b := Blocks(draft)[k]; var block := Tokenized(b.text); var lo := PassagesUpTo(draft, k);
            var own := BlockPassages(draft, b.offset, block, Runs(block), lo);
            && PassagesUpTo(draft, k + 1) == lo + |own| <= |DraftPassages(draft, Blocks(draft))|
            && DraftPassages(draft, Blocks(draft))[lo..lo + |own|] == own
  {
    hide BlockPackets, BlockPassages, Tokenized, Runs, Blocks, DraftPackets, DraftPassages;
    var blocks := Blocks(draft);
    var b := blocks[k];
    var block := Tokenized(b.text);
    PackedNext(draft, blocks, k, e);
    PacketsGrow(draft, blocks, k + 1, e);
    PrefixPart(DraftPackets(draft, blocks[..k], e),
               BlockPackets(draft, b.offset, block, Runs(block), PacketsUpTo(draft, k, e), e), DraftPackets(draft, blocks, e));
    PrefixPart(DraftPassages(draft, blocks[..k]),
               BlockPassages(draft, b.offset, block, Runs(block), PassagesUpTo(draft, k)), DraftPassages(draft, blocks));
  }

  /** The packet `g` of a block, after `lo` others, stands on its stretch. */
  ghost predicate Told(packets: seq<Packet>, lo: nat, row: seq<Stretch>, g: nat, draft: string)
  {
    lo + g < |packets| && g < |row| && packets[lo + g].number == lo + g + 1 && ReadOn(packets[lo + g], row[g], draft)
  }

  lemma Telling(packets: seq<Packet>, lo: nat, row: seq<Stretch>, g: nat, draft: string)
    requires lo + g < |packets| && g < |row| && packets[lo + g].number == lo + g + 1 && ReadOn(packets[lo + g], row[g], draft)
    ensures Told(packets, lo, row, g, draft)
  {
  }

  lemma BlockClaims(draft: string, k: nat, e: Evidence) returns (row: seq<Stretch>)
    requires k < |Blocks(draft)|
    ensures row == Stretches(Blocks(draft)[k].offset, Tokenized(Blocks(draft)[k].text), Runs(Tokenized(Blocks(draft)[k].text)))
    ensures var packets, lo := DraftPackets(draft, Blocks(draft), e), PacketsUpTo(draft, k, e);
            && PacketsUpTo(draft, k + 1, e) == lo + |row| <= |packets|
            && forall g :: 0 <= g < |row| ==> Told(packets, lo, row, g, draft)
  {
    hide *;
    var b := Blocks(draft)[k];
    BlocksPlaced(draft, b);
    BlockShare(draft, k, e);
    row := Stretches(b.offset, Tokenized(b.text), Runs(Tokenized(b.text)));
    var packets, lo := DraftPackets(draft, Blocks(draft), e), PacketsUpTo(draft, k, e);
    forall g | 0 <= g < |row| ensures Told(packets, lo, row, g, draft) {
      PacketReads(draft, b, lo, e, g);
      assert packets[lo..lo + |row|][g] == packets[lo + g];
      Telling(packets, lo, row, g, draft);
    }
  }

  lemma BlockTail(draft: string, k: nat, e: Evidence)
    requires k < |Blocks(draft)|
    ensures var b, passages, lo := Blocks(draft)[k], DraftPassages(draft, Blocks(draft)), PassagesUpTo(draft, k);
            var from, end := Position(b.offset, Tokenized(b.text), Cursor(Runs(Tokenized(b.text)))), b.offset + |b.text|;
            && from <= end <= |draft| && Scan(draft[from..end]) == []
            && (if Plain(Strip(draft[from..end]))
                then PassagesUpTo(draft, k + 1) == lo + 1 <= |passages|
                     && passages[lo] == Passage(lo + 1, LineBreaks(draft[..from]) + 1, Strip(draft[from..end]))
                else PassagesUpTo(draft, k + 1) == lo)
  {
    hide *;
    var b, passages, lo := Blocks(draft)[k], DraftPassages(draft, Blocks(draft)), PassagesUpTo(draft, k);
    BlocksPlaced(draft, b);
    BlockShare(draft, k, e);
    TailReads(draft, b, lo);
    var own := BlockPassages(draft, b.offset, Tokenized(b.text), Runs(Tokenized(b.text)), lo);
    assert own != [] ==> passages[lo..lo + |own|][0] == passages[lo];
  }

  /** The packets of a draft, told from the draft. Block `k` is a row of stretches from its start on, each a
      claim and its citations, and a tail. Its packets are the next ones in the list, one for each stretch and
      read on it; its tail holds no citation, and is listed as the next passage, with its line and its text, if
      and only if it is prose. */
  lemma BlockRead(draft: string, k: nat, e: Evidence) returns (row: seq<Stretch>)
    requires k < |Blocks(draft)|
    ensures var b, packets, lo := Blocks(draft)[k], DraftPackets(draft, Blocks(draft), e), PacketsUpTo(draft, k, e);
            && InRow(draft, b, row) && PacketsUpTo(draft, k + 1, e) == lo + |row| <= |packets|
            && forall g :: 0 <= g < |row| ==> Told(packets, lo, row, g, draft)
    ensures var b, passages, lo := Blocks(draft)[k], DraftPassages(draft, Blocks(draft)), PassagesUpTo(draft, k);
            var from, end := TailFrom(b, row), b.offset + |b.text|;
            && from <= end <= |draft| && Scan(draft[from..end]) == []
            && (if Plain(Strip(draft[from..end]))
                then PassagesUpTo(draft, k + 1) == lo + 1 <= |passages|
                     && passages[lo] == Passage(lo + 1, LineBreaks(draft[..from]) + 1, Strip(draft[from..end]))
                else PassagesUpTo(draft, k + 1) == lo)
  {
    hide *;
    BlocksPlaced(draft, Blocks(draft)[k]);
    row := BlockClaims(draft, k, e);
    RowStands(draft, Blocks(draft)[k]);
    BlockTail(draft, k, e);
  }

  /** Nothing comes before the packets of the first block, and nothing after those of the last. */
  lemma AllBlocksRead(draft: string, e: Evidence)
    ensures PacketsUpTo(draft, 0, e) == 0 == PassagesUpTo(draft, 0)
    ensures PacketsUpTo(draft, |Blocks(draft)|, e) == |DraftPackets(draft, Blocks(draft), e)|
    ensures PassagesUpTo(draft, |Blocks(draft)|) == |DraftPassages(draft, Blocks(draft))|
  {
    assert Blocks(draft)[..|Blocks(draft)|] == Blocks(draft);
  }

  // ---------------------------------------------------------------------------
  // Nothing is overlooked
  // ---------------------------------------------------------------------------

  predicate Covers(b: Block, i: nat)
  {
    b.offset <= i < b.offset + |b.text|
  }

  lemma GapIsSpace(t: string, i: nat)
    requires i < Gap(t)
    ensures IsSpace(t[i])
  {
  }

  lemma {:induction false} LaterHold(t: string, at: nat, i: nat) returns (b: Block)
    requires (t == "" || Gap(t) > 0) && i < |t| && !IsSpace(t[i])
    ensures b in BlocksFrom(t, at) && Covers(b, at + i)
    decreases |t|
  {
    hide Gap, Paragraph, Rest;
    if i < Gap(t) {
      GapIsSpace(t, i);
      assert false;
    } else if i < Gap(t) + |Paragraph(t)| {
      b := Block(at + Gap(t), Paragraph(t));
    } else {
      ParagraphThenRest(t);
      var n := Gap(t) + |Paragraph(t)|;
      RestAt(t, i);
      b := LaterHold(Rest(t), at + n, i - n);
    }
  }

  lemma RestAt(t: string, i: nat)
    requires Gap(t) > 0 && Gap(t) + |Paragraph(t)| <= i < |t|
    ensures Rest(t)[i - Gap(t) - |Paragraph(t)|] == t[i]
  {
    hide Gap, Reach;
    ParagraphThenRest(t);
    assert t[Gap(t)..][i - Gap(t)] == t[i];
  }

  /** Every letter of a draft that is not white space lies in a block. */
  lemma LetterInBlock(draft: string, i: nat) returns (k: nat)
    requires i < |draft| && !IsSpace(draft[i])
    ensures k < |Blocks(draft)| && Covers(Blocks(draft)[k], i)
  {
    hide Gap, Kept, BlocksFrom, Blank;
    var n, b := FirstEnd(draft), Block(0, draft[..FirstEnd(draft)]);
    if i >= n {
      assert draft[n..][i - n] == draft[i];
      b := LaterHold(draft[n..], n, i - n);
    }
    assert b in Matched(draft);
    var m := b;
    if i >= n {
      LaterPlaced(draft, draft[n..], n, b);
    }
    NotBlank(draft, b, i);
    KeptAmong(Matched(draft), b);
    k :| 0 <= k < |Blocks(draft)| && Blocks(draft)[k] == b;
  }

  lemma NotBlank(draft: string, b: Block, i: nat)
    requires Placed(b, draft) && Covers(b, i) && !IsSpace(draft[i])
    ensures !Blank(b.text)
  {
    assert b.text[i - b.offset] == draft[i];
  }

  /** The letter stands in a citation of the group. */
  ghost predicate InCitation(draft: string, i: nat, refs: seq<Ref>)
  {
    exists r, at: nat :: r in refs && CitedAt(draft, i, r, at)
  }

  predicate CitedAt(draft: string, i: nat, r: Ref, at: nat)
  {
    at <= i < at + |Cited(r)| <= |draft| && draft[at..at + |Cited(r)|] == Cited(r)
  }

  lemma BlankPart(t: string, a: nat, b: nat, j: nat)
    requires a <= b <= |t| && Blank(t[a..b])
    ensures a <= j < b ==> IsSpace(t[j])
  {
    if a <= j < b {
      assert t[a..b][j - a] == t[j];
    }
  }

  lemma {:induction false} LetterInGroup(draft: string, low: nat, high: nat, refs: seq<Ref>, i: nat)
    requires low <= i < high <= |draft| && CitationsOnly(draft[low..high], refs) && !IsSpace(draft[i])
    ensures InCitation(draft, i, refs)
    decreases |refs|
  {
    var t, c := draft[low..high], Cited(refs[0]);
    if |refs| == 1 {
      assert CitedAt(draft, i, refs[0], low);
    } else {
      var k: nat :| GroupGoesOn(t, refs, k);
      if i < low + |c| {
        assert draft[low..low + |c|] == t[..|c|] == c;
        assert CitedAt(draft, i, refs[0], low);
      } else {
        BlankPart(t, |c|, k, i - low);
        assert t[i - low] == draft[i];
        assert t[k..] == draft[low + k..high];
        LetterInGroup(draft, low + k, high, refs[1..], i);
        var r, at: nat :| r in refs[1..] && CitedAt(draft, i, r, at);
        assert r in refs;
      }
    }
  }

  /** The text stands in the draft around the letter. */
  ghost predicate Shows(text: string, draft: string, i: nat)
  {
    exists at: nat :: StandsAround(text, draft, i, at)
  }

  predicate StandsAround(text: string, draft: string, i: nat, at: nat)
  {
    at <= i < at + |text| <= |draft| && draft[at..at + |text|] == text
  }

  lemma LetterInside(t: string, a: nat, b: nat, j: nat)
    requires a <= b <= |t| && Blank(t[..a]) && Blank(t[b..]) && j < |t| && !IsSpace(t[j])
    ensures a <= j < b
  {
    BlankPart(t, 0, a, j);
    BlankPart(t, b, |t|, j);
  }

  lemma LetterKept(draft: string, low: nat, high: nat, i: nat)
    requires low <= i < high <= |draft| && !IsSpace(draft[i])
    ensures Shows(Strip(draft[low..high]), draft, i)
  {
    var t := draft[low..high];
    var a, b := StripMeaning(t);
    hide Strip;
    assert t[i - low] == draft[i];
    LetterInside(t, a, b, i - low);
    SliceOfSlice(draft, low, high, a, b);
    assert StandsAround(Strip(t), draft, i, low + a);
  }

  /** The stretch that a letter before the tail lies on. */
  lemma {:induction false} FindStretch(draft: string, b: Block, row: seq<Stretch>, i: nat, n: nat) returns (g: nat)
    requires InRow(draft, b, row) && 0 < n <= |row| && b.offset <= i < row[n - 1].end
    ensures g < |row| && row[g].from <= i < row[g].end
    decreases n
  {
    assert Follows(draft, b, row, n - 1);
    if i >= row[n - 1].from {
      g := n - 1;
    } else {
      g := FindStretch(draft, b, row, i, n - 1);
    }
  }

  /** A letter that is shown to the reviewer: in the text of a packet or of a passage, or in a citation that a
      packet resolves. */
  ghost predicate Shown(draft: string, e: Evidence, i: nat)
  {
    || (exists n :: 0 <= n < |DraftPackets(draft, Blocks(draft), e)| && ShownIn(DraftPackets(draft, Blocks(draft), e)[n], draft, i))
    || (exists n :: 0 <= n < |DraftPassages(draft, Blocks(draft))| && Shows(DraftPassages(draft, Blocks(draft))[n].text, draft, i))
  }

  ghost predicate ShownIn(p: Packet, draft: string, i: nat)
  {
    Shows(p.text, draft, i) || InCitation(draft, i, p.requested)
  }

  /** A letter of a tail that is no prose: a heading or a fence after the last citation of its block. */
  ghost predicate InHeading(draft: string, i: nat)
  {
    exists low: nat, high: nat :: low <= i < high <= |draft| && HeadingPart(draft, low, high)
  }

  predicate HeadingPart(draft: string, low: nat, high: nat)
    requires low <= high <= |draft|
  {
    Scan(draft[low..high]) == [] && !Plain(Strip(draft[low..high]))
  }

  /** Nothing a draft says escapes the review: every letter that is not white space is shown to the reviewer,
      in a claim, a citation or an uncited passage, or belongs to headings or a fence without citations. */
  lemma NothingOverlooked(draft: string, e: Evidence, i: nat)
    requires i < |draft| && !IsSpace(draft[i])
    ensures Shown(draft, e, i) || InHeading(draft, i)
  {
    hide Blocks, DraftPackets, DraftPassages, PacketsUpTo, PassagesUpTo, InCitation, Shows, CitationsOnly, Strip, Scan, Plain, LineAt;
    var k := LetterInBlock(draft, i);
    var b := Blocks(draft)[k];
    var row := BlockRead(draft, k, e);
    if i < TailFrom(b, row) {
      var g := FindStretch(draft, b, row, i, |row|);
      assert Told(DraftPackets(draft, Blocks(draft), e), PacketsUpTo(draft, k, e), row, g, draft);
      var n := PacketsUpTo(draft, k, e) + g;
      OnStretch(DraftPackets(draft, Blocks(draft), e)[n], row[g], draft, i);
    } else {
      var from, end := TailFrom(b, row), b.offset + |b.text|;
      LetterKept(draft, from, end, i);
      assert Plain(Strip(draft[from..end])) ==> Shows(DraftPassages(draft, Blocks(draft))[PassagesUpTo(draft, k)].text, draft, i);
      assert !Plain(Strip(draft[from..end])) ==> HeadingPart(draft, from, end);
    }
  }

  lemma OnStretch(p: Packet, s: Stretch, draft: string, i: nat)
    requires ReadOn(p, s, draft) && s.from <= i < s.end && !IsSpace(draft[i])
    ensures ShownIn(p, draft, i)
  {
    hide InCitation, Shows, CitationsOnly, Strip, Scan, LineAt;
    if i < s.cites {
      LetterKept(draft, s.from, s.cites, i);
    } else {
      LetterInGroup(draft, s.cites, s.end, p.requested, i);
    }
  }

  // ---------------------------------------------------------------------------
  // Prose
  // ---------------------------------------------------------------------------

  /** `splitlines()`, save that a text which ends with a line break gets an empty last line. */
  function Lines(s: string): (r: seq<string>)
    ensures r != []
  {
    if s == "" then [""]
    else
      var before, c := Lines(s[..|s| - 1]), s[|s| - 1];
      if LineBreak(c) then before + [""] else before[..|before| - 1] + [before[|before| - 1] + [c]]
  }

  /** The line, stripped, is not empty and no heading. */
  predicate LineSays(line: string)
  {
    Strip(line) != "" && Strip(line)[0] != '#'
  }

  predicate SomeSays(lines: seq<string>)
  {
    exists l :: 0 <= l < |lines| && LineSays(lines[l])
  }

  predicate FirstAt(line: string, i: nat)
  {
    i < |line| && Blank(line[..i]) && !IsSpace(line[i])
  }

  lemma LineSaysExactly(line: string)
    ensures LineSays(line) <==> exists i :: 0 <= i < |line| && FirstAt(line, i) && line[i] != '#'
  {
    var i, j := StripMeaning(line);
    hide Strip;
    if i < j {
      assert FirstAt(line, i);
      forall k | 0 <= k < |line| && FirstAt(line, k) ensures k == i {
        OneFirst(line, i, k);
      }
    } else {
      forall k | 0 <= k < |line| ensures IsSpace(line[k]) {
        BlankPart(line, 0, i, k);
        BlankPart(line, i, |line|, k);
      }
    }
  }

  lemma OneFirst(line: string, i: nat, k: nat)
    requires FirstAt(line, i) && FirstAt(line, k)
    ensures i == k
  {
    BlankPart(line, 0, i, k);
    BlankPart(line, 0, k, i);
  }

  lemma FirstGrows(line: string, c: char, i: nat)
    ensures FirstAt(line + [c], i) <==> FirstAt(line, i) || (i == |line| && Blank(line) && !IsSpace(c))
    ensures FirstAt(line, i) ==> i < |line|
  {
    assert i <= |line| ==> (line + [c])[..i] == line[..i];
    assert line[..|line|] == line;
  }

  lemma SaysGrows(line: string, c: char)
    ensures LineSays(line + [c]) <==> LineSays(line) || (Blank(line) && !IsSpace(c) && c != '#')
  {
    hide LineSays, FirstAt;
    LineSaysExactly(line);
    LineSaysExactly(line + [c]);
    FirstGrows(line, c, |line|);
    forall i | 0 <= i < |line| ensures FirstAt(line + [c], i) <==> FirstAt(line, i) {
      FirstGrows(line, c, i);
    }
    if LineSays(line) {
      var i :| 0 <= i < |line| && FirstAt(line, i) && line[i] != '#';
      assert (line + [c])[i] == line[i];
    }
    assert (line + [c])[|line|] == c;
    assert Blank(line) && !IsSpace(c) ==> FirstAt(line + [c], |line|);
    if LineSays(line + [c]) {
      var i :| 0 <= i < |line + [c]| && FirstAt(line + [c], i) && (line + [c])[i] != '#';
      assert i < |line| ==> line[i] == (line + [c])[i];
    }
  }

  /** A letter that is neither white space nor a mark, first on its line. */
  predicate ProseAt(s: string, i: nat)
  {
    i < |s| && !IsSpace(s[i]) && s[i] != '#' && Indented(s[..i])
  }

  lemma ProseGrows(s: string, n: nat, i: nat)
    requires n == |s| - 1
    ensures ProseAt(s, i) <==> ProseAt(s[..n], i) || (i == n && !IsSpace(s[n]) && s[n] != '#' && Indented(s[..n]))
  {
    assert i <= n ==> s[..n][..i] == s[..i];
  }

  lemma LastSays(lines: seq<string>, last: string)
    ensures SomeSays(lines + [last]) <==> SomeSays(lines) || LineSays(last)
  {
    hide LineSays;
    if l :| 0 <= l < |lines| && LineSays(lines[l]) {
      assert LineSays((lines + [last])[l]);
    }
    assert (lines + [last])[|lines|] == last;
    if l :| 0 <= l < |lines + [last]| && LineSays((lines + [last])[l]) && l < |lines| {
      assert LineSays(lines[l]);
    }
  }

  lemma BlankGrows(line: string, c: char)
    ensures Blank(line + [c]) <==> Blank(line) && IsSpace(c)
  {
    assert (line + [c])[|line|] == c;
    assert forall i :: 0 <= i < |line| ==> (line + [c])[i] == line[i];
  }

  lemma {:induction false} LinesSay(s: string)
    ensures (exists i :: 0 <= i < |s| && ProseAt(s, i)) <==> SomeSays(Lines(s))
    ensures Indented(s) <==> Blank(Lines(s)[|Lines(s)| - 1])
  {
    hide ProseAt, LineSays, SomeSays, Blank;
    if s == "" {
      NothingSaid();
    } else {
      var n := |s| - 1;
      var before, c := Lines(s[..n]), s[n];
      var m := |before| - 1;
      LinesSay(s[..n]);
      assert before == before[..m] + [before[m]];
      LastSays(before[..m], before[m]);
      BlankGrows(before[m], c);
      SaysGrows(before[m], c);
      NothingSaid();
      forall i | 0 <= i < |s| ensures ProseAt(s, i) <==> ProseAt(s[..n], i) || (i == n && !IsSpace(c) && c != '#' && Indented(s[..n])) {
        ProseGrows(s, n, i);
      }
      OneMoreProse(s, n);
      if LineBreak(c) {
        LastSays(before, "");
      } else {
        LastSays(before[..m], before[m] + [c]);
      }
    }
  }

  lemma OneMoreProse(s: string, n: nat)
    requires n == |s| - 1
    ensures (exists i :: 0 <= i < |s| && ProseAt(s, i))
            <==> (exists i :: 0 <= i < n && ProseAt(s[..n], i)) || (!IsSpace(s[n]) && s[n] != '#' && Indented(s[..n]))
  {
    hide ProseAt;
    ProseGrows(s, n, n);
    OutOfReach(s[..n], n);
    forall i | 0 <= i < n ensures ProseAt(s, i) <==> ProseAt(s[..n], i) {
      ProseGrows(s, n, i);
    }
  }

  lemma OutOfReach(s: string, i: nat)
    requires |s| <= i
    ensures !ProseAt(s, i)
  {
  }

  lemma NothingSaid()
    ensures !SomeSays([""]) && !LineSays("") && Blank("")
  {
    StripBlank("");
  }

  /** `_plain_passage` in the source's own words: stripped, the text does not begin with a fence, and some line
      of it, stripped in turn, is not empty and does not begin with a mark. */
  lemma PlainExactly(text: string)
    ensures Plain(text) <==> !("```" <= Strip(text)) && SomeSays(Lines(Strip(text)))
  {
    hide Strip, SomeSays;
    var s := Strip(text);
    LinesSay(s);
    hide Indented;
    if i :| 0 <= i < |s| && ProseAt(s, i) {
      assert Indented(s[..i]);
    }
    if i :| 0 <= i < |s| && !IsSpace(s[i]) && s[i] != '#' && Indented(s[..i]) {
      assert ProseAt(s, i);
    }
  }
}
