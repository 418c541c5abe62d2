/** The text of a draft: where its citations stand (the pattern CITATION of src/memline/wiki/page.py) and how
    it falls into blocks at its blank lines (src/memline/wiki/review.py). */
module Draft {
  import opened Sequences
  import opened Strings

  type Ref = string

  // ---------------------------------------------------------------------------
  // Citations
  // ---------------------------------------------------------------------------

  predicate HexOrDash(c: char)
  {
    '0' <= c <= '9' || 'a' <= c <= 'f' || 'A' <= c <= 'F' || c == '-'
  }

  /** What may stand between the brackets: a memory id of at least eight characters, or a source. */
  predicate IsRef(r: Ref)
  {
    || (|r| >= 12 && r[..4] == "mem:" && forall i :: 4 <= i < |r| ==> HexOrDash(r[i]))
    || (|r| >= 9 && r[..8] == "sources/" && ']' !in r)
  }

  /** The first `]`, or the end. */
  function Closing(t: string): (n: nat)
    ensures n <= |t| && (forall i :: 0 <= i < n ==> t[i] != ']') && (n < |t| ==> t[n] == ']')
  {
    if t == "" || t[0] == ']' then 0 else 1 + Closing(t[1..])
  }

  /** The citation `t` begins with. */
  function Match(t: string): (r: Option<Ref>)
    ensures r.Some? ==> |r.value| + 3 <= |t|
  {
    if |t| < 2 || t[0] != '^' || t[1] != '[' then None
    else
      var n := Closing(t[2..]);
      if n < |t| - 2 && IsRef(t[2..2 + n]) then Some(t[2..2 + n]) else None
  }

  /** The citation `^[ref]` */
  function Cited(r: Ref): string
  {
    "^[" + r + "]"
  }

  /** `CITATION.findall`: the leftmost citation, then the leftmost one after it, and so on. */
  function Scan(t: string): seq<Ref>
  {
    if t == "" then []
    else match Match(t)
      case Some(r) => [r] + Scan(t[|r| + 3..])
      case None => Scan(t[1..])
  }

  lemma ClosingAt(r: Ref, rest: string)
    requires ']' !in r
    ensures Closing(r + "]" + rest) == |r|
  {
    var t := r + "]" + rest;
    assert t[|r|] == ']';
    assert forall i :: 0 <= i < |r| ==> t[i] == r[i];
  }

  lemma RefUnclosed(r: Ref)
    requires IsRef(r)
    ensures ']' !in r
  {
    if |r| >= 12 && r[..4] == "mem:" && forall i :: 4 <= i < |r| ==> HexOrDash(r[i]) {
      assert forall i :: 0 <= i < 4 ==> r[i] == r[..4][i];
    }
  }

  lemma MatchCited(r: Ref, rest: string)
    requires IsRef(r)
    ensures Match(Cited(r) + rest) == Some(r)
  {
    RefUnclosed(r);
    hide IsRef;
    var t := Cited(r) + rest;
    assert t[2..] == r + "]" + rest;
    ClosingAt(r, rest);
    assert t[2..2 + |r|] == r;
  }

  predicate MemoryForm(r: Ref, id: string)
  {
    r == "mem:" + id && |id| >= 8 && forall i :: 0 <= i < |id| ==>
      '0' <= id[i] <= '9' || 'a' <= id[i] <= 'f' || 'A' <= id[i] <= 'F' || id[i] == '-'
  }

  predicate SourceForm(r: Ref, name: string)
  {
    r == "sources/" + name && name != "" && ']' !in name
  }

  /** The two alternatives of the pattern, `mem:[0-9a-fA-F-]{8,}` and `sources/[^\]]+` */
  lemma RefForms(r: Ref)
    ensures IsRef(r) <==> (exists id :: MemoryForm(r, id)) || (exists name :: SourceForm(r, name))
  {
    hide HexOrDash;
    if |r| >= 12 && r[..4] == "mem:" && forall i :: 4 <= i < |r| ==> HexOrDash(r[i]) {
      MemoryRead(r);
    } else if |r| >= 9 && r[..8] == "sources/" && ']' !in r {
      assert r == "sources/" + r[8..];
      assert SourceForm(r, r[8..]);
    }
    if id :| MemoryForm(r, id) {
      MemoryWritten(r, id);
    } else if name :| SourceForm(r, name) {
      assert r[..8] == "sources/";
      assert ']' !in r;
    }
  }

  lemma MemoryRead(r: Ref)
    requires |r| >= 12 && r[..4] == "mem:" && forall i :: 4 <= i < |r| ==> HexOrDash(r[i])
    ensures MemoryForm(r, r[4..])
  {
    assert r == r[..4] + r[4..];
    assert forall i :: 0 <= i < |r| - 4 ==> r[4..][i] == r[4 + i] && HexOrDash(r[4 + i]);
  }

  lemma MemoryWritten(r: Ref, id: string)
    requires MemoryForm(r, id)
    ensures |r| >= 12 && r[..4] == "mem:" && forall i :: 4 <= i < |r| ==> HexOrDash(r[i])
  {
    assert forall i :: 4 <= i < |r| ==> r[i] == id[i - 4];
  }

  /** A text begins with a citation exactly when it is one followed by anything, and with one only. */
  lemma MatchExact(t: string, r: Ref)
    ensures Match(t) == Some(r) <==> IsRef(r) && Cited(r) <= t
  {
    hide IsRef;
    if Match(t) == Some(r) {
      assert t[..|r| + 3] == Cited(r);
    }
    if IsRef(r) && Cited(r) <= t {
      assert t == Cited(r) + t[|r| + 3..];
      MatchCited(r, t[|r| + 3..]);
    }
  }

  // ---------------------------------------------------------------------------
  // Blank lines
  // ---------------------------------------------------------------------------

  /** `[ \t]*` */
  function Blanks(t: string): (n: nat)
    ensures n <= |t| && forall i :: 0 <= i < n ==> t[i] == ' ' || t[i] == '\t'
    ensures n < |t| ==> t[n] != ' ' && t[n] != '\t'
  {
    if t != "" && (t[0] == ' ' || t[0] == '\t') then 1 + Blanks(t[1..]) else 0
  }

  /** The length of the blank line `\n[ \t]*\n` that `t` begins with, or zero. */
  function Gap(t: string): (n: nat)
    ensures n <= |t| && (n > 0 ==> n >= 2 && t[0] == '\n' && t[n - 1] == '\n')
    ensures n > 0 ==> forall i :: 0 < i < n - 1 ==> t[i] == ' ' || t[i] == '\t'
  {
    if t == "" || t[0] != '\n' then 0
    else
      var n := Blanks(t[1..]);
      if 1 + n < |t| && t[1 + n] == '\n' then n + 2 else 0
  }

  predicate HasBlankLine(t: string)
  {
    exists i :: 0 <= i < |t| && Gap(t[i..]) > 0
  }

  /** How far the block reaches: to the first blank line, or to the end. */
  function Reach(t: string): (n: nat)
    ensures n <= |t| && (n < |t| ==> Gap(t[n..]) > 0)
  {
    if t == "" || Gap(t) > 0 then 0
    else
      var n := Reach(t[1..]);
      assert t[1..][n..] == t[1 + n..];
      1 + n
  }

  datatype Block = Block(offset: nat, text: string)

  /** What follows the blank line that `t` begins with, up to the next one. */
  function Paragraph(t: string): (p: string)
    requires Gap(t) > 0
    ensures Gap(t) + |p| <= |t|
  {
    t[Gap(t)..][..Reach(t[Gap(t)..])]
  }

  /** From the next blank line on. */
  function Rest(t: string): (r: string)
    requires Gap(t) > 0
    ensures Gap(t) + |Paragraph(t)| + |r| == |t| && (r == "" || Gap(r) > 0)
  {
    t[Gap(t)..][Reach(t[Gap(t)..])..]
  }

  /** The matches of the block pattern from the blank line on that `t` begins with, at position `at`. */
  function BlocksFrom(t: string, at: nat): seq<Block>
    requires t == "" || Gap(t) > 0
  {
    if t == "" then []
    else [Block(at + Gap(t), Paragraph(t))] + BlocksFrom(Rest(t), at + Gap(t) + |Paragraph(t)|)
  }

  /** Where the first non-empty match at the start of the draft ends. A draft that begins with a blank line
      is matched twice there: first the empty text, and then, as the search may not return the same empty
      text again, everything up to the next blank line. */
  function FirstEnd(draft: string): (n: nat)
    requires draft != ""
    ensures 0 < n <= |draft| && (n < |draft| ==> Gap(draft[n..]) > 0)
  {
    var n := Reach(draft[1..]);
    assert draft[1..][n..] == draft[1 + n..];
    1 + n
  }

  /** All matches of the block pattern that are not empty, blank ones included. */
  function Matched(draft: string): seq<Block>
  {
    if draft == "" then [] else [Block(0, draft[..FirstEnd(draft)])] + BlocksFrom(draft[FirstEnd(draft)..], FirstEnd(draft))
  }

  // ---------------------------------------------------------------------------
  // Reading a draft whole and block by block
  // ---------------------------------------------------------------------------

  /** The citations found block by block. */
  function ScanAll(blocks: seq<Block>): seq<Ref>
  {
    if blocks == [] then [] else Scan(blocks[0].text) + ScanAll(blocks[1..])
  }

  lemma {:induction false} ClosingPrefix(b: string, r: string)
    ensures Closing(b) < |b| ==> Closing(b + r) == Closing(b)
    ensures Closing(b) == |b| ==> Closing(b + r) == |b| + Closing(r)
  {
    if b == "" {
      assert b + r == r;
    } else if b[0] != ']' {
      assert (b + r)[1..] == b[1..] + r;
      ClosingPrefix(b[1..], r);
    }
  }

  lemma MatchPrefix(b: string, r: string, ref: Ref)
    requires Match(b) == Some(ref)
    ensures Match(b + r) == Some(ref)
  {
    MatchExact(b, ref);
    assert Cited(ref) <= b + r;
    MatchExact(b + r, ref);
  }

  lemma GapPrefix(a: string, r: string)
    requires Gap(a) > 0
    ensures Gap(a + r) == Gap(a)
  {
    BlanksPrefix(a[1..], r);
    assert (a + r)[1..] == a[1..] + r;
  }

  lemma {:induction false} BlanksPrefix(a: string, r: string)
    requires Blanks(a) < |a|
    ensures Blanks(a + r) == Blanks(a)
  {
    if a[0] == ' ' || a[0] == '\t' {
      assert (a + r)[1..] == a[1..] + r;
      BlanksPrefix(a[1..], r);
    }
  }

  lemma GapAlone(t: string)
    requires Gap(t) > 0
    ensures Gap(t[..Gap(t)]) > 0
  {
    var g := t[..Gap(t)];
    assert forall i :: 0 <= i < |g| - 1 ==> g[1..][i] == t[1 + i];
    assert g[1..][|g| - 2] == '\n';
    assert forall i :: 0 <= i < |g| - 2 ==> g[1..][i] == ' ' || g[1..][i] == '\t';
    assert Blanks(g[1..]) == |g| - 2;
  }

  lemma MatchOfTwo(b: string, r: string)
    requires |b| == 1 && Gap(r) > 0
    ensures Match(b + r).None?
  {
    assert (b + r)[1] == r[0];
  }

  lemma MatchShorter(b: string, r: string)
    requires |b| >= 2 && Closing(b[2..]) < |b| - 2
    ensures Match(b + r) == Match(b)
  {
    assert (b + r)[2..] == b[2..] + r;
    ClosingPrefix(b[2..], r);
    var n := Closing(b[2..]);
    assert b[2..2 + n] == (b + r)[2..2 + n];
  }

  lemma MatchLonger(b: string, r: string, ref: Ref) returns (m: nat)
    requires |b| >= 2 && Closing(b[2..]) == |b| - 2 && Match(b + r) == Some(ref)
    ensures m < |r| && r[m] == ']' && ref == b[2..] + r[..m]
  {
    hide IsRef;
    assert (b + r)[2..] == b[2..] + r;
    ClosingPrefix(b[2..], r);
    m := Closing(r);
  }

  /** A citation of `b + r` that `b` alone does not show reaches over the blank line in between. */
  lemma MatchBeyond(b: string, r: string, ref: Ref)
    requires b != "" && Gap(r) > 0 && Match(b).None? && Match(b + r) == Some(ref)
    ensures HasBlankLine(ref)
  {
    hide Match, HasBlankLine;
    if |b| == 1 {
      MatchOfTwo(b, r);
    } else if Closing(b[2..]) < |b| - 2 {
      MatchShorter(b, r);
    } else {
      var m := MatchLonger(b, r, ref);
      GapInside(b[2..], r, m);
    }
  }

  lemma GapInside(a: string, r: string, n: nat)
    requires 0 < Gap(r) <= n <= |r|
    ensures HasBlankLine(a + r[..n])
  {
    var g := Gap(r);
    GapAlone(r);
    assert r[..n] == r[..g] + r[g..n];
    GapPrefix(r[..g], r[g..n]);
    assert (a + r[..n])[|a|..] == r[..n];
  }

  /** No blank line begins before the end of the block. */
  lemma {:induction false} ReachMeaning(t: string, i: nat)
    requires i < Reach(t)
    ensures Gap(t[i..]) == 0
  {
    if i == 0 {
      assert t[0..] == t;
    } else {
      assert t[1..][i - 1..] == t[i..];
      ReachMeaning(t[1..], i - 1);
    }
  }

  lemma FirstMeaning(draft: string, i: nat)
    requires draft != "" && 0 < i < FirstEnd(draft)
    ensures Gap(draft[i..]) == 0
  {
    assert draft[1..][i - 1..] == draft[i..];
    ReachMeaning(draft[1..], i - 1);
  }

  predicate Unbroken(refs: seq<Ref>)
  {
    forall x :: x in refs ==> !HasBlankLine(x)
  }

  lemma MatchInScan(t: string)
    requires Match(t).Some?
    ensures Match(t).value in Scan(t)
  {
  }

  /** Without a citation across the blank line, reading on is reading the block and then the rest. */
  lemma {:induction false} ScanSplit(b: string, r: string)
    requires (r == "" || Gap(r) > 0) && Unbroken(Scan(b + r))
    ensures Scan(b + r) == Scan(b) + Scan(r)
  {
    hide Match, HasBlankLine, Gap;
    if b == "" {
      assert b + r == r;
    } else if r == "" {
      assert b + r == b;
    } else if Match(b).Some? {
      var ref := Match(b).value;
      MatchPrefix(b, r, ref);
      assert (b + r)[|ref| + 3..] == b[|ref| + 3..] + r;
      assert Scan(b + r) == [ref] + Scan(b[|ref| + 3..] + r);
      ScanSplit(b[|ref| + 3..], r);
    } else {
      if Match(b + r).Some? {
        MatchInScan(b + r);
        MatchBeyond(b, r, Match(b + r).value);
      }
      assert (b + r)[1..] == b[1..] + r;
      ScanSplit(b[1..], r);
    }
  }

  lemma {:induction false} ScanPast(t: string, n: nat)
    requires n <= |t| && forall i :: 0 <= i < n ==> t[i] != '^'
    ensures Scan(t) == Scan(t[n..])
  {
    if n > 0 {
      assert Match(t).None?;
      assert t[1..][n - 1..] == t[n..];
      ScanPast(t[1..], n - 1);
    }
  }

  lemma UnbrokenParts(a: seq<Ref>, b: seq<Ref>)
    requires Unbroken(a + b)
    ensures Unbroken(a) && Unbroken(b)
  {
    forall x | x in a || x in b ensures !HasBlankLine(x) {
      assert x in a + b;
    }
  }

  lemma ParagraphThenRest(t: string)
    requires Gap(t) > 0
    ensures t[Gap(t)..] == Paragraph(t) + Rest(t)
  {
    hide Gap, Reach;
  }

  /** The blocks after a blank line hold the citations after it. */
  lemma {:induction false} LaterBlocks(t: string, at: nat)
    requires (t == "" || Gap(t) > 0) && Unbroken(Scan(t))
    ensures ScanAll(BlocksFrom(t, at)) == Scan(t)
    decreases |t|
  {
    hide Scan, HasBlankLine, Unbroken, Gap, Paragraph, Rest, ScanAll;
    if t == "" {
      EmptyScan();
    } else {
      var g, b, r := Gap(t), Paragraph(t), Rest(t);
      ParagraphThenRest(t);
      ScanPast(t, g);
      ScanSplit(b, r);
      UnbrokenParts(Scan(b), Scan(r));
      LaterBlocks(r, at + g + |b|);
      ScanAllPrepend(Block(at + g, b), BlocksFrom(r, at + g + |b|));
    }
  }

  lemma EmptyScan()
    ensures Scan("") == [] == ScanAll([])
  {
  }

  lemma ScanAllPrepend(b: Block, later: seq<Block>)
    ensures ScanAll([b] + later) == Scan(b.text) + ScanAll(later)
  {
    assert ([b] + later)[1..] == later;
  }

  lemma {:induction false} ScanFinds(t: string, x: Ref) returns (k: nat)
    requires x in Scan(t)
    ensures k <= |t| && Match(t[k..]) == Some(x)
  {
    hide Match;
    if Match(t) == Some(x) {
      k := 0;
      assert t[0..] == t;
    } else {
      var n := if Match(t).Some? then |Match(t).value| + 3 else 1;
      k := ScanFinds(t[n..], x);
      assert t[n..][k..] == t[n + k..];
      k := n + k;
    }
  }

  lemma PartUnbroken(t: string, low: nat, x: string, i: nat)
    requires low + |x| <= |t| && x == t[low..low + |x|] && i < |x| && Gap(x[i..]) > 0
    ensures Gap(t[low + i..]) > 0
  {
    var high := low + |x|;
    assert t[low + i..] == x[i..] + t[high..];
    GapPrefix(x[i..], t[high..]);
  }

  /** No citation of a block contains a blank line. */
  lemma BlockUnbroken(t: string, n: nat)
    requires n <= |t| && forall i :: 0 < i < n ==> Gap(t[i..]) == 0
    ensures Unbroken(Scan(t[..n]))
  {
    hide Scan, Match, IsRef, Gap;
    forall x | x in Scan(t[..n]) ensures !HasBlankLine(x) {
      var k := ScanFinds(t[..n], x);
      MatchInner(t, n, k, x);
      CitationUnbroken(t, n, k + 2, x);
    }
  }

  lemma MatchInner(t: string, n: nat, k: nat, x: Ref)
    requires k <= n <= |t| && Match(t[..n][k..]) == Some(x)
    ensures k + |x| + 3 <= n && x == t[k + 2..k + 2 + |x|]
  {
    var u := t[..n][k..];
    assert x == u[2..2 + |x|];
    hide Match;
    assert u == t[k..n];
    SliceOfSlice(t, k, n, 2, 2 + |x|);
  }

  lemma CitationUnbroken(t: string, n: nat, low: nat, x: Ref)
    requires n <= |t| && forall i :: 0 < i < n ==> Gap(t[i..]) == 0
    requires 0 < low && low + |x| <= n && x == t[low..low + |x|]
    ensures !HasBlankLine(x)
  {
    hide Gap;
    forall i | 0 <= i < |x| ensures Gap(x[i..]) == 0 {
      if Gap(x[i..]) > 0 {
        PartUnbroken(t, low, x, i);
      }
    }
  }

  lemma ParagraphUnbroken(t: string)
    requires Gap(t) > 0
    ensures Unbroken(Scan(Paragraph(t)))
  {
    hide Scan, HasBlankLine, Gap, Reach, Unbroken;
    var u := t[Gap(t)..];
    forall i | 0 < i < Reach(u) ensures Gap(u[i..]) == 0 {
      ReachMeaning(u, i);
    }
    BlockUnbroken(u, Reach(u));
  }

  lemma {:induction false} LaterUnbroken(t: string, at: nat)
    requires t == "" || Gap(t) > 0
    ensures Unbroken(ScanAll(BlocksFrom(t, at)))
    decreases |t|
  {
    hide Scan, HasBlankLine, Gap, Paragraph, Rest, ScanAll;
    if t == "" {
      EmptyScan();
    } else {
      var g, b := Gap(t), Paragraph(t);
      ParagraphUnbroken(t);
      LaterUnbroken(Rest(t), at + g + |b|);
      ScanAllPrepend(Block(at + g, b), BlocksFrom(Rest(t), at + g + |b|));
    }
  }

  /** Read block by block, a draft shows the citations it shows when read whole if and only if none of them
      contains a blank line. */
  lemma MatchedExact(draft: string)
    ensures ScanAll(Matched(draft)) == Scan(draft) <==> Unbroken(Scan(draft))
  {
    hide Scan, HasBlankLine, Gap, ScanAll;
    if draft == "" {
      EmptyScan();
    } else {
      var n := FirstEnd(draft);
      var b, r := draft[..n], draft[n..];
      assert draft == b + r;
      forall i | 0 < i < n ensures Gap(draft[i..]) == 0 {
        FirstMeaning(draft, i);
      }
      BlockUnbroken(draft, n);
      LaterUnbroken(r, n);
      ScanAllPrepend(Block(0, b), BlocksFrom(r, n));
      if Unbroken(Scan(draft)) {
        ScanSplit(b, r);
        UnbrokenParts(Scan(b), Scan(r));
        LaterBlocks(r, n);
      }
    }
  }

  // ---------------------------------------------------------------------------
  // The blocks a review reads
  // ---------------------------------------------------------------------------

  /** `if text.strip()` */
  function Kept(blocks: seq<Block>): seq<Block>
  {
    if blocks == [] then [] else (if Blank(blocks[0].text) then [] else [blocks[0]]) + Kept(blocks[1..])
  }

  function Blocks(draft: string): seq<Block>
  {
    Kept(Matched(draft))
  }

  lemma BlankScan(t: string)
    requires Blank(t)
    ensures Scan(t) == []
  {
    ScanPast(t, |t|);
    EmptyScan();
  }

  lemma {:induction false} KeptScan(blocks: seq<Block>)
    ensures ScanAll(Kept(blocks)) == ScanAll(blocks)
  {
    hide Scan, Blank;
    if blocks != [] {
      KeptScan(blocks[1..]);
      if Blank(blocks[0].text) {
        BlankScan(blocks[0].text);
        assert [] + Kept(blocks[1..]) == Kept(blocks[1..]);
      } else {
        ScanAllPrepend(blocks[0], Kept(blocks[1..]));
      }
    }
  }

  /** The blocks of a draft hold exactly the citations of the whole draft if and only if no citation of the
      draft contains a blank line. */
  lemma BlocksKeepCitations(draft: string)
    ensures ScanAll(Blocks(draft)) == Scan(draft) <==> Unbroken(Scan(draft))
  {
    KeptScan(Matched(draft));
    MatchedExact(draft);
  }

  /** A citation that contains a blank line is counted when the draft is read whole and lies in no block. */
  lemma BrokenCitation(x: Ref)
    requires IsRef(x) && HasBlankLine(x)
    ensures Scan(Cited(x)) == [x] && x !in ScanAll(Blocks(Cited(x)))
  {
    var draft := Cited(x);
    LoneCitation(x);
    BrokenNowhere(draft, x);
  }

  lemma MatchedUnbroken(draft: string)
    ensures Unbroken(ScanAll(Matched(draft)))
  {
    hide Scan, HasBlankLine, Gap, ScanAll;
    if draft == "" {
      EmptyScan();
    } else {
      var n := FirstEnd(draft);
      forall i | 0 < i < n ensures Gap(draft[i..]) == 0 {
        FirstMeaning(draft, i);
      }
      BlockUnbroken(draft, n);
      LaterUnbroken(draft[n..], n);
      ScanAllPrepend(Block(0, draft[..n]), BlocksFrom(draft[n..], n));
    }
  }

  /** No block shows a citation with a blank line inside. */
  lemma BrokenNowhere(draft: string, x: Ref)
    requires HasBlankLine(x)
    ensures x !in ScanAll(Blocks(draft))
  {
    hide HasBlankLine, ScanAll, Kept, Matched;
    KeptScan(Matched(draft));
    MatchedUnbroken(draft);
  }

  /** Such a draft: the citation is counted and no block shows it. */
  lemma BrokenDraft()
    ensures var x := "sources/a\n\nb"; Scan("^[" + x + "]") == [x] && x !in ScanAll(Blocks("^[" + x + "]"))
  {
    var x := "sources/a\n\nb";
    assert x[..8] == "sources/";
    assert x[9..] == "\n\nb";
    assert Blanks("\nb") == 0;
    assert "\n\nb"[1..] == "\nb";
    assert Gap(x[9..]) > 0;
    BrokenCitation(x);
  }

  lemma {:induction false} ReachPlain(p: string, r: string)
    requires '\n' !in p && (r == "" || Gap(r) > 0)
    ensures Reach(p + r) == |p|
  {
    if p == "" {
      assert p + r == r;
    } else {
      RestOf(p, r);
      NoGap(p + r);
      hide Gap;
      ReachPlain(p[1..], r);
    }
  }

  lemma GapOfTwo(t: string)
    requires t != "" && t[0] != '\n' && t[0] != ' ' && t[0] != '\t'
    ensures Gap("\n\n" + t) == 2 && ("\n\n" + t)[2..] == t
  {
    assert ("\n\n" + t)[1..] == "\n" + t;
  }

  lemma FirstParagraph(p: string, gap: string)
    requires p != "" && '\n' !in p && Gap(gap) > 0
    ensures var draft := p + gap; FirstEnd(draft) == |p| && draft[..|p|] == p && draft[|p|..] == gap
  {
    hide Gap, Reach;
    ReachPlain(p[1..], gap);
    RestOf(p, gap);
  }

  lemma RestOf(p: string, r: string)
    requires p != ""
    ensures (p + r)[1..] == p[1..] + r && (p + r)[..|p|] == p && (p + r)[|p|..] == r
  {
  }

  lemma NoGap(t: string)
    requires t == "" || t[0] != '\n'
    ensures Gap(t) == 0
  {
  }

  /** Two paragraphs of one line each are two blocks. */
  lemma TwoBlocks(p: string, q: string)
    requires p != "" && '\n' !in p && q != "" && '\n' !in q && q[0] != ' ' && q[0] != '\t'
    ensures ScanAll(Blocks(p + ("\n\n" + q))) == Scan(p) + Scan(q)
  {
    GapOfTwo(q);
    ReachPlain(q, "");
    assert q + "" == q;
    OneBlock(q, |p|);
    FirstParagraph(p, "\n\n" + q);
    hide Scan, Gap, Reach, ScanAll, BlocksFrom, FirstEnd, Kept, Blank;
    KeptScan(Matched(p + ("\n\n" + q)));
    ScanAllPrepend(Block(0, p), [Block(|p| + 2, q)]);
    ScanAllPrepend(Block(|p| + 2, q), []);
    EmptyScan();
    assert [Block(|p| + 2, q)] + [] == [Block(|p| + 2, q)] && Scan(q) + [] == Scan(q);
  }

  lemma OneBlock(q: string, at: nat)
    requires q != "" && Gap("\n\n" + q) == 2 && ("\n\n" + q)[2..] == q && Reach(q) == |q|
    ensures BlocksFrom("\n\n" + q, at) == [Block(at + 2, q)]
  {
    assert q[..|q|] == q && q[|q|..] == "";
  }

  /** Reading block by block can also find a citation too many: one that stands behind the blank line inside
      a broken citation. */
  lemma HiddenCitation(a: string, m: Ref)
    requires a != "" && '\n' !in a && ']' !in a && '^' !in a && IsRef(m) && '\n' !in m
    ensures var draft := "^[sources/" + a + ("\n\n" + Cited(m));
            Scan(draft) == ["sources/" + a + "\n\n^[" + m] && ScanAll(Blocks(draft)) == [m]
  {
    var x := "sources/" + a + "\n\n^[" + m;
    var p := "^[sources/" + a;
    var draft := p + ("\n\n" + Cited(m));
    RefUnclosed(m);
    assert x[..8] == "sources/";
    assert IsRef(x);
    assert draft == Cited(x);
    hide Scan, ScanAll, Blocks, IsRef;
    LoneCitation(x);
    LoneCitation(m);
    TwoBlocks(p, Cited(m));
    Unclosed(p);
  }

  lemma LoneCitation(x: Ref)
    requires IsRef(x)
    ensures Scan(Cited(x)) == [x]
  {
    MatchCited(x, "");
    assert Cited(x) + "" == Cited(x);
    assert Cited(x)[|x| + 3..] == "";
    EmptyScan();
  }

  /** Without a closing bracket there is no citation. */
  lemma {:induction false} Unclosed(t: string)
    requires ']' !in t
    ensures Scan(t) == []
  {
    if t != "" {
      Unclosed(t[1..]);
      if |t| >= 2 {
        assert forall i :: 0 <= i < |t| - 2 ==> t[2..][i] == t[i + 2];
        assert Closing(t[2..]) == |t| - 2;
      }
    }
  }

  /** The text of a block stands in the draft at its offset. */
  predicate Placed(b: Block, draft: string)
  {
    b.offset + |b.text| <= |draft| && b.text == draft[b.offset..b.offset + |b.text|]
  }

  lemma ParagraphPlaced(draft: string, t: string, at: nat)
    requires at <= |draft| && t == draft[at..] && Gap(t) > 0
    ensures Placed(Block(at + Gap(t), Paragraph(t)), draft) && Rest(t) == draft[at + Gap(t) + |Paragraph(t)|..]
  {
    hide Gap, Reach;
    var g, n := Gap(t), Reach(t[Gap(t)..]);
    assert t[g..] == draft[at + g..];
    assert t[g..][..n] == draft[at + g..at + g + n];
  }

  lemma {:induction false} LaterPlaced(draft: string, t: string, at: nat, b: Block)
    requires (t == "" || Gap(t) > 0) && at <= |draft| && t == draft[at..] && b in BlocksFrom(t, at)
    ensures Placed(b, draft)
    decreases |t|
  {
    hide Gap, Paragraph, Rest, Placed;
    ParagraphPlaced(draft, t, at);
    if b != Block(at + Gap(t), Paragraph(t)) {
      LaterPlaced(draft, Rest(t), at + Gap(t) + |Paragraph(t)|, b);
    }
  }

  lemma {:induction false} KeptAmong(blocks: seq<Block>, b: Block)
    ensures b in Kept(blocks) <==> b in blocks && !Blank(b.text)
  {
    if blocks != [] {
      KeptAmong(blocks[1..], b);
    }
  }

  lemma BlocksPlaced(draft: string, b: Block)
    requires b in Blocks(draft)
    ensures Placed(b, draft) && !Blank(b.text)
  {
    KeptAmong(Matched(draft), b);
    var n := FirstEnd(draft);
    if b != Block(0, draft[..n]) {
      LaterPlaced(draft, draft[n..], n, b);
    }
  }

  lemma KeptNext(matches: seq<Block>, i: nat, blocks: seq<Block>)
    requires i < |matches|
    ensures blocks + Kept(matches[i..])
         == (if Blank(matches[i].text) then blocks else blocks + [matches[i]]) + Kept(matches[i + 1..])
  {
    assert matches[i..][1..] == matches[i + 1..];
    hide Blank;
    Associative(blocks, [matches[i]], Kept(matches[i + 1..]));
  }

  /** `_blocks`: the matches of the pattern, less the blank ones. */
  method FindBlocks(draft: string) returns (blocks: seq<Block>)
    ensures blocks == Blocks(draft)
    ensures forall b :: b in blocks ==> Placed(b, draft) && !Blank(b.text)
  {
    var matches := Matched(draft);
    blocks := [];
    assert matches[0..] == matches;
    for i := 0 to |matches|
      invariant blocks + Kept(matches[i..]) == Blocks(draft)
    {
      hide Kept, Blank, Matched, Blocks;
      KeptNext(matches, i, blocks);
      if !Blank(matches[i].text) {
        blocks := blocks + [matches[i]];
      }
    }
    assert blocks == Blocks(draft);
    forall b | b in blocks ensures Placed(b, draft) && !Blank(b.text) {
      hide Placed, Blank, Blocks;
      BlocksPlaced(draft, b);
    }
  }
}
