/** Cutting a Markdown ledger into chunks (src/memline/migrations/ingest_ledger.py). Line numbers count from
    zero here; chunks carry the numbers from one that the source records. */
module LedgerParser {
  import opened Strings

  datatype Chunk = Chunk(startLine: nat, endLine: nat, headingPath: seq<string>, body: string)

  type Headings = map<nat, string>

  // ---------------------------------------------------------------------------
  // Lines
  // ---------------------------------------------------------------------------

  /** The number of leading '#'. */
  function Hashes(s: string): (n: nat)
    ensures n <= |s| && (n > 0 <==> s != "" && s[0] == '#')
  {
    if s != "" && s[0] == '#' then 1 + Hashes(s[1..]) else 0
  }

  predicate BlankLine(s: string)
  {
    Strip(s) == ""
  }

  predicate HashLine(s: string)
  {
    Hashes(Strip(s)) > 0
  }

  predicate BulletLine(s: string)
  {
    |s| >= 2 && s[0] == '-' && s[1] == ' '
  }

  predicate Indented(s: string)
  {
    (|s| >= 2 && s[0] == ' ' && s[1] == ' ') || (|s| >= 1 && s[0] == '\t')
  }

  function Title(s: string): string
  {
    Strip(Strip(s)[Hashes(Strip(s))..])
  }

  function Join(lines: seq<string>): string
  {
    if lines == [] then "" else if |lines| == 1 then lines[0] else Join(lines[..|lines| - 1]) + "\n" + lines[|lines| - 1]
  }

  // ---------------------------------------------------------------------------
  // What each line is, told from the lines alone
  // ---------------------------------------------------------------------------

  /** Swallowed by a bullet further up: everything in between is blank or indented. */
  predicate InBlock(lines: seq<string>, n: nat)
    requires n < |lines|
  {
    n > 0 && (BlankLine(lines[n]) || Indented(lines[n])) && (BulletStart(lines, n - 1) || InBlock(lines, n - 1))
  }

  /** A bullet that opens a block. */
  predicate BulletStart(lines: seq<string>, n: nat)
    requires n < |lines|
  {
    BulletLine(lines[n]) && !BlankLine(lines[n]) && !HashLine(lines[n])
  }

  predicate HeadingLine(lines: seq<string>, lineMode: bool, n: nat)
    requires n < |lines|
  {
    HashLine(lines[n]) && (lineMode || !InBlock(lines, n))
  }

  predicate PlainLine(lines: seq<string>, n: nat)
    requires n < |lines|
  {
    !BlankLine(lines[n]) && !HashLine(lines[n]) && !BulletLine(lines[n]) && !InBlock(lines, n)
  }

  /** The line belongs to a chunk. */
  predicate BodyLine(lines: seq<string>, lineMode: bool, n: nat)
    requires n < |lines|
  {
    if lineMode then !BlankLine(lines[n]) && !HashLine(lines[n])
    else BulletStart(lines, n) || InBlock(lines, n) || PlainLine(lines, n)
  }

  /** A chunk begins on the line. */
  predicate StartLine(lines: seq<string>, lineMode: bool, n: nat)
    requires n < |lines|
  {
    if lineMode then BodyLine(lines, lineMode, n)
    else BulletStart(lines, n) || (PlainLine(lines, n) && (n == 0 || !PlainLine(lines, n - 1)))
  }

  /** A heading closes every heading of its level or deeper. */
  function Under(headings: Headings, line: string): Headings
  {
    (map k | k in headings && k < Hashes(Strip(line)) :: headings[k])[Hashes(Strip(line)) := Title(line)]
  }

  /** The headings in force before line `n`. */
  function HeadingsAt(lines: seq<string>, lineMode: bool, n: nat): Headings
    requires n <= |lines|
  {
    if n == 0 then map[]
    else if HeadingLine(lines, lineMode, n - 1) then Under(HeadingsAt(lines, lineMode, n - 1), lines[n - 1])
    else HeadingsAt(lines, lineMode, n - 1)
  }

  /** Titles from the highest level down; `top` bounds the levels. */
  function PathUpTo(headings: Headings, top: nat): seq<string>
  {
    if top == 0 then [] else PathUpTo(headings, top - 1) + if top - 1 in headings then [headings[top - 1]] else []
  }

  function Top(headings: Headings): (top: nat)
    ensures forall k :: k in headings ==> k < top
  {
    if headings.Keys == {} then 0
    else
      var levels := headings.Keys;
      MaxExists(levels);
      var k :| k in levels && forall j :: j in levels ==> j <= k;
      k + 1
  }

  lemma {:induction false} MaxExists(levels: set<nat>)
    requires levels != {}
    ensures exists k :: k in levels && forall j :: j in levels ==> j <= k
    decreases |levels|
  {
    var k :| k in levels;
    if forall j :: j in levels ==> j == k {
      assert k in levels && forall j :: j in levels ==> j <= k;
    } else {
      var j :| j in levels && j != k;
      assert j in levels - {k};
      MaxExists(levels - {k});
      var m :| m in levels - {k} && forall j :: j in levels - {k} ==> j <= m;
      LargerOf(levels, k, m);
    }
  }

  lemma LargerOf(levels: set<nat>, k: nat, m: nat)
    requires k in levels && m in levels - {k} && forall j :: j in levels - {k} ==> j <= m
    ensures exists best :: best in levels && forall j :: j in levels ==> j <= best
  {
    var best := if k <= m then m else k;
    forall j | j in levels ensures j <= best {
      if j != k {
        assert j in levels - {k};
      }
    }
    assert best in levels;
  }

  /** `[headings[level] for level in sorted(headings)]` */
  function HeadingPath(headings: Headings): seq<string>
  {
    PathUpTo(headings, Top(headings))
  }

  // ---------------------------------------------------------------------------
  // What the chunks are
  // ---------------------------------------------------------------------------

  predicate InChunk(c: Chunk, n: nat)
  {
    c.startLine <= n + 1 <= c.endLine
  }

  predicate ChunkRight(lines: seq<string>, lineMode: bool, c: Chunk)
  {
    && 1 <= c.startLine <= c.endLine <= |lines|
    && c.headingPath == HeadingPath(HeadingsAt(lines, lineMode, c.startLine - 1))
    && c.body == (if lineMode then lines[c.startLine - 1] else Strip(Join(lines[c.startLine - 1..c.endLine])))
  }

  predicate SomeChunk(chunks: seq<Chunk>, n: nat)
  {
    exists j :: 0 <= j < |chunks| && InChunk(chunks[j], n)
  }

  predicate SomeStart(chunks: seq<Chunk>, n: nat)
  {
    exists j :: 0 <= j < |chunks| && chunks[j].startLine == n + 1
  }

  predicate Increasing(chunks: seq<Chunk>)
  {
    forall i, j :: 0 <= i < j < |chunks| ==> chunks[i].endLine < chunks[j].startLine
  }

  /** The chunks of the first `done` lines: right each, in order without overlap, holding exactly the body
      lines, and beginning exactly on the start lines. */
  predicate ChunksOf(chunks: seq<Chunk>, lines: seq<string>, lineMode: bool, done: nat)
    requires done <= |lines|
  {
    && (forall j :: 0 <= j < |chunks| ==> ChunkRight(lines, lineMode, chunks[j]) && chunks[j].endLine <= done)
    && Increasing(chunks)
    && (forall n :: 0 <= n < done ==> (BodyLine(lines, lineMode, n) <==> SomeChunk(chunks, n)))
    && (forall n :: 0 <= n < done ==> (StartLine(lines, lineMode, n) <==> SomeStart(chunks, n)))
  }

  lemma SkipLine(chunks: seq<Chunk>, lines: seq<string>, lineMode: bool, done: nat)
    requires done < |lines| && ChunksOf(chunks, lines, lineMode, done) && !BodyLine(lines, lineMode, done)
    ensures ChunksOf(chunks, lines, lineMode, done + 1)
  {
    assert !SomeChunk(chunks, done);
    assert !SomeStart(chunks, done);
  }

  lemma AddChunk(chunks: seq<Chunk>, c: Chunk, lines: seq<string>, lineMode: bool, done: nat, next: nat)
    requires done < next <= |lines| && ChunksOf(chunks, lines, lineMode, done)
    requires ChunkRight(lines, lineMode, c) && c.startLine == done + 1 && c.endLine == next
    requires forall n :: done <= n < next ==> BodyLine(lines, lineMode, n) && (StartLine(lines, lineMode, n) <==> n == done)
    ensures ChunksOf(chunks + [c], lines, lineMode, next)
  {
    var all := chunks + [c];
    assert all[|chunks|] == c;
    forall n | 0 <= n < next
      ensures BodyLine(lines, lineMode, n) <==> SomeChunk(all, n)
      ensures StartLine(lines, lineMode, n) <==> SomeStart(all, n)
    {
      ChunkAdded(chunks, c, n);
    }
  }

  lemma ChunkAdded(chunks: seq<Chunk>, c: Chunk, n: nat)
    ensures SomeChunk(chunks + [c], n) <==> SomeChunk(chunks, n) || InChunk(c, n)
    ensures SomeStart(chunks + [c], n) <==> SomeStart(chunks, n) || c.startLine == n + 1
  {
    var all := chunks + [c];
    assert all[|chunks|] == c;
    if j :| 0 <= j < |chunks| && InChunk(chunks[j], n) {
      assert InChunk(all[j], n);
    }
    if j :| 0 <= j < |chunks| && chunks[j].startLine == n + 1 {
      assert all[j].startLine == n + 1;
    }
  }

  /** No heading line in between: the same headings are in force. */
  lemma {:induction false} SameHeadings(lines: seq<string>, lineMode: bool, from: nat, upTo: nat)
    requires from <= upTo <= |lines| && forall n :: from <= n < upTo ==> !HeadingLine(lines, lineMode, n)
    ensures HeadingsAt(lines, lineMode, upTo) == HeadingsAt(lines, lineMode, from)
    decreases upTo
  {
    if from < upTo {
      SameHeadings(lines, lineMode, from, upTo - 1);
    }
  }

  // ---------------------------------------------------------------------------
  // parse_file
  // ---------------------------------------------------------------------------

  /** The end of the block that begins at `start`. */
  method SkipBlock(lines: seq<string>, start: nat) returns (i: nat)
    requires start < |lines| && BulletStart(lines, start)
    ensures start < i <= |lines|
    ensures forall n :: start < n < i ==> InBlock(lines, n)
    ensures i < |lines| ==> !InBlock(lines, i)
  {
    i := start + 1;
    while i < |lines|
      invariant start < i <= |lines|
      invariant forall n :: start < n < i ==> InBlock(lines, n)
    {
      if BlankLine(lines[i]) {
        i := i + 1;
        continue;
      }
      if Indented(lines[i]) {
        i := i + 1;
        continue;
      }
      break;
    }
  }

  /** In both modes every line that is neither blank nor a heading lies in exactly one chunk, chunks are
      contiguous ranges in strictly increasing order, each chunk's text is the text of its lines and its
      heading path is that of the headings in force where it starts. */
  method ParseFile(lines: seq<string>, lineMode: bool) returns (chunks: seq<Chunk>)
    ensures ChunksOf(chunks, lines, lineMode, |lines|)
  {
    Initially(lines, lineMode);
    hide ChunksOf, HeadingsAt, HeadingPath, Strip, Hashes, Under;
    chunks := [];
    var headings: Headings := map[];
    var start := 0;  // the pending paragraph is lines[start..i]
    var i := 0;
    while i < |lines|
      invariant start <= i <= |lines|
      invariant ChunksOf(chunks, lines, lineMode, start)
      invariant headings == HeadingsAt(lines, lineMode, i)
      invariant lineMode ==> start == i
      invariant forall n :: start <= n < i ==> PlainLine(lines, n)
      invariant start < i && start > 0 ==> !PlainLine(lines, start - 1)
      invariant !lineMode && i < |lines| ==> !InBlock(lines, i)
      invariant start == i && i > 0 && !lineMode ==> !PlainLine(lines, i - 1)
      decreases |lines| - i
    {
      if BlankLine(lines[i]) {
        chunks := FlushParagraph(chunks, lines, lineMode, headings, start, i);
        SkipLine(chunks, lines, lineMode, i);
        NoHeading(lines, lineMode, i);
        i := i + 1;
        start := i;
      } else if HashLine(lines[i]) {
        chunks := FlushParagraph(chunks, lines, lineMode, headings, start, i);
        SkipLine(chunks, lines, lineMode, i);
        NewHeading(lines, lineMode, i);
        headings := Under(headings, lines[i]);
        i := i + 1;
        start := i;
      } else if lineMode {
        var c := Chunk(i + 1, i + 1, HeadingPath(headings), lines[i]);
        AddChunk(chunks, c, lines, lineMode, i, i + 1);
        NoHeading(lines, lineMode, i);
        chunks := chunks + [c];
        i := i + 1;
        start := i;
      } else if BulletLine(lines[i]) {
        chunks := FlushParagraph(chunks, lines, lineMode, headings, start, i);
        var next := SkipBlock(lines, i);
        var c := Chunk(i + 1, next, HeadingPath(headings), Strip(Join(lines[i..next])));
        BlockStarts(lines, i, next);
        AddChunk(chunks, c, lines, lineMode, i, next);
        SameHeadings(lines, lineMode, i, next);
        chunks := chunks + [c];
        i := next;
        start := i;
      } else {
        NoHeading(lines, lineMode, i);
        i := i + 1;
      }
    }
    chunks := FlushParagraph(chunks, lines, lineMode, headings, start, i);
  }

  lemma Initially(lines: seq<string>, lineMode: bool)
    ensures ChunksOf([], lines, lineMode, 0) && HeadingsAt(lines, lineMode, 0) == map[]
  {
  }

  lemma NoHeading(lines: seq<string>, lineMode: bool, i: nat)
    requires i < |lines| && !HeadingLine(lines, lineMode, i)
    ensures HeadingsAt(lines, lineMode, i + 1) == HeadingsAt(lines, lineMode, i)
  {
  }

  lemma NewHeading(lines: seq<string>, lineMode: bool, i: nat)
    requires i < |lines| && HeadingLine(lines, lineMode, i)
    ensures HeadingsAt(lines, lineMode, i + 1) == Under(HeadingsAt(lines, lineMode, i), lines[i])
  {
  }

  lemma BlockStarts(lines: seq<string>, i: nat, next: nat)
    requires i < next <= |lines| && BulletStart(lines, i) && !InBlock(lines, i)
    requires forall n :: i < n < next ==> InBlock(lines, n)
    ensures forall n :: i <= n < next ==> BodyLine(lines, false, n) && (StartLine(lines, false, n) <==> n == i)
    ensures forall n :: i <= n < next ==> !HeadingLine(lines, false, n) && !PlainLine(lines, n)
  {
    forall n | i < n < next ensures !BulletStart(lines, n) {
      assert InBlock(lines, n);
    }
  }

  /** flush_paragraph */
  method FlushParagraph(chunks0: seq<Chunk>, lines: seq<string>, lineMode: bool, headings: Headings, start: nat, i: nat)
    returns (chunks: seq<Chunk>)
    requires start <= i <= |lines| && ChunksOf(chunks0, lines, lineMode, start) && headings == HeadingsAt(lines, lineMode, i)
    requires lineMode ==> start == i
    requires forall n :: start <= n < i ==> PlainLine(lines, n)
    requires start < i && start > 0 ==> !PlainLine(lines, start - 1)
    ensures ChunksOf(chunks, lines, lineMode, i)
  {
    if start == i {
      return chunks0;
    }
    var body := Strip(Join(lines[start..i]));
    ParagraphLines(lines, start, i);
    SameHeadings(lines, lineMode, start, i);
    ParagraphSaysSomething(lines, start, i);
    hide ChunksOf, HeadingsAt, HeadingPath, Join, Strip, BodyLine, StartLine, PlainLine, HeadingLine;
    if body != "" {
      var c := Chunk(start + 1, i, HeadingPath(headings), body);
      AddChunk(chunks0, c, lines, lineMode, start, i);
      return chunks0 + [c];
    }
    chunks := chunks0;
  }

  lemma ParagraphLines(lines: seq<string>, start: nat, i: nat)
    requires start < i <= |lines| && forall n :: start <= n < i ==> PlainLine(lines, n)
    requires start > 0 ==> !PlainLine(lines, start - 1)
    ensures forall n :: start <= n < i ==> BodyLine(lines, false, n) && (StartLine(lines, false, n) <==> n == start)
    ensures forall n :: start <= n < i ==> !HeadingLine(lines, false, n)
  {
    forall n | start <= n < i
      ensures BodyLine(lines, false, n) && (StartLine(lines, false, n) <==> n == start) && !HeadingLine(lines, false, n)
    {
      assert PlainLine(lines, n);
      if n > start {
        assert PlainLine(lines, n - 1);
      }
    }
  }

  lemma ParagraphSaysSomething(lines: seq<string>, start: nat, i: nat)
    requires start < i <= |lines| && forall n :: start <= n < i ==> PlainLine(lines, n)
    ensures Strip(Join(lines[start..i])) != ""
  {
    var s := lines[start..i];
    assert PlainLine(lines, i - 1);
    assert s[|s| - 1] == lines[i - 1];
    if |s| > 1 {
      StripKeeps(Join(s[..|s| - 1]) + "\n", s[|s| - 1]);
    }
  }

  lemma StripKeeps(x: string, s: string)
    requires Strip(s) != ""
    ensures Strip(x + s) != ""
  {
    StripBlank(s);
    StripBlank(x + s);
    if Blank(x + s) {
      forall i | 0 <= i < |s| ensures IsSpace(s[i]) {
        assert (x + s)[|x| + i] == s[i];
      }
    }
  }

  // ---------------------------------------------------------------------------
  // Headings in force
  // ---------------------------------------------------------------------------

  /** Line `h` is a heading of level `k`, and no heading of that level or higher follows it before `n`. */
  predicate InForce(lines: seq<string>, lineMode: bool, n: nat, h: nat, k: nat)
    requires n <= |lines|
  {
    && h < n && HeadingLine(lines, lineMode, h) && Hashes(Strip(lines[h])) == k
    && forall g :: h < g < n && HeadingLine(lines, lineMode, g) ==> Hashes(Strip(lines[g])) > k
  }

  /** Every heading before a line is in force: no later heading of the same level or higher has closed it. */
  lemma {:induction false} HeadingHasLine(lines: seq<string>, lineMode: bool, n: nat, k: nat) returns (h: nat)
    requires n <= |lines| && k in HeadingsAt(lines, lineMode, n)
    ensures InForce(lines, lineMode, n, h, k)
  {
    hide Strip, Hashes, Title, InBlock, HashLine;
    if HeadingLine(lines, lineMode, n - 1) && Hashes(Strip(lines[n - 1])) == k {
      h := n - 1;
    } else {
      h := HeadingHasLine(lines, lineMode, n - 1, k);
    }
  }

  /** And every line in force gives its title. */
  lemma {:induction false} LineGivesHeading(lines: seq<string>, lineMode: bool, n: nat, h: nat, k: nat)
    requires n <= |lines| && InForce(lines, lineMode, n, h, k)
    ensures k in HeadingsAt(lines, lineMode, n) && HeadingsAt(lines, lineMode, n)[k] == Title(lines[h])
  {
    hide Strip, Hashes, Title, InBlock, HashLine;
    if h < n - 1 {
      LineGivesHeading(lines, lineMode, n - 1, h, k);
    }
  }

  /** A line lies in at most one chunk. */
  lemma OneChunk(chunks: seq<Chunk>, lines: seq<string>, lineMode: bool, n: nat, i: nat, j: nat)
    requires ChunksOf(chunks, lines, lineMode, |lines|) && i < |chunks| && j < |chunks|
    requires InChunk(chunks[i], n) && InChunk(chunks[j], n)
    ensures i == j
  {
  }

  /** Every line that is not blank is consumed as a heading, or lies in a chunk, and never in two. */
  lemma EveryLineAccounted(chunks: seq<Chunk>, lines: seq<string>, lineMode: bool, n: nat)
    requires ChunksOf(chunks, lines, lineMode, |lines|) && n < |lines| && !BlankLine(lines[n])
    ensures HeadingLine(lines, lineMode, n) <==> !SomeChunk(chunks, n)
    ensures forall i, j :: 0 <= i < |chunks| && 0 <= j < |chunks| && InChunk(chunks[i], n) && InChunk(chunks[j], n) ==> i == j
  {
    forall i, j | 0 <= i < |chunks| && 0 <= j < |chunks| && InChunk(chunks[i], n) && InChunk(chunks[j], n) ensures i == j {
      OneChunk(chunks, lines, lineMode, n, i, j);
    }
    assert BodyLine(lines, lineMode, n) <==> SomeChunk(chunks, n);
  }

  /** A heading path lists the titles in force by strictly increasing level, each level once. */
  lemma {:induction false} PathByLevel(headings: Headings, top: nat) returns (levels: seq<nat>)
    ensures |levels| == |PathUpTo(headings, top)|
    ensures forall i, j :: 0 <= i < j < |levels| ==> levels[i] < levels[j]
    ensures forall i :: 0 <= i < |levels| ==>
              levels[i] < top && levels[i] in headings && PathUpTo(headings, top)[i] == headings[levels[i]]
    ensures forall k :: k in headings && k < top ==> k in levels
  {
    if top == 0 {
      levels := [];
    } else {
      levels := PathByLevel(headings, top - 1);
      if top - 1 in headings {
        levels := levels + [top - 1];
      }
    }
  }

  /** The heading path of a chunk: strictly increasing levels, exactly those in force at its start. */
  lemma ChunkHeadings(chunks: seq<Chunk>, lines: seq<string>, lineMode: bool, c: nat) returns (levels: seq<nat>)
    requires ChunksOf(chunks, lines, lineMode, |lines|) && c < |chunks|
    ensures var headings := HeadingsAt(lines, lineMode, chunks[c].startLine - 1); var path := chunks[c].headingPath;
            && |levels| == |path|
            && (forall i, j :: 0 <= i < j < |levels| ==> levels[i] < levels[j])
            && (forall i :: 0 <= i < |levels| ==> levels[i] in headings && path[i] == headings[levels[i]])
            && forall k :: k in headings ==> k in levels
  {
    var headings := HeadingsAt(lines, lineMode, chunks[c].startLine - 1);
    levels := PathByLevel(headings, Top(headings));
  }
}
