/** What the chunks of a ledger say, told from its text (src/memline/migrations/ingest_ledger.py). */
module LedgerText {
  import opened Strings
  import opened LedgerParser

  // ---------------------------------------------------------------------------
  // Bodies
  // ---------------------------------------------------------------------------

  /** The pieces of a text between its line breaks. */
  function LinesOf(s: string): (r: seq<string>)
    ensures r != []
  {
    if s == "" then [""]
    else
      var rest := LinesOf(s[1..]);
      if s[0] == '\n' then [""] + rest else [[s[0]] + rest[0]] + rest[1..]
  }

  lemma {:induction false} CutLine(s: string)
    requires '\n' !in s
    ensures LinesOf(s) == [s]
  {
    if s != "" {
      CutLine(s[1..]);
      assert s == [s[0]] + s[1..];
    }
  }

  lemma {:induction false} CutAppend(a: string, b: string)
    requires '\n' !in b
    ensures LinesOf(a + "\n" + b) == LinesOf(a) + [b]
  {
    var s := a + "\n" + b;
    if a == "" {
      assert s[1..] == b;
      CutLine(b);
    } else {
      assert s[1..] == a[1..] + "\n" + b;
      CutAppend(a[1..], b);
    }
  }

  /** Joining lines keeps them apart: cut at its line breaks, the text gives the lines back. */
  lemma {:induction false} JoinReadsBack(lines: seq<string>)
    requires lines != [] && forall i :: 0 <= i < |lines| ==> '\n' !in lines[i]
    ensures LinesOf(Join(lines)) == lines
  {
    var n := |lines| - 1;
    if n == 0 {
      CutLine(lines[0]);
    } else {
      JoinReadsBack(lines[..n]);
      CutAppend(Join(lines[..n]), lines[n]);
    }
  }

  /** The body of a chunk is its lines, told apart by line breaks, less the white space at either end; in line
      mode it is its one line, as it stands. */
  lemma ChunkSaysItsLines(chunks: seq<Chunk>, lines: seq<string>, lineMode: bool, c: nat) returns (text: string)
    requires ChunksOf(chunks, lines, lineMode, |lines|) && c < |chunks|
    requires forall i :: 0 <= i < |lines| ==> '\n' !in lines[i]
    ensures 1 <= chunks[c].startLine <= chunks[c].endLine <= |lines|
    ensures LinesOf(text) == lines[chunks[c].startLine - 1..chunks[c].endLine]
    ensures lineMode ==> chunks[c].endLine == chunks[c].startLine && chunks[c].body == text == lines[chunks[c].startLine - 1]
    ensures !lineMode ==> chunks[c].body == Strip(text)
  {
    hide HeadingsAt, HeadingPath, Strip, Join, BodyLine, StartLine, Increasing;
    assert ChunkRight(lines, lineMode, chunks[c]);
    var own := lines[chunks[c].startLine - 1..chunks[c].endLine];
    assert forall i :: 0 <= i < |own| ==> own[i] == lines[chunks[c].startLine - 1 + i];
    text := Join(own);
    JoinReadsBack(own);
    if lineMode {
      OneLineEach(chunks, lines, c);
      JoinOne(own);
    }
  }

  lemma JoinOne(lines: seq<string>)
    requires |lines| == 1
    ensures Join(lines) == lines[0]
  {
  }

  /** In line mode every chunk is one line. */
  lemma OneLineEach(chunks: seq<Chunk>, lines: seq<string>, c: nat)
    requires ChunksOf(chunks, lines, true, |lines|) && c < |chunks|
    ensures chunks[c].endLine == chunks[c].startLine
  {
    hide HeadingsAt, HeadingPath, Strip, Join;
    assert ChunkRight(lines, true, chunks[c]);
    var n := chunks[c].endLine - 1;
    assert InChunk(chunks[c], n);
    LineStarts(chunks, lines, n);
    var j :| 0 <= j < |chunks| && chunks[j].startLine == n + 1;
    assert ChunkRight(lines, true, chunks[j]);
    OneChunk(chunks, lines, true, n, j, c);
  }

  lemma LineStarts(chunks: seq<Chunk>, lines: seq<string>, n: nat)
    requires ChunksOf(chunks, lines, true, |lines|) && n < |lines| && SomeChunk(chunks, n)
    ensures SomeStart(chunks, n)
  {
    hide ChunkRight;
    assert StartLine(lines, true, n);
  }

  // ---------------------------------------------------------------------------
  // Where chunks begin and end
  // ---------------------------------------------------------------------------

  /** A bullet runs on over such a line. */
  predicate RunsOver(line: string)
  {
    Strip(line) == "" || "  " <= line || "\t" <= line
  }

  /** A line of prose: not blank, no heading, no bullet. */
  predicate Prose(line: string)
  {
    Strip(line) != "" && Strip(line)[0] != '#' && !("- " <= line)
  }

  lemma RunsOverExactly(line: string)
    ensures RunsOver(line) <==> BlankLine(line) || Indented(line)
  {
    hide Strip;
  }

  lemma ProseExactly(line: string)
    ensures Prose(line) <==> !BlankLine(line) && !HashLine(line) && !BulletLine(line)
  {
    hide Strip;
  }

  lemma BlankFirst(s: string)
    requires Blank(s)
    ensures s == "" || IsSpace(s[0])
  {
  }

  lemma BulletFirst(line: string)
    requires "- " <= line
    ensures !BlankLine(line) && !HashLine(line) && BulletLine(line) && !RunsOver(line)
  {
    assert line[0] == '-' && line[1] == ' ';
    assert !Blank(line);
    StripBlank(line);
    var i, j := StripMeaning(line);
    BlankFirst(line[..i]);
    assert Strip(line)[0] == '-';
    hide Strip;
  }

  /** In the first `n` lines of a chunk that begins with a bullet, nothing but the bullet starts anything. */
  lemma {:induction false} BulletRun(lines: seq<string>, start: nat, n: nat)
    requires start < n <= |lines| && BulletStart(lines, start)
    requires forall k :: start < k < n ==> BodyLine(lines, false, k) && !StartLine(lines, false, k)
    ensures forall k :: start < k < n ==> InBlock(lines, k)
    decreases n
  {
    if n > start + 1 {
      BulletRun(lines, start, n - 1);
      assert BodyLine(lines, false, n - 1) && !StartLine(lines, false, n - 1);
      assert n - 2 == start || InBlock(lines, n - 2);
    }
  }

  lemma {:induction false} ProseRun(lines: seq<string>, start: nat, n: nat)
    requires start < n <= |lines| && PlainLine(lines, start)
    requires forall k :: start < k < n ==> BodyLine(lines, false, k) && !StartLine(lines, false, k)
    ensures forall k :: start <= k < n ==> PlainLine(lines, k)
    decreases n
  {
    if n > start + 1 {
      ProseRun(lines, start, n - 1);
      assert BodyLine(lines, false, n - 1) && !StartLine(lines, false, n - 1);
      assert PlainLine(lines, n - 2);
    }
  }

  /** The lines of a chunk belong to chunks, only its first starts one, and the line after it starts another
      or belongs to none. */
  lemma ChunkBounds(chunks: seq<Chunk>, lines: seq<string>, c: nat)
    requires ChunksOf(chunks, lines, false, |lines|) && c < |chunks|
    ensures 1 <= chunks[c].startLine <= chunks[c].endLine <= |lines|
    ensures StartLine(lines, false, chunks[c].startLine - 1)
    ensures forall n :: chunks[c].startLine - 1 < n < chunks[c].endLine ==> BodyLine(lines, false, n) && !StartLine(lines, false, n)
    ensures chunks[c].endLine < |lines| ==>
              StartLine(lines, false, chunks[c].endLine) || !BodyLine(lines, false, chunks[c].endLine)
  {
    hide HeadingsAt, HeadingPath, Strip, Join, BodyLine, StartLine;
    assert ChunkRight(lines, false, chunks[c]);
    var s, e := chunks[c].startLine - 1, chunks[c].endLine;
    assert SomeStart(chunks, s);
    forall n | s < n < e ensures BodyLine(lines, false, n) && !StartLine(lines, false, n) {
      assert InChunk(chunks[c], n);
      assert SomeChunk(chunks, n);
    }
    if e < |lines| && BodyLine(lines, false, e) {
      var j :| 0 <= j < |chunks| && InChunk(chunks[j], e);
      assert j > c;
      NextStarts(chunks, lines, c, j, e);
    }
  }

  lemma NextStarts(chunks: seq<Chunk>, lines: seq<string>, c: nat, j: nat, n: nat)
    requires Increasing(chunks) && c < j < |chunks| && chunks[c].endLine == n && InChunk(chunks[j], n)
    ensures SomeStart(chunks, n)
  {
    assert chunks[c].endLine < chunks[j].startLine;
    assert chunks[j].startLine == n + 1;
  }

  /** Where chunks begin and end, in ledger mode: one that begins with a bullet runs over every line that is blank
      or indented, and to the first one that is neither; any other is an unbroken run of prose, from the first
      such line to the last. */
  lemma ChunkShape(chunks: seq<Chunk>, lines: seq<string>, c: nat)
    requires ChunksOf(chunks, lines, false, |lines|) && c < |chunks|
    ensures var s, e := chunks[c].startLine - 1, chunks[c].endLine;
            && 0 <= s < e <= |lines|
            && (if "- " <= lines[s]
                then (forall n :: s < n < e ==> RunsOver(lines[n])) && (e < |lines| ==> !RunsOver(lines[e]))
                else (forall n :: s <= n < e ==> Prose(lines[n])) && (e < |lines| ==> !Prose(lines[e])))
  {
    hide ChunksOf, Strip, RunsOver, Prose, BlankLine, HashLine;
    ChunkBounds(chunks, lines, c);
    var s, e := chunks[c].startLine - 1, chunks[c].endLine;
    if "- " <= lines[s] {
      BulletFirst(lines[s]);
      BulletRun(lines, s, e);
      forall n | s < n < e ensures RunsOver(lines[n]) {
        assert InBlock(lines, n);
        RunsOverExactly(lines[n]);
      }
      if e < |lines| {
        RunsOverExactly(lines[e]);
        NotInBlock(lines, s, e);
      }
    } else {
      ProseRun(lines, s, e);
      forall n | s <= n < e ensures Prose(lines[n]) {
        assert PlainLine(lines, n);
        ProseExactly(lines[n]);
      }
      if e < |lines| {
        ProseExactly(lines[e]);
        assert PlainLine(lines, e - 1);
        ProseEnds(lines, e);
      }
    }
  }

  lemma NotInBlock(lines: seq<string>, s: nat, e: nat)
    requires s < e < |lines| && BulletStart(lines, s) && forall k :: s < k < e ==> InBlock(lines, k)
    requires StartLine(lines, false, e) || !BodyLine(lines, false, e)
    ensures !BlankLine(lines[e]) && !Indented(lines[e])
  {
    hide BlankLine, HashLine;
    assert e - 1 == s || InBlock(lines, e - 1);
    if BlankLine(lines[e]) || Indented(lines[e]) {
      assert InBlock(lines, e);
    }
  }

  lemma ProseEnds(lines: seq<string>, e: nat)
    requires 0 < e < |lines| && PlainLine(lines, e - 1) && (StartLine(lines, false, e) || !BodyLine(lines, false, e))
    ensures BlankLine(lines[e]) || HashLine(lines[e]) || BulletLine(lines[e])
  {
    hide BlankLine, HashLine;
  }

  // ---------------------------------------------------------------------------
  // Headings
  // ---------------------------------------------------------------------------

  /** `"#" * level` */
  function Marks(level: nat): (s: string)
    ensures |s| == level && forall i :: 0 <= i < level ==> s[i] == '#'
  {
    seq(level, _ => '#')
  }

  lemma {:induction false} MarksCounted(level: nat, rest: string)
    requires rest == "" || rest[0] != '#'
    ensures Hashes(Marks(level) + rest) == level
  {
    if level > 0 {
      assert (Marks(level) + rest)[1..] == Marks(level - 1) + rest;
      MarksCounted(level - 1, rest);
    } else {
      assert Marks(level) + rest == rest;
    }
  }

  /** A heading that is written down is read back: any title, at any level, at any indentation. */
  lemma HeadingReadsBack(indent: string, level: nat, title: string, tail: string)
    requires level > 0 && Blank(indent) && Blank(tail)
    requires title != "" && !IsSpace(title[0]) && !IsSpace(title[|title| - 1])
    ensures var line := indent + (Marks(level) + " " + title) + tail;
            HashLine(line) && Hashes(Strip(line)) == level && Title(line) == title
  {
    var heading := Marks(level) + " " + title;
    StripUnique(indent, heading, tail);
    MarksCounted(level, " " + title);
    assert heading == Marks(level) + (" " + title);
    assert heading[level..] == " " + title + "";
    StripUnique(" ", title, "");
  }
}
