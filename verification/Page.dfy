/** The generated regions of a published page (src/memline/wiki/page.py). */
module Page {
  import opened Strings
  import opened Sequences

  const INDEX_BEGIN := "<!-- index:begin -->"
  const INDEX_END := "<!-- index:end -->"
  const RELATED_BEGIN := "<!-- related:begin -->"
  const RELATED_END := "<!-- related:end -->"

  /** The first occurrence from `from` on. */
  function Find(m: string, s: string, from: nat): (r: Option<nat>)
    ensures r.Some? ==> from <= r.value && At(m, s, r.value)
    decreases |s| - from
  {
    if from > |s| then None else if At(m, s, from) then Some(from) else Find(m, s, from + 1)
  }

  /** What the pattern begin.*?end finds: where the region starts and where it ends. */
  function Region(s: string, begin: string, end: string): (r: Option<(nat, nat)>)
    ensures r.Some? ==> r.value.0 + |begin| + |end| <= r.value.1 <= |s|
  {
    var i := Find(begin, s, 0);
    if i.None? then None
    else
      var j := Find(end, s, i.value + |begin|);
      if j.None? then None else Some((i.value, j.value + |end|))
  }

  function Block(body: string, begin: string, end: string): string
  {
    begin + ("\n" + RStrip(body) + "\n") + end
  }

  /** `s.rstrip("\n")` */
  function RStripNewlines(s: string): (r: string)
    ensures r <= s && (r == "" || r[|r| - 1] != '\n')
    ensures forall i :: |r| <= i < |s| ==> s[i] == '\n'
  {
    if s != "" && s[|s| - 1] == '\n' then RStripNewlines(s[..|s| - 1]) else s
  }

  function Updated(current: string, body: string, begin: string, end: string): string
  {
    var region := Region(current, begin, end);
    if region.Some?
    then current[..region.value.0] + Block(body, begin, end) + current[region.value.1..]
    else RStripNewlines(current) + "\n\n" + Block(body, begin, end) + "\n"
  }

  /** A page on disk. */
  class File {
    var text: Option<string>

    constructor (t: Option<string>)
      ensures text == t
    {
      text := t;
    }

    /** `write_region` */
    method WriteRegion(body: string, begin: string, end: string) returns (changed: bool)
      modifies this
      ensures text == if old(text).None? then None else Some(Updated(old(text).value, body, begin, end))
      ensures changed <==> text != old(text)
    {
      if text.None? {
        return false;
      }
      var current := text.value;
      var updated := Updated(current, body, begin, end);
      if updated == current {
        return false;
      }
      text := Some(updated);
      changed := true;
    }
  }

  // ---------------------------------------------------------------------------
  // Markers
  // ---------------------------------------------------------------------------

  /** An angle bracket opens and closes a marker, with none and no newline in between. */
  predicate Marker(m: string)
  {
    && |m| >= 2 && m[0] == '<' && m[|m| - 1] == '>'
    && (forall i :: 0 < i < |m| ==> m[i] != '<')
    && (forall i :: 0 <= i < |m| - 1 ==> m[i] != '>')
    && (forall i :: 0 <= i < |m| ==> m[i] != '\n')
  }

  predicate Absent(m: string, s: string)
  {
    forall i :: 0 <= i <= |s| ==> !At(m, s, i)
  }

  lemma MarkersAreMarkers()
    ensures Marker(INDEX_BEGIN) && Marker(INDEX_END) && Marker(RELATED_BEGIN) && Marker(RELATED_END)
  {
  }

  lemma {:induction false} FindExact(m: string, s: string, from: nat)
    ensures match Find(m, s, from)
            case Some(i) => from <= i && At(m, s, i) && forall k :: from <= k < i ==> !At(m, s, k)
            case None => forall k :: from <= k <= |s| ==> !At(m, s, k)
    decreases |s| - from
  {
    if from <= |s| && !At(m, s, from) {
      FindExact(m, s, from + 1);
    }
  }

  lemma FindIs(m: string, s: string, from: nat, i: nat)
    requires from <= i && At(m, s, i) && forall k :: from <= k < i ==> !At(m, s, k)
    ensures Find(m, s, from) == Some(i)
  {
    FindExact(m, s, from);
  }

  /** An occurrence in a concatenation lies in one part or across the seam. */
  lemma Across(m: string, x: string, y: string, i: nat)
    requires At(m, x + y, i) && m != ""
    ensures i + |m| <= |x| ==> At(m, x, i)
    ensures i >= |x| ==> At(m, y, i - |x|)
    ensures i < |x| < i + |m| ==> x[|x| - 1] == m[|x| - 1 - i] && y != "" && y[0] == m[|x| - i]
  {
    var s := x + y;
    assert forall k :: 0 <= k < |m| ==> s[i + k] == m[k];
    if i + |m| <= |x| {
      assert x[i..i + |m|] == s[i..i + |m|];
    }
    if i >= |x| {
      assert y[i - |x|..i - |x| + |m|] == s[i..i + |m|];
    }
    if i < |x| < i + |m| {
      assert s[i + (|x| - 1 - i)] == x[|x| - 1];
      assert s[i + (|x| - i)] == y[0];
    }
  }

  /** A seam no marker can cross: a newline, a closing bracket before it, or an opening bracket after it. */
  predicate Seam(x: string, y: string)
  {
    x == "" || y == "" || x[|x| - 1] == '\n' || y[0] == '\n' || x[|x| - 1] == '>' || y[0] == '<'
  }

  lemma AbsentAppend(m: string, x: string, y: string)
    requires Marker(m) && Absent(m, x) && Absent(m, y) && Seam(x, y)
    ensures Absent(m, x + y)
  {
    forall i | 0 <= i <= |x + y| ensures !At(m, x + y, i) {
      if At(m, x + y, i) {
        Across(m, x, y, i);
      }
    }
  }

  /** No two markers overlap: a different one does not occur in a marker. */
  lemma OtherAbsent(m: string, n: string)
    requires Marker(m) && Marker(n) && m != n
    ensures Absent(m, n)
  {
    assert n[0..|n|] == n;
  }

  // ---------------------------------------------------------------------------
  // Where a region is
  // ---------------------------------------------------------------------------

  /** No marker hides in a text before which, or in which, it was not found. */
  lemma PartAbsent(m: string, s: string, low: nat, high: nat)
    requires m != "" && low <= high <= |s| && forall k :: low <= k < high ==> !At(m, s, k)
    ensures Absent(m, s[low..high])
  {
    forall i | 0 <= i <= |s[low..high]| ensures !At(m, s[low..high], i) {
      if At(m, s[low..high], i) {
        SliceOfSlice(s, low, high, i, i + |m|);
        assert At(m, s, low + i);
      }
    }
  }

  lemma StartsWith(m: string, x: string, z: string)
    ensures At(m, x + (m + z), |x|)
  {
    var s := x + (m + z);
    Parts(x, m, z);
    Associative(x, m, z);
  }

  /** The first marker after a text without it is the one that follows. */
  lemma FirstAfter(m: string, x: string, z: string, from: nat)
    requires Marker(m) && from <= |x| && forall k :: from <= k <= |x| ==> !At(m, x, k)
    ensures Find(m, x + (m + z), from) == Some(|x|)
  {
    var s := x + (m + z);
    StartsWith(m, x, z);
    forall k | from <= k < |x| ensures !At(m, s, k) {
      if At(m, s, k) {
        Across(m, x, m + z, k);
      }
    }
    FindIs(m, s, from, |x|);
  }

  lemma AfterPrefix(m: string, w: string, inner: string)
    requires m != "" && Absent(m, inner)
    ensures forall k :: |w| <= k <= |w + inner| ==> !At(m, w + inner, k)
  {
    forall k | |w| <= k <= |w + inner| ensures !At(m, w + inner, k) {
      if At(m, w + inner, k) {
        Across(m, w, inner, k);
      }
    }
  }

  lemma FirstAfterAbsent(m: string, x: string, z: string)
    requires Marker(m) && Absent(m, x)
    ensures Find(m, x + (m + z), 0) == Some(|x|)
  {
    FirstAfter(m, x, z, 0);
  }

  lemma FirstAfterInner(m: string, w: string, inner: string, z: string)
    requires Marker(m) && Absent(m, inner)
    ensures Find(m, (w + inner) + (m + z), |w|) == Some(|w + inner|)
  {
    AfterPrefix(m, w, inner);
    FirstAfter(m, w + inner, z, |w|);
  }

  /** Pasted between a text without its begin marker and anything, a region is where it was pasted. */
  lemma RegionAt(p: string, begin: string, inner: string, end: string, q: string)
    requires Marker(begin) && Marker(end) && Absent(begin, p) && Absent(end, inner)
    ensures Region(p + (begin + inner + end) + q, begin, end) == Some((|p|, |p| + |begin| + |inner| + |end|))
  {
    hide Find, At, Absent, Marker;
    Regroup(p, begin, inner, end, q);
    FirstAfterAbsent(begin, p, inner + end + q);
    FirstAfterInner(end, p + begin, inner, q);
  }

  lemma RegionFound(s: string, begin: string, end: string)
    requires Region(s, begin, end).Some?
    ensures var (i, k) := Region(s, begin, end).value;
            && At(begin, s, i) && (forall n :: 0 <= n < i ==> !At(begin, s, n))
            && At(end, s, k - |end|) && (forall n :: i + |begin| <= n < k - |end| ==> !At(end, s, n))
  {
    FindExact(begin, s, 0);
    FindExact(end, s, Find(begin, s, 0).value + |begin|);
  }

  /** A region that was found, taken apart. */
  lemma RegionParts(s: string, begin: string, end: string)
    requires Marker(begin) && Marker(end) && Region(s, begin, end).Some?
    ensures var (i, k) := Region(s, begin, end).value; var inner := s[i + |begin|..k - |end|];
            && s[i..k] == begin + inner + end
            && Absent(begin, s[..i]) && Absent(end, inner)
  {
    hide Region, Find, At, Absent;
    var (i, k) := Region(s, begin, end).value;
    RegionFound(s, begin, end);
    PartAbsent(begin, s, 0, i);
    PartAbsent(end, s, i + |begin|, k - |end|);
    assert s[0..i] == s[..i];
    Glued(s, begin, s[i + |begin|..k - |end|], end, i, k);
  }

  lemma Glued(s: string, begin: string, inner: string, end: string, i: nat, k: nat)
    requires i + |begin| <= k - |end| && k <= |s| && inner == s[i + |begin|..k - |end|]
    requires At(begin, s, i) && At(end, s, k - |end|)
    ensures s[i..k] == begin + inner + end
  {
  }

  lemma InnerAbsent(m: string, body: string)
    requires Marker(m) && Absent(m, body)
    ensures Absent(m, "\n" + body + "\n")
  {
    assert Absent(m, "\n");
    AbsentAppend(m, "\n", body);
    AbsentAppend(m, "\n" + body, "\n");
  }

  // ---------------------------------------------------------------------------
  // write_region
  // ---------------------------------------------------------------------------

  /** A body that does not end its own region. */
  predicate Unended(body: string, begin: string, end: string)
  {
    Marker(begin) && Marker(end) && begin != end && Absent(end, RStrip(body))
  }

  lemma WrittenParts(s: string, body: string, begin: string, end: string)
    requires Region(s, begin, end).Some?
    ensures var (i, k) := Region(s, begin, end).value; var t, n := Updated(s, body, begin, end), i + |Block(body, begin, end)|;
            && t == s[..i] + Block(body, begin, end) + s[k..]
            && n <= |t| && t[..i] == s[..i] && t[i..n] == Block(body, begin, end) && t[n..] == s[k..]
  {
    var (i, k) := Region(s, begin, end).value;
    hide Block, Region;
    Parts(s[..i], Block(body, begin, end), s[k..]);
  }

  lemma BlockParts(body: string, begin: string, end: string)
    ensures var b := Block(body, begin, end); b[|begin|..|b| - |end|] == "\n" + RStrip(body) + "\n"
  {
    Parts(begin, "\n" + RStrip(body) + "\n", end);
  }

  /** A begin marker with an end marker behind it: there is a region, and it reaches no further. */
  lemma HasRegion(t: string, begin: string, end: string, i: nat, j: nat)
    requires At(begin, t, i) && i + |begin| <= j && At(end, t, j) && begin != ""
    ensures Region(t, begin, end).Some? && Region(t, begin, end).value.1 <= j + |end|
  {
    FindExact(begin, t, 0);
    FindExact(end, t, Find(begin, t, 0).value + |begin|);
  }

  /** If a write changes nothing, its block stands there as the region, so the body holds no end marker. */
  lemma IdleMeansUnended(t: string, body: string, begin: string, end: string)
    requires Marker(begin) && Marker(end) && begin != end
    requires Region(t, begin, end).Some? && Updated(t, body, begin, end) == t
    ensures Absent(end, RStrip(body))
  {
    var (i, k) := Region(t, begin, end).value;
    RegionParts(t, begin, end);
    var block := Block(body, begin, end);
    WrittenParts(t, body, begin, end);
    assert |t| == i + |block| + |t[k..]|;
    BlockParts(body, begin, end);
    hide Absent, Region, Updated, Block, RStrip;
    assert t[i..k] == block;
    var inner := t[i + |begin|..k - |end|];
    SliceOfSlice(t, i, k, |begin|, k - i - |end|);
    assert inner == "\n" + RStrip(body) + "\n";
    InnerPart(end, RStrip(body));
  }

  lemma InnerPart(m: string, body: string)
    requires Absent(m, "\n" + body + "\n")
    ensures Absent(m, body)
  {
    var s := "\n" + body + "\n";
    forall i | 0 <= i <= |body| ensures !At(m, body, i) {
      if At(m, body, i) {
        assert s[i + 1..i + 1 + |m|] == body[i..i + |m|];
        assert At(m, s, i + 1);
      }
    }
  }

  /** What a write leaves: every character outside the region, and a region that begins where it was and is at
      most the block. */
  lemma WriteKeepsOutside(s: string, body: string, begin: string, end: string)
    requires Marker(begin) && Marker(end) && begin != end && Region(s, begin, end).Some?
    ensures var (i, k) := Region(s, begin, end).value;
            var t, n := Updated(s, body, begin, end), i + |Block(body, begin, end)|;
            && t[..i] == s[..i] && t[n..] == s[k..]
            && Region(t, begin, end).Some? && Region(t, begin, end).value.0 == i && Region(t, begin, end).value.1 <= n
  {
    hide Block, Absent, Marker, Region, Updated, At, Find, RStrip;
    var (i, k) := Region(s, begin, end).value;
    var t, n := Updated(s, body, begin, end), i + |Block(body, begin, end)|;
    RegionParts(s, begin, end);
    WrittenParts(s, body, begin, end);
    BlockStarts(body, begin, end);
    BlockStands(t, Block(body, begin, end), i, begin, end);
    NotEmpty(begin);
    HasRegion(t, begin, end, i, n - |end|);
    FirstAfterAbsent(begin, s[..i], t[i + |begin|..]);
    Rejoined(t, i, begin);
    RegionBegins(t, begin, end, i);
  }

  lemma NotEmpty(m: string)
    requires Marker(m)
    ensures m != ""
  {
  }

  lemma Rejoined(t: string, i: nat, begin: string)
    requires i + |begin| <= |t| && t[i..i + |begin|] == begin
    ensures t == t[..i] + (begin + t[i + |begin|..])
  {
  }

  lemma RegionBegins(t: string, begin: string, end: string, i: nat)
    requires Find(begin, t, 0) == Some(i) && Region(t, begin, end).Some?
    ensures Region(t, begin, end).value.0 == i
  {
    hide Find, At;
  }

  lemma BlockStarts(body: string, begin: string, end: string)
    ensures var b := Block(body, begin, end);
            |b| >= |begin| + |end| && b[..|begin|] == begin && b[|b| - |end|..] == end
  {
    Parts(begin, "\n" + RStrip(body) + "\n", end);
  }

  lemma BlockStands(t: string, b: string, i: nat, begin: string, end: string)
    requires i + |b| <= |t| && t[i..i + |b|] == b && |b| >= |begin| + |end| && b[..|begin|] == begin && b[|b| - |end|..] == end
    ensures At(begin, t, i) && At(end, t, i + |b| - |end|) && t[i..i + |begin|] == begin
  {
    SliceOfSlice(t, i, i + |b|, 0, |begin|);
    SliceOfSlice(t, i, i + |b|, |b| - |end|, |b|);
    assert b[0..|begin|] == b[..|begin|] && b[|b| - |end|..|b|] == b[|b| - |end|..];
  }

  /** The region written is the region found, and reads back as the stripped body, if and only if the body
      holds no end marker; every character outside it is kept in any case. */
  lemma RegionReadsBack(s: string, body: string, begin: string, end: string)
    requires Marker(begin) && Marker(end) && begin != end && Region(s, begin, end).Some?
    ensures var (i, k) := Region(s, begin, end).value;
            var t, n := Updated(s, body, begin, end), i + |Block(body, begin, end)|;
            && t[..i] == s[..i] && t[n..] == s[k..]
            && t[i..n][|begin|..n - i - |end|] == "\n" + RStrip(body) + "\n"
            && (Region(t, begin, end) == Some((i, n)) <==> Absent(end, RStrip(body)))
  {
    hide Absent, Marker, Region, Updated, RStrip, Find, At;
    var (i, k) := Region(s, begin, end).value;
    RegionParts(s, begin, end);
    WrittenParts(s, body, begin, end);
    BlockParts(body, begin, end);
    if Absent(end, RStrip(body)) {
      InnerAbsent(end, RStrip(body));
      RegionAt(s[..i], begin, "\n" + RStrip(body) + "\n", end, s[k..]);
    }
    var t, n := Updated(s, body, begin, end), i + |Block(body, begin, end)|;
    if Region(t, begin, end) == Some((i, n)) {
      WholeRegionIdle(t, body, begin, end);
      IdleMeansUnended(t, body, begin, end);
    }
  }

  lemma WholeRegionIdle(t: string, body: string, begin: string, end: string)
    requires Region(t, begin, end).Some?
    requires var (i, k) := Region(t, begin, end).value; t[i..k] == Block(body, begin, end)
    ensures Updated(t, body, begin, end) == t
  {
    var (i, k) := Region(t, begin, end).value;
    hide Block, Region;
    assert t == t[..i] + t[i..k] + t[k..];
  }

  /** Writing the same body again changes nothing if and only if the body holds no end marker. If it does, the
      region found ends before the block, and every further write makes the page longer. */
  lemma SecondWriteExact(s: string, body: string, begin: string, end: string)
    requires Marker(begin) && Marker(end) && begin != end && Region(s, begin, end).Some?
    ensures var t := Updated(s, body, begin, end);
            && (Updated(t, body, begin, end) == t <==> Absent(end, RStrip(body)))
            && (!Absent(end, RStrip(body)) ==> |Updated(t, body, begin, end)| > |t| && Region(t, begin, end).Some?)
  {
    hide Absent, Marker, Region, Updated, RStrip, Find, At, Block;
    var (i, k) := Region(s, begin, end).value;
    var t, n := Updated(s, body, begin, end), i + |Block(body, begin, end)|;
    WriteKeepsOutside(s, body, begin, end);
    RegionReadsBack(s, body, begin, end);
    WrittenParts(s, body, begin, end);
    WrittenParts(t, body, begin, end);
    if Absent(end, RStrip(body)) {
      WholeRegionIdle(t, body, begin, end);
    }
  }

  /** A marker found in the kept part of two texts that agree there. */
  lemma AtPrefix(m: string, r: string, x: string, y: string, k: nat)
    requires k + |m| <= |r|
    ensures At(m, r + x, k) <==> At(m, r + y, k)
  {
    assert (r + x)[k..k + |m|] == r[k..k + |m|];
    assert (r + y)[k..k + |m|] == r[k..k + |m|];
  }

  /** The first begin marker stays the first when the text after it changes. */
  lemma FirstKept(m: string, r: string, x: string, y: string, i: nat)
    requires Find(m, r + x, 0) == Some(i) && i + |m| <= |r|
    ensures Find(m, r + y, 0) == Some(i)
  {
    FindExact(m, r + x, 0);
    AtPrefix(m, r, x, y, i);
    forall k | 0 <= k < i ensures !At(m, r + y, k) {
      AtPrefix(m, r, x, y, k);
    }
    FindIs(m, r + y, 0, i);
  }

  /** A begin marker on the page lies before its trailing newlines. */
  lemma BeforeNewlines(m: string, s: string, i: nat)
    requires Marker(m) && At(m, s, i)
    ensures i + |m| <= |RStripNewlines(s)|
  {
    assert s[i..i + |m|][|m| - 1] == s[i + |m| - 1];
  }

  /** No end marker follows the stray begin marker until the new block's. */
  lemma PrefixAt(m: string, r: string, s: string, k: nat)
    requires r <= s && At(m, r, k)
    ensures At(m, s, k)
  {
    assert s[k..k + |m|] == r[k..k + |m|];
  }

  lemma NoEndBefore(s: string, r: string, head: string, end: string, from: nat)
    requires Marker(end) && r <= s && Absent(end, head) && head != "" && head[0] == '\n'
    requires forall k :: from <= k <= |s| ==> !At(end, s, k)
    ensures forall k :: from <= k <= |r + head| ==> !At(end, r + head, k)
  {
    forall k | from <= k <= |r + head| ensures !At(end, r + head, k) {
      if At(end, r, k) {
        PrefixAt(end, r, s, k);
      }
      if At(end, r + head, k) {
        Across(end, r, head, k);
      }
    }
  }

  /** What the block adds before its end marker. */
  function Head(body: string, begin: string): string
  {
    "\n\n" + begin + ("\n" + RStrip(body) + "\n")
  }

  lemma NoEndAfter(s: string, end: string, from: nat)
    requires Find(end, s, from).None?
    ensures forall k :: from <= k <= |s| ==> !At(end, s, k)
  {
    FindExact(end, s, from);
  }

  lemma StrayEnd(s: string, body: string, begin: string, end: string, from: nat)
    requires Unended(body, begin, end) && Find(end, s, from).None? && from <= |RStripNewlines(s)|
    ensures Find(end, (RStripNewlines(s) + Head(body, begin)) + (end + "\n"), from) == Some(|RStripNewlines(s) + Head(body, begin)|)
  {
    NoEndAfter(s, end, from);
    HeadAbsent(body, begin, end);
    NoEndBefore(s, RStripNewlines(s), Head(body, begin), end, from);
    FirstAfter(end, RStripNewlines(s) + Head(body, begin), "\n", from);
  }

  lemma StrayBegin(s: string, begin: string, i: nat, head: string, tail: string)
    requires Marker(begin) && Find(begin, s, 0) == Some(i)
    ensures Find(begin, (RStripNewlines(s) + head) + tail, 0) == Some(i) && i + |begin| <= |RStripNewlines(s)|
  {
    hide Find, Marker, At;
    var r := RStripNewlines(s);
    BeforeNewlines(begin, s, i);
    assert s == r + s[|r|..];
    FirstKept(begin, r, s[|r|..], head + tail, i);
    Associative(r, head, tail);
  }

  lemma RegionFrom(t: string, begin: string, end: string, i: nat, j: nat)
    requires Find(begin, t, 0) == Some(i) && Find(end, t, i + |begin|) == Some(j)
    ensures Region(t, begin, end) == Some((i, j + |end|))
  {
    hide Find, At;
  }

  /** After an append past a stray begin marker, the region found is from that marker to the new end. */
  lemma AppendedRegion(s: string, body: string, begin: string, end: string, i: nat)
    requires Unended(body, begin, end) && Marker(begin) && Region(s, begin, end).None? && Find(begin, s, 0) == Some(i)
    ensures var t := Updated(s, body, begin, end); Region(t, begin, end) == Some((i, |t| - 1)) && i + |begin| <= |RStripNewlines(s)|
  {
    hide Unended, Find, Absent, Marker, Head, Updated, Block, RStripNewlines, RStrip, Region, At;
    NoEndFound(s, begin, end, i);
    StrayBegin(s, begin, i, Head(body, begin), end + "\n");
    StrayEnd(s, body, begin, end, i + |begin|);
    Appended(s, body, begin, end);
    RegionFrom(Updated(s, body, begin, end), begin, end, i, |RStripNewlines(s) + Head(body, begin)|);
  }

  lemma NoEndFound(s: string, begin: string, end: string, i: nat)
    requires Region(s, begin, end).None? && Find(begin, s, 0) == Some(i)
    ensures Find(end, s, i + |begin|).None?
  {
    hide Find, At;
  }

  /** The appended text, grouped before its end marker. */
  lemma Appended(s: string, body: string, begin: string, end: string)
    requires Region(s, begin, end).None?
    ensures Updated(s, body, begin, end)
         == (RStripNewlines(s) + Head(body, begin)) + (end + "\n")
  {
  }

  lemma HeadAbsent(body: string, begin: string, end: string)
    requires Unended(body, begin, end)
    ensures Absent(end, "\n\n" + begin + ("\n" + RStrip(body) + "\n"))
  {
    OtherAbsent(end, begin);
    assert Absent(end, "\n\n");
    AbsentAppend(end, "\n\n", begin);
    InnerAbsent(end, RStrip(body));
    AbsentAppend(end, "\n\n" + begin, "\n" + RStrip(body) + "\n");
  }

  lemma KeptAbsent(s: string, begin: string)
    requires Marker(begin) && Absent(begin, s)
    ensures Absent(begin, RStripNewlines(s) + "\n\n")
  {
    var r := RStripNewlines(s);
    PartAbsent(begin, s, 0, |r|);
    assert s[0..|r|] == r;
    assert Absent(begin, "\n\n");
    AbsentAppend(begin, r, "\n\n");
  }

  lemma AppendedPlain(s: string, body: string, begin: string, end: string)
    requires Region(s, begin, end).None?
    ensures Updated(s, body, begin, end) == RStripNewlines(s) + "\n\n" + Block(body, begin, end) + "\n"
  {
  }

  lemma AppendedAlone(s: string, body: string, begin: string, end: string)
    requires Unended(body, begin, end) && Region(s, begin, end).None? && Absent(begin, s)
    ensures var t, p := Updated(s, body, begin, end), RStripNewlines(s) + "\n\n";
            t == p + Block(body, begin, end) + "\n" && Region(t, begin, end) == Some((|p|, |p| + |Block(body, begin, end)|))
  {
    AppendedPlain(s, body, begin, end);
    hide Absent, Marker, Find, RStrip, RStripNewlines, Region, At, Updated;
    KeptAbsent(s, begin);
    InnerAbsent(end, RStrip(body));
    RegionAt(RStripNewlines(s) + "\n\n", begin, "\n" + RStrip(body) + "\n", end, "\n");
  }

  lemma NoneFound(m: string, s: string)
    ensures Find(m, s, 0).None? <==> Absent(m, s)
  {
    FindExact(m, s, 0);
  }

  /** A page without the region gets the block at its end, and only its trailing newlines change. A second
      write changes nothing if and only if no stray begin marker was on the page, from which it would swallow
      the text, and the body holds no end marker. */
  lemma AppendThenWrite(s: string, body: string, begin: string, end: string)
    requires Marker(begin) && Marker(end) && begin != end && Region(s, begin, end).None?
    ensures var t := Updated(s, body, begin, end);
            && t == RStripNewlines(s) + "\n\n" + Block(body, begin, end) + "\n"
            && (Updated(t, body, begin, end) == t <==> Absent(begin, s) && Absent(end, RStrip(body)))
  {
    var t := Updated(s, body, begin, end);
    AppendedPlain(s, body, begin, end);
    if Absent(end, RStrip(body)) {
      AppendUnended(s, body, begin, end);
    } else {
      AppendedHasRegion(s, body, begin, end);
      if Updated(t, body, begin, end) == t {
        IdleMeansUnended(t, body, begin, end);
      }
    }
  }

  lemma AppendedHasRegion(s: string, body: string, begin: string, end: string)
    requires Marker(begin) && Region(s, begin, end).None?
    ensures Region(Updated(s, body, begin, end), begin, end).Some?
  {
    AppendedPlain(s, body, begin, end);
    BlockStarts(body, begin, end);
    hide Region, Updated, RStripNewlines, RStrip, Find, Block;
    var t, p, b := Updated(s, body, begin, end), RStripNewlines(s) + "\n\n", Block(body, begin, end);
    Parts(p, b, "\n");
    BlockStands(t, b, |p|, begin, end);
    HasRegion(t, begin, end, |p|, |p| + |b| - |end|);
  }

  lemma AppendUnended(s: string, body: string, begin: string, end: string)
    requires Unended(body, begin, end) && Region(s, begin, end).None?
    ensures var t := Updated(s, body, begin, end); Updated(t, body, begin, end) == t <==> Absent(begin, s)
  {
    var t := Updated(s, body, begin, end);
    NoneFound(begin, s);
    if Absent(begin, s) {
      AppendedAlone(s, body, begin, end);
      var p := RStripNewlines(s) + "\n\n";
      Parts(p, Block(body, begin, end), "\n");
      WrittenParts(t, body, begin, end);
    } else {
      AppendedRegion(s, body, begin, end, Find(begin, s, 0).value);
      WrittenParts(t, body, begin, end);
      hide Region, Find, Unended, Absent, Block;
      assert |Updated(t, body, begin, end)| < |t|;
    }
  }

  // ---------------------------------------------------------------------------
  // Two regions
  // ---------------------------------------------------------------------------

  lemma BlockAbsent(m: string, body: string, begin: string, end: string)
    requires Marker(m) && Marker(begin) && Marker(end) && m != begin && m != end && Absent(m, RStrip(body))
    ensures Absent(m, Block(body, begin, end))
  {
    OtherAbsent(m, begin);
    OtherAbsent(m, end);
    InnerAbsent(m, RStrip(body));
    AbsentAppend(m, begin, "\n" + RStrip(body) + "\n");
    AbsentAppend(m, begin + ("\n" + RStrip(body) + "\n"), end);
  }

  /** Writing to a region that sits between two known texts. */
  lemma UpdateAt(p: string, inner: string, q: string, body: string, begin: string, end: string)
    requires Marker(begin) && Marker(end) && Absent(begin, p) && Absent(end, inner)
    ensures Updated(p + (begin + inner + end) + q, body, begin, end) == p + Block(body, begin, end) + q
  {
    hide Absent, Marker, Block, Find;
    RegionAt(p, begin, inner, end, q);
    Parts(p, begin + inner + end, q);
  }

  /** Two regions with a text before, between and after them: writes to them commute. */
  lemma PiecesCommute(p: string, innerA: string, q: string, innerB: string, r: string, bodyA: string, bodyB: string,
                      beginA: string, endA: string, beginB: string, endB: string)
    requires Marker(beginA) && Marker(endA) && Marker(beginB) && Marker(endB)
    requires Absent(beginA, p) && Absent(endA, innerA) && Absent(endB, innerB)
    requires Absent(beginB, p + (beginA + innerA + endA) + q) && Absent(beginB, p + Block(bodyA, beginA, endA) + q)
    ensures var s := p + (beginA + innerA + endA) + (q + (beginB + innerB + endB) + r);
            Updated(Updated(s, bodyA, beginA, endA), bodyB, beginB, endB)
            == Updated(Updated(s, bodyB, beginB, endB), bodyA, beginA, endA)
  {
    var ra, rb := beginA + innerA + endA, beginB + innerB + endB;
    var a, b := Block(bodyA, beginA, endA), Block(bodyB, beginB, endB);
    UpdateAt(p, innerA, q + rb + r, bodyA, beginA, endA);
    Shift(p, a, q, rb, r);
    UpdateAt(p + a + q, innerB, r, bodyB, beginB, endB);
    Shift(p, ra, q, rb, r);
    UpdateAt(p + ra + q, innerB, r, bodyB, beginB, endB);
    Shift(p, ra, q, b, r);
    UpdateAt(p, innerA, q + b + r, bodyA, beginA, endA);
    Shift(p, a, q, b, r);
    hide Updated, Block, Absent, Marker;
  }

  lemma FiveParts(s: string, i: nat, k: nat, i2: nat, k2: nat)
    requires i <= k <= i2 <= k2 <= |s|
    ensures s == s[..i] + s[i..k] + (s[k..i2] + s[i2..k2] + s[k2..])
    ensures s[..i] + s[i..k] + s[k..i2] == s[..i2]
  {
  }

  /** The begin marker of the later region is nowhere before it, whatever clean body the earlier one gets. */
  lemma LaterBeginAbsent(s: string, bodyA: string, beginA: string, endA: string, beginB: string, endB: string, i: nat, k: nat)
    requires Marker(beginA) && Marker(endA) && Marker(beginB) && beginB != beginA && beginB != endA
    requires Absent(beginB, RStrip(bodyA)) && Region(s, beginB, endB).Some?
    requires i <= k <= Region(s, beginB, endB).value.0
    ensures var i2 := Region(s, beginB, endB).value.0;
            Absent(beginB, s[..i2]) && Absent(beginB, s[..i] + Block(bodyA, beginA, endA) + s[k..i2])
  {
    var i2 := Region(s, beginB, endB).value.0;
    RegionFound(s, beginB, endB);
    PartAbsent(beginB, s, 0, i2);
    PartAbsent(beginB, s, 0, i);
    PartAbsent(beginB, s, k, i2);
    assert s[0..i] == s[..i] && s[0..i2] == s[..i2];
    BlockAbsent(beginB, bodyA, beginA, endA);
    var block := Block(bodyA, beginA, endA);
    assert block[0] == '<' && block[|block| - 1] == '>';
    hide Block, Absent, Region, RStrip;
    AbsentAppend(beginB, s[..i], block);
    AbsentAppend(beginB, s[..i] + block, s[k..i2]);
  }

  /** Writes to two regions that do not overlap commute. */
  lemma RegionsCommute(s: string, bodyA: string, bodyB: string, beginA: string, endA: string, beginB: string, endB: string)
    requires Marker(beginA) && Marker(endA) && Marker(beginB) && Marker(endB) && beginB != beginA && beginB != endA
    requires Absent(beginB, RStrip(bodyA)) && Region(s, beginA, endA).Some? && Region(s, beginB, endB).Some?
    requires Region(s, beginA, endA).value.1 <= Region(s, beginB, endB).value.0
    ensures Updated(Updated(s, bodyA, beginA, endA), bodyB, beginB, endB)
         == Updated(Updated(s, bodyB, beginB, endB), bodyA, beginA, endA)
  {
    hide Block, Absent, Region, RStrip, Updated, Marker;
    var (i, k) := Region(s, beginA, endA).value;
    var (i2, k2) := Region(s, beginB, endB).value;
    RegionParts(s, beginA, endA);
    RegionParts(s, beginB, endB);
    LaterBeginAbsent(s, bodyA, beginA, endA, beginB, endB, i, k);
    FiveParts(s, i, k, i2, k2);
    PiecesCommute(s[..i], s[i + |beginA|..k - |endA|], s[k..i2], s[i2 + |beginB|..k2 - |endB|], s[k2..],
                  bodyA, bodyB, beginA, endA, beginB, endB);
  }

  /** The index and the related region of a page, wherever they are as long as they do not overlap. */
  lemma IndexAndRelatedCommute(s: string, index: string, related: string)
    requires Region(s, INDEX_BEGIN, INDEX_END).Some? && Region(s, RELATED_BEGIN, RELATED_END).Some?
    requires var x, y := Region(s, INDEX_BEGIN, INDEX_END).value, Region(s, RELATED_BEGIN, RELATED_END).value; x.1 <= y.0 || y.1 <= x.0
    requires Absent(RELATED_BEGIN, RStrip(index)) && Absent(INDEX_BEGIN, RStrip(related))
    ensures Updated(Updated(s, index, INDEX_BEGIN, INDEX_END), related, RELATED_BEGIN, RELATED_END)
         == Updated(Updated(s, related, RELATED_BEGIN, RELATED_END), index, INDEX_BEGIN, INDEX_END)
  {
    MarkersAreMarkers();
    MarkersDiffer();
    if Region(s, INDEX_BEGIN, INDEX_END).value.1 <= Region(s, RELATED_BEGIN, RELATED_END).value.0 {
      RegionsCommute(s, index, related, INDEX_BEGIN, INDEX_END, RELATED_BEGIN, RELATED_END);
    } else {
      RegionsCommute(s, related, index, RELATED_BEGIN, RELATED_END, INDEX_BEGIN, INDEX_END);
    }
  }

  lemma MarkersDiffer()
    ensures INDEX_BEGIN != RELATED_BEGIN && INDEX_BEGIN != RELATED_END && INDEX_BEGIN != INDEX_END
    ensures RELATED_BEGIN != INDEX_END && RELATED_BEGIN != RELATED_END
  {
    assert |INDEX_BEGIN| == 20 && |INDEX_END| == 18 && |RELATED_BEGIN| == 22 && |RELATED_END| == 20;
    assert INDEX_BEGIN[5] == 'i' && RELATED_END[5] == 'r';
  }
}
