/** Text facts shared by the models: code-point order, as Python compares `str`,
    and the white-space test behind `strip()`. */
module Strings {

  datatype Option<+T> = None | Some(value: T)

  /** Lexicographic order on code points. */
  predicate Le(a: string, b: string)
  {
    a == "" || (b != "" && (a[0] < b[0] || (a[0] == b[0] && Le(a[1..], b[1..]))))
  }

  predicate Lt(a: string, b: string)
  {
    Le(a, b) && a != b
  }

  lemma {:induction false} LeReflexive(a: string)
    ensures Le(a, a)
  {
    if a != "" {
      LeReflexive(a[1..]);
    }
  }

  lemma {:induction false} LeTotal(a: string, b: string)
    ensures Le(a, b) || Le(b, a)
  {
    if a != "" && b != "" {
      LeTotal(a[1..], b[1..]);
    }
  }

  lemma {:induction false} LeTransitive(a: string, b: string, c: string)
    requires Le(a, b) && Le(b, c)
    ensures Le(a, c)
  {
    if a != "" && b != "" && c != "" && a[0] == b[0] == c[0] {
      LeTransitive(a[1..], b[1..], c[1..]);
    }
  }

  lemma {:induction false} LeAntisymmetric(a: string, b: string)
    requires Le(a, b) && Le(b, a)
    ensures a == b
  {
    if a != "" {
      LeAntisymmetric(a[1..], b[1..]);
      assert a == [a[0]] + a[1..] && b == [b[0]] + b[1..];
    }
  }

  /** A shared prefix does not affect the order. */
  lemma {:induction false} LePrefix(p: string, a: string, b: string)
    ensures Le(p + a, p + b) == Le(a, b)
  {
    if p == "" {
      assert p + a == a && p + b == b;
    } else {
      assert (p + a)[1..] == p[1..] + a && (p + b)[1..] == p[1..] + b;
      LePrefix(p[1..], a, b);
    }
  }

  /** Two different prefixes of the same length decide the order alone. */
  lemma {:induction false} LeByPrefix(p: string, q: string, a: string, b: string)
    requires |p| == |q| && p != q
    ensures Le(p + a, q + b) == Le(p, q)
  {
    assert p[0] == q[0] ==> p[1..] != q[1..] by {
      assert p == [p[0]] + p[1..] && q == [q[0]] + q[1..];
    }
    assert (p + a)[1..] == p[1..] + a && (q + b)[1..] == q[1..] + b;
    if p[0] == q[0] {
      LeByPrefix(p[1..], q[1..], a, b);
    }
  }

  /** The characters `str.strip()` removes. */
  predicate IsSpace(c: char)
  {
    || ('\U{0009}' <= c <= '\U{000D}') || ('\U{001C}' <= c <= '\U{0020}')
    || c == '\U{0085}' || c == '\U{00A0}' || c == '\U{1680}'
    || ('\U{2000}' <= c <= '\U{200A}') || c == '\U{2028}' || c == '\U{2029}'
    || c == '\U{202F}' || c == '\U{205F}' || c == '\U{3000}'
  }

  /** `s.strip() == ""` */
  predicate Blank(s: string)
  {
    forall i :: 0 <= i < |s| ==> IsSpace(s[i])
  }

  function Digit(n: nat): char
    requires n < 10
  {
    '0' + n as char
  }

  /** `s.rstrip()` */
  function RStrip(s: string): (r: string)
    ensures r <= s
  {
    if s != "" && IsSpace(s[|s| - 1]) then RStrip(s[..|s| - 1]) else s
  }

  function LStrip(s: string): string
  {
    if s != "" && IsSpace(s[0]) then LStrip(s[1..]) else s
  }

  /** `s.strip()` */
  function Strip(s: string): string
  {
    LStrip(RStrip(s))
  }

  lemma {:induction false} RStripEnd(s: string) returns (n: nat)
    ensures n <= |s| && RStrip(s) == s[..n] && Blank(s[n..]) && (n > 0 ==> !IsSpace(s[n - 1]))
  {
    if s != "" && IsSpace(s[|s| - 1]) {
      n := RStripEnd(s[..|s| - 1]);
      assert s[n..] == s[..|s| - 1][n..] + [s[|s| - 1]];
    } else {
      n := |s|;
    }
  }

  lemma {:induction false} LStripStart(s: string) returns (n: nat)
    ensures n <= |s| && LStrip(s) == s[n..] && Blank(s[..n]) && (n < |s| ==> !IsSpace(s[n]))
  {
    if s != "" && IsSpace(s[0]) {
      n := LStripStart(s[1..]);
      assert s[..n + 1] == [s[0]] + s[1..][..n];
      n := n + 1;
    } else {
      n := 0;
    }
  }

  /** Stripping takes white space off both ends, and all of it. */
  lemma StripMeaning(s: string) returns (i: nat, j: nat)
    ensures i <= j <= |s| && Strip(s) == s[i..j] && Blank(s[..i]) && Blank(s[j..])
    ensures i < j ==> !IsSpace(s[i]) && !IsSpace(s[j - 1])
  {
    j := RStripEnd(s);
    i := LStripStart(s[..j]);
    assert s[..j][..i] == s[..i] && s[..j][i..] == s[i..j];
  }

  lemma {:induction false} RStripTail(m: string, b: string)
    requires Blank(b) && (m == "" || !IsSpace(m[|m| - 1]))
    ensures RStrip(m + b) == m
  {
    if b == "" {
      assert m + b == m;
    } else {
      assert (m + b)[..|m + b| - 1] == m + b[..|b| - 1];
      RStripTail(m, b[..|b| - 1]);
    }
  }

  lemma {:induction false} LStripHead(a: string, m: string)
    requires Blank(a) && (m == "" || !IsSpace(m[0]))
    ensures LStrip(a + m) == m
  {
    if a == "" {
      assert a + m == m;
    } else {
      assert (a + m)[1..] == a[1..] + m;
      LStripHead(a[1..], m);
    }
  }

  /** What stands between white space and neither begins nor ends with any is what stripping leaves. */
  lemma StripUnique(a: string, m: string, b: string)
    requires Blank(a) && Blank(b) && (m == "" || (!IsSpace(m[0]) && !IsSpace(m[|m| - 1])))
    ensures Strip(a + m + b) == m
  {
    if m == "" {
      assert a + m + b == a + b;
      StripBlank(a + b);
    } else {
      RStripTail(a + m, b);
      LStripHead(a, m);
    }
  }

  /** A text strips to nothing exactly when it is all white space. */
  lemma StripBlank(s: string)
    ensures Strip(s) == "" <==> Blank(s)
  {
    var i, j := StripMeaning(s);
    if i == j {
      assert forall k :: 0 <= k < |s| ==> s[k] == if k < i then s[..i][k] else s[j..][k - j];
    }
  }

  /** `m` occurs in `s` at `i`. */
  predicate At(m: string, s: string, i: nat)
  {
    i + |m| <= |s| && s[i..i + |m|] == m
  }
}
