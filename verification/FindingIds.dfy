/** The texts that name findings: decimal numbers and colon-separated parts
    (src/memline/wiki/adjudication.py). */
module FindingIds {
  import opened Strings
  import opened ReviewReport

  predicate IsDigit(c: char)
  {
    '0' <= c <= '9'
  }

  /** `str(n)` */
  function Dec(n: nat): (s: string)
    ensures s != "" && forall i :: 0 <= i < |s| ==> IsDigit(s[i])
  {
    if n < 10 then [Digit(n)] else Dec(n / 10) + [Digit(n % 10)]
  }

  lemma {:induction false} DecInjective(a: nat, b: nat)
    requires Dec(a) == Dec(b)
    ensures a == b
  {
    if a < 10 || b < 10 {
      assert |Dec(a)| == |Dec(b)|;
      assert Dec(a)[|Dec(a)| - 1] == Dec(b)[|Dec(b)| - 1];
    } else {
      var s, t := Dec(a), Dec(b);
      assert s[..|s| - 1] == Dec(a / 10) && t[..|t| - 1] == Dec(b / 10);
      assert s[|s| - 1] == Digit(a % 10) && t[|t| - 1] == Digit(b % 10);
      DecInjective(a / 10, b / 10);
    }
  }

  /** A JSON number as Python formats it. */
  function NumberText(x: Number): string
  {
    match x
    case NoNumber => "None"
    case Truth(b) => if b then "True" else "False"
    case Int(n) => if n < 0 then "-" + Dec(-n) else Dec(n)
  }

  predicate NoColon(s: string)
  {
    forall i :: 0 <= i < |s| ==> s[i] != ':'
  }

  lemma NumbersHaveNoColon(x: Number)
    ensures NoColon(NumberText(x))
  {
  }

  /** The part after the last colon, and what comes before it, are determined. */
  lemma LastPart(p: string, a: string, q: string, b: string)
    requires p + ":" + a == q + ":" + b && NoColon(a) && NoColon(b)
    ensures p == q && a == b
  {
    var s := p + ":" + a;
    assert s[|p|] == ':' && s[|q|] == ':';
    assert forall i :: |p| < i < |s| ==> s[i] == a[i - |p| - 1];
    assert forall i :: |q| < i < |s| ==> s[i] == b[i - |q| - 1];
    assert |p| == |q|;
    assert p == s[..|p|] && q == s[..|q|];
    assert a == s[|p| + 1..] && b == s[|q| + 1..];
  }

  /** Two positive pass numbers are told apart by their text. */
  lemma PassTexts(a: Number, b: Number)
    requires !a.NoNumber? && !b.NoNumber? && a != b && (a.Int? ==> a.n >= 0) && (b.Int? ==> b.n >= 0)
    ensures NumberText(a) != NumberText(b)
  {
    if a.Int? && b.Int? && Dec(a.n) == Dec(b.n) {
      DecInjective(a.n, b.n);
      assert false;
    }
    if a.Int? != b.Int? {
      assert IsDigit((if a.Int? then Dec(a.n) else Dec(b.n))[0]);
    }
  }

  lemma SignShows(n: int)
    ensures NumberText(Int(n)) != "" && (NumberText(Int(n))[0] == '-' <==> n < 0)
  {
    assert n >= 0 ==> IsDigit(Dec(n)[0]);
  }

  /** Any two integers are told apart by their text. */
  lemma IntTexts(a: int, b: int)
    requires NumberText(Int(a)) == NumberText(Int(b))
    ensures a == b
  {
    SignShows(a);
    SignShows(b);
    if a < 0 && b < 0 {
      assert NumberText(Int(a))[1..] == Dec(-a) && NumberText(Int(b))[1..] == Dec(-b);
      DecInjective(-a, -b);
    } else if a >= 0 && b >= 0 {
      DecInjective(a, b);
    }
  }
}
