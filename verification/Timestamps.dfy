/** The UTC texts the program prints and compares as texts (src/memline/staleness.py, src/memline/wiki/batch.py). */
module Timestamps {
  import opened Strings

  /** A UTC moment, field by field. */
  datatype Instant = Instant(year: nat, month: nat, day: nat, hour: nat, minute: nat, second: nat, micro: nat)

  predicate Valid(t: Instant)
  {
    && 1 <= t.year <= 9999 && 1 <= t.month <= 12 && 1 <= t.day <= 31
    && t.hour < 24 && t.minute < 60 && t.second < 60 && t.micro < 1000000
  }

  /** Chronological order: the fields, from the year down. */
  predicate SecondNotAfter(a: Instant, b: Instant, ties: bool)
  {
    a.year < b.year || (a.year == b.year &&
    (a.month < b.month || (a.month == b.month &&
    (a.day < b.day || (a.day == b.day &&
    (a.hour < b.hour || (a.hour == b.hour &&
    (a.minute < b.minute || (a.minute == b.minute &&
    (a.second < b.second || (a.second == b.second && ties)))))))))))
  }

  predicate NotAfter(a: Instant, b: Instant)
  {
    SecondNotAfter(a, b, a.micro <= b.micro)
  }

  function Power(k: nat): (p: nat)
    ensures p >= 1
  {
    if k == 0 then 1 else 10 * Power(k - 1)
  }

  /** `n` in exactly `k` digits */
  function Pad(n: nat, k: nat): (s: string)
    ensures |s| == k && forall i :: 0 <= i < k ==> '0' <= s[i] <= '9'
  {
    if k == 0 then "" else Pad(n / 10, k - 1) + [Digit(n % 10)]
  }

  /** `isoformat()` leaves the fraction out when it is zero. */
  function Fraction(micro: nat): string
  {
    if micro == 0 then "" else "." + Pad(micro, 6)
  }

  function ToSecond(t: Instant): (s: string)
    ensures |s| == 19
  {
    Pad(t.year, 4) + ("-" + (Pad(t.month, 2) + ("-" + (Pad(t.day, 2) + ("T" +
      (Pad(t.hour, 2) + (":" + (Pad(t.minute, 2) + (":" + Pad(t.second, 2))))))))))
  }

  /** `datetime.isoformat()` of a UTC moment */
  function Iso(t: Instant): string
  {
    ToSecond(t) + (Fraction(t.micro) + "+00:00")
  }

  // ---------------------------------------------------------------------------
  // Digits
  // ---------------------------------------------------------------------------

  lemma {:induction false} PadInjective(a: nat, b: nat, k: nat)
    requires a < Power(k) && b < Power(k) && Pad(a, k) == Pad(b, k)
    ensures a == b
  {
    if k > 0 {
      var s, t := Pad(a, k), Pad(b, k);
      assert s[..k - 1] == Pad(a / 10, k - 1) && t[..k - 1] == Pad(b / 10, k - 1);
      assert s[k - 1] == Digit(a % 10) && t[k - 1] == Digit(b % 10);
      PadInjective(a / 10, b / 10, k - 1);
    }
  }

  lemma OneDigit(a: nat, b: nat)
    requires a < 10 && b < 10
    ensures Le([Digit(a)], [Digit(b)]) <==> a <= b
  {
    assert [Digit(a)][1..] == "" && [Digit(b)][1..] == "";
  }

  /** Padded numbers compare like the numbers. */
  lemma {:induction false} PadOrder(a: nat, b: nat, k: nat)
    requires a < Power(k) && b < Power(k)
    ensures Le(Pad(a, k), Pad(b, k)) <==> a <= b
  {
    if k > 0 {
      var p, q := Pad(a / 10, k - 1), Pad(b / 10, k - 1);
      PadOrder(a / 10, b / 10, k - 1);
      if p == q {
        PadInjective(a / 10, b / 10, k - 1);
        LePrefix(p, [Digit(a % 10)], [Digit(b % 10)]);
        OneDigit(a % 10, b % 10);
      } else {
        LeByPrefix(p, q, [Digit(a % 10)], [Digit(b % 10)]);
      }
    }
  }

  /** A padded field decides the order unless it ties, whatever follows. */
  lemma FieldDecides(a: nat, b: nat, k: nat, x: string, y: string)
    requires a < Power(k) && b < Power(k)
    ensures Le(Pad(a, k) + x, Pad(b, k) + y) <==> a < b || (a == b && Le(x, y))
  {
    PadOrder(a, b, k);
    if a == b {
      LePrefix(Pad(a, k), x, y);
    } else {
      if Pad(a, k) == Pad(b, k) {
        PadInjective(a, b, k);
      }
      LeByPrefix(Pad(a, k), Pad(b, k), x, y);
    }
  }

  lemma Powers()
    ensures Power(2) == 100 && Power(4) == 10000 && Power(6) == 1000000
  {
    assert Power(0) == 1 && Power(1) == 10 && Power(3) == 1000 && Power(5) == 100000;
  }

  // ---------------------------------------------------------------------------
  // Timestamps
  // ---------------------------------------------------------------------------

  function Rest(t: Instant, tail: string, from: nat): string
    requires from <= 5
    decreases 5 - from
  {
    if from == 5 then Pad(t.second, 2) + tail
    else if from == 4 then Pad(t.minute, 2) + (":" + Rest(t, tail, 5))
    else if from == 3 then Pad(t.hour, 2) + (":" + Rest(t, tail, 4))
    else if from == 2 then Pad(t.day, 2) + ("T" + Rest(t, tail, 3))
    else if from == 1 then Pad(t.month, 2) + ("-" + Rest(t, tail, 2))
    else Pad(t.year, 4) + ("-" + Rest(t, tail, 1))
  }

  lemma Unfolded(t: Instant, tail: string)
    ensures ToSecond(t) + tail == Rest(t, tail, 0)
  {
    var s5 := Pad(t.second, 2);
    var s4 := Pad(t.minute, 2) + (":" + s5);
    var s3 := Pad(t.hour, 2) + (":" + s4);
    var s2 := Pad(t.day, 2) + ("T" + s3);
    var s1 := Pad(t.month, 2) + ("-" + s2);
    assert s4 + tail == Rest(t, tail, 4);
    assert s3 + tail == Rest(t, tail, 3);
    assert s2 + tail == Rest(t, tail, 2);
    assert s1 + tail == Rest(t, tail, 1);
  }

  /** Up to the second the texts decide chronologically; within a second the tails decide. */
  lemma SecondsDecide(a: Instant, b: Instant, x: string, y: string)
    requires Valid(a) && Valid(b)
    ensures Le(ToSecond(a) + x, ToSecond(b) + y) <==> SecondNotAfter(a, b, Le(x, y))
  {
    Powers();
    Unfolded(a, x);
    Unfolded(b, y);
    hide Pad, ToSecond, Le;
    FieldDecides(a.second, b.second, 2, x, y);
    LePrefix(":", Rest(a, x, 5), Rest(b, y, 5));
    FieldDecides(a.minute, b.minute, 2, ":" + Rest(a, x, 5), ":" + Rest(b, y, 5));
    LePrefix(":", Rest(a, x, 4), Rest(b, y, 4));
    FieldDecides(a.hour, b.hour, 2, ":" + Rest(a, x, 4), ":" + Rest(b, y, 4));
    LePrefix("T", Rest(a, x, 3), Rest(b, y, 3));
    FieldDecides(a.day, b.day, 2, "T" + Rest(a, x, 3), "T" + Rest(b, y, 3));
    LePrefix("-", Rest(a, x, 2), Rest(b, y, 2));
    FieldDecides(a.month, b.month, 2, "-" + Rest(a, x, 2), "-" + Rest(b, y, 2));
    LePrefix("-", Rest(a, x, 1), Rest(b, y, 1));
    FieldDecides(a.year, b.year, 4, "-" + Rest(a, x, 1), "-" + Rest(b, y, 1));
  }

  /** Within a second: no fraction sorts before every fraction, because '+' sorts before '.'. */
  lemma FractionsDecide(a: nat, b: nat)
    requires a < 1000000 && b < 1000000
    ensures Le(Fraction(a) + "+00:00", Fraction(b) + "+00:00") <==> a <= b
  {
    Powers();
    if a == 0 && b == 0 {
      LeReflexive("+00:00");
      assert Fraction(0) + "+00:00" == "+00:00";
    } else if a == 0 {
      assert (Fraction(b) + "+00:00")[0] == '.';
      assert (Fraction(a) + "+00:00")[0] == '+';
    } else if b == 0 {
      assert (Fraction(a) + "+00:00")[0] == '.';
      assert (Fraction(b) + "+00:00")[0] == '+';
    } else {
      FieldDecides(a, b, 6, "+00:00", "+00:00");
      LeReflexive("+00:00");
      LePrefix(".", Pad(a, 6) + "+00:00", Pad(b, 6) + "+00:00");
      assert "." + Pad(a, 6) + "+00:00" == "." + (Pad(a, 6) + "+00:00");
      assert "." + Pad(b, 6) + "+00:00" == "." + (Pad(b, 6) + "+00:00");
    }
  }

  /** Comparing the printed texts is comparing the moments, for all moments, although the fraction is left
      out when it is zero. */
  lemma TextOrderIsChronological(a: Instant, b: Instant)
    requires Valid(a) && Valid(b)
    ensures Le(Iso(a), Iso(b)) <==> NotAfter(a, b)
  {
    SecondsDecide(a, b, Fraction(a.micro) + "+00:00", Fraction(b.micro) + "+00:00");
    FractionsDecide(a.micro, b.micro);
  }

  /** Texts cut to the second compare like the seconds. */
  lemma CutOrderIsChronological(a: Instant, b: Instant)
    requires Valid(a) && Valid(b)
    ensures Le(Iso(a)[..19], Iso(b)[..19]) <==> SecondNotAfter(a, b, true)
  {
    assert Iso(a)[..19] == ToSecond(a) + "" && Iso(b)[..19] == ToSecond(b) + "";
    SecondsDecide(a, b, "", "");
  }

  /** An incremental compile compares a full cursor with stamps cut to the second: a memory counts as touched
      since the cursor exactly when it was touched in a later second, so one touched after the cursor but in
      the same second is not read again. */
  lemma CursorSkipsItsSecond(cursor: Instant, touched: Instant)
    requires Valid(cursor) && Valid(touched)
    ensures Le(Iso(cursor), Iso(touched)[..19]) <==> SecondNotAfter(cursor, touched, false)
  {
    assert Iso(touched)[..19] == ToSecond(touched) + "";
    SecondsDecide(cursor, touched, Fraction(cursor.micro) + "+00:00", "");
    assert Fraction(cursor.micro) + "+00:00" != "";
  }
}
