/** Facts about concatenation that proofs by induction on a sequence need. */
module Sequences {

  lemma Associative<T>(a: seq<T>, b: seq<T>, c: seq<T>)
    ensures (a + b) + c == a + (b + c)
  {
  }

  lemma LastOfAppend<T>(a: seq<T>, b: seq<T>)
    requires b != []
    ensures (a + b)[..|a + b| - 1] == a + b[..|b| - 1] && (a + b)[|a + b| - 1] == b[|b| - 1]
  {
  }

  lemma SplitAt<T>(s: seq<T>, i: nat)
    requires i <= |s|
    ensures s == s[..i] + s[i..]
  {
  }

  lemma SplitLast<T>(s: seq<T>)
    requires s != []
    ensures s == s[..|s| - 1] + [s[|s| - 1]]
    ensures multiset(s) == multiset(s[..|s| - 1]) + multiset{s[|s| - 1]}
  {
    assert s == s[..|s| - 1] + [s[|s| - 1]];
  }

  lemma Parts<T>(x: seq<T>, y: seq<T>, z: seq<T>)
    ensures (x + y + z)[..|x|] == x && (x + y + z)[|x|..|x| + |y|] == y && (x + y + z)[|x| + |y|..] == z
  {
  }

  lemma Regroup<T>(p: seq<T>, b: seq<T>, i: seq<T>, e: seq<T>, q: seq<T>)
    ensures p + (b + i + e) + q == p + (b + (i + e + q))
    ensures p + (b + i + e) + q == (p + b + i) + (e + q)
  {
  }

  lemma Shift<T>(p: seq<T>, a: seq<T>, q: seq<T>, b: seq<T>, r: seq<T>)
    ensures p + a + (q + b + r) == (p + a + q) + b + r
  {
  }

  lemma SliceOfSlice<T>(s: seq<T>, low: nat, high: nat, i: nat, j: nat)
    requires i <= j && low + j <= high <= |s|
    ensures s[low..high][i..j] == s[low + i..low + j]
  {
    var x, y := s[low..high][i..j], s[low + i..low + j];
    assert |x| == |y| && forall n :: 0 <= n < |x| ==> x[n] == y[n];
  }

  lemma Twice<T>(s: seq<T>, i: nat, j: nat)
    requires i < j < |s| && s[i] == s[j]
    ensures multiset(s)[s[i]] >= 2
  {
    assert s == s[..j] + s[j..];
    assert s[i] in s[..j] && s[j] in s[j..];
  }
}
