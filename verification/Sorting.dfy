/** `sorted` on a set of texts, by code point. */
module Sorting {
  import opened Strings

  /** Strictly increasing. */
  predicate Ascending(s: seq<string>)
  {
    forall i, j :: 0 <= i < j < |s| ==> Lt(s[i], s[j])
  }

  predicate IsLeast(k: string, s: set<string>)
  {
    k in s && forall j :: j in s ==> Le(k, j)
  }

  lemma {:induction false} LeastExists(s: set<string>)
    requires s != {}
    ensures exists k :: IsLeast(k, s)
    decreases |s|
  {
    var j :| j in s;
    LeReflexive(j);
    if forall other :: other in s ==> other == j {
      assert IsLeast(j, s);
    } else {
      var other :| other in s && other != j;
      assert other in s - {j};
      LeastExists(s - {j});
      var best :| IsLeast(best, s - {j});
      LeTotal(j, best);
      var k := if Le(j, best) then j else best;
      forall i | i in s ensures Le(k, i) {
        if i != j {
          assert i in s - {j};
          if k == j {
            LeTransitive(j, best, i);
          }
        }
      }
      assert IsLeast(k, s);
    }
  }

  lemma LeastUnique(s: set<string>)
    ensures forall a, b :: IsLeast(a, s) && IsLeast(b, s) ==> a == b
  {
    forall a, b | IsLeast(a, s) && IsLeast(b, s) ensures a == b {
      LeAntisymmetric(a, b);
    }
  }

  lemma Prepend(k: string, rest: seq<string>)
    requires Ascending(rest) && forall j :: j in rest ==> Lt(k, j)
    ensures Ascending([k] + rest)
  {
    forall i, j | 0 <= i < j < |[k] + rest| ensures Lt(([k] + rest)[i], ([k] + rest)[j]) {
      if i == 0 {
        assert rest[j - 1] in rest;
      }
    }
  }

  function Sorted(s: set<string>): (r: seq<string>)
    ensures |r| == |s|
    ensures forall k :: k in r <==> k in s
    ensures Ascending(r)
    decreases |s|
  {
    if s == {} then []
    else
      LeastExists(s);
      LeastUnique(s);
      var k :| k in s && IsLeast(k, s);
      var rest := Sorted(s - {k});
      Prepend(k, rest);
      [k] + rest
  }
}
