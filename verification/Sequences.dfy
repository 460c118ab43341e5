/** Counting facts about sequences and sets of numbers. */
module Sequences {

  ghost predicate Increasing(stamps: seq<int>) {
    forall i, j :: 0 <= i < j < |stamps| ==> stamps[i] < stamps[j]
  }

  lemma NoMoreThan(s: seq<int>, t: seq<int>)
    requires Increasing(s) && forall x :: x in s ==> x in t
    ensures |s| <= |t|
  {
    var a := set x | x in s;
    var b := set x | x in t;
    forall x | x in a
      ensures x in b
    {
    }
    Cardinality(s);
    CardinalityAtMost(t);
    SubsetSize(a, b);
  }

  lemma {:induction false} Cardinality(s: seq<int>)
    requires Increasing(s)
    ensures |set x | x in s| == |s|
  {
    if s != [] {
      var n := |s| - 1;
      Cardinality(s[..n]);
      assert s == s[..n] + [s[n]];
      assert (set x | x in s) == (set x | x in s[..n]) + {s[n]};
    }
  }

  lemma {:induction false} CardinalityAtMost(s: seq<int>)
    ensures |set x | x in s| <= |s|
  {
    if s != [] {
      var n := |s| - 1;
      CardinalityAtMost(s[..n]);
      assert s == s[..n] + [s[n]];
      assert (set x | x in s) == (set x | x in s[..n]) + {s[n]};
    }
  }

  lemma {:induction false} SubsetSize<T>(a: set<T>, b: set<T>)
    requires a <= b
    ensures |a| <= |b|
  {
    if a != {} {
      var x :| x in a;
      SubsetSize(a - {x}, b - {x});
    }
  }
}
