/** What several modules say of sequences, sets and numbers. */
module Collections {

  /** The integers that a binary64 number holds exactly reach this far. */
  const SAFE_INTEGER: int := 0x1F_FFFF_FFFF_FFFF

  predicate Distinct<T(==)>(s: seq<T>) {
    forall i, j :: 0 <= i < j < |s| ==> s[i] != s[j]
  }

  lemma {:induction false} SubsetSize<T>(a: set<T>, b: set<T>)
    requires a <= b
    ensures |a| <= |b|
    ensures |a| == |b| ==> a == b
  {
    if a != {} {
      var x :| x in a;
      SubsetSize(a - {x}, b - {x});
    }
  }

  lemma {:induction false} DistinctIsSet<T>(s: seq<T>)
    requires Distinct(s)
    ensures multiset(s) == multiset(set x | x in s) && |set x | x in s| == |s|
  {
    if s != [] {
      var n := |s| - 1;
      DistinctIsSet(s[..n]);
      assert s == s[..n] + [s[n]];
      assert (set x | x in s) == (set x | x in s[..n]) + {s[n]};
      assert s[n] !in s[..n];
    }
  }

  /** As many different members, and all of them shared. */
  lemma DistinctSameMembers<T>(a: seq<T>, b: seq<T>)
    requires Distinct(a) && Distinct(b) && |a| == |b| && forall x :: x in a ==> x in b
    ensures multiset(a) == multiset(b)
  {
    DistinctIsSet(a);
    DistinctIsSet(b);
    SubsetSize(set x | x in a, set x | x in b);
  }
}
