// Shared by the other modules.
module Common {
  datatype Option<T> = None | Some(value: T)

  lemma {:induction false} SubsetSize<T>(a: set<T>, b: set<T>)
    requires a <= b
    ensures |a| <= |b|
  {
    if a != {} {
      var e :| e in a;
      SubsetSize(a - {e}, b - {e});
    }
  }

  lemma {:induction false} BelowSize(x: set<nat>, m: nat)
    requires forall e :: e in x ==> e < m
    ensures |x| <= m
  {
    if m > 0 {
      BelowSize(x - {m - 1}, m - 1);
    }
  }

  ghost predicate Distinct<T>(s: seq<T>) {
    forall i, j :: 0 <= i < j < |s| ==> s[i] != s[j]
  }

  lemma {:induction false} DistinctSize<T>(s: seq<T>)
    requires Distinct(s)
    ensures |set x | x in s| == |s|
    decreases |s|
  {
    if s != [] {
      var front := s[..|s| - 1];
      DistinctSize(front);
      assert (set x | x in s) == (set x | x in front) + {s[|s| - 1]};
    }
  }

  // Fewer than m numbers in a row have different remainders: slots of a ring.
  lemma SlotsDiffer(k: nat, n: nat, m: nat)
    requires k < n < k + m
    ensures k % m != n % m
  {
    var d := n / m - k / m;
    assert n - k == d * m + (n % m - k % m);
    if d <= 0 {
      assert d * m <= 0;
    } else {
      assert d * m >= m;
    }
  }
}
