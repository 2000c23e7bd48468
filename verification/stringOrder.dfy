/**
 The ordering JavaScript's `<` uses on strings: lexicographic comparison of
 code units, where a proper prefix sorts before every extension of it.
 Sortedness under this order rules out duplicates, which fixes the size of
 the set a sorted list denotes.
 */
module StringOrder {

  /** `a` and `b` agree before position `k`, and from `k` on `a` sorts
      strictly before `b`. */
  predicate LessFrom(a: string, b: string, k: nat)
    requires k <= |a| && k <= |b|
    decreases |a| - k
  {
    k < |b| && (k == |a| || a[k] < b[k] || (a[k] == b[k] && LessFrom(a, b, k + 1)))
  }

  /** `a` sorts strictly before `b`. */
  predicate Less(a: string, b: string)
  {
    LessFrom(a, b, 0)
  }

  /** No string sorts before itself. */
  lemma {:induction false} LessFromIrreflexive(a: string, k: nat)
    requires k <= |a|
    ensures !LessFrom(a, a, k)
    decreases |a| - k
  {
    if k < |a| {
      LessFromIrreflexive(a, k + 1);
    }
  }

  /** The order is transitive. */
  lemma {:induction false} LessFromTransitive(a: string, b: string, c: string, k: nat)
    requires k <= |a| && k <= |b| && k <= |c|
    requires LessFrom(a, b, k) && LessFrom(b, c, k)
    ensures LessFrom(a, c, k)
    decreases |a| - k
  {
    if k < |a| && a[k] == b[k] && b[k] == c[k] {
      LessFromTransitive(a, b, c, k + 1);
    }
  }

  lemma LessIrreflexive(a: string)
    ensures !Less(a, a)
  {
    LessFromIrreflexive(a, 0);
  }

  lemma LessTransitive(a: string, b: string, c: string)
    requires Less(a, b) && Less(b, c)
    ensures Less(a, c)
  {
    LessFromTransitive(a, b, c, 0);
  }

  /** Every entry sorts strictly before its successor. */
  predicate StrictlySorted(s: seq<string>)
  {
    forall i :: 0 <= i < |s| - 1 ==> Less(s[i], s[i + 1])
  }

  /** Neighbours between positions `lo` and `hi` are in order; stated as a
      chain so that it can be checked on a concrete list one step at a time. */
  predicate SortedBetween(s: seq<string>, lo: nat, hi: nat)
    requires hi <= |s|
    decreases hi - lo
  {
    lo + 1 >= hi || (Less(s[lo], s[lo + 1]) && SortedBetween(s, lo + 1, hi))
  }

  /** The chain form implies the neighbour-wise form on its stretch. */
  lemma {:induction false} SortedBetweenNeighbours(s: seq<string>, lo: nat, hi: nat)
    requires hi <= |s|
    requires SortedBetween(s, lo, hi)
    ensures forall i :: lo <= i < hi - 1 ==> Less(s[i], s[i + 1])
    decreases hi - lo
  {
    if lo + 1 < hi {
      SortedBetweenNeighbours(s, lo + 1, hi);
    }
  }

  /** No string occurs twice. */
  predicate Distinct(s: seq<string>)
  {
    forall i, j :: 0 <= i < j < |s| ==> s[i] != s[j]
  }

  /** The set of strings a list holds. */
  function Elements(s: seq<string>): (r: set<string>)
    ensures forall x :: x in r <==> x in s
  {
    set x | x in s
  }

  /** Strict sortedness of neighbours extends to every pair of positions. */
  lemma {:induction false} SortedPairwise(s: seq<string>)
    requires StrictlySorted(s)
    ensures forall i, j :: 0 <= i < j < |s| ==> Less(s[i], s[j])
  {
    forall i, j | 0 <= i < j < |s|
      ensures Less(s[i], s[j])
    {
      var k := i + 1;
      while k < j
        invariant i < k <= j
        invariant Less(s[i], s[k])
      {
        LessTransitive(s[i], s[k], s[k + 1]);
        k := k + 1;
      }
    }
  }

  /** A strictly sorted list holds no duplicate. */
  lemma SortedIsDistinct(s: seq<string>)
    requires StrictlySorted(s)
    ensures Distinct(s)
  {
    SortedPairwise(s);
    forall i, j | 0 <= i < j < |s|
      ensures s[i] != s[j]
    {
      if s[i] == s[j] {
        LessIrreflexive(s[i]);
      }
    }
  }

  /** A list without duplicates denotes a set of exactly its length. */
  lemma {:induction false} DistinctCardinality(s: seq<string>)
    requires Distinct(s)
    ensures |Elements(s)| == |s|
  {
    if |s| > 0 {
      var t := s[1..];
      assert Distinct(t) by {
        forall i, j | 0 <= i < j < |t|
          ensures t[i] != t[j]
        {
          assert t[i] == s[i + 1] && t[j] == s[j + 1];
        }
      }
      DistinctCardinality(t);
      assert s[0] !in t by {
        forall k | 0 <= k < |t|
          ensures t[k] != s[0]
        {
          assert t[k] == s[k + 1];
        }
      }
      assert Elements(s) == Elements(t) + {s[0]} by {
        assert s == [s[0]] + t;
      }
    }
  }
}
