/** Facts about sequences and multisets that several proofs share. */
module Seqs {
  /** Concatenation is associative. */
  lemma ConcatAssoc<T>(a: seq<T>, b: seq<T>, c: seq<T>)
    ensures a + b + c == a + (b + c)
  {
  }

  /** A sequence is its prefix followed by the rest. */
  lemma SplitAt<T>(s: seq<T>, k: nat)
    requires k <= |s|
    ensures s == s[..k] + s[k..]
  {
  }

  /** No element occurs twice. */
  predicate Distinct<T(==)>(s: seq<T>) {
    forall i, j :: 0 <= i < j < |s| ==> s[i] != s[j]
  }

  /** No element of `a` is an element of `b`. */
  predicate Disjoint<T(==)>(a: seq<T>, b: seq<T>) {
    forall i, j :: 0 <= i < |a| && 0 <= j < |b| ==> a[i] != b[j]
  }

  lemma DistinctConcat<T>(a: seq<T>, b: seq<T>)
    requires Distinct(a) && Distinct(b) && Disjoint(a, b)
    ensures Distinct(a + b)
  {
    forall i, j | 0 <= i < j < |a + b| ensures (a + b)[i] != (a + b)[j] {
      if j < |a| {
        assert (a + b)[i] == a[i] && (a + b)[j] == a[j];
      } else if i < |a| {
        assert (a + b)[i] == a[i] && (a + b)[j] == b[j - |a|];
      } else {
        assert (a + b)[i] == b[i - |a|] && (a + b)[j] == b[j - |a|];
      }
    }
  }

  lemma DisjointConcat<T>(a: seq<T>, b: seq<T>, c: seq<T>)
    requires Disjoint(a, b) && Disjoint(a, c)
    ensures Disjoint(a, b + c)
  {
    forall i, j | 0 <= i < |a| && 0 <= j < |b + c| ensures a[i] != (b + c)[j] {
      if j < |b| { assert (b + c)[j] == b[j]; } else { assert (b + c)[j] == c[j - |b|]; }
    }
  }

  /** Splicing an element into a sequence adds exactly that element to its multiset. */
  lemma MultisetSplice<T>(a: seq<T>, x: T, b: seq<T>)
    ensures multiset(a + ([x] + b)) == multiset(a + b) + multiset{x}
  {
  }
}
