/** Sequence helpers for the list operations of `System.Collections.Generic.List`. */
module Seqs {

  /** `List.Remove`: drop the first occurrence of `x`, if there is one. */
  function RemoveFirst<T(==)>(s: seq<T>, x: T): (r: seq<T>)
    ensures |r| == if x in s then |s| - 1 else |s|
    ensures x !in s ==> r == s
  {
    if s == [] then []
    else if s[0] == x then s[1..]
    else [s[0]] + RemoveFirst(s[1..], x)
  }

  /** `RemoveFirst` cuts the sequence around the first position that holds `x`. */
  lemma {:induction false} RemoveFirstAt<T>(s: seq<T>, x: T, k: nat)
    requires k < |s| && s[k] == x && x !in s[..k]
    ensures RemoveFirst(s, x) == s[..k] + s[k + 1..]
  {
    var tail := s[1..];
    if k == 0 {
      assert s[..0] + tail == tail;
    } else {
      assert s[0] in s[..k];
      assert tail[..k - 1] == s[1..k];
      RemoveFirstAt(tail, x, k - 1);
      assert s[..k] == [s[0]] + tail[..k - 1];
      assert s[k + 1..] == tail[k..];
      AppendAssoc([s[0]], tail[..k - 1], tail[k..]);
    }
  }

  /** `n` copies of `x`: the trace left by `n` identical calls. */
  function Copies<T>(x: T, n: nat): seq<T>
  {
    seq(n, _ => x)
  }

  /** Removing the first occurrence takes exactly one copy of `x` out of the bag of elements. */
  lemma {:induction false} RemoveFirstMultiset<T>(s: seq<T>, x: T)
    ensures multiset(RemoveFirst(s, x)) == multiset(s) - multiset{x}
  {
    if s != [] {
      assert s == [s[0]] + s[1..];
      if s[0] != x {
        RemoveFirstMultiset(s[1..], x);
      }
    }
  }

  /** One more call appends one more copy. */
  lemma CopiesSnoc<T>(x: T, n: nat)
    ensures Copies(x, n + 1) == Copies(x, n) + [x]
  {
  }

  /** In a sequence without repeated elements, every element occurs at most once. */
  lemma {:induction false} DistinctOccursOnce<T>(s: seq<T>, x: T)
    requires forall i, j :: 0 <= i < j < |s| ==> s[i] != s[j]
    ensures multiset(s)[x] <= 1
  {
    if s != [] {
      var init := s[..|s| - 1];
      assert s == init + [s[|s| - 1]];
      DistinctOccursOnce(init, x);
      if s[|s| - 1] == x {
        assert x !in init;
      }
    }
  }

  /** Concatenation is associative. */
  lemma AppendAssoc<T>(a: seq<T>, b: seq<T>, c: seq<T>)
    ensures (a + b) + c == a + (b + c)
  {
  }

  /** A prefix one longer is the prefix and the next element. */
  lemma TakeSnoc<T>(s: seq<T>, i: nat)
    requires i < |s|
    ensures s[..i + 1] == s[..i] + [s[i]]
  {
  }

  /** How often `x` occurs among the first `n` elements of `s`. */
  function Count<T(==)>(s: seq<T>, x: T, n: nat): nat
    requires n <= |s|
  {
    if n == 0 then 0 else Count(s, x, n - 1) + if s[n - 1] == x then 1 else 0
  }

  /** Counting a prefix is taking the multiplicity in the prefix's bag of elements. */
  lemma {:induction false} CountPrefix<T>(s: seq<T>, x: T, n: nat)
    requires n <= |s|
    ensures Count(s, x, n) == multiset(s[..n])[x]
  {
    if n > 0 {
      CountPrefix(s, x, n - 1);
      TakeSnoc(s, n - 1);
    }
  }
}
