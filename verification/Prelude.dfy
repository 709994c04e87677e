/** Small shared vocabulary: options, filters and order-preserving subsequences. */
module Prelude {

  datatype Option<+T> = None | Some(value: T)

  newtype byte = x: int | 0 <= x < 256
  type Bytes = seq<byte>

  function RemoveAt<T>(s: seq<T>, i: nat): seq<T>
    requires i < |s|
  {
    s[..i] + s[i + 1..]
  }

  /** The elements of `s` that satisfy `keep`, in order (Rust's `retain`). */
  function Filter<T>(s: seq<T>, keep: T -> bool): seq<T> {
    if |s| == 0 then []
    else
      var rest := Filter(s[..|s| - 1], keep);
      if keep(s[|s| - 1]) then rest + [s[|s| - 1]] else rest
  }

  /** Complementary filters split a sequence without losing or duplicating an element. */
  lemma {:induction false} FilterPartition<T>(s: seq<T>, keep: T -> bool, drop: T -> bool)
    requires forall x | x in s :: drop(x) == !keep(x)
    ensures multiset(s) == multiset(Filter(s, keep)) + multiset(Filter(s, drop))
    ensures |Filter(s, keep)| <= |s|
    ensures forall x :: x in Filter(s, keep) <==> x in s && keep(x)
  {
    if |s| > 0 {
      var front := s[..|s| - 1];
      assert s == front + [s[|s| - 1]];
      FilterPartition(front, keep, drop);
    }
  }

  lemma RemoveAtMultiset<T>(s: seq<T>, i: nat)
    requires i < |s|
    ensures multiset(s) == multiset(RemoveAt(s, i)) + multiset{s[i]}
    ensures forall x :: x in RemoveAt(s, i) ==> x in s
    ensures forall x :: x in s ==> x in RemoveAt(s, i) || x == s[i]
  {
    assert s == s[..i] + [s[i]] + s[i + 1..];
  }

  /** `at` places `part` inside `whole`, strictly increasing. */
  ghost predicate Places<T>(at: seq<nat>, part: seq<T>, whole: seq<T>) {
    && |at| == |part|
    && (forall i, j :: 0 <= i < j < |at| ==> at[i] < at[j])
    && (forall i :: 0 <= i < |at| ==> at[i] < |whole| && part[i] == whole[at[i]])
  }

  ghost predicate Subsequence<T(!new)>(part: seq<T>, whole: seq<T>) {
    exists at: seq<nat> :: Places(at, part, whole)
  }

  lemma SubsequenceGrow<T(!new)>(part: seq<T>, whole: seq<T>, x: T)
    requires Subsequence(part, whole)
    ensures Subsequence(part, whole + [x])
    ensures Subsequence(part + [x], whole + [x])
  {
    var at: seq<nat> :| Places(at, part, whole);
    assert Places(at, part, whole + [x]);
    assert Places(at + [|whole|], part + [x], whole + [x]);
  }

  lemma SubsequencePrepend<T(!new)>(part: seq<T>, whole: seq<T>, x: T)
    requires Subsequence(part, whole)
    ensures Subsequence(part, [x] + whole)
    ensures Subsequence([x] + part, [x] + whole)
  {
    var at: seq<nat> :| Places(at, part, whole);
    var shifted := seq(|at|, k requires 0 <= k < |at| => at[k] + 1);
    assert Places(shifted, part, [x] + whole);
    assert Places([0] + shifted, [x] + part, [x] + whole);
  }

  lemma SubsequenceRemoveAt<T(!new)>(part: seq<T>, whole: seq<T>, i: nat)
    requires Subsequence(part, whole) && i < |part|
    ensures Subsequence(RemoveAt(part, i), whole)
  {
    var at: seq<nat> :| Places(at, part, whole);
    assert Places(RemoveAt(at, i), RemoveAt(part, i), whole);
  }

  lemma SubsequenceTransitive<T(!new)>(a: seq<T>, b: seq<T>, c: seq<T>)
    requires Subsequence(a, b) && Subsequence(b, c)
    ensures Subsequence(a, c)
  {
    var ab: seq<nat> :| Places(ab, a, b);
    var bc: seq<nat> :| Places(bc, b, c);
    var ac := seq(|a|, i requires 0 <= i < |a| => bc[ab[i]]);
    assert Places(ac, a, c);
  }

  lemma {:induction false} FilterSubsequence<T(!new)>(s: seq<T>, keep: T -> bool)
    ensures Subsequence(Filter(s, keep), s)
  {
    if |s| == 0 {
      assert Places([], Filter(s, keep), s);
    } else {
      var front := s[..|s| - 1];
      FilterSubsequence(front, keep);
      SubsequenceGrow(Filter(front, keep), front, s[|s| - 1]);
      assert s == front + [s[|s| - 1]];
    }
  }
}
