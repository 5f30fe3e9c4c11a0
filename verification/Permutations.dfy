/** Filtering and mapping commute with permutation. */
module Permutations {
  import opened Order

  /** The concatenation of `f` over the elements, in order. */
  function FlatMap<S, T>(s: seq<S>, f: S -> seq<T>): seq<T>
  {
    if s == [] then [] else FlatMap(s[..|s|-1], f) + f(s[|s|-1])
  }

  lemma {:induction false} FlatMapSnoc<S, T>(s: seq<S>, x: S, f: S -> seq<T>)
    ensures FlatMap(s + [x], f) == FlatMap(s, f) + f(x)
  {
    assert (s + [x])[..|s|] == s;
  }

  lemma {:induction false} FlatMapConcat<S, T>(s: seq<S>, t: seq<S>, f: S -> seq<T>)
    ensures FlatMap(s + t, f) == FlatMap(s, f) + FlatMap(t, f)
  {
    if t == [] {
      assert s + t == s;
    } else {
      var init, x := t[..|t|-1], t[|t|-1];
      assert s + t == (s + init) + [x];
      FlatMapSnoc(s + init, x, f);
      FlatMapConcat(s, init, f);
      SeqAssociative(FlatMap(s, f), FlatMap(init, f), f(x));
    }
  }

  /** Every element of the concatenation comes from one of the pieces. */
  lemma {:induction false} FlatMapAt<S, T>(s: seq<S>, f: S -> seq<T>, p: nat) returns (i: nat, q: nat)
    requires p < |FlatMap(s, f)|
    ensures i < |s| && q < |f(s[i])| && FlatMap(s, f)[p] == f(s[i])[q]
  {
    var init := s[..|s|-1];
    if p < |FlatMap(init, f)| {
      i, q := FlatMapAt(init, f, p);
    } else {
      i, q := |s| - 1, p - |FlatMap(init, f)|;
    }
  }

  lemma {:induction false} FlatMapRemove<S, T>(t: seq<S>, k: nat, f: S -> seq<T>)
    requires k < |t|
    ensures multiset(t) == multiset(t[..k] + t[k+1..]) + multiset{t[k]}
    ensures multiset(FlatMap(t, f)) == multiset(FlatMap(t[..k] + t[k+1..], f)) + multiset(f(t[k]))
  {
    var left, right := t[..k], t[k+1..];
    assert t == (left + [t[k]]) + right;
    FlatMapConcat(left + [t[k]], right, f);
    FlatMapSnoc(left, t[k], f);
    FlatMapConcat(left, right, f);
    Three(FlatMap(left, f), f(t[k]), FlatMap(right, f));
  }

  lemma {:induction false} Three<T>(a: seq<T>, b: seq<T>, c: seq<T>)
    ensures multiset(a + b + c) == multiset(a + c) + multiset(b)
  {
  }

  lemma {:induction false} FlatMapPermutation<S, T>(s: seq<S>, t: seq<S>, f: S -> seq<T>)
    requires multiset(s) == multiset(t)
    ensures multiset(FlatMap(s, f)) == multiset(FlatMap(t, f))
  {
    if s == [] {
      assert |multiset(t)| == 0;
    } else {
      var n := |s| - 1;
      assert s[n] in multiset(t);
      var k :| 0 <= k < |t| && t[k] == s[n];
      SplitLast(s);
      FlatMapRemove(t, k, f);
      Cancel(multiset(s[..n]), multiset(t[..k] + t[k+1..]), s[n]);
      FlatMapPermutation(s[..n], t[..k] + t[k+1..], f);
    }
  }

  lemma {:induction false} SameMembers<T>(s: seq<T>, t: seq<T>)
    requires multiset(s) == multiset(t)
    ensures forall x :: x in s <==> x in t
    ensures s == [] <==> t == []
  {
    forall x ensures x in s <==> x in t { assert x in s <==> x in multiset(s); assert x in t <==> x in multiset(t); }
    if s == [] || t == [] { assert |s| == |multiset(s)| && |t| == |multiset(t)|; }
  }

  lemma {:induction false} SameConcat<T>(a: seq<T>, b: seq<T>, c: seq<T>, d: seq<T>)
    requires multiset(a) == multiset(c) && multiset(b) == multiset(d)
    ensures multiset(a + b) == multiset(c + d)
  {
  }
}
