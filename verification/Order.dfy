/** The orders the planner relies on: `std::string` comparison on file paths and partition
    keys, and the ascending iteration of `std::map` and `std::set`. */
module Order {

  type Path = string

  /** Lexicographic order of `std::string`, reflexive form. */
  predicate Leq(a: Path, b: Path)
  {
    a == [] || (b != [] && (a[0] < b[0] || (a[0] == b[0] && Leq(a[1..], b[1..]))))
  }

  predicate Less(a: Path, b: Path)
  {
    !Leq(b, a)
  }

  lemma {:induction false} LeqReflexive(a: Path)
    ensures Leq(a, a)
  {
    if a != [] { LeqReflexive(a[1..]); }
  }

  lemma {:induction false} LeqTotal(a: Path, b: Path)
    ensures Leq(a, b) || Leq(b, a)
  {
    if a != [] && b != [] { LeqTotal(a[1..], b[1..]); }
  }

  lemma {:induction false} LeqAntisymmetric(a: Path, b: Path)
    requires Leq(a, b) && Leq(b, a)
    ensures a == b
  {
    if a != [] {
      LeqAntisymmetric(a[1..], b[1..]);
      assert a == [a[0]] + a[1..] && b == [b[0]] + b[1..];
    }
  }

  lemma {:induction false} LeqTransitive(a: Path, b: Path, c: Path)
    requires Leq(a, b) && Leq(b, c)
    ensures Leq(a, c)
  {
    if a != [] && a[0] == b[0] && b[0] == c[0] { LeqTransitive(a[1..], b[1..], c[1..]); }
  }

  predicate IntLeq(a: int, b: int) { a <= b }

  /** Elements may tie without being equal. */
  ghost predicate TotalPreorder<T(!new)>(leq: (T, T) -> bool)
  {
    && (forall a, b :: leq(a, b) || leq(b, a))
    && (forall a, b, c :: leq(a, b) && leq(b, c) ==> leq(a, c))
  }

  ghost predicate TotalOrder<T(!new)>(leq: (T, T) -> bool)
  {
    && (forall a :: leq(a, a))
    && (forall a, b :: leq(a, b) || leq(b, a))
    && (forall a, b :: leq(a, b) && leq(b, a) ==> a == b)
    && (forall a, b, c :: leq(a, b) && leq(b, c) ==> leq(a, c))
  }

  lemma {:induction false} PathsAreOrdered()
    ensures TotalOrder(Leq)
  {
    forall a { LeqReflexive(a); }
    forall a, b ensures Leq(a, b) || Leq(b, a) { LeqTotal(a, b); }
    forall a, b | Leq(a, b) && Leq(b, a) ensures a == b { LeqAntisymmetric(a, b); }
    forall a, b, c | Leq(a, b) && Leq(b, c) ensures Leq(a, c) { LeqTransitive(a, b, c); }
  }

  lemma {:induction false} IntsAreOrdered()
    ensures TotalOrder(IntLeq)
  {
  }

  ghost predicate SortedBy<T>(s: seq<T>, leq: (T, T) -> bool)
  {
    forall i, j :: 0 <= i < j < |s| ==> leq(s[i], s[j])
  }

  lemma {:induction false} MinimumExists<T(!new)>(s: set<T>, leq: (T, T) -> bool) returns (m: T)
    requires TotalOrder(leq) && s != {}
    ensures m in s && forall x :: x in s ==> leq(m, x)
    decreases |s|
  {
    var k :| k in s;
    var rest := s - {k};
    if rest == {} {
      assert s == {k};
      m := k;
    } else {
      var n := MinimumExists(rest, leq);
      m := if leq(n, k) then n else k;
      forall x | x in s ensures leq(m, x) {
        if x != k { assert x in rest && leq(n, x); }
      }
    }
  }

  /** The keys of a set in ascending order: how `std::map` and `std::set` are iterated. */
  function Ascending<T(!new, ==)>(s: set<T>, leq: (T, T) -> bool): (r: seq<T>)
    requires TotalOrder(leq)
    ensures forall x :: x in r <==> x in s
    ensures SortedBy(r, leq)
    ensures forall i, j :: 0 <= i < j < |r| ==> r[i] != r[j]
    decreases |s|
  {
    if s == {} then [] else
      assert exists m :: m in s && forall x :: x in s ==> leq(m, x) by {
        var m := MinimumExists(s, leq);
      }
      var m :| m in s && forall x :: x in s ==> leq(m, x);
      [m] + Ascending(s - {m}, leq)
  }

  /** Integers in increasing order. */
  function Increasing(s: set<int>): (r: seq<int>)
    ensures forall x :: x in r <==> x in s
    ensures forall i, j :: 0 <= i < j < |r| ==> r[i] < r[j]
  {
    IntsAreOrdered();
    var r := Ascending(s, IntLeq);
    assert forall i, j :: 0 <= i < j < |r| ==> IntLeq(r[i], r[j]) && r[i] != r[j];
    r
  }

  /** Paths (or keys) in increasing order. */
  function IncreasingPaths(s: set<Path>): (r: seq<Path>)
    ensures forall x :: x in r <==> x in s
    ensures forall i, j :: 0 <= i < j < |r| ==> r[i] != r[j] && Leq(r[i], r[j])
  {
    PathsAreOrdered();
    Ascending(s, Leq)
  }

  /** Insertion of one element into a sorted sequence. */
  function Insert<T>(x: T, s: seq<T>, leq: (T, T) -> bool): seq<T>
  {
    if s == [] then [x]
    else if leq(x, s[0]) then [x] + s
    else [s[0]] + Insert(x, s[1..], leq)
  }

  /** The result of `std::sort`: under a total order there is only one sorted permutation. */
  function Sort<T>(s: seq<T>, leq: (T, T) -> bool): seq<T>
  {
    if s == [] then [] else Insert(s[0], Sort(s[1..], leq), leq)
  }

  lemma {:induction false} InsertMultiset<T>(x: T, s: seq<T>, leq: (T, T) -> bool)
    ensures multiset(Insert(x, s, leq)) == multiset(s) + multiset{x}
  {
    if s != [] {
      assert s == [s[0]] + s[1..];
      if !leq(x, s[0]) { InsertMultiset(x, s[1..], leq); }
    }
  }

  lemma {:induction false} SortedCons<T>(x: T, s: seq<T>, leq: (T, T) -> bool)
    requires SortedBy(s, leq) && forall y :: y in multiset(s) ==> leq(x, y)
    ensures SortedBy([x] + s, leq)
  {
    forall i, j | 0 <= i < j < |[x] + s| ensures leq(([x] + s)[i], ([x] + s)[j]) {
      assert s[j-1] in multiset(s);
    }
  }

  lemma {:induction false} InsertIsSorted<T(!new)>(x: T, s: seq<T>, leq: (T, T) -> bool)
    requires TotalPreorder(leq) && SortedBy(s, leq)
    ensures SortedBy(Insert(x, s, leq), leq)
  {
    if s != [] {
      if leq(x, s[0]) {
        forall y | y in multiset(s) ensures leq(x, y) { FirstIsLeast(s, y, leq); }
        SortedCons(x, s, leq);
      } else {
        InsertIsSorted(x, s[1..], leq);
        InsertMultiset(x, s[1..], leq);
        SplitFirst(s);
        forall y | y in multiset(Insert(x, s[1..], leq)) ensures leq(s[0], y) {
          if y != x { FirstIsLeast(s, y, leq); }
        }
        SortedCons(s[0], Insert(x, s[1..], leq), leq);
      }
    }
  }

  lemma {:induction false} SortIsSorted<T(!new)>(s: seq<T>, leq: (T, T) -> bool)
    requires TotalPreorder(leq)
    ensures SortedBy(Sort(s, leq), leq)
    ensures multiset(Sort(s, leq)) == multiset(s)
  {
    if s != [] {
      SortIsSorted(s[1..], leq);
      InsertIsSorted(s[0], Sort(s[1..], leq), leq);
      InsertMultiset(s[0], Sort(s[1..], leq), leq);
      assert s == [s[0]] + s[1..];
    }
  }

  lemma {:induction false} FirstIsLeast<T>(s: seq<T>, x: T, leq: (T, T) -> bool)
    requires SortedBy(s, leq) && x in multiset(s)
    ensures s != [] && (s[0] == x || leq(s[0], x))
  {
    assert x in s;
  }

  lemma {:induction false} SplitFirst<T>(s: seq<T>)
    requires s != []
    ensures multiset(s[1..]) == multiset(s) - multiset{s[0]}
  {
    assert s == [s[0]] + s[1..];
  }

  lemma {:induction false} SplitLast<T>(s: seq<T>)
    requires s != []
    ensures multiset(s) == multiset(s[..|s|-1]) + multiset{s[|s|-1]}
  {
    assert s == s[..|s|-1] + [s[|s|-1]];
  }

  lemma {:induction false} SameFirst<T(!new)>(s: seq<T>, t: seq<T>, leq: (T, T) -> bool)
    requires TotalOrder(leq) && SortedBy(s, leq) && SortedBy(t, leq)
    requires multiset(s) == multiset(t) && s != []
    ensures t != [] && s[0] == t[0]
  {
    assert s[0] in multiset(s);
    FirstIsLeast(t, s[0], leq);
    assert t[0] in multiset(t);
    FirstIsLeast(s, t[0], leq);
  }

  /** Sorting forgets the original order. */
  lemma {:induction false} SortedIsUnique<T(!new)>(s: seq<T>, t: seq<T>, leq: (T, T) -> bool)
    requires TotalOrder(leq) && SortedBy(s, leq) && SortedBy(t, leq)
    requires multiset(s) == multiset(t)
    ensures s == t
  {
    if s == [] {
      assert |multiset(t)| == 0;
    } else {
      SameFirst(s, t, leq);
      SplitFirst(s);
      SplitFirst(t);
      SortedIsUnique(s[1..], t[1..], leq);
      assert s == [s[0]] + s[1..] && t == [t[0]] + t[1..];
    }
  }

  lemma {:induction false} ThreeOf<T>(x: T, y: T, z: T)
    ensures [] + [x] + [y] + [z] == [x, y, z]
  {
  }

  lemma {:induction false} SeqAssociative<T>(a: seq<T>, b: seq<T>, c: seq<T>)
    ensures (a + b) + c == a + (b + c)
  {
  }

  /** How many elements satisfy `f`. */
  function Count<T>(s: seq<T>, f: T -> bool): nat
  {
    if s == [] then 0 else Count(s[..|s|-1], f) + (if f(s[|s|-1]) then 1 else 0)
  }

  lemma {:induction false} CountSnoc<T>(s: seq<T>, x: T, f: T -> bool)
    ensures Count(s + [x], f) == Count(s, f) + (if f(x) then 1 else 0)
  {
    assert (s + [x])[..|s|] == s;
  }

  lemma {:induction false} CountConcat<T>(s: seq<T>, t: seq<T>, f: T -> bool)
    ensures Count(s + t, f) == Count(s, f) + Count(t, f)
  {
    if t == [] {
      assert s + t == s;
    } else {
      var n := |t| - 1;
      assert s + t == (s + t[..n]) + [t[n]];
      CountSnoc(s + t[..n], t[n], f);
      CountConcat(s, t[..n], f);
    }
  }

  lemma {:induction false} CountAround<T>(s: seq<T>, n: nat, f: T -> bool)
    requires n < |s|
    ensures Count(s, f) == Count(s[..n], f) + (if f(s[n]) then 1 else 0) + Count(s[n+1..], f)
  {
    assert s == (s[..n] + [s[n]]) + s[n+1..];
    CountConcat(s[..n] + [s[n]], s[n+1..], f);
    CountSnoc(s[..n], s[n], f);
  }

  lemma {:induction false} CountNone<T>(s: seq<T>, f: T -> bool)
    requires forall i :: 0 <= i < |s| ==> !f(s[i])
    ensures Count(s, f) == 0
  {
    if s != [] { CountNone(s[..|s|-1], f); }
  }

  lemma {:induction false} CountPair<T>(s: seq<T>, i: nat, j: nat, f: T -> bool)
    requires i < j < |s| && f(s[i]) && f(s[j])
    ensures Count(s, f) > 1
  {
    var left, right := s[..j], s[j..];
    assert s == left + right;
    CountConcat(left, right, f);
    CountOne(left, i, f);
    CountOne(right, 0, f);
  }

  lemma {:induction false} CountOne<T>(s: seq<T>, i: nat, f: T -> bool)
    requires i < |s| && f(s[i])
    ensures Count(s, f) > 0
  {
    if i < |s| - 1 { CountOne(s[..|s|-1], i, f); }
  }

  lemma {:induction false} CountWeaken<T>(s: seq<T>, f: T -> bool, g: T -> bool)
    requires forall i :: 0 <= i < |s| && f(s[i]) ==> g(s[i])
    ensures Count(s, f) <= Count(s, g)
  {
    if s != [] { CountWeaken(s[..|s|-1], f, g); }
  }

  lemma {:induction false} RemoveAt<T>(t: seq<T>, k: nat, f: T -> bool)
    requires k < |t|
    ensures multiset(t) == multiset(t[..k] + t[k+1..]) + multiset{t[k]}
    ensures Count(t, f) == Count(t[..k] + t[k+1..], f) + (if f(t[k]) then 1 else 0)
  {
    assert t == (t[..k] + [t[k]]) + t[k+1..];
    CountConcat(t[..k] + [t[k]], t[k+1..], f);
    CountSnoc(t[..k], t[k], f);
    CountConcat(t[..k], t[k+1..], f);
  }

  lemma {:induction false} Cancel<T>(a: multiset<T>, b: multiset<T>, x: T)
    requires a + multiset{x} == b + multiset{x}
    ensures a == b
  {
    assert a == (a + multiset{x}) - multiset{x};
    assert b == (b + multiset{x}) - multiset{x};
  }

  /** Counting does not depend on the order of the elements. */
  lemma {:induction false} CountPermutation<T>(s: seq<T>, t: seq<T>, f: T -> bool)
    requires multiset(s) == multiset(t)
    ensures Count(s, f) == Count(t, f)
  {
    if s == [] {
      assert |multiset(t)| == 0;
    } else {
      var n := |s| - 1;
      var x := s[n];
      assert x in multiset(t);
      var k :| 0 <= k < |t| && t[k] == x;
      SplitLast(s);
      RemoveAt(t, k, f);
      Cancel(multiset(s[..n]), multiset(t[..k] + t[k+1..]), x);
      CountPermutation(s[..n], t[..k] + t[k+1..], f);
    }
  }

  /** `std::iota`. */
  function Indices(n: nat): (r: seq<int>)
    ensures |r| == n && forall i :: 0 <= i < n ==> r[i] == i
  {
    seq(n, i => i)
  }

  /** Every element satisfies `f`. */
  ghost predicate All<T>(s: seq<T>, f: T -> bool)
  {
    forall i :: 0 <= i < |s| ==> f(s[i])
  }

  lemma {:induction false} AllLast<T>(s: seq<T>, f: T -> bool)
    requires s != []
    ensures All(s, f) <==> All(s[..|s|-1], f) && f(s[|s|-1])
  {
    var init := s[..|s|-1];
    assert forall i :: 0 <= i < |init| ==> init[i] == s[i];
    if All(init, f) && f(s[|s|-1]) {
      forall i | 0 <= i < |s| ensures f(s[i]) { if i < |init| { assert f(init[i]); } }
    }
  }

  lemma {:induction false} AllAlike<S, T>(s: seq<S>, t: seq<T>, f: S -> bool, g: T -> bool)
    requires |s| == |t| && forall i :: 0 <= i < |s| ==> (f(s[i]) <==> g(t[i]))
    ensures All(s, f) <==> All(t, g)
  {
    if All(s, f) {
      forall i | 0 <= i < |t| ensures g(t[i]) { assert f(s[i]); }
    }
    if All(t, g) {
      forall i | 0 <= i < |s| ensures f(s[i]) { assert g(t[i]); }
    }
  }

  /** Some element satisfies `f`. */
  ghost predicate Any<T>(s: seq<T>, f: T -> bool)
  {
    exists i :: 0 <= i < |s| && f(s[i])
  }

  lemma {:induction false} AnyLast<T>(s: seq<T>, f: T -> bool)
    requires s != []
    ensures Any(s, f) <==> Any(s[..|s|-1], f) || f(s[|s|-1])
  {
    var init := s[..|s|-1];
    if Any(init, f) {
      var i :| 0 <= i < |init| && f(init[i]);
      assert f(s[i]);
    }
    if Any(s, f) {
      var i :| 0 <= i < |s| && f(s[i]);
      assert i < |init| ==> f(init[i]);
    }
  }

  lemma {:induction false} AnySame<T>(s: seq<T>, f: T -> bool, g: T -> bool)
    requires forall i :: 0 <= i < |s| ==> (f(s[i]) <==> g(s[i]))
    ensures Any(s, f) <==> Any(s, g)
  {
    if Any(s, f) {
      var i :| 0 <= i < |s| && f(s[i]);
      assert g(s[i]);
    }
    if Any(s, g) {
      var i :| 0 <= i < |s| && g(s[i]);
      assert f(s[i]);
    }
  }

  lemma {:induction false} AnyNone<T>(s: seq<T>, f: T -> bool)
    requires forall i :: 0 <= i < |s| ==> !f(s[i])
    ensures !Any(s, f)
  {
  }
}
