/** `SelectionVector`: the selected row numbers of a batch, thinned in place by a merge with a
    sorted range of row numbers. */
module SelectionVectors {
  import opened Order

  predicate Sorted(s: seq<int>)
  {
    forall i, j :: 0 <= i < j < |s| ==> s[i] <= s[j]
  }

  /** The elements that occur in the range (`keep`) or do not, in order and with multiplicity. */
  function Chosen(s: seq<int>, range: seq<int>, keep: bool): seq<int>
  {
    if s == [] then [] else
      var init, x := Chosen(s[..|s|-1], range, keep), s[|s|-1];
      if (x in range) == keep then init + [x] else init
  }

  lemma {:induction false} ChosenNext(s: seq<int>, range: seq<int>, keep: bool, i: nat)
    requires i < |s|
    ensures Chosen(s[..i+1], range, keep)
            == if (s[i] in range) == keep then Chosen(s[..i], range, keep) + [s[i]] else Chosen(s[..i], range, keep)
  {
    assert s[..i+1][..i] == s[..i];
  }

  lemma {:induction false} ChosenLength(s: seq<int>, range: seq<int>, keep: bool)
    ensures |Chosen(s, range, keep)| <= |s|
  {
    if s != [] { ChosenLength(s[..|s|-1], range, keep); }
  }

  /** Nothing more is chosen from elements outside the range. */
  lemma {:induction false} ChosenRest(s: seq<int>, range: seq<int>, i: nat)
    requires i <= |s| && forall j :: i <= j < |s| ==> s[j] !in range
    ensures Chosen(s, range, true) == Chosen(s[..i], range, true)
    ensures Chosen(s, range, false) == Chosen(s[..i], range, false) + s[i..]
  {
    if i == |s| {
      assert s[..i] == s;
    } else {
      var n := |s| - 1;
      ChosenRest(s[..n], range, i);
      assert s[..n][..i] == s[..i] && s[i..] == s[..n][i..] + [s[n]];
    }
  }

  /** Exactly the members (or the non-members) are chosen. */
  lemma {:induction false} ChosenCounts(s: seq<int>, range: seq<int>, keep: bool, x: int)
    ensures multiset(Chosen(s, range, keep))[x] == if (x in range) == keep then multiset(s)[x] else 0
  {
    if s != [] {
      var init, y := s[..|s|-1], s[|s|-1];
      ChosenCounts(init, range, keep, x);
      SplitLast(s);
    }
  }

  lemma {:induction false} ChosenSorted(s: seq<int>, range: seq<int>, keep: bool)
    requires Sorted(s)
    ensures Sorted(Chosen(s, range, keep))
  {
    if s != [] {
      var init, x := s[..|s|-1], s[|s|-1];
      ChosenSorted(init, range, keep);
      var c := Chosen(init, range, keep);
      forall i | 0 <= i < |c| ensures c[i] <= x {
        ChosenCounts(init, range, keep, c[i]);
        assert c[i] in multiset(c);
        assert c[i] in init;
      }
    }
  }

  /** What is kept and what is deleted partition the original. */
  lemma {:induction false} ChosenPartition(s: seq<int>, range: seq<int>)
    ensures multiset(Chosen(s, range, true)) + multiset(Chosen(s, range, false)) == multiset(s)
    ensures |Chosen(s, range, true)| + |Chosen(s, range, false)| == |s|
  {
    if s != [] {
      ChosenPartition(s[..|s|-1], range);
      SplitLast(s);
    }
  }

  /** The merge's test: behind the smaller elements stands the element itself or none of it. */
  lemma {:induction false} CursorDecides(range: seq<int>, c: nat, x: int)
    requires Sorted(range) && c < |range| && range[c] >= x && forall k :: 0 <= k < c ==> range[k] < x
    ensures x in range <==> range[c] == x
  {
    if x in range {
      var k :| 0 <= k < |range| && range[k] == x;
      assert k >= c;
    }
  }

  /** The range up to the cursor is smaller than everything still to check. */
  predicate Scanned(s: seq<int>, range: seq<int>, i: nat, current: nat)
  {
    i <= |s| && current <= |range| && forall k, j :: 0 <= k < current && i <= j < |s| ==> range[k] < s[j]
  }

  lemma {:induction false} NoMoreMembers(s: seq<int>, range: seq<int>, i: nat)
    requires Scanned(s, range, i, |range|)
    ensures forall j :: i <= j < |s| ==> s[j] !in range
  {
  }

  /** The vector during the merge: chosen elements in front, unchecked elements in place. */
  predicate Compacting(v: seq<int>, s: seq<int>, chosen: seq<int>, i: nat)
  {
    |v| == |s| && |chosen| <= i <= |s| && v[..|chosen|] == chosen && v[i..] == s[i..]
  }

  lemma {:induction false} CompactNext(v: seq<int>, s: seq<int>, chosen: seq<int>, i: nat)
    requires Compacting(v, s, chosen, i) && i < |s|
    ensures v[i] == s[i] && Compacting(v, s, chosen, i + 1)
    ensures Compacting(v[|chosen| := v[i]], s, chosen + [s[i]], i + 1)
  {
    assert v[i] == v[i..][0] && s[i] == s[i..][0];
    var w, n := v[|chosen| := v[i]], |chosen|;
    assert v[i+1..] == v[i..][1..] && s[i+1..] == s[i..][1..];
    assert w[..n+1] == v[..n] + [v[i]];
    assert w[i+1..] == v[i+1..];
  }

  class SelectionVector {
    var indices: seq<int>

    constructor (indices: seq<int>)
      ensures this.indices == indices
    {
      this.indices := indices;
    }

    /** All rows of a batch. */
    method Set(size: nat)
      modifies this
      ensures indices == Indices(size)
    {
      indices := Indices(size);
    }

    method KeepIfEqual(range: seq<int>) returns (removed: nat)
      requires Sorted(indices) && Sorted(range)
      modifies this
      ensures indices == Chosen(old(indices), range, true)
      ensures removed == |Chosen(old(indices), range, false)|
    {
      ghost var s := indices;
      var current, result, i := 0, 0, 0;
      while i < |indices|
        invariant i <= |s| && Scanned(s, range, i, current) && result == |Chosen(s[..i], range, true)|
        invariant Compacting(indices, s, Chosen(s[..i], range, true), i)
      {
        CompactNext(indices, s, Chosen(s[..i], range, true), i);
        var row := indices[i];
        while current < |range| && range[current] < row
          invariant Scanned(s, range, i, current)
        {
          current := current + 1;
        }
        if current == |range| {
          break;
        }
        CursorDecides(range, current, row);
        ChosenNext(s, range, true, i);
        if range[current] == row {
          indices := indices[result := indices[i]];
          result := result + 1;
        }
        i := i + 1;
      }
      if i < |s| { NoMoreMembers(s, range, i); }
      ChosenRest(s, range, i);
      ChosenPartition(s, range);
      removed := |indices| - result;
      indices := indices[..result];
    }

    method DeleteIfEqual(range: seq<int>) returns (removed: nat)
      requires Sorted(indices) && Sorted(range)
      modifies this
      ensures indices == Chosen(old(indices), range, false)
      ensures removed == |Chosen(old(indices), range, true)|
    {
      ghost var s := indices;
      var current, result, i := 0, 0, 0;
      while i < |indices|
        invariant i <= |s| && Scanned(s, range, i, current) && result == |Chosen(s[..i], range, false)|
        invariant Compacting(indices, s, Chosen(s[..i], range, false), i)
      {
        CompactNext(indices, s, Chosen(s[..i], range, false), i);
        var row := indices[i];
        while current < |range| && range[current] < row
          invariant Scanned(s, range, i, current)
        {
          current := current + 1;
        }
        if current == |range| {
          NoMoreMembers(s, range, i);
          ChosenRest(s, range, i);
          result := KeepTail(i, result, Chosen(s[..i], range, false), s);
          i := |indices|;
          assert s[..i] == s;
          break;
        }
        CursorDecides(range, current, row);
        ChosenNext(s, range, false, i);
        if range[current] != row {
          indices := indices[result := indices[i]];
          result := result + 1;
        }
        i := i + 1;
      }
      assert s[..i] == s;
      ChosenPartition(s, range);
      removed := |indices| - result;
      indices := indices[..result];
    }

    /** Everything from `start` on is kept. */
    method KeepTail(start: nat, kept: nat, ghost chosen: seq<int>, ghost s: seq<int>) returns (result: nat)
      requires Compacting(indices, s, chosen, start) && kept == |chosen|
      modifies this
      ensures Compacting(indices, s, chosen + s[start..], |s|) && result == |chosen + s[start..]|
    {
      result := kept;
      assert chosen + s[start..start] == chosen;
      for i := start to |indices|
        invariant Compacting(indices, s, chosen + s[start..i], i) && result == |chosen + s[start..i]|
      {
        CompactNext(indices, s, chosen + s[start..i], i);
        assert (chosen + s[start..i]) + [s[i]] == chosen + s[start..i+1];
        indices := indices[result := indices[i]];
        result := result + 1;
      }
      assert s[start..|s|] == s[start..];
    }
  }
}
