/** Byte ranges of data files: `UniteSegments`, the sum of data entries and their comparison.  A
    segment of length 0 reaches to the end of the file. */
module Segments {
  import opened Order
  import opened Plan
  import opened Builder

  predicate Contains(s: Segment, b: int)
  {
    s.offset <= b && (s.length == 0 || b < s.offset + s.length)
  }

  /** Byte `b` belongs to one of the segments. */
  predicate Covered(segments: seq<Segment>, b: int)
  {
    exists i :: 0 <= i < |segments| && Contains(segments[i], b)
  }

  ghost predicate SameBytes(s: seq<Segment>, t: seq<Segment>)
  {
    forall b: int :: Covered(s, b) <==> Covered(t, b)
  }

  predicate NonNegative(segments: seq<Segment>)
  {
    forall i :: 0 <= i < |segments| ==> segments[i].length >= 0
  }

  /** Offsets do not decrease. */
  predicate Ordered(segments: seq<Segment>)
  {
    forall i, j :: 0 <= i < j < |segments| ==> segments[i].offset <= segments[j].offset
  }

  /** Segments are apart by at least one byte and only the last may be unbounded. */
  predicate Separated(segments: seq<Segment>)
  {
    forall i, j :: 0 <= i < j < |segments| ==> Apart(segments[i], segments[j])
  }

  predicate Apart(s: Segment, t: Segment)
  {
    s.length > 0 && s.offset + s.length < t.offset
  }

  /** Comparing neighbours is enough. */
  method ValidateSegments(segments: seq<Segment>) returns (r: bool)
    ensures r <==> Ordered(segments)
  {
    var i := 1;
    while i < |segments|
      invariant 1 <= i && (segments == [] || i <= |segments|)
      invariant segments != [] ==> Ordered(segments[..i])
    {
      if segments[i].offset < segments[i-1].offset {
        return false;
      }
      forall k | 0 <= k < i ensures segments[k].offset <= segments[i].offset {
        if k < i - 1 { assert segments[..i][k].offset <= segments[..i][i-1].offset; }
      }
      i := i + 1;
    }
    assert segments != [] ==> segments[..|segments|] == segments;
    r := true;
  }

  function Max(a: int, b: int): int { if a < b then b else a }

  /** The segment that reaches as far as both. */
  function Merge(back: Segment, part: Segment): Segment
  {
    if part.length == 0 then Segment(back.offset, 0)
    else Segment(back.offset, Max(back.offset + back.length, part.offset + part.length) - back.offset)
  }

  function UniteFrom(back: Segment, rest: seq<Segment>): seq<Segment>
    decreases |rest|
  {
    if rest == [] || back.length == 0 then [back]
    else if back.offset + back.length >= rest[0].offset then UniteFrom(Merge(back, rest[0]), rest[1..])
    else [back] + UniteFrom(rest[0], rest[1..])
  }

  function Unite(segments: seq<Segment>): seq<Segment>
  {
    if segments == [] then [] else UniteFrom(segments[0], segments[1..])
  }

  /** Unsorted segments raise. */
  method UniteSegments(segments: seq<Segment>) returns (r: Option<seq<Segment>>)
    ensures r == if Ordered(segments) then Some(Unite(segments)) else None
  {
    var valid := ValidateSegments(segments);
    if !valid {
      return None;
    }
    var result: seq<Segment>, back: Option<Segment> := [], None;
    for i := 0 to |segments|
      invariant back.None? ==> i == 0 && result == []
      invariant back.Some? ==> i > 0 && Unite(segments) == result + UniteFrom(back.value, segments[i..])
    {
      var part := segments[i];
      assert segments[i..][1..] == segments[i+1..];
      if back.None? {
        back := Some(part);
        assert [] + Unite(segments) == Unite(segments);
        continue;
      }
      if back.value.length == 0 {
        break;
      }
      if back.value.offset + back.value.length >= part.offset {
        back := Some(Merge(back.value, part));
      } else {
        SeqAssociative(result, [back.value], UniteFrom(part, segments[i+1..]));
        result := result + [back.value];
        back := Some(part);
      }
    }
    if back.Some? {
      result := result + [back.value];
    }
    r := Some(result);
  }

  // ----- Coverage -----

  lemma {:induction false} CoveredCons(s: Segment, rest: seq<Segment>, b: int)
    ensures Covered([s] + rest, b) <==> Contains(s, b) || Covered(rest, b)
  {
    var all := [s] + rest;
    if Covered(rest, b) {
      var i :| 0 <= i < |rest| && Contains(rest[i], b);
      assert all[i+1] == rest[i];
    }
    if Contains(s, b) { assert all[0] == s; }
    if Covered(all, b) {
      var i :| 0 <= i < |all| && Contains(all[i], b);
      assert i > 0 ==> rest[i-1] == all[i];
    }
  }

  lemma {:induction false} CoveredHead(segments: seq<Segment>, b: int)
    requires segments != []
    ensures Covered(segments, b) <==> Contains(segments[0], b) || Covered(segments[1..], b)
  {
    assert segments == [segments[0]] + segments[1..];
    CoveredCons(segments[0], segments[1..], b);
  }

  lemma {:induction false} CoveredConcat(s: seq<Segment>, t: seq<Segment>, b: int)
    ensures Covered(s + t, b) <==> Covered(s, b) || Covered(t, b)
  {
    if s == [] {
      assert s + t == t;
    } else {
      CoveredHead(s, b);
      CoveredHead(s + t, b);
      assert (s + t)[1..] == s[1..] + t;
      CoveredConcat(s[1..], t, b);
    }
  }

  /** Every byte of the remaining segments and of the open one, and no other. */
  lemma {:induction false} UniteFromCovers(back: Segment, rest: seq<Segment>, b: int)
    requires Opens(back, rest)
    ensures Covered(UniteFrom(back, rest), b) <==> Contains(back, b) || Covered(rest, b)
    decreases |rest|
  {
    CoveredCons(back, [], b);
    assert [back] + [] == [back];
    if rest == [] {
    } else if back.length == 0 {
      LateBytes(rest, back.offset, b);
    } else {
      CoveredHead(rest, b);
      if back.offset + back.length >= rest[0].offset {
        UniteFromCovers(Merge(back, rest[0]), rest[1..], b);
        MergeCovers(back, rest[0], b);
      } else {
        UniteFromCovers(rest[0], rest[1..], b);
        CoveredCons(back, UniteFrom(rest[0], rest[1..]), b);
      }
    }
  }

  lemma {:induction false} MergeCovers(back: Segment, part: Segment, b: int)
    requires back.length > 0 && part.length >= 0 && back.offset <= part.offset <= back.offset + back.length
    ensures Contains(Merge(back, part), b) <==> Contains(back, b) || Contains(part, b)
    ensures Merge(back, part).offset == back.offset && Merge(back, part).length >= 0
  {
  }

  lemma {:induction false} LateBytes(rest: seq<Segment>, offset: int, b: int)
    requires forall i :: 0 <= i < |rest| ==> offset <= rest[i].offset
    ensures Covered(rest, b) ==> offset <= b
  {
  }

  /** The open segment stands before the rest. */
  predicate Opens(back: Segment, rest: seq<Segment>)
  {
    && Ordered(rest) && NonNegative(rest) && back.length >= 0
    && forall i :: 0 <= i < |rest| ==> back.offset <= rest[i].offset
  }

  lemma {:induction false} SeparatedCons(s: Segment, rest: seq<Segment>)
    requires Separated(rest) && NonNegative(rest) && rest != [] && s.length > 0 && s.offset + s.length < rest[0].offset
    ensures Separated([s] + rest)
  {
    var all := [s] + rest;
    forall i, j | 0 <= i < j < |all| ensures Apart(all[i], all[j]) {
      assert all[j] == rest[j-1];
      if i > 0 {
        assert all[i] == rest[i-1];
      } else if j > 1 {
        assert Apart(rest[0], rest[j-1]);
      }
    }
  }

  lemma {:induction false} UniteFromSeparated(back: Segment, rest: seq<Segment>)
    requires Opens(back, rest)
    ensures Separated(UniteFrom(back, rest)) && NonNegative(UniteFrom(back, rest))
    ensures UniteFrom(back, rest) != [] && UniteFrom(back, rest)[0].offset == back.offset
    decreases |rest|
  {
    if rest != [] && back.length != 0 {
      if back.offset + back.length >= rest[0].offset {
        MergeCovers(back, rest[0], back.offset);
        UniteFromSeparated(Merge(back, rest[0]), rest[1..]);
      } else {
        UniteFromSeparated(rest[0], rest[1..]);
        SeparatedCons(back, UniteFrom(rest[0], rest[1..]));
      }
    }
  }

  /** Uniting sorted segments keeps the covered bytes and leaves them strictly separated. */
  lemma {:induction false} UniteExact(segments: seq<Segment>)
    requires Ordered(segments) && NonNegative(segments)
    ensures SameBytes(Unite(segments), segments)
    ensures Separated(Unite(segments)) && NonNegative(Unite(segments))
  {
    if segments != [] {
      assert segments == [segments[0]] + segments[1..];
      forall b: int ensures Covered(Unite(segments), b) <==> Covered(segments, b) {
        UniteFromCovers(segments[0], segments[1..], b);
        CoveredHead(segments, b);
      }
      UniteFromSeparated(segments[0], segments[1..]);
    }
  }

  // ----- The separated form is unique -----

  lemma {:induction false} FirstIsLowest(s: seq<Segment>, b: int)
    requires Separated(s) && NonNegative(s) && s != [] && Covered(s, b)
    ensures s[0].offset <= b && Covered(s, s[0].offset)
  {
    var i :| 0 <= i < |s| && Contains(s[i], b);
    if i > 0 { assert Apart(s[0], s[i]); }
    assert Contains(s[0], s[0].offset);
  }

  lemma {:induction false} NonEmptyCovers(s: seq<Segment>)
    requires NonNegative(s) && s != []
    ensures Covered(s, s[0].offset)
  {
    assert Contains(s[0], s[0].offset);
  }

  lemma {:induction false} SameStart(s: seq<Segment>, t: seq<Segment>)
    requires Separated(s) && NonNegative(s) && Separated(t) && NonNegative(t) && SameBytes(s, t)
    ensures s == [] <==> t == []
    ensures s != [] ==> s[0].offset == t[0].offset
  {
    if s != [] { NonEmptyCovers(s); assert Covered(t, s[0].offset); }
    if t != [] { NonEmptyCovers(t); assert Covered(s, t[0].offset); }
    if s != [] && t != [] {
      FirstIsLowest(s, t[0].offset);
      FirstIsLowest(t, s[0].offset);
    }
  }

  /** The byte behind a bounded first segment is a hole. */
  lemma {:induction false} HoleAfterFirst(s: seq<Segment>)
    requires Separated(s) && s != [] && s[0].length > 0
    ensures !Covered(s, s[0].offset + s[0].length)
  {
    forall i | 0 <= i < |s| ensures !Contains(s[i], s[0].offset + s[0].length) {
      if i > 0 { assert Apart(s[0], s[i]); }
    }
  }

  lemma {:induction false} SameLength(s: seq<Segment>, t: seq<Segment>)
    requires Separated(s) && NonNegative(s) && Separated(t) && NonNegative(t) && SameBytes(s, t)
    requires s != [] && t != [] && s[0].offset == t[0].offset
    ensures s[0].length == t[0].length
  {
    if s[0].length > 0 {
      HoleAfterFirst(s);
      assert !Covered(t, s[0].offset + s[0].length);
      assert !Contains(t[0], s[0].offset + s[0].length);
    }
    if t[0].length > 0 {
      HoleAfterFirst(t);
      assert !Covered(s, t[0].offset + t[0].length);
      assert !Contains(s[0], t[0].offset + t[0].length);
    }
  }

  /** The bytes of the later segments are those behind the first. */
  lemma {:induction false} LaterBytes(s: seq<Segment>, b: int)
    requires Separated(s) && NonNegative(s) && s != []
    ensures Covered(s[1..], b) <==> Covered(s, b) && !Contains(s[0], b)
  {
    CoveredHead(s, b);
    if Covered(s[1..], b) {
      var i :| 0 <= i < |s[1..]| && Contains(s[1..][i], b);
      assert Apart(s[0], s[i+1]);
    }
  }

  /** Two separated forms with the same bytes are the same. */
  lemma {:induction false} SeparatedIsUnique(s: seq<Segment>, t: seq<Segment>)
    requires Separated(s) && NonNegative(s) && Separated(t) && NonNegative(t) && SameBytes(s, t)
    ensures s == t
  {
    SameStart(s, t);
    if s != [] {
      SameLength(s, t);
      forall b: int ensures Covered(s[1..], b) <==> Covered(t[1..], b) {
        LaterBytes(s, b);
        LaterBytes(t, b);
        assert Covered(s, b) <==> Covered(t, b);
      }
      SeparatedIsUnique(s[1..], t[1..]);
      assert s == [s[0]] + s[1..] && t == [t[0]] + t[1..];
    }
  }

  // ----- Comparison -----

  /** `MakeRepresentation` of one entry: its path and the set of united segments. */
  function Representation(d: DataEntry): Option<(Path, set<Segment>)>
  {
    if Ordered(d.parts) then Some((d.path, set s | s in Unite(d.parts))) else None
  }

  function AreDataEntriesEqual(l: DataEntry, r: DataEntry): Option<bool>
  {
    if Representation(l).None? || Representation(r).None? then None
    else Some(Representation(l) == Representation(r))
  }

  /** A separated form is determined by its set of segments. */
  lemma {:induction false} SetCovers(s: seq<Segment>, t: seq<Segment>)
    requires forall x :: x in s <==> x in t
    ensures SameBytes(s, t)
  {
    forall b: int ensures Covered(s, b) <==> Covered(t, b) {
      if Covered(s, b) {
        var i :| 0 <= i < |s| && Contains(s[i], b);
        assert s[i] in t;
      }
      if Covered(t, b) {
        var i :| 0 <= i < |t| && Contains(t[i], b);
        assert t[i] in s;
      }
    }
  }

  /** The comparison raises exactly on unsorted segments; otherwise entries compare equal exactly when
      they have the same path and cover the same bytes. */
  lemma {:induction false} EqualExactly(l: DataEntry, r: DataEntry)
    requires NonNegative(l.parts) && NonNegative(r.parts)
    ensures AreDataEntriesEqual(l, r).None? <==> !Ordered(l.parts) || !Ordered(r.parts)
    ensures Ordered(l.parts) && Ordered(r.parts) ==>
            AreDataEntriesEqual(l, r) == Some(l.path == r.path && SameBytes(l.parts, r.parts))
  {
    if Ordered(l.parts) && Ordered(r.parts) { EqualWhenOrdered(l, r); }
  }

  lemma {:induction false} EqualWhenOrdered(l: DataEntry, r: DataEntry)
    requires Ordered(l.parts) && Ordered(r.parts) && NonNegative(l.parts) && NonNegative(r.parts)
    ensures AreDataEntriesEqual(l, r) == Some(l.path == r.path && SameBytes(l.parts, r.parts))
  {
    UniteExact(l.parts);
    UniteExact(r.parts);
    var s, t := Unite(l.parts), Unite(r.parts);
    var setS, setT := set x | x in s, set x | x in t;
    if setS == setT {
      forall x ensures x in s <==> x in t { assert x in setS <==> x in setT; }
      SetCovers(s, t);
      SameBytesThrough(l.parts, s, t, r.parts);
    }
    if SameBytes(l.parts, r.parts) {
      SameBytesThrough(s, l.parts, r.parts, t);
      SeparatedIsUnique(s, t);
    }
  }

  lemma {:induction false} SameBytesThrough(a: seq<Segment>, b: seq<Segment>, c: seq<Segment>, d: seq<Segment>)
    requires SameBytes(a, b) || SameBytes(b, a)
    requires SameBytes(b, c)
    requires SameBytes(c, d) || SameBytes(d, c)
    ensures SameBytes(a, d)
  {
    forall x: int ensures Covered(a, x) <==> Covered(d, x) {
      assert Covered(b, x) <==> Covered(c, x);
    }
  }

  // ----- Sums -----

  predicate ByOffset(s: Segment, t: Segment) { s.offset <= t.offset }

  /** `operator+`: the deletion vector is dropped; different paths raise. */
  function Plus(l: DataEntry, r: DataEntry): Option<DataEntry>
  {
    if l.path != r.path then None
    else Some(DataEntry(l.path, Unite(Sort(l.parts + r.parts, ByOffset)), None))
  }

  /** `operator+=`: like the sum, but the left entry keeps its deletion vector. */
  function PlusAssign(l: DataEntry, r: DataEntry): Option<DataEntry>
  {
    if l.path != r.path then None
    else Some(l.(parts := Unite(Sort(l.parts + r.parts, ByOffset))))
  }

  lemma {:induction false} SortedIsOrdered(s: seq<Segment>, t: seq<Segment>)
    requires SortedBy(s, ByOffset) && multiset(s) == multiset(t) && NonNegative(t)
    ensures Ordered(s) && NonNegative(s) && SameBytes(s, t)
  {
    forall i, j | 0 <= i < j < |s| ensures s[i].offset <= s[j].offset { assert ByOffset(s[i], s[j]); }
    forall x ensures x in s <==> x in t {
      assert x in s <==> x in multiset(s);
      assert x in t <==> x in multiset(t);
    }
    forall i | 0 <= i < |s| ensures s[i].length >= 0 { assert s[i] in t; }
    SetCovers(s, t);
  }

  /** Whatever order an unstable sort gives to equal offsets, the united segments are the same:
      the separated form of the bytes of both. */
  lemma {:induction false} AnySortUnites(s: seq<Segment>, t: seq<Segment>)
    requires SortedBy(s, ByOffset) && multiset(s) == multiset(t) && NonNegative(t)
    ensures Unite(s) == Unite(Sort(t, ByOffset))
    ensures Separated(Unite(s)) && NonNegative(Unite(s)) && SameBytes(Unite(s), t)
  {
    var u := Sort(t, ByOffset);
    SortIsSorted(t, ByOffset);
    SortedIsOrdered(s, t);
    SortedIsOrdered(u, t);
    UniteExact(s);
    UniteExact(u);
    SameBytesThrough(Unite(s), s, t, t);
    SameBytesThrough(Unite(u), u, t, t);
    SameBytesThrough(Unite(s), t, t, Unite(u));
    SeparatedIsUnique(Unite(s), Unite(u));
  }

  /** Entries of different paths raise.  The sum of others is the separated form of the union, without
      vector; the assignment keeps the vector of the left entry. */
  lemma {:induction false} PlusExact(l: DataEntry, r: DataEntry)
    requires NonNegative(l.parts) && NonNegative(r.parts)
    ensures (Plus(l, r).Some? <==> l.path == r.path) && (PlusAssign(l, r).Some? <==> l.path == r.path)
    ensures l.path == r.path ==>
      && Plus(l, r).value.path == l.path && Plus(l, r).value.dv == None
      && PlusAssign(l, r) == Some(Plus(l, r).value.(dv := l.dv))
      && Separated(Plus(l, r).value.parts) && NonNegative(Plus(l, r).value.parts)
      && forall b: int :: Covered(Plus(l, r).value.parts, b) <==> Covered(l.parts, b) || Covered(r.parts, b)
  {
    if l.path == r.path { PlusCovers(l, r); }
  }

  lemma {:induction false} PlusCovers(l: DataEntry, r: DataEntry)
    requires l.path == r.path && NonNegative(l.parts) && NonNegative(r.parts)
    ensures Plus(l, r).Some? && Separated(Plus(l, r).value.parts) && NonNegative(Plus(l, r).value.parts)
    ensures forall b: int :: Covered(Plus(l, r).value.parts, b) <==> Covered(l.parts, b) || Covered(r.parts, b)
  {
    var both := l.parts + r.parts;
    SortIsSorted(both, ByOffset);
    AnySortUnites(Sort(both, ByOffset), both);
    forall b: int ensures Covered(Plus(l, r).value.parts, b) <==> Covered(l.parts, b) || Covered(r.parts, b) {
      assert Covered(Unite(Sort(both, ByOffset)), b) <==> Covered(both, b);
      CoveredConcat(l.parts, r.parts, b);
    }
  }

  lemma {:induction false} PlusCommutes(l: DataEntry, r: DataEntry)
    requires NonNegative(l.parts) && NonNegative(r.parts)
    ensures Plus(l, r) == Plus(r, l)
  {
    if l.path == r.path {
      PlusExact(l, r);
      PlusExact(r, l);
      SeparatedIsUnique(Plus(l, r).value.parts, Plus(r, l).value.parts);
    }
  }

  lemma {:induction false} PlusAssociates(a: DataEntry, b: DataEntry, c: DataEntry)
    requires NonNegative(a.parts) && NonNegative(b.parts) && NonNegative(c.parts) && a.path == b.path == c.path
    ensures Plus(a, b).Some? && Plus(b, c).Some?
    ensures Plus(Plus(a, b).value, c) == Plus(a, Plus(b, c).value)
  {
    PlusExact(a, b);
    PlusExact(b, c);
    PlusExact(Plus(a, b).value, c);
    PlusExact(a, Plus(b, c).value);
    SeparatedIsUnique(Plus(Plus(a, b).value, c).value.parts, Plus(a, Plus(b, c).value).value.parts);
  }

  /** Adding an entry that is covered already changes nothing but the form. */
  lemma {:induction false} PlusAbsorbs(a: DataEntry, b: DataEntry)
    requires NonNegative(a.parts) && NonNegative(b.parts) && a.path == b.path
    requires forall x: int :: Covered(b.parts, x) ==> Covered(a.parts, x)
    ensures SameBytes(Plus(a, b).value.parts, a.parts)
    ensures Separated(a.parts) ==> Plus(a, b).value.parts == a.parts
  {
    PlusExact(a, b);
    forall x: int ensures Covered(Plus(a, b).value.parts, x) <==> Covered(a.parts, x) {
      assert Covered(b.parts, x) ==> Covered(a.parts, x);
    }
    if Separated(a.parts) { SeparatedIsUnique(Plus(a, b).value.parts, a.parts); }
  }

  // ----- Segments of split offsets -----

  lemma {:induction false} SplitsReachTheEnd(splits: seq<int>, k: nat, back: Segment)
    requires splits != [] && k < |splits| && forall i, j :: 0 <= i < j < |splits| ==> splits[i] <= splits[j]
    requires back.length == 0 || back.offset + back.length == splits[k]
    ensures UniteFrom(back, Segments(splits)[k..]) == [Segment(back.offset, 0)]
    decreases |splits| - k
  {
    var segments := Segments(splits);
    if back.length != 0 {
      assert segments[k..][0] == segments[k] && segments[k..][1..] == segments[k+1..];
      var merged := Merge(back, segments[k]);
      if k == |splits| - 1 {
        assert segments[k+1..] == [];
      } else {
        SplitsReachTheEnd(splits, k + 1, merged);
      }
    }
  }

  /** A data file's segments, cut at its split offsets, are together the whole rest of the file
      from the first offset (byte 4 without offsets). */
  lemma {:induction false} SplitsUnite(splits: seq<int>)
    requires forall i, j :: 0 <= i < j < |splits| ==> splits[i] <= splits[j]
    ensures Unite(Segments(splits)) == [Segment(if splits == [] then 4 else splits[0], 0)]
  {
    var segments := Segments(splits);
    if |splits| > 1 { SplitsReachTheEnd(splits, 1, segments[0]); }
  }
}
