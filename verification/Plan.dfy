/** Scan plans and their meaning.

    A plan partition is a sequence of layers; a delete file in layer j applies to the data
    files in layers i <= j.  The same relation can be read off the flattened stream of the
    partition's files (each layer contributing its data files, then its deletes): a delete
    applies to every data file standing before it.  Each rewrite of the planner acts simply
    on that stream, so meaning preservation is proved there and carried back to layers. */
module Plan {
  import opened Order

  datatype Option<+T> = None | Some(value: T)

  /** What the planner throws or returns instead of a plan. */
  datatype Error =
    | InternalError
    | MixedDeletes(path: Path)
    | MissingSequenceNumber
    | SpecificationMismatch(path: Path)
    | IncompleteDeletionVector(path: Path)
    | DuplicateDeletePath(path: Path)
    | DuplicateDataPath(path: Path)

  datatype Result<+T> = Ok(value: T) | Err(error: Error)

  /** `length == 0` stands for "until the end of the file". */
  datatype Segment = Segment(offset: int, length: int)

  datatype DeletionVector = DeletionVector(path: Path, offset: int, length: int, referenced: Path)

  datatype DataEntry = DataEntry(path: Path, parts: seq<Segment>, dv: Option<DeletionVector>)

  datatype Range = Range(min: Path, max: Path)

  /** A positional delete file with the optional bounds of the data paths it mentions. */
  datatype PosDelete = PosDelete(path: Path, range: Option<Range>)

  datatype EqDelete = EqDelete(path: Path, fieldIds: seq<int>)

  /** `P` is `PosDelete` while planning and the bare path of the delete file in the final plan. */
  datatype Layer<P> = Layer(data: seq<DataEntry>, pos: seq<P>, eq: seq<EqDelete>) {
    predicate Empty() { data == [] && pos == [] && eq == [] }
  }

  type Partition<P> = seq<Layer<P>>

  datatype Item<P> = DataItem(d: DataEntry) | PosItem(p: P) | EqItem(e: EqDelete)

  function EmptyLayer<P>(): Layer<P> { Layer([], [], []) }

  /** Whether rows of the data file at `path` can be mentioned by the delete file. */
  predicate Covers(x: PosDelete, path: Path)
  {
    x.range.None? || (Leq(x.range.value.min, path) && Leq(path, x.range.value.max))
  }

  predicate Holds<P(==)>(layer: Layer<P>, item: Item<P>)
  {
    match item
    case DataItem(d) => d in layer.data
    case PosItem(p) => p in layer.pos
    case EqItem(e) => e in layer.eq
  }

  /** The meaning of a partition: delete item `x` is applied to data file `d`. */
  ghost predicate Applies<P>(part: Partition<P>, d: DataEntry, x: Item<P>)
  {
    exists i, j :: 0 <= i <= j < |part| && Holds(part[i], DataItem(d)) && Holds(part[j], x)
  }

  /** The meaning of a plan. */
  ghost predicate Planned<P>(plan: seq<Partition<P>>, d: DataEntry, x: Item<P>)
  {
    exists p :: 0 <= p < |plan| && Applies(plan[p], d, x)
  }

  function DataItems<P>(s: seq<DataEntry>): (r: seq<Item<P>>)
    ensures |r| == |s| && forall i :: 0 <= i < |s| ==> r[i] == DataItem(s[i])
  {
    seq(|s|, i requires 0 <= i < |s| => DataItem(s[i]))
  }

  function PosItems<P>(s: seq<P>): (r: seq<Item<P>>)
    ensures |r| == |s| && forall i :: 0 <= i < |s| ==> r[i] == PosItem(s[i])
  {
    seq(|s|, i requires 0 <= i < |s| => PosItem(s[i]))
  }

  function EqItems<P>(s: seq<EqDelete>): (r: seq<Item<P>>)
    ensures |r| == |s| && forall i :: 0 <= i < |s| ==> r[i] == EqItem(s[i])
  {
    seq(|s|, i requires 0 <= i < |s| => EqItem(s[i]))
  }

  function LayerItems<P>(layer: Layer<P>): seq<Item<P>>
  {
    DataItems(layer.data) + PosItems(layer.pos) + EqItems(layer.eq)
  }

  /** The file stream of a partition. */
  function Items<P>(part: Partition<P>): seq<Item<P>>
  {
    if part == [] then [] else Items(part[..|part|-1]) + LayerItems(part[|part|-1])
  }

  ghost predicate Before<P>(items: seq<Item<P>>, d: DataEntry, x: Item<P>)
  {
    exists a, b :: 0 <= a < b < |items| && items[a] == DataItem(d) && items[b] == x
  }

  lemma {:induction false} ItemsSnoc<P>(part: Partition<P>, layer: Layer<P>)
    ensures Items(part + [layer]) == Items(part) + LayerItems(layer)
  {
    assert (part + [layer])[..|part|] == part;
  }

  lemma {:induction false} LayerItemsHold<P>(layer: Layer<P>, x: Item<P>)
    ensures x in LayerItems(layer) <==> Holds(layer, x)
  {
    var n, m := |layer.data|, |layer.pos|;
    if Holds(layer, x) {
      match x
      case DataItem(d) =>
        var i :| 0 <= i < n && layer.data[i] == d;
        assert LayerItems(layer)[i] == x;
      case PosItem(p) =>
        var i :| 0 <= i < m && layer.pos[i] == p;
        assert LayerItems(layer)[n + i] == x;
      case EqItem(e) =>
        var i :| 0 <= i < |layer.eq| && layer.eq[i] == e;
        assert LayerItems(layer)[n + m + i] == x;
    }
  }

  /** Within one layer every data file stands before every delete. */
  lemma {:induction false} LayerItemsOrdered<P>(layer: Layer<P>, d: DataEntry, x: Item<P>)
    requires !x.DataItem?
    ensures Before(LayerItems(layer), d, x) <==> Holds(layer, DataItem(d)) && Holds(layer, x)
  {
    var s := LayerItems(layer);
    LayerItemsHold(layer, x);
    LayerItemsHold(layer, DataItem(d));
    if Holds(layer, DataItem(d)) && Holds(layer, x) {
      var i :| 0 <= i < |layer.data| && layer.data[i] == d;
      var b :| 0 <= b < |s| && s[b] == x;
      assert s[i] == DataItem(d);
    }
  }

  lemma {:induction false} BeforeConcat<P>(s: seq<Item<P>>, t: seq<Item<P>>, d: DataEntry, x: Item<P>)
    ensures Before(s + t, d, x) <==> Before(s, d, x) || (DataItem(d) in s && x in t) || Before(t, d, x)
  {
    var u := s + t;
    if Before(s, d, x) {
      var a, b :| 0 <= a < b < |s| && s[a] == DataItem(d) && s[b] == x;
      assert u[a] == DataItem(d) && u[b] == x;
    }
    if DataItem(d) in s && x in t {
      var a :| 0 <= a < |s| && s[a] == DataItem(d);
      var b :| 0 <= b < |t| && t[b] == x;
      assert u[a] == DataItem(d) && u[|s| + b] == x;
    }
    if Before(t, d, x) {
      var a, b :| 0 <= a < b < |t| && t[a] == DataItem(d) && t[b] == x;
      assert u[|s| + a] == DataItem(d) && u[|s| + b] == x;
    }
    if Before(u, d, x) {
      var a, b :| 0 <= a < b < |u| && u[a] == DataItem(d) && u[b] == x;
      if b < |s| {
        assert s[a] == DataItem(d) && s[b] == x;
      } else if a < |s| {
        assert s[a] == DataItem(d) && t[b - |s|] == x;
      } else {
        assert t[a - |s|] == DataItem(d) && t[b - |s|] == x;
      }
    }
  }

  lemma {:induction false} ItemsHold<P>(part: Partition<P>, x: Item<P>)
    ensures x in Items(part) <==> exists i :: 0 <= i < |part| && Holds(part[i], x)
  {
    if part != [] {
      var init, last := part[..|part|-1], part[|part|-1];
      ItemsHold(init, x);
      LayerItemsHold(last, x);
      InConcat(Items(init), LayerItems(last), x);
      if i :| 0 <= i < |part| && Holds(part[i], x) {
        assert i < |init| ==> Holds(init[i], x);
      }
    }
  }

  lemma {:induction false} InConcat<T>(s: seq<T>, t: seq<T>, x: T)
    ensures x in s + t <==> x in s || x in t
  {
  }

  /** The layered meaning and the stream meaning of a partition coincide. */
  lemma {:induction false} AppliesIsBefore<P>(part: Partition<P>, d: DataEntry, x: Item<P>)
    requires !x.DataItem?
    ensures Applies(part, d, x) <==> Before(Items(part), d, x)
  {
    if part != [] {
      var n := |part| - 1;
      var init, last := part[..n], part[n];
      AppliesIsBefore(init, d, x);
      BeforeConcat(Items(init), LayerItems(last), d, x);
      LayerItemsOrdered(last, d, x);
      LayerItemsHold(last, x);
      ItemsHold(init, DataItem(d));
      AppliesSnoc(init, last, d, x);
      assert init + [last] == part;
    }
  }

  lemma {:induction false} AppliesSnoc<P>(init: Partition<P>, last: Layer<P>, d: DataEntry, x: Item<P>)
    ensures Applies(init + [last], d, x) <==>
            || Applies(init, d, x)
            || ((exists i :: 0 <= i < |init| && Holds(init[i], DataItem(d))) && Holds(last, x))
            || (Holds(last, DataItem(d)) && Holds(last, x))
  {
    var part, n := init + [last], |init|;
    if Applies(init, d, x) {
      var i, j :| 0 <= i <= j < n && Holds(init[i], DataItem(d)) && Holds(init[j], x);
      assert Holds(part[i], DataItem(d)) && Holds(part[j], x);
    }
    if (exists i :: 0 <= i < |init| && Holds(init[i], DataItem(d))) && Holds(last, x) {
      var i :| 0 <= i < n && Holds(init[i], DataItem(d));
      assert Holds(part[i], DataItem(d)) && Holds(part[n], x);
    }
    if Holds(last, DataItem(d)) && Holds(last, x) {
      assert Holds(part[n], DataItem(d)) && Holds(part[n], x);
    }
    if Applies(part, d, x) {
      var i, j :| 0 <= i <= j < |part| && Holds(part[i], DataItem(d)) && Holds(part[j], x);
      if j < n {
        assert Holds(init[i], DataItem(d)) && Holds(init[j], x);
      } else if i < n {
        assert Holds(init[i], DataItem(d)) && Holds(last, x);
      }
    }
  }

  /** All data files of a stream, with multiplicity. */
  function DataOf<P>(items: seq<Item<P>>): seq<DataEntry>
  {
    if items == [] then [] else
      var last := items[|items|-1];
      DataOf(items[..|items|-1]) + (if last.DataItem? then [last.d] else [])
  }

  /** The stream of a whole plan. */
  function PlanItems<P>(plan: seq<Partition<P>>): seq<Item<P>>
  {
    if plan == [] then [] else PlanItems(plan[..|plan|-1]) + Items(plan[|plan|-1])
  }

  lemma {:induction false} PlanItemsSnoc<P>(plan: seq<Partition<P>>, part: Partition<P>)
    ensures PlanItems(plan + [part]) == PlanItems(plan) + Items(part)
  {
    assert (plan + [part])[..|plan|] == plan;
  }

  lemma {:induction false} PlanItemsConcat<P>(p: seq<Partition<P>>, q: seq<Partition<P>>)
    ensures PlanItems(p + q) == PlanItems(p) + PlanItems(q)
  {
    if q == [] {
      assert p + q == p;
    } else {
      var init, last := q[..|q|-1], q[|q|-1];
      assert q == init + [last];
      calc {
        PlanItems(p + q);
        { assert p + q == (p + init) + [last]; }
        PlanItems((p + init) + [last]);
        { PlanItemsSnoc(p + init, last); }
        PlanItems(p + init) + Items(last);
        { PlanItemsConcat(p, init); }
        PlanItems(p) + PlanItems(init) + Items(last);
        { SeqAssociative(PlanItems(p), PlanItems(init), Items(last)); }
        PlanItems(p) + (PlanItems(init) + Items(last));
        { PlanItemsSnoc(init, last); }
        PlanItems(p) + PlanItems(q);
      }
    }
  }

  lemma {:induction false} DataOfSnoc<P>(items: seq<Item<P>>, x: Item<P>)
    ensures DataOf(items + [x]) == DataOf(items) + (if x.DataItem? then [x.d] else [])
  {
    assert (items + [x])[..|items|] == items;
  }

  lemma {:induction false} DataOfConcat<P>(s: seq<Item<P>>, t: seq<Item<P>>)
    ensures DataOf(s + t) == DataOf(s) + DataOf(t)
  {
    if t == [] {
      assert s + t == s;
    } else {
      var n := |t| - 1;
      assert s + t == (s + t[..n]) + [t[n]];
      DataOfSnoc(s + t[..n], t[n]);
      DataOfConcat(s, t[..n]);
    }
  }

  lemma {:induction false} DataOfMembers<P>(items: seq<Item<P>>, d: DataEntry)
    ensures d in DataOf(items) <==> DataItem(d) in items
  {
    if items != [] {
      var n := |items| - 1;
      DataOfMembers(items[..n], d);
      assert items == items[..n] + [items[n]];
    }
  }

  lemma {:induction false} DataOfLayer<P>(layer: Layer<P>)
    ensures DataOf(LayerItems(layer)) == layer.data
  {
    DataOfDataItems<P>(layer.data);
    DataOfDeletes(PosItems(layer.pos));
    DataOfDeletes<P>(EqItems(layer.eq));
    DataOfConcat(DataItems(layer.data), PosItems(layer.pos));
    DataOfConcat(DataItems(layer.data) + PosItems(layer.pos), EqItems(layer.eq));
  }

  lemma {:induction false} DataOfDataItems<P>(s: seq<DataEntry>)
    ensures DataOf<P>(DataItems(s)) == s
  {
    if s != [] {
      var n := |s| - 1;
      DataOfDataItems<P>(s[..n]);
      assert DataItems<P>(s)[..n] == DataItems<P>(s[..n]);
    }
  }

  lemma {:induction false} DataOfDeletes<P>(items: seq<Item<P>>)
    requires forall i :: 0 <= i < |items| ==> !items[i].DataItem?
    ensures DataOf(items) == []
  {
    if items != [] { DataOfDeletes(items[..|items|-1]); }
  }
}
