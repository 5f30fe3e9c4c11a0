/** The scanline that cuts a partition's path axis into independent buckets
    (`PositonalDeleteOptimizer::FindBucketLowerBounds`). */
module Scanline {
  import opened Order
  import opened Plan

  datatype EventKind = StartDelete | DataFile | EndDelete

  datatype Event = Event(kind: EventKind, path: Path)

  function Rank(kind: EventKind): int
  {
    match kind case StartDelete => 0 case DataFile => 1 case EndDelete => 2
  }

  /** Compare by path, then by kind: a range opens before and closes after the data at its ends. */
  predicate EventLeq(a: Event, b: Event)
  {
    if a.path == b.path then Rank(a.kind) <= Rank(b.kind) else Leq(a.path, b.path)
  }

  lemma {:induction false} EventsAreOrdered()
    ensures TotalOrder(EventLeq)
  {
    PathsAreOrdered();
  }

  predicate HasRanges(layer: Layer<PosDelete>)
  {
    forall i :: 0 <= i < |layer.pos| ==> layer.pos[i].range.Some?
  }

  predicate Ranged(part: Partition<PosDelete>)
  {
    forall i :: 0 <= i < |part| ==> HasRanges(part[i])
  }

  predicate OrderedRange(x: PosDelete)
  {
    x.range.Some? ==> Leq(x.range.value.min, x.range.value.max)
  }

  /** What a writer of column bounds guarantees: the lower bound does not exceed the upper one. */
  ghost predicate OrderedRanges(part: Partition<PosDelete>)
  {
    forall x :: PosItem(x) in Items(part) ==> OrderedRange(x)
  }

  function DeleteEvents(pos: seq<PosDelete>): seq<Event>
    requires forall i :: 0 <= i < |pos| ==> pos[i].range.Some?
  {
    if pos == [] then [] else
      var r := pos[|pos|-1].range.value;
      DeleteEvents(pos[..|pos|-1]) + [Event(StartDelete, r.min), Event(EndDelete, r.max)]
  }

  function DataEvents(data: seq<DataEntry>): (r: seq<Event>)
    ensures |r| == |data| && forall i :: 0 <= i < |data| ==> r[i] == Event(DataFile, data[i].path)
  {
    seq(|data|, i requires 0 <= i < |data| => Event(DataFile, data[i].path))
  }

  function Events(part: Partition<PosDelete>): seq<Event>
    requires Ranged(part)
  {
    if part == [] then [] else
      var layer := part[|part|-1];
      Events(part[..|part|-1]) + (DeleteEvents(layer.pos) + DataEvents(layer.data))
  }

  datatype Scan = Scan(balance: nat, bounds: seq<Path>)

  /** One scanline step: open a bucket when no range is active, then update the balance. */
  function Advance(s: Scan, e: Event): Result<Scan>
  {
    var bounds := if s.balance == 0 then s.bounds + [e.path] else s.bounds;
    match e.kind
    case StartDelete => Ok(Scan(s.balance + 1, bounds))
    case DataFile => Ok(Scan(s.balance, bounds))
    case EndDelete => if s.balance > 0 then Ok(Scan(s.balance - 1, bounds)) else Err(InternalError)
  }

  function ScanEvents(events: seq<Event>): Result<Scan>
  {
    if events == [] then Ok(Scan(0, [])) else
      match ScanEvents(events[..|events|-1])
      case Err(e) => Err(e)
      case Ok(s) => Advance(s, events[|events|-1])
  }

  function SortedEvents(part: Partition<PosDelete>): seq<Event>
    requires Ranged(part)
  {
    Sort(Events(part), EventLeq)
  }

  function LowerBounds(part: Partition<PosDelete>): Result<seq<Path>>
    requires Ranged(part)
  {
    match ScanEvents(SortedEvents(part))
    case Err(e) => Err(e)
    case Ok(s) => if s.balance == 0 then Ok(s.bounds) else Err(InternalError)
  }

  /** `FindBucketLowerBounds`, loops as in the original. */
  method FindBucketLowerBounds(part: Partition<PosDelete>) returns (r: Result<seq<Path>>)
    requires Ranged(part)
    ensures r == LowerBounds(part)
  {
    var events := GetEventsInPartition(part);
    events := Sort(events, EventLeq);
    var balance: nat, bounds: seq<Path> := 0, [];
    var i := 0;
    while i < |events|
      invariant 0 <= i <= |events|
      invariant ScanEvents(events[..i]) == Ok(Scan(balance, bounds))
    {
      var event := events[i];
      assert events[..i+1][..i] == events[..i];
      if balance == 0 {
        bounds := bounds + [event.path];
      }
      match event.kind {
        case StartDelete =>
          balance := balance + 1;
        case DataFile =>
        case EndDelete =>
          if balance == 0 {
            ScanFailurePersists(events, i + 1);
            return Err(InternalError);
          }
          balance := balance - 1;
      }
      i := i + 1;
    }
    assert events[..i] == events;
    if balance != 0 {
      return Err(InternalError);
    }
    return Ok(bounds);
  }

  method GetEventsInPartition(part: Partition<PosDelete>) returns (events: seq<Event>)
    requires Ranged(part)
    ensures events == Events(part)
  {
    events := [];
    for l := 0 to |part|
      invariant events == Events(part[..l])
    {
      assert part[..l+1][..l] == part[..l];
      var more := GetEventsInLayer(part[l]);
      events := events + more;
    }
    assert part[..|part|] == part;
  }

  method GetEventsInLayer(layer: Layer<PosDelete>) returns (events: seq<Event>)
    requires HasRanges(layer)
    ensures events == DeleteEvents(layer.pos) + DataEvents(layer.data)
  {
    events := [];
    for i := 0 to |layer.pos|
      invariant events == DeleteEvents(layer.pos[..i])
    {
      assert layer.pos[..i+1][..i] == layer.pos[..i];
      var r := layer.pos[i].range.value;
      events := events + [Event(StartDelete, r.min), Event(EndDelete, r.max)];
    }
    assert layer.pos[..|layer.pos|] == layer.pos;
    for i := 0 to |layer.data|
      invariant events == DeleteEvents(layer.pos) + DataEvents(layer.data)[..i]
    {
      events := events + [Event(DataFile, layer.data[i].path)];
    }
  }

  lemma {:induction false} ScanFailurePersists(events: seq<Event>, n: nat)
    requires n <= |events| && ScanEvents(events[..n]).Err?
    ensures ScanEvents(events) == ScanEvents(events[..n])
  {
    if n == |events| {
      assert events[..n] == events;
    } else {
      assert events[..|events|-1][..n] == events[..n];
      ScanFailurePersists(events[..|events|-1], n);
    }
  }

  lemma {:induction false} ScanPrefix(events: seq<Event>, n: nat)
    requires n <= |events| && ScanEvents(events).Ok?
    ensures ScanEvents(events[..n]).Ok?
  {
    if ScanEvents(events[..n]).Err? { ScanFailurePersists(events, n); }
  }

  // ----- The bounds are sorted and start at the least event -----

  ghost predicate GoodBounds(events: seq<Event>, bounds: seq<Path>)
  {
    && SortedBy(bounds, Leq)
    && (events == [] ==> bounds == [])
    && (events != [] ==> bounds != [] && bounds[0] == events[0].path)
    && (forall i :: 0 <= i < |bounds| ==> Leq(bounds[i], events[|events|-1].path))
  }

  lemma {:induction false} BoundsStep(events: seq<Event>, s: Scan, e: Event)
    requires GoodBounds(events, s.bounds) && Advance(s, e).Ok?
    requires events == [] ==> s.balance == 0
    requires events != [] ==> Leq(events[|events|-1].path, e.path)
    ensures GoodBounds(events + [e], Advance(s, e).value.bounds)
  {
    forall i | 0 <= i < |s.bounds| ensures Leq(s.bounds[i], e.path) {
      LeqTransitive(s.bounds[i], events[|events|-1].path, e.path);
    }
    LeqReflexive(e.path);
  }

  lemma {:induction false} BoundsAreSorted(events: seq<Event>)
    requires SortedBy(events, EventLeq) && ScanEvents(events).Ok?
    ensures GoodBounds(events, ScanEvents(events).value.bounds)
  {
    if events != [] {
      var n := |events| - 1;
      ScanPrefix(events, n);
      BoundsAreSorted(events[..n]);
      if n > 0 {
        assert EventLeq(events[n-1], events[n]);
        LeqReflexive(events[n].path);
      }
      BoundsStep(events[..n], ScanEvents(events[..n]).value, events[n]);
      assert events == events[..n] + [events[n]];
    }
  }

  // ----- The balance counts open ranges -----

  function IsStart(): Event -> bool { (v: Event) => v.kind == StartDelete }
  function IsEnd(): Event -> bool { (v: Event) => v.kind == EndDelete }
  function StartBelow(e: Event): Event -> bool { (v: Event) => v.kind == StartDelete && !EventLeq(e, v) }
  function EndUpTo(e: Event): Event -> bool { (v: Event) => v.kind == EndDelete && EventLeq(v, e) }

  /** While the scan runs, the balance is the number of opened minus closed ranges. */
  lemma {:induction false} BalanceCounts(events: seq<Event>)
    requires ScanEvents(events).Ok?
    ensures ScanEvents(events).value.balance == Count(events, IsStart()) - Count(events, IsEnd())
  {
    if events != [] {
      ScanPrefix(events, |events| - 1);
      BalanceCounts(events[..|events|-1]);
    }
  }

  /** Ranges opened before `e` minus ranges closed up to `e`. */
  function Open(events: seq<Event>, e: Event): int
  {
    Count(events, StartBelow(e)) - Count(events, EndUpTo(e))
  }

  lemma {:induction false} DeleteEventsPaired(pos: seq<PosDelete>)
    requires forall k :: 0 <= k < |pos| ==> pos[k].range.Some?
    ensures Count(DeleteEvents(pos), IsStart()) == Count(DeleteEvents(pos), IsEnd())
  {
    if pos != [] {
      DeleteEventsPaired(pos[..|pos|-1]);
      var r := pos[|pos|-1].range.value;
      var init, s, t := DeleteEvents(pos[..|pos|-1]), Event(StartDelete, r.min), Event(EndDelete, r.max);
      CountTwo(init, s, t, IsStart());
      CountTwo(init, s, t, IsEnd());
    }
  }

  lemma {:induction false} DeleteEventsSnoc(pos: seq<PosDelete>, e: Event)
    requires pos != [] && forall k :: 0 <= k < |pos| ==> pos[k].range.Some? && OrderedRange(pos[k])
    ensures Open(DeleteEvents(pos), e)
            == Open(DeleteEvents(pos[..|pos|-1]), e) + (if Straddles(pos[|pos|-1], e) then 1 else 0)
  {
    var r := pos[|pos|-1].range.value;
    var init, s, t := DeleteEvents(pos[..|pos|-1]), Event(StartDelete, r.min), Event(EndDelete, r.max);
    CountTwo(init, s, t, EndUpTo(e));
    CountTwo(init, s, t, StartBelow(e));
    EndAfterStart(r.min, r.max, e);
  }

  /** The end of each range comes after its start. */
  lemma {:induction false} DeleteEventsBalanced(pos: seq<PosDelete>, e: Event)
    requires forall i :: 0 <= i < |pos| ==> pos[i].range.Some? && OrderedRange(pos[i])
    ensures Open(DeleteEvents(pos), e) >= 0
  {
    if pos != [] {
      DeleteEventsBalanced(pos[..|pos|-1], e);
      DeleteEventsSnoc(pos, e);
    }
  }

  lemma {:induction false} DeleteEventsStraddled(pos: seq<PosDelete>, e: Event, i: nat)
    requires forall k :: 0 <= k < |pos| ==> pos[k].range.Some? && OrderedRange(pos[k])
    requires i < |pos| && Straddles(pos[i], e)
    ensures Open(DeleteEvents(pos), e) > 0
  {
    DeleteEventsSnoc(pos, e);
    if i < |pos| - 1 {
      DeleteEventsStraddled(pos[..|pos|-1], e, i);
    } else {
      DeleteEventsBalanced(pos[..|pos|-1], e);
    }
  }

  lemma {:induction false} CountTwo(init: seq<Event>, s: Event, t: Event, f: Event -> bool)
    ensures Count(init + [s, t], f) == Count(init, f) + (if f(s) then 1 else 0) + (if f(t) then 1 else 0)
  {
    assert init + [s, t] == (init + [s]) + [t];
    CountSnoc(init, s, f);
    CountSnoc(init + [s], t, f);
  }

  /** The range is open when the scan reaches event `e`. */
  predicate Straddles(x: PosDelete, e: Event)
    requires x.range.Some?
  {
    StartBelow(e)(Event(StartDelete, x.range.value.min)) && !EndUpTo(e)(Event(EndDelete, x.range.value.max))
  }

  lemma {:induction false} EndAfterStart(min: Path, max: Path, e: Event)
    requires Leq(min, max)
    ensures EndUpTo(e)(Event(EndDelete, max)) ==> StartBelow(e)(Event(StartDelete, min))
  {
    if EndUpTo(e)(Event(EndDelete, max)) {
      if max != e.path { LeqTransitive(min, max, e.path); }
      if Leq(e.path, min) { LeqAntisymmetric(min, e.path); }
      if Leq(max, min) { LeqAntisymmetric(min, max); }
    }
  }

  lemma {:induction false} OrderedRangesSnoc(part: Partition<PosDelete>)
    requires part != [] && OrderedRanges(part)
    ensures OrderedRanges(part[..|part|-1])
    ensures var layer := part[|part|-1]; forall i :: 0 <= i < |layer.pos| ==> OrderedRange(layer.pos[i])
  {
    var init, layer := part[..|part|-1], part[|part|-1];
    forall x | PosItem(x) in Items(init) ensures OrderedRange(x) {
      InConcat(Items(init), LayerItems(layer), PosItem(x));
    }
    forall i | 0 <= i < |layer.pos| ensures OrderedRange(layer.pos[i]) {
      LayerItemsHold(layer, PosItem(layer.pos[i]));
      InConcat(Items(init), LayerItems(layer), PosItem(layer.pos[i]));
    }
  }

  lemma {:induction false} EventsSnoc(part: Partition<PosDelete>, e: Event)
    requires part != [] && Ranged(part)
    ensures var init, pos := part[..|part|-1], part[|part|-1].pos;
      && Open(Events(part), e) == Open(Events(init), e) + Open(DeleteEvents(pos), e)
      && Count(Events(part), IsStart()) == Count(Events(init), IsStart()) + Count(DeleteEvents(pos), IsStart())
      && Count(Events(part), IsEnd()) == Count(Events(init), IsEnd()) + Count(DeleteEvents(pos), IsEnd())
  {
    var init, layer := part[..|part|-1], part[|part|-1];
    LayerCounts(init, layer, EndUpTo(e));
    LayerCounts(init, layer, StartBelow(e));
    LayerCounts(init, layer, IsStart());
    LayerCounts(init, layer, IsEnd());
  }

  /** Every range contributes one start and one end. */
  lemma {:induction false} EventsPaired(part: Partition<PosDelete>)
    requires Ranged(part)
    ensures Count(Events(part), IsStart()) == Count(Events(part), IsEnd())
  {
    if part != [] {
      EventsPaired(part[..|part|-1]);
      DeleteEventsPaired(part[|part|-1].pos);
      EventsSnoc(part, Event(DataFile, []));
    }
  }

  lemma {:induction false} EventsBalanced(part: Partition<PosDelete>, e: Event)
    requires Ranged(part) && OrderedRanges(part)
    ensures Open(Events(part), e) >= 0
  {
    if part != [] {
      OrderedRangesSnoc(part);
      EventsBalanced(part[..|part|-1], e);
      DeleteEventsBalanced(part[|part|-1].pos, e);
      EventsSnoc(part, e);
    }
  }

  lemma {:induction false} EventsStraddled(part: Partition<PosDelete>, e: Event, l: nat, i: nat)
    requires Ranged(part) && OrderedRanges(part)
    requires l < |part| && i < |part[l].pos| && Straddles(part[l].pos[i], e)
    ensures Open(Events(part), e) > 0
  {
    var init, pos := part[..|part|-1], part[|part|-1].pos;
    OrderedRangesSnoc(part);
    EventsSnoc(part, e);
    if l < |part| - 1 {
      EventsStraddled(init, e, l, i);
      DeleteEventsBalanced(pos, e);
    } else {
      EventsBalanced(init, e);
      DeleteEventsStraddled(pos, e, i);
    }
  }

  lemma {:induction false} LayerCounts(init: Partition<PosDelete>, layer: Layer<PosDelete>, f: Event -> bool)
    requires Ranged(init) && HasRanges(layer)
    requires forall p :: !f(Event(DataFile, p))
    ensures Count(Events(init) + (DeleteEvents(layer.pos) + DataEvents(layer.data)), f)
         == Count(Events(init), f) + Count(DeleteEvents(layer.pos), f)
  {
    CountConcat(Events(init), DeleteEvents(layer.pos) + DataEvents(layer.data), f);
    CountConcat(DeleteEvents(layer.pos), DataEvents(layer.data), f);
    CountNone(DataEvents(layer.data), f);
  }

  /** At position `n` of the sorted events at least as many ranges were opened as closed,
      strictly more if the next event closes one. */
  lemma {:induction false} BalanceAt(part: Partition<PosDelete>, n: nat)
    requires Ranged(part) && OrderedRanges(part) && n < |SortedEvents(part)|
    ensures var E := SortedEvents(part);
            Count(E[..n], IsEnd()) + (if E[n].kind == EndDelete then 1 else 0) <= Count(E[..n], IsStart())
  {
    var E := SortedEvents(part);
    EventsAreOrdered();
    SortIsSorted(Events(part), EventLeq);
    SortedPrefixCounts(E, n);
    CountPermutation(E, Events(part), EndUpTo(E[n]));
    CountPermutation(E, Events(part), StartBelow(E[n]));
    EventsBalanced(part, E[n]);
  }

  /** ... and strictly more if some range is open there. */
  lemma {:induction false} BalanceInside(part: Partition<PosDelete>, n: nat, l: nat, i: nat)
    requires Ranged(part) && OrderedRanges(part) && n < |SortedEvents(part)|
    requires l < |part| && i < |part[l].pos| && Straddles(part[l].pos[i], SortedEvents(part)[n])
    ensures var E := SortedEvents(part); Count(E[..n], IsEnd()) < Count(E[..n], IsStart())
  {
    var E := SortedEvents(part);
    EventsAreOrdered();
    SortIsSorted(Events(part), EventLeq);
    SortedPrefixCounts(E, n);
    CountPermutation(E, Events(part), EndUpTo(E[n]));
    CountPermutation(E, Events(part), StartBelow(E[n]));
    EventsStraddled(part, E[n], l, i);
  }

  lemma {:induction false} SortedPrefixCounts(E: seq<Event>, n: nat)
    requires SortedBy(E, EventLeq) && n < |E|
    ensures Count(E[..n], IsEnd()) + (if E[n].kind == EndDelete then 1 else 0) <= Count(E, EndUpTo(E[n]))
    ensures Count(E, StartBelow(E[n])) <= Count(E[..n], IsStart())
  {
    var e := E[n];
    assert E == (E[..n] + [e]) + E[n+1..];
    CountConcat(E[..n] + [e], E[n+1..], EndUpTo(e));
    CountSnoc(E[..n], e, EndUpTo(e));
    CountWeaken(E[..n], IsEnd(), EndUpTo(e));
    assert E == E[..n] + E[n..];
    CountConcat(E[..n], E[n..], StartBelow(e));
    forall i | 0 <= i < |E[n..]| ensures EventLeq(e, E[n..][i]) {
      if i > 0 { assert EventLeq(E[n], E[n+i]); }
    }
    CountNone(E[n..], StartBelow(e));
    CountWeaken(E[..n], StartBelow(e), IsStart());
  }

  /** Scanline safety: with ordered ranges no internal check of the scan can fire. */
  lemma {:induction false} ScanSucceeds(part: Partition<PosDelete>, n: nat)
    requires Ranged(part) && OrderedRanges(part)
    requires n <= |SortedEvents(part)|
    ensures ScanEvents(SortedEvents(part)[..n]).Ok?
  {
    var E := SortedEvents(part);
    if n > 0 {
      ScanSucceeds(part, n - 1);
      BalanceCounts(E[..n-1]);
      BalanceAt(part, n - 1);
      assert E[..n][..n-1] == E[..n-1];
    }
  }

  lemma {:induction false} LowerBoundsSucceed(part: Partition<PosDelete>)
    requires Ranged(part) && OrderedRanges(part)
    ensures LowerBounds(part).Ok?
  {
    var E := SortedEvents(part);
    ScanSucceeds(part, |E|);
    assert E[..|E|] == E;
    BalanceCounts(E);
    EventsAreOrdered();
    SortIsSorted(Events(part), EventLeq);
    CountPermutation(E, Events(part), IsStart());
    CountPermutation(E, Events(part), IsEnd());
    EventsPaired(part);
  }

  lemma {:induction false} OpenedBoundAvoidsRanges(part: Partition<PosDelete>, n: nat, l: nat, i: nat)
    requires Ranged(part) && OrderedRanges(part)
    requires n < |SortedEvents(part)| && ScanEvents(SortedEvents(part)[..n]).Ok?
    requires ScanEvents(SortedEvents(part)[..n]).value.balance == 0
    requires l < |part| && i < |part[l].pos|
    ensures var b, r := SortedEvents(part)[n].path, part[l].pos[i].range.value; Leq(b, r.min) || Less(r.max, b)
  {
    var E := SortedEvents(part);
    BalanceCounts(E[..n]);
    BalanceAt(part, n);
    if Straddles(part[l].pos[i], E[n]) { BalanceInside(part, n, l, i); }
    InsideStraddles(part[l].pos[i], E[n]);
  }

  /** No bucket boundary lies inside a delete range. */
  lemma {:induction false} BoundsAvoidRanges(part: Partition<PosDelete>, n: nat, l: nat, i: nat, k: nat)
    requires Ranged(part) && OrderedRanges(part)
    requires n <= |SortedEvents(part)| && ScanEvents(SortedEvents(part)[..n]).Ok?
    requires l < |part| && i < |part[l].pos|
    requires k < |ScanEvents(SortedEvents(part)[..n]).value.bounds|
    ensures var b, r := ScanEvents(SortedEvents(part)[..n]).value.bounds[k], part[l].pos[i].range.value;
            Leq(b, r.min) || Less(r.max, b)
  {
    var E := SortedEvents(part);
    if n > 0 {
      assert E[..n][..n-1] == E[..n-1];
      ScanPrefix(E[..n], n - 1);
      if k < |ScanEvents(E[..n-1]).value.bounds| {
        BoundsAvoidRanges(part, n - 1, l, i, k);
      } else {
        OpenedBoundAvoidsRanges(part, n - 1, l, i);
      }
    }
  }

  lemma {:induction false} InsideStraddles(x: PosDelete, e: Event)
    requires x.range.Some? && e.kind != EndDelete && !Straddles(x, e)
    ensures Leq(e.path, x.range.value.min) || Less(x.range.value.max, e.path)
  {
    var r := x.range.value;
    if !Leq(e.path, r.min) && Leq(e.path, r.max) {
      LeqReflexive(r.min);
      if r.max != e.path && Leq(r.max, e.path) { LeqAntisymmetric(r.max, e.path); }
    }
  }

  // ----- Exactly when the scan succeeds, and which bounds it finds -----

  /** Ranges opened minus ranges closed before position `n`. */
  function Balance(events: seq<Event>, n: nat): int
    requires n <= |events|
  {
    Count(events[..n], IsStart()) - Count(events[..n], IsEnd())
  }

  lemma {:induction false} ScanStep(events: seq<Event>, n: nat)
    requires n < |events| && ScanEvents(events[..n]).Ok?
    ensures ScanEvents(events[..n]).value.balance == Balance(events, n) >= 0
    ensures ScanEvents(events[..n+1]) == Advance(ScanEvents(events[..n]).value, events[n])
  {
    BalanceCounts(events[..n]);
    assert events[..n+1][..n] == events[..n];
  }

  /** A scan that succeeded closed only open ranges ... */
  lemma {:induction false} ClosesOpenRanges(events: seq<Event>, n: nat)
    requires ScanEvents(events).Ok? && n < |events|
    ensures Balance(events, n) >= 0 && (events[n].kind == EndDelete ==> Balance(events, n) > 0)
  {
    ScanPrefix(events, n);
    ScanPrefix(events, n + 1);
    ScanStep(events, n);
  }

  /** ... and a scan that closes only open ranges succeeds. */
  lemma {:induction false} ScanProceeds(events: seq<Event>, n: nat)
    requires n <= |events| && forall i :: 0 <= i < n && events[i].kind == EndDelete ==> Balance(events, i) > 0
    ensures ScanEvents(events[..n]).Ok?
  {
    if n > 0 {
      ScanProceeds(events, n - 1);
      ScanStep(events, n - 1);
    }
  }

  /** Every bound is the path of an event met with no range open ... */
  lemma {:induction false} BoundOpened(events: seq<Event>, n: nat, b: Path) returns (i: nat)
    requires n <= |events| && ScanEvents(events[..n]).Ok? && b in ScanEvents(events[..n]).value.bounds
    ensures i < n && events[i].path == b && Balance(events, i) == 0
  {
    assert n > 0;
    assert events[..n][..n-1] == events[..n-1];
    ScanPrefix(events[..n], n - 1);
    ScanStep(events, n - 1);
    if b in ScanEvents(events[..n-1]).value.bounds {
      i := BoundOpened(events, n - 1, b);
    } else {
      i := n - 1;
    }
  }

  /** ... and every such path is a bound. */
  lemma {:induction false} OpensBound(events: seq<Event>, n: nat, i: nat)
    requires i < n <= |events| && ScanEvents(events[..n]).Ok? && Balance(events, i) == 0
    ensures events[i].path in ScanEvents(events[..n]).value.bounds
  {
    assert events[..n][..n-1] == events[..n-1];
    ScanPrefix(events[..n], n - 1);
    ScanStep(events, n - 1);
    if i < n - 1 { OpensBound(events, n - 1, i); }
  }

  function Closing(e: Event): int { if e.kind == EndDelete then 1 else 0 }

  /** In sorted events the balance is at least what the input alone says about the event ... */
  lemma {:induction false} BalanceAtLeast(E: seq<Event>, n: nat)
    requires SortedBy(E, EventLeq) && n < |E|
    ensures Balance(E, n) >= Open(E, E[n]) + Closing(E[n])
  {
    SortedPrefixCounts(E, n);
  }

  lemma {:induction false} FirstPosition(E: seq<Event>, e: Event) returns (n: nat)
    requires e in E
    ensures n < |E| && E[n] == e && e !in E[..n]
  {
    if e in E[..|E|-1] {
      n := FirstPosition(E[..|E|-1], e);
      assert E[..|E|-1][..n] == E[..n];
    } else {
      n := |E| - 1;
    }
  }

  lemma {:induction false} LastPosition(E: seq<Event>, e: Event) returns (n: nat)
    requires e in E
    ensures n < |E| && E[n] == e && e !in E[n+1..]
  {
    if E[|E|-1] == e {
      n := |E| - 1;
    } else {
      n := LastPosition(E[..|E|-1], e);
      assert E[n+1..] == E[..|E|-1][n+1..] + [E[|E|-1]];
    }
  }

  lemma {:induction false} EventAntisymmetric(a: Event, b: Event)
    requires EventLeq(a, b) && EventLeq(b, a)
    ensures a == b
  {
    if a.path != b.path { LeqAntisymmetric(a.path, b.path); }
  }

  /** Starts before a position are starts below its event, unless the event itself stands there. */
  lemma {:induction false} StartsBefore(E: seq<Event>, n: nat)
    requires SortedBy(E, EventLeq) && n < |E| && (E[n].kind == StartDelete ==> E[n] !in E[..n])
    ensures Count(E[..n], IsStart()) <= Count(E, StartBelow(E[n]))
  {
    var e := E[n];
    forall i | 0 <= i < n && IsStart()(E[..n][i]) ensures StartBelow(e)(E[..n][i]) {
      assert EventLeq(E[i], e) && E[i] in E[..n];
      if EventLeq(e, E[i]) { EventAntisymmetric(e, E[i]); }
    }
    CountWeaken(E[..n], IsStart(), StartBelow(e));
    CountConcat(E[..n], E[n..], StartBelow(e));
    assert E == E[..n] + E[n..];
  }

  lemma {:induction false} NoEndsAfter(E: seq<Event>, n: nat)
    requires SortedBy(E, EventLeq) && n < |E| && (E[n].kind == EndDelete ==> E[n] !in E[n+1..])
    ensures Count(E[n+1..], EndUpTo(E[n])) == 0
  {
    var e, after := E[n], E[n+1..];
    forall i | 0 <= i < |after| ensures !EndUpTo(e)(after[i]) {
      assert EventLeq(e, E[n+1+i]) && after[i] in after;
      if EventLeq(after[i], e) { EventAntisymmetric(e, after[i]); }
    }
    CountNone(after, EndUpTo(e));
  }

  /** Ends up to an event stand before it, but for the event itself. */
  lemma {:induction false} EndsUpTo(E: seq<Event>, n: nat)
    requires SortedBy(E, EventLeq) && n < |E| && (E[n].kind == EndDelete ==> E[n] !in E[n+1..])
    ensures Count(E, EndUpTo(E[n])) <= Count(E[..n], IsEnd()) + Closing(E[n])
  {
    var e := E[n];
    NoEndsAfter(E, n);
    CountWeaken(E[..n], EndUpTo(e), IsEnd());
    CountAround(E, n, EndUpTo(e));
  }

  /** ... and exactly that at one of the event's positions. */
  lemma {:induction false} BalanceReached(E: seq<Event>, e: Event) returns (n: nat)
    requires SortedBy(E, EventLeq) && e in E
    ensures n < |E| && E[n] == e && Balance(E, n) == Open(E, e) + Closing(e)
  {
    if e.kind == EndDelete {
      n := LastPosition(E, e);
    } else {
      n := FirstPosition(E, e);
    }
    BalanceAtLeast(E, n);
    StartsBefore(E, n);
    EndsUpTo(E, n);
  }

  function Lower(r: Range): Path { if Leq(r.min, r.max) then r.min else r.max }
  function Upper(r: Range): Path { if Leq(r.min, r.max) then r.max else r.min }

  /** The path lies behind the lower and up to the upper of the delete's two bounds. */
  predicate Inside(x: PosDelete, p: Path)
  {
    x.range.Some? && Less(Lower(x.range.value), p) && Leq(p, Upper(x.range.value))
  }

  /** No event ends a range that is not open. */
  ghost predicate Closes(part: Partition<PosDelete>)
    requires Ranged(part)
  {
    forall e :: e in Events(part) && e.kind == EndDelete ==> Open(Events(part), e) >= 0
  }

  /** Wherever a data file or another range begins inside a delete's bounds, a range is open. */
  ghost predicate Shields(part: Partition<PosDelete>)
    requires Ranged(part)
  {
    forall x, e :: PosItem(x) in Items(part) && e in Events(part) && e.kind != EndDelete && Inside(x, e.path) ==>
                     Open(Events(part), e) > 0
  }

  lemma {:induction false} SortedOpen(part: Partition<PosDelete>, e: Event)
    requires Ranged(part)
    ensures SortedBy(SortedEvents(part), EventLeq)
    ensures e in SortedEvents(part) <==> e in Events(part)
    ensures Open(SortedEvents(part), e) == Open(Events(part), e)
  {
    var E := SortedEvents(part);
    EventsAreOrdered();
    SortIsSorted(Events(part), EventLeq);
    assert e in E <==> e in multiset(E);
    assert e in Events(part) <==> e in multiset(Events(part));
    CountPermutation(E, Events(part), StartBelow(e));
    CountPermutation(E, Events(part), EndUpTo(e));
  }

  lemma {:induction false} ScanEndsBalanced(part: Partition<PosDelete>)
    requires Ranged(part) && ScanEvents(SortedEvents(part)).Ok?
    ensures LowerBounds(part) == Ok(ScanEvents(SortedEvents(part)).value.bounds)
  {
    var E := SortedEvents(part);
    EventsAreOrdered();
    SortIsSorted(Events(part), EventLeq);
    BalanceCounts(E);
    CountPermutation(E, Events(part), IsStart());
    CountPermutation(E, Events(part), IsEnd());
    EventsPaired(part);
  }

  /** The scan finds bounds exactly when the input closes only open ranges. */
  lemma {:induction false} LowerBoundsExactly(part: Partition<PosDelete>)
    requires Ranged(part)
    ensures LowerBounds(part).Ok? <==> Closes(part)
  {
    var E := SortedEvents(part);
    assert E[..|E|] == E;
    if LowerBounds(part).Ok? {
      forall e | e in Events(part) && e.kind == EndDelete ensures Open(Events(part), e) >= 0 {
        SortedOpen(part, e);
        var n := BalanceReached(E, e);
        ClosesOpenRanges(E, n);
      }
    }
    if Closes(part) {
      forall i | 0 <= i < |E| && E[i].kind == EndDelete ensures Balance(E, i) > 0 {
        SortedOpen(part, E[i]);
        BalanceAtLeast(E, i);
      }
      ScanProceeds(E, |E|);
      ScanEndsBalanced(part);
    }
  }

  /** A bound lies inside a delete's bounds exactly when some file begins there unshielded. */
  lemma {:induction false} BoundInside(part: Partition<PosDelete>, b: Path) returns (e: Event)
    requires Ranged(part) && LowerBounds(part).Ok? && b in LowerBounds(part).value
    ensures e in Events(part) && e.kind != EndDelete && e.path == b && Open(Events(part), e) <= 0
  {
    var E := SortedEvents(part);
    assert E[..|E|] == E;
    ScanEndsBalanced(part);
    var i := BoundOpened(E, |E|, b);
    e := E[i];
    SortedOpen(part, e);
    ClosesOpenRanges(E, i);
    BalanceAtLeast(E, i);
  }

  lemma {:induction false} UnshieldedBound(part: Partition<PosDelete>, e: Event)
    requires Ranged(part) && LowerBounds(part).Ok?
    requires e in Events(part) && e.kind != EndDelete && Open(Events(part), e) <= 0
    ensures e.path in LowerBounds(part).value
  {
    var E := SortedEvents(part);
    assert E[..|E|] == E;
    ScanEndsBalanced(part);
    SortedOpen(part, e);
    var n := BalanceReached(E, e);
    ClosesOpenRanges(E, n);
    OpensBound(E, |E|, n);
  }
}
