/** From stored layers to plan partitions: global equality deletes are spread to the partition,
    deletion vectors are attached to data files, and the layers are laid out by ascending
    sequence number (`ApplyGlobalEqualityDeletes`, `ResolveDeletionVectors`, `MapToVec`). */
module Resolve {
  import opened Order
  import opened Plan
  import opened Builder

  function GlobalIn(globalEq: map<int, seq<EqDelete>>, s: int): seq<EqDelete>
  {
    if s in globalEq then globalEq[s] else []
  }

  function AddEquality(l: StoredLayer, eq: seq<EqDelete>): StoredLayer
  {
    l.(files := l.files.(eq := l.files.eq + eq))
  }

  function ApplyGlobal(layers: Layers, globalEq: map<int, seq<EqDelete>>): Layers
  {
    map s | s in layers.Keys + globalEq.Keys :: AddEquality(LayerIn(layers, s), GlobalIn(globalEq, s))
  }

  /** One insertion per sequence number, in the order of the map. */
  function Spread(layers: Layers, globalEq: map<int, seq<EqDelete>>, keys: seq<int>): Layers
  {
    if keys == [] then layers else
      var r, s := Spread(layers, globalEq, keys[..|keys|-1]), keys[|keys|-1];
      r[s := AddEquality(LayerIn(r, s), GlobalIn(globalEq, s))]
  }

  lemma {:induction false} SpreadExactly(layers: Layers, globalEq: map<int, seq<EqDelete>>, keys: seq<int>, s: int)
    requires forall i, j :: 0 <= i < j < |keys| ==> keys[i] != keys[j]
    ensures s in Spread(layers, globalEq, keys) <==> s in layers || s in keys
    ensures LayerIn(Spread(layers, globalEq, keys), s) ==
      if s in keys then AddEquality(LayerIn(layers, s), GlobalIn(globalEq, s)) else LayerIn(layers, s)
  {
    if keys != [] {
      var init, last := keys[..|keys|-1], keys[|keys|-1];
      SpreadExactly(layers, globalEq, init, s);
      InConcat(init, [last], s);
      assert keys == init + [last];
    }
  }

  lemma {:induction false} SpreadIsApplyGlobal(layers: Layers, globalEq: map<int, seq<EqDelete>>)
    ensures Spread(layers, globalEq, Increasing(globalEq.Keys)) == ApplyGlobal(layers, globalEq)
  {
    var keys := Increasing(globalEq.Keys);
    var r := Spread(layers, globalEq, keys);
    forall s ensures s in r <==> s in ApplyGlobal(layers, globalEq)
             ensures s in r ==> r[s] == ApplyGlobal(layers, globalEq)[s] {
      SpreadExactly(layers, globalEq, keys, s);
      AddNothing(LayerIn(layers, s));
    }
  }

  lemma {:induction false} SpreadStep(layers: Layers, globalEq: map<int, seq<EqDelete>>, keys: seq<int>, i: nat)
    requires i < |keys|
    ensures var r := Spread(layers, globalEq, keys[..i]);
      Spread(layers, globalEq, keys[..i+1])
      == r[keys[i] := AddEquality(LayerIn(r, keys[i]), GlobalIn(globalEq, keys[i]))]
  {
    assert keys[..i+1][..i] == keys[..i];
  }

  method ApplyGlobalEqualityDeletes(layers: Layers, globalEq: map<int, seq<EqDelete>>) returns (r: Layers)
    ensures r == ApplyGlobal(layers, globalEq)
  {
    var keys := Increasing(globalEq.Keys);
    r := layers;
    for i := 0 to |keys|
      invariant r == Spread(layers, globalEq, keys[..i])
    {
      SpreadStep(layers, globalEq, keys, i);
      r := r[keys[i] := AddEquality(LayerIn(r, keys[i]), GlobalIn(globalEq, keys[i]))];
    }
    assert keys[..|keys|] == keys;
    SpreadIsApplyGlobal(layers, globalEq);
  }

  lemma {:induction false} AddNothing(l: StoredLayer)
    ensures AddEquality(l, []) == l
  {
    assert l.files.eq + [] == l.files.eq;
  }

  // ----- Deletion vectors -----

  type Vectors = map<Path, (DeletionVector, int)>

  function Tagged(dvs: map<Path, DeletionVector>, s: int): Vectors
  {
    map p | p in dvs :: (dvs[p], s)
  }

  /** Later layers overwrite earlier ones. */
  function Latest(layers: Layers, keys: seq<int>): Vectors
    requires forall s :: s in keys ==> s in layers
  {
    if keys == [] then map[] else
      var s := keys[|keys|-1];
      Latest(layers, keys[..|keys|-1]) + Tagged(layers[s].dvs, s)
  }

  function Numbers(layers: Layers): (keys: seq<int>)
    ensures forall s :: s in keys <==> s in layers
    ensures forall i, j :: 0 <= i < j < |keys| ==> keys[i] < keys[j]
  {
    Increasing(layers.Keys)
  }

  function CurrentVectors(layers: Layers): Vectors
  {
    Latest(layers, Numbers(layers))
  }

  /** `s` is the highest sequence number at which the partition has a vector for `p`. */
  ghost predicate HighestVector(layers: Layers, p: Path, s: int)
  {
    && s in layers && p in layers[s].dvs
    && forall t :: t in layers && p in layers[t].dvs ==> t <= s
  }

  lemma {:induction false} LastIsGreatest(keys: seq<int>, t: int)
    requires keys != [] && forall i, j :: 0 <= i < j < |keys| ==> keys[i] < keys[j]
    ensures t in keys <==> t in keys[..|keys|-1] || t == keys[|keys|-1]
    ensures t in keys[..|keys|-1] ==> t < keys[|keys|-1]
  {
    InConcat(keys[..|keys|-1], [keys[|keys|-1]], t);
    assert keys == keys[..|keys|-1] + [keys[|keys|-1]];
  }

  lemma {:induction false} LatestIsHighest(layers: Layers, keys: seq<int>, p: Path)
    requires forall s :: s in keys ==> s in layers
    requires forall i, j :: 0 <= i < j < |keys| ==> keys[i] < keys[j]
    ensures p in Latest(layers, keys) <==> exists s :: s in keys && p in layers[s].dvs
    ensures p in Latest(layers, keys) ==>
      var (dv, s) := Latest(layers, keys)[p];
      && s in keys && p in layers[s].dvs && dv == layers[s].dvs[p]
      && forall t :: t in keys && p in layers[t].dvs ==> t <= s
  {
    if keys != [] {
      forall t ensures t in keys <==> t in keys[..|keys|-1] || t == keys[|keys|-1]
               ensures t in keys[..|keys|-1] ==> t < keys[|keys|-1] {
        LastIsGreatest(keys, t);
      }
      LatestIsHighest(layers, keys[..|keys|-1], p);
    }
  }

  /** The vector a partition offers for a path is its highest-sequence one. */
  lemma {:induction false} VectorsAreHighest(layers: Layers, p: Path, s: int)
    ensures p in CurrentVectors(layers) && CurrentVectors(layers)[p].1 == s <==> HighestVector(layers, p, s)
    ensures HighestVector(layers, p, s) ==> CurrentVectors(layers)[p].0 == layers[s].dvs[p]
  {
    LatestIsHighest(layers, Numbers(layers), p);
    if HighestVector(layers, p, s) {
      assert s in Numbers(layers);
    }
  }

  predicate Matches(current: Vectors, s: int, d: DataEntry)
  {
    d.path in current && s <= current[d.path].1
  }

  function Attach(current: Vectors, s: int, d: DataEntry): DataEntry
  {
    if Matches(current, s, d) then d.(dv := Some(current[d.path].0)) else d
  }

  function AttachAll(current: Vectors, s: int, data: seq<DataEntry>): (r: seq<DataEntry>)
    ensures |r| == |data| && forall i :: 0 <= i < |data| ==> r[i] == Attach(current, s, data[i])
  {
    seq(|data|, i requires 0 <= i < |data| => Attach(current, s, data[i]))
  }

  /** A file with a vector shares its layer with other deletes. */
  predicate Conflict(current: Vectors, s: int, l: StoredLayer)
  {
    && (l.files.eq != [] || l.files.pos != [])
    && exists i :: 0 <= i < |l.files.data| && Matches(current, s, l.files.data[i])
  }

  function ResolvedLayer(current: Vectors, s: int, l: StoredLayer): Layer<PosDelete>
  {
    l.files.(data := AttachAll(current, s, l.files.data))
  }

  function FirstMatch(current: Vectors, s: int, data: seq<DataEntry>): Path
    requires exists i :: 0 <= i < |data| && Matches(current, s, data[i])
  {
    if Matches(current, s, data[0]) then data[0].path else
      assert exists i :: 0 <= i < |data[1..]| && Matches(current, s, data[1..][i]) by {
        var i :| 0 <= i < |data| && Matches(current, s, data[i]);
        assert data[1..][i-1] == data[i];
      }
      FirstMatch(current, s, data[1..])
  }

  function ResolveKeys(layers: Layers, current: Vectors, keys: seq<int>): Result<Partition<PosDelete>>
    requires forall s :: s in keys ==> s in layers
  {
    if keys == [] then Ok([]) else
      var s := keys[|keys|-1];
      match ResolveKeys(layers, current, keys[..|keys|-1])
      case Err(e) => Err(e)
      case Ok(part) =>
        if Conflict(current, s, layers[s]) then Err(MixedDeletes(FirstMatch(current, s, layers[s].files.data)))
        else Ok(part + [ResolvedLayer(current, s, layers[s])])
  }

  function ResolvePartition(layers: Layers): Result<Partition<PosDelete>>
  {
    ResolveKeys(layers, CurrentVectors(layers), Numbers(layers))
  }

  /** The first loop: the vectors of all layers, later layers winning. */
  method CollectVectors(layers: Layers, keys: seq<int>) returns (current: Vectors)
    requires forall s :: s in keys ==> s in layers
    ensures current == Latest(layers, keys)
  {
    current := map[];
    for i := 0 to |keys|
      invariant current == Latest(layers, keys[..i])
    {
      assert keys[..i+1][..i] == keys[..i];
      var s := keys[i];
      assert s in keys;
      current := current + Tagged(layers[s].dvs, s);
    }
    assert keys[..|keys|] == keys;
  }

  /** The second loop's body: attach vectors to the data files of one layer. */
  method AttachVectors(current: Vectors, s: int, layer: StoredLayer) returns (r: Result<Layer<PosDelete>>)
    ensures r.Err? <==> Conflict(current, s, layer)
    ensures r.Err? ==> r == Err(MixedDeletes(FirstMatch(current, s, layer.files.data)))
    ensures r.Ok? ==> r == Ok(ResolvedLayer(current, s, layer))
  {
    var data: seq<DataEntry> := [];
    for j := 0 to |layer.files.data|
      invariant data == AttachAll(current, s, layer.files.data[..j])
      invariant layer.files.eq != [] || layer.files.pos != [] ==>
        forall k :: 0 <= k < j ==> !Matches(current, s, layer.files.data[k])
    {
      var d := layer.files.data[j];
      if Matches(current, s, d) {
        if layer.files.eq != [] || layer.files.pos != [] {
          FirstMatchAt(current, s, layer.files.data, j);
          return Err(MixedDeletes(d.path));
        }
        data := data + [d.(dv := Some(current[d.path].0))];
      } else {
        data := data + [d];
      }
    }
    assert layer.files.data[..|layer.files.data|] == layer.files.data;
    return Ok(layer.files.(data := data));
  }

  lemma {:induction false} ResolveStep(layers: Layers, current: Vectors, keys: seq<int>, i: nat)
    requires forall s :: s in keys ==> s in layers
    requires i < |keys| && ResolveKeys(layers, current, keys[..i]).Ok?
    ensures var s, part := keys[i], ResolveKeys(layers, current, keys[..i]).value;
      if Conflict(current, s, layers[s]) then
        ResolveKeys(layers, current, keys) == Err(MixedDeletes(FirstMatch(current, s, layers[s].files.data)))
      else
        ResolveKeys(layers, current, keys[..i+1]) == Ok(part + [ResolvedLayer(current, s, layers[s])])
  {
    assert keys[..i+1][..i] == keys[..i];
    if Conflict(current, keys[i], layers[keys[i]]) { ResolveFails(layers, current, keys, i + 1); }
  }

  method ResolveLayers(layers: Layers, current: Vectors, keys: seq<int>) returns (r: Result<Partition<PosDelete>>)
    requires forall s :: s in keys ==> s in layers
    ensures r == ResolveKeys(layers, current, keys)
  {
    var part: Partition<PosDelete> := [];
    for i := 0 to |keys|
      invariant ResolveKeys(layers, current, keys[..i]) == Ok(part)
    {
      ResolveStep(layers, current, keys, i);
      var layer := AttachVectors(current, keys[i], layers[keys[i]]);
      if layer.Err? {
        return Err(layer.error);
      }
      part := part + [layer.value];
    }
    assert keys[..|keys|] == keys;
    return Ok(part);
  }

  /** Vectors attached and layers laid out by ascending sequence number, loops as in the original. */
  method ResolveDeletionVectors(layers: Layers) returns (r: Result<Partition<PosDelete>>)
    ensures r == ResolvePartition(layers)
  {
    var keys := Numbers(layers);
    var current := CollectVectors(layers, keys);
    r := ResolveLayers(layers, current, keys);
  }

  lemma {:induction false} FirstMatchAt(current: Vectors, s: int, data: seq<DataEntry>, j: nat)
    requires j < |data| && Matches(current, s, data[j])
    requires forall k :: 0 <= k < j ==> !Matches(current, s, data[k])
    ensures FirstMatch(current, s, data) == data[j].path
  {
    if j > 0 {
      assert data[1..][j-1] == data[j];
      FirstMatchAt(current, s, data[1..], j - 1);
    }
  }

  lemma {:induction false} ResolveFails(layers: Layers, current: Vectors, keys: seq<int>, n: nat)
    requires forall s :: s in keys ==> s in layers
    requires n <= |keys| && ResolveKeys(layers, current, keys[..n]).Err?
    ensures ResolveKeys(layers, current, keys) == ResolveKeys(layers, current, keys[..n])
  {
    if n == |keys| {
      assert keys[..n] == keys;
    } else {
      assert keys[..|keys|-1][..n] == keys[..n];
      ResolveFails(layers, current, keys[..|keys|-1], n);
    }
  }

  lemma {:induction false} ResolveKeysExactly(layers: Layers, current: Vectors, keys: seq<int>)
    requires forall s :: s in keys ==> s in layers
    ensures ResolveKeys(layers, current, keys).Err? <==> exists s :: s in keys && Conflict(current, s, layers[s])
    ensures ResolveKeys(layers, current, keys).Err? ==> ResolveKeys(layers, current, keys).error.MixedDeletes?
    ensures ResolveKeys(layers, current, keys).Ok? ==>
      var part := ResolveKeys(layers, current, keys).value;
      |part| == |keys| && forall i :: 0 <= i < |keys| ==> part[i] == ResolvedLayer(current, keys[i], layers[keys[i]])
  {
    if keys != [] {
      var init, last := keys[..|keys|-1], keys[|keys|-1];
      ResolveKeysExactly(layers, current, init);
      assert keys == init + [last] && last in keys;
    }
  }

  /** Resolution fails exactly when a data file whose vector applies shares its layer with
      positional or equality deletes; otherwise each layer keeps its files, and each data file
      gets the vector that applies to it. */
  lemma {:induction false} ResolveExactly(layers: Layers)
    ensures ResolvePartition(layers).Err? <==>
      exists s :: s in layers && Conflict(CurrentVectors(layers), s, layers[s])
    ensures ResolvePartition(layers).Ok? ==>
      var part, keys := ResolvePartition(layers).value, Numbers(layers);
      && |part| == |keys|
      && forall i :: 0 <= i < |keys| ==> part[i] == ResolvedLayer(CurrentVectors(layers), keys[i], layers[keys[i]])
  {
    ResolveKeysExactly(layers, CurrentVectors(layers), Numbers(layers));
  }

  /** The rule for deletion vectors: a data file stored without a vector ends up with the
      highest-sequence vector for its path if the file is not newer than it, and with none
      otherwise; a layer holding a file with a vector holds no other deletes. */
  lemma {:induction false} VectorRule(layers: Layers, i: nat, j: nat)
    requires ResolvePartition(layers).Ok? && i < |Numbers(layers)|
    requires j < |layers[Numbers(layers)[i]].files.data|
    requires layers[Numbers(layers)[i]].files.data[j].dv == None
    ensures |ResolvePartition(layers).value| == |Numbers(layers)|
    ensures |ResolvePartition(layers).value[i].data| == |layers[Numbers(layers)[i]].files.data|
    ensures var s := Numbers(layers)[i];
      var d, r := layers[s].files.data[j], ResolvePartition(layers).value[i];
      && r.data[j].path == d.path && r.data[j].parts == d.parts
      && (r.data[j].dv.Some? <==> exists t :: s <= t && HighestVector(layers, d.path, t))
      && (forall t :: s <= t && HighestVector(layers, d.path, t) ==> r.data[j].dv == Some(layers[t].dvs[d.path]))
      && (r.data[j].dv.Some? ==> r.pos == [] && r.eq == [])
  {
    ResolveExactly(layers);
    var s := Numbers(layers)[i];
    var d, r := layers[s].files.data[j], ResolvePartition(layers).value[i];
    var current := CurrentVectors(layers);
    assert r == ResolvedLayer(current, s, layers[s]);
    forall t ensures d.path in current && current[d.path].1 == t <==> HighestVector(layers, d.path, t)
             ensures HighestVector(layers, d.path, t) ==> current[d.path].0 == layers[t].dvs[d.path] {
      VectorsAreHighest(layers, d.path, t);
    }
    if Matches(current, s, d) {
      assert HighestVector(layers, d.path, current[d.path].1);
      assert !Conflict(current, s, layers[s]);
    }
  }
}
