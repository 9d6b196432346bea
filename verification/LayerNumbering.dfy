/**
  Layer numbers and file numbers across pipeline ranks: the converter's layer ranges, the
  offsets the mergers add back, and the safetensors files each rank writes.
*/
module LayerNumbering {

  import opened Arithmetic
  import opened Sequences

  // ---------------------------------------------------------------- ranges by cumulative sums

  /** The first layer of rank r, for shards of the given sizes. */
  function Start(sizes: seq<nat>, r: nat): nat
    requires r <= |sizes|
  {
    if r == 0 then 0 else Start(sizes, r - 1) + sizes[r - 1]
  }

  lemma {:induction false} StartMonotone(sizes: seq<nat>, a: nat, b: nat)
    requires a <= b <= |sizes|
    ensures Start(sizes, a) <= Start(sizes, b)
  {
    if a < b { StartMonotone(sizes, a, b - 1); }
  }

  ghost predicate Owns(sizes: seq<nat>, r: nat, g: nat) {
    r < |sizes| && Start(sizes, r) <= g < Start(sizes, r + 1)
  }

  lemma {:induction false} OwnerExists(sizes: seq<nat>, n: nat, g: nat) returns (r: nat)
    requires n <= |sizes| && g < Start(sizes, n)
    ensures r < n && Owns(sizes, r, g)
  {
    if g >= Start(sizes, n - 1) { r := n - 1; } else { r := OwnerExists(sizes, n - 1, g); }
  }

  lemma OwnerUnique(sizes: seq<nat>, a: nat, b: nat, g: nat)
    requires Owns(sizes, a, g) && Owns(sizes, b, g)
    ensures a == b
  {
    if a < b { StartMonotone(sizes, a + 1, b); }
    if b < a { StartMonotone(sizes, b + 1, a); }
  }

  /** The layers the converter gives to rank r. */
  function Local<V>(layers: seq<V>, sizes: seq<nat>, r: nat): (local: seq<V>)
    requires r < |sizes| && Start(sizes, |sizes|) == |layers|
    ensures |local| == sizes[r]
  {
    StartMonotone(sizes, r + 1, |sizes|);
    layers[Start(sizes, r)..Start(sizes, r + 1)]
  }

  /** Conversion and merging are inverse, rank by rank, and the ranks together cover every
      layer once: layer g comes back, as layer g, from exactly the one rank that owns it. */
  lemma EveryLayerOnce<V>(layers: seq<V>, sizes: seq<nat>, g: nat) returns (r: nat)
    requires Start(sizes, |sizes|) == |layers| && g < |layers|
    ensures Owns(sizes, r, g) && forall a: nat :: Owns(sizes, a, g) ==> a == r
    ensures Local(layers, sizes, r)[g - Start(sizes, r)] == layers[g]
  {
    r := OwnerExists(sizes, |sizes|, g);
    forall a: nat | Owns(sizes, a, g) ensures a == r { OwnerUnique(sizes, a, r, g); }
    LocalAt(layers, sizes, r, g);
  }

  lemma LocalAt<V>(layers: seq<V>, sizes: seq<nat>, r: nat, g: nat)
    requires Start(sizes, |sizes|) == |layers| && g < |layers| && Owns(sizes, r, g)
    ensures Local(layers, sizes, r)[g - Start(sizes, r)] == layers[g]
  {
    StartMonotone(sizes, r + 1, |sizes|);
  }

  // ---------------------------------------------------------------- the running offset

  datatype Key = Layer(no: nat, param: string) | Other(name: string)

  datatype Entry<V> = Entry(key: Key, value: V)

  ghost predicate Distinct<V>(stage: seq<Entry<V>>) {
    forall i, j :: 0 <= i < j < |stage| ==> stage[i].key != stage[j].key
  }

  /** `layers_handled`: the largest local layer number, zero when there is none. */
  function Handled<V>(stage: seq<Entry<V>>): nat {
    if stage == [] then 0
    else
      match stage[|stage| - 1].key
      case Layer(no, _) => Max(no, Handled(stage[..|stage| - 1]))
      case Other(_) => Handled(stage[..|stage| - 1])
  }

  /** `layers_cum` before stage j. */
  function Offset<V>(stages: seq<seq<Entry<V>>>, j: nat): nat
    requires j <= |stages|
  {
    if j == 0 then 0 else Offset(stages, j - 1) + Handled(stages[j - 1]) + 1
  }

  /** The name that a key gets in the merged dictionary. */
  function Global(key: Key, offset: nat): Key {
    match key
    case Layer(no, param) => Layer(no + offset, param)
    case Other(name) => Other(name)
  }

  /** The value is found under the layer's number plus the offset, or under the unchanged name. */
  ghost predicate Stored<V>(merged: map<Key, V>, e: Entry<V>, offset: nat) {
    match e.key
    case Layer(no, param) => Layer(no + offset, param) in merged && merged[Layer(no + offset, param)] == e.value
    case Other(name) => Other(name) in merged && merged[Other(name)] == e.value
  }

  ghost predicate Placed<V>(stage: seq<Entry<V>>, n: nat, offset: nat, merged: map<Key, V>)
    requires n <= |stage|
  {
    forall i :: 0 <= i < n ==> Stored(merged, stage[i], offset)
  }

  ghost predicate Below<V>(merged: map<Key, V>, n: nat) { forall k :: k in merged && k.Layer? ==> k.no < n }

  ghost predicate HasKey<V>(stage: seq<Entry<V>>, key: Key) { exists a :: 0 <= a < |stage| && stage[a].key == key }

  /** All names stay. The layers keep their weights, and so do names that are not in the stage. */
  ghost predicate Keeps<V>(before: map<Key, V>, merged: map<Key, V>, stage: seq<Entry<V>>) {
    forall k :: k in before ==> k in merged && (k.Layer? || !HasKey(stage, k) ==> merged[k] == before[k])
  }

  /** Only the stage's own names are new. */
  ghost predicate Adds<V>(before: map<Key, V>, merged: map<Key, V>, stage: seq<Entry<V>>, n: nat, cum: nat)
    requires n <= |stage|
  {
    forall k :: k in merged ==> k in before || exists a :: 0 <= a < n && k == Global(stage[a].key, cum)
  }

  lemma PlacedMore<V>(stage: seq<Entry<V>>, n: nat, cum: nat, merged: map<Key, V>)
    requires n < |stage| && Placed(stage, n, cum, merged) && Distinct(stage)
    ensures Placed(stage, n + 1, cum, merged[Global(stage[n].key, cum) := stage[n].value])
  {
  }

  lemma KeepsMore<V>(before: map<Key, V>, merged: map<Key, V>, stage: seq<Entry<V>>, n: nat, cum: nat, v: V)
    requires n < |stage| && Keeps(before, merged, stage) && Below(before, cum)
    ensures Keeps(before, merged[Global(stage[n].key, cum) := v], stage)
  {
  }

  lemma NoneAdded<V>(before: map<Key, V>, stage: seq<Entry<V>>, cum: nat)
    ensures Adds(before, before, stage, 0, cum) && Placed(stage, 0, cum, before) && Keeps(before, before, stage)
  {
  }

  lemma AddsMore<V>(before: map<Key, V>, merged: map<Key, V>, stage: seq<Entry<V>>, n: nat, cum: nat, v: V)
    requires n < |stage| && Adds(before, merged, stage, n, cum)
    ensures Adds(before, merged[Global(stage[n].key, cum) := v], stage, n + 1, cum)
  {
  }

  /** One stage: every entry goes under its global name, and the offset moves on. */
  method MergeStage<V>(stage: seq<Entry<V>>, cum: nat, before: map<Key, V>)
    returns (merged: map<Key, V>, next: nat)
    requires Distinct(stage) && Below(before, cum)
    ensures next == cum + Handled(stage) + 1
    ensures Placed(stage, |stage|, cum, merged) && Below(merged, next)
    ensures Keeps(before, merged, stage) && Adds(before, merged, stage, |stage|, cum)
  {
    hide Adds, Placed, Distinct, Keeps;
    NoneAdded(before, stage, cum);
    merged := before;
    var handled := 0;
    for i := 0 to |stage|
      invariant handled == Handled(stage[..i]) && Below(merged, cum + handled + 1)
      invariant Placed(stage, i, cum, merged)
      invariant Keeps(before, merged, stage) && Adds(before, merged, stage, i, cum)
    {
      assert stage[..i + 1][..i] == stage[..i];
      AddsMore(before, merged, stage, i, cum, stage[i].value);
      KeepsMore(before, merged, stage, i, cum, stage[i].value);
      PlacedMore(stage, i, cum, merged);
      var name := stage[i].key;
      if name.Layer? {
        handled := Max(name.no, handled);
        name := Layer(name.no + cum, name.param);
      }
      merged := merged[name := stage[i].value];
    }
    assert stage[..|stage|] == stage;
    next := cum + handled + 1;
  }

  lemma OffsetStep<V>(stages: seq<seq<Entry<V>>>, j: nat)
    ensures Offset(stages, 0) == 0
    ensures j < |stages| ==> Offset(stages, j + 1) == Offset(stages, j) + Handled(stages[j]) + 1
  {
  }

  lemma NothingYet<V>(n: nat)
    ensures Below<V>(map[], n)
  {
  }

  /** Does a stage after stage j, of the first m, have the key? */
  ghost predicate Again<V>(stages: seq<seq<Entry<V>>>, j: nat, m: nat, key: Key)
    requires m <= |stages|
  {
    exists l :: j < l < m && HasKey(stages[l], key)
  }

  /** The entries of stage j are found under their names, layers with the stage's offset; a name
      without layer number has the value of the last stage that has it. */
  ghost predicate StagePlaced<V>(stages: seq<seq<Entry<V>>>, j: nat, m: nat, first: nat, merged: map<Key, V>)
    requires j < m <= |stages|
  {
    var offset := first + Offset(stages, j);
    forall i :: 0 <= i < |stages[j]| ==>
      (stages[j][i].key.Layer? || !Again(stages, j, m, stages[j][i].key) ==> Stored(merged, stages[j][i], offset))
  }

  /** The first m stages are merged, and nothing else is. */
  ghost predicate AllPlaced<V>(stages: seq<seq<Entry<V>>>, m: nat, first: nat, merged: map<Key, V>)
    requires m <= |stages|
  {
    && (forall j :: 0 <= j < m ==> StagePlaced(stages, j, m, first, merged))
    && forall k :: k in merged ==> FromStage(stages, m, first, k)
  }

  ghost predicate FromStage<V>(stages: seq<seq<Entry<V>>>, m: nat, first: nat, k: Key)
    requires m <= |stages|
  {
    exists j :: 0 <= j < m && Comes(stages[j], k, first + Offset(stages, j))
  }

  ghost predicate Comes<V>(stage: seq<Entry<V>>, k: Key, offset: nat) {
    exists a :: 0 <= a < |stage| && k == Global(stage[a].key, offset)
  }

  lemma NonePlaced<V>(stages: seq<seq<Entry<V>>>, first: nat)
    ensures AllPlaced(stages, 0, first, map[])
  {
  }

  lemma StageStays<V>(stages: seq<seq<Entry<V>>>, j: nat, m: nat, first: nat, was: map<Key, V>, now: map<Key, V>)
    requires j < m < |stages| && StagePlaced(stages, j, m, first, was) && Keeps(was, now, stages[m])
    ensures StagePlaced(stages, j, m + 1, first, now)
  {
    hide HasKey, Offset;
    var offset := first + Offset(stages, j);
    forall i | 0 <= i < |stages[j]| && (stages[j][i].key.Layer? || !Again(stages, j, m + 1, stages[j][i].key))
      ensures Stored(now, stages[j][i], offset)
    {
      assert Stored(was, stages[j][i], offset);
    }
  }

  lemma PlacedNext<V>(stages: seq<seq<Entry<V>>>, m: nat, first: nat, was: map<Key, V>, now: map<Key, V>)
    requires m < |stages| && AllPlaced(stages, m, first, was)
    requires var offset := first + Offset(stages, m);
      && Placed(stages[m], |stages[m]|, offset, now)
      && Keeps(was, now, stages[m]) && Adds(was, now, stages[m], |stages[m]|, offset)
    ensures AllPlaced(stages, m + 1, first, now)
  {
    hide Keeps, Offset, Stored, Again, Global, FromStage, StagePlaced, Adds, Placed;
    var next := m + 1;
    forall j | 0 <= j < next ensures StagePlaced(stages, j, next, first, now) {
      if j < m {
        StageStays(stages, j, m, first, was, now);
      } else {
        StagePlacedNow(stages, m, first, now);
      }
    }
    forall k | k in now ensures FromStage(stages, m + 1, first, k) {
      ComesFrom(was, now, stages[m], k, first + Offset(stages, m));
      StillFrom(stages, m, first, k);
    }
  }

  lemma StillFrom<V>(stages: seq<seq<Entry<V>>>, m: nat, first: nat, k: Key)
    requires m < |stages|
    ensures FromStage(stages, m, first, k) || Comes(stages[m], k, first + Offset(stages, m)) ==>
            FromStage(stages, m + 1, first, k)
  {
    hide Comes, Offset;
  }

  lemma StagePlacedNow<V>(stages: seq<seq<Entry<V>>>, m: nat, first: nat, now: map<Key, V>)
    requires m < |stages| && Placed(stages[m], |stages[m]|, first + Offset(stages, m), now)
    ensures StagePlaced(stages, m, m + 1, first, now)
  {
    hide Stored, Again, Offset;
  }

  lemma ComesFrom<V>(was: map<Key, V>, now: map<Key, V>, stage: seq<Entry<V>>, k: Key, offset: nat)
    requires k in now && Adds(was, now, stage, |stage|, offset)
    ensures k in was || Comes(stage, k, offset)
  {
    hide Global;
  }

  /** The stages in the order given, numbered from `first` on. No layer's weights ever overwrite
      another's: each is found under its number plus its stage's running offset. The legacy
      merger takes all stages, in vpp-major order, from zero. */
  method MergeStages<V>(stages: seq<seq<Entry<V>>>, first: nat) returns (merged: map<Key, V>)
    requires forall j :: 0 <= j < |stages| ==> Distinct(stages[j])
    ensures AllPlaced(stages, |stages|, first, merged)
  {
    hide Placed, Below, Distinct, Handled, Keeps, Adds, Offset, AllPlaced;
    merged := map[];
    NothingYet<V>(first);
    NonePlaced(stages, first);
    OffsetStep(stages, 0);
    var cum := first;
    for j := 0 to |stages|
      invariant cum == first + Offset(stages, j) && Below(merged, cum)
      invariant AllPlaced(stages, j, first, merged)
    {
      ghost var was := merged;
      OffsetStep(stages, j);
      merged, cum := MergeStage(stages[j], cum, merged);
      PlacedNext(stages, j, first, was, merged);
    }
  }

  /** The distributed merger: one rank's model chunks, numbered from the rank's first layer. */
  method MergeRank<V>(shards: seq<nat>, rank: nat, chunks: seq<seq<Entry<V>>>) returns (merged: map<Key, V>)
    requires rank < |shards| && forall j :: 0 <= j < |chunks| ==> Distinct(chunks[j])
    ensures AllPlaced(chunks, |chunks|, Start(shards, rank), merged)
  {
    hide AllPlaced, Distinct, Offset;
    var first := 0;
    if |shards| > 1 {
      var cumulated := CumSum(shards);
      first := if rank == 0 then 0 else cumulated[rank - 1];
    }
    assert first == Start(shards, rank);
    merged := MergeStages(chunks, first);
  }

  /** For a single stage or chunk every entry, with or without layer number, is there with its own
      value. */
  lemma OneStage<V>(stage: seq<Entry<V>>, first: nat, merged: map<Key, V>, i: nat)
    requires AllPlaced([stage], 1, first, merged) && i < |stage|
    ensures Stored(merged, stage[i], first)
  {
    assert StagePlaced([stage], 0, 1, first, merged);
    assert [stage][0] == stage;
  }

  /** `np.cumsum`. */
  method CumSum(sizes: seq<nat>) returns (sums: seq<nat>)
    ensures |sums| == |sizes| && forall r :: 0 <= r < |sizes| ==> sums[r] == Start(sizes, r + 1)
  {
    sums := [];
    var sum := 0;
    for r := 0 to |sizes|
      invariant |sums| == r && sum == Start(sizes, r)
      invariant forall a :: 0 <= a < r ==> sums[a] == Start(sizes, a + 1)
    {
      sum := sum + sizes[r];
      sums := sums + [sum];
    }
  }

  /** The stage holds exactly the local layers 0 .. n - 1. */
  ghost predicate Holds<V>(stage: seq<Entry<V>>, n: nat) {
    && (forall e :: e in stage && e.key.Layer? ==> e.key.no < n)
    && (forall l: nat :: l < n ==> HasLayer(stage, l))
  }

  ghost predicate HasLayer<V>(stage: seq<Entry<V>>, l: nat) {
    exists e :: e in stage && e.key.Layer? && e.key.no == l
  }

  lemma {:induction false} HandledIs<V>(stage: seq<Entry<V>>)
    ensures forall e :: e in stage && e.key.Layer? ==> e.key.no <= Handled(stage)
    ensures Handled(stage) > 0 ==> exists e :: e in stage && e.key.Layer? && e.key.no == Handled(stage)
  {
    if stage != [] {
      var init, last := stage[..|stage| - 1], stage[|stage| - 1];
      HandledIs(init);
      forall e | e in stage && e.key.Layer? ensures e.key.no <= Handled(stage) {
        assert e in init || e == last;
      }
      if Handled(stage) > 0 {
        if last.key.Layer? && last.key.no == Handled(stage) {
          assert last in stage;
        } else {
          var e :| e in init && e.key.Layer? && e.key.no == Handled(init);
          assert e in stage;
        }
      }
    }
  }

  lemma HandledOf<V>(stage: seq<Entry<V>>, n: nat)
    requires Holds(stage, n)
    ensures Handled(stage) + 1 == Max(n, 1)
  {
    HandledIs(stage);
    if n > 0 { assert HasLayer(stage, n - 1); }
  }

  /** No stage without layers comes before one with layers. */
  ghost predicate EmptyLast(sizes: seq<nat>) {
    forall i, j :: 0 <= i < j < |sizes| && sizes[j] > 0 ==> sizes[i] > 0
  }

  /** The running offset counts a stage without layers as one. */
  lemma {:induction false} OffsetCounts<V>(stages: seq<seq<Entry<V>>>, sizes: seq<nat>, j: nat)
    requires |stages| == |sizes| && j <= |sizes|
    requires forall a :: 0 <= a < |sizes| ==> Holds(stages[a], sizes[a])
    ensures Offset(stages, j) >= Start(sizes, j)
    ensures Offset(stages, j) == Start(sizes, j) <==> forall a :: 0 <= a < j ==> sizes[a] > 0
  {
    if j > 0 {
      OffsetCounts(stages, sizes, j - 1);
      HandledOf(stages[j - 1], sizes[j - 1]);
    }
  }

  /** Consecutive stages are numbered right, all of them, exactly when no stage without layers
      comes before a stage with layers: the legacy merger's stages of all ranks, and the
      distributed merger's chunks of one rank. */
  lemma RunningOffsetIff<V>(stages: seq<seq<Entry<V>>>, sizes: seq<nat>)
    requires |stages| == |sizes|
    requires forall a :: 0 <= a < |sizes| ==> Holds(stages[a], sizes[a])
    ensures (forall j :: 0 <= j < |sizes| && sizes[j] > 0 ==> Offset(stages, j) == Start(sizes, j)) <==> EmptyLast(sizes)
  {
    forall j | 0 <= j < |sizes|
      ensures Offset(stages, j) == Start(sizes, j) <==> forall a :: 0 <= a < j ==> sizes[a] > 0
    {
      OffsetCounts(stages, sizes, j);
    }
  }

  /** With the same number of layers in all vpp * pp stages, stage (v, p) starts where the
      interleaved schedule puts it. */
  lemma {:induction false} EvenStages(sizes: seq<nat>, c: nat, j: nat)
    requires j <= |sizes| && forall a :: 0 <= a < |sizes| ==> sizes[a] == c
    ensures Start(sizes, j) == j * c
  {
    if j > 0 {
      EvenStages(sizes, c, j - 1);
      assert j * c == (j - 1) * c + c;
    }
  }

  /** Where chunk v of rank p starts in the interleaved schedule of pp ranks, with c layers in
      every chunk. */
  function Interleaved(pp: nat, p: nat, v: nat, c: nat): nat { (v * pp + p) * c }

  /** The distributed merger numbers the chunks of a rank one after the other. For the interleaved
      schedule that is right, on any rank, exactly for one chunk for each rank, or one rank. */
  lemma InterleavedIff<V>(shards: seq<nat>, p: nat, chunks: seq<seq<Entry<V>>>, c: nat)
    requires c > 0 && chunks != [] && p < |shards|
    requires forall v :: 0 <= v < |chunks| ==> Holds(chunks[v], c)
    requires forall a :: 0 <= a < |shards| ==> shards[a] == |chunks| * c
    ensures (forall v :: 0 <= v < |chunks| ==> Start(shards, p) + Offset(chunks, v) == Interleaved(|shards|, p, v, c))
            <==> |chunks| == 1 || |shards| == 1
  {
    hide Holds, Offset, Start;
    var vpp, pp := |chunks|, |shards|;
    forall v | 0 <= v < vpp
      ensures Start(shards, p) + Offset(chunks, v) == Interleaved(pp, p, v, c) <==> p * vpp + v == v * pp + p
    {
      ChunkStart(shards, p, chunks, c, v);
      SameMultiple(p * vpp + v, v * pp + p, c);
    }
    if vpp == 1 || pp == 1 {
      assert pp == 1 ==> forall v :: v * pp == v;
    } else if p == 0 {
      assert Start(shards, p) + Offset(chunks, 1) != Interleaved(pp, p, 1, c);
    } else {
      SameMultiple(vpp, 1, p);
      assert Start(shards, p) + Offset(chunks, 0) != Interleaved(pp, p, 0, c);
    }
  }

  lemma ChunkStart<V>(shards: seq<nat>, p: nat, chunks: seq<seq<Entry<V>>>, c: nat, v: nat)
    requires c > 0 && p < |shards| && v < |chunks|
    requires forall a :: 0 <= a < |chunks| ==> Holds(chunks[a], c)
    requires forall a :: 0 <= a < |shards| ==> shards[a] == |chunks| * c
    ensures Start(shards, p) + Offset(chunks, v) == (p * |chunks| + v) * c
  {
    hide Holds, Offset, Start;
    var sizes := Repeat(c, |chunks|);
    EvenStages(shards, |chunks| * c, p);
    EvenStages(sizes, c, v);
    OffsetCounts(chunks, sizes, v);
    Distribute(p, |chunks|, v, c);
  }

  lemma Distribute(p: nat, m: nat, v: nat, c: nat)
    ensures (p * m + v) * c == p * (m * c) + v * c
  {
    assert (p * m) * c == p * (m * c);
  }

  lemma SameMultiple(a: nat, b: nat, c: nat)
    requires c > 0
    ensures a * c == b * c <==> a == b
  {
    assert c * (a - b) == a * c - b * c;
    if a * c == b * c { Small(c, a - b, 0); }
  }

  // ---------------------------------------------------------------- output files

  /** `np.array_split(keys, n)`: n parts, the first |keys| mod n of them one longer. */
  function PartSize(total: nat, n: nat, i: nat): nat
    requires n > 0
  {
    total / n + if i < total % n then 1 else 0
  }

  function PartStart(total: nat, n: nat, i: nat): nat
    requires n > 0
  {
    i * (total / n) + if i < total % n then i else total % n
  }

  lemma PartEnds(total: nat, n: nat, i: nat)
    requires n > 0 && i < n
    ensures PartStart(total, n, i) + PartSize(total, n, i) == PartStart(total, n, i + 1)
    ensures PartStart(total, n, 0) == 0 && PartStart(total, n, n) == total
  {
    assert (i + 1) * (total / n) == i * (total / n) + total / n;
    assert total == n * (total / n) + total % n;
  }

  /** The keys of a rank, split over its files: all keys, once, in order. */
  method ArraySplit<K>(keys: seq<K>, n: nat) returns (parts: seq<seq<K>>)
    requires n > 0
    ensures |parts| == n && Flatten(parts) == keys
    ensures forall i :: 0 <= i < n ==> |parts[i]| == PartSize(|keys|, n, i)
    ensures forall i, j :: 0 <= i < j < n ==> |parts[j]| <= |parts[i]| <= |parts[j]| + 1
  {
    parts := [];
    var at := 0;
    PartEnds(|keys|, n, 0);
    for i := 0 to n
      invariant at == PartStart(|keys|, n, i) <= |keys| && |parts| == i && Flatten(parts) == keys[..at]
      invariant forall a :: 0 <= a < i ==> |parts[a]| == PartSize(|keys|, n, a)
    {
      PartEnds(|keys|, n, i);
      PartWithin(|keys|, n, i + 1);
      var size := PartSize(|keys|, n, i);
      var part := keys[at..at + size];
      assert (parts + [part])[..i] == parts;
      parts := parts + [part];
      at := at + size;
    }
    assert keys[..|keys|] == keys;
  }

  lemma PartWithin(total: nat, n: nat, i: nat)
    requires n > 0 && i <= n
    ensures PartStart(total, n, i) <= total
  {
    var q := total / n;
    assert total == n * q + total % n;
    assert n * q == i * q + (n - i) * q;
    NatProduct(n - i, q);
  }

  /** The number of the i-th file of rank r. */
  function FileNumber(sizes: seq<nat>, per: nat, r: nat, i: nat): nat
    requires r < |sizes|
  {
    Start(sizes, r) * per + i + 1
  }

  ghost predicate IsFile(sizes: seq<nat>, per: nat, r: nat, i: nat) { r < |sizes| && i < sizes[r] * per }

  /** The ranks' files are numbered 1 .. per * L without a gap, and no two share a number. */
  lemma FilesOnce(sizes: seq<nat>, per: nat, f: nat) returns (r: nat, i: nat)
    requires per > 0 && 1 <= f <= Start(sizes, |sizes|) * per
    ensures IsFile(sizes, per, r, i) && FileNumber(sizes, per, r, i) == f
  {
    var g := (f - 1) / per;
    Quotient(f - 1, per, Start(sizes, |sizes|));
    r := OwnerExists(sizes, |sizes|, g);
    InRank(f - 1, per, Start(sizes, r), sizes[r]);
    i := f - 1 - Start(sizes, r) * per;
  }

  lemma InRank(x: nat, per: nat, start: nat, size: nat)
    requires per > 0 && start <= x / per < start + size
    ensures 0 <= x - start * per < size * per
  {
    var g := x / per;
    assert x == g * per + x % per;
    Scale(start, g, per);
    Scale(g + 1, start + size, per);
    assert (g + 1) * per == g * per + per;
    assert (start + size) * per == start * per + size * per;
  }

  lemma Scale(a: nat, b: nat, per: nat)
    ensures a <= b ==> a * per <= b * per
  {
    if a <= b {
      NatProduct(b - a, per);
      assert (b - a) * per == b * per - a * per;
    }
  }

  lemma Quotient(x: nat, n: nat, b: nat)
    requires n > 0 && x < b * n
    ensures x / n < b
  {
    Scale(b, x / n, n);
    assert x == (x / n) * n + x % n;
  }

  /** A later rank's files have larger numbers. */
  lemma FileOrder(sizes: seq<nat>, per: nat, r: nat, i: nat, s: nat, j: nat)
    requires IsFile(sizes, per, r, i) && IsFile(sizes, per, s, j) && r < s
    ensures FileNumber(sizes, per, r, i) < FileNumber(sizes, per, s, j)
  {
    FileRange(sizes, per, r, i);
    FileRange(sizes, per, s, j);
    StartMonotone(sizes, r + 1, s);
    Scale(Start(sizes, r + 1), Start(sizes, s), per);
  }

  /** Files are numbered rank by rank, and within a rank in order. */
  lemma FilesInOrder(sizes: seq<nat>, per: nat, r: nat, i: nat, s: nat, j: nat)
    requires IsFile(sizes, per, r, i) && IsFile(sizes, per, s, j)
    ensures FileNumber(sizes, per, r, i) < FileNumber(sizes, per, s, j) <==> r < s || (r == s && i < j)
  {
    hide Start, IsFile;
    if r < s {
      FileOrder(sizes, per, r, i, s, j);
    } else if s < r {
      FileOrder(sizes, per, s, j, r, i);
    }
  }

  lemma FilesDiffer(sizes: seq<nat>, per: nat, r: nat, i: nat, s: nat, j: nat)
    requires IsFile(sizes, per, r, i) && IsFile(sizes, per, s, j)
    ensures 1 <= FileNumber(sizes, per, r, i) <= Start(sizes, |sizes|) * per
    ensures FileNumber(sizes, per, r, i) == FileNumber(sizes, per, s, j) ==> r == s && i == j
  {
    FileRange(sizes, per, r, i);
    StartMonotone(sizes, r + 1, |sizes|);
    Scale(Start(sizes, r + 1), Start(sizes, |sizes|), per);
    hide Start, IsFile;
    if r < s {
      FileOrder(sizes, per, r, i, s, j);
    } else if s < r {
      FileOrder(sizes, per, s, j, r, i);
    }
  }

  lemma FileRange(sizes: seq<nat>, per: nat, r: nat, i: nat)
    requires IsFile(sizes, per, r, i)
    ensures Start(sizes, r) * per < FileNumber(sizes, per, r, i) <= Start(sizes, r + 1) * per
  {
    var a, b := Start(sizes, r), sizes[r];
    NatProduct(a, per);
    assert (a + b) * per == a * per + b * per;
  }
}
