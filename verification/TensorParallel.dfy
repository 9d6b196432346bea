/**
  Merging the tensors of all tensor-parallel ranks. For query/key/value it undoes row slicing
  exactly when the number of ranks divides the number of key/value heads; for gate/up the
  ranks must hold matching parts of both halves, and plain row slices are only right for a
  single rank.
*/
module TensorParallel {

  import opened Arithmetic
  import opened QkvLayout
  import opened RowBlocks
  import opened Sequences
  import opened TensorMerge
  import opened Wrappers

  // ---------------------------------------------------------------- query/key/value

  ghost function MergeShards<T>(ts: seq<seq<T>>, n: nat, kv: nat, r: nat): Result<Qkv<T>, Fault> {
    if ts == [] then Ok(Qkv([], [], []))
    else
      match MergeShards(ts[..|ts| - 1], n, kv, r)
      case Error(f) => Error(f)
      case Ok(x) =>
        match SplitShard(ts[|ts| - 1], n, kv, r)
        case Error(f) => Error(f)
        case Ok(y) => Ok(Join(x, y))
  }

  /** `_merge_across_tp` for the fused query/key/value tensors of the ranks. */
  ghost function Merge<T>(ts: seq<seq<T>>, heads: nat, groups: nat): Result<Qkv<T>, Fault> {
    if groups == 0 then Error(NoHeads)
    else if heads % groups != 0 then Error(HeadsNotGrouped)
    else if ts == [] then Error(NoShards)
    else if |ts[0]| % (heads / groups + 2) != 0 then Error(RowsNotDivisible)
    else MergeShards(ts, groups / |ts|, |ts[0]| / (heads / groups + 2), heads / groups)
  }

  method MergeTensors<T>(ts: seq<seq<T>>, heads: nat, groups: nat) returns (res: Result<Qkv<T>, Fault>)
    ensures res == Merge(ts, heads, groups)
  {
    hide MergeShards;
    if groups == 0 { return Error(NoHeads); }
    if heads % groups != 0 { return Error(HeadsNotGrouped); }
    if ts == [] { return Error(NoShards); }
    var r := heads / groups;
    if |ts[0]| % (r + 2) != 0 { return Error(RowsNotDivisible); }
    res := CutShards(ts, groups / |ts|, |ts[0]| / (r + 2), r);
  }

  method CutShards<T>(ts: seq<seq<T>>, n: nat, kv: nat, r: nat) returns (res: Result<Qkv<T>, Fault>)
    ensures res == MergeShards(ts, n, kv, r)
  {
    hide SplitShard;
    var x := Qkv([], [], []);
    for i := 0 to |ts|
      invariant MergeShards(ts[..i], n, kv, r) == Ok(x)
    {
      var y := CutShard(ts[i], n, kv, r);
      assert ts[..i + 1][..i] == ts[..i];
      if y.Error? {
        Fails(ts, i + 1, n, kv, r);
        return Error(y.error);
      }
      x := Join(x, y.value);
    }
    assert ts[..|ts|] == ts;
    res := Ok(x);
  }

  /** The first shard that cannot be cut decides the error. */
  lemma {:induction false} Fails<T>(ts: seq<seq<T>>, i: nat, n: nat, kv: nat, r: nat)
    requires i <= |ts| && MergeShards(ts[..i], n, kv, r).Error?
    ensures MergeShards(ts, n, kv, r) == MergeShards(ts[..i], n, kv, r)
  {
    if i == |ts| {
      assert ts[..i] == ts;
    } else {
      assert ts[..|ts| - 1][..i] == ts[..i];
      Fails(ts[..|ts| - 1], i, n, kv, r);
    }
  }

  lemma NoBlocks<T>(a: nat, d: nat)
    ensures CutAll<T>([], a, d) == Qkv([], [], []) && Flatten<T>([]) == []
  {
  }

  lemma JoinBlocks<T>(init: seq<seq<T>>, last: seq<T>, cs: seq<seq<T>>, a: nat, d: nat, n: nat)
    requires AllOf(cs, a + 2 * d) && Flatten(cs) == Flatten(init) && |last| == Times(n, a + 2 * d)
    ensures var bs := cs + Blocks(last, a + 2 * d, n);
      && AllOf(bs, a + 2 * d) && Flatten(bs) == Flatten(init + [last])
      && CutAll(bs, a, d) == Join(CutAll(cs, a, d), CutAll(Blocks(last, a + 2 * d, n), a, d))
  {
    hide Blocks, Flatten, CutAll;
    CutAllConcat(cs, Blocks(last, a + 2 * d, n), a, d);
    FlattenConcat(cs, Blocks(last, a + 2 * d, n));
    FlattenOfBlocks(last, a + 2 * d, n);
    FlattenSnoc(init, last);
  }

  /** Shards of n whole groups each, merged: the groups of all of them in order. */
  lemma {:induction false} MergeBlocks<T>(ts: seq<seq<T>>, n: nat, d: nat, r: nat) returns (bs: seq<seq<T>>)
    requires n > 0 && AllOf(ts, Times(n, r * d + 2 * d))
    ensures AllOf(bs, r * d + 2 * d) && Flatten(bs) == Flatten(ts) && |bs| == Times(|ts|, n)
    ensures MergeShards(ts, n, n * d, r) == Ok(CutAll(bs, r * d, d))
  {
    hide SplitShard, Blocks, Cut, Flatten, CutAll;
    if ts == [] {
      bs := [];
      NoBlocks<T>(r * d, d);
    } else {
      var init, last := ts[..|ts| - 1], ts[|ts| - 1];
      var cs := MergeBlocks(init, n, d, r);
      ShardCut(last, n, d, r);
      bs := cs + Blocks(last, r * d + 2 * d, n);
      JoinBlocks(init, last, cs, r * d, d, n);
      assert ts == init + [last];
    }
  }

  /** Merging shards that each hold whole groups is splitting their concatenation. */
  lemma MergeWhole<T>(ts: seq<seq<T>>, n: nat, d: nat, r: nat)
    requires n > 0 && AllOf(ts, Times(n, r * d + 2 * d))
    ensures |Flatten(ts)| == Times(Times(|ts|, n), r * d + 2 * d)
    ensures MergeShards(ts, n, n * d, r) == Ok(Deinterleave(Flatten(ts), r * d, d, Times(|ts|, n)))
  {
    hide MergeShards, CutAll;
    var bs := MergeBlocks(ts, n, d, r);
    BlocksOfFlatten(bs, r * d + 2 * d);
  }

  /** The rows of a tensor dealt out to tp ranks. */
  function RowSlices<T>(t: seq<T>, tp: nat): seq<seq<T>>
    requires tp > 0 && |t| % tp == 0
  {
    TimesIs(tp, |t| / tp);
    Blocks(t, |t| / tp, tp)
  }

  lemma SlicesFlatten<T>(t: seq<T>, tp: nat)
    requires tp > 0 && |t| % tp == 0
    ensures Flatten(RowSlices(t, tp)) == t && AllOf(RowSlices(t, tp), |t| / tp) && |RowSlices(t, tp)| == tp
  {
    TimesIs(tp, |t| / tp);
    FlattenOfBlocks(t, |t| / tp, tp);
  }

  lemma Nested(tp: nat, n: nat, w: nat)
    ensures Times(Times(tp, n), w) == Times(tp, Times(n, w)) == tp * Times(n, w)
  {
    TimesIs(tp, n);
    TimesIs(n, w);
    TimesIs(Times(tp, n), w);
    TimesIs(tp, Times(n, w));
    Associative(tp, n, w);
    assert n * w == w * n;
  }

  /** Any number of ranks that divides the key/value heads gives the result of splitting the
      whole tensor, so two such numbers give the same result. */
  lemma AnyTp<T>(t: seq<T>, heads: nat, groups: nat, d: nat, tp: nat)
    requires groups > 0 && heads % groups == 0 && tp > 0 && groups % tp == 0
    requires |t| == Times(groups, heads / groups * d + 2 * d)
    ensures |t| % tp == 0
    ensures Merge(RowSlices(t, tp), heads, groups) == Split(t, heads, groups)
  {
    hide Deinterleave, MergeShards, Split;
    var r, n := heads / groups, groups / tp;
    var w := r * d + 2 * d;
    assert groups == tp * n;
    TimesIs(tp, n);
    Nested(tp, n, w);
    DivUnique(|t|, tp, Times(n, w), 0);
    SlicesFlatten(t, tp);
    var ts := RowSlices(t, tp);
    MergeWhole(ts, n, d, r);
    SplitBlocks(t, heads, groups, d);
    RowsExact(n, d, r);
    DivUnique(|ts[0]|, r + 2, n * d, 0);
    DivUnique(groups, tp, n, 0);
  }

  function Iota(n: nat): seq<int> { seq(n, i => i) }

  lemma FlattenFront<T>(bs: seq<seq<T>>)
    requires bs != []
    ensures Flatten(bs) == bs[0] + Flatten(bs[1..])
  {
    FlattenCons(bs[0], bs[1..]);
    assert bs == [bs[0]] + bs[1..];
  }

  lemma FirstBlock<T>(t: seq<T>, a: nat, d: nat, n: nat)
    requires n > 0 && |t| == Times(n, a + 2 * d)
    ensures |Deinterleave(t, a, d, n).q| == Times(n, a)
    ensures forall i :: 0 <= i < a ==> i < |Deinterleave(t, a, d, n).q| && Deinterleave(t, a, d, n).q[i] == t[i]
  {
    hide Blocks, Flatten, Times;
    var bs := Blocks(t, a + 2 * d, n);
    FrontBlock(t, a + 2 * d, n);
    BlocksOfFlatten(Qs(bs, a, d), a);
    FlattenFront(Qs(bs, a, d));
  }

  lemma FrontBlock<T>(t: seq<T>, w: nat, n: nat)
    requires n > 0 && |t| == Times(n, w)
    ensures |t| >= w && Blocks(t, w, n)[0] == t[..w]
  {
  }

  lemma SecondBlock<T>(t: seq<T>, a: nat, d: nat, n: nat)
    requires n > 1 && a > 0 && |t| == Times(n, a + 2 * d)
    ensures a < |Deinterleave(t, a, d, n).q| && Deinterleave(t, a, d, n).q[a] == t[a + 2 * d]
  {
    var w := a + 2 * d;
    var bs := Blocks(t, w, n);
    var qs := Qs(bs, a, d);
    assert bs[1] == Blocks(t[w..], w, n - 1)[0] == t[w..][..w];
    assert qs[0] == bs[0][..a] && qs[1] == bs[1][..a];
    assert qs[1..][0] == qs[1];
    FlattenFront(qs);
    FlattenFront(qs[1..]);
  }

  lemma Regroup(tp: nat, n: nat, d: nat, r: nat)
    ensures tp * (n * d * (r + 2)) == (tp * n * d) * (r + 2)
  {
  }

  lemma GroupRows(groups: nat, d: nat, r: nat)
    ensures groups * (r * d + 2 * d) == (groups * d) * (r + 2)
  {
  }

  lemma Outgrows(m: nat, rest: nat, d: nat, d2: nat)
    requires rest > 0 && d > 0 && m * d2 == (m + rest) * d
    ensures d2 > d
  {
    assert (m + rest) * d == m * d + rest * d;
    MulAtLeast(d, rest);
    Multiply(m, d2, d);
  }

  /** If the ranks do not divide the heads and the merge goes through all the same, it cuts
      larger groups than there are. */
  lemma LargerGroups(groups: nat, d: nat, r: nat, tp: nat, d2: nat)
    requires tp > 0 && groups % tp != 0 && d > 0
    requires tp * ((groups / tp) * d2 * (r + 2)) == groups * (r * d + 2 * d)
    ensures d2 > d
  {
    var n := groups / tp;
    Regroup(tp, n, d2, r);
    GroupRows(groups, d, r);
    Cancel(tp * n * d2, groups * d, r + 2);
    Outgrows(tp * n, groups % tp, d, d2);
  }

  lemma Cancel(x: nat, y: nat, z: nat)
    requires z > 0 && x * z == y * z
    ensures x == y
  {
    assert z * (x - y) == x * z - y * z == 0;
    Small(z, x - y, 0);
  }

  /** When the ranks do not divide the heads, the merge of the row slices of the rows
      0, 1, 2, ... is refused or puts a row in the wrong place. */
  lemma WrongTp(heads: nat, groups: nat, d: nat, tp: nat)
    requires groups > 0 && heads % groups == 0 && heads > 0 && d > 0 && tp > 0 && groups % tp != 0
    requires Times(groups, heads / groups * d + 2 * d) % tp == 0
    ensures var t := Iota(Times(groups, heads / groups * d + 2 * d));
      Merge(RowSlices(t, tp), heads, groups) != Split(t, heads, groups)
  {
    hide Deinterleave, Split, MergeShards, SplitShard;
    var r, n := heads / groups, groups / tp;
    var t := Iota(Times(groups, r * d + 2 * d));
    var ts := RowSlices(t, tp);
    SlicesFlatten(t, tp);
    SplitBlocks(t, heads, groups, d);
    if Merge(ts, heads, groups).Ok? {
      assert r > 0 by { MulAtLeast(groups, r); }
      var d2 := MergedWith(ts, heads, groups, r, n);
      NotSame(t, groups, d, r, tp, n, d2);
    }
  }

  lemma OneShardOk<T>(ts: seq<seq<T>>, n: nat, kv: nat, r: nat)
    requires ts != [] && MergeShards(ts, n, kv, r).Ok?
    ensures SplitShard(ts[0], n, kv, r).Ok?
  {
    if |ts| > 1 { OneShardOk(ts[..|ts| - 1], n, kv, r); }
  }

  ghost predicate MergedAs<T>(ts: seq<seq<T>>, res: Result<Qkv<T>, Fault>, m: nat, r: nat, d: nat) {
    |Flatten(ts)| == Times(m, r * d + 2 * d) && res == Ok(Deinterleave(Flatten(ts), r * d, d, m))
  }

  lemma WholeShards<T>(ts: seq<seq<T>>, n: nat, d: nat, r: nat)
    requires n > 0 && AllOf(ts, (n * d) * (r + 2))
    ensures MergedAs(ts, MergeShards(ts, n, n * d, r), Times(|ts|, n), r, d)
  {
    hide MergeShards, Deinterleave;
    RowsExact(n, d, r);
    MergeWhole(ts, n, d, r);
  }

  lemma ShardsMerge<T>(ts: seq<seq<T>>, n: nat, kv: nat, r: nat) returns (d: nat)
    requires ts != [] && AllOf(ts, kv * (r + 2)) && n > 0 && MergeShards(ts, n, kv, r).Ok?
    ensures MergedAs(ts, MergeShards(ts, n, kv, r), Times(|ts|, n), r, d)
  {
    hide MergeShards, SplitShard, MergedAs, Times;
    OneShardOk(ts, n, kv, r);
    if kv % n != 0 { ShardRefused(ts[0], n, kv, r); }
    d := kv / n;
    assert n * d == kv;
    WholeShards(ts, n, d, r);
  }

  lemma NoGroups<T>(ts: seq<seq<T>>, kv: nat, r: nat)
    requires ts != []
    ensures MergeShards(ts, 0, kv, r).Error?
  {
    if |ts| > 1 { NoGroups(ts[..|ts| - 1], kv, r); }
  }

  lemma MergedWith<T>(ts: seq<seq<T>>, heads: nat, groups: nat, r: nat, n: nat) returns (d: nat)
    requires groups > 0 && heads % groups == 0 && r == heads / groups && ts != [] && n == groups / |ts|
    requires AllOf(ts, |ts[0]|) && Merge(ts, heads, groups).Ok?
    ensures n > 0 && MergedAs(ts, Merge(ts, heads, groups), Times(|ts|, n), r, d)
  {
    hide MergeShards, MergedAs, Times;
    var kv := |ts[0]| / (r + 2);
    assert |ts[0]| == kv * (r + 2);
    if n == 0 { NoGroups(ts, kv, r); }
    d := ShardsMerge(ts, n, kv, r);
  }

  lemma SameRows(groups: nat, d: nat, r: nat, tp: nat, n: nat, d2: nat)
    requires Times(groups, r * d + 2 * d) == Times(Times(tp, n), r * d2 + 2 * d2)
    ensures tp * (n * d2 * (r + 2)) == groups * (r * d + 2 * d)
  {
    hide Times;
    Nested(tp, n, r * d2 + 2 * d2);
    TimesIs(n, r * d2 + 2 * d2);
    assert n * (r * d2 + 2 * d2) == n * d2 * (r + 2);
    TimesIs(groups, r * d + 2 * d);
  }

  lemma MoreQueries(r: nat, d: nat, d2: nat)
    requires r > 0 && 0 < d < d2
    ensures 0 < r * d < r * d2
  {
    MulAtLeast(d, r);
    Multiply(r, d + 1, d2);
    assert r * (d + 1) == r * d + r;
  }

  lemma SizesDiffer(groups: nat, d: nat, r: nat, tp: nat, n: nat, d2: nat)
    requires tp > 0 && n == groups / tp > 0 && groups % tp != 0 && d > 0 && r > 0
    requires Times(groups, r * d + 2 * d) == Times(Times(tp, n), r * d2 + 2 * d2)
    ensures groups > 1 && Times(tp, n) > 0 && 0 < r * d < r * d2
  {
    hide Times;
    SameRows(groups, d, r, tp, n, d2);
    LargerGroups(groups, d, r, tp, d2);
    MoreQueries(r, d, d2);
    TimesIs(tp, n);
    MulAtLeast(tp, n);
    assert tp > 1;
  }

  lemma BlocksDiffer(t: seq<int>, a: nat, d: nat, n: nat, a2: nat, d2: nat, m: nat)
    requires |t| == Times(n, a + 2 * d) == Times(m, a2 + 2 * d2) && t == Iota(|t|)
    requires n > 1 && m > 0 && 0 < a < a2 && d > 0
    ensures Deinterleave(t, a2, d2, m) != Deinterleave(t, a, d, n)
  {
    hide Deinterleave;
    FirstBlock(t, a2, d2, m);
    SecondBlock(t, a, d, n);
  }

  lemma NotSame(t: seq<int>, groups: nat, d: nat, r: nat, tp: nat, n: nat, d2: nat)
    requires tp > 0 && n == groups / tp > 0 && groups % tp != 0 && d > 0 && r > 0
    requires |t| == Times(groups, r * d + 2 * d) == Times(Times(tp, n), r * d2 + 2 * d2) && t == Iota(|t|)
    ensures Deinterleave(t, r * d2, d2, Times(tp, n)) != Deinterleave(t, r * d, d, groups)
  {
    hide Deinterleave, Times;
    SizesDiffer(groups, d, r, tp, n, d2);
    BlocksDiffer(t, r * d, d, groups, r * d2, d2, Times(tp, n));
  }

  /** The legacy merger, on row slices of a fused tensor with at least one query head per group,
      gives for every tensor what splitting the whole tensor gives exactly when the number of
      ranks divides the number of key/value heads. It does not check that. */
  lemma MergeIff(heads: nat, groups: nat, d: nat, tp: nat)
    requires groups > 0 && heads % groups == 0 && heads > 0 && d > 0 && tp > 0
    requires Times(groups, heads / groups * d + 2 * d) % tp == 0
    ensures groups % tp == 0 <==>
            forall t: seq<int> :: |t| == Times(groups, heads / groups * d + 2 * d) ==>
              Merge(RowSlices(t, tp), heads, groups) == Split(t, heads, groups)
  {
    hide Merge, Split, RowSlices;
    if groups % tp == 0 {
      forall t: seq<int> | |t| == Times(groups, heads / groups * d + 2 * d)
        ensures Merge(RowSlices(t, tp), heads, groups) == Split(t, heads, groups)
      {
        AnyTp(t, heads, groups, d, tp);
      }
    } else {
      WrongTp(heads, groups, d, tp);
      assert |Iota(Times(groups, heads / groups * d + 2 * d))| == Times(groups, heads / groups * d + 2 * d);
    }
  }

  // ---------------------------------------------------------------- gate/up

  datatype Halves<T> = Halves(gate: seq<T>, up: seq<T>)

  /** `gate, up = t.chunk(2)`. */
  function Halve<T>(t: seq<T>): Result<Halves<T>, Fault> {
    var c := Chunk(t, 2);
    if |c| != 2 then Error(BadChunks) else Ok(Halves(c[0], c[1]))
  }

  function MergeHalves<T>(ts: seq<seq<T>>): Result<Halves<T>, Fault> {
    if ts == [] then Ok(Halves([], []))
    else
      match MergeHalves(ts[..|ts| - 1])
      case Error(f) => Error(f)
      case Ok(x) =>
        match Halve(ts[|ts| - 1])
        case Error(f) => Error(f)
        case Ok(y) => Ok(Halves(x.gate + y.gate, x.up + y.up))
  }

  method MergeGateUp<T>(ts: seq<seq<T>>) returns (res: Result<Halves<T>, Fault>)
    ensures res == MergeHalves(ts)
  {
    hide Halve;
    var x := Halves([], []);
    for i := 0 to |ts|
      invariant MergeHalves(ts[..i]) == Ok(x)
    {
      var y := Halve(ts[i]);
      assert ts[..i + 1][..i] == ts[..i];
      if y.Error? {
        HalvesFail(ts, i + 1);
        return Error(y.error);
      }
      x := Halves(x.gate + y.value.gate, x.up + y.value.up);
    }
    assert ts[..|ts|] == ts;
    res := Ok(x);
  }

  lemma {:induction false} HalvesFail<T>(ts: seq<seq<T>>, i: nat)
    requires i <= |ts| && MergeHalves(ts[..i]).Error?
    ensures MergeHalves(ts) == MergeHalves(ts[..i])
  {
    if i == |ts| {
      assert ts[..i] == ts;
    } else {
      assert ts[..|ts| - 1][..i] == ts[..i];
      HalvesFail(ts[..|ts| - 1], i);
    }
  }

  lemma HalveOf<T>(gate: seq<T>, up: seq<T>)
    requires |gate| == |up|
    ensures Halve(gate + up) == Ok(Halves(gate, up))
  {
    var t, f := gate + up, |gate|;
    if f > 0 {
      assert |t| == 2 * f;
      assert Pieces(t, f) == [gate] + Pieces(up, f) by { assert t[..f] == gate && t[f..] == up; }
    }
  }

  /** Ranks that hold matching parts of gate and up merge to the whole gate and the whole up. */
  lemma {:induction false} RankParts<T>(gates: seq<seq<T>>, ups: seq<seq<T>>, ts: seq<seq<T>>)
    requires |gates| == |ups| == |ts|
    requires forall i :: 0 <= i < |ts| ==> |gates[i]| == |ups[i]| && ts[i] == gates[i] + ups[i]
    ensures MergeHalves(ts) == Ok(Halves(Flatten(gates), Flatten(ups)))
  {
    hide Halve;
    if ts != [] {
      var m := |ts| - 1;
      RankParts(gates[..m], ups[..m], ts[..m]);
      HalveOf(gates[m], ups[m]);
      assert gates == gates[..m] + [gates[m]] && ups == ups[..m] + [ups[m]];
      FlattenConcat(gates[..m], [gates[m]]);
      FlattenConcat(ups[..m], [ups[m]]);
      FlattenOne(gates[m]);
      FlattenOne(ups[m]);
    }
  }

  lemma {:induction false} GatePrefix<T>(ts: seq<seq<T>>)
    requires |ts| >= 2 && MergeHalves(ts).Ok?
    ensures Halve(ts[0]).Ok? && Halve(ts[1]).Ok?
    ensures Halve(ts[0]).value.gate + Halve(ts[1]).value.gate <= MergeHalves(ts).value.gate
  {
    hide Halve;
    if |ts| > 2 {
      GatePrefix(ts[..|ts| - 1]);
    } else {
      var one := ts[..1];
      assert one[..0] == [] && one[0] == ts[0];
      assert MergeHalves(one[..0]) == Ok(Halves([], []));
      assert MergeHalves(one).value.gate == [] + Halve(ts[0]).value.gate == Halve(ts[0]).value.gate;
    }
  }

  lemma HalvedSizes<T>(t: seq<T>)
    requires |t| > 0 && Halve(t).Ok?
    ensures |t| > 1 && |Halve(t).value.gate| == (|t| + 1) / 2 && Halve(t).value.gate == t[..(|t| + 1) / 2]
  {
  }

  lemma NaiveWrong(f: nat, tp: nat)
    requires f > 0 && tp > 1 && (2 * f) % tp == 0
    ensures var t := Iota(2 * f);
      MergeHalves(RowSlices(t, tp)) != Ok(Halves(t[..f], t[f..]))
  {
    hide Halve, MergeHalves;
    var t := Iota(2 * f);
    var l, ts := 2 * f / tp, RowSlices(t, tp);
    SlicesFlatten(t, tp);
    assert 2 * f == tp * l;
    Multiply(l, 2, tp);
    assert l > 0;
    if MergeHalves(ts).Ok? {
      GatePrefix(ts);
      FirstSlices(t, tp, l);
      HalvedSizes(ts[0]);
      HalvedSizes(ts[1]);
      var h := (l + 1) / 2;
      var gates := Halve(ts[0]).value.gate + Halve(ts[1]).value.gate;
      assert gates[h] == ts[1][0] == t[l] == l;
      assert MergeHalves(ts).value.gate[h] == gates[h];
      assert h < f && t[..f][h] == h;
    }
  }

  lemma FirstSlices<T>(t: seq<T>, tp: nat, l: nat)
    requires tp > 1 && |t| % tp == 0 && l == |t| / tp
    ensures |t| >= 2 * l && RowSlices(t, tp)[0] == t[..l] && RowSlices(t, tp)[1] == t[l..2 * l]
  {
    TimesIs(tp, l);
    TwoBlocks(t, l, tp);
  }

  lemma TwoBlocks<T>(t: seq<T>, w: nat, n: nat)
    requires n > 1 && |t| == Times(n, w)
    ensures |t| >= 2 * w && Blocks(t, w, n)[0] == t[..w] && Blocks(t, w, n)[1] == t[w..2 * w]
  {
    assert Blocks(t, w, n)[1] == Blocks(t[w..], w, n - 1)[0] == t[w..][..w];
  }

  /** Plain row slices of the stacked tensor merge back for every content only when there is a
      single rank: several ranks must each hold their part of the gate above their part of the
      up rows. */
  lemma NaiveSlicesIff(f: nat, tp: nat)
    requires f > 0 && tp > 0 && (2 * f) % tp == 0
    ensures tp == 1 <==>
            forall gate: seq<int>, up: seq<int> :: |gate| == f && |up| == f ==>
              MergeHalves(RowSlices(gate + up, tp)) == Ok(Halves(gate, up))
  {
    hide Halve, MergeHalves;
    if tp == 1 {
      forall gate: seq<int>, up: seq<int> | |gate| == f && |up| == f
        ensures MergeHalves(RowSlices(gate + up, tp)) == Ok(Halves(gate, up))
      {
        OneSlice(gate + up);
        RankParts([gate], [up], [gate + up]);
        FlattenOne(gate);
        FlattenOne(up);
      }
    } else {
      var t := Iota(2 * f);
      NaiveWrong(f, tp);
      assert t[..f] + t[f..] == t;
    }
  }

  lemma OneSlice<T>(t: seq<T>)
    ensures RowSlices(t, 1) == [t]
  {
    SlicesFlatten(t, 1);
    assert RowSlices(t, 1) == [RowSlices(t, 1)[0]];
    FlattenOne(RowSlices(t, 1)[0]);
  }
}
