/**
  Reading fused tensors back: the splitter of the distributed merger works on a whole tensor,
  the legacy merger on the shards of all tensor-parallel ranks. Merging shards gives what
  splitting the whole tensor gives exactly when the ranks divide the key/value heads.
*/
module TensorMerge {

  import opened Arithmetic
  import opened QkvLayout
  import opened RowBlocks
  import opened Sequences
  import opened Wrappers

  datatype Fault = NoHeads | HeadsNotGrouped | RowsNotDivisible | NoShards | BadChunks

  // ---------------------------------------------------------------- torch.chunk

  function Pieces<T>(t: seq<T>, c: nat): seq<seq<T>>
    requires c > 0
  {
    if |t| == 0 then [] else if |t| <= c then [t] else [t[..c]] + Pieces(t[c..], c)
  }

  /** `t.chunk(n)`: pieces of the rounded-up size, the last one shorter, perhaps fewer than n. */
  function Chunk<T>(t: seq<T>, n: nat): seq<seq<T>>
    requires n > 0
  {
    if |t| == 0 then seq(n, _ => []) else ChunkSize(|t|, n); Pieces(t, CeilDiv(|t|, n))
  }

  lemma ChunkSize(x: nat, n: nat)
    requires n > 0 && x > 0
    ensures 0 < CeilDiv(x, n) <= x && CeilDiv(x, n) * n >= x
  {
    var c := (x + n - 1) / n;
    assert x + n - 1 == n * c + (x + n - 1) % n;
    Multiply(n, x + 1, c);
    assert n * (x + 1) == n * x + n;
    MulAtLeast(x, n);
  }

  lemma {:induction false} PiecesAreBlocks<T>(t: seq<T>, c: nat, m: nat)
    requires c > 0 && |t| == Times(m, c)
    ensures Pieces(t, c) == Blocks(t, c, m)
    decreases m
  {
    if m == 1 {
      assert t[..c] == t;
      assert Blocks(t, c, 1) == [t] + [];
    } else if m > 1 {
      PiecesAreBlocks(t[c..], c, m - 1);
    }
  }

  lemma ChunkIsBlocks<T>(t: seq<T>, n: nat, w: nat)
    requires n > 0 && |t| == Times(n, w)
    ensures Chunk(t, n) == Blocks(t, w, n)
  {
    TimesIs(n, w);
    if w > 0 {
      MulAtLeast(w, n);
      ExactDiv(n, w);
      PiecesAreBlocks(t, w, n);
    } else {
      assert forall i :: 0 <= i < n ==> Blocks(t, w, n)[i] == [];
    }
  }

  // ---------------------------------------------------------------- one shard

  /** The rows a group has of q, and of each of k and v, as the mergers compute them. */
  function QRows(kv: nat, r: nat, n: nat): nat
    requires n > 0
  {
    kv * r / n
  }

  function KRows(kv: nat, n: nat): nat
    requires n > 0
  {
    kv / n
  }

  /** Cut a shard with kv key rows and r query rows for each into its n groups. */
  ghost function SplitShard<T>(t: seq<T>, n: nat, kv: nat, r: nat): Result<Qkv<T>, Fault> {
    if n == 0 || !AllOf(Chunk(t, n), QRows(kv, r, n) + 2 * KRows(kv, n)) then Error(BadChunks)
    else Ok(CutAll(Chunk(t, n), QRows(kv, r, n), KRows(kv, n)))
  }

  method CutShard<T>(t: seq<T>, n: nat, kv: nat, r: nat) returns (res: Result<Qkv<T>, Fault>)
    ensures res == SplitShard(t, n, kv, r)
  {
    if n == 0 { return Error(BadChunks); }
    hide Chunk, Cut, QRows, KRows;
    var chunks, a, d := Chunk(t, n), QRows(kv, r, n), KRows(kv, n);
    var x := Qkv([], [], []);
    for i := 0 to |chunks|
      invariant AllOf(chunks[..i], a + 2 * d) && x == CutAll(chunks[..i], a, d)
    {
      if |chunks[i]| != a + 2 * d { return Error(BadChunks); }
      CutAllConcat(chunks[..i], [chunks[i]], a, d);
      CutAllOne(chunks[i], a, d);
      assert chunks[..i + 1] == chunks[..i] + [chunks[i]];
      CutIs(chunks[i], a, d);
      x := Qkv(x.q + chunks[i][..a], x.k + chunks[i][a..a + d], x.v + chunks[i][a + d..]);
    }
    assert chunks[..|chunks|] == chunks;
    res := Ok(x);
  }

  lemma CutIs<T>(t: seq<T>, a: nat, d: nat)
    requires |t| == a + 2 * d
    ensures Cut(t, a, d) == Qkv(t[..a], t[a..a + d], t[a + d..])
  {
  }

  lemma Associative(n: nat, d: nat, r: nat)
    ensures (n * d) * r == n * (r * d)
  {
  }

  lemma RowsExact(n: nat, d: nat, r: nat)
    requires n > 0
    ensures KRows(n * d, n) == d && QRows(n * d, r, n) == r * d
    ensures (n * d) * (r + 2) == Times(n, r * d + 2 * d)
  {
    DivUnique(n * d, n, d, 0);
    Associative(n, d, r);
    DivUnique(n * (r * d), n, r * d, 0);
    TimesIs(n, r * d + 2 * d);
    Associative(n, d, r + 2);
    assert (r + 2) * d == r * d + 2 * d;
  }

  /** A shard of n whole groups is cut into its groups. */
  lemma ShardCut<T>(t: seq<T>, n: nat, d: nat, r: nat)
    requires n > 0 && |t| == Times(n, r * d + 2 * d)
    ensures Chunk(t, n) == Blocks(t, r * d + 2 * d, n)
    ensures SplitShard(t, n, n * d, r) == Ok(CutAll(Blocks(t, r * d + 2 * d, n), r * d, d))
  {
    hide Chunk, Blocks, CutAll, QRows, KRows;
    RowsExact(n, d, r);
    ChunkIsBlocks(t, n, r * d + 2 * d);
  }

  lemma RowsShort(kv: nat, r: nat, n: nat)
    requires n > 0 && kv % n != 0
    ensures n * (QRows(kv, r, n) + 2 * KRows(kv, n)) < kv * (r + 2)
  {
    var p, d := kv * r / n, kv / n;
    assert kv == n * d + kv % n;
    assert kv * r == n * p + kv * r % n;
    assert n * (p + 2 * d) == n * p + 2 * (n * d);
    assert kv * (r + 2) == kv * r + 2 * kv;
  }

  /** A shard that does not hold whole groups is refused. */
  lemma ShardRefused<T>(t: seq<T>, n: nat, kv: nat, r: nat)
    requires n > 0 && |t| == kv * (r + 2) && kv % n != 0
    ensures SplitShard(t, n, kv, r) == Error(BadChunks)
  {
    hide QRows, KRows, CutAll;
    var w := QRows(kv, r, n) + 2 * KRows(kv, n);
    RowsShort(kv, r, n);
    MulAtLeast(kv, r + 2);
    ChunkSize(|t|, n);
    Multiply(n, CeilDiv(|t|, n), w);
    assert |Chunk(t, n)[0]| == CeilDiv(|t|, n) != w;
  }

  // ---------------------------------------------------------------- the whole tensor

  /** `_split_tensors` for a fused query/key/value tensor. */
  ghost function Split<T>(t: seq<T>, heads: nat, groups: nat): Result<Qkv<T>, Fault> {
    if groups == 0 then Error(NoHeads)
    else if heads % groups != 0 then Error(HeadsNotGrouped)
    else if |t| % (heads / groups + 2) != 0 then Error(RowsNotDivisible)
    else SplitShard(t, groups, |t| / (heads / groups + 2), heads / groups)
  }

  /** The tensor holds, for every group, the rows of its r query heads, its key and its value. */
  ghost predicate LaidByHead<T>(t: seq<T>, x: Qkv<T>, r: nat, d: nat, groups: nat) { Laid(t, x, r * d, d, groups) }

  ghost predicate HeadsLaid<T>(t: seq<T>, x: Qkv<T>, heads: nat, groups: nat) {
    groups > 0 && heads % groups == 0 && exists d: nat :: LaidByHead(t, x, heads / groups, d, groups)
  }

  /** On success the tensor is laid out group by group: the query rows of the group's heads, its
      key rows, its value rows. */
  method SplitTensor<T>(t: seq<T>, heads: nat, groups: nat) returns (res: Result<Qkv<T>, Fault>)
    ensures res == Split(t, heads, groups)
    ensures res.Ok? ==> HeadsLaid(t, res.value, heads, groups)
  {
    hide SplitShard, LaidByHead;
    if groups == 0 { return Error(NoHeads); }
    if heads % groups != 0 { return Error(HeadsNotGrouped); }
    var r := heads / groups;
    if |t| % (r + 2) != 0 { return Error(RowsNotDivisible); }
    res := CutShard(t, groups, |t| / (r + 2), r);
    if res.Ok? { var d := SplitLaid(t, heads, groups, r); }
  }

  /** t is what the converter makes of x, with some head size. */
  ghost predicate Packed<T>(t: seq<T>, x: Qkv<T>, r: nat, groups: nat) {
    exists d: nat :: PackedWith(t, x, r, groups, d)
  }

  ghost predicate PackedWith<T>(t: seq<T>, x: Qkv<T>, r: nat, groups: nat, d: nat) {
    Shape(x, r * d, d, groups) && t == Interleave(x, r * d, d, groups)
  }

  /** The splitter on a tensor of whole groups. */
  lemma SplitBlocks<T>(t: seq<T>, heads: nat, groups: nat, d: nat)
    requires groups > 0 && heads % groups == 0
    requires |t| == Times(groups, heads / groups * d + 2 * d)
    ensures Split(t, heads, groups) == Ok(Deinterleave(t, heads / groups * d, d, groups))
  {
    hide Interleave, SplitShard, CutAll, Blocks, QRows, KRows;
    var r := heads / groups;
    RowsExact(groups, d, r);
    DivUnique(|t|, r + 2, groups * d, 0);
    ShardCut(t, groups, d, r);
  }

  lemma PackedSplits<T>(t: seq<T>, x: Qkv<T>, heads: nat, groups: nat, d: nat)
    requires groups > 0 && heads % groups == 0 && PackedWith(t, x, heads / groups, groups, d)
    ensures Split(t, heads, groups) == Ok(x)
  {
    hide Interleave, Deinterleave, Split;
    SplitOfPacked(x, heads / groups * d, d, groups);
    SplitBlocks(t, heads, groups, d);
  }

  lemma WholeGroups<T>(t: seq<T>, heads: nat, groups: nat, r: nat) returns (d: nat)
    requires groups > 0 && heads % groups == 0 && r == heads / groups && Split(t, heads, groups).Ok?
    ensures |t| == Times(groups, r * d + 2 * d)
  {
    hide SplitShard, QRows, KRows, Times;
    var kv := |t| / (r + 2);
    assert |t| == kv * (r + 2);
    if kv % groups != 0 { ShardRefused(t, groups, kv, r); }
    d := kv / groups;
    assert kv == groups * d;
    RowsExact(groups, d, r);
  }

  lemma SplitLaid<T>(t: seq<T>, heads: nat, groups: nat, r: nat) returns (d: nat)
    requires groups > 0 && heads % groups == 0 && r == heads / groups && Split(t, heads, groups).Ok?
    ensures LaidByHead(t, Split(t, heads, groups).value, r, d, groups)
  {
    hide Split, Laid, Deinterleave, Times;
    d := WholeGroups(t, heads, groups, r);
    SplitBlocks(t, heads, groups, d);
    DeinterleaveLaid(t, r * d, d, groups);
  }

  lemma SplitPacks<T>(t: seq<T>, heads: nat, groups: nat, r: nat) returns (x: Qkv<T>)
    requires groups > 0 && heads % groups == 0 && r == heads / groups && Split(t, heads, groups).Ok?
    ensures Packed(t, x, r, groups)
  {
    hide SplitShard, Interleave, Deinterleave, QRows, KRows, Times;
    var d := WholeGroups(t, heads, groups, r);
    x := Deinterleave(t, r * d, d, groups);
    PackOfSplit(t, r * d, d, groups);
    assert PackedWith(t, x, r, groups, d);
  }

  /** The splitter succeeds on exactly the tensors the converter can have written, and gives
      back what the converter was given. */
  lemma SplitIff<T>(t: seq<T>, heads: nat, groups: nat)
    requires groups > 0 && heads % groups == 0
    ensures Split(t, heads, groups).Ok? <==> exists x :: Packed(t, x, heads / groups, groups)
    ensures forall x :: Packed(t, x, heads / groups, groups) ==> Split(t, heads, groups) == Ok(x)
  {
    hide Split, PackedWith;
    var r := heads / groups;
    forall x | Packed(t, x, r, groups) ensures Split(t, heads, groups) == Ok(x) {
      var d: nat :| PackedWith(t, x, r, groups, d);
      PackedSplits(t, x, heads, groups, d);
    }
    if Split(t, heads, groups).Ok? { var x := SplitPacks(t, heads, groups, r); }
  }
}
