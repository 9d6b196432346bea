/**
  The Kimi checkpoint engine: each trainer rank groups its share of the tensor stream
  into buckets, and every rollout rank receives all buckets round robin through the two
  halves of one array.
*/
module Kimi {

  import opened Arithmetic
  import opened Packing
  import opened Sequences
  import opened Wrappers

  // ---------------------------------------------------------------- the rank's share

  /** The tensors of the stream whose position is `rank` modulo `world`. */
  function Share<T>(stream: seq<T>, world: nat, rank: nat): seq<T>
    requires world > 0
  {
    if stream == [] then []
    else
      var n := |stream| - 1;
      Share(stream[..n], world, rank) + if n % world == rank then [stream[n]] else []
  }

  function ShareLength(n: nat, world: nat, rank: nat): nat
    requires rank < world
  {
    if n > rank then (n - rank - 1) / world + 1 else 0
  }

  lemma ShareLengthStep(n: nat, world: nat, rank: nat)
    requires rank < world
    ensures ShareLength(n + 1, world, rank) ==
      ShareLength(n, world, rank) + if n % world == rank then 1 else 0
    ensures n % world == rank ==> ShareLength(n, world, rank) * world + rank == n
  {
    if n >= rank {
      var d := n - rank;
      SameTurn(n, world, rank);
      if d % world == 0 { OnTurn(d, world); } else { OffTurn(d, world); }
    } else {
      SmallMod(n, world);
    }
  }

  lemma SameTurn(n: nat, world: nat, rank: nat)
    requires rank < world && rank <= n
    ensures n % world == rank <==> (n - rank) % world == 0
  {
    var d := n - rank;
    if n % world == rank { DivUnique(d, world, n / world, 0); }
    if d % world == 0 { DivUnique(n, world, d / world, rank); }
  }

  lemma OnTurn(d: nat, world: nat)
    requires world > 0 && d % world == 0
    ensures d / world * world == d
    ensures d > 0 ==> (d - 1) / world + 1 == d / world
  {
    var q := d / world;
    assert d == world * q;
    if d > 0 {
      assert q > 0;
      assert world * (q - 1) == d - world;
      DivUnique(d - 1, world, q - 1, world - 1);
    }
  }

  lemma OffTurn(d: nat, world: nat)
    requires world > 0 && d % world != 0
    ensures d > 0 && (d - 1) / world == d / world
  {
    DivUnique(d - 1, world, d / world, d % world - 1);
  }

  lemma SmallMod(n: nat, world: nat)
    requires n < world
    ensures n % world == n
  {}

  /** Rank r's share is exactly the stream's positions r, r + world, r + 2 world, ...: so the
      shares of all ranks partition the stream. */
  lemma {:induction false} ShareAt<T>(stream: seq<T>, world: nat, rank: nat)
    requires rank < world
    ensures |Share(stream, world, rank)| == ShareLength(|stream|, world, rank)
    ensures forall k :: 0 <= k < |Share(stream, world, rank)| ==>
      0 <= k * world + rank < |stream| && Share(stream, world, rank)[k] == stream[k * world + rank]
  {
    if stream != [] {
      var n := |stream| - 1;
      var init, s := stream[..n], Share(stream, world, rank);
      ShareAt(init, world, rank);
      ShareLengthStep(n, world, rank);
      forall k | 0 <= k < |s|
        ensures 0 <= k * world + rank < |stream| && s[k] == stream[k * world + rank]
      {
        if k < |Share(init, world, rank)| { assert s[k] == init[k * world + rank]; }
      }
    }
  }

  // ---------------------------------------------------------------- grouping

  /** Greedy grouping: an empty bucket takes any tensor, so an oversized one is alone. */
  function Group(ws: seq<Weight>, limit: int): Packed {
    if ws == [] then Packed([], [])
    else
      var p, w := Group(ws[..|ws| - 1], limit), ws[|ws| - 1];
      if |Image(p.cur)| + |w.data| > limit && p.cur != []
      then Packed(p.full + [p.cur], [w])
      else Packed(p.full, p.cur + [w])
  }

  function Groups(ws: seq<Weight>, limit: int): seq<seq<Weight>> {
    var p := Group(ws, limit);
    p.full + if p.cur == [] then [] else [p.cur]
  }

  ghost predicate FitsOrAlone(b: seq<Weight>, limit: int) {
    b != [] && (|Image(b)| <= limit || |b| == 1)
  }

  lemma Append(done: seq<Weight>, cur: seq<Weight>, w: Weight)
    ensures done + (cur + [w]) == (done + cur) + [w]
  {}

  lemma {:induction false} OpenBucket(ws: seq<Weight>, limit: int)
    ensures Group(ws, limit).cur == [] <==> ws == []
  {
    hide Image;
  }

  lemma NothingGrouped(limit: int)
    ensures Flatten(Group([], limit).full) + Group([], limit).cur == []
  {}

  lemma {:induction false} GroupsFlat(ws: seq<Weight>, limit: int)
    ensures Flatten(Group(ws, limit).full) + Group(ws, limit).cur == ws
  {
    hide Flatten, Image, Group;
    if ws == [] {
      NothingGrouped(limit);
    } else {
      var init, w := ws[..|ws| - 1], ws[|ws| - 1];
      GroupsFlat(init, limit);
      assert ws == init + [w];
      GroupSnoc(init, limit, w);
      var p := Group(init, limit);
      FlattenSnoc(p.full, p.cur);
      Append(Flatten(p.full), p.cur, w);
    }
  }

  lemma {:induction false} GroupsFit(ws: seq<Weight>, limit: int)
    ensures forall k :: 0 <= k < |Group(ws, limit).full| ==> FitsOrAlone(Group(ws, limit).full[k], limit)
    ensures Group(ws, limit).cur != [] ==> FitsOrAlone(Group(ws, limit).cur, limit)
  {
    if ws != [] {
      var init, w := ws[..|ws| - 1], ws[|ws| - 1];
      GroupsFit(init, limit);
      ImageSnoc(Group(init, limit).cur, w);
      hide Image;
    }
  }

  /** Grouping loses and reorders nothing; every bucket is non-empty and fits or is a single tensor. */
  lemma GroupsOk(ws: seq<Weight>, limit: int)
    ensures Flatten(Groups(ws, limit)) == ws
    ensures forall k :: 0 <= k < |Groups(ws, limit)| ==> FitsOrAlone(Groups(ws, limit)[k], limit)
  {
    GroupsFlat(ws, limit);
    OpenBucket(ws, limit);
    GroupsFit(ws, limit);
    var q, gs := Group(ws, limit), Groups(ws, limit);
    hide FitsOrAlone, Group;
    assert gs[..|q.full|] == q.full;
    if q.cur != [] { assert gs == q.full + [q.cur]; } else { assert gs == q.full; assert Flatten(gs) == ws; }
  }

  // ---------------------------------------------------------------- the generator

  /** Python's `current_bucket[name] = tensor` on an insertion-ordered dict. */
  function PutTensor(d: seq<Weight>, w: Weight): seq<Weight> {
    if d == [] then [w]
    else if d[0].name == w.name then [w] + d[1..]
    else [d[0]] + PutTensor(d[1..], w)
  }

  lemma {:induction false} PutFresh(d: seq<Weight>, w: Weight)
    requires forall j :: 0 <= j < |d| ==> d[j].name != w.name
    ensures PutTensor(d, w) == d + [w]
  {
    if d != [] {
      assert forall j :: 0 <= j < |d| - 1 ==> d[1..][j] == d[j + 1];
      PutFresh(d[1..], w);
    }
  }

  lemma {:induction false} PutLength(d: seq<Weight>, w: Weight)
    ensures |PutTensor(d, w)| == if exists j :: 0 <= j < |d| && d[j].name == w.name then |d| else |d| + 1
  {
    if d != [] {
      PutLength(d[1..], w);
      if j :| 0 <= j < |d| && d[j].name == w.name && j > 0 { assert d[1..][j - 1] == d[j]; }
      if j :| 0 <= j < |d[1..]| && d[1..][j].name == w.name { assert d[j + 1] == d[1..][j]; }
    }
  }

  lemma {:induction false} PutTensorReplaces(d: seq<Weight>, w: Weight) returns (k: nat)
    requires exists j :: 0 <= j < |d| && d[j].name == w.name
    ensures k < |d| && d[k].name == w.name && (forall i :: 0 <= i < k ==> d[i].name != w.name)
    ensures PutTensor(d, w) == d[k := w]
  {
    if d[0].name == w.name {
      k := 0;
    } else {
      var j :| 0 <= j < |d| && d[j].name == w.name;
      assert d[1..][j - 1] == d[j];
      var n := PutTensorReplaces(d[1..], w);
      k := n + 1;
      assert forall i :: 1 <= i < k ==> d[i] == d[1..][i - 1];
    }
  }

  /** Of a name that occurs several times the dict has the last tensor. */
  lemma {:induction false} LastTensorWins(ws: seq<Weight>, j: nat)
    requires j < |ws| && forall i :: j < i < |ws| ==> ws[i].name != ws[j].name
    ensures ws[j] in DictOf(ws)
  {
    var n := |ws| - 1;
    var d := DictOf(ws[..n]);
    if j < n { LastTensorWins(ws[..n], j); }
    if exists i :: 0 <= i < |d| && d[i].name == ws[n].name {
      var k := PutTensorReplaces(d, ws[n]);
      assert d[k := ws[n]][k] == ws[n];
      if j < n {
        var i :| 0 <= i < |d| && d[i] == ws[j];
        assert d[k := ws[n]][i] == ws[j];
      }
    } else {
      PutFresh(d, ws[n]);
    }
  }

  /** The dict a group of tensors ends up in: the last tensor of every name, at the place of
      the first. */
  function DictOf(ws: seq<Weight>): seq<Weight> {
    if ws == [] then [] else PutTensor(DictOf(ws[..|ws| - 1]), ws[|ws| - 1])
  }

  lemma {:induction false} DictOfDistinct(ws: seq<Weight>)
    requires DistinctNames(ws)
    ensures DictOf(ws) == ws
  {
    if ws != [] {
      var init, w := ws[..|ws| - 1], ws[|ws| - 1];
      DictOfDistinct(init);
      PutFresh(init, w);
      assert init + [w] == ws;
    }
  }

  lemma {:induction false} DictOfLength(ws: seq<Weight>)
    ensures |DictOf(ws)| <= |ws| && (|DictOf(ws)| == |ws| <==> DistinctNames(ws))
    ensures ws != [] ==> DictOf(ws) != []
  {
    if ws != [] {
      var init, w := ws[..|ws| - 1], ws[|ws| - 1];
      DictOfLength(init);
      PutLength(DictOf(init), w);
      if DistinctNames(init) {
        DictOfDistinct(init);
        if exists j :: 0 <= j < |init| && init[j].name == w.name {
          var j :| 0 <= j < |init| && init[j].name == w.name;
          assert ws[j].name == ws[|ws| - 1].name;
        }
      } else {
        var i, j :| 0 <= i < j < |init| && init[i].name == init[j].name;
        assert ws[i].name == ws[j].name;
      }
    }
  }

  lemma {:induction false} ImageFront(x: Weight, d: seq<Weight>)
    ensures |Image([x] + d)| == |x.data| + |Image(d)|
  {
    var all := [x] + d;
    if d == [] {
      assert all[..0] == [];
    } else {
      assert all[..|all| - 1] == [x] + d[..|d| - 1];
      ImageFront(x, d[..|d| - 1]);
    }
  }

  lemma {:induction false} PutImage(d: seq<Weight>, w: Weight)
    ensures |Image(PutTensor(d, w))| <= |Image(d)| + |w.data|
  {
    if d == [] {
      ImageFront(w, []);
      assert [w] + [] == [w];
    } else {
      assert d == [d[0]] + d[1..];
      ImageFront(d[0], d[1..]);
      ImageFront(w, d[1..]);
      PutImage(d[1..], w);
      ImageFront(d[0], PutTensor(d[1..], w));
    }
  }

  lemma {:induction false} DictOfImage(ws: seq<Weight>)
    ensures |Image(DictOf(ws))| <= |Image(ws)|
  {
    if ws != [] {
      DictOfImage(ws[..|ws| - 1]);
      PutImage(DictOf(ws[..|ws| - 1]), ws[|ws| - 1]);
      assert ws == ws[..|ws| - 1] + [ws[|ws| - 1]];
      ImageSnoc(ws[..|ws| - 1], ws[|ws| - 1]);
    }
  }

  function Dicts(gs: seq<seq<Weight>>): (ds: seq<seq<Weight>>)
    ensures |ds| == |gs| && forall k :: 0 <= k < |gs| ==> ds[k] == DictOf(gs[k])
  {
    seq(|gs|, k requires 0 <= k < |gs| => DictOf(gs[k]))
  }

  lemma DictsSnoc(gs: seq<seq<Weight>>, g: seq<Weight>)
    ensures Dicts(gs + [g]) == Dicts(gs) + [DictOf(g)]
  {
  }

  lemma {:induction false} DictsLength(gs: seq<seq<Weight>>)
    ensures |Flatten(Dicts(gs))| <= |Flatten(gs)|
    ensures |Flatten(Dicts(gs))| == |Flatten(gs)| ==> forall k :: 0 <= k < |gs| ==> DistinctNames(gs[k])
  {
    if gs != [] {
      var init, g := gs[..|gs| - 1], gs[|gs| - 1];
      DictsLength(init);
      DictOfLength(g);
      assert gs == init + [g];
      DictsSnoc(init, g);
      FlattenSnoc(Dicts(init), DictOf(g));
    }
  }

  /** The buckets hold all the tensors of the groups exactly when no group has a name twice. */
  lemma DictsIff(gs: seq<seq<Weight>>)
    ensures Flatten(Dicts(gs)) == Flatten(gs) <==> forall k :: 0 <= k < |gs| ==> DistinctNames(gs[k])
  {
    DictsLength(gs);
    if forall k :: 0 <= k < |gs| ==> DistinctNames(gs[k]) {
      forall k | 0 <= k < |gs| ensures Dicts(gs)[k] == gs[k] { DictOfDistinct(gs[k]); }
      assert Dicts(gs) == gs;
    }
  }

  lemma DictsFit(gs: seq<seq<Weight>>, limit: int)
    requires forall k :: 0 <= k < |gs| ==> FitsOrAlone(gs[k], limit)
    ensures forall k :: 0 <= k < |gs| ==> FitsOrAlone(Dicts(gs)[k], limit)
  {
    forall k | 0 <= k < |gs| ensures FitsOrAlone(Dicts(gs)[k], limit) {
      DictOfLength(gs[k]);
      DictOfImage(gs[k]);
    }
  }

  lemma GroupsIs(ws: seq<Weight>, limit: int)
    ensures var p := Group(ws, limit);
      Groups(ws, limit) == p.full + if p.cur == [] then [] else [p.cur]
  {}

  lemma GroupSnoc(ws: seq<Weight>, limit: int, w: Weight)
    ensures var p := Group(ws, limit);
      Group(ws + [w], limit) ==
        if |Image(p.cur)| + |w.data| > limit && p.cur != []
        then Packed(p.full + [p.cur], [w]) else Packed(p.full, p.cur + [w])
  {
    assert (ws + [w])[..|ws|] == ws;
  }

  lemma ShareSnoc<T>(stream: seq<T>, world: nat, rank: nat, i: nat)
    requires world > 0 && i < |stream|
    ensures var s := Share(stream[..i], world, rank);
      Share(stream[..i + 1], world, rank) == if i % world == rank then s + [stream[i]] else s
  {
    assert stream[..i + 1][..i] == stream[..i];
  }

  lemma {:induction false} DistinctShare(stream: seq<Weight>, world: nat, rank: nat, limit: int)
    requires rank < world && DistinctNames(stream)
    ensures forall k :: 0 <= k < |Groups(Share(stream, world, rank), limit)| ==>
              DistinctNames(Groups(Share(stream, world, rank), limit)[k])
  {
    var s := Share(stream, world, rank);
    ShareAt(stream, world, rank);
    forall i, j | 0 <= i < j < |s| ensures s[i].name != s[j].name { Multiply(world, i + 1, j); }
    GroupsOk(s, limit);
    PartsDistinct(Groups(s, limit));
  }

  lemma {:induction false} PartsDistinct(gs: seq<seq<Weight>>)
    requires DistinctNames(Flatten(gs))
    ensures forall k :: 0 <= k < |gs| ==> DistinctNames(gs[k])
  {
    if gs != [] {
      var init, g := gs[..|gs| - 1], gs[|gs| - 1];
      var f := Flatten(init);
      assert Flatten(gs) == f + g;
      assert forall i :: 0 <= i < |f| ==> Flatten(gs)[i] == f[i];
      assert forall i :: 0 <= i < |g| ==> Flatten(gs)[|f| + i] == g[i];
      PartsDistinct(init);
    }
  }

  /** The generator's loop: rank `rank` of `world` yields its share of the stream in greedy
      groups, each as a dict; together they are the share exactly when no group holds a name
      twice, which distinct names in the stream ensure. A non-positive limit is refused. */
  method GetNamedTensorBuckets(stream: seq<Weight>, bucketBytes: int, world: nat, rank: nat)
    returns (r: Result<seq<seq<Weight>>, string>)
    requires rank < world
    ensures r.Error? <==> bucketBytes <= 0
    ensures r.Ok? ==> r.value == Dicts(Groups(Share(stream, world, rank), bucketBytes))
    ensures r.Ok? ==>
      (Flatten(r.value) == Share(stream, world, rank) <==>
       forall k :: 0 <= k < |r.value| ==> DistinctNames(Groups(Share(stream, world, rank), bucketBytes)[k]))
    ensures r.Ok? && DistinctNames(stream) ==> Flatten(r.value) == Share(stream, world, rank)
    ensures r.Ok? ==> forall k :: 0 <= k < |r.value| ==> FitsOrAlone(r.value[k], bucketBytes)
  {
    hide Image, Share, PutTensor, Group, Flatten, FitsOrAlone, DistinctNames, Groups, Dicts, DictOf;
    if bucketBytes <= 0 { return Error("bucket_bytes must be greater than 0"); }
    var yielded: seq<seq<Weight>>, bucket: seq<Weight>, size: nat := [], [], 0;
    ghost var p := Packed([], []);
    NothingYet(stream, world, rank, bucketBytes);
    for i := 0 to |stream|
      invariant Group(Share(stream[..i], world, rank), bucketBytes) == p
      invariant yielded == Dicts(p.full) && bucket == DictOf(p.cur) && size == |Image(p.cur)|
    {
      var w := stream[i];
      ShareSnoc(stream, world, rank, i);
      if i % world == rank {
        GroupStep(Share(stream[..i], world, rank), bucketBytes, w);
        p := Group(Share(stream[..i], world, rank) + [w], bucketBytes);
        var tensorSize := |w.data|;
        if size + tensorSize > bucketBytes {
          if bucket != [] {
            yielded := yielded + [bucket];
            bucket, size := [], 0;
          }
        }
        bucket := PutTensor(bucket, w);
        size := size + tensorSize;
      }
    }
    assert stream[..|stream|] == stream;
    Finished(stream, bucketBytes, world, rank, p);
    r := Ok(yielded + if bucket == [] then [] else [bucket]);
  }

  lemma NothingYet(stream: seq<Weight>, world: nat, rank: nat, limit: int)
    requires rank < world
    ensures Group(Share(stream[..0], world, rank), limit) == Packed([], [])
    ensures Dicts([]) == [] && DictOf([]) == [] && |Image([])| == 0
  {
  }

  /** One more tensor of the share: the open bucket is closed first if it would overflow. */
  lemma GroupStep(ws: seq<Weight>, limit: int, w: Weight)
    ensures var p, q := Group(ws, limit), Group(ws + [w], limit);
      if |Image(p.cur)| + |w.data| > limit && DictOf(p.cur) != []
      then
        && Dicts(q.full) == Dicts(p.full) + [DictOf(p.cur)]
        && DictOf(q.cur) == PutTensor([], w) && |Image(q.cur)| == |w.data|
      else
        && q.full == p.full
        && DictOf(q.cur) == PutTensor(DictOf(p.cur), w) && |Image(q.cur)| == |Image(p.cur)| + |w.data|
  {
    hide Group, Image;
    var p := Group(ws, limit);
    GroupSnoc(ws, limit, w);
    DictOfLength(p.cur);
    DictsSnoc(p.full, p.cur);
    ImageSnoc(p.cur, w);
    ImageSnoc([], w);
    EmptyBucket();
    assert (p.cur + [w])[..|p.cur|] == p.cur;
    assert [w][..0] == [] && [] + [w] == [w];
  }

  lemma Finished(stream: seq<Weight>, limit: int, world: nat, rank: nat, p: Packed)
    requires rank < world && p == Group(Share(stream, world, rank), limit)
    ensures var gs := Groups(Share(stream, world, rank), limit);
      && Dicts(gs) == Dicts(p.full) + (if DictOf(p.cur) == [] then [] else [DictOf(p.cur)])
      && (Flatten(Dicts(gs)) == Share(stream, world, rank) <==> forall k :: 0 <= k < |gs| ==> DistinctNames(gs[k]))
      && (DistinctNames(stream) ==> Flatten(Dicts(gs)) == Share(stream, world, rank))
      && forall k :: 0 <= k < |gs| ==> FitsOrAlone(Dicts(gs)[k], limit)
  {
    hide Share, Group, Flatten, FitsOrAlone, DistinctNames;
    var gs := Groups(Share(stream, world, rank), limit);
    GroupsOk(Share(stream, world, rank), limit);
    DictsFit(gs, limit);
    DictsIff(gs);
    if DistinctNames(stream) { DistinctShare(stream, world, rank, limit); }
    GroupsIs(Share(stream, world, rank), limit);
    DictOfLength(p.cur);
    DictsSnoc(p.full, p.cur);
    assert p.full + [] == p.full;
  }
}
