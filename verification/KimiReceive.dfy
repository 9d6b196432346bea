/**
  The receiving side of the Kimi engine: buckets of all receiver ranks are broadcast
  round robin, alternately through the two halves of one array; each bucket is yielded
  while the next one is under way.

  As in the NCCL model a broadcast is split into its start, after which the bytes of its
  half are arbitrary, and its completion.
*/
module KimiReceive {

  import opened Packing
  import opened Sequences
  import opened Wrappers

  /** One bucket as planned: which rank broadcasts it, which rank owns it. */
  datatype Planned = Planned(receiver: nat, owner: nat, bucket: seq<Weight>)

  // ---------------------------------------------------------------- broadcast order

  /** The buckets a rank broadcasts, in planning order. */
  function Of(plan: seq<Planned>, rank: nat): seq<seq<Weight>> {
    if plan == [] then []
    else
      var n := |plan| - 1;
      Of(plan[..n], rank) + if plan[n].receiver == rank then [plan[n].bucket] else []
  }

  /** The broadcasting ranks, in order of first appearance. */
  function Ranks(plan: seq<Planned>): seq<nat> {
    if plan == [] then []
    else
      var n := |plan| - 1;
      var rs := Ranks(plan[..n]);
      if plan[n].receiver in rs then rs else rs + [plan[n].receiver]
  }

  function MaxLen(plan: seq<Planned>): nat {
    if plan == [] then 0
    else
      var n := |plan| - 1;
      var m, l := MaxLen(plan[..n]), |Of(plan, plan[n].receiver)|;
      if l > m then l else m
  }

  type Id = (nat, nat) // rank, position among the rank's buckets

  /** Round i of the double loop, up to the q-th rank. */
  function Round(plan: seq<Planned>, i: nat, q: nat): seq<Id>
    requires q <= |Ranks(plan)|
  {
    if q == 0 then []
    else
      var r := Ranks(plan)[q - 1];
      Round(plan, i, q - 1) + if i < |Of(plan, r)| then [(r, i)] else []
  }

  function Rounds(plan: seq<Planned>, n: nat): seq<Id> {
    if n == 0 then [] else Rounds(plan, n - 1) + Round(plan, n - 1, |Ranks(plan)|)
  }

  /** All broadcasts, in order. It does not depend on which rank computes it. */
  function Order(plan: seq<Planned>): seq<Id> { Rounds(plan, MaxLen(plan)) }

  predicate Known(plan: seq<Planned>, ids: seq<Id>) {
    forall k :: 0 <= k < |ids| ==> ids[k].1 < |Of(plan, ids[k].0)|
  }

  function Pick(plan: seq<Planned>, ids: seq<Id>): (bs: seq<seq<Weight>>)
    requires Known(plan, ids)
    ensures |bs| == |ids| && forall k :: 0 <= k < |ids| ==> bs[k] == Of(plan, ids[k].0)[ids[k].1]
  {
    seq(|ids|, k requires 0 <= k < |ids| => Of(plan, ids[k].0)[ids[k].1])
  }

  lemma {:induction false} RoundIs(plan: seq<Planned>, i: nat, q: nat)
    requires q <= |Ranks(plan)|
    ensures forall id :: id in Round(plan, i, q) <==>
      id.1 == i && i < |Of(plan, id.0)| && id.0 in Ranks(plan)[..q]
    ensures Known(plan, Round(plan, i, q))
  {
    if q > 0 {
      RoundIs(plan, i, q - 1);
      assert Ranks(plan)[..q] == Ranks(plan)[..q - 1] + [Ranks(plan)[q - 1]];
    }
  }

  lemma {:induction false} RoundsAre(plan: seq<Planned>, n: nat)
    ensures forall id :: id in Rounds(plan, n) <==> id.1 < n && id.1 < |Of(plan, id.0)| && id.0 in Ranks(plan)
    ensures Known(plan, Rounds(plan, n))
  {
    hide Of, Ranks, Round;
    if n > 0 {
      RoundsAre(plan, n - 1);
      RoundIs(plan, n - 1, |Ranks(plan)|);
      assert Ranks(plan)[..|Ranks(plan)|] == Ranks(plan);
      var a, b := Rounds(plan, n - 1), Round(plan, n - 1, |Ranks(plan)|);
      forall id: Id | true
        ensures id in a + b <==> id.1 < n && id.1 < |Of(plan, id.0)| && id.0 in Ranks(plan)
      {
        assert id in a + b <==> id in a || id in b;
      }
    }
  }

  ghost predicate Distinct<T>(s: seq<T>) {
    forall i, j :: 0 <= i < j < |s| ==> s[i] != s[j]
  }

  lemma {:induction false} RanksDistinct(plan: seq<Planned>)
    ensures Distinct(Ranks(plan))
    ensures forall r :: r in Ranks(plan) <==> Of(plan, r) != []
  {
    if plan != [] { RanksDistinct(plan[..|plan| - 1]); }
  }

  lemma {:induction false} MaxLenBounds(plan: seq<Planned>, r: nat)
    ensures |Of(plan, r)| <= MaxLen(plan)
  {
    if plan != [] { MaxLenBounds(plan[..|plan| - 1], r); }
  }

  lemma DistinctAppend<T>(a: seq<T>, b: seq<T>)
    requires Distinct(a) && Distinct(b) && forall x :: x in a ==> x !in b
    ensures Distinct(a + b)
  {
    var s := a + b;
    forall i, j | 0 <= i < j < |s| ensures s[i] != s[j] {
      if i < |a| <= j { assert s[i] in a && s[j] == b[j - |a|]; }
    }
  }

  lemma {:induction false} RoundDistinct(plan: seq<Planned>, i: nat, q: nat)
    requires q <= |Ranks(plan)|
    ensures Distinct(Round(plan, i, q))
  {
    if q > 0 {
      RoundDistinct(plan, i, q - 1);
      RoundIs(plan, i, q - 1);
      RanksDistinct(plan);
      var r := Ranks(plan)[q - 1];
      assert r !in Ranks(plan)[..q - 1];
      DistinctAppend(Round(plan, i, q - 1), if i < |Of(plan, r)| then [(r, i)] else []);
    }
  }

  lemma {:induction false} RoundsDistinct(plan: seq<Planned>, n: nat)
    ensures Distinct(Rounds(plan, n))
  {
    hide Of, Ranks, Round, Distinct;
    if n > 0 {
      RoundsDistinct(plan, n - 1);
      RoundsAre(plan, n - 1);
      RoundIs(plan, n - 1, |Ranks(plan)|);
      RoundDistinct(plan, n - 1, |Ranks(plan)|);
      DistinctAppend(Rounds(plan, n - 1), Round(plan, n - 1, |Ranks(plan)|));
    } else {
      NothingDistinct<Id>();
    }
  }

  lemma NothingDistinct<T>()
    ensures Distinct<T>([])
  {}

  /** Every planned bucket of every rank is broadcast exactly once. */
  lemma OrderExactlyOnce(plan: seq<Planned>)
    ensures Known(plan, Order(plan)) && Distinct(Order(plan))
    ensures forall id :: id in Order(plan) <==> id.1 < |Of(plan, id.0)|
  {
    RoundsAre(plan, MaxLen(plan));
    RoundsDistinct(plan, MaxLen(plan));
    RanksDistinct(plan);
    forall id: Id | id.1 < |Of(plan, id.0)| ensures id in Order(plan) {
      MaxLenBounds(plan, id.0);
    }
  }

  /** Broadcast x comes before broadcast y: in an earlier round, or in the same one from a rank that
      appears earlier. */
  ghost predicate Before(ranks: seq<nat>, x: Id, y: Id) {
    x.1 < y.1 || (x.1 == y.1 && exists a, b :: 0 <= a < b < |ranks| && ranks[a] == x.0 && ranks[b] == y.0)
  }

  ghost predicate Ordered(ranks: seq<nat>, ids: seq<Id>) {
    forall k, l :: 0 <= k < l < |ids| ==> Before(ranks, ids[k], ids[l])
  }

  lemma OrderedAppend(ranks: seq<nat>, xs: seq<Id>, ys: seq<Id>)
    requires Ordered(ranks, xs) && Ordered(ranks, ys)
    requires forall x, y :: x in xs && y in ys ==> Before(ranks, x, y)
    ensures Ordered(ranks, xs + ys)
  {
    hide Before;
    var s := xs + ys;
    forall k, l | 0 <= k < l < |s| ensures Before(ranks, s[k], s[l]) {
      if k < |xs| <= l {
        assert s[k] in xs && s[l] in ys;
      } else if l < |xs| {
        assert s[k] == xs[k] && s[l] == xs[l];
      } else {
        assert s[k] == ys[k - |xs|] && s[l] == ys[l - |xs|];
      }
    }
  }

  lemma {:induction false} RoundOrdered(plan: seq<Planned>, i: nat, q: nat)
    requires q <= |Ranks(plan)|
    ensures Ordered(Ranks(plan), Round(plan, i, q))
  {
    hide Of, Ranks;
    if q > 0 {
      RoundOrdered(plan, i, q - 1);
      RoundIs(plan, i, q - 1);
      var ranks := Ranks(plan);
      var last := if i < |Of(plan, ranks[q - 1])| then [(ranks[q - 1], i)] else [];
      forall x, y | x in Round(plan, i, q - 1) && y in last ensures Before(ranks, x, y) {
        var a :| 0 <= a < q - 1 && ranks[..q - 1][a] == x.0;
        assert ranks[a] == x.0;
      }
      OrderedAppend(ranks, Round(plan, i, q - 1), last);
    }
  }

  lemma {:induction false} RoundsOrdered(plan: seq<Planned>, n: nat)
    ensures Ordered(Ranks(plan), Rounds(plan, n))
  {
    hide Of, Ranks, Round;
    if n > 0 {
      RoundsOrdered(plan, n - 1);
      RoundsAre(plan, n - 1);
      RoundIs(plan, n - 1, |Ranks(plan)|);
      RoundOrdered(plan, n - 1, |Ranks(plan)|);
      OrderedAppend(Ranks(plan), Rounds(plan, n - 1), Round(plan, n - 1, |Ranks(plan)|));
    }
  }

  /** The broadcasts are round robin: bucket i of any rank comes before bucket j of any rank for
      i < j, and within a round the ranks keep the order of their first appearance. */
  lemma OrderRoundRobin(plan: seq<Planned>)
    ensures Ordered(Ranks(plan), Order(plan))
  {
    RoundsOrdered(plan, MaxLen(plan));
  }

  // ---------------------------------------------------------------- one bucket in the array

  type Items = seq<(string, nat)> // names and sizes; offsets are not part of the plan

  function ItemsOf(ws: seq<Weight>): Items {
    seq(|ws|, j requires 0 <= j < |ws| => (ws[j].name, |ws[j].data|))
  }

  function Total(items: Items): nat {
    if items == [] then 0 else Total(items[..|items| - 1]) + items[|items| - 1].1
  }

  /** Offsets accumulate from a base (alignment is not modelled). */
  function Named(items: Items, base: nat): seq<TensorMeta> {
    if items == [] then []
    else
      var n := |items| - 1;
      Named(items[..n], base) + [TensorMeta(items[n].0, items[n].1, base + Total(items[..n]))]
  }

  lemma {:induction false} TotalIs(ws: seq<Weight>)
    ensures Total(ItemsOf(ws)) == |Image(ws)|
  {
    if ws != [] {
      TotalIs(ws[..|ws| - 1]);
      assert ItemsOf(ws)[..|ws| - 1] == ItemsOf(ws[..|ws| - 1]);
    }
  }

  lemma {:induction false} NamedAt(ws: seq<Weight>, base: nat)
    ensures |Named(ItemsOf(ws), base)| == |ws|
    ensures forall j :: 0 <= j < |ws| ==>
      Named(ItemsOf(ws), base)[j] == TensorMeta(ws[j].name, |ws[j].data|, base + |Image(ws[..j])|)
  {
    if ws != [] {
      hide Image, Total;
      var n := |ws| - 1;
      NamedAt(ws[..n], base);
      TotalIs(ws[..n]);
      assert ItemsOf(ws)[..n] == ItemsOf(ws[..n]);
      forall j | 0 <= j < |ws|
        ensures Named(ItemsOf(ws), base)[j] == TensorMeta(ws[j].name, |ws[j].data|, base + |Image(ws[..j])|)
      {
        if j < n { assert ws[..n][j] == ws[j] && ws[..n][..j] == ws[..j]; }
      }
    }
  }

  lemma SliceOfSlice(buf: seq<byte>, base: nat, m: nat, lo: nat, n: nat)
    requires base + m <= |buf| && lo + n <= m
    ensures buf[base + lo..base + lo + n] == buf[base..base + m][lo..lo + n]
  {
    var a, b := buf[base + lo..base + lo + n], buf[base..base + m][lo..lo + n];
    forall x | 0 <= x < n ensures a[x] == b[x] {
      assert b[x] == buf[base..base + m][lo + x];
    }
  }

  lemma ReadHeld(buf: seq<byte>, ws: seq<Weight>, base: nat, j: nat)
    requires HoldsAt(buf, base, ws) && j < |ws|
    ensures var m := TensorMeta(ws[j].name, |ws[j].data|, base + |Image(ws[..j])|);
      m.offset + m.size <= |buf| && Read(buf, m) == ws[j]
  {
    hide Image;
    ImageAt(ws, j);
    SliceOfSlice(buf, base, |Image(ws)|, |Image(ws[..j])|, |ws[j].data|);
  }

  /** A region that holds a bucket reads back as the bucket. */
  lemma NamedReads(buf: seq<byte>, ws: seq<Weight>, base: nat)
    requires HoldsAt(buf, base, ws)
    ensures InBounds(Named(ItemsOf(ws), base), |buf|)
    ensures ReadAll(buf, Named(ItemsOf(ws), base)) == ws
  {
    hide Image, Named, Total, HoldsAt, ItemsOf, Read, ReadAll;
    NamedAt(ws, base);
    var ms := Named(ItemsOf(ws), base);
    forall j | 0 <= j < |ms| ensures ms[j].offset + ms[j].size <= |buf| && Read(buf, ms[j]) == ws[j] {
      ReadHeld(buf, ws, base, j);
    }
  }

  /** Does the half starting at `base` hold this bucket? */
  ghost predicate HoldsAt(buf: seq<byte>, base: nat, ws: seq<Weight>) {
    base + |Image(ws)| <= |buf| && buf[base..base + |Image(ws)|] == Image(ws)
  }

  /** From here to the completion the bytes of the broadcast's region are arbitrary. */
  method Begin(buf: array<byte>, start: nat, size: nat)
    requires start + size <= buf.Length
    modifies buf
    ensures forall x :: 0 <= x < buf.Length && !(start <= x < start + size) ==> buf[x] == old(buf[x])
  {
  }

  method Complete(buf: array<byte>, start: nat, img: seq<byte>)
    requires start + |img| <= buf.Length
    modifies buf
    ensures buf[start..start + |img|] == img
    ensures forall x :: 0 <= x < buf.Length && !(start <= x < start + |img|) ==> buf[x] == old(buf[x])
  {
    forall x | 0 <= x < |img| { buf[start + x] := img[x]; }
  }

  method CopyInto(dst: array<byte>, start: nat, src: array<byte>, size: nat)
    requires dst != src && start + size <= dst.Length && size <= src.Length
    modifies dst
    ensures dst[start..start + size] == src[..size]
    ensures forall x :: 0 <= x < dst.Length && !(start <= x < start + size) ==> dst[x] == old(dst[x])
  {
    forall x | 0 <= x < size { dst[start + x] := src[x]; }
  }

  method YieldItems(buf: array<byte>, metas: seq<TensorMeta>) returns (ws: seq<Weight>)
    requires InBounds(metas, buf.Length)
    ensures ws == ReadAll(buf[..], metas)
  {
    ws := [];
    ghost var all := ReadAll(buf[..], metas);
    for j := 0 to |metas|
      invariant ws == all[..j]
    {
      var m := metas[j];
      assert Read(buf[..], m) == Weight(m.name, buf[m.offset..m.offset + m.size]);
      ws := ws + [Weight(m.name, buf[m.offset..m.offset + m.size])];
    }
  }

  // ---------------------------------------------------------------- the loops

  lemma OfSnoc(plan: seq<Planned>, k: nat, r: nat)
    requires k < |plan|
    ensures Of(plan[..k + 1], r) == if plan[k].receiver == r then Of(plan[..k], r) + [plan[k].bucket] else Of(plan[..k], r)
  {
    assert plan[..k + 1][..k] == plan[..k];
  }

  /** The dictionary of the planned buckets by receiving rank. */
  ghost predicate ByRank(plan: seq<Planned>, byRank: map<nat, seq<seq<Weight>>>) {
    forall r: nat :: (r in byRank <==> r in Ranks(plan)) && (r in byRank ==> byRank[r] == Of(plan, r))
  }

  lemma ByRankAt(plan: seq<Planned>, byRank: map<nat, seq<seq<Weight>>>, r: nat)
    requires ByRank(plan, byRank) && r in Ranks(plan)
    ensures r in byRank && byRank[r] == Of(plan, r)
  {}

  /** The planning loops: buckets by rank, ranks in order, the longest list. */
  method Plan(plan: seq<Planned>) returns (byRank: map<nat, seq<seq<Weight>>>, ranks: seq<nat>, maxLen: nat)
    ensures ranks == Ranks(plan) && maxLen == MaxLen(plan)
    ensures ByRank(plan, byRank)
  {
    hide Of, Ranks, MaxLen;
    byRank, ranks, maxLen := map[], [], 0;
    NothingPlanned();
    for k := 0 to |plan|
      invariant ranks == Ranks(plan[..k]) && maxLen == MaxLen(plan[..k])
      invariant forall r: nat :: r in byRank <==> r in ranks
      invariant forall r: nat :: (if r in byRank then byRank[r] else []) == Of(plan[..k], r)
    {
      var (r, b) := (plan[k].receiver, plan[k].bucket);
      PlanSnoc(plan, k);
      if r !in byRank {
        byRank := byRank[r := []];
        ranks := ranks + [r];
      }
      byRank := byRank[r := byRank[r] + [b]];
      if |byRank[r]| > maxLen {
        maxLen := |byRank[r]|;
      }
    }
    assert plan[..|plan|] == plan;
  }

  lemma NothingPlanned()
    ensures Ranks([]) == [] && MaxLen([]) == 0 && forall r: nat :: Of([], r) == []
  {
  }

  /** What one more planned bucket adds. */
  lemma PlanSnoc(plan: seq<Planned>, k: nat)
    requires k < |plan|
    ensures var r, ranks := plan[k].receiver, Ranks(plan[..k]);
      && Ranks(plan[..k + 1]) == (if r in ranks then ranks else ranks + [r])
      && MaxLen(plan[..k + 1]) ==
           (if |Of(plan[..k], r)| + 1 > MaxLen(plan[..k]) then |Of(plan[..k], r)| + 1 else MaxLen(plan[..k]))
      && forall x: nat :: Of(plan[..k + 1], x) ==
           if x == r then Of(plan[..k], x) + [plan[k].bucket] else Of(plan[..k], x)
  {
    assert plan[..k + 1][..k] == plan[..k];
    forall x: nat
      ensures Of(plan[..k + 1], x) == if x == plan[k].receiver then Of(plan[..k], x) + [plan[k].bucket] else Of(plan[..k], x)
    {
      OfSnoc(plan, k, x);
    }
  }

  method OwnBuckets(plan: seq<Planned>, self: nat) returns (own: seq<seq<Weight>>)
    ensures own == Of(plan, self)
  {
    own := [];
    for k := 0 to |plan|
      invariant own == Of(plan[..k], self)
    {
      OfSnoc(plan, k, self);
      if plan[k].receiver == self {
        own := own + [plan[k].bucket];
      }
    }
    assert plan[..|plan|] == plan;
  }

  /** What holds after the broadcasts of buckets `bs`: all but the newest are yielded, and
      the newest sits in its half of the array. */
  ghost predicate Streaming(bs: seq<seq<Weight>>, metadata: Items, buf: seq<byte>, size: nat, out: seq<Weight>) {
    && |buf| == 2 * size
    && if bs == [] then out == []
       else
         && var newest := bs[|bs| - 1];
         metadata == ItemsOf(newest) && HoldsAt(buf, (|bs| - 1) % 2 * size, newest) && |Image(newest)| <= size
         && out == Flatten(bs[..|bs| - 1])
  }

  lemma PickSnoc(plan: seq<Planned>, ids: seq<Id>, id: Id)
    requires Known(plan, ids) && id.1 < |Of(plan, id.0)|
    ensures Known(plan, ids + [id]) && Pick(plan, ids + [id]) == Pick(plan, ids) + [Of(plan, id.0)[id.1]]
  {
    hide Of;
    assert forall k :: 0 <= k < |ids| ==> (ids + [id])[k] == ids[k];
  }

  /** The newest bucket can be yielded although the other half is being overwritten. */
  method YieldNewest(ghost bs: seq<seq<Weight>>, ghost before: seq<byte>, gidx: nat, metadata: Items,
                     buf: array<byte>, size: nat, ghost n: nat, out: seq<Weight>)
    returns (out': seq<Weight>)
    requires gidx == |bs| && Streaming(bs, metadata, before, size, out) && buf.Length == 2 * size && n <= size
    requires forall x :: 0 <= x < buf.Length && !(gidx % 2 * size <= x < gidx % 2 * size + n) ==> buf[x] == before[x]
    ensures out' == Flatten(bs)
  {
    hide Image, Named, ReadAll, Flatten;
    if gidx == 0 {
      FlattenNone<Weight>();
      return out;
    }
    ghost var newest := bs[gidx - 1];
    var base := (gidx - 1) % 2 * size;
    OtherHalf(before, buf[..], gidx, size, n, newest);
    NamedReads(buf[..], newest, base);
    var ws := YieldItems(buf, Named(metadata, base));
    out' := out + ws;
    FlattenSnoc(bs[..gidx - 1], newest);
    assert bs[..gidx - 1] + [newest] == bs;
  }

  /** One broadcast with the previous bucket's yields in between. */
  method BroadcastOne(ghost bs: seq<seq<Weight>>, bucket: seq<Weight>, gidx: nat, metadata: Items,
                      buf: array<byte>, h2d: array<byte>, size: nat, mine: bool, out: seq<Weight>)
    returns (metadata': Items, out': seq<Weight>)
    requires gidx == |bs| && Streaming(bs, metadata, buf[..], size, out) && buf != h2d
    requires |Image(bucket)| <= size == h2d.Length
    requires mine ==> h2d[..|Image(bucket)|] == Image(bucket)
    modifies buf
    ensures Streaming(bs + [bucket], metadata', buf[..], size, out')
  {
    hide Image, Flatten, HoldsAt;
    Halves(gidx + 1, size);
    var start, img := gidx % 2 * size, Image(bucket);
    ghost var before := buf[..];
    if mine {
      CopyInto(buf, start, h2d, |img|);
      assert buf[start..start + |img|] == img; // what this rank broadcasts is its bucket
    }
    Begin(buf, start, |img|);
    out' := YieldNewest(bs, before, gidx, metadata, buf, size, |img|, out);
    Complete(buf, start, img);
    metadata' := ItemsOf(bucket);
    HoldsNow(buf[..], start, bucket);
    assert (bs + [bucket])[..gidx] == bs;
  }

  lemma HoldsNow(buf: seq<byte>, start: nat, bucket: seq<Weight>)
    requires start + |Image(bucket)| <= |buf| && buf[start..start + |Image(bucket)|] == Image(bucket)
    ensures HoldsAt(buf, start, bucket)
  {}

  lemma FlattenNone<T>()
    ensures Flatten<T>([]) == []
  {}

  lemma Halves(gidx: nat, size: nat)
    requires gidx > 0
    ensures gidx % 2 == 0 ==> gidx % 2 * size == 0 && (gidx - 1) % 2 * size == size
    ensures gidx % 2 == 1 ==> gidx % 2 * size == size && (gidx - 1) % 2 * size == 0
  {
    assert (gidx - 1) % 2 == 1 - gidx % 2;
  }

  /** Writing the half of broadcast `gidx` leaves the half of the one before alone. */
  lemma OtherHalf(was: seq<byte>, now: seq<byte>, gidx: nat, size: nat, n: nat, b: seq<Weight>)
    requires gidx > 0 && |was| == |now| == 2 * size && n <= size
    requires HoldsAt(was, (gidx - 1) % 2 * size, b) && |Image(b)| <= size
    requires forall x :: 0 <= x < |was| && !(gidx % 2 * size <= x < gidx % 2 * size + n) ==> now[x] == was[x]
    ensures HoldsAt(now, (gidx - 1) % 2 * size, b)
  {
    hide Image;
    Halves(gidx, size);
    SameRegion(was, now, (gidx - 1) % 2 * size, gidx % 2 * size, n, |Image(b)|);
  }

  lemma SameRegion(was: seq<byte>, now: seq<byte>, base: nat, start: nat, n: nat, m: nat)
    requires |was| == |now| && base + m <= |was| && (base + m <= start || start + n <= base)
    requires forall x :: 0 <= x < |was| && !(start <= x < start + n) ==> now[x] == was[x]
    ensures now[base..base + m] == was[base..base + m]
  {}

  /** One round of the double loop: the i-th bucket of every rank that has one. */
  method ReceiveRound(plan: seq<Planned>, byRank: map<nat, seq<seq<Weight>>>, ranks: seq<nat>,
                      own: seq<seq<Weight>>, self: nat, i: nat, ghost done: seq<Id>, metadata0: Items,
                      buffer: array<byte>, h2d: array<byte>, size: nat, gidx0: nat, out0: seq<Weight>)
    returns (metadata: Items, gidx: nat, out: seq<Weight>)
    requires ranks == Ranks(plan) && own == Of(plan, self) && buffer != h2d && h2d.Length == size
    requires ByRank(plan, byRank) && Fitting(plan, size)
    requires Known(plan, done) && gidx0 == |done| && Streaming(Pick(plan, done), metadata0, buffer[..], size, out0)
    modifies buffer, h2d
    ensures var ids := done + Round(plan, i, |Ranks(plan)|);
      Known(plan, ids) && gidx == |ids| && Streaming(Pick(plan, ids), metadata, buffer[..], size, out)
  {
    hide Image, Of, Ranks, Streaming, Flatten, Known, Pick, MaxLen, ByRank, Fitting, Staged, Round, IdsTo;
    metadata, gidx, out := metadata0, gidx0, out0;
    if i < |own| {
      OfFits(plan, self, i, size);
      Complete(h2d, 0, Image(own[i]));
    }
    StagedNow(own, i, h2d[..]);
    ghost var ids, bs := done, Pick(plan, done);
    NoneOfRound(plan, done, i);
    for q := 0 to |ranks|
      invariant ids == IdsTo(plan, done, i, q) && Known(plan, ids) && bs == Pick(plan, ids) && gidx == |bs|
      invariant Streaming(bs, metadata, buffer[..], size, out)
      invariant Staged(own, i, h2d[..])
    {
      var rank := ranks[q];
      RoundStep(plan, done, i, q);
      ByRankAt(plan, byRank, rank);
      if i < |byRank[rank]| {
        OfFits(plan, rank, i, size);
        PickSnoc(plan, ids, (rank, i));
        if rank == self { StagedNow(own, i, h2d[..]); }
        metadata, out := BroadcastOne(bs, byRank[rank][i], gidx, metadata, buffer, h2d, size, rank == self, out);
        gidx := gidx + 1;
        ids, bs := ids + [(rank, i)], bs + [byRank[rank][i]];
      }
    }
    AllOfRound(plan, done, i);
  }

  /** The buckets broadcast when rank number q of round i has its turn. */
  ghost function IdsTo(plan: seq<Planned>, done: seq<Id>, i: nat, q: nat): seq<Id>
    requires q <= |Ranks(plan)|
  {
    done + Round(plan, i, q)
  }

  lemma NoneOfRound(plan: seq<Planned>, done: seq<Id>, i: nat)
    ensures IdsTo(plan, done, i, 0) == done
  {}

  lemma AllOfRound(plan: seq<Planned>, done: seq<Id>, i: nat)
    ensures IdsTo(plan, done, i, |Ranks(plan)|) == done + Round(plan, i, |Ranks(plan)|)
  {}

  /** Every planned bucket fits in half of the buffer. */
  predicate Fitting(plan: seq<Planned>, size: nat) {
    forall k :: 0 <= k < |plan| ==> |Image(plan[k].bucket)| <= size
  }

  /** The rank's own bucket of the round, if it has one, is in the staging buffer. */
  ghost predicate Staged(own: seq<seq<Weight>>, i: nat, h2d: seq<byte>) {
    i < |own| ==> |Image(own[i])| <= |h2d| && h2d[..|Image(own[i])|] == Image(own[i])
  }

  lemma StagedNow(own: seq<seq<Weight>>, i: nat, h2d: seq<byte>)
    ensures Staged(own, i, h2d) <==>
            (i < |own| ==> |Image(own[i])| <= |h2d| && h2d[..|Image(own[i])|] == Image(own[i]))
  {}

  /** Receives every planned bucket, whichever rank broadcasts it, and yields their tensors
      in broadcast order. With no bucket at all the last loop reads an unset variable (None). */
  method ReceiveTensor(plan: seq<Planned>, self: nat, size: nat) returns (r: Option<seq<Weight>>)
    requires Fitting(plan, size)
    ensures r.None? <==> plan == []
    ensures r.Some? ==> Known(plan, Order(plan)) && r.value == Flatten(Pick(plan, Order(plan)))
  {
    hide Image, Of, Ranks, MaxLen, Streaming, Flatten, Round, Known, ByRank, Fitting;
    var own := OwnBuckets(plan, self);
    var byRank, ranks, maxLen := Plan(plan);
    var buffer, h2d := new byte[2 * size](_ => 0), new byte[size](_ => 0);
    var gidx: nat, metadata: Items, out: seq<Weight> := 0, [], [];
    BeginStreaming(buffer[..], size);
    NothingKnown(plan);
    for i := 0 to maxLen
      invariant Known(plan, Rounds(plan, i)) && gidx == |Rounds(plan, i)|
      invariant Streaming(Pick(plan, Rounds(plan, i)), metadata, buffer[..], size, out)
    {
      metadata, gidx, out :=
        ReceiveRound(plan, byRank, ranks, own, self, i, Rounds(plan, i), metadata, buffer, h2d, size, gidx, out);
    }
    NoneIffEmpty(plan);
    if gidx == 0 { return None; }
    out := YieldNewest(Pick(plan, Order(plan)), buffer[..], gidx, metadata, buffer, size, 0, out);
    r := Some(out);
  }

  lemma NothingKnown(plan: seq<Planned>)
    ensures Known(plan, []) && Pick(plan, []) == []
  {}

  lemma BeginStreaming(buf: seq<byte>, size: nat)
    requires |buf| == 2 * size
    ensures Streaming([], [], buf, size, [])
  {}

  lemma RoundStep(plan: seq<Planned>, done: seq<Id>, i: nat, q: nat)
    requires q < |Ranks(plan)|
    ensures var r := Ranks(plan)[q];
      IdsTo(plan, done, i, q + 1) ==
        if i < |Of(plan, r)| then IdsTo(plan, done, i, q) + [(r, i)] else IdsTo(plan, done, i, q)
  {
    hide Of, Ranks;
  }

  lemma {:induction false} OfFits(plan: seq<Planned>, r: nat, i: nat, size: nat)
    requires i < |Of(plan, r)| && Fitting(plan, size)
    ensures |Image(Of(plan, r)[i])| <= size
  {
    hide Image;
    var n := |plan| - 1;
    if i < |Of(plan[..n], r)| {
      assert forall k :: 0 <= k < n ==> plan[..n][k] == plan[k];
      OfFits(plan[..n], r, i, size);
    }
  }

  lemma NoneIffEmpty(plan: seq<Planned>)
    ensures Order(plan) == [] <==> plan == []
  {
    OrderExactlyOnce(plan);
    if plan != [] {
      var r := plan[|plan| - 1].receiver;
      assert (r, 0) in Order(plan);
    }
  }
}
