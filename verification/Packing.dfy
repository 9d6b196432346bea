/**
  Greedy bucket packing, as the NIXL and NCCL senders both perform it.

  A weight is a name and its bytes; shape and dtype only matter through the byte
  size they give. A bucket's metadata is a Python dict keyed by weight name, so it
  is modelled as an insertion-ordered association list with replacement.
*/
module Packing {

  import opened Sequences

  newtype byte = b: int | 0 <= b < 256

  datatype Weight = Weight(name: string, data: seq<byte>)

  /** `size` stands for `dtype.itemsize * shape.numel()`. */
  datatype TensorMeta = TensorMeta(name: string, size: nat, offset: nat)

  // ---------------------------------------------------------------- buckets

  /** The bytes a bucket's weights occupy, back to back. */
  function Image(ws: seq<Weight>): seq<byte> {
    if ws == [] then [] else Image(ws[..|ws| - 1]) + ws[|ws| - 1].data
  }

  /** `bucket_meta[name] = meta`: replace in place, or append. */
  function Put(d: seq<TensorMeta>, m: TensorMeta): seq<TensorMeta> {
    if d == [] then [m]
    else if d[0].name == m.name then [m] + d[1..]
    else [d[0]] + Put(d[1..], m)
  }

  /** The metadata dict after the weights of one bucket were added in order. */
  function Metas(ws: seq<Weight>): seq<TensorMeta> {
    if ws == [] then []
    else
      var init, w := ws[..|ws| - 1], ws[|ws| - 1];
      Put(Metas(init), TensorMeta(w.name, |w.data|, |Image(init)|))
  }

  predicate InBounds(ms: seq<TensorMeta>, n: nat) {
    forall j :: 0 <= j < |ms| ==> ms[j].offset + ms[j].size <= n
  }

  /** What a receiver reads for one metadata entry. */
  function Read(buf: seq<byte>, m: TensorMeta): Weight
    requires m.offset + m.size <= |buf|
  {
    Weight(m.name, buf[m.offset..m.offset + m.size])
  }

  function ReadAll(buf: seq<byte>, ms: seq<TensorMeta>): (ws: seq<Weight>)
    requires InBounds(ms, |buf|)
    ensures |ws| == |ms|
    ensures forall j :: 0 <= j < |ms| ==> ws[j] == Read(buf, ms[j])
  {
    if ms == [] then []
    else
      assert forall j :: 0 <= j < |ms| - 1 ==> ms[..|ms| - 1][j] == ms[j];
      ReadAll(buf, ms[..|ms| - 1]) + [Read(buf, ms[|ms| - 1])]
  }

  lemma PutKeepsBounds(d: seq<TensorMeta>, m: TensorMeta, n: nat)
    requires InBounds(d, n) && m.offset + m.size <= n
    ensures InBounds(Put(d, m), n)
  {
    if d != [] && d[0].name != m.name {
      assert forall j :: 0 <= j < |d| - 1 ==> d[1..][j] == d[j + 1];
      PutKeepsBounds(d[1..], m, n);
      var r := Put(d[1..], m);
      assert forall j :: 1 <= j < |r| + 1 ==> ([d[0]] + r)[j] == r[j - 1];
    }
  }

  lemma {:induction false} MetasInBounds(ws: seq<Weight>)
    ensures InBounds(Metas(ws), |Image(ws)|)
  {
    if ws != [] {
      var init, w := ws[..|ws| - 1], ws[|ws| - 1];
      MetasInBounds(init);
      PutKeepsBounds(Metas(init), TensorMeta(w.name, |w.data|, |Image(init)|), |Image(ws)|);
    }
  }

  ghost predicate DistinctNames(ws: seq<Weight>) {
    forall i, j :: 0 <= i < j < |ws| ==> ws[i].name != ws[j].name
  }

  /** What a receiver yields for a bucket that was packed from `ws`. */
  function Unpacked(ws: seq<Weight>): seq<Weight> {
    MetasInBounds(ws);
    ReadAll(Image(ws), Metas(ws))
  }

  function Keys(d: seq<TensorMeta>): set<string> {
    if d == [] then {} else {d[0].name} + Keys(d[1..])
  }

  function Names(ws: seq<Weight>): set<string> {
    if ws == [] then {} else Names(ws[..|ws| - 1]) + {ws[|ws| - 1].name}
  }

  lemma {:induction false} PutKeys(d: seq<TensorMeta>, m: TensorMeta)
    ensures Keys(Put(d, m)) == Keys(d) + {m.name}
    ensures m.name in Keys(d) ==> |Put(d, m)| == |d|
    ensures m.name !in Keys(d) ==> Put(d, m) == d + [m]
  {
    if d != [] && d[0].name != m.name {
      PutKeys(d[1..], m);
      assert ([d[0]] + Put(d[1..], m))[1..] == Put(d[1..], m);
    } else if d != [] {
      assert ([m] + d[1..])[1..] == d[1..];
    }
  }

  /** An entry under a name that is there replaces the old one in its place. */
  lemma {:induction false} PutReplaces(d: seq<TensorMeta>, m: TensorMeta) returns (k: nat)
    requires m.name in Keys(d)
    ensures k < |d| && d[k].name == m.name && (forall i :: 0 <= i < k ==> d[i].name != m.name)
    ensures Put(d, m) == d[k := m]
  {
    if d[0].name == m.name {
      k := 0;
    } else {
      var j := PutReplaces(d[1..], m);
      k := j + 1;
      assert forall i :: 1 <= i < k ==> d[i] == d[1..][i - 1];
    }
  }

  /** Of a name that occurs several times the bucket's metadata has the last entry. */
  lemma {:induction false} LastWins(ws: seq<Weight>, j: nat)
    requires j < |ws| && forall i :: j < i < |ws| ==> ws[i].name != ws[j].name
    ensures TensorMeta(ws[j].name, |ws[j].data|, |Image(ws[..j])|) in Metas(ws)
  {
    hide Image;
    var n := |ws| - 1;
    var d, m := Metas(ws[..n]), TensorMeta(ws[n].name, |ws[n].data|, |Image(ws[..n])|);
    if j < n {
      LastWins(ws[..n], j);
      assert ws[..n][..j] == ws[..j];
      PutOthers(d, m, TensorMeta(ws[j].name, |ws[j].data|, |Image(ws[..j])|));
    } else {
      PutHas(d, m);
    }
  }

  lemma {:induction false} PutHas(d: seq<TensorMeta>, m: TensorMeta)
    ensures m in Put(d, m)
  {
    if d != [] && d[0].name != m.name { PutHas(d[1..], m); }
  }

  lemma {:induction false} PutOthers(d: seq<TensorMeta>, m: TensorMeta, x: TensorMeta)
    requires x in d && x.name != m.name
    ensures x in Put(d, m)
  {
    if d[0].name != m.name && d[0] != x { PutOthers(d[1..], m, x); }
  }

  /** The dict's keys are the bucket's names, and it never outgrows the bucket. */
  lemma {:induction false} MetasKeys(ws: seq<Weight>)
    ensures Keys(Metas(ws)) == Names(ws) && |Metas(ws)| <= |ws|
  {
    if ws != [] {
      var init, w := ws[..|ws| - 1], ws[|ws| - 1];
      MetasKeys(init);
      PutKeys(Metas(init), TensorMeta(w.name, |w.data|, |Image(init)|));
    }
  }

  lemma {:induction false} NamesIn(ws: seq<Weight>, name: string)
    ensures name in Names(ws) <==> exists j :: 0 <= j < |ws| && ws[j].name == name
  {
    if ws != [] {
      var init := ws[..|ws| - 1];
      NamesIn(init, name);
      if name in Names(init) {
        var j :| 0 <= j < |init| && init[j].name == name;
        assert ws[j].name == name;
      } else if j :| 0 <= j < |ws| && ws[j].name == name {
        if j < |init| {
          assert init[j].name == name;
        }
      }
    }
  }

  lemma DistinctSnoc(ws: seq<Weight>)
    requires ws != []
    ensures DistinctNames(ws) <==>
      DistinctNames(ws[..|ws| - 1]) && ws[|ws| - 1].name !in Names(ws[..|ws| - 1])
  {
    var init, w := ws[..|ws| - 1], ws[|ws| - 1];
    NamesIn(init, w.name);
    if DistinctNames(init) && w.name !in Names(init) {
      forall i, j | 0 <= i < j < |ws| ensures ws[i].name != ws[j].name {
        assert init[i] == ws[i];
        if j < |init| { assert init[j] == ws[j]; }
      }
    }
    if DistinctNames(ws) {
      assert forall j :: 0 <= j < |init| ==> init[j] == ws[j];
    }
  }

  /** With distinct names the entries are the weights in order at back-to-back offsets. */
  lemma {:induction false} MetasDistinct(ws: seq<Weight>)
    requires DistinctNames(ws)
    ensures |Metas(ws)| == |ws|
    ensures forall j :: 0 <= j < |ws| ==>
      Metas(ws)[j] == TensorMeta(ws[j].name, |ws[j].data|, |Image(ws[..j])|)
  {
    hide Put, Image;
    if ws != [] {
      var init, w := ws[..|ws| - 1], ws[|ws| - 1];
      var m := TensorMeta(w.name, |w.data|, |Image(init)|);
      DistinctSnoc(ws);
      MetasDistinct(init);
      MetasKeys(init);
      PutKeys(Metas(init), m);
      forall j | 0 <= j < |init|
        ensures Metas(ws)[j] == TensorMeta(ws[j].name, |ws[j].data|, |Image(ws[..j])|)
      {
        assert init[j] == ws[j] && init[..j] == ws[..j];
      }
    }
  }

  lemma {:induction false} ImagePrefix(ws: seq<Weight>, j: nat)
    requires j <= |ws|
    ensures Image(ws[..j]) <= Image(ws)
    decreases |ws| - j
  {
    if j == |ws| {
      assert ws[..j] == ws;
    } else {
      assert ws[..j + 1][..j] == ws[..j];
      ImagePrefix(ws, j + 1);
    }
  }

  lemma ImageAt(ws: seq<Weight>, j: nat)
    requires j < |ws|
    ensures |Image(ws[..j])| + |ws[j].data| <= |Image(ws)|
    ensures Image(ws)[|Image(ws[..j])|..|Image(ws[..j])| + |ws[j].data|] == ws[j].data
  {
    ImagePrefix(ws, j + 1);
    var p := ws[..j + 1];
    assert p[..j] == ws[..j] && p[j] == ws[j];
    assert Image(p) == Image(ws[..j]) + ws[j].data;
  }

  /** A bucket arrives as it was packed exactly when no name occurs twice in it. */
  lemma UnpackedIff(ws: seq<Weight>)
    ensures Unpacked(ws) == ws <==> DistinctNames(ws)
  {
    MetasInBounds(ws);
    hide Image, Metas;
    if DistinctNames(ws) {
      MetasDistinct(ws);
      forall j | 0 <= j < |ws| ensures Unpacked(ws)[j] == ws[j] {
        ImageAt(ws, j);
      }
    } else {
      DuplicateLosesEntry(ws);
    }
  }

  lemma {:induction false} DuplicateLosesEntry(ws: seq<Weight>)
    requires !DistinctNames(ws)
    ensures |Metas(ws)| < |ws|
  {
    var init, w := ws[..|ws| - 1], ws[|ws| - 1];
    MetasKeys(init);
    DistinctSnoc(ws);
    PutKeys(Metas(init), TensorMeta(w.name, |w.data|, |Image(init)|));
    if !DistinctNames(init) { DuplicateLosesEntry(init); }
  }

  // ---------------------------------------------------------------- packing

  /** The sender's progress: buckets already handed over, and the one being filled. */
  datatype Packed = Packed(full: seq<seq<Weight>>, cur: seq<Weight>)

  function Pack(ws: seq<Weight>, size: nat): Packed {
    if ws == [] then Packed([], [])
    else
      var p, w := Pack(ws[..|ws| - 1], size), ws[|ws| - 1];
      if |Image(p.cur)| + |w.data| > size
      then Packed(p.full + [p.cur], [w])
      else Packed(p.full, p.cur + [w])
  }

  /** All buckets of a transfer, the last one included. It is never empty. */
  function Buckets(ws: seq<Weight>, size: nat): (bs: seq<seq<Weight>>)
    ensures |bs| == |Pack(ws, size).full| + 1
  {
    Pack(ws, size).full + [Pack(ws, size).cur]
  }

  predicate AllFit(ws: seq<Weight>, size: nat) {
    forall j :: 0 <= j < |ws| ==> |ws[j].data| <= size
  }

  /** One more weight: the packing state moves as the loop body moves it. */
  lemma PackSnoc(ws: seq<Weight>, size: nat, i: nat)
    requires i < |ws|
    ensures var p, w := Pack(ws[..i], size), ws[i];
      Pack(ws[..i + 1], size) ==
        if |Image(p.cur)| + |w.data| > size
        then Packed(p.full + [p.cur], [w])
        else Packed(p.full, p.cur + [w])
  {
    assert ws[..i + 1][..i] == ws[..i];
  }

  lemma {:induction false} PackFlat(ws: seq<Weight>, size: nat)
    ensures Flatten(Buckets(ws, size)) == ws
  {
    hide Image, Flatten, Pack;
    var q := Pack(ws, size);
    FlattenSnoc(q.full, q.cur);
    if ws == [] {
      NothingPacked(size);
    } else {
      var n := |ws| - 1;
      PackFlat(ws[..n], size);
      var p := Pack(ws[..n], size);
      FlattenSnoc(p.full, p.cur);
      PackSnoc(ws, size, n);
      assert ws[..n + 1] == ws && ws == ws[..n] + [ws[n]];
      assert Flatten(p.full) + (p.cur + [ws[n]]) == (Flatten(p.full) + p.cur) + [ws[n]];
    }
  }

  lemma NothingPacked(size: nat)
    ensures Pack([], size) == Packed([], []) && Flatten<Weight>([]) == []
  {
  }

  lemma ImageSnoc(ws: seq<Weight>, w: Weight)
    ensures Image(ws + [w]) == Image(ws) + w.data
  {
    assert (ws + [w])[..|ws|] == ws;
  }

  lemma {:induction false} PackFits(ws: seq<Weight>, size: nat)
    requires AllFit(ws, size)
    ensures forall k :: 0 <= k < |Buckets(ws, size)| ==> |Image(Buckets(ws, size)[k])| <= size
  {
    if ws != [] {
      var init, w := ws[..|ws| - 1], ws[|ws| - 1];
      assert AllFit(init, size) by { assert forall j :: 0 <= j < |init| ==> init[j] == ws[j]; }
      PackFits(init, size);
      var p := Pack(init, size);
      var was: seq<seq<Weight>>, now: seq<seq<Weight>> := Buckets(init, size), Buckets(ws, size);
      ImageSnoc(p.cur, w);
      ImageSnoc([], w);
      assert was[|p.full|] == p.cur;
      forall k | 0 <= k < |now| ensures |Image(now[k])| <= size {
        if k < |p.full| { assert now[k] == was[k]; }
      }
    }
  }

  /** Packing is greedy: no bucket could have taken the next bucket's first weight. */
  ghost predicate Greedy(bs: seq<seq<Weight>>, size: nat) {
    forall k :: 0 < k < |bs| ==> bs[k] != [] && |Image(bs[k - 1])| + |bs[k][0].data| > size
  }

  lemma {:induction false} PackGreedy(ws: seq<Weight>, size: nat)
    ensures Greedy(Buckets(ws, size), size)
  {
    if ws != [] {
      var init, w := ws[..|ws| - 1], ws[|ws| - 1];
      PackGreedy(init, size);
      var p := Pack(init, size);
      var was: seq<seq<Weight>>, now: seq<seq<Weight>> := Buckets(init, size), Buckets(ws, size);
      var n := |p.full|;
      forall k {:trigger now[k]} | 0 < k < |now|
        ensures now[k] != [] && |Image(now[k - 1])| + |now[k][0].data| > size
      {
        assert now[k - 1] == was[k - 1];
        if k < n { assert now[k] == was[k]; }
        else if k == n { assert was[n] == p.cur; assert now[n][0] == p.cur[0]; }
      }
    }
  }

  /** Buckets completed on a prefix stay, and the open bucket only grows. */
  lemma {:induction false} PackMonotone(ws: seq<Weight>, size: nat, i: nat)
    requires i <= |ws|
    ensures Pack(ws[..i], size).full <= Pack(ws, size).full
    ensures Pack(ws[..i], size).cur <= Buckets(ws, size)[|Pack(ws[..i], size).full|]
    decreases |ws| - i
  {
    if i == |ws| {
      assert ws[..i] == ws;
    } else {
      PackMonotone(ws, size, i + 1);
      PackSnoc(ws, size, i);
      var p, q := Pack(ws[..i], size), Pack(ws[..i + 1], size);
      assert p.full <= q.full;
      if q.full == p.full + [p.cur] {
        assert Pack(ws, size).full[|p.full|] == p.cur;
        assert Buckets(ws, size)[|p.full|] == p.cur;
      } else {
        assert p.cur <= q.cur;
      }
    }
  }

  /** When the next weight does not fit, the open bucket is a finished bucket of the whole run. */
  lemma PackFlushed(ws: seq<Weight>, size: nat, i: nat)
    requires i < |ws|
    requires |Image(Pack(ws[..i], size).cur)| + |ws[i].data| > size
    ensures |Pack(ws[..i], size).full| < |Buckets(ws, size)| - 1
    ensures Buckets(ws, size)[|Pack(ws[..i], size).full|] == Pack(ws[..i], size).cur
  {
    var p := Pack(ws[..i], size);
    PackSnoc(ws, size, i);
    PackMonotone(ws, size, i + 1);
    var q := Pack(ws[..i + 1], size);
    assert q.full[|p.full|] == p.cur;
  }

  // ---------------------------------------------------------------- writing a bucket

  /** Overwrite part of a buffer. */
  function Splice(buf: seq<byte>, at: nat, piece: seq<byte>): (r: seq<byte>)
    requires at + |piece| <= |buf|
    ensures |r| == |buf|
    ensures forall x :: 0 <= x < |buf| ==> r[x] == if at <= x < at + |piece| then piece[x - at] else buf[x]
  {
    buf[..at] + piece + buf[at + |piece|..]
  }

  /** Appending a weight's bytes turns an image of the open bucket into one of the longer bucket. */
  lemma WriteImage(buf: seq<byte>, open: seq<Weight>, w: Weight)
    requires Image(open) <= buf && |Image(open)| + |w.data| <= |buf|
    ensures Image(open + [w]) <= Splice(buf, |Image(open)|, w.data)
    ensures |Image(open + [w])| == |Image(open)| + |w.data|
    ensures Metas(open + [w]) == Put(Metas(open), TensorMeta(w.name, |w.data|, |Image(open)|))
  {
    ImageSnoc(open, w);
    assert (open + [w])[..|open|] == open;
    var img, r := Image(open) + w.data, Splice(buf, |Image(open)|, w.data);
    assert forall x :: 0 <= x < |img| ==> img[x] == r[x];
  }

  lemma EmptyBucket()
    ensures Image([]) == [] && Metas([]) == []
  {}

  // ---------------------------------------------------------------- delivery

  /** What a receiver that handled these buckets in order has yielded. */
  function Delivered(bs: seq<seq<Weight>>): seq<Weight> {
    if bs == [] then [] else Delivered(bs[..|bs| - 1]) + Unpacked(bs[|bs| - 1])
  }

  lemma DeliveredSnoc(bs: seq<seq<Weight>>, k: nat)
    requires k < |bs|
    ensures Delivered(bs[..k + 1]) == Delivered(bs[..k]) + Unpacked(bs[k])
  {
    assert bs[..k + 1][..k] == bs[..k];
  }

  ghost predicate DistinctPerBucket(bs: seq<seq<Weight>>) {
    forall k :: 0 <= k < |bs| ==> DistinctNames(bs[k])
  }

  lemma UnpackedLength(ws: seq<Weight>)
    ensures |Unpacked(ws)| <= |ws|
    ensures DistinctNames(ws) ==> Unpacked(ws) == ws
    ensures !DistinctNames(ws) ==> |Unpacked(ws)| < |ws|
  {
    MetasInBounds(ws);
    MetasKeys(ws);
    UnpackedIff(ws);
    if !DistinctNames(ws) { DuplicateLosesEntry(ws); }
  }

  lemma PerBucketSnoc(bs: seq<seq<Weight>>)
    requires bs != []
    ensures DistinctPerBucket(bs) <==> DistinctPerBucket(bs[..|bs| - 1]) && DistinctNames(bs[|bs| - 1])
  {
    var init := bs[..|bs| - 1];
    if DistinctPerBucket(bs) {
      assert forall k :: 0 <= k < |init| ==> init[k] == bs[k];
    }
    if DistinctPerBucket(init) && DistinctNames(bs[|bs| - 1]) {
      forall k | 0 <= k < |bs| ensures DistinctNames(bs[k]) {
        if k < |init| { assert init[k] == bs[k]; }
      }
    }
  }

  lemma {:induction false} DeliveredLength(bs: seq<seq<Weight>>)
    ensures |Delivered(bs)| <= |Flatten(bs)|
    ensures DistinctPerBucket(bs) ==> Delivered(bs) == Flatten(bs)
    ensures !DistinctPerBucket(bs) ==> |Delivered(bs)| < |Flatten(bs)|
  {
    if bs != [] {
      DeliveredLength(bs[..|bs| - 1]);
      PerBucketSnoc(bs);
      UnpackedLength(bs[|bs| - 1]);
    }
  }

  /** End-to-end content of a transfer: the receiver gets the sender's weights in
      order exactly when no bucket holds one name twice. */
  lemma DeliveredIff(ws: seq<Weight>, size: nat)
    ensures Delivered(Buckets(ws, size)) == ws <==> DistinctPerBucket(Buckets(ws, size))
  {
    PackFlat(ws, size);
    DeliveredLength(Buckets(ws, size));
  }

  /** Names that are distinct over the whole transfer are distinct in every bucket. */
  lemma DistinctSuffices(ws: seq<Weight>, size: nat)
    requires DistinctNames(ws)
    ensures Delivered(Buckets(ws, size)) == ws
  {
    PackFlat(ws, size);
    DistinctParts(Buckets(ws, size));
    DeliveredIff(ws, size);
  }

  lemma {:induction false} DistinctParts(bs: seq<seq<Weight>>)
    requires DistinctNames(Flatten(bs))
    ensures DistinctPerBucket(bs)
  {
    if bs != [] {
      var init, b := bs[..|bs| - 1], bs[|bs| - 1];
      var f, g := Flatten(bs), Flatten(init);
      assert forall j :: 0 <= j < |g| ==> f[j] == g[j];
      assert forall j :: 0 <= j < |b| ==> f[|g| + j] == b[j];
      DistinctParts(init);
      assert forall k :: 0 <= k < |init| ==> init[k] == bs[k];
    }
  }
}
