/**
  The weight layouts that the converter writes and the mergers read back: query, key and
  value rows interleaved by key/value group, and row slices for tensor parallelism. A tensor
  is the sequence of its rows.
*/
module QkvLayout {

  import opened RowBlocks
  import opened Sequences

  // ---------------------------------------------------------------- interleaving

  datatype Qkv<T> = Qkv(q: seq<T>, k: seq<T>, v: seq<T>)

  /** The rows of one key/value group, and back. */
  function Rows<T>(g: Qkv<T>): seq<T> { g.q + g.k + g.v }

  function Cut<T>(t: seq<T>, a: nat, d: nat): Qkv<T>
    requires |t| == a + 2 * d
  {
    Qkv(t[..a], t[a..a + d], t[a + d..])
  }

  lemma CutRows<T>(g: Qkv<T>, a: nat, d: nat)
    requires |g.q| == a && |g.k| == d && |g.v| == d
    ensures Cut(Rows(g), a, d) == g
  {
  }

  lemma RowsCut<T>(t: seq<T>, a: nat, d: nat)
    requires |t| == a + 2 * d
    ensures Rows(Cut(t, a, d)) == t
  {
  }

  ghost predicate Shape<T>(x: Qkv<T>, a: nat, d: nat, n: nat) {
    |x.q| == Times(n, a) && |x.k| == Times(n, d) && |x.v| == Times(n, d)
  }

  /** One block of each of q, k and v per group. */
  function Grouped<T>(x: Qkv<T>, a: nat, d: nat, n: nat): (bs: seq<seq<T>>)
    requires Shape(x, a, d, n)
    ensures |bs| == n && AllOf(bs, a + 2 * d)
  {
    var qs, ks, vs := Blocks(x.q, a, n), Blocks(x.k, d, n), Blocks(x.v, d, n);
    seq(n, i requires 0 <= i < n => Rows(Qkv(qs[i], ks[i], vs[i])))
  }

  /** The converter: view q, k and v by group, concatenate them group by group, flatten. */
  function Interleave<T>(x: Qkv<T>, a: nat, d: nat, n: nat): seq<T>
    requires Shape(x, a, d, n)
  {
    Flatten(Grouped(x, a, d, n))
  }

  function Qs<T>(bs: seq<seq<T>>, a: nat, d: nat): (r: seq<seq<T>>)
    requires AllOf(bs, a + 2 * d)
    ensures |r| == |bs| && forall i :: 0 <= i < |bs| ==> r[i] == Cut(bs[i], a, d).q
  {
    seq(|bs|, i requires 0 <= i < |bs| => Cut(bs[i], a, d).q)
  }

  function Ks<T>(bs: seq<seq<T>>, a: nat, d: nat): (r: seq<seq<T>>)
    requires AllOf(bs, a + 2 * d)
    ensures |r| == |bs| && forall i :: 0 <= i < |bs| ==> r[i] == Cut(bs[i], a, d).k
  {
    seq(|bs|, i requires 0 <= i < |bs| => Cut(bs[i], a, d).k)
  }

  function Vs<T>(bs: seq<seq<T>>, a: nat, d: nat): (r: seq<seq<T>>)
    requires AllOf(bs, a + 2 * d)
    ensures |r| == |bs| && forall i :: 0 <= i < |bs| ==> r[i] == Cut(bs[i], a, d).v
  {
    seq(|bs|, i requires 0 <= i < |bs| => Cut(bs[i], a, d).v)
  }

  /** Blocks of rows taken apart into all their q, all their k and all their v. */
  function CutAll<T>(bs: seq<seq<T>>, a: nat, d: nat): Qkv<T>
    requires AllOf(bs, a + 2 * d)
  {
    Qkv(Flatten(Qs(bs, a, d)), Flatten(Ks(bs, a, d)), Flatten(Vs(bs, a, d)))
  }

  function Deinterleave<T>(t: seq<T>, a: nat, d: nat, n: nat): Qkv<T>
    requires |t| == Times(n, a + 2 * d)
  {
    CutAll(Blocks(t, a + 2 * d, n), a, d)
  }

  /** Splitting what the converter wrote gives q, k and v back. */
  lemma SplitOfPacked<T>(x: Qkv<T>, a: nat, d: nat, n: nat)
    requires Shape(x, a, d, n)
    ensures |Interleave(x, a, d, n)| == Times(n, a + 2 * d)
    ensures Deinterleave(Interleave(x, a, d, n), a, d, n) == x
  {
    hide Flatten, Blocks, Times;
    var qs, ks, vs, bs := Blocks(x.q, a, n), Blocks(x.k, d, n), Blocks(x.v, d, n), Grouped(x, a, d, n);
    BlocksOfFlatten(bs, a + 2 * d);
    forall i | 0 <= i < n ensures Cut(bs[i], a, d) == Qkv(qs[i], ks[i], vs[i]) {
      CutRows(Qkv(qs[i], ks[i], vs[i]), a, d);
    }
    assert Qs(bs, a, d) == qs;
    assert Ks(bs, a, d) == ks;
    assert Vs(bs, a, d) == vs;
    FlattenOfBlocks(x.q, a, n);
    FlattenOfBlocks(x.k, d, n);
    FlattenOfBlocks(x.v, d, n);
  }

  /** And interleaving what was split gives the fused tensor back. */
  lemma PackOfSplit<T>(t: seq<T>, a: nat, d: nat, n: nat)
    requires |t| == Times(n, a + 2 * d)
    ensures Shape(Deinterleave(t, a, d, n), a, d, n)
    ensures Interleave(Deinterleave(t, a, d, n), a, d, n) == t
  {
    hide Flatten, Blocks, Times;
    var bs := Blocks(t, a + 2 * d, n);
    var qs := Qs(bs, a, d);
    var ks := Ks(bs, a, d);
    var vs := Vs(bs, a, d);
    BlocksOfFlatten(qs, a);
    BlocksOfFlatten(ks, d);
    BlocksOfFlatten(vs, d);
    var x := Deinterleave(t, a, d, n);
    forall i | 0 <= i < n ensures Grouped(x, a, d, n)[i] == bs[i] { RowsCut(bs[i], a, d); }
    assert Grouped(x, a, d, n) == bs;
    FlattenOfBlocks(t, a + 2 * d, n);
  }

  // ---------------------------------------------------------------- the layout, row by row

  /** Row i of block g of `part`, in blocks of m rows, is row off + i of block g of t, in blocks of
      w rows. */
  ghost predicate RowAt<T>(t: seq<T>, part: seq<T>, w: nat, off: nat, m: nat, g: nat, i: nat) {
    Row(g, w, off + i) < |t| && Row(g, m, i) < |part| && t[Row(g, w, off + i)] == part[Row(g, m, i)]
  }

  ghost predicate PartAt<T>(t: seq<T>, part: seq<T>, w: nat, off: nat, m: nat, n: nat) {
    forall g: nat, i: nat :: g < n && i < m ==> RowAt(t, part, w, off, m, g, i)
  }

  /** The fused tensor holds, group by group, a rows of q, then d rows of k, then d rows of v. */
  ghost predicate Laid<T>(t: seq<T>, x: Qkv<T>, a: nat, d: nat, n: nat) {
    && |t| == Times(n, a + 2 * d) && |x.q| == Times(n, a) && |x.k| == Times(n, d) && |x.v| == Times(n, d)
    && PartAt(t, x.q, a + 2 * d, 0, a, n)
    && PartAt(t, x.k, a + 2 * d, a, d, n)
    && PartAt(t, x.v, a + 2 * d, a + d, d, n)
  }

  lemma QueriesAt<T>(x: Qkv<T>, a: nat, d: nat, n: nat)
    requires Shape(x, a, d, n)
    ensures PartAt(Interleave(x, a, d, n), x.q, a + 2 * d, 0, a, n)
  {
    hide Row, Blocks, Flatten, Times;
    var bs, t, w := Grouped(x, a, d, n), Interleave(x, a, d, n), a + 2 * d;
    forall g: nat, i: nat | g < n && i < a ensures RowAt(t, x.q, w, 0, a, g, i) {
      FlattenAt(bs, w, g, i);
      BlocksAt(x.q, a, n, g, i);
      assert bs[g] == Rows(Qkv(Blocks(x.q, a, n)[g], Blocks(x.k, d, n)[g], Blocks(x.v, d, n)[g]));
    }
  }

  lemma KeysAt<T>(x: Qkv<T>, a: nat, d: nat, n: nat)
    requires Shape(x, a, d, n)
    ensures PartAt(Interleave(x, a, d, n), x.k, a + 2 * d, a, d, n)
  {
    hide Row, Blocks, Flatten, Times;
    var bs, t, w, off := Grouped(x, a, d, n), Interleave(x, a, d, n), a + 2 * d, a;
    forall g: nat, i: nat | g < n && i < d ensures RowAt(t, x.k, w, off, d, g, i) {
      FlattenAt(bs, w, g, off + i);
      BlocksAt(x.k, d, n, g, i);
      assert bs[g] == Rows(Qkv(Blocks(x.q, a, n)[g], Blocks(x.k, d, n)[g], Blocks(x.v, d, n)[g]));
    }
  }

  lemma ValuesAt<T>(x: Qkv<T>, a: nat, d: nat, n: nat)
    requires Shape(x, a, d, n)
    ensures PartAt(Interleave(x, a, d, n), x.v, a + 2 * d, a + d, d, n)
  {
    hide Row, Blocks, Flatten, Times;
    var bs, t, w, off := Grouped(x, a, d, n), Interleave(x, a, d, n), a + 2 * d, a + d;
    forall g: nat, i: nat | g < n && i < d ensures RowAt(t, x.v, w, off, d, g, i) {
      FlattenAt(bs, w, g, off + i);
      BlocksAt(x.v, d, n, g, i);
      assert bs[g] == Rows(Qkv(Blocks(x.q, a, n)[g], Blocks(x.k, d, n)[g], Blocks(x.v, d, n)[g]));
    }
  }

  /** What the converter writes. */
  lemma InterleaveLaid<T>(x: Qkv<T>, a: nat, d: nat, n: nat)
    requires Shape(x, a, d, n)
    ensures Laid(Interleave(x, a, d, n), x, a, d, n)
  {
    hide PartAt, Times, Interleave;
    SplitOfPacked(x, a, d, n);
    QueriesAt(x, a, d, n);
    KeysAt(x, a, d, n);
    ValuesAt(x, a, d, n);
  }

  /** And what the mergers read. */
  lemma DeinterleaveLaid<T>(t: seq<T>, a: nat, d: nat, n: nat)
    requires |t| == Times(n, a + 2 * d)
    ensures Laid(t, Deinterleave(t, a, d, n), a, d, n)
  {
    PackOfSplit(t, a, d, n);
    InterleaveLaid(Deinterleave(t, a, d, n), a, d, n);
  }

  function Join<T>(x: Qkv<T>, y: Qkv<T>): Qkv<T> { Qkv(x.q + y.q, x.k + y.k, x.v + y.v) }

  /** Splitting is local to the groups. */
  lemma CutAllConcat<T>(xs: seq<seq<T>>, ys: seq<seq<T>>, a: nat, d: nat)
    requires AllOf(xs, a + 2 * d) && AllOf(ys, a + 2 * d)
    ensures AllOf(xs + ys, a + 2 * d)
    ensures CutAll(xs + ys, a, d) == Join(CutAll(xs, a, d), CutAll(ys, a, d))
  {
    hide Cut, Flatten;
    FlattenConcat(Qs(xs, a, d), Qs(ys, a, d));
    FlattenConcat(Ks(xs, a, d), Ks(ys, a, d));
    FlattenConcat(Vs(xs, a, d), Vs(ys, a, d));
    assert Qs(xs + ys, a, d) == Qs(xs, a, d) + Qs(ys, a, d);
    assert Ks(xs + ys, a, d) == Ks(xs, a, d) + Ks(ys, a, d);
    assert Vs(xs + ys, a, d) == Vs(xs, a, d) + Vs(ys, a, d);
  }

  lemma CutAllOne<T>(b: seq<T>, a: nat, d: nat)
    requires |b| == a + 2 * d
    ensures CutAll([b], a, d) == Cut(b, a, d)
  {
    FlattenOne(Cut(b, a, d).q);
    FlattenOne(Cut(b, a, d).k);
    FlattenOne(Cut(b, a, d).v);
    assert Qs([b], a, d) == [Cut(b, a, d).q];
    assert Ks([b], a, d) == [Cut(b, a, d).k];
    assert Vs([b], a, d) == [Cut(b, a, d).v];
  }
}
