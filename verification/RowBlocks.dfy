/**
  Tensors as sequences of rows, cut into equal blocks and flattened again.
*/
module RowBlocks {

  import opened Sequences

  /** n * w, by repeated addition. */
  function Times(n: nat, w: nat): nat { if n == 0 then 0 else w + Times(n - 1, w) }

  lemma {:induction false} TimesIs(n: nat, w: nat)
    ensures Times(n, w) == n * w
  {
    if n > 0 {
      TimesIs(n - 1, w);
      assert n * w == (n - 1) * w + w;
    }
  }

  // ---------------------------------------------------------------- blocks of rows

  ghost predicate AllOf<T>(bs: seq<seq<T>>, w: nat) { forall i :: 0 <= i < |bs| ==> |bs[i]| == w }

  /** `t.view([n, w, -1])`. */
  function Blocks<T>(t: seq<T>, w: nat, n: nat): (bs: seq<seq<T>>)
    requires |t| == Times(n, w)
    ensures |bs| == n && AllOf(bs, w)
  {
    if n == 0 then [] else [t[..w]] + Blocks(t[w..], w, n - 1)
  }

  lemma {:induction false} FlattenOfBlocks<T>(t: seq<T>, w: nat, n: nat)
    requires |t| == Times(n, w)
    ensures Flatten(Blocks(t, w, n)) == t
  {
    if n > 0 {
      FlattenOfBlocks(t[w..], w, n - 1);
      FlattenCons(t[..w], Blocks(t[w..], w, n - 1));
      assert t == t[..w] + t[w..];
    }
  }

  lemma {:induction false} BlocksOfFlatten<T>(bs: seq<seq<T>>, w: nat)
    requires AllOf(bs, w)
    ensures |Flatten(bs)| == Times(|bs|, w)
    ensures Blocks(Flatten(bs), w, |bs|) == bs
  {
    if bs != [] {
      BlocksOfFlatten(bs[1..], w);
      FlattenCons(bs[0], bs[1..]);
      assert bs == [bs[0]] + bs[1..];
      assert Flatten(bs)[..w] == bs[0] && Flatten(bs)[w..] == Flatten(bs[1..]);
    }
  }

  // ---------------------------------------------------------------- rows by number

  /** Row i of block g, for blocks of w rows. */
  function Row(g: nat, w: nat, i: nat): nat { g * w + i }

  /** Block g + 1 of the tensor is block g behind the first. */
  lemma RowBehind(g: nat, w: nat, i: nat)
    requires g > 0
    ensures Row(g, w, i) == w + Row(g - 1, w, i)
  {
    assert g * w == (g - 1) * w + w;
  }

  lemma {:induction false} BlocksAt<T>(t: seq<T>, w: nat, n: nat, g: nat, i: nat)
    requires |t| == Times(n, w) && g < n && i < w
    ensures Row(g, w, i) < |t| && Blocks(t, w, n)[g][i] == t[Row(g, w, i)]
  {
    if g > 0 {
      RowBehind(g, w, i);
      BlocksAt(t[w..], w, n - 1, g - 1, i);
    }
  }

  lemma FlattenAt<T>(bs: seq<seq<T>>, w: nat, g: nat, i: nat)
    requires AllOf(bs, w) && g < |bs| && i < w
    ensures Row(g, w, i) < |Flatten(bs)| && Flatten(bs)[Row(g, w, i)] == bs[g][i]
  {
    BlocksOfFlatten(bs, w);
    BlocksAt(Flatten(bs), w, |bs|, g, i);
  }
}
