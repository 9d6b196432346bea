/**
  The row operations of the batch container: whatever they do, they do to every tensor column
  and every object column by one and the same map from new rows to old rows.
*/
module DataRows {

  import opened Arithmetic
  import opened RowBlocks
  import opened Sequences
  import opened Wrappers

  datatype Column = TensorColumn(name: string) | ObjectColumn(name: string)

  datatype Data<V> = Data(rows: nat, cols: map<Column, seq<V>>)

  /** `check_consistency`. */
  ghost predicate Consistent<V>(d: Data<V>) { forall c :: c in d.cols ==> |d.cols[c]| == d.rows }

  /** A map from new rows to old rows. */
  ghost predicate RowMap(f: seq<nat>, rows: nat) { forall i :: 0 <= i < |f| ==> f[i] < rows }

  function Pick<V>(s: seq<V>, f: seq<nat>): (r: seq<V>)
    requires RowMap(f, |s|)
    ensures |r| == |f| && forall i :: 0 <= i < |f| ==> r[i] == s[f[i]]
  {
    seq(|f|, i requires 0 <= i < |f| => s[f[i]])
  }

  /** The data with its rows replaced along f, in every column. */
  ghost function Gather<V>(d: Data<V>, f: seq<nat>): (e: Data<V>)
    requires Consistent(d) && RowMap(f, d.rows)
    ensures Consistent(e) && e.rows == |f| && e.cols.Keys == d.cols.Keys
  {
    Data(|f|, map c | c in d.cols :: Pick(d.cols[c], f))
  }

  /** `data[start:stop]`. */
  function Slice<V>(d: Data<V>, start: int, stop: int): Data<V>
    requires Consistent(d)
  {
    var lo := Bound(start, d.rows);
    var hi := if Bound(stop, d.rows) < lo then lo else Bound(stop, d.rows);
    Data(hi - lo, map c | c in d.cols :: d.cols[c][lo..hi])
  }

  lemma SliceIsGather<V>(d: Data<V>, start: int, stop: int)
    requires Consistent(d) && Bound(start, d.rows) <= Bound(stop, d.rows)
    ensures Slice(d, start, stop) == Gather(d, Range(Bound(start, d.rows), Bound(stop, d.rows)))
  {
    var lo, hi := Bound(start, d.rows), Bound(stop, d.rows);
    forall c | c in d.cols ensures d.cols[c][lo..hi] == Pick(d.cols[c], Range(lo, hi)) {}
  }

  /** `reorder(indices)` and `select_idxs` with a list of row numbers: row i is row f[i] of the
      data, in every column. */
  method SelectRows<V>(d: Data<V>, f: seq<nat>) returns (e: Data<V>)
    requires Consistent(d) && RowMap(f, d.rows)
    ensures e == Gather(d, f)
    ensures e.rows == |f| && e.cols.Keys == d.cols.Keys
    ensures forall c :: c in d.cols ==> |e.cols[c]| == |f| && forall i :: 0 <= i < |f| ==> e.cols[c][i] == d.cols[c][f[i]]
  {
    e := Data(|f|, map c | c in d.cols :: Pick(d.cols[c], f));
  }

  /** Reordering with a permutation and then with its inverse changes nothing. */
  lemma ReorderBack<V>(d: Data<V>, f: seq<nat>, g: seq<nat>)
    requires Consistent(d) && RowMap(f, d.rows) && RowMap(g, |f|) && |g| == d.rows
    requires forall i :: 0 <= i < |g| ==> f[g[i]] == i
    ensures Gather(Gather(d, f), g) == d
  {
    forall c | c in d.cols ensures Pick(Pick(d.cols[c], f), g) == d.cols[c] {}
    assert Gather(Gather(d, f), g).cols == d.cols;
  }

  // ---------------------------------------------------------------- concat

  ghost predicate SameColumns<V>(d: Data<V>, e: Data<V>) { Consistent(e) && e.cols.Keys == d.cols.Keys }

  /** Pieces with the columns of the first one. */
  ghost predicate Alike<V>(ds: seq<Data<V>>) { forall i :: 0 <= i < |ds| ==> SameColumns(ds[0], ds[i]) }

  function TotalRows<V>(ds: seq<Data<V>>): nat {
    if ds == [] then 0 else TotalRows(ds[..|ds| - 1]) + ds[|ds| - 1].rows
  }

  /** One column, piece by piece. */
  ghost function Pieces<V>(ds: seq<Data<V>>, c: Column): (r: seq<seq<V>>)
    requires Alike(ds) && (ds == [] || c in ds[0].cols)
    ensures |r| == |ds| && forall i :: 0 <= i < |ds| ==> c in ds[i].cols && r[i] == ds[i].cols[c]
  {
    seq(|ds|, i requires 0 <= i < |ds| => assert SameColumns(ds[0], ds[i]); ds[i].cols[c])
  }

  /** The pieces one after the other, in every column. */
  ghost function Joined<V>(ds: seq<Data<V>>): Data<V>
    requires ds != [] && Alike(ds)
  {
    Data(TotalRows(ds), map c | c in ds[0].cols :: Flatten(Pieces(ds, c)))
  }

  function Append<V>(d: Data<V>, e: Data<V>): Data<V>
    requires SameColumns(d, e)
  {
    Data(d.rows + e.rows, map c | c in d.cols :: d.cols[c] + e.cols[c])
  }

  lemma JoinedOne<V>(d: Data<V>)
    requires Consistent(d)
    ensures Alike([d]) && Joined([d]) == d
  {
    TotalOne(d);
    hide TotalRows;
    forall c | c in d.cols ensures Flatten(Pieces([d], c)) == d.cols[c] {
      assert Pieces([d], c) == [d.cols[c]];
      FlattenOne(d.cols[c]);
    }
    assert Joined([d]).cols == d.cols;
  }

  lemma TotalOne<V>(d: Data<V>)
    ensures TotalRows([d]) == d.rows
  {
    assert [d][..0] == [];
    assert TotalRows<V>([]) == 0;
  }

  lemma AlikePrefix<V>(ds: seq<Data<V>>, e: Data<V>)
    requires ds != [] && Alike(ds + [e])
    ensures Alike(ds) && SameColumns(ds[0], e)
  {
    var es := ds + [e];
    assert SameColumns(es[0], es[|ds|]);
    forall i | 0 <= i < |ds| ensures SameColumns(ds[0], ds[i]) { assert SameColumns(es[0], es[i]); }
  }

  lemma JoinedSnoc<V>(ds: seq<Data<V>>, e: Data<V>)
    requires ds != [] && Alike(ds + [e])
    ensures Alike(ds) && SameColumns(Joined(ds), e) && Joined(ds + [e]) == Append(Joined(ds), e)
  {
    hide Flatten, Pieces, Alike;
    AlikePrefix(ds, e);
    assert (ds + [e])[..|ds|] == ds;
    forall c | c in ds[0].cols ensures Flatten(Pieces(ds + [e], c)) == Flatten(Pieces(ds, c)) + e.cols[c] {
      ColumnSnoc(ds, e, c);
    }
    assert Joined(ds + [e]).cols == Append(Joined(ds), e).cols;
  }

  lemma ColumnSnoc<V>(ds: seq<Data<V>>, e: Data<V>, c: Column)
    requires ds != [] && Alike(ds + [e]) && Alike(ds) && c in ds[0].cols && c in e.cols
    ensures Flatten(Pieces(ds + [e], c)) == Flatten(Pieces(ds, c)) + e.cols[c]
  {
    hide Alike, Flatten;
    assert Pieces(ds + [e], c) == Pieces(ds, c) + [e.cols[c]];
    FlattenSnoc(Pieces(ds, c), e.cols[c]);
  }

  lemma {:induction false} JoinedConsistent<V>(ds: seq<Data<V>>)
    requires ds != [] && Alike(ds)
    ensures SameColumns(ds[0], Joined(ds)) && Joined(ds).rows == TotalRows(ds)
  {
    hide Joined, Append;
    var m := |ds| - 1;
    assert ds[..m] + [ds[m]] == ds;
    if m == 0 {
      FirstConsistent(ds);
      JoinedOne(ds[0]);
      TotalOne(ds[0]);
    } else {
      AlikePrefix(ds[..m], ds[m]);
      JoinedConsistent(ds[..m]);
      JoinedSnoc(ds[..m], ds[m]);
      AppendSize(Joined(ds[..m]), ds[m]);
    }
  }

  lemma AppendSize<V>(d: Data<V>, e: Data<V>)
    requires Consistent(d) && SameColumns(d, e)
    ensures SameColumns(d, Append(d, e)) && Append(d, e).rows == d.rows + e.rows
    ensures forall c :: c in d.cols ==> Append(d, e).cols[c] == d.cols[c] + e.cols[c]
  {
  }

  /** Row k of piece i comes after the rows of the pieces before it, in every column. */
  lemma {:induction false} JoinedAt<V>(ds: seq<Data<V>>, i: nat, k: nat, c: Column)
    requires Alike(ds) && i < |ds| && k < ds[i].rows && c in ds[i].cols
    ensures SameColumns(ds[0], Joined(ds)) && c in ds[0].cols && TotalRows(ds[..i]) + k < Joined(ds).rows
    ensures Joined(ds).cols[c][TotalRows(ds[..i]) + k] == ds[i].cols[c][k]
  {
    hide Joined, Append, TotalRows;
    var m := |ds| - 1;
    assert ds[..m] + [ds[m]] == ds;
    assert SameColumns(ds[0], ds[i]);
    JoinedConsistent(ds);
    if m == 0 {
      JoinedOne(ds[0]);
      NoRows(ds);
    } else {
      AlikePrefix(ds[..m], ds[m]);
      JoinedConsistent(ds[..m]);
      JoinedSnoc(ds[..m], ds[m]);
      AppendSize(Joined(ds[..m]), ds[m]);
      if i < m {
        assert ds[..m][..i] == ds[..i];
        JoinedAt(ds[..m], i, k, c);
      }
    }
  }

  lemma NoRows<V>(ds: seq<Data<V>>)
    ensures TotalRows(ds[..0]) == 0
  {
  }

  /** `DataProto.concat` of pieces with the same columns; there is nothing to join in an empty
      list. */
  method Concat<V>(ds: seq<Data<V>>) returns (e: Option<Data<V>>)
    requires Alike(ds)
    ensures e == if ds == [] then None else Some(Joined(ds))
  {
    if ds == [] { return None; }
    hide Joined, Append, Alike;
    var joined := ds[0];
    FirstConsistent(ds);
    JoinedOne(ds[0]);
    assert ds[..1] == [ds[0]];
    for i := 1 to |ds|
      invariant Alike(ds[..i]) && joined == Joined(ds[..i])
    {
      assert ds[..i + 1] == ds[..i] + [ds[i]];
      AlikeTo(ds, i + 1);
      JoinedSnoc(ds[..i], ds[i]);
      joined := Append(joined, ds[i]);
    }
    assert ds[..|ds|] == ds;
    e := Some(joined);
  }

  lemma FirstConsistent<V>(ds: seq<Data<V>>)
    requires ds != [] && Alike(ds)
    ensures Consistent(ds[0])
  {
    assert SameColumns(ds[0], ds[0]);
  }

  lemma AlikeTo<V>(ds: seq<Data<V>>, i: nat)
    requires 0 < i <= |ds| && Alike(ds)
    ensures Alike(ds[..i])
  {
    forall j | 0 <= j < i ensures SameColumns(ds[..i][0], ds[..i][j]) { assert SameColumns(ds[0], ds[j]); }
  }

  /** The pieces are selections of rows of one container. */
  ghost predicate Selections<V>(d: Data<V>, ds: seq<Data<V>>, fs: seq<seq<nat>>) {
    Consistent(d) && |fs| == |ds| && forall i :: 0 <= i < |ds| ==> RowMap(fs[i], d.rows) && ds[i] == Gather(d, fs[i])
  }

  /** Joining selections of one container selects along their row maps one after the other. */
  lemma {:induction false} JoinedSelections<V>(d: Data<V>, ds: seq<Data<V>>, fs: seq<seq<nat>>)
    requires ds != [] && Selections(d, ds, fs)
    ensures Alike(ds) && RowMap(Flatten(fs), d.rows) && Joined(ds) == Gather(d, Flatten(fs))
  {
    hide Flatten, Gather, Joined, Append;
    var m := |ds| - 1;
    assert ds == ds[..m] + [ds[m]] && fs == fs[..m] + [fs[m]];
    if m == 0 {
      JoinedOne(ds[0]);
      FlattenOne(fs[0]);
    } else {
      JoinedSelections(d, ds[..m], fs[..m]);
      FlattenSnoc(fs[..m], fs[m]);
      AppendGathers(d, Flatten(fs[..m]), fs[m]);
      JoinedSnoc(ds[..m], ds[m]);
    }
  }

  lemma AppendGathers<V>(d: Data<V>, f: seq<nat>, g: seq<nat>)
    requires Consistent(d) && RowMap(f, d.rows) && RowMap(g, d.rows)
    ensures RowMap(f + g, d.rows) && Append(Gather(d, f), Gather(d, g)) == Gather(d, f + g)
  {
    forall c | c in d.cols ensures Pick(d.cols[c], f) + Pick(d.cols[c], g) == Pick(d.cols[c], f + g) {}
    assert Append(Gather(d, f), Gather(d, g)).cols == Gather(d, f + g).cols;
  }

  lemma GatherAll<V>(d: Data<V>)
    requires Consistent(d)
    ensures Gather(d, Range(0, d.rows)) == d
  {
    forall c | c in d.cols ensures Pick(d.cols[c], Range(0, d.rows)) == d.cols[c] {}
    assert Gather(d, Range(0, d.rows)).cols == d.cols;
  }

  // ---------------------------------------------------------------- padding

  /** Rows 0, 1, ..., n - 1, 0, 1, ... */
  function Cycle(n: nat, len: nat): (f: seq<nat>)
    requires n > 0
    ensures |f| == len && forall i :: 0 <= i < len ==> f[i] == i % n
    ensures RowMap(f, n)
  {
    seq(len, i requires 0 <= i < len => i % n)
  }

  lemma WrapsAt(n: nat, full: nat, i: nat)
    requires n > 0 && full % n == 0 && i < n
    ensures (full + i) % n == i
  {
    DivUnique(full + i, n, full / n, i);
  }

  lemma WrapsWhole(n: nat, full: nat)
    requires n > 0 && full % n == 0
    ensures (full + n) % n == 0
  {
    assert full + n == n * (full / n + 1);
    DivUnique(full + n, n, full / n + 1, 0);
  }

  lemma CycleMore(n: nat, full: nat, take: nat)
    requires n > 0 && full % n == 0 && take <= n
    ensures Cycle(n, full) + Range(0, take) == Cycle(n, full + take)
  {
    var a, b, c := Cycle(n, full), Range(0, take), Cycle(n, full + take);
    forall k | 0 <= k < full + take ensures (a + b)[k] == c[k] {
      if k >= full { WrapsAt(n, full, k - full); }
    }
  }

  lemma PadStep<V>(d: Data<V>, padding: seq<Data<V>>, fs: seq<seq<nat>>, len: nat, take: nat)
    requires Selections(d, padding, fs) && 0 < take <= d.rows && len % d.rows == 0
    requires Cycle(d.rows, d.rows) + Flatten(fs) == Cycle(d.rows, len)
    ensures Selections(d, padding + [Slice(d, 0, take)], fs + [Range(0, take)])
    ensures Cycle(d.rows, d.rows) + Flatten(fs + [Range(0, take)]) == Cycle(d.rows, len + take)
  {
    hide Flatten, Gather, Slice;
    SliceIsGather(d, 0, take);
    CycleMore(d.rows, len, take);
    FlattenConcat(fs, [Range(0, take)]);
    FlattenOne(Range(0, take));
    assert Cycle(d.rows, d.rows) + (Flatten(fs) + Range(0, take)) == (Cycle(d.rows, d.rows) + Flatten(fs)) + Range(0, take);
  }

  /** Whole copies of the data, and a last partial one, pad rows in all. */
  method CollectPadding<V>(d: Data<V>, pad: nat) returns (padding: seq<Data<V>>, ghost fs: seq<seq<nat>>)
    requires Consistent(d) && d.rows > 0
    ensures Selections(d, padding, fs)
    ensures Cycle(d.rows, d.rows) + Flatten(fs) == Cycle(d.rows, d.rows + pad)
  {
    hide Selections, Cycle, Gather, Slice, Flatten;
    var n: nat, remaining: nat := d.rows, pad;
    padding, fs := [], [];
    NoPaddings(d);
    ghost var len := n;
    while remaining > 0
      invariant remaining <= pad && len == n + (pad - remaining) && Selections(d, padding, fs)
      invariant Cycle(n, n) + Flatten(fs) == Cycle(n, len)
      invariant remaining > 0 ==> len % n == 0
      decreases remaining
    {
      var take := if remaining < n then remaining else n;
      PadStep(d, padding, fs, len, take);
      if take == n { WrapsWhole(n, len); }
      padding := padding + [Slice(d, 0, take)];
      fs := fs + [Range(0, take)];
      remaining := remaining - take;
      len := len + take;
    }
    assert len == d.rows + pad;
  }

  /** `pad_dataproto_to_divisor`: the number of rows becomes divisible, and row i of the result
      is row i mod n. */
  method PadToDivisor<V>(d: Data<V>, divisor: nat) returns (padded: Data<V>, pad: nat)
    requires Consistent(d) && divisor > 0
    ensures pad < divisor && (d.rows + pad) % divisor == 0
    ensures d.rows == 0 ==> pad == 0 && padded == d
    ensures d.rows > 0 ==> padded == Gather(d, Cycle(d.rows, d.rows + pad))
  {
    hide Selections, Cycle, Gather, Slice, Flatten;
    if d.rows > 0 { WholeCycle(d); }
    if d.rows % divisor == 0 {
      return d, 0;
    }
    pad := divisor - d.rows % divisor;
    PadDivides(d.rows, divisor);
    var padding, fs := CollectPadding(d, pad);
    PaddedIs(d, padding, fs);
    var joined := Concat([d] + padding);
    padded := joined.value;
  }

  lemma NoPaddings<V>(d: Data<V>)
    requires Consistent(d) && d.rows > 0
    ensures Selections(d, [], []) && Cycle(d.rows, d.rows) + Flatten([]) == Cycle(d.rows, d.rows) && d.rows % d.rows == 0
  {
    OneCycle(d.rows);
  }

  lemma PaddedIs<V>(d: Data<V>, padding: seq<Data<V>>, fs: seq<seq<nat>>)
    requires Selections(d, padding, fs) && d.rows > 0
    ensures Alike([d] + padding)
    ensures var f := Cycle(d.rows, d.rows) + Flatten(fs);
      RowMap(f, d.rows) && Joined([d] + padding) == Gather(d, f)
  {
    hide Flatten, Gather, Joined, Cycle;
    WholeCycle(d);
    assert Selections(d, [d] + padding, [Cycle(d.rows, d.rows)] + fs);
    JoinedSelections(d, [d] + padding, [Cycle(d.rows, d.rows)] + fs);
    FlattenCons(Cycle(d.rows, d.rows), fs);
  }

  lemma PadDivides(n: nat, divisor: nat)
    requires divisor > 0
    ensures (n + (divisor - n % divisor)) % divisor == 0
  {
    var q := n / divisor;
    assert n == divisor * q + n % divisor;
    assert n + (divisor - n % divisor) == divisor * (q + 1);
    DivUnique(divisor * (q + 1), divisor, q + 1, 0);
  }

  lemma OneCycle(n: nat)
    requires n > 0
    ensures Cycle(n, n) == Range(0, n) && n % n == 0
  {
    forall i | 0 <= i < n ensures i % n == i { DivUnique(i, n, 0, i); }
  }

  lemma WholeCycle<V>(d: Data<V>)
    requires Consistent(d) && d.rows > 0
    ensures Gather(d, Cycle(d.rows, d.rows)) == d
  {
    OneCycle(d.rows);
    GatherAll(d);
  }

  /** e is the first k rows of d, in every column. */
  ghost predicate FirstRows<V>(d: Data<V>, k: nat, e: Data<V>)
    requires Consistent(d) && k <= d.rows
  {
    e.rows == k && e.cols.Keys == d.cols.Keys && forall c :: c in d.cols ==> e.cols[c] == d.cols[c][..k]
  }

  /** `unpad_dataproto`: the last rows go, or all of them when there are fewer. */
  method Unpad<V>(d: Data<V>, pad: nat) returns (e: Data<V>)
    requires Consistent(d)
    ensures FirstRows(d, if pad <= d.rows then d.rows - pad else 0, e)
  {
    e := d;
    if pad != 0 {
      e := Slice(d, 0, 0 - pad);
    } else {
      forall c | c in d.cols ensures d.cols[c][..d.rows] == d.cols[c] {}
    }
  }

  /** Unpadding by the size that padding reported restores the data. */
  lemma UnpadOfPadded<V>(d: Data<V>, pad: nat, e: Data<V>)
    requires Consistent(d) && d.rows > 0 && FirstRows(Gather(d, Cycle(d.rows, d.rows + pad)), d.rows, e)
    ensures e == d
  {
    var p := Gather(d, Cycle(d.rows, d.rows + pad));
    OneCycle(d.rows);
    forall c | c in d.cols ensures e.cols[c] == d.cols[c] {
      forall i | 0 <= i < d.rows ensures p.cols[c][i] == d.cols[c][i] { assert Cycle(d.rows, d.rows)[i] == i; }
    }
    assert e.cols == d.cols;
  }

  // ---------------------------------------------------------------- chunk

  /** n pieces of equally many consecutive rows, in every column. */
  ghost predicate Chunks<V>(d: Data<V>, n: nat, out: seq<Data<V>>)
    requires Consistent(d) && n > 0
  {
    d.rows % n == 0 && |out| == n && forall i :: 0 <= i < n ==>
      i * (d.rows / n) + d.rows / n <= d.rows &&
      out[i] == Gather(d, Range(i * (d.rows / n), i * (d.rows / n) + d.rows / n))
  }

  /** `chunk(n)` without padding: refused unless the rows divide evenly. */
  method Chunk<V>(d: Data<V>, n: nat) returns (ok: bool, out: seq<Data<V>>)
    requires Consistent(d) && n > 0
    ensures ok <==> d.rows % n == 0
    ensures ok ==> Chunks(d, n, out)
  {
    out := [];
    if d.rows % n != 0 { return false, out; }
    hide Gather, Consistent, ChunkOf, Range;
    var size := d.rows / n;
    assert d.rows == n * size;
    for i := 0 to n
      invariant |out| == i && forall k :: 0 <= k < i ==>
        k * size + size <= d.rows && out[k] == Gather(d, Range(k * size, k * size + size))
    {
      ChunkInside(n, size, i);
      ChunkIsGather(d, i * size, size);
      out := out + [ChunkOf(d, i * size, size)];
    }
    ok := true;
  }

  function ChunkOf<V>(d: Data<V>, start: nat, size: nat): Data<V>
    requires Consistent(d) && start + size <= d.rows
  {
    Data(size, map c | c in d.cols :: d.cols[c][start..start + size])
  }

  lemma ChunkIsGather<V>(d: Data<V>, start: nat, size: nat)
    requires Consistent(d) && start + size <= d.rows
    ensures ChunkOf(d, start, size) == Gather(d, Range(start, start + size))
  {
    forall c | c in d.cols ensures d.cols[c][start..start + size] == Pick(d.cols[c], Range(start, start + size)) {}
    assert ChunkOf(d, start, size).cols == Gather(d, Range(start, start + size)).cols;
  }

  lemma ChunkInside(n: nat, size: nat, i: nat)
    requires i < n
    ensures i * size + size <= n * size
  {
    assert n * size == i * size + size + (n - i - 1) * size;
    NatProduct(n - i - 1, size);
  }

  /** The row maps of n chunks of one size, one after the other, are all rows in order: so
      concatenating the chunks gives the data back. */
  lemma {:induction false} ChunksCover(size: nat, n: nat)
    ensures Flatten(ChunkMaps(size, n)) == Range(0, n * size)
  {
    hide Flatten;
    if n > 0 {
      ChunksCover(size, n - 1);
      NextChunk(size, n);
      FlattenSnoc(ChunkMaps(size, n - 1), Range((n - 1) * size, n * size));
    } else {
      assert ChunkMaps(size, 0) == [];
      NoChunks();
    }
  }

  lemma NoChunks()
    ensures Flatten<nat>([]) == []
  {
  }

  lemma NextChunk(size: nat, n: nat)
    requires n > 0
    ensures (n - 1) * size + size == n * size
    ensures ChunkMaps(size, n) == ChunkMaps(size, n - 1) + [Range((n - 1) * size, n * size)]
    ensures Range(0, (n - 1) * size) + Range((n - 1) * size, n * size) == Range(0, n * size)
  {
    assert (n - 1) * size + size == n * size;
  }

  function ChunkMaps(size: nat, n: nat): (fs: seq<seq<nat>>)
    ensures |fs| == n && forall i :: 0 <= i < n ==> fs[i] == Range(i * size, i * size + size)
  {
    seq(n, i requires 0 <= i < n => Range(i * size, i * size + size))
  }

  /** Joining what `Chunk` gives is the data back. */
  lemma ConcatOfChunks<V>(d: Data<V>, n: nat, out: seq<Data<V>>)
    requires Consistent(d) && n > 0 && Chunks(d, n, out)
    ensures Alike(out) && out != [] && Joined(out) == d
  {
    hide Flatten, Gather, Joined;
    var size := d.rows / n;
    assert d.rows == n * size;
    assert Selections(d, out, ChunkMaps(size, n)) by {
      forall i | 0 <= i < n ensures RowMap(ChunkMaps(size, n)[i], d.rows) && out[i] == Gather(d, ChunkMaps(size, n)[i]) {}
    }
    JoinedSelections(d, out, ChunkMaps(size, n));
    ChunksCover(size, n);
    GatherAll(d);
  }

  /** Data that is handed out in chunks and collected unchanged comes back. */
  method ChunkAndConcat<V>(d: Data<V>, n: nat) returns (ok: bool, e: Data<V>)
    requires Consistent(d) && n > 0
    ensures ok <==> d.rows % n == 0
    ensures ok ==> e == d
  {
    hide Joined, Chunks, Alike;
    var out;
    ok, out := Chunk(d, n);
    if !ok { return false, d; }
    ConcatOfChunks(d, n, out);
    var joined := Concat(out);
    e := joined.value;
  }

  // ---------------------------------------------------------------- repeat

  /** One column, every row k times in a row. */
  function RepeatEach<V>(s: seq<V>, k: nat): seq<V> {
    if s == [] then [] else RepeatEach(s[..|s| - 1], k) + seq(k, _ => s[|s| - 1])
  }

  /** One column, the whole of it k times. */
  function Tile<V>(s: seq<V>, k: nat): seq<V> { if k == 0 then [] else Tile(s, k - 1) + s }

  lemma {:induction false} RepeatEachAt<V>(s: seq<V>, k: nat, i: nat)
    requires i < |s| * k
    ensures k > 0 && |RepeatEach(s, k)| == |s| * k && i / k < |s| && RepeatEach(s, k)[i] == s[i / k]
  {
    var n := |s| - 1;
    RepeatEachSize(s, k);
    RepeatEachSize(s[..n], k);
    assert |s| * k == n * k + k;
    if i < n * k {
      RepeatEachAt(s[..n], k, i);
    } else {
      DivUnique(i, k, n, i - n * k);
    }
  }

  lemma {:induction false} RepeatEachSize<V>(s: seq<V>, k: nat)
    ensures |RepeatEach(s, k)| == |s| * k
  {
    if s != [] {
      RepeatEachSize(s[..|s| - 1], k);
      assert |s| * k == (|s| - 1) * k + k;
    }
  }

  lemma {:induction false} TileAt<V>(s: seq<V>, k: nat, i: nat)
    requires i < |s| * k
    ensures |s| > 0 && |Tile(s, k)| == |s| * k && Tile(s, k)[i] == s[i % |s|]
  {
    TileSize(s, k);
    TileSize(s, k - 1);
    assert |s| * k == |s| * (k - 1) + |s|;
    if i < |s| * (k - 1) {
      TileAt(s, k - 1, i);
    } else {
      DivUnique(i, |s|, k - 1, i - |s| * (k - 1));
    }
  }

  lemma {:induction false} TileSize<V>(s: seq<V>, k: nat)
    ensures |Tile(s, k)| == |s| * k
  {
    if k > 0 {
      TileSize(s, k - 1);
      assert |s| * k == |s| * (k - 1) + |s|;
    }
  }

  function RepeatColumn<V>(s: seq<V>, times: nat, interleave: bool): seq<V> {
    if interleave then RepeatEach(s, times) else Tile(s, times)
  }

  /** `repeat(times, interleave)`. */
  function Repeat<V>(d: Data<V>, times: nat, interleave: bool): Data<V> {
    Data(d.rows * times, map c | c in d.cols :: RepeatColumn(d.cols[c], times, interleave))
  }

  /** New row i of n * times is old row i div times when interleaved, i mod n otherwise. */
  ghost predicate RepeatMap(f: seq<nat>, n: nat, times: nat, interleave: bool) {
    |f| == n * times &&
    forall i :: 0 <= i < |f| ==> times > 0 && n > 0 && f[i] == (if interleave then i / times else i % n) && f[i] < n
  }

  lemma RepeatColumnRows<V>(s: seq<V>, times: nat, interleave: bool, f: seq<nat>)
    requires RepeatMap(f, |s|, times, interleave)
    ensures RowMap(f, |s|) && RepeatColumn(s, times, interleave) == Pick(s, f)
  {
    var r := RepeatColumn(s, times, interleave);
    RepeatEachSize(s, times);
    TileSize(s, times);
    forall i | 0 <= i < |f| ensures r[i] == s[f[i]] {
      if interleave { RepeatEachAt(s, times, i); } else { TileAt(s, times, i); }
    }
  }

  /** Repetition, on every column. */
  lemma RepeatRows<V>(d: Data<V>, times: nat, interleave: bool, f: seq<nat>)
    requires Consistent(d) && RepeatMap(f, d.rows, times, interleave)
    ensures RowMap(f, d.rows) && Repeat(d, times, interleave) == Gather(d, f)
  {
    assert RowMap(f, d.rows);
    hide RepeatColumn;
    forall c | c in d.cols ensures RepeatColumn(d.cols[c], times, interleave) == Pick(d.cols[c], f) {
      RepeatColumnRows(d.cols[c], times, interleave, f);
    }
    assert Repeat(d, times, interleave).cols == Gather(d, f).cols;
  }

  // ---------------------------------------------------------------- fold and unfold

  /** `fold_batch_dim`: n new rows of equally many old ones, or nothing if they do not divide. */
  function Fold<V>(d: Data<V>, n: nat): (e: Data<seq<V>>)
    requires Consistent(d) && n > 0 && d.rows % n == 0
    ensures Consistent(e)
  {
    TimesIs(n, d.rows / n);
    Data(n, map c | c in d.cols :: Blocks(d.cols[c], d.rows / n, n))
  }

  /** `unfold_batch_dim`, for rows that hold w rows each. */
  function Unfold<V>(e: Data<seq<V>>, w: nat): Data<V> {
    Data(e.rows * w, map c | c in e.cols :: Flatten(e.cols[c]))
  }

  /** New row g holds the old rows g * w, ..., g * w + w - 1. */
  lemma FoldAt<V>(d: Data<V>, n: nat, c: Column, g: nat, i: nat)
    requires Consistent(d) && n > 0 && d.rows % n == 0 && c in d.cols && g < n && i < d.rows / n
    ensures Fold(d, n).rows == n && c in Fold(d, n).cols && |Fold(d, n).cols[c][g]| == d.rows / n
    ensures g * (d.rows / n) + i < d.rows && Fold(d, n).cols[c][g][i] == d.cols[c][g * (d.rows / n) + i]
  {
    TimesIs(n, d.rows / n);
    BlocksAt(d.cols[c], d.rows / n, n, g, i);
  }

  /** And old row i of row g is row g * w + i again. */
  lemma UnfoldAt<V>(e: Data<seq<V>>, w: nat, c: Column, g: nat, i: nat)
    requires Consistent(e) && c in e.cols && AllOf(e.cols[c], w) && g < e.rows && i < w
    ensures Unfold(e, w).rows == e.rows * w && c in Unfold(e, w).cols
    ensures g * w + i < |Unfold(e, w).cols[c]| && Unfold(e, w).cols[c][g * w + i] == e.cols[c][g][i]
  {
    FlattenAt(e.cols[c], w, g, i);
  }

  lemma UnfoldOfFolded<V>(d: Data<V>, n: nat)
    requires Consistent(d) && n > 0 && d.rows % n == 0
    ensures Unfold(Fold(d, n), d.rows / n) == d
  {
    hide Blocks, Flatten, Times;
    var w := d.rows / n;
    TimesIs(n, w);
    assert n * w == d.rows;
    forall c | c in d.cols ensures Flatten(Blocks(d.cols[c], w, n)) == d.cols[c] {
      FlattenOfBlocks(d.cols[c], w, n);
    }
    assert Unfold(Fold(d, n), w).cols == d.cols;
  }

  lemma FoldOfUnfolded<V>(e: Data<seq<V>>, w: nat)
    requires Consistent(e) && e.rows > 0 && forall c :: c in e.cols ==> AllOf(e.cols[c], w)
    ensures Consistent(Unfold(e, w)) && (e.rows * w) % e.rows == 0 && Fold(Unfold(e, w), e.rows) == e
  {
    var d := Unfold(e, w);
    TimesIs(e.rows, w);
    DivUnique(e.rows * w, e.rows, w, 0);
    forall c | c in e.cols ensures |d.cols[c]| == d.rows && Blocks(d.cols[c], w, e.rows) == e.cols[c] {
      BlocksOfFlatten(e.cols[c], w);
    }
    assert Fold(d, e.rows).cols == e.cols;
  }
}
