/**
  The NCCL transfer: rank 0 fills two arrays in turn and broadcasts them, every other
  rank receives into two arrays in turn and yields the previous bucket meanwhile.

  A broadcast is split in two: it may read (or write) its array at any time between its
  start and the wait for its completion. The sender's operation therefore delivers the
  bytes its array holds at the wait, and waiting demands that these still are the bytes
  of the start; the receiver's array is arbitrary until the wait.
*/
module Nccl {

  import opened Packing
  import opened Wrappers

  /** One completed broadcast, as every rank sees it. */
  datatype Broadcast = Broadcast(items: seq<TensorMeta>, last: bool, bytes: seq<byte>)

  /** Broadcast k carries bucket k; bytes after the bucket are left over from before. */
  ghost predicate Carries(log: seq<Broadcast>, bs: seq<seq<Weight>>, size: nat) {
    && |log| == |bs|
    && forall k :: 0 <= k < |log| ==>
         log[k].items == Metas(bs[k]) && |log[k].bytes| == size && Image(bs[k]) <= log[k].bytes
  }

  ghost predicate NoneLast(log: seq<Broadcast>) {
    forall k :: 0 <= k < |log| ==> !log[k].last
  }

  /** The log of a whole transfer: every bucket, only the final one marked last. */
  ghost predicate WholeTransfer(log: seq<Broadcast>, ws: seq<Weight>, size: nat) {
    && Carries(log, Buckets(ws, size), size)
    && NoneLast(log[..|log| - 1]) && log[|log| - 1].last
  }

  class SendOp {
    const bucket: array<byte>
    const items: seq<TensorMeta>
    const last: bool
    ghost const image: seq<byte> // the bucket's bytes when the broadcast started

    constructor (bucket: array<byte>, items: seq<TensorMeta>, last: bool)
      ensures this.bucket == bucket && this.items == items && this.last == last && image == bucket[..]
    {
      this.bucket := bucket;
      this.items := items;
      this.last := last;
      this.image := bucket[..];
    }
  }

  class NcclSender {
    const size: nat
    const sendBuf: array<byte>
    const recvBuf: array<byte>
    var log: seq<Broadcast>
    ghost var inFlight: array?<byte> // the array a broadcast may be reading

    ghost predicate Valid()
    {
      sendBuf != recvBuf && sendBuf.Length == size && recvBuf.Length == size
    }

    constructor (size: nat)
      ensures Valid() && this.size == size && log == [] && inFlight == null && fresh(sendBuf) && fresh(recvBuf)
    {
      this.size := size;
      sendBuf := new byte[size](_ => 0);
      recvBuf := new byte[size](_ => 0);
      log := [];
      inFlight := null;
    }

    /** Start a broadcast. From here to the wait its array must not be written. */
    method Start(bucket: array<byte>, items: seq<TensorMeta>, last: bool) returns (op: SendOp)
      requires inFlight == null
      modifies this`inFlight
      ensures fresh(op) && inFlight == bucket
      ensures op.bucket == bucket && op.items == items && op.last == last && op.image == bucket[..]
    {
      op := new SendOp(bucket, items, last);
      inFlight := bucket;
    }

    /** The broadcast under way is complete; its array was left alone. */
    method Wait(op: SendOp)
      requires inFlight == op.bucket && op.bucket[..] == op.image
      modifies this`log, this`inFlight
      ensures log == old(log) + [Broadcast(op.items, op.last, op.image)] && inFlight == null
    {
      log := log + [Broadcast(op.items, op.last, op.bucket[..])];
      inFlight := null;
    }

    /** Copy one weight into a buffer, never one that is being broadcast. */
    method CopyIn(buf: array<byte>, offset: nat, data: seq<byte>)
      requires buf != inFlight && offset + |data| <= buf.Length
      modifies buf
      ensures buf[..] == Splice(old(buf[..]), offset, data)
    {
      forall x | 0 <= x < |data| { buf[offset + x] := data[x]; }
      assert forall x :: 0 <= x < buf.Length ==> buf[..][x] == Splice(old(buf[..]), offset, data)[x];
    }

    /** The finished buckets are broadcast (`sent`), except possibly the newest, whose
        broadcast is under way from buffer `b`. */
    ghost predicate Progress(full: seq<seq<Weight>>, sent: seq<Broadcast>, b: array<byte>, op: SendOp?)
      reads b, this`inFlight
    {
      && b.Length == size && NoneLast(sent) && inFlight == (if op == null then null else b)
      && if op == null then full == [] && sent == []
         else
           && full != [] && Carries(sent, full[..|full| - 1], size)
           && op.bucket == b && op.image == b[..] && !op.last
           && op.items == Metas(full[|full| - 1]) && Image(full[|full| - 1]) <= b[..]
    }

    /** The bucket being filled. */
    ghost predicate Filling(cur: seq<Weight>, a: array<byte>, items: seq<TensorMeta>, offset: nat)
      reads a
    {
      a.Length == size && items == Metas(cur) && offset == |Image(cur)| <= size && Image(cur) <= a[..]
    }

    /** Wait for the broadcast under way, if any: then all finished buckets are in the log. */
    method AwaitPrevious(ghost full: seq<seq<Weight>>, ghost sent: seq<Broadcast>, b: array<byte>, op: SendOp?)
      returns (ghost now: seq<Broadcast>)
      requires Progress(full, sent, b, op)
      modifies this`log, this`inFlight
      ensures inFlight == null
      ensures now == sent + if op == null then [] else [Broadcast(op.items, op.last, op.image)]
      ensures log == old(log) + now[|sent|..]
      ensures NoneLast(now) && Carries(now, full, size)
    {
      hide Image, Metas;
      now := sent;
      if op != null {
        now := sent + [Broadcast(op.items, op.last, op.image)];
        Wait(op);
      }
    }

    /** Starting the broadcast of a filled bucket, after which the roles of the arrays swap. */
    lemma Started(full: seq<seq<Weight>>, sent: seq<Broadcast>, cur: seq<Weight>, a: array<byte>,
          items: seq<TensorMeta>, offset: nat, op: SendOp)
      requires NoneLast(sent) && Carries(sent, full, size) && Filling(cur, a, items, offset)
      requires op.bucket == a && op.items == items && !op.last && op.image == a[..] && inFlight == a
      ensures Progress(full + [cur], sent, a, op)
    {
      assert (full + [cur])[..|full|] == full;
    }

    lemma Fresh(a: array<byte>)
      requires a.Length == size
      ensures Filling([], a, [], 0)
    {
      EmptyBucket();
    }

    lemma OtherArray(full: seq<seq<Weight>>, sent: seq<Broadcast>, a: array<byte>, b: array<byte>, op: SendOp?)
      requires Progress(full, sent, b, op) && a != b
      ensures a != inFlight
    {}

    lemma NothingSent(b: array<byte>)
      requires b.Length == size && inFlight == null
      ensures Progress([], [], b, null)
    {}

    lemma FillingParts(cur: seq<Weight>, a: array<byte>, items: seq<TensorMeta>, offset: nat)
      requires Filling(cur, a, items, offset)
      ensures a.Length == size && items == Metas(cur) && offset == |Image(cur)| <= size && Image(cur) <= a[..]
    {}

    lemma FillingFrom(cur: seq<Weight>, a: array<byte>, items: seq<TensorMeta>, offset: nat)
      requires a.Length == size && items == Metas(cur) && offset == |Image(cur)| <= size && Image(cur) <= a[..]
      ensures Filling(cur, a, items, offset)
    {}

    lemma WholeSent(ws: seq<Weight>, full: seq<seq<Weight>>, sent: seq<Broadcast>, cur: seq<Weight>,
          a: array<byte>, items: seq<TensorMeta>, offset: nat)
      requires Packed(full, cur) == Pack(ws, size) && NoneLast(sent) && Carries(sent, full, size)
      requires Filling(cur, a, items, offset)
      ensures WholeTransfer(sent + [Broadcast(items, true, a[..])], ws, size)
    {
      var log := sent + [Broadcast(items, true, a[..])];
      assert log[..|log| - 1] == sent;
    }

    /** Succeeds exactly when every weight fits in a bucket, and then has broadcast every
        bucket once, in order, only the final one marked last; otherwise it names the first
        weight that does not fit. Weights are copied while a broadcast is under way, but never
        into its array. */
    method SendWeights(ws: seq<Weight>) returns (tooLarge: Option<nat>)
      requires Valid() && inFlight == null
      modifies this`log, this`inFlight, sendBuf, recvBuf
      ensures tooLarge.None? <==> AllFit(ws, size)
      ensures tooLarge.Some? ==>
        tooLarge.value < |ws| && |ws[tooLarge.value].data| > size && AllFit(ws[..tooLarge.value], size)
      ensures tooLarge.None? ==> old(log) <= log && WholeTransfer(log[|old(log)|..], ws, size) && inFlight == null
    {
      hide Put, Image, Metas, Splice, Progress, Filling, Carries, NoneLast, WholeTransfer, Buckets, Pack;
      Packing.NothingPacked(size);
      ghost var sent, full, cur := [], [], [];
      var a, b := sendBuf, recvBuf;
      var op: SendOp? := null;
      var items: seq<TensorMeta>, offset: nat := [], 0;
      Fresh(a);
      NothingSent(b);
      for i := 0 to |ws|
        invariant (a == sendBuf && b == recvBuf) || (a == recvBuf && b == sendBuf)
        invariant AllFit(ws[..i], size) && Packed(full, cur) == Pack(ws[..i], size)
        invariant log == old(log) + sent
        invariant Progress(full, sent, b, op) && Filling(cur, a, items, offset)
      {
        var w := ws[i];
        PackSnoc(ws, size, i);
        FillingParts(cur, a, items, offset);
        if offset + |w.data| > size {
          sent := AwaitPrevious(full, sent, b, op);
          op := Start(a, items, false);
          Started(full, sent, cur, a, items, offset, op);
          a, b := b, a;
          items, offset := [], 0;
          full, cur := full + [cur], [];
          Fresh(a);
          FillingParts(cur, a, items, offset);
        }
        if offset + |w.data| > size {
          return Some(i);
        }
        OtherArray(full, sent, a, b, op);
        WriteImage(a[..], cur, w);
        items := Put(items, TensorMeta(w.name, |w.data|, offset));
        CopyIn(a, offset, w.data);
        offset := offset + |w.data|;
        cur := cur + [w];
        FillingFrom(cur, a, items, offset);
      }
      assert ws[..|ws|] == ws;
      sent := AwaitPrevious(full, sent, b, op);
      op := Start(a, items, true);
      Wait(op);
      WholeSent(ws, full, sent, cur, a, items, offset);
      assert log[|old(log)|..] == sent + [Broadcast(items, true, a[..])];
      return None;
    }
  }

  // ---------------------------------------------------------------- receiving

  ghost predicate Receivable(stream: seq<Broadcast>, size: nat) {
    forall k :: 0 <= k < |stream| ==> |stream[k].bytes| == size && InBounds(stream[k].items, size)
  }

  /** What the first k broadcasts, handled in order, make a receiver yield. */
  function Yields(log: seq<Broadcast>, k: nat, size: nat): seq<Weight>
    requires k <= |log| && Receivable(log, size)
  {
    if k == 0 then [] else Yields(log, k - 1, size) + ReadAll(log[k - 1].bytes, log[k - 1].items)
  }

  ghost predicate NoneLastBefore(log: seq<Broadcast>, n: nat) {
    n <= |log| && forall k :: 0 <= k < n ==> !log[k].last
  }

  class NcclReceiver {
    const size: nat
    const sendBuf: array<byte>
    const recvBuf: array<byte>
    var out: seq<Weight>
    ghost var inFlight: array?<byte> // the array a broadcast may be writing

    ghost predicate Valid()
    {
      sendBuf != recvBuf && sendBuf.Length == size && recvBuf.Length == size
    }

    constructor (size: nat)
      ensures Valid() && this.size == size && out == [] && inFlight == null
      ensures fresh(sendBuf) && fresh(recvBuf)
    {
      this.size := size;
      sendBuf := new byte[size](_ => 0);
      recvBuf := new byte[size](_ => 0);
      out := [];
      inFlight := null;
    }

    /** From here to the wait the array's contents are arbitrary. */
    method Begin(buf: array<byte>)
      requires inFlight == null
      modifies this`inFlight, buf
      ensures inFlight == buf
    {
      inFlight := buf;
      modify buf;
    }

    method Await(buf: array<byte>, b: Broadcast)
      requires inFlight == buf && |b.bytes| == buf.Length
      modifies this`inFlight, buf
      ensures inFlight == null && buf[..] == b.bytes
    {
      forall x | 0 <= x < buf.Length { buf[x] := b.bytes[x]; }
      inFlight := null;
    }

    /** Yield the tensors of a bucket, never from an array that is being received into. */
    method YieldBucket(buf: array<byte>, items: seq<TensorMeta>)
      requires buf != inFlight && InBounds(items, buf.Length)
      modifies this`out
      ensures out == old(out) + ReadAll(buf[..], items)
    {
      ghost var all := ReadAll(buf[..], items);
      hide ReadAll;
      for j := 0 to |items|
        invariant out == old(out) + all[..j]
      {
        var m := items[j];
        assert Read(buf[..], m) == Weight(m.name, buf[m.offset..m.offset + m.size]);
        out := out + [Weight(m.name, buf[m.offset..m.offset + m.size])];
      }
    }

    lemma YieldsStart(stream: seq<Broadcast>)
      requires Receivable(stream, size)
      ensures Yields(stream, 0, size) == [] && NoneLastBefore(stream, 0)
      ensures if stream == [] then NoneLast(stream) else |stream[0].bytes| == size
    {}

    lemma YieldsNext(stream: seq<Broadcast>, k: nat)
      requires Receivable(stream, size) && 1 <= k <= |stream| && NoneLastBefore(stream, k - 1)
      ensures InBounds(stream[k - 1].items, size) && (k < |stream| ==> |stream[k].bytes| == size)
      ensures Yields(stream, k, size) ==
              Yields(stream, k - 1, size) + ReadAll(stream[k - 1].bytes, stream[k - 1].items)
      ensures !stream[k - 1].last ==> NoneLastBefore(stream, k) && (k == |stream| ==> NoneLast(stream))
      ensures stream[k - 1].last ==> !NoneLast(stream)
    {}

    /** Takes part in the broadcasts up to the first one marked last and yields all of their
        tensors in order; without such a broadcast it waits forever (None). */
    method ReceiveWeights(stream: seq<Broadcast>) returns (broadcasts: Option<nat>)
      requires Valid() && inFlight == null && Receivable(stream, size)
      modifies this`out, this`inFlight, sendBuf, recvBuf
      ensures broadcasts.None? <==> NoneLast(stream)
      ensures broadcasts.Some? ==>
        && 1 <= broadcasts.value <= |stream| && stream[broadcasts.value - 1].last
        && NoneLastBefore(stream, broadcasts.value - 1)
        && out == old(out) + Yields(stream, broadcasts.value, size)
    {
      hide ReadAll, InBounds, Yields, NoneLast, NoneLastBefore, Receivable;
      var a, b := sendBuf, recvBuf;
      YieldsStart(stream);
      Begin(b);
      if stream == [] { return None; }
      Await(b, stream[0]);
      var metadata, k := stream[0], 1;
      a, b := b, a;
      while !metadata.last
        invariant (a == sendBuf && b == recvBuf) || (a == recvBuf && b == sendBuf)
        invariant 1 <= k <= |stream| && metadata == stream[k - 1] && NoneLastBefore(stream, k - 1)
        invariant a[..] == stream[k - 1].bytes && inFlight == null
        invariant out == old(out) + Yields(stream, k - 1, size)
        decreases |stream| - k
      {
        Begin(b);
        YieldsNext(stream, k);
        YieldBucket(a, metadata.items);
        if k == |stream| { return None; }
        Await(b, stream[k]);
        metadata := stream[k];
        k := k + 1;
        a, b := b, a;
      }
      YieldsNext(stream, k);
      YieldBucket(a, metadata.items);
      return Some(k);
    }
  }

  // ---------------------------------------------------------------- end to end

  lemma CarriesReceivable(log: seq<Broadcast>, bs: seq<seq<Weight>>, size: nat)
    requires Carries(log, bs, size)
    ensures Receivable(log, size)
  {
    forall k | 0 <= k < |log| ensures |log[k].bytes| == size && InBounds(log[k].items, size) {
      MetasInBounds(bs[k]);
    }
  }

  lemma ReadPrefix(img: seq<byte>, buf: seq<byte>, ms: seq<TensorMeta>)
    requires img <= buf && InBounds(ms, |img|)
    ensures ReadAll(buf, ms) == ReadAll(img, ms)
  {
    forall j | 0 <= j < |ms| ensures Read(buf, ms[j]) == Read(img, ms[j]) {}
  }

  lemma NothingDelivered()
    ensures Delivered([]) == []
  {}

  lemma {:induction false} YieldsDelivered(log: seq<Broadcast>, bs: seq<seq<Weight>>, size: nat, k: nat)
    requires Carries(log, bs, size) && Receivable(log, size) && k <= |log|
    ensures Yields(log, k, size) == Delivered(bs[..k])
  {
    hide Receivable, Delivered, Image, Metas, ReadAll;
    if k > 0 {
      YieldsDelivered(log, bs, size, k - 1);
      DeliveredSnoc(bs, k - 1);
      MetasInBounds(bs[k - 1]);
      ReadPrefix(Image(bs[k - 1]), log[k - 1].bytes, log[k - 1].items);
    } else {
      NothingDelivered();
    }
  }

  /** A whole transfer makes a receiver take part in exactly the sender's broadcasts and yield
      the sender's weights in order, exactly when no bucket holds one name twice. */
  lemma EndToEnd(log: seq<Broadcast>, ws: seq<Weight>, size: nat, n: nat)
    requires WholeTransfer(log, ws, size) && Receivable(log, size)
    requires 1 <= n <= |log| && log[n - 1].last && NoneLastBefore(log, n - 1)
    ensures n == |log| == |Buckets(ws, size)|
    ensures Yields(log, n, size) == ws <==> DistinctPerBucket(Buckets(ws, size))
  {
    OnlyLast(log, ws, size, n);
    var bs := Buckets(ws, size);
    hide WholeTransfer, Buckets, Yields, Delivered, DistinctPerBucket, NoneLastBefore;
    YieldsDelivered(log, bs, size, n);
    assert bs[..n] == bs;
    DeliveredIff(ws, size);
  }

  lemma OnlyLast(log: seq<Broadcast>, ws: seq<Weight>, size: nat, n: nat)
    requires WholeTransfer(log, ws, size) && 1 <= n <= |log| && log[n - 1].last
    ensures n == |log| == |Buckets(ws, size)| && Carries(log, Buckets(ws, size), size)
  {
    hide Buckets, Metas, Image;
  }

  lemma HasLast(log: seq<Broadcast>, ws: seq<Weight>, size: nat)
    requires WholeTransfer(log, ws, size)
    ensures Receivable(log, size) && !NoneLast(log)
  {
    CarriesReceivable(log, Buckets(ws, size), size);
    assert log[|log| - 1].last;
  }

  /** Sender and receiver together: after a transfer the receiver has taken part in all of the
      sender's broadcasts, one for each bucket. */
  method Transfer(sender: NcclSender, receiver: NcclReceiver, ws: seq<Weight>) returns (ok: bool, received: nat)
    requires sender.Valid() && receiver.Valid() && sender.size == receiver.size
    requires sender.log == [] && sender.inFlight == null && receiver.out == [] && receiver.inFlight == null
    requires {sender.sendBuf, sender.recvBuf} !! {receiver.sendBuf, receiver.recvBuf}
    modifies sender`log, sender`inFlight, sender.sendBuf, sender.recvBuf
    modifies receiver`out, receiver`inFlight, receiver.sendBuf, receiver.recvBuf
    ensures ok <==> AllFit(ws, sender.size)
    ensures ok ==> received == |sender.log| == |Buckets(ws, sender.size)|
    ensures ok ==> (receiver.out == ws <==> DistinctPerBucket(Buckets(ws, sender.size)))
  {
    hide Yields, Carries, Buckets;
    var tooLarge := sender.SendWeights(ws);
    if tooLarge.Some? { return false, 0; }
    assert sender.log[0..] == sender.log;
    HasLast(sender.log, ws, sender.size);
    var n := receiver.ReceiveWeights(sender.log);
    EndToEnd(sender.log, ws, sender.size, n.value);
    return true, n.value;
  }
}
