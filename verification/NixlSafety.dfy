/**
  Safety and delivery of the NIXL pipeline: an inductive invariant, local to each
  rank and each link, holds in every state of every run.
*/
module NixlSafety {

  import opened NixlChain
  import opened Packing
  import opened Wrappers

  function Plan(c: Config): (bs: seq<seq<Weight>>)
    ensures |bs| >= 1
  {
    Buckets(c.weights, c.size)
  }

  function MetaOf(c: Config, k: nat): Meta
    requires k < |Plan(c)|
  {
    Meta(Metas(Plan(c)[k]), k == |Plan(c)| - 1)
  }

  /** The buffer holds bucket k; bytes beyond the bucket are left over from before. */
  ghost predicate Holds(c: Config, buf: seq<byte>, k: nat) {
    k < |Plan(c)| && Image(Plan(c)[k]) <= buf
  }

  // ---------------------------------------------------------------- invariant

  /** A link, seen from its source port `u`, the index `wr` of the source buffer that
      may still be written, and its reader `d`. At most one operation is outstanding,
      and it is in exactly one of three places: posted, being read, or notified. */
  ghost predicate LinkInv(c: Config, u: Port, wr: nat, l: Link, d: Receiver) {
    match u.op
    case None => l.msgs == [] && l.notes == [] && d.begun == u.posts && !d.xfer.Active?
    case Some(k) =>
      && u.posts == k + 1
      && (Posted(c, u, wr, l, d, k) || Reading(c, u, wr, l, d, k) || Notified(l, d, k))
  }

  ghost predicate Posted(c: Config, u: Port, wr: nat, l: Link, d: Receiver, k: nat) {
    && |l.msgs| == 1 && l.notes == [] && !d.xfer.Active? && d.begun == k
    && k < |Plan(c)|
    && l.msgs[0].buf < 2 && l.msgs[0] == Msg(k, l.msgs[0].buf, MetaOf(c, k))
    && l.msgs[0].buf != wr
    && |u.bufs| == 2 && Holds(c, u.bufs[l.msgs[0].buf], k)
  }

  ghost predicate Reading(c: Config, u: Port, wr: nat, l: Link, d: Receiver, k: nat) {
    && l.msgs == [] && l.notes == [] && d.begun == k + 1
    && d.xfer.Active? && d.xfer.key == k && d.xfer.src < 2 && d.xfer.src != wr
    && |u.bufs| == 2 && Holds(c, u.bufs[d.xfer.src], k)
    && Copied(u.bufs[d.xfer.src], d)
  }

  ghost predicate Copied(src: seq<byte>, d: Receiver) {
    && d.xfer.Active? && |d.port.bufs| == 2 && d.port.cur < 2
    && var dst := d.port.bufs[1 - d.port.cur];
    && |src| == |dst| && d.xfer.done <= |src|
    && forall x :: 0 <= x < d.xfer.done ==> dst[x] == src[x]
  }

  ghost predicate Notified(l: Link, d: Receiver, k: nat) {
    l.msgs == [] && l.notes == [k] && d.begun == k + 1 && !d.xfer.Active?
  }

  /** The only buffer rank 0 may write. After the last bucket is exposed nothing is written. */
  function SWritable(s: Sender): int {
    if s.phase == LastSent || s.phase == SendDone then 1 - s.port.cur else s.port.cur
  }

  ghost predicate SenderInv(c: Config, s: Sender) {
    && WellFormed(s.port, c.size)
    && s.pos <= |c.weights|
    && (forall j :: 0 <= j < s.pos ==> |c.weights[j].data| <= c.size)
    && var p := Pack(c.weights[..s.pos], c.size);
    match s.phase
    case Packing =>
      && s.port.posts == |p.full| && s.items == Metas(p.cur)
      && s.offset == |Image(p.cur)| <= c.size && Image(p.cur) <= s.port.bufs[s.port.cur]
    case MustFit =>
      && s.pos < |c.weights| && s.offset == 0 && s.items == []
      && s.port.posts == |p.full| + 1 && |Image(p.cur)| + |c.weights[s.pos].data| > c.size
    case LastSent => s.pos == |c.weights| && s.port.posts == |Plan(c)| && s.port.op.Some?
    case SendDone => s.pos == |c.weights| && s.port.posts == |Plan(c)| && s.port.op == None
    case SendFailed => s.pos < |c.weights| && |c.weights[s.pos].data| > c.size
  }

  /** The bucket a rollout rank currently holds in `send_buf`. */
  function Held(r: Receiver): int {
    if r.phase == Yielding || r.phase == WaitNext || r.phase == WaitRead then r.begun - 2 else r.begun - 1
  }

  ghost predicate HoldsCurrent(c: Config, r: Receiver, k: int)
    requires WellFormed(r.port, c.size)
  {
    && 0 <= k < |Plan(c)| && r.meta == MetaOf(c, k) && Holds(c, r.port.bufs[r.port.cur], k)
  }

  ghost predicate PortStep(r: Receiver, hasNext: bool, posts: int, op: Option<nat>) {
    if hasNext then r.port.posts == posts && r.port.op == op else r.port.posts == 0 && r.port.op == None
  }

  ghost predicate YieldedBefore(c: Config, r: Receiver, k: int, item: nat)
    requires 0 <= k < |Plan(c)|
  {
    item <= |Unpacked(Plan(c)[k])| && r.out == Delivered(Plan(c)[..k]) + Unpacked(Plan(c)[k])[..item]
  }

  ghost predicate ReadsNext(c: Config, r: Receiver, k: int)
    requires WellFormed(r.port, c.size)
  {
    && r.xfer != Idle && 0 <= k && k + 1 < |Plan(c)| && r.next == MetaOf(c, k + 1)
    && (r.xfer == Complete ==> Holds(c, r.port.bufs[1 - r.port.cur], k + 1))
  }

  ghost predicate ReceiverInv(c: Config, r: Receiver, hasNext: bool) {
    && WellFormed(r.port, c.size)
    && var k := Held(r);
    match r.phase
    case First => r.begun == 0 && r.out == [] && r.xfer == Idle && PortStep(r, hasNext, 0, None)
    case FirstRead =>
      && r.begun == 1 && r.out == [] && r.xfer != Idle && PortStep(r, hasNext, 0, None)
      && r.next == MetaOf(c, 0) && (r.xfer == Complete ==> Holds(c, r.port.bufs[1 - r.port.cur], 0))
    case Head =>
      && r.xfer == Idle && HoldsCurrent(c, r, k) && PortStep(r, hasNext, k, None) && YieldedBefore(c, r, k, 0)
    case AwaitMeta =>
      && r.xfer == Idle && HoldsCurrent(c, r, k) && !r.meta.last && r.item == 0
      && PortStep(r, hasNext, k + 1, Some(k)) && YieldedBefore(c, r, k, 0)
    case Yielding =>
      && HoldsCurrent(c, r, k) && ReadsNext(c, r, k)
      && PortStep(r, hasNext, k + 1, Some(k)) && YieldedBefore(c, r, k, r.item)
    case WaitNext =>
      && HoldsCurrent(c, r, k) && ReadsNext(c, r, k)
      && PortStep(r, hasNext, k + 1, Some(k)) && YieldedBefore(c, r, k, |r.meta.items|)
    case WaitRead =>
      && HoldsCurrent(c, r, k) && ReadsNext(c, r, k)
      && PortStep(r, hasNext, k + 1, None) && YieldedBefore(c, r, k, |r.meta.items|)
    case YieldLast =>
      && r.xfer == Idle && HoldsCurrent(c, r, k) && r.meta.last
      && PortStep(r, hasNext, k + 1, Some(k)) && YieldedBefore(c, r, k, r.item)
    case WaitLast =>
      && r.xfer == Idle && HoldsCurrent(c, r, k) && r.meta.last
      && PortStep(r, hasNext, k + 1, Some(k)) && YieldedBefore(c, r, k, |r.meta.items|)
    case RecvDone =>
      && r.xfer == Idle && HoldsCurrent(c, r, k) && r.meta.last
      && PortStep(r, hasNext, k + 1, None) && YieldedBefore(c, r, k, |r.meta.items|)
  }

  /** Which buffer rank i may write. */
  function Writable(s: State, i: nat): int
    requires i <= |s.rx|
  {
    if i == 0 then SWritable(s.src) else 1 - s.rx[i - 1].port.cur
  }

  ghost predicate LinkAt(c: Config, s: State, i: nat)
    requires i < |s.rx| == |s.links|
  {
    0 <= Writable(s, i) && LinkInv(c, Node(s, i), Writable(s, i), s.links[i], s.rx[i])
  }

  ghost predicate Inv(c: Config, s: State) {
    && Shape(c, s) && SenderInv(c, s.src)
    && (forall i :: 0 <= i < |s.rx| ==> ReceiverInv(c, s.rx[i], i + 1 < c.rollouts))
    && (forall i :: 0 <= i < |s.rx| ==> LinkAt(c, s, i))
  }

  // ---------------------------------------------------------------- reading a bucket back

  lemma PrefixRead(a: seq<byte>, b: seq<byte>, lo: nat, hi: nat)
    requires a <= b && lo <= hi <= |a|
    ensures a[lo..hi] == b[lo..hi]
  {}

  /** Reading entry j of a buffer that holds bucket k gives item j of the bucket. */
  lemma ReadHeld(c: Config, buf: seq<byte>, k: nat, j: nat)
    requires Holds(c, buf, k) && j < |MetaOf(c, k).items|
    ensures var m := MetaOf(c, k).items[j];
      j < |Unpacked(Plan(c)[k])| && m.offset + m.size <= |buf| && Read(buf, m) == Unpacked(Plan(c)[k])[j]
  {
    var b := Plan(c)[k];
    MetasInBounds(b);
    var m := Metas(b)[j];
    PrefixRead(Image(b), buf, m.offset, m.offset + m.size);
  }

  lemma UnpackedCount(c: Config, k: nat)
    requires k < |Plan(c)|
    ensures |Unpacked(Plan(c)[k])| == |MetaOf(c, k).items|
  {
    MetasInBounds(Plan(c)[k]);
  }

  // ---------------------------------------------------------------- rank 0's steps

  /** Awaiting finds the key it waits for: the code's assertion never fails. */
  lemma AwaitedKey(c: Config, u: Port, wr: nat, l: Link, d: Receiver)
    requires LinkInv(c, u, wr, l, d) && CanAwait(u, l)
    ensures u.op.Some? ==> l.notes[0] == u.op.value
    ensures AwaitLink(u, l) == Link([], []) && d.begun == u.posts && !d.xfer.Active?
  {}

  lemma WriteKeepsSender(c: Config, s: Sender)
    requires SenderInv(c, s)
    requires s.pos < |c.weights| && s.offset + |c.weights[s.pos].data| <= c.size
    requires s.phase == Packing || s.phase == MustFit
    ensures SenderInv(c, Write(c, s))
  {
    hide Image, Metas, Put, Splice, Pack;
    var w, p := c.weights[s.pos], Pack(c.weights[..s.pos], c.size);
    PackSnoc(c.weights, c.size, s.pos);
    var open := if s.phase == Packing then p.cur else [];
    EmptyBucket();
    WriteImage(s.port.bufs[s.port.cur], open, w);
    assert s.phase == MustFit ==> open + [w] == [w];
  }

  lemma LinkWrite(c: Config, u: Port, u': Port, wr: nat, l: Link, d: Receiver)
    requires LinkInv(c, u, wr, l, d) && |u.bufs| == 2 && |u'.bufs| == 2
    requires forall b :: 0 <= b < 2 && b != wr ==> u'.bufs[b] == u.bufs[b]
    requires u'.op == u.op && u'.posts == u.posts
    ensures LinkInv(c, u', wr, l, d)
  {
    hide Holds, MetaOf, Plan;
  }

  lemma WriteKeeps(c: Config, s: Sender, l: Link, d: Receiver)
    requires SenderInv(c, s) && LinkInv(c, s.port, s.port.cur, l, d)
    requires s.pos < |c.weights| && s.offset + |c.weights[s.pos].data| <= c.size
    requires s.phase == Packing || s.phase == MustFit
    ensures SenderInv(c, Write(c, s)) && LinkInv(c, Write(c, s).port, s.port.cur, l, d)
    ensures Write(c, s).port.cur == s.port.cur && Write(c, s).phase == Packing
  {
    WriteKeepsSender(c, s);
    hide SenderInv, LinkInv;
    LinkWrite(c, s.port, Write(c, s).port, s.port.cur, l, d);
  }

  lemma FlushKeeps(c: Config, s: Sender, l: Link, d: Receiver)
    requires SenderInv(c, s) && SEnabled(c, s, l, Flush)
    requires LinkInv(c, s.port, s.port.cur, l, d)
    ensures var (s', l') := SApply(c, s, l, Flush);
      SenderInv(c, s') && LinkInv(c, s'.port, s'.port.cur, l', d)
  {
    hide Image, Metas, Pack, Buckets;
    AwaitedKey(c, s.port, s.port.cur, l, d);
    PackFlushed(c.weights, c.size, s.pos);
    var (s', l') := SApply(c, s, l, Flush);
    assert l'.msgs == [Msg(s.port.posts, s.port.cur, MetaOf(c, s.port.posts))];
    assert Posted(c, s'.port, s'.port.cur, l', d, s.port.posts);
  }

  lemma PostLastKeeps(c: Config, s: Sender, l: Link, d: Receiver)
    requires SenderInv(c, s) && SEnabled(c, s, l, PostLast)
    requires LinkInv(c, s.port, s.port.cur, l, d)
    ensures var (s', l') := SApply(c, s, l, PostLast);
      SenderInv(c, s') && LinkInv(c, s'.port, 1 - s'.port.cur, l', d)
  {
    hide Image, Metas, Pack;
    AwaitedKey(c, s.port, s.port.cur, l, d);
    var (s', l') := SApply(c, s, l, PostLast);
    assert c.weights[..s.pos] == c.weights;
    assert Plan(c)[s.port.posts] == Pack(c.weights, c.size).cur;
    assert l'.msgs == [Msg(s.port.posts, s.port.cur, MetaOf(c, s.port.posts))];
    assert Posted(c, s'.port, 1 - s'.port.cur, l', d, s.port.posts);
  }

  lemma SenderKeeps(c: Config, s: Sender, l: Link, d: Receiver, a: SAct)
    requires SenderInv(c, s) && SEnabled(c, s, l, a)
    requires LinkInv(c, s.port, SWritable(s), l, d)
    ensures var (s', l') := SApply(c, s, l, a);
      SenderInv(c, s') && LinkInv(c, s'.port, SWritable(s'), l', d)
  {
    hide Image, Metas, Pack, Buckets, Plan, Write;
    match a
    case Fill => WriteKeeps(c, s, l, d);
    case Check =>
      if s.offset + |c.weights[s.pos].data| <= c.size { WriteKeeps(c, s, l, d); }
    case Flush => FlushKeeps(c, s, l, d);
    case PostLast => PostLastKeeps(c, s, l, d);
    case AwaitLast => AwaitedKey(c, s.port, SWritable(s), l, d);
  }

  // ---------------------------------------------------------------- rollout ranks' steps

  /** Everything one rollout rank's step depends on or can break. */
  ghost predicate Local(c: Config, v: View, up: Port, wr: nat, down: Option<Receiver>) {
    && WellFormed(up, c.size)
    && ReceiverInv(c, v.r, down.Some?)
    && LinkInv(c, up, wr, v.lin, v.r)
    && (down.Some? ==> LinkInv(c, v.r.port, 1 - v.r.port.cur, v.lout, down.value))
  }

  lemma TakeKeeps(c: Config, v: View, up: Port, wr: nat, down: Option<Receiver>)
    requires Local(c, v, up, wr, down) && REnabled(c, v, up, Take)
    ensures Local(c, RApply(c, v, up, down.Some?, Take), up, wr, down)
  {
    hide Plan, Image, Unpacked, Delivered, Metas;
    var v' := RApply(c, v, up, down.Some?, Take);
    assert v'.lin.msgs == [];
    assert Reading(c, up, wr, v'.lin, v'.r, up.op.value);
  }

  lemma CopyKeeps(c: Config, v: View, up: Port, wr: nat, down: Option<Receiver>, n: nat)
    requires Local(c, v, up, wr, down) && REnabled(c, v, up, Copy(n))
    ensures Local(c, RApply(c, v, up, down.Some?, Copy(n)), up, wr, down)
  {
    hide Plan, Image, Unpacked, Delivered, Metas, MetaOf;
    var v' := RApply(c, v, up, down.Some?, Copy(n));
    assert Copied(up.bufs[v.r.xfer.src], v'.r);
    assert Reading(c, up, wr, v'.lin, v'.r, up.op.value);
    assert v'.r.port.bufs[v.r.port.cur] == v.r.port.bufs[v.r.port.cur];
  }

  lemma FinishKeeps(c: Config, v: View, up: Port, wr: nat, down: Option<Receiver>)
    requires Local(c, v, up, wr, down) && REnabled(c, v, up, Finish)
    ensures Local(c, RApply(c, v, up, down.Some?, Finish), up, wr, down)
  {
    hide Plan, Image, Unpacked, Delivered, Metas, MetaOf;
    var v' := RApply(c, v, up, down.Some?, Finish);
    assert v.r.port.bufs[1 - v.r.port.cur] == up.bufs[v.r.xfer.src];
    assert Notified(v'.lin, v'.r, up.op.value);
  }

  lemma EndReadKeeps(c: Config, v: View, up: Port, wr: nat, down: Option<Receiver>)
    requires Local(c, v, up, wr, down) && REnabled(c, v, up, EndRead)
    ensures Local(c, RApply(c, v, up, down.Some?, EndRead), up, wr, down)
  {
    hide Plan, Image, Unpacked, Metas;
    var k := Held(v.r);
    if v.r.phase == WaitRead {
      UnpackedCount(c, k);
      DeliveredSnoc(Plan(c), k);
    }
  }

  lemma PostKeeps(c: Config, v: View, up: Port, wr: nat, down: Option<Receiver>)
    requires Local(c, v, up, wr, down) && REnabled(c, v, up, Post)
    ensures Local(c, RApply(c, v, up, down.Some?, Post), up, wr, down)
  {
    hide Plan, Image, Unpacked, Delivered, Metas;
    var v' := RApply(c, v, up, down.Some?, Post);
    if down.Some? {
      assert v'.lout.msgs == [Msg(v.r.port.posts, v.r.port.cur, v.r.meta)];
      assert Posted(c, v'.r.port, 1 - v'.r.port.cur, v'.lout, down.value, v.r.port.posts);
    }
  }

  /** A link only depends on its reader's counters, transfer and buffers. */
  lemma LinkFrame(c: Config, u: Port, wr: nat, l: Link, d: Receiver, d': Receiver)
    requires LinkInv(c, u, wr, l, d)
    requires d'.begun == d.begun && d'.xfer == d.xfer && d'.port.bufs == d.port.bufs && d'.port.cur == d.port.cur
    ensures LinkInv(c, u, wr, l, d')
  {
    hide Holds, MetaOf, Plan;
  }

  lemma YieldKeeps(c: Config, v: View, up: Port, wr: nat, down: Option<Receiver>)
    requires Local(c, v, up, wr, down) && REnabled(c, v, up, Yield)
    ensures Local(c, RApply(c, v, up, down.Some?, Yield), up, wr, down)
  {
    hide Plan, Image, Delivered, Holds, Read, LinkInv;
    var k, v' := Held(v.r), RApply(c, v, up, down.Some?, Yield);
    ReadHeld(c, v.r.port.bufs[v.r.port.cur], k, v.r.item);
    var u := Unpacked(Plan(c)[k]);
    assert u[..v.r.item + 1] == u[..v.r.item] + [u[v.r.item]];
    assert YieldedBefore(c, v'.r, k, v'.r.item);
    LinkFrame(c, up, wr, v.lin, v.r, v'.r);
  }

  lemma NoteKeeps(c: Config, v: View, up: Port, wr: nat, down: Option<Receiver>)
    requires Local(c, v, up, wr, down) && REnabled(c, v, up, Note)
    ensures Local(c, RApply(c, v, up, down.Some?, Note), up, wr, down)
  {
    hide Plan, Image, Unpacked, Delivered, Metas, MetaOf, Holds;
    if down.Some? {
      AwaitedKey(c, v.r.port, 1 - v.r.port.cur, v.lout, down.value);
    }
  }

  lemma EndYieldKeeps(c: Config, v: View, up: Port, wr: nat, down: Option<Receiver>)
    requires Local(c, v, up, wr, down) && REnabled(c, v, up, EndYield)
    ensures Local(c, RApply(c, v, up, down.Some?, EndYield), up, wr, down)
  {
    hide Plan, Image, Unpacked, Delivered, Metas;
  }

  lemma ReceiverKeeps(c: Config, v: View, up: Port, wr: nat, down: Option<Receiver>, a: RAct)
    requires Local(c, v, up, wr, down) && REnabled(c, v, up, a)
    ensures Local(c, RApply(c, v, up, down.Some?, a), up, wr, down)
  {
    hide Local, RApply;
    match a
    case Take => TakeKeeps(c, v, up, wr, down);
    case Copy(n) => CopyKeeps(c, v, up, wr, down, n);
    case Finish => FinishKeeps(c, v, up, wr, down);
    case EndRead => EndReadKeeps(c, v, up, wr, down);
    case Post => PostKeeps(c, v, up, wr, down);
    case Yield => YieldKeeps(c, v, up, wr, down);
    case EndYield => EndYieldKeeps(c, v, up, wr, down);
    case Note => NoteKeeps(c, v, up, wr, down);
  }

  // ---------------------------------------------------------------- the whole chain

  function Down(c: Config, s: State, i: nat): Option<Receiver>
    requires |s.rx| == c.rollouts
  {
    if i + 1 < c.rollouts then Some(s.rx[i + 1]) else None
  }

  lemma PortShape(c: Config, r: Receiver, hasNext: bool)
    requires ReceiverInv(c, r, hasNext)
    ensures WellFormed(r.port, c.size)
  {}

  lemma LocalAt(c: Config, s: State, i: nat)
    requires Inv(c, s) && i < c.rollouts
    ensures 0 <= Writable(s, i)
    ensures Local(c, ViewOf(c, s, i), Node(s, i), Writable(s, i), Down(c, s, i))
  {
    hide ReceiverInv, LinkInv, Holds;
    assert LinkAt(c, s, i);
    if i > 0 { PortShape(c, s.rx[i - 1], true); }
    if i + 1 < c.rollouts { assert LinkAt(c, s, i + 1); }
  }

  /** A rollout rank's step touches its own state and at most its two links. */
  lemma RecvStepShape(c: Config, s: State, i: nat, a: RAct)
    requires Shape(c, s) && Enabled(c, s, RStep(i, a))
    ensures var s', v := Apply(c, s, RStep(i, a)), RApply(c, ViewOf(c, s, i), Node(s, i), i + 1 < c.rollouts, a);
      && Shape(c, s') && s'.src == s.src && s'.rx == s.rx[i := v.r] && s'.links[i] == v.lin
      && (i + 1 < c.rollouts ==> s'.links[i + 1] == v.lout)
      && forall j :: 0 <= j < |s.links| && j != i && j != i + 1 ==> s'.links[j] == s.links[j]
  {
    hide RApply;
  }

  lemma LocalParts(c: Config, v: View, up: Port, wr: nat, down: Option<Receiver>)
    requires Local(c, v, up, wr, down)
    ensures ReceiverInv(c, v.r, down.Some?) && WellFormed(v.r.port, c.size) && WellFormed(up, c.size)
    ensures LinkInv(c, up, wr, v.lin, v.r)
    ensures down.Some? ==> LinkInv(c, v.r.port, 1 - v.r.port.cur, v.lout, down.value)
  {
    hide LinkInv;
  }

  /** Lifting: if only rank i + 1 and its two links changed, and those are fine, the chain is fine. */
  lemma LiftLocal(c: Config, s: State, s': State, i: nat)
    requires Inv(c, s) && Shape(c, s') && i < c.rollouts && s'.src == s.src
    requires forall j :: 0 <= j < c.rollouts && j != i ==> s'.rx[j] == s.rx[j]
    requires forall j :: 0 <= j < c.rollouts && j != i && j != i + 1 ==> s'.links[j] == s.links[j]
    requires ReceiverInv(c, s'.rx[i], i + 1 < c.rollouts)
    requires LinkInv(c, Node(s, i), Writable(s, i), s'.links[i], s'.rx[i])
    requires s'.rx[i].port.cur <= 1
    requires i + 1 < c.rollouts ==>
      LinkInv(c, s'.rx[i].port, 1 - s'.rx[i].port.cur, s'.links[i + 1], s.rx[i + 1])
    ensures Inv(c, s')
  {
    hide SenderInv, ReceiverInv, LinkInv;
    forall j | 0 <= j < c.rollouts ensures LinkAt(c, s', j) {
      assert LinkAt(c, s, j);
    }
  }

  lemma EnabledParts(c: Config, s: State, i: nat, a: RAct)
    requires Enabled(c, s, RStep(i, a))
    ensures Shape(c, s) && i < c.rollouts && |s.rx| == |s.links| == c.rollouts
    ensures REnabled(c, ViewOf(c, s, i), Node(s, i), a)
  {
    hide REnabled;
  }

  lemma RecvStepKeepsInv(c: Config, s: State, i: nat, a: RAct)
    requires Inv(c, s) && Enabled(c, s, RStep(i, a))
    ensures Inv(c, Apply(c, s, RStep(i, a)))
  {
    hide *;
    EnabledParts(c, s, i, a);
    RecvStepShape(c, s, i, a);
    LocalAt(c, s, i);
    var v, up, wr, down := ViewOf(c, s, i), Node(s, i), Writable(s, i), Down(c, s, i);
    ReceiverKeeps(c, v, up, wr, down, a);
    DownSome(c, s, i);
    LocalParts(c, RApply(c, v, up, down.Some?, a), up, wr, down);
    WellFormedCur(RApply(c, v, up, down.Some?, a).r.port, c.size);
    LiftLocal(c, s, Apply(c, s, RStep(i, a)), i);
  }

  lemma WellFormedCur(p: Port, size: nat)
    requires WellFormed(p, size)
    ensures p.cur <= 1
  {}

  lemma DownSome(c: Config, s: State, i: nat)
    requires i < |s.rx| == c.rollouts
    ensures Down(c, s, i).Some? <==> i + 1 < c.rollouts
    ensures i + 1 < c.rollouts ==> Down(c, s, i).value == s.rx[i + 1]
  {}

  lemma SendStepKeepsInv(c: Config, s: State, a: SAct)
    requires Inv(c, s) && Enabled(c, s, SStep(a))
    ensures Inv(c, Apply(c, s, SStep(a)))
  {
    var s' := Apply(c, s, SStep(a));
    assert LinkAt(c, s, 0);
    SenderKeeps(c, s.src, s.links[0], s.rx[0], a);
    SenderShape(c, s'.src);
    hide SenderInv, ReceiverInv, LinkInv, SApply, SEnabled;
    forall i | 0 <= i < |s'.rx| ensures LinkAt(c, s', i) {
      if i > 0 { assert LinkAt(c, s, i); }
    }
  }

  lemma SenderShape(c: Config, s: Sender)
    requires SenderInv(c, s)
    ensures WellFormed(s.port, c.size)
  {}

  lemma StepKeepsInv(c: Config, s: State, step: Step)
    requires Inv(c, s) && Enabled(c, s, step)
    ensures Inv(c, Apply(c, s, step))
  {
    hide Inv, Enabled, Apply;
    match step
    case SStep(a) => SendStepKeepsInv(c, s, a);
    case RStep(i, a) => RecvStepKeepsInv(c, s, i, a);
  }

  lemma InitInv(c: Config)
    requires c.rollouts >= 1
    ensures Inv(c, Init(c))
  {
    var s := Init(c);
    assert c.weights[..0] == [];
    EmptyBucket();
    forall i | 0 <= i < |s.rx| ensures LinkAt(c, s, i) {}
  }

  // ---------------------------------------------------------------- over whole runs

  /** The invariant holds in every state of every run, whatever the interleaving. */
  lemma {:induction false} RunInv(c: Config, steps: seq<Step>, states: seq<State>, j: nat)
    requires c.rollouts >= 1 && IsRun(c, steps, states) && j < |states|
    ensures Inv(c, states[j])
  {
    if j == 0 {
      InitInv(c);
    } else {
      RunInv(c, steps, states, j - 1);
      hide Inv, Enabled, Apply, Init;
      StepKeepsInv(c, states[j - 1], steps[j - 1]);
    }
  }

  /** A buffer exposed to a successor keeps its bytes through every step taken while it is
      exposed: no rank writes a buffer its successor has yet to finish reading. */
  lemma ExposedUnwritten(c: Config, steps: seq<Step>, states: seq<State>, j: nat, i: nat)
    requires c.rollouts >= 1 && IsRun(c, steps, states) && j < |steps| && i < c.rollouts
    ensures |states[j].rx| == |states[j].links| == |states[j + 1].rx| == c.rollouts
    ensures var e := Exposed(states[j].links[i], states[j].rx[i]);
      e.Some? ==>
        && e.value < |Node(states[j], i).bufs| == |Node(states[j + 1], i).bufs|
        && Node(states[j + 1], i).bufs[e.value] == Node(states[j], i).bufs[e.value]
  {
    RunInv(c, steps, states, j);
    RunInv(c, steps, states, j + 1);
    var s, s', step := states[j], states[j + 1], steps[j];
    var e := Exposed(s.links[i], s.rx[i]);
    assert LinkAt(c, s, i);
    if e.Some? {
      LinkExposes(c, Node(s, i), Writable(s, i), s.links[i], s.rx[i]);
      OnlyWritableChanges(c, s, step, i, e.value);
    }
  }

  lemma LinkExposes(c: Config, u: Port, wr: nat, l: Link, d: Receiver)
    requires LinkInv(c, u, wr, l, d) && Exposed(l, d).Some?
    ensures Exposed(l, d).value < 2 == |u.bufs| && Exposed(l, d).value != wr
  {
    hide Holds, MetaOf, Plan;
  }

  lemma OnlyWritableChanges(c: Config, s: State, step: Step, i: nat, b: nat)
    requires Inv(c, s) && Enabled(c, s, step) && i < c.rollouts && b < 2 && b != Writable(s, i)
    ensures var s' := Apply(c, s, step);
      |s'.rx| == c.rollouts && |Node(s, i).bufs| == |Node(s', i).bufs| == 2
      && Node(s', i).bufs[b] == Node(s, i).bufs[b]
  {
    hide ReceiverInv, LinkInv, Put, Read, Splice;
    match step
    case SStep(a) =>
      if i > 0 { PortShape(c, s.rx[i - 1], i < c.rollouts); }
    case RStep(k, a) =>
      RecvStepShape(c, s, k, a);
      if i > 0 { PortShape(c, s.rx[i - 1], i < c.rollouts); }
  }

  /** At most one readable operation is outstanding per link, and a notification that has
      arrived carries the key the waiting rank expects. */
  lemma NotifyKeyMatches(c: Config, steps: seq<Step>, states: seq<State>, j: nat, i: nat)
    requires c.rollouts >= 1 && IsRun(c, steps, states) && j < |states| && i < c.rollouts
    ensures |states[j].rx| == |states[j].links| == c.rollouts
    ensures var s := states[j]; var l := s.links[i];
      && |l.msgs| + |l.notes| + (if s.rx[i].xfer.Active? then 1 else 0) <= 1
      && (l.notes != [] ==> Node(s, i).op == Some(l.notes[0]))
  {
    RunInv(c, steps, states, j);
    assert LinkAt(c, states[j], i);
    hide Holds, MetaOf, Plan, ReceiverInv, SenderInv;
  }

  /** What a rank has yielded is at all times a prefix of what the buckets deliver, and a
      rank that has finished has yielded all of it: the sender's weights, in order,
      unless some bucket held one name twice. */
  lemma Delivery(c: Config, steps: seq<Step>, states: seq<State>, j: nat, i: nat)
    requires c.rollouts >= 1 && IsRun(c, steps, states) && j < |states| && i < c.rollouts
    ensures |states[j].rx| == c.rollouts
    ensures states[j].rx[i].out <= Delivered(Plan(c))
    ensures states[j].rx[i].phase == RecvDone ==> states[j].rx[i].out == Delivered(Plan(c))
    ensures states[j].rx[i].phase == RecvDone ==>
      (states[j].rx[i].out == c.weights <==> DistinctPerBucket(Plan(c)))
  {
    RunInv(c, steps, states, j);
    var r := states[j].rx[i];
    assert ReceiverInv(c, r, i + 1 < c.rollouts);
    YieldedPrefix(c, r, i + 1 < c.rollouts);
    DeliveredIff(c.weights, c.size);
  }

  lemma {:induction false} DeliveredPrefix(bs: seq<seq<Weight>>, k: nat)
    requires k <= |bs|
    ensures Delivered(bs[..k]) <= Delivered(bs)
    decreases |bs| - k
  {
    if k == |bs| {
      assert bs[..k] == bs;
    } else {
      DeliveredSnoc(bs, k);
      DeliveredPrefix(bs, k + 1);
    }
  }

  lemma YieldedPrefix(c: Config, r: Receiver, hasNext: bool)
    requires ReceiverInv(c, r, hasNext)
    ensures r.out <= Delivered(Plan(c))
    ensures r.phase == RecvDone ==> r.out == Delivered(Plan(c))
  {
    hide Delivered, Unpacked, Holds, Plan;
    var k := Held(r);
    if r.phase != First && r.phase != FirstRead {
      DeliveredSnoc(Plan(c), k);
      DeliveredPrefix(Plan(c), k + 1);
      UnpackedCount(c, k);
      if r.phase == RecvDone {
        assert Plan(c)[..k + 1] == Plan(c);
      }
    }
  }
}
