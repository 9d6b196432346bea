/**
  The NIXL weight pipeline as a transition system.

  Rank 0 packs weights into two alternating buffers and exposes them to rank 1;
  every rollout rank reads its predecessor's buffer, exposes its own copy to its
  successor, yields its tensors and swaps buffers. A step is one stretch of code
  between two suspension points, or one piece of a remote read: a remote read is
  split into any number of partial copies of the source buffer as it is at the
  time of the copy, so a source that is overwritten too early would be seen.
*/
module NixlChain {

  import opened Packing
  import opened Wrappers

  /** `rollouts` is the number of rollout ranks; rank 0 is the trainer. */
  datatype Config = Config(weights: seq<Weight>, size: nat, rollouts: nat)

  datatype Meta = Meta(items: seq<TensorMeta>, last: bool)

  /** A readable operation's message: its notify key, the exposed buffer, the bucket's metadata. */
  datatype Msg = Msg(key: nat, buf: nat, meta: Meta)

  /** Between a rank and its successor: messages forward, completion notifications back. */
  datatype Link = Link(msgs: seq<Msg>, notes: seq<nat>)

  /** A rank's two buffers, which of them is `send_buf`, and its outstanding readable
      operation. Notify keys are random and unique in the code; here the key is the
      number of operations the rank created before. */
  datatype Port = Port(bufs: seq<seq<byte>>, cur: nat, op: Option<nat>, posts: nat)

  datatype SenderPhase = Packing | MustFit | LastSent | SendDone | SendFailed

  datatype Sender = Sender(port: Port, pos: nat, offset: nat, items: seq<TensorMeta>, phase: SenderPhase)

  /** A remote read in progress: source buffer, notify key, bytes copied so far. */
  datatype Xfer = Idle | Active(src: nat, key: nat, done: nat) | Complete

  datatype Phase =
    | First       // waiting for the first metadata
    | FirstRead   // waiting for the first read
    | Head        // at the loop test
    | AwaitMeta   // current bucket exposed, waiting for the next metadata
    | Yielding    // yielding the current bucket while the next one is read
    | WaitNext    // waiting for the successor
    | WaitRead    // waiting for the read
    | YieldLast   // yielding the last bucket
    | WaitLast    // waiting for the successor to read the last bucket
    | RecvDone

  /** `begun` counts started reads (`total_bytes` is the bucket size times it). */
  datatype Receiver = Receiver(
    port: Port, phase: Phase, meta: Meta, next: Meta, item: nat, begun: nat, xfer: Xfer, out: seq<Weight>)

  datatype State = State(src: Sender, rx: seq<Receiver>, links: seq<Link>)

  datatype SAct = Fill | Flush | Check | PostLast | AwaitLast

  datatype RAct = Take | Copy(n: nat) | Finish | EndRead | Post | Yield | EndYield | Note

  datatype Step = SStep(sact: SAct) | RStep(i: nat, ract: RAct)

  function Zeros(n: nat): seq<byte> { seq(n, _ => 0) }

  function InitPort(c: Config): Port {
    Port([Zeros(c.size), Zeros(c.size)], 0, None, 0)
  }

  function Init(c: Config): State {
    State(
      Sender(InitPort(c), 0, 0, [], Packing),
      seq(c.rollouts, _ => Receiver(InitPort(c), First, Meta([], false), Meta([], false), 0, 0, Idle, [])),
      seq(c.rollouts, _ => Link([], [])))
  }

  ghost predicate WellFormed(p: Port, size: nat) {
    |p.bufs| == 2 && p.cur < 2 && |p.bufs[0]| == size && |p.bufs[1]| == size
  }

  function PostPort(p: Port): Port { p.(op := Some(p.posts), posts := p.posts + 1) }

  function PostLink(p: Port, l: Link, meta: Meta): Link {
    l.(msgs := l.msgs + [Msg(p.posts, p.cur, meta)])
  }

  /** Waiting for the outstanding operation: free when there is none, else one notification. */
  predicate CanAwait(p: Port, l: Link) { p.op == None || l.notes != [] }

  function AwaitLink(p: Port, l: Link): Link
    requires CanAwait(p, l)
  {
    if p.op == None then l else l.(notes := l.notes[1..])
  }

  // ---------------------------------------------------------------- rank 0

  ghost predicate SEnabled(c: Config, s: Sender, l: Link, a: SAct) {
    && WellFormed(s.port, c.size)
    && match a
       case Fill => s.phase == Packing && s.pos < |c.weights| && s.offset + |c.weights[s.pos].data| <= c.size
       case Flush =>
         s.phase == Packing && s.pos < |c.weights| && s.offset + |c.weights[s.pos].data| > c.size
         && CanAwait(s.port, l)
       case Check => s.phase == MustFit && s.pos < |c.weights| && s.offset <= c.size
       case PostLast => s.phase == Packing && s.pos == |c.weights| && CanAwait(s.port, l)
       case AwaitLast => s.phase == LastSent && CanAwait(s.port, l)
  }

  /** Append one weight to the open bucket. */
  function Write(c: Config, s: Sender): Sender
    requires |s.port.bufs| == 2 && s.port.cur < 2 && s.pos < |c.weights|
    requires s.offset + |c.weights[s.pos].data| <= |s.port.bufs[s.port.cur]|
  {
    var w := c.weights[s.pos];
    var buf := Splice(s.port.bufs[s.port.cur], s.offset, w.data);
    s.(port := s.port.(bufs := s.port.bufs[s.port.cur := buf]),
       items := Put(s.items, TensorMeta(w.name, |w.data|, s.offset)),
       offset := s.offset + |w.data|, pos := s.pos + 1, phase := Packing)
  }

  ghost function SApply(c: Config, s: Sender, l: Link, a: SAct): (Sender, Link)
    requires SEnabled(c, s, l, a)
  {
    match a
    case Fill => (Write(c, s), l)
    case Flush =>
      var p := PostPort(s.port);
      (s.(port := p.(cur := 1 - p.cur), items := [], offset := 0, phase := MustFit),
       PostLink(s.port, AwaitLink(s.port, l), Meta(s.items, false)))
    case Check =>
      if s.offset + |c.weights[s.pos].data| <= c.size then (Write(c, s), l)
      else (s.(phase := SendFailed), l)
    case PostLast =>
      (s.(port := PostPort(s.port), phase := LastSent),
       PostLink(s.port, AwaitLink(s.port, l), Meta(s.items, true)))
    case AwaitLast =>
      (s.(port := s.port.(op := None), phase := SendDone), AwaitLink(s.port, l))
  }

  // ---------------------------------------------------------------- rollout ranks

  /** What one rollout rank's step can touch: itself, the link to its predecessor, the
      link to its successor (ignored by the last rank). */
  datatype View = View(r: Receiver, lin: Link, lout: Link)

  ghost predicate REnabled(c: Config, v: View, up: Port, a: RAct) {
    var r := v.r;
    && WellFormed(r.port, c.size) && WellFormed(up, c.size)
    && match a
       case Take => (r.phase == First || r.phase == AwaitMeta) && v.lin.msgs != []
       case Copy(n) => r.xfer.Active? && r.xfer.src < 2 && 1 <= n && r.xfer.done + n <= c.size
       case Finish => r.xfer.Active? && r.xfer.done == c.size
       case EndRead => (r.phase == FirstRead || r.phase == WaitRead) && r.xfer == Complete
       case Post => r.phase == Head
       case Yield =>
         (r.phase == Yielding || r.phase == YieldLast) && r.item < |r.meta.items|
         && r.meta.items[r.item].offset + r.meta.items[r.item].size <= c.size
       case EndYield => (r.phase == Yielding || r.phase == YieldLast) && r.item == |r.meta.items|
       case Note => (r.phase == WaitNext || r.phase == WaitLast) && CanAwait(r.port, v.lout)
  }

  ghost function RApply(c: Config, v: View, up: Port, hasNext: bool, a: RAct): View
    requires REnabled(c, v, up, a)
  {
    var r, p := v.r, v.r.port;
    match a
    case Take =>
      var m := v.lin.msgs[0];
      v.(r := r.(next := m.meta, xfer := Active(m.buf, m.key, 0), begun := r.begun + 1,
                 phase := if r.phase == First then FirstRead else Yielding),
         lin := v.lin.(msgs := v.lin.msgs[1..]))
    case Copy(n) =>
      var d, dst := r.xfer.done, 1 - p.cur;
      var buf := Splice(p.bufs[dst], d, up.bufs[r.xfer.src][d..d + n]);
      v.(r := r.(port := p.(bufs := p.bufs[dst := buf]), xfer := r.xfer.(done := d + n)))
    case Finish =>
      v.(r := r.(xfer := Complete), lin := v.lin.(notes := v.lin.notes + [r.xfer.key]))
    case EndRead =>
      v.(r := r.(meta := r.next, port := p.(cur := 1 - p.cur), xfer := Idle, phase := Head))
    case Post =>
      var phase := if r.meta.last then YieldLast else AwaitMeta;
      if hasNext
      then v.(r := r.(port := PostPort(p), phase := phase, item := 0), lout := PostLink(p, v.lout, r.meta))
      else v.(r := r.(phase := phase, item := 0))
    case Yield =>
      v.(r := r.(out := r.out + [Read(p.bufs[p.cur], r.meta.items[r.item])], item := r.item + 1))
    case EndYield =>
      v.(r := r.(phase := if r.phase == Yielding then WaitNext else WaitLast))
    case Note =>
      v.(r := r.(port := p.(op := None), phase := if r.phase == WaitNext then WaitRead else RecvDone),
         lout := AwaitLink(p, v.lout))
  }

  // ---------------------------------------------------------------- the chain

  ghost predicate Shape(c: Config, s: State) {
    c.rollouts >= 1 && |s.rx| == c.rollouts && |s.links| == c.rollouts
  }

  /** The port of rank i: rank 0 is the sender, rank i is `rx[i - 1]`. */
  function Node(s: State, i: nat): Port
    requires i <= |s.rx|
  {
    if i == 0 then s.src.port else s.rx[i - 1].port
  }

  function ViewOf(c: Config, s: State, i: nat): View
    requires i < |s.rx| == |s.links|
  {
    View(s.rx[i], s.links[i], if i + 1 < |s.links| then s.links[i + 1] else Link([], []))
  }

  ghost predicate Enabled(c: Config, s: State, step: Step) {
    && Shape(c, s)
    && match step
       case SStep(a) => SEnabled(c, s.src, s.links[0], a)
       case RStep(i, a) => i < c.rollouts && REnabled(c, ViewOf(c, s, i), Node(s, i), a)
  }

  ghost function Apply(c: Config, s: State, step: Step): State
    requires Enabled(c, s, step)
  {
    match step
    case SStep(a) =>
      var (src, l) := SApply(c, s.src, s.links[0], a);
      s.(src := src, links := s.links[0 := l])
    case RStep(i, a) =>
      var hasNext := i + 1 < c.rollouts;
      var v := RApply(c, ViewOf(c, s, i), Node(s, i), hasNext, a);
      var links := s.links[i := v.lin];
      s.(rx := s.rx[i := v.r], links := if hasNext then links[i + 1 := v.lout] else links)
  }

  /** A run: the states visited by a sequence of steps from the initial state. */
  ghost predicate IsRun(c: Config, steps: seq<Step>, states: seq<State>) {
    && |states| == |steps| + 1 && states[0] == Init(c)
    && forall j :: 0 <= j < |steps| ==>
         Enabled(c, states[j], steps[j]) && states[j + 1] == Apply(c, states[j], steps[j])
  }

  ghost predicate Final(s: State) {
    s.src.phase == SendDone && forall i :: 0 <= i < |s.rx| ==> s.rx[i].phase == RecvDone
  }

  /** The buffer rank i currently exposes to its successor's read, if any. */
  function Exposed(l: Link, d: Receiver): Option<nat> {
    if l.msgs != [] then Some(l.msgs[0].buf)
    else if d.xfer.Active? then Some(d.xfer.src)
    else None
  }
}
