/**
  Progress of the NIXL pipeline: no reachable state is stuck before every rank has
  finished, and every run is finite, whatever the interleaving.
*/
module NixlProgress {

  import opened Arithmetic
  import opened NixlChain
  import opened NixlSafety
  import opened Packing
  import opened Wrappers

  // ---------------------------------------------------------------- no deadlock

  ghost predicate CanStep(c: Config, s: State) {
    exists step :: Enabled(c, s, step)
  }

  /** A rank whose read is under way can go on with it. */
  lemma ReadGoesOn(c: Config, s: State, i: nat)
    requires Inv(c, s) && i < c.rollouts && s.rx[i].xfer.Active?
    ensures CanStep(c, s)
  {
    var r := s.rx[i];
    LocalAt(c, s, i);
    LocalParts(c, ViewOf(c, s, i), Node(s, i), Writable(s, i), Down(c, s, i));
    ReadingOf(c, Node(s, i), Writable(s, i), s.links[i], r);
    var a := if r.xfer.done == c.size then Finish else Copy(c.size - r.xfer.done);
    assert REnabled(c, ViewOf(c, s, i), Node(s, i), a);
    assert Enabled(c, s, RStep(i, a));
  }

  lemma ReadingOf(c: Config, u: Port, wr: nat, l: Link, d: Receiver)
    requires LinkInv(c, u, wr, l, d) && d.xfer.Active? && WellFormed(u, c.size)
    ensures d.xfer.src < 2 && d.xfer.done <= c.size
  {
    hide Holds, MetaOf, Plan;
  }

  /** A rank that is neither finished nor waiting for a message or a notification can step. */
  lemma BusyRank(c: Config, s: State, i: nat)
    requires Inv(c, s) && i < c.rollouts
    requires var r := s.rx[i];
      && r.phase != RecvDone
      && ((r.phase == First || r.phase == AwaitMeta) ==> s.links[i].msgs != [])
      && ((r.phase == WaitNext || r.phase == WaitLast) ==> CanAwait(r.port, ViewOf(c, s, i).lout))
    ensures CanStep(c, s)
  {
    hide LinkInv, ReceiverInv, Local;
    var r := s.rx[i];
    LocalAt(c, s, i);
    LocalParts(c, ViewOf(c, s, i), Node(s, i), Writable(s, i), Down(c, s, i));
    if r.xfer.Active? {
      ReadGoesOn(c, s, i);
    } else {
      var a := NextAct(r);
      NextActEnabled(c, ViewOf(c, s, i), Node(s, i), Down(c, s, i).Some?);
      assert Enabled(c, s, RStep(i, a));
    }
  }

  function NextAct(r: Receiver): RAct {
    match r.phase
    case First => Take
    case FirstRead => EndRead
    case Head => Post
    case AwaitMeta => Take
    case Yielding => if r.item < |r.meta.items| then Yield else EndYield
    case WaitNext => Note
    case WaitRead => EndRead
    case YieldLast => if r.item < |r.meta.items| then Yield else EndYield
    case WaitLast => Note
    case RecvDone => Note
  }

  lemma NextActEnabled(c: Config, v: View, up: Port, hasNext: bool)
    requires WellFormed(up, c.size) && WellFormed(v.r.port, c.size)
    requires ReceiverInv(c, v.r, hasNext) && !v.r.xfer.Active? && v.r.phase != RecvDone
    requires (v.r.phase == First || v.r.phase == AwaitMeta) ==> v.lin.msgs != []
    requires (v.r.phase == WaitNext || v.r.phase == WaitLast) ==> CanAwait(v.r.port, v.lout)
    ensures REnabled(c, v, up, NextAct(v.r))
  {
    hide ReceiverInv;
    LocalNext(c, v.r, hasNext);
  }

  lemma LocalNext(c: Config, r: Receiver, hasNext: bool)
    requires ReceiverInv(c, r, hasNext) && !r.xfer.Active? && r.phase != RecvDone
    ensures r.phase == FirstRead || r.phase == WaitRead ==> r.xfer == Complete
    ensures r.phase == Yielding || r.phase == YieldLast ==> r.item <= |r.meta.items|
    ensures (r.phase == Yielding || r.phase == YieldLast) && r.item < |r.meta.items| ==>
      r.meta.items[r.item].offset + r.meta.items[r.item].size <= c.size
  {
    hide Plan, Delivered, Unpacked, Holds, Metas;
    if (r.phase == Yielding || r.phase == YieldLast) {
      var k := Held(r);
      UnpackedCount(c, k);
      if r.item < |r.meta.items| { ReadHeld(c, r.port.bufs[r.port.cur], k, r.item); }
    }
  }

  /** Waiting for the successor never blocks the chain for good. */
  lemma {:induction false} SuccessorAnswers(c: Config, s: State, i: nat)
    requires Inv(c, s) && i < c.rollouts && Node(s, i).op.Some?
    ensures s.links[i].notes != [] || CanStep(c, s)
    decreases c.rollouts - i
  {
    var d, l := s.rx[i], s.links[i];
    assert LinkAt(c, s, i);
    assert ReceiverInv(c, d, i + 1 < c.rollouts);
    if l.notes == [] && l.msgs == [] {
      NoNoteNoMsg(c, Node(s, i), Writable(s, i), l, d);
      ReadGoesOn(c, s, i);
    } else if l.notes == [] {
      PostedOf(c, Node(s, i), Writable(s, i), l, d);
      NotDoneYet(c, d, i + 1 < c.rollouts);
      if d.phase == WaitNext || d.phase == WaitLast {
        if d.port.op.Some? {
          LastHasNoOp(c, d, i + 1 < c.rollouts);
          SuccessorAnswers(c, s, i + 1);
        }
        if !CanStep(c, s) { BusyRank(c, s, i); }
      } else {
        BusyRank(c, s, i);
      }
    }
  }

  lemma NoNoteNoMsg(c: Config, u: Port, wr: nat, l: Link, d: Receiver)
    requires LinkInv(c, u, wr, l, d) && u.op.Some? && l.notes == [] && l.msgs == []
    ensures d.xfer.Active?
  {
    hide Holds, MetaOf, Plan;
  }

  lemma PostedOf(c: Config, u: Port, wr: nat, l: Link, d: Receiver)
    requires LinkInv(c, u, wr, l, d) && u.op.Some? && l.msgs != []
    ensures d.begun < |Plan(c)| && !d.xfer.Active?
  {
    hide Holds, MetaOf, Plan;
  }

  lemma LastHasNoOp(c: Config, d: Receiver, hasNext: bool)
    requires ReceiverInv(c, d, hasNext) && d.port.op.Some?
    ensures hasNext
  {
    hide Holds, MetaOf, Plan, Delivered, Unpacked, ReadsNext, HoldsCurrent, YieldedBefore;
  }

  /** A finished rank has read every bucket. */
  lemma NotDoneYet(c: Config, d: Receiver, hasNext: bool)
    requires ReceiverInv(c, d, hasNext) && d.begun < |Plan(c)|
    ensures d.phase != RecvDone
  {
    hide Plan, Delivered, Unpacked;
  }

  /** Waiting for the predecessor never blocks the chain for good. */
  lemma {:induction false} PredecessorDelivers(c: Config, s: State, i: nat)
    requires Inv(c, s) && AllFit(c.weights, c.size) && i < c.rollouts
    requires (s.rx[i].phase == First || s.rx[i].phase == AwaitMeta)
    ensures CanStep(c, s)
    decreases i
  {
    hide Plan, SenderInv, LinkInv, ReceiverInv;
    assert LinkAt(c, s, i);
    assert ReceiverInv(c, s.rx[i], i + 1 < c.rollouts);
    WaitsForMore(c, s.rx[i], i + 1 < c.rollouts);
    if s.links[i].msgs != [] {
      BusyRank(c, s, i);
    } else {
      WaitingReader(c, Node(s, i), Writable(s, i), s.links[i], s.rx[i]);
      if i == 0 {
        SenderPostsAll(c, s.src);
        SenderActs(c, s);
      } else {
        var u := s.rx[i - 1];
        assert ReceiverInv(c, u, true);
        PostsAll(c, u);
        if u.phase == First || u.phase == AwaitMeta {
          PredecessorDelivers(c, s, i - 1);
        } else {
          BusyRank(c, s, i - 1);
        }
      }
    }
  }

  lemma WaitsForMore(c: Config, d: Receiver, hasNext: bool)
    requires ReceiverInv(c, d, hasNext) && (d.phase == First || d.phase == AwaitMeta)
    ensures d.begun < |Plan(c)| && d.xfer == Idle
  {
    hide Plan, Delivered, Unpacked;
  }

  /** The reader has caught up with all messages: its source has nothing unanswered. */
  lemma WaitingReader(c: Config, u: Port, wr: nat, l: Link, d: Receiver)
    requires LinkInv(c, u, wr, l, d) && l.msgs == [] && d.xfer == Idle
    ensures CanAwait(u, l) && d.begun == u.posts
  {
    hide Holds, MetaOf, Plan;
  }

  lemma PostsAll(c: Config, u: Receiver)
    requires ReceiverInv(c, u, true) && u.port.posts < |Plan(c)|
    ensures u.phase != RecvDone
  {
    hide Plan, Delivered, Unpacked;
  }

  lemma SenderPostsAll(c: Config, s: Sender)
    requires SenderInv(c, s) && s.port.posts < |Plan(c)|
    ensures s.phase != SendDone
  {
    hide Plan, Pack, Image, Metas;
  }

  /** Rank 0 acts unless it has sent every bucket. */
  lemma SenderActs(c: Config, s: State)
    requires Inv(c, s) && AllFit(c.weights, c.size) && CanAwait(s.src.port, s.links[0])
    requires s.src.phase != SendDone
    ensures CanStep(c, s)
  {
    hide Image, Metas, Plan, Pack;
    var src := s.src;
    if src.phase == Packing {
      if src.pos == |c.weights| {
        assert Enabled(c, s, SStep(PostLast));
      } else if src.offset + |c.weights[src.pos].data| <= c.size {
        assert Enabled(c, s, SStep(Fill));
      } else {
        assert Enabled(c, s, SStep(Flush));
      }
    } else if src.phase == MustFit {
      assert Enabled(c, s, SStep(Check));
    } else {
      assert Enabled(c, s, SStep(AwaitLast));
    }
  }

  /** No deadlock: when every weight fits in a bucket, a state that is not final has a step. */
  lemma NoDeadlock(c: Config, s: State)
    requires Inv(c, s) && AllFit(c.weights, c.size) && !Final(s)
    ensures CanStep(c, s)
  {
    if s.src.phase != SendDone {
      if s.src.port.op.Some? { SuccessorAnswers(c, s, 0); }
      if !CanStep(c, s) { SenderActs(c, s); }
    } else {
      var i :| 0 <= i < |s.rx| && s.rx[i].phase != RecvDone;
      if s.rx[i].phase == First || s.rx[i].phase == AwaitMeta {
        PredecessorDelivers(c, s, i);
      } else if s.rx[i].phase == WaitNext || s.rx[i].phase == WaitLast {
        assert ReceiverInv(c, s.rx[i], i + 1 < c.rollouts);
        if s.rx[i].port.op.Some? {
          LastHasNoOp(c, s.rx[i], i + 1 < c.rollouts);
          SuccessorAnswers(c, s, i + 1);
        }
        if !CanStep(c, s) { BusyRank(c, s, i); }
      } else {
        BusyRank(c, s, i);
      }
    }
  }

  // ---------------------------------------------------------------- termination

  function SenderRank(c: Config, s: Sender): int {
    3 * (|c.weights| - s.pos) +
    (match s.phase case Packing => 2 case MustFit => 1 case LastSent => 1 case SendDone => 0 case SendFailed => 0)
  }

  function PhaseRank(p: Phase): int {
    match p
    case First => 1
    case FirstRead => 8
    case Head => 7
    case AwaitMeta => 6
    case Yielding => 5
    case WaitNext => 4
    case WaitRead => 3
    case YieldLast => 2
    case WaitLast => 1
    case RecvDone => 0
  }

  /** Buckets still to read and copy, buckets still to handle, tensors still to yield. */
  function ReceiverRank(c: Config, r: Receiver): int {
    (|Plan(c)| - r.begun) * (c.size + 2) + (if r.xfer.Active? then c.size - r.xfer.done + 1 else 0)
    + 8 * (|Plan(c)| - Held(r)) + PhaseRank(r.phase)
    + |Delivered(Plan(c))| - |r.out|
  }

  function RankSum(c: Config, rx: seq<Receiver>): int {
    if rx == [] then 0 else RankSum(c, rx[..|rx| - 1]) + ReceiverRank(c, rx[|rx| - 1])
  }

  function Rank(c: Config, s: State): int {
    SenderRank(c, s.src) + RankSum(c, s.rx)
  }

  lemma {:induction false} RankSumUpdate(c: Config, rx: seq<Receiver>, i: nat, r: Receiver)
    requires i < |rx|
    ensures RankSum(c, rx[i := r]) == RankSum(c, rx) - ReceiverRank(c, rx[i]) + ReceiverRank(c, r)
  {
    hide ReceiverRank;
    var n := |rx| - 1;
    if i == n {
      assert rx[i := r][..n] == rx[..n];
    } else {
      assert rx[i := r][..n] == rx[..n][i := r];
      RankSumUpdate(c, rx[..n], i, r);
    }
  }

  lemma ReceiverStepRank(c: Config, v: View, up: Port, wr: nat, down: Option<Receiver>, a: RAct)
    requires Local(c, v, up, wr, down) && REnabled(c, v, up, a)
    ensures ReceiverRank(c, RApply(c, v, up, down.Some?, a).r) < ReceiverRank(c, v.r)
  {
    hide Plan, Delivered, Unpacked, Holds, HoldsCurrent, LinkInv, Read, Splice;
    var r, n, b := v.r, |Plan(c)|, c.size + 2;
    if a == Take {
      assert (n - (r.begun + 1)) * b == (n - r.begun) * b - b;
    }
  }

  lemma ReceiverRankBounded(c: Config, r: Receiver, hasNext: bool, u: Port, wr: nat, l: Link)
    requires ReceiverInv(c, r, hasNext) && LinkInv(c, u, wr, l, r) && WellFormed(u, c.size)
    ensures ReceiverRank(c, r) >= 0
  {
    hide ReceiverInv, LinkInv, Plan, Delivered, WellFormed;
    YieldedPrefix(c, r, hasNext);
    if r.xfer.Active? { ReadingOf(c, u, wr, l, r); }
    BegunBounded(c, r, hasNext);
    NatProduct(|Plan(c)| - r.begun, c.size + 2);
  }

  lemma BegunBounded(c: Config, r: Receiver, hasNext: bool)
    requires ReceiverInv(c, r, hasNext)
    ensures r.begun <= |Plan(c)| && Held(r) < |Plan(c)|
  {
    hide Plan, Delivered, Unpacked, Holds;
  }

  lemma {:induction false} RankSumBounded(c: Config, rx: seq<Receiver>)
    requires forall i :: 0 <= i < |rx| ==> ReceiverRank(c, rx[i]) >= 0
    ensures RankSum(c, rx) >= 0
  {
    hide ReceiverRank;
    if rx != [] {
      assert forall i :: 0 <= i < |rx| - 1 ==> rx[..|rx| - 1][i] == rx[i];
      RankSumBounded(c, rx[..|rx| - 1]);
    }
  }

  lemma RankBounded(c: Config, s: State)
    requires Inv(c, s)
    ensures Rank(c, s) >= 0
  {
    hide ReceiverRank, RankSum;
    forall i | 0 <= i < |s.rx| ensures ReceiverRank(c, s.rx[i]) >= 0 {
      LocalAt(c, s, i);
      ReceiverRankBounded(c, s.rx[i], i + 1 < c.rollouts, Node(s, i), Writable(s, i), s.links[i]);
    }
    RankSumBounded(c, s.rx);
  }

  /** Every step, of any rank, brings the end of the run closer. */
  lemma StepRank(c: Config, s: State, step: Step)
    requires Inv(c, s) && Enabled(c, s, step)
    ensures Rank(c, Apply(c, s, step)) < Rank(c, s)
  {
    match step
    case SStep(a) => SenderStepRank(c, s, a);
    case RStep(i, a) => RecvStepRank(c, s, i, a);
  }

  lemma SenderStepRank(c: Config, s: State, a: SAct)
    requires Inv(c, s) && Enabled(c, s, SStep(a))
    ensures Rank(c, Apply(c, s, SStep(a))) < Rank(c, s)
  {
    hide Plan, Pack, Image, Metas, Put, Splice, ReceiverRank, RankSum, ReceiverInv, LinkInv;
  }

  lemma RecvStepRank(c: Config, s: State, i: nat, a: RAct)
    requires Inv(c, s) && Enabled(c, s, RStep(i, a))
    ensures Rank(c, Apply(c, s, RStep(i, a))) < Rank(c, s)
  {
    EnabledParts(c, s, i, a);
    RecvStepShape(c, s, i, a);
    LocalAt(c, s, i);
    DownSome(c, s, i);
    hide Inv, Enabled, Apply, RApply, REnabled, Local, ReceiverRank, RankSum, SenderRank;
    var v, up := ViewOf(c, s, i), Node(s, i);
    ReceiverStepRank(c, v, up, Writable(s, i), Down(c, s, i), a);
    RankSumUpdate(c, s.rx, i, RApply(c, v, up, i + 1 < c.rollouts, a).r);
  }

  /** Every run is finite: its length never exceeds the initial rank. */
  lemma {:induction false} RunLength(c: Config, steps: seq<Step>, states: seq<State>, j: nat)
    requires c.rollouts >= 1 && IsRun(c, steps, states) && j < |states|
    ensures 0 <= Rank(c, states[j]) && j + Rank(c, states[j]) <= Rank(c, Init(c))
  {
    hide Inv, Enabled, Apply, Init, Rank;
    RunInv(c, steps, states, j);
    RankBounded(c, states[j]);
    if j > 0 {
      RunLength(c, steps, states, j - 1);
      RunInv(c, steps, states, j - 1);
      StepRank(c, states[j - 1], steps[j - 1]);
    }
  }

  lemma {:induction false} InitRankSum(c: Config, n: nat, rx: seq<Receiver>, r: Receiver)
    requires |rx| == n && forall i :: 0 <= i < n ==> rx[i] == r
    ensures RankSum(c, rx) == n * ReceiverRank(c, r)
  {
    hide ReceiverRank;
    if n > 0 { InitRankSum(c, n - 1, rx[..n - 1], r); }
  }

  /** The bound on the number of steps, in the sizes of the transfer. */
  lemma RunBound(c: Config)
    ensures Rank(c, Init(c)) ==
      3 * |c.weights| + 2
      + c.rollouts * (|Plan(c)| * (c.size + 2) + 8 * (|Plan(c)| + 1) + 1 + |Delivered(Plan(c))|)
  {
    var r := Receiver(InitPort(c), First, Meta([], false), Meta([], false), 0, 0, Idle, []);
    InitRankSum(c, c.rollouts, Init(c).rx, r);
    assert ReceiverRank(c, r) == |Plan(c)| * (c.size + 2) + 8 * (|Plan(c)| + 1) + 1 + |Delivered(Plan(c))|;
  }

  // ---------------------------------------------------------------- how every run ends

  /** A run that cannot go on has finished exactly when every weight fits in a bucket; and a
      finished run delivered to every rollout rank the sender's weights in order, given
      names that do not repeat within a bucket. */
  lemma RunEnds(c: Config, steps: seq<Step>, states: seq<State>)
    requires c.rollouts >= 1 && IsRun(c, steps, states) && !CanStep(c, states[|steps|])
    ensures Final(states[|steps|]) <==> AllFit(c.weights, c.size)
    ensures AllFit(c.weights, c.size) ==>
      |states[|steps|].rx| == c.rollouts
      && forall i :: 0 <= i < c.rollouts ==>
           (states[|steps|].rx[i].out == c.weights <==> DistinctPerBucket(Plan(c)))
  {
    var j := |steps|;
    RunInv(c, steps, states, j);
    if AllFit(c.weights, c.size) {
      if !Final(states[j]) { NoDeadlock(c, states[j]); }
      forall i | 0 <= i < c.rollouts
        ensures |states[j].rx| == c.rollouts
        ensures states[j].rx[i].out == c.weights <==> DistinctPerBucket(Plan(c))
      {
        Delivery(c, steps, states, j, i);
      }
    } else {
      assert SenderInv(c, states[j].src);
    }
  }
}
