/**
  The grouping of reward requests that the Student and the Teacher reward managers share:
  requests queue under their group id, a full group schedules its finalisation at once, the
  first request of a smaller group starts a timer, and a caller that waited too long gives
  up. The event loop may interleave all of this in any order.
*/
module GroupMachine {

  import opened Sequences

  datatype Uid = Uid(text: string)

  /** What one finalisation took out of the queue; it is resolved when its results are set. */
  datatype Batch = Batch(uid: Uid, ids: seq<nat>, resolved: bool)

  datatype Done = ByGroup(batch: nat) | ByTimeout

  /**
    Request number i belongs to group arrived[i]. `soon` counts the finalisations that are
    scheduled and not yet run, `later` the timers that have not fired.
  */
  datatype State = State(
    arrived: seq<Uid>,
    queue: map<Uid, seq<nat>>,
    timers: set<Uid>,
    soon: multiset<Uid>,
    later: multiset<Uid>,
    batches: seq<Batch>,
    done: map<nat, Done>)

  const START := State([], map[], {}, multiset{}, multiset{}, [], map[])

  datatype Step = Arrive(uid: Uid) | FireTimer(uid: Uid) | Finalize(uid: Uid) | Resolve(batch: nat) | Timeout(id: nat)

  function Queued(s: State, u: Uid): seq<nat> { if u in s.queue then s.queue[u] else [] }

  predicate Enabled(s: State, t: Step) {
    match t
    case Arrive(_) => true
    case FireTimer(u) => u in s.later
    case Finalize(u) => u in s.soon
    case Resolve(b) => b < |s.batches| && !s.batches[b].resolved
    case Timeout(id) => id < |s.arrived| && id !in s.done
  }

  /** The request fills its group, which is then finalised soon. */
  predicate Fills(n: nat, s: State, u: Uid) { |Queued(s, u)| + 1 >= n }

  /** The group is not full and has no timer yet. */
  predicate StartsTimer(n: nat, s: State, u: Uid) { !Fills(n, s, u) && u !in s.timers }

  function Enqueue(n: nat, s: State, u: Uid): State {
    State(
      s.arrived + [u],
      s.queue[u := Queued(s, u) + [|s.arrived|]],
      if StartsTimer(n, s, u) then s.timers + {u} else s.timers,
      if Fills(n, s, u) then s.soon + multiset{u} else s.soon,
      if StartsTimer(n, s, u) then s.later + multiset{u} else s.later,
      s.batches,
      s.done)
  }

  function TakeGroup(s: State, u: Uid): State {
    State(
      s.arrived,
      s.queue - {u},
      s.timers - {u},
      s.soon - multiset{u},
      s.later,
      if u in s.queue then s.batches + [Batch(u, s.queue[u], false)] else s.batches,
      s.done)
  }

  function SetResults(s: State, b: nat): State
    requires b < |s.batches|
  {
    s.(batches := s.batches[b := s.batches[b].(resolved := true)],
       done := (map id | id in s.batches[b].ids :: ByGroup(b)) + s.done)
  }

  function Fire(s: State, u: Uid): State {
    s.(later := s.later - multiset{u}, soon := s.soon + multiset{u})
  }

  function GiveUp(s: State, id: nat): State { s.(done := s.done[id := ByTimeout]) }

  /** One step, for an expected group size of n. */
  function Apply(n: nat, s: State, t: Step): State
    requires Enabled(s, t)
  {
    match t
    case Arrive(u) => Enqueue(n, s, u)
    case FireTimer(u) => Fire(s, u)
    case Finalize(u) => TakeGroup(s, u)
    case Resolve(b) => SetResults(s, b)
    case Timeout(id) => GiveUp(s, id)
  }

  /** states[j] is the state before steps[j] of a run from the start. */
  ghost predicate IsRun(n: nat, steps: seq<Step>, states: seq<State>) {
    && |states| == |steps| + 1 && states[0] == START
    && forall j :: 0 <= j < |steps| ==> Enabled(states[j], steps[j]) && states[j + 1] == Apply(n, states[j], steps[j])
  }

  // ---------------------------------------------------------------- conservation

  /** The requests of group u, in the order of their arrival. */
  function Of(arrived: seq<Uid>, u: Uid): seq<nat> {
    if arrived == [] then []
    else Of(arrived[..|arrived| - 1], u) + if arrived[|arrived| - 1] == u then [|arrived| - 1] else []
  }

  /** What the finalisations of u have taken, batch after batch. */
  function Popped(bs: seq<Batch>, u: Uid): seq<nat> {
    if bs == [] then []
    else Popped(bs[..|bs| - 1], u) + if bs[|bs| - 1].uid == u then bs[|bs| - 1].ids else []
  }

  /** A waiting group has a finalisation on its way. */
  ghost predicate Scheduled(s: State) {
    && (forall u :: u in s.queue ==> s.queue[u] != [] && (u in s.soon || u in s.later))
    && (forall u :: u in s.timers ==> u in s.soon || u in s.later)
  }

  /** Taken and waiting requests of a group are together all its requests, once each, in order. */
  ghost predicate Conserved(s: State) {
    forall u :: Popped(s.batches, u) + Queued(s, u) == Of(s.arrived, u)
  }

  ghost predicate Answered(s: State) {
    && (forall b :: 0 <= b < |s.batches| ==> s.batches[b].ids != [])
    && (forall b, id :: 0 <= b < |s.batches| && s.batches[b].resolved && id in s.batches[b].ids ==> id in s.done)
    && (forall id :: id in s.done ==>
          id < |s.arrived| &&
          (s.done[id].ByGroup? ==>
             s.done[id].batch < |s.batches| && s.batches[s.done[id].batch].resolved &&
             id in s.batches[s.done[id].batch].ids))
  }

  ghost predicate Inv(s: State) { Scheduled(s) && Conserved(s) && Answered(s) }

  lemma PoppedResolve(bs: seq<Batch>, b: nat, u: Uid)
    requires b < |bs|
    ensures Popped(bs[b := bs[b].(resolved := true)], u) == Popped(bs, u)
  {
    var cs := bs[b := bs[b].(resolved := true)];
    if b < |bs| - 1 {
      PoppedResolve(bs[..|bs| - 1], b, u);
      assert cs[..|bs| - 1] == bs[..|bs| - 1][b := bs[b].(resolved := true)];
    } else {
      assert cs[..|bs| - 1] == bs[..|bs| - 1];
    }
  }

  ghost predicate Increasing(ids: seq<nat>) { forall i, j :: 0 <= i < j < |ids| ==> ids[i] < ids[j] }

  lemma {:induction false} OfIncreasing(arrived: seq<Uid>, u: Uid)
    ensures forall id :: id in Of(arrived, u) ==> id < |arrived|
    ensures Increasing(Of(arrived, u))
  {
    if arrived != [] {
      var r := Of(arrived[..|arrived| - 1], u);
      OfIncreasing(arrived[..|arrived| - 1], u);
      forall i, j | 0 <= i < j < |Of(arrived, u)| ensures Of(arrived, u)[i] < Of(arrived, u)[j] {
        assert r[i] in r;
        if j < |r| { assert Of(arrived, u)[j] == r[j]; }
      }
    }
  }

  lemma {:induction false} OfExactly(arrived: seq<Uid>, u: Uid, id: nat)
    ensures id in Of(arrived, u) <==> id < |arrived| && arrived[id] == u
  {
    if arrived != [] { OfExactly(arrived[..|arrived| - 1], u, id); }
  }

  lemma {:induction false} PoppedContains(bs: seq<Batch>, b: nat, id: nat)
    requires b < |bs| && id in bs[b].ids
    ensures id in Popped(bs, bs[b].uid)
  {
    if b < |bs| - 1 { PoppedContains(bs[..|bs| - 1], b, id); }
  }

  lemma {:induction false} PoppedFrom(bs: seq<Batch>, u: Uid, id: nat) returns (b: nat)
    requires id in Popped(bs, u)
    ensures b < |bs| && bs[b].uid == u && id in bs[b].ids
  {
    var last := |bs| - 1;
    if bs[last].uid == u && id in bs[last].ids { b := last; } else { b := PoppedFrom(bs[..last], u, id); }
  }

  lemma PoppedSnoc(bs: seq<Batch>, b: Batch, u: Uid)
    ensures Popped(bs + [b], u) == Popped(bs, u) + if b.uid == u then b.ids else []
  {
    assert (bs + [b])[..|bs|] == bs;
  }

  lemma OfSnoc(arrived: seq<Uid>, u: Uid, v: Uid)
    ensures Of(arrived + [u], v) == Of(arrived, v) + if u == v then [|arrived|] else []
  {
    assert (arrived + [u])[..|arrived|] == arrived;
  }

  lemma QueuedArrived(s: State, u: Uid, id: nat)
    requires Conserved(s) && (id in Queued(s, u) || id in Popped(s.batches, u))
    ensures id < |s.arrived| && s.arrived[id] == u
  {
    OfExactly(s.arrived, u, id);
    assert Popped(s.batches, u) + Queued(s, u) == Of(s.arrived, u);
  }

  // ---------------------------------------------------------------- every step keeps the invariant

  lemma ArriveSchedules(n: nat, s: State, u: Uid)
    requires Scheduled(s)
    ensures Scheduled(Enqueue(n, s, u))
  {
  }

  lemma ArriveQueues(n: nat, s: State, u: Uid, v: Uid)
    ensures Queued(Enqueue(n, s, u), v) == Queued(s, v) + if u == v then [|s.arrived|] else []
    ensures Enqueue(n, s, u).batches == s.batches && Enqueue(n, s, u).arrived == s.arrived + [u]
    ensures Enqueue(n, s, u).soon[v] ==
            s.soon[v] + if u == v && |Queued(s, u)| + 1 >= n then 1 else 0
  {
  }

  lemma ArriveConserves(n: nat, s: State, u: Uid)
    requires Conserved(s)
    ensures Conserved(Enqueue(n, s, u))
  {
    hide Enqueue, Queued, Of, Popped;
    var z := Enqueue(n, s, u);
    forall v ensures Popped(z.batches, v) + Queued(z, v) == Of(z.arrived, v) {
      ArriveQueues(n, s, u, v);
      OfSnoc(s.arrived, u, v);
      assert Popped(s.batches, v) + Queued(s, v) == Of(s.arrived, v);
    }
  }

  lemma ArriveKeeps(n: nat, s: State, u: Uid)
    requires Inv(s)
    ensures Inv(Enqueue(n, s, u))
  {
    hide Scheduled, Conserved;
    ArriveSchedules(n, s, u);
    ArriveConserves(n, s, u);
  }

  lemma TakeConserves(s: State, u: Uid)
    requires Conserved(s)
    ensures Conserved(TakeGroup(s, u))
  {
    var z := TakeGroup(s, u);
    forall v ensures Popped(z.batches, v) + Queued(z, v) == Of(z.arrived, v) {
      assert Popped(s.batches, v) + Queued(s, v) == Of(s.arrived, v);
      if u in s.queue { PoppedSnoc(s.batches, Batch(u, s.queue[u], false), v); }
    }
  }

  lemma TakeAnswers(s: State, u: Uid)
    requires Scheduled(s) && Answered(s)
    ensures Answered(TakeGroup(s, u))
  {
  }

  lemma TakeSchedules(s: State, u: Uid)
    requires Scheduled(s)
    ensures Scheduled(TakeGroup(s, u))
  {
  }

  lemma TakeKeeps(s: State, u: Uid)
    requires Inv(s)
    ensures Inv(TakeGroup(s, u))
  {
    hide Scheduled, Conserved, Answered;
    TakeSchedules(s, u);
    TakeConserves(s, u);
    TakeAnswers(s, u);
  }

  lemma ResolveKeeps(s: State, b: nat)
    requires Inv(s) && b < |s.batches| && !s.batches[b].resolved
    ensures Inv(SetResults(s, b))
  {
    var z := SetResults(s, b);
    forall v ensures Popped(z.batches, v) + Queued(z, v) == Of(z.arrived, v) {
      assert Popped(s.batches, v) + Queued(s, v) == Of(s.arrived, v);
      PoppedResolve(s.batches, b, v);
    }
    forall id | id in s.batches[b].ids ensures id < |s.arrived| {
      PoppedContains(s.batches, b, id);
      QueuedArrived(s, s.batches[b].uid, id);
    }
  }

  lemma ConservedSame(s: State, z: State)
    requires Conserved(s) && z.batches == s.batches && z.queue == s.queue && z.arrived == s.arrived
    ensures Conserved(z)
  {
    forall v ensures Popped(z.batches, v) + Queued(z, v) == Of(z.arrived, v) {
      assert Popped(s.batches, v) + Queued(s, v) == Of(s.arrived, v);
    }
  }

  lemma FireKeeps(s: State, u: Uid)
    requires Inv(s) && u in s.later
    ensures Inv(Fire(s, u))
  {
    hide Conserved;
    ConservedSame(s, Fire(s, u));
  }

  lemma GiveUpKeeps(s: State, id: nat)
    requires Inv(s) && id < |s.arrived|
    ensures Inv(GiveUp(s, id))
  {
    hide Conserved;
    ConservedSame(s, GiveUp(s, id));
  }

  lemma StepKeepsInv(n: nat, s: State, t: Step)
    requires Inv(s) && Enabled(s, t)
    ensures Inv(Apply(n, s, t))
  {
    hide Inv;
    match t
    case Arrive(u) => ArriveKeeps(n, s, u);
    case FireTimer(u) => FireKeeps(s, u);
    case Finalize(u) => TakeKeeps(s, u);
    case Resolve(b) => ResolveKeeps(s, b);
    case Timeout(id) => GiveUpKeeps(s, id);
  }

  /** In every reachable state, under any interleaving. */
  lemma {:induction false} RunInv(n: nat, steps: seq<Step>, states: seq<State>, j: nat)
    requires IsRun(n, steps, states) && j <= |steps|
    ensures Inv(states[j])
  {
    hide Inv;
    if j == 0 {
      StartInv();
    } else {
      RunInv(n, steps, states, j - 1);
      StepKeepsInv(n, states[j - 1], steps[j - 1]);
    }
  }

  lemma StartInv()
    ensures Inv(START)
  {
  }

  // ---------------------------------------------------------------- exactly once

  lemma {:induction false} BatchesIncrease(bs: seq<Batch>, u: Uid, b: nat, c: nat, i: nat, j: nat)
    requires Increasing(Popped(bs, u))
    requires b <= c < |bs| && bs[b].uid == bs[c].uid == u
    requires i < |bs[b].ids| && j < |bs[c].ids| && (b < c || i < j)
    ensures bs[b].ids[i] < bs[c].ids[j]
  {
    var init, last := bs[..|bs| - 1], |bs| - 1;
    var p := Popped(init, u);
    assert forall k :: 0 <= k < |p| ==> Popped(bs, u)[k] == p[k];
    if c < last {
      BatchesIncrease(init, u, b, c, i, j);
    } else {
      assert Popped(bs, u) == p + bs[last].ids;
      assert Popped(bs, u)[|p| + j] == bs[c].ids[j];
      if b == c {
        assert Popped(bs, u)[|p| + i] == bs[b].ids[i];
      } else {
        PoppedContains(init, b, bs[b].ids[i]);
        var k :| 0 <= k < |p| && p[k] == bs[b].ids[i];
        assert Popped(bs, u)[k] == p[k];
      }
    }
  }

  /** No request is taken twice: two places in the batches hold different requests. */
  lemma TakenOnce(s: State, b: nat, c: nat, i: nat, j: nat)
    requires Inv(s)
    requires b < |s.batches| && c < |s.batches| && i < |s.batches[b].ids| && j < |s.batches[c].ids|
    requires s.batches[b].ids[i] == s.batches[c].ids[j]
    ensures b == c && i == j
  {
    var id, u := s.batches[b].ids[i], s.batches[b].uid;
    PoppedContains(s.batches, b, id);
    PoppedContains(s.batches, c, id);
    QueuedArrived(s, u, id);
    QueuedArrived(s, s.batches[c].uid, id);
    OfIncreasing(s.arrived, u);
    assert Popped(s.batches, u) + Queued(s, u) == Of(s.arrived, u);
    var p := Popped(s.batches, u);
    forall x, y | 0 <= x < y < |p| ensures p[x] < p[y] {
      assert p[x] == Of(s.arrived, u)[x] && p[y] == Of(s.arrived, u)[y];
    }
    if b < c || (b == c && i < j) {
      BatchesIncrease(s.batches, u, b, c, i, j);
    } else if c < b || (b == c && j < i) {
      BatchesIncrease(s.batches, u, c, b, j, i);
    }
  }

  /** And every request is somewhere: still waiting in its group, or in one batch of its
      group, never both. */
  lemma TakenOrWaiting(s: State, id: nat)
    requires Inv(s) && id < |s.arrived|
    ensures id in Queued(s, s.arrived[id]) <==>
            !(exists b :: 0 <= b < |s.batches| && s.batches[b].uid == s.arrived[id] && id in s.batches[b].ids)
  {
    var u := s.arrived[id];
    var p, q := Popped(s.batches, u), Queued(s, u);
    OfIncreasing(s.arrived, u);
    OfExactly(s.arrived, u, id);
    assert p + q == Of(s.arrived, u);
    assert id in p + q;
    if id in p { var b := PoppedFrom(s.batches, u, id); }
    if b :| 0 <= b < |s.batches| && s.batches[b].uid == u && id in s.batches[b].ids {
      PoppedContains(s.batches, b, id);
      var x :| 0 <= x < |p| && p[x] == id;
      assert (p + q)[x] == id;
      forall y | 0 <= y < |q| ensures q[y] > id {
        assert (p + q)[|p| + y] == q[y];
      }
    }
  }

  /** A result, once set, is never replaced. */
  lemma ResultStays(n: nat, s: State, t: Step, id: nat)
    requires Enabled(s, t) && id in s.done
    ensures id in Apply(n, s, t).done && Apply(n, s, t).done[id] == s.done[id]
  {
  }

  // ---------------------------------------------------------------- progress

  /** Nothing is scheduled and every finalisation has set its results. */
  ghost predicate Quiescent(s: State) {
    s.soon == multiset{} && s.later == multiset{} && forall b :: 0 <= b < |s.batches| ==> s.batches[b].resolved
  }

  /** At rest nobody waits: no group is stranded in the queue and
      every request has its one result, from the batch that took it unless it timed out. */
  lemma AtRest(z: State)
    requires Inv(z) && Quiescent(z)
    ensures z.queue == map[] && z.timers == {}
    ensures forall id :: 0 <= id < |z.arrived| ==> id in z.done
    ensures forall id :: id in z.done && z.done[id].ByGroup? ==>
              z.done[id].batch < |z.batches| && id in z.batches[z.done[id].batch].ids &&
              id < |z.arrived| && z.batches[z.done[id].batch].uid == z.arrived[id]
  {
    assert forall u :: u !in z.queue;
    forall id | 0 <= id < |z.arrived| ensures id in z.done { TakenOrWaiting(z, id); }
    forall id | id in z.done && z.done[id].ByGroup?
      ensures z.batches[z.done[id].batch].uid == z.arrived[id]
    {
      var b := z.done[id].batch;
      PoppedContains(z.batches, b, id);
      QueuedArrived(z, z.batches[b].uid, id);
    }
  }

  /** A state with work left can always take a step that no caller has to start. */
  lemma NotStuck(s: State) returns (t: Step)
    requires !Quiescent(s)
    ensures Enabled(s, t) && !t.Arrive? && !t.Timeout?
  {
    if s.soon != multiset{} {
      var u :| u in s.soon;
      t := Finalize(u);
    } else if s.later != multiset{} {
      var u :| u in s.later;
      t := FireTimer(u);
    } else {
      var b :| 0 <= b < |s.batches| && !s.batches[b].resolved;
      t := Resolve(b);
    }
  }

  function Unresolved(bs: seq<Batch>): nat {
    if bs == [] then 0 else Unresolved(bs[..|bs| - 1]) + if bs[|bs| - 1].resolved then 0 else 1
  }

  lemma {:induction false} UnresolvedStep(bs: seq<Batch>, b: nat)
    requires b < |bs| && !bs[b].resolved
    ensures Unresolved(bs[b := bs[b].(resolved := true)]) == Unresolved(bs) - 1
  {
    var cs := bs[b := bs[b].(resolved := true)];
    if b < |bs| - 1 {
      UnresolvedStep(bs[..|bs| - 1], b);
      assert cs[..|bs| - 1] == bs[..|bs| - 1][b := bs[b].(resolved := true)];
    } else {
      assert cs[..|bs| - 1] == bs[..|bs| - 1];
    }
  }

  /** The work that is still ahead, arrivals aside. */
  function Work(s: State): int {
    3 * |s.later| + 2 * |s.soon| + Unresolved(s.batches) + |s.arrived| - |s.done|
  }

  lemma DoneBounded(s: State)
    requires Answered(s)
    ensures |s.done| <= |s.arrived|
  {
    SubsetSize(s.done.Keys, Indices(|s.arrived|));
    assert |s.done.Keys| == |s.done|;
  }

  lemma {:induction false} SubsetSize<T>(a: set<T>, b: set<T>)
    requires a <= b
    ensures |a| <= |b|
  {
    if a != {} {
      var x :| x in a;
      SubsetSize(a - {x}, b - {x});
    }
  }

  lemma FinalizeWork(s: State, u: Uid)
    requires u in s.soon
    ensures Work(TakeGroup(s, u)) < Work(s)
  {
    var z := TakeGroup(s, u);
    if u in s.queue { assert z.batches[..|s.batches|] == s.batches; } else { assert z.batches == s.batches; }
  }

  lemma ResolveWork(s: State, b: nat)
    requires b < |s.batches| && !s.batches[b].resolved
    ensures Work(SetResults(s, b)) < Work(s)
  {
    var z := SetResults(s, b);
    UnresolvedStep(s.batches, b);
    SubsetSize(s.done.Keys, z.done.Keys);
    assert |s.done.Keys| == |s.done| && |z.done.Keys| == |z.done|;
  }

  lemma TimeoutWork(s: State, id: nat)
    requires id !in s.done
    ensures Work(GiveUp(s, id)) < Work(s)
  {
  }

  lemma StepWork(n: nat, s: State, t: Step)
    requires Enabled(s, t)
    ensures t.Arrive? ==> Work(Apply(n, s, t)) <= Work(s) + 4
    ensures !t.Arrive? ==> Work(Apply(n, s, t)) < Work(s)
    ensures |Apply(n, s, t).arrived| == |s.arrived| + if t.Arrive? then 1 else 0
  {
    match t
    case Arrive(_) =>
    case FireTimer(_) =>
    case Finalize(u) => FinalizeWork(s, u);
    case Resolve(b) => ResolveWork(s, b);
    case Timeout(id) => TimeoutWork(s, id);
  }

  /** The steps that are not arrivals. */
  function Others(ts: seq<Step>): nat {
    if ts == [] then 0 else Others(ts[..|ts| - 1]) + if ts[|ts| - 1].Arrive? then 0 else 1
  }

  lemma {:induction false} RunWork(n: nat, steps: seq<Step>, states: seq<State>, j: nat)
    requires IsRun(n, steps, states) && j <= |steps|
    ensures Others(steps[..j]) + Work(states[j]) <= 4 * |states[j].arrived|
    ensures j == Others(steps[..j]) + |states[j].arrived|
  {
    hide Work, Apply, Enabled;
    if j == 0 {
      StartWork();
    } else {
      RunWork(n, steps, states, j - 1);
      StepWork(n, states[j - 1], steps[j - 1]);
      assert steps[..j][..j - 1] == steps[..j - 1];
    }
  }

  lemma StartWork()
    ensures Work(START) == 0
  {
  }

  lemma WorkPositive(s: State)
    requires Answered(s)
    ensures Work(s) >= 0
  {
    DoneBounded(s);
  }

  /** Every run ends: k requests cause at most 4k further steps, whatever the interleaving;
      while something is left to do, a step is enabled; and once nothing is, every request has
      its one result. */
  lemma RunEnds(n: nat, steps: seq<Step>, states: seq<State>)
    requires IsRun(n, steps, states)
    ensures |steps| <= 5 * |states[|steps|].arrived|
    ensures !Quiescent(states[|steps|]) ==>
              exists t :: Enabled(states[|steps|], t) && !t.Arrive? && !t.Timeout?
    ensures Quiescent(states[|steps|]) ==>
              states[|steps|].queue == map[] &&
              forall id :: 0 <= id < |states[|steps|].arrived| ==> id in states[|steps|].done
  {
    var j := |steps|;
    RunInv(n, steps, states, j);
    RunWork(n, steps, states, j);
    assert steps[..j] == steps;
    WorkPositive(states[j]);
    if Quiescent(states[j]) { AtRest(states[j]); } else { var t := NotStuck(states[j]); }
  }

  lemma ConservedAt(s: State, u: Uid)
    requires Conserved(s)
    ensures Popped(s.batches, u) + Queued(s, u) == Of(s.arrived, u)
  {
  }
}
