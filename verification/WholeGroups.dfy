/**
  Which groups are voted on as a whole. The requests of a group end in one batch exactly when
  no finalisation of the group runs before its last request; a timer that fires early can
  split any group of two or more.
*/
module WholeGroups {

  import opened GroupMachine
  import opened Sequences

  ghost predicate TakenWhole(bs: seq<Batch>, u: Uid, ids: seq<nat>) {
    exists b :: 0 <= b < |bs| && bs[b].uid == u && bs[b].ids == ids
  }

  /** How many requests of the group have arrived. */
  function Size(s: State, u: Uid): nat { |Of(s.arrived, u)| }

  lemma QueuedSize(s: State, u: Uid)
    requires Conserved(s)
    ensures |Popped(s.batches, u)| + |Queued(s, u)| == Size(s, u)
    ensures Popped(s.batches, u) == [] ==> Queued(s, u) == Of(s.arrived, u)
  {
    ConservedAt(s, u);
  }

  lemma SizeGrows(n: nat, s: State, t: Step, u: Uid)
    requires Enabled(s, t)
    ensures Size(Apply(n, s, t), u) == Size(s, u) + if t == Arrive(u) then 1 else 0
  {
    if t.Arrive? { OfSnoc(s.arrived, t.uid, u); }
  }

  lemma {:induction false} SizeMonotone(n: nat, steps: seq<Step>, states: seq<State>, u: Uid, j: nat, m: nat)
    requires IsRun(n, steps, states) && j <= m <= |steps|
    ensures Size(states[j], u) <= Size(states[m], u)
  {
    hide Apply, Enabled, Size;
    if j < m {
      SizeMonotone(n, steps, states, u, j, m - 1);
      SizeGrows(n, states[m - 1], steps[m - 1], u);
    }
  }

  // ---------------------------------------------------------------- taken late, taken whole

  /** Nothing of the group has been taken, or all of its `total` requests at once. */
  ghost predicate Together(total: nat, s: State, u: Uid) {
    && Size(s, u) <= total
    && (|| Popped(s.batches, u) == []
        || (Size(s, u) == total && Queued(s, u) == [] && TakenWhole(s.batches, u, Of(s.arrived, u))))
  }

  lemma TogetherArrive(n: nat, total: nat, s: State, v: Uid, u: Uid)
    requires Together(total, s, u) && Size(Enqueue(n, s, v), u) <= total
    ensures Together(total, Enqueue(n, s, v), u)
  {
    hide TakenWhole, Enqueue, Queued, Of, Popped;
    OfSnoc(s.arrived, v, u);
    ArriveQueues(n, s, v, u);
    if u != v {
      assert Of(s.arrived, u) + [] == Of(s.arrived, u);
      assert Queued(s, u) + [] == Queued(s, u);
    }
  }

  lemma TakenWholeStays(bs: seq<Batch>, c: Batch, u: Uid, ids: seq<nat>)
    requires TakenWhole(bs, u, ids)
    ensures TakenWhole(bs + [c], u, ids)
  {
    var b :| 0 <= b < |bs| && bs[b].uid == u && bs[b].ids == ids;
    assert (bs + [c])[b] == bs[b];
  }

  lemma TakenNow(bs: seq<Batch>, c: Batch)
    ensures TakenWhole(bs + [c], c.uid, c.ids)
  {
    assert (bs + [c])[|bs|] == c;
  }

  lemma TakenWholeResolve(bs: seq<Batch>, c: nat, u: Uid, ids: seq<nat>)
    requires TakenWhole(bs, u, ids) && c < |bs|
    ensures TakenWhole(bs[c := bs[c].(resolved := true)], u, ids)
  {
    var b :| 0 <= b < |bs| && bs[b].uid == u && bs[b].ids == ids;
    assert bs[c := bs[c].(resolved := true)][b].ids == ids;
  }

  lemma TogetherTake(total: nat, s: State, v: Uid, u: Uid)
    requires Scheduled(s) && Conserved(s) && Together(total, s, u)
    requires v == u ==> Size(s, u) == total
    ensures Together(total, TakeGroup(s, v), u)
  {
    hide TakenWhole, Conserved, Popped, Of;
    QueuedSize(s, u);
    if v in s.queue {
      var c := Batch(v, s.queue[v], false);
      PoppedSnoc(s.batches, c, u);
      if v == u {
        TakenNow(s.batches, c);
      } else {
        assert Popped(s.batches, u) + [] == Popped(s.batches, u);
        if TakenWhole(s.batches, u, Of(s.arrived, u)) { TakenWholeStays(s.batches, c, u, Of(s.arrived, u)); }
      }
    }
  }

  lemma TogetherResolve(total: nat, s: State, c: nat, u: Uid)
    requires Together(total, s, u) && c < |s.batches|
    ensures Together(total, SetResults(s, c), u)
  {
    hide TakenWhole;
    PoppedResolve(s.batches, c, u);
    if TakenWhole(s.batches, u, Of(s.arrived, u)) { TakenWholeResolve(s.batches, c, u, Of(s.arrived, u)); }
  }

  lemma TogetherStep(n: nat, total: nat, s: State, t: Step, u: Uid)
    requires Inv(s) && Enabled(s, t) && Together(total, s, u)
    requires t == Finalize(u) ==> Size(s, u) == total
    requires Size(Apply(n, s, t), u) <= total
    ensures Together(total, Apply(n, s, t), u)
  {
    hide TakenWhole, Conserved, Scheduled, Answered;
    match t
    case Arrive(v) => TogetherArrive(n, total, s, v, u);
    case FireTimer(_) =>
    case Finalize(v) => TogetherTake(total, s, v, u);
    case Resolve(c) => TogetherResolve(total, s, c, u);
    case Timeout(_) =>
  }

  /** No finalisation of the group runs before its last request. */
  ghost predicate FinalisedLate(steps: seq<Step>, states: seq<State>, u: Uid)
    requires |states| == |steps| + 1
  {
    forall j :: 0 <= j < |steps| && steps[j] == Finalize(u) ==> Size(states[j], u) == Size(states[|steps|], u)
  }

  lemma {:induction false} RunTogether(n: nat, steps: seq<Step>, states: seq<State>, u: Uid, j: nat)
    requires IsRun(n, steps, states) && j <= |steps| && FinalisedLate(steps, states, u)
    ensures Together(Size(states[|steps|], u), states[j], u)
  {
    hide Inv, Together;
    if j == 0 {
      StartTogether(Size(states[|steps|], u), u);
    } else {
      RunInv(n, steps, states, j - 1);
      RunTogether(n, steps, states, u, j - 1);
      SizeMonotone(n, steps, states, u, j, |steps|);
      TogetherStep(n, Size(states[|steps|], u), states[j - 1], steps[j - 1], u);
    }
  }

  lemma StartTogether(total: nat, u: Uid)
    ensures Together(total, START, u)
  {
  }

  // ---------------------------------------------------------------- taken early, split

  /** Before the n-th request a waiting group has exactly one finalisation or timer on its way,
      and a group that does not wait has none. */
  ghost predicate Early(n: nat, s: State, u: Uid) {
    Size(s, u) < n ==>
      && s.soon[u] + s.later[u] == (if u in s.queue then 1 else 0)
      && (u in s.timers <==> u in s.queue)
  }

  lemma EarlyArrive(n: nat, s: State, v: Uid, u: Uid)
    requires Conserved(s) && Early(n, s, u)
    ensures Early(n, Enqueue(n, s, v), u)
  {
    hide Of, Popped, Conserved;
    OfSnoc(s.arrived, v, u);
    QueuedSize(s, u);
  }

  lemma EarlyStep(n: nat, s: State, t: Step, u: Uid)
    requires Inv(s) && Enabled(s, t) && Early(n, s, u)
    ensures Early(n, Apply(n, s, t), u)
  {
    hide Conserved, Scheduled, Answered;
    SizeGrows(n, s, t, u);
    match t
    case Arrive(v) => EarlyArrive(n, s, v, u);
    case FireTimer(_) =>
    case Finalize(_) =>
    case Resolve(_) =>
    case Timeout(_) =>
  }

  lemma {:induction false} RunEarly(n: nat, steps: seq<Step>, states: seq<State>, u: Uid, j: nat)
    requires IsRun(n, steps, states) && j <= |steps|
    ensures Early(n, states[j], u)
  {
    hide Inv;
    if j > 0 {
      RunInv(n, steps, states, j - 1);
      RunEarly(n, steps, states, u, j - 1);
      EarlyStep(n, states[j - 1], steps[j - 1], u);
    }
  }

  /** A batch keeps its requests. */
  lemma {:induction false} BatchStays(n: nat, steps: seq<Step>, states: seq<State>, b: nat, j: nat, m: nat)
    requires IsRun(n, steps, states) && j <= m <= |steps| && b < |states[j].batches|
    ensures b < |states[m].batches| && SameBatch(states[m].batches[b], states[j].batches[b])
  {
    hide Apply, Enabled;
    if j < m {
      BatchStays(n, steps, states, b, j, m - 1);
      BatchKept(n, states[m - 1], steps[m - 1], b);
    }
  }

  ghost predicate SameBatch(b: Batch, c: Batch) { b.uid == c.uid && b.ids == c.ids }

  lemma BatchKept(n: nat, s: State, t: Step, b: nat)
    requires Enabled(s, t) && b < |s.batches|
    ensures b < |Apply(n, s, t).batches| && SameBatch(Apply(n, s, t).batches[b], s.batches[b])
  {
  }

  /** A finalisation that runs before the last of at most n requests takes a part of the group,
      and no batch can hold the whole group any more. */
  lemma EarlySplits(n: nat, steps: seq<Step>, states: seq<State>, u: Uid, j: nat)
    requires IsRun(n, steps, states) && j < |steps| && steps[j] == Finalize(u)
    requires Size(states[j], u) < Size(states[|steps|], u) <= n
    ensures !TakenWhole(states[|steps|].batches, u, Of(states[|steps|].arrived, u))
  {
    var s, z := states[j], states[|steps|];
    RunEarly(n, steps, states, u, j);
    RunInv(n, steps, states, j);
    RunInv(n, steps, states, |steps|);
    QueuedSize(s, u);
    var c := |s.batches|;
    assert states[j + 1] == TakeGroup(s, u);
    BatchStays(n, steps, states, c, j + 1, |steps|);
    var id := z.batches[c].ids[0];
    PoppedContains(z.batches, c, id);
    ConservedAt(z, u);
    if b :| 0 <= b < |z.batches| && z.batches[b].uid == u && z.batches[b].ids == Of(z.arrived, u) {
      assert id in z.batches[b].ids;
      var i :| 0 <= i < |z.batches[b].ids| && z.batches[b].ids[i] == id;
      TakenOnce(z, b, c, i, 0);
    }
  }

  /** At rest, the at most n requests of a group are one batch, in order of arrival, exactly
      when no finalisation of the group ran before the last of them. */
  lemma OneBatchIff(n: nat, steps: seq<Step>, states: seq<State>, u: Uid)
    requires IsRun(n, steps, states) && Quiescent(states[|steps|]) && 0 < Size(states[|steps|], u) <= n
    ensures TakenWhole(states[|steps|].batches, u, Of(states[|steps|].arrived, u)) <==> FinalisedLate(steps, states, u)
  {
    var z := states[|steps|];
    RunInv(n, steps, states, |steps|);
    hide Inv, TakenWhole;
    if FinalisedLate(steps, states, u) {
      RunTogether(n, steps, states, u, |steps|);
      AtRestWhole(z, u);
    } else {
      var j :| 0 <= j < |steps| && steps[j] == Finalize(u) && Size(states[j], u) != Size(z, u);
      SizeMonotone(n, steps, states, u, j, |steps|);
      EarlySplits(n, steps, states, u, j);
    }
  }

  lemma AtRestWhole(z: State, u: Uid)
    requires Inv(z) && Quiescent(z) && Size(z, u) > 0 && Together(Size(z, u), z, u)
    ensures TakenWhole(z.batches, u, Of(z.arrived, u))
  {
    hide TakenWhole, Conserved, Answered;
    AtRest(z);
    QueuedSize(z, u);
  }

  // ---------------------------------------------------------------- timers

  /** As long as no timer of the group has fired before its n requests, nothing is scheduled
      for it before they are in. */
  lemma {:induction false} RunUnscheduled(n: nat, steps: seq<Step>, states: seq<State>, u: Uid, j: nat)
    requires IsRun(n, steps, states) && j <= |steps|
    requires forall i :: 0 <= i < j && steps[i] == FireTimer(u) ==> Size(states[i], u) >= n
    ensures Size(states[j], u) < n ==> states[j].soon[u] == 0
  {
    hide Inv, Apply, Enabled, Size;
    if j > 0 {
      RunUnscheduled(n, steps, states, u, j - 1);
      RunInv(n, steps, states, j - 1);
      UnscheduledStep(n, states[j - 1], steps[j - 1], u);
    }
  }

  lemma UnscheduledStep(n: nat, s: State, t: Step, u: Uid)
    requires Inv(s) && Enabled(s, t) && (Size(s, u) < n ==> s.soon[u] == 0)
    requires t == FireTimer(u) ==> Size(s, u) >= n
    ensures Size(Apply(n, s, t), u) < n ==> Apply(n, s, t).soon[u] == 0
  {
    hide Inv, Of, Popped;
    SizeGrows(n, s, t, u);
    InvConserves(s);
    QueuedSize(s, u);
  }

  lemma InvConserves(s: State)
    requires Inv(s)
    ensures Conserved(s)
  {
  }

  /** If every timer of the group that fires does so after its n requests are in, the n
      requests are voted on as one batch. */
  lemma WholeGroup(n: nat, steps: seq<Step>, states: seq<State>, u: Uid)
    requires n > 0 && IsRun(n, steps, states) && Quiescent(states[|steps|]) && Size(states[|steps|], u) == n
    requires forall j :: 0 <= j < |steps| && steps[j] == FireTimer(u) ==> Size(states[j], u) == n
    ensures TakenWhole(states[|steps|].batches, u, Of(states[|steps|].arrived, u))
  {
    forall j | 0 <= j < |steps| && steps[j] == Finalize(u) ensures Size(states[j], u) == Size(states[|steps|], u) {
      RunUnscheduled(n, steps, states, u, j);
      SizeMonotone(n, steps, states, u, j, |steps|);
    }
    OneBatchIff(n, steps, states, u);
  }

  // ---------------------------------------------------------------- a split of any group of two or more

  ghost predicate Splits(n: nat, u: Uid, steps: seq<Step>, states: seq<State>) {
    && IsRun(n, steps, states) && Quiescent(states[|steps|]) && Size(states[|steps|], u) == n
    && !TakenWhole(states[|steps|].batches, u, Of(states[|steps|].arrived, u))
  }

  lemma {:induction false} OfAll(u: Uid, k: nat)
    ensures Of(Repeat(u, k), u) == Range(0, k)
  {
    if k > 0 {
      OfAll(u, k - 1);
      assert Repeat(u, k)[..k - 1] == Repeat(u, k - 1);
    }
  }

  lemma Extend(n: nat, steps: seq<Step>, states: seq<State>, t: Step) returns (steps1: seq<Step>, states1: seq<State>)
    requires IsRun(n, steps, states) && Enabled(states[|steps|], t)
    ensures IsRun(n, steps1, states1)
    ensures states1[|steps1|] == Apply(n, states[|steps|], t)
  {
    hide Apply, Enabled;
    steps1, states1 := steps + [t], states + [Apply(n, states[|steps|], t)];
    forall j | 0 <= j < |steps1|
      ensures Enabled(states1[j], steps1[j]) && states1[j + 1] == Apply(n, states1[j], steps1[j])
    {
      if j < |steps| { assert states1[j] == states[j] && states1[j + 1] == states[j + 1]; }
    }
  }

  /** The first request has been taken alone, and k more wait. */
  function Waiting(u: Uid, k: nat): State {
    State(Repeat(u, k + 1),
          if k == 0 then map[] else map[u := Range(1, k + 1)],
          if k == 0 then {} else {u},
          multiset{},
          if k == 0 then multiset{} else multiset{u},
          [Batch(u, [0], false)],
          map[])
  }

  lemma FirstTaken(n: nat, u: Uid)
    requires n >= 2
    ensures var s := Enqueue(n, START, u);
      u in s.later && TakeGroup(Fire(s, u), u) == Waiting(u, 0)
  {
    var s := Enqueue(n, START, u);
    assert s.queue[u] == [] + [0] == [0];
    var z := TakeGroup(Fire(s, u), u);
    assert z.batches == [] + [Batch(u, [0], false)] == [Batch(u, [0], false)];
    assert z.queue == map[] && z.arrived == [] + [u] == Repeat(u, 1);
  }

  lemma FirstAlone(n: nat, u: Uid) returns (steps: seq<Step>, states: seq<State>)
    requires n >= 2
    ensures IsRun(n, steps, states) && states[|steps|] == Waiting(u, 0)
  {
    steps, states := [], [START];
    FirstTaken(n, u);
    hide IsRun, Waiting, Enqueue, TakeGroup;
    steps, states := Extend(n, steps, states, Arrive(u));
    steps, states := Extend(n, steps, states, FireTimer(u));
    steps, states := Extend(n, steps, states, Finalize(u));
  }

  lemma NextWaits(n: nat, u: Uid, k: nat)
    requires k + 1 < n
    ensures Enqueue(n, Waiting(u, k), u) == Waiting(u, k + 1)
  {
    var s := Waiting(u, k);
    assert Queued(s, u) + [k + 1] == Range(1, k + 2);
    assert s.arrived + [u] == Repeat(u, k + 2);
  }

  lemma {:induction false} MoreWait(n: nat, u: Uid, k: nat) returns (steps: seq<Step>, states: seq<State>)
    requires k < n && n >= 2
    ensures IsRun(n, steps, states) && states[|steps|] == Waiting(u, k)
  {
    hide IsRun, Waiting, Enqueue;
    if k == 0 {
      steps, states := FirstAlone(n, u);
    } else {
      steps, states := MoreWait(n, u, k - 1);
      steps, states := Extend(n, steps, states, Arrive(u));
      NextWaits(n, u, k - 1);
    }
  }

  /** The first request was voted on alone, and then k others together. */
  function Voted(u: Uid, k: nat, first: bool, second: bool): State {
    var done := if first then map[0 := ByGroup(0)] else map[];
    State(Repeat(u, k + 1), map[], {}, multiset{}, multiset{},
          [Batch(u, [0], first), Batch(u, Range(1, k + 1), second)],
          if second then AllByGroup(1, Range(1, k + 1)) + done else done)
  }

  function AllByGroup(b: nat, ids: seq<nat>): map<nat, Done> { map id | id in ids :: ByGroup(b) }

  lemma RestTaken(u: Uid, k: nat)
    requires k > 0
    ensures u in Waiting(u, k).later && TakeGroup(Fire(Waiting(u, k), u), u) == Voted(u, k, false, false)
  {
    var z := TakeGroup(Fire(Waiting(u, k), u), u);
    assert z.batches == Voted(u, k, false, false).batches;
    assert z.queue == map[];
  }

  lemma BothVoted(u: Uid, k: nat)
    ensures SetResults(Voted(u, k, false, false), 0) == Voted(u, k, true, false)
    ensures SetResults(Voted(u, k, true, false), 1) == Voted(u, k, true, true)
  {
    var a, b := Voted(u, k, false, false), Voted(u, k, true, false);
    assert SetResults(a, 0).done == map[0 := ByGroup(0)];
    assert SetResults(a, 0).batches == b.batches;
    assert SetResults(b, 1).batches == Voted(u, k, true, true).batches;
  }

  lemma BothTaken(u: Uid, k: nat) returns (steps: seq<Step>, states: seq<State>)
    requires k > 0
    ensures IsRun(k + 1, steps, states) && states[|steps|] == Voted(u, k, false, false)
  {
    steps, states := MoreWait(k + 1, u, k);
    RestTaken(u, k);
    hide IsRun, Waiting, TakeGroup, Fire, Voted;
    steps, states := Extend(k + 1, steps, states, FireTimer(u));
    steps, states := Extend(k + 1, steps, states, Finalize(u));
  }

  /** A run in which the first request of a group of n is taken alone, and the other n - 1
      together. */
  lemma SplitRun(n: nat, u: Uid) returns (steps: seq<Step>, states: seq<State>)
    requires n >= 2
    ensures Splits(n, u, steps, states)
    ensures states[|steps|].batches == [Batch(u, [0], true), Batch(u, Range(1, n), true)]
  {
    var k: nat := n - 1;
    steps, states := BothTaken(u, k);
    BothVoted(u, k);
    hide IsRun, SetResults, Of;
    steps, states := Extend(n, steps, states, Resolve(0));
    steps, states := Extend(n, steps, states, Resolve(1));
    VotedApart(u, k);
  }

  lemma VotedApart(u: Uid, k: nat)
    requires k > 0
    ensures var z := Voted(u, k, true, true);
      Quiescent(z) && Size(z, u) == k + 1 && !TakenWhole(z.batches, u, Of(z.arrived, u))
  {
    OfAll(u, k + 1);
  }

  /** Some run splits a full group exactly when the expected size is two or more. */
  lemma SplitIff(n: nat, u: Uid)
    requires n > 0
    ensures (exists steps: seq<Step>, states: seq<State> :: Splits(n, u, steps, states)) <==> n >= 2
  {
    if n >= 2 {
      var steps, states := SplitRun(n, u);
    } else {
      forall steps: seq<Step>, states: seq<State>
        | IsRun(n, steps, states) && Quiescent(states[|steps|]) && Size(states[|steps|], u) == n
        ensures TakenWhole(states[|steps|].batches, u, Of(states[|steps|].arrived, u))
      {
        forall j | 0 <= j < |steps| && steps[j] == Finalize(u) ensures Size(states[j], u) == 1 {
          RunEarly(n, steps, states, u, j);
          RunInv(n, steps, states, j);
          QueuedSize(states[j], u);
          SizeMonotone(n, steps, states, u, j, |steps|);
        }
        OneBatchIff(n, steps, states, u);
      }
    }
  }
}
