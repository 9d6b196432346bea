/**
  The Student reward manager: it rewards an answer that agrees with the majority of its group.
  Its fields refine the queue of GroupMachine, and every reply it has given is the vote of the
  batch its request was finalised in.
*/
module StudentReward {

  import opened GroupMachine
  import Vote

  datatype Reply = Reply(score: real, target: string, answer: string, groupSize: nat, majority: nat, timedOut: bool)

  function Picks(answers: seq<string>, ids: seq<nat>): (r: seq<string>)
    requires forall i :: 0 <= i < |ids| ==> ids[i] < |answers|
    ensures |r| == |ids|
    ensures forall i :: 0 <= i < |ids| ==> r[i] == answers[ids[i]]
  {
    seq(|ids|, i requires 0 <= i < |ids| => answers[ids[i]])
  }

  /** The reply r is what the vote of a group with these answers says of one of them. */
  ghost predicate Voted(group: seq<string>, answer: string, emptyReward: real, r: Reply) {
    && !r.timedOut && r.answer == answer && r.groupSize == |group|
    && (Vote.NonEmpty(group) == [] ==> r.target == "" && r.majority == 0)
    && (Vote.NonEmpty(group) != [] ==>
          Vote.Target(Vote.NonEmpty(group), r.target) && r.majority == Vote.MatchCount(group, r.target))
    && r.score == if r.target != "" && Vote.Strip(answer) == r.target then 1.0 else emptyReward
  }

  /** Two members of one group are told the same target and the same majority, and with the
      same answer they get the same reward: the vote does not depend on who asks. */
  lemma SameVote(group: seq<string>, a: string, b: string, e: real, r: Reply, q: Reply)
    requires Voted(group, a, e, r) && Voted(group, b, e, q)
    ensures r.target == q.target && r.majority == q.majority
    ensures Vote.Strip(a) == Vote.Strip(b) ==> r.score == q.score
  {
    if Vote.NonEmpty(group) != [] { Vote.TargetUnique(Vote.NonEmpty(group), r.target, q.target); }
  }

  /** The Student manager and the evaluator that scores the Teacher's questions agree: with an
      empty reward of zero, the rewards of a group add up to the evaluator's count. */
  function RewardSum(answers: seq<string>, target: string): real {
    if answers == [] then 0.0
    else
      RewardSum(answers[..|answers| - 1], target) +
      if Vote.Matches(answers[|answers| - 1], target) then 1.0 else 0.0
  }

  lemma {:induction false} RewardsCount(answers: seq<string>, target: string)
    ensures RewardSum(answers, target) == Vote.MatchCount(answers, target) as real
  {
    if answers != [] { RewardsCount(answers[..|answers| - 1], target); }
  }

  lemma AgreesWithEvaluator(group: seq<string>, a: string, r: Reply, s: Vote.Score)
    requires Voted(group, a, 0.0, r) && group != []
    requires Vote.NonEmpty(group) == [] ==> s.target == ""
    requires Vote.NonEmpty(group) != [] ==> Vote.Target(Vote.NonEmpty(group), s.target)
    requires s.count == Vote.MatchCount(group, s.target) && Vote.IsShare(s.score, s.count, |group|)
    ensures r.target == s.target && r.majority == s.count
    ensures RewardSum(group, r.target) == s.score * |group| as real
  {
    if Vote.NonEmpty(group) != [] {
      Vote.TargetUnique(Vote.NonEmpty(group), r.target, s.target);
    } else {
      Vote.NoMatchEmptyTarget(group);
    }
    RewardsCount(group, r.target);
  }

  /** What the callers were told follows from how their requests were answered. */
  ghost predicate Told(m: State, answers: seq<string>, emptyReward: real, replies: map<nat, Reply>) {
    forall id :: id in replies ==>
      id in m.done && id < |answers| &&
      match m.done[id]
      case ByTimeout => replies[id] == Reply(emptyReward, "", answers[id], 0, 0, true)
      case ByGroup(b) =>
        && b < |m.batches|
        && (forall i :: 0 <= i < |m.batches[b].ids| ==> m.batches[b].ids[i] < |answers|)
        && Voted(Picks(answers, m.batches[b].ids), answers[id], emptyReward, replies[id])
  }

  function Joined(n: nat, s: State, u: Uid, id: nat): State {
    var group := (if u in s.queue then s.queue[u] else []) + [id];
    if |group| >= n then s.(queue := s.queue[u := group], soon := s.soon + multiset{u})
    else if u !in s.timers then s.(queue := s.queue[u := group], timers := s.timers + {u}, later := s.later + multiset{u})
    else s.(queue := s.queue[u := group])
  }

  lemma EnqueueJoins(n: nat, s: State, u: Uid)
    ensures Enqueue(n, s, u) == Joined(n, s.(arrived := s.arrived + [u]), u, |s.arrived|)
    ensures Enqueue(n, s, u).done == s.done && Enqueue(n, s, u).batches == s.batches
  {
  }

  lemma ToldMore(m: State, z: State, answers: seq<string>, answer: string, e: real, replies: map<nat, Reply>)
    requires Told(m, answers, e, replies) && z.done == m.done && z.batches == m.batches
    ensures Told(z, answers + [answer], e, replies)
  {
    hide Voted;
    forall id | id in replies && z.done[id].ByGroup?
      ensures Picks(answers + [answer], z.batches[z.done[id].batch].ids) == Picks(answers, z.batches[z.done[id].batch].ids)
    {
    }
  }

  lemma ToldSame(m: State, z: State, answers: seq<string>, e: real, replies: map<nat, Reply>)
    requires Told(m, answers, e, replies) && z.done == m.done && z.batches == m.batches
    ensures Told(z, answers, e, replies)
  {
    hide Voted;
  }

  lemma ToldTimeout(m: State, id: nat, answers: seq<string>, e: real, replies: map<nat, Reply>)
    requires Told(m, answers, e, replies) && id < |answers|
    ensures Told(GiveUp(m, id), answers, e, replies[id := Reply(e, "", answers[id], 0, 0, true)])
  {
    hide Voted;
  }

  class StudentManager {
    const expected: nat
    const emptyReward: real
    var answers: seq<string>
    var items: map<Uid, seq<nat>>
    var timerSet: set<Uid>
    var soon: multiset<Uid>
    var later: multiset<Uid>
    var replies: map<nat, Reply>
    ghost var arrived: seq<Uid>
    ghost var batches: seq<Batch>
    ghost var done: map<nat, Done>

    /** The manager as a state of the group machine. */
    ghost function Machine(): State
      reads this
    {
      State(arrived, items, timerSet, soon, later, batches, done)
    }

    ghost predicate Valid()
      reads this
    {
      && expected > 0 && |arrived| == |answers| && done.Keys == replies.Keys
      && Inv(Machine()) && Told(Machine(), answers, emptyReward, replies)
    }

    constructor (expectedGroupSize: int, defaultEmptyReward: real)
      ensures Valid() && Machine() == START
      ensures expected == (if expectedGroupSize < 1 then 1 else expectedGroupSize)
      ensures emptyReward == defaultEmptyReward
    {
      expected := if expectedGroupSize < 1 then 1 else expectedGroupSize;
      emptyReward := defaultEmptyReward;
      answers, items, timerSet, soon, later, replies := [], map[], {}, multiset{}, multiset{}, map[];
      arrived, batches, done := [], [], map[];
    }

    /** A request queues under its group and sees to it that the group will be finalised. */
    method Arrive(uid: Uid, answer: string) returns (id: nat)
      requires Valid()
      modifies this`answers, this`items, this`timerSet, this`soon, this`later, this`arrived
      ensures Valid() && Machine() == Enqueue(expected, old(Machine()), uid)
      ensures id == |old(answers)| && answers == old(answers) + [answer]
    {
      hide Told, Inv, Voted, Enqueue, Joined;
      EnqueueJoins(expected, Machine(), uid);
      ArriveKeeps(expected, Machine(), uid);
      ToldMore(Machine(), Enqueue(expected, Machine(), uid), answers, answer, emptyReward, replies);
      id := |answers|;
      answers := answers + [answer];
      arrived := arrived + [uid];
      JoinGroup(uid, id);
    }

    /** The locked section: the request joins its group, which is full or may need a timer. */
    method JoinGroup(uid: Uid, id: nat)
      modifies this`items, this`timerSet, this`soon, this`later
      ensures Machine() == Joined(expected, old(Machine()), uid, id)
    {
      var group := (if uid in items then items[uid] else []) + [id];
      items := items[uid := group];
      if |group| >= expected {
        soon := soon + multiset{uid};
      } else if uid !in timerSet {
        timerSet := timerSet + {uid};
        later := later + multiset{uid};
      }
    }

    method TimerFires(uid: Uid)
      requires Valid() && uid in later
      modifies this`soon, this`later
      ensures Valid() && Machine() == Fire(old(Machine()), uid)
    {
      hide Told, Inv, Voted;
      FireKeeps(Machine(), uid);
      ToldSame(Machine(), Fire(Machine(), uid), answers, emptyReward, replies);
      later := later - multiset{uid};
      soon := soon + multiset{uid};
    }

    /** The caller of request id stops waiting. */
    method TimesOut(id: nat)
      requires Valid() && id < |answers| && id !in replies
      modifies this`replies, this`done
      ensures Valid() && Machine() == GiveUp(old(Machine()), id)
      ensures replies == old(replies)[id := Reply(emptyReward, "", answers[id], 0, 0, true)]
    {
      hide Told, Inv, Voted;
      GiveUpKeeps(Machine(), id);
      ToldTimeout(Machine(), id, answers, emptyReward, replies);
      replies := replies[id := Reply(emptyReward, "", answers[id], 0, 0, true)];
      done := done[id := ByTimeout];
    }

    /** One finalisation: take the whole group, vote, and tell everyone who still waits. */
    method FinalizeGroup(uid: Uid)
      requires Valid() && uid in soon
      modifies this`soon, this`items, this`timerSet, this`replies, this`batches, this`done
      ensures Valid()
      ensures uid !in old(items) ==> Machine() == TakeGroup(old(Machine()), uid) && replies == old(replies)
      ensures uid in old(items) ==>
        Machine() == SetResults(TakeGroup(old(Machine()), uid), |old(batches)|)
      ensures uid in old(items) ==> InRange(old(items)[uid], answers)
      ensures uid in old(items) ==> forall id :: id in old(items)[uid] && id !in old(replies) ==>
        id in replies && Voted(Picks(answers, old(items)[uid]), answers[id], emptyReward, replies[id])
      ensures forall id :: id in old(replies) ==> id in replies && replies[id] == old(replies)[id]
    {
      hide Told, Inv, Voted, SetResults;
      TakeKeeps(Machine(), uid);
      ToldTaken(Machine(), uid, answers, emptyReward, replies);
      QueueInRange(Machine(), uid, answers);
      QueueNonEmpty(Machine(), uid);
      var ids := if uid in items then items[uid] else [];
      soon := soon - multiset{uid};
      items := items - {uid};
      timerSet := timerSet - {uid};
      if ids == [] {
        return;
      }
      batches := batches + [Batch(uid, ids, false)];
      SetVotes(ids);
    }

    /** The last batch taken is voted on. */
    method SetVotes(ids: seq<nat>)
      requires Valid() && batches != [] && batches[|batches| - 1] == Batch(batches[|batches| - 1].uid, ids, false)
      requires InRange(ids, answers)
      modifies this`replies, this`batches, this`done
      ensures Valid() && Machine() == SetResults(old(Machine()), |old(batches)| - 1)
      ensures forall id :: id in ids && id !in old(replies) ==>
        id in replies && Voted(Picks(answers, ids), answers[id], emptyReward, replies[id])
      ensures forall id :: id in old(replies) ==> id in replies && replies[id] == old(replies)[id]
    {
      hide Told, Inv, Voted, Grade, Vote.Target, Vote.NonEmpty, Vote.Count;
      ghost var m, b := Machine(), |batches| - 1;
      var group := Picks(answers, ids);
      var target, count := Vote.Majority(group);
      VoteRight(group, target, count, emptyReward);
      ToldVoted(m, b, answers, emptyReward, replies, target, count);
      ResolveKeeps(m, b);
      SetFutures(ids, group, target, count);
      done := SetResults(m, b).done;
      batches := SetResults(m, b).batches;
    }

    method SetFutures(ids: seq<nat>, group: seq<string>, target: string, count: nat)
      requires InRange(ids, answers)
      modifies this`replies
      ensures replies == Replies(ids, group, answers, target, count, emptyReward) + old(replies)
    {
      hide Grade;
      for k := 0 to |ids|
        invariant replies == Replies(ids[..k], group, answers, target, count, emptyReward) + old(replies)
      {
        assert ids[..k + 1] == ids[..k] + [ids[k]];
        if ids[k] !in replies {
          replies := replies[ids[k] := Grade(group, answers[ids[k]], target, count, emptyReward)];
        }
      }
      assert ids[..|ids|] == ids;
    }
  }

  predicate InRange(ids: seq<nat>, answers: seq<string>) { forall i :: 0 <= i < |ids| ==> ids[i] < |answers| }

  function Grade(group: seq<string>, answer: string, target: string, count: nat, e: real): Reply {
    Reply(if Vote.Matches(answer, target) then 1.0 else e, target, answer, |group|, count, false)
  }

  ghost function Replies(ids: seq<nat>, group: seq<string>, answers: seq<string>, target: string, count: nat, e: real)
    : map<nat, Reply>
    requires InRange(ids, answers)
  {
    map id | id in ids :: Grade(group, answers[id], target, count, e)
  }

  lemma VoteRight(group: seq<string>, target: string, count: nat, e: real)
    requires Vote.NonEmpty(group) == [] ==> target == "" && count == 0
    requires Vote.NonEmpty(group) != [] ==>
      Vote.Target(Vote.NonEmpty(group), target) && target != "" && count == Vote.Count(Vote.NonEmpty(group), target)
    ensures forall answer :: Voted(group, answer, e, Grade(group, answer, target, count, e))
  {
    if Vote.NonEmpty(group) != [] { Vote.MatchesAreCount(group, target); }
  }

  lemma QueueNonEmpty(m: State, u: Uid)
    requires Inv(m)
    ensures u in m.queue ==> m.queue[u] != []
  {
  }

  lemma QueueInRange(m: State, u: Uid, answers: seq<string>)
    requires Inv(m) && |m.arrived| == |answers|
    ensures InRange(Queued(m, u), answers)
  {
    forall i | 0 <= i < |Queued(m, u)| ensures Queued(m, u)[i] < |answers| { QueuedArrived(m, u, Queued(m, u)[i]); }
  }

  lemma ToldTaken(m: State, u: Uid, answers: seq<string>, e: real, replies: map<nat, Reply>)
    requires Told(m, answers, e, replies)
    ensures Told(TakeGroup(m, u), answers, e, replies)
  {
    hide Voted;
  }

  lemma ToldVoted(m: State, b: nat, answers: seq<string>, e: real, was: map<nat, Reply>, target: string, count: nat)
    requires Told(m, answers, e, was) && m.done.Keys == was.Keys
    requires b < |m.batches| && InRange(m.batches[b].ids, answers)
    requires forall answer :: Voted(Picks(answers, m.batches[b].ids), answer, e,
                                    Grade(Picks(answers, m.batches[b].ids), answer, target, count, e))
    ensures
      var now := Replies(m.batches[b].ids, Picks(answers, m.batches[b].ids), answers, target, count, e) + was;
      Told(SetResults(m, b), answers, e, now) && now.Keys == SetResults(m, b).done.Keys
  {
    hide Voted;
  }
}
