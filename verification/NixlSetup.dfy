/**
  Setting up the NIXL pipeline: the ring-less topology and the agents' queues.
*/
module NixlSetup {

  import opened NixlChain
  import opened Sequences
  import opened Wrappers

  function Present<A>(s: seq<A>): (r: seq<Option<A>>)
    ensures |r| == |s| && forall i :: 0 <= i < |s| ==> r[i] == Some(s[i])
  {
    seq(|s|, i requires 0 <= i < |s| => Some(s[i]))
  }

  // ---------------------------------------------------------------- topology

  /** Per-worker arguments of `init_process_group`, one list entry per worker. */
  datatype Kwargs<A> = Kwargs(rank: seq<int>, world: seq<nat>, prev: seq<Option<A>>, next: seq<Option<A>>)

  function TrainerKwargs<A>(trainers: nat, rollouts: nat, metadata: seq<A>): Kwargs<A>
    requires 1 <= trainers && 1 <= rollouts <= |metadata|
  {
    Kwargs(
      [0] + Repeat(-1, trainers - 1), Repeat(rollouts + 1, trainers), Repeat(None, trainers),
      [Some(metadata[|metadata| - rollouts])] + Repeat(None, trainers - 1))
  }

  function RolloutKwargs<A>(rollouts: nat, metadata: seq<A>): Kwargs<A>
    requires 1 <= rollouts <= |metadata|
  {
    Kwargs(
      seq(rollouts, i => i + 1), Repeat(rollouts + 1, rollouts),
      [Some(metadata[0])] + Present(Slice(metadata, 0 - rollouts, -1)),
      Present(SliceFrom(metadata, 1 - rollouts)) + [None])
  }

  /** `build_process_group` asserts one entry per worker in every list. */
  ghost predicate Accepted<A>(k: Kwargs<A>, workers: nat) {
    |k.rank| == |k.world| == |k.prev| == |k.next| == workers
  }

  /** The assertions at the start of `init_process_group`. */
  predicate InitOk<A>(rank: int, world: nat, prev: Option<A>, next: Option<A>) {
    if rank < 0 then prev == None && next == None
    else if rank == 0 then prev == None && next.Some?
    else if rank < world - 1 then prev.Some? && next.Some?
    else if rank == world - 1 then prev.Some? && next == None
    else true
  }

  /** They ask of the members of a chain for a neighbour on each side where the chain goes on, and
      for none elsewhere. */
  lemma InitOkIff<A>(rank: int, world: nat, prev: Option<A>, next: Option<A>)
    requires rank < world && world >= 2
    ensures InitOk(rank, world, prev, next) <==>
            (prev.Some? <==> rank > 0) && (next.Some? <==> 0 <= rank < world - 1)
  {
  }

  /** The agents along the pipeline: the first trainer, then the rollout workers. */
  function ChainAgents<A>(trainers: nat, metadata: seq<A>): seq<A>
    requires 1 <= trainers <= |metadata|
  {
    [metadata[0]] + metadata[trainers..]
  }

  /** Every worker passes its assertions, rank r sits on agent r of the chain, and its
      neighbours are the chain's; trainers other than the first take no part. */
  ghost predicate SingleChain<A>(trainers: nat, rollouts: nat, metadata: seq<A>, t: Kwargs<A>, r: Kwargs<A>)
    requires 1 <= trainers && 1 <= rollouts && |metadata| == trainers + rollouts
    requires Accepted(t, trainers) && Accepted(r, rollouts)
  {
    var chain := ChainAgents(trainers, metadata);
    && t.rank[0] == 0 && t.next[0] == Some(chain[1])
    && (forall i :: 0 <= i < trainers ==>
         t.world[i] == |chain| && t.prev[i] == None && InitOk(t.rank[i], t.world[i], t.prev[i], t.next[i]))
    && (forall i :: 1 <= i < trainers ==> t.rank[i] == -1 && t.next[i] == None)
    && (forall i :: 0 <= i < rollouts ==>
         && r.rank[i] == i + 1 && r.world[i] == |chain|
         && InitOk(r.rank[i], r.world[i], r.prev[i], r.next[i])
         && r.prev[i] == Some(chain[i])
         && r.next[i] == if i + 2 < |chain| then Some(chain[i + 2]) else None)
  }

  /** Rollout worker i's entries, for two or more rollout workers. */
  lemma RolloutEntry<A>(trainers: nat, rollouts: nat, metadata: seq<A>, i: nat)
    requires 1 <= trainers && 2 <= rollouts && |metadata| == trainers + rollouts && i < rollouts
    ensures var r, chain := RolloutKwargs(rollouts, metadata), ChainAgents(trainers, metadata);
      && Accepted(r, rollouts) && |chain| == rollouts + 1
      && r.rank[i] == i + 1 && r.world[i] == rollouts + 1 && r.prev[i] == Some(chain[i])
      && r.next[i] == if i + 1 < rollouts then Some(chain[i + 2]) else None
  {
    var r := RolloutKwargs(rollouts, metadata);
    var before, after := Slice(metadata, 0 - rollouts, -1), SliceFrom(metadata, 1 - rollouts);
    assert before == metadata[trainers..|metadata| - 1];
    assert after == metadata[trainers + 1..];
    if i > 0 { assert r.prev[i] == Some(before[i - 1]); }
    if i + 1 < rollouts { assert r.next[i] == Some(after[i]); }
  }

  lemma TrainerEntries<A>(trainers: nat, rollouts: nat, metadata: seq<A>)
    requires 1 <= trainers && 1 <= rollouts && |metadata| == trainers + rollouts
    ensures var t := TrainerKwargs(trainers, rollouts, metadata);
      && Accepted(t, trainers) && t.rank[0] == 0 && t.next[0] == Some(ChainAgents(trainers, metadata)[1])
      && (forall i :: 0 <= i < trainers ==>
           t.world[i] == rollouts + 1 && t.prev[i] == None && InitOk(t.rank[i], t.world[i], t.prev[i], t.next[i]))
      && (forall i :: 1 <= i < trainers ==> t.rank[i] == -1 && t.next[i] == None)
  {}

  /** The topology is accepted exactly for two or more rollout workers, and then it is the
      single chain the pipeline runs on. With one rollout worker the slice from
      `-1 + 1` is the whole list, and the length assertion rejects it. */
  lemma TopologyIff<A>(trainers: nat, rollouts: nat, metadata: seq<A>)
    requires 1 <= trainers && 1 <= rollouts && |metadata| == trainers + rollouts
    ensures Accepted(TrainerKwargs(trainers, rollouts, metadata), trainers)
    ensures Accepted(RolloutKwargs(rollouts, metadata), rollouts) <==> rollouts >= 2
    ensures rollouts >= 2 ==>
      SingleChain(trainers, rollouts, metadata,
                  TrainerKwargs(trainers, rollouts, metadata), RolloutKwargs(rollouts, metadata))
  {
    TrainerEntries(trainers, rollouts, metadata);
    if rollouts == 1 {
      assert SliceFrom(metadata, 1 - rollouts) == metadata;
    } else {
      hide TrainerKwargs, RolloutKwargs;
      var r, chain := RolloutKwargs(rollouts, metadata), ChainAgents(trainers, metadata);
      RolloutEntry(trainers, rollouts, metadata, 0);
      forall i | 0 <= i < rollouts
        ensures && r.rank[i] == i + 1 && r.world[i] == |chain|
                && InitOk(r.rank[i], r.world[i], r.prev[i], r.next[i])
                && r.prev[i] == Some(chain[i])
                && r.next[i] == if i + 2 < |chain| then Some(chain[i + 2]) else None
      {
        RolloutEntry(trainers, rollouts, metadata, i);
      }
    }
  }

  // ---------------------------------------------------------------- agent queues

  /** `defaultdict(deque)`: a missing queue reads as empty. */
  function Queue<T>(m: map<string, seq<T>>, name: string): seq<T> {
    if name in m then m[name] else []
  }

  /** What peer `name` has sent among unread socket messages, in order. */
  function Sent<T>(inbox: seq<(string, T)>, name: string): seq<T> {
    if inbox == [] then []
    else if inbox[0].0 == name then [inbox[0].1] + Sent(inbox[1..], name)
    else Sent(inbox[1..], name)
  }

  /** One polled dict of notifications. The loop variable is `remote_name` itself, so the
      polling also changes whose queue is looked at next. */
  function Absorb<K>(notes: map<string, seq<K>>, name: string, batch: seq<(string, seq<K>)>)
    : (map<string, seq<K>>, string)
    decreases |batch|
  {
    if batch == [] then (notes, name)
    else
      var (peer, ks) := batch[0];
      Absorb(notes[peer := Queue(notes, peer) + ks], peer, batch[1..])
  }

  /** The notification finally returned and the queue it came from, if one is ever found. */
  datatype Awaited<K> = Waiting | Got(from: string, key: K, notes: map<string, seq<K>>)

  function Await<K>(notes: map<string, seq<K>>, name: string, polls: seq<seq<(string, seq<K>)>>): Awaited<K>
    decreases |polls|
  {
    if Queue(notes, name) != [] then
      Got(name, Queue(notes, name)[0], notes[name := Queue(notes, name)[1..]])
    else if polls == [] then Waiting
    else
      var (notes', name') := Absorb(notes, name, polls[0]);
      Await(notes', name', polls[1..])
  }

  class NixlAgent<M, K> {
    var messages: map<string, seq<M>>
    var notifications: map<string, seq<K>>
    var inbox: seq<(string, M)>          // the socket, as it will deliver
    var polls: seq<seq<(string, seq<K>)>> // results of get_new_notifs, as they will come

    /** All messages of a peer not handed out yet, oldest first. */
    function Pending(name: string): seq<M>
      reads this
    {
      Queue(messages, name) + Sent(inbox, name)
    }

    /** Returns the oldest message of the asked peer, and loses or reorders nothing of any
        peer. None stands for waiting forever. */
    method ReadMessage(name: string) returns (m: Option<M>)
      modifies this`messages, this`inbox
      ensures m.None? <==> old(Pending(name)) == []
      ensures m.Some? ==> old(Pending(name)) == [m.value] + Pending(name)
      ensures forall peer :: peer != name || m.None? ==> Pending(peer) == old(Pending(peer))
    {
      while Queue(messages, name) == []
        invariant forall peer :: Pending(peer) == old(Pending(peer))
        decreases |inbox|
      {
        if inbox == [] { return None; }
        var (from, msg) := inbox[0];
        ghost var was, box := messages, inbox;
        messages := messages[from := Queue(messages, from) + [msg]];
        inbox := inbox[1..];
        forall peer ensures Pending(peer) == Queue(was, peer) + Sent(box, peer) {
          assert Sent(box, peer) == (if from == peer then [msg] else []) + Sent(box[1..], peer);
        }
      }
      m := Some(Queue(messages, name)[0]);
      messages := messages[name := Queue(messages, name)[1..]];
    }

    /** Exactly what the loop with the reused variable computes. */
    method GetNotification(remoteName: string) returns (key: Option<K>, ghost from: string)
      modifies this`notifications, this`polls
      ensures match Await(old(notifications), remoteName, old(polls))
              case Waiting => key.None?
              case Got(f, k, notes) => key == Some(k) && from == f && notifications == notes
    {
      var name := remoteName;
      from := name;
      while Queue(notifications, name) == []
        invariant Await(notifications, name, polls) == Await(old(notifications), remoteName, old(polls))
        decreases |polls|
      {
        if polls == [] { return None, name; }
        var batch := polls[0];
        polls := polls[1..];
        ghost var rest := polls;
        ghost var (notes', name') := Absorb(notifications, name, batch);
        while batch != []
          invariant Absorb(notifications, name, batch) == (notes', name') && polls == rest
          decreases |batch|
        {
          var (peer, ks) := batch[0];
          name := peer;
          notifications := notifications[peer := Queue(notifications, peer) + ks];
          batch := batch[1..];
        }
      }
      from := name;
      key := Some(Queue(notifications, name)[0]);
      notifications := notifications[name := Queue(notifications, name)[1..]];
    }
  }

  // ---------------------------------------------------------------- which notification?

  /** What the peer has notified in one polled dict, and in some of them, oldest first. */
  function In<K>(batch: seq<(string, seq<K>)>, peer: string): seq<K> {
    if batch == [] then [] else (if batch[0].0 == peer then batch[0].1 else []) + In(batch[1..], peer)
  }

  function Received<K>(polls: seq<seq<(string, seq<K>)>>, peer: string): seq<K> {
    if polls == [] then [] else In(polls[0], peer) + Received(polls[1..], peer)
  }

  lemma {:induction false} AbsorbQueues<K>(notes: map<string, seq<K>>, name: string, batch: seq<(string, seq<K>)>,
                                           peer: string)
    ensures Queue(Absorb(notes, name, batch).0, peer) == Queue(notes, peer) + In(batch, peer)
    decreases |batch|
  {
    if batch != [] {
      var (from, ks) := batch[0];
      var more := notes[from := Queue(notes, from) + ks];
      AbsorbQueues(more, from, batch[1..], peer);
      assert Queue(more, peer) == Queue(notes, peer) + if from == peer then ks else [];
    }
  }

  /** All that has been polled of the peer is the notification, if it is the peer's, and what is
      left in the peer's queue. */
  ghost predicate Taken<K>(notes: map<string, seq<K>>, polls: seq<seq<(string, seq<K>)>>, from: string, key: K,
                           left: map<string, seq<K>>, peer: string)
  {
    Queue(notes, peer) + Received(polls, peer) == (if peer == from then [key] else []) + Queue(left, peer)
  }

  ghost predicate OldestTaken<K>(notes: map<string, seq<K>>, polls: seq<seq<(string, seq<K>)>>, from: string, key: K,
                                 left: map<string, seq<K>>)
  {
    forall peer :: Taken(notes, polls, from, key, left, peer)
  }

  lemma TakenAtOnce<K>(notes: map<string, seq<K>>, name: string)
    requires Queue(notes, name) != []
    ensures OldestTaken(notes, [], name, Queue(notes, name)[0], notes[name := Queue(notes, name)[1..]])
  {
    assert Queue(notes, name) == [Queue(notes, name)[0]] + Queue(notes, name)[1..];
  }

  lemma TakenLater<K>(notes: map<string, seq<K>>, name: string, polls: seq<seq<(string, seq<K>)>>, n: nat, from: string,
                      key: K, left: map<string, seq<K>>)
    requires n < |polls| && OldestTaken(Absorb(notes, name, polls[0]).0, polls[1..][..n], from, key, left)
    ensures OldestTaken(notes, polls[..n + 1], from, key, left)
  {
    hide Queue, Absorb, In;
    var now, more, rest := polls[..n + 1], Absorb(notes, name, polls[0]).0, polls[1..][..n];
    assert now[1..] == rest;
    forall peer ensures Taken(notes, now, from, key, left, peer) {
      AbsorbQueues(notes, name, polls[0], peer);
      assert Taken(more, rest, from, key, left, peer);
      var a, b, c := Queue(notes, peer), In(polls[0], peer), Received(rest, peer);
      assert a + (b + c) == (a + b) + c;
    }
  }

  /** The notification that is returned is the oldest of its queue, of all that have been polled by
      then; exactly that one is gone. */
  lemma {:induction false} AwaitTakesOldest<K>(notes: map<string, seq<K>>, name: string, polls: seq<seq<(string, seq<K>)>>)
    returns (polled: nat)
    ensures polled <= |polls|
    ensures match Await(notes, name, polls)
            case Waiting => polled == |polls|
            case Got(from, key, left) => OldestTaken(notes, polls[..polled], from, key, left)
    decreases |polls|
  {
    hide OldestTaken, Absorb;
    polled := 0;
    if Queue(notes, name) != [] {
      TakenAtOnce(notes, name);
      assert polls[..0] == [];
    } else if polls != [] {
      var (more, next) := Absorb(notes, name, polls[0]);
      var n := AwaitTakesOldest(more, next, polls[1..]);
      polled := n + 1;
      match Await(more, next, polls[1..])
      case Waiting =>
      case Got(from, key, left) => TakenLater(notes, name, polls, n, from, key, left);
    }
  }

  // ---------------------------------------------------------------- whose notification?

  ghost predicate OnlyFrom<K>(polls: seq<seq<(string, seq<K>)>>, peers: set<string>) {
    forall i, j :: 0 <= i < |polls| && 0 <= j < |polls[i]| ==> polls[i][j].0 in peers
  }

  ghost predicate RightPeer<K>(a: Awaited<K>, name: string) {
    a.Got? ==> a.from == name
  }

  lemma {:induction false} AbsorbOnly<K>(notes: map<string, seq<K>>, name: string, batch: seq<(string, seq<K>)>)
    requires forall j :: 0 <= j < |batch| ==> batch[j].0 == name
    ensures Absorb(notes, name, batch).1 == name
    decreases |batch|
  {
    if batch != [] {
      assert forall j :: 0 <= j < |batch| - 1 ==> batch[1..][j] == batch[j + 1];
      AbsorbOnly(notes[name := Queue(notes, name) + batch[0].1], name, batch[1..]);
    }
  }

  lemma {:induction false} AwaitOnly<K>(notes: map<string, seq<K>>, name: string, polls: seq<seq<(string, seq<K>)>>)
    requires OnlyFrom(polls, {name})
    ensures RightPeer(Await(notes, name, polls), name)
    decreases |polls|
  {
    if Queue(notes, name) == [] && polls != [] {
      assert forall j :: 0 <= j < |polls[0]| ==> polls[0][j].0 in {name};
      AbsorbOnly(notes, name, polls[0]);
      assert OnlyFrom(polls[1..], {name}) by {
        assert forall i :: 0 <= i < |polls| - 1 ==> polls[1..][i] == polls[i + 1];
      }
      AwaitOnly(Absorb(notes, name, polls[0]).0, name, polls[1..]);
    }
  }

  /** Waiting for `name`'s notification gives `name`'s notification under every polling
      schedule exactly when one is already queued or nobody but `name` ever notifies this agent.
      In the chain only the successor does. */
  lemma NotificationRightIffOnlyPeer<K(!new)>(notes: map<string, seq<K>>, name: string, peers: set<string>, k: K)
    ensures (forall polls :: OnlyFrom(polls, peers) ==> RightPeer(Await(notes, name, polls), name))
            <==> Queue(notes, name) != [] || peers <= {name}
  {
    if peers <= {name} {
      forall polls: seq<seq<(string, seq<K>)>> | OnlyFrom(polls, peers)
        ensures RightPeer(Await(notes, name, polls), name)
      {
        assert OnlyFrom(polls, {name}) by {
          forall i, j | 0 <= i < |polls| && 0 <= j < |polls[i]| ensures polls[i][j].0 in {name} {}
        }
        AwaitOnly(notes, name, polls);
      }
    } else if Queue(notes, name) == [] {
      var p :| p in peers && p !in {name};
      var polls := [[(p, [k])]];
      assert OnlyFrom(polls, peers);
      WrongPeer(notes, name, p, k);
      assert !RightPeer(Await(notes, name, polls), name);
    }
  }

  /** A concrete failing schedule: one notification of another peer answers the wait. */
  lemma WrongPeer<K>(notes: map<string, seq<K>>, name: string, p: string, k: K)
    requires p != name && Queue(notes, name) == []
    ensures Await(notes, name, [[(p, [k])]]).Got? && Await(notes, name, [[(p, [k])]]).from == p
  {
    var batch, polls := [(p, [k])], [[(p, [k])]];
    var notes' := notes[p := Queue(notes, p) + [k]];
    assert batch[1..] == [] && polls[1..] == [];
    assert Absorb(notes, name, batch) == Absorb(notes', p, batch[1..]);
    assert Await(notes, name, polls) == Await(notes', p, polls[1..]);
    assert Queue(notes', p) != [];
  }
}
