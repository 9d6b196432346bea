/**
  What the asynchronous activation offload does to its bookkeeping, operation by
  operation, and the invariants that make it transparent.

  Tensors saved in the forward pass are moved to the host group by group and moved
  back in the backward pass, with a delay set by the window map. Streams are not
  modelled: a copy is complete when it is issued.
*/
module OffloadSpec {

  import opened OffloadWindows
  import opened Wrappers

  /** A saved tensor: storage key, shape and flat content. */
  datatype Tensor = Tensor(key: nat, shape: seq<nat>, data: seq<int>)

  /** Same shape and content; the storage address of a reloaded copy is not the original's. */
  predicate SameContent(a: Tensor, b: Tensor) { a.shape == b.shape && a.data == b.data }

  /** Group number and position of the tensor among the group's pushes. */
  type Tag = (nat, nat)

  /** An entry of `tensor_tag_to_state`: a tensor, or the `(key, shape)` of an offloaded one. */
  datatype Entry = OnDevice(t: Tensor) | Offloaded(key: nat, shape: seq<nat>)

  /** The handler's fields. `pushed` remembers what was pushed under each live tag and
      `forward` which pass is running; the code keeps neither. */
  datatype St = St(
    cur: nat, count: nat, done: nat,
    state: map<Tag, Entry>, buf: map<Tag, Option<Tensor>>, host: map<nat, map<nat, Tensor>>,
    pushed: map<Tag, Tensor>, forward: bool)

  function Initial(): St { St(0, 0, 0, map[], map[], map[], map[], true) }

  // ---------------------------------------------------------------- operations

  function Push(groups: nat, s: St, t: Tensor): St {
    var tag := (s.cur, s.count);
    s.(count := s.count + 1, state := s.state[tag := OnDevice(t)], pushed := s.pushed[tag := t],
       buf := if s.cur < groups then s.buf[tag := Some(t)] else s.buf)
  }

  /** `m` keeps, for each storage key of the group, one tensor of the group with that key:
      whichever the iteration met first. */
  ghost predicate Representatives(state: map<Tag, Entry>, g: nat, m: map<nat, Tensor>) {
    && (forall tag :: tag in state && tag.0 == g ==> state[tag].OnDevice? && state[tag].t.key in m)
    && (forall k :: k in m ==> exists tag :: tag in state && tag.0 == g && state[tag] == OnDevice(m[k]) && m[k].key == k)
  }

  function Mark(e: Entry): Entry {
    if e.OnDevice? then Offloaded(e.t.key, e.t.shape) else e
  }

  function OffloadGroup(s: St, g: nat, m: map<nat, Tensor>): St {
    s.(state := map tag | tag in s.state :: if tag.0 == g then Mark(s.state[tag]) else s.state[tag],
       host := s.host[g := m])
  }

  function FreeGroup(buf: map<Tag, Option<Tensor>>, g: nat): map<Tag, Option<Tensor>> {
    map tag | tag in buf :: if tag.0 == g then None else buf[tag]
  }

  function Kickstart(s: St, m0: map<nat, Tensor>): St {
    if s.cur == 0 then OffloadGroup(s, 0, m0) else s
  }

  /** `m0` and `m1` are the representatives chosen for group 0 and for the next group. */
  function CommitForward(layers: nat, groups: nat, s: St, m0: map<nat, Tensor>, m1: map<nat, Tensor>): St
    requires groups >= 1
  {
    var a := Kickstart(s, m0);
    var b := if Window(layers, groups, a.done) == a.cur then Advance(groups, a, m1) else a;
    b.(cur := b.cur + 1, count := 0)
  }

  function Advance(groups: nat, a: St, m1: map<nat, Tensor>): St {
    var freed := a.(buf := FreeGroup(a.buf, a.done));
    var next := if a.done < groups - 1 then OffloadGroup(freed, a.done + 1, m1) else freed;
    next.(done := next.done + 1)
  }

  /** The first backward commit: the code has no separate step, only the marker changes. */
  function Turn(s: St): St { s.(forward := false) }

  function Reload(e: Entry, host: map<nat, Tensor>): Entry {
    if e.Offloaded? && e.key in host then OnDevice(Tensor(e.key, e.shape, host[e.key].data)) else e
  }

  function ReloadGroup(s: St, g: nat): St
    requires g in s.host
  {
    s.(state := map tag | tag in s.state :: if tag.0 == g then Reload(s.state[tag], s.host[g]) else s.state[tag],
       host := s.host - {g})
  }

  function CommitBackward(layers: nat, groups: nat, s: St): St
    requires groups >= 1 && s.cur >= 1 && s.done >= 1
    requires Window(layers, groups, s.done - 1) == s.cur - 1 ==> s.done - 1 in s.host
  {
    var a := s.(cur := s.cur - 1);
    var b := if Window(layers, groups, a.done - 1) == a.cur
             then ReloadGroup(a, a.done - 1).(done := if a.done > 1 then a.done - 1 else a.done)
             else a;
    if b.cur == 0 then b.(done := 0) else b
  }

  function Pop(s: St, tag: Tag): St {
    s.(state := s.state - {tag}, buf := s.buf - {tag}, pushed := s.pushed - {tag})
  }

  // ---------------------------------------------------------------- invariants

  /** Tensors of one group that share a storage key share their content. */
  ghost predicate KeyConsistent(pushed: map<Tag, Tensor>) {
    forall a, b :: a in pushed && b in pushed && a.0 == b.0 && pushed[a].key == pushed[b].key ==>
      pushed[a].data == pushed[b].data
  }

  /** Does an entry still lead to the tensor that was pushed? */
  ghost predicate Leads(e: Entry, tag: Tag, t: Tensor, host: map<nat, map<nat, Tensor>>, forward: bool) {
    match e
    case OnDevice(d) => SameContent(d, t) && (forward ==> d == t)
    case Offloaded(k, shape) =>
      k == t.key && shape == t.shape && tag.0 in host && k in host[tag.0] && host[tag.0][k].data == t.data
  }

  ghost predicate Recoverable(s: St) {
    && s.state.Keys == s.pushed.Keys && s.buf.Keys <= s.state.Keys
    && forall tag :: tag in s.state ==> Leads(s.state[tag], tag, s.pushed[tag], s.host, s.forward)
  }

  /** The groups with a host copy while `done` windows have passed in the forward pass. */
  ghost predicate ForwardHosts(groups: nat, s: St) {
    forall g: nat :: g in s.host <==> g < groups && g <= s.done && s.cur > 0
  }

  ghost predicate BackwardHosts(layers: nat, groups: nat, s: St)
    requires groups >= 1
  {
    forall g: nat :: g in s.host <==> g < groups && Window(layers, groups, g) < s.cur
  }

  ghost predicate Passed(layers: nat, groups: nat, s: St)
    requires groups >= 1
  {
    s.done <= groups && forall i: nat :: i < groups ==> (i < s.done <==> Window(layers, groups, i) < s.cur)
  }

  /** Every configured group is really offloaded only with fewer groups than layers:
      otherwise a group's turn comes before its tensors exist. */
  predicate Taken(layers: nat, groups: nat, g: nat) { g == 0 || groups < layers }

  ghost predicate ForwardTags(layers: nat, groups: nat, s: St) {
    forall tag :: tag in s.state ==>
      && (tag.0 < s.cur || (tag.0 == s.cur && tag.1 < s.count))
      && (s.state[tag].Offloaded? <==> tag.0 in s.host && Taken(layers, groups, tag.0))
  }

  ghost predicate ForwardBufs(groups: nat, s: St) {
    && (forall tag :: tag in s.state && tag.0 < groups ==> tag in s.buf)
    && (forall tag :: tag in s.buf ==> tag.0 < groups && (s.buf[tag] == None <==> tag.0 < s.done))
  }

  ghost predicate Forward(layers: nat, groups: nat, s: St) {
    && 1 <= groups <= layers && s.forward && s.cur <= layers && (s.cur == layers ==> s.count == 0)
    && KeyConsistent(s.pushed) && Recoverable(s)
    && ForwardHosts(groups, s) && Passed(layers, groups, s)
    && ForwardTags(layers, groups, s) && ForwardBufs(groups, s)
  }

  ghost predicate BackwardTags(layers: nat, groups: nat, s: St) {
    && (forall tag :: tag in s.state ==>
          && tag.0 < layers
          && (s.state[tag].Offloaded? <==> tag.0 in s.host && Taken(layers, groups, tag.0)))
    && (forall tag :: tag in s.buf ==> s.buf[tag] == None)
  }

  ghost predicate BackwardCounter(layers: nat, groups: nat, s: St)
    requires groups >= 1
  {
    if s.cur == 0 then s.done == 0
    else 1 <= s.done <= groups
         && forall j: nat :: 1 <= j < groups ==> (j < s.done <==> Window(layers, groups, j) < s.cur)
  }

  ghost predicate Backward(layers: nat, groups: nat, s: St) {
    && 1 <= groups <= layers && !s.forward && s.cur <= layers && s.count == 0
    && Recoverable(s) && BackwardHosts(layers, groups, s)
    && BackwardCounter(layers, groups, s) && BackwardTags(layers, groups, s)
  }

  // ---------------------------------------------------------------- forward pass

  lemma InitialForward(layers: nat, groups: nat)
    requires 1 <= groups <= layers
    ensures Forward(layers, groups, Initial())
  {
    forall i: nat | i < groups ensures Window(layers, groups, i) >= 0 {
      WindowAfterGroup(layers, groups, i);
    }
  }

  /** The offloaded-group counter stays behind the current group. */
  lemma CounterBehind(layers: nat, groups: nat, s: St)
    requires 1 <= groups <= layers && Passed(layers, groups, s)
    ensures s.done <= s.cur && (groups < layers && s.cur > 0 ==> s.done < s.cur)
    ensures s.cur < layers ==> s.done < groups
  {
    if s.done > 0 { WindowAfterGroup(layers, groups, s.done - 1); }
    LastWindow(layers, groups);
    WindowAfterGroup(layers, groups, groups - 1);
  }

  lemma PushKeepsConsistent(pushed: map<Tag, Tensor>, tag: Tag, t: Tensor)
    requires KeyConsistent(pushed)
    requires forall a :: a in pushed && a.0 == tag.0 && pushed[a].key == t.key ==> pushed[a].data == t.data
    ensures KeyConsistent(pushed[tag := t])
  {
    var now := pushed[tag := t];
    forall a, b | a in now && b in now && a.0 == b.0 && now[a].key == now[b].key
      ensures now[a].data == now[b].data
    {
      assert a != tag ==> a in pushed && now[a] == pushed[a];
      assert b != tag ==> b in pushed && now[b] == pushed[b];
    }
  }

  lemma PushRecoverable(groups: nat, s: St, t: Tensor)
    requires Recoverable(s) && (s.cur, s.count) !in s.state
    ensures Recoverable(Push(groups, s, t))
  {
    var s' := Push(groups, s, t);
    forall tag | tag in s'.state
      ensures Leads(s'.state[tag], tag, s'.pushed[tag], s'.host, s'.forward)
    {
      if tag != (s.cur, s.count) {
        assert tag in s.state && s'.state[tag] == s.state[tag];
      }
    }
  }

  lemma PushTags(layers: nat, groups: nat, s: St, t: Tensor)
    requires ForwardTags(layers, groups, s) && ForwardBufs(groups, s) && s.done <= s.cur
    requires s.cur in s.host ==> !Taken(layers, groups, s.cur)
    ensures ForwardTags(layers, groups, Push(groups, s, t)) && ForwardBufs(groups, Push(groups, s, t))
  {
    var s' := Push(groups, s, t);
    forall tag | tag in s'.state
      ensures (tag.0 < s'.cur || (tag.0 == s'.cur && tag.1 < s'.count))
      ensures s'.state[tag].Offloaded? <==> tag.0 in s'.host && Taken(layers, groups, tag.0)
    {
      if tag != (s.cur, s.count) { assert tag in s.state && s'.state[tag] == s.state[tag]; }
    }
    hide ForwardTags;
    forall tag | tag in s'.buf ensures tag.0 < groups && (s'.buf[tag] == None <==> tag.0 < s'.done) {
      if tag != (s.cur, s.count) { assert tag in s.buf && s'.buf[tag] == s.buf[tag]; }
    }
  }

  lemma PushKeeps(layers: nat, groups: nat, s: St, t: Tensor)
    requires Forward(layers, groups, s) && s.cur < layers
    requires forall tag :: tag in s.pushed && tag.0 == s.cur && s.pushed[tag].key == t.key ==>
      s.pushed[tag].data == t.data
    ensures Forward(layers, groups, Push(groups, s, t)) && (s.cur, s.count) !in s.state
  {
    hide Window, Passed, KeyConsistent, Recoverable, ForwardBufs;
    CounterBehind(layers, groups, s);
    assert (s.cur, s.count) !in s.state;
    hide ForwardTags;
    PassedSame(layers, groups, s, Push(groups, s, t));
    PushKeepsConsistent(s.pushed, (s.cur, s.count), t);
    PushRecoverable(groups, s, t);
    PushTags(layers, groups, s, t);
  }

  /** Offloading a group whose tensors are all on the device keeps every tensor recoverable. */
  lemma OffloadRecoverable(s: St, g: nat, m: map<nat, Tensor>)
    requires s.forward && KeyConsistent(s.pushed) && Recoverable(s)
    requires g !in s.host && Representatives(s.state, g, m)
    ensures Recoverable(OffloadGroup(s, g, m))
  {
    var s' := OffloadGroup(s, g, m);
    forall tag | tag in s'.state
      ensures Leads(s'.state[tag], tag, s'.pushed[tag], s'.host, s'.forward)
    {
      if tag.0 == g {
        var t := s.pushed[tag];
        assert s.state[tag] == OnDevice(t);
        var other :| other in s.state && other.0 == g && s.state[other] == OnDevice(m[t.key]) && m[t.key].key == t.key;
        assert Leads(s.state[other], other, s.pushed[other], s.host, s.forward);
      } else {
        assert Leads(s.state[tag], tag, s.pushed[tag], s.host, s.forward);
      }
    }
  }

  lemma OffloadTags(layers: nat, groups: nat, s: St, g: nat, m: map<nat, Tensor>)
    requires ForwardTags(layers, groups, s) && g !in s.host
    requires Taken(layers, groups, g) || s.cur < g
    ensures ForwardTags(layers, groups, OffloadGroup(s, g, m))
  {
    var s' := OffloadGroup(s, g, m);
    forall tag | tag in s'.state
      ensures tag.0 < s'.cur || (tag.0 == s'.cur && tag.1 < s'.count)
      ensures s'.state[tag].Offloaded? <==> tag.0 in s'.host && Taken(layers, groups, tag.0)
    {
      assert tag in s.state;
      assert s.state[tag].Offloaded? <==> tag.0 in s.host && Taken(layers, groups, tag.0);
    }
  }

  /** What a commit may assume about the representatives its loops pick. */
  ghost predicate Picks(layers: nat, groups: nat, s: St, m0: map<nat, Tensor>, m1: map<nat, Tensor>)
    requires groups >= 1
  {
    && (s.cur == 0 ==> Representatives(s.state, 0, m0))
    && var a := Kickstart(s, m0);
    (Window(layers, groups, a.done) == a.cur && a.done < groups - 1 ==>
       Representatives(a.state, a.done + 1, m1))
  }

  /** With as many groups as layers, window i is layer i. */
  lemma FullWindows(layers: nat, i: nat)
    requires layers >= 1
    ensures Window(layers, layers, i) == i
  {}

  /** The next group to offload either has all its tensors already, or none yet. */
  lemma NextTaken(layers: nat, groups: nat, s: St)
    requires 1 <= groups <= layers && Passed(layers, groups, s) && s.cur < layers
    ensures Taken(layers, groups, s.done + 1) || s.cur < s.done + 1
  {
    CounterBehind(layers, groups, s);
    if groups == layers { FullWindows(layers, s.done); }
  }

  lemma FirstOffload(layers: nat, groups: nat, s: St, m0: map<nat, Tensor>)
    requires Forward(layers, groups, s) && s.cur == 0 && Representatives(s.state, 0, m0)
    ensures var a := OffloadGroup(s, 0, m0);
      && Recoverable(a) && ForwardTags(layers, groups, a) && a.host.Keys == {0} && s.done == 0
      && ForwardBufs(groups, a)
  {
    CounterBehind(layers, groups, s);
    OffloadRecoverable(s, 0, m0);
    OffloadTags(layers, groups, s, 0, m0);
    assert forall g :: g !in s.host;
    assert OffloadGroup(s, 0, m0).host.Keys == {0};
    OffloadBufs(groups, s, 0, m0);
  }

  lemma OffloadBufs(groups: nat, s: St, g: nat, m: map<nat, Tensor>)
    requires ForwardBufs(groups, s)
    ensures ForwardBufs(groups, OffloadGroup(s, g, m))
  {
    assert OffloadGroup(s, g, m).state.Keys == s.state.Keys;
  }

  /** Dropping a group's buffers, together with the counter's increment. */
  lemma FreeKeeps(layers: nat, groups: nat, a: St)
    requires Recoverable(a) && ForwardTags(layers, groups, a) && ForwardBufs(groups, a)
    ensures var f := a.(buf := FreeGroup(a.buf, a.done), done := a.done + 1);
      Recoverable(f) && ForwardTags(layers, groups, f) && ForwardBufs(groups, f)
  {
    var f := a.(buf := FreeGroup(a.buf, a.done), done := a.done + 1);
    assert f.buf.Keys == a.buf.Keys;
    hide Leads;
    forall tag | tag in f.buf ensures tag.0 < groups && (f.buf[tag] == None <==> tag.0 < f.done) {
      assert tag in a.buf;
    }
  }

  lemma AdvanceKeeps(layers: nat, groups: nat, a: St, m1: map<nat, Tensor>)
    requires 1 <= groups <= layers && a.forward && a.cur < layers && a.done < groups
    requires KeyConsistent(a.pushed) && Recoverable(a) && Passed(layers, groups, a)
    requires ForwardTags(layers, groups, a) && ForwardBufs(groups, a)
    requires forall g: nat :: g in a.host <==> g < groups && g <= a.done
    requires a.done < groups - 1 ==> Representatives(a.state, a.done + 1, m1)
    ensures var b := Advance(groups, a, m1);
      && Recoverable(b) && ForwardTags(layers, groups, b) && ForwardBufs(groups, b)
      && (forall g: nat :: g in b.host <==> g < groups && g <= b.done)
      && b.done == a.done + 1 && b.cur == a.cur && b.pushed == a.pushed && b.forward
  {
    hide KeyConsistent, Recoverable, ForwardTags, ForwardBufs, Representatives, Passed, Taken, FreeGroup;
    FreeKeeps(layers, groups, a);
    var f := a.(buf := FreeGroup(a.buf, a.done), done := a.done + 1);
    if a.done < groups - 1 {
      NextTaken(layers, groups, a);
      OffloadRecoverable(f, a.done + 1, m1);
      OffloadTags(layers, groups, f, a.done + 1, m1);
      OffloadBufs(groups, f, a.done + 1, m1);
      assert Advance(groups, a, m1) == OffloadGroup(f, a.done + 1, m1);
    } else {
      assert Advance(groups, a, m1) == f;
    }
  }

  lemma PassedNext(layers: nat, groups: nat, s: St, done': nat)
    requires 1 <= groups <= layers && Passed(layers, groups, s) && s.done < groups
    requires done' == if Window(layers, groups, s.done) == s.cur then s.done + 1 else s.done
    ensures Passed(layers, groups, s.(cur := s.cur + 1, done := done'))
  {
    forall i: nat | i < groups ensures i < done' <==> Window(layers, groups, i) < s.cur + 1 {
      if s.done < i { WindowsIncrease(layers, groups, s.done, i); }
    }
  }

  /** A layer's commit in the forward pass: the lookups succeed and the invariant is kept. */
  lemma CommitForwardKeeps(layers: nat, groups: nat, s: St, m0: map<nat, Tensor>, m1: map<nat, Tensor>)
    requires Forward(layers, groups, s) && s.cur < layers && Picks(layers, groups, s, m0, m1)
    ensures s.done < groups
    ensures Forward(layers, groups, CommitForward(layers, groups, s, m0, m1))
    ensures CommitForward(layers, groups, s, m0, m1).pushed == s.pushed
  {
    hide KeyConsistent, Recoverable, Representatives, ForwardTags, ForwardBufs, Window, Passed;
    hide Advance, OffloadGroup;
    CounterBehind(layers, groups, s);
    if s.cur == 0 {
      FirstOffload(layers, groups, s, m0);
      OffloadRest(s, 0, m0);
      PassedSame(layers, groups, s, OffloadGroup(s, 0, m0));
      SecondHalf(layers, groups, OffloadGroup(s, 0, m0), m1);
    } else {
      SecondHalf(layers, groups, s, m1);
    }
  }

  lemma OffloadRest(s: St, g: nat, m: map<nat, Tensor>)
    ensures var a := OffloadGroup(s, g, m);
      a.cur == s.cur && a.done == s.done && a.forward == s.forward && a.pushed == s.pushed && a.count == s.count
  {}

  lemma PassedSame(layers: nat, groups: nat, s: St, s': St)
    requires groups >= 1 && Passed(layers, groups, s) && s'.done == s.done && s'.cur == s.cur
    ensures Passed(layers, groups, s')
  {}

  /** The commit after the first group's offload, if any. */
  lemma SecondHalf(layers: nat, groups: nat, a: St, m1: map<nat, Tensor>)
    requires 1 <= groups <= layers && a.forward && a.cur < layers && a.done < groups
    requires KeyConsistent(a.pushed) && Recoverable(a) && Passed(layers, groups, a)
    requires ForwardTags(layers, groups, a) && ForwardBufs(groups, a)
    requires forall g: nat :: g in a.host <==> g < groups && g <= a.done
    requires Window(layers, groups, a.done) == a.cur && a.done < groups - 1 ==> Representatives(a.state, a.done + 1, m1)
    ensures var b := if Window(layers, groups, a.done) == a.cur then Advance(groups, a, m1) else a;
      Forward(layers, groups, b.(cur := b.cur + 1, count := 0)) && b.pushed == a.pushed
  {
    hide Window, KeyConsistent, Recoverable, Representatives, ForwardTags, ForwardBufs, Advance, Passed;
    var hit := Window(layers, groups, a.done) == a.cur;
    PassedNext(layers, groups, a, if hit then a.done + 1 else a.done);
    if hit { AdvanceKeeps(layers, groups, a, m1); }
    var b := if hit then Advance(groups, a, m1) else a;
    NextGroup(layers, groups, b);
    PassedSame(layers, groups, a.(cur := a.cur + 1, done := b.done), b.(cur := b.cur + 1, count := 0));
  }

  /** Opening the next group. */
  lemma NextGroup(layers: nat, groups: nat, b: St)
    requires Recoverable(b) && ForwardTags(layers, groups, b) && ForwardBufs(groups, b)
    ensures var n := b.(cur := b.cur + 1, count := 0);
      Recoverable(n) && ForwardTags(layers, groups, n) && ForwardBufs(groups, n)
  {}

  // ---------------------------------------------------------------- backward pass

  /** After one commit per layer the backward pass can start. */
  lemma TurnKeeps(layers: nat, groups: nat, s: St)
    requires Forward(layers, groups, s) && s.cur == layers
    ensures Backward(layers, groups, Turn(s))
  {
    LastWindow(layers, groups);
    forall i: nat | i < groups ensures Window(layers, groups, i) < layers {
      if i < groups - 1 { WindowsIncrease(layers, groups, i, groups - 1); }
    }
    assert Window(layers, groups, groups - 1) < s.cur;
    assert s.done == groups;
    hide Window;
  }

  lemma ReloadRecoverable(layers: nat, groups: nat, s: St, g: nat)
    requires Recoverable(s) && !s.forward && g in s.host && BackwardTags(layers, groups, s)
    requires forall tag :: tag in s.state ==> (s.state[tag].Offloaded? ==> tag.0 in s.host)
    ensures Recoverable(ReloadGroup(s, g)) && BackwardTags(layers, groups, ReloadGroup(s, g))
  {
    var s' := ReloadGroup(s, g);
    assert s'.state.Keys == s.state.Keys;
    forall tag | tag in s'.state
      ensures Leads(s'.state[tag], tag, s'.pushed[tag], s'.host, s'.forward)
      ensures s'.state[tag].Offloaded? <==> tag.0 in s'.host && Taken(layers, groups, tag.0)
    {
      assert Leads(s.state[tag], tag, s.pushed[tag], s.host, s.forward);
      assert s.state[tag].Offloaded? <==> tag.0 in s.host && Taken(layers, groups, tag.0);
    }
  }

  /** When a window is hit in the backward pass it is the newest one still pending. */
  lemma NewestWindow(layers: nat, groups: nat, s: St)
    requires 1 <= groups <= layers && 1 <= s.cur && BackwardCounter(layers, groups, s)
    ensures var w := s.done - 1;
      && 0 <= w < groups
      && forall g: nat :: g < groups && g != w ==>
           (Window(layers, groups, g) < s.cur <==> Window(layers, groups, g) < s.cur - 1)
    ensures Window(layers, groups, s.done - 1) != s.cur - 1 ==>
      (Window(layers, groups, s.done - 1) < s.cur <==> Window(layers, groups, s.done - 1) < s.cur - 1)
  {
    var w := s.done - 1;
    forall g: nat | g < groups && g != w
      ensures Window(layers, groups, g) < s.cur <==> Window(layers, groups, g) < s.cur - 1
    {
      if g < w { WindowsIncrease(layers, groups, g, w); }
    }
  }

  lemma CounterStep(layers: nat, groups: nat, s: St, done': nat)
    requires 1 <= groups <= layers && 1 <= s.cur && BackwardCounter(layers, groups, s)
    requires done' == if s.cur == 1 then 0
                      else if Window(layers, groups, s.done - 1) == s.cur - 1 && s.done > 1 then s.done - 1
                      else s.done
    ensures BackwardCounter(layers, groups, s.(cur := s.cur - 1, done := done'))
  {
    NewestWindow(layers, groups, s);
    hide Window;
  }

  /** A layer's commit in the backward pass: the lookups succeed and the invariant is kept. */
  lemma CommitBackwardKeeps(layers: nat, groups: nat, s: St)
    requires Backward(layers, groups, s) && s.cur >= 1
    ensures 1 <= s.done <= groups
    ensures Window(layers, groups, s.done - 1) == s.cur - 1 ==> s.done - 1 in s.host
    ensures Backward(layers, groups, CommitBackward(layers, groups, s))
    ensures CommitBackward(layers, groups, s).pushed == s.pushed
  {
    hide Window, Recoverable, BackwardTags, ReloadGroup;
    NewestWindow(layers, groups, s);
    var hit := Window(layers, groups, s.done - 1) == s.cur - 1;
    var s' := CommitBackward(layers, groups, s);
    var a := s.(cur := s.cur - 1);
    CurIrrelevant(layers, groups, s, s.cur - 1);
    if hit { ReloadKeeps(layers, groups, a, s.done - 1); }
    CounterStep(layers, groups, s, s'.done);
    var b := if hit then ReloadGroup(a, s.done - 1) else a;
    assert s' == b.(done := s'.done);
    DoneIrrelevant(layers, groups, b, s'.done);
  }

  lemma ReloadKeeps(layers: nat, groups: nat, a: St, g: nat)
    requires Recoverable(a) && !a.forward && g in a.host && BackwardTags(layers, groups, a)
    ensures var b := ReloadGroup(a, g);
      && Recoverable(b) && BackwardTags(layers, groups, b) && b.host.Keys == a.host.Keys - {g}
      && b.cur == a.cur && b.count == a.count && b.pushed == a.pushed && b.done == a.done && !b.forward
  {
    ReloadRecoverable(layers, groups, a, g);
  }

  lemma CurIrrelevant(layers: nat, groups: nat, s: St, cur: nat)
    requires Recoverable(s) && BackwardTags(layers, groups, s)
    ensures Recoverable(s.(cur := cur)) && BackwardTags(layers, groups, s.(cur := cur))
  {}

  lemma DoneIrrelevant(layers: nat, groups: nat, b: St, done: nat)
    requires Recoverable(b) && BackwardTags(layers, groups, b)
    ensures Recoverable(b.(done := done)) && BackwardTags(layers, groups, b.(done := done))
  {}

  /** Popping a tensor of the current (or a later) layer gives back what was pushed. */
  lemma PopKeeps(layers: nat, groups: nat, s: St, tag: Tag)
    requires Backward(layers, groups, s) && tag in s.state && tag.0 >= s.cur
    ensures s.state[tag].OnDevice? && SameContent(s.state[tag].t, s.pushed[tag])
    ensures Backward(layers, groups, Pop(s, tag))
  {
    if tag.0 < groups { WindowAfterGroup(layers, groups, tag.0); }
    hide Window;
    assert tag.0 !in s.host;
    var s' := Pop(s, tag);
    forall x | x in s'.state ensures Leads(s'.state[x], x, s'.pushed[x], s'.host, s'.forward) {
      assert Leads(s.state[x], x, s.pushed[x], s.host, s.forward);
    }
  }

  /** When every tensor has been popped the next training step starts clean. */
  lemma EndIsInitial(layers: nat, groups: nat, s: St)
    requires Backward(layers, groups, s) && s.cur == 0 && s.state.Keys == {}
    ensures s.(forward := true) == Initial()
  {
    forall g: nat | g in s.host ensures false {
      assert g < groups && Window(layers, groups, g) < 0;
      WindowAfterGroup(layers, groups, g);
    }
    assert s.host.Keys == {} && s.buf.Keys == {} && s.pushed.Keys == {};
  }

  // ---------------------------------------------------------------- memory

  /** Does the tag still hold device memory? */
  predicate Resident(s: St, tag: Tag) {
    (tag in s.state && s.state[tag].OnDevice?) || (tag in s.buf && s.buf[tag].Some?)
  }

  /** In the configuration the library uses, with one group fewer than layers, the activations
      of at most two layers are on the device: the running one and the one before it. */
  ghost predicate TwoGroups(layers: nat, groups: nat, s: St) {
    groups == layers - 1 ==> forall tag: Tag :: Resident(s, tag) ==> s.cur - 1 <= tag.0 <= s.cur
  }

  /** The layers above g have been popped. */
  ghost predicate NoneAbove(pushed: map<Tag, Tensor>, g: nat) { forall tag :: tag in pushed ==> tag.0 <= g }

  lemma TwoResidentGroups(layers: nat, groups: nat, s: St)
    requires Forward(layers, groups, s) || (Backward(layers, groups, s) && NoneAbove(s.pushed, s.cur))
    ensures TwoGroups(layers, groups, s)
  {
    if groups == layers - 1 {
      forall tag: Tag | Resident(s, tag) ensures s.cur - 1 <= tag.0 <= s.cur {
        ResidentTag(layers, s, tag);
      }
    }
  }

  lemma ResidentTag(layers: nat, s: St, tag: Tag)
    requires layers >= 2 && Resident(s, tag)
    requires Forward(layers, layers - 1, s) || (Backward(layers, layers - 1, s) && NoneAbove(s.pushed, s.cur))
    ensures s.cur - 1 <= tag.0 <= s.cur
  {
    var groups := layers - 1;
    assert tag in s.state && tag in s.pushed;
    if tag.0 < groups { UsedConfiguration(layers, tag.0); }
    hide Window;
    assert tag.0 < groups ==> (tag.0 in s.host <==> if s.forward then tag.0 <= s.done && s.cur > 0 else tag.0 + 1 < s.cur);
  }

  /** After the forward pass, a configured group is on the host exactly when it was taken:
      with as many groups as layers only the first one ever leaves the device. */
  lemma ActuallyOffloaded(layers: nat, groups: nat, s: St, tag: Tag)
    requires Forward(layers, groups, s) && s.cur == layers && tag in s.state && tag.0 < groups
    ensures s.state[tag].Offloaded? <==> (tag.0 == 0 || groups < layers)
  {
    TurnKeeps(layers, groups, s);
    WindowAfterGroup(layers, groups, tag.0);
    LastWindow(layers, groups);
    if tag.0 < groups - 1 { WindowsIncrease(layers, groups, tag.0, groups - 1); }
    assert tag.0 in Turn(s).host;
  }

  // ---------------------------------------------------------------- storage keys

  /** What a group's tensor comes back as: its own shape, the representative's content. */
  function Back(t: Tensor, reps: map<nat, Tensor>): Tensor
    requires t.key in reps
  {
    Tensor(t.key, t.shape, reps[t.key].data)
  }

  ghost predicate GroupReps(ts: set<Tensor>, reps: map<nat, Tensor>) {
    && (forall t :: t in ts ==> t.key in reps)
    && (forall k :: k in reps ==> reps[k] in ts && reps[k].key == k)
  }

  /** Sharing one host copy per storage key is sound exactly when tensors of the group with
      one key have one content (`data_ptr + storage_offset` may coincide for different views). */
  lemma SharedCopyIff(ts: set<Tensor>, reps: map<nat, Tensor>)
    requires GroupReps(ts, reps)
    ensures (forall t :: t in ts ==> SameContent(Back(t, reps), t))
            <==> (forall a, b :: a in ts && b in ts && a.key == b.key ==> a.data == b.data)
  {
    if forall t :: t in ts ==> SameContent(Back(t, reps), t) {
      forall a, b | a in ts && b in ts && a.key == b.key ensures a.data == b.data {
        assert SameContent(Back(a, reps), a) && SameContent(Back(b, reps), b);
      }
    }
  }
}
