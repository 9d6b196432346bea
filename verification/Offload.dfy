/**
  The asynchronous double-buffer offload handler, and a training step that uses it.
  Every method is proved to do to the fields what its specification function says;
  dicts are iterated in any order.
*/
module Offload {

  import opened OffloadSpec
  import opened OffloadWindows
  import opened Wrappers

  /** What a push returns: a tag, or the tensor itself when it is not to be offloaded. */
  datatype Handle = Tagged(tag: Tag) | Direct(t: Tensor)

  /** Between two training steps the backward pass is over and the next forward begins. */
  function AtRest(s: St): St {
    if !s.forward && s.cur == 0 && s.state.Keys == {} then s.(forward := true) else s
  }

  /** The first backward commit turns the pass around. */
  function Turning(layers: nat, s: St): St {
    if s.forward && s.cur == layers then Turn(s) else s
  }

  /** Part of a group's entries have been visited: they are marked, and each of their keys
      has a representative. */
  ghost predicate Collecting(g: nat, was: map<Tag, Entry>, now: map<Tag, Entry>, todo: set<Tag>, m: map<nat, Tensor>) {
    && todo <= was.Keys && now.Keys == was.Keys
    && (forall tag :: tag in was ==> now[tag] == if tag.0 == g && tag !in todo then Mark(was[tag]) else was[tag])
    && (forall tag :: tag in was && tag.0 == g ==> was[tag].OnDevice? && (tag !in todo ==> was[tag].t.key in m))
    && (forall k :: k in m ==> exists tag :: tag in was && tag.0 == g && was[tag] == OnDevice(m[k]) && m[k].key == k)
  }

  lemma CollectNext(g: nat, was: map<Tag, Entry>, now: map<Tag, Entry>, todo: set<Tag>, m: map<nat, Tensor>, tag: Tag)
    requires Collecting(g, was, now, todo, m) && tag in todo
    ensures tag.0 != g ==> Collecting(g, was, now, todo - {tag}, m)
    ensures tag.0 == g ==> now[tag] == was[tag] && was[tag].OnDevice? && var t := was[tag].t;
      Collecting(g, was, now[tag := Offloaded(t.key, t.shape)], todo - {tag}, if t.key in m then m else m[t.key := t])
  {
    if tag.0 == g {
      var t := was[tag].t;
      var m' := if t.key in m then m else m[t.key := t];
      forall k | k in m'
        ensures exists x :: x in was && x.0 == g && was[x] == OnDevice(m'[k]) && m'[k].key == k
      {
        if k in m {
          var x :| x in was && x.0 == g && was[x] == OnDevice(m[k]) && m[k].key == k;
          assert was[x] == OnDevice(m'[k]);
        } else {
          assert was[tag] == OnDevice(m'[k]);
        }
      }
    }
  }

  class AsyncOffloadHandler {
    const groups: nat   // num_offload_group
    const layers: nat   // num_layers
    var currentGroup: nat
    var tensorCount: nat
    var offloadedGroupCount: nat
    var tagToState: map<Tag, Entry>
    var tagToBuf: map<Tag, Option<Tensor>>
    var layerWindowMap: map<nat, int>
    var groupOffloadMapping: map<nat, map<nat, Tensor>>
    ghost var pushed: map<Tag, Tensor>
    ghost var forward: bool

    ghost function Now(): St
      reads this
    {
      St(currentGroup, tensorCount, offloadedGroupCount, tagToState, tagToBuf, groupOffloadMapping, pushed, forward)
    }

    ghost predicate Windows()
      reads this
    {
      && 1 <= groups <= layers
      && (forall i: nat :: i in layerWindowMap <==> i < groups)
      && (forall i :: 0 <= i < groups ==> layerWindowMap[i] == Window(layers, groups, i))
    }

    constructor (groups: nat, layers: nat)
      requires 1 <= groups <= layers
      ensures this.groups == groups && this.layers == layers && Windows()
      ensures Now() == Initial()
    {
      this.groups := groups;
      this.layers := layers;
      currentGroup, tensorCount, offloadedGroupCount := 0, 0, 0;
      tagToState, tagToBuf, groupOffloadMapping, pushed := map[], map[], map[], map[];
      layerWindowMap := map[];
      forward := true;
      new;
      layerWindowMap := BuildWindowMap(layers, groups);
    }

    /** Save one tensor; `needOffload` is the outcome of the stray-tensor and parameter checks. */
    method TensorPush(t: Tensor, needOffload: bool) returns (h: Handle)
      requires Windows() && Forward(layers, groups, AtRest(Now())) && currentGroup < layers
      requires needOffload ==> forall tag :: tag in pushed && tag.0 == currentGroup && pushed[tag].key == t.key ==>
        pushed[tag].data == t.data
      modifies this
      ensures Windows() && Forward(layers, groups, Now())
      ensures needOffload ==>
        && h == Tagged((old(currentGroup), old(tensorCount))) && h.tag !in old(pushed)
        && Now() == Push(groups, AtRest(old(Now())), t)
      ensures !needOffload ==> h == Direct(t) && Now() == AtRest(old(Now()))
    {
      hide Forward, Window;
      forward := AtRest(Now()).forward;
      if needOffload {
        PushKeeps(layers, groups, Now(), t);
        SameKeys(layers, groups, Now());
        var tag := (currentGroup, tensorCount);
        tensorCount := tensorCount + 1;
        assert tag !in tagToState;
        tagToState := tagToState[tag := OnDevice(t)];
        pushed := pushed[tag := t];
        if currentGroup < groups {
          tagToBuf := tagToBuf[tag := Some(t)];
        }
        h := Tagged(tag);
      } else {
        h := Direct(t);
      }
    }

    /** Give a saved tensor back. */
    method TensorPop(h: Handle) returns (t: Tensor)
      requires Windows()
      requires h.Tagged? ==> Backward(layers, groups, Now()) && h.tag in pushed && h.tag.0 >= currentGroup
      modifies this`tagToState, this`tagToBuf, this`pushed
      ensures h.Direct? ==> t == h.t && Now() == old(Now())
      ensures h.Tagged? ==>
        && SameContent(t, old(pushed)[h.tag]) && Now() == Pop(old(Now()), h.tag)
        && Backward(layers, groups, Now()) && pushed == old(pushed) - {h.tag} && currentGroup == old(currentGroup)
    {
      if h.Direct? { return h.t; }
      var tag := h.tag;
      SameKeys(layers, groups, Now());
      PopKeeps(layers, groups, Now(), tag);
      hide Backward, Window;
      assert tag in tagToState;
      var entry := tagToState[tag];
      tagToState := tagToState - {tag};
      tagToBuf := tagToBuf - {tag};
      pushed := pushed - {tag};
      assert entry.OnDevice?; // the source's last assertion
      t := entry.t;
    }

    lemma SameKeys(layers: nat, groups: nat, s: St)
      requires Forward(layers, groups, s) || Backward(layers, groups, s)
      ensures s.pushed.Keys == s.state.Keys
    {}

    /** Move one group's tensors to the host, one copy per storage key. */
    method BulkOffloadGroup(g: nat) returns (ghost m: map<nat, Tensor>)
      requires forall tag :: tag in tagToState && tag.0 == g ==> tagToState[tag].OnDevice?
      modifies this`tagToState, this`groupOffloadMapping
      ensures Representatives(old(tagToState), g, m)
      ensures Now() == OffloadGroup(old(Now()), g, m)
    {
      var mapping: map<nat, Tensor> := map[];
      ghost var was := tagToState;
      var todo := tagToState.Keys;
      while todo != {}
        invariant groupOffloadMapping == old(groupOffloadMapping)
        invariant Collecting(g, was, tagToState, todo, mapping)
      {
        var tag :| tag in todo;
        CollectNext(g, was, tagToState, todo, mapping, tag);
        todo := todo - {tag};
        if tag.0 == g {
          assert tagToState[tag].OnDevice?;
          var t := tagToState[tag].t;
          if t.key !in mapping {
            mapping := mapping[t.key := t];
          }
          tagToState := tagToState[tag := Offloaded(t.key, t.shape)];
        }
      }
      // Copying the collected tensors to the host changes no content.
      groupOffloadMapping := groupOffloadMapping[g := mapping];
      m := mapping;
    }

    /** Move one group's tensors back. */
    method BulkReloadGroup(g: nat)
      requires g in groupOffloadMapping && g < groups
      requires forall tag :: tag in tagToState && tag.0 == g && tagToState[tag].Offloaded? ==>
        tagToState[tag].key in groupOffloadMapping[g]
      modifies this`tagToState, this`groupOffloadMapping
      ensures Now() == ReloadGroup(old(Now()), g)
    {
      var mapping := groupOffloadMapping[g];
      groupOffloadMapping := groupOffloadMapping - {g};
      ghost var was := tagToState;
      var todo := tagToState.Keys;
      while todo != {}
        invariant todo <= was.Keys && tagToState.Keys == was.Keys
        invariant groupOffloadMapping == old(groupOffloadMapping) - {g}
        invariant forall tag :: tag in was ==>
          tagToState[tag] == if tag.0 == g && tag !in todo then Reload(was[tag], mapping) else was[tag]
      {
        var tag :| tag in todo;
        todo := todo - {tag};
        if tag.0 == g && !tagToState[tag].OnDevice? {
          var (key, shape) := (tagToState[tag].key, tagToState[tag].shape);
          tagToState := tagToState[tag := OnDevice(Tensor(key, shape, mapping[key].data))];
        }
      }
    }

    /** Drop the device buffers of a group whose copies are on the host. */
    method FreeBuffers(g: nat)
      modifies this`tagToBuf
      ensures tagToBuf == FreeGroup(old(tagToBuf), g)
    {
      ghost var was := tagToBuf;
      var todo := tagToBuf.Keys;
      while todo != {}
        invariant todo <= was.Keys && tagToBuf.Keys == was.Keys
        invariant forall tag :: tag in was ==>
          tagToBuf[tag] == if tag.0 == g && tag !in todo then None else was[tag]
      {
        var tag :| tag in todo;
        todo := todo - {tag};
        if tag.0 == g {
          tagToBuf := tagToBuf[tag := None];
        }
      }
    }

    method KickstartOffload() returns (ghost m0: map<nat, Tensor>)
      requires currentGroup == 0 ==> forall tag :: tag in tagToState && tag.0 == 0 ==> tagToState[tag].OnDevice?
      modifies this`tagToState, this`groupOffloadMapping
      ensures old(currentGroup) == 0 ==> Representatives(old(tagToState), 0, m0)
      ensures Now() == Kickstart(old(Now()), m0)
    {
      m0 := map[];
      if currentGroup == 0 {
        m0 := BulkOffloadGroup(0);
      }
    }

    method AdvanceWindow() returns (ghost m1: map<nat, Tensor>)
      requires offloadedGroupCount < groups
      requires forall tag :: tag in tagToState && tag.0 == offloadedGroupCount + 1 ==> tagToState[tag].OnDevice?
      modifies this`tagToState, this`groupOffloadMapping, this`tagToBuf, this`offloadedGroupCount
      ensures old(offloadedGroupCount) < groups - 1 ==>
        Representatives(old(tagToState), old(offloadedGroupCount) + 1, m1)
      ensures Now() == Advance(groups, old(Now()), m1)
    {
      hide Representatives;
      m1 := map[];
      FreeBuffers(offloadedGroupCount);
      if offloadedGroupCount < groups - 1 {
        m1 := BulkOffloadGroup(offloadedGroupCount + 1);
      }
      offloadedGroupCount := offloadedGroupCount + 1;
    }

    /** End of a layer in the forward pass. */
    method OnGroupCommitForward() returns (ghost m0: map<nat, Tensor>, ghost m1: map<nat, Tensor>)
      requires Windows() && Forward(layers, groups, AtRest(Now())) && currentGroup < layers
      modifies this
      ensures Windows() && Forward(layers, groups, Now()) && pushed == old(pushed)
      ensures Picks(layers, groups, AtRest(old(Now())), m0, m1)
      ensures Now() == CommitForward(layers, groups, AtRest(old(Now())), m0, m1)
    {
      hide Window, Forward, Representatives, Advance, Kickstart;
      forward := AtRest(Now()).forward;
      ghost var s := Now();
      CommitReady(layers, groups, s);
      m0 := KickstartOffload();
      NextOnDevice(s, m0);
      m1 := map[];
      if layerWindowMap[offloadedGroupCount] == currentGroup {
        m1 := AdvanceWindow();
      }
      currentGroup := currentGroup + 1;
      tensorCount := 0;
      CommitForwardKeeps(layers, groups, s, m0, m1);
    }

    /** Before a forward commit: the window lookup succeeds, and both groups that may be
        offloaded are still on the device. */
    lemma CommitReady(layers: nat, groups: nat, s: St)
      requires Forward(layers, groups, s) && s.cur < layers
      ensures s.done < groups
      ensures s.cur == 0 ==> forall tag :: tag in s.state && tag.0 == 0 ==> s.state[tag].OnDevice?
      ensures forall tag :: tag in s.state && tag.0 == s.done + 1 ==> s.state[tag].OnDevice?
    {
      CounterBehind(layers, groups, s);
    }

    lemma NextOnDevice(s: St, m0: map<nat, Tensor>)
      requires forall tag :: tag in s.state && tag.0 == s.done + 1 ==> s.state[tag].OnDevice?
      ensures var a := Kickstart(s, m0);
        && a.cur == s.cur && a.done == s.done
        && forall tag :: tag in a.state && tag.0 == s.done + 1 ==> a.state[tag].OnDevice?
    {}

    /** A layer's turn in the backward pass. */
    method OnGroupCommitBackward()
      requires Windows() && Backward(layers, groups, Turning(layers, Now())) && currentGroup >= 1
      modifies this
      ensures Windows() && Backward(layers, groups, Now())
      ensures currentGroup == old(currentGroup) - 1 && pushed == old(pushed)
      ensures Turning(layers, old(Now())).done >= 1
      ensures var s := Turning(layers, old(Now()));
        && (Window(layers, groups, s.done - 1) == s.cur - 1 ==> s.done - 1 in s.host)
        && Now() == CommitBackward(layers, groups, s)
    {
      hide Window, Backward, ReloadGroup, Leads;
      forward := Turning(layers, Now()).forward;
      ghost var s := Now();
      CommitBackwardKeeps(layers, groups, s);
      HostKeys(layers, groups, s);
      ReloadRest(s.(cur := s.cur - 1), s.done - 1);
      currentGroup := currentGroup - 1;
      if layerWindowMap[offloadedGroupCount - 1] == currentGroup {
        BulkReloadGroup(offloadedGroupCount - 1);
        offloadedGroupCount := offloadedGroupCount - (if offloadedGroupCount > 1 then 1 else 0);
      }
      if currentGroup == 0 {
        offloadedGroupCount := 0;
      }
    }

    lemma ReloadRest(s: St, g: nat)
      ensures g in s.host ==> var a := ReloadGroup(s, g);
        a.cur == s.cur && a.done == s.done && a.forward == s.forward && a.pushed == s.pushed
        && a.count == s.count && a.buf == s.buf
    {}

    lemma HostKeys(layers: nat, groups: nat, s: St)
      requires Backward(layers, groups, s)
      ensures forall tag :: tag in s.state && s.state[tag].Offloaded? ==>
        tag.0 in s.host && s.state[tag].key in s.host[tag.0]
    {
      forall tag | tag in s.state && s.state[tag].Offloaded?
        ensures tag.0 in s.host && s.state[tag].key in s.host[tag.0]
      {
        assert Leads(s.state[tag], tag, s.pushed[tag], s.host, s.forward);
      }
    }
  }
}
