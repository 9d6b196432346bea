/**
  A training step over the offload handler: the forward pass pushes each layer's saved
  tensors and commits, the backward pass commits and pops them, in any order per layer.
*/
module OffloadStep {

  import opened Offload
  import opened OffloadSpec
  import opened OffloadWindows
  import opened Sequences
  import opened Wrappers

  /** One saved tensor and whether the offload checks select it. */
  type Saved = (Tensor, bool)

  /** Selected tensors of a layer that share a storage key share their content. */
  ghost predicate SharedContent(layer: seq<Saved>) {
    forall i, j :: 0 <= i < |layer| && 0 <= j < |layer| && layer[i].1 && layer[j].1 && layer[i].0.key == layer[j].0.key ==>
      layer[i].0.data == layer[j].0.data
  }

  /** A layer's handles are for its tensors: each leads to what was pushed, and no two share a tag. */
  ghost predicate HandlesFor(g: nat, layer: seq<Saved>, hs: seq<Handle>, pushed: map<Tag, Tensor>) {
    && |hs| <= |layer|
    && (forall i :: 0 <= i < |hs| ==>
          match hs[i]
          case Direct(t) => t == layer[i].0
          case Tagged(tag) => tag.0 == g && tag in pushed && pushed[tag] == layer[i].0 && layer[i].1)
    && (forall i, j :: 0 <= i < j < |hs| && hs[i].Tagged? ==> hs[i] != hs[j])
  }

  /** Every live tag of the group is held by one of its handles. */
  ghost predicate AllHeld(g: nat, hs: seq<Handle>, pushed: map<Tag, Tensor>) {
    forall tag :: tag in pushed && tag.0 == g ==> exists i :: 0 <= i < |hs| && hs[i] == Tagged(tag)
  }

  /** Layer g in the forward pass. */
  method ForwardLayer(h: AsyncOffloadHandler, g: nat, layer: seq<Saved>) returns (hs: seq<Handle>)
    requires h.Windows() && Forward(h.layers, h.groups, AtRest(h.Now())) && h.currentGroup == g < h.layers
    requires SharedContent(layer) && forall tag :: tag in h.pushed ==> tag.0 < g
    modifies h
    ensures h.Windows() && Forward(h.layers, h.groups, h.Now()) && h.currentGroup == g + 1
    ensures TwoGroups(h.layers, h.groups, h.Now())
    ensures |hs| == |layer| && HandlesFor(g, layer, hs, h.pushed) && AllHeld(g, hs, h.pushed)
    ensures forall tag :: tag in h.pushed && tag.0 != g <==> tag in old(h.pushed)
    ensures forall tag :: tag in old(h.pushed) ==> h.pushed[tag] == old(h.pushed)[tag]
    ensures forall tag :: tag in h.pushed ==> tag.0 <= g
  {
    hide Forward, Window, TwoGroups;
    hs := [];
    for i := 0 to |layer|
      invariant |hs| == i && h.Windows() && h.currentGroup == g
      invariant Forward(h.layers, h.groups, AtRest(h.Now()))
      invariant i > 0 ==> TwoGroups(h.layers, h.groups, h.Now())
      invariant HandlesFor(g, layer, hs, h.pushed) && AllHeld(g, hs, h.pushed)
      invariant forall tag :: tag in h.pushed && tag.0 != g <==> tag in old(h.pushed)
      invariant forall tag :: tag in old(h.pushed) ==> h.pushed[tag] == old(h.pushed)[tag]
      invariant forall tag :: tag in h.pushed ==> tag.0 <= g
    {
      ghost var was, before := h.pushed, hs;
      var x := h.TensorPush(layer[i].0, layer[i].1);
      AtRestForward(h.layers, h.groups, h.Now());
      TwoResidentGroups(h.layers, h.groups, h.Now());
      hs := hs + [x];
      HandleAdded(g, layer, before, was, x, i, h.pushed);
    }
    ghost var m0, m1 := h.OnGroupCommitForward();
    TwoResidentGroups(h.layers, h.groups, h.Now());
  }

  lemma AtRestForward(layers: nat, groups: nat, s: St)
    requires Forward(layers, groups, s)
    ensures AtRest(s) == s
  {}

  lemma HandleAdded(g: nat, layer: seq<Saved>, hs: seq<Handle>, was: map<Tag, Tensor>, x: Handle, i: nat, now: map<Tag, Tensor>)
    requires i == |hs| < |layer| && HandlesFor(g, layer, hs, was) && AllHeld(g, hs, was)
    requires x.Direct? ==> x.t == layer[i].0 && now == was
    requires x.Tagged? ==> x.tag.0 == g && x.tag !in was && layer[i].1 && now == was[x.tag := layer[i].0]
    ensures HandlesFor(g, layer, hs + [x], now) && AllHeld(g, hs + [x], now)
  {
    var hs' := hs + [x];
    forall tag | tag in now && tag.0 == g ensures exists j :: 0 <= j < |hs'| && hs'[j] == Tagged(tag) {
      if x == Tagged(tag) {
        assert hs'[i] == Tagged(tag);
      } else {
        var j :| 0 <= j < |hs| && hs[j] == Tagged(tag);
        assert hs'[j] == Tagged(tag);
      }
    }
  }

  /** Everything saved for a layer came back as it was. */
  ghost predicate AllBack(layer: seq<Saved>, out: map<nat, Tensor>) {
    forall i :: 0 <= i < |layer| ==> i in out && SameContent(out[i], layer[i].0)
  }

  lemma PoppedResidents(layers: nat, groups: nat, s: St, was: map<Tag, Tensor>)
    requires Backward(layers, groups, s) && s.pushed.Keys <= was.Keys
    ensures NoneAbove(was, s.cur) ==> TwoGroups(layers, groups, s)
  {
    hide Backward, TwoGroups;
    if NoneAbove(was, s.cur) { TwoResidentGroups(layers, groups, s); }
  }

  /** All pops of layer g, in an arbitrary order. */
  method PopLayer(h: AsyncOffloadHandler, g: nat, layer: seq<Saved>, hs: seq<Handle>) returns (out: map<nat, Tensor>)
    requires h.Windows() && Backward(h.layers, h.groups, h.Now()) && h.currentGroup == g
    requires |hs| == |layer| && HandlesFor(g, layer, hs, h.pushed)
    modifies h`tagToState, h`tagToBuf, h`pushed
    ensures h.Windows() && Backward(h.layers, h.groups, h.Now())
    ensures NoneAbove(old(h.pushed), g) ==> TwoGroups(h.layers, h.groups, h.Now())
    ensures AllBack(layer, out)
    ensures forall tag :: tag in h.pushed <==>
      tag in old(h.pushed) && forall i :: 0 <= i < |hs| ==> hs[i] != Tagged(tag)
    ensures forall tag :: tag in h.pushed ==> h.pushed[tag] == old(h.pushed)[tag]
  {
    hide Backward, Window, Pop, TwoGroups, NoneAbove, Indices;
    PoppedResidents(h.layers, h.groups, h.Now(), h.pushed);
    out := map[];
    var todo := Indices(|hs|);
    ghost var gone: set<Tag> := {};
    while todo != {}
      invariant todo <= Indices(|hs|)
      invariant h.Windows() && Backward(h.layers, h.groups, h.Now())
      invariant NoneAbove(old(h.pushed), g) ==> TwoGroups(h.layers, h.groups, h.Now())
      invariant h.pushed == old(h.pushed) - gone
      invariant forall tag :: tag in gone ==> exists i :: 0 <= i < |hs| && hs[i] == Tagged(tag)
      invariant forall i :: 0 <= i < |hs| && hs[i].Tagged? ==> (hs[i].tag in gone <==> i !in todo)
      invariant forall i :: 0 <= i < |hs| && i !in todo ==> i in out && SameContent(out[i], layer[i].0)
    {
      var i :| i in todo;
      var t := h.TensorPop(hs[i]);
      out := out[i := t];
      todo := todo - {i};
      if hs[i].Tagged? {
        gone := gone + {hs[i].tag};
      }
      PoppedResidents(h.layers, h.groups, h.Now(), old(h.pushed));
    }
  }

  /** Layer g in the backward pass: the commit, then all pops. */
  method BackwardLayer(h: AsyncOffloadHandler, g: nat, layer: seq<Saved>, hs: seq<Handle>) returns (out: map<nat, Tensor>)
    requires h.Windows() && Backward(h.layers, h.groups, Turning(h.layers, h.Now())) && h.currentGroup == g + 1
    requires |hs| == |layer| && HandlesFor(g, layer, hs, h.pushed) && AllHeld(g, hs, h.pushed)
    modifies h
    ensures h.Windows() && Backward(h.layers, h.groups, h.Now()) && h.currentGroup == g
    ensures NoneAbove(old(h.pushed), g) ==> TwoGroups(h.layers, h.groups, h.Now())
    ensures AllBack(layer, out)
    ensures forall tag :: tag in h.pushed <==> tag in old(h.pushed) && tag.0 != g
    ensures forall tag :: tag in h.pushed ==> h.pushed[tag] == old(h.pushed)[tag]
  {
    hide Backward, Window, Turning, CommitBackward, TwoGroups, NoneAbove;
    h.OnGroupCommitBackward();
    PoppedResidents(h.layers, h.groups, h.Now(), h.pushed);
    out := PopLayer(h, g, layer, hs);
  }

  /** The handles of the first n layers, all still live. */
  ghost predicate HandlesUpTo(n: nat, inputs: seq<seq<Saved>>, handles: seq<seq<Handle>>, pushed: map<Tag, Tensor>) {
    && n <= |inputs| && n <= |handles|
    && (forall l :: 0 <= l < n ==>
          |handles[l]| == |inputs[l]| && HandlesFor(l, inputs[l], handles[l], pushed) && AllHeld(l, handles[l], pushed))
    && forall tag :: tag in pushed ==> tag.0 < n
  }

  method ForwardPass(h: AsyncOffloadHandler, inputs: seq<seq<Saved>>) returns (handles: seq<seq<Handle>>)
    requires h.Windows() && Forward(h.layers, h.groups, AtRest(h.Now())) && h.currentGroup == 0 && h.pushed == map[]
    requires |inputs| == h.layers && forall g :: 0 <= g < |inputs| ==> SharedContent(inputs[g])
    modifies h
    ensures h.Windows() && Forward(h.layers, h.groups, h.Now()) && h.currentGroup == h.layers
    ensures |handles| == |inputs| && HandlesUpTo(|inputs|, inputs, handles, h.pushed)
  {
    hide Forward, Window, AtRest, TwoGroups;
    handles := [];
    for g := 0 to |inputs|
      invariant |handles| == g && h.Windows() && h.currentGroup == g
      invariant Forward(h.layers, h.groups, AtRest(h.Now()))
      invariant g > 0 ==> Forward(h.layers, h.groups, h.Now()) && TwoGroups(h.layers, h.groups, h.Now())
      invariant HandlesUpTo(g, inputs, handles, h.pushed)
    {
      ghost var was, before := h.pushed, handles;
      var hs := ForwardLayer(h, g, inputs[g]);
      AtRestForward(h.layers, h.groups, h.Now());
      handles := handles + [hs];
      LayerAdded(g, inputs, before, was, hs, h.pushed);
    }
  }

  lemma LayerAdded(g: nat, inputs: seq<seq<Saved>>, handles: seq<seq<Handle>>, was: map<Tag, Tensor>,
        hs: seq<Handle>, now: map<Tag, Tensor>)
    requires |handles| == g < |inputs| && HandlesUpTo(g, inputs, handles, was)
    requires |hs| == |inputs[g]| && HandlesFor(g, inputs[g], hs, now) && AllHeld(g, hs, now)
    requires forall tag :: tag in now && tag.0 != g <==> tag in was
    requires forall tag :: tag in was ==> now[tag] == was[tag]
    requires forall tag :: tag in now ==> tag.0 <= g
    ensures HandlesUpTo(g + 1, inputs, handles + [hs], now)
  {
    var all := handles + [hs];
    forall l | 0 <= l < g + 1
      ensures |all[l]| == |inputs[l]| && HandlesFor(l, inputs[l], all[l], now) && AllHeld(l, all[l], now)
    {
      if l < g {
        LayerKept(l, inputs[l], handles[l], was, now);
      }
    }
  }

  lemma LayerKept(l: nat, layer: seq<Saved>, hs: seq<Handle>, was: map<Tag, Tensor>, now: map<Tag, Tensor>)
    requires HandlesFor(l, layer, hs, was) && AllHeld(l, hs, was)
    requires forall tag: Tag :: tag.0 == l ==> (tag in now <==> tag in was)
    requires forall tag: Tag :: tag.0 == l && tag in was ==> now[tag] == was[tag]
    ensures HandlesFor(l, layer, hs, now) && AllHeld(l, hs, now)
  {}

  method BackwardPass(h: AsyncOffloadHandler, inputs: seq<seq<Saved>>,
        handles: seq<seq<Handle>>) returns (out: seq<map<nat, Tensor>>)
    requires h.Windows() && Forward(h.layers, h.groups, h.Now()) && h.currentGroup == h.layers
    requires |inputs| == |handles| == h.layers && HandlesUpTo(|inputs|, inputs, handles, h.pushed)
    modifies h
    ensures h.Windows() && Backward(h.layers, h.groups, h.Now()) && h.currentGroup == 0 && h.pushed.Keys == {}
    ensures |out| == |inputs|
    ensures forall g :: 0 <= g < |inputs| ==> AllBack(inputs[g], out[g])
  {
    hide Forward, Backward, Window, Turning, TwoGroups;
    out := [];
    TwoResidentGroups(h.layers, h.groups, h.Now());
    AtRestTurns(h.layers, h.groups, h.Now());
    for g := |inputs| downto 0
      invariant h.Windows() && h.currentGroup == g && |out| == |inputs| - g
      invariant Backward(h.layers, h.groups, Turning(h.layers, h.Now()))
      invariant g < |inputs| ==> Backward(h.layers, h.groups, h.Now())
      invariant TwoGroups(h.layers, h.groups, h.Now())
      invariant HandlesUpTo(g, inputs, handles, h.pushed)
      invariant forall l :: g <= l < |inputs| ==> AllBack(inputs[l], out[l - g])
    {
      ghost var was := h.pushed;
      var o := BackwardLayer(h, g, inputs[g], handles[g]);
      BackwardStays(h.layers, h.groups, h.Now());
      forall l | 0 <= l < g ensures HandlesFor(l, inputs[l], handles[l], h.pushed) && AllHeld(l, handles[l], h.pushed) {
        LayerKept(l, inputs[l], handles[l], was, h.pushed);
      }
      ghost var before := out;
      out := [o] + out;
      forall l | g <= l < |inputs| ensures AllBack(inputs[l], out[l - g]) {
        if l > g { assert out[l - g] == before[l - (g + 1)]; }
      }
    }
  }

  /** A whole training step is transparent: every saved tensor comes back with its shape and
      content, no lookup or assertion fails on the way, and the handler is left as it was
      constructed, ready for the next step. */
  method TrainingStep(h: AsyncOffloadHandler, inputs: seq<seq<Saved>>) returns (out: seq<map<nat, Tensor>>)
    requires h.Windows() && AtRest(h.Now()) == Initial()
    requires |inputs| == h.layers && forall g :: 0 <= g < |inputs| ==> SharedContent(inputs[g])
    modifies h
    ensures h.Windows() && AtRest(h.Now()) == Initial()
    ensures |out| == |inputs|
    ensures forall g :: 0 <= g < |inputs| ==> AllBack(inputs[g], out[g])
  {
    hide Forward, Backward, Window;
    InitialForward(h.layers, h.groups);
    var handles := ForwardPass(h, inputs);
    out := BackwardPass(h, inputs, handles);
    KeysEmpty(h.layers, h.groups, h.Now());
    EndIsInitial(h.layers, h.groups, h.Now());
  }

  lemma AtRestTurns(layers: nat, groups: nat, s: St)
    requires Forward(layers, groups, s) && s.cur == layers
    ensures Backward(layers, groups, Turning(layers, s)) && s.cur >= 1
  {
    TurnKeeps(layers, groups, s);
  }

  lemma BackwardStays(layers: nat, groups: nat, s: St)
    requires Backward(layers, groups, s)
    ensures Turning(layers, s) == s
  {}

  lemma KeysEmpty(layers: nat, groups: nat, s: St)
    requires Backward(layers, groups, s) && s.pushed.Keys == {}
    ensures s.state.Keys == {}
  {}
}
