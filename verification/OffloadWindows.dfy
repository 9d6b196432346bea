/**
  The window map of the asynchronous activation offload: at which layer commit each
  of the offloaded groups changes place.
*/
module OffloadWindows {

  import opened Arithmetic

  /** Closed form of `layer_window_map[i]` for `layers` layers and `groups` offloaded groups. */
  function Window(layers: nat, groups: nat, i: nat): int
    requires groups >= 1
  {
    layers / groups * (i + 1) - 1 + Min(i + 1, layers % groups)
  }

  /** The constructor's loop, with its carried-over constant. */
  method BuildWindowMap(layers: nat, groups: nat) returns (m: map<nat, int>)
    ensures forall i: nat :: i in m <==> i < groups
    ensures forall i :: 0 <= i < groups ==> m[i] == Window(layers, groups, i)
  {
    m := map[];
    var constant := 0;
    for i := 0 to groups
      invariant forall j: nat :: j in m <==> j < i
      invariant forall j :: 0 <= j < i ==> m[j] == Window(layers, groups, j)
      invariant groups >= 1 ==> constant == Min(i, layers % groups)
    {
      var w := layers / groups * (i + 1) - 1;
      if i < layers % groups {
        w := w + i + 1;
        constant := i + 1;
      } else {
        w := w + constant;
      }
      m := m[i := w];
    }
  }

  lemma WindowStep(layers: nat, groups: nat, i: nat)
    requires groups >= 1
    ensures Window(layers, groups, i + 1) ==
      Window(layers, groups, i) + layers / groups + (if i + 1 < layers % groups then 1 else 0)
  {
    var q := layers / groups;
    assert q * (i + 2) == q * (i + 1) + q;
  }

  lemma QuotientPositive(layers: nat, groups: nat)
    requires 1 <= groups
    ensures layers / groups >= 1 <==> groups <= layers
    ensures layers == layers / groups * groups + layers % groups
  {
    if layers / groups >= 1 {
      assert layers / groups * groups >= 1 * groups;
    }
  }

  /** Strictly increasing, so every window fires at its own commit. */
  lemma {:induction false} WindowsIncrease(layers: nat, groups: nat, i: nat, j: nat)
    requires 1 <= groups <= layers && i < j
    ensures Window(layers, groups, i) < Window(layers, groups, j)
    decreases j
  {
    QuotientPositive(layers, groups);
    WindowStep(layers, groups, j - 1);
    if i < j - 1 { WindowsIncrease(layers, groups, i, j - 1); }
  }

  /** The last window is the last layer. */
  lemma LastWindow(layers: nat, groups: nat)
    requires 1 <= groups
    ensures Window(layers, groups, groups - 1) == layers - 1
  {
    QuotientPositive(layers, groups);
  }

  /** A window never comes before its own group's commit, and with fewer groups than
      layers it comes after it. */
  lemma {:induction false} WindowAfterGroup(layers: nat, groups: nat, i: nat)
    requires 1 <= groups <= layers && i < groups
    ensures Window(layers, groups, i) >= i
    ensures groups < layers ==> Window(layers, groups, i) >= i + 1
  {
    QuotientPositive(layers, groups);
    if i == 0 {
      if layers / groups == 1 && groups < layers { assert layers % groups >= 1; }
    } else {
      WindowAfterGroup(layers, groups, i - 1);
      WindowsIncrease(layers, groups, i - 1, i);
    }
  }

  /** The windows are strictly increasing exactly when there are enough layers. */
  lemma WindowsIncreaseIff(layers: nat, groups: nat)
    requires groups >= 2
    ensures (forall i, j :: 0 <= i < j < groups ==> Window(layers, groups, i) < Window(layers, groups, j))
            <==> groups <= layers
  {
    if groups <= layers {
      forall i, j | 0 <= i < j < groups ensures Window(layers, groups, i) < Window(layers, groups, j) {
        WindowsIncrease(layers, groups, i, j);
      }
    } else {
      QuotientPositive(layers, groups);
      assert layers / groups == 0 && layers % groups == layers;
      assert Window(layers, groups, groups - 2) == Window(layers, groups, groups - 1);
    }
  }

  /** The configuration the library uses: one group fewer than layers. */
  lemma UsedConfiguration(layers: nat, i: nat)
    requires layers >= 2 && i < layers - 1
    ensures Window(layers, layers - 1, i) == i + 1
  {
    if layers == 2 {
    } else {
      assert layers / (layers - 1) == 1 && layers % (layers - 1) == 1 by {
        QuotientPositive(layers, layers - 1);
        assert layers == 1 * (layers - 1) + 1;
      }
    }
  }
}
