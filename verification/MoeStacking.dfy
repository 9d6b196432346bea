/**
  Two in-place rewrites of a checkpoint dictionary: stacking the weights of all experts of a
  layer under one key, and unstacking them again.
*/
module MoeStacking {

  import opened Wrappers

  datatype Proj = Gate | Up | Down

  const PROJS := [Gate, Up, Down]

  datatype Key = Expert(layer: nat, expert: nat, proj: Proj) | Stacked(layer: nat, proj: Proj) | Other(name: string)

  datatype Tensor<T> = Leaf(content: T) | Stack(parts: seq<Tensor<T>>)

  datatype Fault = MissingKey | EmptyStack | BadIndex

  /** Projections are handled gate, up, down. */
  function Idx(p: Proj): nat {
    match p case Gate => 0 case Up => 1 case Down => 2
  }

  /** Layer i, projection p is handled before layer ci, projection cp, starting at layer first. */
  predicate Before(i: nat, p: Proj, first: nat, ci: nat, cp: nat) {
    first <= i && (i < ci || (i == ci && Idx(p) < cp))
  }

  lemma BeforeNext(a: nat, p: Proj, first: nat, i: nat, c: nat)
    requires c < 3 && first <= i
    ensures Before(a, p, first, i, c + 1) <==> Before(a, p, first, i, c) || (a == i && p == PROJS[c])
  {
    assert Idx(p) == c <==> p == PROJS[c];
  }

  ghost predicate SameAt<T>(a: map<Key, Tensor<T>>, b: map<Key, Tensor<T>>, k: Key) {
    (k in a <==> k in b) && (k in a ==> a[k] == b[k])
  }

  /** One of the first n experts of a layer and projection. */
  predicate IsExpert(k: Key, i: nat, p: Proj, n: nat) {
    k.Expert? && k.layer == i && k.proj == p && k.expert < n
  }

  // ---------------------------------------------------------------- stacking

  ghost predicate HasExperts<T>(dict: map<Key, Tensor<T>>, i: nat, p: Proj, n: nat) {
    forall j: nat :: j < n ==> Expert(i, j, p) in dict
  }

  ghost predicate StackOf<T>(dict: map<Key, Tensor<T>>, i: nat, p: Proj, n: nat, t: Tensor<T>) {
    t.Stack? && |t.parts| == n &&
    forall j: nat :: j < n ==> Expert(i, j, p) in dict && t.parts[j] == dict[Expert(i, j, p)]
  }

  /** out is dict with the layers before (ci, cp) stacked. */
  ghost predicate IsMerged<T>(dict: map<Key, Tensor<T>>, out: map<Key, Tensor<T>>, first: nat, ci: nat, cp: nat, n: nat) {
    && (forall i: nat, p: Proj :: Before(i, p, first, ci, cp) ==>
          HasExperts(dict, i, p, n) && Stacked(i, p) in out && StackOf(dict, i, p, n, out[Stacked(i, p)]))
    && (forall k: Key :: k.Stacked? && !Before(k.layer, k.proj, first, ci, cp) ==> SameAt(dict, out, k))
    && (forall k: Key :: k.Expert? && Before(k.layer, k.proj, first, ci, cp) && k.expert < n ==> k !in out)
    && (forall k: Key :: k.Expert? && !(Before(k.layer, k.proj, first, ci, cp) && k.expert < n) ==> SameAt(dict, out, k))
    && (forall k: Key :: k.Other? ==> SameAt(dict, out, k))
  }

  ghost predicate OneMerged<T>(d: map<Key, Tensor<T>>, e: map<Key, Tensor<T>>, i: nat, p: Proj, n: nat) {
    && HasExperts(d, i, p, n) && Stacked(i, p) in e && StackOf(d, i, p, n, e[Stacked(i, p)])
    && (forall k: Key :: IsExpert(k, i, p, n) ==> k !in e)
    && (forall k: Key :: k != Stacked(i, p) && !IsExpert(k, i, p, n) ==> SameAt(d, e, k))
  }

  /** One layer and projection: pop the experts one by one, then add their stack. */
  method MergeOne<T>(dict: map<Key, Tensor<T>>, i: nat, p: Proj, n: nat) returns (r: Result<map<Key, Tensor<T>>, Fault>)
    ensures r.Ok? <==> n > 0 && HasExperts(dict, i, p, n)
    ensures r.Ok? ==> OneMerged(dict, r.value, i, p, n)
  {
    var d, parts := dict, [];
    for j := 0 to n
      invariant |parts| == j && HasExperts(dict, i, p, j)
      invariant forall a: nat :: a < j ==> parts[a] == dict[Expert(i, a, p)]
      invariant forall k: Key :: IsExpert(k, i, p, j) ==> k !in d
      invariant forall k: Key :: !(IsExpert(k, i, p, j)) ==> SameAt(dict, d, k)
    {
      var key := Expert(i, j, p);
      assert SameAt(dict, d, key);
      if key !in d { return Error(MissingKey); }
      parts := parts + [d[key]];
      ghost var was := d;
      d := d - {key};
      forall k: Key | !IsExpert(k, i, p, j + 1) ensures SameAt(dict, d, k) {
        assert !IsExpert(k, i, p, j) && SameAt(dict, was, k);
      }
    }
    if n == 0 { return Error(EmptyStack); }
    r := Ok(d[Stacked(i, p) := Stack(parts)]);
  }

  ghost predicate Complete<T>(dict: map<Key, Tensor<T>>, first: nat, layers: nat, n: nat) {
    (first < layers ==> n > 0) && forall i: nat, p: Proj :: first <= i < layers ==> HasExperts(dict, i, p, n)
  }

  method Merge<T>(dict: map<Key, Tensor<T>>, first: nat, layers: nat, n: nat) returns (r: Result<map<Key, Tensor<T>>, Fault>)
    ensures r.Ok? <==> Complete(dict, first, layers, n)
    ensures r.Ok? ==> IsMerged(dict, r.value, first, layers, 0, n)
  {
    var d := dict;
    var i := first;
    while i < layers
      invariant first <= i && (i <= layers || i == first)
      invariant IsMerged(dict, d, first, i, 0, n) && (i > first ==> n > 0)
    {
      for c := 0 to 3
        invariant IsMerged(dict, d, first, i, c, n) && (c > 0 ==> n > 0)
      {
        var one := MergeOne(d, i, PROJS[c], n);
        ExpertsKept(dict, d, first, i, c, n);
        if !one.Ok? { return one; }
        MergedNext(dict, d, one.value, first, i, c, n);
        d := one.value;
      }
      NextLayer(dict, d, first, i, n);
      i := i + 1;
    }
    MergedLayers(dict, d, first, i, n);
    r := Ok(d);
  }

  lemma ExpertsKept<T>(dict: map<Key, Tensor<T>>, d: map<Key, Tensor<T>>, first: nat, i: nat, c: nat, n: nat)
    requires IsMerged(dict, d, first, i, c, n) && c < 3 && first <= i
    ensures HasExperts(d, i, PROJS[c], n) <==> HasExperts(dict, i, PROJS[c], n)
    ensures forall j: nat :: j < n ==> SameAt(dict, d, Expert(i, j, PROJS[c]))
  {
    forall j: nat | j < n ensures SameAt(dict, d, Expert(i, j, PROJS[c])) {}
  }

  lemma MergedNext<T>(dict: map<Key, Tensor<T>>, d: map<Key, Tensor<T>>, e: map<Key, Tensor<T>>,
                      first: nat, i: nat, c: nat, n: nat)
    requires IsMerged(dict, d, first, i, c, n) && c < 3 && first <= i
    requires OneMerged(d, e, i, PROJS[c], n)
    ensures IsMerged(dict, e, first, i, c + 1, n)
  {
    var q := PROJS[c];
    ExpertsKept(dict, d, first, i, c, n);
    forall a: nat, p: Proj
      ensures Before(a, p, first, i, c + 1) <==> Before(a, p, first, i, c) || (a == i && p == q)
    {
      BeforeNext(a, p, first, i, c);
    }
    forall a: nat, p: Proj | Before(a, p, first, i, c + 1)
      ensures HasExperts(dict, a, p, n) && Stacked(a, p) in e && StackOf(dict, a, p, n, e[Stacked(a, p)])
    {
      if Before(a, p, first, i, c) {
        assert SameAt(d, e, Stacked(a, p));
      }
    }
    forall k: Key | k.Stacked? && !Before(k.layer, k.proj, first, i, c + 1) ensures SameAt(dict, e, k) {
      assert SameAt(dict, d, k) && SameAt(d, e, k);
    }
    forall k: Key | k.Expert? && Before(k.layer, k.proj, first, i, c + 1) && k.expert < n ensures k !in e {
      if !IsExpert(k, i, q, n) { assert SameAt(d, e, k); }
    }
    forall k: Key | k.Expert? && !(Before(k.layer, k.proj, first, i, c + 1) && k.expert < n) ensures SameAt(dict, e, k) {
      assert !IsExpert(k, i, q, n);
      assert SameAt(dict, d, k) && SameAt(d, e, k);
    }
    forall k: Key | k.Other? ensures SameAt(dict, e, k) {
      assert SameAt(dict, d, k) && SameAt(d, e, k);
    }
  }

  lemma NextLayer<T>(dict: map<Key, Tensor<T>>, d: map<Key, Tensor<T>>, first: nat, i: nat, n: nat)
    requires IsMerged(dict, d, first, i, 3, n) && first <= i
    ensures IsMerged(dict, d, first, i + 1, 0, n)
  {
    assert forall a: nat, p: Proj :: Before(a, p, first, i + 1, 0) <==> Before(a, p, first, i, 3);
  }

  lemma MergedLayers<T>(dict: map<Key, Tensor<T>>, d: map<Key, Tensor<T>>, first: nat, i: nat, n: nat)
    requires IsMerged(dict, d, first, i, 0, n)
    ensures forall a: nat, p: Proj :: first <= a < i ==> HasExperts(dict, a, p, n)
  {
    forall a: nat, p: Proj | first <= a < i ensures HasExperts(dict, a, p, n) { assert Before(a, p, first, i, 0); }
  }

  // ---------------------------------------------------------------- unstacking

  /** A stack that can be indexed by n experts. */
  predicate Indexable<T>(t: Tensor<T>, n: nat) { n == 0 || (t.Stack? && |t.parts| >= n) }

  ghost predicate Unstacks<T>(d: map<Key, Tensor<T>>, k: Key) { k.Expert? && Stacked(k.layer, k.proj) in d }

  ghost predicate PartAt<T>(d: map<Key, Tensor<T>>, e: map<Key, Tensor<T>>, k: Key)
    requires Unstacks(d, k)
  {
    var t := d[Stacked(k.layer, k.proj)];
    t.Stack? && k.expert < |t.parts| && k in e && e[k] == t.parts[k.expert]
  }

  /** out is dict with the layers before (ci, cp) unstacked. */
  ghost predicate IsSplit<T>(dict: map<Key, Tensor<T>>, out: map<Key, Tensor<T>>, ci: nat, cp: nat, n: nat) {
    && (forall k: Key :: k.Stacked? && Before(k.layer, k.proj, 0, ci, cp) ==> k !in out)
    && (forall k: Key :: k.Stacked? && !Before(k.layer, k.proj, 0, ci, cp) ==> SameAt(dict, out, k))
    && (forall k: Key :: k.Expert? && Before(k.layer, k.proj, 0, ci, cp) && k.expert < n && Unstacks(dict, k) ==>
          PartAt(dict, out, k))
    && (forall k: Key :: k.Expert? && !(Before(k.layer, k.proj, 0, ci, cp) && k.expert < n && Unstacks(dict, k)) ==>
          SameAt(dict, out, k))
    && (forall k: Key :: k.Other? ==> SameAt(dict, out, k))
  }

  ghost predicate OneSplit<T>(d: map<Key, Tensor<T>>, e: map<Key, Tensor<T>>, i: nat, p: Proj, n: nat) {
    && Stacked(i, p) !in e
    && (Stacked(i, p) in d ==> Indexable(d[Stacked(i, p)], n))
    && (forall k: Key :: IsExpert(k, i, p, n) && Unstacks(d, k) ==> PartAt(d, e, k))
    && (forall k: Key :: k != Stacked(i, p) && !(IsExpert(k, i, p, n) && Unstacks(d, k)) ==> SameAt(d, e, k))
  }

  /** One layer and projection: pop the stack if there is one, and add its parts. */
  method SplitOne<T>(dict: map<Key, Tensor<T>>, i: nat, p: Proj, n: nat) returns (r: Result<map<Key, Tensor<T>>, Fault>)
    ensures r.Ok? <==> Stacked(i, p) !in dict || Indexable(dict[Stacked(i, p)], n)
    ensures r.Ok? ==> OneSplit(dict, r.value, i, p, n)
  {
    if Stacked(i, p) !in dict { return Ok(dict); }
    var t := dict[Stacked(i, p)];
    var d := dict - {Stacked(i, p)};
    for j := 0 to n
      invariant Indexable(t, j) && Stacked(i, p) !in d
      invariant forall k: Key :: IsExpert(k, i, p, j) ==>
                  t.Stack? && k.expert < |t.parts| && k in d && d[k] == t.parts[k.expert]
      invariant forall k: Key :: k != Stacked(i, p) && !IsExpert(k, i, p, j) ==> SameAt(dict, d, k)
    {
      if !t.Stack? || j >= |t.parts| { return Error(BadIndex); }
      ghost var was := d;
      d := d[Expert(i, j, p) := t.parts[j]];
      forall k: Key | k != Stacked(i, p) && !IsExpert(k, i, p, j + 1) ensures SameAt(dict, d, k) {
        assert !IsExpert(k, i, p, j) && SameAt(dict, was, k);
      }
      forall k: Key | IsExpert(k, i, p, j + 1)
        ensures k.expert < |t.parts| && k in d && d[k] == t.parts[k.expert]
      {
        assert k == Expert(i, j, p) || IsExpert(k, i, p, j);
      }
    }
    r := Ok(d);
  }

  ghost predicate Stackable<T>(dict: map<Key, Tensor<T>>, ci: nat, cp: nat, n: nat) {
    forall i: nat, p: Proj :: Before(i, p, 0, ci, cp) && Stacked(i, p) in dict ==> Indexable(dict[Stacked(i, p)], n)
  }

  method Split<T>(dict: map<Key, Tensor<T>>, layers: nat, n: nat) returns (r: Result<map<Key, Tensor<T>>, Fault>)
    ensures r.Ok? <==> Stackable(dict, layers, 0, n)
    ensures r.Ok? ==> IsSplit(dict, r.value, layers, 0, n)
  {
    var d := dict;
    for i := 0 to layers
      invariant IsSplit(dict, d, i, 0, n) && Stackable(dict, i, 0, n)
    {
      for c := 0 to 3
        invariant IsSplit(dict, d, i, c, n) && Stackable(dict, i, c, n)
      {
        var one := SplitOne(d, i, PROJS[c], n);
        StackKept(dict, d, i, c, n);
        if !one.Ok? {
          assert Before(i, PROJS[c], 0, layers, 0);
          return one;
        }
        SplitNext(dict, d, one.value, i, c, n);
        d := one.value;
      }
      NextSplit(dict, d, i, n);
    }
    r := Ok(d);
  }

  lemma StackKept<T>(dict: map<Key, Tensor<T>>, d: map<Key, Tensor<T>>, i: nat, c: nat, n: nat)
    requires IsSplit(dict, d, i, c, n) && c < 3
    ensures SameAt(dict, d, Stacked(i, PROJS[c]))
    ensures forall j: nat :: j < n ==> SameAt(dict, d, Expert(i, j, PROJS[c]))
  {
    forall j: nat | j < n ensures SameAt(dict, d, Expert(i, j, PROJS[c])) {}
  }

  lemma SplitNext<T>(dict: map<Key, Tensor<T>>, d: map<Key, Tensor<T>>, e: map<Key, Tensor<T>>, i: nat, c: nat, n: nat)
    requires IsSplit(dict, d, i, c, n) && Stackable(dict, i, c, n) && c < 3 && OneSplit(d, e, i, PROJS[c], n)
    ensures IsSplit(dict, e, i, c + 1, n) && Stackable(dict, i, c + 1, n)
  {
    var q := PROJS[c];
    StackKept(dict, d, i, c, n);
    forall a: nat, p: Proj
      ensures Before(a, p, 0, i, c + 1) <==> Before(a, p, 0, i, c) || (a == i && p == q)
    {
      BeforeNext(a, p, 0, i, c);
    }
    forall k: Key | k.Stacked? && Before(k.layer, k.proj, 0, i, c + 1) ensures k !in e {
      if k != Stacked(i, q) { assert SameAt(d, e, k); }
    }
    forall k: Key | k.Stacked? && !Before(k.layer, k.proj, 0, i, c + 1) ensures SameAt(dict, e, k) {
      assert SameAt(dict, d, k) && SameAt(d, e, k);
    }
    forall k: Key | k.Expert? && Before(k.layer, k.proj, 0, i, c + 1) && k.expert < n && Unstacks(dict, k)
      ensures PartAt(dict, e, k)
    {
      if IsExpert(k, i, q, n) {
        assert Unstacks(d, k) && PartAt(d, e, k);
      } else {
        assert PartAt(dict, d, k) && SameAt(d, e, k);
      }
    }
    forall k: Key | k.Expert? && !(Before(k.layer, k.proj, 0, i, c + 1) && k.expert < n && Unstacks(dict, k))
      ensures SameAt(dict, e, k)
    {
      assert IsExpert(k, i, q, n) ==> !Unstacks(d, k);
      assert SameAt(dict, d, k) && SameAt(d, e, k);
    }
    forall k: Key | k.Other? ensures SameAt(dict, e, k) {
      assert SameAt(dict, d, k) && SameAt(d, e, k);
    }
  }

  lemma NextSplit<T>(dict: map<Key, Tensor<T>>, d: map<Key, Tensor<T>>, i: nat, n: nat)
    requires IsSplit(dict, d, i, 3, n) && Stackable(dict, i, 3, n)
    ensures IsSplit(dict, d, i + 1, 0, n) && Stackable(dict, i + 1, 0, n)
  {
    assert forall a: nat, p: Proj :: Before(a, p, 0, i + 1, 0) <==> Before(a, p, 0, i, 3);
  }

  // ---------------------------------------------------------------- round trips

  lemma SameDict<T>(a: map<Key, Tensor<T>>, b: map<Key, Tensor<T>>)
    requires forall k: Key :: SameAt(a, b, k)
    ensures a == b
  {
    assert forall k: Key :: k in a <==> k in b by {
      forall k: Key ensures k in a <==> k in b { assert SameAt(a, b, k); }
    }
    forall k: Key | k in a ensures a[k] == b[k] { assert SameAt(a, b, k); }
  }

  /** What was merged can be split, and splitting gives the original dictionary back exactly
      when that held no stacked keys in the layers of the model. */
  lemma SplitOfMerged<T>(dict: map<Key, Tensor<T>>, m: map<Key, Tensor<T>>, s: map<Key, Tensor<T>>,
                         first: nat, layers: nat, n: nat)
    requires IsMerged(dict, m, first, layers, 0, n) && IsSplit(m, s, layers, 0, n)
    ensures s == dict <==> forall i: nat, p: Proj :: i < layers ==> Stacked(i, p) !in dict
  {
    if s == dict {
      forall i: nat, p: Proj | i < layers ensures Stacked(i, p) !in dict { assert Before(i, p, 0, layers, 0); }
    } else if forall i: nat, p: Proj :: i < layers ==> Stacked(i, p) !in dict {
      forall k: Key ensures SameAt(dict, s, k) { SplitAt(dict, m, s, first, layers, n, k); }
      SameDict(dict, s);
    }
  }

  lemma SplitAt<T>(dict: map<Key, Tensor<T>>, m: map<Key, Tensor<T>>, s: map<Key, Tensor<T>>,
                   first: nat, layers: nat, n: nat, k: Key)
    requires IsMerged(dict, m, first, layers, 0, n) && IsSplit(m, s, layers, 0, n)
    requires forall i: nat, p: Proj :: i < layers ==> Stacked(i, p) !in dict
    ensures SameAt(dict, s, k)
  {
    match k
    case Other(_) => assert SameAt(dict, m, k) && SameAt(m, s, k);
    case Stacked(i, p) =>
      if i >= layers { assert SameAt(dict, m, k) && SameAt(m, s, k); }
    case Expert(i, j, p) =>
      if Before(i, p, first, layers, 0) && j < n {
        assert StackOf(dict, i, p, n, m[Stacked(i, p)]);
        assert Before(i, p, 0, layers, 0) && Unstacks(m, k) && PartAt(m, s, k);
      } else {
        assert SameAt(dict, m, Stacked(i, p)) || Before(i, p, first, layers, 0);
        assert SameAt(dict, m, k) && SameAt(m, s, k);
      }
  }

  /** The splitter accepts everything the merger writes, unless a layer before the first mixture
      layer already held a stacked key. */
  lemma MergedIsStackable<T>(dict: map<Key, Tensor<T>>, m: map<Key, Tensor<T>>, first: nat, layers: nat, n: nat)
    requires IsMerged(dict, m, first, layers, 0, n)
    requires forall i: nat, p: Proj :: i < first ==> Stacked(i, p) !in dict
    ensures Stackable(m, layers, 0, n)
  {
    forall i: nat, p: Proj | Before(i, p, 0, layers, 0) && Stacked(i, p) in m
      ensures Indexable(m[Stacked(i, p)], n)
    {
      assert Before(i, p, first, layers, 0) || SameAt(dict, m, Stacked(i, p));
    }
  }

  /** Merging what was split gives a stacked dictionary back, if its mixture layers are exactly
      the stacked ones, each with one part per expert, and hold no single experts. */
  lemma MergeOfSplit<T>(dict: map<Key, Tensor<T>>, s: map<Key, Tensor<T>>, m: map<Key, Tensor<T>>,
                        first: nat, layers: nat, n: nat)
    requires IsSplit(dict, s, layers, 0, n) && IsMerged(s, m, first, layers, 0, n)
    requires forall i: nat, p: Proj :: i < layers ==>
      if i < first then Stacked(i, p) !in dict
      else Stacked(i, p) in dict && dict[Stacked(i, p)].Stack? && |dict[Stacked(i, p)].parts| == n
    requires forall k: Key :: k.Expert? && Before(k.layer, k.proj, first, layers, 0) && k.expert < n ==> k !in dict
    ensures m == dict
  {
    forall k: Key ensures SameAt(dict, m, k) { MergeAt(dict, s, m, first, layers, n, k); }
    SameDict(dict, m);
  }

  lemma MergeAt<T>(dict: map<Key, Tensor<T>>, s: map<Key, Tensor<T>>, m: map<Key, Tensor<T>>,
                   first: nat, layers: nat, n: nat, k: Key)
    requires IsSplit(dict, s, layers, 0, n) && IsMerged(s, m, first, layers, 0, n)
    requires forall i: nat, p: Proj :: i < layers ==>
      if i < first then Stacked(i, p) !in dict
      else Stacked(i, p) in dict && dict[Stacked(i, p)].Stack? && |dict[Stacked(i, p)].parts| == n
    requires forall k: Key :: k.Expert? && Before(k.layer, k.proj, first, layers, 0) && k.expert < n ==> k !in dict
    ensures SameAt(dict, m, k)
  {
    match k
    case Other(_) => assert SameAt(dict, s, k) && SameAt(s, m, k);
    case Stacked(i, p) =>
      if Before(i, p, first, layers, 0) {
        var t, u := dict[k], m[k];
        assert StackOf(s, i, p, n, u);
        forall j | 0 <= j < n ensures u.parts[j] == t.parts[j] {
          var x := Expert(i, j, p);
          assert Before(i, p, 0, layers, 0) && Unstacks(dict, x) && PartAt(dict, s, x);
        }
        assert u.parts == t.parts;
      } else if i >= layers {
        assert SameAt(dict, s, k) && SameAt(s, m, k);
      } else {
        assert SameAt(s, m, k) && Before(i, p, 0, layers, 0);
      }
    case Expert(i, j, p) =>
      if !(Before(i, p, first, layers, 0) && j < n) {
        assert SameAt(s, m, k) && SameAt(dict, s, k);
      }
  }
}
