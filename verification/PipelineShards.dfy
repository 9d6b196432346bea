/**
  How many layers each pipeline rank gets: a search over the size of the middle ranks, which
  finds the closed form ceil(L/p) or nothing at all.
*/
module PipelineShards {

  import opened Arithmetic
  import opened Sequences
  import opened Wrappers

  datatype Fault = TooFewLayers | NoRanks | NothingFound

  datatype Candidate = Candidate(shards: seq<int>, diff: nat)

  lemma {:induction false} SumRepeat(s: seq<int>, x: int, a: nat)
    requires a <= |s| && forall i :: a <= i < |s| ==> s[i] == x
    ensures Sum(s) == Sum(s[..a]) + (|s| - a) * x
  {
    if a < |s| {
      var t := s[..|s| - 1];
      SumRepeat(t, x, a);
      assert t[..a] == s[..a];
      assert (|s| - a) * x == (|t| - a) * x + x;
    } else {
      assert s[..a] == s;
    }
  }

  /** Floor division, as Python's `//`. */
  function First(layers: int, ranks: int, middle: int): int { (layers - middle * (ranks - 2)) / 2 }

  function Last(layers: int, ranks: int, middle: int): int {
    layers - middle * (ranks - 2) - First(layers, ranks, middle)
  }

  predicate Accepted(layers: int, ranks: int, middle: int) {
    && 0 < First(layers, ranks, middle) <= middle
    && 0 < Last(layers, ranks, middle) <= middle
  }

  function Layout(layers: int, ranks: int, middle: int): seq<int>
    requires ranks > 2
  {
    [First(layers, ranks, middle)] + Repeat(middle, ranks - 2) + [Last(layers, ranks, middle)]
  }

  lemma CeilBounds(layers: int, ranks: int, m: int)
    requires ranks > 0
    ensures layers <= m * ranks <==> CeilDiv(layers, ranks) <= m
  {
    var c := CeilDiv(layers, ranks);
    assert layers + ranks - 1 == c * ranks + (layers + ranks - 1) % ranks;
    assert (m - c) * ranks == m * ranks - c * ranks;
    Scaled(m - c, ranks);
  }

  lemma Scaled(x: int, n: int)
    requires n > 0
    ensures x >= 0 ==> x * n >= 0
    ensures x <= -1 ==> x * n <= -n
  {
    if x <= -1 { assert (-1 - x) * n == -n - x * n; NatProduct(-1 - x, n); }
  }

  /** The middle sizes the search accepts are the interval from ceil(L/p) up to the largest
      one that leaves the first and the last rank a layer each. */
  lemma AcceptedIff(layers: int, ranks: int, m: int)
    requires ranks > 2
    ensures Accepted(layers, ranks, m) <==> CeilDiv(layers, ranks) <= m && m * (ranks - 2) + 2 <= layers
  {
    CeilBounds(layers, ranks, m);
    assert m * ranks == m * (ranks - 2) + 2 * m;
  }

  /** The first and last rank together lack less than the middle ones: the slack of an even
      split fits into two ranks that keep a layer each. */
  predicate Fits(layers: int, ranks: int)
    requires ranks > 0
  {
    CeilDiv(layers, ranks) * (ranks - 2) + 2 <= layers
  }

  lemma Monotone(ranks: int, a: int, b: int)
    requires ranks > 2 && a <= b
    ensures a * (ranks - 2) <= b * (ranks - 2) && (a < b ==> a * (ranks - 2) < b * (ranks - 2))
  {
    assert (b - a) * (ranks - 2) == b * (ranks - 2) - a * (ranks - 2);
    NatProduct(b - a, ranks - 2);
    if a < b {
      NatProduct(b - a - 1, ranks - 2);
      assert (b - a - 1) * (ranks - 2) == (b - a) * (ranks - 2) - (ranks - 2);
    }
  }

  /** A larger middle size is less uniform. */
  lemma DiffGrows(layers: int, ranks: int, a: int, b: int)
    requires ranks > 2 && a < b
    ensures a - First(layers, ranks, a) < b - First(layers, ranks, b)
  {
    Monotone(ranks, a, b);
  }

  lemma LayoutRight(layers: int, ranks: int, m: int)
    requires ranks > 2 && Accepted(layers, ranks, m)
    ensures |Layout(layers, ranks, m)| == ranks && Sum(Layout(layers, ranks, m)) == layers
    ensures forall i :: 0 <= i < ranks ==> 0 < Layout(layers, ranks, m)[i] <= m
  {
    var f, s := First(layers, ranks, m), Layout(layers, ranks, m);
    var t := [f] + Repeat(m, ranks - 2);
    assert s[..|s| - 1] == t;
    SumRepeat(t, m, 1);
    assert t[..1] == [f] && [f][..0] == [];
  }

  /** What fixes a result for three or more ranks: the middle ranks have ceil(L/p) layers each, and
      of the rest the first rank has half, rounded down, and the last the other half. */
  ghost predicate Dealt(s: seq<int>, layers: int, ranks: int)
    requires ranks > 2
  {
    && |s| == ranks && Sum(s) == layers
    && (forall i :: 0 < i < ranks - 1 ==> s[i] == CeilDiv(layers, ranks))
    && s[0] <= s[ranks - 1] <= s[0] + 1
  }

  lemma LayoutDealt(layers: int, ranks: int)
    requires ranks > 2 && Fits(layers, ranks)
    ensures Dealt(Layout(layers, ranks, CeilDiv(layers, ranks)), layers, ranks)
  {
    var c := CeilDiv(layers, ranks);
    AcceptedIff(layers, ranks, c);
    LayoutRight(layers, ranks, c);
    HalvesDiffer(layers, ranks, c);
    hide First, Last, CeilDiv, Accepted;
  }

  lemma HalvesDiffer(layers: int, ranks: int, m: int)
    ensures First(layers, ranks, m) <= Last(layers, ranks, m) <= First(layers, ranks, m) + 1
  {
  }

  /** There is only one such result. */
  lemma DealtUnique(s: seq<int>, t: seq<int>, layers: int, ranks: int)
    requires ranks > 2 && Dealt(s, layers, ranks) && Dealt(t, layers, ranks)
    ensures s == t
  {
    hide CeilDiv;
    SumEnds(s, CeilDiv(layers, ranks));
    SumEnds(t, CeilDiv(layers, ranks));
  }

  lemma SumEnds(s: seq<int>, m: int)
    requires |s| > 2 && forall i :: 0 < i < |s| - 1 ==> s[i] == m
    ensures Sum(s) == s[0] + (|s| - 2) * m + s[|s| - 1]
  {
    var init := s[..|s| - 1];
    SumRepeat(init, m, 1);
    assert init[..1] == [s[0]] && [s[0]][..0] == [];
  }

  /** `sorted(...)[0]` for a stable sort: the first of the most uniform candidates. */
  method MostUniform(cs: seq<Candidate>) returns (best: nat)
    requires cs != []
    ensures best < |cs|
    ensures forall i :: 0 <= i < |cs| ==> cs[best].diff <= cs[i].diff
    ensures forall i :: 0 <= i < best ==> cs[best].diff < cs[i].diff
  {
    best := 0;
    for i := 1 to |cs|
      invariant best < i
      invariant forall k :: 0 <= k < i ==> cs[best].diff <= cs[k].diff
      invariant forall k :: 0 <= k < best ==> cs[best].diff < cs[k].diff
    {
      if cs[i].diff < cs[best].diff { best := i; }
    }
  }

  ghost predicate From(cs: seq<Candidate>, ms: seq<int>, layers: int, ranks: int)
    requires ranks > 2
  {
    && |cs| == |ms|
    && (forall i, j :: 0 <= i < j < |ms| ==> ms[i] < ms[j])
    && (forall i :: 0 <= i < |ms| ==>
          Accepted(layers, ranks, ms[i]) &&
          cs[i].shards == Layout(layers, ranks, ms[i]) && cs[i].diff == ms[i] - First(layers, ranks, ms[i]))
  }

  /** `get_dynamic_pipeline_shards`. For three and more ranks it succeeds exactly when the
      slack fits, and then every middle rank has ceil(L/p) layers. */
  method DynamicShards(layers: int, ranks: int) returns (r: Result<seq<int>, Fault>)
    ensures ranks > 2 && r.Ok? ==> Dealt(r.value, layers, ranks)
    ensures layers < ranks ==> r == Error(TooFewLayers)
    ensures layers >= ranks && ranks < 1 ==> r == Error(NoRanks)
    ensures layers >= ranks && ranks == 1 ==> r == Ok([layers])
    ensures layers >= ranks && ranks == 2 ==> r == Ok([layers / 2, layers - layers / 2])
    ensures layers >= ranks && ranks > 2 ==>
              r == if Fits(layers, ranks) then Ok(Layout(layers, ranks, CeilDiv(layers, ranks))) else Error(NothingFound)
  {
    if layers < ranks { return Error(TooFewLayers); }
    if ranks < 1 { return Error(NoRanks); }
    if ranks == 1 { return Ok([layers]); }
    if ranks == 2 { return Ok([layers / 2, layers - layers / 2]); }
    hide Accepted, Layout, First, Last, CeilDiv, Dealt;
    var cs: seq<Candidate> := [];
    ghost var ms: seq<int> := [];
    for m := 0 to layers
      invariant From(cs, ms, layers, ranks)
      invariant forall i :: 0 <= i < |ms| ==> ms[i] < m
      invariant forall k :: 0 <= k < m && Accepted(layers, ranks, k) ==> k in ms
    {
      if Accepted(layers, ranks, m) {
        DiffNatural(layers, ranks, m);
        cs := cs + [Candidate(Layout(layers, ranks, m), m - First(layers, ranks, m))];
        ms := ms + [m];
      }
    }
    var c := CeilDiv(layers, ranks);
    AcceptedIff(layers, ranks, c);
    if cs == [] {
      if Fits(layers, ranks) { InRange(layers, ranks, c); }
      return Error(NothingFound);
    }
    AcceptedIff(layers, ranks, ms[0]);
    Monotone(ranks, c, ms[0]);
    InRange(layers, ranks, c);
    var best := MostUniform(cs);
    ghost var k :| 0 <= k < |ms| && ms[k] == c;
    AcceptedIff(layers, ranks, ms[best]);
    if ms[best] != c { DiffGrows(layers, ranks, c, ms[best]); }
    LayoutDealt(layers, ranks);
    r := Ok(cs[best].shards);
  }

  lemma DiffNatural(layers: int, ranks: int, m: int)
    requires Accepted(layers, ranks, m)
    ensures m - First(layers, ranks, m) >= 0
  {
  }

  lemma InRange(layers: int, ranks: int, m: int)
    requires ranks > 2 && Accepted(layers, ranks, m)
    ensures 0 <= m < layers
  {
    NatProduct(m, ranks - 3);
    assert m * (ranks - 2) == m * (ranks - 3) + m;
  }

  // ---------------------------------------------------------------- what the choice is good for

  lemma {:induction false} SumAtMost(s: seq<int>, m: int)
    requires forall i :: 0 <= i < |s| ==> s[i] <= m
    ensures Sum(s) <= m * |s|
  {
    if s != [] {
      SumAtMost(s[..|s| - 1], m);
      assert m * |s| == m * (|s| - 1) + m;
    }
  }

  /** No way of dealing L layers to p ranks has a smaller maximum than ceil(L/p). */
  lemma Pigeonhole(s: seq<int>, layers: int, ranks: int, m: int)
    requires ranks > 0 && |s| == ranks && Sum(s) == layers
    requires forall i :: 0 <= i < ranks ==> s[i] <= m
    ensures CeilDiv(layers, ranks) <= m
  {
    SumAtMost(s, m);
    CeilBounds(layers, ranks, m);
  }

  /** The result of a successful search: p positive shards that add up to L, and the busiest
      rank has as little as any split allows. */
  lemma SearchOptimal(layers: int, ranks: int, s: seq<int>, other: seq<int>, m: int)
    requires layers >= ranks >= 1
    requires ranks == 1 ==> s == [layers]
    requires ranks == 2 ==> s == [layers / 2, layers - layers / 2]
    requires ranks > 2 ==> Fits(layers, ranks) && s == Layout(layers, ranks, CeilDiv(layers, ranks))
    requires |other| == ranks && Sum(other) == layers && forall i :: 0 <= i < ranks ==> other[i] <= m
    ensures |s| == ranks && Sum(s) == layers
    ensures forall i :: 0 <= i < ranks ==> 0 < s[i] <= m
  {
    Pigeonhole(other, layers, ranks, m);
    if ranks == 1 {
      assert [layers][..0] == [];
    } else if ranks == 2 {
      var a := layers / 2;
      assert [a][..0] == [] && Sum([a]) == a;
      assert |s| == 2 && s[..1] == [a] && Sum(s) == Sum(s[..1]) + s[1];
    } else {
      AcceptedIff(layers, ranks, CeilDiv(layers, ranks));
      LayoutRight(layers, ranks, CeilDiv(layers, ranks));
    }
  }

  /** Up to two layers for each rank the search succeeds from 2p - 2 layers on, and fails below:
      for example with five layers on four ranks. */
  lemma UpToTwoEach(layers: int, ranks: int)
    requires 2 < ranks < layers <= 2 * ranks
    ensures Fits(layers, ranks) <==> 2 * ranks - 2 <= layers
  {
    CeilBounds(layers, ranks, 1);
    CeilBounds(layers, ranks, 2);
  }

  /** It fits exactly when the layers that an even split lacks leave one each to the two outer
      ranks. */
  lemma FitsIffSlack(layers: int, ranks: int)
    requires ranks > 2
    ensures Fits(layers, ranks) <==> CeilDiv(layers, ranks) * ranks - layers <= 2 * CeilDiv(layers, ranks) - 2
  {
    var c := CeilDiv(layers, ranks);
    assert c * ranks == c * (ranks - 2) + 2 * c;
  }

  /** With more than p (p - 1) / 2 layers it never fails. */
  lemma ManyFit(layers: int, ranks: int)
    requires ranks > 2 && 2 * layers > ranks * (ranks - 1)
    ensures Fits(layers, ranks)
  {
    hide Fits, CeilDiv;
    FitsIffSlack(layers, ranks);
    SlackSmall(layers, ranks);
    var c := CeilDiv(layers, ranks);
    if c * ranks - layers > 2 * c - 2 { FewLayers(ranks, c, c * ranks - layers); }
  }

  lemma SlackSmall(layers: int, ranks: int)
    requires ranks > 0
    ensures CeilDiv(layers, ranks) * ranks - layers <= ranks - 1
  {
    hide CeilDiv;
    var c := CeilDiv(layers, ranks);
    CeilBounds(layers, ranks, c - 1);
    assert (c - 1) * ranks == c * ranks - ranks;
  }

  lemma FewLayers(p: int, c: int, slack: int)
    requires p > 2 && 2 * c - 2 < slack <= p - 1
    ensures 2 * (c * p - slack) <= p * (p - 1)
  {
    Multiply(p, 2 * c, slack + 1);
    assert p * (2 * c) == 2 * (c * p);
    SlackProduct(p, slack);
  }

  lemma SlackProduct(p: int, s: int)
    requires p > 2 && s <= p - 1
    ensures p * (s + 1) - 2 * s <= p * (p - 1)
  {
    NatProduct(p - 2, p - 1 - s);
    assert (p - 2) * (p - 1 - s) == p * (p - 1) - p * s - 2 * (p - 1) + 2 * s;
    assert p * (s + 1) == p * s + p;
  }

  /** It never fails when the ranks divide the layers into shards of two or more, or when
      every rank gets exactly one. */
  lemma EvenFits(each: int, ranks: int)
    requires ranks > 2 && each >= 1
    ensures CeilDiv(each * ranks, ranks) == each && Fits(each * ranks, ranks)
  {
    CeilBounds(each * ranks, ranks, each);
    CeilBounds(each * ranks, ranks, each - 1);
    assert (each - 1) * ranks == each * ranks - ranks;
    assert each * ranks == each * (ranks - 2) + 2 * each;
  }
}
