/**
  The Teacher reward: the usable questions of a group go to the evaluator in one call, the
  evaluations are put back beside their questions, and each question earns what it scores at
  the Student's frontier minus a penalty for resembling its reference and its siblings.
*/
module TeacherReward {

  import opened Arithmetic
  import Vote
  import opened Wrappers

  datatype Item = Item(question: string, reference: string, formatOk: bool)

  datatype Evaluation = Evaluation(score: real, rolloutN: int, target: string)

  /** What the evaluator's endpoint did: no usable answer, or a list of results. */
  datatype Response = Unavailable | Results(list: seq<Evaluation>)

  datatype Fault = EvaluatorUnavailable | MalformedResults | InvalidFormat

  datatype Reply =
    | Zero(question: string, reference: string, formatOk: bool, fault: Fault)
    | Scored(question: string, reference: string, score: real, rSim: real, reward: real, groupSize: nat)

  // ---------------------------------------------------------------- evaluations stay with their questions

  predicate Usable(item: Item) { item.formatOk && item.question != "" }

  function Questions(items: seq<Item>): seq<string> {
    if items == [] then []
    else Questions(items[..|items| - 1]) + if Usable(items[|items| - 1]) then [items[|items| - 1].question] else []
  }

  /** How many items before item i are usable: its place in the request. */
  function Rank(items: seq<Item>, i: nat): nat
    requires i <= |items|
  {
    |Questions(items[..i])|
  }

  lemma {:induction false} Aligned(items: seq<Item>, i: nat)
    requires i < |items| && Usable(items[i])
    ensures Rank(items, i) < |Questions(items)|
    ensures Questions(items)[Rank(items, i)] == items[i].question
  {
    var init := items[..|items| - 1];
    assert items[..i] == init[..i];
    if i < |init| { Aligned(init, i); }
  }

  /** Distinct usable items have distinct places: no evaluation is handed out twice. */
  lemma {:induction false} RankInjective(items: seq<Item>, i: nat, j: nat)
    requires i < j < |items| && Usable(items[i])
    ensures Rank(items, i) < Rank(items, j)
  {
    assert items[..i + 1][..i] == items[..i];
    RankMonotone(items, i + 1, j);
  }

  lemma {:induction false} RankMonotone(items: seq<Item>, i: nat, j: nat)
    requires i <= j <= |items|
    ensures Rank(items, i) <= Rank(items, j)
    decreases j
  {
    if i < j {
      assert items[..j][..j - 1] == items[..j - 1];
      RankMonotone(items, i, j - 1);
    }
  }

  /** The list comprehension with the iterator: usable items take the next evaluation. */
  method Attach(items: seq<Item>, evaluations: seq<Evaluation>) returns (attached: seq<Option<Evaluation>>)
    requires |evaluations| == |Questions(items)|
    ensures |attached| == |items|
    ensures forall i :: 0 <= i < |items| && !Usable(items[i]) ==> attached[i] == None
    ensures forall i :: 0 <= i < |items| && Usable(items[i]) ==>
              Rank(items, i) < |evaluations| && attached[i] == Some(evaluations[Rank(items, i)])
  {
    attached := [];
    var next := 0;
    for i := 0 to |items|
      invariant next == Rank(items, i) && |attached| == i
      invariant forall k :: 0 <= k < i && !Usable(items[k]) ==> attached[k] == None
      invariant forall k :: 0 <= k < i && Usable(items[k]) ==>
                  Rank(items, k) < |evaluations| && attached[k] == Some(evaluations[Rank(items, k)])
    {
      assert items[..i + 1][..i] == items[..i];
      if items[i].formatOk && items[i].question != "" {
        Aligned(items, i);
        attached := attached + [Some(evaluations[next])];
        next := next + 1;
      } else {
        attached := attached + [None];
      }
    }
  }

  // ---------------------------------------------------------------- similarity penalty

  /** Zero when a text is blank, else the ratio of the two texts' tokens. */
  function Similarity(ratio: (string, string) -> real, a: string, b: string): real {
    if Vote.Strip(a) == "" || Vote.Strip(b) == "" then 0.0 else ratio(Vote.Strip(a), Vote.Strip(b))
  }

  /** `token_similarity`. */
  method TokenSimilarity(ratio: (string, string) -> real, a: string, b: string) returns (s: real)
    ensures s == Similarity(ratio, a, b)
    ensures Vote.Strip(a) == "" ==> s == 0.0
    ensures Vote.Strip(b) == "" ==> s == 0.0
    ensures Vote.Strip(a) != "" && Vote.Strip(b) != "" ==> s == ratio(Vote.Strip(a), Vote.Strip(b))
  {
    var first, second := Vote.Strip(a), Vote.Strip(b);
    if first == "" || second == "" { return 0.0; }
    s := ratio(first, second);
  }

  ghost predicate Ratio(ratio: (string, string) -> real) { forall a, b :: 0.0 <= ratio(a, b) <= 1.0 }

  /** `ttsr_tau` and `ttsr_lambda`. */
  datatype Options = Options(tau: real, weight: real)

  /** The excess similarities of item i with the questions of the first n items. */
  function Excesses(ratio: (string, string) -> real, tau: real, items: seq<Item>, i: nat, n: nat): seq<real>
    requires i < |items| && n <= |items|
  {
    if n == 0 then [MaxReal(0.0, Similarity(ratio, items[i].question, items[i].reference) - tau)]
    else
      Excesses(ratio, tau, items, i, n - 1) +
      if i != n - 1 && Vote.Strip(items[n - 1].question) != ""
      then [MaxReal(0.0, Similarity(ratio, items[i].question, items[n - 1].question) - tau)] else []
  }

  function SumReal(xs: seq<real>): real {
    if xs == [] then 0.0 else SumReal(xs[..|xs| - 1]) + xs[|xs| - 1]
  }

  ghost predicate Mean(m: real, xs: seq<real>) { m * |xs| as real == SumReal(xs) }

  lemma {:induction false} SumBounds(xs: seq<real>, hi: real)
    requires forall k :: 0 <= k < |xs| ==> 0.0 <= xs[k] <= hi
    ensures 0.0 <= SumReal(xs) <= hi * |xs| as real
  {
    if xs != [] { SumBounds(xs[..|xs| - 1], hi); }
  }

  lemma {:induction false} ExcessBounds(ratio: (string, string) -> real, tau: real, items: seq<Item>, i: nat, n: nat)
    requires Ratio(ratio) && i < |items| && n <= |items|
    ensures Excesses(ratio, tau, items, i, n) != []
    ensures forall k :: 0 <= k < |Excesses(ratio, tau, items, i, n)| ==>
              0.0 <= Excesses(ratio, tau, items, i, n)[k] <= MaxReal(0.0, 1.0 - tau)
  {
    if n > 0 { ExcessBounds(ratio, tau, items, i, n - 1); }
  }

  lemma MeanBounds(m: real, xs: seq<real>, hi: real)
    requires xs != [] && Mean(m, xs) && forall k :: 0 <= k < |xs| ==> 0.0 <= xs[k] <= hi
    ensures 0.0 <= m <= hi
  {
    SumBounds(xs, hi);
    Sign(m, |xs| as real);
    Sign(m - hi, |xs| as real);
    assert (m - hi) * |xs| as real == m * |xs| as real - hi * |xs| as real;
  }

  lemma Quotient(x: real, n: real)
    requires n > 0.0
    ensures (x / n) * n == x
  {
  }

  /** `r_sim` of item i. */
  method RSim(ratio: (string, string) -> real, tau: real, items: seq<Item>, i: nat) returns (m: real)
    requires i < |items|
    ensures Mean(m, Excesses(ratio, tau, items, i, |items|))
    ensures Ratio(ratio) ==> 0.0 <= m <= MaxReal(0.0, 1.0 - tau)
  {
    hide Similarity, Ratio;
    var similarity := TokenSimilarity(ratio, items[i].question, items[i].reference);
    var excesses := [MaxReal(0.0, similarity - tau)];
    for j := 0 to |items|
      invariant excesses == Excesses(ratio, tau, items, i, j) && excesses != []
    {
      if i != j && Vote.Strip(items[j].question) != "" {
        similarity := TokenSimilarity(ratio, items[i].question, items[j].question);
        excesses := excesses + [MaxReal(0.0, similarity - tau)];
      }
    }
    m := SumReal(excesses) / |excesses| as real;
    Quotient(SumReal(excesses), |excesses| as real);
    assert Mean(m, excesses);
    hide Mean;
    if Ratio(ratio) {
      ExcessBounds(ratio, tau, items, i, |items|);
      MeanBounds(m, excesses, MaxReal(0.0, 1.0 - tau));
    }
  }

  lemma {:induction false} SumConstant(xs: seq<real>, c: real)
    requires xs != [] && xs[0] == 0.0 && forall k :: 1 <= k < |xs| ==> xs[k] == c
    ensures SumReal(xs) == c * (|xs| - 1) as real
  {
    if |xs| > 1 { SumConstant(xs[..|xs| - 1], c); } else { assert xs[..0] == []; }
  }

  lemma {:induction false} CopiesExcess(ratio: (string, string) -> real, tau: real, items: seq<Item>, i: nat, n: nat)
    requires i < |items| && n <= |items| && Vote.Strip(items[i].question) != ""
    requires forall k :: 0 <= k < |items| ==> items[k].question == items[i].question
    ensures var xs := Excesses(ratio, tau, items, i, n);
      && |xs| == 1 + n - (if i < n then 1 else 0)
      && xs[0] == MaxReal(0.0, Similarity(ratio, items[i].question, items[i].reference) - tau)
      && forall k :: 1 <= k < |xs| ==>
           xs[k] == MaxReal(0.0, ratio(Vote.Strip(items[i].question), Vote.Strip(items[i].question)) - tau)
  {
    if n > 0 { CopiesExcess(ratio, tau, items, i, n - 1); }
  }

  /** A collapsed group, all n questions the same and far from the reference, pays the penalty
      (1 - tau)(n - 1)/n each. */
  lemma CollapsePenalty(ratio: (string, string) -> real, tau: real, items: seq<Item>, i: nat, m: real)
    requires i < |items| && Vote.Strip(items[i].question) != "" && tau <= 1.0
    requires forall k :: 0 <= k < |items| ==> items[k].question == items[i].question
    requires ratio(Vote.Strip(items[i].question), Vote.Strip(items[i].question)) == 1.0
    requires Similarity(ratio, items[i].question, items[i].reference) <= tau
    requires Mean(m, Excesses(ratio, tau, items, i, |items|))
    ensures m * |items| as real == (1.0 - tau) * (|items| - 1) as real
  {
    hide Similarity, Excesses, SumReal;
    CopiesExcess(ratio, tau, items, i, |items|);
    SumConstant(Excesses(ratio, tau, items, i, |items|), 1.0 - tau);
  }

  // ---------------------------------------------------------------- the reward formula

  /** Highest where the Student is right half of the time. */
  function Frontier(s: real): real { 4.0 * s * (1.0 - s) }

  function Reward(s: real, rSim: real, weight: real): real { MaxReal(0.0, Frontier(s) - weight * rSim) }

  function Product(x: real, y: real): real { x * y }

  lemma ProductPositive(x: real, y: real)
    requires x > 0.0 && y > 0.0
    ensures Product(x, y) > 0.0
  {
  }

  function Square(d: real): real { Product(d, d) }

  lemma Expand(s: real)
    ensures Frontier(s) == 1.0 - 4.0 * Square(s - 0.5)
  {
    assert (s - 0.5) * (s - 0.5) == s * s - s + 0.25;
    assert 4.0 * s * (1.0 - s) == 4.0 * s - 4.0 * (s * s);
  }

  lemma SquareEven(d: real)
    ensures Square(-d) == Square(d)
  {
    assert -d * -d == d * d;
  }

  lemma SquarePositive(d: real)
    requires d > 0.0
    ensures Square(d) > 0.0
  {
    hide Product;
    ProductPositive(d, d);
  }

  lemma SquareZero()
    ensures Square(0.0) == 0.0
  {
  }

  lemma SquareSign(d: real)
    ensures Square(d) >= 0.0
    ensures Square(d) > 0.0 <==> d != 0.0
  {
    hide Square;
    SquareZero();
    if d > 0.0 {
      SquarePositive(d);
    } else if d < 0.0 {
      SquarePositive(-d);
      SquareEven(d);
    }
  }

  lemma FrontierTop(s: real)
    ensures Frontier(s) <= 1.0
    ensures Frontier(s) == 1.0 <==> s == 0.5
  {
    hide Frontier, Square;
    Expand(s);
    SquareSign(s - 0.5);
  }

  /** With a non-negative penalty the reward lies in [0, 1] whatever the score, and only a
      question at the very frontier without any penalty earns 1. */
  lemma RewardRange(s: real, rSim: real, weight: real)
    requires rSim >= 0.0 && weight >= 0.0
    ensures 0.0 <= Reward(s, rSim, weight) <= 1.0
    ensures Reward(s, rSim, weight) == 1.0 <==> s == 0.5 && weight * rSim == 0.0
  {
    hide Frontier;
    FrontierTop(s);
    RealProduct(weight, rSim);
  }

  /** The closer the score is to one half, and the smaller the penalty, the higher the reward. */
  lemma RewardOrder(s: real, t: real, r: real, q: real, weight: real)
    requires Square(s - 0.5) <= Square(t - 0.5) && r <= q && weight >= 0.0
    ensures Reward(s, r, weight) >= Reward(t, q, weight)
  {
    hide Frontier, Square;
    Expand(s);
    Expand(t);
    RealProduct(weight, q - r);
    assert weight * (q - r) == weight * q - weight * r;
  }

  // ---------------------------------------------------------------- finalising a group

  /** `evaluate_questions`, and its skipping when there is no question to ask. */
  method Evaluate(questions: seq<string>, response: Response) returns (r: Result<seq<Evaluation>, Fault>)
    ensures questions == [] ==> r == Ok([])
    ensures questions != [] && response.Unavailable? ==> r == Error(EvaluatorUnavailable)
    ensures questions != [] && response.Results? ==>
      r == if |response.list| == |questions| then Ok(response.list) else Error(MalformedResults)
  {
    if questions == [] { return Ok([]); }
    if response.Unavailable? { return Error(EvaluatorUnavailable); }
    if |response.list| != |questions| { return Error(MalformedResults); }
    r := Ok(response.list);
  }

  ghost predicate AllZero(items: seq<Item>, replies: seq<Reply>, fault: Fault) {
    |replies| == |items| && forall i :: 0 <= i < |items| ==>
      replies[i] == Zero(items[i].question, items[i].reference, items[i].formatOk, fault)
  }

  /** The reply to a usable item: the score that the endpoint listed at the item's place. */
  ghost predicate Paid(ratio: (string, string) -> real, o: Options, items: seq<Item>, i: nat, response: Response,
                       reply: Reply)
    requires i < |items|
  {
    && response.Results? && Rank(items, i) < |response.list|
    && reply.Scored? && reply.groupSize == |items|
    && reply.question == items[i].question && reply.reference == items[i].reference
    && reply.score == response.list[Rank(items, i)].score
    && Mean(reply.rSim, Excesses(ratio, o.tau, items, i, |items|))
    && reply.reward == Reward(reply.score, reply.rSim, o.weight)
  }

  /** The replies of one group, in the order of its items: the evaluator's fault for all, or an
      own evaluation, mean penalty and reward for every item of good format with a question. */
  ghost predicate Finalized(ratio: (string, string) -> real, o: Options, items: seq<Item>, response: Response,
                            replies: seq<Reply>)
  {
    if Questions(items) != [] && response.Unavailable? then AllZero(items, replies, EvaluatorUnavailable)
    else if Questions(items) != [] && |response.list| != |Questions(items)| then AllZero(items, replies, MalformedResults)
    else
      |replies| == |items| && forall i :: 0 <= i < |items| ==>
        if items[i].formatOk && items[i].question != "" then Paid(ratio, o, items, i, response, replies[i])
        else replies[i] == Zero(items[i].question, items[i].reference, false, InvalidFormat)
  }

  method FinalizeGroup(ratio: (string, string) -> real, o: Options, items: seq<Item>, response: Response)
    returns (replies: seq<Reply>)
    ensures Finalized(ratio, o, items, response, replies)
    ensures Ratio(ratio) ==>
              forall i :: 0 <= i < |items| && replies[i].Scored? ==> 0.0 <= replies[i].rSim <= MaxReal(0.0, 1.0 - o.tau)
  {
    hide Ratio, Mean, Reward, Questions, Excesses, Similarity;
    var questions := AskedOf(items);
    var evaluated := Evaluate(questions, response);
    replies := [];
    if evaluated.Error? {
      for i := 0 to |items|
        invariant |replies| == i
        invariant forall k :: 0 <= k < i ==>
          replies[k] == Zero(items[k].question, items[k].reference, items[k].formatOk, evaluated.error)
      {
        replies := replies + [Zero(items[i].question, items[i].reference, items[i].formatOk, evaluated.error)];
      }
      return;
    }
    var attached := Attach(items, evaluated.value);
    for i := 0 to |items|
      invariant |replies| == i
      invariant forall k :: 0 <= k < i ==>
        match attached[k]
        case None => replies[k] == Zero(items[k].question, items[k].reference, false, InvalidFormat)
        case Some(e) =>
          && replies[k].Scored? && replies[k].score == e.score && replies[k].groupSize == |items|
          && replies[k].question == items[k].question && replies[k].reference == items[k].reference
          && Mean(replies[k].rSim, Excesses(ratio, o.tau, items, k, |items|))
          && replies[k].reward == Reward(replies[k].score, replies[k].rSim, o.weight)
          && (Ratio(ratio) ==> 0.0 <= replies[k].rSim <= MaxReal(0.0, 1.0 - o.tau))
    {
      match attached[i] {
        case None => replies := replies + [Zero(items[i].question, items[i].reference, false, InvalidFormat)];
        case Some(e) =>
          var m := RSim(ratio, o.tau, items, i);
          var frontier := 4.0 * e.score * (1.0 - e.score);
          var reward := MaxReal(0.0, frontier - o.weight * m);
          RewardIs(e.score, m, o.weight);
          replies := replies + [Scored(items[i].question, items[i].reference, e.score, m, reward, |items|)];
      }
    }
    forall i | 0 <= i < |items| && Usable(items[i]) ensures Rank(items, i) < |Questions(items)| { Aligned(items, i); }
  }

  lemma RewardIs(s: real, rSim: real, weight: real)
    ensures Reward(s, rSim, weight) == MaxReal(0.0, 4.0 * s * (1.0 - s) - weight * rSim)
  {
  }

  method AskedOf(items: seq<Item>) returns (questions: seq<string>)
    ensures questions == Questions(items)
  {
    questions := [];
    for i := 0 to |items|
      invariant questions == Questions(items[..i])
    {
      assert items[..i + 1][..i] == items[..i];
      if items[i].formatOk && items[i].question != "" { questions := questions + [items[i].question]; }
    }
    assert items[..|items|] == items;
  }

  /** If the endpoint scores each question it is sent by some function of that question, every
      item of good format with a question is rewarded for its own question's score: filtering and
      putting back never shifts an evaluation to a neighbour. */
  lemma OwnScore(ratio: (string, string) -> real, o: Options, items: seq<Item>, list: seq<Evaluation>,
                 replies: seq<Reply>, f: string -> real, i: nat)
    requires Finalized(ratio, o, items, Results(list), replies) && |list| == |Questions(items)|
    requires forall k :: 0 <= k < |list| ==> list[k].score == f(Questions(items)[k])
    requires i < |items| && items[i].formatOk && items[i].question != ""
    ensures |replies| == |items| && replies[i].Scored? && replies[i].score == f(items[i].question)
  {
    Aligned(items, i);
  }

  /** Two questions p and q are told the first and the second score of the endpoint's list. */
  lemma InOrder(ratio: (string, string) -> real, o: Options, p: Item, q: Item, a: Evaluation, b: Evaluation,
                replies: seq<Reply>)
    requires Usable(p) && Usable(q) && Finalized(ratio, o, [p, q], Results([a, b]), replies)
    ensures |replies| == 2 && replies[0].Scored? && replies[1].Scored?
    ensures replies[0].score == a.score && replies[1].score == b.score
  {
    assert [p, q][..1] == [p] && [p][..0] == [];
    assert [p, q][..0] == [];
    assert Questions([p]) == Questions([]) + [p.question];
  }

  // ---------------------------------------------------------------- how high a reward can get

  /** A question that is fully similar to itself, so it is not blank. */
  predicate SelfSimilar(ratio: (string, string) -> real, q: string) { Similarity(ratio, q, q) == 1.0 }

  ghost predicate AtMost(replies: seq<Reply>, top: real) {
    forall i :: 0 <= i < |replies| && replies[i].Scored? ==> replies[i].reward <= top
  }

  /** A negative weight turns the penalty into a bonus, of at most what a similarity exceeds the
      tolerance by. */
  function Highest(o: Options): real {
    if o.weight >= 0.0 || o.tau >= 1.0 then 1.0 else 1.0 - Product(o.weight, 1.0 - o.tau)
  }

  lemma RewardAtMost(o: Options, s: real, rSim: real)
    requires 0.0 <= rSim <= MaxReal(0.0, 1.0 - o.tau)
    ensures Reward(s, rSim, o.weight) <= Highest(o)
  {
    hide Frontier;
    FrontierTop(s);
    if o.weight >= 0.0 {
      RealProduct(o.weight, rSim);
    } else if o.tau < 1.0 {
      RealProduct(-o.weight, 1.0 - o.tau - rSim);
      RealProduct(-o.weight, 1.0 - o.tau);
      assert -o.weight * (1.0 - o.tau - rSim) == o.weight * rSim - o.weight * (1.0 - o.tau);
      assert -o.weight * (1.0 - o.tau) == -(o.weight * (1.0 - o.tau));
    }
  }

  /** No reply of any group earns more than that. */
  lemma RepliesAtMost(ratio: (string, string) -> real, o: Options, items: seq<Item>, response: Response,
                      replies: seq<Reply>)
    requires Ratio(ratio) && Finalized(ratio, o, items, response, replies)
    ensures AtMost(replies, Highest(o))
  {
    hide Reward, Highest, Excesses, Mean, Questions, Ratio;
    forall i | 0 <= i < |replies| && replies[i].Scored? ensures replies[i].reward <= Highest(o) {
      ExcessBounds(ratio, o.tau, items, i, |items|);
      MeanBounds(replies[i].rSim, Excesses(ratio, o.tau, items, i, |items|), MaxReal(0.0, 1.0 - o.tau));
      RewardAtMost(o, replies[i].score, replies[i].rSim);
    }
  }

  /** One question that repeats its reference, solved by the Student half of the time. */
  function Copied(q: string): seq<Item> { [Item(q, q, true)] }

  function HalfRight(rolloutN: int, target: string): Response { Results([Evaluation(0.5, rolloutN, target)]) }

  lemma CopiedExcess(ratio: (string, string) -> real, tau: real, q: string)
    requires SelfSimilar(ratio, q) && tau <= 1.0
    ensures Excesses(ratio, tau, Copied(q), 0, 1) == [1.0 - tau]
  {
    assert Excesses(ratio, tau, Copied(q), 0, 1) == Excesses(ratio, tau, Copied(q), 0, 0) + [];
  }

  lemma MeanOfOne(m: real, x: real)
    ensures Mean(m, [x]) <==> m == x
  {
    assert [x][..0] == [];
    assert SumReal([x]) == SumReal([]) + x;
  }

  lemma CopiedAsked(q: string)
    requires q != ""
    ensures Questions(Copied(q)) == [q] && Rank(Copied(q), 0) == 0
  {
    assert Copied(q)[..0] == [];
  }

  /** The group pays the penalty 1 - tau, and with a negative weight earns the highest reward. */
  lemma CopiedReply(ratio: (string, string) -> real, o: Options, q: string, rolloutN: int, target: string,
                    replies: seq<Reply>)
    requires SelfSimilar(ratio, q) && o.tau <= 1.0
    ensures Finalized(ratio, o, Copied(q), HalfRight(rolloutN, target), replies) <==>
            replies == [Scored(q, q, 0.5, 1.0 - o.tau, Reward(0.5, 1.0 - o.tau, o.weight), 1)]
    ensures o.weight < 0.0 && o.tau < 1.0 ==> Reward(0.5, 1.0 - o.tau, o.weight) == Highest(o) > 1.0
  {
    hide Excesses, Mean, Reward, Questions;
    CopiedExcess(ratio, o.tau, q);
    CopiedAsked(q);
    MeanOfOne(1.0 - o.tau, 1.0 - o.tau);
    if |replies| == 1 && replies[0].Scored? { MeanOfOne(replies[0].rSim, 1.0 - o.tau); }
    if o.weight < 0.0 && o.tau < 1.0 { BonusReward(o); }
  }

  lemma BonusReward(o: Options)
    requires o.weight < 0.0 && o.tau < 1.0
    ensures Reward(0.5, 1.0 - o.tau, o.weight) == Highest(o) > 1.0
  {
    hide Frontier, Product, Reward;
    FrontierTop(0.5);
    RewardProduct(0.5, 1.0 - o.tau, o.weight);
    ProductNegative(o.weight, 1.0 - o.tau);
  }

  lemma RewardProduct(s: real, rSim: real, weight: real)
    ensures Reward(s, rSim, weight) == MaxReal(0.0, Frontier(s) - Product(weight, rSim))
  {
  }

  lemma ProductNegative(x: real, y: real)
    requires x < 0.0 && y > 0.0
    ensures Product(x, y) < 0.0
  {
    Sign(x, y);
  }

  /** No reply of any group earns more than 1 exactly when the weight is not negative or the
      tolerance is at least 1, provided that some question is fully similar to itself. */
  lemma RewardBoundedIff(ratio: (string, string) -> real, o: Options, q: string)
    requires Ratio(ratio) && SelfSimilar(ratio, q)
    ensures (forall items: seq<Item>, response: Response, replies: seq<Reply> ::
               Finalized(ratio, o, items, response, replies) ==> AtMost(replies, 1.0))
            <==> o.weight >= 0.0 || o.tau >= 1.0
  {
    hide Finalized, Reward, SelfSimilar, Ratio;
    if o.weight >= 0.0 || o.tau >= 1.0 {
      forall items: seq<Item>, response: Response, replies: seq<Reply> | Finalized(ratio, o, items, response, replies)
        ensures AtMost(replies, 1.0)
      {
        RepliesAtMost(ratio, o, items, response, replies);
      }
    } else {
      var replies := [Scored(q, q, 0.5, 1.0 - o.tau, Reward(0.5, 1.0 - o.tau, o.weight), 1)];
      CopiedReply(ratio, o, q, 1, q, replies);
      assert replies[0].Scored? && replies[0].reward > 1.0;
      assert !AtMost(replies, 1.0);
    }
  }
}
