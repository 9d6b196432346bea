/**
  Majority voting over extracted answers, as the Student reward manager and the Student
  evaluator both do it.
*/
module Vote {

  import opened Arithmetic
  import opened Sequences

  // ---------------------------------------------------------------- strings

  /** What Python strips, of the ASCII characters. */
  predicate IsSpace(c: char) {
    || c == ' ' || c == '\t' || c == '\n' || c == '\r' || c == '\U{0B}' || c == '\U{0C}'
    || c == '\U{1C}' || c == '\U{1D}' || c == '\U{1E}' || c == '\U{1F}'
  }

  lemma SpaceCodes(c: char)
    ensures IsSpace(c) <==> 9 <= c as int <= 13 || 28 <= c as int <= 32
  {
  }

  function LeftStrip(s: string): string {
    if s != [] && IsSpace(s[0]) then LeftStrip(s[1..]) else s
  }

  function RightStrip(s: string): string {
    if s != [] && IsSpace(s[|s| - 1]) then RightStrip(s[..|s| - 1]) else s
  }

  /** `str.strip()` on ASCII white space. */
  function Strip(s: string): string { RightStrip(LeftStrip(s)) }

  /** What `str.strip()` leaves: white space is cut off both ends, and nothing else. */
  lemma StripIs(s: string) returns (i: nat, j: nat)
    ensures i <= j <= |s| && Strip(s) == s[i..j]
    ensures forall k :: 0 <= k < i || j <= k < |s| ==> IsSpace(s[k])
    ensures i < j ==> !IsSpace(s[i]) && !IsSpace(s[j - 1])
  {
    i := LeftStripIs(s);
    var n := RightStripIs(s[i..]);
    j := i + n;
    assert s[i..][..n] == s[i..j];
    assert forall k :: j <= k < |s| ==> s[k] == s[i..][k - i];
  }

  lemma {:induction false} LeftStripIs(s: string) returns (i: nat)
    ensures i <= |s| && LeftStrip(s) == s[i..]
    ensures forall k :: 0 <= k < i ==> IsSpace(s[k])
    ensures i < |s| ==> !IsSpace(s[i])
  {
    if s != [] && IsSpace(s[0]) {
      var n := LeftStripIs(s[1..]);
      i := n + 1;
      assert forall k :: 1 <= k < i ==> s[k] == s[1..][k - 1];
    } else {
      i := 0;
    }
  }

  lemma {:induction false} RightStripIs(s: string) returns (j: nat)
    ensures j <= |s| && RightStrip(s) == s[..j]
    ensures forall k :: j <= k < |s| ==> IsSpace(s[k])
    ensures j > 0 ==> !IsSpace(s[j - 1])
  {
    if s != [] && IsSpace(s[|s| - 1]) {
      j := RightStripIs(s[..|s| - 1]);
    } else {
      j := |s|;
    }
  }

  /** Python's order on strings: by code points, a prefix before its extensions. */
  predicate LexLeq(a: string, b: string) {
    a == [] || (b != [] && (a[0] < b[0] || (a[0] == b[0] && LexLeq(a[1..], b[1..]))))
  }

  lemma {:induction false} LexTotal(a: string, b: string)
    ensures LexLeq(a, b) || LexLeq(b, a)
    ensures LexLeq(a, b) && LexLeq(b, a) ==> a == b
  {
    if a != [] && b != [] && a[0] == b[0] {
      LexTotal(a[1..], b[1..]);
      assert a == [a[0]] + a[1..] && b == [b[0]] + b[1..];
    }
  }

  /** A string comes before its extensions, and otherwise the first different character decides. */
  lemma {:induction false} LexIff(a: string, b: string)
    ensures LexLeq(a, b) <==> a <= b || exists k: nat :: LexAt(a, b, k)
  {
    if a != [] && b != [] && a[0] == b[0] {
      LexIff(a[1..], b[1..]);
      assert a == [a[0]] + a[1..] && b == [b[0]] + b[1..];
      if exists k: nat :: LexAt(a[1..], b[1..], k) {
        var k: nat :| LexAt(a[1..], b[1..], k);
        assert forall i :: 1 <= i < k + 1 ==> a[i] == a[1..][i - 1] && b[i] == b[1..][i - 1];
        assert LexAt(a, b, k + 1);
      }
      if exists k: nat :: LexAt(a, b, k) {
        var k: nat :| LexAt(a, b, k);
        assert LexAt(a[1..], b[1..], k - 1);
      }
    } else if a != [] && b != [] && a[0] < b[0] {
      assert LexAt(a, b, 0);
    }
  }

  /** The strings first differ at k, where a has the smaller character. */
  predicate LexAt(a: string, b: string, k: nat) {
    k < |a| && k < |b| && (forall i :: 0 <= i < k ==> a[i] == b[i]) && a[k] < b[k]
  }

  lemma {:induction false} LexTrans(a: string, b: string, c: string)
    requires LexLeq(a, b) && LexLeq(b, c)
    ensures LexLeq(a, c)
  {
    if a != [] && a[0] == b[0] && b[0] == c[0] { LexTrans(a[1..], b[1..], c[1..]); }
  }

  // ---------------------------------------------------------------- counting

  function Count<T(==)>(xs: seq<T>, x: T): nat {
    if xs == [] then 0 else Count(xs[..|xs| - 1], x) + if xs[|xs| - 1] == x then 1 else 0
  }

  lemma {:induction false} CountIn<T>(xs: seq<T>, x: T)
    ensures Count(xs, x) > 0 <==> x in xs
    ensures Count(xs, x) <= |xs|
  {
    if xs != [] { CountIn(xs[..|xs| - 1], x); }
  }

  /** The vote does not depend on the order in which the group's answers came in. */
  lemma {:induction false} CountMultiset<T>(xs: seq<T>, x: T)
    ensures Count(xs, x) == multiset(xs)[x]
  {
    if xs != [] {
      CountMultiset(xs[..|xs| - 1], x);
      assert xs == xs[..|xs| - 1] + [xs[|xs| - 1]];
    }
  }

  lemma TargetPermuted(xs: seq<string>, ys: seq<string>, t: string)
    requires multiset(xs) == multiset(ys) && Target(xs, t)
    ensures Target(ys, t)
  {
    forall a ensures Count(xs, a) == Count(ys, a) { CountMultiset(xs, a); CountMultiset(ys, a); }
    assert forall a :: a in ys <==> a in multiset(ys);
    assert forall a :: a in xs <==> a in multiset(xs);
  }

  /** The key `(-count, answer)` puts a before or at b. */
  predicate Precedes(xs: seq<string>, a: string, b: string) {
    Count(xs, a) > Count(xs, b) || (Count(xs, a) == Count(xs, b) && LexLeq(a, b))
  }

  /** The vote's target: most frequent, and the lexicographically first of those. */
  ghost predicate Target(xs: seq<string>, t: string) {
    t in xs && forall a :: a in xs ==> Precedes(xs, t, a)
  }

  lemma TargetUnique(xs: seq<string>, t: string, u: string)
    requires Target(xs, t) && Target(xs, u)
    ensures t == u
  {
    LexTotal(t, u);
  }

  /** The stripped answers that are not empty. */
  function NonEmpty(answers: seq<string>): seq<string> {
    if answers == [] then []
    else
      var a := Strip(answers[|answers| - 1]);
      NonEmpty(answers[..|answers| - 1]) + if a == "" then [] else [a]
  }

  lemma {:induction false} NonEmptyIn(answers: seq<string>)
    ensures "" !in NonEmpty(answers)
  {
    if answers != [] { NonEmptyIn(answers[..|answers| - 1]); }
  }

  method CountAll(xs: seq<string>) returns (counts: map<string, nat>)
    ensures forall x :: x in counts <==> x in xs
    ensures forall x :: x in counts ==> counts[x] == Count(xs, x)
  {
    counts := map[];
    for i := 0 to |xs|
      invariant forall x :: x in counts <==> x in xs[..i]
      invariant forall x :: x in counts ==> counts[x] == Count(xs[..i], x)
    {
      var x := xs[i];
      assert xs[..i + 1][..i] == xs[..i];
      CountIn(xs[..i], x);
      forall y ensures Count(xs[..i + 1], y) == Count(xs[..i], y) + if x == y then 1 else 0 {}
      counts := counts[x := (if x in counts then counts[x] else 0) + 1];
    }
    assert xs[..|xs|] == xs;
  }

  lemma PrecedesTrans(xs: seq<string>, a: string, b: string, c: string)
    requires Precedes(xs, a, b) && Precedes(xs, b, c)
    ensures Precedes(xs, a, c)
  {
    if Count(xs, a) == Count(xs, c) { LexTrans(a, b, c); }
  }

  /** The first entry in the sorted order of the counts. */
  method First(xs: seq<string>, counts: map<string, nat>) returns (best: string)
    requires xs != []
    requires forall x :: x in counts <==> x in xs
    requires forall x :: x in counts ==> counts[x] == Count(xs, x)
    ensures Target(xs, best)
  {
    best := xs[0];
    var todo := counts.Keys;
    LexTotal(best, best);
    while todo != {}
      invariant todo <= counts.Keys && best in xs
      invariant forall a :: a in xs && a !in todo ==> Precedes(xs, best, a)
    {
      var x :| x in todo;
      todo := todo - {x};
      LexTotal(best, x);
      LexTotal(x, x);
      if counts[x] > counts[best] || (counts[x] == counts[best] && LexLeq(x, best)) {
        forall a | a in xs && a !in todo ensures Precedes(xs, x, a) {
          if a != x { PrecedesTrans(xs, x, best, a); }
        }
        best := x;
      }
    }
  }

  /** Target and count: the empty target for a group without any usable answer. */
  method Majority(answers: seq<string>) returns (target: string, count: nat)
    ensures NonEmpty(answers) == [] ==> target == "" && count == 0
    ensures NonEmpty(answers) != [] ==>
      Target(NonEmpty(answers), target) && target != "" && count == Count(NonEmpty(answers), target) > 0
  {
    var usable := [];
    for i := 0 to |answers|
      invariant usable == NonEmpty(answers[..i])
    {
      assert answers[..i + 1][..i] == answers[..i];
      if Strip(answers[i]) != "" {
        usable := usable + [Strip(answers[i])];
      }
    }
    assert answers[..|answers|] == answers;
    if usable == [] { return "", 0; }
    var counts := CountAll(usable);
    target := First(usable, counts);
    count := counts[target];
    NonEmptyIn(answers);
    CountIn(usable, target);
  }

  // ---------------------------------------------------------------- rewards

  predicate Matches(answer: string, target: string) { target != "" && Strip(answer) == target }

  function MatchCount(answers: seq<string>, target: string): nat {
    if answers == [] then 0
    else MatchCount(answers[..|answers| - 1], target) + if Matches(answers[|answers| - 1], target) then 1 else 0
  }

  /** Exactly `majority_count` answers of the group match the target. */
  lemma {:induction false} MatchesAreCount(answers: seq<string>, target: string)
    requires target != ""
    ensures MatchCount(answers, target) == Count(NonEmpty(answers), target)
  {
    if answers != [] {
      var init, a := answers[..|answers| - 1], Strip(answers[|answers| - 1]);
      MatchesAreCount(init, target);
      if a != "" {
        assert (NonEmpty(init) + [a])[..|NonEmpty(init)|] == NonEmpty(init);
      } else {
        assert NonEmpty(init) + [] == NonEmpty(init);
      }
    }
  }

  lemma {:induction false} NoMatchEmptyTarget(answers: seq<string>)
    ensures MatchCount(answers, "") == 0
  {
    if answers != [] { NoMatchEmptyTarget(answers[..|answers| - 1]); }
  }

  /** The evaluator's score of a question. */
  datatype Score = Score(target: string, count: nat, rewards: seq<int>, score: real)

  predicate IsShare(x: real, count: int, n: nat) { x * n as real == count as real }

  /** `StudentEvaluator.evaluate` for one question's answers: the score is the share of
      answers that match the target, so it lies in [0, 1]; it is positive exactly when some
      answer is usable. */
  method Evaluate(answers: seq<string>) returns (r: Score)
    ensures NonEmpty(answers) == [] ==> r.target == "" && r.count == 0 && r.score == 0.0
    ensures NonEmpty(answers) != [] ==> Target(NonEmpty(answers), r.target) && r.target != ""
    ensures r.count == MatchCount(answers, r.target) == Sum(r.rewards) && |r.rewards| == |answers|
    ensures forall i :: 0 <= i < |answers| ==>
      r.rewards[i] == if r.target != "" && Strip(answers[i]) == r.target then 1 else 0
    ensures IsShare(r.score, r.count, |answers|)
    ensures 0.0 <= r.score <= 1.0
    ensures r.score > 0.0 <==> NonEmpty(answers) != []
  {
    hide Target, Count, Strip, Precedes, Share, IsShare;
    var target, count := Majority(answers);
    var rewards: seq<int> := [];
    for i := 0 to |answers|
      invariant |rewards| == i && Sum(rewards) == MatchCount(answers[..i], target)
      invariant forall k :: 0 <= k < i ==> rewards[k] == if target != "" && Strip(answers[k]) == target then 1 else 0
    {
      assert answers[..i + 1][..i] == answers[..i];
      var x := if target != "" && Strip(answers[i]) == target then 1 else 0;
      assert (rewards + [x])[..i] == rewards;
      rewards := rewards + [x];
    }
    assert answers[..|answers|] == answers;
    if target == "" { NoMatchEmptyTarget(answers); } else { MatchesAreCount(answers, target); }
    MatchBounded(answers, target);
    var score := Share(Sum(rewards), |rewards|);
    ShareBounds(count, |answers|);
    if answers == [] { assert NonEmpty(answers) == []; }
    r := Score(target, count, rewards, score);
  }

  lemma {:induction false} MatchBounded(answers: seq<string>, target: string)
    ensures MatchCount(answers, target) <= |answers|
  {
    if answers != [] { MatchBounded(answers[..|answers| - 1], target); }
  }

  function Share(sum: int, n: nat): real { if n == 0 then 0.0 else sum as real / n as real }

  lemma ShareBounds(a: nat, n: nat)
    requires a <= n
    ensures 0.0 <= Share(a, n) <= 1.0
    ensures IsShare(Share(a, n), a, n)
    ensures Share(a, n) > 0.0 <==> a > 0
  {
    if n > 0 {
      var q := a as real / n as real;
      assert q * n as real == a as real;
      Sign(q, n as real);
      Sign(q - 1.0, n as real);
      assert (q - 1.0) * n as real == q * n as real - n as real;
    }
  }
}
