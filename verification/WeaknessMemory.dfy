/**
  The bounded memory of recurring weaknesses: similar reflections merge into one entry, entries
  that have not been seen for a while expire, and the most persistent ones are kept.
*/
module WeaknessMemory {

  import opened Sequences
  import Vote
  import opened Wrappers

  /** The serial numbers the entries in the order of their insertion: an entry comes with one
      that is larger than all it finds in the memory. */
  datatype Entry = Entry(weakness: string, firstSeen: int, lastSeen: int, persistence: int, serial: nat)

  /** When two weaknesses are the same: the similarity of the newer to the older reaches the
      threshold. The similarity need not be symmetric. */
  datatype Rule = Rule(sim: (string, string) -> real, threshold: real)

  // ---------------------------------------------------------------- merging

  predicate Same(rule: Rule, newer: string, older: string) { rule.sim(newer, older) >= rule.threshold }

  /** The first entry the weakness merges with, or the length of the list. */
  function FirstMatch(rule: Rule, entries: seq<Entry>, w: string): (k: nat)
    ensures k <= |entries|
    ensures forall i :: 0 <= i < k ==> !Same(rule, w, entries[i].weakness)
    ensures k < |entries| ==> Same(rule, w, entries[k].weakness)
  {
    if entries == [] then 0
    else if Same(rule, w, entries[0].weakness) then 0
    else 1 + FirstMatch(rule, entries[1..], w)
  }

  function Seen(e: Entry, iteration: int): Entry { e.(persistence := e.persistence + 1, lastSeen := iteration) }

  function NextSerial(entries: seq<Entry>): (n: nat)
    ensures forall e :: e in entries ==> e.serial < n
  {
    if entries == [] then 0
    else
      var n := NextSerial(entries[1..]);
      if entries[0].serial < n then n else entries[0].serial + 1
  }

  /** One reflection. */
  function Absorb(rule: Rule, entries: seq<Entry>, text: string, iteration: int): seq<Entry> {
    var w := Vote.Strip(text);
    var k := FirstMatch(rule, entries, w);
    if w == "" then entries
    else if k < |entries| then entries[k := Seen(entries[k], iteration)]
    else entries + [Entry(w, iteration, iteration, 1, NextSerial(entries))]
  }

  /** What a reflection leaves behind: nothing new if it is blank; else the first entry it matches
      is refreshed, or a new one comes to the end, and everything else stays as it is. */
  ghost predicate Reflected(rule: Rule, before: seq<Entry>, text: string, iteration: int, after: seq<Entry>) {
    var w, n := Vote.Strip(text), |before|;
    if w == "" then after == before
    else if forall i :: 0 <= i < n ==> !Same(rule, w, before[i].weakness) then
      && |after| == n + 1 && after[..n] == before
      && (forall e :: e in before ==> e.serial < after[n].serial)
      && after[n] == Entry(w, iteration, iteration, 1, after[n].serial)
    else
      exists k :: 0 <= k < n && Refreshed(rule, before, w, iteration, k, after)
  }

  ghost predicate Refreshed(rule: Rule, before: seq<Entry>, w: string, iteration: int, k: nat, after: seq<Entry>)
    requires k < |before|
  {
    && Same(rule, w, before[k].weakness) && (forall i :: 0 <= i < k ==> !Same(rule, w, before[i].weakness))
    && |after| == |before| && (forall i :: 0 <= i < |before| && i != k ==> after[i] == before[i])
    && after[k] == Entry(before[k].weakness, before[k].firstSeen, iteration, before[k].persistence + 1, before[k].serial)
  }

  lemma AbsorbReflects(rule: Rule, entries: seq<Entry>, text: string, iteration: int)
    ensures Reflected(rule, entries, text, iteration, Absorb(rule, entries, text, iteration))
  {
    hide Same, Vote.Strip;
    var w, after := Vote.Strip(text), Absorb(rule, entries, text, iteration);
    var k := FirstMatch(rule, entries, w);
    if w != "" && k < |entries| { assert Refreshed(rule, entries, w, iteration, k, after); }
  }

  function AbsorbAll(rule: Rule, entries: seq<Entry>, texts: seq<string>, iteration: int): seq<Entry> {
    if texts == [] then entries
    else Absorb(rule, AbsorbAll(rule, entries, texts[..|texts| - 1], iteration), texts[|texts| - 1], iteration)
  }

  function Total(entries: seq<Entry>): int {
    if entries == [] then 0 else Total(entries[..|entries| - 1]) + entries[|entries| - 1].persistence
  }

  function NonBlank(texts: seq<string>): nat {
    if texts == [] then 0
    else NonBlank(texts[..|texts| - 1]) + if Vote.Strip(texts[|texts| - 1]) != "" then 1 else 0
  }

  lemma {:induction false} TotalSeen(entries: seq<Entry>, k: nat, iteration: int)
    requires k < |entries|
    ensures Total(entries[k := Seen(entries[k], iteration)]) == Total(entries) + 1
  {
    var after := entries[k := Seen(entries[k], iteration)];
    var m := |entries| - 1;
    if k < m {
      TotalSeen(entries[..m], k, iteration);
      assert after[..m] == entries[..m][k := Seen(entries[k], iteration)];
    } else {
      assert after[..m] == entries[..m];
    }
  }

  /** Every non-blank reflection adds exactly one to the total persistence. */
  lemma {:induction false} PersistenceConserved(rule: Rule, entries: seq<Entry>, texts: seq<string>, iteration: int)
    ensures Total(AbsorbAll(rule, entries, texts, iteration)) == Total(entries) + NonBlank(texts)
  {
    if texts != [] {
      var init, w := texts[..|texts| - 1], Vote.Strip(texts[|texts| - 1]);
      PersistenceConserved(rule, entries, init, iteration);
      var mid := AbsorbAll(rule, entries, init, iteration);
      var k := FirstMatch(rule, mid, w);
      if w != "" && k < |mid| {
        TotalSeen(mid, k, iteration);
      } else if w != "" {
        assert (mid + [Entry(w, iteration, iteration, 1, NextSerial(mid))])[..|mid|] == mid;
      }
    }
  }

  // ---------------------------------------------------------------- the invariant

  /** The entry f was inserted after e, which it did not match. */
  predicate Later(rule: Rule, e: Entry, f: Entry) {
    e.serial < f.serial && e.firstSeen <= f.firstSeen && !Same(rule, f.weakness, e.weakness)
  }

  predicate Apart(rule: Rule, e: Entry, f: Entry) { Later(rule, e, f) || Later(rule, f, e) }

  ghost predicate Pairwise(rule: Rule, entries: seq<Entry>) {
    forall i, j :: 0 <= i < j < |entries| ==> Apart(rule, entries[i], entries[j])
  }

  predicate Sound(e: Entry, now: int) {
    e.weakness != "" && e.firstSeen <= e.lastSeen <= now && e.persistence >= 1
  }

  ghost predicate AllSound(entries: seq<Entry>, now: int) { forall e :: e in entries ==> Sound(e, now) }

  lemma AbsorbKeeps(rule: Rule, entries: seq<Entry>, text: string, iteration: int)
    requires Pairwise(rule, entries) && AllSound(entries, iteration)
    ensures Pairwise(rule, Absorb(rule, entries, text, iteration))
    ensures AllSound(Absorb(rule, entries, text, iteration), iteration)
  {
    hide Vote.Strip, Same;
    var w := Vote.Strip(text);
    var k := FirstMatch(rule, entries, w);
    var after := Absorb(rule, entries, text, iteration);
    forall e | e in after ensures Sound(e, iteration) {
      var i :| 0 <= i < |after| && after[i] == e;
      if i < |entries| { assert entries[i] in entries; }
    }
    forall i, j | 0 <= i < j < |after| ensures Apart(rule, after[i], after[j]) {
      if j < |entries| {
        assert Apart(rule, entries[i], entries[j]);
      } else {
        assert entries[i] in entries && Later(rule, entries[i], after[j]);
      }
    }
  }

  lemma {:induction false} AbsorbAllKeeps(rule: Rule, entries: seq<Entry>, texts: seq<string>, iteration: int)
    requires Pairwise(rule, entries) && AllSound(entries, iteration)
    ensures Pairwise(rule, AbsorbAll(rule, entries, texts, iteration))
    ensures AllSound(AbsorbAll(rule, entries, texts, iteration), iteration)
  {
    if texts != [] {
      AbsorbAllKeeps(rule, entries, texts[..|texts| - 1], iteration);
      AbsorbKeeps(rule, AbsorbAll(rule, entries, texts[..|texts| - 1], iteration), texts[|texts| - 1], iteration);
    }
  }

  // ---------------------------------------------------------------- expiry, order, capacity

  function Recent(entries: seq<Entry>, iteration: int, window: int): (r: seq<Entry>)
    ensures forall e :: e in r <==> e in entries && iteration - e.lastSeen <= window
  {
    if entries == [] then []
    else
      var last := entries[|entries| - 1];
      assert forall e :: e in entries <==> e in entries[..|entries| - 1] || e == last;
      Recent(entries[..|entries| - 1], iteration, window) + if iteration - last.lastSeen <= window then [last] else []
  }

  /** The list comprehension keeps the order of the entries. */
  lemma {:induction false} RecentConcat(a: seq<Entry>, b: seq<Entry>, iteration: int, window: int)
    ensures Recent(a + b, iteration, window) == Recent(a, iteration, window) + Recent(b, iteration, window)
  {
    if b == [] {
      assert a + b == a;
    } else {
      assert (a + b)[..|a + b| - 1] == a + b[..|b| - 1];
      RecentConcat(a, b[..|b| - 1], iteration, window);
    }
  }

  lemma RecentOne(e: Entry, iteration: int, window: int)
    ensures Recent([e], iteration, window) == if iteration - e.lastSeen <= window then [e] else []
  {
    assert [e][..0] == [];
  }

  lemma {:induction false} RecentPairwise(rule: Rule, entries: seq<Entry>, iteration: int, window: int)
    requires Pairwise(rule, entries)
    ensures Pairwise(rule, Recent(entries, iteration, window))
  {
    hide Apart;
    if entries != [] {
      var init, last := entries[..|entries| - 1], entries[|entries| - 1];
      RecentPairwise(rule, init, iteration, window);
      var r := Recent(init, iteration, window);
      forall i | 0 <= i < |r| ensures Apart(rule, r[i], last) {
        assert r[i] in init;
        var k :| 0 <= k < |init| && init[k] == r[i];
        assert entries[k] == init[k];
      }
    }
  }

  ghost predicate Descending(entries: seq<Entry>) {
    forall i, j :: 0 <= i < j < |entries| ==> entries[i].persistence >= entries[j].persistence
  }

  /** How many entries at the front are at least as persistent as p. */
  function Place(entries: seq<Entry>, p: int): (k: nat)
    ensures k <= |entries|
    ensures forall i :: 0 <= i < k ==> entries[i].persistence >= p
    ensures k < |entries| ==> entries[k].persistence < p
  {
    if entries == [] || entries[0].persistence < p then 0 else 1 + Place(entries[1..], p)
  }

  function Insert(entries: seq<Entry>, e: Entry): seq<Entry> {
    var k := Place(entries, e.persistence);
    entries[..k] + [e] + entries[k..]
  }

  /** `list.sort(key=persistence, reverse=True)`: descending, and stable. */
  function Sorted(entries: seq<Entry>): seq<Entry> {
    if entries == [] then [] else Insert(Sorted(entries[..|entries| - 1]), entries[|entries| - 1])
  }

  lemma InsertDescends(s: seq<Entry>, e: Entry)
    requires Descending(s)
    ensures Descending(Insert(s, e))
  {
    var k, r := Place(s, e.persistence), Insert(s, e);
    hide Place;
    assert forall i :: k <= i < |s| ==> s[i].persistence < e.persistence;
    forall i, j | 0 <= i < j < |r| ensures r[i].persistence >= r[j].persistence {
      if j < k {
        assert r[i] == s[i] && r[j] == s[j];
      } else if j == k {
        assert r[i] == s[i] && r[j] == e;
      } else if i == k {
        assert r[i] == e && r[j] == s[j - 1];
      } else {
        assert r[i] == s[if i < k then i else i - 1] && r[j] == s[j - 1];
      }
    }
  }

  lemma InsertPermutes(s: seq<Entry>, e: Entry)
    ensures |Insert(s, e)| == |s| + 1 && multiset(Insert(s, e)) == multiset(s) + multiset{e}
  {
    var k := Place(s, e.persistence);
    assert s == s[..k] + s[k..];
  }

  lemma {:induction false} SortedDescends(entries: seq<Entry>)
    ensures Descending(Sorted(entries))
    ensures |Sorted(entries)| == |entries| && multiset(Sorted(entries)) == multiset(entries)
  {
    hide Insert, Descending;
    if entries == [] {
      EmptyDescends();
    } else {
      var init, last := entries[..|entries| - 1], entries[|entries| - 1];
      SortedDescends(init);
      InsertDescends(Sorted(init), last);
      InsertPermutes(Sorted(init), last);
      assert entries == init + [last];
    }
  }

  lemma EmptyDescends()
    ensures Descending([])
  {
  }

  lemma SortedMembers(entries: seq<Entry>)
    ensures forall e :: e in Sorted(entries) <==> e in entries
  {
    SortedDescends(entries);
    assert forall e :: e in Sorted(entries) <==> e in multiset(Sorted(entries));
    assert forall e :: e in entries <==> e in multiset(entries);
  }

  /** The entries of one persistence, in order. */
  function Level(entries: seq<Entry>, p: int): seq<Entry> {
    if entries == [] then []
    else Level(entries[..|entries| - 1], p) + if entries[|entries| - 1].persistence == p then [entries[|entries| - 1]] else []
  }

  lemma {:induction false} LevelConcat(a: seq<Entry>, b: seq<Entry>, p: int)
    ensures Level(a + b, p) == Level(a, p) + Level(b, p)
  {
    if b == [] {
      assert a + b == a;
    } else {
      assert (a + b)[..|a + b| - 1] == a + b[..|b| - 1];
      LevelConcat(a, b[..|b| - 1], p);
    }
  }

  lemma {:induction false} LevelNone(b: seq<Entry>, p: int)
    requires forall i :: 0 <= i < |b| ==> b[i].persistence != p
    ensures Level(b, p) == []
  {
    if b != [] { LevelNone(b[..|b| - 1], p); }
  }

  lemma LevelOne(e: Entry, p: int)
    ensures Level([e], p) == if e.persistence == p then [e] else []
  {
    assert [e][..0] == [];
  }

  lemma LevelMiddle(a: seq<Entry>, e: Entry, b: seq<Entry>, p: int)
    requires e.persistence == p ==> Level(b, p) == []
    ensures Level(a + [e] + b, p) == Level(a + b, p) + Level([e], p)
  {
    hide Level;
    LevelConcat(a, [e], p);
    LevelConcat(a + [e], b, p);
    LevelConcat(a, b, p);
    LevelOne(e, p);
  }

  lemma InsertLevel(s: seq<Entry>, e: Entry, p: int)
    requires Descending(s)
    ensures Level(Insert(s, e), p) == Level(s, p) + Level([e], p)
  {
    hide Level;
    var k := Place(s, e.persistence);
    assert s == s[..k] + s[k..];
    if e.persistence == p { LevelNone(s[k..], p); }
    LevelMiddle(s[..k], e, s[k..], p);
  }

  /** Equally persistent entries keep their order. */
  lemma {:induction false} SortStable(entries: seq<Entry>, p: int)
    ensures Level(Sorted(entries), p) == Level(entries, p)
  {
    hide Insert;
    if entries != [] {
      var init, last := entries[..|entries| - 1], entries[|entries| - 1];
      SortStable(init, p);
      SortedDescends(init);
      InsertLevel(Sorted(init), last, p);
      LevelOne(last, p);
    }
  }

  lemma {:induction false} PlacedLast(entries: seq<Entry>, p: int)
    requires forall i :: 0 <= i < |entries| ==> entries[i].persistence >= p
    ensures Place(entries, p) == |entries|
  {
    if entries != [] { PlacedLast(entries[1..], p); }
  }

  lemma {:induction false} SortIdempotent(entries: seq<Entry>)
    requires Descending(entries)
    ensures Sorted(entries) == entries
  {
    if entries != [] {
      var init, last := entries[..|entries| - 1], entries[|entries| - 1];
      SortIdempotent(init);
      PlacedLast(init, last.persistence);
      assert init + [last] + [] == entries;
    }
  }

  lemma {:induction false} SortedPairwise(rule: Rule, entries: seq<Entry>)
    requires Pairwise(rule, entries)
    ensures Pairwise(rule, Sorted(entries))
  {
    if entries != [] {
      var init, last := entries[..|entries| - 1], entries[|entries| - 1];
      SortedPairwise(rule, init);
      SortedMembers(init);
      var s := Sorted(init);
      forall e | e in s ensures Apart(rule, e, last) && Apart(rule, last, e) {
        var k :| 0 <= k < |init| && init[k] == e;
        assert Apart(rule, entries[k], last);
      }
      InsertPairwise(rule, s, last);
    }
  }

  lemma InsertPairwise(rule: Rule, s: seq<Entry>, x: Entry)
    requires Pairwise(rule, s) && forall e :: e in s ==> Apart(rule, e, x) && Apart(rule, x, e)
    ensures Pairwise(rule, Insert(s, x))
  {
    hide Apart;
    var k, r := Place(s, x.persistence), Insert(s, x);
    forall i, j | 0 <= i < j < |r| ensures Apart(rule, r[i], r[j]) {
      if i == k {
        assert r[j] == s[j - 1] && s[j - 1] in s;
      } else if j == k {
        assert r[i] == s[i] && s[i] in s;
      } else {
        assert r[i] == s[if i < k then i else i - 1] && r[j] == s[if j < k then j else j - 1];
      }
    }
  }

  function Updated(rule: Rule, capacity: int, window: int, entries: seq<Entry>, texts: seq<string>, iteration: int)
    : seq<Entry>
  {
    Slice(Sorted(Recent(AbsorbAll(rule, entries, texts, iteration), iteration, window)), 0, capacity)
  }

  // ---------------------------------------------------------------- over all runs

  ghost predicate Good(rule: Rule, capacity: int, window: int, entries: seq<Entry>, now: int) {
    && (capacity >= 0 ==> |entries| <= capacity)
    && Descending(entries) && Pairwise(rule, entries) && AllSound(entries, now)
    && (forall e :: e in entries ==> now - e.lastSeen <= window)
  }

  /** An update at a later iteration turns sound, distinct entries into a good memory. */
  lemma UpdateGood(rule: Rule, capacity: int, window: int, entries: seq<Entry>, texts: seq<string>, was: int, now: int)
    requires Pairwise(rule, entries) && AllSound(entries, was) && was <= now
    ensures Good(rule, capacity, window, Updated(rule, capacity, window, entries, texts, now), now)
  {
    hide Apart, AbsorbAll, Sorted, Recent;
    AbsorbAllKeeps(rule, entries, texts, now);
    var all := AbsorbAll(rule, entries, texts, now);
    RecentPairwise(rule, all, now, window);
    var recent := Recent(all, now, window);
    SortedPairwise(rule, recent);
    SortedDescends(recent);
    SortedMembers(recent);
  }

  lemma NextGood(rule: Rule, capacity: int, window: int, entries: seq<Entry>, texts: seq<string>, was: int, now: int)
    requires entries == [] || (Good(rule, capacity, window, entries, was) && was <= now)
    ensures Good(rule, capacity, window, Updated(rule, capacity, window, entries, texts, now), now)
  {
    hide Apart, Updated;
    UpdateGood(rule, capacity, window, entries, texts, if entries == [] then now else was, now);
  }

  datatype Round = Round(texts: seq<string>, iteration: int)

  function Run(rule: Rule, capacity: int, window: int, rounds: seq<Round>): seq<Entry> {
    if rounds == [] then []
    else
      var last := rounds[|rounds| - 1];
      Updated(rule, capacity, window, Run(rule, capacity, window, rounds[..|rounds| - 1]), last.texts, last.iteration)
  }

  /** Of any two entries of a good memory the one inserted later did not reach the threshold
      against the other, and was first seen no earlier. */
  lemma LaterDidNotMatch(rule: Rule, capacity: int, window: int, entries: seq<Entry>, now: int, i: nat, j: nat)
    requires Good(rule, capacity, window, entries, now)
    requires i < |entries| && j < |entries| && i != j
    ensures entries[i].serial != entries[j].serial
    ensures entries[i].serial < entries[j].serial ==>
      rule.sim(entries[j].weakness, entries[i].weakness) < rule.threshold && entries[i].firstSeen <= entries[j].firstSeen
  {
    assert Apart(rule, entries[if i < j then i else j], entries[if i < j then j else i]);
  }

  /** After any sequence of updates with non-decreasing iterations. */
  lemma {:induction false} RunGood(rule: Rule, capacity: int, window: int, rounds: seq<Round>)
    requires rounds != []
    requires forall i, j :: 0 <= i < j < |rounds| ==> rounds[i].iteration <= rounds[j].iteration
    ensures Good(rule, capacity, window, Run(rule, capacity, window, rounds), rounds[|rounds| - 1].iteration)
  {
    hide Updated, Good;
    var init, last := rounds[..|rounds| - 1], rounds[|rounds| - 1];
    if init != [] { RunGood(rule, capacity, window, init); }
    NextGood(rule, capacity, window, Run(rule, capacity, window, init), last.texts,
             if init == [] then last.iteration else init[|init| - 1].iteration, last.iteration);
  }

  // ---------------------------------------------------------------- when an entry was last seen

  /** The serial of the entry that a reflection creates or merges into. */
  function Target(rule: Rule, entries: seq<Entry>, text: string): Option<nat> {
    var w := Vote.Strip(text);
    var k := FirstMatch(rule, entries, w);
    if w == "" then None
    else if k < |entries| then Some(entries[k].serial)
    else Some(NextSerial(entries))
  }

  /** One of the reflections of an update creates the entry or merges into it. */
  ghost predicate Touched(rule: Rule, entries: seq<Entry>, texts: seq<string>, iteration: int, serial: nat) {
    exists i :: 0 <= i < |texts| && Target(rule, AbsorbAll(rule, entries, texts[..i], iteration), texts[i]) == Some(serial)
  }

  lemma AbsorbTouches(rule: Rule, entries: seq<Entry>, text: string, iteration: int, e: Entry)
    requires Pairwise(rule, entries) && e in Absorb(rule, entries, text, iteration)
    ensures if Target(rule, entries, text) == Some(e.serial) then e.lastSeen == iteration else e in entries
  {
    hide Vote.Strip, Same;
    var w, after := Vote.Strip(text), Absorb(rule, entries, text, iteration);
    var k := FirstMatch(rule, entries, w);
    var i :| 0 <= i < |after| && after[i] == e;
    if w != "" && k < |entries| && i != k {
      assert Apart(rule, entries[if i < k then i else k], entries[if i < k then k else i]);
      assert entries[i] in entries;
    } else if i < |entries| {
      assert entries[i] in entries;
    }
  }

  /** After the reflections of an update the entries that were touched have been seen now, and the
      others are as they were. */
  lemma {:induction false} SeenOrKept(rule: Rule, entries: seq<Entry>, texts: seq<string>, iteration: int, e: Entry)
    requires Pairwise(rule, entries) && AllSound(entries, iteration)
    requires e in AbsorbAll(rule, entries, texts, iteration)
    ensures if Touched(rule, entries, texts, iteration, e.serial) then e.lastSeen == iteration else e in entries
  {
    hide Absorb, Target, Apart;
    if texts != [] {
      var init, text := texts[..|texts| - 1], texts[|texts| - 1];
      var mid := AbsorbAll(rule, entries, init, iteration);
      AbsorbAllKeeps(rule, entries, init, iteration);
      AbsorbTouches(rule, mid, text, iteration, e);
      TouchedSnoc(rule, entries, texts, iteration, e.serial);
      if Target(rule, mid, text) != Some(e.serial) { SeenOrKept(rule, entries, init, iteration, e); }
    }
  }

  lemma TouchedSnoc(rule: Rule, entries: seq<Entry>, texts: seq<string>, iteration: int, serial: nat)
    requires texts != []
    ensures var init := texts[..|texts| - 1];
      Touched(rule, entries, texts, iteration, serial) <==>
        || Touched(rule, entries, init, iteration, serial)
        || Target(rule, AbsorbAll(rule, entries, init, iteration), texts[|texts| - 1]) == Some(serial)
  {
    hide AbsorbAll, Target;
    var init := texts[..|texts| - 1];
    assert forall i :: 0 <= i < |init| ==> init[i] == texts[i] && init[..i] == texts[..i];
  }

  /** The iteration of the last round in which a reflection created the entry or merged into it. */
  ghost function LastTouch(rule: Rule, capacity: int, window: int, rounds: seq<Round>, serial: nat): int {
    if rounds == [] then 0
    else
      var init, last := rounds[..|rounds| - 1], rounds[|rounds| - 1];
      if Touched(rule, Run(rule, capacity, window, init), last.texts, last.iteration, serial) then last.iteration
      else LastTouch(rule, capacity, window, init, serial)
  }

  /** The memory before the last update of some rounds. */
  lemma BeforeLast(rule: Rule, capacity: int, window: int, rounds: seq<Round>)
    requires rounds != []
    requires forall i, j :: 0 <= i < j < |rounds| ==> rounds[i].iteration <= rounds[j].iteration
    ensures var before := Run(rule, capacity, window, rounds[..|rounds| - 1]);
      Pairwise(rule, before) && AllSound(before, rounds[|rounds| - 1].iteration)
  {
    hide Updated, Apart;
    var init := rounds[..|rounds| - 1];
    if init != [] { RunGood(rule, capacity, window, init); }
  }

  lemma UpdatedFrom(rule: Rule, capacity: int, window: int, entries: seq<Entry>, texts: seq<string>, iteration: int)
    ensures forall e :: e in Updated(rule, capacity, window, entries, texts, iteration) ==>
              e in AbsorbAll(rule, entries, texts, iteration)
  {
    hide AbsorbAll, Sorted, Recent;
    SortedMembers(Recent(AbsorbAll(rule, entries, texts, iteration), iteration, window));
  }

  /** Over any run, an entry was last seen in the last round that created it or merged into it. */
  lemma {:induction false} RunLastSeen(rule: Rule, capacity: int, window: int, rounds: seq<Round>, e: Entry)
    requires forall i, j :: 0 <= i < j < |rounds| ==> rounds[i].iteration <= rounds[j].iteration
    requires e in Run(rule, capacity, window, rounds)
    ensures e.lastSeen == LastTouch(rule, capacity, window, rounds, e.serial)
  {
    hide Updated, Touched, AbsorbAll, Pairwise, AllSound;
    var init, last := rounds[..|rounds| - 1], rounds[|rounds| - 1];
    UpdatedFrom(rule, capacity, window, Run(rule, capacity, window, init), last.texts, last.iteration);
    LastSeen(rule, capacity, window, rounds, e);
  }

  /** The same before anything is dropped from the last update. */
  lemma {:induction false} LastSeen(rule: Rule, capacity: int, window: int, rounds: seq<Round>, e: Entry)
    requires rounds != []
    requires forall i, j :: 0 <= i < j < |rounds| ==> rounds[i].iteration <= rounds[j].iteration
    requires var last := rounds[|rounds| - 1];
      e in AbsorbAll(rule, Run(rule, capacity, window, rounds[..|rounds| - 1]), last.texts, last.iteration)
    ensures e.lastSeen == LastTouch(rule, capacity, window, rounds, e.serial)
    decreases |rounds|
  {
    hide Updated, Touched, AbsorbAll, Pairwise, AllSound;
    var init, last := rounds[..|rounds| - 1], rounds[|rounds| - 1];
    var before := Run(rule, capacity, window, init);
    BeforeLast(rule, capacity, window, rounds);
    SeenOrKept(rule, before, last.texts, last.iteration, e);
    if !Touched(rule, before, last.texts, last.iteration, e.serial) {
      var n := |init| - 1;
      if init != [] {
        UpdatedFrom(rule, capacity, window, Run(rule, capacity, window, init[..n]), init[n].texts, init[n].iteration);
        LastSeen(rule, capacity, window, init, e);
      }
    }
  }

  /** An update drops an entry as expired exactly when the last round that created it or merged
      into it is more than the window back. */
  lemma ExpiredIff(rule: Rule, capacity: int, window: int, rounds: seq<Round>, e: Entry)
    requires rounds != []
    requires forall i, j :: 0 <= i < j < |rounds| ==> rounds[i].iteration <= rounds[j].iteration
    requires var last := rounds[|rounds| - 1];
      e in AbsorbAll(rule, Run(rule, capacity, window, rounds[..|rounds| - 1]), last.texts, last.iteration)
    ensures var last := rounds[|rounds| - 1];
      var all := AbsorbAll(rule, Run(rule, capacity, window, rounds[..|rounds| - 1]), last.texts, last.iteration);
      e in Recent(all, last.iteration, window) <==>
        last.iteration - LastTouch(rule, capacity, window, rounds, e.serial) <= window
  {
    hide Run, AbsorbAll, LastTouch;
    LastSeen(rule, capacity, window, rounds, e);
  }

  /** What an update drops: entries that were not seen within the window, and, when the memory
      is full, entries no more persistent than every one it keeps. */
  lemma DroppedRightly(rule: Rule, capacity: nat, window: int, entries: seq<Entry>, texts: seq<string>, now: int, e: Entry)
    requires e in AbsorbAll(rule, entries, texts, now)
    requires e !in Updated(rule, capacity, window, entries, texts, now)
    ensures
      || now - e.lastSeen > window
      || (|Updated(rule, capacity, window, entries, texts, now)| == capacity &&
          forall k :: k in Updated(rule, capacity, window, entries, texts, now) ==> k.persistence >= e.persistence)
  {
    hide AbsorbAll, Sorted, Recent;
    var recent := Recent(AbsorbAll(rule, entries, texts, now), now, window);
    SortedDescends(recent);
    SortedMembers(recent);
    if now - e.lastSeen <= window {
      var s := Sorted(recent);
      var j :| 0 <= j < |s| && s[j] == e;
      assert forall i :: 0 <= i < capacity && i < |s| ==> s[i] in Slice(s, 0, capacity);
    }
  }

  // ---------------------------------------------------------------- the class

  class Memory {
    const rule: Rule
    const capacity: int
    const window: int
    var entries: seq<Entry>
    ghost var now: int

    /** The memory is good at its latest iteration. */
    ghost predicate Valid()
      reads this
    {
      Good(rule, capacity, window, entries, now)
    }

    constructor (rule: Rule, capacity: int, window: int)
      ensures this.rule == rule && this.capacity == capacity && this.window == window && entries == []
      ensures Valid()
    {
      this.rule, this.capacity, this.window := rule, capacity, window;
      entries := [];
    }

    method AbsorbOne(text: string, iteration: int)
      modifies this`entries
      ensures entries == Absorb(rule, old(entries), text, iteration)
      ensures Reflected(rule, old(entries), text, iteration, entries)
    {
      AbsorbReflects(rule, entries, text, iteration);
      var w := Vote.Strip(text);
      if w == "" { return; }
      for k := 0 to |entries|
        invariant entries == old(entries)
        invariant forall i :: 0 <= i < k ==> !Same(rule, w, entries[i].weakness)
      {
        if Same(rule, w, entries[k].weakness) {
          var e := entries[k];
          entries := entries[k := e.(persistence := e.persistence + 1, lastSeen := iteration)];
          return;
        }
      }
      entries := entries + [Entry(w, iteration, iteration, 1, NextSerial(entries))];
    }

    /** `update`. A memory stays good when its iterations do not go back. */
    method Update(texts: seq<string>, iteration: int)
      modifies this
      ensures entries == Updated(rule, capacity, window, old(entries), texts, iteration) && now == iteration
      ensures old(entries) == [] || (old(Valid()) && old(now) <= iteration) ==> Valid()
    {
      hide Good;
      if entries == [] || (Valid() && now <= iteration) {
        NextGood(rule, capacity, window, entries, texts, now, iteration);
      }
      for i := 0 to |texts|
        invariant entries == AbsorbAll(rule, old(entries), texts[..i], iteration)
      {
        AbsorbOne(texts[i], iteration);
        assert texts[..i + 1][..i] == texts[..i];
      }
      assert texts[..|texts|] == texts;
      entries := Recent(entries, iteration, window);
      entries := Sorted(entries);
      entries := Slice(entries, 0, capacity);
      now := iteration;
    }

    /** `top(n)`: of a memory in order, as every good one is, its first n entries. */
    method Top(n: int) returns (picks: seq<Entry>)
      ensures picks == Slice(Sorted(entries), 0, n)
      ensures Descending(entries) ==> picks == Slice(entries, 0, n)
    {
      picks := Slice(Sorted(entries), 0, n);
      if Descending(entries) { SortIdempotent(entries); }
    }
  }
}
