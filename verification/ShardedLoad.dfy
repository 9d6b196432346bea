/**
  Loading a checkpoint in parallel: every rank reads its own files and learns who holds the
  rest, and module initialisation then broadcasts each state from its holder. Nothing is
  negotiated, so all ranks must come to the same conclusions on their own.
*/
module ShardedLoad {

  import opened Arithmetic
  import opened Sequences

  // ---------------------------------------------------------------- who owns which file

  function Files<F>(files: seq<F>, world: nat, rank: nat): seq<F>
    requires world > 0
  {
    Slice(files, rank * CeilDiv(|files|, world), rank * CeilDiv(|files|, world) + CeilDiv(|files|, world))
  }

  /** The rank that reads file number k. */
  function Owner(n: nat, world: nat, k: nat): nat
    requires world > 0 && k < n
  {
    SizePositive(n, world);
    k / CeilDiv(n, world)
  }

  lemma SizePositive(n: nat, world: nat)
    requires world > 0
    ensures n > 0 ==> CeilDiv(n, world) > 0
    ensures CeilDiv(n, world) * world >= n
  {
    var c := CeilDiv(n, world);
    assert n + world - 1 == world * c + (n + world - 1) % world;
  }

  lemma Between(k: nat, size: nat, q: nat)
    requires size > 0
    ensures q * size <= k < q * size + size <==> q == k / size
  {
    var p := k / size;
    assert k == p * size + k % size;
    if q < p { Step(q, p, size); }
    if p < q { Step(p, q, size); }
  }

  lemma Step(a: nat, b: nat, size: nat)
    requires a < b
    ensures a * size + size <= b * size
  {
    assert (b - a - 1) * size == b * size - a * size - size;
    NatProduct(b - a - 1, size);
  }

  lemma OwnerInWorld(n: nat, world: nat, k: nat)
    requires world > 0 && k < n
    ensures Owner(n, world, k) < world
  {
    var size, q := CeilDiv(n, world), Owner(n, world, k);
    SizePositive(n, world);
    Between(k, size, q);
    if q > world { Step(world, q, size); }
    assert q == world ==> q * size >= n;
  }

  /** Every file is read by exactly one rank, and that rank exists. */
  lemma OneReader<F>(files: seq<F>, world: nat, k: nat, rank: nat)
    requires world > 0 && k < |files|
    requires forall i, j :: 0 <= i < j < |files| ==> files[i] != files[j]
    ensures Owner(|files|, world, k) < world
    ensures files[k] in Files(files, world, rank) <==> rank == Owner(|files|, world, k)
  {
    hide Slice;
    OwnerInWorld(|files|, world, k);
    SizePositive(|files|, world);
    Between(k, CeilDiv(|files|, world), rank);
    InSlice(files, rank * CeilDiv(|files|, world), CeilDiv(|files|, world), k);
  }

  /** The number of the first file of a rank. */
  function First(n: nat, world: nat, rank: nat): nat
    requires world > 0
  {
    Min(rank * CeilDiv(n, world), n)
  }

  lemma RankFiles<F>(files: seq<F>, world: nat, rank: nat)
    requires world > 0
    ensures First(|files|, world, rank) <= First(|files|, world, rank + 1) <= |files|
    ensures Files(files, world, rank) == files[First(|files|, world, rank)..First(|files|, world, rank + 1)]
    ensures forall k: nat :: First(|files|, world, rank) <= k < First(|files|, world, rank + 1) ==>
              Owner(|files|, world, k) == rank
  {
    var size := CeilDiv(|files|, world);
    assert (rank + 1) * size == rank * size + size;
    forall k: nat | First(|files|, world, rank) <= k < First(|files|, world, rank + 1)
      ensures Owner(|files|, world, k) == rank
    {
      SizePositive(|files|, world);
      Between(k, size, rank);
    }
  }

  lemma AllRanks(n: nat, world: nat)
    requires world > 0
    ensures First(n, world, 0) == 0 && First(n, world, world) == n
  {
    SizePositive(n, world);
  }

  lemma InSlice<F>(files: seq<F>, start: nat, size: nat, k: nat)
    requires k < |files| && forall i, j :: 0 <= i < j < |files| ==> files[i] != files[j]
    ensures files[k] in Slice(files, start, start + size) <==> start <= k < start + size
  {
    var s, lo := Slice(files, start, start + size), Min(start, |files|);
    if start <= k < start + size { assert s[k - lo] == files[k]; }
    if files[k] in s {
      var i :| 0 <= i < |s| && s[i] == files[k];
      assert files[lo + i] == files[k];
    }
  }

  // ---------------------------------------------------------------- what every rank knows

  /** A state that was loaded here, or the rank that holds it. */
  datatype Shard<T> = Loaded(tensor: T) | HeldBy(rank: nat)

  type Name = nat

  /** The checkpoint: its files in order, and their contents. */
  type Checkpoint<T> = seq<map<Name, T>>

  ghost predicate DisjointFiles<T>(ckpt: Checkpoint<T>) {
    forall i, j :: 0 <= i < j < |ckpt| ==> ckpt[i].Keys !! ckpt[j].Keys
  }

  ghost predicate InFile<T>(ckpt: Checkpoint<T>, k: nat, name: Name) { k < |ckpt| && name in ckpt[k] }

  /** What rank me knows after the first k files: its own tensors and the others' ranks. */
  ghost predicate Knows<T>(ckpt: Checkpoint<T>, world: nat, me: nat, k: nat, states: map<Name, Shard<T>>)
    requires world > 0 && k <= |ckpt|
  {
    && (forall name :: name in states ==> exists f: nat :: f < k && InFile(ckpt, f, name))
    && (forall f: nat, name :: f < k && InFile(ckpt, f, name) ==>
          name in states &&
          states[name] == if Owner(|ckpt|, world, f) == me then Loaded(ckpt[f][name]) else HeldBy(Owner(|ckpt|, world, f)))
  }

  /** `parallel_load_safetensors` on rank me, for a checkpoint whose index lists for every file
      the names the file contains: rank by rank, file by file. */
  method LoadShards<T>(ckpt: Checkpoint<T>, world: nat, me: nat) returns (states: map<Name, Shard<T>>)
    requires world > 0 && DisjointFiles(ckpt)
    ensures Knows(ckpt, world, me, |ckpt|, states)
  {
    hide Files, First, Knows;
    states := map[];
    KnowsNothing(ckpt, world, me);
    AllRanks(|ckpt|, world);
    ghost var done := 0;
    for rank := 0 to world
      invariant done == First(|ckpt|, world, rank) <= |ckpt| && Knows(ckpt, world, me, done, states)
    {
      RankFiles(ckpt, world, rank);
      var files := Files(ckpt, world, rank);
      for i := 0 to |files|
        invariant done == First(|ckpt|, world, rank) + i <= |ckpt| && Knows(ckpt, world, me, done, states)
      {
        assert files[i] == ckpt[done];
        var more := if rank == me
          then map name | name in files[i] :: Loaded(files[i][name])
          else map name | name in files[i] :: HeldBy(rank);
        LearnFile(ckpt, world, me, done, states, more);
        states := states + more;
        done := done + 1;
      }
    }
  }

  lemma KnowsNothing<T>(ckpt: Checkpoint<T>, world: nat, me: nat)
    requires world > 0
    ensures Knows(ckpt, world, me, 0, map[])
  {
  }

  lemma LearnFile<T>(ckpt: Checkpoint<T>, world: nat, me: nat, k: nat, states: map<Name, Shard<T>>, more: map<Name, Shard<T>>)
    requires world > 0 && k < |ckpt| && DisjointFiles(ckpt) && Knows(ckpt, world, me, k, states)
    requires more.Keys == ckpt[k].Keys
    requires forall name :: name in more ==>
      more[name] == if Owner(|ckpt|, world, k) == me then Loaded(ckpt[k][name]) else HeldBy(Owner(|ckpt|, world, k))
    ensures Knows(ckpt, world, me, k + 1, states + more)
  {
    hide Owner;
    var z := states + more;
    forall name | name in z ensures exists f: nat :: f < k + 1 && InFile(ckpt, f, name) {
      if name in more { assert InFile(ckpt, k, name); }
    }
    forall f: nat, name | f < k + 1 && InFile(ckpt, f, name)
      ensures name in z && z[name] == if Owner(|ckpt|, world,
            f) == me then Loaded(ckpt[f][name]) else HeldBy(Owner(|ckpt|, world, f))
    {
      if f < k { assert name !in ckpt[k].Keys; }
    }
  }

  /** The source a rank names for a state when it takes part in its broadcast. */
  function Source<T>(states: map<Name, Shard<T>>, me: nat, name: Name): nat
    requires name in states
  {
    match states[name]
    case Loaded(_) => me
    case HeldBy(rank) => rank
  }

  /** Any two ranks know the same names and name the same source for each of them, and it is
      the rank that has the tensor. */
  lemma RanksAgree<T>(ckpt: Checkpoint<T>, world: nat, a: nat, b: nat, sa: map<Name, Shard<T>>, sb: map<Name, Shard<T>>)
    requires world > 0 && a < world && b < world
    requires Knows(ckpt, world, a, |ckpt|, sa) && Knows(ckpt, world, b, |ckpt|, sb)
    ensures sa.Keys == sb.Keys
    ensures forall name :: name in sa ==> Source(sa, a, name) == Source(sb, b, name)
    ensures forall name :: name in sa ==> (sa[name].Loaded? <==> Source(sb, b, name) == a)
  {
    forall name ensures name in sa <==> name in sb {
      if name in sa { var f: nat :| f < |ckpt| && InFile(ckpt, f, name); }
      if name in sb { var f: nat :| f < |ckpt| && InFile(ckpt, f, name); }
    }
    forall name | name in sa
      ensures Source(sa, a, name) == Source(sb, b, name) && (sa[name].Loaded? <==> Source(sb, b, name) == a)
    {
      var f: nat :| f < |ckpt| && InFile(ckpt, f, name);
    }
  }

  // ---------------------------------------------------------------- initialising the module

  /** A parameter or buffer of the module tree under one of its names: the state it refers to
      (tied ones share it) and the fully qualified name. */
  datatype Slot = Slot(state: nat, name: Name, isParam: bool)

  ghost predicate DistinctNames(slots: seq<Slot>) {
    forall i, j :: 0 <= i < j < |slots| ==> slots[i].name != slots[j].name
  }

  predicate IsFirst(slots: seq<Slot>, k: nat)
    requires k < |slots|
  {
    forall j :: 0 <= j < k ==> slots[j].state != slots[k].state
  }

  /** The names of a state from slot k on, in order. */
  function NamesFrom(slots: seq<Slot>, state: nat, k: nat): seq<Name>
    requires k <= |slots|
    decreases |slots| - k
  {
    if k == |slots| then []
    else (if slots[k].state == state then [slots[k].name] else []) + NamesFrom(slots, state, k + 1)
  }

  /** Slot k can be filled: the first of its state, and every buffer, must be known by name. */
  predicate Fillable(slots: seq<Slot>, keys: set<Name>, k: nat)
    requires k < |slots|
  {
    IsFirst(slots, k) || !slots[k].isParam ==> slots[k].name in keys
  }

  ghost predicate AllFillable(slots: seq<Slot>, keys: set<Name>, k: nat)
    requires k <= |slots|
  {
    forall i: nat :: i < k ==> Fillable(slots, keys, i)
  }

  /** The broadcasts of the first k slots: the first slot of every state. */
  function Broadcasts(slots: seq<Slot>, k: nat): seq<Name>
    requires k <= |slots|
  {
    if k == 0 then [] else Broadcasts(slots, k - 1) + if IsFirst(slots, k - 1) then [slots[k - 1].name] else []
  }

  function Used(slots: seq<Slot>, k: nat): set<Name>
    requires k <= |slots|
  {
    if k == 0 then {} else Used(slots, k - 1) + {slots[k - 1].name}
  }

  lemma {:induction false} UsedNames(slots: seq<Slot>, k: nat, i: nat)
    requires k <= i < |slots| && DistinctNames(slots)
    ensures slots[i].name !in Used(slots, k)
  {
    if k > 0 { UsedNames(slots, k - 1, i); }
  }

  lemma {:induction false} NamesShrink(slots: seq<Slot>, state: nat, a: nat, k: nat)
    requires a <= k <= |slots|
    ensures |NamesFrom(slots, state, a)| >= |NamesFrom(slots, state, k)|
    decreases k - a
  {
    if a < k { NamesShrink(slots, state, a + 1, k); }
  }

  lemma NamesLeft(slots: seq<Slot>, state: nat, j: nat, k: nat)
    requires j < k <= |slots| && slots[j].state == state
    ensures |NamesFrom(slots, state, 0)| > |NamesFrom(slots, state, k)|
  {
    NamesShrink(slots, state, 0, j);
    NamesShrink(slots, state, j + 1, k);
  }

  datatype Outcome = Done(log: seq<(Name, nat)>, left: set<Name>) | NotLoaded(slot: nat, log: seq<(Name, nat)>)

  ghost predicate LogIs<T>(log: seq<(Name, nat)>, names: seq<Name>, states: map<Name, Shard<T>>, me: nat) {
    |log| == |names| && forall i :: 0 <= i < |log| ==>
      log[i].0 == names[i] && names[i] in states && log[i].1 == Source(states, me, names[i])
  }

  /** What filling one slot does: it takes the first name left for its state; a buffer, and any
      state that is not yet materialised, must be loaded under that name, and is then broadcast. */
  ghost predicate Filled<T>(slot: Slot, was: Progress<T>, shared: set<nat>, me: nat, ok: bool, now: Progress<T>)
    requires slot.state in was.names && was.names[slot.state] != []
  {
    var fqn := was.names[slot.state][0];
    && (ok <==> fqn in was.left || (slot.isParam && slot.state in shared && slot.state in was.made))
    && (ok ==>
          && now.names == was.names[slot.state := was.names[slot.state][1..]] && now.left == was.left - {fqn}
          && now.made == (if slot.state in shared then was.made + {slot.state} else was.made)
          && if slot.state in shared && slot.state in was.made then now.log == was.log
             else fqn in was.left && now.log == was.log + [(fqn, Source(was.left, me, fqn))])
  }

  method FillSlot<T>(slot: Slot, names: map<nat, seq<Name>>, shared: set<nat>, made: set<nat>, left: map<Name, Shard<T>>,
                     me: nat, ghost log: seq<(Name, nat)>)
    returns (ok: bool, names': map<nat, seq<Name>>, made': set<nat>, left': map<Name, Shard<T>>, sent: seq<(Name, nat)>)
    requires slot.state in names && names[slot.state] != []
    ensures Filled(slot, Progress(names, made, left, log), shared, me, ok, Progress(names', made', left', log + sent))
  {
    ok, names', made', left', sent := false, names, made, left, [];
    var fqn := names[slot.state][0];
    names' := names[slot.state := names[slot.state][1..]];
    if !slot.isParam && fqn !in left { return; }
    if slot.state in shared && slot.state in made {
      left' := left - {fqn};
      assert made + {slot.state} == made && log + sent == log;
    } else {
      if fqn !in left { return; }
      sent := [(fqn, Source(left, me, fqn))];
      left' := left - {fqn};
      if slot.state in shared { made' := made + {slot.state}; }
    }
    ok := true;
  }

  /** `state2fqn`, and the states with more than one name. */
  method NameStates(named: seq<Slot>) returns (names: map<nat, seq<Name>>, shared: set<nat>)
    ensures IsListed(named, shared, names)
  {
    hide NamesFrom, Recorded, IsListed;
    names := map[];
    NothingRecorded();
    assert named[..0] == [];
    for k := 0 to |named|
      invariant Recorded(named[..k], names)
    {
      assert named[..k + 1] == named[..k] + [named[k]];
      RecordNext(named[..k], names, named[k]);
      var x := named[k].state;
      names := names[x := (if x in names then names[x] else []) + [named[k].name]];
    }
    assert named[..|named|] == named;
    shared := set x | x in names && |names[x]| > 1;
    AllRecorded(named, names, shared);
  }

  ghost predicate Recorded(slots: seq<Slot>, names: map<nat, seq<Name>>) {
    && (forall t :: 0 <= t < |slots| ==> slots[t].state in names)
    && (forall x :: x in names ==> names[x] == NamesFrom(slots, x, 0))
    && (forall x: nat :: x !in names ==> NamesFrom(slots, x, 0) == [])
  }

  lemma NothingRecorded()
    ensures Recorded([], map[])
  {
  }

  lemma RecordNext(slots: seq<Slot>, names: map<nat, seq<Name>>, slot: Slot)
    requires Recorded(slots, names)
    ensures var x := slot.state;
      Recorded(slots + [slot], names[x := (if x in names then names[x] else []) + [slot.name]])
  {
    hide NamesFrom;
    forall x: nat
      ensures NamesFrom(slots + [slot], x, 0) == NamesFrom(slots, x, 0) + if slot.state == x then [slot.name] else []
    {
      NamesSnoc(slots, slot, x, 0);
    }
  }

  lemma AllRecorded(named: seq<Slot>, names: map<nat, seq<Name>>, shared: set<nat>)
    requires Recorded(named, names) && shared == set x | x in names && |names[x]| > 1
    ensures IsListed(named, shared, names)
  {
    hide NamesFrom;
  }

  /** Initialisation on rank me: of all named slots it fills the ones that the traversal reaches,
      in order; a slot takes the first name left for its state. A state is broadcast once, and
      the names taken are used up. */
  method InitModule<T>(named: seq<Slot>, seen: seq<bool>, states: map<Name, Shard<T>>, me: nat) returns (r: Outcome)
    requires DistinctNames(named) && |seen| == |named|
    ensures var slots := Reached(named, seen, |named|);
      && (r.Done? <==> AllFillable(slots, states.Keys, |slots|))
      && (r.Done? ==>
            LogIs(r.log, Broadcasts(slots, |slots|), states, me) && r.left == states.Keys - Used(slots, |slots|))
      && (r.NotLoaded? ==>
            && r.slot < |slots| && AllFillable(slots, states.Keys, r.slot) && !Fillable(slots, states.Keys, r.slot)
            && LogIs(r.log, Broadcasts(slots, r.slot), states, me))
  {
    hide StateAt, Filled, LogIs, AllFillable, Fillable, Used, Broadcasts, Source, Reached, IsListed, DistinctNames;
    var state2fqn, shared := NameStates(named);
    var materialized: set<nat> := {};
    var left := states;
    var log: seq<(Name, nat)> := [];
    ghost var slots := Reached(named, seen, |named|);
    var i := 0;
    ReachedStart(named, seen);
    StartInit(named, slots, seen, states, me, shared, state2fqn);
    for k := 0 to |named|
      invariant i == |Reached(named, seen, k)| <= |slots|
      invariant StateAt(named, slots, states, me, Progress(state2fqn, materialized, left, log), shared, i)
    {
      ReachedNext(named, seen, k);
      if seen[k] {
        ghost var was := Progress(state2fqn, materialized, left, log);
        SlotReady(named, slots, states, me, was, shared, i);
        var ok, sent;
        ok, state2fqn, materialized, left, sent := FillSlot(named[k], state2fqn, shared, materialized, left, me, log);
        SlotDone(named, slots, states, me, was, shared, i, named[k], ok, Progress(state2fqn, materialized, left, log + sent));
        if !ok { return NotLoaded(i, log); }
        log := log + sent;
        i := i + 1;
      }
    }
    FinalState(named, slots, states, me, Progress(state2fqn, materialized, left, log), shared);
    r := Done(log, left.Keys);
  }

  // ---------------------------------------------------------------- the slots that are reached

  /** The slots reached among the first k, each with the name it takes. A slot stays unreached
      when its submodule has the same state under an earlier name, or is a shared submodule that
      was filled before. */
  function Reached(named: seq<Slot>, seen: seq<bool>, k: nat): seq<Slot>
    requires k <= |named| == |seen|
    decreases k, 0
  {
    if k == 0 then []
    else
      var slots := Reached(named, seen, k - 1);
      var state := named[k - 1].state;
      if !seen[k - 1] then slots
      else
        ReachedNames(named, seen, k - 1, state);
        slots + [Slot(state, NamesFrom(named, state, 0)[|NamesFrom(slots, state, 0)|], named[k - 1].isParam)]
  }

  lemma ReachedStart(named: seq<Slot>, seen: seq<bool>)
    requires |seen| == |named|
    ensures Reached(named, seen, 0) == []
  {
  }

  lemma {:induction false} ReachedPrefix(named: seq<Slot>, seen: seq<bool>, k: nat, m: nat)
    requires k <= m <= |named| == |seen|
    ensures Reached(named, seen, k) <= Reached(named, seen, m)
  {
    if k < m { ReachedPrefix(named, seen, k, m - 1); }
  }

  lemma ReachedNext(named: seq<Slot>, seen: seq<bool>, k: nat)
    requires k < |named| == |seen|
    ensures var slots, i := Reached(named, seen, |named|), |Reached(named, seen, k)|;
      if seen[k] then
        && |Reached(named, seen, k + 1)| == i + 1 <= |slots|
        && slots[i].state == named[k].state && slots[i].isParam == named[k].isParam
      else |Reached(named, seen, k + 1)| == i <= |slots|
  {
    ReachedPrefix(named, seen, k + 1, |named|);
  }

  lemma {:induction false} NamesSnoc(slots: seq<Slot>, x: Slot, state: nat, j: nat)
    requires j <= |slots|
    ensures NamesFrom(slots + [x], state, j) == NamesFrom(slots, state, j) + if x.state == state then [x.name] else []
    decreases |slots| - j
  {
    if j < |slots| { NamesSnoc(slots, x, state, j + 1); }
  }

  /** The reached slots of a state take the first of its names. */
  lemma {:induction false} ReachedNames(named: seq<Slot>, seen: seq<bool>, k: nat, state: nat)
    requires k <= |named| == |seen|
    ensures NamesFrom(Reached(named, seen, k), state, 0) <= NamesFrom(named, state, 0)
    ensures |NamesFrom(Reached(named, seen, k), state, 0)| + |NamesFrom(named, state, k)| <= |NamesFrom(named, state, 0)|
    decreases k, 1
  {
    if k > 0 {
      var slots := Reached(named, seen, k - 1);
      ReachedNames(named, seen, k - 1, state);
      if seen[k - 1] { NamesSnoc(slots, Reached(named, seen, k)[|slots|], state, 0); }
    }
  }

  lemma {:induction false} NameAt(named: seq<Slot>, state: nat, k: nat, i: nat) returns (t: nat)
    requires k <= |named| && i < |NamesFrom(named, state, k)|
    ensures k <= t < |named| && named[t].state == state && named[t].name == NamesFrom(named, state, k)[i]
    decreases |named| - k
  {
    if named[k].state != state {
      t := NameAt(named, state, k + 1, i);
    } else if i == 0 {
      t := k;
    } else {
      t := NameAt(named, state, k + 1, i - 1);
    }
  }

  lemma {:induction false} NamesDiffer(named: seq<Slot>, state: nat, k: nat, i: nat, j: nat)
    requires DistinctNames(named) && k <= |named| && i < j < |NamesFrom(named, state, k)|
    ensures NamesFrom(named, state, k)[i] != NamesFrom(named, state, k)[j]
    decreases |named| - k
  {
    if named[k].state != state {
      NamesDiffer(named, state, k + 1, i, j);
    } else if i == 0 {
      var t := NameAt(named, state, k + 1, j - 1);
    } else {
      NamesDiffer(named, state, k + 1, i - 1, j - 1);
    }
  }

  lemma {:induction false} OwnName(slots: seq<Slot>, k: nat, j: nat) returns (i: nat)
    requires k <= j < |slots|
    ensures i < |NamesFrom(slots, slots[j].state, k)| && NamesFrom(slots, slots[j].state, k)[i] == slots[j].name
    decreases j - k
  {
    if k == j {
      i := 0;
    } else {
      i := OwnName(slots, k + 1, j);
      if slots[k].state == slots[j].state { i := i + 1; }
    }
  }

  /** No name is taken twice. */
  lemma {:induction false} ReachedDistinct(named: seq<Slot>, seen: seq<bool>, k: nat)
    requires k <= |named| == |seen| && DistinctNames(named)
    ensures DistinctNames(Reached(named, seen, k))
  {
    if k > 0 {
      ReachedDistinct(named, seen, k - 1);
      var slots := Reached(named, seen, k - 1);
      if seen[k - 1] {
        forall j | 0 <= j < |slots| ensures slots[j].name != Reached(named, seen, k)[|slots|].name {
          TakenBefore(named, seen, k, j);
        }
      }
    }
  }

  lemma TakenBefore(named: seq<Slot>, seen: seq<bool>, k: nat, j: nat)
    requires 0 < k <= |named| == |seen| && DistinctNames(named) && seen[k - 1] && j < |Reached(named, seen, k - 1)|
    ensures var slots := Reached(named, seen, k - 1);
      slots[j].name != Reached(named, seen, k)[|slots|].name
  {
    hide DistinctNames;
    var slots, state := Reached(named, seen, k - 1), named[k - 1].state;
    var c := |NamesFrom(slots, state, 0)|;
    ReachedNames(named, seen, k - 1, state);
    ReachedNames(named, seen, k - 1, slots[j].state);
    assert c < |NamesFrom(named, state, 0)|;
    var i := OwnName(slots, 0, j);
    if slots[j].state == state {
      NamesDiffer(named, state, 0, i, c);
    } else {
      var t := NameAt(named, state, 0, c);
      var u := NameAt(named, slots[j].state, 0, i);
      DistinctAt(named, t, u);
    }
  }

  lemma DistinctAt(named: seq<Slot>, t: nat, u: nat)
    requires DistinctNames(named) && t < |named| && u < |named| && t != u
    ensures named[t].name != named[u].name
  {
  }

  /** When every slot is reached, each takes its own name. */
  lemma {:induction false} ReachedAll(named: seq<Slot>, seen: seq<bool>, k: nat)
    requires k <= |named| == |seen| && forall i :: 0 <= i < k ==> seen[i]
    ensures Reached(named, seen, k) == named[..k]
  {
    if k > 0 {
      ReachedAll(named, seen, k - 1);
      NamesThrough(named, named[k - 1].state, k - 1);
      assert named[..k] == named[..k - 1] + [named[k - 1]];
    }
  }

  lemma {:induction false} NamesThrough(named: seq<Slot>, state: nat, k: nat)
    requires k <= |named|
    ensures NamesFrom(named, state, 0) == NamesFrom(named[..k], state, 0) + NamesFrom(named, state, k)
  {
    if k > 0 {
      NamesThrough(named, state, k - 1);
      assert named[..k] == named[..k - 1] + [named[k - 1]];
      NamesSnoc(named[..k - 1], named[k - 1], state, 0);
    }
  }

  lemma {:induction false} UsedSize(slots: seq<Slot>, k: nat)
    requires k <= |slots| && DistinctNames(slots)
    ensures |Used(slots, k)| == k
  {
    if k > 0 {
      UsedSize(slots, k - 1);
      UsedNames(slots, k - 1, k - 1);
    }
  }

  lemma {:induction false} ReachedSize(named: seq<Slot>, seen: seq<bool>, k: nat)
    requires k <= |named| == |seen|
    ensures |Reached(named, seen, k)| <= k
    ensures |Reached(named, seen, k)| == k <==> forall i :: 0 <= i < k ==> seen[i]
  {
    if k > 0 { ReachedSize(named, seen, k - 1); }
  }

  /** Every name is used up exactly when every slot is reached; otherwise names stay behind. */
  lemma UsedAllIff(named: seq<Slot>, seen: seq<bool>)
    requires |seen| == |named| && DistinctNames(named)
    ensures var slots := Reached(named, seen, |named|);
      Used(slots, |slots|) == Used(named, |named|) <==> forall i :: 0 <= i < |seen| ==> seen[i]
  {
    hide Used, Reached, DistinctNames;
    var slots := Reached(named, seen, |named|);
    ReachedDistinct(named, seen, |named|);
    UsedSize(slots, |slots|);
    UsedSize(named, |named|);
    ReachedSize(named, seen, |named|);
    if |slots| == |named| {
      ReachedAll(named, seen, |named|);
      assert named[..|named|] == named;
    }
  }

  // ---------------------------------------------------------------- the invariant

  datatype Progress<T> = Progress(names: map<nat, seq<Name>>, made: set<nat>, left: map<Name, Shard<T>>, log: seq<(Name, nat)>)

  /** Where initialisation stands before slot k. */
  ghost predicate StateAt<T>(named: seq<Slot>, slots: seq<Slot>, states: map<Name, Shard<T>>, me: nat, g: Progress<T>,
                             shared: set<nat>, k: nat)
    requires k <= |slots|
  {
    && DistinctNames(slots) && Pending(named, slots, g.names, k) && Made(named, slots, g.made, shared, k)
    && g.left == Minus(states, Used(slots, k))
    && LogIs(g.log, Broadcasts(slots, k), states, me) && AllFillable(slots, states.Keys, k)
  }

  /** What the state says of the next slot: the name it takes is its own, and it can be filled
      exactly if that name is left or its state has been made. */
  lemma SlotReady<T>(named: seq<Slot>, slots: seq<Slot>, states: map<Name, Shard<T>>, me: nat, g: Progress<T>,
                     shared: set<nat>, k: nat)
    requires k < |slots| && StateAt(named, slots, states, me, g, shared, k)
    ensures slots[k].state in g.names && g.names[slots[k].state] != [] && g.names[slots[k].state][0] == slots[k].name
    ensures Fillable(slots, states.Keys, k) <==>
      slots[k].name in g.left || (slots[k].isParam && slots[k].state in shared && slots[k].state in g.made)
    ensures LogIs(g.log, Broadcasts(slots, k), states, me) && AllFillable(slots, states.Keys, k)
    ensures AllFillable(slots, states.Keys, |slots|) ==> Fillable(slots, states.Keys, k)
  {
    hide Pending, Made, LogIs, AllFillable, NamesFrom, Used, Broadcasts, Minus, IsFirst, DistinctNames;
    TakeName(named, slots, g.names, k);
    MinusNext(slots, states, k);
    FirstIff(named, slots, g.made, shared, k);
    NextFillable(slots, states.Keys, k);
  }

  lemma SlotDone<T>(named: seq<Slot>, slots: seq<Slot>, states: map<Name, Shard<T>>, me: nat, g: Progress<T>,
                    shared: set<nat>, k: nat, slot: Slot, ok: bool, h: Progress<T>)
    requires k < |slots| && StateAt(named, slots, states, me, g, shared, k)
    requires slot.state == slots[k].state && slot.isParam == slots[k].isParam
    requires slot.state in g.names && g.names[slot.state] != [] && Filled(slot, g, shared, me, ok, h)
    ensures ok <==> Fillable(slots, states.Keys, k)
    ensures ok ==> StateAt(named, slots, states, me, h, shared, k + 1)
  {
    hide StateAt, Fillable;
    SlotReady(named, slots, states, me, g, shared, k);
    if ok { StepState(named, slots, states, me, g, shared, k, h); }
  }

  lemma FinalState<T>(named: seq<Slot>, slots: seq<Slot>, states: map<Name, Shard<T>>, me: nat, g: Progress<T>,
                      shared: set<nat>)
    requires StateAt(named, slots, states, me, g, shared, |slots|)
    ensures g.left.Keys == states.Keys - Used(slots, |slots|)
    ensures LogIs(g.log, Broadcasts(slots, |slots|), states, me) && AllFillable(slots, states.Keys, |slots|)
  {
    hide Pending, Made, LogIs, AllFillable, Used, Broadcasts, DistinctNames;
    MinusKeys(states, Used(slots, |slots|));
  }

  lemma StepState<T>(named: seq<Slot>, slots: seq<Slot>, states: map<Name, Shard<T>>, me: nat, g: Progress<T>,
                     shared: set<nat>, k: nat, h: Progress<T>)
    requires k < |slots| && StateAt(named, slots, states, me, g, shared, k)
    requires Fillable(slots, states.Keys, k)
    requires slots[k].state in g.names && g.names[slots[k].state] != []
    requires h.names == g.names[slots[k].state := g.names[slots[k].state][1..]] && h.left == g.left - {slots[k].name}
    requires h.made == if slots[k].state in shared then g.made + {slots[k].state} else g.made
    requires if slots[k].state in shared && slots[k].state in g.made then h.log == g.log
             else slots[k].name in g.left && h.log == g.log + [(slots[k].name, Source(g.left, me, slots[k].name))]
    ensures StateAt(named, slots, states, me, h, shared, k + 1)
  {
    hide Pending, Made, LogIs, AllFillable, NamesFrom, Used, Broadcasts, Minus, IsFirst, Source, Fillable;
    hide DistinctNames;
    TakeName(named, slots, g.names, k);
    MinusNext(slots, states, k);
    FirstIff(named, slots, g.made, shared, k);
    BroadcastsNext(slots, k);
    NextFillable(slots, states.Keys, k);
    MadeNext(named, slots, g.made, shared, k);
    if slots[k].name in g.left {
      SourceSame(g.left, states, me, slots[k].name);
      LogNext(g.log, Broadcasts(slots, k), states, me, slots[k].name);
    }
  }

  /** The names that no reached slot takes. */
  function Spare(named: seq<Slot>, slots: seq<Slot>, state: nat): seq<Name> {
    SliceFrom(NamesFrom(named, state, 0), |NamesFrom(slots, state, 0)|)
  }

  /** Each state's list still holds the names of its slots from k on, and the spare ones. */
  ghost predicate Pending(named: seq<Slot>, slots: seq<Slot>, names: map<nat, seq<Name>>, k: nat)
    requires k <= |slots|
  {
    forall i :: 0 <= i < |slots| ==>
      slots[i].state in names &&
      names[slots[i].state] == NamesFrom(slots, slots[i].state, k) + Spare(named, slots, slots[i].state)
  }

  ghost predicate SharedStates(named: seq<Slot>, slots: seq<Slot>, shared: set<nat>) {
    forall i :: 0 <= i < |slots| ==>
      && (slots[i].state in shared <==> |NamesFrom(named, slots[i].state, 0)| > 1)
      && |NamesFrom(slots, slots[i].state, 0)| <= |NamesFrom(named, slots[i].state, 0)|
  }

  /** The shared states that have been created before slot k. */
  ghost predicate Made(named: seq<Slot>, slots: seq<Slot>, made: set<nat>, shared: set<nat>, k: nat)
    requires k <= |slots|
  {
    SharedStates(named, slots, shared) &&
    forall x: nat :: x in made <==> x in shared && exists j :: 0 <= j < k && slots[j].state == x
  }

  ghost predicate IsListed(named: seq<Slot>, shared: set<nat>, names: map<nat, seq<Name>>) {
    forall t :: 0 <= t < |named| ==>
      && named[t].state in names && names[named[t].state] == NamesFrom(named, named[t].state, 0)
      && (named[t].state in shared <==> |NamesFrom(named, named[t].state, 0)| > 1)
  }

  lemma StartListed(named: seq<Slot>, slots: seq<Slot>, seen: seq<bool>, shared: set<nat>, names: map<nat, seq<Name>>)
    requires |seen| == |named| && slots == Reached(named, seen, |named|) && IsListed(named, shared, names)
    ensures Pending(named, slots, names, 0) && SharedStates(named, slots, shared)
  {
    hide NamesFrom, Reached;
    forall i | 0 <= i < |slots|
      ensures slots[i].state in names &&
        names[slots[i].state] == NamesFrom(slots, slots[i].state, 0) + Spare(named, slots, slots[i].state)
      ensures slots[i].state in shared <==> |NamesFrom(named, slots[i].state, 0)| > 1
      ensures |NamesFrom(slots, slots[i].state, 0)| <= |NamesFrom(named, slots[i].state, 0)|
    {
      var j := OwnName(slots, 0, i);
      ReachedNames(named, seen, |named|, slots[i].state);
      var t := NameAt(named, slots[i].state, 0, j);
    }
  }

  lemma StartInit<T>(named: seq<Slot>, slots: seq<Slot>, seen: seq<bool>, states: map<Name, Shard<T>>, me: nat,
                     shared: set<nat>, names: map<nat, seq<Name>>)
    requires |seen| == |named| && slots == Reached(named, seen, |named|)
    requires DistinctNames(named) && IsListed(named, shared, names)
    ensures StateAt(named, slots, states, me, Progress(names, {}, states, []), shared, 0)
  {
    hide IsListed, Pending, SharedStates, Minus, Used, LogIs, Broadcasts, AllFillable, Reached, DistinctNames;
    StartListed(named, slots, seen, shared, names);
    ReachedDistinct(named, seen, |named|);
    NothingUsed(slots, states, me);
  }

  /** The name at the front of the state's list is the slot's own. */
  lemma TakeName(named: seq<Slot>, slots: seq<Slot>, names: map<nat, seq<Name>>, k: nat)
    requires k < |slots| && Pending(named, slots, names, k)
    ensures var x := slots[k].state;
      && x in names && names[x] != [] && names[x][0] == slots[k].name
      && Pending(named, slots, names[x := names[x][1..]], k + 1)
  {
    hide NamesFrom, Spare;
    var x := slots[k].state;
    NamesStep(slots, x, k);
    var after := names[x := names[x][1..]];
    forall i | 0 <= i < |slots|
      ensures slots[i].state in after &&
        after[slots[i].state] == NamesFrom(slots, slots[i].state, k + 1) + Spare(named, slots, slots[i].state)
    {
      NamesStep(slots, slots[i].state, k);
    }
  }

  lemma NamesStep(slots: seq<Slot>, state: nat, k: nat)
    requires k < |slots|
    ensures NamesFrom(slots, state, k) ==
            (if slots[k].state == state then [slots[k].name] else []) + NamesFrom(slots, state, k + 1)
  {
  }

  lemma FirstIff(named: seq<Slot>, slots: seq<Slot>, made: set<nat>, shared: set<nat>, k: nat)
    requires k < |slots| && Made(named, slots, made, shared, k)
    ensures IsFirst(slots, k) <==> !(slots[k].state in shared && slots[k].state in made)
  {
    var x := slots[k].state;
    if !IsFirst(slots, k) {
      var j :| 0 <= j < k && slots[j].state == x;
      NamesLeft(slots, x, j, k);
      assert NamesFrom(slots, x, k) != [];
      assert x in shared && x in made;
    }
  }

  lemma MadeNext(named: seq<Slot>, slots: seq<Slot>, made: set<nat>, shared: set<nat>, k: nat)
    requires k < |slots| && Made(named, slots, made, shared, k)
    ensures Made(named, slots, if slots[k].state in shared then made + {slots[k].state} else made, shared, k + 1)
    ensures slots[k].state in made ==> made + {slots[k].state} == made
  {
  }

  lemma NextFillable(slots: seq<Slot>, keys: set<Name>, k: nat)
    requires k < |slots|
    ensures AllFillable(slots, keys, k + 1) <==> AllFillable(slots, keys, k) && Fillable(slots, keys, k)
    ensures AllFillable(slots, keys, |slots|) ==> Fillable(slots, keys, k)
  {
  }

  ghost function Minus<T>(states: map<Name, Shard<T>>, used: set<Name>): map<Name, Shard<T>> { states - used }

  lemma SourceSame<T>(left: map<Name, Shard<T>>, states: map<Name, Shard<T>>, me: nat, name: Name)
    requires name in left && name in states && left[name] == states[name]
    ensures Source(left, me, name) == Source(states, me, name)
  {
  }

  lemma NothingUsed<T>(slots: seq<Slot>, states: map<Name, Shard<T>>, me: nat)
    ensures Minus(states, Used(slots, 0)) == states
    ensures LogIs([], Broadcasts(slots, 0), states, me) && AllFillable(slots, states.Keys, 0)
  {
    assert states - {} == states;
  }

  lemma MinusKeys<T>(states: map<Name, Shard<T>>, used: set<Name>)
    ensures Minus(states, used).Keys == states.Keys - used
  {
  }

  lemma MinusNext<T>(slots: seq<Slot>, states: map<Name, Shard<T>>, k: nat)
    requires k < |slots| && DistinctNames(slots)
    ensures var left := Minus(states, Used(slots, k));
      && left - {slots[k].name} == Minus(states, Used(slots, k + 1))
      && (slots[k].name in left <==> slots[k].name in states)
      && (slots[k].name in left ==> left[slots[k].name] == states[slots[k].name])
  {
    UsedNames(slots, k, k);
    assert Minus(states, Used(slots, k)) - {slots[k].name} == Minus(states, Used(slots, k + 1));
  }

  lemma BroadcastsNext(slots: seq<Slot>, k: nat)
    requires k < |slots|
    ensures Broadcasts(slots, k + 1) == if IsFirst(slots, k) then Broadcasts(slots,
          k) + [slots[k].name] else Broadcasts(slots, k)
  {
  }

  lemma LogNext<T>(log: seq<(Name, nat)>, names: seq<Name>, states: map<Name, Shard<T>>, me: nat, name: Name)
    requires LogIs(log, names, states, me) && name in states
    ensures LogIs(log + [(name, Source(states, me, name))], names + [name], states, me)
  {
  }

  /** All ranks fail at the same slot or all finish, after the same sequence of broadcasts with
      the same sources: no rank waits for a collective that another does not call. */
  lemma SameBroadcasts<T>(slots: seq<Slot>, sa: map<Name, Shard<T>>, a: nat, sb: map<Name, Shard<T>>, b: nat, k: nat,
                          la: seq<(Name, nat)>, lb: seq<(Name, nat)>)
    requires k <= |slots| && sa.Keys == sb.Keys && forall name :: name in sa ==> Source(sa, a, name) == Source(sb, b, name)
    requires LogIs(la, Broadcasts(slots, k), sa, a) && LogIs(lb, Broadcasts(slots, k), sb, b)
    ensures la == lb
    ensures AllFillable(slots, sa.Keys, k) <==> AllFillable(slots, sb.Keys, k)
  {
    forall i | 0 <= i < |la| ensures la[i] == lb[i] {}
  }
}
