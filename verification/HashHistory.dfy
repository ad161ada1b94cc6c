/** HashList calls as functions on the slot array and the counter, and what whole histories of calls keep. */
module HashHistory {
  import opened Common
  import opened HashTable

  /** stepSize: the capacities the list grows through. */
  const STEPS: seq<int> :=
    [17, 37, 79, 163, 331, 673, 1361, 2729, 5471, 10949, 21911, 43853, 87719, 175447, 350899, 701819,
     1403641, 2807303, 5614657, 11229331, 22458671, 44917381, 89834777, 179669557, 359339171,
     718678369, 1437356741, 2147483647]

  const MAX_INT: int := 2147483647

  /** count + count / 4 still fits in an int up to here. */
  const MAX_COUNT: int := 1717986917

  function NextStep(cap: int, i: nat): (r: int)
    requires i < |STEPS| && cap < MAX_INT
    ensures r > cap && r >= 17
    decreases |STEPS| - i
  {
    if STEPS[i] > cap then STEPS[i] else NextStep(cap, i + 1)
  }

  /** Each step at least doubles the one before, but for the last. */
  lemma StepsDouble()
    ensures forall i :: 0 <= i < |STEPS| - 2 ==> STEPS[i + 1] >= 2 * STEPS[i]
    ensures forall i :: 0 <= i < |STEPS| - 1 ==> STEPS[i] < STEPS[i + 1]
  {
  }

  lemma {:induction false} StepsRise(j: nat, i: nat)
    requires j <= i < |STEPS|
    ensures STEPS[j] <= STEPS[i]
  {
    StepsDouble();
    if j < i { StepsRise(j, i - 1); }
  }

  /** From each capacity growth goes to the next one, which is at least twice as large, but for the last. */
  lemma {:induction false} GrowthDoubles(i: nat, from: nat)
    requires from <= i + 1 < |STEPS| && STEPS[i] < MAX_INT
    ensures NextStep(STEPS[i], from) == STEPS[i + 1]
    ensures i + 2 < |STEPS| ==> STEPS[i + 1] >= 2 * STEPS[i]
    decreases i + 1 - from
  {
    StepsDouble();
    if from <= i {
      StepsRise(from, i);
      GrowthDoubles(i, from + 1);
    }
  }

  // ----- one operation, as a function on the slot array and the counter -----

  datatype State<K, V> = State(t: Table<K, V>, count: int)

  function EmptyTable<K, V>(n: nat): (t: Table<K, V>)
    ensures |t| == n && forall p :: 0 <= p < n ==> t[p].Null?
  {
    seq(n, _ => Null)
  }

  function Put<K(==), V>(s: State<K, V>, e: Entry<K, V>): (r: State<K, V>)
    requires |s.t| > 0 && e.hash >= 0
    ensures |r.t| == |s.t|
  {
    State(InsertTable(s.t, e), if InsertRoom(s.t, e).Free? then s.count + 1 else s.count)
  }

  /** Re-inserts the live entries of old[i..] in order. */
  function Rehash<K(==), V>(old_t: Table<K, V>, i: nat, s: State<K, V>): (r: State<K, V>)
    requires i <= |old_t| && |s.t| > 0 && HashesOk(old_t)
    ensures |r.t| == |s.t|
    decreases |old_t| - i
  {
    if i == |old_t| then s
    else if old_t[i].Live? then Rehash(old_t, i + 1, Put(s, old_t[i].entry))
    else Rehash(old_t, i + 1, s)
  }

  predicate MustGrow<K, V>(s: State<K, V>) {
    s.count + s.count / 4 >= |s.t|
  }

  /** The growth ladder ends at MAX_INT. */
  predicate CanGrow<K, V>(s: State<K, V>) {
    MustGrow(s) ==> |s.t| < MAX_INT
  }

  ghost predicate Sound<K, V>(s: State<K, V>) {
    HashesOk(s.t) && (s.t == [] ==> s.count >= 0)
  }

  function Checkup<K(==), V>(s: State<K, V>): (r: State<K, V>)
    requires CanGrow(s) && Sound(s)
    ensures |r.t| >= |s.t| && |r.t| > 0
    ensures MustGrow(s) ==> |r.t| > |s.t|
  {
    if MustGrow(s) then Rehash(s.t, 0, State(EmptyTable(NextStep(|s.t|, 0)), 0)) else s
  }

  // ----- rehashing -----

  ghost predicate Fresh<K, V>(s: State<K, V>) {
    && |s.t| > 0 && ChainsOk(s.t) && s.count == NumLive(s.t)
    && forall p :: 0 <= p < |s.t| ==> !s.t[p].Corpse?
  }

  lemma {:induction false} EmptyIsFresh<K, V>(n: nat)
    requires n > 0
    ensures Fresh(State(EmptyTable<K, V>(n), 0)) && NumLive(EmptyTable<K, V>(n)) == 0
  {
    NoneLive(EmptyTable<K, V>(n));
  }

  lemma {:induction false} NoneLive<K, V>(t: Table<K, V>)
    requires forall p :: 0 <= p < |t| ==> !t[p].Live?
    ensures NumLive(t) == 0
  {
    if t != [] { NoneLive(t[..|t| - 1]); }
  }

  lemma PutKeepsFresh<K, V>(s: State<K, V>, e: Entry<K, V>)
    requires Fresh(s) && e.hash >= 0
    ensures Fresh(Put(s, e)) && Put(s, e).count <= s.count + 1
  {
    InsertKeepsChains(s.t, e);
    var room := InsertRoom(s.t, e);
    hide InsertRoom, ChainsOk;
    if room.Free? { NumLiveUpdate(s.t, room.pos, Live(e)); }
  }

  lemma NumLivePrefix<K, V>(t: Table<K, V>, i: nat)
    requires i < |t|
    ensures NumLive(t[..i + 1]) == NumLive(t[..i]) + (if t[i].Live? then 1 else 0)
  {
    assert t[..i + 1][..i] == t[..i];
  }

  /** Growing leaves no tombstone, an exact count, and no more entries than there were. */
  lemma {:induction false} RehashIsFresh<K, V>(old_t: Table<K, V>, i: nat, s: State<K, V>)
    requires i <= |old_t| && Fresh(s) && HashesOk(old_t)
    ensures Fresh(Rehash(old_t, i, s))
    ensures Rehash(old_t, i, s).count <= s.count + NumLive(old_t) - NumLive(old_t[..i])
    decreases |old_t| - i
  {
    assert |s.t| > 0;
    hide Fresh, Put;
    if i < |old_t| {
      NumLivePrefix(old_t, i);
      hide NumLive;
      if old_t[i].Live? {
        PutKeepsFresh(s, old_t[i].entry);
        RehashIsFresh(old_t, i + 1, Put(s, old_t[i].entry));
      } else {
        RehashIsFresh(old_t, i + 1, s);
      }
    } else {
      assert old_t[..i] == old_t;
    }
  }

  lemma RepresentsPrefix<K, V>(t: Table<K, V>, i: nat, m: map<K, V>)
    requires i < |t| && Represents(t[..i], m) && UniqueKeys(t)
    ensures t[i].Live? ==>
      && t[i].entry.key !in m
      && Represents(t[..i + 1], m[t[i].entry.key := t[i].entry.value])
    ensures !t[i].Live? ==> Represents(t[..i + 1], m)
  {
    var u := t[..i + 1];
    forall k | k in m ensures HasKey(u, k) && (t[i].Live? ==> k != t[i].entry.key) {
      assert HasKey(t[..i], k);
      var p :| 0 <= p < i && t[..i][p].Live? && t[..i][p].entry.key == k;
      assert u[p].Live? && t[p].Live?;
    }
    if t[i].Live? { assert u[i].Live?; }
  }

  lemma RepresentsOnce<K, V>(t: Table<K, V>, m: map<K, V>, m': map<K, V>)
    requires Represents(t, m) && Represents(t, m')
    ensures m == m'
  {
    forall k | k in m ensures k in m' && m'[k] == m[k] { assert HasKey(t, k); }
    forall k | k in m' ensures k in m { assert HasKey(t, k); }
  }

  /** For each key the value in its lowest slot. */
  function FirstValues<K(==), V>(t: Table<K, V>): map<K, V> {
    if t == [] then map[]
    else
      var m, s := FirstValues(t[..|t| - 1]), t[|t| - 1];
      if s.Live? && s.entry.key !in m then m[s.entry.key := s.entry.value] else m
  }

  lemma FirstValuesStep<K, V>(t: Table<K, V>, i: nat)
    requires i < |t|
    ensures var m := FirstValues(t[..i]);
      FirstValues(t[..i + 1])
        == if t[i].Live? && t[i].entry.key !in m then m[t[i].entry.key := t[i].entry.value] else m
  {
    assert t[..i + 1][..i] == t[..i];
  }

  /** Growing re-inserts slot by slot: of each key the entry in the lowest slot is kept. */
  lemma {:induction false} RehashKeepsMap<K, V>(old_t: Table<K, V>, i: nat, s: State<K, V>, hasher: K -> int)
    requires i <= |old_t| < |s.t| && s.count <= i && HashesOk(old_t) && HashedBy(old_t, hasher)
    requires Fresh(s) && Solid(s.t, hasher) && Represents(s.t, FirstValues(old_t[..i]))
    ensures Solid(Rehash(old_t, i, s).t, hasher) && Represents(Rehash(old_t, i, s).t, FirstValues(old_t))
    decreases |old_t| - i
  {
    hide Represents, Solid, InsertRoom, FirstValues;
    if i == |old_t| {
      assert old_t[..i] == old_t;
    } else {
      FirstValuesStep(old_t, i);
      if old_t[i].Live? {
        var e := old_t[i].entry;
        InsertIsMapInsert(s.t, hasher, FirstValues(old_t[..i]), e);
        PutKeepsFresh(s, e);
        hide Fresh, ChainsOk;
        RehashKeepsMap(old_t, i + 1, Put(s, e), hasher);
      } else {
        RehashKeepsMap(old_t, i + 1, s, hasher);
      }
    }
  }

  /** No lower slot has this slot's key. */
  ghost predicate Lowest<K, V>(t: Table<K, V>, p: int) {
    0 <= p < |t| && t[p].Live? && forall q :: 0 <= q < p && t[q].Live? ==> t[q].entry.key != t[p].entry.key
  }

  ghost predicate HasPair<K, V>(m: map<K, V>, e: Entry<K, V>) {
    e.key in m && m[e.key] == e.value
  }

  lemma {:induction false} FirstValuesMean<K, V>(t: Table<K, V>)
    ensures forall k :: k in FirstValues(t) <==> HasKey(t, k)
    ensures forall p :: Lowest(t, p) ==> HasPair(FirstValues(t), t[p].entry)
  {
    if t != [] {
      var n := |t| - 1;
      var u := t[..n];
      FirstValuesMean(u);
      forall k ensures HasKey(t, k) <==> HasKey(u, k) || HoldsKey(t[n], k) { HasKeyStep(t, k); }
      forall p | Lowest(t, p) ensures HasPair(FirstValues(t), t[p].entry) {
        if p < n {
          assert Lowest(u, p) && u[p] == t[p];
          assert HasKey(u, t[p].entry.key);
        } else {
          LowestIsNew(t);
        }
      }
    }
  }

  lemma LowestIsNew<K, V>(t: Table<K, V>)
    requires t != [] && Lowest(t, |t| - 1)
    ensures !HasKey(t[..|t| - 1], t[|t| - 1].entry.key)
  {
    var u := t[..|t| - 1];
    assert forall q :: 0 <= q < |u| ==> u[q] == t[q];
  }

  lemma HasKeyStep<K, V>(t: Table<K, V>, k: K)
    requires t != []
    ensures HasKey(t, k) <==> HasKey(t[..|t| - 1], k) || HoldsKey(t[|t| - 1], k)
  {
    var n := |t| - 1;
    if HasKey(t[..n], k) {
      var p :| 0 <= p < n && t[..n][p].Live? && t[..n][p].entry.key == k;
      assert t[p].Live?;
    }
    if HasKey(t, k) {
      var p :| 0 <= p < |t| && t[p].Live? && t[p].entry.key == k;
      if p < n { assert t[..n][p].Live?; }
    }
  }

  lemma HasLowest<K, V>(t: Table<K, V>, key: K) returns (p: nat)
    requires HasKey(t, key)
    ensures Lowest(t, p) && t[p].entry.key == key
  {
    assert t != [];
    p := 0;
    while !HoldsKey(t[p], key)
      invariant p < |t| && forall q :: 0 <= q < p ==> !HoldsKey(t[q], key)
      decreases |t| - p
    {
      p := p + 1;
      assert p < |t| by { assert HasKey(t, key); }
    }
  }

  /** There are as many keys as entries exactly when no key has two. */
  lemma {:induction false} FirstValuesCount<K, V>(t: Table<K, V>)
    ensures |FirstValues(t)| <= NumLive(t)
    ensures |FirstValues(t)| == NumLive(t) <==> UniqueKeys(t)
  {
    if t != [] {
      var n := |t| - 1;
      var u := t[..n];
      FirstValuesCount(u);
      FirstValuesMean(u);
      UniqueStep(t);
    }
  }

  lemma UniqueStep<K, V>(t: Table<K, V>)
    requires t != []
    ensures var u, s := t[..|t| - 1], t[|t| - 1];
      UniqueKeys(t) <==> UniqueKeys(u) && !(s.Live? && HasKey(u, s.entry.key))
  {
    var n := |t| - 1;
    var u := t[..n];
    if UniqueKeys(u) && !(t[n].Live? && HasKey(u, t[n].entry.key)) {
      forall p, q | 0 <= p < q < |t| && t[p].Live? && t[q].Live? ensures t[p].entry.key != t[q].entry.key {
        assert u[p] == t[p];
        if q < n { assert u[q] == t[q]; }
      }
    }
    if UniqueKeys(t) {
      forall p, q | 0 <= p < n && 0 <= q < n && u[p].Live? && u[q].Live? && u[p].entry.key == u[q].entry.key
        ensures p == q
      {
        assert t[p] == u[p] && t[q] == u[q];
      }
    }
  }

  lemma EmptyRepresentsNothing<K, V>(n: nat, t: Table<K, V>)
    requires t == []
    ensures Represents(EmptyTable<K, V>(n), map[]) && Represents(t, map[])
  {
  }

  lemma FirstKey<K, V>(t: Table<K, V>, key: K)
    ensures key in FirstValues(t) <==> HasKey(t, key)
  {
    FirstValuesMean(t);
    assert HasKey(t, key) || !HasKey(t, key);
  }

  lemma UniqueIsMap<K, V>(t: Table<K, V>, m: map<K, V>)
    requires UniqueKeys(t) && Represents(t, m)
    ensures FirstValues(t) == m
  {
    FirstValuesMean(t);
    forall p | 0 <= p < |t| && t[p].Live? ensures HasPair(FirstValues(t), t[p].entry) {
      assert Lowest(t, p);
    }
    forall k | k in FirstValues(t) ensures HasKey(t, k) { FirstKey(t, k); }
    RepresentsOnce(t, m, FirstValues(t));
  }

  /** What growth does to any table: every key stays, with the entry in its lowest slot and no other; so all entries
      stay exactly when no key had two. */
  lemma GrowthKeepsLowest<K, V>(s: State<K, V>, hasher: K -> int)
    requires Sound(s) && CanGrow(s) && MustGrow(s) && HashedBy(s.t, hasher)
    ensures var c := Checkup(s);
      && Solid(c.t, hasher)
      && (forall k :: HasKey(c.t, k) <==> HasKey(s.t, k))
      && (forall p :: Lowest(s.t, p) ==> exists q :: 0 <= q < |c.t| && c.t[q] == s.t[p])
      && (forall q :: 0 <= q < |c.t| && c.t[q].Live? ==> exists p :: Lowest(s.t, p) && s.t[p] == c.t[q])
      && NumLive(c.t) <= NumLive(s.t) && (NumLive(c.t) == NumLive(s.t) <==> UniqueKeys(s.t))
  {
    GrowthIsFirstValues(s, hasher);
    hide Checkup, ChainsOk, FirstValues, NumLive, HasKey, Represents, UniqueKeys, Lowest;
    SameLowest(s.t, Checkup(s).t, hasher);
    SameCount(s.t, Checkup(s).t);
  }

  lemma SameLowest<K, V>(t: Table<K, V>, u: Table<K, V>, hasher: K -> int)
    requires HashedBy(t, hasher) && HashedBy(u, hasher) && Represents(u, FirstValues(t))
    ensures forall k :: HasKey(u, k) <==> HasKey(t, k)
    ensures forall p :: Lowest(t, p) ==> exists q :: 0 <= q < |u| && u[q] == t[p]
    ensures forall q :: 0 <= q < |u| && u[q].Live? ==> exists p :: Lowest(t, p) && t[p] == u[q]
  {
    var m := FirstValues(t);
    FirstValuesMean(t);
    hide FirstValues;
    forall k ensures HasKey(u, k) <==> HasKey(t, k) { KeysOfMap(u, m, k); }
    forall p | Lowest(t, p) ensures exists q :: 0 <= q < |u| && u[q] == t[p] {
      KeysOfMap(u, m, t[p].entry.key);
      var q :| 0 <= q < |u| && u[q].Live? && u[q].entry.key == t[p].entry.key;
      assert u[q] == t[p];
    }
    forall q | 0 <= q < |u| && u[q].Live? ensures exists p :: Lowest(t, p) && t[p] == u[q] {
      var p := HasLowest(t, u[q].entry.key);
      assert t[p] == u[q];
    }
  }

  lemma SameCount<K, V>(t: Table<K, V>, u: Table<K, V>)
    requires UniqueKeys(u) && Represents(u, FirstValues(t))
    ensures NumLive(u) <= NumLive(t) && (NumLive(u) == NumLive(t) <==> UniqueKeys(t))
  {
    UniqueIsMap(u, FirstValues(t));
    FirstValuesCount(t);
    FirstValuesCount(u);
  }

  lemma GrowthIsFirstValues<K, V>(s: State<K, V>, hasher: K -> int)
    requires Sound(s) && CanGrow(s) && MustGrow(s) && HashedBy(s.t, hasher)
    ensures var c := Checkup(s); Solid(c.t, hasher) && Represents(c.t, FirstValues(s.t))
  {
    var n := NextStep(|s.t|, 0);
    EmptyIsFresh<K, V>(n);
    EmptyRepresentsNothing<K, V>(n, s.t[..0]);
    RehashKeepsMap(s.t, 0, State(EmptyTable(n), 0), hasher);
  }

  lemma KeysOfMap<K, V>(t: Table<K, V>, m: map<K, V>, k: K)
    requires Represents(t, m)
    ensures k in m <==> HasKey(t, k)
  {
  }

  // ----- whole histories -----

  datatype Op<K, V> =
    | Insert(key: K, value: V)
    | Remove(key: K)
    | Take(key: K, remove: bool)

  /** What every reachable list satisfies. */
  ghost predicate Inv<K, V>(s: State<K, V>) {
    Sound(s) && ChainsOk(s.t) && Tidy(s.t)
  }

  /** remove and take divide by the capacity, so they need a list that was filled once. */
  predicate Allowed<K, V>(s: State<K, V>, op: Op<K, V>, hasher: K -> int) {
    && hasher(op.key) >= 0
    && (if op.Insert? then CanGrow(s) else |s.t| > 0)
  }

  /** One call: the new state and what the call returns. */
  function Step<K(==), V>(s: State<K, V>, op: Op<K, V>, hasher: K -> int): (r: (State<K, V>, bool))
    requires Inv(s) && Allowed(s, op, hasher)
  {
    match op
    case Insert(k, v) =>
      var c, e := Checkup(s), Entry(hasher(k), k, v);
      (Put(c, e), InsertRoom(c.t, e).Free?)
    case Remove(k) =>
      var f := Find(s.t, Home(|s.t|, hasher(k)), hasher(k), k, 0);
      if f.Some? then (State(RemoveAt(s.t, f.value), s.count - 1), true) else (s, false)
    case Take(k, rm) =>
      var f := Find(s.t, Home(|s.t|, hasher(k)), hasher(k), k, 0);
      if f.None? then (s, false)
      else if rm then (State(RemoveAt(s.t, f.value), s.count - 2), true)
      else (s, true)
  }

  // ----- every operation keeps the probe chains -----

  lemma CheckupKeepsInv<K, V>(s: State<K, V>)
    requires CanGrow(s) && Inv(s)
    ensures Inv(Checkup(s))
  {
    if MustGrow(s) {
      var n := NextStep(|s.t|, 0);
      EmptyIsFresh<K, V>(n);
      RehashIsFresh(s.t, 0, State(EmptyTable(n), 0));
    }
  }

  lemma PutKeepsInv<K, V>(s: State<K, V>, e: Entry<K, V>)
    requires |s.t| > 0 && e.hash >= 0 && Inv(s)
    ensures Inv(Put(s, e))
  {
    InsertKeepsChains(s.t, e);
    hide ChainsOk, InsertRoom;
  }

  lemma StepKeepsInv<K, V>(s: State<K, V>, op: Op<K, V>, hasher: K -> int)
    requires Inv(s) && Allowed(s, op, hasher)
    ensures Inv(Step(s, op, hasher).0)
  {
    hide Checkup, Put, RemoveAt;
    match op
    case Insert(k, v) =>
      CheckupKeepsInv(s);
      PutKeepsInv(Checkup(s), Entry(hasher(k), k, v));
    case _ =>
      var f := Find(s.t, Home(|s.t|, hasher(op.key)), hasher(op.key), op.key, 0);
      if f.Some? {
        RemoveKeepsChains(s.t, f.value);
        RemoveIsTidy(s.t, f.value);
      }
  }

  /** All calls of a history may be made, one after the other. */
  ghost predicate Legal<K, V>(s: State<K, V>, ops: seq<Op<K, V>>, hasher: K -> int)
    requires Inv(s)
    decreases |ops|
  {
    ops == [] ||
    (&& Allowed(s, ops[0], hasher)
     && (StepKeepsInv(s, ops[0], hasher); Legal(Step(s, ops[0], hasher).0, ops[1..], hasher)))
  }

  /** A whole history. In every table it can reach, no empty slot separates an entry from its home, and no tombstone
      stands before an empty slot. */
  ghost function Run<K, V>(s: State<K, V>, ops: seq<Op<K, V>>, hasher: K -> int): (r: State<K, V>)
    requires Inv(s) && Legal(s, ops, hasher)
    ensures Inv(r)
    decreases |ops|
  {
    if ops == [] then s
    else
      StepKeepsInv(s, ops[0], hasher);
      Run(Step(s, ops[0], hasher).0, ops[1..], hasher)
  }

  /** The list after construction. */
  function Initial<K, V>(): State<K, V> { State([], 0) }

  // ----- insert-only histories are a finite map -----

  /** The map that insertions build on m: a key keeps the first value it was given. */
  function MapOf<K(==), V>(m: map<K, V>, ops: seq<Op<K, V>>): map<K, V>
    requires forall i :: 0 <= i < |ops| ==> ops[i].Insert?
    decreases |ops|
  {
    if ops == [] then m
    else MapOf(if ops[0].key in m then m else m[ops[0].key := ops[0].value], ops[1..])
  }

  /** The states that insertions alone lead to. */
  ghost predicate Exact<K, V>(s: State<K, V>, hasher: K -> int, m: map<K, V>) {
    s.count == NumLive(s.t) && Solid(s.t, hasher) && Represents(s.t, m)
  }

  lemma InsertIsExact<K, V>(s: State<K, V>, hasher: K -> int, m: map<K, V>, key: K, value: V)
    requires Exact(s, hasher, m) && CanGrow(s) && hasher(key) >= 0 && Inv(s)
    ensures var r := Step(s, Insert(key, value), hasher);
      && (r.1 <==> key !in m)
      && Exact(r.0, hasher, if key in m then m else m[key := value])
  {
    hide Represents, Solid;
    CheckupIsExact(s, hasher, m);
    var c, e := Checkup(s), Entry(hasher(key), key, value);
    InsertIsMapInsert(c.t, hasher, m, e);
    var room := InsertRoom(c.t, e);
    hide InsertRoom, Checkup;
    if room.Free? { NumLiveUpdate(c.t, room.pos, Live(e)); }
  }

  /** checkupSpace keeps the map and leaves a free slot for the coming insertion. */
  lemma CheckupIsExact<K, V>(s: State<K, V>, hasher: K -> int, m: map<K, V>)
    requires Exact(s, hasher, m) && CanGrow(s)
    ensures Sound(s) && Exact(Checkup(s), hasher, m) && NumLive(Checkup(s).t) < |Checkup(s).t|
  {
    hide Represents, NumLive;
    assert Sound(s);
    if MustGrow(s) {
      var n := NextStep(|s.t|, 0);
      var empty := State(EmptyTable<K, V>(n), 0);
      EmptyIsFresh<K, V>(n);
      EmptyRepresentsNothing<K, V>(n, s.t[..0]);
      RehashIsFresh(s.t, 0, empty);
      RehashKeepsMap(s.t, 0, empty, hasher);
      UniqueIsMap(s.t, m);
    }
  }

  lemma {:induction false} FirstValueStays<K, V>(m: map<K, V>, ops: seq<Op<K, V>>, key: K)
    requires forall i :: 0 <= i < |ops| ==> ops[i].Insert?
    ensures key in m ==> key in MapOf(m, ops) && MapOf(m, ops)[key] == m[key]
    ensures key in MapOf(m, ops) <==> key in m || exists i :: 0 <= i < |ops| && ops[i].key == key
    decreases |ops|
  {
    if ops != [] {
      var m' := if ops[0].key in m then m else m[ops[0].key := ops[0].value];
      FirstValueStays(m', ops[1..], key);
      assert forall i :: 0 <= i < |ops| - 1 ==> ops[1..][i] == ops[i + 1];
    }
  }

  predicate AllInserts<K, V>(ops: seq<Op<K, V>>, hasher: K -> int) {
    forall i :: 0 <= i < |ops| ==> ops[i].Insert? && hasher(ops[i].key) >= 0
  }

  /** Insertions alone are always allowed while the counter fits its int. */
  lemma {:induction false} InsertRunIsExact<K, V>(s: State<K, V>, ops: seq<Op<K, V>>, hasher: K -> int, m: map<K, V>)
    requires Exact(s, hasher, m) && Inv(s)
    requires AllInserts(ops, hasher) && s.count + |ops| <= MAX_COUNT
    ensures Legal(s, ops, hasher) && Exact(Run(s, ops, hasher), hasher, MapOf(m, ops))
    decreases |ops|
  {
    if ops != [] {
      var key, value := ops[0].key, ops[0].value;
      assert ops[0] == Insert(key, value);
      InsertIsExact(s, hasher, m, key, value);
      StepKeepsInv(s, ops[0], hasher);
      StepCount(s, ops[0], hasher);
      hide Step, Inv, Exact, NumLive;
      var s' := Step(s, ops[0], hasher).0;
      InsertRunIsExact(s', ops[1..], hasher, if key in m then m else m[key := value]);
    }
  }

  /** After any insertions, take without removal succeeds exactly on the inserted keys and gives the first
      value each was inserted with. */
  lemma InsertOnlyRefinesMap<K, V>(ops: seq<Op<K, V>>, hasher: K -> int, key: K)
    requires AllInserts(ops, hasher) && ops != [] && |ops| <= MAX_COUNT && hasher(key) >= 0
    ensures Legal(Initial(), ops, hasher)
    ensures var t, m := Run(Initial(), ops, hasher).t, MapOf(map[], ops);
      && |t| > 0
      && var f := Find(t, Home(|t|, hasher(key)), hasher(key), key, 0);
      && (f.Some? <==> exists i :: 0 <= i < |ops| && ops[i].key == key)
      && (f.Some? ==> key in m && t[f.value].entry.value == m[key])
  {
    var s := Initial<K, V>();
    assert Exact(s, hasher, map[]);
    InsertRunIsExact(s, ops, hasher, map[]);
    FirstValueStays(map[], ops, key);
    var t := Run(s, ops, hasher).t;
    assert ops[0].key in MapOf(map[], ops) by { FirstValueStays(map[], ops, ops[0].key); }
    hide Run, Legal;
    assert HasKey(t, ops[0].key);
    FindIsMapLookup(t, hasher, MapOf(map[], ops), key);
  }

  // ----- the counter -----

  /** How far the counter lags behind the number of live entries. */
  function Lag<K, V>(s: State<K, V>): int { NumLive(s.t) - s.count }

  lemma CheckupCount<K, V>(s: State<K, V>)
    requires Sound(s) && CanGrow(s)
    ensures MustGrow(s) ==> Lag(Checkup(s)) == 0 && Checkup(s).count <= NumLive(s.t)
  {
    if MustGrow(s) {
      var n := NextStep(|s.t|, 0);
      EmptyIsFresh<K, V>(n);
      assert NumLive(s.t[..0]) == 0;
      hide NumLive;
      RehashIsFresh(s.t, 0, State(EmptyTable(n), 0));
    }
  }

  lemma PutCount<K, V>(s: State<K, V>, e: Entry<K, V>)
    requires |s.t| > 0 && e.hash >= 0
    ensures Lag(Put(s, e)) == Lag(s) && s.count <= Put(s, e).count <= s.count + 1
  {
    var room := InsertRoom(s.t, e);
    hide InsertRoom;
    if room.Free? { NumLiveUpdate(s.t, room.pos, Live(e)); }
  }

  /** The counter is exact after growing; the only call that spoils it is a take that removes, which
      subtracts twice. */
  lemma StepCount<K, V>(s: State<K, V>, op: Op<K, V>, hasher: K -> int)
    requires Inv(s) && Allowed(s, op, hasher)
    ensures var r := Step(s, op, hasher);
      && Lag(r.0) == (if op.Insert? && MustGrow(s) then 0 else Lag(s))
                     + (if op.Take? && op.remove && r.1 then 1 else 0)
      && r.0.count <= (if op.Insert? && MustGrow(s) then NumLive(s.t) else s.count) + 1
  {
    hide NumLive, Checkup, Put, Find;
    match op
    case Insert(k, v) =>
      CheckupCount(s);
      PutCount(Checkup(s), Entry(hasher(k), k, v));
      CheckupStays(s);
    case _ =>
      var f := Find(s.t, Home(|s.t|, hasher(op.key)), hasher(op.key), op.key, 0);
      if f.Some? { RemoveEffect(s.t, f.value); }
  }

  lemma CheckupStays<K, V>(s: State<K, V>)
    requires Sound(s) && CanGrow(s)
    ensures !MustGrow(s) ==> Checkup(s) == s
  {
  }

  /** How many takes have removed an entry since the table last grew; n did before these calls. */
  ghost function SinceGrowth<K, V>(s: State<K, V>, ops: seq<Op<K, V>>, hasher: K -> int, n: int): int
    requires Inv(s) && Legal(s, ops, hasher)
    decreases |ops|
  {
    if ops == [] then n
    else
      var op, r := ops[0], Step(s, ops[0], hasher);
      StepKeepsInv(s, op, hasher);
      var kept := if op.Insert? && MustGrow(s) then 0 else n;
      SinceGrowth(r.0, ops[1..], hasher, kept + if op.Take? && op.remove && r.1 then 1 else 0)
  }

  /** After any history, the counter lags by the takes that removed since the table last grew. */
  lemma {:induction false} LagAfterRun<K, V>(s: State<K, V>, ops: seq<Op<K, V>>, hasher: K -> int)
    requires Inv(s) && Legal(s, ops, hasher)
    ensures Lag(Run(s, ops, hasher)) == SinceGrowth(s, ops, hasher, Lag(s))
    decreases |ops|
  {
    hide Step, Inv, Lag;
    if ops != [] {
      StepKeepsInv(s, ops[0], hasher);
      StepCount(s, ops[0], hasher);
      LagAfterRun(Step(s, ops[0], hasher).0, ops[1..], hasher);
    }
  }

  lemma {:induction false} RehashAddsNothing<K, V>(old_t: Table<K, V>, i: nat, s: State<K, V>, key: K)
    requires i <= |old_t| && |s.t| > 0 && HashesOk(old_t) && !HasKey(old_t, key) && !HasKey(s.t, key)
    ensures !HasKey(Rehash(old_t, i, s).t, key)
    decreases |old_t| - i
  {
    if i < |old_t| {
      if old_t[i].Live? {
        hide InsertRoom;
        RehashAddsNothing(old_t, i + 1, Put(s, old_t[i].entry), key);
      } else {
        RehashAddsNothing(old_t, i + 1, s, key);
      }
    }
  }

  /** Growing leaves room, and the key is still absent. */
  lemma GrowthLeavesRoom<K, V>(s: State<K, V>, key: K)
    requires Sound(s) && CanGrow(s) && MustGrow(s) && !HasKey(s.t, key)
    ensures var c := Checkup(s); !HasKey(c.t, key) && NumLive(c.t) < |c.t|
  {
    var n := NextStep(|s.t|, 0);
    EmptyIsFresh<K, V>(n);
    assert NumLive(s.t[..0]) == 0;
    RehashIsFresh(s.t, 0, State(EmptyTable(n), 0));
    RehashAddsNothing(s.t, 0, State(EmptyTable(n), 0), key);
    hide NumLive, Rehash;
  }

  /** The insertion of a key that is not in the table is refused exactly when every slot is in use and the counter
      does not call for growth. */
  lemma RefusedIff<K, V>(s: State<K, V>, key: K, value: V, hasher: K -> int)
    requires Inv(s) && Allowed(s, Insert(key, value), hasher) && !HasKey(s.t, key)
    ensures !Step(s, Insert(key, value), hasher).1 <==> NumLive(s.t) == |s.t| && !MustGrow(s)
  {
    var e := Entry(hasher(key), key, value);
    if MustGrow(s) { GrowthLeavesRoom(s, key); }
    hide InsertRoom, NumLive, Rehash, HasKey;
    AbsentGetsRoom(Checkup(s).t, e);
  }

  /** The same for whole histories: the table is full, and enough takes have removed since it last grew. */
  lemma RefusedAfterIff<K, V>(ops: seq<Op<K, V>>, key: K, value: V, hasher: K -> int)
    requires Legal(Initial(), ops, hasher)
    requires var s := Run(Initial(), ops, hasher);
      Allowed(s, Insert(key, value), hasher) && !HasKey(s.t, key)
    ensures var s, n := Run(Initial(), ops, hasher), SinceGrowth(Initial(), ops, hasher, 0);
      !Step(s, Insert(key, value), hasher).1
      <==> NumLive(s.t) == |s.t| && (|s.t| - n) + (|s.t| - n) / 4 < |s.t|
  {
    LagAfterRun(Initial(), ops, hasher);
    var s := Run(Initial(), ops, hasher);
    hide Run, SinceGrowth, Step, HasKey, Inv;
    RefusedIff(s, key, value, hasher);
  }

  // ----- keys that are in the table -----

  lemma {:induction false} RehashKeepsHashed<K, V>(old_t: Table<K, V>, i: nat, s: State<K, V>, hasher: K -> int)
    requires i <= |old_t| && |s.t| > 0 && HashesOk(old_t) && HashedBy(old_t, hasher) && HashedBy(s.t, hasher)
    ensures HashedBy(Rehash(old_t, i, s).t, hasher)
    decreases |old_t| - i
  {
    hide InsertRoom;
    if i < |old_t| {
      RehashKeepsHashed(old_t, i + 1, if old_t[i].Live? then Put(s, old_t[i].entry) else s, hasher);
    }
  }

  lemma StepKeepsHashed<K, V>(s: State<K, V>, op: Op<K, V>, hasher: K -> int)
    requires Inv(s) && Allowed(s, op, hasher) && HashedBy(s.t, hasher)
    ensures HashedBy(Step(s, op, hasher).0.t, hasher)
  {
    hide InsertRoom, Find, RemoveAt, Rehash, ChainsOk, Tidy;
    match op
    case Insert(k, v) =>
      if MustGrow(s) { RehashKeepsHashed(s.t, 0, State(EmptyTable(NextStep(|s.t|, 0)), 0), hasher); }
    case _ =>
      var f := Find(s.t, Home(|s.t|, hasher(op.key)), hasher(op.key), op.key, 0);
      if f.Some? { RemoveEffect(s.t, f.value); }
  }

  /** In every table that a history reaches, each entry carries its own key's hash. */
  lemma {:induction false} EveryRunIsHashed<K, V>(s: State<K, V>, ops: seq<Op<K, V>>, hasher: K -> int)
    requires Inv(s) && Legal(s, ops, hasher) && HashedBy(s.t, hasher)
    ensures HashedBy(Run(s, ops, hasher).t, hasher)
    decreases |ops|
  {
    hide Step, Inv, HashedBy;
    if ops != [] {
      StepKeepsInv(s, ops[0], hasher);
      StepKeepsHashed(s, ops[0], hasher);
      EveryRunIsHashed(Step(s, ops[0], hasher).0, ops[1..], hasher);
    }
  }

  /** The slot where the way of this key starts. */
  function HomeOf<K, V>(s: State<K, V>, key: K, hasher: K -> int): (h: nat)
    requires |s.t| > 0 && hasher(key) >= 0
    ensures h < |s.t|
  {
    Home(|s.t|, hasher(key))
  }

  /** A key in the table is found exactly when no tombstone lies before its first entry. */
  lemma StoredIsFoundIff<K, V>(s: State<K, V>, key: K, hasher: K -> int, p: nat)
    requires Inv(s) && HashedBy(s.t, hasher) && |s.t| > 0 && hasher(key) >= 0
    requires FirstOnWay(s.t, HomeOf(s, key, hasher), key, p)
    ensures var hidden := TombstoneBefore(s.t, HomeOf(s, key, hasher), p);
      && (forall rm :: Step(s, Take(key, rm), hasher).1 <==> !hidden)
      && (Step(s, Remove(key), hasher).1 <==> !hidden)
  {
    FindsFirst(s.t, hasher, key, p);
    hide Find, Inv, HashedBy, FirstOnWay, TombstoneBefore;
  }

  /** A key in the table is stored a second time exactly when the table does not grow and a tombstone lies before the
      key's first entry. */
  lemma StoredAgainIff<K, V>(s: State<K, V>, key: K, value: V, hasher: K -> int, p: nat)
    requires Inv(s) && HashedBy(s.t, hasher) && Allowed(s, Insert(key, value), hasher) && |s.t| > 0
    requires FirstOnWay(s.t, HomeOf(s, key, hasher), key, p)
    ensures Step(s, Insert(key, value), hasher).1
      <==> !MustGrow(s) && TombstoneBefore(s.t, HomeOf(s, key, hasher), p)
  {
    if MustGrow(s) {
      assert HoldsKey(s.t[p], key);
      GrowthKeepsLowest(s, hasher);
      assert HasKey(s.t, key);
      assert HasKey(Checkup(s).t, key);
      hide Checkup, FirstOnWay, ChainsOk;
      NotAddedTwice(Checkup(s).t, hasher, Entry(hasher(key), key, value));
    } else {
      SecondSlotIff(s.t, hasher, Entry(hasher(key), key, value), p);
    }
  }

  lemma NotAddedTwice<K, V>(t: Table<K, V>, hasher: K -> int, e: Entry<K, V>)
    requires |t| > 0 && e.hash == hasher(e.key) >= 0 && Solid(t, hasher) && HasKey(t, e.key)
    ensures !InsertRoom(t, e).Free?
  {
    var p := HasFirst(t, Home(|t|, e.hash), e.key);
    SecondSlotIff(t, hasher, e, p);
  }

  // ----- what the calls do to the table -----

  /** The entry at p is gone, and every other entry is where it was. */
  ghost predicate OnlyGone<K, V>(t: Table<K, V>, u: Table<K, V>, p: nat) {
    && |u| == |t| && p < |t| && t[p].Live? && !u[p].Live?
    && (forall q :: 0 <= q < |t| && q != p && (t[q].Live? || u[q].Live?) ==> u[q] == t[q])
    && NumLive(u) == NumLive(t) - 1
  }

  /** A call that finds its key is about the first entry on the key's way. remove, and take if it is asked to, take out
      that entry and no other; a take that is not, and any call that fails, change nothing. */
  lemma CallsTakeOut<K, V>(s: State<K, V>, key: K, hasher: K -> int)
    requires Inv(s) && HashedBy(s.t, hasher) && |s.t| > 0 && hasher(key) >= 0
    ensures var (r, found) := Step(s, Remove(key), hasher);
      && (!found ==> r == s)
      && (found ==> r.count == s.count - 1
                    && exists p :: FirstOnWay(s.t, HomeOf(s, key, hasher), key, p) && OnlyGone(s.t, r.t, p))
    ensures var (r, found) := Step(s, Take(key, true), hasher);
      && (!found ==> r == s)
      && (found ==> r.count == s.count - 2
                    && exists p :: FirstOnWay(s.t, HomeOf(s, key, hasher), key, p) && OnlyGone(s.t, r.t, p))
    ensures Step(s, Take(key, false), hasher).0 == s
    ensures Step(s, Remove(key), hasher).1 == Step(s, Take(key, true), hasher).1 == Step(s, Take(key, false), hasher).1
  {
    var h := HomeOf(s, key, hasher);
    var f := Find(s.t, h, hasher(key), key, 0);
    if f.Some? {
      FindIff(s.t, h, hasher(key), key, f.value, 0);
      RemoveEffect(s.t, f.value);
      hide Find, RemoveAt, NumLive, Inv;
      assert FirstOnWay(s.t, h, key, f.value);
      assert OnlyGone(s.t, RemoveAt(s.t, f.value), f.value);
    }
  }

  /** An insert that succeeds fills one free slot, after growth if that is due; one that fails does no more than
      grow. */
  lemma InsertPutsIn<K, V>(s: State<K, V>, key: K, value: V, hasher: K -> int)
    requires Inv(s) && Allowed(s, Insert(key, value), hasher)
    ensures var c, (r, added) := Checkup(s), Step(s, Insert(key, value), hasher);
      && (!MustGrow(s) ==> c == s)
      && (!added ==> r == c)
      && (added ==> exists p :: 0 <= p < |c.t| && !c.t[p].Live?
                      && r == State(c.t[p := Live(Entry(hasher(key), key, value))], c.count + 1))
  {
    hide FindRoom, Rehash;
  }

  /** Both, and what happens to a key that is not there, after any history from the empty list. */
  lemma CallsAfterRun<K, V>(ops: seq<Op<K, V>>, key: K, value: V, hasher: K -> int)
    requires Legal(Initial(), ops, hasher)
    requires hasher(key) >= 0 && |Run(Initial(), ops, hasher).t| > 0
    ensures var s := Run(Initial(), ops, hasher);
      if HasKey(s.t, key) then
        exists p :: FirstOnWay(s.t, HomeOf(s, key, hasher), key, p)
          && var hidden := TombstoneBefore(s.t, HomeOf(s, key, hasher), p);
             && (forall rm :: Step(s, Take(key, rm), hasher).1 <==> !hidden)
             && (Step(s, Remove(key), hasher).1 <==> !hidden)
             && (CanGrow(s) ==> (Step(s, Insert(key, value), hasher).1 <==> !MustGrow(s) && hidden))
      else
        && (forall rm :: !Step(s, Take(key, rm), hasher).1) && !Step(s, Remove(key), hasher).1
        && (CanGrow(s) ==> (Step(s, Insert(key, value), hasher).1 <==> MustGrow(s) || NumLive(s.t) < |s.t|))
  {
    var s := Run(Initial(), ops, hasher);
    EveryRunIsHashed(Initial(), ops, hasher);
    hide Run, Legal;
    if HasKey(s.t, key) {
      var p := HasFirst(s.t, HomeOf(s, key, hasher), key);
      StoredIsFoundIff(s, key, hasher, p);
      if CanGrow(s) { StoredAgainIff(s, key, value, hasher, p); }
    } else {
      AbsentIsNotFound(s, key, hasher);
      if CanGrow(s) { RefusedIff(s, key, value, hasher); }
    }
  }

  lemma AbsentIsNotFound<K, V>(s: State<K, V>, key: K, hasher: K -> int)
    requires Inv(s) && |s.t| > 0 && hasher(key) >= 0 && !HasKey(s.t, key)
    ensures (forall rm :: !Step(s, Take(key, rm), hasher).1) && !Step(s, Remove(key), hasher).1
  {
  }

  // ----- what mixed histories lose -----

  function Identity(k: int): int { k }

  /** One call more at the end of a history. */
  lemma {:induction false} Extend<K, V>(s: State<K, V>, ops: seq<Op<K, V>>, op: Op<K, V>, hasher: K -> int)
    requires Inv(s) && Legal(s, ops, hasher)
    requires Allowed(Run(s, ops, hasher), op, hasher)
    ensures Legal(s, ops + [op], hasher)
    ensures Run(s, ops + [op], hasher) == Step(Run(s, ops, hasher), op, hasher).0
    decreases |ops|
  {
    hide Step, Inv;
    if ops == [] {
      StepKeepsInv(s, op, hasher);
      assert [op][1..] == [] && [] + [op] == [op];
    } else {
      StepKeepsInv(s, ops[0], hasher);
      Extend(Step(s, ops[0], hasher).0, ops[1..], op, hasher);
      assert (ops + [op])[0] == ops[0] && (ops + [op])[1..] == ops[1..] + [op];
    }
  }

  /** Three keys with one home, the middle one removed: the third is still in the table, yet take misses it
      and a second insertion of it is accepted. CallsAfterRun says exactly when this happens. */
  lemma TombstoneHidesEntry() returns (ops: seq<Op<int, int>>)
    ensures Legal(Initial(), ops, Identity)
    ensures var s := Run(Initial(), ops, Identity);
      && Inv(s) && HasKey(s.t, 34)
      && Allowed(s, Take(34, false), Identity) && !Step(s, Take(34, false), Identity).1
      && Allowed(s, Insert(34, 9), Identity) && Step(s, Insert(34, 9), Identity).1
  {
    var s0 := Initial<int, int>();
    var e := EmptyTable<int, int>(17);
    var a, b, c := Live(Entry(0, 0, 0)), Live(Entry(17, 17, 1)), Live(Entry(34, 34, 2));
    var s1, s2, s3 := State(e[0 := a], 1), State(e[0 := a][1 := b], 2), State(e[0 := a][1 := b][2 := c], 3);
    var s4 := State(s3.t[1 := Corpse], 2);
    assert Legal(s0, [], Identity) && Inv(s0);
    ops := Then(s0, [], Insert(0, 0), s1) by { assert Step(s0, Insert(0, 0), Identity).0 == s1; }
    ops := Then(s1, ops, Insert(17, 1), s2) by { CollidingInserts(); }
    ops := Then(s2, ops, Insert(34, 2), s3) by { CollidingInserts(); }
    ops := Then(s3, ops, Remove(17), s4) by { MiddleRemoved(); }
    MiddleRemoved();
    assert s4.t[2].Live?;
  }

  lemma Then(s: State<int, int>, before: seq<Op<int, int>>, op: Op<int, int>, t: State<int, int>)
    returns (ops: seq<Op<int, int>>)
    requires Legal(Initial(), before, Identity) && Run(Initial(), before, Identity) == s
    requires Inv(s) && Allowed(s, op, Identity) && Step(s, op, Identity).0 == t
    ensures Legal(Initial(), ops, Identity) && Run(Initial(), ops, Identity) == t && Inv(t)
    ensures ops == before + [op]
  {
    Extend(Initial(), before, op, Identity);
    ops := before + [op];
  }

  /** Two keys follow the first one to its home. */
  lemma CollidingInserts()
    ensures var a, b, c := Live(Entry(0, 0, 0)), Live(Entry(17, 17, 1)), Live(Entry(34, 34, 2));
      var e := EmptyTable<int, int>(17);
      && Put(State(e[0 := a], 1), b.entry) == State(e[0 := a][1 := b], 2)
      && Put(State(e[0 := a][1 := b], 2), c.entry) == State(e[0 := a][1 := b][2 := c], 3)
  {
    var a, b := Live(Entry(0, 0, 0)), Live(Entry(17, 17, 1));
    var e := EmptyTable<int, int>(17);
    var t, u := e[0 := a], e[0 := a][1 := b];
    assert FindRoom(t, 0, 17, 17, 1) == Free(1);
    assert FindRoom(u, 0, 34, 34, 2) == Free(2);
    assert FindRoom(u, 0, 34, 34, 1) == Free(2);
  }

  lemma MiddleRemoved()
    ensures var a, b, c := Live(Entry(0, 0, 0)), Live(Entry(17, 17, 1)), Live(Entry(34, 34, 2));
      var t := EmptyTable<int, int>(17)[0 := a][1 := b][2 := c];
      && Find(t, 0, 17, 17, 0) == Some(1) && RemoveAt(t, 1) == t[1 := Corpse]
      && Find(t[1 := Corpse], 0, 34, 34, 0) == None
      && FindRoom(t[1 := Corpse], 0, 34, 34, 0) == Free(1)
  {
    var a, b, c := Live(Entry(0, 0, 0)), Live(Entry(17, 17, 1)), Live(Entry(34, 34, 2));
    var t := EmptyTable<int, int>(17)[0 := a][1 := b][2 := c];
    assert Find(t, 0, 17, 17, 1) == Some(1);
    assert Find(t[1 := Corpse], 0, 34, 34, 1) == None;
    assert FindRoom(t[1 := Corpse], 0, 34, 34, 1) == Free(1);
  }

  // ----- a table that fills up -----

  /** The keys 0 to n - 1, each in its home slot. */
  function Filled(n: nat): (t: Table<int, int>)
    ensures |t| == 17
  {
    seq(17, p => if p < n then Live(Entry(p, p, 0)) else Null)
  }

  lemma FilledStep(n: nat, c: int)
    requires n < 17
    ensures Put(State(Filled(n), c), Entry(n, n, 0)) == State(Filled(n + 1), c + 1)
  {
    assert FindRoom(Filled(n), n, n, n, 0) == Free(n);
    assert Filled(n)[n := Live(Entry(n, n, 0))] == Filled(n + 1);
  }

  lemma TakenBack()
    ensures Find(Filled(1), 0, 0, 0, 0) == Some(0) && RemoveAt(Filled(1), 0) == Filled(0)
  {
    assert Filled(1)[0 := Null] == Filled(0);
    assert Clean(Filled(0), 0, 1) == Filled(0);
  }

  /** Four takes that remove, then 17 insertions: the counter is at 13, the table does not grow, and the insertion
      of a further key is refused. */
  lemma FullTableRefuses() returns (ops: seq<Op<int, int>>)
    ensures Legal(Initial(), ops, Identity)
    ensures var s := Run(Initial(), ops, Identity);
      && Inv(s) && Allowed(s, Insert(17, 0), Identity) && !HasKey(s.t, 17)
      && !Step(s, Insert(17, 0), Identity).1
  {
    var s0 := Initial<int, int>();
    assert Legal(s0, [], Identity) && Inv(s0);
    assert EmptyTable<int, int>(17) == Filled(0);
    FilledStep(0, 0);
    TakenBack();
    hide Put, InsertRoom, Filled, RemoveAt, Find, Inv, Run, Legal;
    ops := Then(s0, [], Insert(0, 0), State(Filled(1), 1));
    ops := Then(State(Filled(1), 1), ops, Take(0, true), State(Filled(0), -1));
    for i := 1 to 4
      invariant Legal(Initial(), ops, Identity) && Run(Initial(), ops, Identity) == State(Filled(0), -i)
      invariant Inv(State(Filled(0), -i))
    {
      FilledStep(0, -i);
      ops := Then(State(Filled(0), -i), ops, Insert(0, 0), State(Filled(1), 1 - i));
      ops := Then(State(Filled(1), 1 - i), ops, Take(0, true), State(Filled(0), -1 - i));
    }
    for i := 0 to 17
      invariant Legal(Initial(), ops, Identity) && Run(Initial(), ops, Identity) == State(Filled(i), i - 4)
      invariant Inv(State(Filled(i), i - 4))
    {
      FilledStep(i, i - 4);
      ops := Then(State(Filled(i), i - 4), ops, Insert(i, 0), State(Filled(i + 1), i - 3));
    }
    AllFilled();
    RefusedIff(State(Filled(17), 13), 17, 0, Identity);
  }

  lemma AllFilled()
    ensures NumLive(Filled(17)) == 17 && !HasKey(Filled(17), 17)
  {
    NumLiveFull(Filled(17));
  }
}
