/** The probing rules of HashList as functions on the slot array, and what they keep. */
module HashTable {
  import opened Common

  datatype Entry<K, V> = Entry(hash: int, key: K, value: V)

  /** NULL, CORPSE_ENTRY, or a pointer to an entry. */
  datatype Slot<K, V> = Null | Corpse | Live(entry: Entry<K, V>)

  type Table<K, V> = seq<Slot<K, V>>

  // ----- cyclic positions -----

  /** The k-th slot of the probe sequence that starts at h. */
  function At(cap: nat, h: nat, k: nat): (p: nat)
    requires h < cap && k <= cap
    ensures p < cap
  {
    if h + k < cap then h + k else h + k - cap
  }

  /** How many steps lead from h to p. */
  function Dist(cap: nat, h: nat, p: nat): (d: nat)
    requires h < cap && p < cap
    ensures d < cap && At(cap, h, d) == p
  {
    if h <= p then p - h else p + cap - h
  }

  function Back(cap: nat, p: nat, n: nat): (q: nat)
    requires p < cap && n <= cap
    ensures q < cap
  {
    if n <= p then p - n else p - n + cap
  }

  function Home(cap: nat, hash: int): (h: nat)
    requires cap > 0 && hash >= 0
    ensures h < cap
  {
    hash % cap
  }

  // ----- lookup: remove and take -----

  predicate Matches<K(==), V>(s: Slot<K, V>, hash: int, key: K) {
    s.Live? && s.entry.hash == hash && s.entry.key == key
  }

  /** Where remove and take find the key, from probe step i on. On a tombstone they go round their loop
      without moving, so they give up there. */
  function Find<K(==), V>(t: Table<K, V>, h: nat, hash: int, key: K, i: nat): (r: Option<nat>)
    requires h < |t| && i <= |t|
    ensures r.Some? ==> r.value < |t| && Matches(t[r.value], hash, key)
    decreases |t| - i
  {
    if i == |t| then None
    else
      var s := t[At(|t|, h, i)];
      if s.Null? || s.Corpse? then None
      else if Matches(s, hash, key) then Some(At(|t|, h, i))
      else Find(t, h, hash, key, i + 1)
  }

  // ----- insertInternal -----

  datatype Room = Free(pos: nat) | Duplicate | Full

  function FindRoom<K(==), V>(t: Table<K, V>, h: nat, hash: int, key: K, i: nat): (r: Room)
    requires h < |t| && i <= |t|
    ensures r.Free? ==> r.pos < |t| && !t[r.pos].Live?
    decreases |t| - i
  {
    if i == |t| then Full
    else
      var s := t[At(|t|, h, i)];
      if s.Null? || s.Corpse? then Free(At(|t|, h, i))
      else if Matches(s, hash, key) then Duplicate
      else FindRoom(t, h, hash, key, i + 1)
  }

  function InsertRoom<K(==), V>(t: Table<K, V>, e: Entry<K, V>): (r: Room)
    requires |t| > 0 && e.hash >= 0
    ensures r.Free? ==> r.pos < |t| && !t[r.pos].Live?
  {
    FindRoom(t, Home(|t|, e.hash), e.hash, e.key, 0)
  }

  function InsertTable<K(==), V>(t: Table<K, V>, e: Entry<K, V>): (r: Table<K, V>)
    requires |t| > 0 && e.hash >= 0
    ensures |r| == |t|
  {
    var room := InsertRoom(t, e);
    if room.Free? then t[room.pos := Live(e)] else t
  }

  // ----- unlinking an entry -----

  /** Turns the run of tombstones that ends n slots before pos into empty slots. */
  function Clean<K, V>(t: Table<K, V>, pos: nat, n: nat): (r: Table<K, V>)
    requires pos < |t| && n <= |t|
    ensures |r| == |t|
    decreases |t| - n
  {
    if n < |t| && t[Back(|t|, pos, n)].Corpse? then Clean(t[Back(|t|, pos, n) := Null], pos, n + 1) else t
  }

  function RemoveAt<K, V>(t: Table<K, V>, pos: nat): (r: Table<K, V>)
    requires pos < |t|
    ensures |r| == |t|
  {
    if t[At(|t|, pos, 1)].Null? then Clean(t[pos := Null], pos, 1) else t[pos := Corpse]
  }

  // ----- the invariant -----

  ghost predicate HashesOk<K, V>(t: Table<K, V>) {
    forall p :: 0 <= p < |t| && t[p].Live? ==> t[p].entry.hash >= 0
  }

  /** The k-th slot before a live entry, counted from its home, is not empty. */
  ghost predicate Guarded<K, V>(t: Table<K, V>, p: nat, k: nat)
    requires p < |t| && t[p].Live? && t[p].entry.hash >= 0 && k <= |t|
  {
    !t[At(|t|, Home(|t|, t[p].entry.hash), k)].Null?
  }

  /** No empty slot lies, cyclically, between the home of a live entry and the entry. */
  ghost predicate ChainsOk<K, V>(t: Table<K, V>) {
    && HashesOk(t)
    && forall p, k ::
         0 <= p < |t| && t[p].Live? && 0 <= k < Dist(|t|, Home(|t|, t[p].entry.hash), p) ==> Guarded(t, p, k)
  }

  lemma {:induction false} RoomReached<K, V>(t: Table<K, V>, h: nat, hash: int, key: K, i: nat)
    requires h < |t| && i <= |t|
    ensures var r := FindRoom(t, h, hash, key, i);
      r.Free? ==> (forall k :: i <= k < Dist(|t|, h, r.pos) ==> t[At(|t|, h, k)].Live?)
    decreases |t| - i
  {
    hide Matches;
    if i < |t| { RoomReached(t, h, hash, key, i + 1); }
  }

  lemma InsertKeepsChains<K, V>(t: Table<K, V>, e: Entry<K, V>)
    requires |t| > 0 && e.hash >= 0 && ChainsOk(t)
    ensures ChainsOk(InsertTable(t, e))
  {
    var h, t' := Home(|t|, e.hash), InsertTable(t, e);
    RoomReached(t, h, e.hash, e.key, 0);
    hide FindRoom, Home;
    forall p, k | 0 <= p < |t| && t'[p].Live? && 0 <= k < Dist(|t|, Home(|t|, t'[p].entry.hash), p)
      ensures Guarded(t', p, k)
    {
      if t[p] == t'[p] { assert Guarded(t, p, k); }
    }
  }

  lemma NextGuarded<K, V>(t: Table<K, V>, p: nat, k: nat)
    requires ChainsOk(t) && p < |t| && t[p].Live?
    ensures var h := Home(|t|, t[p].entry.hash);
      k < Dist(|t|, h, p) ==> !t[At(|t|, h, k)].Null?
  {
    hide Home;
    assert k < Dist(|t|, Home(|t|, t[p].entry.hash), p) ==> Guarded(t, p, k);
  }

  /** A slot may be emptied when its successor is empty and it holds no live entry. */
  lemma EmptyKeepsChains<K, V>(t: Table<K, V>, q: nat)
    requires q < |t| && !t[q].Live? && t[At(|t|, q, 1)].Null? && ChainsOk(t)
    ensures ChainsOk(t[q := Null])
  {
    hide Home;
    var t' := t[q := Null];
    forall p, k | 0 <= p < |t| && t'[p].Live? && 0 <= k < Dist(|t|, Home(|t|, t'[p].entry.hash), p)
      ensures Guarded(t', p, k)
    {
      var h := Home(|t|, t[p].entry.hash);
      assert Guarded(t, p, k);
      if At(|t|, h, k) == q {
        assert At(|t|, h, k + 1) == At(|t|, q, 1);
        NextGuarded(t, p, k + 1);
      }
    }
  }

  lemma {:induction false} CleanKeepsChains<K, V>(t: Table<K, V>, pos: nat, n: nat)
    requires pos < |t| && 1 <= n <= |t| && t[Back(|t|, pos, n - 1)].Null? && ChainsOk(t)
    ensures ChainsOk(Clean(t, pos, n))
    decreases |t| - n
  {
    if n < |t| && t[Back(|t|, pos, n)].Corpse? {
      assert At(|t|, Back(|t|, pos, n), 1) == Back(|t|, pos, n - 1);
      EmptyKeepsChains(t, Back(|t|, pos, n));
      CleanKeepsChains(t[Back(|t|, pos, n) := Null], pos, n + 1);
    }
  }

  lemma RemoveKeepsChains<K, V>(t: Table<K, V>, pos: nat)
    requires pos < |t| && t[pos].Live? && ChainsOk(t)
    ensures ChainsOk(RemoveAt(t, pos))
  {
    var dead := t[pos := Corpse];
    hide Home;
    assert ChainsOk(dead) by {
      forall p, k | 0 <= p < |t| && dead[p].Live? && 0 <= k < Dist(|t|, Home(|t|, dead[p].entry.hash), p)
        ensures Guarded(dead, p, k)
      {
        assert Guarded(t, p, k);
      }
    }
    if t[At(|t|, pos, 1)].Null? {
      EmptyKeepsChains(dead, pos);
      assert dead[pos := Null] == t[pos := Null];
      CleanKeepsChains(t[pos := Null], pos, 1);
    }
  }

  // ----- what lookup finds -----

  lemma {:induction false} FindIff<K, V>(t: Table<K, V>, h: nat, hash: int, key: K, p: nat, i: nat)
    requires h < |t| && p < |t| && i <= |t|
    ensures Find(t, h, hash, key, i) == Some(p) <==>
      && i <= Dist(|t|, h, p) && Matches(t[p], hash, key)
      && (forall k :: i <= k < Dist(|t|, h, p) ==>
            t[At(|t|, h, k)].Live? && !Matches(t[At(|t|, h, k)], hash, key))
    decreases |t| - i
  {
    if i < |t| {
      FindIff(t, h, hash, key, p, i + 1);
    }
  }

  /** In a table that keeps its chains, an entry that is the first of its key from its home on is found
      exactly when no tombstone stands in the way. */
  lemma FoundIffNoTombstone<K, V>(t: Table<K, V>, p: nat)
    requires p < |t| && t[p].Live? && ChainsOk(t)
    requires var e, h := t[p].entry, Home(|t|, t[p].entry.hash);
      forall k :: 0 <= k < Dist(|t|, h, p) ==> !Matches(t[At(|t|, h, k)], e.hash, e.key)
    ensures var e, h := t[p].entry, Home(|t|, t[p].entry.hash);
      Find(t, h, e.hash, e.key, 0) == Some(p)
      <==> forall k :: 0 <= k < Dist(|t|, h, p) ==> !t[At(|t|, h, k)].Corpse?
  {
    var e, h := t[p].entry, Home(|t|, t[p].entry.hash);
    hide Home;
    FindIff(t, h, e.hash, e.key, p, 0);
    forall k | 0 <= k < Dist(|t|, h, p) ensures !t[At(|t|, h, k)].Null? {
      assert Guarded(t, p, k);
    }
  }

  /** On the way from slot h, the entry at p is the first one of this key. */
  ghost predicate FirstOnWay<K, V>(t: Table<K, V>, h: nat, key: K, p: nat)
    requires h < |t|
  {
    && p < |t| && t[p].Live? && t[p].entry.key == key
    && forall k :: 0 <= k < Dist(|t|, h, p) ==> !HoldsKey(t[At(|t|, h, k)], key)
  }

  ghost predicate HoldsKey<K, V>(s: Slot<K, V>, key: K) { s.Live? && s.entry.key == key }

  predicate TombstoneBefore<K, V>(t: Table<K, V>, h: nat, p: nat)
    requires h < |t| && p < |t|
  {
    exists k :: 0 <= k < Dist(|t|, h, p) && t[At(|t|, h, k)].Corpse?
  }

  /** A key in the table has a first entry on every way. */
  lemma HasFirst<K, V>(t: Table<K, V>, h: nat, key: K) returns (p: nat)
    requires h < |t| && HasKey(t, key)
    ensures FirstOnWay(t, h, key, p)
  {
    var q: nat :| q < |t| && t[q].Live? && t[q].entry.key == key;
    var k: nat := 0;
    while !HoldsKey(t[At(|t|, h, k)], key)
      invariant k <= Dist(|t|, h, q)
      invariant forall j :: 0 <= j < k ==> !HoldsKey(t[At(|t|, h, j)], key)
      decreases |t| - k
    {
      k := k + 1;
    }
    p := At(|t|, h, k);
    assert Dist(|t|, h, p) == k;
  }

  /** A lookup finds the first entry of its key, or nothing when a tombstone lies before that. */
  lemma FindsFirst<K, V>(t: Table<K, V>, hasher: K -> int, key: K, p: nat)
    requires |t| > 0 && hasher(key) >= 0 && ChainsOk(t) && HashedBy(t, hasher)
    requires FirstOnWay(t, Home(|t|, hasher(key)), key, p)
    ensures var h := Home(|t|, hasher(key));
      Find(t, h, hasher(key), key, 0) == if TombstoneBefore(t, h, p) then None else Some(p)
  {
    var h, f := Home(|t|, hasher(key)), Find(t, Home(|t|, hasher(key)), hasher(key), key, 0);
    hide Home;
    FoundIffNoTombstone(t, p);
    assert Matches(t[At(|t|, h, Dist(|t|, h, p))], hasher(key), key);
    if f.Some? {
      FindIff(t, h, hasher(key), key, f.value, 0);
      assert HoldsKey(t[f.value], key);
    }
  }

  /** A key that is in the table gets a second slot exactly when a tombstone lies before its first entry. */
  lemma SecondSlotIff<K, V>(t: Table<K, V>, hasher: K -> int, e: Entry<K, V>, p: nat)
    requires |t| > 0 && e.hash == hasher(e.key) >= 0 && ChainsOk(t) && HashedBy(t, hasher)
    requires FirstOnWay(t, Home(|t|, e.hash), e.key, p)
    ensures InsertRoom(t, e).Free? <==> TombstoneBefore(t, Home(|t|, e.hash), p)
  {
    var h := Home(|t|, e.hash);
    FindsFirst(t, hasher, e.key, p);
    DuplicateIsFound(t, h, e.hash, e.key, 0);
    hide Home, HashedBy, FirstOnWay;
    if InsertRoom(t, e).Full? { FullOnlyWhenFull(t, h, e.hash, e.key, 0); }
  }

  // ----- tables without tombstones refine a finite map -----

  ghost predicate UniqueKeys<K, V>(t: Table<K, V>) {
    forall p, q ::
      0 <= p < |t| && 0 <= q < |t| && t[p].Live? && t[q].Live? && t[p].entry.key == t[q].entry.key ==> p == q
  }

  ghost predicate HashedBy<K, V>(t: Table<K, V>, hasher: K -> int) {
    forall p :: 0 <= p < |t| && t[p].Live? ==> t[p].entry.hash == hasher(t[p].entry.key)
  }

  /** The live entries are exactly the pairs of m. */
  ghost predicate Represents<K, V>(t: Table<K, V>, m: map<K, V>) {
    && (forall p :: 0 <= p < |t| && t[p].Live? ==> t[p].entry.key in m && m[t[p].entry.key] == t[p].entry.value)
    && (forall k :: k in m ==> HasKey(t, k))
  }

  ghost predicate HasKey<K, V>(t: Table<K, V>, k: K) {
    exists p :: 0 <= p < |t| && t[p].Live? && t[p].entry.key == k
  }

  ghost predicate Solid<K, V>(t: Table<K, V>, hasher: K -> int) {
    && ChainsOk(t) && UniqueKeys(t) && HashedBy(t, hasher)
    && forall p :: 0 <= p < |t| ==> !t[p].Corpse?
  }

  /** Lookup in a table without tombstones is lookup in the map it represents. */
  lemma FindIsMapLookup<K, V>(t: Table<K, V>, hasher: K -> int, m: map<K, V>, key: K)
    requires |t| > 0 && hasher(key) >= 0 && Solid(t, hasher) && Represents(t, m)
    ensures var r := Find(t, Home(|t|, hasher(key)), hasher(key), key, 0);
      && (r.Some? <==> key in m)
      && (r.Some? ==> t[r.value].entry.value == m[key])
  {
    hide Home;
    if key in m {
      assert HasKey(t, key);
      var p :| 0 <= p < |t| && t[p].Live? && t[p].entry.key == key;
      FoundIffNoTombstone(t, p);
    }
  }

  /** How many entries are live. */
  function NumLive<K, V>(t: Table<K, V>): (n: nat)
    ensures n <= |t|
  {
    if t == [] then 0 else NumLive(t[..|t| - 1]) + (if t[|t| - 1].Live? then 1 else 0)
  }

  lemma {:induction false} NumLiveUpdate<K, V>(t: Table<K, V>, p: nat, s: Slot<K, V>)
    requires p < |t|
    ensures NumLive(t[p := s])
         == NumLive(t) + (if s.Live? then 1 else 0) - (if t[p].Live? then 1 else 0)
  {
    var n := |t| - 1;
    if p < n {
      NumLiveUpdate(t[..n], p, s);
      assert t[p := s][..n] == t[..n][p := s];
    } else {
      assert t[p := s][..n] == t[..n];
    }
  }

  lemma {:induction false} NumLiveFull<K, V>(t: Table<K, V>)
    requires forall p :: 0 <= p < |t| ==> t[p].Live?
    ensures NumLive(t) == |t|
  {
    if t != [] { NumLiveFull(t[..|t| - 1]); }
  }

  lemma {:induction false} FullOnlyWhenFull<K, V>(t: Table<K, V>, h: nat, hash: int, key: K, i: nat)
    requires h < |t| && i <= |t| && FindRoom(t, h, hash, key, i).Full?
    ensures forall k :: i <= k < |t| ==> t[At(|t|, h, k)].Live?
    decreases |t| - i
  {
    hide Matches;
    if i < |t| { FullOnlyWhenFull(t, h, hash, key, i + 1); }
  }

  /** While a slot is free, insertInternal never runs out of room. */
  lemma RoomLeft<K, V>(t: Table<K, V>, e: Entry<K, V>)
    requires |t| > 0 && e.hash >= 0 && NumLive(t) < |t|
    ensures !InsertRoom(t, e).Full?
  {
    var h := Home(|t|, e.hash);
    hide Home;
    if FindRoom(t, h, e.hash, e.key, 0).Full? {
      FullOnlyWhenFull(t, h, e.hash, e.key, 0);
      forall p: nat | p < |t| ensures t[p].Live? {
        assert At(|t|, h, Dist(|t|, h, p)) == p;
      }
      NumLiveFull(t);
    }
  }

  lemma {:induction false} DuplicateIsFound<K, V>(t: Table<K, V>, h: nat, hash: int, key: K, i: nat)
    requires h < |t| && i <= |t|
    ensures FindRoom(t, h, hash, key, i).Duplicate? <==> Find(t, h, hash, key, i).Some?
    decreases |t| - i
  {
    hide Matches;
    if i < |t| { DuplicateIsFound(t, h, hash, key, i + 1); }
  }

  /** A key that is not in the table gets a slot exactly when one is left. */
  lemma AbsentGetsRoom<K, V>(t: Table<K, V>, e: Entry<K, V>)
    requires |t| > 0 && e.hash >= 0 && !HasKey(t, e.key)
    ensures InsertRoom(t, e).Free? <==> NumLive(t) < |t|
  {
    var h := Home(|t|, e.hash);
    DuplicateIsFound(t, h, e.hash, e.key, 0);
    var room := InsertRoom(t, e);
    if room.Free? {
      NumLiveUpdate(t, room.pos, Live(e));
    } else if NumLive(t) < |t| {
      RoomLeft(t, e);
    }
  }

  /** Inserting into a tombstone-free table with room adds the pair, unless the key is there already. */
  lemma InsertIsMapInsert<K, V>(t: Table<K, V>, hasher: K -> int, m: map<K, V>, e: Entry<K, V>)
    requires |t| > NumLive(t) && e.hash == hasher(e.key) >= 0 && Solid(t, hasher) && Represents(t, m)
    ensures InsertRoom(t, e).Free? <==> e.key !in m
    ensures Solid(InsertTable(t, e), hasher)
    ensures Represents(InsertTable(t, e), if e.key in m then m else m[e.key := e.value])
  {
    FindIsMapLookup(t, hasher, m, e.key);
    DuplicateIsFound(t, Home(|t|, e.hash), e.hash, e.key, 0);
    RoomLeft(t, e);
    InsertKeepsChains(t, e);
    hide ChainsOk;
    if e.key !in m {
      var pos := InsertRoom(t, e).pos;
      hide InsertRoom, FindRoom, Find, Home;
      AddPair(t, m, e, pos);
    }
  }

  lemma AddPair<K, V>(t: Table<K, V>, m: map<K, V>, e: Entry<K, V>, pos: nat)
    requires pos < |t| && !t[pos].Live? && Represents(t, m) && e.key !in m
    ensures Represents(t[pos := Live(e)], m[e.key := e.value])
    ensures UniqueKeys(t) ==> UniqueKeys(t[pos := Live(e)])
  {
    var t' := t[pos := Live(e)];
    forall k | k in m[e.key := e.value] ensures HasKey(t', k) {
      if k == e.key {
        assert t'[pos].Live?;
      } else {
        assert HasKey(t, k);
        var p :| 0 <= p < |t| && t[p].Live? && t[p].entry.key == k;
        assert t'[p].Live?;
      }
    }
  }

  // ----- what unlinking leaves behind -----

  /** Emptying tombstones touches nothing else. */
  lemma {:induction false} CleanEffect<K, V>(t: Table<K, V>, pos: nat, n: nat)
    requires pos < |t| && n <= |t|
    ensures NumLive(Clean(t, pos, n)) == NumLive(t)
    ensures forall q :: 0 <= q < |t| ==>
      Clean(t, pos, n)[q] == t[q] || (t[q].Corpse? && Clean(t, pos, n)[q].Null?)
    decreases |t| - n
  {
    if n < |t| && t[Back(|t|, pos, n)].Corpse? {
      NumLiveUpdate(t, Back(|t|, pos, n), Null);
      CleanEffect(t[Back(|t|, pos, n) := Null], pos, n + 1);
    }
  }

  /** Unlinking removes that one live entry and no other. */
  lemma RemoveEffect<K, V>(t: Table<K, V>, pos: nat)
    requires pos < |t| && t[pos].Live?
    ensures var r := RemoveAt(t, pos);
      && NumLive(r) == NumLive(t) - 1 && !r[pos].Live?
      && forall q :: 0 <= q < |t| && q != pos ==> r[q] == t[q] || (t[q].Corpse? && r[q].Null?)
  {
    NumLiveUpdate(t, pos, Null);
    NumLiveUpdate(t, pos, Corpse);
    CleanEffect(t[pos := Null], pos, 1);
  }

  /** No tombstone stands right before an empty slot. */
  ghost predicate Tidy<K, V>(t: Table<K, V>) {
    forall p :: 0 <= p < |t| && t[p].Corpse? ==> !t[At(|t|, p, 1)].Null?
  }

  lemma {:induction false} CleanIsTidy<K, V>(t: Table<K, V>, pos: nat, n: nat)
    requires pos < |t| && 1 <= n <= |t| && t[pos].Null?
    requires forall p :: 0 <= p < |t| && t[p].Corpse? && p != Back(|t|, pos, n) ==> !t[At(|t|, p, 1)].Null?
    ensures Tidy(Clean(t, pos, n))
    decreases |t| - n
  {
    var q := Back(|t|, pos, n);
    if n < |t| && t[q].Corpse? {
      assert forall p :: 0 <= p < |t| && p != Back(|t|, pos, n + 1) ==> At(|t|, p, 1) != q;
      CleanIsTidy(t[q := Null], pos, n + 1);
    }
  }

  /** The backward clean-up leaves no tombstone that lookups could do without. */
  lemma RemoveIsTidy<K, V>(t: Table<K, V>, pos: nat)
    requires pos < |t| && t[pos].Live? && Tidy(t)
    ensures Tidy(RemoveAt(t, pos))
  {
    if t[At(|t|, pos, 1)].Null? {
      assert forall p :: 0 <= p < |t| && p != Back(|t|, pos, 1) ==> At(|t|, p, 1) != pos;
      CleanIsTidy(t[pos := Null], pos, 1);
    }
  }
}
