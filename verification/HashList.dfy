/** HashList: open addressing with linear probing, in place. */
module HashList {
  import opened Common
  import opened HashTable
  import opened HashHistory

  class List<K(==), V> {
    const hasher: K -> int
    var entries: array<Slot<K, V>>   // _entryList; empty while the pointer is NULL
    var count: int

    constructor (hasher: K -> int)
      ensures this.hasher == hasher && fresh(entries) && Now() == Initial() && Inv(Now())
    {
      this.hasher := hasher;
      entries := new Slot<K, V>[0];
      count := 0;
      new;
      assert entries[..] == [];
    }

    ghost function Now(): State<K, V>
      reads this, entries
    {
      State(entries[..], count)
    }

    /** The slot a probe starts at: hash % _capacity. */
    function Start(hash: int): (h: nat)
      requires entries.Length > 0 && hash >= 0
      reads this, entries
      ensures h < entries.Length && h == Home(entries.Length, hash)
    {
      hash % entries.Length
    }

    function Next(pos: nat): nat
      requires pos < entries.Length
      reads this, entries
      ensures Next(pos) == At(entries.Length, pos, 1)
    {
      if pos + 1 == entries.Length then 0 else pos + 1
    }

    /** insertInternal */
    method InsertInternal(e: Entry<K, V>) returns (ok: bool)
      requires entries.Length > 0 && e.hash >= 0
      modifies this`count, entries
      ensures Now() == old(Put(Now(), e)) && ok == old(InsertRoom(Now().t, e).Free?)
    {
      hide Home, Matches;
      ghost var t, h := entries[..], Home(entries.Length, e.hash);
      var pos := Start(e.hash);
      for i := 0 to entries.Length
        invariant pos == At(entries.Length, h, i)
        invariant FindRoom(t, h, e.hash, e.key, i) == FindRoom(t, h, e.hash, e.key, 0)
        invariant Now() == old(Now())
      {
        var entry := entries[pos];
        if entry.Null? || entry.Corpse? {
          entries[pos] := Live(e);
          count := count + 1;
          return true;
        }
        if Matches(entry, e.hash, e.key) {
          return false;
        }
        pos := Next(pos);
      }
      return false;
    }

    /** checkupSpace */
    method CheckupSpace()
      requires Inv(Now()) && CanGrow(Now())
      modifies this, entries
      ensures Now() == old(Checkup(Now()))
      ensures entries == old(entries) || fresh(entries)
    {
      hide InsertRoom, InsertTable;
      if count + count / 4 >= entries.Length {
        var i := 0;
        while STEPS[i] <= entries.Length
          invariant 0 <= i < |STEPS|
          invariant NextStep(entries.Length, i) == NextStep(entries.Length, 0)
          decreases |STEPS| - i
        {
          i := i + 1;
        }
        var oldEntry := entries;
        entries := new Slot<K, V>[STEPS[i]](_ => Null);
        count := 0;
        ghost var t := oldEntry[..];
        assert entries[..] == EmptyTable(NextStep(|t|, 0));
        i := 0;
        while i < oldEntry.Length
          invariant 0 <= i <= oldEntry.Length && fresh(entries) && oldEntry != entries && entries.Length > 0
          invariant oldEntry[..] == t
          invariant Rehash(t, i, Now()) == old(Checkup(Now()))
        {
          var entry := oldEntry[i];
          if !(entry.Null? || entry.Corpse?) {
            var _ := InsertInternal(entry.entry);
          }
          i := i + 1;
        }
      }
    }

    /** insert */
    method Insert(key: K, value: V) returns (ok: bool)
      requires Inv(Now()) && CanGrow(Now()) && hasher(key) >= 0
      modifies this, entries
      ensures entries == old(entries) || fresh(entries)
      ensures (Now(), ok) == old(Step(Now(), Op.Insert(key, value), hasher))
      ensures Inv(Now())
    {
      StepKeepsInv(Now(), Op.Insert(key, value), hasher);
      hide Checkup, Put, InsertRoom, Inv;
      CheckupSpace();
      ok := InsertInternal(Entry(hasher(key), key, value));
    }

    /** The probing loop that remove and take share; on a tombstone it does not move. */
    method Probe(key: K) returns (found: bool, pos: nat)
      requires entries.Length > 0 && hasher(key) >= 0
      ensures var f := Find(entries[..], Home(entries.Length, hasher(key)), hasher(key), key, 0);
        && found == f.Some?
        && (found ==> pos == f.value)
    {
      hide Home, Matches;
      var hash := hasher(key);
      ghost var t, h := entries[..], Home(entries.Length, hash);
      pos := Start(hash);
      ghost var steps := 0;
      for i := 0 to entries.Length
        invariant pos < entries.Length && steps <= i
        invariant if Find(t, h, hash, key, 0).None? && entries[pos].Corpse? then true
          else steps == i && pos == At(entries.Length, h, i)
               && Find(t, h, hash, key, i) == Find(t, h, hash, key, 0)
      {
        var entry := entries[pos];
        if entry.Null? { return false, pos; }
        if entry.Corpse? { continue; }
        if Matches(entry, hash, key) { return true, pos; }
        pos := Next(pos);
        steps := steps + 1;
      }
      found := false;
    }

    /** The unlinking code that remove and take share. */
    method Unlink(at: nat)
      requires at < entries.Length && entries[at].Live?
      modifies entries
      ensures entries[..] == old(RemoveAt(entries[..], at))
    {
      var pos := at;
      if entries[Next(pos)].Null? {
        entries[pos] := Null;
        assert entries[..] == old(entries[..])[at := Null];
        ghost var n := 1;
        pos := if pos == 0 then entries.Length - 1 else pos - 1;
        while entries[pos].Corpse?
          invariant 1 <= n <= entries.Length && pos == Back(entries.Length, at, n)
          invariant entries[at].Null?
          invariant Clean(entries[..], at, n) == old(RemoveAt(entries[..], at))
          decreases entries.Length - n
        {
          ghost var before := entries[..];
          entries[pos] := Null;
          assert entries[..] == before[pos := Null];
          pos := if pos == 0 then entries.Length - 1 else pos - 1;
          n := n + 1;
        }
      } else {
        entries[pos] := Corpse;
      }
    }

    /** remove */
    method Remove(key: K) returns (ok: bool)
      requires Inv(Now()) && entries.Length > 0 && hasher(key) >= 0
      modifies this`count, entries
      ensures (Now(), ok) == old(Step(Now(), Op.Remove(key), hasher))
      ensures Inv(Now())
    {
      StepKeepsInv(Now(), Op.Remove(key), hasher);
      hide Inv, RemoveAt;
      var found, pos := Probe(key);
      if !found { return false; }
      count := count - 1;
      Unlink(pos);
      return true;
    }

    /** take: the value, and on request the same unlinking as remove but with the counter lowered twice. */
    method Take(key: K, remove: bool) returns (ok: bool, val: Option<V>)
      requires Inv(Now()) && entries.Length > 0 && hasher(key) >= 0
      modifies this`count, entries
      ensures (Now(), ok) == old(Step(Now(), Op.Take(key, remove), hasher))
      ensures Inv(Now())
      ensures var f := old(Find(entries[..], Home(entries.Length, hasher(key)), hasher(key), key, 0));
        val == if f.Some? then Some(old(entries[..])[f.value].entry.value) else None
    {
      StepKeepsInv(Now(), Op.Take(key, remove), hasher);
      hide Inv, RemoveAt;
      var found, pos := Probe(key);
      if !found { return false, None; }
      val := Some(entries[pos].entry.value);
      if remove {
        count := count - 1;
        Unlink(pos);
        count := count - 1;
      }
      ok := true;
    }
  }
}
