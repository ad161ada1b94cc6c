/** Which block is where: every locked region of the mailbox system as a step on block lists. */
module MailboxHeap {
  import opened MailboxSpec
  import M = MemBlockPool

  /** Blocks count here only by their identity. */
  type Block = M.MemBlock

  /** A pool's free list, a worker's queue, the batch it took, the message in its hand, the copy it is forwarding,
      or a block that some thread is filling in PushMsg. */
  datatype Place = Free(pool: nat) | Queue(worker: nat) | Batch(worker: nat) | Hand(worker: nat)
                 | Copy(worker: nat) | Out(thread: nat)

  /** What a block holds: the size field, and the message with its address and its ticket. */
  datatype Cell = Cell(capacity: nat, size: nat, dest: nat, letter: Letter, ticket: nat)

  /** `place` records where each block went; `mem` holds the blocks not given back to the system. */
  datatype Heap = Heap(lists: map<Place, seq<Block>>, place: map<Block, Place>, mem: map<Block, Cell>)

  function At(h: Heap, l: Place): seq<Block> {
    if l in h.lists then h.lists[l] else []
  }

  // ----- invariants -----

  /** A list without repetitions of just these blocks. */
  ghost predicate Holds(s: seq<Block>, blocks: set<Block>) {
    && (forall b :: b in s ==> b in blocks) && (forall b :: b in blocks ==> b in s)
    && (forall i, j :: 0 <= i < j < |s| ==> s[i] != s[j])
  }

  ghost function Located(h: Heap, l: Place): set<Block> {
    set b | b in h.place && h.place[b] == l
  }

  ghost predicate Owned(h: Heap) {
    h.place.Keys == h.mem.Keys && forall l :: Holds(At(h, l), Located(h, l))
  }

  /** The size field is right; a pooled block has its pool's capacity, and its size field leads back to that pool. */
  predicate Fits(c: Cell) {
    && c.size == BlockSize(c.letter) && c.size <= c.capacity
    && (c.size <= MAX_POOL_SIZE ==> c.capacity == PoolSize(ClassOf(c.size)))
  }

  ghost predicate Sized(h: Heap)
    requires h.place.Keys == h.mem.Keys
  {
    forall b :: b in h.mem ==>
      && Fits(h.mem[b])
      && (h.place[b].Free? ==> h.mem[b].size <= MAX_POOL_SIZE && h.place[b].pool == ClassOf(h.mem[b].size))
  }

  ghost predicate HeapOk(h: Heap) { Owned(h) && Sized(h) }

  lemma Member(h: Heap, l: Place, i: nat)
    requires Owned(h) && i < |At(h, l)|
    ensures At(h, l)[i] in h.mem && h.place[At(h, l)[i]] == l
  {
    assert Holds(At(h, l), Located(h, l));
    assert At(h, l)[i] in Located(h, l);
  }

  lemma IsListed(h: Heap, b: Block)
    requires Owned(h) && b in h.mem
    ensures b in At(h, h.place[b])
  {
    assert Holds(At(h, h.place[b]), Located(h, h.place[b]));
    assert b in Located(h, h.place[b]);
  }

  lemma NoneThere(h: Heap, l: Place)
    requires Owned(h) && At(h, l) == []
    ensures forall b :: b in h.place ==> h.place[b] != l
  {
    forall b | b in h.place ensures h.place[b] != l { IsListed(h, b); }
  }

  /** Every block is in exactly one place, once. */
  lemma ExactlyOnePlace(h: Heap)
    requires Owned(h)
    ensures forall b :: b in h.mem ==> exists l :: b in At(h, l)
    ensures forall l, i :: 0 <= i < |At(h, l)| ==> At(h, l)[i] in h.mem
    ensures forall l, k, i, j :: 0 <= i < |At(h, l)| && 0 <= j < |At(h, k)| && At(h, l)[i] == At(h, k)[j]
              ==> l == k && i == j
  {
    forall b | b in h.mem ensures exists l :: b in At(h, l) {
      IsListed(h, b);
    }
    forall l, i | 0 <= i < |At(h, l)| ensures At(h, l)[i] in h.mem { Member(h, l, i); }
    forall l, k, i, j | 0 <= i < |At(h, l)| && 0 <= j < |At(h, k)| && At(h, l)[i] == At(h, k)[j]
      ensures l == k && i == j
    {
      Member(h, l, i);
      Member(h, k, j);
      assert Holds(At(h, l), Located(h, l));
    }
  }

  // ----- the locked regions -----

  /** Where Alloc gets a block from; nowhere when malloc fails. */
  datatype Source = FromPool | FromSystem(b: Block) | Nothing

  /** The pool for this size has a free block. */
  predicate Stocked(h: Heap, size: nat) {
    size <= MAX_POOL_SIZE && At(h, Free(ClassOf(size))) != []
  }

  /** Alloc asks the system only when it has met an empty list. The step of a request that malloc refuses is the
      moment it met that list; a request that malloc serves may find blocks freed meanwhile. */
  predicate CanAcquire(h: Heap, src: Source, size: nat) {
    match src
    case FromPool => Stocked(h, size)
    case FromSystem(b) => b !in h.mem
    case Nothing => !Stocked(h, size)
  }

  function Acquired(h: Heap, src: Source, size: nat): Block
    requires CanAcquire(h, src, size) && src != Nothing
  {
    if src.FromPool? then At(h, Free(ClassOf(size)))[0] else src.b
  }

  /** AllocMsgBlock, and the message copied in. */
  function Acquire(h: Heap, src: Source, to: Place, c: Cell): Heap
    requires CanAcquire(h, src, c.size) && src != Nothing && Owned(h)
  {
    var b := Acquired(h, src, c.size);
    if src.FromPool? then
      var p := Free(ClassOf(c.size));
      Member(h, p, 0);
      Heap(h.lists[p := At(h, p)[1..]][to := At(h, to) + [b]], h.place[b := to],
           h.mem[b := c.(capacity := h.mem[b].capacity)])
    else
      Heap(h.lists[to := At(h, to) + [b]], h.place[b := to],
           h.mem[b := c.(capacity := if c.size <= MAX_POOL_SIZE then PoolSize(ClassOf(c.size)) else c.size)])
  }

  /** Pop from one list and push behind another. */
  function Relocate(h: Heap, from: Place, to: Place): Heap
    requires At(h, from) != []
  {
    var b := At(h, from)[0];
    h.(lists := h.lists[from := At(h, from)[1..]][to := At(h, to) + [b]], place := h.place[b := to])
  }

  /** FreeMsgBlock on the first block of a list. */
  function Release(h: Heap, from: Place): Heap
    requires At(h, from) != [] && Owned(h)
  {
    Member(h, from, 0);
    var b := At(h, from)[0];
    var c := h.mem[b];
    if c.size <= MAX_POOL_SIZE then
      var p := Free(ClassOf(c.size));
      h.(lists := h.lists[from := At(h, from)[1..]][p := [b] + At(h, p)], place := h.place[b := p])
    else
      Heap(h.lists[from := At(h, from)[1..]], h.place - {b}, h.mem - {b})
  }

  /** GetMsgQueue: the whole list at once. */
  function TakeAll(h: Heap, from: Place, to: Place): Heap {
    h.(lists := h.lists[from := []][to := At(h, from)],
       place := map b | b in h.place :: if h.place[b] == from then to else h.place[b])
  }

  // ----- what they keep -----

  lemma HoldsTail(s: seq<Block>, blocks: set<Block>)
    requires Holds(s, blocks) && s != []
    ensures Holds(s[1..], blocks - {s[0]}) && s[0] in blocks
  {
    assert s == [s[0]] + s[1..];
  }

  lemma HoldsPush(s: seq<Block>, blocks: set<Block>, b: Block)
    requires Holds(s, blocks) && b !in blocks
    ensures Holds(s + [b], blocks + {b}) && Holds([b] + s, blocks + {b})
  {
  }

  /** One block left `from` and came to `to`; no other list changed. */
  lemma MovedKeepsOwned(h: Heap, h': Heap, from: Place, to: Place)
    requires Owned(h) && At(h, from) != [] && from != to
    requires h'.place == h.place[At(h, from)[0] := to] && h'.mem.Keys == h.mem.Keys
    requires At(h', from) == At(h, from)[1..]
    requires At(h', to) == At(h, to) + [At(h, from)[0]] || At(h', to) == [At(h, from)[0]] + At(h, to)
    requires forall l :: l != from && l != to ==> At(h', l) == At(h, l)
    ensures Owned(h')
  {
    var b := At(h, from)[0];
    Member(h, from, 0);
    forall l ensures Holds(At(h', l), Located(h', l)) {
      assert Holds(At(h, l), Located(h, l));
      if l == from {
        HoldsTail(At(h, l), Located(h, l));
        assert Located(h', l) == Located(h, l) - {b};
      } else if l == to {
        HoldsPush(At(h, l), Located(h, l), b);
        assert Located(h', l) == Located(h, l) + {b};
      } else {
        assert Located(h', l) == Located(h, l);
      }
    }
  }

  lemma AcquireKeepsOwned(h: Heap, src: Source, to: Place, c: Cell)
    requires Owned(h) && CanAcquire(h, src, c.size) && src != Nothing && !to.Free?
    ensures Owned(Acquire(h, src, to, c))
  {
    hide ClassOf, PoolSize;
    var h' := Acquire(h, src, to, c);
    if src.FromPool? {
      Member(h, Free(ClassOf(c.size)), 0);
      MovedKeepsOwned(h, h', Free(ClassOf(c.size)), to);
    } else {
      forall l ensures Holds(At(h', l), Located(h', l)) {
        assert Holds(At(h, l), Located(h, l));
        if l == to {
          HoldsPush(At(h, l), Located(h, l), src.b);
          assert Located(h', l) == Located(h, l) + {src.b};
        } else {
          assert Located(h', l) == Located(h, l);
        }
      }
    }
  }

  lemma AcquireKeepsHeap(h: Heap, src: Source, to: Place, c: Cell)
    requires c.size == BlockSize(c.letter)
    requires HeapOk(h) && CanAcquire(h, src, c.size) && src != Nothing && !to.Free?
    ensures HeapOk(Acquire(h, src, to, c))
  {
    AcquireKeepsOwned(h, src, to, c);
    if c.size <= MAX_POOL_SIZE { SmallestThatFits(c.size); }
    if src.FromPool? { Member(h, Free(ClassOf(c.size)), 0); }
    hide ClassOf, PoolSize, Holds, Located;
  }

  lemma RelocateKeepsHeap(h: Heap, from: Place, to: Place)
    requires HeapOk(h) && At(h, from) != [] && from != to && !to.Free?
    ensures HeapOk(Relocate(h, from, to))
  {
    Member(h, from, 0);
    hide ClassOf, PoolSize, Holds, Located;
    MovedKeepsOwned(h, Relocate(h, from, to), from, to);
  }

  lemma ReleaseKeepsHeap(h: Heap, from: Place)
    requires HeapOk(h) && At(h, from) != [] && !from.Free?
    ensures HeapOk(Release(h, from))
  {
    var b, h' := At(h, from)[0], Release(h, from);
    Member(h, from, 0);
    hide ClassOf, PoolSize;
    if h.mem[b].size <= MAX_POOL_SIZE {
      hide Holds, Located;
      MovedKeepsOwned(h, h', from, Free(ClassOf(h.mem[b].size)));
    } else {
      forall l ensures Holds(At(h', l), Located(h', l)) {
        assert Holds(At(h, l), Located(h, l));
        if l == from {
          HoldsTail(At(h, l), Located(h, l));
          assert Located(h', l) == Located(h, l) - {b};
        } else {
          assert Located(h', l) == Located(h, l);
        }
      }
    }
  }

  lemma TakeAllKeepsHeap(h: Heap, from: Place, to: Place)
    requires HeapOk(h) && At(h, to) == [] && from != to && !to.Free?
    ensures HeapOk(TakeAll(h, from, to))
  {
    hide ClassOf, PoolSize;
    var h' := TakeAll(h, from, to);
    NoneThere(h, to);
    forall l ensures Holds(At(h', l), Located(h', l)) {
      assert Holds(At(h, l), Located(h, l));
      if l == from {
        assert Located(h', l) == {};
      } else if l == to {
        assert Holds(At(h, from), Located(h, from));
        assert Located(h', l) == Located(h, from);
      } else {
        assert Located(h', l) == Located(h, l);
      }
    }
  }

  // ----- the same regions, as what they change outside the free lists -----

  /** Block b appeared at the end of `to` with content c. */
  ghost predicate Arrives(h: Heap, h': Heap, b: Block, to: Place, c: Cell) {
    && h.place.Keys == h.mem.Keys && h'.place.Keys == h'.mem.Keys == h.mem.Keys + {b}
    && h'.place[b] == to && h'.mem[b] == c.(capacity := h'.mem[b].capacity)
    && (b in h.mem ==> h.place[b].Free?)
    && (forall x :: x in h.mem && x != b ==> h'.mem[x] == h.mem[x] && h'.place[x] == h.place[x])
    && At(h', to) == At(h, to) + [b]
    && (forall l: Place :: !l.Free? && l != to ==> At(h', l) == At(h, l))
  }

  /** Block b went from the front of one list to the end of another. */
  ghost predicate Moves(h: Heap, h': Heap, b: Block, from: Place, to: Place) {
    && h.place.Keys == h.mem.Keys && b in h.mem && h.place[b] == from && from != to
    && h'.mem == h.mem && h'.place == h.place[b := to]
    && At(h, from) != [] && At(h, from)[0] == b && At(h', from) == At(h, from)[1..] && At(h', to) == At(h, to) + [b]
    && (forall l :: l != from && l != to ==> At(h', l) == At(h, l))
  }

  /** Block b left the front of a list for a free list or for the system. */
  ghost predicate Leaves(h: Heap, h': Heap, b: Block, from: Place) {
    && h.place.Keys == h.mem.Keys && h'.place.Keys == h'.mem.Keys && b in h.mem && h.place[b] == from
    && (h'.mem == h.mem || h'.mem == h.mem - {b})
    && (b in h'.mem ==> h'.place[b].Free?)
    && (forall x :: x in h.mem && x != b ==> h'.place[x] == h.place[x])
    && At(h, from) != [] && At(h, from)[0] == b && At(h', from) == At(h, from)[1..]
    && (forall l: Place :: !l.Free? && l != from ==> At(h', l) == At(h, l))
  }

  lemma AcquireArrives(h: Heap, src: Source, to: Place, c: Cell)
    requires c.size == BlockSize(c.letter)
    requires HeapOk(h) && CanAcquire(h, src, c.size) && src != Nothing && !to.Free?
    ensures Arrives(h, Acquire(h, src, to, c), Acquired(h, src, c.size), to, c)
    ensures HeapOk(Acquire(h, src, to, c))
  {
    AcquireKeepsHeap(h, src, to, c);
    if src.FromPool? { Member(h, Free(ClassOf(c.size)), 0); }
    hide ClassOf, PoolSize, Holds, Located, Sized;
  }

  lemma RelocateMoves(h: Heap, from: Place, to: Place)
    requires HeapOk(h) && At(h, from) != [] && from != to && !to.Free?
    ensures Moves(h, Relocate(h, from, to), At(h, from)[0], from, to)
    ensures HeapOk(Relocate(h, from, to))
  {
    RelocateKeepsHeap(h, from, to);
    Member(h, from, 0);
    hide Holds, Located, Sized;
  }

  lemma ReleaseLeaves(h: Heap, from: Place)
    requires HeapOk(h) && At(h, from) != [] && !from.Free?
    ensures Leaves(h, Release(h, from), At(h, from)[0], from)
    ensures HeapOk(Release(h, from))
  {
    ReleaseKeepsHeap(h, from);
    Member(h, from, 0);
    hide Holds, Located, Sized, ClassOf, PoolSize;
  }
}
