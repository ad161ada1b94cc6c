/** GlobalObject: the pools and the workers' queues, each locked region a step of the mailbox runs. */
module GlobalObject {
  import opened MailboxSpec
  import opened MailboxHeap
  import opened MailboxRuns
  import M = MemBlockPool

  /** On whose behalf PushMsg works: a sending thread, or a worker that forwards. */
  datatype Pusher = Sender(thread: nat) | Forwarder(worker: nat)

  function Spot(me: Pusher): Place {
    match me
    case Sender(t) => Out(t)
    case Forwarder(w) => Copy(w)
  }

  function PushStep(me: Pusher, m: Letter, dest: nat, src: Source): Step {
    match me
    case Sender(t) => Send(t, m, dest, src)
    case Forwarder(w) => MakeCopy(w, src)
  }

  function QueueStep(me: Pusher): Step {
    match me
    case Sender(t) => Enqueue(t)
    case Forwarder(w) => Deliver(w)
  }

  /** The block's fields are what the runs say they are. */
  ghost predicate Stores(b: M.MemBlock, c: Cell)
    reads b
  {
    b.capacity == c.capacity && b.size == c.size && b.dest == c.dest && b.letter == c.letter
  }

  ghost predicate EmptyPool(p: M.MemBlockPool, size: nat)
    reads p, p.Blocks
  {
    p.size == size && p.Blocks == [] && p.Valid()
  }

  method NewPool(size: nat) returns (p: M.MemBlockPool)
    ensures fresh(p) && EmptyPool(p, size)
  {
    p := new M.MemBlockPool(size);
  }

  class GlobalObject {
    const pools: array<M.MemBlockPool?>
    const queues: array<seq<M.MemBlock>>
    var maxPoolSize: nat
    ghost var state: State

    ghost function PoolObjects(): set<M.MemBlockPool>
      reads pools
    {
      set i | 0 <= i < pools.Length && pools[i] != null :: pools[i]
    }

    ghost function Repr(): set<object>
      reads this, pools
    {
      {this, pools, queues} + PoolObjects() + state.heap.mem.Keys
    }

    /** The pools hold the free lists of h, except that pool c holds `rest`. */
    ghost predicate PoolsHold(h: Heap, c: nat, rest: seq<Block>)
      reads pools, PoolObjects(), h.mem.Keys`next
    {
      && pools.Length == MEMPOOL_NUM
      && (forall i :: 0 <= i < MEMPOOL_NUM ==>
            && pools[i] != null && pools[i].size == PoolSize(i)
            && (forall b :: b in pools[i].Blocks ==> b in h.mem)
            && pools[i].Valid() && pools[i].Blocks == if i == c then rest else At(h, Free(i)))
      && (forall i, j :: 0 <= i < j < MEMPOOL_NUM ==> pools[i] != pools[j])
    }

    ghost predicate QueuesHold(h: Heap)
      reads queues
    {
      queues.Length == MAX_THREAD_NUM && forall w :: 0 <= w < MAX_THREAD_NUM ==> queues[w] == At(h, Queue(w))
    }

    ghost predicate Valid()
      reads Repr()
    {
      && Inv(state) && maxPoolSize == MAX_POOL_SIZE
      && PoolsHold(state.heap, MEMPOOL_NUM, []) && QueuesHold(state.heap)
      && (forall b :: b in state.heap.mem ==> Stores(b, state.heap.mem[b]))
    }

    constructor (ghost handlers: set<(nat, nat)>)
      ensures fresh(pools) && fresh(queues) && pools.Length == MEMPOOL_NUM && queues.Length == MAX_THREAD_NUM
      ensures forall i :: 0 <= i < MEMPOOL_NUM ==> pools[i] == null
      ensures forall w :: 0 <= w < MAX_THREAD_NUM ==> queues[w] == []
      ensures maxPoolSize == 0 && state == Start(handlers)
    {
      pools := new M.MemBlockPool?[MEMPOOL_NUM](_ => null);
      queues := new seq<M.MemBlock>[MAX_THREAD_NUM](_ => []);
      maxPoolSize := 0;
      state := Start(handlers);
    }

    method Init(ghost handlers: set<(nat, nat)>)
      requires pools.Length == MEMPOOL_NUM && queues.Length == MAX_THREAD_NUM && state == Start(handlers)
      requires forall w :: 0 <= w < MAX_THREAD_NUM ==> queues[w] == []
      modifies this`maxPoolSize, pools
      ensures Valid() && fresh(Repr() - {this, pools, queues})
    {
      hide Start, M.MemBlockPool.Valid, Inv, EmptyPool, PoolSize, GlobalObject.PoolsHold;
      PoolSizes(0);
      var size := MIN_MEMBLOCK_SIZE;
      for i := 0 to MEMPOOL_NUM
        invariant size == PoolSize(i) && (i > 0 ==> maxPoolSize == PoolSize(i - 1))
        invariant forall j :: 0 <= j < i ==> pools[j] != null && fresh(pools[j]) && EmptyPool(pools[j], PoolSize(j))
        invariant forall j, k :: 0 <= j < k < i ==> pools[j] != pools[k]
      {
        PoolSizes(i);
        maxPoolSize := size;
        pools[i] := NewPool(size);
        size := size * 2;
      }
      LargestPool();
      StartIsEmpty(handlers);
      ReadyIsValid(handlers);
    }

    lemma ReadyIsValid(handlers: set<(nat, nat)>)
      requires pools.Length == MEMPOOL_NUM && queues.Length == MAX_THREAD_NUM && state == Start(handlers)
      requires maxPoolSize == MAX_POOL_SIZE
      requires forall w :: 0 <= w < MAX_THREAD_NUM ==> queues[w] == []
      requires forall i :: 0 <= i < MEMPOOL_NUM ==> pools[i] != null && EmptyPool(pools[i], PoolSize(i))
      requires forall i, j :: 0 <= i < j < MEMPOOL_NUM ==> pools[i] != pools[j]
      ensures Valid()
    {
      StartIsOk(handlers);
      StartIsEmpty(handlers);
      hide Inv, Start, At, PoolSize;
    }

    /** What AllocMsgBlock may write: the pool of this size and the block it takes from it. */
    ghost function AllocFrame(size: nat): (r: set<object>)
      reads Repr()
      ensures r <= Repr()
    {
      if Valid() && size <= MAX_POOL_SIZE then
        SmallestThatFits(size);
        var p := pools[ClassOf(size)];
        {p} + (if p.Blocks == [] then {} else {p.Blocks[0]})
      else {}
    }

    method AllocMsgBlock(request: nat, memory: bool) returns (b: M.MemBlock?, ghost src: Source)
      requires Valid()
      modifies AllocFrame(request + SIZE_FIELD)
      ensures unchanged(this) && unchanged(pools) && unchanged(queues)
      ensures b == null <==> !memory && !Stocked(state.heap, request + SIZE_FIELD)
      ensures src == if Stocked(state.heap, request + SIZE_FIELD) then FromPool
                     else if b != null then FromSystem(b) else Nothing
      ensures b == null ==> Valid()
      ensures b != null ==> src != Nothing && Obtained(b, request + SIZE_FIELD, src) && b.size == request + SIZE_FIELD
      ensures src.FromSystem? ==> fresh(b)
      ensures src.FromPool? ==> b in state.heap.mem
      ensures b != null ==> forall x :: x in state.heap.mem && x != b ==> Stores(x, state.heap.mem[x])
    {
      var size := request + SIZE_FIELD;
      hide Inv, PoolSize, ClassOf, M.MemBlockPool.Valid, At, CanAcquire, Acquired;
      if size > maxPoolSize {
        if !memory { return null, Nothing; }
        b := new M.MemBlock(size);
        src := FromSystem(b);
        NewIsObtained(b, size);
      } else {
        SmallestThatFits(size);
        b, src := TakeFromPool(size, memory);
      }
      if b == null { return null, Nothing; }
      b.size := size;
    }

    lemma NewIsObtained(b: M.MemBlock, size: nat)
      requires Valid() && b !in state.heap.mem
      requires b.capacity == if size <= MAX_POOL_SIZE then PoolSize(ClassOf(size)) else size
      ensures Obtained(b, size, FromSystem(b))
    {
      hide Inv, PoolSize, ClassOf, M.MemBlockPool.Valid, At;
    }

    /** The branch of AllocMsgBlock that uses a pool. */
    method TakeFromPool(size: nat, memory: bool) returns (b: M.MemBlock?, ghost src: Source)
      requires Valid() && size <= MAX_POOL_SIZE
      modifies pools[ClassOf(size)]
      ensures b == null <==> !memory && !Stocked(state.heap, size)
      ensures src == if Stocked(state.heap, size) then FromPool else if b != null then FromSystem(b) else Nothing
      ensures b == null ==> Valid()
      ensures b != null ==> src != Nothing && Obtained(b, size, src)
      ensures src.FromSystem? ==> fresh(b)
      ensures src.FromPool? ==> b in old(AllocFrame(size))
      ensures unchanged(this) && unchanged(pools) && unchanged(queues)
      ensures b != null ==> forall x :: x in state.heap.mem ==> Stores(x, state.heap.mem[x])
    {
      hide Inv, PoolSize, ClassOf, M.MemBlockPool.Valid, At;
      src := Nothing;
      var index := FindPool(size);
      if pools[index].Blocks != [] {
        HeadIsNowhereElse(state, index);
        src := FromPool;
      }
      b := pools[index].Alloc(memory);
      if src == Nothing && b != null { src := FromSystem(b); }
    }

    /** A block for this size has been taken out, but the runs do not know of it yet. */
    ghost predicate Obtained(b: M.MemBlock, size: nat, src: Source)
      requires src != Nothing
      reads this, pools, PoolObjects(), state.heap.mem.Keys`next
    {
      && Inv(state) && CanAcquire(state.heap, src, size) && b == Acquired(state.heap, src, size)
      && maxPoolSize == MAX_POOL_SIZE
      && (if src.FromPool? then
            && b in state.heap.mem && b.capacity == state.heap.mem[b].capacity
            && PoolsHold(state.heap, ClassOf(size), At(state.heap, Free(ClassOf(size)))[1..])
          else
            && b.capacity == (if size <= MAX_POOL_SIZE then PoolSize(ClassOf(size)) else size)
            && PoolsHold(state.heap, MEMPOOL_NUM, []))
      && (forall i :: 0 <= i < MEMPOOL_NUM ==> b !in pools[i].Blocks)
    }

    method PushMsg(me: Pusher, m: Letter, dest: nat, memory: bool) returns (ghost ok: bool, ghost src: Source)
      requires Valid() && MayPush(state, me, m, dest)
      modifies Repr()
      ensures Valid() && fresh(Repr() - old(Repr()))
      ensures Enabled(old(state), PushStep(me, m, dest, src)) && (ok <==> src != Nothing)
      ensures !ok ==> state == Next(old(state), PushStep(me, m, dest, src))
      ensures ok ==> var s := Next(old(state), PushStep(me, m, dest, src));
        Inv(s) && Enabled(s, QueueStep(me)) && state == Next(s, QueueStep(me))
      ensures ok <==> dest < MAX_THREAD_NUM && (memory || Stocked(old(state).heap, BlockSize(m)))
    {
      hide Inv, Next, Enabled, At, PoolSize, ClassOf, MayPush, M.MemBlockPool.Valid, GlobalObject.Obtained,
        GlobalObject.PoolsHold, GlobalObject.QueuesHold, Stocked;
      ok, src := false, Nothing;
      if dest >= MAX_THREAD_NUM {
        Fail(me, m, dest);
        return;
      }
      var b;
      b, src := AllocMsgBlock(m.header + |m.body|, memory);
      if b == null {
        Fail(me, m, dest);
        return;
      }
      Deposit(me, m, dest, b, src);
      ok := true;
    }

    /** The last lines of PushMsg: the block is filled and queued. */
    method Deposit(me: Pusher, m: Letter, dest: nat, b: M.MemBlock, ghost src: Source)
      requires Inv(state) && MayPush(state, me, m, dest) && dest < MAX_THREAD_NUM && QueuesHold(state.heap)
      requires src != Nothing && Obtained(b, BlockSize(m), src) && b.size == BlockSize(m)
      requires forall x :: x in state.heap.mem && x != b ==> Stores(x, state.heap.mem[x])
      modifies this`state, queues, b`dest, b`letter
      ensures Valid() && Repr() == old(Repr()) + {b}
      ensures Enabled(old(state), PushStep(me, m, dest, src))
      ensures var s := Next(old(state), PushStep(me, m, dest, src));
        Inv(s) && Enabled(s, QueueStep(me)) && state == Next(s, QueueStep(me))
    {
      hide Inv, Next, Enabled, At, PoolSize, ClassOf, MayPush, M.MemBlockPool.Valid, Owned, CanAcquire, Acquired;
      b.dest := dest;
      b.letter := m;
      queues[dest] := queues[dest] + [b];
      Register(me, m, dest, src, b);
    }

    /** The runs take note of a block that is filled and queued. */
    ghost method Register(me: Pusher, m: Letter, dest: nat, src: Source, b: M.MemBlock)
      requires Inv(state) && MayPush(state, me, m, dest) && dest < MAX_THREAD_NUM
      requires src != Nothing && Obtained(b, BlockSize(m), src)
      requires b.size == BlockSize(m) && b.dest == dest && b.letter == m
      requires forall x :: x in state.heap.mem && x != b ==> Stores(x, state.heap.mem[x])
      requires queues.Length == MAX_THREAD_NUM && queues[dest] == At(state.heap, Queue(dest)) + [b]
      requires forall w :: 0 <= w < MAX_THREAD_NUM && w != dest ==> queues[w] == At(state.heap, Queue(w))
      modifies this`state
      ensures Valid() && Repr() == old(Repr()) + {b}
      ensures Enabled(old(state), PushStep(me, m, dest, src))
      ensures var s := Next(old(state), PushStep(me, m, dest, src));
        Inv(s) && Enabled(s, QueueStep(me)) && state == Next(s, QueueStep(me))
    {
      hide Inv, Next, Enabled, At, PoolSize, ClassOf, MayPush, M.MemBlockPool.Valid, Owned, CanAcquire, Acquired;
      var s := state;
      InvParts(s);
      Pushed(s, me, m, dest, src);
      state := Next(Next(s, PushStep(me, m, dest, src)), QueueStep(me));
      PushedPools(s.heap, m, dest, src);
      PushedFields(s.heap, b, m, dest, src);
    }

    lemma PushedPools(h: Heap, m: Letter, dest: nat, src: Source)
      requires CanAcquire(h, src, BlockSize(m)) && src != Nothing && Owned(h) && Delivered(h, state.heap, src, m, dest)
      requires if src.FromPool? then PoolsHold(h, ClassOf(BlockSize(m)), At(h, Free(ClassOf(BlockSize(m))))[1..])
               else PoolsHold(h, MEMPOOL_NUM, [])
      ensures PoolsHold(state.heap, MEMPOOL_NUM, [])
    {
      hide ClassOf, PoolSize, At, Owned, M.MemBlockPool.Valid;
    }

    lemma PushedFields(h: Heap, b: M.MemBlock, m: Letter, dest: nat, src: Source)
      requires CanAcquire(h, src, BlockSize(m)) && src != Nothing && Owned(h) && Delivered(h, state.heap, src, m, dest)
      requires b == Acquired(h, src, BlockSize(m)) && b.size == BlockSize(m) && b.dest == dest && b.letter == m
      requires b.capacity == state.heap.mem[b].capacity
      requires forall x :: x in h.mem && x != b ==> Stores(x, h.mem[x])
      ensures forall x :: x in state.heap.mem ==> Stores(x, state.heap.mem[x])
    {
      hide ClassOf, PoolSize, At, Owned;
    }

    /** The pool a block of this size goes back to; none for a large one. */
    static function HomePool(size: nat): nat { if size <= MAX_POOL_SIZE then ClassOf(size) else MEMPOOL_NUM }

    /** This block has been given back, but the runs do not know of it yet. */
    ghost predicate Freed(b: M.MemBlock)
      reads this, pools, PoolObjects(), state.heap.mem.Keys`next, b
    {
      PoolsHold(state.heap, HomePool(b.size), [b] + At(state.heap, Free(HomePool(b.size))))
    }

    /** Gives a block back to the pool of its class, or to the system. */
    method FreeMsgBlock(ptr: M.MemBlock?)
      requires Inv(state) && maxPoolSize == MAX_POOL_SIZE && PoolsHold(state.heap, MEMPOOL_NUM, [])
      requires ptr != null ==>
        ptr in state.heap.mem && !state.heap.place[ptr].Free? && ptr.size == state.heap.mem[ptr].size
      modifies PoolObjects(), (if ptr == null then {} else {ptr})`next
      ensures if ptr == null then PoolsHold(state.heap, MEMPOOL_NUM, []) else Freed(ptr)
    {
      hide Inv, GlobalObject.PoolsHold, GlobalObject.Freed;
      if ptr == null { return; }
      FreeBlock(ptr);
    }

    method FreeBlock(b: M.MemBlock)
      requires Inv(state) && maxPoolSize == MAX_POOL_SIZE && PoolsHold(state.heap, MEMPOOL_NUM, [])
      requires b in state.heap.mem && !state.heap.place[b].Free? && b.size == state.heap.mem[b].size
      modifies PoolObjects(), b`next
      ensures Freed(b)
    {
      hide Inv, PoolSize, ClassOf, M.MemBlockPool.Valid, At;
      var size := b.size;
      if size <= maxPoolSize {
        var index := FindPool(size);
        BusyIsNotFree(state, b);
        pools[index].Free(b);
      }
    }

    /** Takes the whole queue of a worker. */
    method GetMsgQueue(w: nat) returns (ok: bool, batch: seq<M.MemBlock>)
      requires Valid() && w < MAX_THREAD_NUM && PhaseOf(state, w) == Idle && At(state.heap, Batch(w)) == []
      modifies this`state, queues
      ensures Valid() && Repr() == old(Repr())
      ensures ok <==> old(queues[w]) != []
      ensures !ok ==> state == old(state) && batch == []
      ensures ok ==> Enabled(old(state), Take(w)) && state == Next(old(state), Take(w)) && batch == old(queues[w])
    {
      hide Inv, Next, Enabled, At, M.MemBlockPool.Valid;
      if queues[w] == [] { return false, []; }
      TakeMoves(state, w);
      batch := queues[w];
      queues[w] := [];
      state := Next(state, Take(w));
      ok := true;
    }

    method DrainOne(i: nat)
      requires Valid() && i < MAX_THREAD_NUM && Stopped(state) && queues[i] != [] && Enabled(state, Drain(i))
      modifies Repr()
      ensures Valid() && Repr() <= old(Repr()) && state == Next(old(state), Drain(i))
      ensures queues[i] == old(queues[i])[1..]
      ensures forall w :: 0 <= w < MAX_THREAD_NUM && w != i ==> queues[w] == old(queues[w])
    {
      hide Inv, Next, Enabled, M.MemBlockPool.Valid, Release, Stopped, GlobalObject.PoolsHold, At, PhaseOf;
      DrainEffect(state, i);
      var b := queues[i][0];
      queues[i] := queues[i][1..];
      FreeMsgBlock(b);
      Returned(b, Queue(i), Drain(i));
    }

    /** Frees what is left in one worker's queue. */
    method DrainQueue(i: nat) returns (ghost steps: seq<Step>)
      requires Valid() && i < MAX_THREAD_NUM && Stopped(state)
      modifies Repr()
      ensures Valid() && Repr() <= old(Repr()) && Stopped(state) && state == Run(old(state), steps)
      ensures queues[i] == [] && forall w :: 0 <= w < MAX_THREAD_NUM && w != i ==> queues[w] == old(queues[w])
    {
      hide Inv, Next, Enabled, GlobalObject.Valid, Run, Release, Stopped, At;
      ghost var s := state;
      Sound();
      steps := [];
      RunNothing(s);
      while queues[i] != []
        invariant Valid() && Repr() <= old(Repr()) && Stopped(state) && state == Run(s, steps)
        invariant forall w :: 0 <= w < MAX_THREAD_NUM && w != i ==> queues[w] == old(queues[w])
        decreases |queues[i]|
      {
        Sound();
        DrainEffect(state, i);
        RunMore(s, steps, Drain(i));
        DrainOne(i);
        steps := steps + [Drain(i)];
      }
    }

    /** With all workers stopped: discards every queued message and gives the pools' blocks back to the system. */
    method UnInit() returns (freed: seq<seq<M.MemBlock>>, ghost steps: seq<Step>)
      requires Valid() && Stopped(state)
      modifies Repr()
      ensures Inv(state) && state == Run(old(state), steps)
      ensures |freed| == MEMPOOL_NUM && forall i :: 0 <= i < MEMPOOL_NUM ==> freed[i] == At(state.heap, Free(i))
      ensures forall w :: 0 <= w < MAX_THREAD_NUM ==> queues[w] == [] && At(state.heap, Queue(w)) == []
      ensures forall i :: 0 <= i < MEMPOOL_NUM ==> pools[i] == null
    {
      hide Inv, Run, GlobalObject.Valid, Stopped;
      ghost var s := state;
      Sound();
      steps := [];
      RunNothing(s);
      for i := 0 to MAX_THREAD_NUM
        invariant Valid() && Repr() <= old(Repr()) && Stopped(state) && state == Run(s, steps)
        invariant queues.Length == MAX_THREAD_NUM && forall w :: 0 <= w < i ==> queues[w] == []
      {
        ghost var more := DrainQueue(i);
        RunConcat(s, steps, more);
        steps := steps + more;
      }
      Sound();
      freed := DropPools();
    }

    method DropPools() returns (freed: seq<seq<M.MemBlock>>)
      requires Valid()
      modifies pools, PoolObjects()
      ensures forall i :: 0 <= i < MEMPOOL_NUM ==> pools[i] == null
      ensures |freed| == MEMPOOL_NUM && forall i :: 0 <= i < MEMPOOL_NUM ==> freed[i] == At(state.heap, Free(i))
    {
      hide Inv, At, PoolSize, M.MemBlockPool.Valid, GlobalObject.QueuesHold;
      freed := [];
      for i := 0 to MEMPOOL_NUM
        invariant |freed| == i && forall j :: 0 <= j < i ==> freed[j] == At(state.heap, Free(j))
        invariant pools.Length == MEMPOOL_NUM && forall j :: 0 <= j < i ==> pools[j] == null
        invariant forall j :: i <= j < MEMPOOL_NUM ==>
          && pools[j] == old(pools[j]) && pools[j] != null && pools[j] in old(PoolObjects())
          && pools[j].Valid() && pools[j].Blocks == At(state.heap, Free(j))
        invariant forall j, k :: i <= j < k < MEMPOOL_NUM ==> pools[j] != pools[k]
      {
        var blocks := pools[i].Destroy();
        freed := freed + [blocks];
        pools[i] := null;
      }
    }

    lemma Sound()
      requires Valid()
      ensures Inv(state) && QueuesHold(state.heap)
    {
    }

    lemma Stored(b: M.MemBlock)
      requires Valid() && b in state.heap.mem
      ensures Stores(b, state.heap.mem[b])
    {
    }

    /** A step of the runs that moves nothing between pools and queues. */
    ghost method Note(step: Step)
      requires Valid() && Enabled(state, step) && SameStore(state.heap, Next(state, step).heap)
      modifies this`state
      ensures Valid() && Repr() == old(Repr()) && state == Next(old(state), step)
    {
      hide Inv, Next, Enabled, At, M.MemBlockPool.Valid;
      StepKeepsInv(state, step);
      state := Next(state, step);
    }

    /** The message in hand gets a new address. */
    method Readdress(hdr: M.MemBlock, ghost w: nat, look: Look)
      requires Valid() && Enabled(state, Decide(w, look)) && At(state.heap, Hand(w)) == [hdr]
      requires hdr in state.heap.mem && Judge(hdr.letter, hdr.dest, look, w) == Forward(look.thread)
      modifies this`state, hdr`dest
      ensures Valid() && Repr() == old(Repr()) && state == Next(old(state), Decide(w, look))
    {
      hide Inv, Next, Enabled, At, M.MemBlockPool.Valid, Judge;
      ForwardHeap(state, w, look);
      StepKeepsInv(state, Decide(w, look));
      hdr.dest := look.thread;
      state := Next(state, Decide(w, look));
    }

    /** The runs take note of the block that FreeMsgBlock gave back. */
    ghost method Returned(b: M.MemBlock, from: Place, step: Step)
      requires Inv(state) && Enabled(state, step) && At(state.heap, from) != [] && At(state.heap, from)[0] == b
      requires Owned(state.heap) && Next(state, step).heap == Release(state.heap, from) && !from.Free?
      requires maxPoolSize == MAX_POOL_SIZE
      requires Freed(b)
      requires forall x :: x in state.heap.mem ==> Stores(x, state.heap.mem[x])
      requires QueuesHold(Release(state.heap, from))
      modifies this`state
      ensures Valid() && Repr() <= old(Repr()) && state == Next(old(state), step)
    {
      hide Inv, Next, Enabled, M.MemBlockPool.Valid, At, Holds, Located, Sized, GlobalObject.QueuesHold;
      StepKeepsInv(state, step);
      Member(state.heap, from, 0);
      var h := state.heap;
      state := Next(state, step);
      InvParts(state);
      ReleasedPools(h, from, b);
    }

    lemma ReleasedPools(h: Heap, from: Place, b: M.MemBlock)
      requires Owned(h) && At(h, from) != [] && At(h, from)[0] == b && state.heap == Release(h, from) && !from.Free?
      requires b in h.mem && b.size == h.mem[b].size && HeapOk(state.heap)
      requires PoolsHold(h, HomePool(b.size), [b] + At(h, Free(HomePool(b.size))))
      ensures PoolsHold(state.heap, MEMPOOL_NUM, [])
    {
      forall i: nat, x | x in At(state.heap, Free(i)) ensures x in state.heap.mem {
        var k :| 0 <= k < |At(state.heap, Free(i))| && At(state.heap, Free(i))[k] == x;
        Member(state.heap, Free(i), k);
      }
      hide Holds, Located, Sized, PoolSize, ClassOf, M.MemBlockPool.Valid;
    }

    /** Nothing happened but the step that says so. */
    ghost method Fail(me: Pusher, m: Letter, dest: nat)
      requires Valid() && MayPush(state, me, m, dest)
      requires dest >= MAX_THREAD_NUM || !Stocked(state.heap, BlockSize(m))
      modifies this`state
      ensures Enabled(old(state), PushStep(me, m, dest, Nothing))
      ensures Valid() && Repr() == old(Repr()) && state == Next(old(state), PushStep(me, m, dest, Nothing))
    {
      hide Inv, Next, Enabled, MayPush, M.MemBlockPool.Valid, At;
      FailIsStep(state, me, m, dest);
      state := Next(state, PushStep(me, m, dest, Nothing));
    }
  }

  // ----- what a push does to the lists -----

  /** No worker is in the middle of a batch. */
  ghost predicate Stopped(s: State) {
    forall w: nat :: PhaseOf(s, w) == Idle && At(s.heap, Batch(w)) == []
  }

  lemma DrainEffect(s: State, i: nat)
    requires Inv(s) && Stopped(s) && At(s.heap, Queue(i)) != []
    ensures Enabled(s, Drain(i)) && Owned(s.heap)
    ensures var t, b := Next(s, Drain(i)), At(s.heap, Queue(i))[0];
      && b in s.heap.mem && s.heap.place[b] == Queue(i) && Inv(t) && Stopped(t) && t.heap == Release(s.heap, Queue(i))
      && At(t.heap, Queue(i)) == At(s.heap, Queue(i))[1..]
      && forall w :: w != i ==> At(t.heap, Queue(w)) == At(s.heap, Queue(w))
  {
    hide Sized, Holds, Located, Addressed, Tracked, InOrder, Judged;
    HandBlock(s, Queue(i));
    StepKeepsInv(s, Drain(i));
  }

  lemma TakeMoves(s: State, w: nat)
    requires Inv(s) && w < MAX_THREAD_NUM && PhaseOf(s, w) == Idle && At(s.heap, Batch(w)) == []
    requires At(s.heap, Queue(w)) != []
    ensures Enabled(s, Take(w))
    ensures var t := Next(s, Take(w));
      && Inv(t) && t.heap.mem == s.heap.mem && At(t.heap, Queue(w)) == []
      && (forall i :: At(t.heap, Free(i)) == At(s.heap, Free(i)))
      && forall v :: v != w ==> At(t.heap, Queue(v)) == At(s.heap, Queue(v))
  {
    hide HeapOk, Shaped, Addressed, Tracked, InOrder, Judged;
    StepKeepsInv(s, Take(w));
  }

  /** Same blocks with the same content, same free lists, same queues. */
  ghost predicate SameStore(h: Heap, h': Heap) {
    h'.mem == h.mem && forall l: Place :: l.Free? || l.Queue? ==> At(h', l) == At(h, l)
  }

  lemma ForwardHeap(s: State, w: nat, look: Look)
    requires Inv(s) && Enabled(s, Decide(w, look))
    requires var c := InHand(s, w); Judge(c.letter, c.dest, look, w) == Forward(look.thread)
    ensures var b := At(s.heap, Hand(w))[0];
      && b in s.heap.mem
      && Next(s, Decide(w, look)).heap == s.heap.(mem := s.heap.mem[b := s.heap.mem[b].(dest := look.thread)])
      && forall l :: At(Next(s, Decide(w, look)).heap, l) == At(s.heap, l)
  {
    hide HeapOk, Addressed, Tracked, InOrder, Judged, Judge;
    HandBlock(s, Hand(w));
  }

  lemma BusyIsNotFree(s: State, b: M.MemBlock)
    requires Inv(s) && b in s.heap.mem && !s.heap.place[b].Free?
    ensures forall i: nat :: b !in At(s.heap, Free(i))
  {
    InvParts(s);
    forall i: nat ensures b !in At(s.heap, Free(i)) {
      if b in At(s.heap, Free(i)) {
        var k :| 0 <= k < |At(s.heap, Free(i))| && At(s.heap, Free(i))[k] == b;
        Member(s.heap, Free(i), k);
      }
    }
  }

  lemma HeadIsNowhereElse(s: State, c: nat)
    requires Inv(s) && At(s.heap, Free(c)) != []
    ensures var b := At(s.heap, Free(c))[0];
      && b in s.heap.mem && b !in At(s.heap, Free(c))[1..]
      && forall i: nat :: i != c ==> b !in At(s.heap, Free(i))
  {
    Member(s.heap, Free(c), 0);
    ExactlyOnePlace(s.heap);
    hide Inv, At;
  }

  /** What PushMsg's callers owe: a proper message and a free hand, or the message they are forwarding. */
  ghost predicate MayPush(s: State, me: Pusher, m: Letter, dest: nat)
    requires Inv(s)
  {
    && At(s.heap, Spot(me)) == []
    && match me
       case Sender(_) => Proper(m)
       case Forwarder(w) =>
         PhaseOf(s, w) == Sending
         && var c := InHand(s, w);
         m == Forwarded(c.letter) && dest == c.dest
  }

  lemma PushIsEnabled(s: State, me: Pusher, m: Letter, dest: nat, src: Source)
    requires Inv(s) && MayPush(s, me, m, dest) && Allocates(s.heap, src, m, dest)
    ensures Enabled(s, PushStep(me, m, dest, src))
  {
    hide HeapOk, Addressed, Tracked, InOrder, Judged, CanAcquire;
    if me.Forwarder? { HandBlock(s, Hand(me.worker)); }
  }

  lemma FailIsStep(s: State, me: Pusher, m: Letter, dest: nat)
    requires Inv(s) && MayPush(s, me, m, dest) && (dest >= MAX_THREAD_NUM || !Stocked(s.heap, BlockSize(m)))
    ensures Enabled(s, PushStep(me, m, dest, Nothing))
    ensures var t := Next(s, PushStep(me, m, dest, Nothing)); Inv(t) && t.heap == s.heap
  {
    hide HeapOk, Addressed, Tracked, InOrder, Judged;
    PushIsEnabled(s, me, m, dest, Nothing);
    StepKeepsInv(s, PushStep(me, m, dest, Nothing));
    InvParts(s);
  }

  ghost function PushCell(s: State, me: Pusher, m: Letter, dest: nat): Cell
    requires Inv(s) && (me.Forwarder? ==> PhaseOf(s, me.worker) != Idle)
  {
    Cell(0, BlockSize(m), dest, m, if me.Sender? then |s.sent| else InHand(s, me.worker).ticket)
  }

  /** The first half: the new block holds the message. */
  lemma Filled(s: State, me: Pusher, m: Letter, dest: nat, src: Source)
    requires Inv(s) && MayPush(s, me, m, dest) && dest < MAX_THREAD_NUM
    requires CanAcquire(s.heap, src, BlockSize(m)) && src != Nothing
    ensures Enabled(s, PushStep(me, m, dest, src))
    ensures var t := Next(s, PushStep(me, m, dest, src));
      && Inv(t) && (me.Forwarder? ==> PhaseOf(t, me.worker) == Sending)
      && t.heap == Acquire(s.heap, src, Spot(me), PushCell(s, me, m, dest))
  {
    hide CanAcquire, Acquire, Acquired, Holds, Located, Sized, Addressed, Tracked, InOrder, Judged, Forwarded;
    PushIsEnabled(s, me, m, dest, src);
    StepKeepsInv(s, PushStep(me, m, dest, src));
  }

  /** The lists after a successful push. */
  ghost predicate Delivered(h: Heap, h': Heap, src: Source, m: Letter, dest: nat)
    requires CanAcquire(h, src, BlockSize(m)) && src != Nothing && Owned(h)
  {
    var size, b := BlockSize(m), Acquired(h, src, BlockSize(m));
    var p := Free(ClassOf(size));
    && b in h'.mem && h'.mem == h.mem[b := h'.mem[b]]
    && h'.mem[b].size == size && h'.mem[b].dest == dest && h'.mem[b].letter == m
    && (src.FromPool? ==> b in h.mem && h'.mem[b].capacity == h.mem[b].capacity && At(h', p) == At(h, p)[1..])
    && (!src.FromPool? ==>
          && h'.mem[b].capacity == (if size <= MAX_POOL_SIZE then PoolSize(ClassOf(size)) else size)
          && At(h', p) == At(h, p))
    && At(h', Queue(dest)) == At(h, Queue(dest)) + [b]
    && (forall l: Place :: (l.Free? && l != p) || (l.Queue? && l != Queue(dest)) ==> At(h', l) == At(h, l))
  }

  lemma TwoMoves(h: Heap, src: Source, to: Place, c: Cell)
    requires HeapOk(h) && CanAcquire(h, src, c.size) && src != Nothing && !to.Free? && !to.Queue? && At(h, to) == []
    requires c.size == BlockSize(c.letter)
    ensures var g := Acquire(h, src, to, c);
      && At(g, to) == [Acquired(h, src, c.size)] && Acquired(h, src, c.size) in g.mem
      && g.mem[Acquired(h, src, c.size)].dest == c.dest
      && Delivered(h, Relocate(g, to, Queue(c.dest)), src, c.letter, c.dest)
  {
    if src.FromPool? { Member(h, Free(ClassOf(c.size)), 0); }
    hide Holds, Located, Sized, PoolSize, ClassOf;
  }

  lemma Pushed(s: State, me: Pusher, m: Letter, dest: nat, src: Source)
    requires Inv(s) && MayPush(s, me, m, dest) && dest < MAX_THREAD_NUM
    requires CanAcquire(s.heap, src, BlockSize(m)) && src != Nothing
    ensures Enabled(s, PushStep(me, m, dest, src))
    ensures var t := Next(s, PushStep(me, m, dest, src));
      && Inv(t) && Enabled(t, QueueStep(me))
      && var u := Next(t, QueueStep(me));
         Inv(u) && Delivered(s.heap, u.heap, src, m, dest)
  {
    Filled(s, me, m, dest, src);
    TwoMoves(s.heap, src, Spot(me), PushCell(s, me, m, dest));
    var t := Next(s, PushStep(me, m, dest, src));
    InvParts(t);
    hide Inv, CanAcquire, Acquire, Acquired, Delivered, HeapOk, Owned, Shaped;
    QueueStepIs(t, me);
    StepKeepsInv(t, QueueStep(me));
  }

  lemma QueueStepIs(t: State, me: Pusher)
    requires Inv(t) && At(t.heap, Spot(me)) != [] && (me.Forwarder? ==> PhaseOf(t, me.worker) == Sending)
    ensures Enabled(t, QueueStep(me)) && At(t.heap, Spot(me))[0] in t.heap.mem
    ensures var b := At(t.heap, Spot(me))[0];
      Next(t, QueueStep(me)).heap == Relocate(t.heap, Spot(me), Queue(t.heap.mem[b].dest))
  {
    hide Inv, Owned, Shaped, Relocate, At;
    HandBlock(t, Spot(me));
    InvParts(t);
  }
}
