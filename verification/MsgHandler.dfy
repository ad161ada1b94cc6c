/** MsgHandler: the dispatcher loop, one message after another of the batch a worker took. */
module MsgHandler {
  import opened MailboxSpec
  import opened MailboxHeap
  import opened MailboxRuns
  import opened GlobalObject
  import M = MemBlockPool

  // ----- what one turn of the loop may do -----

  datatype Act = Ran | Ignored | Thrown | Moved(to: nat) | Gone

  /** The turn follows the verdict; a forward fails exactly for a bad thread number or without a block to copy into. */
  predicate ActOk(m: Letter, look: Look, w: nat, registered: bool, block: bool, act: Act) {
    match Judge(m, w, look, w)
    case Handle => act == if registered then Ran else Ignored
    case Drop => act == Thrown
    case Forward(to) => act == if to < MAX_THREAD_NUM && block then Moved(to) else Gone
  }

  /** What becomes of a message, in terms of what the dispatcher sees. */
  lemma ActIff(m: Letter, look: Look, w: nat, registered: bool, block: bool, act: Act)
    requires ActOk(m, look, w, registered, block, act)
    ensures var local := m.cmdID <= 0xFF && w <= WORKER_THREAD_NEUTRAL && m.player != 0;
      var away := MIN_INNER_CHECK_MSG <= m.cmdID <= MAX_2_MSG_NUM && m.player != 0 && look.thread != w;
      var dropped := local && (look.jumping || look.thread != w);
      && (act == Thrown <==> dropped)
      && (act.Moved? <==> away && look.thread < MAX_THREAD_NUM && block)
      && (act.Moved? ==> act.to == look.thread)
      && (act == Gone <==> away && !(look.thread < MAX_THREAD_NUM && block))
      && (act == Ran <==> registered && !dropped && !away)
      && (act == Ignored <==> !registered && !dropped && !away)
  {
  }

  /** The messages of the batch that have a handler here, in order. */
  function WithHandler(sent: seq<Letter>, ks: seq<nat>, registered: set<nat>): seq<Letter> {
    if ks == [] then []
    else
      var n := |ks| - 1;
      WithHandler(sent, ks[..n], registered)
      + if ks[n] < |sent| && sent[ks[n]].cmdID in registered then [sent[ks[n]]] else []
  }

  /** When every player of the batch is seen on this worker and not jumping, nothing is dropped, forwarded or lost, and
      the handlers run on exactly the messages that have one. */
  lemma BatchAtHome(s: State, t: State, ks: seq<nat>, acts: seq<Act>, w: nat, registered: set<nat>,
                    looks: nat -> Look, memory: nat -> bool)
    requires Dispatched(s, t, ks, acts, w, registered, looks, memory)
    requires forall j :: 0 <= j < |ks| ==> looks(j) == Look(false, w) || s.sent[ks[j]].player == 0
    ensures forall j :: 0 <= j < |ks| ==> acts[j] == if s.sent[ks[j]].cmdID in registered then Ran else Ignored
    ensures Calls(s.sent, ks, acts) == WithHandler(s.sent, ks, registered)
  {
    hide BlockFor, ActOk, Calls, WithHandler;
    forall j | 0 <= j < |ks| ensures acts[j] == if s.sent[ks[j]].cmdID in registered then Ran else Ignored {
      var m := s.sent[ks[j]];
      ActIff(m, looks(j), w, m.cmdID in registered, BlockFor(s.heap, s.sent, ks[..j], m, memory(j)), acts[j]);
    }
    CallsAtHome(s.sent, ks, acts, registered);
  }

  lemma {:induction false} CallsAtHome(sent: seq<Letter>, ks: seq<nat>, acts: seq<Act>, registered: set<nat>)
    requires |ks| == |acts| && forall j :: 0 <= j < |ks| ==> ks[j] < |sent|
    requires forall j :: 0 <= j < |ks| ==> acts[j] == if sent[ks[j]].cmdID in registered then Ran else Ignored
    ensures Calls(sent, ks, acts) == WithHandler(sent, ks, registered)
  {
    if ks != [] { CallsAtHome(sent, ks[..|ks| - 1], acts[..|ks| - 1], registered); }
  }

  /** Whatever is seen of the players, a message that carries none is neither dropped, forwarded nor lost. */
  lemma WithoutPlayer(s: State, t: State, ks: seq<nat>, acts: seq<Act>, w: nat, registered: set<nat>,
                      looks: nat -> Look, memory: nat -> bool, j: nat)
    requires Dispatched(s, t, ks, acts, w, registered, looks, memory)
    requires j < |ks| && s.sent[ks[j]].player == 0
    ensures acts[j] == if s.sent[ks[j]].cmdID in registered then Ran else Ignored
  {
    hide BlockFor, ActOk;
    var m := s.sent[ks[j]];
    ActIff(m, looks(j), w, m.cmdID in registered, BlockFor(s.heap, s.sent, ks[..j], m, memory(j)), acts[j]);
  }

  function FateOf(act: Act, w: nat, look: Look): Fate {
    match act
    case Ran => Handled(w, look)
    case Ignored => Unclaimed(w, look)
    case Thrown => Dropped(w, look)
    case Gone => Lost
    case Moved(_) => Lost
  }

  function FatesAfter(fate: map<nat, Fate>, k: nat, act: Act, w: nat, look: Look): map<nat, Fate> {
    if act.Moved? then fate else fate[k := FateOf(act, w, look)]
  }

  function Arrivals(k: nat, act: Act, v: nat): seq<nat> {
    if act == Moved(v) then [k] else []
  }

  // ----- what a whole batch may do -----

  function AllFates(fate: map<nat, Fate>, ks: seq<nat>, acts: seq<Act>, w: nat, looks: nat -> Look): map<nat, Fate>
    requires |ks| == |acts|
  {
    if ks == [] then fate
    else
      var n := |ks| - 1;
      FatesAfter(AllFates(fate, ks[..n], acts[..n], w, looks), ks[n], acts[n], w, looks(n))
  }

  function AllArrivals(ks: seq<nat>, acts: seq<Act>, v: nat): seq<nat>
    requires |ks| == |acts|
  {
    if ks == [] then []
    else var n := |ks| - 1; AllArrivals(ks[..n], acts[..n], v) + Arrivals(ks[n], acts[n], v)
  }

  /** The messages the handlers ran on. */
  function Calls(sent: seq<Letter>, ks: seq<nat>, acts: seq<Act>): seq<Letter>
    requires |ks| == |acts|
  {
    if ks == [] then []
    else
      var n := |ks| - 1;
      Calls(sent, ks[..n], acts[..n]) + if acts[n] == Ran && ks[n] < |sent| then [sent[ks[n]]] else []
  }

  /** Pool c has a free block. */
  predicate Stock(h: Heap, c: nat) { At(h, Free(c)) != [] }

  /** A freed block of this size goes to pool c. */
  predicate Supplies(size: nat, c: nat) { size <= MAX_POOL_SIZE && ClassOf(size) == c }

  /** One of these messages was in a block of pool c, which its turn gave back. */
  ghost predicate SuppliedBy(sent: seq<Letter>, ks: seq<nat>, c: nat) {
    exists i :: 0 <= i < |ks| && ks[i] < |sent| && Supplies(BlockSize(sent[ks[i]]), c)
  }

  /** A block for a copy of this message can be had: from the system, or from its pool, which had one before the
      batch or got one from an earlier message of the batch. */
  ghost predicate BlockFor(h: Heap, sent: seq<Letter>, before: seq<nat>, m: Letter, memory: bool) {
    memory || (BlockSize(m) <= MAX_POOL_SIZE
               && var c := ClassOf(BlockSize(m)); Stock(h, c) || SuppliedBy(sent, before, c))
  }

  /** The free lists of h' are those of h, with one block more in the pool of this size. */
  ghost predicate Restocked(h: Heap, h': Heap, size: nat) {
    forall c: nat :: Stock(h', c) <==> Stock(h, c) || Supplies(size, c)
  }

  ghost predicate ActsOk(h: Heap, sent: seq<Letter>, ks: seq<nat>, acts: seq<Act>, w: nat, registered: set<nat>,
                         looks: nat -> Look, memory: nat -> bool)
    requires |ks| == |acts|
  {
    forall j :: 0 <= j < |ks| ==>
      && ks[j] < |sent|
      && var m := sent[ks[j]];
      ActOk(m, looks(j), w, m.cmdID in registered, BlockFor(h, sent, ks[..j], m, memory(j)), acts[j])
  }

  lemma MoreActs(h: Heap, sent: seq<Letter>, ks: seq<nat>, acts: seq<Act>, w: nat, registered: set<nat>,
                 looks: nat -> Look, memory: nat -> bool, k: nat, act: Act)
    requires |ks| == |acts| && ActsOk(h, sent, ks, acts, w, registered, looks, memory) && k < |sent|
    requires ActOk(sent[k], looks(|ks|), w, sent[k].cmdID in registered,
                   BlockFor(h, sent, ks, sent[k], memory(|ks|)), act)
    ensures ActsOk(h, sent, ks + [k], acts + [act], w, registered, looks, memory)
  {
    hide ActOk, BlockFor;
    var n := |ks|;
    assert (ks + [k])[..n] == ks;
    forall j | 0 <= j < n ensures (ks + [k])[..j] == ks[..j] {}
  }

  lemma MoreSupplies(sent: seq<Letter>, ks: seq<nat>, k: nat, c: nat)
    requires k < |sent|
    ensures SuppliedBy(sent, ks + [k], c) <==> SuppliedBy(sent, ks, c) || Supplies(BlockSize(sent[k]), c)
  {
    hide Supplies;
    var x := ks + [k];
    if SuppliedBy(sent, ks, c) {
      var i :| 0 <= i < |ks| && ks[i] < |sent| && Supplies(BlockSize(sent[ks[i]]), c);
      assert x[i] == ks[i];
    }
    if Supplies(BlockSize(sent[k]), c) { assert x[|ks|] == k; }
    if SuppliedBy(sent, x, c) {
      var i :| 0 <= i < |x| && x[i] < |sent| && Supplies(BlockSize(sent[x[i]]), c);
      assert i < |ks| ==> ks[i] == x[i];
    }
  }

  /** The messages ks were taken up in this order and each was dealt with as its verdict says; nothing else changed. */
  ghost predicate Dispatched(s: State, t: State, ks: seq<nat>, acts: seq<Act>, w: nat, registered: set<nat>,
                             looks: nat -> Look, memory: nat -> bool) {
    && |acts| == |ks| && t.handlers == s.handlers && t.sent == s.sent
    && ActsOk(s.heap, s.sent, ks, acts, w, registered, looks, memory)
    && (forall c: nat :: Stock(t.heap, c) <==> Stock(s.heap, c) || SuppliedBy(s.sent, ks, c))
    && Log(t.popped, w) == Log(s.popped, w) + ks
    && t.fate == AllFates(s.fate, ks, acts, w, looks)
    && (forall v: nat :: Log(t.arrived, v) == Log(s.arrived, v) + AllArrivals(ks, acts, v))
  }

  lemma NothingDispatched(s: State, t: State, w: nat, registered: set<nat>, looks: nat -> Look, memory: nat -> bool)
    requires SameRecord(s, t) && t.fate == s.fate && forall c: nat :: Stock(t.heap, c) == Stock(s.heap, c)
    ensures Dispatched(s, t, [], [], w, registered, looks, memory)
  {
  }

  lemma CallsNothing(sent: seq<Letter>)
    ensures Calls(sent, [], []) == []
  {
  }

  lemma DispatchedParts(s: State, t: State, ks: seq<nat>, acts: seq<Act>, w: nat, registered: set<nat>,
                        looks: nat -> Look, memory: nat -> bool)
    requires Dispatched(s, t, ks, acts, w, registered, looks, memory)
    ensures |acts| == |ks| && t.handlers == s.handlers && t.sent == s.sent
    ensures Log(t.popped, w) == Log(s.popped, w) + ks
  {
  }

  lemma OneMore(s: State, t: State, u: State, ks: seq<nat>, acts: seq<Act>, w: nat, registered: set<nat>,
                looks: nat -> Look, memory: nat -> bool, k: nat, act: Act)
    requires Dispatched(s, t, ks, acts, w, registered, looks, memory) && k < |s.sent|
    requires ActOk(s.sent[k], looks(|ks|), w, s.sent[k].cmdID in registered,
                   memory(|ks|) || Stocked(t.heap, BlockSize(s.sent[k])), act)
    requires Turned(t, u, k, act, w, looks(|ks|)) && Restocked(t.heap, u.heap, BlockSize(s.sent[k]))
    ensures Dispatched(s, u, ks + [k], acts + [act], w, registered, looks, memory)
    ensures Calls(s.sent, ks + [k], acts + [act]) == Calls(s.sent, ks, acts) + if act == Ran then [s.sent[k]] else []
  {
    hide ActOk, ActsOk, FatesAfter, Arrivals, Log, Noted, AllFates, AllArrivals, Calls, BlockFor, Stock, Supplies;
    hide SuppliedBy, Stocked;
    SameBlockFor(s, t, ks, s.sent[k], memory(|ks|));
    MoreActs(s.heap, s.sent, ks, acts, w, registered, looks, memory, k, act);
    forall c: nat ensures Stock(u.heap, c) <==> Stock(s.heap, c) || SuppliedBy(s.sent, ks + [k], c) {
      MoreSupplies(s.sent, ks, k, c);
    }
    NotedLog(t.popped, w, k);
    assert Log(s.popped, w) + ks + [k] == Log(s.popped, w) + (ks + [k]);
    AppendTurn(s, ks, acts, w, looks, k, act);
    forall v: nat ensures Log(u.arrived, v) == Log(s.arrived, v) + AllArrivals(ks + [k], acts + [act], v) {
      ArrivalsOf(ks, acts, k, act, v);
      assert Log(t.arrived, v) + Arrivals(k, act, v)
          == Log(s.arrived, v) + (AllArrivals(ks, acts, v) + Arrivals(k, act, v));
    }
  }

  /** In one batch a pool's later messages are lost only to bad thread numbers: an earlier one left it a block. */
  lemma LaterOnesHaveBlocks(s: State, t: State, ks: seq<nat>, acts: seq<Act>, w: nat, registered: set<nat>,
                            looks: nat -> Look, memory: nat -> bool, i: nat, j: nat)
    requires Dispatched(s, t, ks, acts, w, registered, looks, memory) && i < j < |ks|
    requires ks[i] < |s.sent| && ks[j] < |s.sent|
    requires var size := BlockSize(s.sent[ks[j]]);
      size <= MAX_POOL_SIZE && Supplies(BlockSize(s.sent[ks[i]]), ClassOf(size))
    ensures acts[j] == Gone ==> looks(j).thread >= MAX_THREAD_NUM
  {
    var m := s.sent[ks[j]];
    assert ActOk(m, looks(j), w, m.cmdID in registered, BlockFor(s.heap, s.sent, ks[..j], m, memory(j)), acts[j]);
    assert ks[..j][i] == ks[i];
    hide Supplies, ClassOf, Stock;
    assert SuppliedBy(s.sent, ks[..j], ClassOf(BlockSize(m)));
  }

  lemma SameBlockFor(s: State, t: State, ks: seq<nat>, m: Letter, memory: bool)
    requires forall c: nat :: Stock(t.heap, c) <==> Stock(s.heap, c) || SuppliedBy(s.sent, ks, c)
    ensures (memory || Stocked(t.heap, BlockSize(m))) <==> BlockFor(s.heap, s.sent, ks, m, memory)
  {
    hide SuppliedBy, ClassOf;
    assert Stock(t.heap, ClassOf(BlockSize(m))) == (At(t.heap, Free(ClassOf(BlockSize(m)))) != []);
  }

  lemma NotedLog(m: map<nat, seq<nat>>, w: nat, k: nat)
    ensures Log(Noted(m, w, k), w) == Log(m, w) + [k]
  {
  }

  lemma ArrivalsOf(ks: seq<nat>, acts: seq<Act>, k: nat, act: Act, v: nat)
    requires |ks| == |acts|
    ensures AllArrivals(ks + [k], acts + [act], v) == AllArrivals(ks, acts, v) + Arrivals(k, act, v)
  {
    assert (ks + [k])[..|ks|] == ks && (acts + [act])[..|ks|] == acts;
  }

  lemma AppendTurn(s: State, ks: seq<nat>, acts: seq<Act>, w: nat, looks: nat -> Look, k: nat, act: Act)
    requires |ks| == |acts| && k < |s.sent|
    ensures AllFates(s.fate, ks + [k], acts + [act], w, looks)
         == FatesAfter(AllFates(s.fate, ks, acts, w, looks), k, act, w, looks(|ks|))
    ensures Calls(s.sent, ks + [k], acts + [act]) == Calls(s.sent, ks, acts) + if act == Ran then [s.sent[k]] else []
  {
    assert (ks + [k])[..|ks|] == ks && (acts + [act])[..|ks|] == acts;
  }

  /** A worker never forwards to itself. */
  lemma NoneBack(s: State, t: State, ks: seq<nat>, acts: seq<Act>, w: nat, registered: set<nat>,
                 looks: nat -> Look, memory: nat -> bool)
    requires Dispatched(s, t, ks, acts, w, registered, looks, memory)
    ensures Log(t.arrived, w) == Log(s.arrived, w)
  {
    hide BlockFor;
    forall j | 0 <= j < |acts| ensures acts[j] != Moved(w) {
      var m := s.sent[ks[j]];
      assert ActOk(m, looks(j), w, m.cmdID in registered, BlockFor(s.heap, s.sent, ks[..j], m, memory(j)), acts[j]);
    }
    NoArrivals(ks, acts, w);
  }

  lemma {:induction false} NoArrivals(ks: seq<nat>, acts: seq<Act>, w: nat)
    requires |ks| == |acts| && forall j :: 0 <= j < |acts| ==> acts[j] != Moved(w)
    ensures AllArrivals(ks, acts, w) == []
  {
    if ks != [] { NoArrivals(ks[..|ks| - 1], acts[..|ks| - 1], w); }
  }

  /** The first message of what is left of the batch is the next ticket. */
  lemma NextTicket(s: State, t: State, w: nat, ks: seq<nat>, i: nat)
    requires Inv(t) && i < |ks| && |At(t.heap, Batch(w))| == |ks| - i
    requires Log(s.arrived, w) == Log(s.popped, w) + ks && Log(t.arrived, w) == Log(s.arrived, w)
    requires Log(t.popped, w) == Log(s.popped, w) + ks[..i]
    ensures var b := At(t.heap, Batch(w))[0];
      && b in t.heap.mem && t.heap.mem[b].ticket == ks[i]
      && ks[i] < |t.sent| && t.sent[ks[i]] == t.heap.mem[b].letter
  {
    hide HeapOk, Shaped, Addressed, Tracked, Judged;
    var b := At(t.heap, Batch(w))[0];
    HandBlock(t, Batch(w));
    CarriedOf(t, b);
    assert InOrder(t);
    var p, q := Tickets(t.heap, Batch(w)), Tickets(t.heap, Queue(w));
    Cancel(Log(s.popped, w), ks, i, p, q);
    assert p[0] == TicketOf(t.heap, b);
  }

  lemma Cancel(a: seq<nat>, ks: seq<nat>, i: nat, p: seq<nat>, q: seq<nat>)
    requires i < |ks| && |p| > 0 && a + ks == (a + ks[..i]) + (p + q)
    ensures p[0] == ks[i]
  {
    assert (a + ks)[|a| + i] == ks[i];
    assert ((a + ks[..i]) + (p + q))[|a| + i] == p[0];
  }

  // ----- what the steps of one turn do -----

  ghost predicate SameRecord(s: State, t: State) {
    t.handlers == s.handlers && t.sent == s.sent && t.popped == s.popped && t.arrived == s.arrived
  }

  ghost predicate Turning(s: State, w: nat, phase: Phase, b: Block, batch: seq<Block>) {
    && Inv(s) && PhaseOf(s, w) == phase && At(s.heap, Hand(w)) == [b] && At(s.heap, Batch(w)) == batch
    && b in s.heap.mem
  }

  lemma PopEffect(s: State, w: nat)
    requires Inv(s) && Enabled(s, Pop(w))
    ensures var t, b := Next(s, Pop(w)), At(s.heap, Batch(w))[0];
      && Turning(t, w, Deciding, b, At(s.heap, Batch(w))[1..]) && SameStore(s.heap, t.heap)
      && t.fate == s.fate && t.arrived == s.arrived && t.handlers == s.handlers && t.sent == s.sent
      && t.popped == Noted(s.popped, w, t.heap.mem[b].ticket)
      && t.heap.mem[b].dest == w && Proper(t.heap.mem[b].letter)
  {
    hide HeapOk, Addressed, Tracked, InOrder, Judged;
    var b := At(s.heap, Batch(w))[0];
    HandBlock(s, Batch(w));
    StepKeepsInv(s, Pop(w));
    var t := Next(s, Pop(w));
    ProperInHand(t, w, b);
  }

  lemma ProperInHand(t: State, w: nat, b: Block)
    requires Inv(t) && PhaseOf(t, w) == Deciding && At(t.heap, Hand(w)) != [] && At(t.heap, Hand(w))[0] == b
    ensures b in t.heap.mem && t.heap.mem[b].dest == w && Proper(t.heap.mem[b].letter)
  {
    hide HeapOk, Tracked, InOrder;
    HandBlock(t, Hand(w));
    CarriedOf(t, b);
    assert AddressOk(t, Hand(w), t.heap.mem[b]);
  }

  lemma SettleEffect(s: State, w: nat, look: Look, b: Block, batch: seq<Block>)
    requires Turning(s, w, Deciding, b, batch) && s.heap.mem[b].dest == w
    requires !Judge(s.heap.mem[b].letter, w, look, w).Forward?
    ensures Enabled(s, Decide(w, look))
    ensures var t, c := Next(s, Decide(w, look)), s.heap.mem[b];
      && Turning(t, w, Freeing, b, batch) && t.heap == s.heap
      && SameRecord(s, t)
      && t.fate == s.fate[c.ticket :=
           if Judge(c.letter, w, look, w) == Drop then Dropped(w, look)
           else if (w, c.letter.cmdID) in s.handlers then Handled(w, look) else Unclaimed(w, look)]
  {
    hide HeapOk, Addressed, Tracked, InOrder, Judged;
    StepKeepsInv(s, Decide(w, look));
  }

  lemma ForwardEffect(s: State, w: nat, look: Look, b: Block, batch: seq<Block>)
    requires Turning(s, w, Deciding, b, batch) && s.heap.mem[b].dest == w
    requires Judge(s.heap.mem[b].letter, w, look, w) == Forward(look.thread)
    ensures Enabled(s, Decide(w, look))
    ensures var t, c := Next(s, Decide(w, look)), s.heap.mem[b];
      && Turning(t, w, Sending, b, batch) && t.heap.mem[b] == c.(dest := look.thread)
      && SameRecord(s, t) && t.fate == s.fate
      && (forall n: nat :: Stock(t.heap, n) == Stock(s.heap, n) && Stocked(t.heap, n) == Stocked(s.heap, n))
      && MayPush(t, Forwarder(w), Forwarded(c.letter), look.thread) && Forwarded(c.letter) == c.letter
  {
    hide HeapOk, Addressed, Tracked, InOrder, Judged;
    StepKeepsInv(s, Decide(w, look));
    var t := Next(s, Decide(w, look));
    assert forall l :: At(t.heap, l) == At(s.heap, l);
    SendingIsGame(t, w);
    hide ClassOf;
  }

  lemma LostEffect(s: State, w: nat, b: Block, batch: seq<Block>)
    requires Turning(s, w, Sending, b, batch) && Enabled(s, MakeCopy(w, Nothing))
    ensures var t := Next(s, MakeCopy(w, Nothing));
      && Turning(t, w, Freeing, b, batch) && t.heap == s.heap
      && SameRecord(s, t)
      && t.fate == s.fate[s.heap.mem[b].ticket := Lost]
  {
    hide HeapOk, Addressed, Tracked, InOrder, Judged;
    StepKeepsInv(s, MakeCopy(w, Nothing));
  }

  lemma GiveBackEffect(s: State, w: nat, b: Block, batch: seq<Block>)
    requires Turning(s, w, Freeing, b, batch)
    ensures Enabled(s, GiveBack(w)) && Owned(s.heap) && !s.heap.place[b].Free?
    ensures var t := Next(s, GiveBack(w));
      && Inv(t) && t.heap == Release(s.heap, Hand(w)) && PhaseOf(t, w) == Idle && At(t.heap, Batch(w)) == batch
      && SameRecord(s, t) && t.fate == s.fate
      && forall v :: At(t.heap, Queue(v)) == At(s.heap, Queue(v))
  {
    hide Sized, Holds, Located, Addressed, Tracked, InOrder, Judged;
    HandBlock(s, Hand(w));
    StepKeepsInv(s, GiveBack(w));
  }

  /** Giving the block back stocks its pool. */
  lemma GiveBackRestocks(s: State, w: nat, b: Block, batch: seq<Block>)
    requires Turning(s, w, Freeing, b, batch) && Owned(s.heap)
    ensures Restocked(s.heap, Release(s.heap, Hand(w)), BlockSize(s.heap.mem[b].letter))
  {
    hide Holds, Located, Shaped, Addressed, Tracked, InOrder, Judged, ClassOf, PoolSize;
  }

  /** Making the copy takes a block from no pool but its own. */
  lemma CopyStock(s: State, w: nat, b: Block, batch: seq<Block>, src: Source)
    requires Turning(s, w, Sending, b, batch) && Enabled(s, MakeCopy(w, src))
    ensures var t := Next(s, MakeCopy(w, src));
      forall c: nat :: !Supplies(BlockSize(s.heap.mem[b].letter), c) ==> Stock(t.heap, c) == Stock(s.heap, c)
  {
    hide Inv, HeapOk, Owned, Shaped, ClassOf, PoolSize;
    SendingIsGame(s, w);
    InvParts(s);
    if src.FromPool? { HandBlock(s, Free(ClassOf(BlockSize(s.heap.mem[b].letter)))); }
  }

  lemma DeliverStock(s: State, w: nat)
    requires Inv(s) && Enabled(s, Deliver(w))
    ensures forall c: nat :: Stock(Next(s, Deliver(w)).heap, c) == Stock(s.heap, c)
  {
    InvParts(s);
    hide HeapOk, Owned, Addressed, Tracked, InOrder, Judged;
  }

  lemma CopyEffect(s: State, w: nat, b: Block, batch: seq<Block>, src: Source)
    requires Turning(s, w, Sending, b, batch) && Enabled(s, MakeCopy(w, src)) && src != Nothing
    requires s.heap.mem[b].dest < MAX_THREAD_NUM
    ensures var t, c := Next(s, MakeCopy(w, src)), s.heap.mem[b];
      && Turning(t, w, Sending, b, batch)
      && SameRecord(s, t) && t.fate == s.fate && t.heap.mem[b] == s.heap.mem[b]
      && At(t.heap, Copy(w)) != [] && var x := At(t.heap, Copy(w))[0];
      x in t.heap.mem && t.heap.mem[x].dest == c.dest && t.heap.mem[x].ticket == c.ticket
  {
    hide Sized, Holds, Located, Addressed, Tracked, InOrder, Judged, ClassOf, PoolSize;
    StepKeepsInv(s, MakeCopy(w, src));
    HandBlock(s, Hand(w));
    if src.FromPool? { Member(s.heap, Free(ClassOf(BlockSize(Forwarded(s.heap.mem[b].letter)))), 0); }
  }

  lemma DeliverEffect(s: State, w: nat, b: Block, batch: seq<Block>)
    requires Turning(s, w, Sending, b, batch) && At(s.heap, Copy(w)) != [] && At(s.heap, Copy(w))[0] in s.heap.mem
    ensures Enabled(s, Deliver(w))
    ensures var u, c := Next(s, Deliver(w)), s.heap.mem[At(s.heap, Copy(w))[0]];
      && Turning(u, w, Freeing, b, batch) && u.heap.mem == s.heap.mem
      && u.arrived == Noted(s.arrived, c.dest, c.ticket)
      && u.popped == s.popped && u.handlers == s.handlers && u.sent == s.sent && u.fate == s.fate
  {
    hide HeapOk, Addressed, Tracked, InOrder, Judged;
    StepKeepsInv(s, Deliver(w));
    InvParts(s);
  }

  /** A whole turn's marks: ticket k was taken up and dealt with. */
  ghost predicate Turned(s: State, t: State, k: nat, act: Act, w: nat, look: Look) {
    && t.handlers == s.handlers && t.sent == s.sent && t.popped == Noted(s.popped, w, k)
    && t.fate == FatesAfter(s.fate, k, act, w, look)
    && forall v: nat :: Log(t.arrived, v) == Log(s.arrived, v) + Arrivals(k, act, v)
  }

  lemma TurnedBy(s: State, t: State, u: State, k: nat, act: Act, w: nat, look: Look)
    requires Marks(t, u, k, act, w, look) && t.fate == s.fate && t.arrived == s.arrived
    requires t.handlers == s.handlers && t.sent == s.sent && t.popped == Noted(s.popped, w, k)
    ensures Turned(s, u, k, act, w, look)
  {
  }

  /** A forwarding push, whether it succeeds or not. */
  lemma PushEffect(s: State, w: nat, b: Block, batch: seq<Block>, m: Letter, src: Source)
    requires Turning(s, w, Sending, b, batch) && Enabled(s, MakeCopy(w, src))
    requires src != Nothing ==> s.heap.mem[b].dest < MAX_THREAD_NUM
    ensures src == Nothing ==> var u := Next(s, MakeCopy(w, src));
      && Turning(u, w, Freeing, b, batch) && u.heap.mem[b] == s.heap.mem[b]
      && u.arrived == s.arrived && u.popped == s.popped
      && u.handlers == s.handlers && u.sent == s.sent && u.fate == s.fate[s.heap.mem[b].ticket := Lost]
    ensures src != Nothing ==> var t, c := Next(s, MakeCopy(w, src)), s.heap.mem[b];
      && Inv(t) && Enabled(t, Deliver(w))
      && var u := Next(t, Deliver(w));
      && Turning(u, w, Freeing, b, batch) && u.heap.mem[b] == s.heap.mem[b]
      && u.arrived == Noted(s.arrived, c.dest, c.ticket)
      && u.popped == s.popped && u.handlers == s.handlers && u.sent == s.sent && u.fate == s.fate
  {
    hide Next, Enabled, Inv;
    if src == Nothing {
      LostEffect(s, w, b, batch);
    } else {
      CopyEffect(s, w, b, batch, src);
      DeliverEffect(Next(s, MakeCopy(w, src)), w, b, batch);
    }
  }

  /** The turns' marks on the history. */
  ghost predicate Marks(s: State, t: State, k: nat, act: Act, w: nat, look: Look) {
    && t.handlers == s.handlers && t.sent == s.sent && t.popped == s.popped
    && t.fate == FatesAfter(s.fate, k, act, w, look)
    && forall v: nat :: Log(t.arrived, v) == Log(s.arrived, v) + Arrivals(k, act, v)
  }

  class MsgHandler {
    const worker: nat
    const registered: set<nat>

    constructor (worker: nat, registered: set<nat>)
      ensures this.worker == worker && this.registered == registered
    {
      this.worker := worker;
      this.registered := registered;
    }

    ghost predicate Serves(s: State) {
      forall id :: id in registered <==> (worker, id) in s.handlers
    }

    /** FreeMsgBlock at the end of a turn. */
    method Finish(g: GlobalObject, hdr: M.MemBlock, ghost batch: seq<Block>)
      requires g.Valid() && Turning(g.state, worker, Freeing, hdr, batch)
      modifies g.Repr()
      ensures g.Valid() && g.Repr() <= old(g.Repr())
      ensures Enabled(old(g.state), GiveBack(worker)) && g.state == Next(old(g.state), GiveBack(worker))
    {
      hide Inv, Next, Enabled, At, M.MemBlockPool.Valid, Release, Turning, GlobalObject.PoolsHold;
      GiveBackEffect(g.state, worker, hdr, batch);
      TurningParts(g.state, worker, Freeing, hdr, batch);
      g.FreeMsgBlock(hdr);
      g.Returned(hdr, Hand(worker), GiveBack(worker));
    }

    /** The message is handled, ignored or dropped, and freed. */
    method Settle(g: GlobalObject, hdr: M.MemBlock, look: Look, ghost act: Act, ghost batch: seq<Block>)
      returns (ghost steps: seq<Step>)
      requires g.Valid() && Serves(g.state) && Turning(g.state, worker, Deciding, hdr, batch)
      requires var c := g.state.heap.mem[hdr];
        && c.dest == worker && !Judge(c.letter, worker, look, worker).Forward?
        && ActOk(c.letter, look, worker, c.letter.cmdID in registered, true, act)
      modifies g.Repr()
      ensures g.Valid() && g.Repr() <= old(g.Repr())
      ensures g.state == Run(old(g.state), steps)
      ensures PhaseOf(g.state, worker) == Idle && At(g.state.heap, Batch(worker)) == batch
      ensures Restocked(old(g.state).heap, g.state.heap, BlockSize(old(g.state).heap.mem[hdr].letter))
      ensures Marks(old(g.state), g.state, old(g.state).heap.mem[hdr].ticket, act, worker, look)
    {
      hide Inv, Next, Enabled, At, Turning, GlobalObject.Valid, Run, Marks;
      ghost var s := g.state;
      TurningParts(s, worker, Deciding, hdr, batch);
      SettleEffect(s, worker, look, hdr, batch);
      g.Note(Decide(worker, look));
      ghost var t := g.state;
      TurningParts(t, worker, Freeing, hdr, batch);
      GiveBackEffect(t, worker, hdr, batch);
      GiveBackRestocks(t, worker, hdr, batch);
      Finish(g, hdr, batch);
      RunOne(s, Decide(worker, look));
      RunMore(s, [Decide(worker, look)], GiveBack(worker));
      steps := [Decide(worker, look)] + [GiveBack(worker)];
      MarksSettled(s, g.state, s.heap.mem[hdr].ticket, act, worker, look);
    }

    /** The message goes to the worker its player is on. */
    method Pass(g: GlobalObject, hdr: M.MemBlock, look: Look, memory: bool, ghost batch: seq<Block>)
      returns (ghost act: Act, ghost steps: seq<Step>)
      requires g.Valid() && Turning(g.state, worker, Deciding, hdr, batch)
      requires var c := g.state.heap.mem[hdr];
        c.dest == worker && Judge(c.letter, worker, look, worker) == Forward(look.thread)
      modifies g.Repr()
      ensures g.Valid() && fresh(g.Repr() - old(g.Repr()))
      ensures g.state == Run(old(g.state), steps)
      ensures PhaseOf(g.state, worker) == Idle && At(g.state.heap, Batch(worker)) == batch
      ensures var m := old(g.state).heap.mem[hdr].letter;
        && ActOk(m, look, worker, true, memory || Stocked(old(g.state).heap, BlockSize(m)), act)
        && Restocked(old(g.state).heap, g.state.heap, BlockSize(m))
      ensures Marks(old(g.state), g.state, old(g.state).heap.mem[hdr].ticket, act, worker, look)
    {
      hide Inv, Next, Enabled, At, Turning, GlobalObject.Valid, Run, Marks, MayPush, PassSteps, Stock, Stocked, ActOk,
        Judge, Restocked, Serves, Stores, GlobalObject.QueuesHold, GlobalObject.PoolsHold, M.MemBlockPool.Valid;
      ghost var s := g.state;
      TurningParts(s, worker, Deciding, hdr, batch);
      ForwardEffect(s, worker, look, hdr, batch);
      g.Stored(hdr);
      g.Readdress(hdr, worker, look);
      TurningParts(g.state, worker, Sending, hdr, batch);
      ghost var src := PushCopy(g, hdr, look.thread, memory, batch);
      act := if src == Nothing then Gone else Moved(look.thread);
      steps := PassSteps(worker, look, src);
      PassOutcome(s, worker, hdr, batch, look, src);
      ghost var m := s.heap.mem[hdr].letter;
      ForwardAct(m, worker, look, memory || Stocked(s.heap, BlockSize(m)), act);
    }

    /** A copy of the readdressed message is pushed and the original freed. */
    method PushCopy(g: GlobalObject, hdr: M.MemBlock, tid: nat, memory: bool, ghost batch: seq<Block>)
      returns (ghost src: Source)
      requires g.Valid() && Turning(g.state, worker, Sending, hdr, batch)
      requires g.state.heap.mem[hdr].dest == tid
      requires MayPush(g.state, Forwarder(worker), Forwarded(g.state.heap.mem[hdr].letter), tid)
      modifies g.Repr()
      ensures g.Valid() && fresh(g.Repr() - old(g.Repr()))
      ensures Enabled(old(g.state), MakeCopy(worker, src))
      ensures src != Nothing <==>
        tid < MAX_THREAD_NUM
        && (memory || Stocked(old(g.state).heap, BlockSize(Forwarded(old(g.state.heap.mem)[hdr].letter))))
      ensures var u := Next(old(g.state), MakeCopy(worker, src));
        && Inv(u) && (src != Nothing ==> Enabled(u, Deliver(worker)))
        && var v := if src == Nothing then u else Next(u, Deliver(worker));
        Inv(v) && Enabled(v, GiveBack(worker)) && g.state == Next(v, GiveBack(worker))
    {
      hide Inv, Next, Enabled, At, Turning, GlobalObject.Valid, MayPush;
      ghost var t := g.state;
      TurningParts(t, worker, Sending, hdr, batch);
      g.Stored(hdr);
      ghost var ok;
      ok, src := g.PushMsg(Forwarder(worker), Forwarded(hdr.letter), tid, memory);
      PushEffect(t, worker, hdr, batch, Forwarded(hdr.letter), src);
      TurningParts(g.state, worker, Freeing, hdr, batch);
      Finish(g, hdr, batch);
    }

    /** The branches of ProcessMsg for the message in hand; tells whether the handler ran. */
    method Dispatch(g: GlobalObject, hdr: M.MemBlock, look: Look, memory: bool, ghost batch: seq<Block>)
      returns (ran: bool, ghost act: Act, ghost steps: seq<Step>)
      requires g.Valid() && Serves(g.state) && Turning(g.state, worker, Deciding, hdr, batch)
      requires g.state.heap.mem[hdr].dest == worker && Proper(g.state.heap.mem[hdr].letter)
      modifies g.Repr()
      ensures g.Valid() && fresh(g.Repr() - old(g.Repr())) && g.state == Run(old(g.state), steps)
      ensures PhaseOf(g.state, worker) == Idle && At(g.state.heap, Batch(worker)) == batch
      ensures ran <==> act == Ran
      ensures var c := old(g.state.heap.mem)[hdr];
        && ActOk(c.letter, look, worker, c.letter.cmdID in registered,
                 memory || Stocked(old(g.state).heap, BlockSize(c.letter)), act)
        && Restocked(old(g.state).heap, g.state.heap, BlockSize(c.letter))
        && Marks(old(g.state), g.state, c.ticket, act, worker, look)
    {
      hide Inv, At, Turning, GlobalObject.Valid, Run, Marks;
      TurningParts(g.state, worker, Deciding, hdr, batch);
      g.Stored(hdr);
      ran := false;
      assert hdr.letter.cmdID < MAX_MSG_NUM;
      if hdr.letter.cmdID <= 0xFF && hdr.dest <= WORKER_THREAD_NEUTRAL {
        if hdr.letter.player != 0 {
          if look.jumping {
            act := Thrown;
            steps := Settle(g, hdr, look, act, batch);
            return;
          } else if look.thread != worker {
            act := Thrown;
            steps := Settle(g, hdr, look, act, batch);
            return;
          }
        }
      } else if MIN_INNER_CHECK_MSG <= hdr.letter.cmdID <= MAX_2_MSG_NUM {
        if hdr.letter.player != 0 {
          var tid := look.thread;
          if tid != worker {
            act, steps := Pass(g, hdr, look, memory, batch);
            return;
          }
        }
      }
      ran := hdr.letter.cmdID in registered;
      act := if ran then Ran else Ignored;
      steps := Settle(g, hdr, look, act, batch);
    }

    /** One turn of ProcessMsg's loop. */
    method Turn(g: GlobalObject, hdr: M.MemBlock, look: Look, memory: bool)
      returns (ran: bool, ghost act: Act, ghost steps: seq<Step>)
      requires g.Valid() && Serves(g.state) && Enabled(g.state, Pop(worker))
      requires hdr == At(g.state.heap, Batch(worker))[0]
      modifies g.Repr()
      ensures g.Valid() && fresh(g.Repr() - old(g.Repr())) && g.state == Run(old(g.state), steps)
      ensures PhaseOf(g.state, worker) == Idle
      ensures At(g.state.heap, Batch(worker)) == old(At(g.state.heap, Batch(worker)))[1..]
      ensures ran <==> act == Ran
      ensures hdr in old(g.state.heap.mem)
      ensures var c := old(g.state.heap.mem)[hdr];
        && ActOk(c.letter, look, worker, c.letter.cmdID in registered,
                 memory || Stocked(old(g.state).heap, BlockSize(c.letter)), act)
        && Restocked(old(g.state).heap, g.state.heap, BlockSize(c.letter))
        && Turned(old(g.state), g.state, c.ticket, act, worker, look)
    {
      hide Inv, Next, At, Turning, GlobalObject.Valid, Run, Marks, Turned, Noted, ActOk;
      ghost var s, batch := g.state, At(g.state.heap, Batch(worker))[1..];
      g.Sound();
      PopEffect(s, worker);
      g.Note(Pop(worker));
      ghost var t := g.state;
      TurningParts(t, worker, Deciding, hdr, batch);
      ran, act, steps := Dispatch(g, hdr, look, memory, batch);
      FirstPop(s, worker, steps);
      steps := [Pop(worker)] + steps;
      TurnedBy(s, t, g.state, t.heap.mem[hdr].ticket, act, worker, look);
    }

    /** Turn i of a batch that began in state s; returns the message if its handler ran. */
    method NextTurn(g: GlobalObject, hdr: M.MemBlock, i: nat, looks: nat -> Look, memory: nat -> bool,
                    ghost s: State, ghost ks: seq<nat>, ghost acts: seq<Act>)
      returns (call: seq<Letter>, ghost act: Act, ghost steps: seq<Step>)
      requires g.Valid() && i == |acts| < |ks| && PhaseOf(g.state, worker) == Idle
      requires Serves(s) && Log(s.arrived, worker) == Log(s.popped, worker) + ks
      requires Dispatched(s, g.state, ks[..i], acts, worker, registered, looks, memory)
      requires |At(g.state.heap, Batch(worker))| == |ks| - i && At(g.state.heap, Batch(worker))[0] == hdr
      modifies g.Repr()
      ensures g.Valid() && fresh(g.Repr() - old(g.Repr())) && g.state == Run(old(g.state), steps)
      ensures PhaseOf(g.state, worker) == Idle
      ensures At(g.state.heap, Batch(worker)) == old(At(g.state.heap, Batch(worker)))[1..]
      ensures Dispatched(s, g.state, ks[..i + 1], acts + [act], worker, registered, looks, memory)
      ensures Calls(s.sent, ks[..i + 1], acts + [act]) == Calls(s.sent, ks[..i], acts) + call
    {
      hide Inv, Next, At, GlobalObject.Valid, Run, Turned, Noted, Dispatched, Log, Calls, ActOk, PhaseOf;
      ghost var t := g.state;
      g.Sound();
      DispatchedParts(s, t, ks[..i], acts, worker, registered, looks, memory);
      NoneBack(s, t, ks[..i], acts, worker, registered, looks, memory);
      NextTicket(s, t, worker, ks, i);
      g.Stored(hdr);
      var letter := hdr.letter;
      var ran;
      ran, act, steps := Turn(g, hdr, looks(i), memory(i));
      OneMore(s, t, g.state, ks[..i], acts, worker, registered, looks, memory, ks[i], act);
      assert ks[..i + 1] == ks[..i] + [ks[i]];
      call := if ran then [letter] else [];
    }

    /** Takes the worker's queue and deals with every message in it; `looks` and `memory` say, message by message,
        what is seen of the player and whether malloc succeeds. */
    method ProcessMsg(g: GlobalObject, shutdown: bool, looks: nat -> Look, memory: nat -> bool)
      returns (ok: bool, calls: seq<Letter>, ghost acts: seq<Act>, ghost steps: seq<Step>)
      requires g.Valid() && Serves(g.state) && worker < MAX_THREAD_NUM
      requires PhaseOf(g.state, worker) == Idle && At(g.state.heap, Batch(worker)) == []
      modifies g.Repr()
      ensures g.Valid() && fresh(g.Repr() - old(g.Repr())) && g.state == Run(old(g.state), steps)
      ensures PhaseOf(g.state, worker) == Idle && At(g.state.heap, Batch(worker)) == []
      ensures ok <==> old(g.queues[worker]) != []
                      && !(shutdown && (worker < WORKER_THREAD_DB || worker == WORKER_THREAD_LOAD))
      ensures !ok ==> g.state == old(g.state) && calls == []
      ensures ok ==> var ks := old(Tickets(g.state.heap, Queue(worker)));
        && Dispatched(old(g.state), g.state, ks, acts, worker, registered, looks, memory)
        && calls == Calls(old(g.state).sent, ks, acts)
    {
      hide Inv, Next, At, GlobalObject.Valid, Run, Noted, Tickets, Dispatched, Log, Calls, Enabled, PhaseOf;
      ghost var s := g.state;
      g.Sound();
      calls, acts, steps := [], [], [];
      RunNothing(s);
      if shutdown && (worker < WORKER_THREAD_DB || worker == WORKER_THREAD_LOAD) { return false, [], [], []; }
      var batch;
      ok, batch := g.GetMsgQueue(worker);
      if !ok { return false, [], [], []; }
      ghost var ks := Tickets(s.heap, Queue(worker));
      TakeEffect(s, worker);
      NothingDispatched(s, g.state, worker, registered, looks, memory);
      RunOne(s, Take(worker));
      assert ks[..0] == [] && batch == At(g.state.heap, Batch(worker));
      calls, acts, steps := RunBatch(g, batch, looks, memory, s, ks);
      RunConcat(s, [Take(worker)], steps);
      steps := [Take(worker)] + steps;
    }

    /** The loop of ProcessMsg, over the batch that a worker took in state s. */
    method RunBatch(g: GlobalObject, batch: seq<M.MemBlock>, looks: nat -> Look, memory: nat -> bool,
                    ghost s: State, ghost ks: seq<nat>)
      returns (calls: seq<Letter>, ghost acts: seq<Act>, ghost steps: seq<Step>)
      requires g.Valid() && PhaseOf(g.state, worker) == Idle && At(g.state.heap, Batch(worker)) == batch
      requires Serves(s) && Log(s.arrived, worker) == Log(s.popped, worker) + ks && |ks| == |batch|
      requires Dispatched(s, g.state, [], [], worker, registered, looks, memory)
      modifies g.Repr()
      ensures g.Valid() && fresh(g.Repr() - old(g.Repr())) && g.state == Run(old(g.state), steps)
      ensures PhaseOf(g.state, worker) == Idle && At(g.state.heap, Batch(worker)) == []
      ensures Dispatched(s, g.state, ks, acts, worker, registered, looks, memory)
      ensures |acts| == |ks| && calls == Calls(s.sent, ks, acts)
    {
      hide Inv, Next, At, GlobalObject.Valid, Run, Dispatched, Log, Calls, PhaseOf, Serves,
        Enabled, M.MemBlockPool.Valid, Release, Acquire, Judge, FatesAfter, GlobalObject.QueuesHold, Stores;
      ghost var t := g.state;
      RunNothing(t) by { g.Sound(); }
      CallsNothing(s.sent);
      calls, acts, steps := [], [], [];
      var i := 0;
      while i < |batch|
        invariant i <= |batch| == |ks|
        invariant g.Valid() && fresh(g.Repr() - old(g.Repr())) && g.state == Run(t, steps)
        invariant PhaseOf(g.state, worker) == Idle && At(g.state.heap, Batch(worker)) == batch[i..]
        invariant |acts| == i && Dispatched(s, g.state, ks[..i], acts, worker, registered, looks, memory)
        invariant calls == Calls(s.sent, ks[..i], acts)
      {
        var call;
        ghost var act, more;
        call, act, more := NextTurn(g, batch[i], i, looks, memory, s, ks, acts);
        RunConcat(t, steps, more);
        assert batch[i..][1..] == batch[i + 1..];
        calls := calls + call;
        acts, steps := acts + [act], steps + more;
        i := i + 1;
      }
      assert ks[..i] == ks;
    }
  }

  lemma TakeEffect(s: State, w: nat)
    requires Inv(s) && Enabled(s, Take(w))
    ensures var t := Next(s, Take(w));
      && Inv(t) && PhaseOf(t, w) == Idle && At(t.heap, Batch(w)) == At(s.heap, Queue(w))
      && SameRecord(s, t)
      && t.fate == s.fate
    ensures forall c: nat :: Stock(Next(s, Take(w)).heap, c) == Stock(s.heap, c)
    ensures Log(s.arrived, w) == Log(s.popped, w) + Tickets(s.heap, Queue(w))
    ensures |Tickets(s.heap, Queue(w))| == |At(s.heap, Queue(w))|
  {
    hide HeapOk, Addressed, Tracked, Judged;
    StepKeepsInv(s, Take(w));
    assert InOrder(s);
    assert Tickets(s.heap, Batch(w)) == [];
    assert [] + Tickets(s.heap, Queue(w)) == Tickets(s.heap, Queue(w));
  }

  lemma FirstPop(s: State, w: nat, steps: seq<Step>)
    requires Inv(s) && Enabled(s, Pop(w)) && Inv(Next(s, Pop(w)))
    ensures Run(s, [Pop(w)] + steps) == Run(Next(s, Pop(w)), steps)
  {
    hide Inv, Next, Run, Enabled;
    RunConcat(s, [Pop(w)], steps);
    RunOne(s, Pop(w));
  }


  function PassSteps(w: nat, look: Look, src: Source): seq<Step> {
    ([Decide(w, look)] + [MakeCopy(w, src)]) + (if src == Nothing then [] else [Deliver(w)]) + [GiveBack(w)]
  }

  lemma PassRun(s: State, w: nat, look: Look, src: Source)
    requires Inv(s) && Enabled(s, Decide(w, look))
    requires var t := Next(s, Decide(w, look)); Inv(t) && Enabled(t, MakeCopy(w, src))
    requires var u := Next(Next(s, Decide(w, look)), MakeCopy(w, src));
      && Inv(u) && (src != Nothing ==> Enabled(u, Deliver(w)))
      && var v := if src == Nothing then u else Next(u, Deliver(w));
      Inv(v) && Enabled(v, GiveBack(w))
    ensures var u := Next(Next(s, Decide(w, look)), MakeCopy(w, src));
      var v := if src == Nothing then u else Next(u, Deliver(w));
      Run(s, PassSteps(w, look, src)) == Next(v, GiveBack(w))
  {
    hide Inv, Next, Enabled, Run;
    var a := [Decide(w, look)];
    var b := a + [MakeCopy(w, src)];
    RunOne(s, Decide(w, look));
    RunMore(s, a, MakeCopy(w, src));
    if src == Nothing {
      assert b + [] == b;
      RunMore(s, b, GiveBack(w));
    } else {
      RunMore(s, b, Deliver(w));
      RunMore(s, b + [Deliver(w)], GiveBack(w));
    }
  }

  /** All of a forwarding turn behind the Pop. */
  lemma PassOutcome(s: State, w: nat, b: Block, batch: seq<Block>, look: Look, src: Source)
    requires Turning(s, w, Deciding, b, batch) && s.heap.mem[b].dest == w
    requires Judge(s.heap.mem[b].letter, w, look, w) == Forward(look.thread)
    requires Enabled(s, Decide(w, look))
    requires var t := Next(s, Decide(w, look)); Inv(t) && Enabled(t, MakeCopy(w, src))
    requires src != Nothing ==> look.thread < MAX_THREAD_NUM
    ensures var u := Next(Next(s, Decide(w, look)), MakeCopy(w, src));
      && Inv(u) && (src != Nothing ==> Enabled(u, Deliver(w)))
      && var v := if src == Nothing then u else Next(u, Deliver(w));
      && Inv(v) && Enabled(v, GiveBack(w))
      && var t := Next(v, GiveBack(w));
      && Run(s, PassSteps(w, look, src)) == t && PhaseOf(t, w) == Idle && At(t.heap, Batch(w)) == batch
      && Marks(s, t, s.heap.mem[b].ticket, if src == Nothing then Gone else Moved(look.thread), w, look)
      && Restocked(s.heap, t.heap, BlockSize(s.heap.mem[b].letter))
  {
    hide Inv, Next, Enabled, Run, Turning, Marks, At, Stock, Supplies;
    TurningParts(s, w, Deciding, b, batch);
    ForwardEffect(s, w, look, b, batch);
    var t := Next(s, Decide(w, look));
    TurningParts(t, w, Sending, b, batch);
    PushEffect(t, w, b, batch, Forwarded(s.heap.mem[b].letter), src);
    var u := Next(t, MakeCopy(w, src));
    var v := if src == Nothing then u else Next(u, Deliver(w));
    TurningParts(v, w, Freeing, b, batch);
    GiveBackEffect(v, w, b, batch);
    CopyStock(t, w, b, batch, src);
    if src != Nothing { DeliverStock(u, w); }
    GiveBackRestocks(v, w, b, batch);
    PassRun(s, w, look, src);
    if src == Nothing {
      MarksSettled(s, Next(v, GiveBack(w)), s.heap.mem[b].ticket, Gone, w, look);
    } else {
      MarksMoved(s, Next(v, GiveBack(w)), s.heap.mem[b].ticket, look.thread, w, look);
    }
  }

  lemma ForwardAct(m: Letter, w: nat, look: Look, block: bool, act: Act)
    requires Judge(m, w, look, w) == Forward(look.thread)
    requires act == if look.thread < MAX_THREAD_NUM && block then Moved(look.thread) else Gone
    ensures ActOk(m, look, w, true, block, act)
  {
  }

  lemma MarksSettled(s: State, t: State, k: nat, act: Act, w: nat, look: Look)
    requires SameRecord(s, t) && !act.Moved?
    requires t.fate == s.fate[k := FateOf(act, w, look)]
    ensures Marks(s, t, k, act, w, look)
  {
  }

  lemma MarksMoved(s: State, t: State, k: nat, to: nat, w: nat, look: Look)
    requires t.handlers == s.handlers && t.sent == s.sent && t.popped == s.popped && t.fate == s.fate
    requires t.arrived == Noted(s.arrived, to, k)
    ensures Marks(s, t, k, Moved(to), w, look)
  {
  }

  lemma TurningParts(s: State, w: nat, phase: Phase, b: Block, batch: seq<Block>)
    requires Turning(s, w, phase, b, batch)
    ensures Inv(s) && b in s.heap.mem && At(s.heap, Hand(w)) == [b] && PhaseOf(s, w) == phase
    ensures At(s.heap, Batch(w)) == batch
  {
  }
}
