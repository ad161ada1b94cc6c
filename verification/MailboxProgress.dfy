/** While nothing new is sent and players stay where they are, every step of the mailbox system brings it nearer to
    rest. */
module MailboxProgress {
  import opened MailboxSpec
  import opened MailboxHeap
  import opened MailboxRuns

  // ----- sums over blocks -----

  ghost function Val(m: map<Block, nat>, b: Block): nat { if b in m then m[b] else 0 }

  ghost function Total(m: map<Block, nat>): nat
    decreases |m|
  {
    if m == map[] then 0
    else
      var b :| b in m;
      m[b] + Total(m - {b})
  }

  lemma {:induction false} TotalSplit(m: map<Block, nat>, b: Block)
    ensures Total(m) == Val(m, b) + Total(m - {b})
    decreases |m|
  {
    if b !in m {
      assert m - {b} == m;
    } else {
      var c :| c in m && Total(m) == m[c] + Total(m - {c});
      if c != b {
        TotalSplit(m - {c}, b);
        TotalSplit(m - {b}, c);
        assert m - {c} - {b} == m - {b} - {c};
      }
    }
  }

  lemma {:induction false} TotalMono(m: map<Block, nat>, n: map<Block, nat>)
    requires forall b :: b in m ==> m[b] <= Val(n, b)
    ensures Total(m) <= Total(n)
    decreases |m|
  {
    if m != map[] {
      var b :| b in m;
      TotalSplit(m, b);
      TotalSplit(n, b);
      TotalMono(m - {b}, n - {b});
    }
  }

  /** No value grew, and that of x fell by d. */
  lemma TotalDrop(m: map<Block, nat>, n: map<Block, nat>, x: Block, d: nat)
    requires forall b :: b in m && b != x ==> m[b] <= Val(n, b)
    requires Val(m, x) + d <= Val(n, x)
    ensures Total(m) + d <= Total(n)
  {
    TotalSplit(m, x);
    TotalSplit(n, x);
    TotalMono(m - {x}, n - {x});
  }

  lemma {:induction false} TotalBound(m: map<Block, nat>, k: nat)
    requires forall b :: b in m ==> m[b] <= k
    ensures Total(m) <= k * |m|
    decreases |m|
  {
    if m != map[] {
      var b :| b in m && Total(m) == m[b] + Total(m - {b});
      TotalBound(m - {b}, k);
      assert |m - {b}| == |m| - 1;
      assert k * |m| == k * (|m| - 1) + k;
    }
  }

  // ----- how far each block is from its pool -----

  /** The message is not one to forward, or it is addressed to where its player is. */
  ghost predicate AtHome(c: Cell, whereabouts: nat -> nat) {
    MayForward(c.letter) ==> whereabouts(c.letter.player) == c.dest
  }

  /** How many steps a block and the copies of its message can still take. */
  function StepsLeft(l: Place, phase: Phase, copied: bool, home: bool): nat {
    match l
    case Free(_) => 0
    case Hand(_) =>
      (match phase
       case Deciding => if home then 2 else 9
       case Sending => if copied then 2 else if home then 8 else 15
       case _ => 1)
    case Batch(_) => if home then 3 else 10
    case Queue(_) => if home then 4 else 11
    case Copy(_) => if home then 5 else 12
    case Out(_) => if home then 5 else 12
  }

  function WorkerOf(l: Place): nat { if l.Hand? then l.worker else 0 }

  ghost function Weight(s: State, b: Block, whereabouts: nat -> nat): nat
    requires b in s.heap.mem && b in s.heap.place
  {
    var l := s.heap.place[b];
    StepsLeft(l, PhaseOf(s, WorkerOf(l)), At(s.heap, Copy(WorkerOf(l))) != [], AtHome(s.heap.mem[b], whereabouts))
  }

  ghost function Weights(s: State, whereabouts: nat -> nat): map<Block, nat>
    requires s.heap.place.Keys == s.heap.mem.Keys
  {
    map b | b in s.heap.mem :: Weight(s, b, whereabouts)
  }

  ghost function Distance(s: State, whereabouts: nat -> nat): nat
    requires Inv(s)
  {
    Total(Weights(s, whereabouts))
  }

  lemma DistanceBound(s: State, whereabouts: nat -> nat)
    requires Inv(s)
    ensures Distance(s, whereabouts) <= 15 * |s.heap.mem|
  {
    hide Inv, At, AtHome, PhaseOf, Total;
    SameKeys(s);
    var m := Weights(s, whereabouts);
    assert m.Keys == s.heap.mem.Keys;
    assert |m| == |m.Keys| && |s.heap.mem| == |s.heap.mem.Keys| by { hide *; }
    hide StepsLeft;
    forall b | b in m ensures m[b] <= 15 { WeightBound(s, b, whereabouts); }
    TotalBound(m, 15);
  }

  lemma WeightBound(s: State, b: Block, whereabouts: nat -> nat)
    requires b in s.heap.mem && b in s.heap.place
    ensures Weight(s, b, whereabouts) <= 15
  {
    hide At, AtHome, PhaseOf;
  }

  // ----- calm steps -----

  /** A possible step that sends nothing new, and for which the player is where it always is. */
  ghost predicate Calm(s: State, step: Step, whereabouts: nat -> nat)
    requires Inv(s)
  {
    && Enabled(s, step) && !step.Send?
    && (step.Decide? ==> step.look.thread == whereabouts(InHand(s, step.worker).letter.player))
  }

  /** Weights of blocks that stay in a place of which the step changes nothing. */
  lemma SameWeight(s: State, t: State, x: Block, whereabouts: nat -> nat)
    requires x in s.heap.mem && x in s.heap.place && x in t.heap.mem && x in t.heap.place
    requires t.heap.place[x] == s.heap.place[x]
    requires t.heap.mem[x].letter == s.heap.mem[x].letter && t.heap.mem[x].dest == s.heap.mem[x].dest
    requires s.heap.place[x].Hand? ==> var w := s.heap.place[x].worker;
      PhaseOf(t, w) == PhaseOf(s, w) && (At(t.heap, Copy(w)) == []) == (At(s.heap, Copy(w)) == [])
    ensures Weight(t, x, whereabouts) == Weight(s, x, whereabouts)
  {
  }

  /** One block gets nearer to its pool, or into it, and no other falls back. */
  lemma OneDrops(s: State, t: State, b: Block, whereabouts: nat -> nat)
    requires Inv(s) && Inv(t) && b in s.heap.mem && s.heap.place.Keys == s.heap.mem.Keys
    requires t.heap.place.Keys == t.heap.mem.Keys
    requires forall x :: x in t.heap.mem && x != b ==>
      x in s.heap.mem && Weight(t, x, whereabouts) <= Weight(s, x, whereabouts)
    requires (if b in t.heap.mem then Weight(t, b, whereabouts) else 0) < Weight(s, b, whereabouts)
    ensures Distance(t, whereabouts) < Distance(s, whereabouts)
  {
    hide Inv, Weight;
    TotalDrop(Weights(t, whereabouts), Weights(s, whereabouts), b, 1);
  }

  // A block moves from one list to another.

  lemma MoveDrops(s: State, t: State, b: Block, l: Place, k: Place, whereabouts: nat -> nat)
    requires Inv(s) && Inv(t) && Moves(s.heap, t.heap, b, l, k) && t.heap.place.Keys == t.heap.mem.Keys
    requires forall x :: x in s.heap.mem && x != b && s.heap.place[x].Hand? ==>
      var w := s.heap.place[x].worker;
      PhaseOf(t, w) == PhaseOf(s, w) && l != Copy(w) && k != Copy(w)
    requires Weight(t, b, whereabouts) < Weight(s, b, whereabouts)
    ensures Distance(t, whereabouts) < Distance(s, whereabouts)
  {
    hide Inv, At;
    forall x | x in t.heap.mem && x != b ensures Weight(t, x, whereabouts) == Weight(s, x, whereabouts) {
      SameWeight(s, t, x, whereabouts);
    }
    hide Weight;
    OneDrops(s, t, b, whereabouts);
  }

  /** What pushing a block does to the heap. */
  lemma PushMoves(s: State, l: Place) returns (b: Block)
    requires Inv(s) && Owned(s.heap) && At(s.heap, l) != [] && !l.Queue?
    ensures b in s.heap.mem && s.heap.place[b] == l && At(s.heap, l)[0] == b
    ensures var t := PushFrom(s, l);
      && Moves(s.heap, t.heap, b, l, Queue(s.heap.mem[b].dest)) && t.phase == s.phase
      && t.heap.place.Keys == t.heap.mem.Keys
  {
    hide Shaped, Addressed, Tracked, InOrder, Judged, Sized, Holds, Located;
    HandBlock(s, l);
    b := At(s.heap, l)[0];
    RelocateMoves(s.heap, l, Queue(s.heap.mem[b].dest));
    hide Inv, Relocate, HeapOk;
  }

  lemma EnqueueDrops(s: State, n: nat, whereabouts: nat -> nat)
    requires Inv(s) && Owned(s.heap) && At(s.heap, Out(n)) != [] && Inv(PushFrom(s, Out(n)))
    ensures Distance(PushFrom(s, Out(n)), whereabouts) < Distance(s, whereabouts)
  {
    hide Inv, At, Owned, PushFrom;
    var b := PushMoves(s, Out(n));
    MoveDrops(s, PushFrom(s, Out(n)), b, Out(n), Queue(s.heap.mem[b].dest), whereabouts);
  }

  lemma PopMoves(s: State, w: nat) returns (b: Block)
    requires Inv(s) && PhaseOf(s, w) == Idle && At(s.heap, Batch(w)) != []
    ensures forall x :: x in s.heap.mem && x in s.heap.place ==> s.heap.place[x] != Hand(w)
    ensures var h := Relocate(s.heap, Batch(w), Hand(w));
      Moves(s.heap, h, b, Batch(w), Hand(w)) && h.place.Keys == h.mem.Keys
  {
    hide Addressed, Tracked, InOrder, Judged, Sized, Holds, Located;
    HandBlock(s, Batch(w));
    b := At(s.heap, Batch(w))[0];
    RelocateMoves(s.heap, Batch(w), Hand(w));
    assert |At(s.heap, Hand(w))| == 0;
    NoneThere(s.heap, Hand(w));
    hide Inv, Relocate, HeapOk;
  }

  lemma PopDrops(s: State, w: nat, t: State, whereabouts: nat -> nat)
    requires Inv(s) && PhaseOf(s, w) == Idle && At(s.heap, Batch(w)) != [] && Inv(t)
    requires t.heap == Relocate(s.heap, Batch(w), Hand(w)) && t.phase == s.phase[w := Deciding]
    ensures Distance(t, whereabouts) < Distance(s, whereabouts)
  {
    hide Inv, At, Relocate;
    var b := PopMoves(s, w);
    MoveDrops(s, t, b, Batch(w), Hand(w), whereabouts);
  }

  /** The only block in a busy worker's hand. */
  lemma OnlyInHand(s: State, w: nat) returns (d: Block)
    requires Inv(s) && PhaseOf(s, w) != Idle
    ensures At(s.heap, Hand(w)) == [d] && d in s.heap.mem && d in s.heap.place && s.heap.place[d] == Hand(w)
    ensures forall x :: x in s.heap.mem && x in s.heap.place && s.heap.place[x] == Hand(w) ==> x == d
    ensures PhaseOf(s, w) != Sending ==> At(s.heap, Copy(w)) == []
  {
    hide Addressed, Tracked, InOrder, Judged, Sized, Holds, Located;
    HandBlock(s, Hand(w));
    d := At(s.heap, Hand(w))[0];
    OnlyOne(s.heap, Hand(w), d);
  }

  lemma DeliverDrops(s: State, w: nat, t: State, whereabouts: nat -> nat)
    requires Inv(s) && Owned(s.heap) && PhaseOf(s, w) == Sending && At(s.heap, Copy(w)) != [] && Inv(t)
    requires t == SetPhase(PushFrom(s, Copy(w)), w, Freeing)
    ensures Distance(t, whereabouts) < Distance(s, whereabouts)
  {
    hide Inv, At, Owned, PushFrom;
    var b := PushMoves(s, Copy(w));
    var d := OnlyInHand(s, w);
    DeliverWeights(s, t, w, b, d, whereabouts);
    hide Weight, Moves;
    OneDrops(s, t, b, whereabouts);
  }

  lemma DeliverWeights(s: State, t: State, w: nat, b: Block, d: Block, whereabouts: nat -> nat)
    requires b in s.heap.mem && Moves(s.heap, t.heap, b, Copy(w), Queue(s.heap.mem[b].dest))
    requires t.heap.place.Keys == t.heap.mem.Keys && t.phase == s.phase[w := Freeing]
    requires PhaseOf(s, w) == Sending && d in s.heap.mem && s.heap.place[d] == Hand(w)
    requires forall x :: x in s.heap.mem && s.heap.place[x] == Hand(w) ==> x == d
    ensures Weight(t, b, whereabouts) < Weight(s, b, whereabouts)
    ensures forall x :: x in t.heap.mem && x != b ==> Weight(t, x, whereabouts) <= Weight(s, x, whereabouts)
  {
    hide At;
    forall x | x in t.heap.mem && x != b && x != d ensures Weight(t, x, whereabouts) == Weight(s, x, whereabouts) {
      SameWeight(s, t, x, whereabouts);
    }
  }

  // A worker takes its queue.

  lemma TakeDrops(s: State, w: nat, t: State, whereabouts: nat -> nat)
    requires Inv(s) && At(s.heap, Queue(w)) != [] && Inv(t)
    requires t == s.(heap := TakeAll(s.heap, Queue(w), Batch(w)))
    ensures Distance(t, whereabouts) < Distance(s, whereabouts)
  {
    hide Inv, At, TakeAll;
    var b := TakeFacts(s, w);
    TakeWeights(s, t, w, whereabouts);
    assert Weight(t, b, whereabouts) < Weight(s, b, whereabouts);
    hide Weight;
    OneDrops(s, t, b, whereabouts);
  }

  lemma TakeFacts(s: State, w: nat) returns (b: Block)
    requires Inv(s) && At(s.heap, Queue(w)) != []
    ensures s.heap.place.Keys == s.heap.mem.Keys && b in s.heap.mem && s.heap.place[b] == Queue(w)
    ensures var h := TakeAll(s.heap, Queue(w), Batch(w));
      && h.mem == s.heap.mem && h.place.Keys == h.mem.Keys
      && h.place == (map x | x in s.heap.place :: if s.heap.place[x] == Queue(w) then Batch(w) else s.heap.place[x])
      && forall v :: At(h, Copy(v)) == At(s.heap, Copy(v))
  {
    hide Inv, Owned, Shaped, HeapOk, At, TakeAll;
    InvParts(s);
    SameKeys(s);
    TakenAll(s.heap, Queue(w), Batch(w));
    HandBlock(s, Queue(w));
    b := At(s.heap, Queue(w))[0];
  }

  lemma TakenAll(h: Heap, l: Place, k: Place)
    requires Owned(h)
    ensures var g := TakeAll(h, l, k);
      && g.mem == h.mem && g.mem.Keys == h.place.Keys
      && g.place == (map b | b in h.place :: if h.place[b] == l then k else h.place[b])
      && forall p :: p != l && p != k ==> At(g, p) == At(h, p)
  {
    hide Holds, Located;
  }

  lemma TakeWeights(s: State, t: State, w: nat, whereabouts: nat -> nat)
    requires s.heap.place.Keys == s.heap.mem.Keys && t.phase == s.phase && t.heap.mem == s.heap.mem
    requires t.heap.place
      == map b | b in s.heap.place :: if s.heap.place[b] == Queue(w) then Batch(w) else s.heap.place[b]
    requires forall v :: At(t.heap, Copy(v)) == At(s.heap, Copy(v))
    ensures forall x :: x in s.heap.mem ==>
      && Weight(t, x, whereabouts) <= Weight(s, x, whereabouts)
      && (s.heap.place[x] == Queue(w) ==> Weight(t, x, whereabouts) < Weight(s, x, whereabouts))
  {
    hide At;
  }

  // A worker deals with the message in its hand.

  /** Only the block in this worker's hand, and the worker's phase, have changed. */
  ghost predicate HandChanged(s: State, t: State, w: nat, d: Block) {
    && s.heap.place.Keys == s.heap.mem.Keys && t.heap.place == s.heap.place && d in s.heap.mem
    && s.heap.place[d] == Hand(w) && t.heap.mem.Keys == s.heap.mem.Keys
    && (forall x :: x in s.heap.mem && x != d ==> t.heap.mem[x] == s.heap.mem[x] && s.heap.place[x] != Hand(w))
    && (forall v :: At(t.heap, Copy(v)) == At(s.heap, Copy(v)))
    && (forall v :: v != w ==> PhaseOf(t, v) == PhaseOf(s, v))
  }

  lemma HandDrops(s: State, t: State, w: nat, d: Block, whereabouts: nat -> nat)
    requires Inv(s) && Inv(t) && HandChanged(s, t, w, d)
    requires Weight(t, d, whereabouts) < Weight(s, d, whereabouts)
    ensures Distance(t, whereabouts) < Distance(s, whereabouts)
  {
    hide Inv, At;
    forall x | x in t.heap.mem && x != d ensures Weight(t, x, whereabouts) == Weight(s, x, whereabouts) {
      SameWeight(s, t, x, whereabouts);
    }
    hide Weight;
    OneDrops(s, t, d, whereabouts);
  }

  lemma SettleDrops(s: State, w: nat, t: State, whereabouts: nat -> nat)
    requires Inv(s) && Inv(t) && PhaseOf(s, w) != Idle && PhaseOf(s, w) != Freeing && At(s.heap, Copy(w)) == []
    requires t.heap == s.heap && t.phase == s.phase[w := Freeing]
    ensures Distance(t, whereabouts) < Distance(s, whereabouts)
  {
    hide Inv, Owned, Shaped, HeapOk, At;
    var d := OnlyInHand(s, w);
    SameKeys(s);
    HandDrops(s, t, w, d, whereabouts);
  }

  lemma SameKeys(s: State)
    requires Inv(s)
    ensures s.heap.place.Keys == s.heap.mem.Keys
  {
    InvParts(s);
  }

  lemma DecideDrops(s: State, w: nat, look: Look, t: State, whereabouts: nat -> nat)
    requires Inv(s) && Owned(s.heap) && PhaseOf(s, w) == Deciding && At(s.heap, Hand(w)) != [] && Inv(t)
    requires look.thread == whereabouts(InHand(s, w).letter.player) && t == DoDecide(s, w, look)
    ensures Distance(t, whereabouts) < Distance(s, whereabouts)
  {
    hide Inv, Owned, Shaped, HeapOk, At;
    InvParts(s);
    var d := OnlyInHand(s, w);
    var c := DecidingCell(s, w, d);
    match Judge(c.letter, c.dest, look, w)
    case Handle =>
      SettleDrops(s, w, t, whereabouts);
    case Drop => SettleDrops(s, w, t, whereabouts);
    case Forward(to) => ForwardDrops(s, w, d, to, t, whereabouts);
  }

  lemma DecidingCell(s: State, w: nat, d: Block) returns (c: Cell)
    requires Inv(s) && PhaseOf(s, w) == Deciding && At(s.heap, Hand(w)) == [d] && d in s.heap.mem
    ensures c == s.heap.mem[d] == InHand(s, w) && c.dest == w
  {
    c := s.heap.mem[d];
    InvAt(s, Hand(w));
  }

  /** A message on the wrong worker is readdressed to where its player is. */
  lemma ForwardDrops(s: State, w: nat, d: Block, to: nat, t: State, whereabouts: nat -> nat)
    requires Inv(s) && Inv(t) && Owned(s.heap) && PhaseOf(s, w) == Deciding && At(s.heap, Copy(w)) == []
    requires d in s.heap.mem && s.heap.place[d] == Hand(w)
    requires forall x :: x in s.heap.mem && s.heap.place[x] == Hand(w) ==> x == d
    requires var c := s.heap.mem[d];
      && c.dest == w && MayForward(c.letter) && to == whereabouts(c.letter.player) && to != w
      && t == SetPhase(s.(heap := s.heap.(mem := s.heap.mem[d := c.(dest := to)])), w, Sending)
    ensures Distance(t, whereabouts) < Distance(s, whereabouts)
  {
    hide Inv, Holds, Located;
    assert forall l :: At(t.heap, l) == At(s.heap, l);
    hide At;
    HandDrops(s, t, w, d, whereabouts);
  }

  // A worker copies the message it forwards.

  lemma CopyDrops(s: State, w: nat, src: Source, t: State, whereabouts: nat -> nat)
    requires Inv(s) && Owned(s.heap) && Enabled(s, MakeCopy(w, src)) && src != Nothing && Inv(t)
    requires t == DoMakeCopy(s, w, src)
    ensures Distance(t, whereabouts) < Distance(s, whereabouts)
  {
    hide Inv, Owned, At, CanAcquire, Acquire, Acquired, DoMakeCopy, Arrives;
    SameKeys(s);
    var d, x, cell := CopyArrives(s, w, src);
    CopyWeights(s, t, w, d, x, cell, whereabouts);
    hide Weight;
    TotalSplit(Weights(t, whereabouts), x);
    var m := Weights(t, whereabouts) - {x};
    TotalDrop(m, Weights(s, whereabouts), d, Weight(t, x, whereabouts) + 1);
  }

  lemma CopyArrives(s: State, w: nat, src: Source) returns (d: Block, x: Block, c: Cell)
    requires Inv(s) && Owned(s.heap) && Enabled(s, MakeCopy(w, src)) && src != Nothing
    ensures d in s.heap.mem && d in s.heap.place && s.heap.place[d] == Hand(w)
    ensures forall y :: y in s.heap.mem && y in s.heap.place && s.heap.place[y] == Hand(w) ==> y == d
    ensures c.letter == Forwarded(s.heap.mem[d].letter) && c.dest == s.heap.mem[d].dest
    ensures var t := DoMakeCopy(s, w, src); Arrives(s.heap, t.heap, x, Copy(w), c) && t.phase == s.phase
  {
    hide Inv, Owned, HeapOk, Shaped, At, CanAcquire, Acquire, Acquired, Arrives;
    InvParts(s);
    d := OnlyInHand(s, w);
    var k := s.heap.mem[d];
    c := Cell(0, BlockSize(Forwarded(k.letter)), k.dest, Forwarded(k.letter), k.ticket);
    x := Acquired(s.heap, src, c.size);
    AcquireArrives(s.heap, src, Copy(w), c);
  }

  lemma CopyWeights(s: State, t: State, w: nat, d: Block, x: Block, c: Cell, whereabouts: nat -> nat)
    requires Arrives(s.heap, t.heap, x, Copy(w), c) && t.phase == s.phase && PhaseOf(s, w) == Sending
    requires At(s.heap, Copy(w)) == [] && d in s.heap.mem && s.heap.place[d] == Hand(w)
    requires forall y :: y in s.heap.mem && s.heap.place[y] == Hand(w) ==> y == d
    requires var k := s.heap.mem[d]; c.letter == Forwarded(k.letter) && c.dest == k.dest
    ensures x != d && x in t.heap.mem && d in t.heap.mem && t.heap.place.Keys == t.heap.mem.Keys
    ensures Weight(t, d, whereabouts) + Weight(t, x, whereabouts) < Weight(s, d, whereabouts)
    ensures forall y :: y in t.heap.mem && y != d && y != x ==>
      y in s.heap.mem && Weight(t, y, whereabouts) == Weight(s, y, whereabouts)
  {
    hide At;
    forall y | y in t.heap.mem && y != d && y != x
      ensures y in s.heap.mem && Weight(t, y, whereabouts) == Weight(s, y, whereabouts)
    {
      SameWeight(s, t, y, whereabouts);
    }
  }

  // A block goes back to its pool or to the system.

  lemma LeaveDrops(s: State, t: State, b: Block, l: Place, whereabouts: nat -> nat)
    requires Inv(s) && Inv(t) && Leaves(s.heap, t.heap, b, l) && !l.Free? && !l.Copy?
    requires forall x :: x in s.heap.mem && x != b && s.heap.place[x].Hand? ==>
      var w := s.heap.place[x].worker; PhaseOf(t, w) == PhaseOf(s, w)
    ensures Distance(t, whereabouts) < Distance(s, whereabouts)
  {
    hide Inv, At;
    forall x | x in t.heap.mem && x != b
      ensures x in s.heap.mem && Weight(t, x, whereabouts) == Weight(s, x, whereabouts)
    {
      SameWeight(s, t, x, whereabouts);
    }
    assert Weight(s, b, whereabouts) > 0;
    assert b in t.heap.mem ==> Weight(t, b, whereabouts) == 0;
    hide Weight;
    OneDrops(s, t, b, whereabouts);
  }

  lemma GiveBackDrops(s: State, w: nat, t: State, whereabouts: nat -> nat)
    requires Inv(s) && Owned(s.heap) && PhaseOf(s, w) == Freeing && At(s.heap, Hand(w)) != [] && Inv(t)
    requires t == SetPhase(s.(heap := Release(s.heap, Hand(w))), w, Idle)
    ensures Distance(t, whereabouts) < Distance(s, whereabouts)
  {
    hide Inv, Owned, Shaped, HeapOk, Release, At;
    InvParts(s);
    ReleaseLeaves(s.heap, Hand(w));
    var d := OnlyInHand(s, w);
    LeaveDrops(s, t, d, Hand(w), whereabouts);
  }

  lemma DrainDrops(s: State, w: nat, t: State, whereabouts: nat -> nat)
    requires Inv(s) && Owned(s.heap) && At(s.heap, Queue(w)) != [] && Inv(t)
    requires t.heap == Release(s.heap, Queue(w)) && t.phase == s.phase
    ensures Distance(t, whereabouts) < Distance(s, whereabouts)
  {
    hide Inv, Owned, Shaped, HeapOk, Release, At;
    InvParts(s);
    ReleaseLeaves(s.heap, Queue(w));
    LeaveDrops(s, t, At(s.heap, Queue(w))[0], Queue(w), whereabouts);
  }

  // ----- every calm step brings the system nearer to rest -----

  lemma CalmStepDrops(s: State, step: Step, whereabouts: nat -> nat)
    requires Inv(s) && Calm(s, step, whereabouts)
    ensures Inv(Next(s, step)) && Distance(Next(s, step), whereabouts) < Distance(s, whereabouts)
  {
    hide Inv, At, Shaped, PushFrom, DoDecide, DoMakeCopy, TakeAll, Release, Relocate, Owned, HeapOk, Distance;
    StepKeepsInv(s, step);
    InvParts(s);
    var t := Next(s, step);
    match step
    case Send(_, _, _, _) =>
    case Enqueue(n) => EnqueueDrops(s, n, whereabouts);
    case Take(w) => TakeDrops(s, w, t, whereabouts);
    case Pop(w) => PopDrops(s, w, t, whereabouts);
    case Decide(w, look) => DecideCalm(s, w, look, t, whereabouts);
    case MakeCopy(w, src) => CopyCalm(s, w, src, t, whereabouts);
    case Deliver(w) => DeliverDrops(s, w, t, whereabouts);
    case GiveBack(w) => GiveBackCalm(s, w, t, whereabouts);
    case Drain(w) => DrainDrops(s, w, t, whereabouts);
  }

  lemma DecideCalm(s: State, w: nat, look: Look, t: State, whereabouts: nat -> nat)
    requires Inv(s) && Calm(s, Decide(w, look), whereabouts) && t == Next(s, Decide(w, look)) && Inv(t)
    ensures Distance(t, whereabouts) < Distance(s, whereabouts)
  {
    hide Inv, DoDecide, Distance, Owned, HeapOk, Shaped;
    InvParts(s);
    var d := OnlyInHand(s, w);
    DecideDrops(s, w, look, t, whereabouts);
  }

  lemma CopyCalm(s: State, w: nat, src: Source, t: State, whereabouts: nat -> nat)
    requires Inv(s) && Enabled(s, MakeCopy(w, src)) && t == Next(s, MakeCopy(w, src)) && Inv(t)
    ensures Distance(t, whereabouts) < Distance(s, whereabouts)
  {
    hide Inv, Distance, Owned, HeapOk, Shaped, Acquire, CanAcquire, Acquired;
    InvParts(s);
    if src == Nothing {
      SettleDrops(s, w, t, whereabouts);
    } else {
      CopyDrops(s, w, src, t, whereabouts);
    }
  }

  lemma GiveBackCalm(s: State, w: nat, t: State, whereabouts: nat -> nat)
    requires Inv(s) && Enabled(s, GiveBack(w)) && t == Next(s, GiveBack(w)) && Inv(t)
    ensures Distance(t, whereabouts) < Distance(s, whereabouts)
  {
    hide Inv, Distance, Owned, HeapOk, Shaped, Release;
    InvParts(s);
    var d := OnlyInHand(s, w);
    GiveBackDrops(s, w, t, whereabouts);
  }

  /** The step that NeverStuck gives is calm when its decision looks where the player is. */
  lemma CalmOnward(s: State, l: Place, whereabouts: nat -> nat) returns (step: Step)
    requires Inv(s) && !l.Free? && At(s.heap, l) != []
    ensures Calm(s, step, whereabouts)
  {
    hide Inv, At;
    NeverStuck(s, l);
    step := Onward(s, l);
    if step.Decide? {
      step := Decide(step.worker, Look(false, whereabouts(InHand(s, step.worker).letter.player)));
    }
  }

  /** A calm step is possible exactly when the system is not at rest. */
  lemma CalmIffBusy(s: State, whereabouts: nat -> nat)
    requires Inv(s)
    ensures (exists step :: Calm(s, step, whereabouts)) <==> !AtRest(s)
  {
    hide Inv, At;
    if !AtRest(s) {
      var l: Place :| !l.Free? && At(s.heap, l) != [];
      var step := CalmOnward(s, l, whereabouts);
    } else {
      forall step | Calm(s, step, whereabouts) ensures false { RestIsStill(s, step); }
    }
  }

  lemma RestIsStill(s: State, step: Step)
    requires Inv(s) && AtRest(s) && !step.Send?
    ensures !Enabled(s, step)
  {
    hide HeapOk, Addressed, Tracked, InOrder, Judged;
    if step.Decide? || step.MakeCopy? || step.Deliver? || step.GiveBack? {
      assert At(s.heap, Hand(step.worker)) == [];
    }
  }

  ghost predicate CalmRun(s: State, steps: seq<Step>, whereabouts: nat -> nat)
    requires Inv(s)
    decreases |steps|
  {
    steps == []
    || (&& Calm(s, steps[0], whereabouts)
        && (StepKeepsInv(s, steps[0]); CalmRun(Next(s, steps[0]), steps[1..], whereabouts)))
  }

  /** Every run of calm steps is bounded, and one that cannot go on has reached rest. */
  lemma {:induction false} CalmRunsEnd(s: State, steps: seq<Step>, whereabouts: nat -> nat)
    requires Inv(s) && CalmRun(s, steps, whereabouts)
    ensures |steps| + Distance(Run(s, steps), whereabouts) <= Distance(s, whereabouts)
    ensures AtRest(Run(s, steps)) || exists step :: Calm(Run(s, steps), step, whereabouts)
    decreases |steps|
  {
    hide Inv, Next, Enabled, Distance, AtRest;
    if steps != [] {
      CalmStepDrops(s, steps[0], whereabouts);
      CalmRunsEnd(Next(s, steps[0]), steps[1..], whereabouts);
    } else {
      CalmIffBusy(s, whereabouts);
    }
  }

  /** From every reachable state the system can come to rest, though malloc may fail all the while. */
  lemma {:induction false} CanRest(s: State, whereabouts: nat -> nat) returns (steps: seq<Step>)
    requires Inv(s)
    ensures CalmRun(s, steps, whereabouts) && AtRest(Run(s, steps))
    decreases Distance(s, whereabouts)
  {
    CalmIffBusy(s, whereabouts);
    hide Inv, Next, Enabled, Distance, AtRest;
    if AtRest(s) {
      steps := [];
    } else {
      var step :| Calm(s, step, whereabouts);
      CalmStepDrops(s, step, whereabouts);
      var more := CanRest(Next(s, step), whereabouts);
      steps := [step] + more;
      assert steps[1..] == more;
    }
  }
}
