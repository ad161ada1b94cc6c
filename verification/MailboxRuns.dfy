/** All workers and all senders of the mailbox system, one locked region or one decision at a time. */
module MailboxRuns {
  import opened MailboxSpec
  import opened MailboxHeap

  // ----- states -----

  /** Where a worker is in the body of ProcessMsg's loop. */
  datatype Phase = Idle | Deciding | Sending | Freeing

  /** What became of a message. */
  datatype Fate = Handled(worker: nat, look: Look) | Unclaimed(worker: nat, look: Look)
                | Dropped(worker: nat, look: Look) | Lost | Discarded

  /** Besides the blocks and the workers' phases: every accepted message under its ticket, its fate or the block that
      carries it, and per worker the tickets in the order of arrival and of being taken up. */
  datatype State = State(heap: Heap, phase: map<nat, Phase>, handlers: set<(nat, nat)>, sent: seq<Letter>,
                         fate: map<nat, Fate>, carrier: map<nat, Block>,
                         arrived: map<nat, seq<nat>>, popped: map<nat, seq<nat>>)

  function PhaseOf(s: State, w: nat): Phase { if w in s.phase then s.phase[w] else Idle }

  function Log(m: map<nat, seq<nat>>, w: nat): seq<nat> { if w in m then m[w] else [] }

  function Noted(m: map<nat, seq<nat>>, w: nat, k: nat): map<nat, seq<nat>> { m[w := Log(m, w) + [k]] }

  function TicketOf(h: Heap, b: Block): nat { if b in h.mem then h.mem[b].ticket else 0 }

  function Tickets(h: Heap, l: Place): seq<nat> {
    seq(|At(h, l)|, i requires 0 <= i < |At(h, l)| => TicketOf(h, At(h, l)[i]))
  }

  // ----- steps -----

  datatype Step =
    | Send(thread: nat, letter: Letter, dest: nat, src: Source)
    | Enqueue(thread: nat)
    | Take(worker: nat)
    | Pop(worker: nat)
    | Decide(worker: nat, look: Look)
    | MakeCopy(worker: nat, src: Source)
    | Deliver(worker: nat)
    | GiveBack(worker: nat)
    | Drain(worker: nat)

  predicate Enabled(s: State, step: Step) {
    match step
    case Send(t, m, dest, src) => Proper(m) && At(s.heap, Out(t)) == [] && Allocates(s.heap, src, m, dest)
    case Enqueue(t) => At(s.heap, Out(t)) != []
    case Take(w) =>
      w < MAX_THREAD_NUM && PhaseOf(s, w) == Idle && At(s.heap, Batch(w)) == [] && At(s.heap, Queue(w)) != []
    case Pop(w) => PhaseOf(s, w) == Idle && At(s.heap, Batch(w)) != []
    case Decide(w, _) => PhaseOf(s, w) == Deciding
    case MakeCopy(w, src) =>
      && PhaseOf(s, w) == Sending && At(s.heap, Copy(w)) == [] && At(s.heap, Hand(w)) != []
      && At(s.heap, Hand(w))[0] in s.heap.mem
      && var c := s.heap.mem[At(s.heap, Hand(w))[0]];
      Allocates(s.heap, src, Forwarded(c.letter), c.dest)
    case Deliver(w) => PhaseOf(s, w) == Sending && At(s.heap, Copy(w)) != []
    case GiveBack(w) => PhaseOf(s, w) == Freeing
    case Drain(w) => PhaseOf(s, w) == Idle && At(s.heap, Batch(w)) == [] && At(s.heap, Queue(w)) != []
  }

  /** PushMsg does not allocate for a bad thread number, and only then or without a block it pushes nothing. */
  predicate Allocates(h: Heap, src: Source, m: Letter, dest: nat) {
    if dest >= MAX_THREAD_NUM then src == Nothing else CanAcquire(h, src, BlockSize(m))
  }

  /** A forwarded message is pushed again as a game message. */
  function Forwarded(m: Letter): Letter { m.(header := GAME_HEADER) }

  function Resolve(s: State, k: nat, f: Fate): State {
    s.(fate := s.fate[k := f], carrier := s.carrier - {k})
  }

  function SetPhase(s: State, w: nat, p: Phase): State { s.(phase := s.phase[w := p]) }

  function PushFrom(s: State, l: Place): State
    requires Owned(s.heap) && At(s.heap, l) != []
  {
    Member(s.heap, l, 0);
    var c := s.heap.mem[At(s.heap, l)[0]];
    s.(heap := Relocate(s.heap, l, Queue(c.dest)), arrived := Noted(s.arrived, c.dest, c.ticket))
  }

  function DoSend(s: State, t: nat, m: Letter, dest: nat, src: Source): State
    requires Owned(s.heap) && Allocates(s.heap, src, m, dest)
  {
    if src.Nothing? then s
    else
      var k := |s.sent|;
      s.(heap := Acquire(s.heap, src, Out(t), Cell(0, BlockSize(m), dest, m, k)), sent := s.sent + [m],
         carrier := s.carrier[k := Acquired(s.heap, src, BlockSize(m))])
  }

  function DoDecide(s: State, w: nat, look: Look): State
    requires Owned(s.heap) && At(s.heap, Hand(w)) != []
  {
    Member(s.heap, Hand(w), 0);
    var b := At(s.heap, Hand(w))[0];
    var c := s.heap.mem[b];
    match Judge(c.letter, c.dest, look, w)
    case Handle =>
      SetPhase(Resolve(s, c.ticket, if (w, c.letter.cmdID) in s.handlers then Handled(w, look) else Unclaimed(w, look)),
               w, Freeing)
    case Drop => SetPhase(Resolve(s, c.ticket, Dropped(w, look)), w, Freeing)
    case Forward(to) =>
      SetPhase(s.(heap := s.heap.(mem := s.heap.mem[b := c.(dest := to)])), w, Sending)
  }

  function DoMakeCopy(s: State, w: nat, src: Source): State
    requires Owned(s.heap) && Enabled(s, MakeCopy(w, src))
  {
    var c := s.heap.mem[At(s.heap, Hand(w))[0]];
    var m := Forwarded(c.letter);
    if src.Nothing? then SetPhase(Resolve(s, c.ticket, Lost), w, Freeing)
    else
      s.(heap := Acquire(s.heap, src, Copy(w), Cell(0, BlockSize(m), c.dest, m, c.ticket)),
         carrier := s.carrier[c.ticket := Acquired(s.heap, src, BlockSize(m))])
  }

  function DoDrain(s: State, w: nat): State
    requires Owned(s.heap) && At(s.heap, Queue(w)) != []
  {
    Member(s.heap, Queue(w), 0);
    var k := s.heap.mem[At(s.heap, Queue(w))[0]].ticket;
    Resolve(s, k, Discarded).(heap := Release(s.heap, Queue(w)), popped := Noted(s.popped, w, k))
  }

  function Next(s: State, step: Step): State
    requires Inv(s) && Enabled(s, step)
  {
    match step
    case Send(t, m, dest, src) => DoSend(s, t, m, dest, src)
    case Enqueue(t) => PushFrom(s, Out(t))
    case Take(w) => s.(heap := TakeAll(s.heap, Queue(w), Batch(w)))
    case Pop(w) =>
      SetPhase(s, w, Deciding).(heap := Relocate(s.heap, Batch(w), Hand(w)),
                                popped := Noted(s.popped, w, TicketOf(s.heap, At(s.heap, Batch(w))[0])))
    case Decide(w, look) => DoDecide(s, w, look)
    case MakeCopy(w, src) => DoMakeCopy(s, w, src)
    case Deliver(w) => SetPhase(PushFrom(s, Copy(w)), w, Freeing)
    case GiveBack(w) => SetPhase(s.(heap := Release(s.heap, Hand(w))), w, Idle)
    case Drain(w) => DoDrain(s, w)
  }

  // ----- invariants -----

  /** One message in hand unless idle, a copy only while forwarding, one block per sending thread. */
  ghost predicate Shaped(s: State) {
    && (forall w: nat :: |At(s.heap, Hand(w))| == (if PhaseOf(s, w) == Idle then 0 else 1))
    && (forall w: nat :: |At(s.heap, Copy(w))| <= (if PhaseOf(s, w) == Sending then 1 else 0))
    && (forall t: nat :: |At(s.heap, Out(t))| <= 1)
  }

  /** Every message is where its address says. */
  ghost predicate Addressed(s: State)
    requires s.heap.place.Keys == s.heap.mem.Keys
  {
    forall b :: b in s.heap.mem ==> AddressOk(s, s.heap.place[b], s.heap.mem[b])
  }

  predicate AddressOk(s: State, l: Place, c: Cell) {
    match l
    case Free(_) => true
    case Queue(w) => c.dest == w < MAX_THREAD_NUM
    case Batch(w) => c.dest == w < MAX_THREAD_NUM
    case Hand(w) =>
      && (PhaseOf(s, w) == Deciding ==> c.dest == w < MAX_THREAD_NUM)
      && (PhaseOf(s, w) == Sending ==> c.dest != w && MayForward(c.letter))
    case Copy(w) => c.dest < MAX_THREAD_NUM && c.dest != w
    case Out(_) => c.dest < MAX_THREAD_NUM
  }

  predicate MayForward(m: Letter) {
    m.player != 0 && MIN_INNER_CHECK_MSG <= m.cmdID <= MAX_2_MSG_NUM
  }

  /** Blocks in these places carry a message that is still to be dealt with. */
  predicate Carrying(s: State, l: Place) {
    match l
    case Free(_) => false
    case Hand(w) => PhaseOf(s, w) == Deciding || (PhaseOf(s, w) == Sending && At(s.heap, Copy(w)) == [])
    case _ => true
  }

  ghost function Carriers(s: State): set<Block>
    requires s.heap.place.Keys == s.heap.mem.Keys
  {
    set b | b in s.heap.mem && Carrying(s, s.heap.place[b])
  }

  /** Every accepted message either has a fate or is carried, unchanged, by exactly one block. */
  ghost predicate Tracked(s: State)
    requires s.heap.place.Keys == s.heap.mem.Keys
  {
    TracksBy(s.sent, s.fate, s.carrier, s.heap.mem, Carriers(s))
  }

  ghost predicate TracksBy(sent: seq<Letter>, fate: map<nat, Fate>, carrier: map<nat, Block>,
                           mem: map<Block, Cell>, carriers: set<Block>) {
    && (forall k :: k in fate ==> k < |sent| && k !in carrier)
    && (forall k: nat :: k < |sent| && k !in fate ==> k in carrier)
    && (forall k :: k in carrier ==>
          k < |sent| && carrier[k] in carriers && carrier[k] in mem && mem[carrier[k]].ticket == k)
    && (forall b :: b in carriers ==> b in mem && var c := mem[b];
          c.ticket in carrier && carrier[c.ticket] == b && c.ticket < |sent| && c.letter == sent[c.ticket])
  }

  /** Each worker takes up messages exactly in the order of their arrival. */
  ghost predicate InOrder(s: State) {
    forall w: nat :: Log(s.arrived, w) ==
                     Log(s.popped, w) + (Tickets(s.heap, Batch(w)) + Tickets(s.heap, Queue(w)))
  }

  /** What a handler ran on, and what was dropped, is what the verdict says. */
  ghost predicate Judged(s: State) {
    && (forall k: nat :: k < |s.sent| ==> Proper(s.sent[k]))
    && (forall k :: k in s.fate ==> k < |s.sent| && FateOk(s.handlers, s.sent[k], s.fate[k]))
  }

  predicate FateOk(handlers: set<(nat, nat)>, m: Letter, f: Fate) {
    match f
    case Handled(w, look) => (w, m.cmdID) in handlers && Judge(m, w, look, w) == Handle
    case Unclaimed(w, look) => (w, m.cmdID) !in handlers && Judge(m, w, look, w) == Handle
    case Dropped(w, look) => Judge(m, w, look, w) == Drop
    case Lost => MayForward(m)
    case Discarded => true
  }

  ghost predicate Inv(s: State) {
    HeapOk(s.heap) && Shaped(s) && Addressed(s) && Tracked(s) && InOrder(s) && Judged(s)
  }

  // ----- what happens to the order -----

  lemma HandBlock(s: State, l: Place)
    requires Inv(s) && At(s.heap, l) != []
    ensures At(s.heap, l)[0] in s.heap.mem && s.heap.place[At(s.heap, l)[0]] == l
  {
    Member(s.heap, l, 0);
  }

  lemma CarriedOf(s: State, b: Block)
    requires Inv(s) && b in s.heap.mem && Carrying(s, s.heap.place[b])
    ensures b in Carriers(s)
    ensures var c := s.heap.mem[b]; c.ticket < |s.sent| && s.sent[c.ticket] == c.letter
  {
    assert b in Carriers(s);
  }

  lemma TicketsFrame(h: Heap, h': Heap, l: Place)
    requires Owned(h) && At(h', l) == At(h, l)
    requires forall b :: b in h.mem && h.place[b] == l ==> b in h'.mem && h'.mem[b].ticket == h.mem[b].ticket
    ensures Tickets(h', l) == Tickets(h, l)
  {
    forall i | 0 <= i < |At(h, l)| ensures TicketOf(h', At(h, l)[i]) == TicketOf(h, At(h, l)[i]) {
      Member(h, l, i);
    }
  }

  /** Steps that touch no queue and no batch. */
  lemma OrderFrame(s: State, s': State)
    requires Owned(s.heap) && InOrder(s) && s'.arrived == s.arrived && s'.popped == s.popped
    requires forall l: Place :: l.Queue? || l.Batch? ==> At(s'.heap, l) == At(s.heap, l)
    requires forall b :: b in s.heap.mem && (s.heap.place[b].Queue? || s.heap.place[b].Batch?)
               ==> b in s'.heap.mem && s'.heap.mem[b].ticket == s.heap.mem[b].ticket
    ensures InOrder(s')
  {
    forall w: nat ensures Log(s'.arrived, w) ==
      Log(s'.popped, w) + (Tickets(s'.heap, Batch(w)) + Tickets(s'.heap, Queue(w)))
    {
      TicketsFrame(s.heap, s'.heap, Batch(w));
      TicketsFrame(s.heap, s'.heap, Queue(w));
    }
  }

  /** The content of the message a busy worker has in hand. */
  ghost function InHand(s: State, w: nat): Cell
    requires Inv(s) && PhaseOf(s, w) != Idle
  {
    HandBlock(s, Hand(w));
    s.heap.mem[At(s.heap, Hand(w))[0]]
  }

  // ----- what happens to tickets -----

  lemma NewTicket(s: State, mem: map<Block, Cell>, carriers: set<Block>, b: Block, m: Letter)
    requires TracksBy(s.sent, s.fate, s.carrier, s.heap.mem, carriers)
    requires b !in carriers && b in mem && mem[b].ticket == |s.sent| && mem[b].letter == m
    requires forall x :: x in carriers ==> x in mem && mem[x] == s.heap.mem[x]
    ensures TracksBy(s.sent + [m], s.fate, s.carrier[|s.sent| := b], mem, carriers + {b})
  {
  }

  lemma SameTickets(s: State, mem: map<Block, Cell>, carriers: set<Block>)
    requires TracksBy(s.sent, s.fate, s.carrier, s.heap.mem, carriers)
    requires forall x :: x in carriers && x in s.heap.mem ==>
               x in mem && mem[x].ticket == s.heap.mem[x].ticket && mem[x].letter == s.heap.mem[x].letter
    ensures TracksBy(s.sent, s.fate, s.carrier, mem, carriers)
  {
  }

  lemma ClosedTicket(s: State, mem: map<Block, Cell>, carriers: set<Block>, b: Block, f: Fate)
    requires TracksBy(s.sent, s.fate, s.carrier, s.heap.mem, carriers) && b in carriers && b in s.heap.mem
    requires forall x :: x in carriers && x != b && x in s.heap.mem ==> x in mem && mem[x] == s.heap.mem[x]
    ensures var k := s.heap.mem[b].ticket;
      TracksBy(s.sent, s.fate[k := f], s.carrier - {k}, mem, carriers - {b})
  {
  }

  lemma PassedTicket(s: State, mem: map<Block, Cell>, carriers: set<Block>, b: Block, c: Block)
    requires TracksBy(s.sent, s.fate, s.carrier, s.heap.mem, carriers) && b in carriers && b in s.heap.mem
    requires c !in carriers && c in mem
    requires mem[c].ticket == s.heap.mem[b].ticket && mem[c].letter == s.heap.mem[b].letter
    requires forall x :: x in carriers && x in s.heap.mem ==> x in mem && mem[x] == s.heap.mem[x]
    ensures TracksBy(s.sent, s.fate, s.carrier[mem[c].ticket := c], mem, carriers - {b} + {c})
  {
  }

  // ----- every step keeps the invariant -----

  // Send: a block appears in the sender's hand.

  lemma SendKeeps(s: State, t: nat, m: Letter, dest: nat, src: Source)
    requires Inv(s) && Enabled(s, Send(t, m, dest, src)) && src != Nothing
    ensures Inv(DoSend(s, t, m, dest, src))
  {
    var s' := DoSend(s, t, m, dest, src);
    var c := Cell(0, BlockSize(m), dest, m, |s.sent|);
    var b := Acquired(s.heap, src, BlockSize(m));
    AcquireArrives(s.heap, src, Out(t), c);
    hide Acquire, Acquired, HeapOk, Shaped, Addressed, Tracked, InOrder;
    assert Judged(s');
    hide Judged;
    SendShapes(s, s', b, t, c);
    SendTracks(s, s', b, t, c);
    OrderFrame(s, s') by { ArrivesFrame(s.heap, s'.heap, b, Out(t), c); }
  }

  lemma ArrivesFrame(h: Heap, h': Heap, b: Block, to: Place, c: Cell)
    requires Arrives(h, h', b, to, c) && !to.Queue? && !to.Batch?
    ensures forall l: Place :: l.Queue? || l.Batch? ==> At(h', l) == At(h, l)
    ensures forall x :: x in h.mem && (h.place[x].Queue? || h.place[x].Batch?)
              ==> x in h'.mem && h'.mem[x].ticket == h.mem[x].ticket
  {
  }

  lemma SendShapes(s: State, s': State, b: Block, t: nat, c: Cell)
    requires Arrives(s.heap, s'.heap, b, Out(t), c) && Shaped(s) && Addressed(s)
    requires At(s.heap, Out(t)) == [] && s'.phase == s.phase && c.dest < MAX_THREAD_NUM
    ensures Shaped(s') && Addressed(s')
  {
    hide At;
  }

  lemma SendTracks(s: State, s': State, b: Block, t: nat, c: Cell)
    requires Arrives(s.heap, s'.heap, b, Out(t), c) && Tracked(s)
    requires s'.phase == s.phase && s'.sent == s.sent + [c.letter] && s'.fate == s.fate
    requires c.ticket == |s.sent| && s'.carrier == s.carrier[|s.sent| := b]
    ensures Tracked(s')
  {
    hide At, TracksBy;
    assert forall x :: x in s.heap.mem && x != b ==> Carrying(s', s.heap.place[x]) == Carrying(s, s.heap.place[x]);
    assert Carriers(s') == Carriers(s) + {b};
    NewTicket(s, s'.heap.mem, Carriers(s), b, c.letter);
  }

  // Enqueue and Deliver: a filled block goes to the queue it is addressed to.

  lemma EnqueueKeeps(s: State, t: nat)
    requires Inv(s) && Enabled(s, Enqueue(t))
    ensures Inv(PushFrom(s, Out(t)))
  {
    var s' := PushFrom(s, Out(t));
    var b := At(s.heap, Out(t))[0];
    HandBlock(s, Out(t));
    var d := s.heap.mem[b].dest;
    RelocateMoves(s.heap, Out(t), Queue(d));
    hide Relocate, HeapOk, Shaped, Addressed, Tracked, InOrder, Judged;
    EnqueueShapes(s, s', b, t);
    EnqueueTracks(s, s', b, t);
    PushOrder(s, s', b, Out(t));
    assert Judged(s') by { JudgedFrame(s, s'); }
  }

  lemma JudgedFrame(s: State, s': State)
    requires Judged(s) && s'.sent == s.sent && s'.fate == s.fate && s'.handlers == s.handlers
    ensures Judged(s')
  {
  }

  lemma EnqueueShapes(s: State, s': State, b: Block, t: nat)
    requires b in s.heap.mem && Moves(s.heap, s'.heap, b, Out(t), Queue(s.heap.mem[b].dest))
    requires Shaped(s) && Addressed(s) && s'.phase == s.phase
    ensures Shaped(s') && Addressed(s')
  {
    hide At;
    assert AddressOk(s, Out(t), s.heap.mem[b]);
  }

  lemma EnqueueTracks(s: State, s': State, b: Block, t: nat)
    requires b in s.heap.mem && Moves(s.heap, s'.heap, b, Out(t), Queue(s.heap.mem[b].dest)) && Tracked(s)
    requires s'.phase == s.phase && s'.sent == s.sent && s'.fate == s.fate && s'.carrier == s.carrier
    ensures Tracked(s')
  {
    hide At, TracksBy;
    assert Carriers(s') == Carriers(s);
    SameTickets(s, s'.heap.mem, Carriers(s));
  }

  lemma TicketsMoved(h: Heap, h': Heap, b: Block, from: Place, to: Place)
    requires Moves(h, h', b, from, to)
    ensures Tickets(h', to) == Tickets(h, to) + [h.mem[b].ticket]
    ensures Tickets(h, from) == [h.mem[b].ticket] + Tickets(h', from)
    ensures forall l :: l != from && l != to ==> Tickets(h', l) == Tickets(h, l)
  {
    hide At;
    forall l | l != from && l != to ensures Tickets(h', l) == Tickets(h, l) { assert At(h', l) == At(h, l); }
  }

  lemma PushOrder(s: State, s': State, b: Block, l: Place)
    requires b in s.heap.mem && !l.Queue? && !l.Batch? && InOrder(s)
    requires var c := s.heap.mem[b];
      Moves(s.heap, s'.heap, b, l, Queue(c.dest)) && s'.arrived == Noted(s.arrived, c.dest, c.ticket)
    requires s'.popped == s.popped
    ensures InOrder(s')
  {
    var c := s.heap.mem[b];
    TicketsMoved(s.heap, s'.heap, b, l, Queue(c.dest));
    hide Moves, Tickets;
    forall w: nat ensures Log(s'.arrived, w) ==
      Log(s'.popped, w) + (Tickets(s'.heap, Batch(w)) + Tickets(s'.heap, Queue(w)))
    {
      if w == c.dest { Behind(Log(s.popped, w), Tickets(s.heap, Batch(w)), Tickets(s.heap, Queue(w)), c.ticket); }
    }
  }

  lemma Behind(a: seq<nat>, b: seq<nat>, c: seq<nat>, k: nat)
    ensures a + (b + c) + [k] == a + (b + (c + [k]))
  {
  }

  lemma DeliverKeeps(s: State, w: nat)
    requires Inv(s) && Enabled(s, Deliver(w))
    ensures Inv(SetPhase(PushFrom(s, Copy(w)), w, Freeing))
  {
    var s' := SetPhase(PushFrom(s, Copy(w)), w, Freeing);
    var b := At(s.heap, Copy(w))[0];
    HandBlock(s, Copy(w));
    var d := s.heap.mem[b].dest;
    RelocateMoves(s.heap, Copy(w), Queue(d));
    hide Relocate, HeapOk, Shaped, Addressed, Tracked, InOrder, Judged;
    DeliverShapes(s, s', b, w);
    DeliverTracks(s, s', b, w);
    PushOrder(s, s', b, Copy(w));
    assert Judged(s') by { JudgedFrame(s, s'); }
  }

  lemma DeliverShapes(s: State, s': State, b: Block, w: nat)
    requires b in s.heap.mem && Moves(s.heap, s'.heap, b, Copy(w), Queue(s.heap.mem[b].dest))
    requires Shaped(s) && Addressed(s) && PhaseOf(s, w) == Sending && s'.phase == s.phase[w := Freeing]
    ensures Shaped(s') && Addressed(s')
  {
    hide At;
    assert AddressOk(s, Copy(w), s.heap.mem[b]);
  }

  lemma DeliverTracks(s: State, s': State, b: Block, w: nat)
    requires b in s.heap.mem && Moves(s.heap, s'.heap, b, Copy(w), Queue(s.heap.mem[b].dest)) && Tracked(s)
    requires PhaseOf(s, w) == Sending && s'.phase == s.phase[w := Freeing]
    requires s'.sent == s.sent && s'.fate == s.fate && s'.carrier == s.carrier
    ensures Tracked(s')
  {
    hide At, TracksBy;
    assert Carriers(s') == Carriers(s);
    SameTickets(s, s'.heap.mem, Carriers(s));
  }

  // Take and Pop: the whole queue becomes the batch, then one message at a time comes to hand.

  lemma TakeKeeps(s: State, w: nat)
    requires Inv(s) && Enabled(s, Take(w))
    ensures Inv(s.(heap := TakeAll(s.heap, Queue(w), Batch(w))))
  {
    hide Sized, Holds, Located, Tracked, InOrder, Judged;
    var s' := s.(heap := TakeAll(s.heap, Queue(w), Batch(w)));
    TakeAllKeepsHeap(s.heap, Queue(w), Batch(w));
    TakeTracks(s, s', w);
    TakeOrder(s, s', w);
    hide HeapOk, Tracked, InOrder, Judged;
    assert Judged(s') by { JudgedFrame(s, s'); }
  }

  lemma TakeTracks(s: State, s': State, w: nat)
    requires Owned(s.heap) && Tracked(s) && s' == s.(heap := TakeAll(s.heap, Queue(w), Batch(w)))
    ensures s'.heap.place.Keys == s'.heap.mem.Keys && Tracked(s')
  {
    hide TracksBy, Holds, Located;
    assert Carriers(s') == Carriers(s);
  }

  lemma TakeOrder(s: State, s': State, w: nat)
    requires InOrder(s) && s' == s.(heap := TakeAll(s.heap, Queue(w), Batch(w))) && At(s.heap, Batch(w)) == []
    ensures InOrder(s')
  {
    forall v: nat ensures Log(s'.arrived, v) ==
      Log(s'.popped, v) + (Tickets(s'.heap, Batch(v)) + Tickets(s'.heap, Queue(v)))
    {
      if v == w {
        assert Tickets(s'.heap, Batch(v)) == Tickets(s.heap, Queue(v)) && Tickets(s'.heap, Queue(v)) == [];
        assert Tickets(s.heap, Batch(v)) == [];
      } else {
        assert Tickets(s'.heap, Batch(v)) == Tickets(s.heap, Batch(v));
        assert Tickets(s'.heap, Queue(v)) == Tickets(s.heap, Queue(v));
      }
    }
  }

  lemma PopKeeps(s: State, w: nat)
    requires Inv(s) && Enabled(s, Pop(w))
    ensures Inv(Next(s, Pop(w)))
  {
    var s' := Next(s, Pop(w));
    var b := At(s.heap, Batch(w))[0];
    HandBlock(s, Batch(w));
    RelocateMoves(s.heap, Batch(w), Hand(w));
    NoneThere(s.heap, Hand(w));
    hide Relocate, HeapOk, Shaped, Addressed, Tracked, InOrder, Judged;
    PopShapes(s, s', b, w);
    PopTracks(s, s', b, w);
    PopOrder(s, s', b, w);
    assert Judged(s') by { JudgedFrame(s, s'); }
  }

  lemma PopShapes(s: State, s': State, b: Block, w: nat)
    requires Moves(s.heap, s'.heap, b, Batch(w), Hand(w)) && forall x :: x in s.heap.mem ==> s.heap.place[x] != Hand(w)
    requires Shaped(s) && Addressed(s) && PhaseOf(s, w) == Idle && s'.phase == s.phase[w := Deciding]
    ensures Shaped(s') && Addressed(s')
  {
    hide At;
    assert AddressOk(s, Batch(w), s.heap.mem[b]);
  }

  lemma PopTracks(s: State, s': State, b: Block, w: nat)
    requires Moves(s.heap, s'.heap, b, Batch(w), Hand(w)) && Tracked(s)
    requires forall x :: x in s.heap.mem ==> s.heap.place[x] != Hand(w)
    requires PhaseOf(s, w) == Idle && s'.phase == s.phase[w := Deciding]
    requires s'.sent == s.sent && s'.fate == s.fate && s'.carrier == s.carrier
    ensures Tracked(s')
  {
    hide At, TracksBy;
    assert Carriers(s') == Carriers(s);
    SameTickets(s, s'.heap.mem, Carriers(s));
  }

  lemma PopOrder(s: State, s': State, b: Block, w: nat)
    requires Moves(s.heap, s'.heap, b, Batch(w), Hand(w)) && InOrder(s)
    requires s'.arrived == s.arrived && s'.popped == Noted(s.popped, w, s.heap.mem[b].ticket)
    ensures InOrder(s')
  {
    TicketsMoved(s.heap, s'.heap, b, Batch(w), Hand(w));
    hide Moves, Tickets;
    forall v: nat ensures Log(s'.arrived, v) ==
      Log(s'.popped, v) + (Tickets(s'.heap, Batch(v)) + Tickets(s'.heap, Queue(v)))
    {
      InFront(Log(s.popped, v), s.heap.mem[b].ticket, Tickets(s'.heap, Batch(v)), Tickets(s.heap, Queue(v)));
    }
  }

  lemma InFront(a: seq<nat>, k: nat, b: seq<nat>, c: seq<nat>)
    ensures a + (([k] + b) + c) == (a + [k]) + (b + c)
  {
  }

  // Decide: the message in hand is handled, dropped, or readdressed to be forwarded.

  lemma DecideKeeps(s: State, w: nat, look: Look)
    requires Inv(s) && Enabled(s, Decide(w, look))
    ensures Inv(DoDecide(s, w, look))
  {
    hide Inv, At, Carriers;
    var b := DecidingHolds(s, w);
    var c := s.heap.mem[b];
    match Judge(c.letter, c.dest, look, w)
    case Handle =>
      var f := if (w, c.letter.cmdID) in s.handlers then Handled(w, look) else Unclaimed(w, look);
      SettleKeeps(s, w, b, f);
    case Drop =>
      SettleKeeps(s, w, b, Dropped(w, look));
    case Forward(to) =>
      ReaddressKeeps(s, w, b, to);
  }

  lemma DecidingHolds(s: State, w: nat) returns (b: Block)
    requires Inv(s) && PhaseOf(s, w) == Deciding
    ensures At(s.heap, Hand(w)) == [b] && At(s.heap, Copy(w)) == [] && b in s.heap.mem
    ensures s.heap.place[b] == Hand(w) && b in Carriers(s) && s.heap.mem[b].dest == w
  {
    b := At(s.heap, Hand(w))[0];
    HandBlock(s, Hand(w));
    assert AddressOk(s, Hand(w), s.heap.mem[b]);
    CarriedOf(s, b);
    hide HeapOk, Addressed, Tracked, InOrder, Judged, At, Carriers;
  }

  lemma SettleKeeps(s: State, w: nat, b: Block, f: Fate)
    requires Inv(s) && b in s.heap.mem && s.heap.place[b] == Hand(w) && b in Carriers(s)
    requires FateOk(s.handlers, s.heap.mem[b].letter, f)
    requires At(s.heap, Hand(w)) == [b] && At(s.heap, Copy(w)) == []
    ensures Inv(SetPhase(Resolve(s, s.heap.mem[b].ticket, f), w, Freeing))
  {
    var k := s.heap.mem[b].ticket;
    var s' := SetPhase(Resolve(s, k, f), w, Freeing);
    assert k < |s.sent| && s.sent[k] == s.heap.mem[b].letter;
    assert PhaseOf(s, w) != Idle;
    hide FateOk, HeapOk, Shaped, Addressed, Tracked, InOrder, Judged;
    JudgedPlus(s, s', k, f);
    SettleShapes(s, s', w);
    SettleTracks(s, s', b, w, f);
    OrderFrame(s, s') by { assert HeapOk(s.heap) ==> Owned(s.heap); }
  }

  lemma JudgedPlus(s: State, s': State, k: nat, f: Fate)
    requires Judged(s) && k < |s.sent| && FateOk(s.handlers, s.sent[k], f)
    requires s'.sent == s.sent && s'.handlers == s.handlers && s'.fate == s.fate[k := f]
    ensures Judged(s')
  {
    hide FateOk;
  }

  lemma SettleShapes(s: State, s': State, w: nat)
    requires Owned(s.heap) && Shaped(s) && Addressed(s) && At(s.heap, Copy(w)) == [] && PhaseOf(s, w) != Idle
    requires s'.heap == s.heap && s'.phase == s.phase[w := Freeing]
    ensures Shaped(s') && Addressed(s')
  {
    hide At, Holds, Located;
  }

  lemma SettleTracks(s: State, s': State, b: Block, w: nat, f: Fate)
    requires Owned(s.heap) && Tracked(s) && b in Carriers(s) && s.heap.place[b] == Hand(w)
    requires At(s.heap, Hand(w)) == [b]
    requires s' == SetPhase(Resolve(s, s.heap.mem[b].ticket, f), w, Freeing)
    ensures Tracked(s')
  {
    OnlyOne(s.heap, Hand(w), b);
    hide TracksBy, At, Holds, Located;
    assert Carriers(s') == Carriers(s) - {b};
    ClosedTicket(s, s'.heap.mem, Carriers(s), b, f);
  }

  lemma OnlyOne(h: Heap, l: Place, b: Block)
    requires Owned(h) && At(h, l) == [b]
    ensures forall x :: x in h.mem && h.place[x] == l ==> x == b
  {
    forall x | x in h.mem && h.place[x] == l ensures x == b { IsListed(h, x); }
  }

  lemma ReaddressKeeps(s: State, w: nat, b: Block, to: nat)
    requires Inv(s) && b in s.heap.mem && PhaseOf(s, w) == Deciding && At(s.heap, Hand(w)) == [b]
    requires s.heap.place[b] == Hand(w) && to != w && MayForward(s.heap.mem[b].letter)
    ensures Inv(SetPhase(s.(heap := s.heap.(mem := s.heap.mem[b := s.heap.mem[b].(dest := to)])), w, Sending))
  {
    hide Sized, Holds, Located, Addressed, Tracked, InOrder, Judged;
    var s' := SetPhase(s.(heap := s.heap.(mem := s.heap.mem[b := s.heap.mem[b].(dest := to)])), w, Sending);
    ReaddressHeap(s.heap, s'.heap, b, to);
    OnlyOne(s.heap, Hand(w), b);
    ReaddressShapes(s, s', w, b, to);
    ReaddressTracks(s, s', w, b);
    hide Shaped, At;
    OrderFrame(s, s') by { ReaddressFrame(s.heap, s'.heap, b, to); }
    JudgedFrame(s, s');
  }

  lemma ReaddressFrame(h: Heap, h': Heap, b: Block, to: nat)
    requires b in h.mem && h' == h.(mem := h.mem[b := h.mem[b].(dest := to)])
    ensures forall l :: At(h', l) == At(h, l)
    ensures forall x :: x in h.mem ==> x in h'.mem && h'.mem[x].ticket == h.mem[x].ticket
  {
  }

  lemma ReaddressShapes(s: State, s': State, w: nat, b: Block, to: nat)
    requires Owned(s.heap) && Shaped(s) && Addressed(s) && PhaseOf(s, w) == Deciding && At(s.heap, Hand(w)) == [b]
    requires b in s.heap.mem && s.heap.place[b] == Hand(w) && to != w && MayForward(s.heap.mem[b].letter)
    requires forall x :: x in s.heap.mem && s.heap.place[x] == Hand(w) ==> x == b
    requires s'.heap == s.heap.(mem := s.heap.mem[b := s.heap.mem[b].(dest := to)]) && s'.phase == s.phase[w := Sending]
    ensures Shaped(s') && Addressed(s')
  {
    assert forall l :: At(s'.heap, l) == At(s.heap, l);
    hide At, Holds, Located;
  }

  lemma ReaddressTracks(s: State, s': State, w: nat, b: Block)
    requires Owned(s.heap) && Tracked(s) && Shaped(s) && PhaseOf(s, w) == Deciding
    requires b in s.heap.mem && s'.phase == s.phase[w := Sending] && s'.heap.place == s.heap.place
    requires exists to :: s'.heap == s.heap.(mem := s.heap.mem[b := s.heap.mem[b].(dest := to)])
    requires s'.sent == s.sent && s'.fate == s.fate && s'.carrier == s.carrier
    ensures s'.heap.place.Keys == s'.heap.mem.Keys && Tracked(s')
  {
    assert forall l :: At(s'.heap, l) == At(s.heap, l);
    assert At(s.heap, Copy(w)) == [];
    hide At, Holds, Located, TracksBy;
    assert Carriers(s') == Carriers(s);
    SameTickets(s, s'.heap.mem, Carriers(s));
  }

  lemma ReaddressHeap(h: Heap, h': Heap, b: Block, to: nat)
    requires HeapOk(h) && b in h.mem && h' == h.(mem := h.mem[b := h.mem[b].(dest := to)])
    ensures HeapOk(h')
  {
    assert forall l :: At(h', l) == At(h, l) && Located(h', l) == Located(h, l);
    hide At, Located, Holds, ClassOf, PoolSize;
  }

  // MakeCopy: the message in hand passes to its copy, or is lost.

  lemma MakeCopyKeeps(s: State, w: nat, src: Source)
    requires Inv(s) && Enabled(s, MakeCopy(w, src))
    ensures Inv(DoMakeCopy(s, w, src))
  {
    var b := At(s.heap, Hand(w))[0];
    HandBlock(s, Hand(w));
    var c := s.heap.mem[b];
    assert AddressOk(s, Hand(w), c);
    CarriedOf(s, b);
    if src.Nothing? {
      SettleKeeps(s, w, b, Lost);
    } else {
      CopyKeeps(s, w, src, b);
    }
  }

  lemma CopyKeeps(s: State, w: nat, src: Source, b: Block)
    requires Inv(s) && Enabled(s, MakeCopy(w, src)) && At(s.heap, Hand(w)) == [b] && src != Nothing
    requires b in Carriers(s) && s.heap.mem[b].dest < MAX_THREAD_NUM && s.heap.mem[b].dest != w
    requires s.heap.place[b] == Hand(w)
    requires s.heap.mem[b].ticket < |s.sent| && s.sent[s.heap.mem[b].ticket] == s.heap.mem[b].letter
    requires MayForward(s.heap.mem[b].letter)
    ensures Inv(DoMakeCopy(s, w, src))
  {
    var c := s.heap.mem[b];
    var m := Forwarded(c.letter);
    assert m == c.letter;
    var cell := Cell(0, BlockSize(m), c.dest, m, c.ticket);
    var s' := DoMakeCopy(s, w, src);
    var x := Acquired(s.heap, src, BlockSize(m));
    AcquireArrives(s.heap, src, Copy(w), cell);
    OnlyOne(s.heap, Hand(w), b);
    assert Judged(s') by { JudgedFrame(s, s'); }
    hide Acquire, Acquired, HeapOk, Shaped, Addressed, Tracked, InOrder, Judged;
    CopyShapes(s, s', x, w, cell);
    CopyTracks(s, s', x, w, b, cell);
    OrderFrame(s, s') by { ArrivesFrame(s.heap, s'.heap, x, Copy(w), cell); }
  }

  lemma CopyShapes(s: State, s': State, x: Block, w: nat, c: Cell)
    requires Arrives(s.heap, s'.heap, x, Copy(w), c) && Shaped(s) && Addressed(s)
    requires At(s.heap, Copy(w)) == [] && PhaseOf(s, w) == Sending && s'.phase == s.phase
    requires c.dest < MAX_THREAD_NUM && c.dest != w
    ensures Shaped(s') && Addressed(s')
  {
    hide At;
  }

  lemma CopyTracks(s: State, s': State, x: Block, w: nat, b: Block, c: Cell)
    requires Arrives(s.heap, s'.heap, x, Copy(w), c) && Tracked(s) && b in Carriers(s) && s.heap.place[b] == Hand(w)
    requires forall y :: y in s.heap.mem && s.heap.place[y] == Hand(w) ==> y == b
    requires PhaseOf(s, w) == Sending && s'.phase == s.phase
    requires c.ticket == s.heap.mem[b].ticket && c.letter == s.heap.mem[b].letter
    requires s'.sent == s.sent && s'.fate == s.fate && s'.carrier == s.carrier[c.ticket := x]
    ensures Tracked(s')
  {
    hide At, TracksBy;
    CopyCarriers(s, s', x, w, b, c);
    PassedTicket(s, s'.heap.mem, Carriers(s), b, x);
  }

  lemma CopyCarriers(s: State, s': State, x: Block, w: nat, b: Block, c: Cell)
    requires Arrives(s.heap, s'.heap, x, Copy(w), c) && b in Carriers(s) && s.heap.place[b] == Hand(w)
    requires forall y :: y in s.heap.mem && s.heap.place[y] == Hand(w) ==> y == b
    requires PhaseOf(s, w) == Sending && s'.phase == s.phase
    ensures Carriers(s') == Carriers(s) - {b} + {x}
  {
    hide At;
    assert At(s'.heap, Copy(w)) != [];
    assert forall y :: y in s.heap.mem && y != b && y != x ==>
        Carrying(s', s.heap.place[y]) == Carrying(s, s.heap.place[y]);
  }

  // GiveBack and Drain: a block is freed.

  lemma GiveBackKeeps(s: State, w: nat)
    requires Inv(s) && Enabled(s, GiveBack(w))
    ensures Inv(Next(s, GiveBack(w)))
  {
    hide Release, Sized, Holds, Located, Addressed, Tracked, InOrder, Judged, Leaves;
    var b := At(s.heap, Hand(w))[0];
    var s' := Next(s, GiveBack(w));
    HandBlock(s, Hand(w));
    ReleaseLeaves(s.heap, Hand(w));
    OnlyOne(s.heap, Hand(w), b);
    hide HeapOk, Owned, Shaped, At;
    GiveBackShapes(s, s', b, w);
    GiveBackTracks(s, s', b, w);
    OrderFrame(s, s') by { LeavesFrame(s.heap, s'.heap, b, Hand(w)); }
    assert Judged(s') by { JudgedFrame(s, s'); }
  }

  lemma LeavesFrame(h: Heap, h': Heap, b: Block, from: Place)
    requires Leaves(h, h', b, from) && !from.Queue? && !from.Batch?
    ensures forall l: Place :: l.Queue? || l.Batch? ==> At(h', l) == At(h, l)
    ensures forall x :: x in h.mem && (h.place[x].Queue? || h.place[x].Batch?)
              ==> x in h'.mem && h'.mem[x].ticket == h.mem[x].ticket
  {
  }

  lemma GiveBackShapes(s: State, s': State, b: Block, w: nat)
    requires Leaves(s.heap, s'.heap, b, Hand(w)) && Shaped(s) && Addressed(s)
    requires forall y :: y in s.heap.mem && s.heap.place[y] == Hand(w) ==> y == b
    requires PhaseOf(s, w) == Freeing && s'.phase == s.phase[w := Idle]
    ensures Shaped(s') && Addressed(s')
  {
    hide At;
  }

  lemma GiveBackTracks(s: State, s': State, b: Block, w: nat)
    requires Leaves(s.heap, s'.heap, b, Hand(w)) && Tracked(s)
    requires PhaseOf(s, w) == Freeing && s'.phase == s.phase[w := Idle]
    requires s'.sent == s.sent && s'.fate == s.fate && s'.carrier == s.carrier
    ensures Tracked(s')
  {
    hide At, TracksBy;
    assert Carriers(s') == Carriers(s);
    SameTickets(s, s'.heap.mem, Carriers(s));
  }

  lemma DrainKeeps(s: State, w: nat)
    requires Inv(s) && Enabled(s, Drain(w))
    ensures Inv(DoDrain(s, w))
  {
    hide Sized, Leaves, Carriers, Shaped, Addressed, Tracked, InOrder, Judged, Release, Holds, Located;
    var b := At(s.heap, Queue(w))[0];
    HandBlock(s, Queue(w));
    CarriedOf(s, b);
    ReleaseLeaves(s.heap, Queue(w));
    DrainParts(s, DoDrain(s, w), b, w);
  }

  lemma DrainParts(s: State, s': State, b: Block, w: nat)
    requires Inv(s) && HeapOk(s'.heap) && Leaves(s.heap, s'.heap, b, Queue(w)) && b in Carriers(s)
    requires At(s.heap, Batch(w)) == [] && s.heap.mem[b].ticket < |s.sent|
    requires s'.phase == s.phase && s'.sent == s.sent && s'.handlers == s.handlers && s'.arrived == s.arrived
    requires var k := s.heap.mem[b].ticket;
      s'.fate == s.fate[k := Discarded] && s'.carrier == s.carrier - {k} && s'.popped == Noted(s.popped, w, k)
    ensures Inv(s')
  {
    hide Shaped, Addressed, Tracked, InOrder, Judged, At, Noted, Sized, Holds, Located, Carriers;
    JudgedPlus(s, s', s.heap.mem[b].ticket, Discarded);
    DrainShapes(s, s', b, w);
    DrainTracks(s, s', b, w);
    DrainOrder(s, s', b, w);
  }

  lemma DrainShapes(s: State, s': State, b: Block, w: nat)
    requires Leaves(s.heap, s'.heap, b, Queue(w)) && Shaped(s) && Addressed(s) && s'.phase == s.phase
    ensures Shaped(s') && Addressed(s')
  {
    hide At;
  }

  lemma DrainTracks(s: State, s': State, b: Block, w: nat)
    requires Leaves(s.heap, s'.heap, b, Queue(w)) && Tracked(s) && b in Carriers(s)
    requires var k := s.heap.mem[b].ticket;
      && s'.phase == s.phase && s'.sent == s.sent && s'.fate == s.fate[k := Discarded]
      && s'.carrier == s.carrier - {k}
    ensures Tracked(s')
  {
    hide At, TracksBy;
    assert Carriers(s') == Carriers(s) - {b};
    ClosedTicket(s, s'.heap.mem, Carriers(s), b, Discarded);
  }

  lemma DrainOrder(s: State, s': State, b: Block, w: nat)
    requires Leaves(s.heap, s'.heap, b, Queue(w)) && InOrder(s) && Owned(s.heap) && At(s.heap, Batch(w)) == []
    requires s'.arrived == s.arrived && s'.popped == Noted(s.popped, w, s.heap.mem[b].ticket)
    ensures InOrder(s')
  {
    var k := s.heap.mem[b].ticket;
    assert Tickets(s.heap, Batch(w)) == [];
    LeftQueue(s.heap, s'.heap, b, Queue(w));
    hide Tickets, Holds, Located, At;
    forall v: nat ensures Log(s'.arrived, v) ==
      Log(s'.popped, v) + (Tickets(s'.heap, Batch(v)) + Tickets(s'.heap, Queue(v)))
    {
      LeftFrame(s.heap, s'.heap, b, Queue(w), Batch(v));
      if v == w {
        InFront(Log(s.popped, v), k, [], Tickets(s'.heap, Queue(v)));
      } else {
        LeftFrame(s.heap, s'.heap, b, Queue(w), Queue(v));
      }
    }
  }

  lemma LeftFrame(h: Heap, h': Heap, b: Block, from: Place, l: Place)
    requires Leaves(h, h', b, from) && Owned(h) && l != from && !l.Free?
    ensures Tickets(h', l) == Tickets(h, l)
  {
    hide Holds, Located;
    TicketsFrame(h, h', l);
  }

  lemma LeftQueue(h: Heap, h': Heap, b: Block, from: Place)
    requires Leaves(h, h', b, from) && Owned(h)
    ensures Tickets(h, from) == [h.mem[b].ticket] + Tickets(h', from)
  {
    forall i | 0 <= i < |At(h', from)| ensures TicketOf(h', At(h', from)[i]) == TicketOf(h, At(h, from)[i + 1]) {
      Member(h, from, i + 1);
      assert Holds(At(h, from), Located(h, from));
      assert At(h, from)[i + 1] != At(h, from)[0];
    }
    hide Owned, At, TicketOf;
  }

  // ----- whole runs -----

  lemma SendAnyKeeps(s: State, t: nat, m: Letter, dest: nat, src: Source)
    requires Inv(s) && Enabled(s, Send(t, m, dest, src))
    ensures Inv(DoSend(s, t, m, dest, src))
  {
    if src != Nothing { SendKeeps(s, t, m, dest, src); }
  }

  lemma StepKeepsInv(s: State, step: Step)
    requires Inv(s) && Enabled(s, step)
    ensures Inv(Next(s, step))
  {
    assert Owned(s.heap) && Shaped(s);
    hide Inv, PushFrom, DoSend, DoDecide, DoMakeCopy, DoDrain, TakeAll, Release, Relocate, Owned, Shaped;
    match step
    case Send(t, m, dest, src) => SendAnyKeeps(s, t, m, dest, src);
    case Enqueue(t) => EnqueueKeeps(s, t);
    case Take(w) => TakeKeeps(s, w);
    case Pop(w) => PopKeeps(s, w);
    case Decide(w, look) => DecideKeeps(s, w, look);
    case MakeCopy(w, src) => MakeCopyKeeps(s, w, src);
    case Deliver(w) => DeliverKeeps(s, w);
    case GiveBack(w) => GiveBackKeeps(s, w);
    case Drain(w) => DrainKeeps(s, w);
  }

  function Start(handlers: set<(nat, nat)>): State {
    State(Heap(map[], map[], map[]), map[], handlers, [], map[], map[], map[], map[])
  }

  lemma StartIsOk(handlers: set<(nat, nat)>)
    ensures Inv(Start(handlers))
  {
    var s := Start(handlers);
    assert forall l :: Located(s.heap, l) == {} && At(s.heap, l) == [];
    assert Carriers(s) == {};
    hide At, Located;
    assert forall l :: Tickets(s.heap, l) == [];
  }

  lemma StartIsEmpty(handlers: set<(nat, nat)>)
    ensures var h := Start(handlers).heap; h.mem == map[] && forall l :: At(h, l) == []
  {
  }

  /** Any interleaving of any threads' steps; a step that is not possible at its turn does not happen. */
  ghost function Run(s: State, steps: seq<Step>): (t: State)
    requires Inv(s)
    ensures Inv(t)
    decreases |steps|
  {
    if steps == [] then s
    else if Enabled(s, steps[0]) then
      StepKeepsInv(s, steps[0]);
      Run(Next(s, steps[0]), steps[1..])
    else Run(s, steps[1..])
  }

  lemma InvParts(s: State)
    requires Inv(s)
    ensures HeapOk(s.heap) && Owned(s.heap) && Shaped(s)
  {
  }

  lemma RunNothing(s: State)
    requires Inv(s)
    ensures Run(s, []) == s
  {
  }

  lemma RunOne(s: State, step: Step)
    requires Inv(s) && Enabled(s, step)
    ensures Inv(Next(s, step)) && Run(s, [step]) == Next(s, step)
  {
    hide Inv, Next, Enabled;
    StepKeepsInv(s, step);
    assert [step][1..] == [];
  }

  lemma RunMore(s: State, steps: seq<Step>, step: Step)
    requires Inv(s) && Enabled(Run(s, steps), step)
    ensures Run(s, steps + [step]) == Next(Run(s, steps), step)
  {
    hide Inv, Next, Enabled;
    RunConcat(s, steps, [step]);
    RunOne(Run(s, steps), step);
  }

  lemma {:induction false} RunConcat(s: State, a: seq<Step>, b: seq<Step>)
    requires Inv(s)
    ensures Run(s, a + b) == Run(Run(s, a), b)
    decreases |a|
  {
    if a == [] {
      assert a + b == b;
    } else {
      InvParts(s);
      assert (a + b)[1..] == a[1..] + b && (a + b)[0] == a[0];
      hide Inv, Next, Enabled, Owned, Shaped;
      if Enabled(s, a[0]) {
        StepKeepsInv(s, a[0]);
        RunConcat(Next(s, a[0]), a[1..], b);
      } else {
        RunConcat(s, a[1..], b);
      }
    }
  }

  // ----- what follows for every run -----

  /** After any run every block is in exactly one place, and a free one is in the pool of its own capacity. */
  lemma BlocksHaveOneOwner(handlers: set<(nat, nat)>, steps: seq<Step>)
    ensures Inv(Start(handlers))
    ensures var h := Run(Start(handlers), steps).heap;
      && (forall b :: b in h.mem ==> exists l :: b in At(h, l))
      && (forall l, k, i, j :: 0 <= i < |At(h, l)| && 0 <= j < |At(h, k)| && At(h, l)[i] == At(h, k)[j]
            ==> l == k && i == j)
      && (forall p: nat, b :: b in At(h, Free(p)) ==>
            b in h.mem && p < MEMPOOL_NUM && h.mem[b].capacity == PoolSize(p))
  {
    StartIsOk(handlers);
    var h := Run(Start(handlers), steps).heap;
    assert HeapOk(h);
    ExactlyOnePlace(h);
    forall p: nat, b | b in At(h, Free(p))
      ensures b in h.mem && p < MEMPOOL_NUM && h.mem[b].capacity == PoolSize(p)
    {
      FreeBlockFits(h, p, b);
    }
  }

  /** Each block has room for its size field, its header and its body. */
  lemma BlocksHoldMessages(s: State, b: Block)
    requires Inv(s) && b in s.heap.mem
    ensures var c := s.heap.mem[b]; c.capacity >= 8 + c.letter.header + |c.letter.body|
  {
    hide Owned, Shaped, Addressed, Tracked, InOrder, Judged, ClassOf, PoolSize;
  }

  lemma FreeBlockFits(h: Heap, p: nat, b: Block)
    requires HeapOk(h) && b in At(h, Free(p))
    ensures b in h.mem && p < MEMPOOL_NUM && h.mem[b].capacity == PoolSize(p)
  {
    var i :| 0 <= i < |At(h, Free(p))| && At(h, Free(p))[i] == b;
    Member(h, Free(p), i);
    hide At, Holds, Located, PoolSize;
  }

  ghost function AllHandled(s: State): set<nat> { set k | k in s.fate && s.fate[k].Handled? }
  ghost function AllUnclaimed(s: State): set<nat> { set k | k in s.fate && s.fate[k].Unclaimed? }
  ghost function AllDropped(s: State): set<nat> { set k | k in s.fate && s.fate[k].Dropped? }
  ghost function AllLost(s: State): set<nat> { set k | k in s.fate && s.fate[k].Lost? }
  ghost function AllDiscarded(s: State): set<nat> { set k | k in s.fate && s.fate[k].Discarded? }

  /** Pushed = handled + left by a missing handler + dropped + lost in forwarding + discarded at the end + in flight. */
  lemma Conservation(s: State)
    requires Inv(s)
    ensures |s.sent| == |AllHandled(s)| + |AllUnclaimed(s)| + |AllDropped(s)| + |AllLost(s)| + |AllDiscarded(s)|
                        + |Carriers(s)|
  {
    hide Inv, Carriers, AllHandled, AllUnclaimed, AllDropped, AllLost, AllDiscarded;
    TicketCount(s);
    FateCount(s);
  }

  lemma FateCount(s: State)
    ensures |s.fate.Keys| ==
      |AllHandled(s)| + |AllUnclaimed(s)| + |AllDropped(s)| + |AllLost(s)| + |AllDiscarded(s)|
  {
    var a, b, c, d, e := AllHandled(s), AllUnclaimed(s), AllDropped(s), AllLost(s), AllDiscarded(s);
    assert s.fate.Keys == a + b + c + d + e;
    FiveParts(a, b, c, d, e);
  }

  lemma FiveParts(a: set<nat>, b: set<nat>, c: set<nat>, d: set<nat>, e: set<nat>)
    requires a !! b !! c !! d !! e
    ensures |a + b + c + d + e| == |a| + |b| + |c| + |d| + |e|
  {
    assert |a + b| == |a| + |b| && |a + b + c| == |a + b| + |c| && |a + b + c + d| == |a + b + c| + |d|;
  }

  lemma TicketCount(s: State)
    requires Inv(s)
    ensures |s.sent| == |s.fate.Keys| + |Carriers(s)|
  {
    assert Tracked(s);
    hide Inv, Carriers;
    TicketSplit(s.sent, s.fate, s.carrier, s.heap.mem, Carriers(s));
    OneCarrierEach(s.sent, s.fate, s.carrier, s.heap.mem, Carriers(s));
    hide TracksBy;
    ImageSize(s.carrier, s.carrier.Keys);
  }

  lemma TicketSplit(sent: seq<Letter>, fate: map<nat, Fate>, carrier: map<nat, Block>,
                    mem: map<Block, Cell>, carriers: set<Block>)
    requires TracksBy(sent, fate, carrier, mem, carriers)
    ensures |sent| == |fate.Keys| + |carrier.Keys|
  {
    assert Upto(|sent|) == fate.Keys + carrier.Keys && fate.Keys !! carrier.Keys by { hide Upto; }
  }

  lemma OneCarrierEach(sent: seq<Letter>, fate: map<nat, Fate>, carrier: map<nat, Block>,
                       mem: map<Block, Cell>, carriers: set<Block>)
    requires TracksBy(sent, fate, carrier, mem, carriers)
    ensures carriers == Image(carrier, carrier.Keys)
    ensures forall i, j :: i in carrier && j in carrier && carrier[i] == carrier[j] ==> i == j
  {
  }

  ghost function Upto(n: nat): (r: set<nat>)
    ensures |r| == n && forall k: nat :: k in r <==> k < n
  {
    if n == 0 then {} else Upto(n - 1) + {n - 1}
  }

  ghost function Image(m: map<nat, Block>, keys: set<nat>): set<Block>
    requires keys <= m.Keys
  {
    set k | k in keys :: m[k]
  }

  lemma {:induction false} ImageSize(m: map<nat, Block>, keys: set<nat>)
    requires keys <= m.Keys && forall i, j :: i in keys && j in keys && m[i] == m[j] ==> i == j
    ensures |Image(m, keys)| == |keys|
    decreases |keys|
  {
    if keys != {} {
      var k :| k in keys;
      ImageSize(m, keys - {k});
      assert Image(m, keys) == Image(m, keys - {k}) + {m[k]};
    }
  }

  /** A message without a fate is carried by exactly one block, with command, player and body as they were sent. */
  lemma InFlightOnce(s: State, k: nat)
    requires Inv(s) && k < |s.sent|
    ensures k !in s.fate <==> exists b :: b in Carriers(s) && s.heap.mem[b].ticket == k
    ensures forall b :: b in Carriers(s) && s.heap.mem[b].ticket == k ==> s.heap.mem[b].letter == s.sent[k]
    ensures forall a, b ::
              a in Carriers(s) && b in Carriers(s) && s.heap.mem[a].ticket == s.heap.mem[b].ticket ==> a == b
  {
    assert Tracked(s);
    if k !in s.fate { assert s.carrier[k] in Carriers(s); }
    hide Carriers, HeapOk, Shaped, Addressed, InOrder, Judged;
  }

  /** A player's message is only ever handled where its player was seen, and not while the player was jumping. */
  lemma HandledWithItsPlayer(s: State, k: nat)
    requires Inv(s) && k in s.fate && s.fate[k].Handled? && s.sent[k].player != 0
    ensures var (m, w, look) := (s.sent[k], s.fate[k].worker, s.fate[k].look);
      && (MIN_INNER_CHECK_MSG <= m.cmdID <= MAX_2_MSG_NUM ==> look.thread == w)
      && (m.cmdID <= 0xFF && w <= WORKER_THREAD_NEUTRAL ==> look.thread == w && !look.jumping)
      && (w, m.cmdID) in s.handlers
  {
    assert FateOk(s.handlers, s.sent[k], s.fate[k]);
  }

  // ----- when messages reach their handlers -----

  /** The fates of a message that reached the handler table, or the end of the system. */
  predicate Reached(f: Fate) { f.Handled? || f.Unclaimed? || f.Discarded? }

  /** Whoever takes a message up sees its player on that very worker and not jumping. */
  predicate AllAtHome(steps: seq<Step>) {
    forall i :: 0 <= i < |steps| && steps[i].Decide? ==> steps[i].look == Look(false, steps[i].worker)
  }

  /** In a run like that no message is dropped and none is lost. */
  lemma AtHomeReached(handlers: set<(nat, nat)>, steps: seq<Step>)
    requires AllAtHome(steps)
    ensures Inv(Start(handlers))
    ensures forall k :: k in Run(Start(handlers), steps).fate ==> Reached(Run(Start(handlers), steps).fate[k])
  {
    StartIsOk(handlers);
    AtHomeRun(Start(handlers), steps);
  }

  ghost predicate AllReached(s: State) {
    (forall w: nat :: PhaseOf(s, w) != Sending) && forall k :: k in s.fate ==> Reached(s.fate[k])
  }

  lemma {:induction false} AtHomeRun(s: State, steps: seq<Step>)
    requires Inv(s) && AllReached(s) && AllAtHome(steps)
    ensures AllReached(Run(s, steps))
    decreases |steps|
  {
    hide Inv, Next, Enabled, AllReached;
    if steps != [] {
      assert AllAtHome(steps[1..]);
      if Enabled(s, steps[0]) {
        StepKeepsInv(s, steps[0]);
        AtHomeStep(s, steps[0]);
        AtHomeRun(Next(s, steps[0]), steps[1..]);
      } else {
        AtHomeRun(s, steps[1..]);
      }
    }
  }

  lemma AtHomeStep(s: State, step: Step)
    requires Inv(s) && AllReached(s) && Enabled(s, step)
    requires step.Decide? ==> step.look == Look(false, step.worker)
    ensures AllReached(Next(s, step))
  {
    hide Inv, Owned, At, Acquire, CanAcquire, Acquired, TakeAll, Relocate, Release;
    var t := Next(s, step);
    match step
    case Decide(w, look) =>
      var b := DecidingHolds(s, w);
      var c := s.heap.mem[b];
      assert Judge(c.letter, c.dest, look, w) == Handle;
      assert forall v :: PhaseOf(t, v) == if v == w then Freeing else PhaseOf(s, v);
      assert t.fate[c.ticket].Handled? || t.fate[c.ticket].Unclaimed?;
      assert forall k :: k in t.fate && k != c.ticket ==> k in s.fate && t.fate[k] == s.fate[k];
    case Drain(w) =>
      assert t.phase == s.phase && forall v :: PhaseOf(t, v) == PhaseOf(s, v);
      assert forall k :: k in t.fate ==> t.fate[k] == Discarded || (k in s.fate && t.fate[k] == s.fate[k]);
    case MakeCopy(_, _) =>
    case Deliver(_) =>
    case _ =>
      assert t.fate == s.fate && forall v :: PhaseOf(t, v) == Sending ==> PhaseOf(s, v) == Sending;
  }

  /** Whatever is seen of the players: a message without one is neither dropped nor lost, and one with a player is
      dropped only with a command up to 0xFF on workers 0 to 2, seen jumping or elsewhere, and lost only with a command
      from 0x200 to 0x500. */
  lemma FateTells(s: State, k: nat)
    requires Inv(s) && k in s.fate
    ensures k < |s.sent|
    ensures var m, f := s.sent[k], s.fate[k];
      && (m.player == 0 ==> Reached(f))
      && (f.Dropped? ==> m.cmdID <= 0xFF && f.worker <= WORKER_THREAD_NEUTRAL
                         && (f.look.jumping || f.look.thread != f.worker))
      && (f == Lost ==> MIN_INNER_CHECK_MSG <= m.cmdID <= MAX_2_MSG_NUM)
  {
    hide HeapOk, Shaped, Addressed, Tracked, InOrder;
    assert FateOk(s.handlers, s.sent[k], s.fate[k]);
  }

  // ----- when a forward loses its message -----

  /** Whatever memory there is: a forward without a block pushed loses the message, any other does not. */
  lemma LostWithoutBlock(s: State, w: nat, src: Source)
    requires Inv(s) && Enabled(s, MakeCopy(w, src))
    ensures InHand(s, w).ticket !in s.fate
    ensures var k, t := InHand(s, w).ticket, Next(s, MakeCopy(w, src));
      (k in t.fate && t.fate[k] == Lost) <==> src == Nothing
  {
    hide HeapOk, Addressed, InOrder, Judged, CanAcquire, Acquire, Acquired;
    var b := At(s.heap, Hand(w))[0];
    HandBlock(s, Hand(w));
    CarriedOf(s, b);
    NotCarried(s, b);
  }

  /** A forwarded message can be lost exactly when its player's thread is no worker or no pooled block serves its
      size. */
  lemma CanBeLostIff(s: State, w: nat)
    requires Inv(s) && PhaseOf(s, w) == Sending && At(s.heap, Copy(w)) == []
    ensures var c := InHand(s, w);
      (exists src :: Enabled(s, MakeCopy(w, src))
                     && var t := Next(s, MakeCopy(w, src)); c.ticket in t.fate && t.fate[c.ticket] == Lost)
      <==> c.dest >= MAX_THREAD_NUM || !Stocked(s.heap, BlockSize(c.letter))
  {
    hide HeapOk, Tracked, InOrder, Judged;
    var c := InHand(s, w);
    HandBlock(s, Hand(w));
    SendingIsGame(s, w);
    forall src | Enabled(s, MakeCopy(w, src))
      ensures (var t := Next(s, MakeCopy(w, src)); c.ticket in t.fate && t.fate[c.ticket] == Lost) <==> src == Nothing
    {
      LostWithoutBlock(s, w, src);
    }
    hide Next, Inv;
    if c.dest >= MAX_THREAD_NUM || !Stocked(s.heap, BlockSize(c.letter)) {
      assert Enabled(s, MakeCopy(w, Nothing));
    }
  }

  /** What is forwarded is a game message already, so that its copy has the same size. */
  lemma SendingIsGame(s: State, w: nat)
    requires Inv(s) && PhaseOf(s, w) == Sending && At(s.heap, Copy(w)) == []
    ensures var c := InHand(s, w); MayForward(c.letter) && Forwarded(c.letter) == c.letter
  {
    hide HeapOk, InOrder;
    var b := At(s.heap, Hand(w))[0];
    HandBlock(s, Hand(w));
    CarriedOf(s, b);
    assert AddressOk(s, Hand(w), s.heap.mem[b]);
  }

  // ----- an example of such a loss -----

  function LossSteps(m: Letter, w: nat, to: nat, b: Block): seq<Step> {
    [Send(0, m, w, FromSystem(b)), Enqueue(0), Take(w), Pop(w), Decide(w, Look(false, to)), MakeCopy(w, Nothing)]
  }

  /** From the empty system: one message, sent and taken up, whose player has moved on. Without memory for the copy,
      or to a thread that is no worker, it is lost. */
  lemma LosingRun(m: Letter, w: nat, to: nat, b: Block)
    requires Proper(m) && MayForward(m) && w < MAX_THREAD_NUM && to != w
    ensures Inv(Start({}))
    ensures var t := Run(Start({}), LossSteps(m, w, to, b)); t.sent == [m] && 0 in t.fate && t.fate[0] == Lost
  {
    hide Inv, Next, Enabled, Start, Run, At, LossSteps;
    StartIsOk({});
    var s0 := Start({});
    var s1 := LossSent(s0, m, w, b);
    var s2 := LossTaken(s1, m, w, b);
    var s3 := LossForwarded(s2, m, w, to, b);
    LossParts(m, w, to, b);
    var x := [Send(0, m, w, FromSystem(b))] + [Enqueue(0)];
    var y := [Take(w)] + [Pop(w)];
    RunConcat(s0, x, y + ([Decide(w, Look(false, to))] + [MakeCopy(w, Nothing)]));
    RunConcat(s1, y, [Decide(w, Look(false, to))] + [MakeCopy(w, Nothing)]);
  }

  lemma LossParts(m: Letter, w: nat, to: nat, b: Block)
    ensures LossSteps(m, w, to, b) ==
      ([Send(0, m, w, FromSystem(b))] + [Enqueue(0)])
      + (([Take(w)] + [Pop(w)]) + ([Decide(w, Look(false, to))] + [MakeCopy(w, Nothing)]))
  {
  }

  lemma RunPair(s: State, a: Step, b: Step)
    requires Inv(s) && Enabled(s, a) && Inv(Next(s, a)) && Enabled(Next(s, a), b)
    ensures Inv(Next(Next(s, a), b)) && Run(s, [a] + [b]) == Next(Next(s, a), b)
  {
    RunOne(s, a);
    RunMore(s, [a], b);
    StepKeepsInv(Next(s, a), b);
    hide Inv, Next, Enabled, Run;
  }

  lemma LossSent(s: State, m: Letter, w: nat, b: Block) returns (t: State)
    requires s == Start({}) && Inv(s) && Proper(m) && w < MAX_THREAD_NUM
    ensures t == Run(s, [Send(0, m, w, FromSystem(b))] + [Enqueue(0)]) && Inv(t)
    ensures At(t.heap, Queue(w)) == [b] && t.sent == [m] && t.phase == map[] && t.fate == map[]
    ensures t.heap.mem.Keys == {b} && t.heap.mem[b].dest == w && t.heap.mem[b].letter == m && t.heap.mem[b].ticket == 0
    ensures forall l :: l != Queue(w) ==> At(t.heap, l) == []
  {
    StartIsEmpty({});
    hide Shaped, HeapOk, Addressed, Tracked, InOrder, Judged;
    var a := Send(0, m, w, FromSystem(b));
    StepKeepsInv(s, a);
    var u := Next(s, a);
    assert At(u.heap, Out(0)) == [b];
    RunPair(s, a, Enqueue(0));
    t := Next(u, Enqueue(0));
  }

  lemma LossTaken(s: State, m: Letter, w: nat, b: Block) returns (t: State)
    requires Inv(s) && At(s.heap, Queue(w)) == [b] && s.phase == map[] && w < MAX_THREAD_NUM
    requires s.heap.mem.Keys == {b}
    requires forall l :: l != Queue(w) ==> At(s.heap, l) == []
    ensures t == Run(s, [Take(w)] + [Pop(w)]) && Inv(t) && PhaseOf(t, w) == Deciding
    ensures At(t.heap, Hand(w)) == [b] && forall l :: l != Hand(w) ==> At(t.heap, l) == []
    ensures t.heap.mem == s.heap.mem && t.sent == s.sent && t.fate == s.fate
  {
    hide Shaped, HeapOk, Addressed, Tracked, InOrder, Judged;
    StepKeepsInv(s, Take(w));
    var u := Next(s, Take(w));
    assert At(u.heap, Batch(w)) == [b] && At(u.heap, Hand(w)) == At(s.heap, Hand(w)) == [];
    RunPair(s, Take(w), Pop(w));
    t := Next(u, Pop(w));
    assert [b][1..] == [] && [] + [b] == [b];
    assert forall l: Place :: l != Hand(w) && l != Batch(w) && l != Queue(w) ==> At(t.heap, l) == At(s.heap, l);
  }

  lemma LossForwarded(s: State, m: Letter, w: nat, to: nat, b: Block) returns (t: State)
    requires Inv(s) && PhaseOf(s, w) == Deciding && At(s.heap, Hand(w)) == [b] && to != w
    requires forall l :: l != Hand(w) ==> At(s.heap, l) == []
    requires b in s.heap.mem && s.heap.mem[b].letter == m && s.heap.mem[b].dest == w && MayForward(m)
    requires s.heap.mem[b].ticket == 0
    ensures t == Run(s, [Decide(w, Look(false, to))] + [MakeCopy(w, Nothing)])
    ensures t.sent == s.sent && 0 in t.fate && t.fate[0] == Lost
  {
    hide Shaped, HeapOk, Addressed, Tracked, InOrder, Judged;
    var a := Decide(w, Look(false, to));
    StepKeepsInv(s, a);
    var u := Next(s, a);
    assert Judge(m, w, Look(false, to), w) == Forward(to);
    assert forall l :: At(u.heap, l) == At(s.heap, l);
    assert At(s.heap, Copy(w)) == [] && (forall i: nat :: At(s.heap, Free(i)) == []);
    hide At, Judge, ClassOf;
    RunPair(s, a, MakeCopy(w, Nothing));
    t := Next(u, MakeCopy(w, Nothing));
  }

  // ----- history is never rewritten -----

  /** What later states keep of earlier ones. */
  ghost predicate Extends(s: State, t: State) {
    && s.sent <= t.sent && t.handlers == s.handlers
    && (forall k :: k in s.fate ==> k in t.fate && t.fate[k] == s.fate[k])
    && (forall w: nat :: Log(s.arrived, w) <= Log(t.arrived, w) && Log(s.popped, w) <= Log(t.popped, w))
  }

  lemma StepExtends(s: State, step: Step)
    requires Inv(s) && Enabled(s, step)
    ensures Extends(s, Next(s, step))
  {
    InvParts(s);
    hide Inv, Owned, Shaped, At, Log, Noted, Release, Relocate, TakeAll, CanAcquire, Extends, PushFrom, DoSend,
      DoDecide, DoMakeCopy, DoDrain;
    match step
    case Send(t, m, dest, src) => SendExtends(s, t, m, dest, src);
    case Enqueue(i) => PushExtends(s, Out(i), s.phase);
    case Deliver(w) => PushExtends(s, Copy(w), s.phase[w := Freeing]);
    case Pop(w) => AddsOnly(s, Next(s, step), ANY, 0, Lost, w, TicketOf(s.heap, At(s.heap, Batch(w))[0]));
    case Decide(w, look) => DecideExtends(s, w, look);
    case MakeCopy(w, src) => MakeCopyExtends(s, w, src);
    case Drain(w) => DrainExtends(s, w);
    case _ => AddsOnly(s, Next(s, step), ANY, 0, Lost, 0, 0);
  }

  lemma SendExtends(s: State, t: nat, m: Letter, dest: nat, src: Source)
    requires Owned(s.heap) && Allocates(s.heap, src, m, dest)
    ensures Extends(s, DoSend(s, t, m, dest, src))
  {
    hide Owned, Acquire, Acquired, CanAcquire;
    AddsOnly(s, DoSend(s, t, m, dest, src), m, 0, Lost, 0, 0);
  }

  lemma DecideExtends(s: State, w: nat, look: Look)
    requires Inv(s) && PhaseOf(s, w) == Deciding
    ensures At(s.heap, Hand(w)) != [] && Extends(s, DoDecide(s, w, look))
  {
    hide Owned, Addressed, Tracked, InOrder, Judged, Sized, At, Judge, Extends;
    SettledIsNew(s, w);
    InvParts(s);
    SettleExtends(s, DoDecide(s, w, look), w);
  }

  lemma MakeCopyExtends(s: State, w: nat, src: Source)
    requires Inv(s) && Enabled(s, MakeCopy(w, src))
    ensures Extends(s, DoMakeCopy(s, w, src))
  {
    SettledIsNew(s, w);
    InvParts(s);
    hide Inv, Owned, Shaped, At, Acquire, Acquired, CanAcquire;
    SettleExtends(s, DoMakeCopy(s, w, src), w);
  }

  const ANY: Letter := Letter(0, 0, 0, [])

  lemma PushExtends(s: State, l: Place, phase: map<nat, Phase>)
    requires Owned(s.heap) && At(s.heap, l) != []
    ensures Extends(s, PushFrom(s, l).(phase := phase))
  {
    Member(s.heap, l, 0);
    var c := s.heap.mem[At(s.heap, l)[0]];
    hide Owned, Log, Noted, Extends;
    AddsOnly(s, PushFrom(s, l).(phase := phase), ANY, 0, Lost, c.dest, c.ticket);
  }

  lemma SettleExtends(s: State, t: State, w: nat)
    requires Inv(s) && (PhaseOf(s, w) == Deciding || (PhaseOf(s, w) == Sending && At(s.heap, Copy(w)) == []))
    requires t.handlers == s.handlers && t.sent == s.sent && t.arrived == s.arrived && t.popped == s.popped
    requires var k := TicketOf(s.heap, At(s.heap, Hand(w))[0]);
      t.fate == s.fate || (k in t.fate && t.fate == s.fate[k := t.fate[k]])
    ensures Extends(s, t)
  {
    SettledIsNew(s, w);
    var k := TicketOf(s.heap, At(s.heap, Hand(w))[0]);
    hide Inv, At, Log, Noted, Extends;
    AddsOnly(s, t, ANY, k, if k in t.fate then t.fate[k] else Lost, 0, 0);
  }

  lemma DrainExtends(s: State, w: nat)
    requires Inv(s) && At(s.heap, Queue(w)) != []
    ensures Extends(s, DoDrain(s, w))
  {
    var b := At(s.heap, Queue(w))[0];
    HandBlock(s, Queue(w));
    CarriedOf(s, b);
    NotCarried(s, b);
    hide At, Log, Noted, Extends, Release, Carriers;
    AddsOnly(s, DoDrain(s, w), ANY, s.heap.mem[b].ticket, Discarded, w, s.heap.mem[b].ticket);
  }

  /** One step's changes to the history are additions. */
  lemma AddsOnly(s: State, t: State, m: Letter, k: nat, f: Fate, w: nat, j: nat)
    requires t.handlers == s.handlers && (t.sent == s.sent || t.sent == s.sent + [m])
    requires t.fate == s.fate || (k !in s.fate && t.fate == s.fate[k := f])
    requires t.arrived == s.arrived || t.arrived == Noted(s.arrived, w, j)
    requires t.popped == s.popped || t.popped == Noted(s.popped, w, j)
    ensures Extends(s, t)
  {
  }

  lemma NotCarried(s: State, b: Block)
    requires Inv(s) && b in Carriers(s) && b in s.heap.mem
    ensures s.heap.mem[b].ticket !in s.fate
  {
  }

  lemma SettledIsNew(s: State, w: nat)
    requires Inv(s) && (PhaseOf(s, w) == Deciding || (PhaseOf(s, w) == Sending && At(s.heap, Copy(w)) == []))
    ensures At(s.heap, Hand(w)) != [] && At(s.heap, Hand(w))[0] in s.heap.mem
    ensures TicketOf(s.heap, At(s.heap, Hand(w))[0]) !in s.fate
  {
    HandBlock(s, Hand(w));
    CarriedOf(s, At(s.heap, Hand(w))[0]);
    NotCarried(s, At(s.heap, Hand(w))[0]);
  }

  /** A message gets one fate and keeps it, whatever happens afterwards. */
  lemma {:induction false} RunExtends(s: State, steps: seq<Step>)
    requires Inv(s)
    ensures Extends(s, Run(s, steps))
    decreases |steps|
  {
    hide Owned, Shaped, HeapOk, Addressed, Tracked, InOrder, Judged, Next, Enabled, Extends;
    if steps == [] {
      ExtendsItself(s);
    } else if Enabled(s, steps[0]) {
      StepKeepsInv(s, steps[0]);
      InvParts(s);
      var t := Next(s, steps[0]);
      StepExtends(s, steps[0]);
      RunExtends(t, steps[1..]);
      ExtendsFurther(s, t, Run(t, steps[1..]));
    } else {
      RunExtends(s, steps[1..]);
    }
  }

  lemma ExtendsItself(s: State)
    ensures Extends(s, s)
  {
  }

  lemma ExtendsFurther(s: State, t: State, u: State)
    requires Extends(s, t) && Extends(t, u)
    ensures Extends(s, u)
  {
    hide Log;
  }

  // ----- at rest -----

  ghost predicate AtRest(s: State) {
    forall l: Place :: !l.Free? ==> At(s.heap, l) == []
  }

  /** Nothing in flight: every message has its fate, every arrival was taken up, every block is back in its pool. */
  lemma RestIsComplete(s: State)
    requires Inv(s) && AtRest(s)
    ensures forall k: nat :: k < |s.sent| ==> k in s.fate
    ensures forall w: nat :: Log(s.arrived, w) == Log(s.popped, w)
    ensures forall b :: b in s.heap.mem ==>
              s.heap.place[b].Free? && b in At(s.heap, Free(ClassOf(s.heap.mem[b].size)))
  {
    forall b | b in s.heap.mem
      ensures s.heap.place[b].Free? && b in At(s.heap, Free(ClassOf(s.heap.mem[b].size)))
    {
      IsListed(s.heap, b);
      assert s.heap.place[b].Free?;
    }
    assert Carriers(s) == {};
    hide ClassOf, PoolSize;
    forall w: nat ensures Log(s.arrived, w) == Log(s.popped, w) {
      assert Tickets(s.heap, Batch(w)) == [] && Tickets(s.heap, Queue(w)) == [];
    }
  }

  // ----- no deadlock -----

  /** What the thread that has this block can do next, needing no memory and no other thread. */
  function Onward(s: State, l: Place): Step {
    match l
    case Free(i) => Enqueue(i)
    case Out(t) => Enqueue(t)
    case Queue(w) =>
      if PhaseOf(s, w) == Idle && At(s.heap, Batch(w)) == [] then Take(w) else WorkerStep(s, w)
    case Batch(w) => WorkerStep(s, w)
    case Hand(w) => WorkerStep(s, w)
    case Copy(w) => WorkerStep(s, w)
  }

  /** Where the copy's block comes from when malloc fails. */
  function WithoutMalloc(s: State, w: nat): Source {
    if At(s.heap, Hand(w)) != [] && At(s.heap, Hand(w))[0] in s.heap.mem then
      var c := s.heap.mem[At(s.heap, Hand(w))[0]];
      if c.dest < MAX_THREAD_NUM && Stocked(s.heap, BlockSize(Forwarded(c.letter))) then FromPool else Nothing
    else Nothing
  }

  function WorkerStep(s: State, w: nat): Step {
    match PhaseOf(s, w)
    case Idle => Pop(w)
    case Deciding => Decide(w, Look(false, w))
    case Sending => if At(s.heap, Copy(w)) == [] then MakeCopy(w, WithoutMalloc(s, w)) else Deliver(w)
    case Freeing => GiveBack(w)
  }

  /** A block outside the free lists can always get on, even when malloc fails from now on. */
  lemma NeverStuck(s: State, l: Place)
    requires Inv(s) && !l.Free? && At(s.heap, l) != []
    ensures Enabled(s, Onward(s, l))
  {
    hide Inv, At;
    InvAt(s, l);
    if !l.Out? && !Onward(s, l).Take? {
      if PhaseOf(s, l.worker) == Sending { WorkerHolds(s, l.worker); }
      WorkerCanStep(s, l.worker);
    }
  }

  lemma WorkerHolds(s: State, w: nat)
    requires Inv(s) && PhaseOf(s, w) == Sending
    ensures At(s.heap, Hand(w)) != [] && At(s.heap, Hand(w))[0] in s.heap.mem
  {
    HandBlock(s, Hand(w));
  }

  lemma InvAt(s: State, l: Place)
    requires Inv(s) && At(s.heap, l) != []
    ensures Shaped(s) && At(s.heap, l)[0] in s.heap.mem && s.heap.place[At(s.heap, l)[0]] == l
    ensures AddressOk(s, l, s.heap.mem[At(s.heap, l)[0]])
  {
    HandBlock(s, l);
    hide At, Shaped, Tracked, InOrder, Judged, HeapOk;
  }

  lemma WorkerCanStep(s: State, w: nat)
    requires Shaped(s) && (PhaseOf(s, w) == Idle ==> At(s.heap, Batch(w)) != [])
    requires PhaseOf(s, w) == Sending ==> At(s.heap, Hand(w)) != [] && At(s.heap, Hand(w))[0] in s.heap.mem
    ensures Enabled(s, WorkerStep(s, w))
  {
    hide At;
  }
}
