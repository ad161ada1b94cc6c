/** TcpSlaveServer's connection slots: reuse of the lowest free slot, trailing shrink, deferred operations. */
module SlotTable {
  import opened Common

  const WORKERS: nat := 2

  /** A TcpConduit, by its socket and the id it was created with. */
  datatype Conduit = Conduit(socket: int, uid: int)

  type Slots = seq<Option<Conduit>>

  /** A queued operation. `made` says whether the factory delivers a conduit (it may return NULL or throw). */
  datatype Op = Accept(ss: int, made: bool) | Remove(id: int)

  // ----- the slot vector as a value -----

  function Uid(slot: nat, idx: nat): int { slot * WORKERS + idx }

  /** The lowest empty slot from i on, or the end of the vector. */
  function FirstFree(cs: Slots, i: nat): (r: nat)
    requires i <= |cs|
    ensures i <= r <= |cs| && (r < |cs| ==> cs[r].None?)
    ensures forall k :: i <= k < r ==> cs[k].Some?
    decreases |cs| - i
  {
    if i == |cs| || cs[i].None? then i else FirstFree(cs, i + 1)
  }

  /** Without its trailing empty slots. */
  function Trim(cs: Slots): (r: Slots)
    ensures r <= cs && (r == [] || r[|r| - 1].Some?)
    ensures forall k :: |r| <= k < |cs| ==> cs[k].None?
  {
    if cs == [] || cs[|cs| - 1].Some? then cs else Trim(cs[..|cs| - 1])
  }

  function AcceptIn(cs: Slots, idx: nat, ss: int): Slots {
    var id := FirstFree(cs, 0);
    var c := Some(Conduit(ss, Uid(id, idx)));
    if id < |cs| then cs[id := c] else cs + [c]
  }

  function RemoveIn(cs: Slots, rid: nat): Slots {
    if rid >= |cs| || cs[rid].None? then cs
    else if rid == |cs| - 1 then Trim(cs[..rid])
    else cs[rid := None]
  }

  /** `UInt32 rid = id / WORKERS`: division truncates, then a negative quotient wraps. */
  function SlotOf(id: int): (r: nat) {
    if id >= 0 then id / WORKERS
    else if (-id) / WORKERS == 0 then 0
    else 0x1_0000_0000 - ((-id) / WORKERS) % 0x1_0000_0000
  }

  function Apply(cs: Slots, idx: nat, op: Op): Slots {
    match op
    case Accept(ss, made) => if ss >= 0 && made then AcceptIn(cs, idx, ss) else cs
    case Remove(id) => RemoveIn(cs, SlotOf(id))
  }

  function ApplyAll(cs: Slots, idx: nat, ops: seq<Op>): Slots
    decreases |ops|
  {
    if ops == [] then cs else ApplyAll(Apply(cs, idx, ops[0]), idx, ops[1..])
  }

  // ----- what every sequence of operations keeps -----

  function NumOpen(cs: Slots): (n: nat)
    ensures n <= |cs|
  {
    if cs == [] then 0 else NumOpen(cs[..|cs| - 1]) + (if cs[|cs| - 1].Some? then 1 else 0)
  }

  /** The last slot is in use, and every conduit carries the id of its slot. */
  ghost predicate Sound(cs: Slots, idx: nat) {
    && (cs == [] || cs[|cs| - 1].Some?)
    && forall i :: 0 <= i < |cs| && cs[i].Some? ==> cs[i].value.uid == Uid(i, idx)
  }

  lemma ApplyKeepsSound(cs: Slots, idx: nat, op: Op)
    requires Sound(cs, idx)
    ensures Sound(Apply(cs, idx, op), idx)
  {
    if op.Remove? {
      var rid := SlotOf(op.id);
      if rid < |cs| && cs[rid].Some? && rid == |cs| - 1 {
        var r := Trim(cs[..rid]);
        assert forall i :: 0 <= i < |r| ==> r[i] == cs[i];
      }
    }
  }

  lemma {:induction false} ApplyAllKeepsSound(cs: Slots, idx: nat, ops: seq<Op>)
    requires Sound(cs, idx)
    ensures Sound(ApplyAll(cs, idx, ops), idx)
    decreases |ops|
  {
    hide Apply, Sound;
    if ops != [] {
      ApplyKeepsSound(cs, idx, ops[0]);
      ApplyAllKeepsSound(Apply(cs, idx, ops[0]), idx, ops[1..]);
    }
  }

  /** Taking the queue in two batches is taking it in one. */
  lemma {:induction false} ApplyInBatches(cs: Slots, idx: nat, a: seq<Op>, b: seq<Op>)
    ensures ApplyAll(cs, idx, a + b) == ApplyAll(ApplyAll(cs, idx, a), idx, b)
    decreases |a|
  {
    hide Apply;
    if a == [] {
      assert a + b == b;
    } else {
      assert (a + b)[1..] == a[1..] + b;
      ApplyInBatches(Apply(cs, idx, a[0]), idx, a[1..], b);
    }
  }

  // ----- the slots refine a map from ids to sockets -----

  /** Socket ss is connected under this id. */
  predicate Connected(cs: Slots, idx: nat, id: int, ss: int) {
    id >= 0 && id % WORKERS == idx && id / WORKERS < |cs| && cs[id / WORKERS] == Some(Conduit(ss, id))
  }

  /** An id in use names one slot, and each slot in use has one id. */
  lemma IdsAreUnique(cs: Slots, idx: nat, i: nat)
    requires Sound(cs, idx) && idx < WORKERS && i < |cs| && cs[i].Some?
    ensures var c := cs[i].value;
      && Connected(cs, idx, c.uid, c.socket) && c.uid / WORKERS == i && c.uid % WORKERS == idx
      && forall j :: 0 <= j < |cs| && cs[j].Some? && cs[j].value.uid == c.uid ==> j == i
  {
  }

  /** Accepting adds one connection, under an id that was free, and changes no other. */
  lemma AcceptAddsOne(cs: Slots, idx: nat, ss: int)
    requires Sound(cs, idx) && idx < WORKERS
    ensures var id := Uid(FirstFree(cs, 0), idx);
      && (forall s :: !Connected(cs, idx, id, s))
      && (forall j, s :: Connected(AcceptIn(cs, idx, ss), idx, j, s)
                         <==> (Connected(cs, idx, j, s) || (j == id && s == ss)))
  {
    var f := FirstFree(cs, 0);
    assert Uid(f, idx) / WORKERS == f && Uid(f, idx) % WORKERS == idx;
  }

  /** Removing an id of this worker ends that connection, if there is one, and no other. */
  lemma RemoveDropsOne(cs: Slots, idx: nat, id: int)
    requires Sound(cs, idx) && idx < WORKERS && id >= 0 && id % WORKERS == idx
    ensures forall j, s :: Connected(RemoveIn(cs, SlotOf(id)), idx, j, s) <==> (Connected(cs, idx, j, s) && j != id)
  {
    RemoveDropsSlot(cs, idx, id / WORKERS);
    assert Uid(id / WORKERS, idx) == id;
  }

  lemma RemoveDropsSlot(cs: Slots, idx: nat, rid: nat)
    requires Sound(cs, idx) && idx < WORKERS
    ensures forall j, s :: Connected(RemoveIn(cs, rid), idx, j, s)
                           <==> (Connected(cs, idx, j, s) && j != Uid(rid, idx))
  {
    forall j, s
      ensures Connected(RemoveIn(cs, rid), idx, j, s) <==> (Connected(cs, idx, j, s) && j != Uid(rid, idx))
    {
      assert j >= 0 && j % WORKERS == idx ==> (j == Uid(rid, idx) <==> j / WORKERS == rid);
      if rid < |cs| && cs[rid].Some? && rid == |cs| - 1 {
        var r := Trim(cs[..rid]);
        assert forall i :: 0 <= i < |r| ==> r[i] == cs[i];
        assert forall i :: |r| <= i < rid ==> cs[..rid][i] == cs[i];
      }
    }
  }

  /** A worker never checks that an id is its own: asked to remove any id, it ends exactly the connection in
      slot SlotOf(id). So only the named connection is affected just when the id is the worker's own or that
      slot is free. */
  lemma RemoveSparesOthersIff(cs: Slots, idx: nat, id: int)
    requires Sound(cs, idx) && idx < WORKERS
    ensures (forall j, s :: Connected(cs, idx, j, s) && j != id ==> Connected(RemoveIn(cs, SlotOf(id)), idx, j, s))
            <==> ((id >= 0 && id % WORKERS == idx) || SlotOf(id) >= |cs| || cs[SlotOf(id)].None?)
  {
    var rid := SlotOf(id);
    RemoveDropsSlot(cs, idx, rid);
    if !(id >= 0 && id % WORKERS == idx) && rid < |cs| && cs[rid].Some? {
      assert Connected(cs, idx, Uid(rid, idx), cs[rid].value.socket);
      assert Uid(rid, idx) != id;
    }
  }

  // ----- a second remove for one connection -----

  /** The n-th operation of q is an accept that is given this slot. */
  predicate Seats(cs: Slots, idx: nat, rid: nat, q: seq<Op>, n: nat) {
    && n < |q| && q[n].Accept? && q[n].ss >= 0 && q[n].made
    && FirstFree(ApplyAll(cs, idx, q[..n]), 0) == rid
  }

  predicate Unseats(rid: nat, op: Op) { op.Remove? && SlotOf(op.id) == rid }

  /** After q, slot rid holds the connection that the n-th operation of q accepted. */
  ghost predicate SeatedBy(cs: Slots, idx: nat, rid: nat, q: seq<Op>, n: nat) {
    Seats(cs, idx, rid, q, n) && forall m :: n < m < |q| ==> !Unseats(rid, q[m])
  }

  ghost predicate Unseated(rid: nat, q: seq<Op>) { exists m :: 0 <= m < |q| && Unseats(rid, q[m]) }

  predicate InUse(cs: Slots, rid: nat) { rid < |cs| && cs[rid].Some? }

  /** One operation on one slot. */
  lemma ApplyAt(cs: Slots, idx: nat, op: Op, rid: nat)
    ensures var r := Apply(cs, idx, op);
      if Unseats(rid, op) then !InUse(r, rid)
      else if op.Accept? && op.ss >= 0 && op.made && FirstFree(cs, 0) == rid then
        InUse(r, rid) && r[rid].value == Conduit(op.ss, Uid(rid, idx))
      else InUse(r, rid) == InUse(cs, rid) && (InUse(cs, rid) ==> r[rid] == cs[rid])
  {
    if op.Remove? {
      var p := SlotOf(op.id);
      if p < |cs| && cs[p].Some? && p == |cs| - 1 {
        var t := Trim(cs[..p]);
        assert forall i :: 0 <= i < |t| ==> t[i] == cs[i];
        assert forall i :: |t| <= i < p ==> cs[..p][i] == cs[i];
      }
    }
  }

  lemma ApplyLast(cs: Slots, idx: nat, q: seq<Op>, op: Op)
    ensures ApplyAll(cs, idx, q + [op]) == Apply(ApplyAll(cs, idx, q), idx, op)
  {
    ApplyInBatches(cs, idx, q, [op]);
    assert [op][1..] == [];
  }

  /** Who is in a slot after any queue: whoever was last given it and not removed since. */
  lemma {:induction false} SlotAfter(cs: Slots, idx: nat, rid: nat, q: seq<Op>)
    requires InUse(cs, rid)
    ensures var t := ApplyAll(cs, idx, q);
      && (!Unseated(rid, q) ==> InUse(t, rid) && t[rid] == cs[rid])
      && ((exists n: nat :: SeatedBy(cs, idx, rid, q, n)) <==> Unseated(rid, q) && InUse(t, rid))
      && (forall n: nat :: SeatedBy(cs, idx, rid, q, n) ==>
            InUse(t, rid) && t[rid].value == Conduit(q[n].ss, Uid(rid, idx)))
    decreases |q|
  {
    if q != [] {
      var p, op := q[..|q| - 1], q[|q| - 1];
      SlotAfter(cs, idx, rid, p);
      ApplyLast(cs, idx, p, op);
      ApplyAt(ApplyAll(cs, idx, p), idx, op, rid);
      assert q == p + [op];
      hide Apply, ApplyAll, InUse, FirstFree, SlotOf;
      UnseatedLast(rid, p, op);
      SeatedLast(cs, idx, rid, p, op);
      FreeWhenSeated(ApplyAll(cs, idx, p), rid);
      if SeatedBy(cs, idx, rid, q, |p|) {
        assert Unseated(rid, p);
      } else if n: nat :| SeatedBy(cs, idx, rid, p, n) {
        assert n < |p|;
        assert SeatedBy(cs, idx, rid, q, n) <==> !Unseats(rid, op);
      }
    }
  }

  lemma UnseatedLast(rid: nat, p: seq<Op>, op: Op)
    ensures Unseated(rid, p + [op]) <==> Unseated(rid, p) || Unseats(rid, op)
  {
    hide Unseats;
    var q := p + [op];
    if Unseated(rid, p) {
      var m :| 0 <= m < |p| && Unseats(rid, p[m]);
      assert q[m] == p[m];
    }
    if Unseats(rid, op) { assert q[|p|] == op; }
    if Unseated(rid, q) {
      var m :| 0 <= m < |q| && Unseats(rid, q[m]);
      assert m < |p| ==> p[m] == q[m];
    }
  }

  lemma SeatedLast(cs: Slots, idx: nat, rid: nat, p: seq<Op>, op: Op)
    ensures forall n: nat :: SeatedBy(cs, idx, rid, p + [op], n) <==>
      if n == |p| then op.Accept? && op.ss >= 0 && op.made && FirstFree(ApplyAll(cs, idx, p), 0) == rid
      else SeatedBy(cs, idx, rid, p, n) && !Unseats(rid, op)
  {
    hide FirstFree, ApplyAll, Unseats;
    var q := p + [op];
    assert q[..|p|] == p && q[|p|] == op;
    forall n: nat | n < |p| ensures q[..n] == p[..n] && q[n] == p[n] {}
    forall n: nat | n < |p|
      ensures SeatedBy(cs, idx, rid, q, n) <==> SeatedBy(cs, idx, rid, p, n) && !Unseats(rid, op)
    {
      if SeatedBy(cs, idx, rid, q, n) {
        forall m | n < m < |p| ensures !Unseats(rid, p[m]) { assert q[m] == p[m]; }
      }
    }
  }

  lemma FreeWhenSeated(cs: Slots, rid: nat)
    ensures FirstFree(cs, 0) == rid ==> !InUse(cs, rid)
  {
  }

  /** A remove queued twice: when the second one is applied, behind any other operations q, it ends a connection
      that was accepted in q exactly when q has removed the one it is meant for and the slot is in use again.
      Otherwise it ends the one it is meant for, or, when that is gone, nothing. */
  lemma SecondRemoveIff(cs: Slots, idx: nat, id: int, q: seq<Op>)
    requires Sound(cs, idx) && idx < WORKERS && id >= 0 && id % WORKERS == idx && InUse(cs, SlotOf(id))
    ensures var rid, t := SlotOf(id), ApplyAll(cs, idx, q);
      && ((exists n: nat :: SeatedBy(cs, idx, rid, q, n)) <==> Unseated(rid, q) && InUse(t, rid))
      && (forall n: nat :: SeatedBy(cs, idx, rid, q, n) ==>
            && (exists m: nat :: m < n && Unseats(rid, q[m]))
            && Connected(t, idx, id, q[n].ss) && !Connected(RemoveIn(t, rid), idx, id, q[n].ss))
      && (!Unseated(rid, q) ==>
            && InUse(t, rid) && t[rid] == cs[rid] && Connected(t, idx, id, cs[rid].value.socket)
            && !Connected(RemoveIn(t, rid), idx, id, cs[rid].value.socket))
      && (!InUse(t, rid) ==> RemoveIn(t, rid) == t)
      && forall j, s :: Connected(RemoveIn(t, rid), idx, j, s) <==> (Connected(t, idx, j, s) && j != id)
  {
    var rid := SlotOf(id);
    SlotAfter(cs, idx, rid, q);
    ApplyAllKeepsSound(cs, idx, q);
    RemoveDropsOne(ApplyAll(cs, idx, q), idx, id);
    assert Uid(rid, idx) == id;
    forall n: nat | SeatedBy(cs, idx, rid, q, n) ensures exists m: nat :: m < n && Unseats(rid, q[m]) {
      SeatedAfterRemoval(cs, idx, rid, q, n);
    }
    hide ApplyAll, RemoveIn, SeatedBy, Unseated;
  }

  lemma SeatedAfterRemoval(cs: Slots, idx: nat, rid: nat, q: seq<Op>, n: nat)
    requires InUse(cs, rid) && SeatedBy(cs, idx, rid, q, n)
    ensures exists m: nat :: m < n && Unseats(rid, q[m])
  {
    SlotAfter(cs, idx, rid, q[..n]);
    FreeWhenSeated(ApplyAll(cs, idx, q[..n]), rid);
    assert Unseated(rid, q[..n]);
    var m :| 0 <= m < n && Unseats(rid, q[..n][m]);
    assert q[..n][m] == q[m];
  }

  /** Such a queue: a remove, an accept, and the remove again end the new connection. */
  lemma SecondRemoveHitsSuccessor()
    ensures Connected(ApplyAll([], 0, [Accept(7, true), Remove(0), Accept(8, true)]), 0, 0, 8)
    ensures ApplyAll([], 0, [Accept(7, true), Remove(0), Accept(8, true), Remove(0)]) == []
  {
    var a, r, b := Accept(7, true), Remove(0), Accept(8, true);
    var one: Slots := [Some(Conduit(7, 0))];
    var two: Slots := [Some(Conduit(8, 0))];
    assert Apply([], 0, a) == one && Apply(one, 0, r) == [] && Apply([], 0, b) == two && Apply(two, 0, r) == [];
    hide Apply;
    assert ApplyAll(two, 0, [r]) == [];
    assert [r, b, r][1..] == [b, r] && [a, r, b, r][1..] == [r, b, r] && [r, b][1..] == [b];
    assert ApplyAll([], 0, [b, r]) == [] && ApplyAll([], 0, [b]) == two;
    assert ApplyAll(one, 0, [r, b, r]) == [] && ApplyAll(one, 0, [r, b]) == two;
    assert [a, r, b][1..] == [r, b];
  }

  // ----- all slaves behind the master -----

  /** TcpMasterServer::remove: the id names the slave, which removes the slot. */
  function Route(slaves: seq<Slots>, id: int): (r: seq<Slots>)
    requires |slaves| == WORKERS && id >= 0
    ensures |r| == WORKERS
  {
    slaves[id % WORKERS := RemoveIn(slaves[id % WORKERS], SlotOf(id))]
  }

  /** So routed, a remove ends the connection with that id, on whatever slave, and no other. */
  lemma RoutedRemove(slaves: seq<Slots>, id: int)
    requires |slaves| == WORKERS && id >= 0 && forall i :: 0 <= i < WORKERS ==> Sound(slaves[i], i)
    ensures forall i, j, s :: 0 <= i < WORKERS ==>
      (Connected(Route(slaves, id)[i], i, j, s) <==> Connected(slaves[i], i, j, s) && j != id)
  {
    var w := id % WORKERS;
    RemoveDropsOne(slaves[w], w, id);
    hide RemoveIn, Sound;
  }

  // ----- the vector is no longer than it had to be -----

  /** The most connections that are ever open at once. */
  function Peak(cs: Slots, idx: nat, ops: seq<Op>): nat
    decreases |ops|
  {
    var here := NumOpen(cs);
    if ops == [] then here
    else
      var later := Peak(Apply(cs, idx, ops[0]), idx, ops[1..]);
      if here > later then here else later
  }

  lemma {:induction false} NumOpenAll(cs: Slots)
    requires forall i :: 0 <= i < |cs| ==> cs[i].Some?
    ensures NumOpen(cs) == |cs|
  {
    if cs != [] { NumOpenAll(cs[..|cs| - 1]); }
  }

  lemma GrowsOnlyWhenFull(cs: Slots, idx: nat, op: Op)
    ensures var r := Apply(cs, idx, op); |r| <= |cs| || NumOpen(r) == |r|
  {
    if op.Accept? && op.ss >= 0 && op.made && FirstFree(cs, 0) == |cs| { NumOpenAll(AcceptIn(cs, idx, op.ss)); }
  }

  /** From an empty table, the vector never outgrows the peak number of open connections. */
  lemma {:induction false} LengthWithinPeak(cs: Slots, idx: nat, ops: seq<Op>)
    ensures |ApplyAll(cs, idx, ops)| <= |cs| || |ApplyAll(cs, idx, ops)| <= Peak(cs, idx, ops)
    decreases |ops|
  {
    if ops != [] {
      GrowsOnlyWhenFull(cs, idx, ops[0]);
      hide Apply, NumOpen;
      LengthWithinPeak(Apply(cs, idx, ops[0]), idx, ops[1..]);
    }
  }

  // ----- counting -----

  lemma {:induction false} NumOpenUpdate(cs: Slots, p: nat, s: Option<Conduit>)
    requires p < |cs|
    ensures NumOpen(cs[p := s]) == NumOpen(cs) + (if s.Some? then 1 else 0) - (if cs[p].Some? then 1 else 0)
  {
    var n := |cs| - 1;
    if p < n {
      NumOpenUpdate(cs[..n], p, s);
      assert cs[p := s][..n] == cs[..n][p := s];
    } else {
      assert cs[p := s][..n] == cs[..n];
    }
  }

  lemma {:induction false} NumOpenTrim(cs: Slots)
    ensures NumOpen(Trim(cs)) == NumOpen(cs)
  {
    if cs != [] && cs[|cs| - 1].None? { NumOpenTrim(cs[..|cs| - 1]); }
  }

  lemma CountAccept(cs: Slots, idx: nat, ss: int)
    ensures NumOpen(AcceptIn(cs, idx, ss)) == NumOpen(cs) + 1
  {
    var id := FirstFree(cs, 0);
    var c := Some(Conduit(ss, Uid(id, idx)));
    if id < |cs| { NumOpenUpdate(cs, id, c); } else { assert (cs + [c])[..|cs|] == cs; }
  }

  lemma CountRemove(cs: Slots, rid: nat)
    ensures NumOpen(RemoveIn(cs, rid)) == NumOpen(cs) - (if rid < |cs| && cs[rid].Some? then 1 else 0)
  {
    if rid < |cs| && cs[rid].Some? {
      if rid == |cs| - 1 { NumOpenTrim(cs[..rid]); } else { NumOpenUpdate(cs, rid, None); }
    }
  }

  /** Only an incoming socket for which a conduit was made is taken in. */
  predicate TakenIn(op: Op) { op.Accept? && op.ss >= 0 && op.made }

  function Accepts(ops: seq<Op>): nat {
    if ops == [] then 0 else (if TakenIn(ops[0]) then 1 else 0) + Accepts(ops[1..])
  }

  /** How many removes meet a connection. */
  function Ends(cs: Slots, idx: nat, ops: seq<Op>): nat
    decreases |ops|
  {
    if ops == [] then 0
    else (if ops[0].Remove? && InUse(cs, SlotOf(ops[0].id)) then 1 else 0) + Ends(Apply(cs, idx, ops[0]), idx, ops[1..])
  }

  /** Connections are conserved: opened ones are those accepted less those ended. */
  lemma {:induction false} OpenConserved(cs: Slots, idx: nat, ops: seq<Op>)
    ensures NumOpen(ApplyAll(cs, idx, ops)) == NumOpen(cs) + Accepts(ops) - Ends(cs, idx, ops)
    decreases |ops|
  {
    if ops != [] {
      match ops[0] {
        case Accept(ss, _) => CountAccept(cs, idx, ss);
        case Remove(id) => CountRemove(cs, SlotOf(id));
      }
      hide NumOpen, AcceptIn, RemoveIn, SlotOf;
      OpenConserved(Apply(cs, idx, ops[0]), idx, ops[1..]);
    }
  }

  /** An accept for which no conduit is made leaves the table as it is. */
  lemma NotTakenIn(cs: Slots, idx: nat, ss: int)
    ensures Apply(cs, idx, Accept(ss, false)) == cs
  {
  }

  /** A negative 32-bit id names slot 0, or one that no vector reaches. */
  lemma NegativeIds(id: int)
    requires -0x8000_0000 <= id < 0
    ensures if id == -1 then SlotOf(id) == 0 else SlotOf(id) >= 0xC000_0000
  {
  }

  // ----- the server object -----

  ghost function Empties(cs: Slots): set<nat> {
    set i: nat | i < |cs| && cs[i].None?
  }

  lemma EmptiesFilled(cs: Slots, id: nat, c: Conduit)
    requires id <= |cs|
    ensures id < |cs| ==> Empties(cs[id := Some(c)]) == Empties(cs) - {id}
    ensures id == |cs| ==> Empties(cs + [Some(c)]) == Empties(cs)
  {
  }

  lemma EmptiesFreed(cs: Slots, id: nat)
    requires id < |cs|
    ensures Empties(cs[id := None]) == Empties(cs) + {id}
  {
  }

  /** Dropping one more slot at the end. */
  lemma EmptiesDrop(cs: Slots, n: nat)
    requires n < |cs|
    ensures Empties(cs[..n]) == Empties(cs[..n + 1]) - {n}
  {
  }

  class SlaveServer {
    const slaveIdx: nat
    var conduits: Slots
    var emptySet: set<nat>
    var count: nat
    var opList: seq<Op>

    constructor (idx: nat)
      ensures Valid() && slaveIdx == idx && conduits == [] && opList == []
    {
      slaveIdx := idx;
      conduits, emptySet, count, opList := [], {}, 0, [];
    }

    ghost predicate Valid()
      reads this
    {
      && Sound(conduits, slaveIdx)
      && emptySet == Empties(conduits)
      && count == NumOpen(conduits)
    }

    /** accepted and remove: queue the operation. */
    method Post(op: Op)
      modifies this`opList
      ensures opList == old(opList) + [op]
    {
      opList := opList + [op];
    }

    /** _accepted for an incoming socket. */
    method DoAccept(ss: int, made: bool)
      requires Valid()
      modifies this`conduits, this`emptySet, this`count
      ensures Valid() && conduits == Apply(old(conduits), slaveIdx, Accept(ss, made))
    {
      hide Sound, NumOpen, AcceptIn, FirstFree;
      // The source loops here until it meets an id inside the vector; the lowest one always is, so the
      // first turn returns and the loop cannot spin.
      if emptySet != {} {
        var id := Least(emptySet);
        assert id < |conduits|;
        if ss < 0 || !made { return; }
        assert forall k :: 0 <= k < id && conduits[k].None? ==> k in emptySet;
        FillSlot(id, ss);
        return;
      }
      var id := |conduits|;
      if ss < 0 || !made { return; }
      assert forall k :: 0 <= k < id && conduits[k].None? ==> k in emptySet;
      FillSlot(id, ss);
    }

    /** The two ways _accepted stores a conduit: into the lowest empty slot, or at the end. */
    method FillSlot(id: nat, ss: int)
      requires Valid() && id <= |conduits| && (id < |conduits| ==> conduits[id].None?)
      requires forall k :: 0 <= k < id ==> conduits[k].Some?
      modifies this`conduits, this`emptySet, this`count
      ensures Valid() && conduits == AcceptIn(old(conduits), slaveIdx, ss)
    {
      ApplyKeepsSound(conduits, slaveIdx, Accept(ss, true));
      CountAccept(conduits, slaveIdx, ss);
      FirstFreeIs(conduits, 0, id);
      hide Sound, NumOpen, FirstFree, Empties;
      var conduit := Conduit(ss, Uid(id, slaveIdx));
      EmptiesFilled(conduits, id, conduit);
      if id < |conduits| {
        emptySet := emptySet - {id};
        conduits := conduits[id := Some(conduit)];
      } else {
        conduits := conduits + [Some(conduit)];
      }
      count := count + 1;
    }

    /** _remove */
    method DoRemove(id: int)
      requires Valid()
      modifies this`conduits, this`emptySet, this`count
      ensures Valid() && conduits == Apply(old(conduits), slaveIdx, Remove(id))
    {
      ApplyKeepsSound(conduits, slaveIdx, Remove(id));
      CountRemove(conduits, SlotOf(id));
      hide Sound, NumOpen, SlotOf, Empties, Trim;
      var rid := SlotOf(id);
      if rid < |conduits| && conduits[rid].Some? {
        EmptiesFreed(conduits, rid);
        conduits := conduits[rid := None];
        if rid == |conduits| - 1 {
          Shrink(rid, old(conduits));
        } else {
          emptySet := emptySet + {rid};
        }
        if count > 0 { count := count - 1; }
      }
    }

    /** The do-while loop of _remove: drop the trailing empty slots and their entries in the empty set. */
    method Shrink(rid: nat, ghost before: Slots)
      requires rid + 1 == |before| && before[rid].Some? && conduits == before[rid := None]
      requires emptySet == Empties(before)
      modifies this`conduits, this`emptySet
      ensures conduits == Trim(before[..rid])
      ensures emptySet == Empties(conduits)
    {
      hide Empties, Trim;
      assert before[..rid + 1] == before;
      var rrid: int := rid;
      while true
        invariant 0 <= rrid <= rid && conduits == before[rid := None] && conduits[rrid].None?
        invariant emptySet == Empties(before[..rrid + 1])
        invariant Trim(before[..if rrid == rid then rid else rrid + 1]) == Trim(before[..rid])
        decreases rrid
      {
        EmptiesDrop(before, rrid);
        if rrid < rid { TrimStep(before, rrid); }
        if emptySet != {} { emptySet := emptySet - {rrid}; }
        rrid := rrid - 1;
        if !(rrid >= 0 && conduits[rrid].None?) { break; }
      }
      conduits := conduits[..rrid + 1];
      assert conduits == before[..rrid + 1];
      TrimDone(conduits);
    }

    /** destroy clears the vector and the counter but not the set of empty slots: accepts can go on exactly when
        the table had no hole. */
    method Destroy()
      requires Valid()
      modifies this`conduits, this`count
      ensures conduits == [] && count == 0 && emptySet == old(emptySet)
      ensures Settles(emptySet, |conduits|) <==> forall i :: 0 <= i < |old(conduits)| ==> old(conduits)[i].Some?
      ensures Valid() <==> Settles(emptySet, |conduits|)
    {
      conduits := [];
      count := 0;
      ghost var was := old(conduits);
      if !(forall i :: 0 <= i < |was| ==> was[i].Some?) {
        var i :| 0 <= i < |was| && was[i].None?;
        assert i in emptySet;
      }
    }

    /** onOpCheck: take the queued operations and apply them in order. */
    method OnOpCheck()
      requires Valid()
      modifies this
      ensures Valid() && opList == []
      ensures conduits == ApplyAll(old(conduits), slaveIdx, old(opList))
    {
      var rlist := opList;
      opList := [];
      for i := 0 to |rlist|
        invariant Valid() && opList == []
        invariant ApplyAll(conduits, slaveIdx, rlist[i..]) == ApplyAll(old(conduits), slaveIdx, rlist)
      {
        assert rlist[i..][1..] == rlist[i + 1..];
        match rlist[i]
        case Accept(ss, made) => DoAccept(ss, made);
        case Remove(id) => DoRemove(id);
      }
    }
  }

  lemma TrimStep(cs: Slots, n: nat)
    requires n < |cs| && cs[n].None?
    ensures Trim(cs[..n + 1]) == Trim(cs[..n])
  {
    assert cs[..n + 1][..n] == cs[..n];
  }

  lemma TrimDone(cs: Slots)
    requires cs == [] || cs[|cs| - 1].Some?
    ensures Trim(cs) == cs
  {
  }

  lemma {:induction false} FirstFreeIs(cs: Slots, i: nat, id: nat)
    requires i <= id <= |cs| && (id < |cs| ==> cs[id].None?)
    requires forall k :: i <= k < id ==> cs[k].Some?
    ensures FirstFree(cs, i) == id
    decreases id - i
  {
    if i < id { FirstFreeIs(cs, i + 1, id); }
  }

  // ----- the reuse loop of _accepted -----

  datatype Turn = Append | Reuse(id: nat) | Again

  /** The loop ends: there is no empty slot on record, or the lowest one on record is inside the vector. */
  ghost predicate Settles(emptySet: set<nat>, size: nat) {
    emptySet == {} || exists i :: i in emptySet && i < size
  }

  /** One turn of the loop. `Again` changes nothing, so that the loop then turns for ever. */
  method ReuseTurn(emptySet: set<nat>, size: nat) returns (turn: Turn)
    ensures turn == Again <==> !Settles(emptySet, size)
    ensures turn == Append <==> emptySet == {}
    ensures turn.Reuse? ==> turn.id in emptySet && turn.id < size && forall i :: i in emptySet ==> turn.id <= i
  {
    if emptySet == {} { return Append; }
    var id := Least(emptySet);
    if id < size { return Reuse(id); }
    return Again;
  }

  /** *_emptySet.begin() */
  method Least(s: set<nat>) returns (m: nat)
    requires s != {}
    ensures m in s && forall x :: x in s ==> m <= x
  {
    m :| m in s;
    var rest := s - {m};
    while rest != {}
      invariant rest <= s && m in s && forall y :: y in s && y !in rest ==> m <= y
      decreases |rest|
    {
      var x :| x in rest;
      rest := rest - {x};
      if x < m { m := x; }
    }
  }

  /** Two accepts and a remove of the first leave a hole. If the server is destroyed then, the next accept spins. */
  lemma SpinningAccept()
    ensures var cs := ApplyAll([], 0, [Accept(7, true), Accept(8, true), Remove(0)]);
      && cs == [None, Some(Conduit(8, 2))] && Sound(cs, 0)
      && Empties(cs) == {0} && !Settles(Empties(cs), 0)
  {
    var a, b, c := Accept(7, true), Accept(8, true), Remove(0);
    var one: Slots := [Some(Conduit(7, 0))];
    var two: Slots := [Some(Conduit(7, 0)), Some(Conduit(8, 2))];
    var three: Slots := [None, Some(Conduit(8, 2))];
    assert Apply([], 0, a) == one && Apply(one, 0, b) == two && Apply(two, 0, c) == three;
    hide Apply;
    assert [a, b, c][1..] == [b, c] && [b, c][1..] == [c] && [c][1..] == [];
    assert ApplyAll(three, 0, []) == three && ApplyAll(two, 0, [c]) == three;
    assert ApplyAll(one, 0, [b, c]) == three;
    assert 0 in Empties(three);
  }
}
