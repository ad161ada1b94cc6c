/** What the mailbox system computes for one request or one message: size classes and the dispatcher's verdict. */
module MailboxSpec {

  // ----- size classes -----

  const SIZE_FIELD: nat := 8
  const MIN_MEMBLOCK_SIZE: nat := 128
  const MEMPOOL_NUM: nat := 10
  const MAX_POOL_SIZE: nat := 65536

  /** m_Size of the pool with this index. */
  function PoolSize(i: nat): (r: nat)
    ensures r >= MIN_MEMBLOCK_SIZE
  {
    if i == 0 then MIN_MEMBLOCK_SIZE else 2 * PoolSize(i - 1)
  }

  lemma PoolSizes(i: nat)
    ensures PoolSize(0) == MIN_MEMBLOCK_SIZE && PoolSize(i + 1) == 2 * PoolSize(i)
  {
  }

  /** The smallest pool from i on whose blocks hold this many bytes. */
  function ClassFrom(size: nat, i: nat): (r: nat)
    requires i < MEMPOOL_NUM
    ensures i <= r < MEMPOOL_NUM
    decreases MEMPOOL_NUM - i
  {
    if size <= PoolSize(i) || i == MEMPOOL_NUM - 1 then i else ClassFrom(size, i + 1)
  }

  function ClassOf(size: nat): nat { ClassFrom(size, 0) }

  lemma LargestPool()
    ensures PoolSize(MEMPOOL_NUM - 1) == MAX_POOL_SIZE
  {
    var i: nat := 0;
    var s := MIN_MEMBLOCK_SIZE;
    while i < MEMPOOL_NUM - 1
      invariant i <= MEMPOOL_NUM - 1 && PoolSize(i) == s
      invariant s == [128, 256, 512, 1024, 2048, 4096, 8192, 16384, 32768, 65536][i]
    {
      i, s := i + 1, 2 * s;
    }
  }

  lemma {:induction false} ClassFromFits(size: nat, i: nat)
    requires i < MEMPOOL_NUM && size <= MAX_POOL_SIZE
    ensures size <= PoolSize(ClassFrom(size, i))
    ensures forall j :: i <= j < ClassFrom(size, i) ==> PoolSize(j) < size
    decreases MEMPOOL_NUM - i
  {
    if size <= PoolSize(i) || i == MEMPOOL_NUM - 1 {
      LargestPool();
    } else {
      ClassFromFits(size, i + 1);
    }
  }

  /** A pooled request gets the smallest pool that fits, and there is always one. */
  lemma SmallestThatFits(size: nat)
    requires size <= MAX_POOL_SIZE
    ensures ClassOf(size) < MEMPOOL_NUM && size <= PoolSize(ClassOf(size))
    ensures forall j :: 0 <= j < ClassOf(size) ==> PoolSize(j) < size
  {
    ClassFromFits(size, 0);
  }

  lemma ClassIsUnique(size: nat, i: nat)
    requires size <= MAX_POOL_SIZE && i < MEMPOOL_NUM && size <= PoolSize(i)
    requires forall j :: 0 <= j < i ==> PoolSize(j) < size
    ensures ClassOf(size) == i
  {
    SmallestThatFits(size);
    hide PoolSize, ClassOf;
  }

  /** The search loop that AllocMsgBlock and FreeMsgBlock share. */
  method FindPool(size: nat) returns (index: nat)
    requires size <= MAX_POOL_SIZE
    ensures index < MEMPOOL_NUM && index == ClassOf(size)
  {
    hide PoolSize, ClassOf;
    index := 0;
    var poolSize := MIN_MEMBLOCK_SIZE;
    PoolSizes(0);
    LargestPool();
    while size > poolSize
      invariant index < MEMPOOL_NUM && poolSize == PoolSize(index)
      invariant forall j :: 0 <= j < index ==> PoolSize(j) < size
      decreases MEMPOOL_NUM - index
    {
      PoolSizes(index);
      index := index + 1;
      poolSize := poolSize * 2;
    }
    ClassIsUnique(size, index);
  }

  // ----- messages -----

  const MAX_THREAD_NUM: nat := 18
  const WORKER_THREAD_NEUTRAL: nat := 2
  const WORKER_THREAD_DB: nat := 6
  const WORKER_THREAD_LOAD: nat := 17
  const MAX_MSG_NUM: nat := 0x600
  const MAX_2_MSG_NUM: nat := 0x500
  const MIN_INNER_CHECK_MSG: nat := 0x200
  const GAME_HEADER: nat := 24

  /** A message without its address: player 0 stands for NULL, header is the size of the header's type. */
  datatype Letter = Letter(cmdID: nat, player: nat, header: nat, body: seq<int>)

  /** What senders must keep to: the handler table's bound, and a player only in a game header. */
  predicate Proper(m: Letter) {
    m.cmdID < MAX_MSG_NUM && (m.player != 0 ==> m.header == GAME_HEADER)
  }

  function BlockSize(m: Letter): nat { SIZE_FIELD + m.header + |m.body| }

  /** What the dispatcher sees of the message's player at that moment. */
  datatype Look = Look(jumping: bool, thread: nat)

  datatype Verdict = Handle | Drop | Forward(to: nat)

  /** The branches of ProcessMsg. */
  function Judge(m: Letter, dest: nat, look: Look, worker: nat): Verdict {
    if m.cmdID <= 0xFF && dest <= WORKER_THREAD_NEUTRAL then
      if m.player != 0 && (look.jumping || look.thread != worker) then Drop else Handle
    else if MIN_INNER_CHECK_MSG <= m.cmdID <= MAX_2_MSG_NUM && m.player != 0 && look.thread != worker then
      Forward(look.thread)
    else Handle
  }

  /** Which commands are handled only where their player is, for a message queued for this worker. */
  lemma PlayerCheckedIff(m: Letter, worker: nat)
    requires m.player != 0
    ensures (forall look :: Judge(m, worker, look, worker) == Handle ==> look.thread == worker)
      <==> (m.cmdID <= 0xFF && worker <= WORKER_THREAD_NEUTRAL)
           || MIN_INNER_CHECK_MSG <= m.cmdID <= MAX_2_MSG_NUM
  {
    var elsewhere := Look(false, worker + 1);
    assert Judge(m, worker, elsewhere, worker) == Handle
      <==> !((m.cmdID <= 0xFF && worker <= WORKER_THREAD_NEUTRAL)
             || MIN_INNER_CHECK_MSG <= m.cmdID <= MAX_2_MSG_NUM);
  }
}
