/**
 * Admission to the Swingset inbound queue: golang/cosmos/ante/inbound.go. Counts
 * are int32, so arithmetic wraps.
 */
module InboundAnte {
  import opened Wrappers

  const INT32_MAX: int := 0x7FFF_FFFF
  const MAX_INBOUND_PER_TX: int := 1

  type Int32 = n: int | -0x8000_0000 <= n <= 0x7FFF_FFFF

  function Wrap32(n: int): Int32 {
    (n + 0x8000_0000) % 0x1_0000_0000 - 0x8000_0000
  }

  /** Wrapping is modulo 2^32, into the range of int32. */
  lemma Wrap32Is(n: int)
    ensures -0x8000_0000 <= Wrap32(n) <= 0x7FFF_FFFF && (n - Wrap32(n)) % 0x1_0000_0000 == 0
  {
  }

  /** A message: the inbound count it declares (0 if it declares none), and whether it is high priority. */
  datatype Msg = Msg(inbounds: Int32, isHighPriority: Result<bool, string>)

  /** What the keeper says: the allowed size for this kind of check, if given, and the queue length. */
  datatype Keeper = Keeper(allowed: Option<Int32>, queueLength: Result<Int32, string>)

  datatype AnteError = KeeperFailed(why: string) | InboundQueueFull

  function AllowedInbound(k: Keeper): Result<Int32, AnteError> {
    if k.allowed.None? then Ok(0)
    else if k.queueLength.Err? then Err(KeeperFailed(k.queueLength.error))
    else if k.queueLength.value >= k.allowed.value then Ok(0)
    else
      var left := Wrap32(k.allowed.value - k.queueLength.value);
      Ok(if left > MAX_INBOUND_PER_TX then MAX_INBOUND_PER_TX else left)
  }

  /** One turn of the loop; -1 stands for an allowance not looked up yet. */
  function Admit(k: Keeper, allowance: Int32, msg: Msg): Result<Int32, AnteError> {
    if msg.inbounds == 0 then Ok(allowance)
    else
      var current :- if allowance == -1 then AllowedInbound(k) else Ok(allowance);
      if msg.isHighPriority.Err? then Err(KeeperFailed(msg.isHighPriority.error))
      else if current >= msg.inbounds then Ok(Wrap32(current - msg.inbounds))
      else if msg.isHighPriority.value then Ok(0)
      else Err(InboundQueueFull)
  }

  function AdmitAll(k: Keeper, allowance: Int32, msgs: seq<Msg>): Result<Int32, AnteError>
    decreases |msgs|
  {
    if msgs == [] then Ok(allowance)
    else
      var next :- Admit(k, allowance, msgs[0]);
      AdmitAll(k, next, msgs[1..])
  }

  /** The handler up to the call of `next`. */
  method AnteHandle(k: Keeper, msgs: seq<Msg>) returns (r: Result<(), AnteError>)
    ensures r == match AdmitAll(k, -1, msgs) case Ok(_) => Ok(()) case Err(why) => Err(why)
  {
    var inboundsAllowed: Int32 := -1;
    assert msgs[0..] == msgs;
    for j := 0 to |msgs|
      invariant AdmitAll(k, -1, msgs) == AdmitAll(k, inboundsAllowed, msgs[j..])
    {
      assert msgs[j..][0] == msgs[j] && msgs[j..][1..] == msgs[j + 1..];
      var msg := msgs[j];
      var inbounds := msg.inbounds;
      if inbounds == 0 { continue; }
      if inboundsAllowed == -1 {
        var looked := AllowedInbound(k);
        if looked.Err? { return Err(looked.error); }
        inboundsAllowed := looked.value;
      }
      if msg.isHighPriority.Err? { return Err(KeeperFailed(msg.isHighPriority.error)); }
      if inboundsAllowed >= inbounds {
        inboundsAllowed := Wrap32(inboundsAllowed - inbounds);
      } else if msg.isHighPriority.value {
        inboundsAllowed := 0;
      } else {
        return Err(InboundQueueFull);
      }
    }
    return Ok(());
  }

  // ------------------------------------------------------------ properties

  ghost predicate NonNegative(msgs: seq<Msg>) {
    forall m :: m in msgs ==> m.inbounds >= 0
  }

  ghost function Total(msgs: seq<Msg>): nat
    requires NonNegative(msgs)
  {
    if msgs == [] then 0 else Total(msgs[..|msgs| - 1]) + msgs[|msgs| - 1].inbounds
  }

  predicate LowPriority(m: Msg) {
    m.inbounds != 0 && m.isHighPriority == Ok(false)
  }

  predicate HighPriority(m: Msg) {
    m.inbounds != 0 && m.isHighPriority == Ok(true)
  }

  /** A queue length is not negative. */
  ghost predicate CountsQueue(k: Keeper) {
    k.queueLength.Ok? ==> k.queueLength.value >= 0
  }

  /** The queue length is asked for only when an allowed size is given. */
  ghost predicate Readable(k: Keeper) {
    k.allowed.Some? ==> k.queueLength.Ok?
  }

  /** What a transaction may add: the room left in the queue, at most 1, and nothing when no allowed size is given. */
  ghost function Room(k: Keeper): nat
    requires Readable(k)
  {
    if k.allowed.None? || k.allowed.value <= k.queueLength.value then 0 else 1
  }

  lemma AllowedInboundIs(k: Keeper)
    requires CountsQueue(k)
    ensures AllowedInbound(k).Ok? <==> Readable(k)
    ensures AllowedInbound(k).Ok? ==> AllowedInbound(k).value == Room(k)
    ensures AllowedInbound(k).Err? ==> AllowedInbound(k) == Err(KeeperFailed(k.queueLength.error))
  {
  }

  lemma {:induction false} AdmitAllSplit(k: Keeper, allowance: Int32, msgs: seq<Msg>)
    requires msgs != []
    ensures AdmitAll(k, allowance, msgs).Ok? ==>
              && AdmitAll(k, allowance, msgs[..|msgs| - 1]).Ok?
              && AdmitAll(k, allowance, msgs) == Admit(k, AdmitAll(k, allowance, msgs[..|msgs| - 1]).value, msgs[|msgs| - 1])
    decreases |msgs|
  {
    if |msgs| > 1 && Admit(k, allowance, msgs[0]).Ok? {
      AdmitAllSplit(k, Admit(k, allowance, msgs[0]).value, msgs[1..]);
      assert msgs[1..][..|msgs| - 2] == msgs[..|msgs| - 1][1..];
    }
  }

  /**
   * The allowance left after some messages of a transaction: the lookup minus what
   * they declared, as long as no high-priority message has overdrawn it, and zero
   * after one has.
   */
  lemma {:induction false} AllowanceLeft(k: Keeper, msgs: seq<Msg>)
    requires CountsQueue(k) && NonNegative(msgs) && AdmitAll(k, -1, msgs).Ok?
    ensures var left := AdmitAll(k, -1, msgs).value;
            && (left == -1 <==> Total(msgs) == 0)
            && (left != -1 ==> Readable(k) && left == if Total(msgs) <= Room(k) then Room(k) - Total(msgs) else 0)
    decreases |msgs|
  {
    AllowedInboundIs(k);
    if msgs != [] {
      AdmitAllSplit(k, -1, msgs);
      AllowanceLeft(k, msgs[..|msgs| - 1]);
      hide AllowedInbound;
    }
  }

  /**
   * Whenever a low-priority message is let through, the queue length before the
   * transaction and everything declared up to and including that message is
   * within the allowed size.
   */
  lemma LowPriorityFits(k: Keeper, msgs: seq<Msg>, j: nat)
    requires CountsQueue(k) && NonNegative(msgs) && AdmitAll(k, -1, msgs).Ok?
    requires j < |msgs| && LowPriority(msgs[j])
    ensures FitsAt(k, msgs, j)
  {
    AdmittedIff(k, msgs);
    assert PassesAt(k, msgs, j);
  }

  /** An allowed size is given, and within it there is room for the message and everything before it, at most 1 in all. */
  ghost predicate FitsAt(k: Keeper, msgs: seq<Msg>, j: nat)
    requires NonNegative(msgs) && j < |msgs|
  {
    && k.allowed.Some? && k.queueLength.Ok?
    && k.queueLength.value + Total(msgs[..j + 1]) <= k.allowed.value && Total(msgs[..j + 1]) <= 1
  }

  ghost predicate PassesAt(k: Keeper, msgs: seq<Msg>, j: nat)
    requires NonNegative(msgs) && j < |msgs|
  {
    msgs[j].inbounds != 0 ==> Readable(k) && msgs[j].isHighPriority.Ok? && (LowPriority(msgs[j]) ==> FitsAt(k, msgs, j))
  }

  /** Why a message does not pass, as the handler reports it. */
  ghost function ErrorAt(k: Keeper, msg: Msg): AnteError {
    if k.allowed.Some? && k.queueLength.Err? then KeeperFailed(k.queueLength.error)
    else if msg.isHighPriority.Err? then KeeperFailed(msg.isHighPriority.error)
    else InboundQueueFull
  }

  lemma AdmitLast(k: Keeper, msgs: seq<Msg>)
    requires CountsQueue(k) && NonNegative(msgs) && msgs != []
    requires AdmitAll(k, -1, msgs[..|msgs| - 1]).Ok?
    ensures var r := Admit(k, AdmitAll(k, -1, msgs[..|msgs| - 1]).value, msgs[|msgs| - 1]);
            && (r.Ok? <==> PassesAt(k, msgs, |msgs| - 1))
            && (r.Err? ==> r == Err(ErrorAt(k, msgs[|msgs| - 1])))
  {
    AllowedInboundIs(k);
    AllowanceLeft(k, msgs[..|msgs| - 1]);
    assert msgs[..|msgs|] == msgs;
    hide AllowedInbound, AdmitAll;
  }

  lemma PassesInPrefix(k: Keeper, msgs: seq<Msg>, n: nat, j: nat)
    requires NonNegative(msgs) && j < n <= |msgs|
    ensures PassesAt(k, msgs[..n], j) <==> PassesAt(k, msgs, j)
  {
    assert msgs[..n][..j + 1] == msgs[..j + 1];
  }

  /**
   * Exactly when a transaction gets in: the keeper answers, every priority asked
   * for is known, and each low-priority message finds room for itself and
   * everything before it.
   */
  lemma {:induction false} AdmittedIff(k: Keeper, msgs: seq<Msg>)
    requires CountsQueue(k) && NonNegative(msgs)
    ensures AdmitAll(k, -1, msgs).Ok? <==> forall j :: 0 <= j < |msgs| ==> PassesAt(k, msgs, j)
    decreases |msgs|
  {
    hide Admit, AllowedInbound, PassesAt, CountsQueue;
    if msgs != [] {
      var n := |msgs| - 1;
      AdmittedIff(k, msgs[..n]);
      AdmitAllJoin(k, -1, msgs);
      forall j | 0 <= j < n ensures PassesAt(k, msgs[..n], j) <==> PassesAt(k, msgs, j) { PassesInPrefix(k, msgs, n, j); }
      if AdmitAll(k, -1, msgs[..n]).Ok? { AdmitLast(k, msgs); }
    }
  }

  /** A transaction is refused at its first message that does not pass, for the reason there. */
  lemma {:induction false} RefusedBecause(k: Keeper, msgs: seq<Msg>, j: nat)
    requires CountsQueue(k) && NonNegative(msgs) && j < |msgs|
    requires !PassesAt(k, msgs, j) && forall i :: 0 <= i < j ==> PassesAt(k, msgs, i)
    ensures AdmitAll(k, -1, msgs) == Err(ErrorAt(k, msgs[j]))
    decreases |msgs|
  {
    hide Admit, AllowedInbound, PassesAt, CountsQueue;
    var n := |msgs| - 1;
    AdmitAllJoin(k, -1, msgs);
    forall i | 0 <= i < n ensures PassesAt(k, msgs[..n], i) <==> PassesAt(k, msgs, i) { PassesInPrefix(k, msgs, n, i); }
    if j < n {
      RefusedBecause(k, msgs[..n], j);
    } else {
      AdmittedIff(k, msgs[..n]);
      AdmitLast(k, msgs);
    }
  }

  lemma {:induction false} AdmitAllJoin(k: Keeper, allowance: Int32, msgs: seq<Msg>)
    requires msgs != []
    ensures AdmitAll(k, allowance, msgs).Ok? <==>
            && AdmitAll(k, allowance, msgs[..|msgs| - 1]).Ok?
            && Admit(k, AdmitAll(k, allowance, msgs[..|msgs| - 1]).value, msgs[|msgs| - 1]).Ok?
    ensures AdmitAll(k, allowance, msgs).Err? ==>
              AdmitAll(k, allowance, msgs)
              == if AdmitAll(k, allowance, msgs[..|msgs| - 1]).Err? then AdmitAll(k, allowance, msgs[..|msgs| - 1])
                 else Admit(k, AdmitAll(k, allowance, msgs[..|msgs| - 1]).value, msgs[|msgs| - 1])
    decreases |msgs|
  {
    if |msgs| > 1 && Admit(k, allowance, msgs[0]).Ok? {
      AdmitAllJoin(k, Admit(k, allowance, msgs[0]).value, msgs[1..]);
      assert msgs[1..][..|msgs| - 2] == msgs[..|msgs| - 1][1..];
    }
  }

  // ---------------------------------------------------------------- blocks

  /** A block: transactions in order, those admitted enqueue what they declared. */
  ghost function QueueAfter(limit: Int32, start: nat, txs: seq<seq<Msg>>): nat
    requires forall tx :: tx in txs ==> NonNegative(tx)
    decreases |txs|
  {
    if txs == [] then start
    else
      var before := QueueAfter(limit, start, txs[..|txs| - 1]);
      before + if Admitted(limit, before, txs[|txs| - 1]) then Total(txs[|txs| - 1]) else 0
  }

  /** InboundQueueLength reports at most the largest int32. */
  ghost predicate Admitted(limit: Int32, queue: nat, tx: seq<Msg>) {
    AdmitAll(Keeper(Some(limit), Ok(if queue > INT32_MAX then INT32_MAX else queue)), -1, tx).Ok?
  }

  ghost predicate HasHighPriority(tx: seq<Msg>) {
    exists j :: 0 <= j < |tx| && HighPriority(tx[j])
  }

  lemma {:induction false} NoneDeclared(tx: seq<Msg>)
    requires NonNegative(tx) && forall j :: 0 <= j < |tx| ==> tx[j].inbounds == 0
    ensures Total(tx) == 0
    decreases |tx|
  {
    if tx != [] { NoneDeclared(tx[..|tx| - 1]); }
  }

  lemma {:induction false} KnownPriority(k: Keeper, allowance: Int32, msgs: seq<Msg>, j: nat)
    requires AdmitAll(k, allowance, msgs).Ok? && j < |msgs| && msgs[j].inbounds != 0
    ensures LowPriority(msgs[j]) || HighPriority(msgs[j])
    decreases |msgs|
  {
    if j > 0 { KnownPriority(k, Admit(k, allowance, msgs[0]).value, msgs[1..], j - 1); }
  }

  /** The last message of an admitted transaction that declares anything. */
  lemma {:induction false} LastDeclaring(tx: seq<Msg>) returns (j: nat)
    requires NonNegative(tx) && Total(tx) > 0
    ensures j < |tx| && tx[j].inbounds != 0 && Total(tx[..j + 1]) == Total(tx)
    decreases |tx|
  {
    var n := |tx| - 1;
    if tx[n].inbounds != 0 {
      assert tx[..n + 1] == tx;
      j := n;
    } else {
      j := LastDeclaring(tx[..n]);
      assert tx[..n][..j + 1] == tx[..j + 1];
    }
  }

  /** One transaction without high-priority messages keeps the queue within its limit, or adds nothing. */
  lemma LowPriorityTxFits(limit: Int32, queue: nat, tx: seq<Msg>)
    requires NonNegative(tx) && Admitted(limit, queue, tx) && !HasHighPriority(tx) && Total(tx) > 0
    ensures queue + Total(tx) <= limit
  {
    var k := Keeper(Some(limit), Ok(if queue > INT32_MAX then INT32_MAX else queue));
    var j := LastDeclaring(tx);
    KnownPriority(k, -1, tx, j);
    LowPriorityFits(k, tx, j);
  }

  /**
   * Over any block of transactions without an admitted high-priority message, a
   * queue within its limit stays within it, and one that is over it already, as
   * high-priority messages may leave it, does not grow.
   */
  lemma {:induction false} BlockStaysWithinLimit(limit: Int32, start: nat, txs: seq<seq<Msg>>)
    requires forall tx :: tx in txs ==> NonNegative(tx)
    requires forall j :: 0 <= j < |txs| ==>
               HasHighPriority(txs[j]) ==> !Admitted(limit, QueueAfter(limit, start, txs[..j]), txs[j])
    ensures start <= limit ==> QueueAfter(limit, start, txs) <= limit
    ensures start > limit ==> QueueAfter(limit, start, txs) == start
    decreases |txs|
  {
    if txs != [] {
      var n := |txs| - 1;
      var earlier := txs[..n];
      assert forall j :: 0 <= j < n ==> earlier[j] == txs[j] && earlier[..j] == txs[..j];
      BlockStaysWithinLimit(limit, start, earlier);
      var before := QueueAfter(limit, start, earlier);
      if Admitted(limit, before, txs[n]) && Total(txs[n]) > 0 { LowPriorityTxFits(limit, before, txs[n]); }
    }
  }
}
