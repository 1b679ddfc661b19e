// A block in the making: the limits and checks a transaction has to pass, and
// what a draft keeps with each transaction that is put into it.
module Drafts {
  import opened Wrappers
  import opened TxQueue
  import opened Replay

  const MAX_BLOCK_HEADER_PAYLOAD := 84 + 4 + 32 * 4
  const MAX_VAR_INT_PAYLOAD := 9
  const BLOCK_HEADER_OVERHEAD := MAX_BLOCK_HEADER_PAYLOAD + MAX_VAR_INT_PAYLOAD
  const MAX_SIG_OPS_PER_BLOCK := 3000000
  const TWO_32 := 0x1_0000_0000

  // The pool's transactions, the mining policy, the chain's demands, and the
  // checks against a view that are made elsewhere.
  datatype Config = Config(
    txs: map<Hash, Tx>,
    blockMaxSize: nat, blockMinSize: nat, blockPrioritySize: nat,
    txMinFreeFee: real, minHighPriority: real,
    maxFreshStake: nat, reqStakeDifficulty: int,
    winningTickets: seq<Hash>, missedTickets: seq<Hash>,
    p2shSigOps: (View, Tx) -> Option<nat>,
    inputsOk: (View, Tx) -> bool,
    scriptsOk: (View, Tx) -> bool)

  // Pool transactions are filed under their hash and have passed the pool's
  // checks; input checking accepts only inputs that are there and unspent.
  ghost predicate Sound(cfg: Config) {
    && (forall h :: h in cfg.txs ==> cfg.txs[h].hash == h && Sane(cfg.txs[h]))
    && (forall v, h :: h in cfg.txs && cfg.inputsOk(v, cfg.txs[h]) ==> AllAvailable(v, Inputs(cfg.txs[h])))
  }

  // A block in the making.
  datatype Draft = Draft(view: View, chosen: seq<Tx>, blockSize: nat, sigOps: nat, sigOpCounts: seq<nat>,
                         tickets: nat, found: set<Hash>)

  // The ticket that a vote uses.
  function TicketOf(tx: Tx): Hash
    requires |tx.ins| >= 2
  {
    tx.ins[1].hash
  }

  // 32-bit addition.
  function Add32(a: nat, b: nat): nat {
    (a + b) % TWO_32
  }

  // The signature operations a transaction would add, if none of the limits
  // that come before the fee rules keep it out.
  function Weigh(cfg: Config, d: Draft, tx: Tx): Option<nat>
    requires |tx.ins| >= 1 && (tx.txType.Vote? ==> |tx.ins| >= 2)
  {
    var size := tx.size % TWO_32;
    var plus := Add32(d.blockSize, size);
    var p2sh := cfg.p2shSigOps(d.view, tx);
    if tx.txType.Ticket? && d.tickets >= cfg.maxFreshStake then None
    else if tx.txType.Ticket? && tx.commit < cfg.reqStakeDifficulty then None
    else if tx.txType.Revocation? && tx.ins[0].hash !in cfg.missedTickets then None
    else if plus < d.blockSize || plus >= cfg.blockMaxSize then None
    else if d.sigOps + tx.sigOps > MAX_SIG_OPS_PER_BLOCK then None
    else if p2sh.None? || d.sigOps + tx.sigOps + p2sh.value > MAX_SIG_OPS_PER_BLOCK then None
    else if tx.txType.Vote? && TicketOf(tx) in d.found then None
    else if tx.txType.Vote? && TicketOf(tx) !in cfg.winningTickets then None
    else Some(tx.sigOps + p2sh.value)
  }

  // A cheap transaction once the block is past its minimum size.
  predicate TooCheap(cfg: Config, d: Draft, tx: Tx, x: Item) {
    && x.feePerKB < cfg.txMinFreeFee && !tx.stakeTree
    && Add32(d.blockSize, tx.size % TWO_32) >= cfg.blockMinSize
  }

  // The high-priority section ends with this transaction ...
  predicate EndsPriority(cfg: Config, d: Draft, tx: Tx, x: Item) {
    Add32(d.blockSize, tx.size % TWO_32) >= cfg.blockPrioritySize || x.priority <= cfg.minHighPriority
  }

  // ... and does not have it any more.
  predicate PastPriority(cfg: Config, d: Draft, tx: Tx, x: Item) {
    Add32(d.blockSize, tx.size % TWO_32) > cfg.blockPrioritySize || x.priority < cfg.minHighPriority
  }

  // The draft with one more transaction.
  function Put(d: Draft, tx: Tx, numSigOps: nat): Draft {
    Draft(Spend(d.view, tx), d.chosen + [tx], Add32(d.blockSize, tx.size % TWO_32), d.sigOps + numSigOps,
          d.sigOpCounts + [numSigOps],
          if tx.txType.Ticket? then d.tickets + 1 else d.tickets,
          if tx.txType.Vote? && |tx.ins| >= 2 then d.found + {TicketOf(tx)} else d.found)
  }

  function Sum(s: seq<nat>): nat {
    if s == [] then 0 else Sum(s[..|s| - 1]) + s[|s| - 1]
  }

  function TotalSize(txs: seq<Tx>): nat {
    if txs == [] then 0 else TotalSize(txs[..|txs| - 1]) + txs[|txs| - 1].size
  }

  function CountOf(txs: seq<Tx>, t: TxType): nat {
    if txs == [] then 0
    else CountOf(txs[..|txs| - 1], t) + if txs[|txs| - 1].txType == t then 1 else 0
  }

  // ----------------------------------------------------- what a draft keeps

  ghost predicate FromPool(cfg: Config, txs: seq<Tx>) {
    forall k :: 0 <= k < |txs| ==> txs[k].hash in cfg.txs && cfg.txs[txs[k].hash] == txs[k]
  }

  // The size is header overhead plus the exact sizes, short of the limit.
  ghost predicate SizeOk(cfg: Config, d: Draft) {
    && d.blockSize == BLOCK_HEADER_OVERHEAD + TotalSize(d.chosen) < TWO_32
    && (d.chosen != [] ==> d.blockSize < cfg.blockMaxSize)
  }

  // What the k-th transaction counts for: its own signature operations and those
  // of the scripts it redeems, on the view it was put on.
  ghost predicate SigOpsAt(cfg: Config, v: View, d: Draft, k: nat) {
    && k < |d.chosen| && k < |d.sigOpCounts|
    && var p2sh := cfg.p2shSigOps(After(v, d.chosen[..k]), d.chosen[k]);
       p2sh.Some? && d.sigOpCounts[k] == d.chosen[k].sigOps + p2sh.value
  }

  ghost predicate SigOpsOk(cfg: Config, v: View, d: Draft) {
    && |d.sigOpCounts| == |d.chosen| && d.sigOps == Sum(d.sigOpCounts) <= MAX_SIG_OPS_PER_BLOCK
    && forall k :: 0 <= k < |d.chosen| ==> SigOpsAt(cfg, v, d, k)
  }

  ghost predicate TicketsOk(cfg: Config, d: Draft) {
    d.tickets == CountOf(d.chosen, Ticket) <= cfg.maxFreshStake
  }

  // The tickets that votes use.
  ghost function TicketsUsed(txs: seq<Tx>): set<Hash> {
    set k | 0 <= k < |txs| && txs[k].txType.Vote? && |txs[k].ins| >= 2 :: txs[k].ins[1].hash
  }

  // No two votes use the same ticket.
  ghost predicate OneVoteEach(txs: seq<Tx>) {
    && (forall k :: 0 <= k < |txs| && txs[k].txType.Vote? ==> |txs[k].ins| >= 2)
    && (forall j, k :: 0 <= j < k < |txs| && txs[j].txType.Vote? && txs[k].txType.Vote? ==>
          txs[j].ins[1].hash != txs[k].ins[1].hash)
  }

  // Every vote uses a winning ticket of its own.
  ghost predicate VotesOk(cfg: Config, d: Draft) {
    && d.found == TicketsUsed(d.chosen) && |d.found| == CountOf(d.chosen, Vote)
    && (forall h :: h in d.found ==> h in cfg.winningTickets)
    && OneVoteEach(d.chosen)
  }

  ghost predicate DraftOk(cfg: Config, v: View, d: Draft) {
    && FromPool(cfg, d.chosen)
    && d.view == After(v, d.chosen) && Replays(v, d.chosen)
    && SizeOk(cfg, d) && SigOpsOk(cfg, v, d) && TicketsOk(cfg, d) && VotesOk(cfg, d)
  }

  lemma TicketsUsedNext(txs: seq<Tx>, tx: Tx)
    ensures TicketsUsed(txs + [tx]) ==
            TicketsUsed(txs) + if tx.txType.Vote? && |tx.ins| >= 2 then {tx.ins[1].hash} else {}
  {
    var all := txs + [tx];
    assert all[|txs|] == tx && forall k :: 0 <= k < |txs| ==> all[k] == txs[k];
  }

  lemma OneVoteEachNext(txs: seq<Tx>, tx: Tx)
    requires OneVoteEach(txs) && (tx.txType.Vote? ==> |tx.ins| >= 2 && tx.ins[1].hash !in TicketsUsed(txs))
    ensures OneVoteEach(txs + [tx])
  {
    var all := txs + [tx];
    forall j, k | 0 <= j < k < |all| && all[j].txType.Vote? && all[k].txType.Vote?
      ensures all[j].ins[1].hash != all[k].ins[1].hash
    {
      assert all[j] == txs[j];
      if k == |txs| {
        assert txs[j].ins[1].hash in TicketsUsed(txs);
      }
    }
  }

  lemma PutTickets(cfg: Config, d: Draft, tx: Tx, n: nat)
    requires d.found == TicketsUsed(d.chosen) && |d.found| == CountOf(d.chosen, Vote)
    requires tx.txType.Vote? ==> |tx.ins| >= 2 && TicketOf(tx) !in d.found
    ensures var e := Put(d, tx, n); e.found == TicketsUsed(e.chosen) && |e.found| == CountOf(e.chosen, Vote)
  {
    assert Put(d, tx, n).chosen[..|d.chosen|] == d.chosen;
    TicketsUsedNext(d.chosen, tx);
  }

  lemma PutVotes(cfg: Config, d: Draft, tx: Tx, n: nat)
    requires VotesOk(cfg, d) && |tx.ins| >= 1 && (tx.txType.Vote? ==> |tx.ins| >= 2)
    requires Weigh(cfg, d, tx) == Some(n)
    ensures VotesOk(cfg, Put(d, tx, n))
  {
    assert tx.txType.Vote? ==> TicketOf(tx) !in d.found && TicketOf(tx) in cfg.winningTickets;
    PutTickets(cfg, d, tx, n);
    OneVoteEachNext(d.chosen, tx);
  }

  lemma PutCounts(cfg: Config, d: Draft, tx: Tx, n: nat)
    requires SizeOk(cfg, d) && TicketsOk(cfg, d) && Sane(tx)
    requires Weigh(cfg, d, tx) == Some(n)
    ensures var e := Put(d, tx, n); SizeOk(cfg, e) && TicketsOk(cfg, e)
  {
    assert Put(d, tx, n).chosen[..|d.chosen|] == d.chosen;
  }

  lemma PutSigOps(cfg: Config, v: View, d: Draft, tx: Tx, n: nat)
    requires SigOpsOk(cfg, v, d) && d.view == After(v, d.chosen) && Sane(tx)
    requires Weigh(cfg, d, tx) == Some(n)
    ensures SigOpsOk(cfg, v, Put(d, tx, n))
  {
    var e := Put(d, tx, n);
    assert e.chosen[..|d.chosen|] == d.chosen;
    assert e.sigOpCounts[..|d.sigOpCounts|] == d.sigOpCounts;
    forall k | 0 <= k < |e.chosen| ensures SigOpsAt(cfg, v, e, k) {
      if k < |d.chosen| {
        assert SigOpsAt(cfg, v, d, k);
        assert e.chosen[..k] == d.chosen[..k];
      }
    }
  }

  lemma PutReplays(cfg: Config, v: View, d: Draft, tx: Tx, n: nat)
    requires FromPool(cfg, d.chosen) && d.view == After(v, d.chosen) && Replays(v, d.chosen)
    requires tx.hash in cfg.txs && cfg.txs[tx.hash] == tx && AllAvailable(d.view, Inputs(tx))
    ensures var e := Put(d, tx, n); FromPool(cfg, e.chosen) && e.view == After(v, e.chosen) && Replays(v, e.chosen)
  {
    ReplaysNext(v, d.chosen, tx);
  }

  lemma PutOk(cfg: Config, v: View, d: Draft, h: Hash, n: nat)
    requires Sound(cfg) && DraftOk(cfg, v, d) && h in cfg.txs
    requires Weigh(cfg, d, cfg.txs[h]) == Some(n) && cfg.inputsOk(d.view, cfg.txs[h])
    ensures DraftOk(cfg, v, Put(d, cfg.txs[h], n))
  {
    var tx := cfg.txs[h];
    assert Sane(tx) && AllAvailable(d.view, Inputs(tx));
    PutVotes(cfg, d, tx, n);
    PutCounts(cfg, d, tx, n);
    PutSigOps(cfg, v, d, tx, n);
    PutReplays(cfg, v, d, tx, n);
  }

  // The chosen transactions determine the whole draft.
  lemma DraftDetermined(cfg: Config, v: View, d: Draft, e: Draft)
    requires DraftOk(cfg, v, d) && DraftOk(cfg, v, e) && d.chosen == e.chosen
    ensures d == e
  {
    forall k | 0 <= k < |d.chosen| ensures d.sigOpCounts[k] == e.sigOpCounts[k] {
      assert SigOpsAt(cfg, v, d, k) && SigOpsAt(cfg, v, e, k);
    }
    assert d.sigOpCounts == e.sigOpCounts;
  }

  function EmptyDraft(v: View): Draft {
    Draft(v, [], BLOCK_HEADER_OVERHEAD, 0, [], 0, {})
  }

  lemma EmptyOk(cfg: Config, v: View)
    ensures DraftOk(cfg, v, EmptyDraft(v))
  {
  }

  // ------------------------------------------------------------ one verdict

  predicate Known(cfg: Config, x: Item) {
    x.hash in cfg.txs && |cfg.txs[x.hash].ins| >= 1 && (cfg.txs[x.hash].txType.Vote? ==> |cfg.txs[x.hash].ins| >= 2)
  }

  // The one item that each transaction is queued and listed with.
  type Items = map<Hash, Item>

  ghost predicate IsOwn(cfg: Config, own: Items, x: Item) {
    Known(cfg, x) && x.hash in own && own[x.hash] == x
  }

  datatype Action = Skip | Requeue | Take(numSigOps: nat)

  // What becomes of a popped item, and whether the queue is by fee from then on.
  function Judge(cfg: Config, d: Draft, x: Item, sortedByFee: bool): (bool, Action)
    requires Known(cfg, x)
  {
    var tx := cfg.txs[x.hash];
    var w := Weigh(cfg, d, tx);
    if w.None? then (sortedByFee, Skip)
    else if sortedByFee && TooCheap(cfg, d, tx, x) then (sortedByFee, Skip)
    else
      var switches := !sortedByFee && EndsPriority(cfg, d, tx, x);
      if switches && PastPriority(cfg, d, tx, x) then (true, Requeue)
      else
        (sortedByFee || switches,
         if cfg.inputsOk(d.view, tx) && cfg.scriptsOk(d.view, tx) then Take(w.value) else Skip)
  }

  // An item goes back into the queue only at the one change of order.
  lemma RequeueOnce(cfg: Config, d: Draft, x: Item, sortedByFee: bool)
    requires Known(cfg, x)
    ensures Judge(cfg, d, x, sortedByFee).1.Requeue? ==> !sortedByFee && Judge(cfg, d, x, sortedByFee).0
    ensures sortedByFee ==> Judge(cfg, d, x, sortedByFee).0
  {
  }

  // ------------------------------------------- what the verdict comes to

  // Every limit, written out: fresh tickets and their price, missed tickets for
  // revocations, size, signature operations, and winning tickets not voted with.
  ghost predicate Within(cfg: Config, d: Draft, tx: Tx) {
    && (tx.txType.Ticket? ==> d.tickets < cfg.maxFreshStake && tx.commit >= cfg.reqStakeDifficulty)
    && (tx.txType.Revocation? ==> |tx.ins| >= 1 && tx.ins[0].hash in cfg.missedTickets)
    && d.blockSize + tx.size < 0x1_0000_0000 && d.blockSize + tx.size < cfg.blockMaxSize
    && cfg.p2shSigOps(d.view, tx).Some?
    && d.sigOps + tx.sigOps + cfg.p2shSigOps(d.view, tx).value <= MAX_SIG_OPS_PER_BLOCK
    && (tx.txType.Vote? ==> && |tx.ins| >= 2 && tx.ins[1].hash in cfg.winningTickets
                            && tx.ins[1].hash !in d.found)
  }

  // By fee: it pays enough, or is in the stake tree, or the block is small.
  ghost predicate Worthwhile(cfg: Config, d: Draft, tx: Tx, x: Item) {
    x.feePerKB >= cfg.txMinFreeFee || tx.stakeTree || d.blockSize + tx.size < cfg.blockMinSize
  }

  // Before that: it does not fit into the high-priority section.
  ghost predicate Late(cfg: Config, d: Draft, tx: Tx, x: Item) {
    d.blockSize + tx.size > cfg.blockPrioritySize || x.priority < cfg.minHighPriority
  }

  // It is the last in that section, or does not fit into it.
  ghost predicate Last(cfg: Config, d: Draft, tx: Tx, x: Item) {
    d.blockSize + tx.size >= cfg.blockPrioritySize || x.priority <= cfg.minHighPriority
  }

  ghost predicate ChecksPass(cfg: Config, d: Draft, tx: Tx) {
    cfg.inputsOk(d.view, tx) && cfg.scriptsOk(d.view, tx)
  }

  // The transaction of x goes into the block ...
  ghost predicate Admitted(cfg: Config, d: Draft, byFee: bool, x: Item) {
    && x.hash in cfg.txs
    && var tx := cfg.txs[x.hash];
       && Within(cfg, d, tx) && ChecksPass(cfg, d, tx)
       && if byFee then Worthwhile(cfg, d, tx, x) else !Late(cfg, d, tx, x)
  }

  // ... or is put back for the order by fee ...
  ghost predicate Deferred(cfg: Config, d: Draft, byFee: bool, x: Item) {
    x.hash in cfg.txs && !byFee && Within(cfg, d, cfg.txs[x.hash]) && Late(cfg, d, cfg.txs[x.hash], x)
  }

  // ... or is turned away.
  ghost predicate Declined(cfg: Config, d: Draft, byFee: bool, x: Item) {
    && x.hash in cfg.txs
    && var tx := cfg.txs[x.hash];
       || !Within(cfg, d, tx)
       || (byFee && !Worthwhile(cfg, d, tx, x))
       || ((byFee || !Late(cfg, d, tx, x)) && !ChecksPass(cfg, d, tx))
  }

  // The order is by fee after this turn.
  ghost predicate SwitchedBy(cfg: Config, d: Draft, byFee: bool, x: Item) {
    byFee || (x.hash in cfg.txs && Within(cfg, d, cfg.txs[x.hash]) && Last(cfg, d, cfg.txs[x.hash], x))
  }

  lemma WeighMeans(cfg: Config, d: Draft, tx: Tx)
    requires Sane(tx) && d.blockSize < 0x1_0000_0000
    ensures Weigh(cfg, d, tx).Some? <==> Within(cfg, d, tx)
    ensures Within(cfg, d, tx) ==>
              Weigh(cfg, d, tx).value == tx.sigOps + cfg.p2shSigOps(d.view, tx).value &&
              Add32(d.blockSize, tx.size % TWO_32) == d.blockSize + tx.size
  {
    assert |tx.ins| >= 1;
    NoWrap(d.blockSize, tx.size);
  }

  lemma NoWrap(a: nat, b: nat)
    requires a < 0x1_0000_0000 && b < 0x1_0000_0000
    ensures b % TWO_32 == b
    ensures a + b < 0x1_0000_0000 ==> Add32(a, b) == a + b
    ensures a + b >= 0x1_0000_0000 ==> Add32(a, b) < a
  {
  }

  // The verdict is exactly that.
  lemma JudgeMeans(cfg: Config, d: Draft, x: Item, byFee: bool)
    requires Known(cfg, x) && Sane(cfg.txs[x.hash]) && d.blockSize < 0x1_0000_0000
    ensures var (sorted, action) := Judge(cfg, d, x, byFee);
            && (action.Take? <==> Admitted(cfg, d, byFee, x))
            && (action.Requeue? <==> Deferred(cfg, d, byFee, x))
            && (action.Skip? <==> Declined(cfg, d, byFee, x))
            && (sorted <==> SwitchedBy(cfg, d, byFee, x))
  {
    WeighMeans(cfg, d, cfg.txs[x.hash]);
  }

  function Verdict(cfg: Config, d: Draft, x: Item, sortedByFee: bool): Draft
    requires Known(cfg, x)
  {
    match Judge(cfg, d, x, sortedByFee).1
    case Take(n) => Put(d, cfg.txs[x.hash], n)
    case _ => d
  }

  // Nothing is taken that a limit or an input check turns away.
  lemma TakeMeans(cfg: Config, d: Draft, x: Item, sortedByFee: bool)
    requires Known(cfg, x) && Judge(cfg, d, x, sortedByFee).1.Take?
    ensures Weigh(cfg, d, cfg.txs[x.hash]) == Some(Judge(cfg, d, x, sortedByFee).1.numSigOps)
    ensures cfg.inputsOk(d.view, cfg.txs[x.hash]) && cfg.scriptsOk(d.view, cfg.txs[x.hash])
  {
  }

  lemma VerdictOk(cfg: Config, v: View, d: Draft, x: Item, sortedByFee: bool)
    requires Sound(cfg) && DraftOk(cfg, v, d) && Known(cfg, x)
    ensures DraftOk(cfg, v, Verdict(cfg, d, x, sortedByFee))
  {
    if Judge(cfg, d, x, sortedByFee).1.Take? {
      TakeMeans(cfg, d, x, sortedByFee);
      PutOk(cfg, v, d, x.hash, Judge(cfg, d, x, sortedByFee).1.numSigOps);
    }
  }

  ghost function HashesOf(txs: seq<Tx>): set<Hash> {
    set k | 0 <= k < |txs| :: txs[k].hash
  }

  lemma ChosenNext(txs: seq<Tx>, tx: Tx)
    ensures HashesOf(txs + [tx]) == HashesOf(txs) + {tx.hash}
  {
    var all := txs + [tx];
    assert all[|txs|] == tx;
    forall h | h in HashesOf(txs) + {tx.hash} ensures h in HashesOf(all) {
      if h in HashesOf(txs) {
        var k :| 0 <= k < |txs| && txs[k].hash == h;
        assert all[k] == txs[k];
      }
    }
  }
}
