// Transactions against a view of the unspent outputs: spending, and what it
// means for a list of transactions to replay.
module Replay {
  import opened TxQueue

  datatype OutPoint = OutPoint(hash: Hash, index: int)

  // `outs` are the output indices that are not provably unspendable; `commit` is
  // the value of the first output.
  datatype Tx = Tx(hash: Hash, txType: TxType, stakeTree: bool, ins: seq<OutPoint>, outs: set<int>,
                   size: nat, sigOps: nat, commit: int)

  // For each transaction in view, its outputs and whether they are spent.
  type View = map<Hash, map<int, bool>>

  // The inputs that spend something; a vote's first input is its stakebase.
  function Inputs(tx: Tx): seq<OutPoint> {
    if tx.txType.Vote? && |tx.ins| > 0 then tx.ins[1..] else tx.ins
  }

  predicate Available(v: View, o: OutPoint) {
    o.hash in v && o.index in v[o.hash] && !v[o.hash][o.index]
  }

  predicate Spent(v: View, o: OutPoint) {
    o.hash in v && o.index in v[o.hash] && v[o.hash][o.index]
  }

  function SpendOne(v: View, o: OutPoint): View {
    if o.hash in v && o.index in v[o.hash] then v[o.hash := v[o.hash][o.index := true]] else v
  }

  function SpendAll(v: View, os: seq<OutPoint>): View {
    if os == [] then v else SpendOne(SpendAll(v, os[..|os| - 1]), os[|os| - 1])
  }

  function AddOuts(v: View, tx: Tx): View {
    var known := if tx.hash in v then v[tx.hash] else map[];
    v[tx.hash := known + map i | i in tx.outs :: false]
  }

  // Mark a transaction's inputs spent and make its outputs available.
  function Spend(v: View, tx: Tx): View {
    AddOuts(SpendAll(v, tx.ins), tx)
  }

  method SpendTransaction(view: View, tx: Tx) returns (v: View)
    ensures v == Spend(view, tx)
  {
    v := view;
    for i := 0 to |tx.ins|
      invariant v == SpendAll(view, tx.ins[..i])
    {
      assert tx.ins[..i + 1][..i] == tx.ins[..i];
      var o := tx.ins[i];
      if o.hash in v && o.index in v[o.hash] {
        v := v[o.hash := v[o.hash][o.index := true]];
      }
    }
    assert tx.ins[..|tx.ins|] == tx.ins;
    var known := if tx.hash in v then v[tx.hash] else map[];
    v := v[tx.hash := known + map i | i in tx.outs :: false];
  }

  // ------------------------------------------------------------------ replay

  function After(v: View, txs: seq<Tx>): View {
    if txs == [] then v else Spend(After(v, txs[..|txs| - 1]), txs[|txs| - 1])
  }

  predicate AllAvailable(v: View, os: seq<OutPoint>) {
    forall i :: 0 <= i < |os| ==> Available(v, os[i])
  }

  // Every input is there and unspent when its transaction's turn comes.
  ghost predicate ReplaysAt(v: View, txs: seq<Tx>, n: nat)
    requires n < |txs|
  {
    AllAvailable(After(v, txs[..n]), Inputs(txs[n]))
  }

  ghost predicate Replays(v: View, txs: seq<Tx>) {
    forall n :: 0 <= n < |txs| ==> ReplaysAt(v, txs, n)
  }

  // What the memory pool has checked about a transaction: it spends something,
  // nothing twice, and not itself.
  ghost predicate Sane(tx: Tx) {
    && |Inputs(tx)| > 0
    && (tx.txType.Vote? ==> |tx.ins| >= 2)
    && (forall i, j :: 0 <= i < j < |tx.ins| ==> tx.ins[i] != tx.ins[j])
    && tx.size < 0x1_0000_0000
  }

  // The transactions are not confirmed yet: the view knows none of them.
  ghost predicate Unconfirmed(v: View, txs: seq<Tx>) {
    forall n :: 0 <= n < |txs| ==> txs[n].hash !in v
  }

  lemma {:induction false} SpendAllKeys(v: View, os: seq<OutPoint>)
    ensures SpendAll(v, os).Keys == v.Keys
    ensures forall h :: h in v ==> SpendAll(v, os)[h].Keys == v[h].Keys
  {
    if os != [] {
      SpendAllKeys(v, os[..|os| - 1]);
    }
  }

  // Spending marks what it names, and unmarks nothing.
  lemma {:induction false} SpendAllSpends(v: View, os: seq<OutPoint>, o: OutPoint)
    requires Spent(v, o) || (Available(v, o) && o in os)
    ensures Spent(SpendAll(v, os), o)
  {
    if os != [] {
      var n := |os| - 1;
      if o in os[..n] || Spent(v, o) {
        SpendAllSpends(v, os[..n], o);
      } else {
        assert os[n] == o;
        SpendAllKeys(v, os[..n]);
      }
    }
  }

  // tx spends o with its i-th input; a vote's first input spends nothing.
  ghost predicate SpendsAt(tx: Tx, i: nat, o: OutPoint) {
    i < |tx.ins| && tx.ins[i] == o && !(tx.txType.Vote? && i == 0)
  }

  ghost predicate Spends(tx: Tx, o: OutPoint) {
    exists i: nat :: SpendsAt(tx, i, o)
  }

  lemma InputsAre(tx: Tx, o: OutPoint)
    ensures o in Inputs(tx) <==> Spends(tx, o)
    ensures |Inputs(tx)| == |tx.ins| - if tx.txType.Vote? && |tx.ins| > 0 then 1 else 0
  {
    var skip := if tx.txType.Vote? && |tx.ins| > 0 then 1 else 0;
    if o in Inputs(tx) {
      var k :| 0 <= k < |Inputs(tx)| && Inputs(tx)[k] == o;
      assert SpendsAt(tx, k + skip, o);
    }
    if Spends(tx, o) {
      var i: nat :| SpendsAt(tx, i, o);
      assert Inputs(tx)[i - skip] == o;
    }
  }

  lemma {:induction false} SpendAllLeaves(v: View, os: seq<OutPoint>, o: OutPoint)
    ensures Available(SpendAll(v, os), o) <==> Available(v, o) && o !in os
  {
    if os != [] {
      var n := |os| - 1;
      SpendAllLeaves(v, os[..n], o);
      SpendAllKeys(v, os[..n]);
      assert os == os[..n] + [os[n]];
    }
  }

  // After a transaction, its spendable outputs are there, and of the others those
  // that were and that it does not name.
  lemma SpendMeans(v: View, tx: Tx, o: OutPoint)
    ensures Available(Spend(v, tx), o) <==>
            (o.hash == tx.hash && o.index in tx.outs) || (Available(v, o) && o !in tx.ins)
  {
    SpendAllLeaves(v, tx.ins, o);
  }

  lemma AfterNext(v: View, txs: seq<Tx>, n: nat)
    requires n < |txs|
    ensures After(v, txs[..n + 1]) == Spend(After(v, txs[..n]), txs[n])
  {
    assert txs[..n + 1][..n] == txs[..n];
  }

  lemma SpendKeys(v: View, tx: Tx)
    ensures Spend(v, tx).Keys == v.Keys + {tx.hash}
  {
    SpendAllKeys(v, tx.ins);
  }

  // A view grows by exactly the transactions replayed on it.
  lemma {:induction false} AfterKnows(v: View, txs: seq<Tx>, n: nat, h: Hash)
    requires n <= |txs|
    ensures h in After(v, txs[..n]) <==> h in v || NamedIn(txs, n, h)
  {
    if n > 0 {
      AfterNext(v, txs, n - 1);
      AfterKnows(v, txs, n - 1, h);
      SpendKeys(After(v, txs[..n - 1]), txs[n - 1]);
      assert h in After(v, txs[..n]) <==> h in After(v, txs[..n - 1]) || h == txs[n - 1].hash;
      NamedNext(txs, n - 1, h);
    }
  }

  ghost predicate NamedIn(txs: seq<Tx>, n: nat, h: Hash) {
    exists m :: 0 <= m < n && m < |txs| && txs[m].hash == h
  }

  lemma NamedNext(txs: seq<Tx>, n: nat, h: Hash)
    requires n < |txs|
    ensures NamedIn(txs, n + 1, h) <==> NamedIn(txs, n, h) || txs[n].hash == h
  {
  }

  ghost predicate DistinctUpTo(txs: seq<Tx>, n: nat) {
    forall i, j :: 0 <= i < j < n && j < |txs| ==> txs[i].hash != txs[j].hash
  }

  // What a replayed transaction spends was there before it, so it is neither its
  // own output nor that of a later transaction.
  lemma SpentIsOlder(v: View, txs: seq<Tx>, m: nat, k: nat, n: nat, i: nat)
    requires Replays(v, txs) && Unconfirmed(v, txs) && DistinctUpTo(txs, n)
    requires m <= k < n <= |txs| && i < |Inputs(txs[m])|
    ensures Inputs(txs[m])[i].hash != txs[k].hash
  {
    assert ReplaysAt(v, txs, m);
    AfterKnows(v, txs, m, Inputs(txs[m])[i].hash);
  }

  // Spending a transaction spends each of its inputs, and an output once spent
  // stays so while no transaction with its hash is replayed again.
  lemma SpendSpends(v: View, tx: Tx, o: OutPoint)
    requires o.hash != tx.hash
    requires Spent(v, o) || (Available(v, o) && o in tx.ins)
    ensures Spent(Spend(v, tx), o)
  {
    SpendAllSpends(v, tx.ins, o);
  }

  lemma {:induction false} StaysSpent(v: View, txs: seq<Tx>, m: nat, n: nat, i: nat)
    requires Replays(v, txs) && Unconfirmed(v, txs) && DistinctUpTo(txs, n)
    requires m < n <= |txs| && i < |Inputs(txs[m])|
    ensures Spent(After(v, txs[..n]), Inputs(txs[m])[i])
    decreases n
  {
    var o, w := Inputs(txs[m])[i], After(v, txs[..n - 1]);
    AfterNext(v, txs, n - 1);
    SpentIsOlder(v, txs, m, n - 1, n, i);
    if m < n - 1 {
      StaysSpent(v, txs, m, n - 1, i);
    } else {
      assert ReplaysAt(v, txs, m);
      InputIsListed(txs[m], i);
    }
    SpendSpends(w, txs[n - 1], o);
  }

  lemma InputIsListed(tx: Tx, i: nat)
    requires i < |Inputs(tx)|
    ensures Inputs(tx)[i] in tx.ins
  {
  }

  // Transactions are told apart by their hash.
  ghost predicate HashesName(txs: seq<Tx>) {
    forall i, j :: 0 <= i < |txs| && 0 <= j < |txs| && txs[i].hash == txs[j].hash ==> txs[i] == txs[j]
  }

  lemma NotSpentAgain(v: View, txs: seq<Tx>, m: nat, n: nat, i: nat, j: nat)
    requires Replays(v, txs) && Unconfirmed(v, txs) && DistinctUpTo(txs, n)
    requires m < n < |txs| && i < |Inputs(txs[m])| && j < |Inputs(txs[n])|
    ensures Inputs(txs[m])[i] != Inputs(txs[n])[j]
  {
    StaysSpent(v, txs, m, n, i);
    assert ReplaysAt(v, txs, n);
  }

  // No transaction can be replayed twice.
  lemma {:induction false} NoRepeats(v: View, txs: seq<Tx>, n: nat)
    requires Replays(v, txs) && Unconfirmed(v, txs) && HashesName(txs) && n <= |txs|
    requires forall k :: 0 <= k < |txs| ==> Sane(txs[k])
    ensures DistinctUpTo(txs, n)
  {
    if n > 0 {
      NoRepeats(v, txs, n - 1);
      forall m | 0 <= m < n - 1 ensures txs[m].hash != txs[n - 1].hash {
        assert Sane(txs[m]) && Sane(txs[n - 1]);
        NotSpentAgain(v, txs, m, n - 1, 0, 0);
      }
    }
  }

  // A list of transactions that replays on a view that knows none of them holds
  // no transaction twice, spends no output twice, and has every transaction
  // after those it spends from.
  lemma ReplayIsOrderly(v: View, txs: seq<Tx>)
    requires Replays(v, txs) && Unconfirmed(v, txs) && HashesName(txs)
    requires forall k :: 0 <= k < |txs| ==> Sane(txs[k])
    ensures forall m, n :: 0 <= m < n < |txs| ==> txs[m].hash != txs[n].hash
    ensures forall m, n, i, j :: 0 <= m < n < |txs| && 0 <= i < |Inputs(txs[m])| && 0 <= j < |Inputs(txs[n])| ==>
              Inputs(txs[m])[i] != Inputs(txs[n])[j]
    ensures forall m, n, i | 0 <= m < |txs| && 0 <= n < |txs| && 0 <= i < |Inputs(txs[n])| ::
              Inputs(txs[n])[i].hash == txs[m].hash ==> m < n
  {
    NoRepeats(v, txs, |txs|);
    forall m, n, i, j | 0 <= m < n < |txs| && 0 <= i < |Inputs(txs[m])| && 0 <= j < |Inputs(txs[n])|
      ensures Inputs(txs[m])[i] != Inputs(txs[n])[j]
    {
      NotSpentAgain(v, txs, m, n, i, j);
    }
    forall m, n, i | 0 <= m < |txs| && 0 <= n < |txs| && 0 <= i < |Inputs(txs[n])| &&
                     Inputs(txs[n])[i].hash == txs[m].hash
      ensures m < n
    {
      if n <= m {
        SpentIsOlder(v, txs, n, m, |txs|, i);
      }
    }
  }

  // Appending to a list that replays.
  lemma ReplaysNext(v: View, txs: seq<Tx>, tx: Tx)
    requires Replays(v, txs) && AllAvailable(After(v, txs), Inputs(tx))
    ensures Replays(v, txs + [tx])
    ensures After(v, txs + [tx]) == Spend(After(v, txs), tx)
  {
    AfterAppend(v, txs, tx);
    forall n | 0 <= n < |txs + [tx]| ensures ReplaysAt(v, txs + [tx], n) {
      if n < |txs| {
        ReplaysAtStill(v, txs, tx, n);
      } else {
        ReplaysLast(v, txs, tx);
      }
    }
  }

  lemma AfterAppend(v: View, txs: seq<Tx>, tx: Tx)
    ensures After(v, txs + [tx]) == Spend(After(v, txs), tx)
  {
    assert (txs + [tx])[..|txs|] == txs;
  }

  lemma ReplaysLast(v: View, txs: seq<Tx>, tx: Tx)
    requires AllAvailable(After(v, txs), Inputs(tx))
    ensures ReplaysAt(v, txs + [tx], |txs|)
  {
    assert (txs + [tx])[..|txs|] == txs && (txs + [tx])[|txs|] == tx;
  }

  lemma ReplaysAtStill(v: View, txs: seq<Tx>, tx: Tx, n: nat)
    requires n < |txs| && ReplaysAt(v, txs, n)
    ensures ReplaysAt(v, txs + [tx], n)
  {
    assert (txs + [tx])[..n] == txs[..n] && (txs + [tx])[n] == txs[n];
  }
}
