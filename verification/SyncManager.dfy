// The block manager's event loop: which peer has been asked for what, the peer
// to sync from, headers-first mode and its checkpoints.  One message is handled
// at a time, so that what every handler keeps holds in every run.
module SyncManager {
  import opened Wrappers

  type Hash = nat

  const MAX_INV_PER_MSG := 50000
  const MAX_REQUESTED_BLOCKS := MAX_INV_PER_MSG
  const MAX_REQUESTED_TXNS := MAX_INV_PER_MSG
  const MAX_REJECTED_TXNS := 1000
  const MIN_IN_FLIGHT_BLOCKS := 10
  const MAX_RESEND_LIMIT := 3

  datatype Checkpoint = Checkpoint(height: int, hash: Hash)
  datatype Header = Header(hash: Hash, prev: Hash)
  datatype HeaderNode = HeaderNode(height: int, hash: Hash)
  datatype Best = Best(hash: Hash, height: int, keyHeight: int)
  datatype InvType = BlockInv | TxInv | OtherInv
  datatype Inv = Inv(kind: InvType, hash: Hash)

  // The element of the header list to fetch from next: none, one in the list, or
  // one that has been taken out of the list since.
  datatype Cursor = NoHeader | At(i: nat) | Stray(node: HeaderNode)

  // ----------------------------------------------------------- checkpoints

  ghost predicate Ascending(cs: seq<Checkpoint>) {
    forall i, j :: 0 <= i < j < |cs| ==> cs[i].height < cs[j].height
  }

  // c is the least checkpoint above the height.
  ghost predicate LeastAbove(cs: seq<Checkpoint>, height: int, c: Checkpoint) {
    c in cs && c.height > height && forall d :: d in cs && d.height > height ==> c.height <= d.height
  }

  method FindNextHeaderCheckpoint(cs: seq<Checkpoint>, disabled: bool, height: int) returns (r: Option<Checkpoint>)
    requires Ascending(cs)
    ensures r.Some? ==> !disabled && LeastAbove(cs, height, r.value)
    ensures r.None? <==> disabled || forall c :: c in cs ==> c.height <= height
  {
    if disabled || |cs| == 0 || height >= cs[|cs| - 1].height {
      return None;
    }
    var next := |cs| - 1;
    var i := |cs| - 2;
    while i >= 0
      invariant -1 <= i == next - 1 < |cs| - 1
      invariant cs[next].height > height
    {
      if height >= cs[i].height {
        break;
      }
      next := i;
      i := i - 1;
    }
    assert forall d :: d in cs && d.height > height ==> cs[next].height <= d.height;
    r := Some(cs[next]);
  }

  ghost predicate FollowsAt(cs: seq<Checkpoint>, past: seq<Checkpoint>, i: nat) {
    1 <= i < |past| && LeastAbove(cs, past[i - 1].height, past[i])
  }

  // A run of checkpoints, none left out.
  ghost predicate Successive(cs: seq<Checkpoint>, past: seq<Checkpoint>) {
    forall i :: 1 <= i < |past| ==> FollowsAt(cs, past, i)
  }

  lemma SuccessiveNext(cs: seq<Checkpoint>, past: seq<Checkpoint>, c: Checkpoint)
    requires Successive(cs, past) && past != [] && LeastAbove(cs, past[|past| - 1].height, c)
    ensures Successive(cs, past + [c])
  {
    forall i | 1 <= i < |past| + 1 ensures FollowsAt(cs, past + [c], i) {
      assert i < |past| ==> FollowsAt(cs, past, i);
    }
  }

  // ... so their heights rise strictly.
  lemma {:induction false} SuccessiveRise(cs: seq<Checkpoint>, past: seq<Checkpoint>, i: nat, j: nat)
    requires Successive(cs, past) && i < j < |past|
    ensures past[i].height < past[j].height
  {
    assert FollowsAt(cs, past, j);
    if i < j - 1 {
      SuccessiveRise(cs, past, i, j - 1);
    }
  }

  // ---------------------------------------------------------- the header list

  ghost predicate LinkedAt(list: seq<HeaderNode>, prevs: seq<Hash>, i: nat) {
    && 1 <= i < |list| == |prevs|
    && prevs[i] == list[i - 1].hash && list[i].height == list[i - 1].height + 1
  }

  // Each header names its predecessor's hash and has the next height.
  ghost predicate Linked(list: seq<HeaderNode>, prevs: seq<Hash>) {
    |prevs| == |list| && forall i :: 1 <= i < |list| ==> LinkedAt(list, prevs, i)
  }

  lemma LinkedNext(list: seq<HeaderNode>, prevs: seq<Hash>, h: Header)
    requires Linked(list, prevs) && |list| > 0 && list[|list| - 1].hash == h.prev
    ensures Linked(list + [HeaderNode(list[|list| - 1].height + 1, h.hash)], prevs + [h.prev])
  {
    var list1, prevs1 := list + [HeaderNode(list[|list| - 1].height + 1, h.hash)], prevs + [h.prev];
    forall i | 1 <= i < |list1| ensures LinkedAt(list1, prevs1, i) {
      assert i < |list| ==> LinkedAt(list, prevs, i);
    }
  }

  lemma LinkedTail(list: seq<HeaderNode>, prevs: seq<Hash>)
    requires Linked(list, prevs) && |list| > 0
    ensures Linked(list[1..], prevs[1..])
  {
    forall i | 1 <= i < |list| - 1 ensures LinkedAt(list[1..], prevs[1..], i) {
      assert LinkedAt(list, prevs, i + 1);
    }
  }

  // Heights rise by one from header to header.
  lemma {:induction false} HeightsRun(list: seq<HeaderNode>, prevs: seq<Hash>, i: nat)
    requires Linked(list, prevs) && i < |list|
    ensures list[i].height == list[0].height + i
  {
    if i > 0 {
      assert LinkedAt(list, prevs, i);
      HeightsRun(list, prevs, i - 1);
    }
  }

  predicate InList(list: seq<HeaderNode>, c: Cursor) {
    c.At? ==> c.i < |list|
  }

  // The cursor when the front is taken out of the list.
  function AfterRemoval(list: seq<HeaderNode>, c: Cursor): (r: Cursor)
    requires |list| > 0 && InList(list, c)
    ensures InList(list[1..], r)
  {
    match c
    case At(i) => if i == 0 then Stray(list[0]) else At(i - 1)
    case _ => c
  }

  // The headers from the cursor on.
  function From(list: seq<HeaderNode>, c: Cursor): seq<HeaderNode>
    requires InList(list, c)
  {
    match c
    case NoHeader => []
    case At(i) => list[i..]
    case Stray(n) => [n]
  }

  // The cursor past the k-th of those headers.
  function Beyond(list: seq<HeaderNode>, c: Cursor, k: nat): (r: Cursor)
    requires InList(list, c) && k < |From(list, c)|
    ensures InList(list, r) && From(list, r) == From(list, c)[k + 1..]
  {
    match c
    case At(i) => if i + k + 1 < |list| then At(i + k + 1) else NoHeader
    case _ => NoHeader
  }

  datatype Reception = Unconnected | WrongCheckpoint | CheckpointReached | MoreToCome

  // The k-th header follows the one before it, or the end of the list.
  predicate Connects(list: seq<HeaderNode>, headers: seq<Header>, k: nat)
    requires k < |headers|
  {
    if k > 0 then headers[k].prev == headers[k - 1].hash
    else |list| > 0 && headers[0].prev == list[|list| - 1].hash
  }

  // The k-th header would be at the checkpoint's height.
  predicate AtCheckpoint(list: seq<HeaderNode>, cp: Checkpoint, k: nat) {
    |list| > 0 && list[|list| - 1].height + 1 + k == cp.height
  }

  // The list with headers appended at the next heights.
  function Extended(list: seq<HeaderNode>, headers: seq<Header>): (r: seq<HeaderNode>)
    requires headers != [] ==> |list| > 0
    ensures |r| == |list| + |headers|
  {
    list + seq(|headers|, k requires 0 <= k < |headers| =>
                            HeaderNode(list[|list| - 1].height + 1 + k, headers[k].hash))
  }

  // How the reception of headers ends, with the first n of them accepted: at the
  // first that does not connect, at one of the checkpoint's height with another
  // hash, at the checkpoint itself, or with all of them accepted.
  ghost predicate Received(list: seq<HeaderNode>, cp: Checkpoint, headers: seq<Header>, r: Reception, n: nat) {
    && n <= |headers| && (forall k :: 0 <= k < n ==> Connects(list, headers, k))
    && (forall k :: 0 <= k < n - 1 ==> !AtCheckpoint(list, cp, k))
    && match r
       case Unconnected => n < |headers| && !Connects(list, headers, n) && (n > 0 ==> !AtCheckpoint(list, cp, n - 1))
       case WrongCheckpoint => n > 0 && AtCheckpoint(list, cp, n - 1) && headers[n - 1].hash != cp.hash
       case CheckpointReached => n > 0 && AtCheckpoint(list, cp, n - 1) && headers[n - 1].hash == cp.hash
       case MoreToCome => n == |headers| && (n > 0 ==> !AtCheckpoint(list, cp, n - 1))
  }

  // That leaves no choice.
  lemma ReceivedOnce(list: seq<HeaderNode>, cp: Checkpoint, headers: seq<Header>,
                     r: Reception, n: nat, r': Reception, n': nat)
    requires Received(list, cp, headers, r, n) && Received(list, cp, headers, r', n')
    ensures r == r' && n == n'
  {
  }

  lemma ExtendedNext(list: seq<HeaderNode>, headers: seq<Header>, k: nat)
    requires k < |headers| && |list| > 0
    ensures Extended(list, headers[..k + 1]) ==
            Extended(list, headers[..k]) + [HeaderNode(list[|list| - 1].height + 1 + k, headers[k].hash)]
    ensures var last := Extended(list, headers[..k])[|list| + k - 1];
            last.height == list[|list| - 1].height + k &&
            last.hash == if k > 0 then headers[k - 1].hash else list[|list| - 1].hash
  {
    assert headers[..k + 1][..k] == headers[..k];
  }

  // The cursor once n headers have been appended.
  function Started(list: seq<HeaderNode>, start: Cursor, n: nat): Cursor {
    if start.NoHeader? && n > 0 then At(|list|) else start
  }

  // What is to be fetched grows by exactly what is appended, unless the cursor is
  // stray.
  lemma ToFetchGrows(list: seq<HeaderNode>, start: Cursor, headers: seq<Header>)
    requires InList(list, start) && (headers != [] ==> |list| > 0)
    ensures var list1, start1 := Extended(list, headers), Started(list, start, |headers|);
            && InList(list1, start1) && list <= list1
            && (forall k :: 0 <= k < |headers| ==>
                  list1[|list| + k] == HeaderNode(list[|list| - 1].height + 1 + k, headers[k].hash))
            && From(list1, start1) == if start.Stray? then [start.node] else From(list, start) + list1[|list|..]
  {
    var list1 := Extended(list, headers);
    if start.At? {
      assert list1[start.i..] == list[start.i..] + list1[|list|..];
    }
  }

  // Append received headers as long as they connect, up to the checkpoint.
  method Receive(list0: seq<HeaderNode>, ghost prevs0: seq<Hash>, start0: Cursor, cp: Checkpoint, headers: seq<Header>)
    returns (r: Reception, n: nat, list: seq<HeaderNode>, ghost prevs: seq<Hash>, start: Cursor)
    requires Linked(list0, prevs0) && InList(list0, start0)
    ensures Received(list0, cp, headers, r, n) && (n > 0 ==> |list0| > 0)
    ensures list == Extended(list0, headers[..n]) && start == Started(list0, start0, n)
    ensures Linked(list, prevs) && InList(list, start)
  {
    list, prevs, start, n := list0, prevs0, start0, 0;
    assert list0 + [] == list0;
    while n < |headers|
      invariant n <= |headers| && (n > 0 ==> |list0| > 0)
      invariant list == Extended(list0, headers[..n]) && start == Started(list0, start0, n)
      invariant Linked(list, prevs) && InList(list, start)
      invariant forall k :: 0 <= k < n ==> Connects(list0, headers, k) && !AtCheckpoint(list0, cp, k)
    {
      if |list| == 0 {
        return Unconnected, n, list, prevs, start;
      }
      ExtendedNext(list0, headers, n);
      if list[|list| - 1].hash != headers[n].prev {
        return Unconnected, n, list, prevs, start;
      }
      LinkedNext(list, prevs, headers[n]);
      var node := HeaderNode(list[|list| - 1].height + 1, headers[n].hash);
      list, prevs := list + [node], prevs + [headers[n].prev];
      if start.NoHeader? {
        start := At(|list| - 1);
      }
      n := n + 1;
      if node.height == cp.height {
        r := if node.hash == cp.hash then CheckpointReached else WrongCheckpoint;
        return;
      }
    }
    r := MoreToCome;
  }

  // --------------------------------------------------------------- requests

  // Make room in a set of hashes by dropping one of them.
  method LimitMap(m: set<Hash>, limit: nat) returns (r: set<Hash>)
    ensures r <= m && |m| <= |r| + 1
    ensures |m| + 1 <= limit ==> r == m
    ensures |m| <= limit && limit > 0 ==> |r| < limit
  {
    r := m;
    if |m| + 1 > limit && m != {} {
      var h :| h in m;
      r := m - {h};
    }
  }

  // What the walk over the headers asks for: of the first n, the unknown ones.
  function Unknown(nodes: seq<HeaderNode>, have: Hash -> Option<bool>): set<Hash> {
    set k | 0 <= k < |nodes| && have(nodes[k].hash) == Some(false) :: nodes[k].hash
  }

  lemma UnknownNext(nodes: seq<HeaderNode>, k: nat, have: Hash -> Option<bool>)
    requires k < |nodes|
    ensures Unknown(nodes[..k + 1], have) ==
            Unknown(nodes[..k], have) + if have(nodes[k].hash) == Some(false) then {nodes[k].hash} else {}
  {
    var a, b := nodes[..k], nodes[..k + 1];
    assert forall j :: 0 <= j < k ==> a[j] == b[j];
    assert b[k] == nodes[k];
  }

  function NumUnknown(nodes: seq<HeaderNode>, have: Hash -> Option<bool>): nat {
    if nodes == [] then 0
    else
      NumUnknown(nodes[..|nodes| - 1], have) + if have(nodes[|nodes| - 1].hash) == Some(false) then 1 else 0
  }

  // The walk ends with the header that fills the message, or with the last one.
  ghost predicate StopsAt(nodes: seq<HeaderNode>, have: Hash -> Option<bool>, n: nat) {
    && n <= |nodes| && NumUnknown(nodes[..n], have) <= MAX_INV_PER_MSG
    && (n < |nodes| ==> NumUnknown(nodes[..n], have) == MAX_INV_PER_MSG)
    && (NumUnknown(nodes[..n], have) == MAX_INV_PER_MSG ==> n > 0 && have(nodes[n - 1].hash) == Some(false))
  }

  // Of the first n headers, the m-th is the last that could be looked up.
  ghost predicate LookedUpTo(nodes: seq<HeaderNode>, have: Hash -> Option<bool>, n: nat, m: nat) {
    && m <= n <= |nodes| && (m > 0 ==> have(nodes[m - 1].hash).Some?)
    && forall k :: m <= k < n ==> have(nodes[k].hash).None?
  }

  // The headers after the last that could be looked up.
  ghost predicate Remains(nodes: seq<HeaderNode>, have: Hash -> Option<bool>, n: nat, rest: seq<HeaderNode>) {
    exists m: nat :: LookedUpTo(nodes, have, n, m) && rest == nodes[m..]
  }

  lemma RemainsNext(nodes: seq<HeaderNode>, have: Hash -> Option<bool>, n: nat, rest: seq<HeaderNode>)
    requires Remains(nodes, have, n, rest) && n < |nodes|
    ensures have(nodes[n].hash).None? ==> Remains(nodes, have, n + 1, rest)
    ensures have(nodes[n].hash).Some? ==> Remains(nodes, have, n + 1, nodes[n + 1..])
  {
    var m: nat :| LookedUpTo(nodes, have, n, m) && rest == nodes[m..];
    if have(nodes[n].hash).None? {
      assert LookedUpTo(nodes, have, n + 1, m);
    } else {
      assert LookedUpTo(nodes, have, n + 1, n + 1);
    }
  }

  // What is left to fetch next time begins after the last header looked up.
  ghost predicate Rest(list: seq<HeaderNode>, start0: Cursor, have: Hash -> Option<bool>, n: nat, start: Cursor) {
    && InList(list, start0) && InList(list, start)
    && Remains(From(list, start0), have, n, From(list, start))
  }

  // The walk has come to the n-th header.
  ghost predicate Walked(nodes: seq<HeaderNode>, have: Hash -> Option<bool>, n: nat, asked: set<Hash>,
                         numRequested: nat) {
    && n <= |nodes| && asked == Unknown(nodes[..n], have)
    && numRequested == NumUnknown(nodes[..n], have) <= MAX_INV_PER_MSG
    && (numRequested == MAX_INV_PER_MSG ==> n > 0 && have(nodes[n - 1].hash) == Some(false))
  }

  lemma WalkedNext(nodes: seq<HeaderNode>, have: Hash -> Option<bool>, n: nat, asked: set<Hash>, numRequested: nat)
    requires Walked(nodes, have, n, asked, numRequested) && n < |nodes| && numRequested < MAX_INV_PER_MSG
    ensures have(nodes[n].hash) == Some(false) ==>
              Walked(nodes, have, n + 1, asked + {nodes[n].hash}, numRequested + 1)
    ensures have(nodes[n].hash) != Some(false) ==> Walked(nodes, have, n + 1, asked, numRequested)
  {
    UnknownNext(nodes, n, have);
    var more := nodes[..n + 1];
    assert more[..|more| - 1] == nodes[..n] && more[|more| - 1] == nodes[n];
  }

  // Walk the headers from the cursor, for as many as one message may ask for.
  method CollectBlocks(list: seq<HeaderNode>, start0: Cursor, have: Hash -> Option<bool>)
    returns (asked: set<Hash>, start: Cursor, n: nat)
    requires InList(list, start0)
    ensures n <= |From(list, start0)| && asked == Unknown(From(list, start0)[..n], have)
    ensures StopsAt(From(list, start0), have, n) && Rest(list, start0, have, n, start)
  {
    var nodes := From(list, start0);
    asked, start, n := {}, start0, 0;
    var numRequested := 0;
    assert nodes[0..] == nodes;
    assert LookedUpTo(nodes, have, 0, 0);
    assert Remains(nodes, have, 0, nodes);
    while n < |nodes| && numRequested < MAX_INV_PER_MSG
      invariant Walked(nodes, have, n, asked, numRequested)
      invariant Rest(list, start0, have, n, start)
    {
      WalkedNext(nodes, have, n, asked, numRequested);
      RemainsNext(nodes, have, n, From(list, start));
      if have(nodes[n].hash).Some? {
        if !have(nodes[n].hash).value {
          asked := asked + {nodes[n].hash};
          numRequested := numRequested + 1;
        }
        start := Beyond(list, start0, n);
      }
      n := n + 1;
    }
  }

  // Requests as the manager and one peer have them on record; `asked` and
  // `askedTxns` are in the message being built.
  datatype Ledger = Ledger(blocks: set<Hash>, txns: set<Hash>, everBlocks: map<Hash, nat>, everTxns: map<Hash, nat>,
                           peerBlocks: set<Hash>, peerTxns: set<Hash>, asked: set<Hash>, askedTxns: set<Hash>)

  // What is asked for is on the peer's record, and on the manager's unless it has
  // been dropped there.
  ghost predicate Recorded(l0: Ledger, l: Ledger) {
    && l.peerBlocks == l0.peerBlocks + l.asked && l.peerTxns == l0.peerTxns + l.askedTxns
    && l.everBlocks == l0.everBlocks + (map h | h in l.asked :: 0)
    && l.everTxns == l0.everTxns + (map h | h in l.askedTxns :: 0)
    && l.blocks <= l0.blocks + l.asked && l.txns <= l0.txns + l.askedTxns
  }

  // The manager's record has room for all that is asked for.
  ghost predicate HasRoom(l0: Ledger, l: Ledger) {
    |l0.blocks + l.asked| < MAX_REQUESTED_BLOCKS && |l0.txns + l.askedTxns| < MAX_REQUESTED_TXNS
  }

  // Nothing has been dropped, and nothing asked for twice, as long as there is room.
  ghost predicate NoneDropped(l0: Ledger, l: Ledger, numRequested: nat) {
    && |l.asked| + |l.askedTxns| <= numRequested
    && (HasRoom(l0, l) ==> && l.blocks == l0.blocks + l.asked && l.txns == l0.txns + l.askedTxns
                           && numRequested == |l.asked| + |l.askedTxns|)
  }

  // Everything is asked for that is among the items and not on record, and
  // nothing that is not among them.
  ghost predicate Asks(l0: Ledger, items: seq<Inv>, l: Ledger) {
    && (forall h :: Inv(BlockInv, h) in items && h !in l0.blocks ==> h in l.asked)
    && (forall h :: Inv(TxInv, h) in items && h !in l0.txns ==> h in l.askedTxns)
    && (forall h :: h in l.asked ==> Inv(BlockInv, h) in items)
    && (forall h :: h in l.askedTxns ==> Inv(TxInv, h) in items)
  }

  // One more block is asked for, and the manager's record limited.
  lemma BlockAsked(l0: Ledger, l: Ledger, count: nat, h: Hash, limited: set<Hash>)
    requires Recorded(l0, l) && NoneDropped(l0, l, count) && h !in l.blocks && limited <= l.blocks + {h}
    requires |l.blocks + {h}| < MAX_REQUESTED_BLOCKS ==> limited == l.blocks + {h}
    ensures var l1 := l.(blocks := limited, everBlocks := l.everBlocks[h := 0],
                         peerBlocks := l.peerBlocks + {h}, asked := l.asked + {h});
            Recorded(l0, l1) && NoneDropped(l0, l1, count + 1)
  {
    GrowsBy(l0.blocks, l.asked, h);
  }

  lemma TxAsked(l0: Ledger, l: Ledger, count: nat, h: Hash, limited: set<Hash>)
    requires Recorded(l0, l) && NoneDropped(l0, l, count) && h !in l.txns && limited <= l.txns + {h}
    requires |l.txns + {h}| < MAX_REQUESTED_TXNS ==> limited == l.txns + {h}
    ensures var l1 := l.(txns := limited, everTxns := l.everTxns[h := 0],
                         peerTxns := l.peerTxns + {h}, askedTxns := l.askedTxns + {h});
            Recorded(l0, l1) && NoneDropped(l0, l1, count + 1)
  {
    GrowsBy(l0.txns, l.askedTxns, h);
  }

  method RequestOne(ghost l0: Ledger, l1: Ledger, iv: Inv, ghost count: nat) returns (l: Ledger, requested: bool)
    requires Recorded(l0, l1) && NoneDropped(l0, l1, count)
    ensures Recorded(l0, l) && NoneDropped(l0, l, if requested then count + 1 else count)
    ensures l.asked == if iv.kind.BlockInv? && iv.hash !in l1.blocks then l1.asked + {iv.hash} else l1.asked
    ensures l.askedTxns == if iv.kind.TxInv? && iv.hash !in l1.txns then l1.askedTxns + {iv.hash} else l1.askedTxns
  {
    l, requested := l1, false;
    if iv.kind.BlockInv? && iv.hash !in l.blocks {
      var limited := LimitMap(l.blocks + {iv.hash}, MAX_REQUESTED_BLOCKS);
      BlockAsked(l0, l, count, iv.hash, limited);
      l := l.(blocks := limited, everBlocks := l.everBlocks[iv.hash := 0],
              peerBlocks := l.peerBlocks + {iv.hash}, asked := l.asked + {iv.hash});
      requested := true;
    } else if iv.kind.TxInv? && iv.hash !in l.txns {
      var limited := LimitMap(l.txns + {iv.hash}, MAX_REQUESTED_TXNS);
      TxAsked(l0, l, count, iv.hash, limited);
      l := l.(txns := limited, everTxns := l.everTxns[iv.hash := 0],
              peerTxns := l.peerTxns + {iv.hash}, askedTxns := l.askedTxns + {iv.hash});
      requested := true;
    }
  }

  lemma GrowsBy(s: set<Hash>, t: set<Hash>, h: Hash)
    ensures |t + {h}| <= |t| + 1 && (h !in t ==> |t + {h}| == |t| + 1)
    ensures |s + t| <= |s + (t + {h})| && s + (t + {h}) == s + t + {h}
  {
    assert s + (t + {h}) == s + t + {h};
    Subset(s + t, s + t + {h});
  }

  lemma AsksNext(l0: Ledger, queue: seq<Inv>, n: nat, l1: Ledger, l: Ledger)
    requires n < |queue| && Recorded(l0, l1) && Asks(l0, queue[..n], l1)
    requires var iv := queue[n];
             && l.asked == (if iv.kind.BlockInv? && iv.hash !in l1.blocks then l1.asked + {iv.hash} else l1.asked)
             && l.askedTxns == if iv.kind.TxInv? && iv.hash !in l1.txns then l1.askedTxns + {iv.hash} else l1.askedTxns
    ensures Asks(l0, queue[..n + 1], l)
  {
    assert queue[..n + 1] == queue[..n] + [queue[n]];
  }

  // Working through the queue has come to the n-th item.
  ghost predicate Working(l0: Ledger, queue: seq<Inv>, n: nat, l: Ledger, numRequested: nat) {
    && n <= |queue| && Recorded(l0, l) && Asks(l0, queue[..n], l)
    && NoneDropped(l0, l, numRequested) && numRequested <= n && numRequested <= MAX_INV_PER_MSG
  }

  method RequestNext(ghost l0: Ledger, queue: seq<Inv>, n: nat, l1: Ledger, ghost numRequested: nat)
    returns (l: Ledger, requested: bool)
    requires Working(l0, queue, n, l1, numRequested) && n < |queue| && numRequested < MAX_INV_PER_MSG
    ensures Working(l0, queue, n + 1, l, if requested then numRequested + 1 else numRequested)
  {
    l, requested := RequestOne(l0, l1, queue[n], numRequested);
    AsksNext(l0, queue, n, l1, l);
  }

  lemma WorkedThrough(l0: Ledger, queue: seq<Inv>, n: nat, l: Ledger, numRequested: nat)
    requires Working(l0, queue, n, l, numRequested) && (n < |queue| ==> numRequested == MAX_INV_PER_MSG)
    ensures Requested(l0, queue, n, l)
  {
  }

  // The first n items of the queue have been worked through: all of them, or as
  // many as fill one message.
  ghost predicate Requested(l0: Ledger, queue: seq<Inv>, n: nat, l: Ledger) {
    && n <= |queue| && Recorded(l0, l) && Asks(l0, queue[..n], l)
    && |l.asked| + |l.askedTxns| <= MAX_INV_PER_MSG
    && (n < |queue| ==> n >= MAX_INV_PER_MSG)
    && (HasRoom(l0, l) ==> && l.blocks == l0.blocks + l.asked && l.txns == l0.txns + l.askedTxns
                           && (n < |queue| ==> |l.asked| + |l.askedTxns| == MAX_INV_PER_MSG))
  }

  // Work through the queue, for as many items as one message may ask for.
  method RequestQueued(l0: Ledger, queue: seq<Inv>) returns (l: Ledger, rest: seq<Inv>, n: nat)
    requires l0.asked == {} && l0.askedTxns == {}
    ensures Requested(l0, queue, n, l) && rest == queue[n..]
  {
    l, n := l0, 0;
    var numRequested := 0;
    while n < |queue| && numRequested < MAX_INV_PER_MSG
      invariant Working(l0, queue, n, l, numRequested)
    {
      var requested;
      l, requested := RequestNext(l0, queue, n, l, numRequested);
      n := n + 1;
      if requested {
        numRequested := numRequested + 1;
      }
    }
    WorkedThrough(l0, queue, n, l, numRequested);
    rest := queue[n..];
  }

  // Items announced that are unknown and not rejected.
  predicate Lacking(iv: Inv, have: Inv -> Option<bool>, rejected: set<Hash>) {
    !iv.kind.OtherInv? && have(iv) == Some(false) && !(iv.kind.TxInv? && iv.hash in rejected)
  }

  function AllLacking(invs: seq<Inv>, have: Inv -> Option<bool>, rejected: set<Hash>): (r: seq<Inv>)
    ensures forall iv :: iv in r <==>
              iv in invs && have(iv) == Some(false) && (iv.kind.BlockInv? || (iv.kind.TxInv? && iv.hash !in rejected))
  {
    if invs == [] then []
    else
      var n := |invs| - 1;
      AllLacking(invs[..n], have, rejected) + if Lacking(invs[n], have, rejected) then [invs[n]] else []
  }

  method Enlist(queue0: seq<Inv>, invs: seq<Inv>, have: Inv -> Option<bool>, rejected: set<Hash>)
    returns (queue: seq<Inv>)
    ensures queue == queue0 + AllLacking(invs, have, rejected)
  {
    queue := queue0;
    for i := 0 to |invs|
      invariant queue == queue0 + AllLacking(invs[..i], have, rejected)
    {
      assert invs[..i + 1][..i] == invs[..i] && invs[..i + 1][i] == invs[i];
      if Lacking(invs[i], have, rejected) {
        queue := queue + [invs[i]];
      }
    }
    assert invs[..|invs|] == invs;
  }

  // What a caller wants that is neither requested nor known to be had.
  function Sought(hs: seq<Hash>, requested: set<Hash>, peers: set<Hash>, have: Hash -> Option<bool>): set<Hash> {
    set h | h in hs && h !in requested && h !in peers && have(h) != Some(true)
  }

  // The ledger with these blocks and transactions asked for.
  function WithAsked(l: Ledger, blocks: set<Hash>, txns: set<Hash>): Ledger {
    Ledger(l.blocks + blocks, l.txns + txns, l.everBlocks + (map h | h in blocks :: 0),
           l.everTxns + (map h | h in txns :: 0), l.peerBlocks + blocks, l.peerTxns + txns, blocks, txns)
  }

  // The first n of a caller's hashes have been gone through, and the next one, if
  // there is one, cannot be looked up or does not fit into the message.
  ghost predicate GoneThrough(hs: seq<Hash>, requested: set<Hash>, peers: set<Hash>, have: Hash -> Option<bool>,
                              count0: nat, n: nat, count: nat) {
    && n <= |hs| && count == count0 + |Sought(hs[..n], requested, peers, have)| <= MAX_INV_PER_MSG
    && (forall h :: h in Sought(hs[..n], requested, peers, have) ==> have(h).Some?)
    && (n < |hs| ==>
          && hs[n] in Sought(hs, requested, peers, have) && hs[n] !in hs[..n]
          && (have(hs[n]).None? || count == MAX_INV_PER_MSG))
  }

  lemma SoughtNext(hs: seq<Hash>, requested: set<Hash>, peers: set<Hash>, have: Hash -> Option<bool>, n: nat)
    requires n < |hs|
    ensures Sought(hs[..n + 1], requested, peers, have) ==
            Sought(hs[..n], requested, peers, have) + Sought([hs[n]], requested, peers, have)
    ensures Sought(hs[..n], requested, peers, have) <= Sought(hs, requested, peers, have)
    ensures hs[n] in hs[..n] ==>
              Sought(hs[..n + 1], requested, peers, have) == Sought(hs[..n], requested, peers, have)
  {
    assert hs[..n + 1] == hs[..n] + [hs[n]];
  }

  // All of them are gone through if and only if all that are sought can be looked
  // up and fit.
  lemma ThroughExactly(hs: seq<Hash>, requested: set<Hash>, peers: set<Hash>, have: Hash -> Option<bool>,
                       count0: nat, n: nat, count: nat)
    requires GoneThrough(hs, requested, peers, have, count0, n, count)
    ensures n == |hs| <==>
            && (forall h :: h in Sought(hs, requested, peers, have) ==> have(h).Some?)
            && count0 + |Sought(hs, requested, peers, have)| <= MAX_INV_PER_MSG
    ensures n == |hs| ==> count == count0 + |Sought(hs, requested, peers, have)|
  {
    var all, some := Sought(hs, requested, peers, have), Sought(hs[..n], requested, peers, have);
    if n == |hs| {
      assert hs[..n] == hs;
    } else {
      SoughtNext(hs, requested, peers, have, n);
      assert some + {hs[n]} <= all;
      Subset(some + {hs[n]}, all);
    }
  }

  lemma {:induction false} Subset(s: set<Hash>, t: set<Hash>)
    requires s <= t
    ensures |s| <= |t|
  {
    if s != {} {
      var h :| h in s;
      Subset(s - {h}, t - {h});
    }
  }

  // h is sought and not asked for yet.
  predicate IsSought(h: Hash, requested: set<Hash>, peers: set<Hash>, have: Hash -> Option<bool>) {
    h !in peers && h !in requested && have(h) != Some(true)
  }

  // Going through them has come to the n-th.
  ghost predicate Seeking(hs: seq<Hash>, requested: set<Hash>, peers: set<Hash>, have: Hash -> Option<bool>,
                          count0: nat, n: nat, asked: set<Hash>, count: nat) {
    && n <= |hs| && asked == Sought(hs[..n], requested, peers, have)
    && count == count0 + |asked| <= MAX_INV_PER_MSG
    && forall h :: h in asked ==> have(h).Some?
  }

  lemma SeekingNext(hs: seq<Hash>, requested: set<Hash>, peers: set<Hash>, have: Hash -> Option<bool>,
                    count0: nat, n: nat, asked: set<Hash>, count: nat)
    requires Seeking(hs, requested, peers, have, count0, n, asked, count) && n < |hs|
    ensures !IsSought(hs[n], requested + asked, peers + asked, have) ==>
              Seeking(hs, requested, peers, have, count0, n + 1, asked, count)
    ensures IsSought(hs[n], requested + asked, peers + asked, have) && have(hs[n]).Some? && count < MAX_INV_PER_MSG ==>
              Seeking(hs, requested, peers, have, count0, n + 1, asked + {hs[n]}, count + 1)
  {
    var h := hs[n];
    SoughtNext(hs, requested, peers, have, n);
    assert Sought([h], requested, peers, have) == if IsSought(h, requested, peers, have) then {h} else {};
    assert h in asked ==> asked + {h} == asked;
    assert asked + {} == asked;
  }

  lemma SeekingStops(hs: seq<Hash>, requested: set<Hash>, peers: set<Hash>, have: Hash -> Option<bool>,
                     count0: nat, n: nat, asked: set<Hash>, count: nat)
    requires Seeking(hs, requested, peers, have, count0, n, asked, count)
    requires n < |hs| ==> && IsSought(hs[n], requested + asked, peers + asked, have)
                          && (have(hs[n]).None? || count >= MAX_INV_PER_MSG)
    ensures GoneThrough(hs, requested, peers, have, count0, n, count)
  {
    if n < |hs| {
      var h := hs[n];
      assert h in hs[..n] ==> h in asked;
    }
  }

  // Go through the blocks, or the transactions, that an outside caller wants from
  // a peer, until a lookup fails or the message is full.
  method Seek(hs: seq<Hash>, requested: set<Hash>, peers: set<Hash>, have: Hash -> Option<bool>, count0: nat)
    returns (asked: set<Hash>, count: nat, n: nat)
    requires count0 <= MAX_INV_PER_MSG
    ensures GoneThrough(hs, requested, peers, have, count0, n, count)
    ensures asked == Sought(hs[..n], requested, peers, have)
  {
    asked, count, n := {}, count0, 0;
    while n < |hs|
      invariant Seeking(hs, requested, peers, have, count0, n, asked, count)
    {
      SeekingNext(hs, requested, peers, have, count0, n, asked, count);
      if IsSought(hs[n], requested + asked, peers + asked, have) {
        if have(hs[n]).None? || count >= MAX_INV_PER_MSG {
          SeekingStops(hs, requested, peers, have, count0, n, asked, count);
          return;
        }
        asked, count := asked + {hs[n]}, count + 1;
      }
      n := n + 1;
    }
    SeekingStops(hs, requested, peers, have, count0, n, asked, count);
  }

  // What is asked for: the blocks gone through, and the transactions once all the
  // blocks have been.
  ghost predicate Sent(l0: Ledger, blocks: seq<Hash>, txs: seq<Hash>, haveBlock: Hash -> Option<bool>,
                       haveTx: Hash -> Option<bool>, n: nat, m: nat, l: Ledger) {
    && n <= |blocks| && m <= |txs| && (m > 0 ==> n == |blocks|)
    && var bs := Sought(blocks[..n], l0.blocks, l0.peerBlocks, haveBlock);
       var ts := Sought(txs[..m], l0.txns, l0.peerTxns, haveTx);
       && Recorded(l0, l) && l.blocks == l0.blocks + l.asked && l.txns == l0.txns + l.askedTxns
       && (forall h :: h in l.asked <==>
             h in blocks[..n] && h !in l0.blocks && h !in l0.peerBlocks && haveBlock(h) != Some(true))
       && (forall h :: h in l.askedTxns <==>
             h in txs[..m] && h !in l0.txns && h !in l0.peerTxns && haveTx(h) != Some(true))
       && GoneThrough(blocks, l0.blocks, l0.peerBlocks, haveBlock, 0, n, |bs|)
       && (n == |blocks| ==> GoneThrough(txs, l0.txns, l0.peerTxns, haveTx, |bs|, m, |bs| + |ts|))
  }

  lemma AskedRecorded(l0: Ledger, bs: set<Hash>, ts: set<Hash>)
    ensures var l := WithAsked(l0, bs, ts);
            Recorded(l0, l) && l.blocks == l0.blocks + bs && l.txns == l0.txns + ts && l.asked == bs && l.askedTxns == ts
  {
  }

  lemma AskedSent(l0: Ledger, blocks: seq<Hash>, txs: seq<Hash>, haveBlock: Hash -> Option<bool>,
                  haveTx: Hash -> Option<bool>, n: nat, m: nat, bs: set<Hash>, ts: set<Hash>)
    requires n <= |blocks| && m <= |txs| && (m > 0 ==> n == |blocks|)
    requires bs == Sought(blocks[..n], l0.blocks, l0.peerBlocks, haveBlock)
    requires ts == Sought(txs[..m], l0.txns, l0.peerTxns, haveTx)
    requires GoneThrough(blocks, l0.blocks, l0.peerBlocks, haveBlock, 0, n, |bs|)
    requires n == |blocks| ==> GoneThrough(txs, l0.txns, l0.peerTxns, haveTx, |bs|, m, |bs| + |ts|)
    ensures Sent(l0, blocks, txs, haveBlock, haveTx, n, m, WithAsked(l0, bs, ts))
  {
    AskedRecorded(l0, bs, ts);
  }

  // Everything sought can be looked up and fits into one message.
  ghost predicate Fits(l0: Ledger, blocks: seq<Hash>, txs: seq<Hash>, haveBlock: Hash -> Option<bool>,
                       haveTx: Hash -> Option<bool>) {
    var bs, ts := Sought(blocks, l0.blocks, l0.peerBlocks, haveBlock), Sought(txs, l0.txns, l0.peerTxns, haveTx);
    && (forall h :: h in bs ==> haveBlock(h).Some?) && (forall h :: h in ts ==> haveTx(h).Some?)
    && |bs| + |ts| <= MAX_INV_PER_MSG
  }

  // A block that stops the search is one too many or cannot be looked up.
  lemma BlocksStop(l0: Ledger, blocks: seq<Hash>, txs: seq<Hash>, haveBlock: Hash -> Option<bool>,
                   haveTx: Hash -> Option<bool>, n: nat, count: nat)
    requires GoneThrough(blocks, l0.blocks, l0.peerBlocks, haveBlock, 0, n, count) && n < |blocks|
    ensures !Fits(l0, blocks, txs, haveBlock, haveTx)
  {
    ThroughExactly(blocks, l0.blocks, l0.peerBlocks, haveBlock, 0, n, count);
  }

  lemma TxnsStop(l0: Ledger, blocks: seq<Hash>, txs: seq<Hash>, haveBlock: Hash -> Option<bool>,
                 haveTx: Hash -> Option<bool>, count: nat, m: nat, total: nat)
    requires GoneThrough(blocks, l0.blocks, l0.peerBlocks, haveBlock, 0, |blocks|, count)
    requires GoneThrough(txs, l0.txns, l0.peerTxns, haveTx, count, m, total)
    ensures Fits(l0, blocks, txs, haveBlock, haveTx) <==> m == |txs|
  {
    ThroughExactly(blocks, l0.blocks, l0.peerBlocks, haveBlock, 0, |blocks|, count);
    ThroughExactly(txs, l0.txns, l0.peerTxns, haveTx, count, m, total);
  }

  method RequestBoth(l0: Ledger, blocks: seq<Hash>, txs: seq<Hash>,
                     haveBlock: Hash -> Option<bool>, haveTx: Hash -> Option<bool>)
    returns (ok: bool, l: Ledger, ghost n: nat, ghost m: nat)
    ensures Sent(l0, blocks, txs, haveBlock, haveTx, n, m, l)
    ensures ok <==> Fits(l0, blocks, txs, haveBlock, haveTx)
    ensures ok ==> n == |blocks| && m == |txs|
  {
    var asked, count, seen := Seek(blocks, l0.blocks, l0.peerBlocks, haveBlock, 0);
    n, m := seen, 0;
    if seen < |blocks| {
      BlocksStop(l0, blocks, txs, haveBlock, haveTx, seen, count);
      AskedSent(l0, blocks, txs, haveBlock, haveTx, seen, 0, asked, {});
      return false, WithAsked(l0, asked, {}), seen, 0;
    }
    var askedTxns, total, through := Seek(txs, l0.txns, l0.peerTxns, haveTx, count);
    TxnsStop(l0, blocks, txs, haveBlock, haveTx, count, through, total);
    AskedSent(l0, blocks, txs, haveBlock, haveTx, seen, through, asked, askedTxns);
    ok, l, m := through == |txs|, WithAsked(l0, asked, askedTxns), through;
  }

  // ------------------------------------------------------------------- peers

  type PeerId = nat

  datatype PeerRecord = PeerRecord(blocks: set<Hash>, txns: set<Hash>, queue: seq<Inv>,
                                   lastBlock: int, lastKeyBlock: int, fullNode: bool)

  // The connected peers.
  type Peers = map<PeerId, PeerRecord>

  // Not behind the best block known.
  predicate Ahead(r: PeerRecord, best: Best) {
    !(r.lastKeyBlock < best.keyHeight || (r.lastKeyBlock == best.keyHeight && r.lastBlock < best.height))
  }

  // The same, the other way round.
  ghost predicate NotBehind(r: PeerRecord, best: Best) {
    r.lastKeyBlock > best.keyHeight || (r.lastKeyBlock == best.keyHeight && r.lastBlock >= best.height)
  }

  ghost predicate Held(peers: Peers, h: Hash) {
    exists p :: p in peers && h in peers[p].blocks
  }

  ghost predicate HeldTx(peers: Peers, h: Hash) {
    exists p :: p in peers && h in peers[p].txns
  }

  // No request is orphaned: whatever is on record as requested is requested from
  // a connected peer.
  ghost predicate NoneOrphaned(blocks: set<Hash>, txns: set<Hash>, peers: Peers) {
    (forall h :: h in blocks ==> Held(peers, h)) && (forall h :: h in txns ==> HeldTx(peers, h))
  }

  // The blocks a peer was sent a request for and has not delivered since.
  type Debts = map<PeerId, set<Hash>>

  // What a peer owes is on its record, and was requested at some time.
  ghost predicate DebtsOk(peers: Peers, owed: Debts, ever: map<Hash, nat>) {
    && owed.Keys == peers.Keys
    && forall p :: p in peers ==> owed[p] <= peers[p].blocks <= ever.Keys
  }

  ghost predicate Owed(owed: Debts, h: Hash) {
    exists p :: p in owed && h in owed[p]
  }

  // Every block on record is owed by a connected peer, but for those that were
  // recorded for a message that did not go out.
  ghost predicate AllOwed(blocks: set<Hash>, owed: Debts, unsent: set<Hash>) {
    forall h :: h in blocks ==> h in unsent || Owed(owed, h)
  }

  // A peer's record with other requests.
  function Noted(peers: Peers, p: PeerId, blocks: set<Hash>, txns: set<Hash>): Peers
    requires p in peers
  {
    peers[p := peers[p].(blocks := blocks, txns := txns)]
  }

  // Requests that one peer delivers go from its record and from the manager's.
  lemma DeliveredHeld(blocks: set<Hash>, txns: set<Hash>, peers: Peers, p: PeerId, bs: set<Hash>, ts: set<Hash>)
    requires NoneOrphaned(blocks, txns, peers) && p in peers
    ensures NoneOrphaned(blocks - bs, txns - ts, Noted(peers, p, peers[p].blocks - bs, peers[p].txns - ts))
  {
    var peers1 := Noted(peers, p, peers[p].blocks - bs, peers[p].txns - ts);
    forall h | h in blocks - bs ensures Held(peers1, h) {
      assert Held(peers, h);
      var q :| q in peers && h in peers[q].blocks;
      assert h in peers1[q].blocks;
    }
    forall h | h in txns - ts ensures HeldTx(peers1, h) {
      assert HeldTx(peers, h);
      var q :| q in peers && h in peers[q].txns;
      assert h in peers1[q].txns;
    }
  }

  // Requests that one peer has on record may be added to the manager's.
  lemma RequestedHeld(l0: Ledger, l: Ledger, peers: Peers, p: PeerId)
    requires NoneOrphaned(l0.blocks, l0.txns, peers) && p in peers && Recorded(l0, l)
    requires l0.peerBlocks == peers[p].blocks && l0.peerTxns == peers[p].txns
    ensures NoneOrphaned(l.blocks, l.txns, Noted(peers, p, l.peerBlocks, l.peerTxns))
  {
    var peers1 := Noted(peers, p, l.peerBlocks, l.peerTxns);
    forall h | h in l.blocks ensures Held(peers1, h) {
      if h in l.peerBlocks {
        assert h in peers1[p].blocks;
      } else {
        assert Held(peers, h);
        var q :| q in peers && h in peers[q].blocks;
        assert h in peers1[q].blocks;
      }
    }
    forall h | h in l.txns ensures HeldTx(peers1, h) {
      if h in l.peerTxns {
        assert h in peers1[p].txns;
      } else {
        assert HeldTx(peers, h);
        var q :| q in peers && h in peers[q].txns;
        assert h in peers1[q].txns;
      }
    }
  }

  // A peer that leaves takes its requests with it.
  lemma GoneHeld(blocks: set<Hash>, txns: set<Hash>, peers: Peers, p: PeerId)
    requires NoneOrphaned(blocks, txns, peers) && p in peers
    ensures NoneOrphaned(blocks - peers[p].blocks, txns - peers[p].txns, peers - {p})
  {
    forall h | h in blocks - peers[p].blocks ensures Held(peers - {p}, h) {
      assert Held(peers, h);
      var q :| q in peers && h in peers[q].blocks;
      assert q in peers - {p};
    }
    forall h | h in txns - peers[p].txns ensures HeldTx(peers - {p}, h) {
      assert HeldTx(peers, h);
      var q :| q in peers && h in peers[q].txns;
      assert q in peers - {p};
    }
  }

  lemma JoinedHeld(blocks: set<Hash>, txns: set<Hash>, peers: Peers, p: PeerId, r: PeerRecord)
    requires NoneOrphaned(blocks, txns, peers) && p !in peers
    ensures NoneOrphaned(blocks, txns, peers[p := r])
  {
    forall h | h in blocks ensures Held(peers[p := r], h) {
      assert Held(peers, h);
      var q :| q in peers && h in peers[q].blocks;
      assert h in peers[p := r][q].blocks;
    }
    forall h | h in txns ensures HeldTx(peers[p := r], h) {
      assert HeldTx(peers, h);
      var q :| q in peers && h in peers[q].txns;
      assert h in peers[p := r][q].txns;
    }
  }

  ghost predicate CandidatesOk(candidates: seq<PeerId>, peers: Peers) {
    && (forall p :: p in candidates ==> p in peers)
    && (forall i, j :: 0 <= i < j < |candidates| ==> candidates[i] != candidates[j])
  }

  // p is the last of the candidates that is not behind.
  ghost predicate LastAhead(candidates: seq<PeerId>, peers: Peers, best: Best, p: PeerId) {
    exists i :: 0 <= i < |candidates| && LastAheadAt(candidates, peers, best, p, i)
  }

  ghost predicate LastAheadAt(candidates: seq<PeerId>, peers: Peers, best: Best, p: PeerId, i: nat)
    requires i < |candidates|
  {
    && candidates[i] == p && p in peers && NotBehind(peers[p], best)
    && forall j :: i < j < |candidates| ==> candidates[j] !in peers || !NotBehind(peers[candidates[j]], best)
  }

  lemma LastAheadNext(candidates: seq<PeerId>, peers: Peers, best: Best, p: PeerId)
    requires candidates != []
    ensures var n := |candidates| - 1;
            var c := candidates[n];
            if c in peers && NotBehind(peers[c], best) then LastAhead(candidates, peers, best, c)
            else LastAhead(candidates[..n], peers, best, p) ==> LastAhead(candidates, peers, best, p)
  {
    var n := |candidates| - 1;
    var c := candidates[n];
    if c in peers && NotBehind(peers[c], best) {
      assert LastAheadAt(candidates, peers, best, c, n);
    } else if LastAhead(candidates[..n], peers, best, p) {
      var i :| 0 <= i < n && LastAheadAt(candidates[..n], peers, best, p, i);
      forall j | i < j < |candidates| ensures candidates[j] !in peers || !NotBehind(peers[candidates[j]], best) {
        assert j < n ==> candidates[..n][j] == candidates[j];
      }
      assert LastAheadAt(candidates, peers, best, p, i);
    }
  }

  // The candidates that are not behind.
  function Screened(candidates: seq<PeerId>, peers: Peers, best: Best): (r: seq<PeerId>)
    ensures forall p :: p in r <==> p in candidates && p in peers && NotBehind(peers[p], best)
    ensures r != [] ==> LastAhead(candidates, peers, best, r[|r| - 1])
  {
    if candidates == [] then []
    else
      var n := |candidates| - 1;
      var r := Screened(candidates[..n], peers, best);
      LastAheadNext(candidates, peers, best, if r == [] then 0 else r[|r| - 1]);
      r + if candidates[n] in peers && Ahead(peers[candidates[n]], best) then [candidates[n]] else []
  }

  lemma {:induction false} ScreenedOk(candidates: seq<PeerId>, peers: Peers, best: Best)
    requires CandidatesOk(candidates, peers)
    ensures CandidatesOk(Screened(candidates, peers, best), peers)
  {
    if candidates != [] {
      ScreenedOk(candidates[..|candidates| - 1], peers, best);
      assert candidates[|candidates| - 1] !in candidates[..|candidates| - 1];
    }
  }

  // Drop the candidates that are behind; the last of the others is the best.
  method Screen(candidates: seq<PeerId>, peers: Peers, best: Best) returns (kept: seq<PeerId>, bestPeer: Option<PeerId>)
    requires CandidatesOk(candidates, peers)
    ensures CandidatesOk(kept, peers) && kept == Screened(candidates, peers, best)
    ensures bestPeer == if |kept| == 0 then None else Some(kept[|kept| - 1])
  {
    kept, bestPeer := [], None;
    for i := 0 to |candidates|
      invariant kept == Screened(candidates[..i], peers, best)
      invariant bestPeer == if |kept| == 0 then None else Some(kept[|kept| - 1])
    {
      assert candidates[..i + 1][..i] == candidates[..i];
      if Ahead(peers[candidates[i]], best) {
        kept := kept + [candidates[i]];
        bestPeer := Some(candidates[i]);
      }
    }
    assert candidates[..|candidates|] == candidates;
    ScreenedOk(candidates, peers, best);
  }

  // The candidates without p.
  ghost predicate Struck(candidates: seq<PeerId>, p: PeerId, rest: seq<PeerId>) {
    if p !in candidates then rest == candidates
    else exists i :: 0 <= i < |candidates| && candidates[i] == p && rest == candidates[..i] + candidates[i + 1..]
  }

  method RemoveCandidate(candidates: seq<PeerId>, peers: Peers, p: PeerId) returns (rest: seq<PeerId>)
    requires CandidatesOk(candidates, peers)
    ensures CandidatesOk(rest, peers - {p}) && Struck(candidates, p, rest)
    ensures forall q :: q in rest <==> q in candidates && q != p
  {
    for i := 0 to |candidates|
      invariant p !in candidates[..i]
    {
      assert candidates[..i + 1] == candidates[..i] + [candidates[i]];
      if candidates[i] == p {
        assert candidates == candidates[..i] + [p] + candidates[i + 1..];
        return candidates[..i] + candidates[i + 1..];
      }
    }
    assert candidates[..|candidates|] == candidates;
    rest := candidates;
  }

  // ------------------------------------------------------------- the manager

  // The fields of the block manager that the handlers update.
  datatype State = State(
    requestedBlocks: set<Hash>, requestedTxns: set<Hash>,
    everBlocks: map<Hash, nat>, everTxns: map<Hash, nat>, rejectedTxns: set<Hash>,
    peers: Peers, candidates: seq<PeerId>, syncPeer: Option<PeerId>,
    headersFirst: bool, headerList: seq<HeaderNode>, startHeader: Cursor, nextCheckpoint: Option<Checkpoint>)

  // What is only needed to say what the handlers keep: what each peer owes, what
  // was recorded and not sent, the previous hashes that the listed headers name,
  // and the checkpoints aimed at.
  datatype Trace = Trace(owed: Debts, unsent: set<Hash>, prevs: seq<Hash>, past: seq<Checkpoint>)

  ghost predicate RequestsOk(s: State, t: Trace) {
    && NoneOrphaned(s.requestedBlocks, s.requestedTxns, s.peers) && DebtsOk(s.peers, t.owed, s.everBlocks)
    && AllOwed(s.requestedBlocks, t.owed, t.unsent)
  }

  // In headers-first mode there is a checkpoint ahead and a connected peer to
  // sync from.
  ghost predicate SyncOk(s: State) {
    && CandidatesOk(s.candidates, s.peers)
    && (s.syncPeer.Some? ==> s.syncPeer.value in s.peers)
    && (s.headersFirst ==> s.nextCheckpoint.Some? && s.syncPeer.Some?)
    && |s.rejectedTxns| < MAX_REJECTED_TXNS
  }

  ghost predicate HeadersOk(s: State, t: Trace) {
    Linked(s.headerList, t.prevs) && InList(s.headerList, s.startHeader)
  }

  // The checkpoints aimed at follow each other with none left out.
  ghost predicate CheckpointsOk(cs: seq<Checkpoint>, s: State, t: Trace) {
    && Successive(cs, t.past)
    && (s.nextCheckpoint.Some? ==> t.past != [] && t.past[|t.past| - 1] == s.nextCheckpoint.value)
  }

  ghost predicate StateOk(cs: seq<Checkpoint>, s: State, t: Trace) {
    RequestsOk(s, t) && SyncOk(s) && HeadersOk(s, t) && CheckpointsOk(cs, s, t)
  }

  datatype BlockFate = Unrequested | Refused | Processed
  datatype HeadersFate = NotAsked | NoHeaders | Broken | Fetching | Asking

  // Some candidate is not behind.
  ghost predicate AnyAhead(candidates: seq<PeerId>, peers: Peers, best: Best) {
    exists p :: p in candidates && p in peers && NotBehind(peers[p], best)
  }

  // The state once a peer to sync from has been looked for.
  function SyncStarted(s: State, best: Best, locatorOk: bool, pushOk: bool): State {
    if s.syncPeer.Some? then s
    else
      var kept := Screened(s.candidates, s.peers, best);
      if kept == [] then s.(candidates := [])
      else if !locatorOk || !pushOk then s.(candidates := kept, requestedBlocks := {})
      else
        s.(candidates := kept, requestedBlocks := {}, syncPeer := Some(kept[|kept| - 1]),
           headersFirst := s.nextCheckpoint.Some? && best.height < s.nextCheckpoint.value.height)
  }

  // What looking for a sync peer does, written out: nothing if there is one;
  // otherwise the candidates that are behind go, and if any are left the record of
  // requested blocks is cleared and the last of them becomes the sync peer, if it
  // can be sent the request; headers come first below the next checkpoint.
  ghost predicate SyncSet(s: State, best: Best, canSend: bool, s1: State) {
    if s.syncPeer.Some? then s1 == s
    else
      && s1 == s.(candidates := s1.candidates, requestedBlocks := s1.requestedBlocks, syncPeer := s1.syncPeer,
                  headersFirst := s1.headersFirst)
      && (forall p :: p in s1.candidates <==> p in s.candidates && p in s.peers && NotBehind(s.peers[p], best))
      && var any := AnyAhead(s.candidates, s.peers, best);
         && s1.requestedBlocks == (if any then {} else s.requestedBlocks)
         && (if any && canSend then
               && s1.syncPeer.Some? && LastAhead(s.candidates, s.peers, best, s1.syncPeer.value)
               && s1.headersFirst == (s.nextCheckpoint.Some? && best.height < s.nextCheckpoint.value.height)
             else s1.syncPeer.None? && s1.headersFirst == s.headersFirst)
  }

  lemma SyncPeerFound(s: State, best: Best, locatorOk: bool, pushOk: bool)
    ensures SyncSet(s, best, locatorOk && pushOk, SyncStarted(s, best, locatorOk, pushOk))
  {
    var kept := Screened(s.candidates, s.peers, best);
    assert kept != [] <==> AnyAhead(s.candidates, s.peers, best) by {
      assert kept != [] ==> kept[0] in kept;
    }
  }

  // Pick a peer to sync from unless there is one.
  method StartSync(s0: State, best: Best, locatorOk: bool, pushOk: bool) returns (s: State)
    requires SyncOk(s0)
    ensures SyncOk(s) && s == SyncStarted(s0, best, locatorOk, pushOk)
    ensures SyncSet(s0, best, locatorOk && pushOk, s)
  {
    SyncPeerFound(s0, best, locatorOk, pushOk);
    if s0.syncPeer.Some? {
      return s0;
    }
    var kept, bestPeer := Screen(s0.candidates, s0.peers, best);
    s := s0.(candidates := kept);
    if bestPeer.Some? {
      assert bestPeer.value in kept;
      s := s.(requestedBlocks := {});
      if !locatorOk || !pushOk {
        return;
      }
      s := s.(syncPeer := bestPeer,
              headersFirst := s.nextCheckpoint.Some? && best.height < s.nextCheckpoint.value.height);
    }
  }

  // Forget the headers; start over from the best block if there is a checkpoint
  // to reach.
  function ResetHeaderState(s: State, best: Best): State {
    s.(headersFirst := false, startHeader := NoHeader,
       headerList := if s.nextCheckpoint.Some? then [HeaderNode(best.height, best.hash)] else [])
  }

  lemma FewerHeld(blocks: set<Hash>, fewer: set<Hash>, txns: set<Hash>, peers: Peers)
    requires NoneOrphaned(blocks, txns, peers) && fewer <= blocks
    ensures NoneOrphaned(fewer, txns, peers)
  {
  }

  // What one peer has been asked for is recorded with it and with the manager.
  function LedgerOf(s: State, p: PeerId): Ledger
    requires p in s.peers
  {
    Ledger(s.requestedBlocks, s.requestedTxns, s.everBlocks, s.everTxns, s.peers[p].blocks, s.peers[p].txns, {}, {})
  }

  function WithLedger(s: State, p: PeerId, l: Ledger): State
    requires p in s.peers
  {
    s.(requestedBlocks := l.blocks, requestedTxns := l.txns, everBlocks := l.everBlocks, everTxns := l.everTxns,
       peers := Noted(s.peers, p, l.peerBlocks, l.peerTxns))
  }

  // Each peer owes at least what it owed ...
  ghost predicate OwedGrows(owed0: Debts, owed: Debts) {
    forall q :: q in owed0 ==> q in owed && owed0[q] <= owed[q]
  }

  // ... but for what one of them has just delivered.
  ghost function Paid(owed: Debts, p: PeerId, h: Hash): Debts
    requires p in owed
  {
    owed[p := owed[p] - {h}]
  }

  // A message that goes out is owed an answer.
  ghost function Asked(t: Trace, p: PeerId, blocks: set<Hash>, goesOut: bool): Trace
    requires p in t.owed
  {
    if goesOut then t.(owed := t.owed[p := t.owed[p] + blocks]) else t.(unsent := t.unsent + blocks)
  }

  lemma OwedStill(owed: Debts, p: PeerId, blocks: set<Hash>, h: Hash)
    requires p in owed && (Owed(owed, h) || h in blocks)
    ensures Owed(owed[p := owed[p] + blocks], h)
  {
    var owed1 := owed[p := owed[p] + blocks];
    if h in blocks {
      assert h in owed1[p];
    } else {
      var q :| q in owed && h in owed[q];
      assert h in owed1[q];
    }
  }

  lemma AskedOwed(blocks: set<Hash>, t: Trace, p: PeerId, asked: set<Hash>, goesOut: bool, blocks1: set<Hash>)
    requires AllOwed(blocks, t.owed, t.unsent) && p in t.owed && blocks1 <= blocks + asked
    ensures var t1 := Asked(t, p, asked, goesOut); AllOwed(blocks1, t1.owed, t1.unsent)
  {
    forall h | h in blocks1 && h !in t.unsent && goesOut ensures Owed(t.owed[p := t.owed[p] + asked], h) {
      OwedStill(t.owed, p, asked, h);
    }
  }

  // Requests from a peer, in a message that may not go out.
  lemma RequestsKept(s: State, t: Trace, p: PeerId, l: Ledger, goesOut: bool)
    requires RequestsOk(s, t) && p in s.peers && Recorded(LedgerOf(s, p), l)
    ensures RequestsOk(WithLedger(s, p, l), Asked(t, p, l.asked, goesOut))
  {
    RequestedHeld(LedgerOf(s, p), l, s.peers, p);
    AskedOwed(s.requestedBlocks, t, p, l.asked, goesOut, l.blocks);
    var s1, owed1 := WithLedger(s, p, l), Asked(t, p, l.asked, goesOut).owed;
    forall q | q in s1.peers ensures owed1[q] <= s1.peers[q].blocks <= s1.everBlocks.Keys {
      assert t.owed[q] <= s.peers[q].blocks <= s.everBlocks.Keys;
    }
  }

  lemma NotedSync(s: State, p: PeerId, l: Ledger)
    requires SyncOk(s) && p in s.peers
    ensures SyncOk(WithLedger(s, p, l))
  {
  }

  // The other parts of the state do not depend on what peers have on record.
  lemma LedgerKept(cs: seq<Checkpoint>, s: State, t: Trace, p: PeerId, l: Ledger, goesOut: bool)
    requires StateOk(cs, s, t) && p in s.peers && Recorded(LedgerOf(s, p), l)
    ensures var t1 := Asked(t, p, l.asked, goesOut); StateOk(cs, WithLedger(s, p, l), t1) && OwedGrows(t.owed, t1.owed)
  {
    RequestsKept(s, t, p, l, goesOut);
    NotedSync(s, p, l);
  }

  // Nor do they depend on which headers are listed.
  lemma Relisted(cs: seq<Checkpoint>, s: State, t: Trace, list: seq<HeaderNode>, prevs: seq<Hash>, start: Cursor)
    requires StateOk(cs, s, t) && Linked(list, prevs) && InList(list, start)
    ensures StateOk(cs, s.(headerList := list, startHeader := start), t.(prevs := prevs))
  {
  }

  // The sync peer has been asked for the unknown blocks of the first n headers
  // from the cursor on.
  ghost predicate Fetched(s0: State, have: Hash -> Option<bool>, s: State, n: nat) {
    && s0.syncPeer.Some? && s0.syncPeer.value in s0.peers && InList(s0.headerList, s0.startHeader)
    && var p, nodes := s0.syncPeer.value, From(s0.headerList, s0.startHeader);
       StopsAt(nodes, have, n) && Rest(s0.headerList, s0.startHeader, have, n, s.startHeader) &&
       var asked := Unknown(nodes[..n], have);
       s == s0.(requestedBlocks := s0.requestedBlocks + asked,
                everBlocks := s0.everBlocks + map h | h in asked :: 0,
                peers := Noted(s0.peers, p, s0.peers[p].blocks + asked, s0.peers[p].txns),
                startHeader := s.startHeader)
  }

  // Ask the sync peer for the blocks of the headers from the cursor on.
  method FetchHeaderBlocks(cs: seq<Checkpoint>, s0: State, ghost t0: Trace, have: Hash -> Option<bool>)
    returns (s: State, ghost t: Trace, n: nat)
    requires StateOk(cs, s0, t0) && s0.syncPeer.Some?
    ensures StateOk(cs, s, t) && Fetched(s0, have, s, n) && OwedGrows(t0.owed, t.owed)
    ensures t == Asked(t0, s0.syncPeer.value, Unknown(From(s0.headerList, s0.startHeader)[..n], have), true)
  {
    var p := s0.syncPeer.value;
    var asked, start;
    asked, start, n := CollectBlocks(s0.headerList, s0.startHeader, have);
    var l := WithAsked(LedgerOf(s0, p), asked, {});
    assert l.txns == s0.requestedTxns && l.everTxns == s0.everTxns && l.peerTxns == s0.peers[p].txns;
    LedgerKept(cs, s0, t0, p, l, true);
    Relisted(cs, WithLedger(s0, p, l), Asked(t0, p, asked, true), s0.headerList, t0.prevs, start);
    s, t := WithLedger(s0, p, l).(startHeader := start), Asked(t0, p, asked, true);
  }

  // After a fetch, every header from the cursor on whose block is not known has its
  // block on the sync peer's record or is still to be fetched; no known block is
  // asked for, and no more than fit into one message.
  lemma FetchedCovers(s0: State, have: Hash -> Option<bool>, s: State, n: nat, node: HeaderNode)
    requires Fetched(s0, have, s, n) && node in From(s0.headerList, s0.startHeader) && have(node.hash) == Some(false)
    ensures var p := s0.syncPeer.value;
            InList(s.headerList, s.startHeader) && p in s.peers &&
            (node.hash in s.peers[p].blocks || node in From(s.headerList, s.startHeader))
  {
    var nodes := From(s0.headerList, s0.startHeader);
    var k :| 0 <= k < |nodes| && nodes[k] == node;
    var m: nat :| LookedUpTo(nodes, have, n, m) && From(s.headerList, s.startHeader) == nodes[m..];
    if k < n {
      assert nodes[..n][k] == node;
    } else {
      assert nodes[m..][k - m] == node;
    }
  }

  lemma FetchedOnly(s0: State, have: Hash -> Option<bool>, s: State, n: nat)
    requires Fetched(s0, have, s, n)
    ensures var p, nodes := s0.syncPeer.value, From(s0.headerList, s0.startHeader);
            && p in s.peers
            && (forall h :: h in s.peers[p].blocks && h !in s0.peers[p].blocks ==>
                  && h in s.requestedBlocks && have(h) == Some(false)
                  && exists k :: 0 <= k < |nodes| && nodes[k].hash == h)
            && |s.peers[p].blocks - s0.peers[p].blocks| <= 50000
  {
    var p, nodes := s0.syncPeer.value, From(s0.headerList, s0.startHeader);
    var asked := Unknown(nodes[..n], have);
    UnknownSize(nodes[..n], have);
    Subset(s.peers[p].blocks - s0.peers[p].blocks, asked);
    forall h | h in asked ensures have(h) == Some(false) && exists k :: 0 <= k < |nodes| && nodes[k].hash == h {
      var k :| 0 <= k < n && nodes[..n][k].hash == h && have(h) == Some(false);
      assert nodes[k].hash == h;
    }
  }

  lemma {:induction false} UnknownSize(nodes: seq<HeaderNode>, have: Hash -> Option<bool>)
    ensures |Unknown(nodes, have)| <= NumUnknown(nodes, have)
  {
    if nodes == [] {
      assert Unknown(nodes, have) == {};
    } else {
      var n := |nodes| - 1;
      UnknownSize(nodes[..n], have);
      UnknownNext(nodes, n, have);
      assert nodes[..n + 1] == nodes;
    }
  }

  // A block takes its request off the record.
  function Delivered(s: State, p: PeerId, h: Hash): State
    requires p in s.peers
  {
    s.(requestedBlocks := s.requestedBlocks - {h},
       peers := Noted(s.peers, p, s.peers[p].blocks - {h}, s.peers[p].txns))
  }

  lemma DeliveredKept(s: State, t: Trace, p: PeerId, h: Hash)
    requires RequestsOk(s, t) && SyncOk(s) && p in s.peers
    ensures RequestsOk(Delivered(s, p, h), t.(owed := Paid(t.owed, p, h))) && SyncOk(Delivered(s, p, h))
  {
    DeliveredHeld(s.requestedBlocks, s.requestedTxns, s.peers, p, {h}, {});
    assert s.peers[p].txns - {} == s.peers[p].txns && s.requestedTxns - {} == s.requestedTxns;
    forall g | g in s.requestedBlocks - {h} && g !in t.unsent ensures Owed(Paid(t.owed, p, h), g) {
      var q :| q in t.owed && g in t.owed[q];
      assert g in Paid(t.owed, p, h)[q];
    }
  }

  // A block that this peer was asked for, or one that was ever requested and has
  // not been sent in duplicate too often.
  predicate Welcome(s: State, p: PeerId, h: Hash)
    requires p in s.peers
  {
    h in s.peers[p].blocks || (h in s.everBlocks && s.everBlocks[h] <= MAX_RESEND_LIMIT)
  }

  // The block at the front of the header list is the checkpoint's.
  predicate IsCheckpoint(s: State, h: Hash) {
    && s.headersFirst && |s.headerList| > 0 && s.headerList[0].hash == h
    && s.nextCheckpoint.Some? && s.nextCheckpoint.value.hash == h
  }

  // The state once a welcome block is off the record: a duplicate is counted, and
  // the front header goes with its block unless that is the checkpoint's.
  function TakenOff(s: State, p: PeerId, h: Hash): State
    requires p in s.peers && Welcome(s, p, h) && InList(s.headerList, s.startHeader)
  {
    var s1 := if h in s.peers[p].blocks then s else s.(everBlocks := s.everBlocks[h := s.everBlocks[h] + 1]);
    var s2 := if s.headersFirst && |s.headerList| > 0 && s.headerList[0].hash == h && !IsCheckpoint(s, h) then
                s1.(headerList := s.headerList[1..], startHeader := AfterRemoval(s.headerList, s.startHeader))
              else s1;
    Delivered(s2, p, h)
  }

  // The block is the one that the front header announces ...
  ghost predicate InFront(s: State, h: Hash) {
    s.headersFirst && |s.headerList| > 0 && s.headerList[0].hash == h
  }

  // ... and the checkpoint's.
  ghost predicate IsGoal(s: State, h: Hash) {
    InFront(s, h) && s.nextCheckpoint.Some? && s.nextCheckpoint.value.hash == h
  }

  // What a welcome block changes, written out: its request is off both records; it
  // is counted if it was not on the peer's; the header list loses its front if that
  // is the block's and not the checkpoint's, and the cursor moves along with the
  // list unless it was on the front, on which it then stays.
  ghost predicate TakesOff(s: State, p: PeerId, h: Hash, s1: State) {
    && p in s.peers
    && s1 == s.(requestedBlocks := s1.requestedBlocks, peers := s1.peers, everBlocks := s1.everBlocks,
                headerList := s1.headerList, startHeader := s1.startHeader)
    && (forall g :: g in s1.requestedBlocks <==> g in s.requestedBlocks && g != h)
    && s1.peers.Keys == s.peers.Keys && (forall q :: q in s.peers && q != p ==> s1.peers[q] == s.peers[q])
    && s1.peers[p] == s.peers[p].(blocks := s1.peers[p].blocks)
    && (forall g :: g in s1.peers[p].blocks <==> g in s.peers[p].blocks && g != h)
    && s1.everBlocks.Keys == s.everBlocks.Keys
    && (forall g :: g in s.everBlocks ==>
          s1.everBlocks[g] == s.everBlocks[g] + if g == h && h !in s.peers[p].blocks then 1 else 0)
    && if InFront(s, h) && !IsGoal(s, h) then
         && s1.headerList == s.headerList[1..]
         && s1.startHeader == match s.startHeader
                              case At(i) => if i == 0 then Stray(s.headerList[0]) else At(i - 1)
                              case _ => s.startHeader
       else s1.headerList == s.headerList && s1.startHeader == s.startHeader
  }

  lemma TakenOffMeans(s: State, p: PeerId, h: Hash)
    requires p in s.peers && Welcome(s, p, h) && InList(s.headerList, s.startHeader)
    ensures TakesOff(s, p, h, TakenOff(s, p, h))
  {
  }

  // The headers still to fetch are the same when the front is taken off, if and only
  // if the cursor was not on it or there is nothing after it.
  lemma RestKept(list: seq<HeaderNode>, c: Cursor)
    requires |list| > 0 && InList(list, c)
    ensures From(list[1..], AfterRemoval(list, c)) == From(list, c) <==> c != At(0) || |list| == 1
  {
    if c == At(0) {
      assert From(list, c) == list;
    } else if c.At? {
      assert list[1..][c.i - 1..] == list[c.i..];
    }
  }

  // Taking a block off keeps the invariant; the peer owes it no longer, and every
  // other debt stays.
  lemma TakenOffKept(cs: seq<Checkpoint>, s: State, t: Trace, p: PeerId, h: Hash) returns (t': Trace)
    requires StateOk(cs, s, t) && p in s.peers && Welcome(s, p, h)
    ensures StateOk(cs, TakenOff(s, p, h), t') && t' == t.(owed := Paid(t.owed, p, h), prevs := t'.prevs)
    ensures h !in TakenOff(s, p, h).requestedBlocks && h !in TakenOff(s, p, h).peers[p].blocks
  {
    var s1 := if h in s.peers[p].blocks then s else s.(everBlocks := s.everBlocks[h := s.everBlocks[h] + 1]);
    assert StateOk(cs, s1, t);
    t' := t;
    if s.headersFirst && |s.headerList| > 0 && s.headerList[0].hash == h && !IsCheckpoint(s, h) {
      LinkedTail(s.headerList, t.prevs);
      var start := AfterRemoval(s.headerList, s.startHeader);
      Relisted(cs, s1, t, s.headerList[1..], t.prevs[1..], start);
      s1, t' := s1.(headerList := s.headerList[1..], startHeader := start), t.(prevs := t.prevs[1..]);
    }
    DeliveredKept(s1, t', p, h);
    t' := t'.(owed := Paid(t.owed, p, h));
  }

  // The next checkpoint is aimed at, the least above the last; without one,
  // headers-first mode is over and the list is empty.  The cursor is then left on
  // its element, and never used again.
  ghost predicate Passed(cs: seq<Checkpoint>, disabled: bool, s0: State, s: State) {
    && s0.nextCheckpoint.Some? && InList(s0.headerList, s0.startHeader)
    && (s.nextCheckpoint.Some? ==>
          && LeastAbove(cs, s0.nextCheckpoint.value.height, s.nextCheckpoint.value)
          && s == s0.(nextCheckpoint := s.nextCheckpoint))
    && (s.nextCheckpoint.None? <==> disabled || forall c :: c in cs ==> c.height <= s0.nextCheckpoint.value.height)
    && (s.nextCheckpoint.None? ==>
          s == s0.(nextCheckpoint := None, headersFirst := false, headerList := [],
                   startHeader := if s0.startHeader.At? then Stray(s0.headerList[s0.startHeader.i])
                                  else s0.startHeader))
  }

  // The checkpoint's block has come.
  method PassCheckpoint(cs: seq<Checkpoint>, disabled: bool, s0: State, ghost t0: Trace)
    returns (s: State, ghost t: Trace)
    requires Ascending(cs) && StateOk(cs, s0, t0) && s0.headersFirst
    ensures StateOk(cs, s, t) && t.owed == t0.owed && t.unsent == t0.unsent && t0.past <= t.past
    ensures Passed(cs, disabled, s0, s)
  {
    var next := FindNextHeaderCheckpoint(cs, disabled, s0.nextCheckpoint.value.height);
    s, t := s0.(nextCheckpoint := next), t0;
    if next.Some? {
      t := t.(past := t.past + [next.value]);
      SuccessiveNext(cs, t0.past, next.value);
    } else {
      var start := if s.startHeader.At? then Stray(s.headerList[s.startHeader.i]) else s.startHeader;
      s := s.(headersFirst := false, headerList := [], startHeader := start);
      t := t.(prevs := []);
    }
  }

  // What follows a processed block: nothing outside headers-first mode; the next
  // checkpoint for the checkpoint's block; and otherwise a fetch, if headers are
  // left and little is under way.
  ghost predicate Follows(cs: seq<Checkpoint>, disabled: bool, s0: State, p: PeerId, isCheckpoint: bool,
                          have: Hash -> Option<bool>, s: State)
    requires p in s0.peers
  {
    if s0.headersFirst && isCheckpoint then Passed(cs, disabled, s0, s)
    else if s0.headersFirst && !s0.startHeader.NoHeader? && |s0.peers[p].blocks| < MIN_IN_FLIGHT_BLOCKS then
      exists n: nat :: Fetched(s0, have, s, n)
    else s == s0
  }

  // After a block in headers-first mode: fetch more when little is under way, or
  // pass the checkpoint.
  method AfterBlock(cs: seq<Checkpoint>, disabled: bool, s0: State, ghost t0: Trace, p: PeerId, isCheckpoint: bool,
                    have: Hash -> Option<bool>)
    returns (s: State, ghost t: Trace)
    requires Ascending(cs) && StateOk(cs, s0, t0) && p in s0.peers
    ensures StateOk(cs, s, t) && OwedGrows(t0.owed, t.owed) && t.unsent == t0.unsent && t0.past <= t.past
    ensures Follows(cs, disabled, s0, p, isCheckpoint, have, s)
  {
    s, t := s0, t0;
    if s.headersFirst && !isCheckpoint && !s.startHeader.NoHeader? && |s.peers[p].blocks| < MIN_IN_FLIGHT_BLOCKS {
      var looked;
      s, t, looked := FetchHeaderBlocks(cs, s, t, have);
    } else if s.headersFirst && isCheckpoint {
      s, t := PassCheckpoint(cs, disabled, s, t);
    }
  }

  // What becomes of a block that was processed.
  ghost predicate ProcessedTo(cs: seq<Checkpoint>, disabled: bool, s: State, p: PeerId, h: Hash, connected: bool,
                              have: Hash -> Option<bool>, mid: State, s1: State) {
    && TakesOff(s, p, h, mid) && p in mid.peers
    && Follows(cs, disabled, if connected then mid.(rejectedTxns := {}) else mid, p, IsGoal(s, h), have, s1)
  }

  // A block that is processed, and what the state is before it, once it is off the
  // record, and after it.
  datatype Delivery = Delivery(p: PeerId, h: Hash, connected: bool, have: Hash -> Option<bool>,
                               before: State, mid: State, after: State)

  // What the header list and the checkpoint are concerned, nothing happens.
  ghost predicate SameAim(s: State, t: State) {
    t.headersFirst == s.headersFirst && t.headerList == s.headerList && t.nextCheckpoint == s.nextCheckpoint
  }

  ghost predicate DeliveredAt(cs: seq<Checkpoint>, disabled: bool, ds: seq<Delivery>, i: nat) {
    && i < |ds|
    && ProcessedTo(cs, disabled, ds[i].before, ds[i].p, ds[i].h, ds[i].connected, ds[i].have, ds[i].mid, ds[i].after)
    && (i > 0 ==> SameAim(ds[i - 1].after, ds[i].before))
  }

  ghost predicate AllDelivered(cs: seq<Checkpoint>, disabled: bool, ds: seq<Delivery>) {
    forall i :: 0 <= i < |ds| ==> DeliveredAt(cs, disabled, ds, i)
  }

  // The listed blocks come in their order, and only the last is the checkpoint's.
  ghost predicate Ordered(list: seq<HeaderNode>, cp: Checkpoint, ds: seq<Delivery>) {
    && |list| == |ds| > 0 && (forall i :: 0 <= i < |ds| ==> ds[i].h == list[i].hash)
    && list[|list| - 1].hash == cp.hash && forall i :: 0 <= i < |list| - 1 ==> list[i].hash != cp.hash
  }

  ghost predicate Aims(s: State, list: seq<HeaderNode>, cp: Checkpoint) {
    s.headersFirst && s.headerList == list && s.nextCheckpoint == Some(cp)
  }

  // A block in front that is not the checkpoint's shortens the list by itself.
  lemma FrontGoes(cs: seq<Checkpoint>, disabled: bool, d: Delivery, list: seq<HeaderNode>, cp: Checkpoint)
    requires ProcessedTo(cs, disabled, d.before, d.p, d.h, d.connected, d.have, d.mid, d.after)
    requires |list| > 0 && Aims(d.before, list, cp) && d.h == list[0].hash != cp.hash
    ensures Aims(d.after, list[1..], cp)
  {
  }

  // After the first n of them, the list is what is left.
  lemma {:induction false} ListShrinks(cs: seq<Checkpoint>, disabled: bool, list: seq<HeaderNode>, cp: Checkpoint,
                                       ds: seq<Delivery>, n: nat)
    requires AllDelivered(cs, disabled, ds) && Ordered(list, cp, ds) && n < |ds| && Aims(ds[0].before, list, cp)
    ensures Aims(ds[n].before, list[n..], cp)
  {
    if n > 0 {
      ListShrinks(cs, disabled, list, cp, ds, n - 1);
      assert DeliveredAt(cs, disabled, ds, n - 1) && DeliveredAt(cs, disabled, ds, n);
      FrontGoes(cs, disabled, ds[n - 1], list[n - 1..], cp);
      assert list[n - 1..][1..] == list[n..];
    }
  }

  // When the listed blocks have come in their order, the next checkpoint is aimed
  // at, the least above the last, or there is none and headers-first mode is over.
  lemma CheckpointPassed(cs: seq<Checkpoint>, disabled: bool, list: seq<HeaderNode>, cp: Checkpoint, ds: seq<Delivery>)
    requires AllDelivered(cs, disabled, ds) && Ordered(list, cp, ds) && Aims(ds[0].before, list, cp)
    ensures var s := ds[|ds| - 1].after;
            && (s.nextCheckpoint.None? <==> disabled || forall c :: c in cs ==> c.height <= cp.height)
            && (s.nextCheckpoint.None? ==> !s.headersFirst && s.headerList == [])
            && (s.nextCheckpoint.Some? ==> LeastAbove(cs, cp.height, s.nextCheckpoint.value) && s.headersFirst)
  {
    var n := |ds| - 1;
    ListShrinks(cs, disabled, list, cp, ds, n);
    assert DeliveredAt(cs, disabled, ds, n);
    assert list[n..][0] == list[n];
    assert IsGoal(ds[n].before, ds[n].h);
  }

  function FateOf(r: Reception): HeadersFate {
    match r
    case MoreToCome => Asking
    case CheckpointReached => Fetching
    case _ => Broken
  }

  // The state once the first n headers are listed; at the checkpoint the front
  // header, whose block is known, goes.
  function Listing(s: State, headers: seq<Header>, r: Reception): State
    requires InList(s.headerList, s.startHeader) && (headers != [] ==> |s.headerList| > 0)
  {
    var list, start := Extended(s.headerList, headers), Started(s.headerList, s.startHeader, |headers|);
    if r.CheckpointReached? && headers != [] then
      s.(headerList := list[1..], startHeader := AfterRemoval(list, start))
    else s.(headerList := list, startHeader := start)
  }

  // What becomes of a headers message in headers-first mode.
  ghost predicate HeadersTaken(s0: State, headers: seq<Header>, have: Hash -> Option<bool>,
                               r: Reception, n: nat, s: State) {
    && s0.nextCheckpoint.Some? && Received(s0.headerList, s0.nextCheckpoint.value, headers, r, n)
    && InList(s0.headerList, s0.startHeader) && (n > 0 ==> |s0.headerList| > 0)
    && var s1 := Listing(s0, headers[..n], r);
       if r.CheckpointReached? then exists k: nat :: Fetched(s1, have, s, k) else s == s1
  }

  // The list is the old one with the accepted headers at the next heights, without
  // its front once the checkpoint is reached.
  ghost predicate ListedTo(list0: seq<HeaderNode>, headers: seq<Header>, n: nat, r: Reception, list: seq<HeaderNode>) {
    && n <= |headers| && (n > 0 ==> |list0| > 0)
    && var off := if r.CheckpointReached? then 1 else 0;
       && |list| == |list0| + n - off
       && (forall k :: 0 <= k < |list| && k + off < |list0| ==> list[k] == list0[k + off])
       && (forall k :: 0 <= k < |list| && k + off >= |list0| ==>
             var m := k + off - |list0|;
             m < n && list[k] == HeaderNode(list0[|list0| - 1].height + 1 + m, headers[m].hash))
  }

  lemma ListingMeans(s: State, headers: seq<Header>, n: nat, r: Reception)
    requires InList(s.headerList, s.startHeader) && n <= |headers| && (n > 0 ==> |s.headerList| > 0)
    requires r.CheckpointReached? ==> n > 0
    ensures ListedTo(s.headerList, headers, n, r, Listing(s, headers[..n], r).headerList)
  {
  }

  // List headers that connect, and fetch their blocks once they reach the
  // checkpoint.
  method TakeHeaders(cs: seq<Checkpoint>, s0: State, ghost t0: Trace, headers: seq<Header>, have: Hash -> Option<bool>)
    returns (fate: HeadersFate, s: State, ghost t: Trace, ghost r: Reception, ghost n: nat)
    requires StateOk(cs, s0, t0) && s0.headersFirst
    ensures StateOk(cs, s, t) && t.past == t0.past && t.unsent == t0.unsent && OwedGrows(t0.owed, t.owed)
    ensures HeadersTaken(s0, headers, have, r, n, s) && fate == FateOf(r)
    ensures ListedTo(s0.headerList, headers, n, r, s.headerList)
    // fetching begins with the list ending at the checkpoint
    ensures fate.Fetching? ==>
              && s.nextCheckpoint == s0.nextCheckpoint && s.headerList != []
              && s.headerList[|s.headerList| - 1] ==
                 HeaderNode(s.nextCheckpoint.value.height, s.nextCheckpoint.value.hash)
  {
    var reception, count, list, start;
    ghost var prevs;
    reception, count, list, prevs, start :=
      Receive(s0.headerList, t0.prevs, s0.startHeader, s0.nextCheckpoint.value, headers);
    r, n, fate := reception, count, FateOf(reception);
    ListingMeans(s0, headers, count, reception);
    if reception.CheckpointReached? {
      CheckpointListed(s0, headers, count, s0.nextCheckpoint.value);
      s, t := ListToCheckpoint(cs, s0, t0, list, prevs, start);
      assert s == Listing(s0, headers[..count], reception);
      var looked;
      s, t, looked := FetchHeaderBlocks(cs, s, t, have);
    } else {
      Relisted(cs, s0, t0, list, prevs, start);
      s, t := s0.(headerList := list, startHeader := start), t0.(prevs := prevs);
    }
  }

  // The list ends at the checkpoint when the reception does.
  lemma CheckpointListed(s: State, headers: seq<Header>, n: nat, cp: Checkpoint)
    requires Received(s.headerList, cp, headers, CheckpointReached, n) && |s.headerList| > 0
    ensures Extended(s.headerList, headers[..n])[|s.headerList| + n - 1] == HeaderNode(cp.height, cp.hash)
  {
    ExtendedNext(s.headerList, headers, n - 1);
  }

  // Take the front header off, since its block is known.
  method ListToCheckpoint(cs: seq<Checkpoint>, s0: State, ghost t0: Trace, list: seq<HeaderNode>,
                          ghost prevs: seq<Hash>, start: Cursor)
    returns (s: State, ghost t: Trace)
    requires StateOk(cs, s0, t0) && Linked(list, prevs) && InList(list, start) && |list| > 1
    ensures StateOk(cs, s, t) && t == t0.(prevs := prevs[1..])
    ensures s == s0.(headerList := list[1..], startHeader := AfterRemoval(list, start))
    ensures s.headerList[|s.headerList| - 1] == list[|list| - 1]
  {
    LinkedTail(list, prevs);
    Relisted(cs, s0, t0, list[1..], prevs[1..], AfterRemoval(list, start));
    s, t := s0.(headerList := list[1..], startHeader := AfterRemoval(list, start)), t0.(prevs := prevs[1..]);
  }

  lemma TxKept(s: State, t: Trace, p: PeerId, h: Hash)
    requires RequestsOk(s, t) && SyncOk(s) && p in s.peers
    ensures var s1 := s.(requestedTxns := s.requestedTxns - {h},
                         peers := Noted(s.peers, p, s.peers[p].blocks, s.peers[p].txns - {h}));
            RequestsOk(s1, t) && SyncOk(s1)
  {
    DeliveredHeld(s.requestedBlocks, s.requestedTxns, s.peers, p, {}, {h});
    assert s.peers[p].blocks - {} == s.peers[p].blocks && s.requestedBlocks - {} == s.requestedBlocks;
  }

  lemma QueueHeld(s: State, t: Trace, p: PeerId, queue: seq<Inv>)
    requires RequestsOk(s, t) && SyncOk(s) && p in s.peers
    ensures var s1 := s.(peers := s.peers[p := s.peers[p].(queue := queue)]); RequestsOk(s1, t) && SyncOk(s1)
  {
    var peers1 := s.peers[p := s.peers[p].(queue := queue)];
    forall h | h in s.requestedBlocks ensures Held(peers1, h) {
      assert Held(s.peers, h);
      var q :| q in s.peers && h in s.peers[q].blocks;
      assert h in peers1[q].blocks;
    }
    forall h | h in s.requestedTxns ensures HeldTx(peers1, h) {
      assert HeldTx(s.peers, h);
      var q :| q in s.peers && h in s.peers[q].txns;
      assert h in peers1[q].txns;
    }
  }

  lemma HeightsHeld(s: State, p: PeerId, lastBlock: int, lastKeyBlock: int)
    requires p in s.peers && NoneOrphaned(s.requestedBlocks, s.requestedTxns, s.peers)
    ensures NoneOrphaned(s.requestedBlocks, s.requestedTxns,
                         s.peers[p := s.peers[p].(lastBlock := lastBlock, lastKeyBlock := lastKeyBlock)])
  {
    var peers1 := s.peers[p := s.peers[p].(lastBlock := lastBlock, lastKeyBlock := lastKeyBlock)];
    forall h | h in s.requestedBlocks ensures Held(peers1, h) {
      assert Held(s.peers, h);
      var q :| q in s.peers && h in s.peers[q].blocks;
      assert h in peers1[q].blocks;
    }
    forall h | h in s.requestedTxns ensures HeldTx(peers1, h) {
      assert HeldTx(s.peers, h);
      var q :| q in s.peers && h in s.peers[q].txns;
      assert h in peers1[q].txns;
    }
  }

  // ------------------------------------------------------ peers come and go

  // Looking for a peer to sync from may only clear the record of blocks.
  lemma StartedKept(cs: seq<Checkpoint>, s: State, t: Trace, best: Best, locatorOk: bool, pushOk: bool)
    requires StateOk(cs, s, t) && SyncOk(SyncStarted(s, best, locatorOk, pushOk))
    ensures StateOk(cs, SyncStarted(s, best, locatorOk, pushOk), t)
  {
    FewerHeld(s.requestedBlocks, {}, s.requestedTxns, s.peers);
  }

  lemma ArrivedKept(cs: seq<Checkpoint>, s: State, t: Trace, p: PeerId, r: PeerRecord)
    requires StateOk(cs, s, t) && p !in s.peers && r.blocks == {}
    ensures StateOk(cs, s.(peers := s.peers[p := r]), t.(owed := t.owed[p := {}]))
  {
    JoinedHeld(s.requestedBlocks, s.requestedTxns, s.peers, p, r);
    forall h | h in s.requestedBlocks && h !in t.unsent ensures Owed(t.owed[p := {}], h) {
      var q :| q in t.owed && h in t.owed[q];
      assert h in t.owed[p := {}][q];
    }
  }

  // A peer has joined; a full node is a candidate, and may become the sync peer.
  ghost predicate Joined(s: State, p: PeerId, r: PeerRecord, best: Best, shutdown: bool, canSend: bool, s1: State) {
    var s0 := s.(peers := s.peers[p := r]);
    if shutdown || !r.fullNode then s1 == s0
    else SyncSet(s0.(candidates := s.candidates + [p]), best, canSend, s1)
  }

  method Arrive(cs: seq<Checkpoint>, s0: State, ghost t0: Trace, p: PeerId, r: PeerRecord, best: Best, shutdown: bool,
                locatorOk: bool, pushOk: bool)
    returns (s: State, ghost t: Trace)
    requires StateOk(cs, s0, t0) && p !in s0.peers && r.blocks == {}
    ensures Joined(s0, p, r, best, shutdown, locatorOk && pushOk, s)
    ensures t == t0.(owed := t0.owed[p := {}]) && StateOk(cs, s, t)
  {
    ArrivedKept(cs, s0, t0, p, r);
    s, t := s0.(peers := s0.peers[p := r]), t0.(owed := t0.owed[p := {}]);
    if !shutdown && r.fullNode {
      s := s.(candidates := s.candidates + [p]);
      ghost var s1 := s;
      s := StartSync(s, best, locatorOk, pushOk);
      StartedKept(cs, s1, t, best, locatorOk, pushOk);
    }
  }

  // The state without a peer and what was requested from it.
  function Departed(s: State, p: PeerId, rest: seq<PeerId>): State
    requires p in s.peers
  {
    s.(candidates := rest, requestedTxns := s.requestedTxns - s.peers[p].txns,
       requestedBlocks := s.requestedBlocks - s.peers[p].blocks, peers := s.peers - {p})
  }

  lemma DepartedKept(s: State, t: Trace, p: PeerId, rest: seq<PeerId>)
    requires RequestsOk(s, t) && p in s.peers
    ensures RequestsOk(Departed(s, p, rest), t.(owed := t.owed - {p}))
  {
    GoneHeld(s.requestedBlocks, s.requestedTxns, s.peers, p);
    forall h | h in s.requestedBlocks - s.peers[p].blocks && h !in t.unsent ensures Owed(t.owed - {p}, h) {
      var q :| q in t.owed && h in t.owed[q];
      assert q in t.owed - {p};
    }
  }

  // The same, written out.
  ghost predicate Left(s: State, p: PeerId, s1: State) {
    && p in s.peers && s1.peers == s.peers - {p} && Struck(s.candidates, p, s1.candidates)
    && (forall h :: h in s1.requestedTxns <==> h in s.requestedTxns && h !in s.peers[p].txns)
    && (forall h :: h in s1.requestedBlocks <==> h in s.requestedBlocks && h !in s.peers[p].blocks)
    && s1 == s.(candidates := s1.candidates, requestedTxns := s1.requestedTxns,
                requestedBlocks := s1.requestedBlocks, peers := s1.peers)
  }

  // Without its sync peer, the manager looks for another; in headers-first mode it
  // lists its best block only, if there is a checkpoint to reach.
  ghost predicate StartsOver(s: State, best: Best, canSend: bool, s1: State) {
    SyncSet(if s.headersFirst then
              s.(syncPeer := None, headersFirst := false, startHeader := NoHeader,
                 headerList := if s.nextCheckpoint.None? then [] else [HeaderNode(best.height, best.hash)])
            else s.(syncPeer := None), best, canSend, s1)
  }

  // Without its sync peer, the manager starts over from its best block.
  function Abandoned(s: State, best: Best): State {
    var s1 := s.(syncPeer := None);
    if s.headersFirst then ResetHeaderState(s1, best) else s1
  }

  lemma AbandonedKept(cs: seq<Checkpoint>, s: State, t: Trace, best: Best) returns (t1: Trace)
    requires RequestsOk(s, t) && CandidatesOk(s.candidates, s.peers) && |s.rejectedTxns| < MAX_REJECTED_TXNS
    requires HeadersOk(s, t) && CheckpointsOk(cs, s, t)
    ensures StateOk(cs, Abandoned(s, best), t1) && t1 == t.(prevs := t1.prevs)
  {
    t1 := if !s.headersFirst then t else t.(prevs := if s.nextCheckpoint.Some? then [0] else []);
  }

  // ---------------------------------------------------------- announcements

  // What is asked of a peer, and what is left queued.
  function Inquired(s: State, p: PeerId, l: Ledger, rest: seq<Inv>): State
    requires p in s.peers
  {
    var s1 := WithLedger(s, p, l);
    s1.(peers := s1.peers[p := s1.peers[p].(queue := rest)])
  }

  lemma InquiredEntered(s: State, p: PeerId, l: Ledger, rest: seq<Inv>)
    requires p in s.peers
    ensures EnteredFrom(s, p, l, rest, Inquired(s, p, l, rest)) && Opened(s, p, LedgerOf(s, p))
  {
  }

  lemma InquiredKept(cs: seq<Checkpoint>, s: State, t: Trace, p: PeerId, l: Ledger, rest: seq<Inv>)
    requires StateOk(cs, s, t) && p in s.peers && Recorded(LedgerOf(s, p), l)
    ensures var t1 := Asked(t, p, l.asked, true);
            StateOk(cs, Inquired(s, p, l, rest), t1) && OwedGrows(t.owed, t1.owed)
  {
    LedgerKept(cs, s, t, p, l, true);
    QueueHeld(WithLedger(s, p, l), Asked(t, p, l.asked, true), p, rest);
  }

  // What becomes of announcements: outside headers-first mode what is lacking of
  // them is queued, and the queue is worked through.
  ghost predicate Announced(s0: State, t0: Trace, p: PeerId, invs: seq<Inv>, have: Inv -> Option<bool>,
                            queue: seq<Inv>, n: nat, l0: Ledger, l: Ledger, s: State, t: Trace) {
    && p in s0.peers && p in t0.owed
    && queue == s0.peers[p].queue + (if s0.headersFirst then [] else AllLacking(invs, have, s0.rejectedTxns))
    && Opened(s0, p, l0) && Requested(l0, queue, n, l) && EnteredFrom(s0, p, l, queue[n..], s)
    && t == Asked(t0, p, l.asked, true)
  }

  // The ledger of a peer as a message to it is begun ...
  ghost predicate Opened(s: State, p: PeerId, l: Ledger) {
    && p in s.peers && l.blocks == s.requestedBlocks && l.txns == s.requestedTxns
    && l.everBlocks == s.everBlocks && l.everTxns == s.everTxns
    && l.peerBlocks == s.peers[p].blocks && l.peerTxns == s.peers[p].txns && l.asked == {} && l.askedTxns == {}
  }

  // ... and the state with a ledger entered and a queue left.
  ghost predicate EnteredFrom(s: State, p: PeerId, l: Ledger, queue: seq<Inv>, s1: State) {
    && p in s.peers
    && s1 == s.(requestedBlocks := l.blocks, requestedTxns := l.txns, everBlocks := l.everBlocks,
                everTxns := l.everTxns,
                peers := s.peers[p := PeerRecord(l.peerBlocks, l.peerTxns, queue, s.peers[p].lastBlock,
                                                 s.peers[p].lastKeyBlock, s.peers[p].fullNode)])
  }

  // Ask a peer for what is lacking of what it has announced, as much as fits into
  // one message.
  method Inquire(cs: seq<Checkpoint>, s0: State, ghost t0: Trace, p: PeerId, invs: seq<Inv>, have: Inv -> Option<bool>)
    returns (s: State, ghost t: Trace, queue: seq<Inv>, ghost n: nat, ghost l0: Ledger, l: Ledger)
    requires StateOk(cs, s0, t0) && p in s0.peers
    ensures StateOk(cs, s, t) && OwedGrows(t0.owed, t.owed)
    ensures Announced(s0, t0, p, invs, have, queue, n, l0, l, s, t)
  {
    l0 := LedgerOf(s0, p);
    queue := s0.peers[p].queue;
    assert queue + [] == queue;
    if !s0.headersFirst {
      queue := Enlist(queue, invs, have, s0.rejectedTxns);
    }
    var rest;
    l, rest, n := RequestQueued(LedgerOf(s0, p), queue);
    InquiredKept(cs, s0, t0, p, l, rest);
    InquiredEntered(s0, p, l, rest);
    s, t := Inquired(s0, p, l, rest), Asked(t0, p, l.asked, true);
  }

  // Everything that the peer announced and is lacking is queued, requested now or
  // requested already.
  lemma NothingIgnored(l0: Ledger, queue: seq<Inv>, n: nat, l: Ledger, iv: Inv)
    requires Requested(l0, queue, n, l) && iv in queue && !iv.kind.OtherInv?
    ensures iv in queue[n..] || if iv.kind.BlockInv? then iv.hash in l0.blocks || iv.hash in l.peerBlocks
                                else iv.hash in l0.txns || iv.hash in l.peerTxns
  {
    assert queue == queue[..n] + queue[n..];
    assert iv == if iv.kind.BlockInv? then Inv(BlockInv, iv.hash) else Inv(TxInv, iv.hash);
  }

  lemma SentRecorded(l0: Ledger, blocks: seq<Hash>, txs: seq<Hash>, haveBlock: Hash -> Option<bool>,
                     haveTx: Hash -> Option<bool>, n: nat, m: nat, l: Ledger)
    requires Sent(l0, blocks, txs, haveBlock, haveTx, n, m, l)
    ensures Recorded(l0, l)
  {
  }

  // What becomes of a call from another component: what is asked for is recorded
  // whether or not the message goes out.
  ghost predicate Petitioned(s0: State, t0: Trace, p: PeerId, blocks: seq<Hash>, txs: seq<Hash>,
                             haveBlock: Hash -> Option<bool>, haveTx: Hash -> Option<bool>,
                             ok: bool, n: nat, m: nat, l0: Ledger, l: Ledger, s: State, t: Trace) {
    && p in s0.peers && p in t0.owed && Opened(s0, p, l0) && (ok <==> Fits(l0, blocks, txs, haveBlock, haveTx))
    && (ok ==> n == |blocks| && m == |txs|) && Sent(l0, blocks, txs, haveBlock, haveTx, n, m, l)
    && EnteredFrom(s0, p, l, s0.peers[p].queue, s) && t == Asked(t0, p, l.asked, ok)
  }

  // Ask a peer for blocks and transactions on behalf of another component.
  method Petition(cs: seq<Checkpoint>, s0: State, ghost t0: Trace, p: PeerId, blocks: seq<Hash>, txs: seq<Hash>,
                  haveBlock: Hash -> Option<bool>, haveTx: Hash -> Option<bool>)
    returns (ok: bool, s: State, ghost t: Trace, ghost n: nat, ghost m: nat, ghost l0: Ledger, l: Ledger)
    requires StateOk(cs, s0, t0) && p in s0.peers
    ensures StateOk(cs, s, t) && OwedGrows(t0.owed, t.owed)
    ensures Petitioned(s0, t0, p, blocks, txs, haveBlock, haveTx, ok, n, m, l0, l, s, t)
  {
    l0 := LedgerOf(s0, p);
    ok, l, n, m := RequestBoth(LedgerOf(s0, p), blocks, txs, haveBlock, haveTx);
    SentRecorded(LedgerOf(s0, p), blocks, txs, haveBlock, haveTx, n, m, l);
    LedgerKept(cs, s0, t0, p, l, ok);
    s, t := WithLedger(s0, p, l), Asked(t0, p, l.asked, ok);
  }

  // If everything on record was owed, it still is if and only if the message went
  // out or what was recorded for it is owed by others.
  lemma OwedExactly(s0: State, t0: Trace, p: PeerId, blocks: seq<Hash>, txs: seq<Hash>,
                    haveBlock: Hash -> Option<bool>, haveTx: Hash -> Option<bool>,
                    ok: bool, n: nat, m: nat, l0: Ledger, l: Ledger, s: State, t: Trace)
    requires Petitioned(s0, t0, p, blocks, txs, haveBlock, haveTx, ok, n, m, l0, l, s, t)
    requires AllOwed(s0.requestedBlocks, t0.owed, {})
    ensures AllOwed(s.requestedBlocks, t.owed, {}) <==> ok || forall h :: h in l.asked ==> Owed(t0.owed, h)
  {
    if ok {
      forall h | h in s.requestedBlocks ensures Owed(t.owed, h) {
        OwedStill(t0.owed, p, l.asked, h);
      }
    }
  }

  class BlockManager {
    const checkpoints: seq<Checkpoint>
    const disableCheckpoints: bool
    var st: State
    ghost var tr: Trace

    ghost predicate Valid()
      reads this
    {
      Ascending(checkpoints) && StateOk(checkpoints, st, tr)
    }

    constructor (checkpoints: seq<Checkpoint>, disableCheckpoints: bool, best: Best)
      requires Ascending(checkpoints)
      ensures Valid() && st.peers == map[] && st.requestedBlocks == {} && st.requestedTxns == {}
      ensures this.checkpoints == checkpoints && this.disableCheckpoints == disableCheckpoints
      ensures st.nextCheckpoint.Some? ==> LeastAbove(checkpoints, best.height, st.nextCheckpoint.value)
      ensures st.nextCheckpoint.None? <==>
              disableCheckpoints || forall c :: c in checkpoints ==> c.height <= best.height
    {
      var next := FindNextHeaderCheckpoint(checkpoints, disableCheckpoints, best.height);
      var s := State({}, {}, map[], map[], {}, map[], [], None, false, [], NoHeader, next);
      ghost var t := Trace(map[], {}, [], []);
      if next.Some? {
        s := ResetHeaderState(s, best);
        t := Trace(map[], {}, [0], [next.value]);
      }
      this.checkpoints, this.disableCheckpoints, st, tr := checkpoints, disableCheckpoints, s, t;
    }

    // A peer joins; without a peer to sync from, it may become that.
    method HandleNewPeer(p: PeerId, r: PeerRecord, best: Best, shutdown: bool, locatorOk: bool, pushOk: bool)
      requires Valid() && p !in st.peers && r.blocks == {} && r.txns == {}
      modifies this
      ensures Valid() && tr == old(tr).(owed := old(tr).owed[p := {}])
      ensures Joined(old(st), p, r, best, shutdown, locatorOk && pushOk, st)
    {
      var s;
      ghost var t;
      s, t := Arrive(checkpoints, st, tr, p, r, best, shutdown, locatorOk, pushOk);
      st, tr := s, t;
      assert StateOk(checkpoints, st, tr);
    }

    // What is requested from a peer that leaves is no longer on record; without
    // its sync peer the manager looks for another.
    method HandleDonePeer(p: PeerId, best: Best, locatorOk: bool, pushOk: bool) returns (ghost mid: State)
      requires Valid() && p in st.peers
      modifies this
      ensures Valid() && tr == old(tr).(owed := old(tr).owed - {p}, prevs := tr.prevs) && st.syncPeer != Some(p)
      ensures Left(old(st), p, mid)
      ensures if old(st).syncPeer != Some(p) then st == mid else StartsOver(mid, best, locatorOk && pushOk, st)
    {
      var others := RemoveCandidate(st.candidates, st.peers, p);
      DepartedKept(st, tr, p, others);
      var s := Departed(st, p, others);
      mid := s;
      ghost var t := tr.(owed := tr.owed - {p});
      if s.syncPeer == Some(p) {
        t := AbandonedKept(checkpoints, s, t, best);
        s := Abandoned(s, best);
        ghost var s1 := s;
        s := StartSync(s, best, locatorOk, pushOk);
        StartedKept(checkpoints, s1, t, best, locatorOk, pushOk);
      }
      st, tr := s, t;
      assert StateOk(checkpoints, st, tr);
    }

    // Peers' heights change as they announce and deliver blocks.
    method UpdateHeights(p: PeerId, lastBlock: int, lastKeyBlock: int)
      requires Valid() && p in st.peers
      modifies this
      ensures Valid() && tr == old(tr)
      ensures st == old(st).(peers := old(st).peers[p := old(st).peers[p].(lastBlock := lastBlock,
                                                                         lastKeyBlock := lastKeyBlock)])
    {
      HeightsHeld(st, p, lastBlock, lastKeyBlock);
      st := st.(peers := st.peers[p := st.peers[p].(lastBlock := lastBlock, lastKeyBlock := lastKeyBlock)]);
    }

    // ------------------------------------------------------------- messages

    // The request of a transaction ends with its arrival.
    method HandleTx(p: PeerId, hash: Hash, failed: bool)
      requires Valid() && p in st.peers
      modifies this
      ensures Valid() && tr == old(tr)
      ensures hash in old(st).rejectedTxns ==> st == old(st)
      ensures hash !in old(st).rejectedTxns ==>
                && st == old(st).(requestedTxns := old(st).requestedTxns - {hash}, rejectedTxns := st.rejectedTxns,
                                  peers := Noted(old(st).peers, p, old(st).peers[p].blocks,
                                                 old(st).peers[p].txns - {hash}))
                && (!failed ==> st.rejectedTxns == old(st).rejectedTxns)
                && (failed ==>
                      && st.rejectedTxns <= old(st).rejectedTxns + {hash}
                      && |old(st).rejectedTxns + {hash}| <= |st.rejectedTxns| + 1
                      && (|old(st).rejectedTxns| + 2 <= MAX_REJECTED_TXNS ==>
                            st.rejectedTxns == old(st).rejectedTxns + {hash}))
    {
      if hash in st.rejectedTxns {
        return;
      }
      TxKept(st, tr, p, hash);
      var s := st.(requestedTxns := st.requestedTxns - {hash},
                   peers := Noted(st.peers, p, st.peers[p].blocks, st.peers[p].txns - {hash}));
      if failed {
        var limited := LimitMap(s.rejectedTxns + {hash}, MAX_REJECTED_TXNS);
        s := s.(rejectedTxns := limited);
      }
      st := s;
    }

    // Headers that connect are listed, and when they reach the checkpoint their
    // blocks are fetched.
    method HandleHeaders(p: PeerId, headers: seq<Header>, have: Hash -> Option<bool>)
      returns (fate: HeadersFate, ghost r: Reception, ghost n: nat)
      requires Valid() && p in st.peers
      modifies this
      ensures Valid() && OwedGrows(old(tr).owed, tr.owed) && tr.past == old(tr).past && tr.unsent == old(tr).unsent
      ensures fate.NotAsked? <==> !old(st).headersFirst
      ensures fate.NoHeaders? <==> old(st).headersFirst && headers == []
      ensures fate.NotAsked? || fate.NoHeaders? ==> st == old(st)
      ensures old(st).headersFirst && headers != [] ==>
                && HeadersTaken(old(st), headers, have, r, n, st)
                && ListedTo(old(st).headerList, headers, n, r, st.headerList)
                && (fate.Fetching? <==> r.CheckpointReached?) && (fate.Asking? <==> r.MoreToCome?)
                && (fate.Broken? <==> r.Unconnected? || r.WrongCheckpoint?)
      // fetching begins with the list ending at the checkpoint
      ensures fate.Fetching? ==>
                && st.nextCheckpoint.Some? && st.headerList != []
                && st.headerList[|st.headerList| - 1] ==
                   HeaderNode(st.nextCheckpoint.value.height, st.nextCheckpoint.value.hash)
    {
      r, n := MoreToCome, 0;
      if !st.headersFirst {
        fate := NotAsked;
      } else if |headers| == 0 {
        fate := NoHeaders;
      } else {
        fate, st, tr, r, n := TakeHeaders(checkpoints, st, tr, headers, have);
      }
    }

    // A block takes its request off the record; in headers-first mode it may
    // have more blocks fetched or the next checkpoint aimed at.
    method HandleBlock(p: PeerId, hash: Hash, failed: bool, connected: bool, have: Hash -> Option<bool>)
      returns (fate: BlockFate, ghost mid: State)
      requires Valid() && p in st.peers
      modifies this
      ensures Valid() && old(tr).past <= tr.past && tr.unsent == old(tr).unsent
      ensures OwedGrows(if fate.Unrequested? then old(tr).owed else Paid(old(tr).owed, p, hash), tr.owed)
      // a block is unrequested if the peer was not asked for it, and it was never
      // requested or has been sent in duplicate more than three times
      ensures fate.Unrequested? <==>
              hash !in old(st).peers[p].blocks && (hash in old(st).everBlocks ==> old(st).everBlocks[hash] > 3)
      ensures fate.Unrequested? ==> st == old(st)
      // a block that the peer was asked for and has not delivered is welcome
      ensures hash in old(tr).owed[p] ==> !fate.Unrequested?
      ensures fate.Refused? <==> failed && !fate.Unrequested?
      ensures fate.Refused? ==> TakesOff(old(st), p, hash, mid) && st == mid
      // the checkpoint's block makes the next checkpoint the aim, and other
      // blocks have more fetched
      ensures fate.Processed? ==>
                ProcessedTo(checkpoints, disableCheckpoints, old(st), p, hash, connected, have, mid, st)
    {
      mid := st;
      assert tr.owed[p] <= st.peers[p].blocks;
      if !Welcome(st, p, hash) {
        return Unrequested, st;
      }
      var s := TakenOff(st, p, hash);
      TakenOffMeans(st, p, hash);
      mid := s;
      ghost var t := TakenOffKept(checkpoints, st, tr, p, hash);
      if failed {
        st, tr := s, t;
        return Refused, mid;
      }
      if connected {
        s := s.(rejectedTxns := {});
      }
      st, tr := AfterBlock(checkpoints, disableCheckpoints, s, t, p, IsCheckpoint(st, hash), have);
      fate := Processed;
    }

    // Ask the announcing peer for what is unknown and not already requested, as
    // much as fits into one message.
    method HandleInv(p: PeerId, invs: seq<Inv>, current: bool, have: Inv -> Option<bool>)
      returns (ghost queue: seq<Inv>, ghost n: nat, ghost l0: Ledger, ghost l: Ledger)
      requires Valid() && p in st.peers
      modifies this
      ensures Valid() && OwedGrows(old(tr).owed, tr.owed)
      // announcements count from the sync peer, or from all once current
      ensures Some(p) != old(st).syncPeer && !current ==> st == old(st) && tr == old(tr)
      ensures Some(p) == old(st).syncPeer || current ==>
                Announced(old(st), old(tr), p, invs, have, queue, n, l0, l, st, tr)
    {
      queue, n, l0, l := [], 0, LedgerOf(st, p), LedgerOf(st, p);
      if Some(p) == st.syncPeer || current {
        var s;
        ghost var t;
        s, t, queue, n, l0, l := Inquire(checkpoints, st, tr, p, invs, have);
        st, tr := s, t;
        assert StateOk(checkpoints, st, tr);
      }
    }

    // Ask a peer for blocks and transactions on behalf of another component.
    method RequestFromPeer(p: PeerId, blocks: seq<Hash>, txs: seq<Hash>,
                           haveBlock: Hash -> Option<bool>, haveTx: Hash -> Option<bool>)
      returns (ok: bool, ghost n: nat, ghost m: nat, ghost l0: Ledger, ghost l: Ledger)
      requires Valid() && p in st.peers
      modifies this
      ensures Valid() && OwedGrows(old(tr).owed, tr.owed)
      ensures Petitioned(old(st), old(tr), p, blocks, txs, haveBlock, haveTx, ok, n, m, l0, l, st, tr)
    {
      var s;
      ghost var t;
      ok, s, t, n, m, l0, l := Petition(checkpoints, st, tr, p, blocks, txs, haveBlock, haveTx);
      st, tr := s, t;
      assert StateOk(checkpoints, st, tr);
    }
  }
}
