// Block locators, the search they drive on the other node, and how close to the
// fork point the two together land.
module Locator {
  import opened Wrappers

  type Hash = nat

  const MAX_BLOCK_LOCATORS_PER_MSG := 500
  const MAX_BLOCK_HEADERS_PER_MSG := 2000
  const MAX_BLOCKS_PER_MSG := 500
  const MAX_INT64 := 0x7fff_ffff_ffff_ffff
  // A block header holds its height in 32 bits.
  const MAX_HEIGHT := 0xffff_ffff

  // A block known in memory.  The parent may not be loaded.
  datatype Node = Node(height: nat, inMainChain: bool, parent: Option<Hash>)

  // The main chain by height, as the database has it, and the nodes in memory.
  datatype Chain = Chain(main: seq<Hash>, index: map<Hash, Node>)

  ghost predicate Valid(c: Chain) {
    && 0 < |c.main| <= MAX_HEIGHT + 1
    && (forall i, j :: 0 <= i < j < |c.main| ==> c.main[i] != c.main[j])
    && (forall h :: h in c.index ==> c.index[h].height <= MAX_HEIGHT)
    && (forall h :: h in c.index && c.index[h].inMainChain ==>
          c.index[h].height < |c.main| && c.main[c.index[h].height] == h)
    && (forall i :: 0 <= i < |c.main| && c.main[i] in c.index ==>
          c.index[c.main[i]].inMainChain && c.index[c.main[i]].height == i)
    && (forall h :: h in c.index && c.index[h].parent.Some? ==>
          var p := c.index[h].parent.value;
          p in c.index && c.index[p].height + 1 == c.index[h].height)
  }

  // ----------------------------------------------------- main-chain lookups

  function HeightFrom(main: seq<Hash>, h: Hash, n: nat): (r: Option<nat>)
    requires n <= |main|
    ensures r.Some? ==> n <= r.value < |main| && main[r.value] == h && forall i :: n <= i < r.value ==> main[i] != h
    ensures r.None? ==> forall i :: n <= i < |main| ==> main[i] != h
    decreases |main| - n
  {
    if n == |main| then None else if main[n] == h then Some(n) else HeightFrom(main, h, n + 1)
  }

  // The height of a main-chain block.
  function HeightOf(main: seq<Hash>, h: Hash): (r: Option<nat>)
    ensures r.Some? ==> r.value < |main| && main[r.value] == h && forall i :: 0 <= i < r.value ==> main[i] != h
    ensures r.None? ==> h !in main
  {
    HeightFrom(main, h, 0)
  }

  // ------------------------------------------------------- building a locator

  // Where a side-chain block's ancestry, as far as it is loaded, meets the main
  // chain; -1 if it does not.
  function ForkHeight(c: Chain, h: Hash): (f: int)
    requires Valid(c) && h in c.index
    ensures -1 <= f <= c.index[h].height
    ensures f != -1 ==> f < |c.main|
    decreases c.index[h].height
  {
    var n := c.index[h];
    if n.parent.None? then -1
    else if n.inMainChain then n.height
    else ForkHeight(c, n.parent.value)
  }

  // The n-th block back from h, as far as parents are loaded.
  ghost function Ancestor(c: Chain, h: Hash, n: nat): Option<Hash>
    decreases n
  {
    if n == 0 then Some(h)
    else if h !in c.index then None
    else
      match c.index[h].parent
      case None => None
      case Some(p) => Ancestor(c, p, n - 1)
  }

  // The n-th block back is on the main chain, with its own parent loaded.
  ghost predicate MeetsAt(c: Chain, h: Hash, n: nat) {
    var a := Ancestor(c, h, n);
    a.Some? && a.value in c.index && c.index[a.value].inMainChain && c.index[a.value].parent.Some?
  }

  // f is the height of the first block back from h on the main chain, and -1 if
  // no block back from h is.
  ghost predicate IsFork(c: Chain, h: Hash, f: int) {
    if f == -1 then forall n: nat :: !MeetsAt(c, h, n)
    else 0 <= f < |c.main| && exists n: nat :: FirstAt(c, h, n) && Ancestor(c, h, n) == Some(c.main[f])
  }

  ghost predicate FirstAt(c: Chain, h: Hash, n: nat) {
    MeetsAt(c, h, n) && forall m: nat :: m < n ==> !MeetsAt(c, h, m)
  }

  lemma {:induction false} ForkIsFirst(c: Chain, h: Hash)
    requires Valid(c) && h in c.index
    ensures IsFork(c, h, ForkHeight(c, h))
    decreases c.index[h].height
  {
    var node := c.index[h];
    if node.parent.None? {
      assert forall n: nat :: n > 0 ==> Ancestor(c, h, n).None?;
    } else if node.inMainChain {
      assert FirstAt(c, h, 0) && Ancestor(c, h, 0) == Some(c.main[node.height]);
    } else {
      var p := node.parent.value;
      ForkIsFirst(c, p);
      assert forall n: nat :: n > 0 ==> Ancestor(c, h, n) == Ancestor(c, p, n - 1);
      assert forall n: nat :: n > 0 ==> (MeetsAt(c, h, n) <==> MeetsAt(c, p, n - 1));
      if ForkHeight(c, p) != -1 {
        var n: nat :| FirstAt(c, p, n) && Ancestor(c, p, n) == Some(c.main[ForkHeight(c, p)]);
        assert FirstAt(c, h, n + 1);
      }
    }
  }

  // The main-chain heights a locator goes on to list after height h, when the
  // last step was inc and len entries are there already.
  function Heights(h: int, inc: nat, len: nat, fork: int, tip: nat): (r: seq<nat>)
    requires inc >= 1
    ensures forall x :: 0 <= x < |r| ==> 1 <= r[x] < h && r[x] <= tip
    decreases h
  {
    if len >= MAX_BLOCK_LOCATORS_PER_MSG - 1 then []
    else
      var inc' := if len > 10 then inc * 2 else inc;
      var h' := h - inc';
      if h' < 1 then []
      else if (fork != -1 && h' > fork) || h' > tip then Heights(h', inc', len, fork, tip)
      else [h'] + Heights(h', inc', len + 1, fork, tip)
  }

  predicate Within(hs: seq<nat>, n: nat) {
    forall x :: 0 <= x < |hs| ==> hs[x] < n
  }

  function HashesAt(main: seq<Hash>, hs: seq<nat>): (r: seq<Hash>)
    requires Within(hs, |main|)
    ensures |r| == |hs| && forall x :: 0 <= x < |r| ==> r[x] == main[hs[x]]
  {
    seq(|hs|, x requires 0 <= x < |hs| => main[hs[x]])
  }

  // The locator of a block, as it comes out of BlockLocatorFromHash.
  function LocatorOf(c: Chain, h: Hash): seq<Hash>
    requires Valid(c)
  {
    var tip := |c.main| - 1;
    if h == c.main[0] then [h]
    else if h in c.index then
      var fork := if c.index[h].inMainChain then -1 else ForkHeight(c, h);
      [h] + HashesAt(c.main, Heights(c.index[h].height, 1, 1, fork, tip)) + [c.main[0]]
    else
      match HeightOf(c.main, h)
      case None => [h]
      case Some(height) => [h] + HashesAt(c.main, Heights(height, 1, 1, -1, tip)) + [c.main[0]]
  }

  method FindFork(c: Chain, h: Hash) returns (fork: int)
    requires Valid(c) && h in c.index
    ensures fork == ForkHeight(c, h) && IsFork(c, h, fork)
  {
    ForkIsFirst(c, h);
    fork := -1;
    var n := h;
    while c.index[n].parent.Some?
      invariant n in c.index && fork == -1 && ForkHeight(c, n) == ForkHeight(c, h)
      decreases c.index[n].height
    {
      if c.index[n].inMainChain {
        fork := c.index[n].height;
        break;
      }
      n := c.index[n].parent.value;
    }
  }

  // Follow parents from a block until one at or below the wanted height.
  method WalkBack(c: Chain, from: Option<Hash>, height: int) returns (n: Option<Hash>)
    requires Valid(c) && (from.Some? ==> from.value in c.index)
    ensures n.Some? ==> n.value in c.index && height <= c.index[n.value].height
    ensures from.None? ==> n.None?
    ensures from.Some? && height <= c.index[from.value].height ==> n == from
  {
    n := from;
    while n.Some? && height > c.index[n.value].height
      invariant n.Some? ==> n.value in c.index
      invariant from.None? ==> n.None?
      invariant from.Some? && height <= c.index[from.value].height ==> n == from
      decreases if n.Some? then c.index[n.value].height + 1 else 0
    {
      n := c.index[n.value].parent;
    }
  }

  // The side-chain block at a height, if the walk arrived at it.
  function SideEntry(c: Chain, n: Option<Hash>, height: int): seq<Hash> {
    if n.Some? && n.value in c.index && c.index[n.value].height == height then [n.value] else []
  }

  // One turn of the locator loop: step back from height h, and list the block
  // there unless it is on the side chain or not in the database.
  method ListOne(c: Chain, node: Option<Hash>, h: int, inc: nat, len: nat, forkHeight: int)
    returns (h': int, inc': nat, entry: seq<Hash>, ghost listed: seq<nat>)
    requires Valid(c) && inc >= 1 && len < MAX_BLOCK_LOCATORS_PER_MSG - 1
    requires node.Some? ==> node.value in c.index && h <= c.index[node.value].height
    ensures inc' == (if len > 10 then inc * 2 else inc) && h' == h - inc'
    ensures listed == if h' < 1 || (forkHeight != -1 && h' > forkHeight) || h' >= |c.main| then [] else [h']
    ensures Within(listed, |c.main|) && entry == HashesAt(c.main, listed)
  {
    inc' := inc;
    if len > 10 {
      inc' := inc * 2;
    }
    h' := h - inc';
    entry, listed := [], [];
    if h' >= 1 {
      if forkHeight != -1 && h' > forkHeight {
        var iterNode := WalkBack(c, node, h');
        entry := SideEntry(c, iterNode, h');
      } else if h' < |c.main| {
        entry, listed := [c.main[h']], [h'];
      }
    }
  }

  // The heights listed so far come before those that the walk down from h lists.
  ghost predicate Listing(all: seq<nat>, fork: int, tip: nat, listed: seq<nat>, h: int, inc: nat) {
    inc >= 1 && all == listed + Heights(h, inc, 1 + |listed|, fork, tip)
  }

  lemma ListingNext(all: seq<nat>, fork: int, tip: nat, listed: seq<nat>, h: int, inc: nat, one: seq<nat>)
    requires Listing(all, fork, tip, listed, h, inc) && 1 + |listed| < MAX_BLOCK_LOCATORS_PER_MSG - 1
    requires var h' := h - if 1 + |listed| > 10 then inc * 2 else inc;
             one == if h' < 1 || (fork != -1 && h' > fork) || h' > tip then [] else [h']
    ensures var inc' := if 1 + |listed| > 10 then inc * 2 else inc;
            if h - inc' < 1 then listed == all
            else Listing(all, fork, tip, listed + one, h - inc', inc')
  {
    var inc' := if 1 + |listed| > 10 then inc * 2 else inc;
    if h - inc' < 1 {
      assert listed + [] == listed;
    } else {
      var rest := Heights(h - inc', inc', 1 + |listed| + |one|, fork, tip);
      NothingListed(rest);
      AppendAssoc(listed, one, rest);
      assert 1 + |listed + one| == 1 + |listed| + |one|;
    }
  }

  lemma ListingFull(all: seq<nat>, fork: int, tip: nat, listed: seq<nat>, h: int, inc: nat)
    requires Listing(all, fork, tip, listed, h, inc) && 1 + |listed| >= MAX_BLOCK_LOCATORS_PER_MSG - 1
    ensures listed == all
  {
    assert listed + [] == listed;
  }

  lemma NothingListed(a: seq<nat>)
    ensures [] + a == a
  {
  }

  lemma HashesAtAppend(main: seq<Hash>, a: seq<nat>, b: seq<nat>)
    requires Within(a, |main|) && Within(b, |main|)
    ensures Within(a + b, |main|) && HashesAt(main, a + b) == HashesAt(main, a) + HashesAt(main, b)
  {
  }

  lemma AppendAssoc(a: seq<nat>, b: seq<nat>, c: seq<nat>)
    ensures a + (b + c) == (a + b) + c
  {
  }

  // One turn of the loop, with what was listed before.
  method ListNext(c: Chain, node: Option<Hash>, ghost all: seq<nat>, h: int, inc: nat, forkHeight: int,
                  entries0: seq<Hash>, ghost listed0: seq<nat>)
    returns (h': int, inc': nat, entries: seq<Hash>, ghost listed: seq<nat>)
    requires Valid(c) && 1 + |listed0| < MAX_BLOCK_LOCATORS_PER_MSG - 1
    requires node.Some? ==> node.value in c.index && h <= c.index[node.value].height
    requires Within(listed0, |c.main|) && entries0 == HashesAt(c.main, listed0)
    requires Listing(all, forkHeight, |c.main| - 1, listed0, h, inc)
    ensures inc <= inc' <= 2 * inc && h' == h - inc' && |listed| <= |listed0| + 1
    ensures Within(listed, |c.main|) && entries == HashesAt(c.main, listed)
    ensures if h' < 1 then listed == all
            else Listing(all, forkHeight, |c.main| - 1, listed, h', inc')
  {
    var entry;
    ghost var one;
    h', inc', entry, one := ListOne(c, node, h, inc, 1 + |entries0|, forkHeight);
    ListingNext(all, forkHeight, |c.main| - 1, listed0, h, inc, one);
    HashesAtAppend(c.main, listed0, one);
    entries, listed := entries0 + entry, listed0 + one;
    assert listed0 + [] == listed0;
  }

  // The entries between the block itself and the genesis block.
  method ListHeights(c: Chain, node: Option<Hash>, start: nat, forkHeight: int)
    returns (entries: seq<Hash>, ghost listed: seq<nat>)
    requires Valid(c) && start <= MAX_HEIGHT
    requires node.Some? ==> node.value in c.index && c.index[node.value].height == start
    ensures listed == Heights(start, 1, 1, forkHeight, |c.main| - 1)
    ensures entries == HashesAt(c.main, listed)
    ensures |entries| <= MAX_BLOCK_LOCATORS_PER_MSG - 2
  {
    ghost var all := Heights(start, 1, 1, forkHeight, |c.main| - 1);
    NothingListed(all);
    entries, listed := ListDown(c, node, all, start, forkHeight);
  }

  method ListDown(c: Chain, node: Option<Hash>, ghost all: seq<nat>, start: nat, forkHeight: int)
    returns (entries: seq<Hash>, ghost listed: seq<nat>)
    requires Valid(c) && start <= MAX_HEIGHT && Listing(all, forkHeight, |c.main| - 1, [], start, 1)
    requires node.Some? ==> node.value in c.index && c.index[node.value].height == start
    ensures listed == all && Within(listed, |c.main|) && entries == HashesAt(c.main, listed)
    ensures |entries| <= MAX_BLOCK_LOCATORS_PER_MSG - 2
  {
    ghost var tip := |c.main| - 1;
    entries, listed := [], [];
    var blockHeight: int := start;
    var increment := 1;
    while 1 + |entries| < MAX_BLOCK_LOCATORS_PER_MSG - 1
      invariant 1 <= increment <= start - blockHeight + 1
      invariant 1 <= blockHeight <= start || blockHeight == start
      invariant |entries| == |listed| <= MAX_BLOCK_LOCATORS_PER_MSG - 2
      invariant Within(listed, |c.main|) && entries == HashesAt(c.main, listed)
      invariant Listing(all, forkHeight, tip, listed, blockHeight, increment)
      decreases blockHeight
    {
      // the step is at most one more than the distance gone, so doubling it
      // never leaves the range of a 64-bit integer
      assert 2 * increment <= MAX_INT64;
      blockHeight, increment, entries, listed :=
        ListNext(c, node, all, blockHeight, increment, forkHeight, entries, listed);
      if blockHeight < 1 {
        return;
      }
    }
    ListingFull(all, forkHeight, tip, listed, blockHeight, increment);
  }

  method BlockLocatorFromHash(c: Chain, hash: Hash) returns (locator: seq<Hash>)
    requires Valid(c)
    ensures locator == LocatorOf(c, hash)
    ensures |locator| <= MAX_BLOCK_LOCATORS_PER_MSG
  {
    locator := [hash];
    if hash == c.main[0] {
      return;
    }
    var blockHeight := 0;
    var forkHeight := -1;
    var node := None;
    if hash !in c.index {
      var height := HeightOf(c.main, hash);
      if height.None? {
        return;
      }
      blockHeight := height.value;
    } else {
      node := Some(hash);
      blockHeight := c.index[hash].height;
      if !c.index[hash].inMainChain {
        forkHeight := FindFork(c, hash);
      }
    }
    var entries, _ := ListHeights(c, node, blockHeight, forkHeight);
    locator := locator + entries + [c.main[0]];
  }

  // --------------------------------------------- where a locator's entries lie

  function Pow2(n: nat): (p: nat)
    ensures p >= 1
  {
    if n == 0 then 1 else 2 * Pow2(n - 1)
  }

  lemma {:induction false} Pow2Large(n: nat)
    requires n >= 31
    ensures Pow2(n) >= 0x8000_0000
  {
    if n == 31 {
      assert Pow2(6) == 0x40 && Pow2(11) == 0x800 && Pow2(16) == 0x1_0000;
      assert Pow2(21) == 0x20_0000 && Pow2(26) == 0x400_0000;
    } else {
      Pow2Large(n - 1);
    }
  }

  // How the step and the number of entries go with the distance d below the
  // block: eleven entries one apart, then steps that double.
  ghost predicate Paced(d: int, inc: nat, len: nat) {
    if len <= 11 then inc == 1 && d == len - 1
    else inc == Pow2(len - 11) && d == 8 + 2 * inc
  }

  lemma PacedStep(d: int, inc: nat, len: nat)
    requires Paced(d, inc, len) && len >= 1
    ensures var inc' := if len > 10 then inc * 2 else inc; Paced(d + inc', inc', len + 1)
  {
    assert Pow2(1) == 2 * Pow2(0);
  }

  // The message limit is never what ends a locator.
  lemma PacedShort(d: int, inc: nat, len: nat)
    requires Paced(d, inc, len) && d <= MAX_HEIGHT
    ensures len <= 41
  {
    if len > 41 {
      Pow2Large(len - 11);
    }
  }

  lemma {:induction false} HeightsShort(top: nat, h: nat, inc: nat, len: nat, tip: nat)
    requires top <= MAX_HEIGHT && h <= tip + 1 && inc >= 1 && len >= 1 && Paced(top - h, inc, len)
    ensures |Heights(h, inc, len, -1, tip)| + len <= 41
    decreases h
  {
    PacedShort(top - h, inc, len);
    var inc' := if len > 10 then inc * 2 else inc;
    PacedStep(top - h, inc, len);
    if h - inc' >= 1 {
      HeightsShort(top, h - inc', inc', len + 1, tip);
    }
  }

  // Above the tip nothing is listed either.
  lemma {:induction false} AboveTip(h: nat, tip: nat)
    requires h > tip
    ensures Heights(h, 1, 1, -1, tip) == Heights(tip + 1, 1, 1, -1, tip)
    decreases h
  {
    if h > tip + 1 {
      AboveTip(h - 1, tip);
    }
  }

  lemma HeightsFromShort(h: nat, tip: nat)
    requires h <= MAX_HEIGHT
    ensures |Heights(h, 1, 1, -1, tip)| <= 40
  {
    if h > tip + 1 {
      AboveTip(h, tip);
      HeightsShort(tip + 1, tip + 1, 1, 1, tip);
    } else {
      HeightsShort(h, h, 1, 1, tip);
    }
  }

  // On a side chain nothing is listed until the fork: what follows the block
  // itself is the rest of a locator started one above the fork.
  lemma {:induction false} SideChainHeights(h: nat, fork: nat, tip: nat)
    requires fork < h && fork <= tip
    ensures Heights(h, 1, 1, fork, tip) == Heights(fork + 1, 1, 1, -1, tip)
    decreases h
  {
    if h == fork + 1 {
      BelowFork(h, 1, 1, fork, tip);
    } else {
      SideChainHeights(h - 1, fork, tip);
    }
  }

  lemma {:induction false} BelowFork(h: int, inc: nat, len: nat, fork: nat, tip: nat)
    requires inc >= 1 && h <= fork + 1
    ensures Heights(h, inc, len, fork, tip) == Heights(h, inc, len, -1, tip)
    decreases h
  {
    if len < MAX_BLOCK_LOCATORS_PER_MSG - 1 {
      var inc' := if len > 10 then inc * 2 else inc;
      if h - inc' >= 1 {
        BelowFork(h - inc', inc', len, fork, tip);
        BelowFork(h - inc', inc', len + 1, fork, tip);
      }
    }
  }

  // ------------------------------------------------ answering with a range

  // The height after the first locator entry that is on the main chain.
  function StartAfter(main: seq<Hash>, locator: seq<Hash>): (start: nat)
    ensures start >= 1
  {
    if locator == [] then 1
    else
      match HeightOf(main, locator[0])
      case Some(height) => height + 1
      case None => StartAfter(main, locator[1..])
  }

  function HeightRange(main: seq<Hash>, start: int, end: int): Result<seq<Hash>, string>
    requires |main| > 0
  {
    if start < 0 then Err("start height below zero")
    else if end < start then Err("end height below start height")
    else if start >= |main| then Ok([])
    else Ok(main[start..if end > |main| then |main| else end])
  }

  function EndAt(main: seq<Hash>, stop: Hash): int {
    match HeightOf(main, stop)
    case Some(height) => height + 1
    case None => MAX_INT64
  }

  function Located(main: seq<Hash>, locator: seq<Hash>, stop: Hash): Result<seq<Hash>, string>
    requires |main| > 0
  {
    var end := EndAt(main, stop);
    if locator == [] then Ok(if end == MAX_INT64 then [] else [stop])
    else
      var start := StartAfter(main, locator);
      HeightRange(main, start, if end - start > MAX_BLOCK_HEADERS_PER_MSG then start + MAX_BLOCK_HEADERS_PER_MSG else end)
  }

  // A run of blocks from height start on, without a gap, that ends early only at the
  // limit or at the stop block; there is none if the stop block is just before it.
  ghost predicate Answers(main: seq<Hash>, start: nat, stop: Option<Hash>, limit: nat, hs: seq<Hash>) {
    && 1 <= start && start + |hs| <= |main| && |hs| <= limit
    && (forall k :: 0 <= k < |hs| ==> hs[k] == main[start + k])
    && (stop.Some? ==> forall k :: 0 <= k < |hs| - 1 ==> hs[k] != stop.value)
    && (start + |hs| < |main| && |hs| < limit ==>
          stop.Some? && stop.value == if |hs| > 0 then hs[|hs| - 1] else main[start - 1])
  }

  // The search starts after the first entry that is on the main chain, or after
  // genesis if none is.
  ghost predicate StartsAfter(main: seq<Hash>, locator: seq<Hash>, start: nat) {
    if exists i :: 0 <= i < |locator| && locator[i] in main then
      exists i: nat :: FirstKnown(main, locator, i, start)
    else start == 1
  }

  ghost predicate FirstKnown(main: seq<Hash>, locator: seq<Hash>, i: nat, start: nat) {
    && i < |locator| && 1 <= start <= |main| && main[start - 1] == locator[i]
    && forall j :: 0 <= j < i ==> locator[j] !in main
  }

  lemma {:induction false} StartMeans(main: seq<Hash>, locator: seq<Hash>, n: nat)
    requires n <= |locator| && forall j :: 0 <= j < n ==> locator[j] !in main
    ensures StartsAfter(main, locator, StartAfter(main, locator[n..]))
    decreases |locator| - n
  {
    if n < |locator| {
      assert locator[n..][0] == locator[n] && locator[n..][1..] == locator[n + 1..];
      if HeightOf(main, locator[n]).Some? {
        var height := HeightOf(main, locator[n]).value;
        assert main[height] in main;
        assert FirstKnown(main, locator, n, height + 1);
      } else {
        assert locator[n] !in main;
        StartMeans(main, locator, n + 1);
      }
    }
  }

  // The stop block lies before what is asked for.
  ghost predicate StopsBefore(main: seq<Hash>, start: nat, stop: Hash) {
    1 <= start <= |main| && exists k :: 0 <= k < start - 1 && main[k] == stop
  }

  // What is sent for the headers from height start on up to the stop block.
  ghost predicate Replies(main: seq<Hash>, start: nat, stop: Hash, limit: nat, r: Result<seq<Hash>, string>) {
    (r.Err? <==> StopsBefore(main, start, stop)) && (r.Ok? ==> Answers(main, start, Some(stop), limit, r.value))
  }

  lemma BeforeMeans(main: seq<Hash>, start: nat, stop: Hash)
    requires 1 <= start <= |main| <= MAX_HEIGHT + 1
    ensures StopsBefore(main, start, stop) <==> EndAt(main, stop) < start
  {
    var height := HeightOf(main, stop);
    assert height.Some? ==> main[height.value] == stop;
  }

  lemma SliceAnswers(main: seq<Hash>, start: nat, stop: Hash, limit: nat)
    requires 1 <= start <= |main| <= MAX_HEIGHT + 1 && start <= EndAt(main, stop)
    ensures Answers(main, start, Some(stop), limit, main[start..Min(Min(EndAt(main, stop), start + limit), |main|)])
  {
  }

  // The answer to any locator.
  lemma LocatedMeans(main: seq<Hash>, locator: seq<Hash>, stop: Hash)
    requires 0 < |main| <= MAX_HEIGHT + 1
    ensures locator == [] ==> Located(main, locator, stop) == Ok(if stop in main then [stop] else [])
    ensures locator != [] ==>
              var start := StartAfter(main, locator);
              StartsAfter(main, locator, start) && Replies(main, start, stop, 2000, Located(main, locator, stop))
  {
    assert HeightOf(main, stop).Some? ==> main[HeightOf(main, stop).value] in main;
    if locator != [] {
      var start, end := StartAfter(main, locator), EndAt(main, stop);
      StartMeans(main, locator, 0);
      assert locator[0..] == locator;
      BeforeMeans(main, start, stop);
      if !StopsBefore(main, start, stop) {
        SliceAnswers(main, start, stop, 2000);
        assert start == |main| ==> main[start..|main|] == [];
        assert end == start <= |main| ==> main[start..start] == [];
      }
    }
  }

  method FindStart(main: seq<Hash>, locator: seq<Hash>) returns (startIdx: nat)
    ensures startIdx == StartAfter(main, locator)
  {
    startIdx := 1;
    var i := 0;
    while i < |locator|
      invariant 0 <= i <= |locator|
      invariant StartAfter(main, locator) == StartAfter(main, locator[i..])
    {
      var height := HeightOf(main, locator[i]);
      if height.Some? {
        return height.value + 1;
      }
      assert locator[i..][1..] == locator[i + 1..];
      i := i + 1;
    }
  }

  method FetchRange(main: seq<Hash>, start: int, end: int) returns (r: Result<seq<Hash>, string>)
    requires |main| > 0
    ensures r == HeightRange(main, start, end)
  {
    if start < 0 {
      return Err("start height below zero");
    }
    if end < start {
      return Err("end height below start height");
    }
    if start == end || start > |main| - 1 {
      assert start == end < |main| ==> main[start..end] == [];
      return Ok([]);
    }
    var last := end;
    if last > |main| {
      last := |main|;
    }
    var hashes := [];
    for i := start to last
      invariant hashes == main[start..i]
    {
      hashes := hashes + [main[i]];
    }
    r := Ok(hashes);
  }

  // Answer a request for headers.
  method LocateBlocks(main: seq<Hash>, locators: seq<Hash>, hashStop: Hash) returns (r: Result<seq<Hash>, string>)
    requires |main| > 0
    ensures r == Located(main, locators, hashStop)
    ensures |main| <= MAX_HEIGHT + 1 && locators != [] ==>
              exists start: nat :: StartsAfter(main, locators, start) && Replies(main, start, hashStop, 2000, r)
  {
    if |main| <= MAX_HEIGHT + 1 {
      LocatedMeans(main, locators, hashStop);
    }
    var endIdx := MAX_INT64;
    var height := HeightOf(main, hashStop);
    if height.Some? {
      endIdx := height.value + 1;
    }
    if |locators| == 0 {
      if endIdx == MAX_INT64 {
        return Ok([]);
      }
      return Ok([hashStop]);
    }
    var startIdx := FindStart(main, locators);
    if endIdx - startIdx > MAX_BLOCK_HEADERS_PER_MSG {
      endIdx := startIdx + MAX_BLOCK_HEADERS_PER_MSG;
    }
    r := FetchRange(main, startIdx, endIdx);
  }

  lemma OnGetBlocksMeans(main: seq<Hash>, start: nat, hashStop: Hash, all: bool, inv: seq<Hash>)
    requires 1 <= start <= |main| <= MAX_HEIGHT + 1
    requires var end := if all then MAX_INT64 else EndAt(main, hashStop);
             start <= end && inv == main[start..Min(Min(end, start + 500), |main|)]
    ensures Answers(main, start, if all then None else Some(hashStop), 500, inv)
    ensures var end := if all then MAX_INT64 else EndAt(main, hashStop);
            end - start > 500 && start + 500 <= |main| <==> |inv| == 500 && (!all ==> hashStop !in inv)
  {
    var height := HeightOf(main, hashStop);
    if !all {
      SliceAnswers(main, start, hashStop, 500);
      if height.Some? && start <= height.value < start + |inv| {
        assert inv[height.value - start] == hashStop;
      }
    }
  }

  // Answer a request for block inventory.  A full answer that was cut short also
  // names the hash whose request will trigger the next one.
  method OnGetBlocks(main: seq<Hash>, locators: seq<Hash>, hashStop: Hash, zeroHash: Hash)
    returns (inv: seq<Hash>, continueHash: Option<Hash>)
    requires 0 < |main| <= MAX_HEIGHT + 1
    ensures var start := StartAfter(main, locators);
            var end := if hashStop == zeroHash then MAX_INT64 else EndAt(main, hashStop);
            && inv == (if start >= |main| || end < start then []
                       else main[start..Min(Min(end, start + MAX_BLOCKS_PER_MSG), |main|)])
            && (continueHash.Some? <==> end - start > MAX_BLOCKS_PER_MSG && start + MAX_BLOCKS_PER_MSG <= |main|)
            && (continueHash.Some? ==> |inv| > 0 && continueHash.value == inv[|inv| - 1])
    // written out: a run of at most 500, and the last of it if a full one was cut short
    ensures StartsAfter(main, locators, StartAfter(main, locators))
    ensures var start, stop := StartAfter(main, locators), if hashStop == zeroHash then None else Some(hashStop);
            && (if stop.Some? && StopsBefore(main, start, stop.value) then inv == []
                else Answers(main, start, stop, 500, inv))
            && (continueHash.Some? <==> |inv| == 500 && (stop.Some? ==> stop.value !in inv))
  {
    inv, continueHash := [], None;
    var endIdx := MAX_INT64;
    if hashStop != zeroHash {
      var height := HeightOf(main, hashStop);
      if height.Some? {
        endIdx := height.value + 1;
      }
    }
    var startIdx := FindStart(main, locators);
    StartMeans(main, locators, 0);
    assert locators[0..] == locators;
    BeforeMeans(main, startIdx, hashStop);
    var autoContinue := false;
    if endIdx - startIdx > MAX_BLOCKS_PER_MSG {
      endIdx := startIdx + MAX_BLOCKS_PER_MSG;
      autoContinue := true;
    }
    var r := FetchRange(main, startIdx, endIdx);
    if r.Err? {
      return;
    }
    inv := r.value;
    OnGetBlocksMeans(main, startIdx, hashStop, hashStop == zeroHash, inv);
    if |inv| > 0 && autoContinue && |inv| == MAX_BLOCKS_PER_MSG {
      continueHash := Some(inv[|inv| - 1]);
    }
  }

  function Min(a: int, b: int): int {
    if a < b then a else b
  }

  // ---------------------------------------------------------- the fork point

  ghost predicate DistinctHashes(main: seq<Hash>) {
    forall i, j :: 0 <= i < j < |main| ==> main[i] != main[j]
  }

  // Two main chains that agree up to height f and nowhere above it.
  ghost predicate ForksAt(a: seq<Hash>, b: seq<Hash>, f: nat) {
    && f < |a| && f < |b|
    && (forall i :: 0 <= i <= f ==> a[i] == b[i])
    && (forall i :: f < i < |a| ==> a[i] !in b)
  }

  lemma MainLocator(c: Chain, h: nat)
    requires Valid(c) && 0 < h < |c.main|
    ensures LocatorOf(c, c.main[h]) ==
            [c.main[h]] + HashesAt(c.main, Heights(h, 1, 1, -1, |c.main| - 1)) + [c.main[0]]
  {
    assert HeightOf(c.main, c.main[h]) == Some(h);
    assert c.main[h] != c.main[0];
  }

  // Locator heights strictly decrease.
  lemma {:induction false} HeightsDecrease(h: int, inc: nat, len: nat, fork: int, tip: nat, x: nat)
    requires inc >= 1 && x + 1 < |Heights(h, inc, len, fork, tip)|
    ensures Heights(h, inc, len, fork, tip)[x] > Heights(h, inc, len, fork, tip)[x + 1]
    decreases h
  {
    var inc' := if len > 10 then inc * 2 else inc;
    var h' := h - inc';
    if (fork != -1 && h' > fork) || h' > tip {
      HeightsDecrease(h', inc', len, fork, tip, x);
    } else if x > 0 {
      HeightsDecrease(h', inc', len + 1, fork, tip, x - 1);
    }
  }

  // The first height at or below f that a locator reaches, continuing as in
  // Heights and ending with the genesis block.
  ghost function Landing(h: int, inc: nat, len: nat, f: nat): nat
    requires inc >= 1
    decreases h
  {
    if len >= MAX_BLOCK_LOCATORS_PER_MSG - 1 then 0
    else
      var inc' := if len > 10 then inc * 2 else inc;
      var h' := h - inc';
      if h' < 1 then 0
      else if h' <= f then h'
      else Landing(h', inc', len + 1, f)
  }

  // What the other node makes of an entry.
  lemma EntryKnown(a: seq<Hash>, b: seq<Hash>, f: nat, i: nat)
    requires ForksAt(a, b, f) && DistinctHashes(b) && i < |a|
    ensures HeightOf(b, a[i]) == if i <= f then Some(i) else None
  {
    if i <= f { assert b[i] == a[i]; }
  }

  lemma FirstEntry(a: seq<Hash>, h: nat, rest: seq<nat>)
    requires h < |a| && Within(rest, |a|)
    ensures Within([h] + rest, |a|)
    ensures (HashesAt(a, [h] + rest) + [a[0]])[0] == a[h]
    ensures (HashesAt(a, [h] + rest) + [a[0]])[1..] == HashesAt(a, rest) + [a[0]]
  {
  }

  // An entry at or below the fork is found; one above it is passed over.
  lemma EntryStep(a: seq<Hash>, b: seq<Hash>, f: nat, h: nat, rest: seq<nat>)
    requires ForksAt(a, b, f) && DistinctHashes(b) && h < |a| && Within(rest, |a|)
    ensures Within([h] + rest, |a|)
    ensures StartAfter(b, HashesAt(a, [h] + rest) + [a[0]]) ==
            if h <= f then h + 1 else StartAfter(b, HashesAt(a, rest) + [a[0]])
  {
    FirstEntry(a, h, rest);
    EntryKnown(a, b, f, h);
  }

  // The other node starts right after the landing height.
  lemma {:induction false} StartsAtLanding(a: seq<Hash>, b: seq<Hash>, f: nat, h: int, inc: nat, len: nat)
    requires ForksAt(a, b, f) && DistinctHashes(b) && inc >= 1 && h <= |a|
    ensures StartAfter(b, HashesAt(a, Heights(h, inc, len, -1, |a| - 1)) + [a[0]]) == Landing(h, inc, len, f) + 1
    decreases h
  {
    var inc' := if len > 10 then inc * 2 else inc;
    var h' := h - inc';
    var hs := Heights(h, inc, len, -1, |a| - 1);
    var loc := HashesAt(a, hs) + [a[0]];
    if len >= MAX_BLOCK_LOCATORS_PER_MSG - 1 || h' < 1 {
      assert loc == [a[0]];
      EntryKnown(a, b, f, 0);
    } else {
      var rest := Heights(h', inc', len + 1, -1, |a| - 1);
      assert hs == [h'] + rest;
      assert Landing(h, inc, len, f) == if h' <= f then h' else Landing(h', inc', len + 1, f);
      EntryStep(a, b, f, h', rest);
      if h' > f {
        StartsAtLanding(a, b, f, h', inc', len + 1);
      }
    }
  }

  // The landing is the fork itself when that is within ten blocks of the tip,
  // and otherwise overshoots it by less than the fork's own depth.
  lemma {:induction false} LandingNear(tip: nat, h: int, inc: nat, len: nat, f: nat)
    requires 0 <= f < h <= tip <= MAX_HEIGHT && inc >= 1 && len >= 1 && Paced(tip - h, inc, len)
    ensures var p := Landing(h, inc, len, f);
            && p <= f
            && (tip - f <= 10 ==> p == f)
            && (tip - f > 10 ==> tip - p <= 2 * (tip - f) - 10)
    decreases h
  {
    PacedShort(tip - h, inc, len);
    PacedStep(tip - h, inc, len);
    var inc' := if len > 10 then inc * 2 else inc;
    if h - inc' >= 1 && h - inc' > f {
      LandingNear(tip, h - inc', inc', len + 1, f);
    }
  }

  // The blocks right after height p without a gap, up to the stop block, the limit
  // of a message and the tip; an error if the stop block lies before them.
  function Run(b: seq<Hash>, p: nat, stop: Hash): Result<seq<Hash>, string>
    requires p + 1 <= |b|
  {
    var end := EndAt(b, stop);
    if end < p + 1 then Err("end height below start height")
    else Ok(b[p + 1..Min(Min(end, p + 1 + MAX_BLOCK_HEADERS_PER_MSG), |b|)])
  }

  // A node that asks with the locator of its tip, and gets the answer of a node
  // whose main chain forks off at height f, is sent a run of blocks that starts
  // right after a block p both have, without a gap.  p is the fork itself when
  // that is at most ten blocks down, and at most about twice as far down
  // otherwise.
  lemma ForkFound(c: Chain, b: seq<Hash>, f: nat, stop: Hash) returns (p: nat)
    requires Valid(c) && 0 < |b| <= MAX_HEIGHT + 1 && DistinctHashes(b)
    requires ForksAt(c.main, b, f)
    ensures p <= f && c.main[p] == b[p]
    ensures var h := |c.main| - 1;
            && (h - f <= 10 ==> p == f)
            && (h - f > 10 ==> h - p <= 2 * (h - f) - 10)
    ensures Located(b, LocatorOf(c, c.main[|c.main| - 1]), stop) == Run(b, p, stop)
    ensures Replies(b, p + 1, stop, 2000, Run(b, p, stop))
  {
    var a, h := c.main, |c.main| - 1;
    EntryKnown(a, b, f, h);
    var loc := LocatorOf(c, a[h]);
    if h <= f {
      p := h;
      assert loc[0] == a[h];
    } else {
      p := Landing(h, 1, 1, f);
      LandingNear(h, h, 1, 1, f);
      MainLocator(c, h);
      StartsAtLanding(a, b, f, h, 1, 1);
      var rest := HashesAt(a, Heights(h, 1, 1, -1, h)) + [a[0]];
      assert loc == [a[h]] + rest;
      assert loc[0] == a[h] && loc[1..] == rest;
    }
    RangeAfter(b, loc, stop, p);
    RunMeans(b, p, stop);
  }

  lemma RunMeans(b: seq<Hash>, p: nat, stop: Hash)
    requires p + 1 <= |b| <= MAX_HEIGHT + 1
    ensures Replies(b, p + 1, stop, 2000, Run(b, p, stop))
  {
    BeforeMeans(b, p + 1, stop);
    if EndAt(b, stop) >= p + 1 {
      SliceAnswers(b, p + 1, stop, 2000);
    }
  }

  lemma RangeAfter(b: seq<Hash>, loc: seq<Hash>, stop: Hash, p: nat)
    requires p + 1 <= |b| <= MAX_HEIGHT + 1 && loc != [] && StartAfter(b, loc) == p + 1
    ensures Located(b, loc, stop) == Run(b, p, stop)
  {
    assert p + 1 == |b| ==> b[p + 1..|b|] == [];
    assert p + 1 <= |b| && EndAt(b, stop) == p + 1 ==> b[p + 1..p + 1] == [];
  }

  ghost function SideStart(c: Chain, h: Hash): nat
    requires Valid(c) && h in c.index
  {
    if ForkHeight(c, h) >= 0 then ForkHeight(c, h) + 1 else c.index[h].height
  }

  lemma SideHeights(c: Chain, h: Hash)
    requires Valid(c) && h in c.index && !c.index[h].inMainChain
    ensures Heights(c.index[h].height, 1, 1, ForkHeight(c, h), |c.main| - 1) ==
            Heights(SideStart(c, h), 1, 1, -1, |c.main| - 1)
  {
    ForkBelow(c, h);
    if ForkHeight(c, h) >= 0 {
      SideChainHeights(c.index[h].height, ForkHeight(c, h), |c.main| - 1);
    }
  }

  lemma SideLocatorIs(c: Chain, h: Hash, hs: seq<nat>)
    requires Valid(c) && h in c.index && !c.index[h].inMainChain
    requires hs == Heights(c.index[h].height, 1, 1, ForkHeight(c, h), |c.main| - 1)
    ensures Within(hs, |c.main|) && LocatorOf(c, h) == [h] + HashesAt(c.main, hs) + [c.main[0]]
  {
    assert h != c.main[0];
  }

  lemma SideChainEntries(c: Chain, h: Hash)
    requires Valid(c) && h in c.index && !c.index[h].inMainChain
    ensures LocatorOf(c, h) == [h] + HashesAt(c.main, Heights(SideStart(c, h), 1, 1, -1, |c.main| - 1)) + [c.main[0]]
  {
    SideHeights(c, h);
    SideLocatorIs(c, h, Heights(SideStart(c, h), 1, 1, -1, |c.main| - 1));
  }

  // The locator of a side-chain block is that block followed by main-chain blocks,
  // those of a locator started one above the fork, or at its own height when no
  // fork is found.  The blocks of the side chain below it, which the
  // documentation lists, are left out.
  lemma SideChainLocator(c: Chain, h: Hash)
    requires Valid(c) && h in c.index && !c.index[h].inMainChain
    ensures var from := if ForkHeight(c, h) >= 0 then ForkHeight(c, h) + 1 else c.index[h].height;
            && LocatorOf(c, h) == [h] + HashesAt(c.main, Heights(from, 1, 1, -1, |c.main| - 1)) + [c.main[0]]
            && (0 < from < |c.main| ==> LocatorOf(c, h) == [h] + LocatorOf(c, c.main[from])[1..])
    ensures forall s :: s !in c.main && s != h ==> s !in LocatorOf(c, h)
  {
    var from := if ForkHeight(c, h) >= 0 then ForkHeight(c, h) + 1 else c.index[h].height;
    SideChainEntries(c, h);
    var rest := HashesAt(c.main, Heights(from, 1, 1, -1, |c.main| - 1));
    if 0 < from < |c.main| {
      MainLocator(c, from);
      SameTail(h, c.main[from], rest, c.main[0]);
    }
  }

  // No locator has more than 42 entries, so the limit of the message never cuts
  // one short.
  lemma LocatorShort(c: Chain, h: Hash)
    requires Valid(c)
    ensures |LocatorOf(c, h)| <= 42
  {
    var tip := |c.main| - 1;
    if h in c.index && !c.index[h].inMainChain && h != c.main[0] {
      SideChainLocator(c, h);
      ForkBelow(c, h);
      HeightsFromShort(if ForkHeight(c, h) >= 0 then ForkHeight(c, h) + 1 else c.index[h].height, tip);
    } else if h in c.index {
      HeightsFromShort(c.index[h].height, tip);
    } else if HeightOf(c.main, h).Some? {
      HeightsFromShort(HeightOf(c.main, h).value, tip);
    }
  }

  lemma SameTail(x: Hash, y: Hash, rest: seq<Hash>, g: Hash)
    ensures [x] + rest + [g] == [x] + ([y] + rest + [g])[1..]
  {
  }

  lemma ForkBelow(c: Chain, h: Hash)
    requires Valid(c) && h in c.index && !c.index[h].inMainChain
    ensures ForkHeight(c, h) < c.index[h].height
  {
  }

  // The chain drawn in the documentation: 16a and 17a (here 160 and 170) on top
  // of block 15 of a main chain of 18.
  lemma DocumentedExample(c: Chain)
    requires c.main == seq(19, i => i)
    requires c.index == map[14 := Node(14, true, None), 15 := Node(15, true, Some(14)),
                            160 := Node(16, false, Some(15)), 170 := Node(17, false, Some(160))]
    ensures Valid(c) && ForkHeight(c, 170) == 15
    ensures 160 !in LocatorOf(c, 170)
  {
    assert Valid(c);
    assert ForkHeight(c, 15) == 15;
    assert ForkHeight(c, 160) == 15;
    SideChainLocator(c, 170);
  }
}
