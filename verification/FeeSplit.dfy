// How the fees of a chain of key and micro blocks are paid out, and why no more
// is ever paid than was collected.
module FeeSplit {

  const MAX_INT64 := 0x7fff_ffff_ffff_ffff

  // A main-chain block: the fees of its regular transactions, the votes it
  // carries, the key height in its header and whether it is a key block.
  datatype Block = Block(fees: nat, voters: nat, keyHeight: int, isKey: bool)

  // `known` tells for which heights the block's node can still be looked up.
  datatype Params = Params(ticketsPerBlock: nat, stakeValidationHeight: int, known: nat -> bool)

  ghost predicate Valid(chain: seq<Block>, p: Params) {
    && p.ticketsPerBlock > 0
    && forall i :: 0 <= i < |chain| ==> chain[i].voters <= p.ticketsPerBlock
  }

  // The last key block below height n, or -1.
  function PrevKey(chain: seq<Block>, n: nat): (k: int)
    requires n <= |chain|
    ensures -1 <= k < n && (k >= 0 ==> chain[k].isKey)
    ensures forall i :: k < i < n ==> !chain[i].isKey
  {
    if n == 0 then -1 else if chain[n - 1].isKey then n - 1 else PrevKey(chain, n - 1)
  }

  // Fees collected by the blocks from height lo up to, not including, hi.
  function Collected(chain: seq<Block>, lo: nat, hi: nat): nat
    requires lo <= hi <= |chain|
  {
    if lo == hi then 0 else Collected(chain, lo, hi - 1) + chain[hi - 1].fees
  }

  // From stake validation on, fees are paid in proportion to the votes.
  function Scaled(fees: nat, b: Block, p: Params): nat
    requires p.ticketsPerBlock > 0
  {
    if b.keyHeight + 1 >= p.stakeValidationHeight then fees * b.voters / p.ticketsPerBlock else fees
  }

  // The fees of the block below height n, when its node is still known.
  function PrevFees(chain: seq<Block>, n: nat, p: Params): nat
    requires n < |chain|
  {
    if n > 0 && p.known(n - 1) then chain[n - 1].fees else 0
  }

  // What the walk from height n back to the key block before it adds up; it
  // gives up at the first block whose node is not known any more.
  function Window(chain: seq<Block>, n: nat, cur: int, p: Params): nat
    requires n < |chain| && -1 <= cur < n
    decreases cur + 1
  {
    if cur < 0 || !p.known(cur) then 0
    else if cur == PrevKey(chain, n) then chain[cur].fees
    else chain[cur].fees + Window(chain, n, cur - 1, p)
  }

  // The two fee amounts of the template for height n: the one in the ordinary
  // coinbase, and the one in the extra coinbase.
  function CoinbaseFees(chain: seq<Block>, n: nat, p: Params): nat
    requires n < |chain| && p.ticketsPerBlock > 0
  {
    Scaled(chain[n].fees, chain[n], p) * 6 / 10 + Scaled(PrevFees(chain, n, p), chain[n], p) * 3 / 10
  }

  function ExtraFees(chain: seq<Block>, n: nat, p: Params): nat
    requires n < |chain| && p.ticketsPerBlock > 0
  {
    Scaled(if n > 1 then Window(chain, n, n - 1, p) else 0, chain[n], p) / 10
  }

  // What block n pays out.  Fees are paid from height 2 on, and a block that
  // turns out a micro block loses its extra coinbase.
  function Payout(chain: seq<Block>, n: nat, p: Params): nat
    requires n < |chain| && p.ticketsPerBlock > 0
  {
    if n <= 1 then 0
    else CoinbaseFees(chain, n, p) + if chain[n].isKey then ExtraFees(chain, n, p) else 0
  }

  function PaidOut(chain: seq<Block>, n: nat, p: Params): nat
    requires n <= |chain| && p.ticketsPerBlock > 0
  {
    if n == 0 then 0 else PaidOut(chain, n - 1, p) + Payout(chain, n - 1, p)
  }

  // ------------------------------------------------- as the template does it

  method WalkBack(chain: seq<Block>, n: nat, p: Params) returns (microTotalFees: nat)
    requires n < |chain|
    ensures microTotalFees == if n > 1 then Window(chain, n, n - 1, p) else 0
  {
    microTotalFees := 0;
    if n > 1 {
      var prevKey := PrevKey(chain, n);
      var cur: int := n - 1;
      while cur >= 0
        invariant -1 <= cur < n
        invariant Window(chain, n, n - 1, p) == microTotalFees + Window(chain, n, cur, p)
      {
        if !p.known(cur) {
          break;
        }
        microTotalFees := microTotalFees + chain[cur].fees;
        if cur == prevKey {
          break;
        }
        cur := cur - 1;
      }
    }
  }

  method ScaleFees(fees: nat, b: Block, p: Params) returns (scaled: nat)
    requires p.ticketsPerBlock > 0
    ensures scaled == Scaled(fees, b, p)
  {
    scaled := fees;
    if b.keyHeight + 1 >= p.stakeValidationHeight {
      scaled := scaled * b.voters;
      scaled := scaled / p.ticketsPerBlock;
    }
  }

  // A solved block that misses the full target is a micro block and loses its
  // first transaction.
  method StripExtra(txs: seq<nat>, meetsFullTarget: bool) returns (kept: seq<nat>)
    requires txs != []
    ensures kept == if meetsFullTarget then txs else txs[1..]
  {
    kept := txs;
    if !meetsFullTarget {
      kept := [];
      for i := 0 to |txs|
        invariant kept == if i == 0 then [] else txs[1..i]
      {
        if i == 0 {
          continue;
        }
        kept := kept + [txs[i]];
      }
    }
  }

  // The fee amounts written into the two coinbases of the block at height n,
  // and what is left of them once the block turns out key or micro.
  method SplitFees(chain: seq<Block>, n: nat, p: Params)
    returns (paid: nat, ghost lo: nat, ghost prevFees: nat, ghost own: nat, ghost prev: nat, ghost extra: nat)
    requires Valid(chain, p) && n < |chain|
    ensures paid == Payout(chain, n, p)
    // the exact amount, written out
    ensures if n <= 1 then paid == 0 else PaysOut(chain, n, p, paid, lo, prevFees, own, prev, extra)
    ensures 10 * paid <= 6 * chain[n].fees + 3 * PrevFees(chain, n, p) + if chain[n].isKey then Pending(chain, n) else 0
  {
    var prevTotalFees := if n > 0 && p.known(n - 1) then chain[n - 1].fees else 0;
    var microTotalFees := WalkBack(chain, n, p);
    microTotalFees := ScaleFees(microTotalFees, chain[n], p);
    prevTotalFees := ScaleFees(prevTotalFees, chain[n], p);
    var totalFees := ScaleFees(chain[n].fees, chain[n], p);
    totalFees := totalFees * 6 / 10 + prevTotalFees * 3 / 10;
    var extraTotalFees := microTotalFees / 10;
    // the extra coinbase comes first, the ordinary one after it
    var coinbases := if n > 1 then [extraTotalFees, totalFees] else [0, 0];
    var kept := StripExtra(coinbases, chain[n].isKey);
    paid := kept[|kept| - 1] + if |kept| > 1 then kept[0] else 0;
    PayoutBelow(chain, n, p);
    lo, prevFees, own, prev, extra := 0, 0, 0, 0, 0;
    if n > 1 {
      lo := WalkFrom(chain, n, n, p);
      prevFees := if p.known(n - 1) then chain[n - 1].fees else 0;
      own, prev, extra := PartsExist(chain[n], prevFees, Collected(chain, lo, n), p);
      PayoutExact(chain, n, p, own + prev + if chain[n].isKey then extra else 0, lo, prevFees, own, prev, extra);
    }
  }

  // ------------------------------------------------------------ conservation

  lemma DivBelow(a: nat, b: nat, t: nat)
    requires t > 0 && a <= b * t
    ensures a / t <= b
  {
    var q, r := a / t, a % t;
    assert a == q * t + r;
    assert (b - q) * t == b * t - q * t;
    assert (b - q) * t >= 0;
  }

  // Scaling by the votes never adds.
  lemma ScaledBelow(fees: nat, b: Block, p: Params)
    requires p.ticketsPerBlock > 0 && b.voters <= p.ticketsPerBlock
    ensures Scaled(fees, b, p) <= fees
  {
    assert fees * b.voters <= fees * p.ticketsPerBlock;
    DivBelow(fees * b.voters, fees, p.ticketsPerBlock);
  }

  // The fees not yet shared out as a key block's tenth: those of the last key
  // block below n and of everything after it.
  function Pending(chain: seq<Block>, n: nat): nat
    requires n <= |chain|
  {
    var k := PrevKey(chain, n);
    Collected(chain, if k < 0 then 0 else k, n)
  }

  lemma {:induction false} WindowBelow(chain: seq<Block>, n: nat, cur: int, p: Params)
    requires n < |chain| && -1 <= cur < n && PrevKey(chain, n) <= cur
    ensures var k := PrevKey(chain, n);
            var lo := if k < 0 then 0 else k;
            lo <= cur + 1 && Window(chain, n, cur, p) <= Collected(chain, lo, cur + 1)
    decreases cur + 1
  {
    if cur >= 0 && p.known(cur) && cur != PrevKey(chain, n) {
      WindowBelow(chain, n, cur - 1, p);
    }
  }

  lemma PayoutBelow(chain: seq<Block>, n: nat, p: Params)
    requires Valid(chain, p) && n < |chain|
    ensures 10 * Payout(chain, n, p) <=
            6 * chain[n].fees + 3 * PrevFees(chain, n, p) + if chain[n].isKey then Pending(chain, n) else 0
  {
    var b := chain[n];
    ScaledBelow(b.fees, b, p);
    ScaledBelow(PrevFees(chain, n, p), b, p);
    if n > 1 {
      WindowBelow(chain, n, n - 1, p);
      ScaledBelow(Window(chain, n, n - 1, p), b, p);
    }
  }

  lemma {:induction false} PendingStep(chain: seq<Block>, n: nat)
    requires n < |chain|
    ensures Pending(chain, n + 1) == chain[n].fees + if chain[n].isKey then 0 else Pending(chain, n)
  {
    if chain[n].isKey {
      assert Collected(chain, n, n + 1) == Collected(chain, n, n) + chain[n].fees;
    }
  }

  // After any number of blocks, ten times what was paid, plus what the next
  // blocks are still due from it, is covered by ten times what was collected.
  lemma {:induction false} Solvent(chain: seq<Block>, n: nat, p: Params)
    requires Valid(chain, p) && n <= |chain|
    ensures 10 * PaidOut(chain, n, p) + Pending(chain, n) + (if n > 0 then 3 * chain[n - 1].fees else 0)
         <= 10 * Collected(chain, 0, n)
  {
    if n > 0 {
      Solvent(chain, n - 1, p);
      PayoutBelow(chain, n - 1, p);
      PendingStep(chain, n - 1);
    }
  }

  // No chain pays out more in fees than it collected.
  lemma FeesConserved(chain: seq<Block>, p: Params)
    requires Valid(chain, p)
    ensures PaidOut(chain, |chain|, p) <= Collected(chain, 0, |chain|)
  {
    Solvent(chain, |chain|, p);
  }

  // Each block's fees enter the tenth of at most one key block: the walks of two
  // key blocks never meet.
  lemma WindowsDisjoint(chain: seq<Block>, m: nat, n: nat, i: int)
    requires m < n < |chain| && chain[m].isKey
    requires PrevKey(chain, n) <= i < n
    ensures !(PrevKey(chain, m) <= i < m)
  {
    assert PrevKey(chain, n) >= m;
  }

  // ... and exactly one, as soon as a key block follows.
  lemma WindowsCover(chain: seq<Block>, i: nat, n: nat)
    requires i < n < |chain| && chain[n].isKey && forall j :: i < j < n ==> !chain[j].isKey
    ensures PrevKey(chain, n) <= i < n
  {
  }

  lemma {:induction false} CollectedGrows(chain: seq<Block>, lo: nat, mid: nat, hi: nat)
    requires lo <= mid <= hi <= |chain|
    ensures Collected(chain, mid, hi) <= Collected(chain, lo, hi)
    decreases hi
  {
    if mid < hi {
      CollectedGrows(chain, lo, mid, hi - 1);
    }
  }

  // The products formed on the way fit into 64 bits as long as the fees of the
  // whole chain, times the larger of six and the votes per block, do.
  lemma NoOverflow(chain: seq<Block>, n: nat, p: Params)
    requires Valid(chain, p) && 1 < n < |chain|
    requires 6 * Collected(chain, 0, n + 1) <= MAX_INT64
    requires p.ticketsPerBlock * Collected(chain, 0, n + 1) <= MAX_INT64
    ensures chain[n].fees * chain[n].voters <= MAX_INT64
    ensures PrevFees(chain, n, p) * chain[n].voters <= MAX_INT64
    ensures Window(chain, n, n - 1, p) * chain[n].voters <= MAX_INT64
    ensures Scaled(chain[n].fees, chain[n], p) * 6 <= MAX_INT64
  {
    var all, t, v := Collected(chain, 0, n + 1), p.ticketsPerBlock, chain[n].voters;
    var w := Window(chain, n, n - 1, p);
    WindowBelow(chain, n, n - 1, p);
    var k := PrevKey(chain, n);
    CollectedGrows(chain, 0, if k < 0 then 0 else k, n);
    assert chain[n].fees <= all && PrevFees(chain, n, p) <= all && w <= all;
    ProductFits(chain[n].fees, v, all, t);
    ProductFits(PrevFees(chain, n, p), v, all, t);
    ProductFits(w, v, all, t);
    ScaledBelow(chain[n].fees, chain[n], p);
  }

  lemma ProductFits(x: nat, v: nat, all: nat, t: nat)
    requires x <= all && v <= t
    ensures x * v <= t * all
  {
    assert x * v <= all * v;
    assert all * v <= all * t;
  }

  // Nothing is lost to rounding, to missing votes or to forgotten blocks.
  ghost predicate Whole(chain: seq<Block>, p: Params) {
    forall i :: 0 <= i < |chain| ==>
      && chain[i].fees % 10 == 0 && p.known(i)
      && (chain[i].keyHeight + 1 < p.stakeValidationHeight || chain[i].voters == p.ticketsPerBlock)
  }

  lemma ScaledWhole(fees: nat, b: Block, p: Params)
    requires p.ticketsPerBlock > 0
    requires b.keyHeight + 1 < p.stakeValidationHeight || b.voters == p.ticketsPerBlock
    ensures Scaled(fees, b, p) == fees
  {
    MulDiv(fees, p.ticketsPerBlock);
  }

  lemma MulDiv(f: nat, t: nat)
    requires t > 0
    ensures f * t / t == f
  {
    DivBelow(f * t, f, t);
    var q, r := f * t / t, f * t % t;
    assert f * t == q * t + r;
    assert (f - q) * t == r;
    assert f - q >= 1 ==> (f - q) * t >= t;
  }

  lemma TenTimes(y: nat)
    ensures 10 * y / 10 == y
  {
  }

  lemma Tenths(x: nat)
    requires x % 10 == 0
    ensures 10 * (x * 6 / 10) == 6 * x && 10 * (x * 3 / 10) == 3 * x && 10 * (x / 10) == x
  {
    var y := x / 10;
    assert x == 10 * y && x * 6 == 10 * (6 * y) && x * 3 == 10 * (3 * y);
    TenTimes(y);
    TenTimes(6 * y);
    TenTimes(3 * y);
  }

  lemma {:induction false} CollectedTens(chain: seq<Block>, lo: nat, hi: nat, p: Params)
    requires Whole(chain, p) && lo <= hi <= |chain|
    ensures Collected(chain, lo, hi) % 10 == 0
    decreases hi
  {
    if lo < hi {
      CollectedTens(chain, lo, hi - 1, p);
    }
  }

  lemma WindowWhole(chain: seq<Block>, n: nat, p: Params)
    requires Whole(chain, p) && n < |chain|
    ensures Window(chain, n, n - 1, p) == Pending(chain, n) && Window(chain, n, n - 1, p) % 10 == 0
  {
    var k := PrevKey(chain, n);
    var lo := if k < 0 then 0 else k;
    WindowExact(chain, n, lo, n - 1, p);
    CollectedTens(chain, lo, n, p);
  }

  lemma PayoutWhole(chain: seq<Block>, n: nat, p: Params)
    requires Valid(chain, p) && Whole(chain, p) && 1 < n < |chain|
    ensures 10 * Payout(chain, n, p) ==
            6 * chain[n].fees + 3 * chain[n - 1].fees + if chain[n].isKey then Pending(chain, n) else 0
  {
    var b := chain[n];
    ScaledWhole(b.fees, b, p);
    ScaledWhole(chain[n - 1].fees, b, p);
    WindowWhole(chain, n, p);
    var w := Window(chain, n, n - 1, p);
    ScaledWhole(w, b, p);
    Tenths(b.fees);
    Tenths(chain[n - 1].fees);
    Tenths(w);
  }

  // The bound is tight: then all that was collected has been paid or is still
  // due, from the first block with fees on.
  lemma {:induction false} NothingLost(chain: seq<Block>, n: nat, p: Params)
    requires Valid(chain, p) && Whole(chain, p) && 2 <= n <= |chain|
    requires chain[0].fees == chain[1].fees == 0
    ensures 10 * PaidOut(chain, n, p) + Pending(chain, n) + 3 * chain[n - 1].fees == 10 * Collected(chain, 0, n)
  {
    if n == 2 {
      NoFees(chain);
      assert PaidOut(chain, 1, p) == PaidOut(chain, 0, p) + Payout(chain, 0, p);
    } else {
      NothingLost(chain, n - 1, p);
      PayoutWhole(chain, n - 1, p);
      PendingStep(chain, n - 1);
    }
  }

  lemma NoFees(chain: seq<Block>)
    requires 2 <= |chain| && chain[0].fees == chain[1].fees == 0
    ensures Collected(chain, 0, 2) == 0 && Pending(chain, 2) == 0
  {
    assert Collected(chain, 0, 1) == Collected(chain, 0, 0) + chain[0].fees;
    assert Collected(chain, 1, 2) == Collected(chain, 1, 1) + chain[1].fees;
  }

  // --------------------------------------------------- the exact amounts paid

  // r is num/den of x, rounded down.
  ghost predicate Share(r: nat, x: nat, num: nat, den: nat) {
    r * den <= x * num < (r + 1) * den
  }

  lemma ShareAtLeast(r: nat, s: nat, x: nat, num: nat, den: nat)
    requires Share(r, x, num, den) && Share(s, x, num, den)
    ensures r >= s
  {
    Monotone(r + 1, s, den);
  }

  lemma {:induction false} Monotone(a: nat, b: nat, c: nat)
    ensures a <= b ==> a * c <= b * c
  {
    if c > 0 {
      Monotone(a, b, c - 1);
      assert a * c == a * (c - 1) + a && b * c == b * (c - 1) + b;
    }
  }

  lemma ShareOnce(r: nat, s: nat, x: nat, num: nat, den: nat)
    requires Share(r, x, num, den) && Share(s, x, num, den)
    ensures r == s
  {
    ShareAtLeast(r, s, x, num, den);
    ShareAtLeast(s, r, x, num, den);
  }

  lemma ShareIs(x: nat, num: nat, den: nat)
    requires den > 0
    ensures Share(x * num / den, x, num, den)
  {
    var a := x * num;
    var q := a / den;
    assert a == q * den + a % den;
    assert (q + 1) * den == q * den + den;
  }

  // The votes that the fees of block b are scaled with: those cast, from stake
  // validation on, and all before.
  ghost function VotesFor(b: Block, p: Params): nat {
    if b.keyHeight + 1 < p.stakeValidationHeight then p.ticketsPerBlock else b.voters
  }

  // Scaling takes exactly the votes' share, whatever votes are missing.
  lemma ScaledExact(fees: nat, b: Block, p: Params)
    requires p.ticketsPerBlock > 0
    ensures Share(Scaled(fees, b, p), fees, VotesFor(b, p), p.ticketsPerBlock)
    ensures b.keyHeight + 1 < p.stakeValidationHeight ==> Scaled(fees, b, p) == fees
  {
    ShareIs(fees, b.voters, p.ticketsPerBlock);
    assert (fees + 1) * p.ticketsPerBlock == fees * p.ticketsPerBlock + p.ticketsPerBlock;
  }

  // The walk from height n goes down to lo: everything from there on is known, and
  // lo is the last key block below n or the first block, or what comes before is
  // not known.
  ghost predicate WalksTo(chain: seq<Block>, n: nat, lo: nat, p: Params) {
    && lo <= n < |chain| && (forall i :: lo <= i < n ==> p.known(i))
    && (forall i :: lo < i < n ==> !chain[i].isKey)
    && (lo == 0 || (lo < n && chain[lo].isKey) || !p.known(lo - 1))
  }

  // The walk adds up exactly the fees down to there.
  lemma {:induction false} WindowExact(chain: seq<Block>, n: nat, lo: nat, cur: int, p: Params)
    requires WalksTo(chain, n, lo, p) && lo - 1 <= cur < n && (cur < lo ==> cur == n - 1 || !chain[lo].isKey)
    ensures Window(chain, n, cur, p) == Collected(chain, lo, cur + 1)
    decreases cur + 1
  {
    if lo <= cur {
      assert Collected(chain, lo, cur + 1) == Collected(chain, lo, cur) + chain[cur].fees;
      if cur != PrevKey(chain, n) {
        WindowExact(chain, n, lo, cur - 1, p);
      } else {
        assert cur == lo;
      }
    }
  }

  // A share of a share, as the program rounds: num tenths of the votes' share.
  ghost predicate Part(r: nat, fees: nat, num: nat, b: Block, p: Params) {
    exists scaled: nat :: Share(scaled, fees, VotesFor(b, p), p.ticketsPerBlock) && Share(r, scaled, num, 10)
  }

  lemma PartOnce(r: nat, s: nat, fees: nat, num: nat, b: Block, p: Params)
    requires Part(r, fees, num, b, p) && Part(s, fees, num, b, p)
    ensures r == s
  {
    var x: nat :| Share(x, fees, VotesFor(b, p), p.ticketsPerBlock) && Share(r, x, num, 10);
    var y: nat :| Share(y, fees, VotesFor(b, p), p.ticketsPerBlock) && Share(s, y, num, 10);
    ShareOnce(x, y, fees, VotesFor(b, p), p.ticketsPerBlock);
    ShareOnce(r, s, x, num, 10);
  }

  lemma PartIs(fees: nat, num: nat, b: Block, p: Params)
    requires p.ticketsPerBlock > 0
    ensures Part(Scaled(fees, b, p) * num / 10, fees, num, b, p)
  {
    ScaledExact(fees, b, p);
    ShareIs(Scaled(fees, b, p), num, 10);
  }

  // Six tenths of the votes' share of a block's own fees, three tenths of that of
  // its parent's, and a tenth of that of everything walked over.
  ghost predicate Parts(b: Block, prevFees: nat, walked: nat, p: Params, own: nat, prev: nat, extra: nat) {
    Part(own, b.fees, 6, b, p) && Part(prev, prevFees, 3, b, p) && Part(extra, walked, 1, b, p)
  }

  // Whatever votes are missing and nodes forgotten, block n pays out the first two,
  // the second if its parent is known, and a key block the third as well.
  ghost predicate PaysOut(chain: seq<Block>, n: nat, p: Params, paid: nat, lo: nat, prevFees: nat,
                          own: nat, prev: nat, extra: nat) {
    && WalksTo(chain, n, lo, p) && n > 0 && prevFees == (if p.known(n - 1) then chain[n - 1].fees else 0)
    && Parts(chain[n], prevFees, Collected(chain, lo, n), p, own, prev, extra)
    && paid == own + prev + if chain[n].isKey then extra else 0
  }

  lemma PartsAre(b: Block, prevFees: nat, walked: nat, p: Params, own: nat, prev: nat, extra: nat)
    requires p.ticketsPerBlock > 0 && Parts(b, prevFees, walked, p, own, prev, extra)
    ensures own == Scaled(b.fees, b, p) * 6 / 10 && prev == Scaled(prevFees, b, p) * 3 / 10
    ensures extra == Scaled(walked, b, p) / 10
  {
    PartIs(b.fees, 6, b, p);
    PartIs(prevFees, 3, b, p);
    PartIs(walked, 1, b, p);
    PartOnce(own, Scaled(b.fees, b, p) * 6 / 10, b.fees, 6, b, p);
    PartOnce(prev, Scaled(prevFees, b, p) * 3 / 10, prevFees, 3, b, p);
    PartOnce(extra, Scaled(walked, b, p) * 1 / 10, walked, 1, b, p);
  }

  lemma PartsExist(b: Block, prevFees: nat, walked: nat, p: Params) returns (own: nat, prev: nat, extra: nat)
    requires p.ticketsPerBlock > 0
    ensures Parts(b, prevFees, walked, p, own, prev, extra)
  {
    own, prev, extra := Scaled(b.fees, b, p) * 6 / 10, Scaled(prevFees, b, p) * 3 / 10, Scaled(walked, b, p) * 1 / 10;
    PartIs(b.fees, 6, b, p);
    PartIs(prevFees, 3, b, p);
    PartIs(walked, 1, b, p);
  }

  // That fixes it.
  lemma PayoutExact(chain: seq<Block>, n: nat, p: Params, paid: nat, lo: nat, prevFees: nat,
                    own: nat, prev: nat, extra: nat)
    requires p.ticketsPerBlock > 0 && 1 < n && PaysOut(chain, n, p, paid, lo, prevFees, own, prev, extra)
    ensures paid == Payout(chain, n, p)
  {
    WindowExact(chain, n, lo, n - 1, p);
    PartsAre(chain[n], prevFees, Collected(chain, lo, n), p, own, prev, extra);
  }

  // Every block has such a walk.
  lemma {:induction false} WalkFrom(chain: seq<Block>, n: nat, m: nat, p: Params) returns (lo: nat)
    requires m <= n < |chain| && (forall i :: m <= i < n ==> p.known(i) && !chain[i].isKey)
    ensures WalksTo(chain, n, lo, p)
  {
    if m == 0 || !p.known(m - 1) {
      lo := m;
    } else if chain[m - 1].isKey {
      lo := m - 1;
    } else {
      lo := WalkFrom(chain, n, m - 1, p);
    }
  }

  lemma Times(a: nat, b: nat, c: nat)
    requires a < b && c > 0
    ensures a * c < b * c
  {
    assert b * c == a * c + (b - a) * c;
    assert (b - a) * c >= c by {
      assert (b - a) * c == c + (b - a - 1) * c;
    }
  }

  lemma Bound(fv: nat, x: nat, t: nat, num: nat, r: nat)
    requires num > 0 && t > 0 && fv < (x + 1) * t && x * num < (r + 1) * 10
    ensures num * fv < (10 * (r + 1) + num) * t
  {
    Times(fv, (x + 1) * t, num);
    Times(x * num, (r + 1) * 10, t);
    assert (x + 1) * t * num == x * num * t + num * t;
    assert (10 * (r + 1) + num) * t == (r + 1) * 10 * t + num * t;
  }

  lemma PartAbove(r: nat, fees: nat, num: nat, b: Block, p: Params)
    requires Part(r, fees, num, b, p) && p.ticketsPerBlock > 0 && num > 0
    ensures num * (fees * VotesFor(b, p)) < (10 * (r + 1) + num) * p.ticketsPerBlock
  {
    var x: nat :| Share(x, fees, VotesFor(b, p), p.ticketsPerBlock) && Share(r, x, num, 10);
    Bound(fees * VotesFor(b, p), x, p.ticketsPerBlock, num, r);
  }

  lemma SumAbove(a: nat, b: nat, c: nat, x: nat, y: nat, z: nat, v: nat, t: nat, k: bool)
    requires 6 * (x * v) < (10 * (a + 1) + 6) * t && 3 * (y * v) < (10 * (b + 1) + 3) * t
    requires z * v < (10 * (c + 1) + 1) * t
    ensures v * (6 * x + 3 * y + if k then z else 0) <
            t * (10 * (a + b + if k then c else 0) + if k then 40 else 29)
  {
    assert v * (6 * x + 3 * y) == 6 * (x * v) + 3 * (y * v) && v * (6 * x + 3 * y + z) == v * (6 * x + 3 * y) + z * v;
    assert (10 * (a + 1) + 6) * t + (10 * (b + 1) + 3) * t == t * (10 * (a + b) + 29);
    assert t * (10 * (a + b) + 29) + (10 * (c + 1) + 1) * t == t * (10 * (a + b + c) + 40);
  }

  // A payout falls short of its due, the votes' share of six, three and one tenths,
  // by less than three or four.
  lemma PayoutAbove(chain: seq<Block>, n: nat, lo: nat, p: Params)
    requires p.ticketsPerBlock > 0 && 1 < n && WalksTo(chain, n, lo, p)
    ensures var b := chain[n];
            VotesFor(b, p) * (6 * b.fees + 3 * (if p.known(n - 1) then chain[n - 1].fees else 0) +
                              if b.isKey then Collected(chain, lo, n) else 0) <
            p.ticketsPerBlock * (10 * Payout(chain, n, p) + if b.isKey then 40 else 29)
  {
    var b, prevFees, w := chain[n], if p.known(n - 1) then chain[n - 1].fees else 0, Collected(chain, lo, n);
    var x, y, z := PartsExist(b, prevFees, w, p);
    PayoutExact(chain, n, p, x + y + if b.isKey then z else 0, lo, prevFees, x, y, z);
    PartsAbove(b, prevFees, w, p, x, y, z);
  }

  lemma PartsAbove(b: Block, prevFees: nat, walked: nat, p: Params, x: nat, y: nat, z: nat)
    requires Parts(b, prevFees, walked, p, x, y, z) && p.ticketsPerBlock > 0
    ensures VotesFor(b, p) * (6 * b.fees + 3 * prevFees + if b.isKey then walked else 0) <
            p.ticketsPerBlock * (10 * (x + y + if b.isKey then z else 0) + if b.isKey then 40 else 29)
  {
    PartAbove(x, b.fees, 6, b, p);
    PartAbove(y, prevFees, 3, b, p);
    PartAbove(z, walked, 1, b, p);
    SumAbove(x, y, z, b.fees, prevFees, walked, VotesFor(b, p), p.ticketsPerBlock, b.isKey);
  }
}
