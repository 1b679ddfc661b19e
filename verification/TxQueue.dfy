// The priority queue that orders transactions for a block template.
module TxQueue {
  import opened Sequences

  type Hash = nat

  datatype TxType = Regular | Ticket | Vote | Revocation

  // Fees per kilobyte and priorities are floating point in the program; they are
  // quotients of finite numbers, so their order is that of the reals.
  datatype Item = Item(hash: Hash, txType: TxType, fee: int, priority: real, feePerKB: real)

  type Less = (Item, Item) -> bool

  // Votes come before tickets, and tickets before the rest.
  function StakePriority(t: TxType): int {
    match t
    case Vote => 2
    case Ticket => 1
    case _ => 0
  }

  function CompareStakePriority(a: Item, b: Item): int {
    if StakePriority(a.txType) > StakePriority(b.txType) then 1
    else if StakePriority(a.txType) < StakePriority(b.txType) then -1
    else 0
  }

  predicate ByStakeAndFee(a: Item, b: Item) {
    var cmp := CompareStakePriority(a, b);
    if cmp == 1 then true
    else if cmp == -1 then false
    else if a.feePerKB == b.feePerKB then a.priority > b.priority
    else a.feePerKB > b.feePerKB
  }

  predicate ByStakeAndFeeAndThenPriority(a: Item, b: Item) {
    var cmp := CompareStakePriority(a, b);
    if cmp == 1 then true
    else if cmp == -1 then false
    else if !(StakePriority(a.txType) == 0 && StakePriority(b.txType) == 0) then a.feePerKB > b.feePerKB
    else if a.priority == b.priority then a.feePerKB > b.feePerKB
    else a.priority > b.priority
  }

  // What sorting relies on: `less` and "not less" are both transitive.
  ghost predicate StrictWeakOrder(less: Less) {
    && (forall a :: !less(a, a))
    && (forall a, b, c :: less(a, b) && less(b, c) ==> less(a, c))
    && (forall a, b, c :: !less(a, b) && !less(b, c) ==> !less(a, c))
  }

  // Regular transactions and revocations.
  predicate Low(t: TxType) {
    t.Regular? || t.Revocation?
  }

  ghost predicate HigherClass(x: Item, y: Item) {
    (x.txType.Vote? && !y.txType.Vote?) || (x.txType.Ticket? && Low(y.txType))
  }

  ghost predicate SameClass(x: Item, y: Item) {
    x.txType == y.txType || (Low(x.txType) && Low(y.txType))
  }

  ghost predicate RanksStake(less: Less) {
    forall a: Item, b: Item :: HigherClass(a, b) ==> less(a, b)
  }

  // x comes out no later than y.  Votes come before tickets and tickets before the
  // rest.  By fee, the higher fee per kilobyte comes first and then the higher
  // priority; before that, the higher priority and then the higher fee, but for
  // votes and tickets only the fee counts.
  ghost predicate NoLater(byFee: bool, x: Item, y: Item) {
    || HigherClass(x, y)
    || (SameClass(x, y) &&
        if byFee then x.feePerKB > y.feePerKB || (x.feePerKB == y.feePerKB && x.priority >= y.priority)
        else if Low(x.txType) then x.priority > y.priority || (x.priority == y.priority && x.feePerKB >= y.feePerKB)
        else x.feePerKB >= y.feePerKB)
  }

  function Order(byFee: bool): Less {
    if byFee then ByStakeAndFee else ByStakeAndFeeAndThenPriority
  }

  // That is what the two comparisons come to.
  lemma OrdersMean(byFee: bool, x: Item, y: Item)
    ensures !Order(byFee)(y, x) <==> NoLater(byFee, x, y)
  {
  }

  // Both orders the template builder uses are fit for sorting, and both put
  // votes first.
  lemma OrdersAreSound()
    ensures StrictWeakOrder(ByStakeAndFee) && RanksStake(ByStakeAndFee)
    ensures StrictWeakOrder(ByStakeAndFeeAndThenPriority) && RanksStake(ByStakeAndFeeAndThenPriority)
  {
  }

  // ---------------------------------------------------------------- the heap

  function Parent(k: nat): nat
    requires k >= 1
  {
    (k - 1) / 2
  }

  // No item of s[..n] at a place whose parent is at or after lo precedes it.
  ghost predicate HeapFrom(s: seq<Item>, less: Less, lo: nat, n: nat)
    requires n <= |s|
  {
    forall k :: 1 <= k < n && Parent(k) >= lo ==> !less(s[k], s[Parent(k)])
  }

  ghost predicate Heap(s: seq<Item>, less: Less) {
    HeapFrom(s, less, 0, |s|)
  }

  lemma {:induction false} RootIsFirst(s: seq<Item>, less: Less, k: nat)
    requires Heap(s, less) && StrictWeakOrder(less) && k < |s|
    ensures !less(s[k], s[0])
  {
    if k > 0 {
      RootIsFirst(s, less, Parent(k));
    }
  }

  // In order except that the item at j may precede its parent.
  ghost predicate HeapButUp(s: seq<Item>, less: Less, j: nat) {
    && j < |s|
    && (forall k :: 1 <= k < |s| && k != j ==> !less(s[k], s[Parent(k)]))
    && (forall k :: 1 <= k < |s| && j >= 1 && Parent(k) == j ==> !less(s[k], s[Parent(j)]))
  }

  lemma UpStep(s: seq<Item>, less: Less, j: nat)
    requires StrictWeakOrder(less) && HeapButUp(s, less, j) && j >= 1 && less(s[j], s[Parent(j)])
    ensures HeapButUp(Swapped(s, Parent(j), j), less, Parent(j))
  {
    var i := Parent(j);
    var t := Swapped(s, i, j);
    forall k | 1 <= k < |t| && k != i ensures !less(t[k], t[Parent(k)]) {
      if k == j {
      } else if Parent(k) == i {
      } else if Parent(k) == j {
      }
    }
    forall k | 1 <= k < |t| && i >= 1 && Parent(k) == i ensures !less(t[k], t[Parent(i)]) {
    }
  }

  method Up(s: seq<Item>, less: Less, j0: nat) returns (t: seq<Item>)
    requires StrictWeakOrder(less) && HeapButUp(s, less, j0)
    ensures Heap(t, less) && multiset(t) == multiset(s)
  {
    t := s;
    var j := j0;
    while j >= 1 && less(t[j], t[Parent(j)])
      invariant HeapButUp(t, less, j) && multiset(t) == multiset(s)
      decreases j
    {
      UpStep(t, less, j);
      SwappedSame(t, Parent(j), j);
      t := Swapped(t, Parent(j), j);
      j := Parent(j);
    }
  }

  // In order below lo in s[..n], except that the item at i may come after its
  // children.
  ghost predicate HeapButDown(s: seq<Item>, less: Less, lo: nat, n: nat, i: nat) {
    && lo <= i < n <= |s|
    && (forall k :: 1 <= k < n && Parent(k) >= lo && Parent(k) != i ==> !less(s[k], s[Parent(k)]))
    && (forall k :: 1 <= k < n && i >= 1 && Parent(i) >= lo && Parent(k) == i ==> !less(s[k], s[Parent(i)]))
  }

  lemma DownStep(s: seq<Item>, less: Less, lo: nat, n: nat, i: nat, j: nat)
    requires StrictWeakOrder(less) && HeapButDown(s, less, lo, n, i)
    requires 1 <= j < n && Parent(j) == i && less(s[j], s[i])
    requires forall k :: 1 <= k < n && Parent(k) == i ==> !less(s[k], s[j])
    ensures HeapButDown(Swapped(s, i, j), less, lo, n, j)
  {
    var t := Swapped(s, i, j);
    forall k | 1 <= k < n && Parent(k) >= lo && Parent(k) != j ensures !less(t[k], t[Parent(k)]) {
      if k == j {
      } else if Parent(k) == i {
      } else if k == i {
      }
    }
    forall k | 1 <= k < n && Parent(k) == j ensures !less(t[k], t[Parent(j)]) {
    }
  }

  // The child of i that no other child precedes.
  method FirstChild(s: seq<Item>, less: Less, i: nat, n: nat) returns (j: nat)
    requires StrictWeakOrder(less) && 2 * i + 1 < n <= |s|
    ensures i < j < n && Parent(j) == i
    ensures forall k :: 1 <= k < n && Parent(k) == i ==> !less(s[k], s[j])
  {
    j := 2 * i + 1;
    if j + 1 < n && less(s[j + 1], s[j]) {
      j := j + 1;
    }
    forall k | 1 <= k < n && Parent(k) == i ensures k == 2 * i + 1 || k == 2 * i + 2 {
    }
  }

  lemma DownDone(s: seq<Item>, less: Less, lo: nat, n: nat, i: nat, j: nat)
    requires StrictWeakOrder(less) && HeapButDown(s, less, lo, n, i) && j < n && !less(s[j], s[i])
    requires forall k :: 1 <= k < n && Parent(k) == i ==> !less(s[k], s[j])
    ensures HeapFrom(s, less, lo, n)
  {
  }

  method Down(s: seq<Item>, less: Less, i0: nat, n: nat) returns (t: seq<Item>)
    requires StrictWeakOrder(less) && i0 < n <= |s| && HeapFrom(s, less, i0 + 1, n)
    ensures |t| == |s| && HeapFrom(t, less, i0, n) && multiset(t) == multiset(s)
    ensures t[n..] == s[n..]
  {
    t := s;
    var i := i0;
    while 2 * i + 1 < n
      invariant |t| == |s| && HeapButDown(t, less, i0, n, i) && multiset(t) == multiset(s)
      invariant t[n..] == s[n..]
      decreases n - i
    {
      var j := FirstChild(t, less, i, n);
      if !less(t[j], t[i]) {
        DownDone(t, less, i0, n, i, j);
        return;
      }
      DownStep(t, less, i0, n, i, j);
      SwappedSame(t, i, j);
      t := Swapped(t, i, j);
      i := j;
    }
  }

  method Heapify(s: seq<Item>, less: Less) returns (t: seq<Item>)
    requires StrictWeakOrder(less)
    ensures Heap(t, less) && multiset(t) == multiset(s)
  {
    t := s;
    var i := |s| / 2;
    while i > 0
      invariant 0 <= i <= |s| / 2 && |t| == |s|
      invariant HeapFrom(t, less, i, |t|) && multiset(t) == multiset(s)
    {
      i := i - 1;
      t := Down(t, less, i, |t|);
    }
  }

  // The root and, in order again, the rest.
  method TakeFirst(s: seq<Item>, less: Less) returns (x: Item, rest: seq<Item>)
    requires StrictWeakOrder(less) && Heap(s, less) && |s| > 0
    ensures Heap(rest, less) && multiset(s) == multiset(rest) + multiset{x}
    ensures forall y :: y in rest ==> !less(y, x)
  {
    var n := |s| - 1;
    SwappedSame(s, 0, n);
    x := s[0];
    var t := Swapped(s, 0, n);
    if n > 0 {
      SwappedHeap(s, less);
      t := Down(t, less, 0, n);
    }
    rest := t[..n];
    assert t[n..] == [x];
    SplitLast(t, x);
    RootFirstOfAll(s, less, rest);
  }

  lemma SplitLast(t: seq<Item>, x: Item)
    requires |t| > 0 && t[|t| - 1..] == [x]
    ensures multiset(t) == multiset(t[..|t| - 1]) + multiset{x}
  {
    assert t == t[..|t| - 1] + [x];
  }

  // With the root and the last item swapped, all is in order below the root.
  lemma SwappedHeap(s: seq<Item>, less: Less)
    requires Heap(s, less) && |s| > 1
    ensures HeapFrom(Swapped(s, 0, |s| - 1), less, 1, |s| - 1)
  {
    var t := Swapped(s, 0, |s| - 1);
    forall k | 1 <= k < |s| - 1 && Parent(k) >= 1 ensures !less(t[k], t[Parent(k)]) {
      assert t[k] == s[k] && t[Parent(k)] == s[Parent(k)];
    }
  }

  lemma RootFirstOfAll(s: seq<Item>, less: Less, rest: seq<Item>)
    requires StrictWeakOrder(less) && Heap(s, less) && |s| > 0
    requires multiset(s) == multiset(rest) + multiset{s[0]}
    ensures forall y :: y in rest ==> !less(y, s[0])
  {
    forall y | y in rest ensures !less(y, s[0]) {
      assert y in multiset(rest) && y in multiset(s) && y in s;
      var k :| 0 <= k < |s| && s[k] == y;
      RootIsFirst(s, less, k);
    }
  }

  // --------------------------------------------------------------- the queue

  class TxPriorityQueue {
    var lessFunc: Less
    var items: seq<Item>

    ghost predicate Valid()
      reads this
    {
      StrictWeakOrder(lessFunc) && RanksStake(lessFunc) && Heap(items, lessFunc)
    }

    constructor (lessFunc: Less)
      requires StrictWeakOrder(lessFunc) && RanksStake(lessFunc)
      ensures Valid() && items == [] && this.lessFunc == lessFunc
    {
      this.lessFunc := lessFunc;
      items := [];
    }

    // Change the order, and the heap with it.
    method SetLessFunc(lessFunc: Less)
      requires StrictWeakOrder(lessFunc) && RanksStake(lessFunc)
      modifies this
      ensures Valid() && this.lessFunc == lessFunc
      ensures multiset(items) == multiset(old(items))
    {
      this.lessFunc := lessFunc;
      items := Heapify(items, lessFunc);
    }

    method Push(x: Item)
      requires Valid()
      modifies this
      ensures Valid() && lessFunc == old(lessFunc)
      ensures multiset(items) == multiset(old(items)) + multiset{x}
    {
      var s := items + [x];
      items := Up(s, lessFunc, |items|);
    }

    // Take out an item that no remaining item precedes.
    method Pop() returns (x: Item)
      requires Valid() && |items| > 0
      modifies this
      ensures Valid() && lessFunc == old(lessFunc)
      ensures multiset(old(items)) == multiset(items) + multiset{x}
      ensures forall y :: y in items ==> !lessFunc(y, x)
      ensures forall byFee: bool, y :: lessFunc == Order(byFee) && y in items ==> NoLater(byFee, x, y)
      // no ticket or regular transaction comes out while a vote is queued
      ensures forall y :: y in items ==> !HigherClass(y, x)
    {
      x, items := TakeFirst(items, lessFunc);
      forall byFee: bool, y | lessFunc == Order(byFee) && y in items ensures NoLater(byFee, x, y) {
        OrdersMean(byFee, x, y);
      }
    }
  }
}
