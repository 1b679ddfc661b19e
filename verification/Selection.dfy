// Choosing the transactions of a block template with a priority queue over a
// dependency graph.
module Selection {
  import opened Wrappers
  import opened TxQueue
  import opened Replay
  import opened Drafts
  import opened Greedy

  // -------------------------------------------------------- the dependencies

  type Dependers = map<Hash, seq<Item>>
  type DependsOn = map<Hash, set<Hash>>

  // What a transaction still waits for.
  function Waits(dependsOn: DependsOn, h: Hash): set<Hash> {
    if h in dependsOn then dependsOn[h] else {}
  }

  function ListOf(dependers: Dependers, p: Hash): seq<Item> {
    if p in dependers then dependers[p] else []
  }

  predicate Queued(h: Hash, xs: seq<Item>) {
    exists x :: x in xs && x.hash == h
  }

  // The queue, the lists of those that wait, and what they wait for.
  datatype Graph = Graph(queue: seq<Item>, dependers: Dependers, dependsOn: DependsOn)

  // h still waits for exactly what has not joined the block, is on the list of each
  // of these that was not turned away, and is queued from when it waits
  // for nothing until there is a decision on it.
  ghost predicate Tracked(cfg: Config, pool: Pool, g: Graph, s: Stage, h: Hash) {
    && (forall p :: p in Waits(g.dependsOn, h) <==> Awaits(cfg, pool, h, p) && p !in s.joined)
    && (forall p :: p in Waits(g.dependsOn, h) ==> p in s.refused || Queued(h, ListOf(g.dependers, p)))
    && (Waits(g.dependsOn, h) == {} && !Decided(s, h) ==> Queued(h, g.queue))
  }

  // y may be in the queue.
  ghost predicate InLine(cfg: Config, own: Items, pool: Pool, ready: set<Hash>, g: Graph, s: Stage,
                         y: Item) {
    && IsOwn(cfg, own, y) && Waits(g.dependsOn, y.hash) == {}
    && y.hash in ready
    && (Decided(s, y.hash) ==> Twice(cfg, pool, y.hash))
  }

  // y may be on the list of those that wait for p.
  ghost predicate OnList(cfg: Config, own: Items, pool: Pool, ready: set<Hash>, g: Graph, s: Stage, p: Hash, y: Item) {
    && IsOwn(cfg, own, y) && y.hash in ready
    && p in Waits(g.dependsOn, y.hash) && !Decided(s, p)
  }

  // Only what spends twice from one transaction is there more than once.
  ghost predicate Single(cfg: Config, pool: Pool, xs: seq<Item>) {
    forall y :: y in xs && !Twice(cfg, pool, y.hash) ==> multiset(xs)[y] <= 1
  }

  ghost predicate QueueOk(cfg: Config, own: Items, pool: Pool, ready: set<Hash>, g: Graph, s: Stage) {
    Single(cfg, pool, g.queue) && forall y :: y in g.queue ==> InLine(cfg, own, pool, ready, g, s, y)
  }

  ghost predicate ListsOk(cfg: Config, own: Items, pool: Pool, ready: set<Hash>, g: Graph, s: Stage) {
    && (forall p :: Single(cfg, pool, ListOf(g.dependers, p)))
    && (forall p, y :: y in ListOf(g.dependers, p) ==> OnList(cfg, own, pool, ready, g, s, p, y))
  }

  ghost predicate GraphOk(cfg: Config, own: Items, pool: Pool, ready: set<Hash>, g: Graph, s: Stage) {
    && (forall h :: h in ready ==> Tracked(cfg, pool, g, s, h))
    && QueueOk(cfg, own, pool, ready, g, s) && ListsOk(cfg, own, pool, ready, g, s)
    && (forall h :: Decided(s, h) ==> Waits(g.dependsOn, h) == {})
  }

  // ------------------------------------------- the queue follows the open ones

  // An item that no queued item precedes may be next.
  lemma FirstMayCome(cfg: Config, own: Items, pool: Pool, ready: set<Hash>, g: Graph, s: Stage, x: Item)
    requires GraphOk(cfg, own, pool, ready, g, s) && x in g.queue
    requires forall y :: y in g.queue ==> NoLater(s.byFee, x, y)
    ensures MayCome(cfg, own, pool, ready, s, x)
  {
    assert InLine(cfg, own, pool, ready, g, s, x);
    if x.hash in ready {
      assert Tracked(cfg, pool, g, s, x.hash);
    }
    forall h | Open(cfg, pool, ready, s, h) ensures h in own && NoLater(s.byFee, x, own[h]) {
      OpenIsQueued(cfg, own, pool, ready, g, s, h);
    }
  }

  lemma OpenIsQueued(cfg: Config, own: Items, pool: Pool, ready: set<Hash>, g: Graph, s: Stage, h: Hash)
    requires GraphOk(cfg, own, pool, ready, g, s) && Open(cfg, pool, ready, s, h)
    ensures h in own && own[h] in g.queue
  {
    assert Tracked(cfg, pool, g, s, h);
    assert Queued(h, g.queue);
    var y :| y in g.queue && y.hash == h;
    assert InLine(cfg, own, pool, ready, g, s, y);
  }

  // With the queue empty, nothing is open.
  lemma EmptyIsFinished(cfg: Config, own: Items, pool: Pool, ready: set<Hash>, g: Graph, s: Stage)
    requires GraphOk(cfg, own, pool, ready, g, s) && g.queue == []
    ensures Finished(cfg, pool, ready, s)
  {
    forall h ensures !Open(cfg, pool, ready, s, h) {
      if Open(cfg, pool, ready, s, h) {
        OpenIsQueued(cfg, own, pool, ready, g, s, h);
      }
    }
  }

  // ------------------------------------------------------ a turn that skips

  // The queue without one occurrence of x.
  ghost predicate Popped(before: seq<Item>, x: Item, after: seq<Item>) {
    multiset(before) == multiset(after) + multiset{x}
  }

  lemma SameMembers(s: seq<Item>, t: seq<Item>)
    requires multiset(s) == multiset(t)
    ensures |s| == |t| && forall y :: y in s <==> y in t
  {
    assert |multiset(s)| == |s| && |multiset(t)| == |t|;
    forall y ensures y in s <==> y in t {
      assert y in s <==> y in multiset(s);
      assert y in t <==> y in multiset(t);
    }
  }

  lemma PoppedMembers(before: seq<Item>, x: Item, after: seq<Item>)
    requires Popped(before, x, after)
    ensures |before| == |after| + 1 && x in before
    ensures forall y :: y in before <==> y in after || y == x
    ensures forall y :: multiset(after)[y] <= multiset(before)[y]
    ensures x in after ==> multiset(before)[x] >= 2
  {
    SameMembers(before, after + [x]);
    assert x in after <==> x in multiset(after);
  }

  lemma PoppedSingle(cfg: Config, pool: Pool, before: seq<Item>, x: Item, after: seq<Item>)
    requires Single(cfg, pool, before) && Popped(before, x, after)
    ensures Single(cfg, pool, after)
    ensures x in after ==> Twice(cfg, pool, x.hash)
  {
    PoppedMembers(before, x, after);
  }

  // What a skipped item leaves behind.
  ghost predicate SkippedTo(g: Graph, s: Stage, x: Item, g1: Graph, s1: Stage) {
    && Popped(g.queue, x, g1.queue) && g1.dependers == g.dependers - {x.hash} && g1.dependsOn == g.dependsOn
    && s1.joined == s.joined && s1.refused == if Decided(s, x.hash) then s.refused else s.refused + {x.hash}
  }

  lemma SkipTracked(cfg: Config, own: Items, pool: Pool, ready: set<Hash>, g: Graph, s: Stage, x: Item,
                    g1: Graph, s1: Stage, h: Hash)
    requires Tracked(cfg, pool, g, s, h) && ListsOk(cfg, own, pool, ready, g, s) && SkippedTo(g, s, x, g1, s1)
    ensures Tracked(cfg, pool, g1, s1, h)
  {
    PoppedMembers(g.queue, x, g1.queue);
    forall p | p in Waits(g.dependsOn, h) ensures p in s1.refused || Queued(h, ListOf(g1.dependers, p)) {
      if p !in s.refused {
        var y :| y in ListOf(g.dependers, p) && y.hash == h;
        assert OnList(cfg, own, pool, ready, g, s, p, y);
        assert p != x.hash ==> y in ListOf(g1.dependers, p);
      }
    }
    if Waits(g.dependsOn, h) == {} && !Decided(s1, h) {
      var y :| y in g.queue && y.hash == h;
      assert y in g1.queue;
    }
  }

  lemma SkipKeeps(cfg: Config, own: Items, pool: Pool, ready: set<Hash>, g: Graph, s: Stage, x: Item,
                  g1: Graph, s1: Stage)
    requires GraphOk(cfg, own, pool, ready, g, s) && SkippedTo(g, s, x, g1, s1)
    ensures GraphOk(cfg, own, pool, ready, g1, s1)
  {
    PoppedMembers(g.queue, x, g1.queue);
    PoppedSingle(cfg, pool, g.queue, x, g1.queue);
    assert InLine(cfg, own, pool, ready, g, s, x);
    forall h | h in ready ensures Tracked(cfg, pool, g1, s1, h) {
      SkipTracked(cfg, own, pool, ready, g, s, x, g1, s1, h);
    }
    forall y | y in g1.queue ensures InLine(cfg, own, pool, ready, g1, s1, y) {
      assert InLine(cfg, own, pool, ready, g, s, y);
      assert y.hash == x.hash ==> y == x;
    }
    forall p, y | y in ListOf(g1.dependers, p) ensures OnList(cfg, own, pool, ready, g1, s1, p, y) {
      assert OnList(cfg, own, pool, ready, g, s, p, y);
    }
    forall p ensures Single(cfg, pool, ListOf(g1.dependers, p)) {
      assert Single(cfg, pool, ListOf(g.dependers, p));
    }
  }

  // ------------------------------------------------ a turn that changes the order

  ghost predicate SameGraph(g: Graph, s: Stage, g1: Graph, s1: Stage) {
    && multiset(g.queue) == multiset(g1.queue) && g1.dependsOn == g.dependsOn
    && (forall p :: ListOf(g1.dependers, p) == ListOf(g.dependers, p))
    && s1.joined == s.joined && s1.refused == s.refused
  }

  lemma SameKeeps(cfg: Config, own: Items, pool: Pool, ready: set<Hash>, g: Graph, s: Stage,
                  g1: Graph, s1: Stage)
    requires GraphOk(cfg, own, pool, ready, g, s) && SameGraph(g, s, g1, s1)
    ensures GraphOk(cfg, own, pool, ready, g1, s1)
  {
    SameMembers(g.queue, g1.queue);
    forall h | h in ready ensures Tracked(cfg, pool, g1, s1, h) {
      assert Tracked(cfg, pool, g, s, h);
      if Queued(h, g.queue) {
        var y :| y in g.queue && y.hash == h;
        assert y in g1.queue;
      }
    }
    forall y | y in g1.queue ensures InLine(cfg, own, pool, ready, g1, s1, y) {
      assert InLine(cfg, own, pool, ready, g, s, y);
    }
    forall p, y | y in ListOf(g1.dependers, p) ensures OnList(cfg, own, pool, ready, g1, s1, p, y) {
      assert OnList(cfg, own, pool, ready, g, s, p, y);
    }
  }

  // ------------------------------------------------------- a turn that takes

  // What happens to those that waited for p: they do not any more, and those that
  // wait for nothing more are queued, and nothing else is.
  ghost predicate Released(deps: seq<Item>, p: Hash, dependsOn: DependsOn, dependsOn1: DependsOn,
                           queue: seq<Item>, queue1: seq<Item>) {
    && (forall h :: Waits(dependsOn1, h) == Waits(dependsOn, h) - if Queued(h, deps) then {p} else {})
    && (forall y :: y in queue ==> y in queue1)
    && (forall y :: y in deps && Waits(dependsOn1, y.hash) == {} ==> y in queue1)
    && (forall y :: y in queue1 ==> y in queue || (y in deps && Waits(dependsOn1, y.hash) == {}))
    && (forall y :: multiset(queue1)[y] <= multiset(queue)[y] + multiset(deps)[y])
  }

  lemma QueuedNext(xs: seq<Item>, i: nat, h: Hash)
    requires i < |xs|
    ensures Queued(h, xs[..i + 1]) <==> Queued(h, xs[..i]) || h == xs[i].hash
  {
    assert xs[..i + 1] == xs[..i] + [xs[i]];
    if h == xs[i].hash {
      assert xs[i] in xs[..i + 1];
    }
    if Queued(h, xs[..i]) {
      var x :| x in xs[..i] && x.hash == h;
      assert x in xs[..i + 1];
    }
  }

  // Push, said of membership.
  method Enqueue(queue: TxPriorityQueue, x: Item)
    requires queue.Valid()
    modifies queue
    ensures queue.Valid() && queue.lessFunc == old(queue.lessFunc)
    ensures multiset(queue.items) == multiset(old(queue.items)) + multiset{x}
    ensures |queue.items| == |old(queue.items)| + 1
    ensures forall y :: y in queue.items <==> y in old(queue.items) || y == x
  {
    ghost var before := queue.items;
    queue.Push(x);
    SameMembers(queue.items, before + [x]);
  }

  lemma ReleasedNext(deps: seq<Item>, i: nat, p: Hash, dependsOn0: DependsOn, dependsOn: DependsOn,
                     dependsOn1: DependsOn, queue0: seq<Item>, queue: seq<Item>, queue1: seq<Item>)
    requires i < |deps| && Released(deps[..i], p, dependsOn0, dependsOn, queue0, queue)
    requires forall h :: Waits(dependsOn1, h) == Waits(dependsOn, h) - if h == deps[i].hash then {p} else {}
    requires if Waits(dependsOn1, deps[i].hash) == {}
             then multiset(queue1) == multiset(queue) + multiset{deps[i]} &&
                  (forall y :: y in queue1 <==> y in queue || y == deps[i])
             else queue1 == queue
    ensures Released(deps[..i + 1], p, dependsOn0, dependsOn1, queue0, queue1)
  {
    var more := deps[..i + 1];
    assert more == deps[..i] + [deps[i]];
    forall h ensures Waits(dependsOn1, h) == Waits(dependsOn0, h) - if Queued(h, more) then {p} else {} {
      QueuedNext(deps, i, h);
    }
    forall y | y in queue1 ensures y in queue0 || (y in more && Waits(dependsOn1, y.hash) == {}) {
      assert y in queue || y == deps[i];
    }
  }

  // Release the transactions that waited for p.
  method Release(queue: TxPriorityQueue, deps: seq<Item>, dependsOn0: DependsOn, p: Hash)
    returns (dependsOn: DependsOn)
    requires queue.Valid()
    modifies queue
    ensures queue.Valid() && queue.lessFunc == old(queue.lessFunc)
    ensures |queue.items| <= |old(queue.items)| + |deps|
    ensures Released(deps, p, dependsOn0, dependsOn, old(queue.items), queue.items)
  {
    dependsOn := dependsOn0;
    for i := 0 to |deps|
      invariant queue.Valid() && queue.lessFunc == old(queue.lessFunc)
      invariant |queue.items| <= |old(queue.items)| + i
      invariant Released(deps[..i], p, dependsOn0, dependsOn, old(queue.items), queue.items)
    {
      ghost var was, before := dependsOn, queue.items;
      var x := deps[i];
      if x.hash in dependsOn {
        dependsOn := dependsOn[x.hash := dependsOn[x.hash] - {p}];
      }
      if Waits(dependsOn, x.hash) == {} {
        Enqueue(queue, x);
      }
      ReleasedNext(deps, i, p, dependsOn0, was, dependsOn, old(queue.items), before, queue.items);
    }
    assert deps[..|deps|] == deps;
  }

  // What an item that is taken leaves behind.
  ghost predicate TakenTo(g: Graph, s: Stage, x: Item, popped: seq<Item>, g1: Graph, s1: Stage) {
    && Popped(g.queue, x, popped) && g1.dependers == g.dependers - {x.hash}
    && Released(ListOf(g.dependers, x.hash), x.hash, g.dependsOn, g1.dependsOn, popped, g1.queue)
    && s1.refused == s.refused && s1.joined == if Decided(s, x.hash) then s.joined else s.joined + {x.hash}
  }

  // Nobody waits for one that was decided on before.
  lemma NoneWaits(cfg: Config, own: Items, pool: Pool, ready: set<Hash>, g: Graph, s: Stage, p: Hash)
    requires ListsOk(cfg, own, pool, ready, g, s) && Decided(s, p)
    ensures ListOf(g.dependers, p) == []
  {
    var deps := ListOf(g.dependers, p);
    assert |deps| > 0 ==> deps[0] in deps;
    forall y ensures y !in deps {
      assert y in deps ==> OnList(cfg, own, pool, ready, g, s, p, y);
    }
  }

  lemma TakeWaits(cfg: Config, own: Items, pool: Pool, ready: set<Hash>, g: Graph, s: Stage, x: Item,
                  popped: seq<Item>, g1: Graph, s1: Stage, h: Hash)
    requires Tracked(cfg, pool, g, s, h) && ListsOk(cfg, own, pool, ready, g, s) && TakenTo(g, s, x, popped, g1, s1)
    ensures forall p :: p in Waits(g1.dependsOn, h) <==> Awaits(cfg, pool, h, p) && p !in s1.joined
    ensures forall p :: p in Waits(g1.dependsOn, h) ==> p in s1.refused || Queued(h, ListOf(g1.dependers, p))
  {
    var deps := ListOf(g.dependers, x.hash);
    if Decided(s, x.hash) {
      NoneWaits(cfg, own, pool, ready, g, s, x.hash);
    }
    forall p | p in Waits(g1.dependsOn, h) ensures p in s1.refused || Queued(h, ListOf(g1.dependers, p)) {
      assert p in Waits(g.dependsOn, h);
      if p !in s.refused {
        assert Queued(h, ListOf(g.dependers, p)) && p != x.hash;
      }
    }
  }

  lemma TakeTracked(cfg: Config, own: Items, pool: Pool, ready: set<Hash>, g: Graph, s: Stage, x: Item,
                    popped: seq<Item>, g1: Graph, s1: Stage, h: Hash)
    requires Tracked(cfg, pool, g, s, h) && ListsOk(cfg, own, pool, ready, g, s) && TakenTo(g, s, x, popped, g1, s1)
    ensures Tracked(cfg, pool, g1, s1, h)
  {
    TakeWaits(cfg, own, pool, ready, g, s, x, popped, g1, s1, h);
    PoppedMembers(g.queue, x, popped);
    var deps := ListOf(g.dependers, x.hash);
    if Waits(g1.dependsOn, h) == {} && !Decided(s1, h) {
      if Waits(g.dependsOn, h) == {} {
        var y :| y in g.queue && y.hash == h;
        assert y in popped ==> y in g1.queue;
      } else {
        assert Queued(h, deps);
        var y :| y in deps && y.hash == h;
        assert y in g1.queue;
      }
    }
  }

  // One that is released was not queued and is not decided on.
  lemma TakeInLine(cfg: Config, own: Items, pool: Pool, ready: set<Hash>, g: Graph, s: Stage, x: Item,
                   popped: seq<Item>, g1: Graph, s1: Stage, y: Item)
    requires GraphOk(cfg, own, pool, ready, g, s) && TakenTo(g, s, x, popped, g1, s1) && y in g1.queue
    ensures InLine(cfg, own, pool, ready, g1, s1, y)
    ensures !Twice(cfg, pool, y.hash) ==> multiset(g1.queue)[y] <= 1
  {
    PoppedMembers(g.queue, x, popped);
    PoppedSingle(cfg, pool, g.queue, x, popped);
    assert InLine(cfg, own, pool, ready, g, s, x);
    var deps := ListOf(g.dependers, x.hash);
    assert Single(cfg, pool, deps);
    if y in deps {
      assert OnList(cfg, own, pool, ready, g, s, x.hash, y);
      assert y in g.queue ==> InLine(cfg, own, pool, ready, g, s, y);
      assert y !in g.queue && y !in multiset(popped);
      assert multiset(popped)[y] == 0;
    } else {
      assert y in popped && multiset(deps)[y] == 0;
      assert InLine(cfg, own, pool, ready, g, s, y);
      assert y.hash == x.hash ==> y == x;
    }
  }

  lemma TakeLists(cfg: Config, own: Items, pool: Pool, ready: set<Hash>, g: Graph, s: Stage, x: Item,
                  popped: seq<Item>, g1: Graph, s1: Stage)
    requires GraphOk(cfg, own, pool, ready, g, s) && TakenTo(g, s, x, popped, g1, s1)
    ensures ListsOk(cfg, own, pool, ready, g1, s1)
  {
    forall p, y | y in ListOf(g1.dependers, p) ensures OnList(cfg, own, pool, ready, g1, s1, p, y) {
      assert OnList(cfg, own, pool, ready, g, s, p, y) && p != x.hash;
    }
    forall p ensures Single(cfg, pool, ListOf(g1.dependers, p)) {
      assert Single(cfg, pool, ListOf(g.dependers, p));
    }
  }

  lemma TakeKeeps(cfg: Config, own: Items, pool: Pool, ready: set<Hash>, g: Graph, s: Stage, x: Item,
                  popped: seq<Item>, g1: Graph, s1: Stage)
    requires GraphOk(cfg, own, pool, ready, g, s) && TakenTo(g, s, x, popped, g1, s1)
    ensures GraphOk(cfg, own, pool, ready, g1, s1)
  {
    PoppedMembers(g.queue, x, popped);
    assert InLine(cfg, own, pool, ready, g, s, x);
    forall h | h in ready ensures Tracked(cfg, pool, g1, s1, h) {
      TakeTracked(cfg, own, pool, ready, g, s, x, popped, g1, s1, h);
    }
    forall y | y in g1.queue
      ensures InLine(cfg, own, pool, ready, g1, s1, y)
      ensures !Twice(cfg, pool, y.hash) ==> multiset(g1.queue)[y] <= 1
    {
      TakeInLine(cfg, own, pool, ready, g, s, x, popped, g1, s1, y);
    }
    TakeLists(cfg, own, pool, ready, g, s, x, popped, g1, s1);
  }

  // ------------------------------------------------------------- termination

  // Every entry of every list of waiting transactions.
  ghost function Entries(dependers: Dependers): set<(Hash, int)> {
    set p, n | p in dependers && 0 <= n < |dependers[p]| :: (p, n)
  }

  lemma {:induction false} RowSize(p: Hash, n: nat)
    ensures |set k: int | 0 <= k < n :: (p, k)| == n
  {
    if n > 0 {
      RowSize(p, n - 1);
      var r := set k: int | 0 <= k < n - 1 :: (p, k);
      assert (set k: int | 0 <= k < n :: (p, k)) == r + {(p, n - 1)};
    }
  }

  // Taking a list out takes exactly its entries out.
  lemma EntriesWithout(dependers: Dependers, p: Hash)
    ensures |Entries(dependers)| == |Entries(dependers - {p})| + |ListOf(dependers, p)|
  {
    var row := set k: int | 0 <= k < |ListOf(dependers, p)| :: (p, k);
    RowSize(p, |ListOf(dependers, p)|);
    assert Entries(dependers) == Entries(dependers - {p}) + row;
  }

  // The queue and all that waits.
  ghost function Left(queue: seq<Item>, dependers: Dependers): nat {
    |queue| + |Entries(dependers)|
  }

  // ---------------------------------------------------------- the selection

  datatype Work = Work(draft: Draft, dependers: Dependers, dependsOn: DependsOn, sortedByFee: bool)

  ghost predicate Matches(w: Work, s: Stage) {
    w.draft == s.draft && w.sortedByFee == s.byFee
  }

  // Pop, with the order said of the whole queue.
  method Dequeue(queue: TxPriorityQueue) returns (x: Item)
    requires queue.Valid() && |queue.items| > 0
    modifies queue
    ensures queue.Valid() && queue.lessFunc == old(queue.lessFunc) && Popped(old(queue.items), x, queue.items)
    ensures x in old(queue.items)
    ensures forall byFee: bool, y :: queue.lessFunc == Order(byFee) && y in old(queue.items) ==> NoLater(byFee, x, y)
  {
    ghost var before := queue.items;
    x := queue.Pop();
    PoppedMembers(before, x, queue.items);
  }

  // Change to the order by fee.
  method Resort(queue: TxPriorityQueue)
    requires queue.Valid()
    modifies queue
    ensures queue.Valid() && queue.lessFunc == Order(true) && multiset(queue.items) == multiset(old(queue.items))
  {
    OrdersAreSound();
    queue.SetLessFunc(ByStakeAndFee);
  }

  // Put a popped transaction into the block and release its children.
  method Include(cfg: Config, queue: TxPriorityQueue, w0: Work, x: Item, n: nat) returns (w: Work)
    requires queue.Valid() && Known(cfg, x)
    modifies queue
    ensures queue.Valid() && queue.lessFunc == old(queue.lessFunc)
    ensures w.draft == Put(w0.draft, cfg.txs[x.hash], n) && w.sortedByFee == w0.sortedByFee
    ensures w.dependers == w0.dependers - {x.hash}
    ensures Released(ListOf(w0.dependers, x.hash), x.hash, w0.dependsOn, w.dependsOn, old(queue.items), queue.items)
    ensures Left(queue.items, w.dependers) <= Left(old(queue.items), w0.dependers)
  {
    EntriesWithout(w0.dependers, x.hash);
    var dependsOn := Release(queue, ListOf(w0.dependers, x.hash), w0.dependsOn, x.hash);
    var view := SpendTransaction(w0.draft.view, cfg.txs[x.hash]);
    w := Work(Put(w0.draft, cfg.txs[x.hash], n).(view := view), w0.dependers - {x.hash}, dependsOn, w0.sortedByFee);
  }

  // How the popped item x is dealt with.
  ghost predicate DealtWith(cfg: Config, s: Stage, x: Item, popped: seq<Item>, w0: Work, w: Work,
                            queue: seq<Item>) {
    match Fate(cfg, s, x)
    case Skip => w.dependers == w0.dependers - {x.hash} && w.dependsOn == w0.dependsOn &&
                 multiset(queue) == multiset(popped)
    case Requeue => w.dependers == w0.dependers[x.hash := ListOf(w0.dependers, x.hash)] &&
                    w.dependsOn == w0.dependsOn && multiset(queue) == multiset(popped) + multiset{x}
    case Take(_) => w.dependers == w0.dependers - {x.hash} &&
                    Released(ListOf(w0.dependers, x.hash), x.hash, w0.dependsOn, w.dependsOn, popped, queue)
  }

  // However it is dealt with, the graph keeps up with the stage.
  lemma DealtKeeps(cfg: Config, own: Items, pool: Pool, ready: set<Hash>, s: Stage, x: Item,
                   before: seq<Item>, popped: seq<Item>, w0: Work, w: Work, queue: seq<Item>)
    requires GraphOk(cfg, own, pool, ready, Graph(before, w0.dependers, w0.dependsOn), s)
    requires Popped(before, x, popped) && Known(cfg, x) && DealtWith(cfg, s, x, popped, w0, w, queue)
    ensures GraphOk(cfg, own, pool, ready, Graph(queue, w.dependers, w.dependsOn), Next(cfg, s, x))
  {
    var g, g1 := Graph(before, w0.dependers, w0.dependsOn), Graph(queue, w.dependers, w.dependsOn);
    var s1 := Next(cfg, s, x);
    match Fate(cfg, s, x)
    case Skip => SkipKeeps(cfg, own, pool, ready, g, s, x, g1, s1);
    case Requeue => SameKeeps(cfg, own, pool, ready, g, s, g1, s1);
    case Take(_) => TakeKeeps(cfg, own, pool, ready, g, s, x, popped, g1, s1);
  }

  // Deal with the popped item x.
  method Deal(cfg: Config, ghost s: Stage, queue: TxPriorityQueue, w0: Work, x: Item)
    returns (w: Work, ghost popped: seq<Item>)
    requires Known(cfg, x) && Matches(w0, s) && queue.Valid() && queue.lessFunc == Order(w0.sortedByFee)
    modifies queue
    ensures Matches(w, Next(cfg, s, x)) && queue.Valid() && queue.lessFunc == Order(w.sortedByFee)
    ensures multiset(popped) == multiset(old(queue.items)) && DealtWith(cfg, s, x, popped, w0, w, queue.items)
    ensures w0.sortedByFee ==> w.sortedByFee
    ensures w.sortedByFee == w0.sortedByFee ==>
              Left(queue.items, w.dependers) <= Left(old(queue.items), w0.dependers)
  {
    EntriesWithout(w0.dependers, x.hash);
    var (sorted, action) := Judge(cfg, w0.draft, x, w0.sortedByFee);
    RequeueOnce(cfg, w0.draft, x, w0.sortedByFee);
    if sorted && !w0.sortedByFee {
      Resort(queue);
    }
    popped := queue.items;
    SameMembers(popped, old(queue.items));
    match action {
      case Skip =>
        w := w0.(dependers := w0.dependers - {x.hash}, sortedByFee := sorted);
      case Requeue =>
        Enqueue(queue, x);
        w := w0.(dependers := w0.dependers[x.hash := ListOf(w0.dependers, x.hash)], sortedByFee := sorted);
      case Take(n) =>
        w := Include(cfg, queue, w0.(sortedByFee := sorted), x, n);
    }
  }

  // Take the first item off the queue and deal with it: it is one that may come,
  // and the graph keeps up.
  method Consider(cfg: Config, ghost own: Items, ghost pool: Pool, ghost ready: set<Hash>,
                  ghost s: Stage, queue: TxPriorityQueue, w0: Work)
    returns (w: Work, x: Item)
    requires queue.Valid() && |queue.items| > 0 && queue.lessFunc == Order(w0.sortedByFee)
    requires Matches(w0, s) && GraphOk(cfg, own, pool, ready, Graph(queue.items, w0.dependers, w0.dependsOn), s)
    modifies queue
    ensures MayCome(cfg, own, pool, ready, s, x)
    ensures queue.Valid() && queue.lessFunc == Order(w.sortedByFee) && Matches(w, Next(cfg, s, x))
    ensures GraphOk(cfg, own, pool, ready, Graph(queue.items, w.dependers, w.dependsOn), Next(cfg, s, x))
    ensures w0.sortedByFee ==> w.sortedByFee
    ensures w.sortedByFee == w0.sortedByFee ==>
              Left(queue.items, w.dependers) < Left(old(queue.items), w0.dependers)
  {
    ghost var before := queue.items;
    x := Dequeue(queue);
    FirstMayCome(cfg, own, pool, ready, Graph(before, w0.dependers, w0.dependsOn), s, x);
    PoppedMembers(before, x, queue.items);
    ghost var popped;
    w, popped := Deal(cfg, s, queue, w0, x);
    DealtKeeps(cfg, own, pool, ready, s, x, before, popped, w0, w, queue.items);
  }

  // Choose transactions until the queue is empty.
  method Choose(cfg: Config, view: View, ghost own: Items, ghost pool: Pool, ghost ready: set<Hash>,
                queue: TxPriorityQueue, dependers0: Dependers, dependsOn0: DependsOn)
    returns (d: Draft, ghost xs: seq<Item>)
    requires queue.Valid() && queue.lessFunc == Order(cfg.blockPrioritySize == 0)
    requires GraphOk(cfg, own, pool, ready, Graph(queue.items, dependers0, dependsOn0), Start(cfg, view))
    modifies queue
    ensures IsRun(cfg, view, own, pool, ready, xs) && d == Played(cfg, view, xs).draft
    ensures Finished(cfg, pool, ready, Played(cfg, view, xs))
    // turn by turn, as the limits, the fee rule and the checks have it
    ensures Sound(cfg) ==> Story(cfg, view, own, pool, ready, xs, Stages(cfg, view, xs))
  {
    var w := Work(EmptyDraft(view), dependers0, dependsOn0, cfg.blockPrioritySize == 0);
    xs := [];
    while |queue.items| > 0
      invariant queue.Valid() && queue.lessFunc == Order(w.sortedByFee)
      invariant IsRun(cfg, view, own, pool, ready, xs) && Matches(w, Played(cfg, view, xs))
      invariant GraphOk(cfg, own, pool, ready, Graph(queue.items, w.dependers, w.dependsOn), Played(cfg, view, xs))
      decreases !w.sortedByFee, Left(queue.items, w.dependers)
    {
      var x;
      w, x := Consider(cfg, own, pool, ready, Played(cfg, view, xs), queue, w);
      RunNext(cfg, view, own, pool, ready, xs, x);
      xs := xs + [x];
    }
    EmptyIsFinished(cfg, own, pool, ready, Graph(queue.items, w.dependers, w.dependsOn), Played(cfg, view, xs));
    d := w.draft;
    if Sound(cfg) {
      RunIsStory(cfg, view, own, pool, ready, xs);
    }
  }
}
