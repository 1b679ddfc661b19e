// The transactions of a block template from beginning to end: dependencies are
// set up among the pool's transactions, and then transactions are chosen.
module Template {
  import opened Wrappers
  import opened TxQueue
  import opened Replay
  import opened Drafts
  import opened Greedy
  import opened Selection

  // A pool transaction as the template builder finds it: whether it may be in a
  // block at all, whether the best chain changed meanwhile, and whether its
  // inputs could be looked up.
  datatype Candidate = Candidate(tx: Tx, eligible: bool, bestChanged: bool, fetched: bool,
                                 fee: int, priority: real, feePerKB: real)

  // Looking up the inputs of a transaction in the chain adds to a view.
  type Fetch = (View, Tx) -> View

  ghost predicate Extends(v: View, w: View) {
    forall o :: Available(v, o) ==> Available(w, o)
  }

  // Of the transactions it knows, the view has the outputs that are unspent in
  // the chain.
  ghost predicate Agrees(v: View, unspent: OutPoint -> bool) {
    forall o: OutPoint :: o.hash in v ==> (Available(v, o) <==> unspent(o))
  }

  // The view has all that tx spends from the chain.
  ghost predicate Sees(v: View, unspent: OutPoint -> bool, tx: Tx) {
    forall i :: 0 <= i < |Inputs(tx)| && unspent(Inputs(tx)[i]) ==> Available(v, Inputs(tx)[i])
  }

  // A lookup takes nothing away, and the chain has none of the pool's
  // transactions.
  ghost predicate OnlyAdds(cfg: Config, fetch: Fetch, v: View, tx: Tx) {
    Extends(v, fetch(v, tx)) && forall h :: h in cfg.txs && h !in v ==> h !in fetch(v, tx)
  }

  // A lookup adds what is in the chain; one that succeeds finds all there is.
  ghost predicate Looks(unspent: OutPoint -> bool, fetch: Fetch, v: View, c: Candidate) {
    && Agrees(fetch(v, c.tx), unspent)
    && (c.fetched ==> Sees(fetch(v, c.tx), unspent, c.tx))
  }

  ghost predicate Fetches(cfg: Config, cands: seq<Candidate>, unspent: OutPoint -> bool, fetch: Fetch) {
    && (forall v, tx :: OnlyAdds(cfg, fetch, v, tx))
    && (forall v, c :: c in cands && c.eligible && Agrees(v, unspent) ==> Looks(unspent, fetch, v, c))
  }

  ghost predicate PoolOf(cfg: Config, cands: seq<Candidate>) {
    && (forall k :: 0 <= k < |cands| ==> cands[k].tx.hash in cfg.txs && cfg.txs[cands[k].tx.hash] == cands[k].tx)
    && (forall j, k :: 0 <= j < k < |cands| ==> cands[j].tx.hash != cands[k].tx.hash)
  }

  ghost predicate Unmined(cfg: Config, v: View) {
    forall h :: h in cfg.txs ==> h !in v
  }

  // All that a candidate spends is in the chain or comes from the pool.
  ghost predicate Found(c: Candidate, pool: Pool) {
    forall i :: 0 <= i < |Inputs(c.tx)| ==> pool.unspent(Inputs(c.tx)[i]) || Inputs(c.tx)[i].hash in pool.have
  }

  // The candidates to choose from.
  ghost predicate Wanted(c: Candidate, pool: Pool) {
    c.eligible && c.fetched && Found(c, pool)
  }

  // A candidate that can get a turn: all it spends is found, or it was abandoned
  // only after it was listed with a parent.
  ghost predicate CanCome(cfg: Config, c: Candidate, pool: Pool) {
    Found(c, pool) || exists p :: Awaits(cfg, pool, c.tx.hash, p)
  }

  function ItemOf(c: Candidate, abandoned: bool): Item {
    if abandoned then Item(c.tx.hash, c.tx.txType, 0, 0.0, 0.0)
    else Item(c.tx.hash, c.tx.txType, c.fee, c.priority, c.feePerKB)
  }

  // Inputs up to the i-th are available or come from the pool.
  ghost predicate Reached(view: View, have: set<Hash>, ins: seq<OutPoint>, i: nat) {
    i < |ins| && forall j :: 0 <= j <= i ==> Available(view, ins[j]) || ins[j].hash in have
  }

  // The inputs, in their order, that parents were found for.
  ghost predicate Places(view: View, have: set<Hash>, ins: seq<OutPoint>, parents: seq<Hash>, at: seq<nat>) {
    && |at| == |parents|
    && (forall k :: 0 <= k < |at| ==> Reached(view, have, ins, at[k]) && !Available(view, ins[at[k]]) &&
                                      ins[at[k]].hash == parents[k])
    && (forall j, k :: 0 <= j < k < |at| ==> at[j] < at[k])
  }

  // The pool transactions that inputs have to wait for, up to the first input
  // that is nowhere to be found.
  method Parents(view: View, have: set<Hash>, ins: seq<OutPoint>)
    returns (parents: seq<Hash>, ghost at: seq<nat>, abandoned: bool)
    ensures abandoned <==> exists i :: 0 <= i < |ins| && !Available(view, ins[i]) && ins[i].hash !in have
    ensures forall i :: 0 <= i < |ins| && Reached(view, have, ins, i) ==>
              Available(view, ins[i]) || ins[i].hash in parents
    ensures Places(view, have, ins, parents, at)
  {
    parents, at := [], [];
    for i := 0 to |ins|
      invariant forall j :: 0 <= j < i ==> Available(view, ins[j]) || (ins[j].hash in have && ins[j].hash in parents)
      invariant Places(view, have, ins, parents, at) && forall k :: 0 <= k < |at| ==> at[k] < i
    {
      if !Available(view, ins[i]) {
        if ins[i].hash !in have {
          return parents, at, true;
        }
        parents, at := parents + [ins[i].hash], at + [i];
      }
    }
    abandoned := false;
  }

  function AllOf(parents: seq<Hash>): (r: set<Hash>)
    ensures parents != [] ==> r != {}
  {
    var r := set p | p in parents;
    assert parents != [] ==> parents[0] in r;
    r
  }

  // x is added to the lists of its parents, once for each time one is named, and
  // nothing else changes.
  ghost predicate Listed(before: Dependers, x: Item, parents: seq<Hash>, after: Dependers) {
    forall p, y :: ListedAt(before, x, parents, after, p, y)
  }

  ghost predicate ListedAt(before: Dependers, x: Item, parents: seq<Hash>, after: Dependers, p: Hash, y: Item) {
    multiset(ListOf(after, p))[y] == multiset(ListOf(before, p))[y] + if y == x then multiset(parents)[p] else 0
  }

  lemma CountNext<T>(s: seq<T>, a: T, b: T)
    ensures multiset(s + [a])[b] == multiset(s)[b] + if a == b then 1 else 0
  {
  }

  lemma ListedAtNext(before: Dependers, x: Item, parents: seq<Hash>, q: Hash, after: Dependers, p: Hash, y: Item)
    requires ListedAt(before, x, parents, after, p, y)
    ensures ListedAt(before, x, parents + [q], after[q := ListOf(after, q) + [x]], p, y)
  {
    CountNext(parents, q, p);
    if p == q {
      CountNext(ListOf(after, p), x, y);
    }
  }

  lemma ListedNext(before: Dependers, x: Item, parents: seq<Hash>, q: Hash, after: Dependers)
    requires Listed(before, x, parents, after)
    ensures Listed(before, x, parents + [q], after[q := ListOf(after, q) + [x]])
  {
    var named, more := parents + [q], after[q := ListOf(after, q) + [x]];
    forall p, y ensures ListedAt(before, x, named, more, p, y) {
      ListedAtNext(before, x, parents, q, after, p, y);
    }
  }

  method ListUnder(dependers0: Dependers, x: Item, parents: seq<Hash>) returns (dependers: Dependers)
    ensures Listed(dependers0, x, parents, dependers)
  {
    dependers := dependers0;
    for i := 0 to |parents|
      invariant Listed(dependers0, x, parents[..i], dependers)
    {
      ListedNext(dependers0, x, parents[..i], parents[i], dependers);
      assert parents[..i + 1] == parents[..i] + [parents[i]];
      dependers := dependers[parents[i] := ListOf(dependers, parents[i]) + [x]];
    }
    assert parents[..|parents|] == parents;
  }

  lemma ListedMembers(before: Dependers, x: Item, parents: seq<Hash>, after: Dependers, p: Hash, y: Item)
    requires Listed(before, x, parents, after)
    ensures y in ListOf(after, p) <==> y in ListOf(before, p) || (y == x && p in parents)
  {
    assert ListedAt(before, x, parents, after, p, y);
    assert y in ListOf(after, p) <==> multiset(ListOf(after, p))[y] > 0;
    assert y in ListOf(before, p) <==> multiset(ListOf(before, p))[y] > 0;
    assert p in parents <==> multiset(parents)[p] > 0;
  }

  // Setting up begins with the stage at which nothing is decided.
  ghost predicate SetUpOk(cfg: Config, own: Items, pool: Pool, ready: set<Hash>, g: Graph) {
    GraphOk(cfg, own, pool, ready, g, Start(cfg, map[]))
  }

  lemma SetUpStarts(cfg: Config, own: Items, pool: Pool, ready: set<Hash>, g: Graph, view: View)
    requires SetUpOk(cfg, own, pool, ready, g)
    ensures GraphOk(cfg, own, pool, ready, g, Start(cfg, view))
  {
    SameKeeps(cfg, own, pool, ready, g, Start(cfg, map[]), g, Start(cfg, view));
  }

  // What adding x does to the graph: it is listed with its parents, waits for
  // them, and is queued if there are none and it is not abandoned.
  ghost predicate Added(g: Graph, x: Item, parents: seq<Hash>, abandoned: bool, g1: Graph) {
    && Listed(g.dependers, x, parents, g1.dependers)
    && (forall h :: Waits(g1.dependsOn, h) == if h == x.hash then AllOf(parents) else Waits(g.dependsOn, h))
    && multiset(g1.queue) == multiset(g.queue) + if !abandoned && parents == [] then multiset{x} else multiset{}
  }

  // x is new, and its parents are what it has to wait for.
  ghost predicate Addable(cfg: Config, own: Items, pool: Pool, ready: set<Hash>, g: Graph, x: Item,
                          parents: seq<Hash>, abandoned: bool) {
    && Known(cfg, x) && x.hash !in own && x.hash !in ready
    && (forall p :: p in parents <==> Awaits(cfg, pool, x.hash, p))
    && (!Twice(cfg, pool, x.hash) ==> forall p :: multiset(parents)[p] <= 1)
  }

  lemma AddedInLine(cfg: Config, own: Items, pool: Pool, ready: set<Hash>, g: Graph, x: Item,
                    parents: seq<Hash>, abandoned: bool, g1: Graph, ready1: set<Hash>, y: Item)
    requires QueueOk(cfg, own, pool, ready, g, Start(cfg, map[]))
    requires Addable(cfg, own, pool, ready, g, x, parents, abandoned) && Added(g, x, parents, abandoned, g1)
    requires ready1 == if abandoned && parents == [] then ready else ready + {x.hash}
    requires y in g.queue || (y == x && !abandoned && parents == [])
    ensures InLine(cfg, own[x.hash := x], pool, ready1, g1, Start(cfg, map[]), y)
    ensures !Twice(cfg, pool, y.hash) ==> multiset(g1.queue)[y] <= 1
  {
    if y in g.queue {
      assert InLine(cfg, own, pool, ready, g, Start(cfg, map[]), y);
    } else {
      assert multiset(g.queue)[y] == 0;
    }
  }

  lemma AddedQueue(cfg: Config, own: Items, pool: Pool, ready: set<Hash>, g: Graph, x: Item,
                   parents: seq<Hash>, abandoned: bool, g1: Graph, ready1: set<Hash>)
    requires QueueOk(cfg, own, pool, ready, g, Start(cfg, map[]))
    requires Addable(cfg, own, pool, ready, g, x, parents, abandoned) && Added(g, x, parents, abandoned, g1)
    requires ready1 == if abandoned && parents == [] then ready else ready + {x.hash}
    ensures QueueOk(cfg, own[x.hash := x], pool, ready1, g1, Start(cfg, map[]))
    ensures forall y :: y in g1.queue <==> y in g.queue || (y == x && !abandoned && parents == [])
  {
    SameMembers(g1.queue, g.queue + if !abandoned && parents == [] then [x] else []);
    forall y | y in g1.queue
      ensures InLine(cfg, own[x.hash := x], pool, ready1, g1, Start(cfg, map[]), y)
      ensures !Twice(cfg, pool, y.hash) ==> multiset(g1.queue)[y] <= 1
    {
      AddedInLine(cfg, own, pool, ready, g, x, parents, abandoned, g1, ready1, y);
    }
  }

  lemma AddedEntry(cfg: Config, own: Items, pool: Pool, ready: set<Hash>, g: Graph, x: Item,
                   parents: seq<Hash>, abandoned: bool, g1: Graph, ready1: set<Hash>, p: Hash, y: Item)
    requires ListsOk(cfg, own, pool, ready, g, Start(cfg, map[]))
    requires Addable(cfg, own, pool, ready, g, x, parents, abandoned) && Added(g, x, parents, abandoned, g1)
    requires ready1 == if abandoned && parents == [] then ready else ready + {x.hash}
    requires y in ListOf(g1.dependers, p)
    ensures OnList(cfg, own[x.hash := x], pool, ready1, g1, Start(cfg, map[]), p, y)
    ensures !Twice(cfg, pool, y.hash) ==> multiset(ListOf(g1.dependers, p))[y] <= 1
  {
    ListedMembers(g.dependers, x, parents, g1.dependers, p, y);
    assert ListedAt(g.dependers, x, parents, g1.dependers, p, y);
    assert Single(cfg, pool, ListOf(g.dependers, p));
    if y in ListOf(g.dependers, p) {
      assert OnList(cfg, own, pool, ready, g, Start(cfg, map[]), p, y);
    } else {
      assert multiset(ListOf(g.dependers, p))[y] == 0;
    }
  }

  lemma AddedLists(cfg: Config, own: Items, pool: Pool, ready: set<Hash>, g: Graph, x: Item,
                   parents: seq<Hash>, abandoned: bool, g1: Graph, ready1: set<Hash>)
    requires ListsOk(cfg, own, pool, ready, g, Start(cfg, map[]))
    requires Addable(cfg, own, pool, ready, g, x, parents, abandoned) && Added(g, x, parents, abandoned, g1)
    requires ready1 == if abandoned && parents == [] then ready else ready + {x.hash}
    ensures ListsOk(cfg, own[x.hash := x], pool, ready1, g1, Start(cfg, map[]))
  {
    forall p, y | y in ListOf(g1.dependers, p)
      ensures OnList(cfg, own[x.hash := x], pool, ready1, g1, Start(cfg, map[]), p, y)
      ensures !Twice(cfg, pool, y.hash) ==> multiset(ListOf(g1.dependers, p))[y] <= 1
    {
      AddedEntry(cfg, own, pool, ready, g, x, parents, abandoned, g1, ready1, p, y);
    }
  }

  lemma AddedTracked(cfg: Config, own: Items, pool: Pool, ready: set<Hash>, g: Graph, x: Item,
                     parents: seq<Hash>, abandoned: bool, g1: Graph, h: Hash)
    requires SetUpOk(cfg, own, pool, ready, g) && Addable(cfg, own, pool, ready, g, x, parents, abandoned)
    requires Added(g, x, parents, abandoned, g1) && (h in ready || (h == x.hash && !(abandoned && parents == [])))
    requires forall y :: y in g1.queue <==> y in g.queue || (y == x && !abandoned && parents == [])
    ensures Tracked(cfg, pool, g1, Start(cfg, map[]), h)
  {
    var s := Start(cfg, map[]);
    assert h in ready ==> Tracked(cfg, pool, g, s, h);
    forall p | p in Waits(g1.dependsOn, h) ensures Queued(h, ListOf(g1.dependers, p)) {
      var y :| if h == x.hash then y == x else y in ListOf(g.dependers, p) && y.hash == h;
      ListedMembers(g.dependers, x, parents, g1.dependers, p, y);
    }
    if Waits(g1.dependsOn, h) == {} {
      if h == x.hash {
        assert parents != [] ==> AllOf(parents) != {};
        assert x in g1.queue;
      } else {
        var y :| y in g.queue && y.hash == h;
        assert y in g1.queue;
      }
    }
  }

  lemma AddedKeeps(cfg: Config, own: Items, pool: Pool, ready: set<Hash>, g: Graph, x: Item,
                   parents: seq<Hash>, abandoned: bool, g1: Graph, ready1: set<Hash>)
    requires SetUpOk(cfg, own, pool, ready, g) && Addable(cfg, own, pool, ready, g, x, parents, abandoned)
    requires Added(g, x, parents, abandoned, g1)
    requires ready1 == if abandoned && parents == [] then ready else ready + {x.hash}
    ensures SetUpOk(cfg, own[x.hash := x], pool, ready1, g1)
  {
    AddedQueue(cfg, own, pool, ready, g, x, parents, abandoned, g1, ready1);
    AddedLists(cfg, own, pool, ready, g, x, parents, abandoned, g1, ready1);
    forall h | h in ready1 ensures Tracked(cfg, pool, g1, Start(cfg, map[]), h) {
      AddedTracked(cfg, own, pool, ready, g, x, parents, abandoned, g1, h);
    }
  }

  lemma PoolKnown(cfg: Config, c: Candidate, abandoned: bool)
    requires Sound(cfg) && c.tx.hash in cfg.txs && cfg.txs[c.tx.hash] == c.tx
    ensures Known(cfg, ItemOf(c, abandoned))
  {
    assert Sane(c.tx);
  }

  lemma {:induction false} TwoPlaces(s: seq<Hash>, p: Hash) returns (j: nat, k: nat)
    requires multiset(s)[p] >= 2
    ensures j < k < |s| && s[j] == p && s[k] == p
  {
    var n := |s| - 1;
    assert s == s[..n] + [s[n]];
    if multiset(s[..n])[p] >= 2 {
      j, k := TwoPlaces(s[..n], p);
    } else {
      assert p in multiset(s[..n]);
      k, j := n, 0;
      j :| j < n && s[..n][j] == p;
    }
  }

  // What the walk over the inputs finds is what there is to wait for.
  lemma ParentsAwaited(cfg: Config, pool: Pool, view: View, c: Candidate,
                       parents: seq<Hash>, at: seq<nat>, abandoned: bool)
    requires c.tx.hash in cfg.txs && cfg.txs[c.tx.hash] == c.tx
    requires Agrees(view, pool.unspent) && Sees(view, pool.unspent, c.tx)
    requires var ins := Inputs(c.tx);
             && (abandoned <==> exists i :: 0 <= i < |ins| && !Available(view, ins[i]) && ins[i].hash !in pool.have)
             && (forall i :: 0 <= i < |ins| && Reached(view, pool.have, ins, i) ==>
                   Available(view, ins[i]) || ins[i].hash in parents)
             && Places(view, pool.have, ins, parents, at)
    ensures abandoned <==> !Found(c, pool)
    ensures forall p :: p in parents <==> Awaits(cfg, pool, c.tx.hash, p)
    ensures !Twice(cfg, pool, c.tx.hash) ==> forall p :: multiset(parents)[p] <= 1
  {
    var ins := Inputs(c.tx);
    assert forall i :: 0 <= i < |ins| ==> (Available(view, ins[i]) <==> pool.unspent(ins[i]));
    assert forall i: nat :: FoundTo(pool, ins, i) <==> Reached(view, pool.have, ins, i);
    forall p | p in parents ensures Awaits(cfg, pool, c.tx.hash, p) {
      var k :| 0 <= k < |parents| && parents[k] == p;
      assert Reached(view, pool.have, ins, at[k]) && ins[at[k]].hash == p;
    }
    forall p | multiset(parents)[p] >= 2 ensures Twice(cfg, pool, c.tx.hash) {
      var j, k := TwoPlaces(parents, p);
      assert Reached(view, pool.have, ins, at[j]) && Reached(view, pool.have, ins, at[k]);
      assert ins[at[j]].hash == ins[at[k]].hash && at[j] < at[k];
    }
  }

  // A transaction has an entry only if it has something to wait for.
  function Awaiting(dependsOn: DependsOn, h: Hash, parents: seq<Hash>): (r: DependsOn)
    requires h !in dependsOn
    ensures forall g :: Waits(r, g) == if g == h then AllOf(parents) else Waits(dependsOn, g)
    ensures r.Keys <= dependsOn.Keys + {h}
  {
    if parents == [] then dependsOn else dependsOn[h := AllOf(parents)]
  }

  // Set up one candidate whose inputs have been looked up.
  method SetUpOne(cfg: Config, ghost pool: Pool, view: View, have: set<Hash>, c: Candidate,
                  queue: TxPriorityQueue, dependers0: Dependers, dependsOn0: DependsOn,
                  ghost ready0: set<Hash>, ghost own0: Items)
    returns (dependers: Dependers, dependsOn: DependsOn, ghost ready: set<Hash>, ghost own: Items)
    requires Sound(cfg) && c.tx.hash in cfg.txs && cfg.txs[c.tx.hash] == c.tx
    requires Agrees(view, pool.unspent) && Sees(view, pool.unspent, c.tx)
    requires queue.Valid() && SetUpOk(cfg, own0, pool, ready0, Graph(queue.items, dependers0, dependsOn0))
    requires c.tx.hash !in ready0 && c.tx.hash !in dependsOn0 && c.tx.hash !in own0 && pool.have == have
    modifies queue
    ensures queue.Valid() && queue.lessFunc == old(queue.lessFunc)
    ensures SetUpOk(cfg, own, pool, ready, Graph(queue.items, dependers, dependsOn))
    ensures dependsOn.Keys <= dependsOn0.Keys + {c.tx.hash}
    ensures ready == if CanCome(cfg, c, pool) then ready0 + {c.tx.hash} else ready0
    ensures own == own0[c.tx.hash := ItemOf(c, !Found(c, pool))]
  {
    var parents, abandoned;
    ghost var at;
    parents, at, abandoned := Parents(view, have, Inputs(c.tx));
    ParentsAwaited(cfg, pool, view, c, parents, at, abandoned);
    var x := ItemOf(c, abandoned);
    PoolKnown(cfg, c, abandoned);
    ghost var before := queue.items;
    dependers := ListUnder(dependers0, x, parents);
    dependsOn := Awaiting(dependsOn0, c.tx.hash, parents);
    ready, own := if abandoned && parents == [] then ready0 else ready0 + {c.tx.hash}, own0[c.tx.hash := x];
    if !abandoned && parents == [] {
      queue.Push(x);
    }
    AddedKeeps(cfg, own0, pool, ready0, Graph(before, dependers0, dependsOn0), x, parents, abandoned,
               Graph(queue.items, dependers, dependsOn), ready);
  }

  // The item of a candidate: its fee, priority and fee per kilobyte, or none of
  // these if it was abandoned.
  ghost predicate HasItem(c: Candidate, found: bool, x: Item) {
    && x.hash == c.tx.hash && x.txType == c.tx.txType
    && (found ==> x.fee == c.fee && x.priority == c.priority && x.feePerKB == c.feePerKB)
    && (!found ==> x.fee == 0 && x.priority == 0.0 && x.feePerKB == 0.0)
  }

  ghost function HashesIn(cands: seq<Candidate>, n: nat): set<Hash>
    requires n <= |cands|
  {
    set k | 0 <= k < n :: cands[k].tx.hash
  }

  lemma HashesInNext(cands: seq<Candidate>, n: nat)
    requires n < |cands|
    ensures HashesIn(cands, n + 1) == HashesIn(cands, n) + {cands[n].tx.hash}
  {
  }

  // The first n candidates that are eligible and looked up have an item, those of
  // them that can get a turn are set up, and nothing else is.
  ghost predicate Enlisted(cfg: Config, cands: seq<Candidate>, n: nat, pool: Pool,
                           ready: set<Hash>, own: Items)
    requires n <= |cands|
  {
    && own.Keys <= HashesIn(cands, n) && ready <= HashesIn(cands, n)
    && forall k :: 0 <= k < n ==>
         var c := cands[k];
         && (c.tx.hash in own <==> c.eligible && c.fetched)
         && (c.tx.hash in own ==> HasItem(c, Found(c, pool), own[c.tx.hash]))
         && (c.tx.hash in ready <==> c.eligible && c.fetched && CanCome(cfg, c, pool))
  }

  // What setting up the first n candidates has to show for it.
  ghost predicate SoFar(cfg: Config, cands: seq<Candidate>, n: nat, pool: Pool,
                        queue: seq<Item>, dependers: Dependers, dependsOn: DependsOn, ready: set<Hash>, own: Items)
    requires n <= |cands|
  {
    && SetUpOk(cfg, own, pool, ready, Graph(queue, dependers, dependsOn))
    && dependsOn.Keys <= HashesIn(cands, n) && Enlisted(cfg, cands, n, pool, ready, own)
  }

  lemma NotYet(cfg: Config, cands: seq<Candidate>, n: nat)
    requires PoolOf(cfg, cands) && n < |cands|
    ensures cands[n].tx.hash !in HashesIn(cands, n)
  {
  }

  lemma EnlistedNext(cfg: Config, cands: seq<Candidate>, n: nat, pool: Pool,
                     ready0: set<Hash>, own0: Items, ready: set<Hash>, own: Items)
    requires PoolOf(cfg, cands) && n < |cands| && Enlisted(cfg, cands, n, pool, ready0, own0)
    requires var c := cands[n];
             if c.eligible && c.fetched then
               && ready == (if CanCome(cfg, c, pool) then ready0 + {c.tx.hash} else ready0)
               && own == own0[c.tx.hash := ItemOf(c, !Found(c, pool))]
             else ready == ready0 && own == own0
    ensures Enlisted(cfg, cands, n + 1, pool, ready, own)
  {
    HashesInNext(cands, n);
    NotYet(cfg, cands, n);
  }

  // The view is within the chain, knows no pool transaction, and sees what the
  // first n candidates spend.
  ghost predicate ViewOk(cfg: Config, cands: seq<Candidate>, n: nat, unspent: OutPoint -> bool, view: View)
    requires n <= |cands|
  {
    && Agrees(view, unspent) && Unmined(cfg, view)
    && forall k :: 0 <= k < n && cands[k].eligible && cands[k].fetched ==> Sees(view, unspent, cands[k].tx)
  }

  lemma SeesStill(view: View, view1: View, unspent: OutPoint -> bool, tx: Tx)
    requires Sees(view, unspent, tx) && Extends(view, view1)
    ensures Sees(view1, unspent, tx)
  {
  }

  lemma FetchOk(cfg: Config, cands: seq<Candidate>, n: nat, unspent: OutPoint -> bool, fetch: Fetch, view: View)
    requires Fetches(cfg, cands, unspent, fetch) && n < |cands| && cands[n].eligible
    requires ViewOk(cfg, cands, n, unspent, view)
    ensures Extends(view, fetch(view, cands[n].tx))
    ensures ViewOk(cfg, cands, n + 1, unspent, fetch(view, cands[n].tx))
  {
    var view1 := fetch(view, cands[n].tx);
    assert OnlyAdds(cfg, fetch, view, cands[n].tx) && Looks(unspent, fetch, view, cands[n]);
    forall k | 0 <= k < n && cands[k].eligible && cands[k].fetched ensures Sees(view1, unspent, cands[k].tx) {
      SeesStill(view, view1, unspent, cands[k].tx);
    }
  }

  lemma ExtendsOn(u: View, v: View, w: View)
    requires Extends(u, v) && Extends(v, w)
    ensures Extends(u, w)
  {
  }

  // Where looking up and setting up the first n candidates has led.
  ghost predicate Ahead(cfg: Config, cands: seq<Candidate>, n: nat, pool: Pool,
                        view0: View, view: View, queue: seq<Item>, dependers: Dependers, dependsOn: DependsOn,
                        ready: set<Hash>, own: Items)
    requires n <= |cands|
  {
    && Extends(view0, view) && ViewOk(cfg, cands, n, pool.unspent, view)
    && SoFar(cfg, cands, n, pool, queue, dependers, dependsOn, ready, own)
  }

  // Look up and set up one candidate, unless it is not eligible.
  method LookUpNext(cfg: Config, cands: seq<Candidate>, n: nat, ghost pool: Pool, have: set<Hash>,
                    ghost first: View, view0: View, fetch: Fetch, queue: TxPriorityQueue,
                    dependers0: Dependers, dependsOn0: DependsOn, ghost ready0: set<Hash>, ghost own0: Items)
    returns (view: View, dependers: Dependers, dependsOn: DependsOn, ghost ready: set<Hash>, ghost own: Items)
    requires pool.have == have
    requires Sound(cfg) && PoolOf(cfg, cands) && Fetches(cfg, cands, pool.unspent, fetch) && n < |cands|
    requires queue.Valid()
    requires Ahead(cfg, cands, n, pool, first, view0, queue.items, dependers0, dependsOn0, ready0, own0)
    modifies queue
    ensures queue.Valid() && queue.lessFunc == old(queue.lessFunc)
    ensures Ahead(cfg, cands, n + 1, pool, first, view, queue.items, dependers, dependsOn, ready, own)
  {
    HashesInNext(cands, n);
    NotYet(cfg, cands, n);
    view, dependers, dependsOn, ready, own := view0, dependers0, dependsOn0, ready0, own0;
    if cands[n].eligible {
      FetchOk(cfg, cands, n, pool.unspent, fetch, view0);
      view := fetch(view0, cands[n].tx);
      ExtendsOn(first, view0, view);
      if cands[n].fetched {
        dependers, dependsOn, ready, own :=
          SetUpOne(cfg, pool, view, have, cands[n], queue, dependers, dependsOn, ready, own);
      }
    }
    EnlistedNext(cfg, cands, n, pool, ready0, own0, ready, own);
  }

  lemma NothingYet(cfg: Config, cands: seq<Candidate>, pool: Pool)
    ensures SoFar(cfg, cands, 0, pool, [], map[], map[], {}, map[])
  {
  }

  // The best chain has not changed at any of the first n candidates.
  ghost predicate Unchanged(cands: seq<Candidate>, n: nat)
    requires n <= |cands|
  {
    forall k :: 0 <= k < n && cands[k].eligible ==> !cands[k].bestChanged
  }

  lemma UnchangedNext(cands: seq<Candidate>, n: nat)
    requires n < |cands| && Unchanged(cands, n)
    ensures Unchanged(cands, n + 1) <==> !(cands[n].eligible && cands[n].bestChanged)
    ensures !Unchanged(cands, n + 1) ==> !Unchanged(cands, |cands|)
  {
  }

  // Set up the dependencies among the candidates and queue those that have none.
  method SetUp(cfg: Config, cands: seq<Candidate>, ghost pool: Pool, have: set<Hash>, view0: View,
               fetch: Fetch, queue: TxPriorityQueue)
    returns (ok: bool, view: View, dependers: Dependers, dependsOn: DependsOn, ghost ready: set<Hash>, ghost own: Items)
    requires pool.have == have
    requires Sound(cfg) && PoolOf(cfg, cands) && Fetches(cfg, cands, pool.unspent, fetch)
    requires Agrees(view0, pool.unspent) && Unmined(cfg, view0)
    requires queue.Valid() && queue.items == []
    modifies queue
    ensures ok <==> Unchanged(cands, |cands|)
    ensures queue.Valid() && queue.lessFunc == old(queue.lessFunc)
    ensures Extends(view0, view) && ViewOk(cfg, cands, 0, pool.unspent, view)
    ensures ok ==> Ahead(cfg, cands, |cands|, pool, view0, view, queue.items, dependers, dependsOn, ready, own)
  {
    view, dependers, dependsOn, ready, own := view0, map[], map[], {}, map[];
    NothingYet(cfg, cands, pool);
    var k := 0;
    while k < |cands| && !(cands[k].eligible && cands[k].bestChanged)
      invariant k <= |cands| && Unchanged(cands, k)
      invariant queue.Valid() && queue.lessFunc == old(queue.lessFunc)
      invariant Ahead(cfg, cands, k, pool, view0, view, queue.items, dependers, dependsOn, ready, own)
    {
      UnchangedNext(cands, k);
      view, dependers, dependsOn, ready, own :=
        LookUpNext(cfg, cands, k, pool, have, view0, view, fetch, queue, dependers, dependsOn, ready, own);
      k := k + 1;
    }
    if k < |cands| {
      UnchangedNext(cands, k);
    }
    ok := k == |cands|;
  }

  // ------------------------------------------------------------- the result

  // The chosen transactions replay on the view, in an order that has parents
  // before children, with nothing twice and nothing spent twice.
  ghost predicate Orderly(txs: seq<Tx>) {
    && (forall m, n :: 0 <= m < n < |txs| ==> txs[m].hash != txs[n].hash)
    && (forall m, n, o :: 0 <= m < n < |txs| && Spends(txs[m], o) ==> !Spends(txs[n], o))
    && (forall m, n, o :: 0 <= m < |txs| && 0 <= n < |txs| && Spends(txs[n], o) && o.hash == txs[m].hash ==> m < n)
  }

  lemma ChosenOrderly(cfg: Config, v: View, d: Draft)
    requires Sound(cfg) && DraftOk(cfg, v, d) && Unmined(cfg, v)
    ensures Orderly(d.chosen)
  {
    var txs := d.chosen;
    forall k | 0 <= k < |txs| ensures Sane(txs[k]) && txs[k].hash !in v {
      assert txs[k].hash in cfg.txs;
    }
    ReplayIsOrderly(v, txs);
    forall m, n, o | 0 <= m < n < |txs| && Spends(txs[m], o) ensures !Spends(txs[n], o) {
      InputsAre(txs[m], o);
      InputsAre(txs[n], o);
    }
    forall m, n, o | 0 <= m < |txs| && 0 <= n < |txs| && Spends(txs[n], o) && o.hash == txs[m].hash ensures m < n {
      InputsAre(txs[n], o);
    }
  }

  lemma {:induction false} MembersBound(s: set<Hash>, t: seq<Hash>)
    requires forall h :: h in s ==> h in t
    ensures |s| <= |t|
  {
    if t != [] {
      var n := |t| - 1;
      MembersBound(s - {t[n]}, t[..n]);
      assert |s| <= |s - {t[n]}| + 1;
    } else {
      assert s == {};
    }
  }

  // The votes of a block are at most as many as its winning tickets.
  lemma VotesBound(cfg: Config, v: View, d: Draft)
    requires DraftOk(cfg, v, d)
    ensures CountOf(d.chosen, Vote) <= |cfg.winningTickets|
  {
    MembersBound(d.found, cfg.winningTickets);
  }

  // An output that is there after a replay was there before or comes from one of
  // the transactions replayed.
  lemma {:induction false} AvailableFrom(v: View, txs: seq<Tx>, n: nat, o: OutPoint)
    requires n <= |txs| && Available(After(v, txs[..n]), o)
    ensures Available(v, o) || exists m :: 0 <= m < n && txs[m].hash == o.hash
  {
    if n > 0 {
      AfterNext(v, txs, n - 1);
      if txs[n - 1].hash != o.hash {
        SpendAllKeeps(After(v, txs[..n - 1]), txs[n - 1].ins, o);
        AvailableFrom(v, txs, n - 1, o);
      }
    }
  }

  lemma {:induction false} SpendAllKeeps(v: View, os: seq<OutPoint>, o: OutPoint)
    requires Available(SpendAll(v, os), o)
    ensures Available(v, o)
  {
    if os != [] {
      SpendAllKeeps(v, os[..|os| - 1], o);
    }
  }

  // tx spends an output of p that is not an unspent output of the chain.
  ghost predicate Lacks(tx: Tx, unspent: OutPoint -> bool, p: Hash) {
    exists i :: 0 <= i < |Inputs(tx)| && !unspent(Inputs(tx)[i]) && Inputs(tx)[i].hash == p
  }

  // A wanted candidate has to wait for exactly that.
  lemma WantedAwaits(cfg: Config, c: Candidate, pool: Pool, p: Hash)
    requires c.tx.hash in cfg.txs && cfg.txs[c.tx.hash] == c.tx && Wanted(c, pool)
    ensures Awaits(cfg, pool, c.tx.hash, p) <==> Lacks(c.tx, pool.unspent, p)
  {
    assert forall i: nat :: i < |Inputs(c.tx)| ==> FoundTo(pool, Inputs(c.tx), i);
  }

  // A chosen transaction comes after every transaction that it lacked an output of.
  lemma ParentsFirst(cfg: Config, unspent: OutPoint -> bool, v: View, d: Draft, n: nat, p: Hash)
    requires DraftOk(cfg, v, d) && Agrees(v, unspent) && n < |d.chosen|
    requires Lacks(d.chosen[n], unspent, p)
    ensures exists m :: 0 <= m < n && d.chosen[m].hash == p
  {
    var tx := d.chosen[n];
    assert tx == cfg.txs[tx.hash] && ReplaysAt(v, d.chosen, n);
    var i :| 0 <= i < |Inputs(tx)| && !unspent(Inputs(tx)[i]) && Inputs(tx)[i].hash == p;
    AvailableFrom(v, d.chosen, n, Inputs(tx)[i]);
  }

  ghost predicate OfCandidate(h: Hash, cands: seq<Candidate>) {
    exists k :: 0 <= k < |cands| && cands[k].tx.hash == h && cands[k].eligible && cands[k].fetched
  }

  lemma ItemOfCandidate(cfg: Config, cands: seq<Candidate>, pool: Pool, ready: set<Hash>,
                        own: Items, h: Hash)
    requires Enlisted(cfg, cands, |cands|, pool, ready, own) && h in own
    ensures OfCandidate(h, cands)
  {
    assert h in HashesIn(cands, |cands|);
    var k :| 0 <= k < |cands| && cands[k].tx.hash == h;
    assert cands[k].tx.hash in own;
  }

  // Choose the transactions of a block from the pool.
  method ChooseTransactions(cfg: Config, cands: seq<Candidate>, ghost pool: Pool,
                            ghost rank: Hash -> nat, have: set<Hash>, view0: View, fetch: Fetch)
    returns (ok: bool, view: View, d: Draft, ghost ready: set<Hash>, ghost own: Items, ghost xs: seq<Item>,
             ghost stages: seq<Stage>)
    requires pool.have == have
    requires Sound(cfg) && PoolOf(cfg, cands) && Fetches(cfg, cands, pool.unspent, fetch) && Grounded(cfg, pool, rank)
    requires Agrees(view0, pool.unspent) && Unmined(cfg, view0)
    ensures ok <==> Unchanged(cands, |cands|)
    ensures Extends(view0, view) && DraftOk(cfg, view, d) && Orderly(d.chosen)
    ensures CountOf(d.chosen, Vote) <= |cfg.winningTickets|
    ensures ok ==> ViewOk(cfg, cands, |cands|, pool.unspent, view) &&
                   (forall h :: h in HashesOf(d.chosen) ==> OfCandidate(h, cands))
    // the block comes about turn by turn, as the limits, the fee rule and the checks
    // have it, until no candidate is open
    ensures ok ==> Enlisted(cfg, cands, |cands|, pool, ready, own)
    ensures ok ==> Story(cfg, view, own, pool, ready, xs, stages) && d == stages[|xs|].draft
    ensures ok ==> IsRun(cfg, view, own, pool, ready, xs) && stages == Stages(cfg, view, xs)
    ensures ok ==> Finished(cfg, pool, ready, stages[|xs|])
    // so each of them was decided on at its turn or is stuck
    ensures ok ==> forall k :: 0 <= k < |cands| && Wanted(cands[k], pool) ==>
              var h, s := cands[k].tx.hash, stages[|xs|];
              Decided(s, h) || Stuck(cfg, pool, ready, s, h)
  {
    OrdersAreSound();
    var queue := new TxPriorityQueue(Order(cfg.blockPrioritySize == 0));
    var dependers, dependsOn;
    ok, view, dependers, dependsOn, ready, own := SetUp(cfg, cands, pool, have, view0, fetch, queue);
    xs, stages := [], [];
    if !ok {
      d := EmptyDraft(view);
      EmptyOk(cfg, view);
    } else {
      SetUpStarts(cfg, own, pool, ready, Graph(queue.items, dependers, dependsOn), view);
      d, xs := Choose(cfg, view, own, pool, ready, queue, dependers, dependsOn);
      stages := Stages(cfg, view, xs);
      RunIsStory(cfg, view, own, pool, ready, xs);
      RunKeeps(cfg, view, own, pool, ready, xs);
      AllSettled(cfg, cands, pool, rank, ready, own, Played(cfg, view, xs));
      forall h | h in HashesOf(d.chosen) ensures OfCandidate(h, cands) {
        ItemOfCandidate(cfg, cands, pool, ready, own, h);
      }
    }
    ChosenOrderly(cfg, view, d);
    VotesBound(cfg, view, d);
  }

  lemma AllSettled(cfg: Config, cands: seq<Candidate>, pool: Pool, rank: Hash -> nat,
                   ready: set<Hash>, own: Items, s: Stage)
    requires Enlisted(cfg, cands, |cands|, pool, ready, own)
    requires Finished(cfg, pool, ready, s) && Grounded(cfg, pool, rank)
    ensures forall k :: 0 <= k < |cands| && Wanted(cands[k], pool) ==>
              Decided(s, cands[k].tx.hash) || Stuck(cfg, pool, ready, s, cands[k].tx.hash)
  {
    forall k | 0 <= k < |cands| && Wanted(cands[k], pool)
      ensures Decided(s, cands[k].tx.hash) || Stuck(cfg, pool, ready, s, cands[k].tx.hash)
    {
      NoneForgotten(cfg, pool, rank, ready, s, cands[k].tx.hash);
    }
  }
}
