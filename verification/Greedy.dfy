// What the selection of transactions amounts to, said without a queue and a
// dependency graph: one transaction after the other is judged, none while one
// that is open precedes it, until none is open.
module Greedy {
  import opened Wrappers
  import opened TxQueue
  import opened Replay
  import opened Drafts

  // The outputs that are unspent in the chain, and the transactions in the pool.
  datatype Pool = Pool(unspent: OutPoint -> bool, have: set<Hash>)

  // The first inputs up to this one are in the chain or come from the pool.
  ghost predicate FoundTo(pool: Pool, ins: seq<OutPoint>, i: nat) {
    i < |ins| && forall j :: 0 <= j <= i ==> pool.unspent(ins[j]) || ins[j].hash in pool.have
  }

  // h has to wait for p: it spends an output of p that is not an unspent output of
  // the chain, before any input that is nowhere to be found.
  ghost predicate Awaits(cfg: Config, pool: Pool, h: Hash, p: Hash) {
    && h in cfg.txs
    && var ins := Inputs(cfg.txs[h]);
       exists i :: 0 <= i < |ins| && !pool.unspent(ins[i]) && ins[i].hash == p && FoundTo(pool, ins, i)
  }

  // h spends two such outputs of one transaction.
  ghost predicate Twice(cfg: Config, pool: Pool, h: Hash) {
    && h in cfg.txs
    && var ins := Inputs(cfg.txs[h]);
       exists i, j :: 0 <= i < j < |ins| && !pool.unspent(ins[i]) && !pool.unspent(ins[j]) && ins[i].hash == ins[j].hash
  }

  // A transaction's hash covers those of the transactions it spends from, so none
  // spends from itself, however indirectly.
  ghost predicate Grounded(cfg: Config, pool: Pool, rank: Hash -> nat) {
    forall h, p :: Awaits(cfg, pool, h, p) ==> rank(p) < rank(h)
  }

  // A draft, the order in use, and the transactions that have been put into the
  // block or turned away, each by the first decision on it.
  datatype Stage = Stage(draft: Draft, byFee: bool, joined: set<Hash>, refused: set<Hash>)

  function Start(cfg: Config, v: View): Stage {
    Stage(EmptyDraft(v), cfg.blockPrioritySize == 0, {}, {})
  }

  function Fate(cfg: Config, s: Stage, x: Item): Action {
    if Known(cfg, x) then Judge(cfg, s.draft, x, s.byFee).1 else Skip
  }

  predicate Decided(s: Stage, h: Hash) {
    h in s.joined || h in s.refused
  }

  // The turn of one item.
  function Next(cfg: Config, s: Stage, x: Item): Stage {
    if !Known(cfg, x) then s
    else
      Stage(Verdict(cfg, s.draft, x, s.byFee), Judge(cfg, s.draft, x, s.byFee).0,
            if Fate(cfg, s, x).Take? && !Decided(s, x.hash) then s.joined + {x.hash} else s.joined,
            if Fate(cfg, s, x).Skip? && !Decided(s, x.hash) then s.refused + {x.hash} else s.refused)
  }

  function Played(cfg: Config, v: View, xs: seq<Item>): Stage {
    if xs == [] then Start(cfg, v) else Next(cfg, Played(cfg, v, xs[..|xs| - 1]), xs[|xs| - 1])
  }

  // All that h waits for has been put into the block.
  ghost predicate Free(cfg: Config, pool: Pool, s: Stage, h: Hash) {
    forall p :: Awaits(cfg, pool, h, p) ==> p in s.joined
  }

  // h could be next.
  ghost predicate Open(cfg: Config, pool: Pool, ready: set<Hash>, s: Stage, h: Hash) {
    h in ready && Free(cfg, pool, s, h) && !Decided(s, h)
  }

  // It may be the turn of x: all it waits for is in the block, nothing that is open
  // precedes it, and it has not been decided on unless it spends twice from one
  // transaction.
  ghost predicate MayCome(cfg: Config, own: Items, pool: Pool, ready: set<Hash>, s: Stage, x: Item) {
    && IsOwn(cfg, own, x) && x.hash in ready && Free(cfg, pool, s, x.hash)
    && (Decided(s, x.hash) ==> Twice(cfg, pool, x.hash))
    && forall h :: Open(cfg, pool, ready, s, h) ==> h in own && NoLater(s.byFee, x, own[h])
  }

  ghost predicate ComesAt(cfg: Config, v: View, own: Items, pool: Pool, ready: set<Hash>,
                          xs: seq<Item>, i: nat) {
    i < |xs| && MayCome(cfg, own, pool, ready, Played(cfg, v, xs[..i]), xs[i])
  }

  // The items may have their turns in this order.
  ghost predicate IsRun(cfg: Config, v: View, own: Items, pool: Pool, ready: set<Hash>, xs: seq<Item>) {
    forall i :: 0 <= i < |xs| ==> ComesAt(cfg, v, own, pool, ready, xs, i)
  }

  ghost predicate Finished(cfg: Config, pool: Pool, ready: set<Hash>, s: Stage) {
    forall h :: !Open(cfg, pool, ready, s, h)
  }

  lemma RunNext(cfg: Config, v: View, own: Items, pool: Pool, ready: set<Hash>, xs: seq<Item>, x: Item)
    requires IsRun(cfg, v, own, pool, ready, xs)
    requires MayCome(cfg, own, pool, ready, Played(cfg, v, xs), x)
    ensures IsRun(cfg, v, own, pool, ready, xs + [x])
    ensures Played(cfg, v, xs + [x]) == Next(cfg, Played(cfg, v, xs), x)
  {
    var all := xs + [x];
    assert all[..|xs|] == xs;
    forall i | 0 <= i < |all| ensures ComesAt(cfg, v, own, pool, ready, all, i) {
      if i < |xs| {
        assert ComesAt(cfg, v, own, pool, ready, xs, i);
        assert all[..i] == xs[..i];
      }
    }
  }

  lemma RunBefore(cfg: Config, v: View, own: Items, pool: Pool, ready: set<Hash>, xs: seq<Item>, n: nat)
    requires IsRun(cfg, v, own, pool, ready, xs) && n <= |xs|
    ensures IsRun(cfg, v, own, pool, ready, xs[..n])
  {
    forall i | 0 <= i < n ensures ComesAt(cfg, v, own, pool, ready, xs[..n], i) {
      assert ComesAt(cfg, v, own, pool, ready, xs, i);
      assert xs[..n][..i] == xs[..i];
    }
  }

  // ------------------------------------------------------ what every run keeps

  lemma ChosenBy(cfg: Config, s: Stage, x: Item)
    requires Known(cfg, x) && cfg.txs[x.hash].hash == x.hash
    ensures HashesOf(Next(cfg, s, x).draft.chosen) ==
            HashesOf(s.draft.chosen) + if Fate(cfg, s, x).Take? then {x.hash} else {}
  {
    ChosenNext(s.draft.chosen, cfg.txs[x.hash]);
  }

  lemma {:induction false} RunKeeps(cfg: Config, v: View, own: Items, pool: Pool, ready: set<Hash>,
                                    xs: seq<Item>)
    requires Sound(cfg) && IsRun(cfg, v, own, pool, ready, xs)
    ensures var s := Played(cfg, v, xs); DraftOk(cfg, v, s.draft) && HashesOf(s.draft.chosen) <= own.Keys
  {
    if xs == [] {
      EmptyOk(cfg, v);
    } else {
      var n := |xs| - 1;
      RunBefore(cfg, v, own, pool, ready, xs, n);
      RunKeeps(cfg, v, own, pool, ready, xs[..n]);
      assert ComesAt(cfg, v, own, pool, ready, xs, n);
      var s := Played(cfg, v, xs[..n]);
      VerdictOk(cfg, v, s.draft, xs[n], s.byFee);
      ChosenBy(cfg, s, xs[n]);
    }
  }

  // The transaction is put at the end of the block if it is admitted, and otherwise
  // the draft stays; the first decision is noted.
  ghost predicate Turned(s: Stage, tx: Tx, h: Hash, admitted: bool, declined: bool, switched: bool, s1: Stage) {
    var first := h !in s.joined && h !in s.refused;
    && (admitted ==> s1.draft.chosen == s.draft.chosen + [tx])
    && (!admitted ==> s1.draft == s.draft)
    && s1.byFee == switched
    && s1.joined == s.joined + (if first && admitted then {h} else {})
    && s1.refused == s.refused + (if first && declined then {h} else {})
  }

  // One turn, written out.
  ghost predicate TurnIs(cfg: Config, s: Stage, x: Item, s1: Stage) {
    && x.hash in cfg.txs
    && Turned(s, cfg.txs[x.hash], x.hash, Admitted(cfg, s.draft, s.byFee, x), Declined(cfg, s.draft, s.byFee, x),
              SwitchedBy(cfg, s.draft, s.byFee, x), s1)
  }

  lemma NextTurned(cfg: Config, s: Stage, x: Item)
    requires Known(cfg, x)
    ensures Turned(s, cfg.txs[x.hash], x.hash, Fate(cfg, s, x).Take?, Fate(cfg, s, x).Skip?,
                   Judge(cfg, s.draft, x, s.byFee).0, Next(cfg, s, x))
  {
  }

  lemma FateMeans(cfg: Config, v: View, s: Stage, x: Item)
    requires Sound(cfg) && DraftOk(cfg, v, s.draft) && Known(cfg, x)
    ensures Fate(cfg, s, x).Take? == Admitted(cfg, s.draft, s.byFee, x)
    ensures Fate(cfg, s, x).Skip? == Declined(cfg, s.draft, s.byFee, x)
    ensures Judge(cfg, s.draft, x, s.byFee).0 == SwitchedBy(cfg, s.draft, s.byFee, x)
  {
    assert Sane(cfg.txs[x.hash]);
    JudgeMeans(cfg, s.draft, x, s.byFee);
  }

  lemma TurnMeans(cfg: Config, v: View, s: Stage, x: Item)
    requires Sound(cfg) && DraftOk(cfg, v, s.draft) && Known(cfg, x)
    ensures TurnIs(cfg, s, x, Next(cfg, s, x))
    ensures Fate(cfg, s, x).Take? == Admitted(cfg, s.draft, s.byFee, x)
    ensures Fate(cfg, s, x).Skip? == Declined(cfg, s.draft, s.byFee, x)
  {
    NextTurned(cfg, s, x);
    FateMeans(cfg, v, s, x);
  }

  // The i-th turn is one that may come, and goes as written out.
  ghost predicate TurnAt(cfg: Config, v: View, own: Items, pool: Pool, ready: set<Hash>, xs: seq<Item>,
                         stages: seq<Stage>, i: nat) {
    && i < |xs| && i + 1 < |stages|
    && MayCome(cfg, own, pool, ready, stages[i], xs[i]) && TurnIs(cfg, stages[i], xs[i], stages[i + 1])
    && DraftOk(cfg, v, stages[i + 1].draft)
  }

  // From an empty block, turn after turn.
  ghost predicate Story(cfg: Config, v: View, own: Items, pool: Pool, ready: set<Hash>, xs: seq<Item>,
                        stages: seq<Stage>) {
    && |stages| == |xs| + 1
    && stages[0].draft.chosen == [] && DraftOk(cfg, v, stages[0].draft)
    && stages[0].byFee == (cfg.blockPrioritySize == 0) && stages[0].joined == {} && stages[0].refused == {}
    && forall i :: 0 <= i < |xs| ==> TurnAt(cfg, v, own, pool, ready, xs, stages, i)
  }

  ghost function Stages(cfg: Config, v: View, xs: seq<Item>): (r: seq<Stage>)
    ensures |r| == |xs| + 1
  {
    seq(|xs| + 1, i requires 0 <= i <= |xs| => Played(cfg, v, xs[..i]))
  }

  // A run is such a story ...
  lemma RunIsStory(cfg: Config, v: View, own: Items, pool: Pool, ready: set<Hash>, xs: seq<Item>)
    requires Sound(cfg) && IsRun(cfg, v, own, pool, ready, xs)
    ensures Story(cfg, v, own, pool, ready, xs, Stages(cfg, v, xs))
    ensures Stages(cfg, v, xs)[|xs|] == Played(cfg, v, xs)
  {
    var stages := Stages(cfg, v, xs);
    assert xs[..|xs|] == xs && xs[..0] == [];
    EmptyOk(cfg, v);
    forall i | 0 <= i < |xs| ensures TurnAt(cfg, v, own, pool, ready, xs, stages, i) {
      RunTurnAt(cfg, v, own, pool, ready, xs, i);
    }
  }

  lemma RunTurnAt(cfg: Config, v: View, own: Items, pool: Pool, ready: set<Hash>, xs: seq<Item>, i: nat)
    requires Sound(cfg) && IsRun(cfg, v, own, pool, ready, xs) && i < |xs|
    ensures TurnAt(cfg, v, own, pool, ready, xs, Stages(cfg, v, xs), i)
  {
    var s, s1 := Played(cfg, v, xs[..i]), Played(cfg, v, xs[..i + 1]);
    assert ComesAt(cfg, v, own, pool, ready, xs, i);
    RunBefore(cfg, v, own, pool, ready, xs, i);
    RunBefore(cfg, v, own, pool, ready, xs, i + 1);
    RunKeeps(cfg, v, own, pool, ready, xs[..i]);
    RunKeeps(cfg, v, own, pool, ready, xs[..i + 1]);
    assert s1 == Next(cfg, s, xs[i]) by {
      assert xs[..i + 1][..i] == xs[..i];
    }
    TurnMeans(cfg, v, s, xs[i]);
  }

  lemma TurnOnce(cfg: Config, v: View, s: Stage, x: Item, s1: Stage, s2: Stage)
    requires TurnIs(cfg, s, x, s1) && TurnIs(cfg, s, x, s2)
    requires DraftOk(cfg, v, s1.draft) && DraftOk(cfg, v, s2.draft)
    ensures s1 == s2
  {
    assert s1.draft.chosen == s2.draft.chosen;
    DraftDetermined(cfg, v, s1.draft, s2.draft);
  }

  lemma StageOnce(cfg: Config, v: View, own: Items, pool: Pool, ready: set<Hash>, xs: seq<Item>,
                  ss: seq<Stage>, tt: seq<Stage>, i: nat)
    requires Story(cfg, v, own, pool, ready, xs, ss) && Story(cfg, v, own, pool, ready, xs, tt) && i < |xs|
    requires ss[i] == tt[i]
    ensures ss[i + 1] == tt[i + 1]
  {
    assert TurnAt(cfg, v, own, pool, ready, xs, ss, i) && TurnAt(cfg, v, own, pool, ready, xs, tt, i);
    TurnOnce(cfg, v, ss[i], xs[i], ss[i + 1], tt[i + 1]);
  }

  lemma FirstOnce(cfg: Config, v: View, own: Items, pool: Pool, ready: set<Hash>, xs: seq<Item>,
                  ss: seq<Stage>, tt: seq<Stage>)
    requires Story(cfg, v, own, pool, ready, xs, ss) && Story(cfg, v, own, pool, ready, xs, tt)
    ensures ss[0] == tt[0]
  {
    DraftDetermined(cfg, v, ss[0].draft, tt[0].draft);
  }

  // ... and the only one with these items.
  lemma {:induction false} StoryOnce(cfg: Config, v: View, own: Items, pool: Pool, ready: set<Hash>, xs: seq<Item>,
                                     ss: seq<Stage>, tt: seq<Stage>, n: nat)
    requires Story(cfg, v, own, pool, ready, xs, ss) && Story(cfg, v, own, pool, ready, xs, tt) && n <= |xs|
    ensures ss[n] == tt[n]
  {
    if n == 0 {
      FirstOnce(cfg, v, own, pool, ready, xs, ss, tt);
    } else {
      StoryOnce(cfg, v, own, pool, ready, xs, ss, tt, n - 1);
      StageOnce(cfg, v, own, pool, ready, xs, ss, tt, n - 1);
    }
  }

  // What has joined is in the block, and what else is in the block was turned
  // away at first and spends twice from one transaction.
  ghost predicate Reckoned(cfg: Config, pool: Pool, s: Stage) {
    && s.joined !! s.refused && s.joined <= HashesOf(s.draft.chosen)
    && forall h :: h in HashesOf(s.draft.chosen) && h !in s.joined ==> h in s.refused && Twice(cfg, pool, h)
  }

  lemma {:induction false} JoinedAreChosen(cfg: Config, v: View, own: Items, pool: Pool,
                                           ready: set<Hash>, xs: seq<Item>)
    requires Sound(cfg) && IsRun(cfg, v, own, pool, ready, xs)
    ensures Reckoned(cfg, pool, Played(cfg, v, xs))
  {
    if xs != [] {
      var n := |xs| - 1;
      RunBefore(cfg, v, own, pool, ready, xs, n);
      JoinedAreChosen(cfg, v, own, pool, ready, xs[..n]);
      assert ComesAt(cfg, v, own, pool, ready, xs, n);
      ChosenBy(cfg, Played(cfg, v, xs[..n]), xs[n]);
    }
  }

  // Decisions stand.
  lemma {:induction false} DecisionsStand(cfg: Config, v: View, xs: seq<Item>, i: nat)
    requires i <= |xs|
    ensures var s, t := Played(cfg, v, xs[..i]), Played(cfg, v, xs);
            s.joined <= t.joined && s.refused <= t.refused && s.draft.chosen <= t.draft.chosen
    decreases |xs|
  {
    if i == |xs| {
      assert xs[..i] == xs;
    } else {
      var n := |xs| - 1;
      DecisionsStand(cfg, v, xs[..n], i);
      assert xs[..n][..i] == xs[..i];
    }
  }

  // Each decision was made at one turn, with the transaction's own item, at a
  // draft that held everything it waits for: it joined the block if and only if the
  // limits, the fee rule and the checks let it.
  lemma {:induction false} DecidedAt(cfg: Config, v: View, own: Items, pool: Pool, ready: set<Hash>,
                                     xs: seq<Item>, h: Hash) returns (i: nat)
    requires Sound(cfg) && IsRun(cfg, v, own, pool, ready, xs) && Decided(Played(cfg, v, xs), h)
    ensures i < |xs| && xs[i].hash == h && h in own && xs[i] == own[h] && Known(cfg, own[h])
    ensures var s := Played(cfg, v, xs[..i]);
            && h in ready && !Decided(s, h) && Free(cfg, pool, s, h)
            && (h in Played(cfg, v, xs).joined <==> Admitted(cfg, s.draft, s.byFee, own[h]))
            && (h in Played(cfg, v, xs).refused <==> Declined(cfg, s.draft, s.byFee, own[h]))
  {
    var n := |xs| - 1;
    assert ComesAt(cfg, v, own, pool, ready, xs, n);
    if Decided(Played(cfg, v, xs[..n]), h) {
      RunBefore(cfg, v, own, pool, ready, xs, n);
      i := DecidedAt(cfg, v, own, pool, ready, xs[..n], h);
      assert xs[..n][..i] == xs[..i];
      NeverBoth(cfg, v, xs[..n], h);
    } else {
      i := n;
      RunBefore(cfg, v, own, pool, ready, xs, n);
      RunKeeps(cfg, v, own, pool, ready, xs[..n]);
      TurnMeans(cfg, v, Played(cfg, v, xs[..n]), xs[n]);
    }
  }

  lemma {:induction false} NeverBoth(cfg: Config, v: View, xs: seq<Item>, h: Hash)
    ensures !(h in Played(cfg, v, xs).joined && h in Played(cfg, v, xs).refused)
  {
    if xs != [] {
      NeverBoth(cfg, v, xs[..|xs| - 1], h);
    }
  }

  // A transaction that would be let in at any turn it is given once all it waits
  // for is in the block is in the finished block, if all it waits for is.
  lemma FitsSoTaken(cfg: Config, v: View, own: Items, pool: Pool, ready: set<Hash>, xs: seq<Item>, h: Hash)
    requires Sound(cfg) && IsRun(cfg, v, own, pool, ready, xs)
    requires Finished(cfg, pool, ready, Played(cfg, v, xs))
    requires h in ready && Free(cfg, pool, Played(cfg, v, xs), h)
    requires forall i :: 0 <= i < |xs| && xs[i].hash == h && Free(cfg, pool, Played(cfg, v, xs[..i]), h) ==>
               !Declined(cfg, Played(cfg, v, xs[..i]).draft, Played(cfg, v, xs[..i]).byFee, xs[i])
    ensures h in HashesOf(Played(cfg, v, xs).draft.chosen)
  {
    assert Decided(Played(cfg, v, xs), h) by {
      assert !Open(cfg, pool, ready, Played(cfg, v, xs), h);
    }
    var i := DecidedAt(cfg, v, own, pool, ready, xs, h);
    JoinedAreChosen(cfg, v, own, pool, ready, xs);
  }

  // A transaction that waits for nothing and precedes another in both orders is
  // decided on first.
  lemma BetterFirst(cfg: Config, v: View, own: Items, pool: Pool, ready: set<Hash>, xs: seq<Item>,
                    i: nat, h: Hash)
    requires IsRun(cfg, v, own, pool, ready, xs) && i < |xs| && h in ready && h in own
    requires forall p :: !Awaits(cfg, pool, h, p)
    requires !NoLater(true, xs[i], own[h]) && !NoLater(false, xs[i], own[h])
    ensures Decided(Played(cfg, v, xs[..i]), h)
  {
    assert ComesAt(cfg, v, own, pool, ready, xs, i);
    assert !Open(cfg, pool, ready, Played(cfg, v, xs[..i]), h);
  }

  // ------------------------------------------------------ none is forgotten

  // One step along a chain of transactions that were never decided on.
  ghost predicate WaitsAt(cfg: Config, pool: Pool, ready: set<Hash>, s: Stage, path: seq<Hash>, i: nat) {
    && i + 1 < |path| && path[i] in ready && !Decided(s, path[i])
    && Awaits(cfg, pool, path[i], path[i + 1])
  }

  // From h along such transactions, each waiting for the next, to one
  // that was turned away or was never set up.
  ghost predicate StuckAlong(cfg: Config, pool: Pool, ready: set<Hash>, s: Stage, h: Hash,
                             path: seq<Hash>) {
    && |path| >= 2 && path[0] == h
    && (forall i :: 0 <= i < |path| - 1 ==> WaitsAt(cfg, pool, ready, s, path, i))
    && var root := path[|path| - 1];
       root !in s.joined && (root in s.refused || root !in ready)
  }

  ghost predicate Stuck(cfg: Config, pool: Pool, ready: set<Hash>, s: Stage, h: Hash) {
    exists path :: StuckAlong(cfg, pool, ready, s, h, path)
  }

  lemma StuckOne(cfg: Config, pool: Pool, ready: set<Hash>, s: Stage, h: Hash, p: Hash)
    requires h in ready && !Decided(s, h) && Awaits(cfg, pool, h, p)
    requires p !in s.joined && (p in s.refused || p !in ready)
    ensures Stuck(cfg, pool, ready, s, h)
  {
    var path := [h, p];
    assert WaitsAt(cfg, pool, ready, s, path, 0);
    assert StuckAlong(cfg, pool, ready, s, h, path);
  }

  lemma StuckMore(cfg: Config, pool: Pool, ready: set<Hash>, s: Stage, h: Hash, p: Hash)
    requires h in ready && !Decided(s, h) && Awaits(cfg, pool, h, p) && Stuck(cfg, pool, ready, s, p)
    ensures Stuck(cfg, pool, ready, s, h)
  {
    var rest :| StuckAlong(cfg, pool, ready, s, p, rest);
    var path := [h] + rest;
    forall i | 0 <= i < |path| - 1 ensures WaitsAt(cfg, pool, ready, s, path, i) {
      if i > 0 {
        assert WaitsAt(cfg, pool, ready, s, rest, i - 1);
      }
    }
    assert StuckAlong(cfg, pool, ready, s, h, path);
  }

  // At the end, a transaction that was set up was decided on or is stuck.
  lemma {:induction false} NoneForgotten(cfg: Config, pool: Pool, rank: Hash -> nat, ready: set<Hash>,
                                         s: Stage, h: Hash)
    requires Finished(cfg, pool, ready, s) && Grounded(cfg, pool, rank) && h in ready
    ensures Decided(s, h) || Stuck(cfg, pool, ready, s, h)
    decreases rank(h)
  {
    assert !Open(cfg, pool, ready, s, h);
    if !Decided(s, h) {
      var p :| Awaits(cfg, pool, h, p) && p !in s.joined;
      if p in s.refused || p !in ready {
        StuckOne(cfg, pool, ready, s, h, p);
      } else {
        NoneForgotten(cfg, pool, rank, ready, s, p);
        StuckMore(cfg, pool, ready, s, h, p);
      }
    }
  }

  // What is stuck is not in the block, and waits for something that is not.
  lemma StuckOutside(cfg: Config, v: View, own: Items, pool: Pool, ready: set<Hash>, xs: seq<Item>, h: Hash)
    requires Sound(cfg) && IsRun(cfg, v, own, pool, ready, xs)
    requires Stuck(cfg, pool, ready, Played(cfg, v, xs), h)
    ensures h !in HashesOf(Played(cfg, v, xs).draft.chosen) && !Free(cfg, pool, Played(cfg, v, xs), h)
  {
    var s := Played(cfg, v, xs);
    JoinedAreChosen(cfg, v, own, pool, ready, xs);
    var path :| StuckAlong(cfg, pool, ready, s, h, path);
    assert WaitsAt(cfg, pool, ready, s, path, 0);
    if |path| > 2 {
      assert WaitsAt(cfg, pool, ready, s, path, 1);
    }
  }

  // ------------------------------------------------- the block is determined

  // Of any two items one precedes the other, and nothing is queued twice.
  ghost predicate Decisive(cfg: Config, own: Items, pool: Pool, ready: set<Hash>) {
    && (forall h :: h in own && h in ready ==> !Twice(cfg, pool, h))
    && forall g, h, byFee: bool :: g in own && h in own && g != h ==>
         !NoLater(byFee, own[g], own[h]) || !NoLater(byFee, own[h], own[g])
  }

  lemma SameNext(cfg: Config, own: Items, pool: Pool, ready: set<Hash>, s: Stage, x: Item, y: Item)
    requires Decisive(cfg, own, pool, ready)
    requires MayCome(cfg, own, pool, ready, s, x) && MayCome(cfg, own, pool, ready, s, y)
    ensures x == y && Open(cfg, pool, ready, s, x.hash)
  {
    assert Open(cfg, pool, ready, s, x.hash) && Open(cfg, pool, ready, s, y.hash);
    assert NoLater(s.byFee, own[x.hash], own[y.hash]) && NoLater(s.byFee, own[y.hash], own[x.hash]);
  }

  lemma {:induction false} SameBegin(cfg: Config, v: View, own: Items, pool: Pool, ready: set<Hash>,
                                     xs: seq<Item>, ys: seq<Item>, n: nat)
    requires Decisive(cfg, own, pool, ready) && n <= |xs| && n <= |ys|
    requires IsRun(cfg, v, own, pool, ready, xs) && IsRun(cfg, v, own, pool, ready, ys)
    ensures xs[..n] == ys[..n]
  {
    if n > 0 {
      SameBegin(cfg, v, own, pool, ready, xs, ys, n - 1);
      assert ComesAt(cfg, v, own, pool, ready, xs, n - 1) && ComesAt(cfg, v, own, pool, ready, ys, n - 1);
      SameNext(cfg, own, pool, ready, Played(cfg, v, xs[..n - 1]), xs[n - 1], ys[n - 1]);
      assert xs[..n] == xs[..n - 1] + [xs[n - 1]] && ys[..n] == ys[..n - 1] + [ys[n - 1]];
    }
  }

  lemma NotShorter(cfg: Config, v: View, own: Items, pool: Pool, ready: set<Hash>,
                   xs: seq<Item>, ys: seq<Item>)
    requires Decisive(cfg, own, pool, ready) && |xs| <= |ys| && xs == ys[..|xs|]
    requires IsRun(cfg, v, own, pool, ready, ys) && Finished(cfg, pool, ready, Played(cfg, v, xs))
    ensures |xs| == |ys|
  {
    if |xs| < |ys| {
      assert ComesAt(cfg, v, own, pool, ready, ys, |xs|);
      SameNext(cfg, own, pool, ready, Played(cfg, v, xs), ys[|xs|], ys[|xs|]);
    }
  }

  // Then there is one finished run, and one block.
  lemma OneBlock(cfg: Config, v: View, own: Items, pool: Pool, ready: set<Hash>,
                 xs: seq<Item>, ys: seq<Item>)
    requires Decisive(cfg, own, pool, ready)
    requires IsRun(cfg, v, own, pool, ready, xs) && Finished(cfg, pool, ready, Played(cfg, v, xs))
    requires IsRun(cfg, v, own, pool, ready, ys) && Finished(cfg, pool, ready, Played(cfg, v, ys))
    ensures xs == ys
  {
    var n := if |xs| <= |ys| then |xs| else |ys|;
    SameBegin(cfg, v, own, pool, ready, xs, ys, n);
    assert xs[..|xs|] == xs && ys[..|ys|] == ys;
    if |xs| <= |ys| {
      NotShorter(cfg, v, own, pool, ready, xs, ys);
    } else {
      NotShorter(cfg, v, own, pool, ready, ys, xs);
    }
  }
}
