// Ranking the blocks a template may build on by the votes they have.
module ParentSort {
  import opened Sequences

  type Hash = nat

  const TWO_16 := 0x1_0000

  // The votes the memory pool holds for a block, each a yes or a no.
  type Votes = Hash -> seq<bool>

  datatype Ranked = Ranked(hash: Hash, numVotes: nat)

  function Count(vs: seq<bool>, yes: bool): nat {
    if vs == [] then 0
    else Count(vs[..|vs| - 1], yes) + if vs[|vs| - 1] == yes then 1 else 0
  }

  // Yes and no votes make up all votes.
  lemma {:induction false} CountsAddUp(vs: seq<bool>)
    ensures Count(vs, true) + Count(vs, false) == |vs|
  {
    if vs != [] {
      CountsAddUp(vs[..|vs| - 1]);
    }
  }

  function MinVotes(ticketsPerBlock: nat): nat {
    ticketsPerBlock / 2 + 1
  }

  // A majority of a full set of votes is a yes, or is a no.
  predicate Majority(vs: seq<bool>, ticketsPerBlock: nat) {
    Count(vs, true) >= MinVotes(ticketsPerBlock) || Count(vs, false) >= MinVotes(ticketsPerBlock)
  }

  // The same on 16-bit counters.
  predicate Enough(vs: seq<bool>, ticketsPerBlock: nat) {
    || Count(vs, true) % TWO_16 >= MinVotes(ticketsPerBlock)
    || Count(vs, false) % TWO_16 >= MinVotes(ticketsPerBlock)
  }

  function Eligible(blocks: seq<Hash>, votes: Votes, ticketsPerBlock: nat): seq<Ranked> {
    if blocks == [] then []
    else
      var b := blocks[|blocks| - 1];
      Eligible(blocks[..|blocks| - 1], votes, ticketsPerBlock) +
      if Enough(votes(b), ticketsPerBlock) then [Ranked(b, |votes(b)| % TWO_16)] else []
  }

  function HashesOf(s: seq<Ranked>): (r: seq<Hash>)
    ensures |r| == |s| && forall i :: 0 <= i < |s| ==> r[i] == s[i].hash
  {
    seq(|s|, i requires 0 <= i < |s| => s[i].hash)
  }

  ghost predicate Descending(s: seq<Ranked>) {
    forall i, j :: 0 <= i < j < |s| ==> s[i].numVotes >= s[j].numVotes
  }

  // ------------------------------------------------------------ the algorithm

  method CountVotes(vs: seq<bool>) returns (yea: nat, nay: nat)
    ensures yea == Count(vs, true) % TWO_16 && nay == Count(vs, false) % TWO_16
  {
    yea, nay := 0, 0;
    for i := 0 to |vs|
      invariant yea == Count(vs[..i], true) % TWO_16 && nay == Count(vs[..i], false) % TWO_16
    {
      assert vs[..i + 1][..i] == vs[..i];
      if vs[i] {
        yea := (yea + 1) % TWO_16;
      } else {
        nay := (nay + 1) % TWO_16;
      }
    }
    assert vs[..|vs|] == vs;
  }

  method Filter(blocks: seq<Hash>, votes: Votes, ticketsPerBlock: nat) returns (filtered: seq<Ranked>)
    ensures filtered == Eligible(blocks, votes, ticketsPerBlock)
  {
    filtered := [];
    for i := 0 to |blocks|
      invariant filtered == Eligible(blocks[..i], votes, ticketsPerBlock)
    {
      assert blocks[..i + 1][..i] == blocks[..i];
      var yea, nay := CountVotes(votes(blocks[i]));
      if yea >= MinVotes(ticketsPerBlock) || nay >= MinVotes(ticketsPerBlock) {
        filtered := filtered + [Ranked(blocks[i], |votes(blocks[i])| % TWO_16)];
      }
    }
    assert blocks[..|blocks|] == blocks;
  }

  lemma Inserted(t: seq<Ranked>, k: nat, x: Ranked)
    requires Descending(t) && k <= |t|
    requires forall j :: 0 <= j < k ==> t[j].numVotes >= x.numVotes
    requires k < |t| ==> t[k].numVotes < x.numVotes
    ensures Descending(t[..k] + [x] + t[k..])
  {
    var r := t[..k] + [x] + t[k..];
    forall i, j | 0 <= i < j < |r| ensures r[i].numVotes >= r[j].numVotes {
      assert r[i] == if i < k then t[i] else if i == k then x else t[i - 1];
      assert r[j] == if j < k then t[j] else if j == k then x else t[j - 1];
    }
  }

  lemma InsertedSame(t: seq<Ranked>, k: nat, x: Ranked)
    requires k <= |t|
    ensures multiset(t[..k] + [x] + t[k..]) == multiset(t) + multiset{x}
  {
    assert t == t[..k] + t[k..];
  }

  method Insert(t: seq<Ranked>, x: Ranked) returns (r: seq<Ranked>)
    requires Descending(t)
    ensures Descending(r) && multiset(r) == multiset(t) + multiset{x}
  {
    var k := 0;
    while k < |t| && t[k].numVotes >= x.numVotes
      invariant k <= |t| && forall j :: 0 <= j < k ==> t[j].numVotes >= x.numVotes
    {
      k := k + 1;
    }
    Inserted(t, k, x);
    InsertedSame(t, k, x);
    r := t[..k] + [x] + t[k..];
  }

  // Some list with the same entries, most votes first; nothing is promised about
  // the order of entries with equally many votes.
  method Sort(s: seq<Ranked>) returns (t: seq<Ranked>)
    ensures multiset(t) == multiset(s) && Descending(t)
  {
    t := [];
    for i := 0 to |s|
      invariant multiset(t) == multiset(s[..i]) && Descending(t)
    {
      assert s[..i + 1] == s[..i] + [s[i]];
      t := Insert(t, s[i]);
    }
    assert s[..|s|] == s;
  }

  // Where the hash stands first, or 0 when it is not there.
  method Position(s: seq<Ranked>, top: Hash) returns (pos: nat)
    requires s != []
    ensures pos < |s| && (s[pos].hash == top || (pos == 0 && forall j :: 0 <= j < |s| ==> s[j].hash != top))
  {
    pos := 0;
    for i := 0 to |s|
      invariant pos == 0 && forall j :: 0 <= j < i ==> s[j].hash != top
    {
      if s[i].hash == top {
        return i;
      }
    }
  }

  // The number compared with is the number of lists of votes asked for, which is
  // one, and not the number of votes in that list.
  const TOP_BLOCK_VOTES := |[0]|

  // When the current top block is moved to the front.
  predicate Moves(sorted: seq<Ranked>, top: Hash) {
    && |sorted| > 0 && sorted[0].numVotes == TOP_BLOCK_VOTES
    && sorted[0].hash != top && exists i :: 0 <= i < |sorted| && sorted[i].hash == top
  }

  // What the function makes of a sorted list of the eligible blocks.
  ghost predicate Outcome(votes: Votes, top: Hash, blocks: seq<Hash>, ticketsPerBlock: nat,
                          sorted: seq<Ranked>, pos: nat, result: seq<Hash>) {
    && multiset(sorted) == multiset(Eligible(blocks, votes, ticketsPerBlock)) && Descending(sorted)
    && (Moves(sorted, top) ==>
          0 < pos < |sorted| && sorted[pos].hash == top && result == Swapped(HashesOf(sorted), 0, pos))
    && (!Moves(sorted, top) ==> result == HashesOf(sorted))
  }

  // Fewer votes than a 16-bit counter can tell apart.
  ghost predicate Countable(votes: Votes) {
    forall b :: |votes(b)| < TWO_16
  }

  ghost predicate MostVotesFirst(votes: Votes, result: seq<Hash>) {
    forall i, j :: 0 <= i < j < |result| ==> |votes(result[i])| >= |votes(result[j])|
  }

  // The blocks that have a majority, in the order given.
  function Worthy(blocks: seq<Hash>, votes: Votes, ticketsPerBlock: nat): seq<Hash> {
    if blocks == [] then []
    else
      var b := blocks[|blocks| - 1];
      Worthy(blocks[..|blocks| - 1], votes, ticketsPerBlock) + if Majority(votes(b), ticketsPerBlock) then [b] else []
  }

  // More than half of the tickets voted yes, or no.
  ghost predicate MoreThanHalf(vs: seq<bool>, ticketsPerBlock: nat) {
    2 * Count(vs, true) > ticketsPerBlock || 2 * Count(vs, false) > ticketsPerBlock
  }

  lemma {:induction false} WorthyAre(blocks: seq<Hash>, votes: Votes, ticketsPerBlock: nat)
    ensures forall b :: b in Worthy(blocks, votes, ticketsPerBlock) <==>
                        b in blocks && MoreThanHalf(votes(b), ticketsPerBlock)
  {
    if blocks != [] {
      var n := |blocks| - 1;
      WorthyAre(blocks[..n], votes, ticketsPerBlock);
      assert blocks == blocks[..n] + [blocks[n]];
      assert Majority(votes(blocks[n]), ticketsPerBlock) <==> MoreThanHalf(votes(blocks[n]), ticketsPerBlock);
    }
  }

  lemma EnoughIsMajority(vs: seq<bool>, ticketsPerBlock: nat)
    requires |vs| < TWO_16
    ensures Enough(vs, ticketsPerBlock) <==> Majority(vs, ticketsPerBlock)
    ensures Majority(vs, ticketsPerBlock) ==> |vs| >= MinVotes(ticketsPerBlock)
  {
    CountsAddUp(vs);
  }

  // Each eligible entry is about a block with enough votes.
  lemma {:induction false} EligibleHonest(blocks: seq<Hash>, votes: Votes, ticketsPerBlock: nat)
    requires Countable(votes)
    ensures forall x :: x in Eligible(blocks, votes, ticketsPerBlock) ==> Honest(x, votes, ticketsPerBlock)
  {
    if blocks != [] {
      EligibleHonest(blocks[..|blocks| - 1], votes, ticketsPerBlock);
      EnoughIsMajority(votes(blocks[|blocks| - 1]), ticketsPerBlock);
    }
  }

  lemma {:induction false} EligibleWorthy(blocks: seq<Hash>, votes: Votes, ticketsPerBlock: nat)
    requires Countable(votes)
    ensures HashesOf(Eligible(blocks, votes, ticketsPerBlock)) == Worthy(blocks, votes, ticketsPerBlock)
  {
    if blocks != [] {
      var before, b := Eligible(blocks[..|blocks| - 1], votes, ticketsPerBlock), blocks[|blocks| - 1];
      EligibleWorthy(blocks[..|blocks| - 1], votes, ticketsPerBlock);
      EnoughIsMajority(votes(b), ticketsPerBlock);
      HashesAppend(before, Ranked(b, |votes(b)| % TWO_16));
      assert before + [] == before && HashesOf(before) + [] == HashesOf(before);
    }
  }

  // The eligible entries are about the worthy blocks.
  lemma EligibleAre(blocks: seq<Hash>, votes: Votes, ticketsPerBlock: nat)
    requires Countable(votes)
    ensures HashesOf(Eligible(blocks, votes, ticketsPerBlock)) == Worthy(blocks, votes, ticketsPerBlock)
    ensures forall x :: x in Eligible(blocks, votes, ticketsPerBlock) ==> Honest(x, votes, ticketsPerBlock)
  {
    EligibleHonest(blocks, votes, ticketsPerBlock);
    EligibleWorthy(blocks, votes, ticketsPerBlock);
  }

  lemma HashesAppend(s: seq<Ranked>, x: Ranked)
    ensures HashesOf(s + [x]) == HashesOf(s) + [x.hash]
  {
  }

  ghost predicate Honest(x: Ranked, votes: Votes, ticketsPerBlock: nat) {
    x.numVotes == |votes(x.hash)| >= MinVotes(ticketsPerBlock)
  }

  function Without<T>(t: seq<T>, k: nat): (r: seq<T>)
    requires k < |t|
    ensures |r| == |t| - 1
  {
    t[..k] + t[k + 1..]
  }

  lemma TakenOut<T>(t: seq<T>, k: nat)
    requires k < |t|
    ensures multiset(t) == multiset(Without(t, k)) + multiset{t[k]}
  {
    assert t == t[..k] + [t[k]] + t[k + 1..];
  }

  lemma HashTakenOut(t: seq<Ranked>, k: nat)
    requires k < |t|
    ensures multiset(HashesOf(t)) == multiset(HashesOf(Without(t, k))) + multiset{t[k].hash}
  {
    TakenOut(HashesOf(t), k);
    assert HashesOf(Without(t, k)) == Without(HashesOf(t), k);
  }

  lemma Cancelled<T>(s: seq<T>, t: seq<T>, k: nat)
    requires multiset(s) == multiset(t) && |s| > 0 && k < |t| && t[k] == s[0]
    ensures multiset(Without(s, 0)) == multiset(Without(t, k))
  {
    TakenOut(s, 0);
    TakenOut(t, k);
    assert multiset(Without(s, 0)) == multiset(s) - multiset{s[0]};
    assert multiset(Without(t, k)) == multiset(t) - multiset{s[0]};
  }

  lemma SameElements<T>(s: seq<T>, t: seq<T>)
    requires multiset(s) == multiset(t)
    ensures |s| == |t| && forall x :: x in s ==> x in t
  {
    assert |multiset(s)| == |s| && |multiset(t)| == |t|;
    forall x | x in s ensures x in t {
      assert x in multiset(t);
    }
  }

  lemma {:induction false} HashesPermute(s: seq<Ranked>, t: seq<Ranked>)
    requires multiset(s) == multiset(t)
    ensures multiset(HashesOf(s)) == multiset(HashesOf(t))
    decreases |s|
  {
    SameElements(s, t);
    if s == [] {
      assert HashesOf(s) == HashesOf(t);
    } else {
      assert s[0] in t;
      var k :| 0 <= k < |t| && t[k] == s[0];
      Cancelled(s, t, k);
      HashTakenOut(s, 0);
      HashTakenOut(t, k);
      HashesPermute(Without(s, 0), Without(t, k));
    }
  }

  lemma SortedHonest(votes: Votes, blocks: seq<Hash>, ticketsPerBlock: nat, sorted: seq<Ranked>)
    requires Countable(votes) && multiset(sorted) == multiset(Eligible(blocks, votes, ticketsPerBlock))
    ensures forall i :: 0 <= i < |sorted| ==> Honest(sorted[i], votes, ticketsPerBlock)
  {
    EligibleAre(blocks, votes, ticketsPerBlock);
    forall i | 0 <= i < |sorted| ensures Honest(sorted[i], votes, ticketsPerBlock) {
      assert sorted[i] in multiset(sorted);
      assert sorted[i] in Eligible(blocks, votes, ticketsPerBlock);
    }
  }

  // The result is exactly the blocks with a majority of yes or of no votes, most
  // votes first, whether or not the current top block was moved to the front.
  lemma RankedByVotes(votes: Votes, top: Hash, blocks: seq<Hash>, ticketsPerBlock: nat,
                      sorted: seq<Ranked>, pos: nat, result: seq<Hash>)
    requires Countable(votes) && Outcome(votes, top, blocks, ticketsPerBlock, sorted, pos, result)
    ensures multiset(result) == multiset(Worthy(blocks, votes, ticketsPerBlock))
    ensures forall b :: b in result <==> b in blocks && MoreThanHalf(votes(b), ticketsPerBlock)
    ensures MostVotesFirst(votes, result)
  {
    EligibleAre(blocks, votes, ticketsPerBlock);
    HashesPermute(sorted, Eligible(blocks, votes, ticketsPerBlock));
    SortedHonest(votes, blocks, ticketsPerBlock, sorted);
    if Moves(sorted, top) {
      SwappedSame(HashesOf(sorted), 0, pos);
    }
    SameElements(result, Worthy(blocks, votes, ticketsPerBlock));
    SameElements(Worthy(blocks, votes, ticketsPerBlock), result);
    WorthyAre(blocks, votes, ticketsPerBlock);
    forall i, j | 0 <= i < j < |result| ensures |votes(result[i])| >= |votes(result[j])| {
      assert Honest(sorted[i], votes, ticketsPerBlock) && Honest(sorted[j], votes, ticketsPerBlock);
      assert Honest(sorted[0], votes, ticketsPerBlock);
      if Moves(sorted, top) {
        assert Honest(sorted[pos], votes, ticketsPerBlock);
      }
    }
  }

  method SortParentsByVotes(votes: Votes, currentTopBlock: Hash, blocks: seq<Hash>, ticketsPerBlock: nat)
    returns (result: seq<Hash>, ghost sorted: seq<Ranked>, ghost pos: nat)
    ensures Outcome(votes, currentTopBlock, blocks, ticketsPerBlock, sorted, pos, result)
    ensures Countable(votes) ==>
              multiset(result) == multiset(Worthy(blocks, votes, ticketsPerBlock)) && MostVotesFirst(votes, result)
  {
    result, sorted, pos := [], [], 0;
    if |blocks| > 0 {
      var filtered := Filter(blocks, votes, ticketsPerBlock);
      if |filtered| > 0 {
        result, sorted, pos := Arrange(filtered, currentTopBlock);
      }
    }
    if Countable(votes) {
      RankedByVotes(votes, currentTopBlock, blocks, ticketsPerBlock, sorted, pos, result);
    }
  }

  // Sort, and move the current top block to the front where that is called for.
  method Arrange(filtered: seq<Ranked>, currentTopBlock: Hash)
    returns (result: seq<Hash>, ghost sorted: seq<Ranked>, ghost pos: nat)
    requires |filtered| > 0
    ensures multiset(sorted) == multiset(filtered) && Descending(sorted)
    ensures Moves(sorted, currentTopBlock) ==> 0 < pos < |sorted| && sorted[pos].hash == currentTopBlock
    ensures Moves(sorted, currentTopBlock) ==> result == Swapped(HashesOf(sorted), 0, pos)
    ensures !Moves(sorted, currentTopBlock) ==> result == HashesOf(sorted)
  {
    var ranked := Sort(filtered);
    assert |multiset(ranked)| == |multiset(filtered)|;
    sorted, pos := ranked, 0;
    result := HashesOf(ranked);
    if ranked[0].numVotes == TOP_BLOCK_VOTES && ranked[0].hash != currentTopBlock {
      var at := Position(ranked, currentTopBlock);
      pos := at;
      if at != 0 {
        result := Swapped(result, 0, at);
      }
    }
  }

  // ---------------------------------------------------- the rule about ties

  // A current top block that is eligible and has as many votes as the leader
  // stays in the lead.
  ghost predicate TopStays(votes: Votes, top: Hash, result: seq<Hash>) {
    top in result && |votes(top)| == |votes(result[0])| ==> result[0] == top
  }

  // With two tickets per block or more the top block is never moved, so that with
  // any such number of tickets a tie can go against it.
  lemma NeverMoves(votes: Votes, top: Hash, blocks: seq<Hash>, ticketsPerBlock: nat, sorted: seq<Ranked>)
    requires Countable(votes) && multiset(sorted) == multiset(Eligible(blocks, votes, ticketsPerBlock))
    requires ticketsPerBlock >= 2
    ensures !Moves(sorted, top)
  {
    SortedHonest(votes, blocks, ticketsPerBlock, sorted);
    if |sorted| > 0 {
      assert Honest(sorted[0], votes, ticketsPerBlock);
    }
  }

  lemma {:induction false} AllYes(n: nat)
    ensures Count(seq(n, i => true), true) == n
  {
    if n > 0 {
      AllYes(n - 1);
      assert seq(n, i => true)[..n - 1] == seq(n - 1, i => true);
    }
  }

  lemma TopMayLoseTie(ticketsPerBlock: nat)
    requires 2 <= ticketsPerBlock < TWO_16
    ensures exists votes: Votes, blocks, sorted, result ::
              Outcome(votes, 1, blocks, ticketsPerBlock, sorted, 0, result) && !TopStays(votes, 1, result)
  {
    var n := MinVotes(ticketsPerBlock);
    var ballot := seq(n, i => true);
    var votes: Votes := b => ballot;
    AllYes(n);
    var blocks := [0, 1];
    var sorted := [Ranked(0, n), Ranked(1, n)];
    assert blocks[..1] == [0];
    assert Eligible([0], votes, ticketsPerBlock) == [Ranked(0, n)];
    assert Eligible(blocks, votes, ticketsPerBlock) == sorted;
    var result := HashesOf(sorted);
    assert result == [0, 1];
    assert Outcome(votes, 1, blocks, ticketsPerBlock, sorted, 0, result);
  }

  // Every way of sorting leaves a current top block that ties in the lead.
  ghost predicate AlwaysStays(votes: Votes, top: Hash, blocks: seq<Hash>, ticketsPerBlock: nat) {
    forall sorted, pos, result ::
      Outcome(votes, top, blocks, ticketsPerBlock, sorted, pos, result) ==> TopStays(votes, top, result)
  }

  // The current top block is out of the running, or behind, or alone in front, or
  // the lead is one vote.
  ghost predicate NoContest(votes: Votes, top: Hash, worthy: seq<Hash>) {
    || top !in worthy
    || (exists b :: b in worthy && |votes(b)| > |votes(top)|)
    || (forall b :: b in worthy && b != top ==> |votes(b)| != |votes(top)|)
    || |votes(top)| == 1
  }

  lemma ResultIsWorthy(votes: Votes, top: Hash, blocks: seq<Hash>, ticketsPerBlock: nat,
                       sorted: seq<Ranked>, pos: nat, result: seq<Hash>)
    requires Countable(votes) && Outcome(votes, top, blocks, ticketsPerBlock, sorted, pos, result)
    ensures forall b :: b in result <==> b in Worthy(blocks, votes, ticketsPerBlock)
    ensures MostVotesFirst(votes, result)
  {
    RankedByVotes(votes, top, blocks, ticketsPerBlock, sorted, pos, result);
    SameElements(result, Worthy(blocks, votes, ticketsPerBlock));
    SameElements(Worthy(blocks, votes, ticketsPerBlock), result);
  }

  lemma FirstHasMost(votes: Votes, result: seq<Hash>, b: Hash)
    requires MostVotesFirst(votes, result) && b in result
    ensures |votes(result[0])| >= |votes(b)|
  {
    var i :| 0 <= i < |result| && result[i] == b;
  }

  lemma StaysInOutcome(votes: Votes, top: Hash, blocks: seq<Hash>, ticketsPerBlock: nat,
                       sorted: seq<Ranked>, pos: nat, result: seq<Hash>)
    requires Countable(votes) && Outcome(votes, top, blocks, ticketsPerBlock, sorted, pos, result)
    requires NoContest(votes, top, Worthy(blocks, votes, ticketsPerBlock))
    ensures TopStays(votes, top, result)
  {
    var worthy := Worthy(blocks, votes, ticketsPerBlock);
    ResultIsWorthy(votes, top, blocks, ticketsPerBlock, sorted, pos, result);
    if top in result && |votes(top)| == |votes(result[0])| {
      assert result[0] in worthy;
      if exists b :: b in worthy && |votes(b)| > |votes(top)| {
        var b :| b in worthy && |votes(b)| > |votes(top)|;
        FirstHasMost(votes, result, b);
      } else if |votes(top)| == 1 {
        LeadOfOne(votes, top, blocks, ticketsPerBlock, sorted, pos, result);
      }
    }
  }

  // A lead of one vote is the case in which the top block is moved.
  lemma LeadOfOne(votes: Votes, top: Hash, blocks: seq<Hash>, ticketsPerBlock: nat,
                  sorted: seq<Ranked>, pos: nat, result: seq<Hash>)
    requires Countable(votes) && Outcome(votes, top, blocks, ticketsPerBlock, sorted, pos, result)
    requires top in result && |votes(result[0])| == 1
    ensures result[0] == top
  {
    SortedHonest(votes, blocks, ticketsPerBlock, sorted);
    if !Moves(sorted, top) {
      var i :| 0 <= i < |result| && result[i] == top;
      assert sorted[i].hash == top && Honest(sorted[0], votes, ticketsPerBlock);
    }
  }

  lemma {:induction false} SortExists(s: seq<Ranked>) returns (t: seq<Ranked>)
    ensures multiset(t) == multiset(s) && Descending(t)
  {
    if s == [] {
      t := [];
    } else {
      var n := |s| - 1;
      var u := SortExists(s[..n]);
      assert s == s[..n] + [s[n]];
      var k := 0;
      while k < |u| && u[k].numVotes >= s[n].numVotes
        invariant k <= |u| && forall j :: 0 <= j < k ==> u[j].numVotes >= s[n].numVotes
      {
        k := k + 1;
      }
      Inserted(u, k, s[n]);
      InsertedSame(u, k, s[n]);
      t := u[..k] + [s[n]] + u[k..];
    }
  }

  // Among entries with the most votes, any can come first.
  lemma AnyLeader(t: seq<Ranked>, k: nat)
    requires Descending(t) && k < |t| && t[k].numVotes == t[0].numVotes
    ensures Descending(Swapped(t, 0, k)) && multiset(Swapped(t, 0, k)) == multiset(t)
  {
    SwappedSame(t, 0, k);
  }

  lemma EntryOf(blocks: seq<Hash>, votes: Votes, ticketsPerBlock: nat, sorted: seq<Ranked>, b: Hash) returns (k: nat)
    requires Countable(votes) && multiset(sorted) == multiset(Eligible(blocks, votes, ticketsPerBlock))
    requires b in Worthy(blocks, votes, ticketsPerBlock)
    ensures k < |sorted| && sorted[k] == Ranked(b, |votes(b)|)
  {
    EligibleAre(blocks, votes, ticketsPerBlock);
    HashesPermute(sorted, Eligible(blocks, votes, ticketsPerBlock));
    SameElements(HashesOf(Eligible(blocks, votes, ticketsPerBlock)), HashesOf(sorted));
    assert b in HashesOf(sorted);
    k :| 0 <= k < |sorted| && HashesOf(sorted)[k] == b;
    SortedHonest(votes, blocks, ticketsPerBlock, sorted);
    assert Honest(sorted[k], votes, ticketsPerBlock);
  }

  // A sort that puts another block with as many votes first.
  lemma LosesTie(votes: Votes, top: Hash, blocks: seq<Hash>, ticketsPerBlock: nat, b: Hash)
    requires Countable(votes) && b != top && |votes(b)| == |votes(top)| != 1
    requires top in Worthy(blocks, votes, ticketsPerBlock) && b in Worthy(blocks, votes, ticketsPerBlock)
    requires forall a :: a in Worthy(blocks, votes, ticketsPerBlock) ==> |votes(a)| <= |votes(top)|
    ensures exists sorted, result ::
              Outcome(votes, top, blocks, ticketsPerBlock, sorted, 0, result) && !TopStays(votes, top, result)
  {
    var t := SortExists(Eligible(blocks, votes, ticketsPerBlock));
    var k := EntryOf(blocks, votes, ticketsPerBlock, t, b);
    SortedHonest(votes, blocks, ticketsPerBlock, t);
    assert Honest(t[0], votes, ticketsPerBlock);
    EligibleAre(blocks, votes, ticketsPerBlock);
    HashesPermute(t, Eligible(blocks, votes, ticketsPerBlock));
    SameElements(HashesOf(t), Worthy(blocks, votes, ticketsPerBlock));
    assert HashesOf(t)[0] in HashesOf(t);
    assert t[k].numVotes == t[0].numVotes;
    AnyLeader(t, k);
    var sorted := Swapped(t, 0, k);
    var result := HashesOf(sorted);
    assert Outcome(votes, top, blocks, ticketsPerBlock, sorted, 0, result);
    var j := EntryOf(blocks, votes, ticketsPerBlock, sorted, top);
    assert result[j] == top && result[0] == b;
  }

  // The rule is kept, however the sort leaves equals, if and only if there is no
  // contest or its prize is one vote.
  lemma TopStaysExactly(votes: Votes, top: Hash, blocks: seq<Hash>, ticketsPerBlock: nat)
    requires Countable(votes)
    ensures AlwaysStays(votes, top, blocks, ticketsPerBlock) <==>
            NoContest(votes, top, Worthy(blocks, votes, ticketsPerBlock))
  {
    var worthy := Worthy(blocks, votes, ticketsPerBlock);
    if NoContest(votes, top, worthy) {
      forall sorted, pos, result | Outcome(votes, top, blocks, ticketsPerBlock, sorted, pos, result)
        ensures TopStays(votes, top, result)
      {
        StaysInOutcome(votes, top, blocks, ticketsPerBlock, sorted, pos, result);
      }
    } else {
      var b :| b in worthy && b != top && |votes(b)| == |votes(top)|;
      LosesTie(votes, top, blocks, ticketsPerBlock, b);
    }
  }
}
