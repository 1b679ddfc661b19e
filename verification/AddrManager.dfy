// The address manager as it is held in memory: address objects shared by the
// index, the new buckets and the tried lists, and updated in place.
module AddrManager {
  import opened Wrappers
  import opened AddrBook

  // The record behind a reference to a known address.  Index, buckets and lists
  // share these objects, so a field changed through one is changed for all.
  class KnownAddress {
    var rec: Info

    constructor (rec: Info)
      ensures this.rec == rec
    {
      this.rec := rec;
    }
  }

  // The random numbers of one round of a selection, and whether its last one
  // falls under the address's chance of being chosen.
  datatype Draw = Draw(bucket: nat, entry: nat, accept: bool)

  // What expiry relies on: the addresses of bucket i are indexed, in no tried
  // list, and in no other bucket once their count is down to one.
  ghost predicate Expirable(b: Book, i: nat) {
    && i < |b.buckets|
    && (forall k :: k in b.buckets[i] ==> k in b.index)
    && (forall k, x :: 0 <= x < |b.buckets| && k in b.buckets[i] && k in b.buckets[x] && b.index[k].refs == 1 ==> x == i)
    && (forall t, j :: 0 <= t < |b.tried| && 0 <= j < |b.tried[t]| ==> b.tried[t][j] !in b.buckets[i])
  }

  lemma InvExpirable(b: Book, env: Env, pending: set<Key>, i: nat)
    requires InvBut(b, env, pending) && i < |b.buckets|
    ensures Expirable(b, i)
  {
    forall k, x | 0 <= x < |b.buckets| && k in b.buckets[i] && k in b.buckets[x] && b.index[k].refs == 1
      ensures x == i
    {
      assert Placed(b, env, k, pending);
      OnlyHolding(b.buckets, i, k);
      assert x in Holding(b.buckets, k);
    }
  }

  // Every bucket entry is the very object the index files under the same key.
  ghost predicate NewAliases(index: map<Key, KnownAddress>, objects: seq<map<Key, KnownAddress>>,
                             buckets: seq<set<Key>>)
  {
    && |objects| == |buckets| == NEW_BUCKET_COUNT
    && (forall i :: 0 <= i < |objects| ==> objects[i].Keys == buckets[i])
    && (forall i, k :: 0 <= i < |objects| && k in objects[i] ==> k in index && objects[i][k] == index[k])
  }

  // Every tried slot holds the very object the index files under its key.
  ghost predicate TriedAliases(index: map<Key, KnownAddress>, objects: seq<seq<KnownAddress>>, lists: seq<seq<Key>>) {
    && |objects| == |lists| == TRIED_BUCKET_COUNT
    && (forall t :: 0 <= t < |objects| ==> |objects[t]| == |lists[t]|)
    && (forall t, j :: 0 <= t < |objects| && 0 <= j < |objects[t]| ==>
          lists[t][j] in index && objects[t][j] == index[lists[t][j]])
  }

  lemma UnbucketAliases(index: map<Key, KnownAddress>, objects: seq<map<Key, KnownAddress>>,
                        buckets: seq<set<Key>>, i: nat, k: Key)
    requires NewAliases(index, objects, buckets) && i < |buckets|
    ensures NewAliases(index, objects[i := objects[i] - {k}], buckets[i := buckets[i] - {k}])
  {
  }

  lemma DropExpirable(b: Book, i: nat, k: Key)
    requires Expirable(b, i) && k in b.buckets[i]
    ensures Expirable(Drop(b, i, k), i)
  {
  }

  // With its last bucket entry gone, k is referenced from nowhere but the index.
  ghost predicate Unreferenced(b: Book, k: Key) {
    && (forall x :: 0 <= x < |b.buckets| ==> k !in b.buckets[x])
    && (forall t, j :: 0 <= t < |b.tried| && 0 <= j < |b.tried[t]| ==> b.tried[t][j] != k)
  }

  lemma LastEntry(b: Book, i: nat, k: Key)
    requires Expirable(b, i) && k in b.buckets[i] && b.index[k].refs == 1
    ensures Unreferenced(Unbucketed(b, i, k), k)
  {
  }

  // A scan of bucket i part way through: the bad addresses met so far are gone,
  // and `oldest` is the oldest of the others.
  ghost predicate Scanned(b: Book, i: nat, now: int, todo: set<Key>, gone: seq<Key>, oldest: Option<Key>) {
    && i < |b.buckets| && todo <= b.buckets[i]
    && (forall k :: k in b.buckets[i] ==> k in b.index)
    && (forall x, y :: 0 <= x < y < |gone| ==> gone[x] != gone[y])
    && (forall x :: 0 <= x < |gone| ==> gone[x] in b.buckets[i] - todo && Worthless(b.index[gone[x]], now))
    && (oldest.Some? ==> oldest.value in b.buckets[i] - todo && !Worthless(b.index[oldest.value], now))
    && (forall k :: k in b.buckets[i] - todo ==>
          if Worthless(b.index[k], now) then k in gone
          else oldest.Some? && b.index[oldest.value].na.timestamp <= b.index[k].na.timestamp)
  }

  lemma ScanBad(b: Book, i: nat, now: int, todo: set<Key>, gone: seq<Key>, oldest: Option<Key>, k: Key)
    requires Scanned(b, i, now, todo, gone, oldest) && k in todo && Worthless(b.index[k], now)
    ensures Scanned(b, i, now, todo - {k}, gone + [k], oldest)
    ensures DropAll(b, i, gone + [k]) ==
            var c := DropAll(b, i, gone); if k in c.index && i < |c.buckets| then Drop(c, i, k) else c
  {
    assert (gone + [k])[..|gone|] == gone;
  }

  lemma ScanKeep(b: Book, i: nat, now: int, todo: set<Key>, gone: seq<Key>, oldest: Option<Key>, k: Key)
    requires Scanned(b, i, now, todo, gone, oldest) && k in todo && !Worthless(b.index[k], now)
    ensures Scanned(b, i, now, todo - {k}, gone,
              if oldest.Some? && b.index[k].na.timestamp > b.index[oldest.value].na.timestamp then oldest else Some(k))
  {
  }

  lemma ScanDone(b: Book, i: nat, now: int, gone: seq<Key>, oldest: Option<Key>)
    requires Scanned(b, i, now, {}, gone, oldest) && FreshIndexed(b)
    ensures IsExpiry(b, i, now, if oldest.Some? then gone + [oldest.value] else gone)
    ensures oldest.Some? ==>
              DropAll(b, i, gone + [oldest.value]) ==
              var c := DropAll(b, i, gone);
              if oldest.value in c.index && i < |c.buckets| then Drop(c, i, oldest.value) else c
  {
    if oldest.Some? {
      var all := gone + [oldest.value];
      assert all[..|gone|] == gone;
      assert oldest.value !in gone;
    }
  }

  lemma AdmitExpirable(b: Book, env: Env, na: NetAddress, src: NetAddress, raw: nat, i: nat)
    requires Inv(b, env) && i < |b.buckets|
    requires na.key in b.index && !b.index[na.key].tried ==> b.index[na.key].refs >= 1
    ensures Expirable(Admit(b, na, src, raw).0, i)
  {
    InvExpirable(b, env, {}, i);
  }

  lemma EnterAliases(index: map<Key, KnownAddress>, objects: seq<map<Key, KnownAddress>>,
                     buckets: seq<set<Key>>, i: nat, k: Key)
    requires NewAliases(index, objects, buckets) && i < |buckets| && k in index
    ensures NewAliases(index, objects[i := objects[i][k := index[k]]], buckets[i := buckets[i] + {k}])
  {
  }

  function ClearedTo(buckets: seq<set<Key>>, k: Key, n: nat): (r: seq<set<Key>>)
    ensures |r| == |buckets|
    ensures forall i :: 0 <= i < |r| ==> r[i] == if i < n then buckets[i] - {k} else buckets[i]
  {
    seq(|buckets|, i requires 0 <= i < |buckets| => if i < n then buckets[i] - {k} else buckets[i])
  }

  ghost function HoldingBelow(buckets: seq<set<Key>>, k: Key, n: nat): set<nat> {
    set i: nat | i < n && i < |buckets| && k in buckets[i]
  }

  // b with k out of its first n new buckets.
  ghost function ClearedBelow(b: Book, k: Key, n: nat): Book
    requires k in b.index
  {
    b.(buckets := ClearedTo(b.buckets, k, n),
       index := b.index[k := b.index[k].(refs := b.index[k].refs - |HoldingBelow(b.buckets, k, n)|)])
  }

  lemma ClearedNone(b: Book, k: Key)
    requires k in b.index
    ensures ClearedBelow(b, k, 0) == b
  {
    assert HoldingBelow(b.buckets, k, 0) == {};
    assert ClearedTo(b.buckets, k, 0) == b.buckets;
  }

  lemma ClearedToStep(buckets: seq<set<Key>>, k: Key, n: nat)
    requires n < |buckets|
    ensures ClearedTo(buckets, k, n + 1) == ClearedTo(buckets, k, n)[n := buckets[n] - {k}]
    ensures k !in buckets[n] ==> ClearedTo(buckets, k, n + 1) == ClearedTo(buckets, k, n)
  {
    if k !in buckets[n] {
      assert buckets[n] - {k} == buckets[n];
    }
  }

  lemma HoldingBelowStep(buckets: seq<set<Key>>, k: Key, n: nat)
    requires n < |buckets|
    ensures |HoldingBelow(buckets, k, n + 1)| == |HoldingBelow(buckets, k, n)| + if k in buckets[n] then 1 else 0
  {
    assert HoldingBelow(buckets, k, n + 1) ==
           if k in buckets[n] then HoldingBelow(buckets, k, n) + {n} else HoldingBelow(buckets, k, n);
  }

  lemma ClearedStep(b: Book, k: Key, n: nat)
    requires k in b.index && n < |b.buckets|
    ensures ClearedBelow(b, k, n + 1) ==
            if k in b.buckets[n] then Unbucketed(ClearedBelow(b, k, n), n, k) else ClearedBelow(b, k, n)
  {
    ClearedToStep(b.buckets, k, n);
    HoldingBelowStep(b.buckets, k, n);
  }

  lemma ClearedAll(b: Book, env: Env, k: Key)
    requires Inv(b, env) && k in b.index && !b.index[k].tried
    ensures ClearedBelow(b, k, |b.buckets|) ==
            b.(buckets := Unlisted(b.buckets, k), index := b.index[k := b.index[k].(refs := 0)])
  {
    assert Placed(b, env, k, {});
    assert HoldingBelow(b.buckets, k, |b.buckets|) == Holding(b.buckets, k);
    assert ClearedTo(b.buckets, k, |b.buckets|) == Unlisted(b.buckets, k);
  }

  // Clearing k first does not change what its promotion comes to.
  lemma PromoteCleared(b: Book, t: nat, k: Key)
    requires k in b.index && t < |b.tried|
    ensures var c := b.(buckets := Unlisted(b.buckets, k), index := b.index[k := b.index[k].(refs := 0)]);
            Promote(b, t, k) == Promote(c, t, k)
  {
    UnlistedNoop(Unlisted(b.buckets, k), k);
  }

  lemma ExchangeCleared(b: Book, t: nat, e: nat, k: Key, i: nat)
    requires k in b.index && t < |b.tried| && e < |b.tried[t]| && i < |b.buckets|
    requires b.tried[t][e] in b.index && b.tried[t][e] != k
    ensures var c := b.(buckets := Unlisted(b.buckets, k), index := b.index[k := b.index[k].(refs := 0)]);
            Exchange(b, t, e, k, i) == Exchange(c, t, e, k, i)
  {
    UnlistedNoop(Unlisted(b.buckets, k), k);
  }

  // Taking k out of its buckets first does not change where it ends up.
  lemma AdvanceCleared(b: Book, env: Env, k: Key, first: nat)
    requires |b.buckets| == NEW_BUCKET_COUNT && |b.tried| == TRIED_BUCKET_COUNT
    requires k in b.index && first < |b.buckets|
    requires forall t, j :: 0 <= t < |b.tried| && 0 <= j < |b.tried[t]| ==>
               b.tried[t][j] in b.index && b.tried[t][j] != k
    ensures var c := b.(buckets := Unlisted(b.buckets, k), index := b.index[k := b.index[k].(refs := 0)]);
            AddrBook.Advance(b, env, k, first) == AddrBook.Advance(c, env, k, first)
  {
    var c := b.(buckets := Unlisted(b.buckets, k), index := b.index[k := b.index[k].(refs := 0)]);
    var t := TriedBucketOf(env, b.secret, b.index[k].na);
    if |b.tried[t]| < TRIED_BUCKET_SIZE {
      PromoteCleared(b, t, k);
    } else {
      SameEldest(b, c, b.tried[t]);
      var e := Eldest(b, b.tried[t]);
      var i := Refuge(b, env, k, b.tried[t][e], first);
      ExchangeCleared(b, t, e, k, i);
      assert forall x :: 0 <= x < |b.buckets| ==> c.buckets[x] - {k} == b.buckets[x] - {k};
      assert Refuge(c, env, k, b.tried[t][e], first) == i;
    }
  }

  lemma UnlistedNoop(buckets: seq<set<Key>>, k: Key)
    requires forall i :: 0 <= i < |buckets| ==> k !in buckets[i]
    ensures Unlisted(buckets, k) == buckets
  {
    forall i | 0 <= i < |buckets| ensures Unlisted(buckets, k)[i] == buckets[i] {
      assert buckets[i] - {k} == buckets[i];
    }
  }

  lemma ListTriedAliases(index: map<Key, KnownAddress>, objects: seq<seq<KnownAddress>>, lists: seq<seq<Key>>,
                         t: nat, k: Key)
    requires TriedAliases(index, objects, lists) && t < |lists| && k in index
    ensures TriedAliases(index, objects[t := objects[t] + [index[k]]], lists[t := lists[t] + [k]])
  {
  }

  lemma SwapTriedAliases(index: map<Key, KnownAddress>, objects: seq<seq<KnownAddress>>, lists: seq<seq<Key>>,
                         t: nat, e: nat, k: Key)
    requires TriedAliases(index, objects, lists) && t < |lists| && e < |lists[t]| && k in index
    ensures TriedAliases(index, objects[t := objects[t][e := index[k]]], lists[t := lists[t][e := k]])
  {
  }

  lemma SwapIsExchange(b: Book, t: nat, e: nat, k: Key, i: nat)
    requires t < |b.tried| && e < |b.tried[t]| && i < |b.buckets| && k in b.index && b.tried[t][e] in b.index
    requires b.index[k].refs == 0 && b.tried[t][e] != k && Unlisted(b.buckets, k) == b.buckets
    ensures var rm := b.tried[t][e];
            var c := Rewritten(b, k, b.index[k].(tried := true)).(tried := b.tried[t := b.tried[t][e := k]]);
            Place(Rewritten(c, rm, c.index[rm].(tried := false)), i, rm) == Exchange(b, t, e, k, i)
  {
  }

  // An address that is not indexed yet is in no bucket and on no list.
  lemma EnrolAliases(index: map<Key, KnownAddress>, news: seq<map<Key, KnownAddress>>, buckets: seq<set<Key>>,
                     tried: seq<seq<KnownAddress>>, lists: seq<seq<Key>>, k: Key, ka: KnownAddress)
    requires NewAliases(index, news, buckets) && TriedAliases(index, tried, lists) && k !in index
    ensures NewAliases(index[k := ka], news, buckets) && TriedAliases(index[k := ka], tried, lists)
  {
  }

  // Fisher-Yates over the first `count` places.
  method Shuffle(s: seq<NetAddress>, count: nat, raw: nat -> nat) returns (all: seq<NetAddress>)
    requires count <= |s|
    requires forall x, y :: 0 <= x < y < |s| ==> s[x].key != s[y].key
    ensures |all| == |s| && forall x :: 0 <= x < |all| ==> all[x] in s
    ensures forall x, y :: 0 <= x < y < |all| ==> all[x].key != all[y].key
  {
    all := s;
    for i := 0 to count
      invariant |all| == |s| && forall x :: 0 <= x < |all| ==> all[x] in s
      invariant forall x, y :: 0 <= x < y < |all| ==> all[x].key != all[y].key
    {
      var j := Intn(raw(i), |s| - i) + i;
      all := all[i := all[j]][j := all[i]];
    }
  }

  // Of the first i buckets, `first` is the first that holds k, or -1.
  ghost predicate FirstSeen(buckets: seq<set<Key>>, k: Key, i: nat, first: int) {
    && i <= |buckets|
    && if first == -1 then forall x :: 0 <= x < i ==> k !in buckets[x]
       else 0 <= first < i && k in buckets[first] && forall x :: 0 <= x < first ==> k !in buckets[x]
  }

  lemma FirstSeenNext(buckets: seq<set<Key>>, k: Key, i: nat, first: int)
    requires FirstSeen(buckets, k, i, first) && i < |buckets|
    ensures FirstSeen(buckets, k, i + 1, if k in buckets[i] && first == -1 then i else first)
  {
  }

  lemma FirstSeenLast(buckets: seq<set<Key>>, k: Key, first: int)
    requires FirstSeen(buckets, k, |buckets|, first)
    ensures var r := FirstHolding(buckets, k); first == if r.Some? then r.value else -1
  {
  }

  // A sample is 23 percent of the addresses, and 2500 at most.
  method TakeSample(all: seq<NetAddress>, raw: nat -> nat) returns (r: seq<NetAddress>)
    requires forall x, y :: 0 <= x < y < |all| ==> all[x].key != all[y].key
    ensures |r| == if |all| * 23 / 100 > 2500 then 2500 else |all| * 23 / 100
    ensures forall x :: 0 <= x < |r| ==> r[x] in all
    ensures forall x, y :: 0 <= x < y < |r| ==> r[x].key != r[y].key
  {
    if |all| == 0 {
      return [];
    }
    var count := |all| * 23 / 100;
    if count > 2500 {
      count := 2500;
    }
    var some := Shuffle(all, count, raw);
    r := some[..count];
  }

  class Manager {
    const env: Env
    var key: string
    var addrIndex: map<Key, KnownAddress>
    var addrNew: seq<map<Key, KnownAddress>>
    var addrTried: seq<seq<KnownAddress>>
    var nTried: int
    var nNew: int

    // The tables with every object replaced by its contents.
    ghost var book: Book
    // The address objects in use.
    ghost var Repr: set<KnownAddress>

    // The objects agree with `book`, the index files each under its own key,
    // and buckets and lists share the objects of the index.
    ghost predicate Linked()
      reads this, Repr
    {
      && key == book.secret && nNew == book.nNew && nTried == book.nTried
      && addrIndex.Keys == book.index.Keys
      && (forall k :: k in addrIndex ==> addrIndex[k] in Repr)
      && (forall k :: k in addrIndex ==> addrIndex[k].rec == book.index[k] && addrIndex[k].rec.na.key == k)
      && NewAliases(addrIndex, addrNew, book.buckets)
      && TriedAliases(addrIndex, addrTried, book.tried)
    }

    ghost predicate Valid()
      reads this, Repr
    {
      Linked() && Inv(book, env)
    }

    constructor (env: Env, secret: string)
      ensures Valid() && fresh(Repr) && this.env == env
      ensures book == Empty(secret)
    {
      this.env := env;
      key := secret;
      addrIndex := map[];
      addrNew := seq(NEW_BUCKET_COUNT, _ => map[]);
      addrTried := seq(TRIED_BUCKET_COUNT, _ => []);
      nTried, nNew := 0, 0;
      book := Empty(secret);
      Repr := {};
      EmptyKeeps(secret, env);
    }

    method Unbucket(i: nat, k: Key)
      requires Linked() && i < |addrNew| && k in addrNew[i]
      modifies this, Repr
      ensures Linked() && book == Unbucketed(old(book), i, k)
      ensures Repr == old(Repr) && addrIndex == old(addrIndex)
    {
      var v := addrNew[i][k];
      assert v == addrIndex[k];
      UnbucketAliases(addrIndex, addrNew, book.buckets, i, k);
      addrNew := addrNew[i := addrNew[i] - {k}];
      v.rec := v.rec.(refs := v.rec.refs - 1);
      book := Unbucketed(book, i, k);
    }

    method Deindex(k: Key)
      requires Linked() && Unreferenced(book, k)
      modifies this
      ensures Linked() && book == Deindexed(old(book), k)
      ensures Repr == old(Repr) && addrIndex == old(addrIndex) - {k}
    {
      nNew := nNew - 1;
      addrIndex := addrIndex - {k};
      book := Deindexed(book, k);
    }

    // Take k out of new bucket i, and out of the index with its last bucket.
    method Forget(i: nat, k: Key)
      requires Linked() && Expirable(book, i) && k in addrNew[i]
      modifies this, Repr
      ensures Linked() && book == Drop(old(book), i, k)
      ensures Repr == old(Repr) && addrIndex - {k} == old(addrIndex) - {k}
    {
      Unbucket(i, k);
      if addrIndex[k].rec.refs == 0 {
        LastEntry(old(book), i, k);
        Deindex(k);
      }
    }

    // ExpireNew part way through bucket i of b.
    ghost predicate Scanning(b: Book, i: nat, now: int, todo: set<Key>, gone: seq<Key>,
                             oldest: KnownAddress?, oldestKey: Option<Key>)
      reads this, Repr
    {
      && Linked() && Expirable(book, i)
      && Scanned(b, i, now, todo, gone, oldestKey)
      && book == DropAll(b, i, gone)
      && (oldest != null <==> oldestKey.Some?)
      && (oldest != null ==> oldestKey.value in addrIndex && addrIndex[oldestKey.value] == oldest)
    }

    // An address not yet expired still looks as it did when the scan began.
    lemma ScanSees(b: Book, i: nat, now: int, todo: set<Key>, gone: seq<Key>, oldest: KnownAddress?,
                   oldestKey: Option<Key>, k: Key)
      requires Scanning(b, i, now, todo, gone, oldest, oldestKey) && k in b.buckets[i] && k !in gone
      ensures i < |addrNew| && k in addrNew[i] && k in addrIndex
      ensures addrNew[i][k] == addrIndex[k] && addrIndex[k].rec == b.index[k] && b.index[k].na.key == k
      ensures k in book.buckets[i]
    {
      DropAllFrame(b, i, gone);
    }

    method ScanOut(i: nat, now: int, k: Key, ghost oldest: KnownAddress?, ghost b: Book, ghost todo: set<Key>,
                   ghost gone: seq<Key>, ghost oldestKey: Option<Key>)
      requires Scanning(b, i, now, todo, gone, oldest, oldestKey)
      requires k in todo && Worthless(b.index[k], now)
      modifies this, Repr
      ensures Scanning(b, i, now, todo - {k}, gone + [k], oldest, oldestKey)
      ensures Repr == old(Repr)
    {
      ScanSees(b, i, now, todo, gone, oldest, oldestKey, k);
      ScanBad(b, i, now, todo, gone, oldestKey, k);
      DropExpirable(book, i, k);
      ghost var before := addrIndex;
      Forget(i, k);
      if oldest != null {
        assert oldestKey.value in before - {k};
      }
    }

    method ScanOne(i: nat, now: int, k: Key, oldest: KnownAddress?, ghost b: Book, ghost todo: set<Key>,
                   ghost gone: seq<Key>, ghost oldestKey: Option<Key>)
      returns (oldest': KnownAddress?, ghost gone': seq<Key>, ghost oldestKey': Option<Key>)
      requires Scanning(b, i, now, todo, gone, oldest, oldestKey) && k in todo
      modifies this, Repr
      ensures Scanning(b, i, now, todo - {k}, gone', oldest', oldestKey')
      ensures Repr == old(Repr)
    {
      oldest', gone', oldestKey' := oldest, gone, oldestKey;
      ScanSees(b, i, now, todo, gone, oldest, oldestKey, k);
      var v := addrNew[i][k];
      BadIsWorthless(v.rec, now);
      if IsBad(v.rec, now) {
        ScanOut(i, now, k, oldest, b, todo, gone, oldestKey);
        gone' := gone + [k];
      } else {
        ScanKeep(b, i, now, todo, gone, oldestKey, k);
        if oldest != null {
          ScanSees(b, i, now, todo, gone, oldest, oldestKey, oldestKey.value);
        }
        if oldest == null || v.rec.na.timestamp <= oldest.rec.na.timestamp {
          oldest', oldestKey' := v, Some(k);
        }
      }
    }

    // Make space in new bucket i: throw out every bad address, and the oldest
    // of the others.  The order of the scan is up to the map.
    method ExpireNew(i: nat, now: int) returns (ghost gone: seq<Key>)
      requires Linked() && Expirable(book, i) && FreshIndexed(book)
      modifies this, Repr
      ensures Linked() && Repr == old(Repr)
      ensures IsExpiry(old(book), i, now, gone)
      ensures book == DropAll(old(book), i, gone)
    {
      ghost var b := book;
      var oldest: KnownAddress? := null;
      ghost var oldestKey := None;
      var todo := addrNew[i].Keys;
      gone := [];
      while todo != {}
        invariant Repr == old(Repr)
        invariant Scanning(b, i, now, todo, gone, oldest, oldestKey)
        decreases todo
      {
        var k :| k in todo;
        oldest, gone, oldestKey := ScanOne(i, now, k, oldest, b, todo, gone, oldestKey);
        todo := todo - {k};
      }
      ScanDone(b, i, now, gone, oldestKey);
      if oldest != null {
        ScanSees(b, i, now, todo, gone, oldest, oldestKey, oldestKey.value);
        Forget(i, oldest.rec.na.key);
        gone := gone + [oldestKey.value];
      }
    }

    // Enter the object of k into new bucket i.
    method EnterBucket(i: nat, k: Key)
      requires Linked() && i < |addrNew| && k in addrIndex
      modifies this, Repr
      ensures Linked() && book == Place(old(book), i, k)
      ensures Repr == old(Repr)
    {
      var ka := addrIndex[k];
      EnterAliases(addrIndex, addrNew, book.buckets, i, k);
      ka.rec := ka.rec.(refs := ka.rec.refs + 1);
      addrNew := addrNew[i := addrNew[i][k := ka]];
      book := Place(book, i, k);
    }

    // Index an address that is not known yet.
    method Enrol(na: NetAddress, src: NetAddress)
      requires Linked() && na.key !in addrIndex
      modifies this
      ensures Linked() && fresh(Repr - old(Repr))
      ensures book == Rewritten(old(book), na.key, Newcomer(na, src)).(nNew := old(book).nNew + 1)
    {
      var ka := new KnownAddress(Newcomer(na, src));
      ghost var c := Rewritten(book, na.key, Newcomer(na, src)).(nNew := book.nNew + 1);
      EnrolAliases(addrIndex, addrNew, book.buckets, addrTried, book.tried, na.key, ka);
      addrIndex := addrIndex[na.key := ka];
      nNew := nNew + 1;
      Repr := Repr + {ka};
      book := c;
    }

    // Overwrite the record of a known address.
    method Amend(k: Key, a: Info)
      requires Linked() && k in addrIndex && a.na.key == k
      modifies this, Repr
      ensures Linked() && Repr == old(Repr) && addrIndex == old(addrIndex)
      ensures book == Rewritten(old(book), k, a)
    {
      addrIndex[k].rec := a;
      book := Rewritten(book, k, a);
    }

    // Note a repeated announcement of a known address.
    method Refresh(na: NetAddress)
      requires Linked() && na.key in addrIndex
      modifies this, Repr
      ensures Linked() && Repr == old(Repr) && addrIndex == old(addrIndex)
      ensures book == Rewritten(old(book), na.key, Refreshed(old(book).index[na.key], na))
    {
      var rec := addrIndex[na.key].rec;
      var known := rec.na;
      if na.timestamp > known.timestamp || !(na.services <= known.services) {
        rec := rec.(na := known.(timestamp := na.timestamp, services := known.services + na.services));
      }
      Amend(na.key, rec);
    }

    // The first half of an add: whether the address should also enter a bucket.
    method Announce(na: NetAddress, src: NetAddress, raw: nat) returns (wanted: bool)
      requires Linked()
      requires na.key in book.index && !book.index[na.key].tried ==> book.index[na.key].refs >= 1
      modifies this, Repr
      ensures Linked() && fresh(Repr - old(Repr))
      ensures (book, wanted) == Admit(old(book), na, src, raw)
    {
      if na.key in addrIndex {
        Refresh(na);
        var ka := addrIndex[na.key].rec;
        if ka.tried || ka.refs == NEW_BUCKETS_PER_ADDRESS {
          return false;
        }
        wanted := Intn(raw, 2 * ka.refs) == 0;
      } else {
        Enrol(na, src);
        wanted := true;
      }
    }

    // Add an address, or note that a known one was announced again.
    method UpdateAddress(na: NetAddress, src: NetAddress, raw: nat, now: int) returns (ghost gone: seq<Key>)
      requires Valid()
      modifies this, Repr
      ensures Valid() && fresh(Repr - old(Repr))
      ensures AddStep(old(book), env, na, src, raw, now, gone, book)
    {
      gone := [];
      if env.routable(na.key) {
        AdmitIndexed(book, env, na, src, raw);
        AdmitExpirable(book, env, na, src, raw, NewBucketOf(env, key, na.group, src.group));
        gone := AddRoutable(na, src, raw, now);
      }
      UpdateAddressKeeps(old(book), env, na, src, raw, now, gone, book);
    }

    method AddRoutable(na: NetAddress, src: NetAddress, raw: nat, now: int) returns (ghost gone: seq<Key>)
      requires Linked() && env.routable(na.key)
      requires na.key in book.index && !book.index[na.key].tried ==> book.index[na.key].refs >= 1
      requires FreshIndexed(Admit(book, na, src, raw).0)
      requires Expirable(Admit(book, na, src, raw).0, NewBucketOf(env, key, na.group, src.group))
      modifies this, Repr
      ensures Linked() && fresh(Repr - old(Repr))
      ensures book == AddrBook.UpdateAddress(old(book), env, na, src, raw, gone)
      ensures var (c, wanted) := Admit(old(book), na, src, raw);
              var i := NewBucketOf(env, old(key), na.group, src.group);
              wanted && na.key !in c.buckets[i] && |c.buckets[i]| > NEW_BUCKET_SIZE ==> IsExpiry(c, i, now, gone)
    {
      gone := [];
      var wanted := Announce(na, src, raw);
      var bucket := NewBucketOf(env, key, na.group, src.group);
      if wanted && na.key !in addrNew[bucket] {
        gone := Settle(bucket, na.key, now);
      }
    }

    // Put k into new bucket i, making room first when the bucket is over its size.
    method Settle(i: nat, k: Key, now: int) returns (ghost gone: seq<Key>)
      requires Linked() && Expirable(book, i) && FreshIndexed(book)
      requires k in addrIndex && k !in addrNew[i]
      modifies this, Repr
      ensures Linked() && Repr == old(Repr)
      ensures book == Insert(old(book), i, k, gone)
      ensures |old(book).buckets[i]| > NEW_BUCKET_SIZE ==> IsExpiry(old(book), i, now, gone)
    {
      gone := [];
      assert |addrNew[i]| == |addrNew[i].Keys|;
      if |addrNew[i]| > NEW_BUCKET_SIZE {
        gone := ExpireNew(i, now);
        DropAllFrame(old(book), i, gone);
      }
      EnterBucket(i, k);
    }

    // Count a connection attempt to a known address.
    method Attempt(k: Key, now: int)
      requires Valid()
      modifies this, Repr
      ensures Valid() && Repr == old(Repr)
      ensures book == AddrBook.Attempt(old(book), k, now)
    {
      if k in addrIndex {
        var rec := addrIndex[k].rec;
        Amend(k, Attempted(rec, now));
      }
      AttemptKeeps(old(book), env, k, now);
    }

    // Note that a known address is in use, at most once every twenty minutes.
    method Connected(k: Key, now: int)
      requires Valid()
      modifies this, Repr
      ensures Valid() && Repr == old(Repr)
      ensures book == AddrBook.Connected(old(book), k, now)
    {
      ConnectedKeeps(book, env, k, now);
      if k in addrIndex {
        var rec := addrIndex[k].rec;
        if now > rec.na.timestamp + 20 * MINUTE {
          Amend(k, rec.(na := rec.na.(timestamp := now)));
        }
      }
    }

    method ClearOne(i: nat, k: Key, ghost b: Book) returns (was: bool)
      requires Linked() && k in addrIndex && i < |addrNew|
      requires k in b.index && book == ClearedBelow(b, k, i)
      modifies this, Repr
      ensures Linked() && Repr == old(Repr) && addrIndex == old(addrIndex)
      ensures book == ClearedBelow(b, k, i + 1)
      ensures was <==> k in b.buckets[i]
    {
      ClearedStep(b, k, i);
      assert addrNew[i].Keys == b.buckets[i];
      was := k in addrNew[i];
      if was {
        Unbucket(i, k);
      }
    }

    // Take k out of every new bucket; the first one it was in, or -1.
    method ClearNew(k: Key) returns (oldBucket: int)
      requires Linked() && k in addrIndex
      modifies this, Repr
      ensures Linked() && Repr == old(Repr) && addrIndex == old(addrIndex)
      ensures book == ClearedBelow(old(book), k, |old(book).buckets|)
      ensures var first := FirstHolding(old(book).buckets, k);
              oldBucket == if first.Some? then first.value else -1
    {
      oldBucket := -1;
      ghost var b := book;
      ClearedNone(b, k);
      for i := 0 to NEW_BUCKET_COUNT
        invariant Linked() && Repr == old(Repr) && addrIndex == old(addrIndex)
        invariant book == ClearedBelow(b, k, i)
        invariant FirstSeen(b.buckets, k, i, oldBucket)
      {
        var was := ClearOne(i, k, b);
        FirstSeenNext(b.buckets, k, i, oldBucket);
        if was && oldBucket == -1 {
          oldBucket := i;
        }
      }
      FirstSeenLast(b.buckets, k, oldBucket);
    }

    // The slot of a tried list to give up: the first with the oldest time stamp.
    method PickTried(t: nat) returns (e: nat)
      requires Linked() && t < |addrTried| && |addrTried[t]| > 0
      ensures e < |addrTried[t]| && e == Eldest(book, book.tried[t])
    {
      e := 0;
      var n := 1;
      while n < |addrTried[t]|
        invariant 1 <= n <= |addrTried[t]| && e < n
        invariant e == Eldest(book, book.tried[t][..n])
      {
        assert book.tried[t][..n + 1][..n] == book.tried[t][..n];
        if addrTried[t][e].rec.na.timestamp > addrTried[t][n].rec.na.timestamp {
          e := n;
        }
        n := n + 1;
      }
      assert book.tried[t][..n] == book.tried[t];
    }

    // List a cleared address as tried.
    method ListTried(t: nat, k: Key)
      requires Linked() && t < |addrTried| && k in addrIndex && book.index[k].refs == 0
      requires Unlisted(book.buckets, k) == book.buckets
      modifies this, Repr
      ensures Linked() && Repr == old(Repr)
      ensures book == Promote(old(book), t, k)
    {
      ListTriedAliases(addrIndex, addrTried, book.tried, t, k);
      var ka := addrIndex[k];
      nNew := nNew - 1;
      ka.rec := ka.rec.(tried := true);
      addrTried := addrTried[t := addrTried[t] + [ka]];
      nTried := nTried + 1;
      book := Promote(book, t, k);
    }

    // Put the object of k into slot e of a tried list.
    method TakeSlot(t: nat, e: nat, k: Key)
      requires Linked() && t < |addrTried| && e < |addrTried[t]| && k in addrIndex
      modifies this, Repr
      ensures Linked() && Repr == old(Repr) && addrIndex == old(addrIndex)
      ensures book == Rewritten(old(book), k, old(book).index[k].(tried := true))
                        .(tried := old(book).tried[t := old(book).tried[t][e := k]])
    {
      SwapTriedAliases(addrIndex, addrTried, book.tried, t, e, k);
      var ka := addrIndex[k];
      ka.rec := ka.rec.(tried := true);
      addrTried := addrTried[t := addrTried[t][e := ka]];
      book := Rewritten(book, k, book.index[k].(tried := true)).(tried := book.tried[t := book.tried[t][e := k]]);
    }

    // Send a formerly tried address back to new bucket i.
    method SendBack(rm: Key, i: nat)
      requires Linked() && rm in addrIndex && i < |addrNew|
      modifies this, Repr
      ensures Linked() && Repr == old(Repr)
      ensures book == Place(Rewritten(old(book), rm, old(book).index[rm].(tried := false)), i, rm)
    {
      Amend(rm, addrIndex[rm].rec.(tried := false));
      EnterBucket(i, rm);
    }

    // Put a cleared address into slot e of a tried list, and what was there
    // into new bucket i.
    method SwapTried(t: nat, e: nat, k: Key, i: nat)
      requires Linked() && t < |addrTried| && e < |addrTried[t]| && i < |addrNew|
      requires k in addrIndex && book.index[k].refs == 0 && book.tried[t][e] != k
      requires Unlisted(book.buckets, k) == book.buckets
      modifies this, Repr
      ensures Linked() && Repr == old(Repr)
      ensures book == Exchange(old(book), t, e, k, i)
    {
      var rm := addrTried[t][e].rec.na.key;
      SwapIsExchange(book, t, e, k, i);
      TakeSlot(t, e, k);
      SendBack(rm, i);
    }

    // Move a new address to its tried list, sending the eldest entry of a full
    // list back to the new buckets.
    method Advance(k: Key)
      requires Linked() && k in addrIndex && FirstHolding(book.buckets, k).Some?
      requires forall t, j :: 0 <= t < |book.tried| && 0 <= j < |book.tried[t]| ==>
                 book.tried[t][j] in book.index && book.tried[t][j] != k
      requires ClearedBelow(book, k, |book.buckets|) ==
               book.(buckets := Unlisted(book.buckets, k), index := book.index[k := book.index[k].(refs := 0)])
      modifies this, Repr
      ensures Linked() && Repr == old(Repr)
      ensures book == AddrBook.Advance(old(book), env, k, FirstHolding(old(book).buckets, k).value)
    {
      AdvanceCleared(book, env, k, FirstHolding(book.buckets, k).value);
      UnlistedNoop(Unlisted(book.buckets, k), k);
      var oldBucket := ClearNew(k);
      AdvanceListed(k, oldBucket);
    }

    // The second half of that, for an address already out of its buckets.
    method AdvanceListed(k: Key, oldBucket: nat)
      requires Linked() && k in addrIndex && oldBucket < |addrNew|
      requires forall t, j :: 0 <= t < |book.tried| && 0 <= j < |book.tried[t]| ==>
                 book.tried[t][j] in book.index && book.tried[t][j] != k
      requires book.index[k].refs == 0 && Unlisted(book.buckets, k) == book.buckets
      modifies this, Repr
      ensures Linked() && Repr == old(Repr)
      ensures book == AddrBook.Advance(old(book), env, k, oldBucket)
    {
      var t := TriedBucketOf(env, key, addrIndex[k].rec.na);
      if |addrTried[t]| < TRIED_BUCKET_SIZE {
        ListTried(t, k);
      } else {
        Evict(t, k, oldBucket);
      }
    }

    // Put a cleared address into a full tried list.
    method Evict(t: nat, k: Key, oldBucket: nat)
      requires Linked() && t < |addrTried| && |addrTried[t]| > 0 && oldBucket < |addrNew|
      requires k in addrIndex && book.index[k].refs == 0 && k !in book.tried[t]
      requires Unlisted(book.buckets, k) == book.buckets
      modifies this, Repr
      ensures Linked() && Repr == old(Repr)
      ensures var b := old(book);
              var e := Eldest(b, b.tried[t]);
              book == Exchange(b, t, e, k, Refuge(b, env, k, b.tried[t][e], oldBucket))
    {
      var e := PickTried(t);
      var rmka := addrTried[t][e].rec;
      var newBucket := NewBucketOf(env, key, rmka.na.group, rmka.src.group);
      assert |addrNew[newBucket]| == |addrNew[newBucket].Keys|;
      assert book.buckets[newBucket] - {k} == book.buckets[newBucket];
      if |addrNew[newBucket]| >= NEW_BUCKET_SIZE {
        newBucket := oldBucket;
      }
      SwapTried(t, e, k, newBucket);
    }

    // Mark a known address as good.
    method Good(k: Key, now: int)
      requires Valid()
      modifies this, Repr
      ensures Valid() && Repr == old(Repr)
      ensures book == AddrBook.Good(old(book), env, k, now)
    {
      if k in addrIndex {
        RewriteKeeps(book, env, k, Greeted(book.index[k], now));
        var rec := addrIndex[k].rec;
        Amend(k, rec.(lastSuccess := now, lastAttempt := now, attempts := 0));
        if !rec.tried {
          NewIsHeld(book, env, k);
          ClearedAll(book, env, k);
          Advance(k);
        }
      }
      GoodKeeps(old(book), env, k, now);
    }

    // Whether a selection looks among the tried addresses.
    predicate FromTried(coin: nat)
      reads this
    {
      nTried > 0 && (nNew == 0 || Intn(coin, 2) == 0)
    }

    // A draw that leads nowhere: an empty bucket, or an address passed over.
    predicate Misses(d: Draw, coin: nat)
      requires |addrTried| == TRIED_BUCKET_COUNT && |addrNew| == NEW_BUCKET_COUNT
      reads this
    {
      || !d.accept
      || (if FromTried(coin) then addrTried[Intn(d.bucket, TRIED_BUCKET_COUNT)] == []
          else addrNew[Intn(d.bucket, NEW_BUCKET_COUNT)] == map[])
    }

    // Pick an address for a connection, drawing until one is accepted.
    method GetAddress(coin: nat, draws: seq<Draw>) returns (r: KnownAddress?)
      requires Valid()
      ensures |addrIndex| == 0 ==> r == null
      // whichever table is chosen has something to draw
      ensures |addrIndex| > 0 && FromTried(coin) ==> exists t :: 0 <= t < |addrTried| && addrTried[t] != []
      ensures |addrIndex| > 0 && !FromTried(coin) ==> exists i :: 0 <= i < |addrNew| && |addrNew[i]| > 0
      // what comes back is indexed, routable and of the chosen class
      ensures r != null ==> r.rec.na.key in addrIndex && addrIndex[r.rec.na.key] == r &&
                            env.routable(r.rec.na.key) && r.rec.tried == FromTried(coin)
      // and only misses come back empty-handed
      ensures r == null && |addrIndex| > 0 ==> forall n :: 0 <= n < |draws| ==> Misses(draws[n], coin)
    {
      ClassesPartition(book, env);
      assert |addrIndex| == |addrIndex.Keys| == |book.index.Keys| == |book.index|;
      if nTried + nNew == 0 {
        return null;
      }
      if FromTried(coin) {
        r := DrawTried(coin, draws);
        ghost var t :| 0 <= t < |book.tried| && book.tried[t] != [];
        assert addrTried[t] != [];
      } else {
        r := DrawNew(coin, draws);
        ghost var i :| 0 <= i < |book.buckets| && book.buckets[i] != {};
        assert |addrNew[i]| == |addrNew[i].Keys|;
      }
      if r != null {
        assert Placed(book, env, r.rec.na.key, {});
      }
    }

    method DrawTried(coin: nat, draws: seq<Draw>) returns (r: KnownAddress?)
      requires Linked() && TriedIndexed(book, env) && FromTried(coin)
      ensures r != null ==> r.rec.na.key in addrIndex && addrIndex[r.rec.na.key] == r && r.rec.tried
      ensures r == null ==> forall n :: 0 <= n < |draws| ==> Misses(draws[n], coin)
    {
      for n := 0 to |draws|
        invariant forall x :: 0 <= x < n ==> Misses(draws[x], coin)
      {
        var t := Intn(draws[n].bucket, TRIED_BUCKET_COUNT);
        if |addrTried[t]| == 0 {
          continue;
        }
        var e := Intn(draws[n].entry, |addrTried[t]|);
        if draws[n].accept {
          assert book.tried[t][e] in addrIndex;
          return addrTried[t][e];
        }
      }
      return null;
    }

    method DrawNew(coin: nat, draws: seq<Draw>) returns (r: KnownAddress?)
      requires Linked() && FreshIndexed(book) && !FromTried(coin)
      ensures r != null ==> r.rec.na.key in addrIndex && addrIndex[r.rec.na.key] == r && !r.rec.tried
      ensures r == null ==> forall n :: 0 <= n < |draws| ==> Misses(draws[n], coin)
    {
      for n := 0 to |draws|
        invariant forall x :: 0 <= x < n ==> Misses(draws[x], coin)
      {
        var i := Intn(draws[n].bucket, NEW_BUCKET_COUNT);
        if |addrNew[i]| == 0 {
          continue;
        }
        // The map decides which entry the drawn number stands for.
        var k :| k in addrNew[i];
        if draws[n].accept {
          assert k in book.buckets[i] && addrNew[i][k] == addrIndex[k];
          return addrNew[i][k];
        }
      }
      return null;
    }

    // A random sample of the known addresses, to be sent to a peer.
    method AddressCache(raw: nat -> nat) returns (r: seq<NetAddress>)
      requires Valid()
      ensures |r| == if |addrIndex| * 23 / 100 > 2500 then 2500 else |addrIndex| * 23 / 100
      ensures forall x :: 0 <= x < |r| ==> r[x].key in addrIndex && addrIndex[r[x].key].rec.na == r[x]
      ensures forall x, y :: 0 <= x < y < |r| ==> r[x].key != r[y].key
    {
      var all := AllAddresses();
      r := TakeSample(all, raw);
    }

    method AllAddresses() returns (all: seq<NetAddress>)
      requires Linked()
      ensures |all| == |addrIndex|
      ensures forall x :: 0 <= x < |all| ==> all[x].key in addrIndex && addrIndex[all[x].key].rec.na == all[x]
      ensures forall x, y :: 0 <= x < y < |all| ==> all[x].key != all[y].key
    {
      all := [];
      var todo := addrIndex.Keys;
      while todo != {}
        invariant todo <= addrIndex.Keys && |all| + |todo| == |addrIndex|
        invariant forall x :: 0 <= x < |all| ==>
                    all[x].key in addrIndex && addrIndex[all[x].key].rec.na == all[x] && all[x].key !in todo
        invariant forall x, y :: 0 <= x < y < |all| ==> all[x].key != all[y].key
        decreases todo
      {
        var k :| k in todo;
        all := all + [addrIndex[k].rec.na];
        todo := todo - {k};
      }
    }
  }
}
