// Saving the address tables to the peers file and loading them back.
module AddrStore {
  import opened Wrappers
  import opened AddrBook
  import opened AddrManager

  const SERIALISATION_VERSION := 1

  datatype SavedAddress = SavedAddress(addr: Key, src: Key, attempts: int, timestamp: int,
                                       lastAttempt: int, lastSuccess: int)

  datatype SavedBook = SavedBook(version: int, key: string, addresses: seq<SavedAddress>,
                                 newBuckets: seq<seq<Key>>, triedBuckets: seq<seq<Key>>)

  // How an address string is turned back into an address, if it can be.
  type Parser = Key -> Option<NetAddress>

  function Saved(k: Key, a: Info): SavedAddress {
    SavedAddress(k, a.src.key, a.attempts, a.na.timestamp, a.lastAttempt, a.lastSuccess)
  }

  ghost predicate Distinct(s: seq<Key>) {
    forall i, j :: 0 <= i < j < |s| ==> s[i] != s[j]
  }

  ghost function Elements(s: seq<Key>): set<Key> {
    set k | k in s
  }

  // The file holds exactly the tables; maps may be written out in any order.
  ghost predicate Represents(s: SavedBook, b: Book) {
    && s.version == SERIALISATION_VERSION && s.key == b.secret
    && (forall x, y :: 0 <= x < y < |s.addresses| ==> s.addresses[x].addr != s.addresses[y].addr)
    && (forall x :: 0 <= x < |s.addresses| ==>
          s.addresses[x].addr in b.index && s.addresses[x] == Saved(s.addresses[x].addr, b.index[s.addresses[x].addr]))
    && (forall k :: k in b.index ==> exists x :: 0 <= x < |s.addresses| && s.addresses[x].addr == k)
    && |s.newBuckets| == |b.buckets|
    && (forall i :: 0 <= i < |s.newBuckets| ==> Distinct(s.newBuckets[i]) && Elements(s.newBuckets[i]) == b.buckets[i])
    && s.triedBuckets == b.tried
  }

  // Loading stops at the first error and leaves what was loaded by then.
  datatype Loading = Loading(book: Book, ok: bool)

  function LoadAddress(l: Loading, v: SavedAddress, parse: Parser): Loading {
    match (parse(v.addr), parse(v.src))
    case (Some(na), Some(src)) =>
      l.(book := Rewritten(l.book, na.key, Info(na, src, v.attempts, v.lastAttempt, v.lastSuccess, false, 0)))
    case _ => l.(ok := false)
  }

  function LoadAddresses(l: Loading, vs: seq<SavedAddress>, n: nat, parse: Parser): Loading
    requires n <= |vs|
    decreases |vs| - n
  {
    if n == |vs| || !l.ok then l else LoadAddresses(LoadAddress(l, vs[n], parse), vs, n + 1, parse)
  }

  function LoadNewEntry(l: Loading, i: nat, k: Key): Loading {
    var b := l.book;
    if k !in b.index || i >= |b.buckets| then l.(ok := false)
    else l.(book := Place(b, i, k).(nNew := if b.index[k].refs == 0 then b.nNew + 1 else b.nNew))
  }

  function LoadNewBucket(l: Loading, i: nat, ks: seq<Key>, n: nat): Loading
    requires n <= |ks|
    decreases |ks| - n
  {
    if n == |ks| || !l.ok then l else LoadNewBucket(LoadNewEntry(l, i, ks[n]), i, ks, n + 1)
  }

  function LoadNew(l: Loading, buckets: seq<seq<Key>>, n: nat): Loading
    requires n <= |buckets|
    decreases |buckets| - n
  {
    if n == |buckets| || !l.ok then l else LoadNew(LoadNewBucket(l, n, buckets[n], 0), buckets, n + 1)
  }

  function LoadTriedEntry(l: Loading, t: nat, k: Key): Loading {
    var b := l.book;
    if k !in b.index || t >= |b.tried| then l.(ok := false)
    else
      l.(book := Rewritten(b, k, b.index[k].(tried := true))
                   .(tried := b.tried[t := b.tried[t] + [k]], nTried := b.nTried + 1))
  }

  function LoadTriedBucket(l: Loading, t: nat, ks: seq<Key>, n: nat): Loading
    requires n <= |ks|
    decreases |ks| - n
  {
    if n == |ks| || !l.ok then l else LoadTriedBucket(LoadTriedEntry(l, t, ks[n]), t, ks, n + 1)
  }

  function LoadTried(l: Loading, lists: seq<seq<Key>>, n: nat): Loading
    requires n <= |lists|
    decreases |lists| - n
  {
    if n == |lists| || !l.ok then l else LoadTried(LoadTriedBucket(l, n, lists[n], 0), lists, n + 1)
  }

  // Every address must be either new or tried.
  predicate Sane(b: Book) {
    forall k :: k in b.index ==>
      !(b.index[k].refs == 0 && !b.index[k].tried) && !(b.index[k].refs > 0 && b.index[k].tried)
  }

  function Load(b: Book, s: SavedBook, parse: Parser): Loading {
    if s.version != SERIALISATION_VERSION then Loading(b, false)
    else
      var l := LoadAddresses(Loading(b.(secret := s.key), true), s.addresses, 0, parse);
      var l' := LoadTried(LoadNew(l, s.newBuckets, 0), s.triedBuckets, 0);
      l'.(ok := l'.ok && Sane(l'.book))
  }

  // ------------------------------------------------------------- round trip

  // Address strings written by the manager can be read back as what they name.
  ghost predicate ReadsBack(parse: Parser, b: Book) {
    forall k :: k in b.index ==>
      && b.index[k].na.key == k
      && parse(k).Some? && parse(k).value.key == k && parse(k).value.group == b.index[k].na.group
      && parse(b.index[k].src.key).Some?
  }

  // What survives of one entry: all but the parts of the two addresses that the
  // file does not hold, their time stamps and services.
  ghost function Revived(a: Info, parse: Parser): Info
    requires parse(a.na.key).Some? && parse(a.src.key).Some?
  {
    a.(na := parse(a.na.key).value, src := parse(a.src.key).value)
  }

  // An entry part way through a load: counted in the buckets loaded so far and
  // marked tried if it was met in a tried list.
  ghost function Entry(b: Book, parse: Parser, bs: seq<set<Key>>, marked: set<Key>, k: Key): Info
    requires k in b.index && ReadsBack(parse, b)
  {
    Revived(b.index[k], parse).(refs := |Holding(bs, k)|, tried := k in marked)
  }

  ghost function Held(b: Book, bs: seq<set<Key>>): set<Key> {
    set k | k in b.index && Holding(bs, k) != {}
  }

  // The tables part way through a load of b.
  ghost function Midway(b: Book, parse: Parser, bs: seq<set<Key>>, lists: seq<seq<Key>>,
                        marked: set<Key>): Book
    requires ReadsBack(parse, b)
  {
    Book(b.secret, map k | k in b.index :: Entry(b, parse, bs, marked, k), bs, lists, |marked|, |Held(b, bs)|)
  }

  lemma HeldStep(b: Book, bs: seq<set<Key>>, i: nat, k: Key)
    requires i < |bs| && k in b.index
    ensures Held(b, bs[i := bs[i] + {k}]) == Held(b, bs) + {k}
  {
    forall y | y in b.index ensures y in Held(b, bs[i := bs[i] + {k}]) <==> y in Held(b, bs) + {k} {
      if y == k {
        assert i in Holding(bs[i := bs[i] + {k}], k);
      } else {
        HoldingAfterUpdate(bs, i, bs[i] + {k}, y);
      }
    }
  }

  lemma EntryStep(b: Book, parse: Parser, bs: seq<set<Key>>, i: nat, k: Key, y: Key)
    requires ReadsBack(parse, b) && i < |bs| && k !in bs[i] && y in b.index
    ensures var a := Entry(b, parse, bs, {}, y);
            Entry(b, parse, bs[i := bs[i] + {k}], {}, y) == if y == k then a.(refs := a.refs + 1) else a
  {
    HoldingAfterUpdate(bs, i, bs[i] + {k}, y);
  }

  lemma PlaceMidway(b: Book, parse: Parser, bs: seq<set<Key>>, lists: seq<seq<Key>>, i: nat, k: Key)
    requires ReadsBack(parse, b) && i < |bs| && k in b.index && k !in bs[i]
    ensures Place(Midway(b, parse, bs, lists, {}), i, k)
         == Midway(b, parse, bs[i := bs[i] + {k}], lists, {}).(nNew := |Held(b, bs)|)
  {
    var d := Place(Midway(b, parse, bs, lists, {}), i, k);
    var m := Midway(b, parse, bs[i := bs[i] + {k}], lists, {});
    assert d.index.Keys == m.index.Keys;
    forall y | y in b.index ensures d.index[y] == m.index[y] {
      EntryStep(b, parse, bs, i, k, y);
    }
    assert d.index == m.index;
  }

  lemma NewEntryMidway(b: Book, parse: Parser, bs: seq<set<Key>>, lists: seq<seq<Key>>, i: nat, k: Key)
    requires ReadsBack(parse, b) && i < |bs| && k in b.index && k !in bs[i]
    ensures LoadNewEntry(Loading(Midway(b, parse, bs, lists, {}), true), i, k)
         == Loading(Midway(b, parse, bs[i := bs[i] + {k}], lists, {}), true)
  {
    PlaceMidway(b, parse, bs, lists, i, k);
    HeldStep(b, bs, i, k);
    var m := Midway(b, parse, bs, lists, {});
    assert m.index[k].refs == |Holding(bs, k)|;
    if k in Held(b, bs) {
      assert Held(b, bs) + {k} == Held(b, bs);
      assert m.index[k].refs != 0;
    } else {
      assert m.index[k].refs == 0;
    }
  }

  lemma {:induction false} NewBucketMidway(b: Book, parse: Parser, bs: seq<set<Key>>, lists: seq<seq<Key>>,
                                           i: nat, ks: seq<Key>, n: nat)
    requires ReadsBack(parse, b) && i < |bs| && n <= |ks| && bs[i] == Elements(ks[..n])
    requires Distinct(ks) && forall k :: k in ks ==> k in b.index
    ensures LoadNewBucket(Loading(Midway(b, parse, bs, lists, {}), true), i, ks, n)
         == Loading(Midway(b, parse, bs[i := Elements(ks)], lists, {}), true)
    decreases |ks| - n
  {
    if n == |ks| {
      assert ks[..n] == ks && bs[i := bs[i]] == bs;
    } else {
      NewEntryMidway(b, parse, bs, lists, i, ks[n]);
      var bs' := bs[i := bs[i] + {ks[n]}];
      assert bs'[i] == Elements(ks[..n + 1]);
      NewBucketMidway(b, parse, bs', lists, i, ks, n + 1);
      assert bs'[i := Elements(ks)] == bs[i := Elements(ks)];
    }
  }

  // b's buckets up to n, and empty ones after that.
  ghost function UpTo(bs: seq<set<Key>>, n: nat): seq<set<Key>>
    requires n <= |bs|
  {
    seq(|bs|, i requires 0 <= i < |bs| => if i < n then bs[i] else {})
  }

  lemma NewMidwayStep(b: Book, parse: Parser, lists: seq<seq<Key>>, n: nat, ks: seq<Key>)
    requires ReadsBack(parse, b) && FreshIndexed(b) && n < |b.buckets|
    requires Distinct(ks) && Elements(ks) == b.buckets[n]
    ensures LoadNewBucket(Loading(Midway(b, parse, UpTo(b.buckets, n), lists, {}), true), n, ks, 0)
         == Loading(Midway(b, parse, UpTo(b.buckets, n + 1), lists, {}), true)
  {
    forall k | k in ks ensures k in b.index {
      assert k in Elements(ks);
    }
    var bs := UpTo(b.buckets, n);
    assert bs[n] == {} == Elements(ks[..0]);
    assert bs[n := b.buckets[n]] == UpTo(b.buckets, n + 1);
    NewBucketMidway(b, parse, bs, lists, n, ks, 0);
  }

  lemma {:induction false} NewMidway(b: Book, parse: Parser, lists: seq<seq<Key>>, saved: seq<seq<Key>>, n: nat)
    requires ReadsBack(parse, b) && FreshIndexed(b) && n <= |saved| == |b.buckets|
    requires forall i :: 0 <= i < |saved| ==> Distinct(saved[i]) && Elements(saved[i]) == b.buckets[i]
    ensures LoadNew(Loading(Midway(b, parse, UpTo(b.buckets, n), lists, {}), true), saved, n)
         == Loading(Midway(b, parse, b.buckets, lists, {}), true)
    decreases |saved| - n
  {
    if n == |saved| {
      assert UpTo(b.buckets, n) == b.buckets;
    } else {
      NewMidway(b, parse, lists, saved, n + 1);
      NewMidwayStep(b, parse, lists, n, saved[n]);
    }
  }

  lemma TriedEntryMidway(b: Book, parse: Parser, bs: seq<set<Key>>, lists: seq<seq<Key>>,
                         marked: set<Key>, t: nat, k: Key)
    requires ReadsBack(parse, b) && t < |lists| && k in b.index && k !in marked
    ensures LoadTriedEntry(Loading(Midway(b, parse, bs, lists, marked), true), t, k)
         == Loading(Midway(b, parse, bs, lists[t := lists[t] + [k]], marked + {k}), true)
  {
    var m := Midway(b, parse, bs, lists, marked);
    var m' := Midway(b, parse, bs, lists[t := lists[t] + [k]], marked + {k});
    assert Rewritten(m, k, m.index[k].(tried := true)).index == m'.index;
  }

  // The first n tried lists, and empty ones after that.
  ghost function ListsUpTo(lists: seq<seq<Key>>, n: nat): seq<seq<Key>>
    requires n <= |lists|
  {
    seq(|lists|, t requires 0 <= t < |lists| => if t < n then lists[t] else [])
  }

  ghost function Listed(lists: seq<seq<Key>>): set<Key> {
    set t, j | 0 <= t < |lists| && 0 <= j < |lists[t]| :: lists[t][j]
  }

  lemma Overwritten(lists: seq<seq<Key>>, t: nat, x: seq<Key>, y: seq<Key>)
    requires t < |lists|
    ensures lists[t := x][t := y] == lists[t := y]
  {
  }

  lemma TriedBucketStep(b: Book, parse: Parser, bs: seq<set<Key>>, lists: seq<seq<Key>>, marked: set<Key>,
                        t: nat, ks: seq<Key>, n: nat)
    requires ReadsBack(parse, b) && t < |lists| && n < |ks| && lists[t] == ks[..n]
    requires Distinct(ks) && ks[n] in b.index && ks[n] !in marked
    ensures LoadTriedEntry(Loading(Midway(b, parse, bs, lists, marked + Elements(ks[..n])), true), t, ks[n])
         == Loading(Midway(b, parse, bs, lists[t := ks[..n + 1]], marked + Elements(ks[..n + 1])), true)
  {
    assert ks[..n + 1] == ks[..n] + [ks[n]];
    assert marked + Elements(ks[..n + 1]) == marked + Elements(ks[..n]) + {ks[n]};
    TriedEntryMidway(b, parse, bs, lists, marked + Elements(ks[..n]), t, ks[n]);
  }

  lemma {:induction false} TriedBucketMidway(b: Book, parse: Parser, bs: seq<set<Key>>, lists: seq<seq<Key>>,
                                             marked: set<Key>, t: nat, ks: seq<Key>, n: nat)
    requires ReadsBack(parse, b) && t < |lists| && n <= |ks| && lists[t] == ks[..n]
    requires Distinct(ks) && forall x :: 0 <= x < |ks| ==> ks[x] in b.index && ks[x] !in marked
    ensures LoadTriedBucket(Loading(Midway(b, parse, bs, lists, marked + Elements(ks[..n])), true), t, ks, n)
         == Loading(Midway(b, parse, bs, lists[t := ks], marked + Elements(ks)), true)
    decreases |ks| - n
  {
    if n == |ks| {
      assert ks[..n] == ks && lists[t := lists[t]] == lists;
    } else {
      Overwritten(lists, t, ks[..n + 1], ks);
      TriedBucketStep(b, parse, bs, lists, marked, t, ks, n);
      TriedBucketMidway(b, parse, bs, lists[t := ks[..n + 1]], marked, t, ks, n + 1);
    }
  }

  lemma ListsStep(lists: seq<seq<Key>>, n: nat)
    requires n < |lists|
    ensures ListsUpTo(lists, n)[n := lists[n]] == ListsUpTo(lists, n + 1) && ListsUpTo(lists, n)[n] == lists[n][..0]
    ensures Listed(lists[..n]) + Elements(lists[n][..0]) == Listed(lists[..n])
  {
  }

  lemma TriedMidwayStep(b: Book, parse: Parser, bs: seq<set<Key>>, n: nat)
    requires ReadsBack(parse, b) && n < |b.tried| && Distinct(b.tried[n])
    requires forall j :: 0 <= j < |b.tried[n]| ==> b.tried[n][j] in b.index
    requires forall t, k :: 0 <= t < n && k in b.tried[t] ==> k !in b.tried[n]
    ensures LoadTriedBucket(Loading(Midway(b, parse, bs, ListsUpTo(b.tried, n), Listed(b.tried[..n])), true),
                            n, b.tried[n], 0)
         == Loading(Midway(b, parse, bs, ListsUpTo(b.tried, n + 1), Listed(b.tried[..n + 1])), true)
  {
    forall x | 0 <= x < |b.tried[n]| ensures b.tried[n][x] !in Listed(b.tried[..n]) {
      assert b.tried[n][x] in b.tried[n];
    }
    ListsStep(b.tried, n);
    TriedBucketMidway(b, parse, bs, ListsUpTo(b.tried, n), Listed(b.tried[..n]), n, b.tried[n], 0);
    ListedStep(b.tried, n);
  }

  lemma {:induction false} TriedMidway(b: Book, parse: Parser, bs: seq<set<Key>>, n: nat)
    requires ReadsBack(parse, b) && n <= |b.tried| && TriedOnce(b)
    requires forall t, j :: 0 <= t < |b.tried| && 0 <= j < |b.tried[t]| ==> b.tried[t][j] in b.index
    requires forall t, u, k :: 0 <= t < u < |b.tried| && k in b.tried[t] ==> k !in b.tried[u]
    ensures LoadTried(Loading(Midway(b, parse, bs, ListsUpTo(b.tried, n), Listed(b.tried[..n])), true), b.tried, n)
         == Loading(Midway(b, parse, bs, b.tried, Listed(b.tried)), true)
    decreases |b.tried| - n
  {
    if n == |b.tried| {
      assert b.tried[..n] == b.tried && ListsUpTo(b.tried, n) == b.tried;
    } else {
      TriedMidway(b, parse, bs, n + 1);
      TriedMidwayStep(b, parse, bs, n);
    }
  }

  lemma ListedStep(lists: seq<seq<Key>>, m: nat)
    requires m < |lists|
    ensures Listed(lists[..m + 1]) == Listed(lists[..m]) + Elements(lists[m])
  {
    var all := lists[..m + 1];
    forall k | k in Listed(lists[..m]) + Elements(lists[m]) ensures k in Listed(all) {
      if k in Listed(lists[..m]) {
        var t, j :| 0 <= t < m && 0 <= j < |lists[..m][t]| && lists[..m][t][j] == k;
        assert all[t][j] == k;
      } else {
        var j :| 0 <= j < |lists[m]| && lists[m][j] == k;
        assert all[m][j] == k;
      }
    }
    forall k | k in Listed(all) ensures k in Listed(lists[..m]) + Elements(lists[m]) {
      var t, j :| 0 <= t < m + 1 && 0 <= j < |all[t]| && all[t][j] == k;
      if t < m { assert lists[..m][t][j] == k; }
    }
  }

  ghost function Addrs(vs: seq<SavedAddress>): set<Key> {
    set x | 0 <= x < |vs| :: vs[x].addr
  }

  // The index right after the addresses named in `keys` were read.
  ghost function ReadIndex(b: Book, parse: Parser, keys: set<Key>): map<Key, Info>
    requires ReadsBack(parse, b)
  {
    map k | k in keys && k in b.index :: Entry(b, parse, [], {}, k)
  }

  lemma AddressStep(b: Book, parse: Parser, e: Book, keys: set<Key>, v: SavedAddress)
    requires ReadsBack(parse, b) && v.addr in b.index && v == Saved(v.addr, b.index[v.addr])
    ensures LoadAddress(Loading(e.(index := ReadIndex(b, parse, keys)), true), v, parse)
         == Loading(e.(index := ReadIndex(b, parse, keys + {v.addr})), true)
  {
    assert Holding([], v.addr) == {};
    assert Entry(b, parse, [], {}, v.addr) ==
           Info(parse(v.addr).value, parse(v.src).value, v.attempts, v.lastAttempt, v.lastSuccess, false, 0);
    assert ReadIndex(b, parse, keys + {v.addr}) ==
           ReadIndex(b, parse, keys)[v.addr := Entry(b, parse, [], {}, v.addr)];
  }

  lemma {:induction false} AddressesMidway(b: Book, parse: Parser, e: Book, vs: seq<SavedAddress>, n: nat)
    requires ReadsBack(parse, b) && n <= |vs|
    requires forall x :: 0 <= x < |vs| ==>
               vs[x].addr in b.index && vs[x] == Saved(vs[x].addr, b.index[vs[x].addr])
    ensures LoadAddresses(Loading(e.(index := ReadIndex(b, parse, Addrs(vs[..n]))), true), vs, n, parse)
         == Loading(e.(index := ReadIndex(b, parse, Addrs(vs))), true)
    decreases |vs| - n
  {
    if n == |vs| {
      assert vs[..n] == vs;
    } else {
      AddressStep(b, parse, e, Addrs(vs[..n]), vs[n]);
      AddrsStep(vs, n);
      AddressesMidway(b, parse, e, vs, n + 1);
    }
  }

  lemma AddrsStep(vs: seq<SavedAddress>, n: nat)
    requires n < |vs|
    ensures Addrs(vs[..n + 1]) == Addrs(vs[..n]) + {vs[n].addr}
  {
    forall k | k in Addrs(vs[..n]) ensures k in Addrs(vs[..n + 1]) {
      var x :| 0 <= x < n && vs[..n][x].addr == k;
      assert vs[..n + 1][x].addr == k;
    }
    assert vs[..n + 1][n].addr == vs[n].addr;
  }

  // Tables restored from a file: everything but what the file does not hold.
  ghost function Restored(b: Book, parse: Parser): Book
    requires ReadsBack(parse, b)
  {
    b.(index := map k | k in b.index :: Revived(b.index[k], parse))
  }

  lemma RestoredIsMidway(b: Book, env: Env, parse: Parser)
    requires Inv(b, env) && ReadsBack(parse, b)
    ensures Restored(b, parse) == Midway(b, parse, b.buckets, b.tried, TriedKeys(b.index))
  {
    forall k | k in b.index ensures Revived(b.index[k], parse) == Entry(b, parse, b.buckets, TriedKeys(b.index), k) {
      assert Placed(b, env, k, {});
      if b.index[k].tried { assert Holding(b.buckets, k) == {}; }
    }
    assert Held(b, b.buckets) == NewKeys(b.index) by {
      forall k | k in b.index ensures k in Held(b, b.buckets) <==> k in NewKeys(b.index) {
        assert Placed(b, env, k, {});
        if b.index[k].tried { assert Holding(b.buckets, k) == {}; }
      }
    }
  }

  lemma ListedIsTried(b: Book, env: Env)
    requires Inv(b, env)
    ensures Listed(b.tried) == TriedKeys(b.index)
    ensures forall t, u, k :: 0 <= t < u < |b.tried| && k in b.tried[t] ==> k !in b.tried[u]
  {
    forall k | k in TriedKeys(b.index) ensures k in Listed(b.tried) {
      assert Placed(b, env, k, {});
      var t := TriedBucketOf(env, b.secret, b.index[k].na);
      var j :| 0 <= j < |b.tried[t]| && b.tried[t][j] == k;
    }
  }

  lemma RestoredSane(b: Book, env: Env, parse: Parser)
    requires Inv(b, env) && ReadsBack(parse, b)
    ensures Sane(Restored(b, parse))
  {
    forall k | k in b.index ensures (b.index[k].refs == 0) == b.index[k].tried {
      assert Placed(b, env, k, {});
    }
  }

  lemma StartMidway(b: Book, parse: Parser, e: Book)
    requires ReadsBack(parse, b) && e.secret == b.secret && e.nNew == e.nTried == 0
    requires |e.buckets| == |b.buckets| && forall i :: 0 <= i < |e.buckets| ==> e.buckets[i] == {}
    requires |e.tried| == |b.tried| && forall t :: 0 <= t < |e.tried| ==> e.tried[t] == []
    ensures e.(index := ReadIndex(b, parse, b.index.Keys)) ==
            Midway(b, parse, UpTo(b.buckets, 0), ListsUpTo(b.tried, 0), {})
  {
    assert e.buckets == UpTo(b.buckets, 0) && e.tried == ListsUpTo(b.tried, 0);
    assert forall k :: Holding(e.buckets, k) == {} && Holding([], k) == {};
    assert Held(b, e.buckets) == {};
  }

  // The first stage of a load: the addresses.
  lemma ReadStage(b: Book, s: SavedBook, parse: Parser, secret: string)
    requires ReadsBack(parse, b) && Represents(s, b)
    requires |b.buckets| == NEW_BUCKET_COUNT && |b.tried| == TRIED_BUCKET_COUNT
    ensures LoadAddresses(Loading(Empty(secret).(secret := s.key), true), s.addresses, 0, parse)
         == Loading(Midway(b, parse, UpTo(b.buckets, 0), ListsUpTo(b.tried, 0), {}), true)
  {
    var e := Empty(secret).(secret := s.key);
    assert ReadIndex(b, parse, Addrs(s.addresses[..0])) == map[];
    AddressesMidway(b, parse, e, s.addresses, 0);
    assert Addrs(s.addresses) == b.index.Keys;
    StartMidway(b, parse, e);
  }

  // The last stage: the tried lists.
  lemma ListStage(b: Book, env: Env, parse: Parser)
    requires Inv(b, env) && ReadsBack(parse, b)
    ensures LoadTried(Loading(Midway(b, parse, b.buckets, ListsUpTo(b.tried, 0), {}), true), b.tried, 0)
         == Loading(Restored(b, parse), true)
  {
    ListedIsTried(b, env);
    assert Listed(b.tried[..0]) == {};
    TriedMidway(b, parse, b.buckets, 0);
    RestoredIsMidway(b, env, parse);
  }

  // Loading a saved file into a fresh manager passes every check and gives back
  // the same tables.
  lemma RoundTrip(b: Book, env: Env, s: SavedBook, parse: Parser, secret: string)
    requires Inv(b, env) && ReadsBack(parse, b) && Represents(s, b)
    ensures Load(Empty(secret), s, parse) == Loading(Restored(b, parse), true)
  {
    ReadStage(b, s, parse, secret);
    NewMidway(b, parse, ListsUpTo(b.tried, 0), s.newBuckets, 0);
    ListStage(b, env, parse);
    RestoredSane(b, env, parse);
  }

  // Restored tables satisfy the invariant again.
  lemma RestoredKeeps(b: Book, env: Env, parse: Parser)
    requires Inv(b, env) && ReadsBack(parse, b)
    ensures Inv(Restored(b, parse), env)
  {
    var d := Restored(b, parse);
    RestoredFresh(b, parse);
    TriedFrame(b, d, env);
    SameClassesCounted(b, d);
    forall k | k in d.index ensures Placed(d, env, k, {}) {
      RestoredPlaced(b, env, parse, k);
    }
  }

  lemma RestoredFresh(b: Book, parse: Parser)
    requires FreshIndexed(b) && ReadsBack(parse, b)
    ensures FreshIndexed(Restored(b, parse))
  {
  }

  lemma RestoredPlaced(b: Book, env: Env, parse: Parser, k: Key)
    requires |b.tried| == TRIED_BUCKET_COUNT && ReadsBack(parse, b) && k in b.index && Placed(b, env, k, {})
    ensures Placed(Restored(b, parse), env, k, {})
  {
  }

  // ------------------------------------------------------ the manager itself

  method SaveAddresses(m: Manager) returns (vs: seq<SavedAddress>)
    requires m.Linked()
    ensures forall x, y :: 0 <= x < y < |vs| ==> vs[x].addr != vs[y].addr
    ensures forall x :: 0 <= x < |vs| ==>
              vs[x].addr in m.book.index && vs[x] == Saved(vs[x].addr, m.book.index[vs[x].addr])
    ensures forall k :: k in m.book.index ==> exists x :: 0 <= x < |vs| && vs[x].addr == k
  {
    vs := [];
    var todo := m.addrIndex.Keys;
    while todo != {}
      invariant todo <= m.addrIndex.Keys
      invariant forall x, y :: 0 <= x < y < |vs| ==> vs[x].addr != vs[y].addr
      invariant forall x :: 0 <= x < |vs| ==>
                  vs[x].addr in m.book.index && vs[x] == Saved(vs[x].addr, m.book.index[vs[x].addr]) &&
                  vs[x].addr !in todo
      invariant forall k :: k in m.book.index && k !in todo ==> exists x :: 0 <= x < |vs| && vs[x].addr == k
      decreases todo
    {
      var k :| k in todo;
      var a := m.addrIndex[k].rec;
      var v := SavedAddress(k, a.src.key, a.attempts, a.na.timestamp, a.lastAttempt, a.lastSuccess);
      assert forall x :: 0 <= x < |vs| ==> (vs + [v])[x] == vs[x];
      assert (vs + [v])[|vs|].addr == k;
      vs := vs + [v];
      todo := todo - {k};
    }
  }

  method SaveBucket(bucket: set<Key>) returns (ks: seq<Key>)
    ensures Distinct(ks) && Elements(ks) == bucket
  {
    ks := [];
    var todo := bucket;
    while todo != {}
      invariant todo <= bucket && Distinct(ks) && Elements(ks) == bucket - todo
      decreases todo
    {
      var k :| k in todo;
      assert k !in Elements(ks);
      assert Elements(ks + [k]) == Elements(ks) + {k};
      ks := ks + [k];
      todo := todo - {k};
    }
  }

  // Write out the tables.
  method SavePeers(m: Manager) returns (s: SavedBook)
    requires m.Linked()
    ensures Represents(s, m.book)
  {
    var addresses := SaveAddresses(m);
    var newBuckets := [];
    for i := 0 to |m.addrNew|
      invariant |newBuckets| == i
      invariant forall x :: 0 <= x < i ==> Distinct(newBuckets[x]) && Elements(newBuckets[x]) == m.book.buckets[x]
    {
      var ks := SaveBucket(m.addrNew[i].Keys);
      newBuckets := newBuckets + [ks];
    }
    var triedBuckets := [];
    for t := 0 to |m.addrTried|
      invariant |triedBuckets| == t && triedBuckets == m.book.tried[..t]
    {
      var ks := SaveList(m, t);
      triedBuckets := triedBuckets + [ks];
    }
    assert m.book.tried[..|m.addrTried|] == m.book.tried;
    s := SavedBook(SERIALISATION_VERSION, m.key, addresses, newBuckets, triedBuckets);
  }

  method SaveList(m: Manager, t: nat) returns (ks: seq<Key>)
    requires m.Linked() && t < |m.addrTried|
    ensures ks == m.book.tried[t]
  {
    ks := [];
    for j := 0 to |m.addrTried[t]|
      invariant ks == m.book.tried[t][..j]
    {
      ks := ks + [m.addrTried[t][j].rec.na.key];
    }
  }

  // No bucket or list refers to any address yet.
  ghost predicate Unfilled(b: Book) {
    && (forall i :: 0 <= i < |b.buckets| ==> b.buckets[i] == {})
    && (forall t :: 0 <= t < |b.tried| ==> b.tried[t] == [])
  }

  method ReadAddress(m: Manager, v: SavedAddress, parse: Parser) returns (ok: bool)
    requires m.Linked() && Unfilled(m.book)
    modifies m
    ensures m.Linked() && Unfilled(m.book) && fresh(m.Repr - old(m.Repr)) && old(m.Repr) <= m.Repr
    ensures Loading(m.book, ok) == LoadAddress(Loading(old(m.book), true), v, parse)
  {
    var na := parse(v.addr);
    if na.None? {
      return false;
    }
    var src := parse(v.src);
    if src.None? {
      return false;
    }
    var rec := Info(na.value, src.value, v.attempts, v.lastAttempt, v.lastSuccess, false, 0);
    var ka := new KnownAddress(rec);
    m.addrIndex := m.addrIndex[na.value.key := ka];
    m.Repr := m.Repr + {ka};
    m.book := Rewritten(m.book, na.value.key, rec);
    return true;
  }

  method ReadNewEntry(m: Manager, i: nat, k: Key) returns (ok: bool)
    requires m.Linked() && i < |m.addrNew|
    modifies m, m.Repr
    ensures m.Linked() && m.Repr == old(m.Repr)
    ensures Loading(m.book, ok) == LoadNewEntry(Loading(old(m.book), true), i, k)
  {
    if k !in m.addrIndex {
      return false;
    }
    if m.addrIndex[k].rec.refs == 0 {
      m.nNew := m.nNew + 1;
      m.book := m.book.(nNew := m.book.nNew + 1);
    }
    m.EnterBucket(i, k);
    return true;
  }

  method ReadTriedEntry(m: Manager, t: nat, k: Key) returns (ok: bool)
    requires m.Linked() && t < |m.addrTried|
    modifies m, m.Repr
    ensures m.Linked() && m.Repr == old(m.Repr)
    ensures Loading(m.book, ok) == LoadTriedEntry(Loading(old(m.book), true), t, k)
  {
    if k !in m.addrIndex {
      return false;
    }
    ListTriedAliases(m.addrIndex, m.addrTried, m.book.tried, t, k);
    var ka := m.addrIndex[k];
    ka.rec := ka.rec.(tried := true);
    m.nTried := m.nTried + 1;
    m.addrTried := m.addrTried[t := m.addrTried[t] + [ka]];
    m.book := LoadTriedEntry(Loading(m.book, true), t, k).book;
    return true;
  }

  method ReadAddresses(m: Manager, vs: seq<SavedAddress>, parse: Parser) returns (ok: bool)
    requires m.Linked() && Unfilled(m.book)
    modifies m
    ensures m.Linked() && fresh(m.Repr - old(m.Repr))
    ensures Loading(m.book, ok) == LoadAddresses(Loading(old(m.book), true), vs, 0, parse)
  {
    ok := true;
    var n := 0;
    while n < |vs|
      invariant n <= |vs| && ok
      invariant m.Linked() && Unfilled(m.book) && fresh(m.Repr - old(m.Repr))
      invariant LoadAddresses(Loading(old(m.book), true), vs, 0, parse) ==
                LoadAddresses(Loading(m.book, true), vs, n, parse)
    {
      ok := ReadAddress(m, vs[n], parse);
      if !ok {
        return;
      }
      n := n + 1;
    }
  }

  method ReadNewBucket(m: Manager, i: nat, ks: seq<Key>) returns (ok: bool)
    requires m.Linked() && i < NEW_BUCKET_COUNT
    modifies m, m.Repr
    ensures m.Linked() && m.Repr == old(m.Repr)
    ensures Loading(m.book, ok) == LoadNewBucket(Loading(old(m.book), true), i, ks, 0)
  {
    ok := true;
    var n := 0;
    while n < |ks|
      invariant n <= |ks| && ok
      invariant m.Linked() && m.Repr == old(m.Repr)
      invariant LoadNewBucket(Loading(old(m.book), true), i, ks, 0) == LoadNewBucket(Loading(m.book, true), i, ks, n)
    {
      ok := ReadNewEntry(m, i, ks[n]);
      if !ok {
        return;
      }
      n := n + 1;
    }
  }

  method ReadTriedBucket(m: Manager, t: nat, ks: seq<Key>) returns (ok: bool)
    requires m.Linked() && t < TRIED_BUCKET_COUNT
    modifies m, m.Repr
    ensures m.Linked() && m.Repr == old(m.Repr)
    ensures Loading(m.book, ok) == LoadTriedBucket(Loading(old(m.book), true), t, ks, 0)
  {
    ok := true;
    var n := 0;
    while n < |ks|
      invariant n <= |ks| && ok
      invariant m.Linked() && m.Repr == old(m.Repr)
      invariant LoadTriedBucket(Loading(old(m.book), true), t, ks, 0) == LoadTriedBucket(Loading(m.book, true), t, ks, n)
    {
      ok := ReadTriedEntry(m, t, ks[n]);
      if !ok {
        return;
      }
      n := n + 1;
    }
  }

  method ReadNew(m: Manager, buckets: seq<seq<Key>>) returns (ok: bool)
    requires m.Linked() && |buckets| == NEW_BUCKET_COUNT
    modifies m, m.Repr
    ensures m.Linked() && m.Repr == old(m.Repr)
    ensures Loading(m.book, ok) == LoadNew(Loading(old(m.book), true), buckets, 0)
  {
    ok := true;
    var n := 0;
    while n < |buckets|
      invariant n <= |buckets| && ok
      invariant m.Linked() && m.Repr == old(m.Repr)
      invariant LoadNew(Loading(old(m.book), true), buckets, 0) == LoadNew(Loading(m.book, true), buckets, n)
    {
      ok := ReadNewBucket(m, n, buckets[n]);
      if !ok {
        return;
      }
      n := n + 1;
    }
  }

  method ReadTried(m: Manager, lists: seq<seq<Key>>) returns (ok: bool)
    requires m.Linked() && |lists| == TRIED_BUCKET_COUNT
    modifies m, m.Repr
    ensures m.Linked() && m.Repr == old(m.Repr)
    ensures Loading(m.book, ok) == LoadTried(Loading(old(m.book), true), lists, 0)
  {
    ok := true;
    var n := 0;
    while n < |lists|
      invariant n <= |lists| && ok
      invariant m.Linked() && m.Repr == old(m.Repr)
      invariant LoadTried(Loading(old(m.book), true), lists, 0) == LoadTried(Loading(m.book, true), lists, n)
    {
      ok := ReadTriedBucket(m, n, lists[n]);
      if !ok {
        return;
      }
      n := n + 1;
    }
  }

  // The last check of a load.
  method CheckSanity(m: Manager) returns (ok: bool)
    requires m.Linked()
    ensures ok <==> Sane(m.book)
  {
    var todo := m.addrIndex.Keys;
    while todo != {}
      invariant todo <= m.addrIndex.Keys
      invariant forall k :: k in m.addrIndex && k !in todo ==>
                  !(m.book.index[k].refs == 0 && !m.book.index[k].tried) &&
                  !(m.book.index[k].refs > 0 && m.book.index[k].tried)
      decreases todo
    {
      var k :| k in todo;
      var v := m.addrIndex[k].rec;
      if (v.refs == 0 && !v.tried) || (v.refs > 0 && v.tried) {
        return false;
      }
      todo := todo - {k};
    }
    return true;
  }

  // Load a file into a manager whose tables are still empty.
  method DeserializePeers(m: Manager, s: SavedBook, parse: Parser) returns (ok: bool)
    requires m.Linked() && Unfilled(m.book)
    requires |s.newBuckets| == NEW_BUCKET_COUNT && |s.triedBuckets| == TRIED_BUCKET_COUNT
    modifies m, m.Repr
    ensures m.Linked() && fresh(m.Repr - old(m.Repr))
    ensures Loading(m.book, ok) == Load(old(m.book), s, parse)
  {
    if s.version != SERIALISATION_VERSION {
      return false;
    }
    m.key := s.key;
    m.book := m.book.(secret := s.key);
    ok := ReadAddresses(m, s.addresses, parse);
    if ok {
      ok := ReadNew(m, s.newBuckets);
    }
    if ok {
      ok := ReadTried(m, s.triedBuckets);
    }
    if ok {
      ok := CheckSanity(m);
    }
  }

  // What resetting the manager leaves: empty tables under a new key, and the
  // two counters as they were.
  function Reset(b: Book, secret: string): Book {
    Empty(secret).(nTried := b.nTried, nNew := b.nNew)
  }

  // Load a file at start-up; on any error start over with empty tables.
  method LoadPeers(m: Manager, s: SavedBook, parse: Parser, secret: string)
    requires m.Linked() && Unfilled(m.book)
    requires |s.newBuckets| == NEW_BUCKET_COUNT && |s.triedBuckets| == TRIED_BUCKET_COUNT
    modifies m, m.Repr
    ensures m.Linked()
    ensures var l := Load(old(m.book), s, parse);
            m.book == if l.ok then l.book else Reset(l.book, secret)
  {
    var ok := DeserializePeers(m, s, parse);
    if !ok {
      m.addrIndex := map[];
      m.key := secret;
      m.addrNew := seq(NEW_BUCKET_COUNT, _ => map[]);
      m.addrTried := seq(TRIED_BUCKET_COUNT, _ => []);
      m.book := Reset(m.book, secret);
    }
  }

  lemma ResetSound(b: Book, env: Env, secret: string)
    ensures Inv(Reset(b, secret), env) <==> b.nNew == 0 && b.nTried == 0
  {
    EmptyKeeps(secret, env);
    assert NewKeys(map[]) == {} && TriedKeys(map[]) == {};
  }

  // The first entry of the lists from the n-th on.
  function First(lists: seq<seq<Key>>, n: nat): Option<Key>
    requires n <= |lists|
    decreases |lists| - n
  {
    if n == |lists| then None
    else if lists[n] != [] then Some(lists[n][0])
    else First(lists, n + 1)
  }

  predicate Parses(v: SavedAddress, parse: Parser) {
    parse(v.addr).Some? && parse(v.src).Some?
  }

  // Some saved address reads back as one with this key.
  ghost predicate Named(vs: seq<SavedAddress>, parse: Parser, k: Key) {
    exists x :: 0 <= x < |vs| && parse(vs[x].addr).Some? && parse(vs[x].addr).value.key == k
  }

  // A file at which a load counts no address: it has another version, or an
  // address that does not parse, or no entry in any bucket, or its first entry,
  // new buckets before tried ones, is none of its addresses.
  ghost predicate CountsNothing(s: SavedBook, parse: Parser) {
    || s.version != SERIALISATION_VERSION
    || (exists x :: 0 <= x < |s.addresses| && !Parses(s.addresses[x], parse))
    || var first := First(s.newBuckets + s.triedBuckets, 0);
       first.None? || !Named(s.addresses, parse, first.value)
  }

  ghost predicate Unreferenced(b: Book) {
    forall k :: k in b.index ==> b.index[k].refs == 0
  }

  // Reading the addresses counts nothing, and succeeds if they all parse.
  lemma {:induction false} AddressesRead(l: Loading, vs: seq<SavedAddress>, n: nat, parse: Parser)
    requires n <= |vs| && l.ok && Unreferenced(l.book)
    ensures var m := LoadAddresses(l, vs, n, parse);
            && Unreferenced(m.book)
            && m.book == l.book.(index := m.book.index)
            && (m.ok <==> forall x :: n <= x < |vs| ==> Parses(vs[x], parse))
            && (m.ok ==> forall k :: k in m.book.index <==>
                  k in l.book.index || exists x :: n <= x < |vs| && parse(vs[x].addr).value.key == k)
    decreases |vs| - n
  {
    if n < |vs| {
      var l1 := LoadAddress(l, vs[n], parse);
      if l1.ok {
        AddressesRead(l1, vs, n + 1, parse);
      } else {
        assert LoadAddresses(l1, vs, n + 1, parse) == l1;
      }
    }
  }

  // No step of a load lowers a counter.
  ghost predicate Counts(l: Loading, m: Loading) {
    l.book.nNew <= m.book.nNew && l.book.nTried <= m.book.nTried
  }

  lemma {:induction false} NewBucketCounts(l: Loading, i: nat, ks: seq<Key>, n: nat)
    requires n <= |ks|
    ensures Counts(l, LoadNewBucket(l, i, ks, n))
    decreases |ks| - n
  {
    if n < |ks| && l.ok {
      NewBucketCounts(LoadNewEntry(l, i, ks[n]), i, ks, n + 1);
    }
  }

  lemma {:induction false} NewCounts(l: Loading, buckets: seq<seq<Key>>, n: nat)
    requires n <= |buckets|
    ensures Counts(l, LoadNew(l, buckets, n))
    decreases |buckets| - n
  {
    if n < |buckets| && l.ok {
      NewBucketCounts(l, n, buckets[n], 0);
      NewCounts(LoadNewBucket(l, n, buckets[n], 0), buckets, n + 1);
    }
  }

  lemma {:induction false} TriedBucketCounts(l: Loading, t: nat, ks: seq<Key>, n: nat)
    requires n <= |ks|
    ensures Counts(l, LoadTriedBucket(l, t, ks, n))
    decreases |ks| - n
  {
    if n < |ks| && l.ok {
      TriedBucketCounts(LoadTriedEntry(l, t, ks[n]), t, ks, n + 1);
    }
  }

  lemma {:induction false} TriedCounts(l: Loading, lists: seq<seq<Key>>, n: nat)
    requires n <= |lists|
    ensures Counts(l, LoadTried(l, lists, n))
    decreases |lists| - n
  {
    if n < |lists| && l.ok {
      TriedBucketCounts(l, n, lists[n], 0);
      TriedCounts(LoadTriedBucket(l, n, lists[n], 0), lists, n + 1);
    }
  }

  // What a stage of a load makes of its first entry: nothing without one, an
  // error and no count if it is unknown, and otherwise a count.
  ghost predicate Begins(first: Option<Key>, l: Loading, m: Loading) {
    match first
    case None => m == l
    case Some(k) =>
      if k in l.book.index then m.book.nNew + m.book.nTried > l.book.nNew + l.book.nTried
      else m == l.(ok := false)
  }

  lemma {:induction false} NewBegins(l: Loading, buckets: seq<seq<Key>>, n: nat)
    requires l.ok && n <= |buckets| == |l.book.buckets| && Unreferenced(l.book)
    ensures Begins(First(buckets, n), l, LoadNew(l, buckets, n))
    decreases |buckets| - n
  {
    if n < |buckets| {
      if buckets[n] == [] {
        NewBegins(l, buckets, n + 1);
      } else {
        var l1 := LoadNewEntry(l, n, buckets[n][0]);
        var l2 := LoadNewBucket(l1, n, buckets[n], 1);
        assert LoadNewBucket(l, n, buckets[n], 0) == l2;
        NewBucketCounts(l1, n, buckets[n], 1);
        NewCounts(l2, buckets, n + 1);
      }
    }
  }

  lemma {:induction false} TriedBegins(l: Loading, lists: seq<seq<Key>>, n: nat)
    requires l.ok && n <= |lists| == |l.book.tried|
    ensures Begins(First(lists, n), l, LoadTried(l, lists, n))
    decreases |lists| - n
  {
    if n < |lists| {
      if lists[n] == [] {
        TriedBegins(l, lists, n + 1);
      } else {
        var l1 := LoadTriedEntry(l, n, lists[n][0]);
        var l2 := LoadTriedBucket(l1, n, lists[n], 1);
        assert LoadTriedBucket(l, n, lists[n], 0) == l2;
        TriedBucketCounts(l1, n, lists[n], 1);
        TriedCounts(l2, lists, n + 1);
      }
    }
  }

  // The first entry of two runs of lists.
  lemma {:induction false} FirstOfBoth(a: seq<seq<Key>>, b: seq<seq<Key>>, n: nat)
    requires n <= |a|
    ensures First(a + b, n) == if First(a, n).Some? then First(a, n) else First(b, 0)
    decreases |a| - n
  {
    if n < |a| {
      FirstOfBoth(a, b, n + 1);
    } else {
      FirstShifted(a, b, 0);
    }
  }

  lemma {:induction false} FirstShifted(a: seq<seq<Key>>, b: seq<seq<Key>>, n: nat)
    requires n <= |b|
    ensures First(a + b, |a| + n) == First(b, n)
    decreases |b| - n
  {
    if n < |b| {
      FirstShifted(a, b, n + 1);
    }
  }

  // Both stages together.
  lemma EntriesBegin(l: Loading, buckets: seq<seq<Key>>, lists: seq<seq<Key>>)
    requires l.ok && |buckets| == |l.book.buckets| && |lists| == |l.book.tried| && Unreferenced(l.book)
    ensures Begins(First(buckets + lists, 0), l, LoadTried(LoadNew(l, buckets, 0), lists, 0))
  {
    FirstOfBoth(buckets, lists, 0);
    NewBegins(l, buckets, 0);
    TriedCounts(LoadNew(l, buckets, 0), lists, 0);
    if First(buckets, 0).None? {
      TriedBegins(l, lists, 0);
    }
  }

  // A load that fails leaves a sound manager behind if and only if the file is one
  // at which nothing is counted.
  lemma FailedLoad(s: SavedBook, parse: Parser, env: Env, secret: string, secret': string)
    requires |s.newBuckets| == NEW_BUCKET_COUNT && |s.triedBuckets| == TRIED_BUCKET_COUNT
    requires !Load(Empty(secret), s, parse).ok
    ensures Inv(Reset(Load(Empty(secret), s, parse).book, secret'), env) <==> CountsNothing(s, parse)
  {
    var b := Load(Empty(secret), s, parse).book;
    ResetSound(b, env, secret');
    if s.version == SERIALISATION_VERSION {
      var l0 := Loading(Empty(secret).(secret := s.key), true);
      AddressesRead(l0, s.addresses, 0, parse);
      var l := LoadAddresses(l0, s.addresses, 0, parse);
      if l.ok {
        EntriesBegin(l, s.newBuckets, s.triedBuckets);
      } else {
        assert LoadTried(LoadNew(l, s.newBuckets, 0), s.triedBuckets, 0) == l;
      }
    }
  }

  // A file that is rejected only after one of its addresses was counted: its
  // second bucket names an address that it does not have.
  lemma FailedLoadMiscounts(env: Env, secret: string, na: NetAddress)
    requires na.key == "1.2.3.4:14008"
    ensures var parse: Parser := k => if k == "1.2.3.4:14008" then Some(na) else None;
            var rest := seq(NEW_BUCKET_COUNT - 2, _ => []);
            var s := SavedBook(SERIALISATION_VERSION, secret,
                               [SavedAddress("1.2.3.4:14008", "1.2.3.4:14008", 0, 0, 0, 0)],
                               [["1.2.3.4:14008"], ["5.6.7.8:14008"]] + rest, seq(TRIED_BUCKET_COUNT, _ => []));
            var l := Load(Empty(secret), s, parse);
            !l.ok && !Inv(Reset(l.book, secret), env)
  {
    var parse: Parser := k => if k == "1.2.3.4:14008" then Some(na) else None;
    var rest := seq(NEW_BUCKET_COUNT - 2, _ => []);
    var buckets := [["1.2.3.4:14008"], ["5.6.7.8:14008"]] + rest;
    var vs := [SavedAddress("1.2.3.4:14008", "1.2.3.4:14008", 0, 0, 0, 0)];
    var s := SavedBook(SERIALISATION_VERSION, secret, vs, buckets, seq(TRIED_BUCKET_COUNT, _ => []));
    LateReject(secret, na, rest);
    assert First(buckets + s.triedBuckets, 0) == Some("1.2.3.4:14008") by {
      assert (buckets + s.triedBuckets)[0] == ["1.2.3.4:14008"];
    }
    assert parse(vs[0].addr).value.key == "1.2.3.4:14008";
    assert Named(vs, parse, "1.2.3.4:14008") && Parses(vs[0], parse);
    FailedLoad(s, parse, env, secret, secret);
  }

  lemma LateReject(secret: string, na: NetAddress, rest: seq<seq<Key>>)
    requires na.key == "1.2.3.4:14008"
    ensures var parse: Parser := k => if k == "1.2.3.4:14008" then Some(na) else None;
            !Load(Empty(secret), SavedBook(SERIALISATION_VERSION, secret,
                                           [SavedAddress("1.2.3.4:14008", "1.2.3.4:14008", 0, 0, 0, 0)],
                                           [["1.2.3.4:14008"], ["5.6.7.8:14008"]] + rest,
                                           seq(TRIED_BUCKET_COUNT, _ => [])), parse).ok
  {
    var parse: Parser := k => if k == "1.2.3.4:14008" then Some(na) else None;
    var buckets := [["1.2.3.4:14008"], ["5.6.7.8:14008"]] + rest;
    var vs := [SavedAddress("1.2.3.4:14008", "1.2.3.4:14008", 0, 0, 0, 0)];
    var l0 := Loading(Empty(secret), true);
    var l1 := LoadAddress(l0, vs[0], parse);
    assert LoadAddresses(l1, vs, 1, parse) == l1;
    assert LoadAddresses(l0, vs, 0, parse) == l1;
    var l2 := LoadNewEntry(l1, 0, "1.2.3.4:14008");
    assert buckets[0] == ["1.2.3.4:14008"] && buckets[1] == ["5.6.7.8:14008"];
    assert LoadNewBucket(l2, 0, buckets[0], 1) == l2;
    assert LoadNewBucket(l1, 0, buckets[0], 0) == l2;
    assert "5.6.7.8:14008"[0] != "1.2.3.4:14008"[0];
    assert "5.6.7.8:14008" !in l2.book.index;
    var l3 := LoadNewEntry(l2, 1, "5.6.7.8:14008");
    assert LoadNewBucket(l3, 1, buckets[1], 1) == l3;
    assert LoadNewBucket(l2, 1, buckets[1], 0) == l3;
    assert LoadNew(l3, buckets, 2) == l3;
    assert LoadNew(l2, buckets, 1) == l3;
    assert LoadNew(l1, buckets, 0) == l3;
  }

  // ------------------------------------------- a load that succeeds, of any file

  // The entries of all lists, one after the other.
  ghost function Flat(lists: seq<seq<Key>>, n: nat): seq<Key>
    requires n <= |lists|
    decreases |lists| - n
  {
    if n == |lists| then [] else lists[n] + Flat(lists, n + 1)
  }

  ghost function Referenced(b: Book): set<Key> {
    set k | k in b.index && b.index[k].refs > 0
  }

  // Each address that some bucket names is counted once.
  ghost predicate Tallied(b: Book) {
    b.nNew == |Referenced(b)| && forall k :: k in b.index ==> b.index[k].refs >= 0
  }

  lemma NewEntryExact(l: Loading, i: nat, k: Key)
    requires l.ok && Tallied(l.book)
    ensures var m := LoadNewEntry(l, i, k);
            Tallied(m.book) && m.book.nTried == l.book.nTried && TriedKeys(m.book.index) == TriedKeys(l.book.index)
  {
    var m := LoadNewEntry(l, i, k);
    if m.ok {
      assert Referenced(m.book) == Referenced(l.book) + {k};
      if k in Referenced(l.book) {
        assert Referenced(l.book) + {k} == Referenced(l.book);
      }
    }
  }

  lemma {:induction false} NewBucketExact(l: Loading, i: nat, ks: seq<Key>, n: nat)
    requires Tallied(l.book) && n <= |ks|
    ensures var m := LoadNewBucket(l, i, ks, n);
            Tallied(m.book) && m.book.nTried == l.book.nTried && TriedKeys(m.book.index) == TriedKeys(l.book.index)
    decreases |ks| - n
  {
    if n < |ks| && l.ok {
      NewEntryExact(l, i, ks[n]);
      NewBucketExact(LoadNewEntry(l, i, ks[n]), i, ks, n + 1);
    }
  }

  lemma {:induction false} NewExact(l: Loading, buckets: seq<seq<Key>>, n: nat)
    requires Tallied(l.book) && n <= |buckets|
    ensures var m := LoadNew(l, buckets, n);
            Tallied(m.book) && m.book.nTried == l.book.nTried && TriedKeys(m.book.index) == TriedKeys(l.book.index)
    decreases |buckets| - n
  {
    if n < |buckets| && l.ok {
      NewBucketExact(l, n, buckets[n], 0);
      NewExact(LoadNewBucket(l, n, buckets[n], 0), buckets, n + 1);
    }
  }

  // These entries were listed: each was counted, and marked tried.
  ghost predicate Lists(l: Loading, ks: seq<Key>, m: Loading) {
    && m.book.nNew == l.book.nNew && m.book.index.Keys == l.book.index.Keys
    && (forall k :: k in m.book.index ==> m.book.index[k].refs == l.book.index[k].refs)
    && (m.ok ==> && l.ok && m.book.nTried == l.book.nTried + |ks|
                 && TriedKeys(m.book.index) == TriedKeys(l.book.index) + Elements(ks))
  }

  lemma ListsMore(l: Loading, ks: seq<Key>, m: Loading, js: seq<Key>, m': Loading)
    requires Lists(l, ks, m) && Lists(m, js, m')
    ensures Lists(l, ks + js, m')
  {
    assert Elements(ks + js) == Elements(ks) + Elements(js);
  }

  lemma TriedEntryLists(l: Loading, t: nat, k: Key)
    requires l.ok
    ensures Lists(l, [k], LoadTriedEntry(l, t, k))
  {
    var m := LoadTriedEntry(l, t, k);
    if m.ok {
      assert TriedKeys(m.book.index) == TriedKeys(l.book.index) + {k};
      assert Elements([k]) == {k};
    }
  }

  lemma ListsNone(l: Loading)
    ensures Lists(l, [], l)
  {
    assert Elements([]) == {};
  }

  lemma {:induction false} TriedBucketLists(l: Loading, t: nat, ks: seq<Key>, n: nat)
    requires n <= |ks|
    ensures Lists(l, ks[n..], LoadTriedBucket(l, t, ks, n))
    decreases |ks| - n
  {
    ListsNone(l);
    if n < |ks| && l.ok {
      var l1 := LoadTriedEntry(l, t, ks[n]);
      TriedEntryLists(l, t, ks[n]);
      TriedBucketLists(l1, t, ks, n + 1);
      ListsMore(l, [ks[n]], l1, ks[n + 1..], LoadTriedBucket(l1, t, ks, n + 1));
      assert ks[n..] == [ks[n]] + ks[n + 1..];
    }
  }

  lemma {:induction false} TriedLists(l: Loading, lists: seq<seq<Key>>, n: nat)
    requires n <= |lists|
    ensures Lists(l, Flat(lists, n), LoadTried(l, lists, n))
    decreases |lists| - n
  {
    ListsNone(l);
    if n < |lists| && l.ok {
      var l1 := LoadTriedBucket(l, n, lists[n], 0);
      TriedBucketLists(l, n, lists[n], 0);
      assert lists[n][0..] == lists[n];
      TriedLists(l1, lists, n + 1);
      ListsMore(l, lists[n], l1, Flat(lists, n + 1), LoadTried(l1, lists, n + 1));
    }
  }

  // As many elements as entries, if and only if none is there twice.
  lemma {:induction false} ElementsSize(s: seq<Key>)
    ensures |Elements(s)| <= |s| && (|Elements(s)| == |s| <==> Distinct(s))
  {
    if s == [] {
      assert Elements(s) == {};
    } else {
      var n := |s| - 1;
      var t := s[..n];
      ElementsSize(t);
      assert s == t + [s[n]];
      assert Elements(s) == Elements(t) + {s[n]};
      if s[n] in t {
        var j :| 0 <= j < n && t[j] == s[n];
        assert s[j] == s[n] && Elements(s) == Elements(t);
      } else {
        assert Distinct(s) <==> Distinct(t) by {
          assert forall j :: 0 <= j < n ==> s[j] == t[j] && t[j] in t;
        }
      }
    }
  }

  // After any load that succeeds, the new addresses are counted exactly, and the
  // tried ones if and only if no tried list names an address named before.
  lemma LoadedCounts(s: SavedBook, parse: Parser, secret: string)
    requires Load(Empty(secret), s, parse).ok
    ensures var b := Load(Empty(secret), s, parse).book;
            && b.nNew == |NewKeys(b.index)|
            && (b.nTried == |TriedKeys(b.index)| <==> Distinct(Flat(s.triedBuckets, 0)))
  {
    var l0 := Loading(Empty(secret).(secret := s.key), true);
    AddressesRead(l0, s.addresses, 0, parse);
    AddressesUntried(l0, s.addresses, 0, parse);
    var l := LoadAddresses(l0, s.addresses, 0, parse);
    assert Referenced(l.book) == {} && TriedKeys(l.book.index) == {};
    NewExact(l, s.newBuckets, 0);
    var m := LoadNew(l, s.newBuckets, 0);
    TriedLists(m, s.triedBuckets, 0);
    var b := LoadTried(m, s.triedBuckets, 0).book;
    assert Referenced(b) == Referenced(m.book) && NewKeys(b.index) == Referenced(b);
    assert TriedKeys(b.index) == Elements(Flat(s.triedBuckets, 0));
    ElementsSize(Flat(s.triedBuckets, 0));
  }

  lemma {:induction false} AddressesUntried(l: Loading, vs: seq<SavedAddress>, n: nat, parse: Parser)
    requires n <= |vs| && TriedKeys(l.book.index) == {}
    ensures TriedKeys(LoadAddresses(l, vs, n, parse).book.index) == {}
    decreases |vs| - n
  {
    if n < |vs| && l.ok {
      var l1 := LoadAddress(l, vs[n], parse);
      assert TriedKeys(l1.book.index) == {};
      AddressesUntried(l1, vs, n + 1, parse);
    }
  }

  lemma {:induction false} NoneLoaded(l: Loading, buckets: seq<seq<Key>>, n: nat)
    requires n <= |buckets| && forall i :: n <= i < |buckets| ==> buckets[i] == []
    ensures LoadNew(l, buckets, n) == l && LoadTried(l, buckets, n) == l
    decreases |buckets| - n
  {
    if n < |buckets| {
      NoneLoaded(l, buckets, n + 1);
    }
  }

  // A file that names one address twice in a tried list loads, and leaves a count
  // of two.
  lemma LoadedMiscounts(secret: string, na: NetAddress)
    requires na.key == "1.2.3.4:14008"
    ensures var k := "1.2.3.4:14008";
            var parse: Parser := x => if x == k then Some(na) else None;
            var s := SavedBook(SERIALISATION_VERSION, secret, [SavedAddress(k, k, 0, 0, 0, 0)],
                               seq(NEW_BUCKET_COUNT, _ => []), [[k, k]] + seq(TRIED_BUCKET_COUNT - 1, _ => []));
            var l := Load(Empty(secret), s, parse);
            l.ok && l.book.nTried == 2 && |l.book.index| == 1
  {
    var k := "1.2.3.4:14008";
    var parse: Parser := x => if x == k then Some(na) else None;
    var vs, none := [SavedAddress(k, k, 0, 0, 0, 0)], seq(NEW_BUCKET_COUNT, _ => []);
    var lists := [[k, k]] + seq(TRIED_BUCKET_COUNT - 1, _ => []);
    var l0 := Loading(Empty(secret), true);
    var l1 := LoadAddress(l0, vs[0], parse);
    assert LoadAddresses(l1, vs, 1, parse) == l1;
    assert LoadAddresses(l0, vs, 0, parse) == l1;
    assert l1.book.index.Keys == {k};
    NoneLoaded(l1, none, 0);
    var l2 := LoadTriedEntry(l1, 0, k);
    var l3 := LoadTriedEntry(l2, 0, k);
    assert LoadTriedBucket(l3, 0, lists[0], 2) == l3;
    assert LoadTriedBucket(l2, 0, lists[0], 1) == l3;
    assert LoadTriedBucket(l1, 0, lists[0], 0) == l3;
    NoneLoaded(l3, lists, 1);
    assert LoadTried(l1, lists, 0) == l3;
    assert l3.book.index.Keys == {k};
  }
}
