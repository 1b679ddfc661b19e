// The address manager's tables as plain values, the operations on them, and the
// invariant that every operation keeps.
module AddrBook {
  import opened Wrappers

  type Key = string

  const NEW_BUCKET_COUNT := 1024
  const NEW_BUCKET_SIZE := 64
  const NEW_BUCKETS_PER_GROUP := 64
  const NEW_BUCKETS_PER_ADDRESS := 8
  const TRIED_BUCKET_COUNT := 64
  const TRIED_BUCKET_SIZE := 256
  const TRIED_BUCKETS_PER_GROUP := 8
  const NUM_RETRIES := 3
  const MAX_FAILURES := 10

  // Times are seconds; the zero time is that of Go's time.Time{}.
  const MINUTE := 60
  const DAY := 86400
  const ZERO_TIME := -62135596800

  // `key` is the host:port rendering of the address and `group` its network
  // group.  Both depend only on the IP and port, which are never rewritten.
  datatype NetAddress = NetAddress(key: Key, group: string, timestamp: int, services: set<nat>)

  datatype Info = Info(na: NetAddress, src: NetAddress, attempts: int,
                       lastAttempt: int, lastSuccess: int, tried: bool, refs: int)

  datatype Book = Book(secret: string, index: map<Key, Info>, buckets: seq<set<Key>>,
                       tried: seq<seq<Key>>, nTried: int, nNew: int)

  // What the tables depend on but do not define: the 64-bit hash and routability.
  datatype Env = Env(hash: string -> nat, routable: string -> bool)

  // Eight little-endian bytes of a number below 64.
  function Word(n: nat): (r: string)
    requires n < 64
    ensures |r| == 8
  {
    [n as char] + seq(7, _ => 0 as char)
  }

  function NewBucketOf(env: Env, secret: string, group: string, srcGroup: string): (b: nat)
    ensures b < NEW_BUCKET_COUNT
  {
    var h := env.hash(secret + group + srcGroup) % NEW_BUCKETS_PER_GROUP;
    env.hash(secret + srcGroup + Word(h)) % NEW_BUCKET_COUNT
  }

  function TriedBucketOf(env: Env, secret: string, na: NetAddress): (b: nat)
    ensures b < TRIED_BUCKET_COUNT
  {
    var h := env.hash(secret + na.key) % TRIED_BUCKETS_PER_GROUP;
    env.hash(secret + na.group + Word(h)) % TRIED_BUCKET_COUNT
  }

  // The places that a hash of what begins so and ends with a number below n gives.
  ghost function Spread(env: Env, begin: string, n: nat, m: nat): (r: set<nat>)
    requires n <= 64 && m > 0
    ensures |r| <= n && forall h :: 0 <= h < n ==> env.hash(begin + Word(h)) % m in r
  {
    if n == 0 then {} else Spread(env, begin, n - 1, m) + {env.hash(begin + Word(n - 1)) % m}
  }

  // One source group can fill at most 64 of the new buckets, whatever it announces.
  lemma SourceSpread(env: Env, secret: string, group: string, srcGroup: string)
    ensures NewBucketOf(env, secret, group, srcGroup) in Spread(env, secret + srcGroup, 64, 1024)
    ensures |Spread(env, secret + srcGroup, 64, 1024)| <= 64
  {
  }

  // One group can fill at most 8 of the tried lists.
  lemma GroupSpread(env: Env, secret: string, na: NetAddress)
    ensures TriedBucketOf(env, secret, na) in Spread(env, secret + na.group, 8, 64)
    ensures |Spread(env, secret + na.group, 8, 64)| <= 8
  {
  }

  // A draw from [0, n); the bound must be positive or the generator panics.
  function Intn(raw: nat, n: int): (r: int)
    requires n > 0
    ensures 0 <= r < n
  {
    raw % n
  }

  predicate IsBad(a: Info, now: int) {
    a.lastAttempt <= now - MINUTE &&
    ( a.na.timestamp > now + 10 * MINUTE
      || a.na.timestamp < now - 30 * DAY
      || (a.lastSuccess == ZERO_TIME && a.attempts >= NUM_RETRIES)
      || (a.lastSuccess <= now - 7 * DAY && a.attempts >= MAX_FAILURES))
  }

  // What makes an address worthless: it was not tried in the last minute, and its
  // time stamp is over ten minutes ahead or over thirty days old, or it never
  // succeeded in three attempts or more, or not in the last seven days and failed
  // ten times or more.
  ghost predicate Worthless(a: Info, now: int) {
    && now - a.lastAttempt >= 60
    && ( || a.na.timestamp - now > 600 || now - a.na.timestamp > 2592000
         || (a.lastSuccess == ZERO_TIME && a.attempts >= 3)
         || (now - a.lastSuccess >= 604800 && a.attempts >= 10))
  }

  lemma BadIsWorthless(a: Info, now: int)
    ensures IsBad(a, now) <==> Worthless(a, now)
  {
  }

  // ---------------------------------------------------------------- invariant

  // The new buckets that hold k.
  ghost function Holding(buckets: seq<set<Key>>, k: Key): set<nat> {
    set i: nat | i < |buckets| && k in buckets[i]
  }

  ghost function NewKeys(index: map<Key, Info>): set<Key> {
    set k | k in index && !index[k].tried
  }

  ghost function TriedKeys(index: map<Key, Info>): set<Key> {
    set k | k in index && index[k].tried
  }

  ghost predicate Shaped(b: Book) {
    && |b.buckets| == NEW_BUCKET_COUNT
    && |b.tried| == TRIED_BUCKET_COUNT
    && (forall i :: 0 <= i < |b.buckets| ==> |b.buckets[i]| <= NEW_BUCKET_SIZE + 1)
    && (forall t :: 0 <= t < |b.tried| ==> |b.tried[t]| <= TRIED_BUCKET_SIZE)
  }

  ghost predicate FreshIndexed(b: Book) {
    forall i, k :: 0 <= i < |b.buckets| && k in b.buckets[i] ==> k in b.index && !b.index[k].tried
  }

  ghost predicate TriedIndexed(b: Book, env: Env) {
    forall t, j :: 0 <= t < |b.tried| && 0 <= j < |b.tried[t]| ==>
      && b.tried[t][j] in b.index
      && b.index[b.tried[t][j]].tried
      && TriedBucketOf(env, b.secret, b.index[b.tried[t][j]].na) == t
  }

  ghost predicate TriedOnce(b: Book) {
    forall t, i, j :: 0 <= t < |b.tried| && 0 <= i < j < |b.tried[t]| ==> b.tried[t][i] != b.tried[t][j]
  }

  // One indexed address: filed under its own key, and either tried and listed
  // where its hash says, or new and counted once per bucket that holds it.
  // Only the `pending` ones may be in no bucket.
  ghost predicate Placed(b: Book, env: Env, k: Key, pending: set<Key>)
    requires |b.tried| == TRIED_BUCKET_COUNT
    requires k in b.index
  {
    var a := b.index[k];
    && a.na.key == k && env.routable(k)
    && if a.tried then
         a.refs == 0 && k in b.tried[TriedBucketOf(env, b.secret, a.na)]
       else
         && a.refs == |Holding(b.buckets, k)| <= NEW_BUCKETS_PER_ADDRESS
         && (a.refs >= 1 || k in pending)
  }

  ghost predicate Counted(b: Book) {
    && b.nNew == |NewKeys(b.index)|
    && b.nTried == |TriedKeys(b.index)|
  }

  ghost predicate InvBut(b: Book, env: Env, pending: set<Key>) {
    && Shaped(b)
    && FreshIndexed(b)
    && TriedIndexed(b, env)
    && TriedOnce(b)
    && (forall k :: k in b.index ==> Placed(b, env, k, pending))
    && Counted(b)
  }

  ghost predicate Inv(b: Book, env: Env) {
    InvBut(b, env, {})
  }

  // --------------------------------------------------------------- operations

  function Empty(secret: string): Book {
    Book(secret, map[], seq(NEW_BUCKET_COUNT, _ => {}), seq(TRIED_BUCKET_COUNT, _ => []), 0, 0)
  }

  function Unbucketed(b: Book, i: nat, k: Key): Book
    requires i < |b.buckets| && k in b.index
  {
    b.(buckets := b.buckets[i := b.buckets[i] - {k}],
       index := b.index[k := b.index[k].(refs := b.index[k].refs - 1)])
  }

  function Deindexed(b: Book, k: Key): Book {
    b.(index := b.index - {k}, nNew := b.nNew - 1)
  }

  // Take k out of new bucket i; forget it when that was its last bucket.
  function Drop(b: Book, i: nat, k: Key): Book
    requires i < |b.buckets| && k in b.index
  {
    var c := Unbucketed(b, i, k);
    if c.index[k].refs == 0 then Deindexed(c, k) else c
  }

  function DropAll(b: Book, i: nat, gone: seq<Key>): Book
    requires i < |b.buckets|
    decreases |gone|
  {
    if |gone| == 0 then b
    else
      var c := DropAll(b, i, gone[..|gone| - 1]);
      var k := gone[|gone| - 1];
      if k in c.index && i < |c.buckets| then Drop(c, i, k) else c
  }

  function Place(b: Book, i: nat, k: Key): Book
    requires i < |b.buckets| && k in b.index
  {
    b.(buckets := b.buckets[i := b.buckets[i] + {k}],
       index := b.index[k := b.index[k].(refs := b.index[k].refs + 1)])
  }

  function Rewritten(b: Book, k: Key, a: Info): Book {
    b.(index := b.index[k := a])
  }

  // An announcement of a known address refreshes its time and service bits.
  function Refreshed(a: Info, na: NetAddress): Info {
    if na.timestamp > a.na.timestamp || !(na.services <= a.na.services)
    then a.(na := a.na.(timestamp := na.timestamp, services := a.na.services + na.services))
    else a
  }

  function Newcomer(na: NetAddress, src: NetAddress): Info {
    Info(na, src, 0, ZERO_TIME, ZERO_TIME, false, 0)
  }

  // The first half of an add: refresh or index the address, and decide whether
  // it should also enter a bucket.
  function Admit(b: Book, na: NetAddress, src: NetAddress, raw: nat): (Book, bool)
    requires na.key in b.index && !b.index[na.key].tried ==> b.index[na.key].refs >= 1
  {
    if na.key in b.index then
      var a := Refreshed(b.index[na.key], na);
      (Rewritten(b, na.key, a),
       !a.tried && a.refs != NEW_BUCKETS_PER_ADDRESS && Intn(raw, 2 * a.refs) == 0)
    else
      (Rewritten(b, na.key, Newcomer(na, src)).(nNew := b.nNew + 1), true)
  }

  // The keys that making room in bucket i throws out, in order: every bad one,
  // then the one with the oldest time stamp among the others.
  ghost predicate IsExpiry(b: Book, i: nat, now: int, gone: seq<Key>)
    requires i < |b.buckets| && FreshIndexed(b)
  {
    && (forall x :: 0 <= x < |gone| ==> gone[x] in b.buckets[i])
    && (forall x, y :: 0 <= x < y < |gone| ==> gone[x] != gone[y])
    && (forall k :: k in b.buckets[i] && Worthless(b.index[k], now) ==> k in gone)
    && (forall x :: 0 <= x < |gone| - 1 ==> Worthless(b.index[gone[x]], now))
    && ((exists k :: k in b.buckets[i] && !Worthless(b.index[k], now)) ==>
          |gone| > 0 && !Worthless(b.index[gone[|gone| - 1]], now))
    && (|gone| > 0 && !Worthless(b.index[gone[|gone| - 1]], now) ==>
          forall k :: k in b.buckets[i] && !Worthless(b.index[k], now) ==>
            b.index[gone[|gone| - 1]].na.timestamp <= b.index[k].na.timestamp)
  }

  // Put k into bucket i, making room first when the bucket is over its size.
  function Insert(c: Book, i: nat, k: Key, gone: seq<Key>): Book
    requires i < |c.buckets|
  {
    var d := if |c.buckets[i]| > NEW_BUCKET_SIZE then DropAll(c, i, gone) else c;
    if k in d.index && i < |d.buckets| then Place(d, i, k) else d
  }

  function UpdateAddress(b: Book, env: Env, na: NetAddress, src: NetAddress, raw: nat, gone: seq<Key>): Book
    requires |b.buckets| == NEW_BUCKET_COUNT
    requires na.key in b.index && !b.index[na.key].tried ==> b.index[na.key].refs >= 1
  {
    if !env.routable(na.key) then b
    else
      var (c, wanted) := Admit(b, na, src, raw);
      var i := NewBucketOf(env, b.secret, na.group, src.group);
      if !wanted || na.key in c.buckets[i] then c
      else
        Insert(c, i, na.key, gone)
  }

  function Attempted(a: Info, now: int): Info {
    a.(attempts := a.attempts + 1, lastAttempt := now)
  }

  function Attempt(b: Book, k: Key, now: int): Book {
    if k in b.index then
      Rewritten(b, k, Attempted(b.index[k], now))
    else b
  }

  function Connected(b: Book, k: Key, now: int): Book {
    if k in b.index && now > b.index[k].na.timestamp + 20 * MINUTE then
      Rewritten(b, k, b.index[k].(na := b.index[k].na.(timestamp := now)))
    else b
  }

  // Take k out of every new bucket.
  function Unlisted(buckets: seq<set<Key>>, k: Key): (r: seq<set<Key>>)
    ensures |r| == |buckets|
    ensures forall i :: 0 <= i < |r| ==> r[i] == buckets[i] - {k}
  {
    seq(|buckets|, i requires 0 <= i < |buckets| => buckets[i] - {k})
  }

  // The lowest-numbered new bucket that holds k.
  function FirstHolding(buckets: seq<set<Key>>, k: Key): (r: Option<nat>)
    ensures r.Some? ==> r.value < |buckets| && k in buckets[r.value] &&
                        forall i :: 0 <= i < r.value ==> k !in buckets[i]
    ensures r.None? ==> forall i :: 0 <= i < |buckets| ==> k !in buckets[i]
  {
    FirstHoldingFrom(buckets, k, 0)
  }

  function FirstHoldingFrom(buckets: seq<set<Key>>, k: Key, from: nat): (r: Option<nat>)
    requires from <= |buckets|
    ensures r.Some? ==> from <= r.value < |buckets| && k in buckets[r.value] &&
                        forall i :: from <= i < r.value ==> k !in buckets[i]
    ensures r.None? ==> forall i :: from <= i < |buckets| ==> k !in buckets[i]
    decreases |buckets| - from
  {
    if from == |buckets| then None
    else if k in buckets[from] then Some(from)
    else FirstHoldingFrom(buckets, k, from + 1)
  }

  // The earliest slot of a tried list among those with the oldest time stamp.
  ghost predicate IsEldest(b: Book, list: seq<Key>, e: nat)
    requires forall j :: 0 <= j < |list| ==> list[j] in b.index
  {
    && e < |list|
    && (forall j :: 0 <= j < |list| ==> b.index[list[e]].na.timestamp <= b.index[list[j]].na.timestamp)
    && (forall j :: 0 <= j < e ==> b.index[list[e]].na.timestamp < b.index[list[j]].na.timestamp)
  }

  // The slot that a full tried list gives up.
  function Eldest(b: Book, list: seq<Key>): (e: nat)
    requires |list| > 0
    requires forall j :: 0 <= j < |list| ==> list[j] in b.index
    ensures IsEldest(b, list, e)
  {
    var n := |list| - 1;
    if n == 0 then 0
    else
      var e := Eldest(b, list[..n]);
      if b.index[list[e]].na.timestamp > b.index[list[n]].na.timestamp then n else e
  }

  function Greeted(a: Info, now: int): Info {
    a.(lastSuccess := now, lastAttempt := now, attempts := 0)
  }

  // Move a new address into a tried list with room for it.
  function Promote(b: Book, t: nat, k: Key): Book
    requires t < |b.tried| && k in b.index
  {
    b.(buckets := Unlisted(b.buckets, k),
       index := b.index[k := b.index[k].(tried := true, refs := 0)],
       tried := b.tried[t := b.tried[t] + [k]],
       nNew := b.nNew - 1, nTried := b.nTried + 1)
  }

  // Move a new address into slot e of a full tried list; what was there goes
  // back to new bucket i.
  function Exchange(b: Book, t: nat, e: nat, k: Key, i: nat): Book
    requires t < |b.tried| && e < |b.tried[t]| && i < |b.buckets|
    requires k in b.index && b.tried[t][e] in b.index
  {
    var rm := b.tried[t][e];
    var buckets := Unlisted(b.buckets, k);
    b.(buckets := buckets[i := buckets[i] + {rm}],
       index := b.index[k := b.index[k].(tried := true, refs := 0)]
                       [rm := b.index[rm].(tried := false, refs := b.index[rm].refs + 1)],
       tried := b.tried[t := b.tried[t][e := k]])
  }

  // Where an address evicted from a tried list goes: its own bucket if that has
  // room, otherwise one that the promoted address has just left.
  function Refuge(b: Book, env: Env, k: Key, rm: Key, freed: nat): (i: nat)
    requires |b.buckets| == NEW_BUCKET_COUNT && rm in b.index && freed < |b.buckets|
    ensures i < |b.buckets|
  {
    var i := NewBucketOf(env, b.secret, b.index[rm].na.group, b.index[rm].src.group);
    if |b.buckets[i] - {k}| >= NEW_BUCKET_SIZE then freed else i
  }

  // Move new address k, whose first bucket is `first`, to its tried list.
  function Advance(c: Book, env: Env, k: Key, first: nat): Book
    requires |c.buckets| == NEW_BUCKET_COUNT && |c.tried| == TRIED_BUCKET_COUNT
    requires k in c.index && first < |c.buckets|
    requires forall t, j :: 0 <= t < |c.tried| && 0 <= j < |c.tried[t]| ==> c.tried[t][j] in c.index
  {
    var t := TriedBucketOf(env, c.secret, c.index[k].na);
    if |c.tried[t]| < TRIED_BUCKET_SIZE then Promote(c, t, k)
    else
      var e := Eldest(c, c.tried[t]);
      Exchange(c, t, e, k, Refuge(c, env, k, c.tried[t][e], first))
  }

  // A successful handshake with k.
  function Good(b: Book, env: Env, k: Key, now: int): Book
    requires Inv(b, env)
  {
    if k !in b.index then b
    else
      var c := Rewritten(b, k, Greeted(b.index[k], now));
      var first := FirstHolding(b.buckets, k);
      if c.index[k].tried || first.None? then c else Advance(c, env, k, first.value)
  }

  // ------------------------------------------------------------------- proofs

  // How the buckets that hold k change when bucket i becomes s.
  lemma HoldingAfterUpdate(buckets: seq<set<Key>>, i: nat, s: set<Key>, k: Key)
    requires i < |buckets|
    ensures (k in s) == (k in buckets[i]) ==> Holding(buckets[i := s], k) == Holding(buckets, k)
    ensures k in s && k !in buckets[i] ==> |Holding(buckets[i := s], k)| == |Holding(buckets, k)| + 1
    ensures k !in s && k in buckets[i] ==> |Holding(buckets[i := s], k)| == |Holding(buckets, k)| - 1
  {
    var h, h' := Holding(buckets, k), Holding(buckets[i := s], k);
    forall x: nat | x < |buckets| && x != i ensures x in h' <==> x in h {
      assert buckets[i := s][x] == buckets[x];
    }
    if (k in s) == (k in buckets[i]) {
      assert h' == h;
    } else if k in s {
      assert h' == h + {i};
    } else {
      assert h == h' + {i};
    }
  }

  lemma EmptyKeeps(secret: string, env: Env)
    ensures Inv(Empty(secret), env)
  {
    assert NewKeys(map[]) == {} && TriedKeys(map[]) == {};
  }

  // Tried lists survive a change that leaves the tried addresses as they are.
  lemma TriedFrame(b: Book, d: Book, env: Env)
    requires TriedIndexed(b, env) && TriedOnce(b)
    requires d.tried == b.tried && d.secret == b.secret
    requires forall k :: k in b.index && b.index[k].tried ==>
               && k in d.index && d.index[k].tried
               && d.index[k].na.key == b.index[k].na.key && d.index[k].na.group == b.index[k].na.group
    ensures TriedIndexed(d, env) && TriedOnce(d)
  {
  }

  lemma DropBuckets(b: Book, env: Env, pending: set<Key>, i: nat, k: Key)
    requires InvBut(b, env, pending)
    requires i < |b.buckets| && k in b.buckets[i]
    ensures FreshIndexed(Drop(b, i, k))
  {
    var d := Drop(b, i, k);
    var h := Holding(b.buckets, k);
    assert Placed(b, env, k, pending);
    if b.index[k].refs == 1 {
      assert i in h && |h - {i}| == 0;
    }
    forall x, y | 0 <= x < |d.buckets| && y in d.buckets[x] ensures y in d.index && !d.index[y].tried {
      assert y in b.buckets[x];
      assert y == k ==> x in h - {i};
    }
  }

  lemma DropPlaced(b: Book, env: Env, pending: set<Key>, i: nat, k: Key, y: Key)
    requires |b.tried| == TRIED_BUCKET_COUNT
    requires i < |b.buckets| && k in b.buckets[i] && k in b.index && k !in pending
    requires y in b.index && Placed(b, env, y, pending) && !b.index[k].tried
    requires y in Drop(b, i, k).index
    ensures Placed(Drop(b, i, k), env, y, pending)
  {
    HoldingAfterUpdate(b.buckets, i, b.buckets[i] - {k}, y);
  }

  lemma DropCounted(b: Book, env: Env, pending: set<Key>, i: nat, k: Key)
    requires InvBut(b, env, pending)
    requires i < |b.buckets| && k in b.buckets[i]
    ensures Counted(Drop(b, i, k))
  {
    var d := Drop(b, i, k);
    if b.index[k].refs == 1 {
      assert NewKeys(d.index) == NewKeys(b.index) - {k};
    } else {
      assert NewKeys(d.index) == NewKeys(b.index);
    }
    assert TriedKeys(d.index) == TriedKeys(b.index);
  }

  lemma DropKeeps(b: Book, env: Env, pending: set<Key>, i: nat, k: Key)
    requires InvBut(b, env, pending)
    requires i < |b.buckets| && k in b.buckets[i] && k !in pending
    ensures InvBut(Drop(b, i, k), env, pending)
  {
    var d := Drop(b, i, k);
    DropBuckets(b, env, pending, i, k);
    TriedFrame(b, d, env);
    DropCounted(b, env, pending, i, k);
    forall y | y in d.index ensures Placed(d, env, y, pending) {
      DropPlaced(b, env, pending, i, k, y);
    }
  }

  lemma PlacePlaced(b: Book, env: Env, i: nat, k: Key, y: Key)
    requires |b.tried| == TRIED_BUCKET_COUNT
    requires i < |b.buckets| && k in b.index && !b.index[k].tried && k !in b.buckets[i]
    requires b.index[k].refs < NEW_BUCKETS_PER_ADDRESS
    requires y in b.index && Placed(b, env, y, {k})
    ensures Placed(Place(b, i, k), env, y, {})
  {
    HoldingAfterUpdate(b.buckets, i, b.buckets[i] + {k}, y);
  }

  lemma PlaceKeeps(b: Book, env: Env, i: nat, k: Key)
    requires InvBut(b, env, {k})
    requires i < |b.buckets| && k in b.index && !b.index[k].tried
    requires k !in b.buckets[i] && |b.buckets[i]| <= NEW_BUCKET_SIZE
    requires b.index[k].refs < NEW_BUCKETS_PER_ADDRESS
    ensures Inv(Place(b, i, k), env)
  {
    var d := Place(b, i, k);
    TriedFrame(b, d, env);
    SameClassesCounted(b, d);
    forall y | y in d.index ensures Placed(d, env, y, {}) {
      PlacePlaced(b, env, i, k, y);
    }
  }

  // Expiring from bucket i touches no other bucket and no other address.
  lemma {:induction false} DropAllFrame(b: Book, i: nat, gone: seq<Key>)
    requires i < |b.buckets|
    ensures var d := DropAll(b, i, gone);
            && |d.buckets| == |b.buckets|
            && (forall x :: 0 <= x < |b.buckets| && x != i ==> d.buckets[x] == b.buckets[x])
            && d.buckets[i] <= b.buckets[i]
            && (forall k :: k in b.buckets[i] && k !in gone ==> k in d.buckets[i])
            && (forall k :: k in b.index && k !in gone ==> k in d.index && d.index[k] == b.index[k])
    decreases |gone|
  {
    if |gone| > 0 {
      DropAllFrame(b, i, gone[..|gone| - 1]);
    }
  }

  // The last of several distinct keys is still in the bucket when its turn comes.
  lemma StillThere(b: Book, i: nat, gone: seq<Key>, n: nat)
    requires i < |b.buckets| && n == |gone| - 1 && gone[n] in b.buckets[i] && gone[n] in b.index
    requires forall x, y :: 0 <= x < y < |gone| ==> gone[x] != gone[y]
    ensures var c := DropAll(b, i, gone[..n]);
            && i < |c.buckets| && gone[n] in c.buckets[i] && gone[n] in c.index
            && DropAll(b, i, gone) == Drop(c, i, gone[n])
  {
    DropAllFrame(b, i, gone[..n]);
    assert gone[n] !in gone[..n];
  }

  lemma {:induction false} DropAllKeeps(b: Book, env: Env, pending: set<Key>, i: nat, gone: seq<Key>)
    requires InvBut(b, env, pending)
    requires i < |b.buckets|
    requires forall k :: k in gone ==> k in b.buckets[i] && k !in pending
    requires forall x, y :: 0 <= x < y < |gone| ==> gone[x] != gone[y]
    ensures InvBut(DropAll(b, i, gone), env, pending)
    decreases |gone|
  {
    if |gone| > 0 {
      var n := |gone| - 1;
      var c := DropAll(b, i, gone[..n]);
      DropAllKeeps(b, env, pending, i, gone[..n]);
      var k := gone[n];
      StillThere(b, i, gone, n);
      DropKeeps(c, env, pending, i, k);
    }
  }

  lemma SameClassesCounted(b: Book, d: Book)
    requires Counted(b) && d.nNew == b.nNew && d.nTried == b.nTried
    requires d.index.Keys == b.index.Keys
    requires forall k :: k in b.index ==> d.index[k].tried == b.index[k].tried
    ensures Counted(d)
  {
    assert NewKeys(d.index) == NewKeys(b.index);
    assert TriedKeys(d.index) == TriedKeys(b.index);
  }

  // An indexed entry replaced by one of the same class, count and address.
  lemma RewriteKeeps(b: Book, env: Env, k: Key, a: Info)
    requires Inv(b, env) && k in b.index
    requires a.tried == b.index[k].tried && a.refs == b.index[k].refs
    requires a.na.key == b.index[k].na.key && a.na.group == b.index[k].na.group
    ensures Inv(Rewritten(b, k, a), env)
  {
    var d := Rewritten(b, k, a);
    assert Placed(b, env, k, {});
    TriedFrame(b, d, env);
    SameClassesCounted(b, d);
    forall y | y in d.index ensures Placed(d, env, y, {}) {
      assert Placed(b, env, y, {});
    }
  }

  lemma NewcomerCounted(b: Book, k: Key, a: Info)
    requires Counted(b) && k !in b.index && !a.tried
    ensures Counted(Rewritten(b, k, a).(nNew := b.nNew + 1))
  {
    var d := Rewritten(b, k, a);
    assert NewKeys(d.index) == NewKeys(b.index) + {k};
    assert TriedKeys(d.index) == TriedKeys(b.index);
  }

  lemma NewcomerKeeps(b: Book, env: Env, na: NetAddress, src: NetAddress)
    requires Inv(b, env) && na.key !in b.index && env.routable(na.key)
    ensures InvBut(Rewritten(b, na.key, Newcomer(na, src)).(nNew := b.nNew + 1), env, {na.key})
  {
    var k := na.key;
    var d := Rewritten(b, k, Newcomer(na, src)).(nNew := b.nNew + 1);
    TriedFrame(b, d, env);
    NewcomerCounted(b, k, Newcomer(na, src));
    assert Holding(b.buckets, k) == {};
    forall y | y in d.index ensures Placed(d, env, y, {k}) {
      if y != k { assert Placed(b, env, y, {}); }
    }
  }

  lemma PendingWider(b: Book, env: Env, pending: set<Key>)
    requires Inv(b, env)
    ensures InvBut(b, env, pending)
  {
    forall y | y in b.index ensures Placed(b, env, y, pending) {
      assert Placed(b, env, y, {});
    }
  }

  lemma AdmitIndexed(b: Book, env: Env, na: NetAddress, src: NetAddress, raw: nat)
    requires Inv(b, env)
    ensures na.key in b.index && !b.index[na.key].tried ==> b.index[na.key].refs >= 1
    ensures FreshIndexed(Admit(b, na, src, raw).0)
  {
    assert na.key in b.index ==> Placed(b, env, na.key, {});
  }

  // An add, whose expiry, if it comes to one, throws out `gone`.
  ghost predicate AddStep(b: Book, env: Env, na: NetAddress, src: NetAddress, raw: nat, now: int,
                          gone: seq<Key>, b': Book)
    requires Inv(b, env)
  {
    AdmitIndexed(b, env, na, src, raw);
    var (c, wanted) := Admit(b, na, src, raw);
    var i := NewBucketOf(env, b.secret, na.group, src.group);
    && (env.routable(na.key) && wanted && na.key !in c.buckets[i] && |c.buckets[i]| > NEW_BUCKET_SIZE ==>
          IsExpiry(c, i, now, gone))
    && b' == UpdateAddress(b, env, na, src, raw, gone)
  }

  lemma InsertKeeps(c: Book, env: Env, i: nat, k: Key, now: int, gone: seq<Key>)
    requires InvBut(c, env, {k})
    requires k in c.index && !c.index[k].tried && c.index[k].refs < NEW_BUCKETS_PER_ADDRESS
    requires i < |c.buckets| && k !in c.buckets[i]
    requires |c.buckets[i]| > NEW_BUCKET_SIZE ==> IsExpiry(c, i, now, gone)
    ensures Inv(Insert(c, i, k, gone), env)
  {
    if |c.buckets[i]| > NEW_BUCKET_SIZE {
      MakeRoom(c, env, {k}, i, now, gone);
      PlaceKeeps(DropAll(c, i, gone), env, i, k);
    } else {
      PlaceKeeps(c, env, i, k);
    }
  }

  // Adding or re-announcing an address keeps the invariant.
  lemma UpdateAddressKeeps(b: Book, env: Env, na: NetAddress, src: NetAddress, raw: nat, now: int,
                           gone: seq<Key>, b': Book)
    requires Inv(b, env) && AddStep(b, env, na, src, raw, now, gone, b')
    ensures Inv(b', env)
  {
    if env.routable(na.key) {
      var k := na.key;
      var (c, wanted) := Admit(b, na, src, raw);
      var i := NewBucketOf(env, b.secret, na.group, src.group);
      if k in b.index {
        RewriteKeeps(b, env, k, Refreshed(b.index[k], na));
        PendingWider(c, env, {k});
      } else {
        NewcomerKeeps(b, env, na, src);
      }
      if wanted && k !in c.buckets[i] {
        assert Placed(c, env, k, {k});
        InsertKeeps(c, env, i, k, now, gone);
      }
    }
  }

  // Expiry of a bucket keeps the invariant, frees a place, and leaves every
  // address outside the bucket alone.
  lemma MakeRoom(c: Book, env: Env, pending: set<Key>, i: nat, now: int, gone: seq<Key>)
    requires InvBut(c, env, pending)
    requires i < |c.buckets| && c.buckets[i] != {} && c.buckets[i] !! pending
    requires IsExpiry(c, i, now, gone)
    ensures InvBut(DropAll(c, i, gone), env, pending)
    ensures |DropAll(c, i, gone).buckets[i]| < |c.buckets[i]|
    ensures DropAll(c, i, gone).buckets[i] <= c.buckets[i]
    ensures forall k :: k in c.index && k !in c.buckets[i] ==>
              k in DropAll(c, i, gone).index && DropAll(c, i, gone).index[k] == c.index[k]
  {
    DropAllKeeps(c, env, pending, i, gone);
    DropAllFrame(c, i, gone);
    var x :| x in c.buckets[i];
    assert |gone| > 0;
    StillThere(c, i, gone, |gone| - 1);
    SubsetSmaller(DropAll(c, i, gone).buckets[i], c.buckets[i]);
  }

  lemma SubsetSmaller(s: set<Key>, t: set<Key>)
    requires s < t
    ensures |s| < |t|
  {
    assert t == s + (t - s);
    assert t - s != {};
  }

  lemma AttemptKeeps(b: Book, env: Env, k: Key, now: int)
    requires Inv(b, env)
    ensures Inv(Attempt(b, k, now), env)
  {
    if k in b.index {
      RewriteKeeps(b, env, k, Attempted(b.index[k], now));
    }
  }

  lemma ConnectedKeeps(b: Book, env: Env, k: Key, now: int)
    requires Inv(b, env)
    ensures Inv(Connected(b, k, now), env)
  {
    if k in b.index {
      RewriteKeeps(b, env, k, b.index[k].(na := b.index[k].na.(timestamp := now)));
    }
  }

  // Counting an attempt changes the attempts and the time of the last one.
  lemma AttemptRecords(b: Book, k: Key, now: int)
    ensures var d := Attempt(b, k, now);
            if k !in b.index then d == b
            else
              && d == b.(index := d.index) && OnlyChanged(b, d, k, None)
              && var a, e := b.index[k], d.index[k];
                 && e.attempts == a.attempts + 1 && e.lastAttempt == now && e.lastSuccess == a.lastSuccess
                 && e.na == a.na && e.src == a.src && e.tried == a.tried && e.refs == a.refs
  {
  }

  // A connection moves the time stamp up to now, at most every twenty minutes.
  lemma ConnectedRecords(b: Book, k: Key, now: int)
    ensures var d := Connected(b, k, now);
            if k !in b.index || now <= b.index[k].na.timestamp + 1200 then d == b
            else
              && d == b.(index := d.index) && OnlyChanged(b, d, k, None)
              && var a, e := b.index[k], d.index[k];
                 && e.na.timestamp == now && e.na.key == a.na.key && e.na.group == a.na.group
                 && e.na.services == a.na.services && e.src == a.src && e.attempts == a.attempts
                 && e.lastAttempt == a.lastAttempt && e.lastSuccess == a.lastSuccess
                 && e.tried == a.tried && e.refs == a.refs
  {
  }

  lemma UnlistedHolding(buckets: seq<set<Key>>, k: Key, y: Key)
    ensures Holding(Unlisted(buckets, k), y) == if y == k then {} else Holding(buckets, y)
  {
    var r := Unlisted(buckets, k);
    forall x: nat | x < |buckets| ensures y in r[x] <==> y != k && y in buckets[x] {
      assert r[x] == buckets[x] - {k};
    }
  }

  // The new side of a promotion: k leaves its buckets, nothing else moves.
  lemma UnlistedShaped(b: Book, k: Key)
    requires Shaped(b)
    ensures forall i :: 0 <= i < |b.buckets| ==>
              && |Unlisted(b.buckets, k)[i]| <= |b.buckets[i]|
              && (k in b.buckets[i] ==> |Unlisted(b.buckets, k)[i]| < |b.buckets[i]|)
  {
  }

  lemma PromoteTried(b: Book, env: Env, k: Key)
    requires |b.tried| == TRIED_BUCKET_COUNT && TriedIndexed(b, env) && TriedOnce(b)
    requires k in b.index && !b.index[k].tried
    ensures var d := Promote(b, TriedBucketOf(env, b.secret, b.index[k].na), k);
            TriedIndexed(d, env) && TriedOnce(d)
  {
    var t := TriedBucketOf(env, b.secret, b.index[k].na);
    var d := Promote(b, t, k);
    forall x, j | 0 <= x < |d.tried| && 0 <= j < |d.tried[x]|
      ensures d.tried[x][j] in d.index && d.index[d.tried[x][j]].tried &&
              TriedBucketOf(env, d.secret, d.index[d.tried[x][j]].na) == x
    {
      if x != t || j < |b.tried[t]| { assert d.tried[x][j] == b.tried[x][j]; }
    }
    forall x, i, j | 0 <= x < |d.tried| && 0 <= i < j < |d.tried[x]| ensures d.tried[x][i] != d.tried[x][j] {
      assert d.tried[x][i] == b.tried[x][i];
      if x != t || j < |b.tried[t]| { assert d.tried[x][j] == b.tried[x][j]; }
    }
  }

  lemma PromoteCounted(b: Book, t: nat, k: Key)
    requires Counted(b) && t < |b.tried| && k in b.index && !b.index[k].tried
    ensures Counted(Promote(b, t, k))
  {
    var d := Promote(b, t, k);
    assert NewKeys(d.index) == NewKeys(b.index) - {k};
    assert TriedKeys(d.index) == TriedKeys(b.index) + {k};
  }

  lemma PromotePlaced(b: Book, env: Env, k: Key, y: Key)
    requires |b.tried| == TRIED_BUCKET_COUNT
    requires k in b.index && Placed(b, env, k, {}) && y in b.index && Placed(b, env, y, {})
    ensures Placed(Promote(b, TriedBucketOf(env, b.secret, b.index[k].na), k), env, y, {})
  {
    UnlistedHolding(b.buckets, k, y);
    var t := TriedBucketOf(env, b.secret, b.index[k].na);
    assert k in b.tried[t] + [k];
    assert forall x :: x in b.tried[t] ==> x in b.tried[t] + [k];
  }

  lemma PromoteKeeps(b: Book, env: Env, k: Key)
    requires Inv(b, env) && k in b.index && !b.index[k].tried
    requires |b.tried[TriedBucketOf(env, b.secret, b.index[k].na)]| < TRIED_BUCKET_SIZE
    ensures Inv(Promote(b, TriedBucketOf(env, b.secret, b.index[k].na), k), env)
  {
    var t := TriedBucketOf(env, b.secret, b.index[k].na);
    var d := Promote(b, t, k);
    UnlistedShaped(b, k);
    PromoteTried(b, env, k);
    PromoteCounted(b, t, k);
    forall y | y in d.index ensures Placed(d, env, y, {}) {
      PromotePlaced(b, env, k, y);
    }
  }

  lemma ExchangeTried(b: Book, env: Env, e: nat, k: Key, i: nat)
    requires |b.tried| == TRIED_BUCKET_COUNT && TriedIndexed(b, env) && TriedOnce(b)
    requires k in b.index && !b.index[k].tried && i < |b.buckets|
    requires e < |b.tried[TriedBucketOf(env, b.secret, b.index[k].na)]|
    ensures var d := Exchange(b, TriedBucketOf(env, b.secret, b.index[k].na), e, k, i);
            TriedIndexed(d, env) && TriedOnce(d)
  {
    var t := TriedBucketOf(env, b.secret, b.index[k].na);
    var rm := b.tried[t][e];
    var d := Exchange(b, t, e, k, i);
    forall x, j | 0 <= x < |d.tried| && 0 <= j < |d.tried[x]|
      ensures d.tried[x][j] in d.index && d.index[d.tried[x][j]].tried &&
              TriedBucketOf(env, d.secret, d.index[d.tried[x][j]].na) == x
    {
      if x != t || j != e {
        assert d.tried[x][j] == b.tried[x][j] != rm;
      }
    }
    forall x, p, q | 0 <= x < |d.tried| && 0 <= p < q < |d.tried[x]| ensures d.tried[x][p] != d.tried[x][q] {
      assert b.tried[x][p] != b.tried[x][q];
    }
  }

  lemma ExchangeShaped(b: Book, t: nat, e: nat, k: Key, i: nat)
    requires Shaped(b) && t < |b.tried| && e < |b.tried[t]| && i < |b.buckets|
    requires k in b.index && b.tried[t][e] in b.index
    requires |b.buckets[i] - {k}| <= NEW_BUCKET_SIZE
    ensures Shaped(Exchange(b, t, e, k, i))
  {
    UnlistedShaped(b, k);
  }

  lemma ExchangeCounted(b: Book, t: nat, e: nat, k: Key, i: nat)
    requires Counted(b) && t < |b.tried| && e < |b.tried[t]| && i < |b.buckets|
    requires k in b.index && !b.index[k].tried
    requires b.tried[t][e] in b.index && b.index[b.tried[t][e]].tried
    ensures Counted(Exchange(b, t, e, k, i))
  {
    var rm := b.tried[t][e];
    var d := Exchange(b, t, e, k, i);
    assert NewKeys(d.index) == NewKeys(b.index) - {k} + {rm};
    assert TriedKeys(d.index) == TriedKeys(b.index) - {rm} + {k};
  }

  // Where each address stands after an exchange.
  lemma ExchangePlaced(b: Book, env: Env, e: nat, k: Key, i: nat, y: Key)
    requires Inv(b, env)
    requires k in b.index && !b.index[k].tried && i < |b.buckets| && y in b.index
    requires e < |b.tried[TriedBucketOf(env, b.secret, b.index[k].na)]|
    ensures Placed(Exchange(b, TriedBucketOf(env, b.secret, b.index[k].na), e, k, i), env, y, {})
  {
    var t := TriedBucketOf(env, b.secret, b.index[k].na);
    var rm := b.tried[t][e];
    var d := Exchange(b, t, e, k, i);
    var mid := Unlisted(b.buckets, k);
    assert Placed(b, env, y, {});
    UnlistedHolding(b.buckets, k, y);
    HoldingAfterUpdate(mid, i, mid[i] + {rm}, y);
    if y == k {
      assert d.tried[t][e] == k;
    } else if y == rm {
      assert Holding(b.buckets, rm) == {};
    } else if b.index[y].tried {
      var u := TriedBucketOf(env, b.secret, b.index[y].na);
      var j :| 0 <= j < |b.tried[u]| && b.tried[u][j] == y;
      assert d.tried[u][j] == y;
    }
  }

  lemma ExchangeKeeps(b: Book, env: Env, e: nat, k: Key, i: nat)
    requires Inv(b, env)
    requires k in b.index && !b.index[k].tried && i < |b.buckets|
    requires e < |b.tried[TriedBucketOf(env, b.secret, b.index[k].na)]|
    requires |b.buckets[i] - {k}| <= NEW_BUCKET_SIZE
    ensures Inv(Exchange(b, TriedBucketOf(env, b.secret, b.index[k].na), e, k, i), env)
  {
    var t := TriedBucketOf(env, b.secret, b.index[k].na);
    var d := Exchange(b, t, e, k, i);
    ExchangeShaped(b, t, e, k, i);
    ExchangeTried(b, env, e, k, i);
    ExchangeCounted(b, t, e, k, i);
    ExchangeBuckets(b, env, e, k, i);
    forall y | y in d.index ensures Placed(d, env, y, {}) {
      ExchangePlaced(b, env, e, k, i, y);
    }
  }

  lemma ExchangeBuckets(b: Book, env: Env, e: nat, k: Key, i: nat)
    requires |b.tried| == TRIED_BUCKET_COUNT && FreshIndexed(b) && TriedIndexed(b, env)
    requires k in b.index && !b.index[k].tried && i < |b.buckets|
    requires e < |b.tried[TriedBucketOf(env, b.secret, b.index[k].na)]|
    ensures FreshIndexed(Exchange(b, TriedBucketOf(env, b.secret, b.index[k].na), e, k, i))
  {
    var t := TriedBucketOf(env, b.secret, b.index[k].na);
    var rm := b.tried[t][e];
    var d := Exchange(b, t, e, k, i);
    forall x, y | 0 <= x < |d.buckets| && y in d.buckets[x] ensures y in d.index && !d.index[y].tried {
      if y != rm { assert y in b.buckets[x]; }
    }
  }

  lemma AdvanceKeeps(c: Book, env: Env, k: Key, first: nat)
    requires Inv(c, env) && k in c.index && !c.index[k].tried
    requires first < |c.buckets| && k in c.buckets[first]
    ensures Inv(Advance(c, env, k, first), env)
  {
    var t := TriedBucketOf(env, c.secret, c.index[k].na);
    if |c.tried[t]| < TRIED_BUCKET_SIZE {
      PromoteKeeps(c, env, k);
    } else {
      var e := Eldest(c, c.tried[t]);
      ExchangeKeeps(c, env, e, k, Refuge(c, env, k, c.tried[t][e], first));
    }
  }

  // Promoting an address, with or without an eviction, keeps the invariant.
  lemma GoodKeeps(b: Book, env: Env, k: Key, now: int)
    requires Inv(b, env)
    ensures Inv(Good(b, env, k, now), env)
  {
    if k in b.index {
      var c := Rewritten(b, k, Greeted(b.index[k], now));
      RewriteKeeps(b, env, k, Greeted(b.index[k], now));
      var first := FirstHolding(b.buckets, k);
      if !c.index[k].tried && first.Some? {
        AdvanceKeeps(c, env, k, first.value);
      }
    }
  }

  // -------------------------------------------------------------- whole runs

  datatype Op =
    | Add(na: NetAddress, src: NetAddress, raw: nat, now: int)
    | Try(key: Key, at: int)
    | Connect(key: Key, at: int)
    | Greet(key: Key, at: int)

  // One call on the manager.  Only the order in which a bucket is scanned, and
  // with it which of several equally old addresses expires, is left open.
  ghost predicate Step(b: Book, env: Env, op: Op, b': Book)
    requires Inv(b, env)
  {
    match op
    case Add(na, src, raw, now) =>
      (exists gone :: AddStep(b, env, na, src, raw, now, gone, b'))
    case Try(k, at) => b' == Attempt(b, k, at)
    case Connect(k, at) => b' == Connected(b, k, at)
    case Greet(k, at) => b' == Good(b, env, k, at)
  }

  lemma StepKeeps(b: Book, env: Env, op: Op, b': Book)
    requires Inv(b, env) && Step(b, env, op, b')
    ensures Inv(b', env)
  {
    match op
    case Add(na, src, raw, now) =>
      var gone :| AddStep(b, env, na, src, raw, now, gone, b');
      UpdateAddressKeeps(b, env, na, src, raw, now, gone, b');
    case Try(k, at) => AttemptKeeps(b, env, k, at);
    case Connect(k, at) => ConnectedKeeps(b, env, k, at);
    case Greet(k, at) => GoodKeeps(b, env, k, at);
  }

  ghost predicate FollowsAt(env: Env, ops: seq<Op>, states: seq<Book>, n: nat) {
    n < |ops| && n + 1 < |states| && (Inv(states[n], env) ==> Step(states[n], env, ops[n], states[n + 1]))
  }

  // states[0] is a fresh manager and each state follows from the one before.
  ghost predicate IsRun(env: Env, secret: string, ops: seq<Op>, states: seq<Book>) {
    && |states| == |ops| + 1
    && states[0] == Empty(secret)
    && forall n :: 0 <= n < |ops| ==> FollowsAt(env, ops, states, n)
  }

  // Every state that any sequence of calls on a fresh manager reaches.
  lemma {:induction false} RunKeeps(env: Env, secret: string, ops: seq<Op>, states: seq<Book>, n: nat)
    requires IsRun(env, secret, ops, states) && n <= |ops|
    ensures Inv(states[n], env)
  {
    if n == 0 {
      EmptyKeeps(secret, env);
    } else {
      RunKeeps(env, secret, ops, states, n - 1);
      assert FollowsAt(env, ops, states, n - 1);
      StepKeeps(states[n - 1], env, ops[n - 1], states[n]);
    }
  }

  // ------------------------------------------------- what the invariant gives

  // The two counters add up to the index, and a class that is counted as
  // non-empty has a non-empty bucket to draw from.
  lemma ClassesPartition(b: Book, env: Env)
    requires Inv(b, env)
    ensures b.nNew + b.nTried == |b.index|
    ensures b.nNew > 0 ==> exists i :: 0 <= i < |b.buckets| && b.buckets[i] != {}
    ensures b.nTried > 0 ==> exists t :: 0 <= t < |b.tried| && b.tried[t] != []
  {
    assert b.index.Keys == NewKeys(b.index) + TriedKeys(b.index);
    assert NewKeys(b.index) !! TriedKeys(b.index);
    if b.nNew > 0 {
      var k :| k in NewKeys(b.index);
      assert Placed(b, env, k, {});
      var i :| i in Holding(b.buckets, k);
      assert b.buckets[i] != {};
    }
    if b.nTried > 0 {
      var k :| k in TriedKeys(b.index);
      assert Placed(b, env, k, {});
      assert b.tried[TriedBucketOf(env, b.secret, b.index[k].na)] != [];
    }
  }

  // A tried address occupies exactly one slot of exactly one list.
  lemma OneTriedSlot(b: Book, env: Env, k: Key)
    requires Inv(b, env) && k in b.index && b.index[k].tried
    ensures exists t, j :: 0 <= t < |b.tried| && 0 <= j < |b.tried[t]| && b.tried[t][j] == k
    ensures forall t, j, u, l | 0 <= t < |b.tried| && 0 <= j < |b.tried[t]| && b.tried[t][j] == k &&
                                0 <= u < |b.tried| && 0 <= l < |b.tried[u]| && b.tried[u][l] == k ::
              t == u && j == l
  {
    assert Placed(b, env, k, {});
  }

  lemma NewIsHeld(b: Book, env: Env, k: Key)
    requires Inv(b, env) && k in b.index && !b.index[k].tried
    ensures b.index[k].refs >= 1 && FirstHolding(b.buckets, k).Some?
  {
    assert Placed(b, env, k, {});
    var i :| i in Holding(b.buckets, k);
  }

  // The entry of an address after a handshake.
  ghost predicate Welcomed(a: Info, now: int, d: Info) {
    && d.lastSuccess == now && d.lastAttempt == now && d.attempts == 0
    && d.na == a.na && d.src == a.src && d.tried && d.refs == 0
  }

  // The entry of an address that lost its place in a tried list.
  ghost predicate SetBack(a: Info, d: Info) {
    && !d.tried && d.refs == 1 && d.na == a.na && d.src == a.src
    && d.attempts == a.attempts && d.lastAttempt == a.lastAttempt && d.lastSuccess == a.lastSuccess
  }

  // Only k and, if there is one, another entry differ.
  ghost predicate OnlyChanged(b: Book, d: Book, k: Key, rm: Option<Key>) {
    d.index.Keys == b.index.Keys && forall y :: y in b.index && y != k && Some(y) != rm ==> d.index[y] == b.index[y]
  }

  // What becomes of the tables when k moves from the new buckets to tried list t:
  // it is put at the end of the list ...
  ghost predicate PutLast(b: Book, t: nat, k: Key, d: Book) {
    && t < |b.tried| && OnlyChanged(b, d, k, None) && d.secret == b.secret
    && d.tried == b.tried[t := b.tried[t] + [k]] && d.nNew == b.nNew - 1 && d.nTried == b.nTried + 1
    && |d.buckets| == |b.buckets| && forall j :: 0 <= j < |b.buckets| ==> d.buckets[j] == b.buckets[j] - {k}
  }

  // ... or takes the place of the eldest, which goes to new bucket i.
  ghost predicate PutFor(b: Book, t: nat, e: nat, k: Key, i: nat, d: Book) {
    && t < |b.tried| && e < |b.tried[t]| && d.secret == b.secret
    && (forall j :: 0 <= j < |b.tried[t]| ==> b.tried[t][j] in b.index) && IsEldest(b, b.tried[t], e)
    && var rm := b.tried[t][e];
       && OnlyChanged(b, d, k, Some(rm)) && rm in d.index && SetBack(b.index[rm], d.index[rm])
       && d.tried == b.tried[t := b.tried[t][e := k]] && d.nNew == b.nNew && d.nTried == b.nTried
       && |d.buckets| == |b.buckets|
       && (forall j :: 0 <= j < |b.buckets| ==> d.buckets[j] == b.buckets[j] - {k} + if j == i then {rm} else {})
       && Holding(d.buckets, rm) == {i}
  }

  // An evicted address goes to the bucket that its hash gives if that has fewer
  // than 64 others, and otherwise to the first that held the promoted one.
  ghost predicate IsRefuge(b: Book, env: Env, k: Key, rm: Key, i: nat) {
    && |b.buckets| == NEW_BUCKET_COUNT && rm in b.index && i < |b.buckets|
    && var home := NewBucketOf(env, b.secret, b.index[rm].na.group, b.index[rm].src.group);
       if |b.buckets[home] - {k}| < 64 then i == home
       else k in b.buckets[i] && forall j :: 0 <= j < i ==> k !in b.buckets[j]
  }

  // A handshake with a known address always ends with it tried, with no failed
  // attempts; the case that finds it in no bucket never arises.  No address is
  // forgotten, and the only other entry to change is the eldest of a full list,
  // which becomes new again.
  lemma GoodPromotes(b: Book, env: Env, k: Key, now: int) returns (e: nat, i: nat)
    requires Inv(b, env) && k in b.index
    ensures var d := Good(b, env, k, now); k in d.index && Welcomed(b.index[k], now, d.index[k])
    ensures var d, t := Good(b, env, k, now), TriedBucketOf(env, b.secret, b.index[k].na);
            if b.index[k].tried then OnlyChanged(b, d, k, None) && d == b.(index := d.index)
            else if |b.tried[t]| < 256 then PutLast(b, t, k, d)
            else PutFor(b, t, e, k, i, d) && IsRefuge(b, env, k, b.tried[t][e], i)
  {
    e, i := 0, 0;
    assert Placed(b, env, k, {});
    var c := Rewritten(b, k, Greeted(b.index[k], now));
    if !b.index[k].tried {
      NewIsHeld(b, env, k);
      var t := TriedBucketOf(env, b.secret, b.index[k].na);
      if |c.tried[t]| >= TRIED_BUCKET_SIZE {
        SameEldest(b, c, c.tried[t]);
        e := Eldest(b, b.tried[t]);
        i := Refuge(c, env, k, c.tried[t][e], FirstHolding(b.buckets, k).value);
        assert Good(b, env, k, now) == Exchange(c, t, e, k, i);
        assert Placed(b, env, b.tried[t][e], {});
        ExchangeMeans(b, c, env, t, e, k, i, now);
      }
    }
  }

  lemma ExchangeMeans(b: Book, c: Book, env: Env, t: nat, e: nat, k: Key, i: nat, now: int)
    requires k in b.index && c == Rewritten(b, k, Greeted(b.index[k], now))
    requires t < |b.tried| && i < |b.buckets|
    requires (forall j :: 0 <= j < |b.tried[t]| ==> b.tried[t][j] in b.index) && IsEldest(b, b.tried[t], e)
    requires var rm := b.tried[t][e]; rm != k && b.index[rm].refs == 0 && Holding(b.buckets, rm) == {}
    ensures var d := Exchange(c, t, e, k, i);
            PutFor(b, t, e, k, i, d) && k in d.index && Welcomed(b.index[k], now, d.index[k])
  {
    var d, rm := Exchange(c, t, e, k, i), b.tried[t][e];
    forall j | 0 <= j < |b.buckets|
      ensures d.buckets[j] == b.buckets[j] - {k} + if j == i then {rm} else {}
      ensures rm in d.buckets[j] <==> j == i
    {
      assert rm in b.buckets[j] ==> j in Holding(b.buckets, rm);
    }
    assert Holding(d.buckets, rm) == {i};
  }

  lemma {:induction false} SameEldest(b: Book, c: Book, list: seq<Key>)
    requires |list| > 0
    requires forall j :: 0 <= j < |list| ==>
               list[j] in b.index && list[j] in c.index && b.index[list[j]] == c.index[list[j]]
    ensures Eldest(b, list) == Eldest(c, list)
  {
    if |list| > 1 {
      SameEldest(b, c, list[..|list| - 1]);
    }
  }

  // Expiry forgets an address only when the bucket was its last.
  lemma {:induction false} DropAllForgets(b: Book, i: nat, gone: seq<Key>, k: Key)
    requires i < |b.buckets| && k in b.index && k !in DropAll(b, i, gone).index
    requires forall x, y :: 0 <= x < y < |gone| ==> gone[x] != gone[y]
    ensures k in gone && b.index[k].refs == 1
    decreases |gone|
  {
    var n := |gone| - 1;
    assert n >= 0;
    if k !in DropAll(b, i, gone[..n]).index {
      DropAllForgets(b, i, gone[..n], k);
    } else {
      DropAllFrame(b, i, gone[..n]);
      assert k == gone[n] && k !in gone[..n];
    }
  }

  lemma {:induction false} DropAllAddsNone(b: Book, i: nat, gone: seq<Key>)
    requires i < |b.buckets|
    ensures DropAll(b, i, gone).index.Keys <= b.index.Keys
    decreases |gone|
  {
    if |gone| > 0 {
      DropAllAddsNone(b, i, gone[..|gone| - 1]);
    }
  }

  // Another entry: if it was thrown out of the bucket it is forgotten or has one
  // reference less, and otherwise it stays.
  ghost predicate OtherAfter(a: Info, out: bool, d: Book, y: Key) {
    if !out then y in d.index && d.index[y] == a
    else if a.refs == 1 then y !in d.index
    else y in d.index && d.index[y] == a.(refs := a.refs - 1)
  }

  // These keys are out of bucket i, and out of the index if no other bucket held
  // them, and nothing else is.
  ghost predicate ExpiredTo(b: Book, i: nat, gone: seq<Key>, d: Book) {
    && d.tried == b.tried && d.secret == b.secret && d.nTried == b.nTried && |d.buckets| == |b.buckets|
    && (forall j :: 0 <= j < |b.buckets| && j != i ==> d.buckets[j] == b.buckets[j])
    && (i < |b.buckets| ==> forall y :: y in d.buckets[i] <==> y in b.buckets[i] && y !in gone)
    && (forall y :: y in b.index ==> OtherAfter(b.index[y], y in gone, d, y))
  }

  lemma ExpiredNext(b: Book, i: nat, gone: seq<Key>, c: Book, k: Key)
    requires ExpiredTo(b, i, gone, c) && i < |b.buckets| && k in b.index && k !in gone
    ensures k in c.index && i < |c.buckets| && ExpiredTo(b, i, gone + [k], Drop(c, i, k))
  {
    assert OtherAfter(b.index[k], false, c, k);
    var d := Drop(c, i, k);
    forall y | y in b.index ensures OtherAfter(b.index[y], y in gone + [k], d, y) {
      assert OtherAfter(b.index[y], y in gone, c, y);
    }
  }

  lemma {:induction false} DropAllExact(b: Book, i: nat, gone: seq<Key>)
    requires i < |b.buckets| && forall k :: k in gone ==> k in b.index
    requires forall x, y :: 0 <= x < y < |gone| ==> gone[x] != gone[y]
    ensures ExpiredTo(b, i, gone, DropAll(b, i, gone))
    decreases |gone|
  {
    if |gone| > 0 {
      var n := |gone| - 1;
      DropAllExact(b, i, gone[..n]);
      assert gone[n] !in gone[..n] && gone == gone[..n] + [gone[n]];
      ExpiredNext(b, i, gone[..n], DropAll(b, i, gone[..n]), gone[n]);
    }
  }

  // The entry of a known address after it was announced again: a later time stamp
  // or a new service refreshes both.
  ghost predicate Announced(a: Info, na: NetAddress, e: Info) {
    && e.na.key == a.na.key && e.na.group == a.na.group && e.src == a.src && e.attempts == a.attempts
    && e.lastAttempt == a.lastAttempt && e.lastSuccess == a.lastSuccess && e.tried == a.tried
    && if na.timestamp > a.na.timestamp || exists s :: s in na.services && s !in a.na.services then
         e.na.timestamp == na.timestamp && forall s :: s in e.na.services <==> s in a.na.services || s in na.services
       else e.na == a.na
  }

  // A known new address enters a further bucket, unless it is in eight, with a
  // chance of one in twice the number it is in.
  ghost predicate Enters(b: Book, k: Key, i: nat, raw: nat) {
    && i < |b.buckets| && k !in b.buckets[i]
    && (k in b.index ==> var n := b.index[k].refs; !b.index[k].tried && n > 0 && n != 8 && raw % (2 * n) == 0)
  }

  // What an add makes of the address itself.
  ghost predicate Recorded(b: Book, na: NetAddress, src: NetAddress, enters: bool, d: Book) {
    && na.key in d.index
    && var e := d.index[na.key];
       if na.key in b.index then
         Announced(b.index[na.key], na, e) && e.refs == b.index[na.key].refs + if enters then 1 else 0
       else
         && e.na == na && e.src == src && e.attempts == 0 && e.lastAttempt == ZERO_TIME && e.lastSuccess == ZERO_TIME
         && !e.tried && e.refs == 1
  }

  // What it makes of the rest: nothing, unless the address enters bucket i, which
  // makes room first when it is over its size of 64.
  ghost predicate RestAfterAdd(b: Book, i: nat, k: Key, enters: bool, gone: seq<Key>, d: Book) {
    && i < |b.buckets| && d.tried == b.tried && d.secret == b.secret && d.nTried == b.nTried
    && |d.buckets| == |b.buckets|
    && var out := if enters && |b.buckets[i]| > 64 then gone else [];
       && (forall j :: 0 <= j < |b.buckets| && j != i ==> d.buckets[j] == b.buckets[j])
       && (forall y :: y in d.buckets[i] <==> (y == k && enters) || (y in b.buckets[i] && y !in out))
       && (forall y :: y in b.index && y != k ==> OtherAfter(b.index[y], y in out, d, y))
  }

  // An add writes nothing for an address that is not routable; otherwise the address
  // is entered or refreshed, and put into its bucket if it enters that.
  lemma UpdateAddressRecords(b: Book, env: Env, na: NetAddress, src: NetAddress, raw: nat, now: int,
                             gone: seq<Key>, d: Book)
    requires Inv(b, env) && AddStep(b, env, na, src, raw, now, gone, d)
    ensures !env.routable(na.key) ==> d == b
    ensures env.routable(na.key) ==>
              var i := NewBucketOf(env, b.secret, na.group, src.group);
              Recorded(b, na, src, Enters(b, na.key, i, raw), d) &&
              RestAfterAdd(b, i, na.key, Enters(b, na.key, i, raw), gone, d)
  {
    if env.routable(na.key) {
      AdmitIndexed(b, env, na, src, raw);
      var k, i := na.key, NewBucketOf(env, b.secret, na.group, src.group);
      assert k in b.index ==> Placed(b, env, k, {});
      assert k !in b.index ==> k !in b.buckets[i];
      AdmitMeans(b, na, src, raw, i);
      var (c, wanted) := Admit(b, na, src, raw);
      if wanted && k !in c.buckets[i] {
        InsertMeans(c, i, k, now, gone);
        EnteredMeans(b, na, src, i, c, gone, d);
      } else {
        RefreshedOnly(b, na, src, i, gone, c);
      }
    }
  }

  lemma RefreshedOnly(b: Book, na: NetAddress, src: NetAddress, i: nat, gone: seq<Key>, c: Book)
    requires i < |b.buckets| && c.buckets == b.buckets && c.tried == b.tried && c.secret == b.secret
    requires c.nTried == b.nTried && na.key in c.index && na.key in b.index
    requires forall y :: y in b.index && y != na.key ==> y in c.index && c.index[y] == b.index[y]
    requires Announced(b.index[na.key], na, c.index[na.key]) && c.index[na.key].refs == b.index[na.key].refs
    ensures Recorded(b, na, src, false, c) && RestAfterAdd(b, i, na.key, false, gone, c)
  {
  }

  // The first half of an add.
  lemma AdmitMeans(b: Book, na: NetAddress, src: NetAddress, raw: nat, i: nat)
    requires na.key in b.index && !b.index[na.key].tried ==> b.index[na.key].refs >= 1
    requires i < |b.buckets| && (na.key !in b.index ==> na.key !in b.buckets[i])
    ensures var (c, wanted) := Admit(b, na, src, raw);
            && (wanted && na.key !in c.buckets[i] <==> Enters(b, na.key, i, raw))
            && c.buckets == b.buckets && c.tried == b.tried && c.secret == b.secret && c.nTried == b.nTried
            && (forall y :: y in b.index && y != na.key ==> y in c.index && c.index[y] == b.index[y])
            && na.key in c.index
            && (na.key in b.index ==>
                  Announced(b.index[na.key], na, c.index[na.key]) && c.index[na.key].refs == b.index[na.key].refs)
            && (na.key !in b.index ==> c.index[na.key] == Info(na, src, 0, ZERO_TIME, ZERO_TIME, false, 0))
  {
    if na.key in b.index {
      RefreshedMeans(b.index[na.key], na);
    }
  }

  lemma EnteredMeans(b: Book, na: NetAddress, src: NetAddress, i: nat, c: Book, gone: seq<Key>, d: Book)
    requires i < |b.buckets| && c.buckets == b.buckets && c.tried == b.tried && c.secret == b.secret
    requires c.nTried == b.nTried && na.key in c.index
    requires forall y :: y in b.index && y != na.key ==> y in c.index && c.index[y] == b.index[y]
    requires na.key in b.index ==>
               Announced(b.index[na.key], na, c.index[na.key]) && c.index[na.key].refs == b.index[na.key].refs
    requires na.key !in b.index ==> c.index[na.key] == Info(na, src, 0, ZERO_TIME, ZERO_TIME, false, 0)
    requires Entered(c, i, na.key, if |c.buckets[i]| > NEW_BUCKET_SIZE then gone else [], d)
    ensures Recorded(b, na, src, true, d) && RestAfterAdd(b, i, na.key, true, gone, d)
  {
  }

  lemma RefreshedMeans(a: Info, na: NetAddress)
    ensures Announced(a, na, Refreshed(a, na)) && Refreshed(a, na).refs == a.refs
  {
  }

  // What entering a bucket does.
  ghost predicate Entered(c: Book, i: nat, k: Key, gone: seq<Key>, d: Book) {
    && i < |c.buckets| && k in c.index
    && k in d.index && d.index[k] == c.index[k].(refs := c.index[k].refs + 1)
    && d.tried == c.tried && d.secret == c.secret && d.nTried == c.nTried && |d.buckets| == |c.buckets|
    && (forall j :: 0 <= j < |c.buckets| && j != i ==> d.buckets[j] == c.buckets[j])
    && (forall y :: y in d.buckets[i] <==> y == k || (y in c.buckets[i] && y !in gone))
    && (forall y :: y in c.index && y != k ==> OtherAfter(c.index[y], y in gone, d, y))
  }

  lemma PlaceEnters(c: Book, i: nat, k: Key, gone: seq<Key>, e: Book)
    requires ExpiredTo(c, i, gone, e) && i < |c.buckets| && k in c.index && k !in gone
    ensures k in e.index && i < |e.buckets| && Entered(c, i, k, gone, Place(e, i, k))
  {
    assert OtherAfter(c.index[k], false, e, k);
    var d := Place(e, i, k);
    forall y | y in c.index && y != k ensures OtherAfter(c.index[y], y in gone, d, y) {
      assert OtherAfter(c.index[y], y in gone, e, y);
    }
  }

  lemma InsertMeans(c: Book, i: nat, k: Key, now: int, gone: seq<Key>)
    requires FreshIndexed(c) && i < |c.buckets| && k in c.index && k !in c.buckets[i]
    requires |c.buckets[i]| > NEW_BUCKET_SIZE ==> IsExpiry(c, i, now, gone)
    ensures Entered(c, i, k, if |c.buckets[i]| > NEW_BUCKET_SIZE then gone else [], Insert(c, i, k, gone))
  {
    if |c.buckets[i]| > NEW_BUCKET_SIZE {
      DropAllExact(c, i, gone);
      PlaceEnters(c, i, k, gone, DropAll(c, i, gone));
    } else {
      PlaceEnters(c, i, k, [], c);
    }
  }

  // An add of a routable address leaves it known; only addresses whose last
  // bucket was the one made room in are forgotten, and no other one appears.
  lemma UpdateAddressScope(b: Book, env: Env, na: NetAddress, src: NetAddress, raw: nat, now: int,
                           gone: seq<Key>, d: Book)
    requires Inv(b, env) && AddStep(b, env, na, src, raw, now, gone, d)
    ensures env.routable(na.key) ==> na.key in d.index
    ensures forall k :: k in d.index && k !in b.index ==> k == na.key && env.routable(k)
    ensures var i := NewBucketOf(env, b.secret, na.group, src.group);
            forall k :: k in b.index && k !in d.index ==>
              k in gone && |b.buckets[i]| > NEW_BUCKET_SIZE && Holding(b.buckets, k) == {i}
  {
    AdmitIndexed(b, env, na, src, raw);
    var (c, wanted) := Admit(b, na, src, raw);
    var i := NewBucketOf(env, b.secret, na.group, src.group);
    if env.routable(na.key) && wanted && na.key !in c.buckets[i] {
      var gone' := if |c.buckets[i]| > NEW_BUCKET_SIZE then gone else [];
      InsertScope(c, i, na.key, gone');
      assert Insert(c, i, na.key, gone') == Insert(c, i, na.key, gone);
      forall k | k in b.index && k !in Insert(c, i, na.key, gone).index
        ensures Holding(b.buckets, k) == {i}
      {
        assert Placed(b, env, k, {});
        OnlyHolding(b.buckets, i, k);
      }
    }
  }

  lemma InsertScope(c: Book, i: nat, k: Key, gone: seq<Key>)
    requires i < |c.buckets| && k in c.index && k !in gone
    requires forall x, y :: 0 <= x < y < |gone| ==> gone[x] != gone[y]
    ensures var d := Insert(c, i, k, gone);
            && k in d.index && d.index.Keys <= c.index.Keys
            && (forall y :: y in c.index && y !in d.index ==>
                  y in gone && |c.buckets[i]| > NEW_BUCKET_SIZE && c.index[y].refs == 1)
  {
    if |c.buckets[i]| > NEW_BUCKET_SIZE {
      DropAllAddsNone(c, i, gone);
      DropAllFrame(c, i, gone);
      forall y | y in c.index && y !in DropAll(c, i, gone).index ensures y in gone && c.index[y].refs == 1 {
        DropAllForgets(c, i, gone, y);
      }
    }
  }

  lemma OnlyHolding(buckets: seq<set<Key>>, i: nat, k: Key)
    requires i < |buckets| && k in buckets[i] && |Holding(buckets, k)| == 1
    ensures Holding(buckets, k) == {i}
  {
    var h := Holding(buckets, k);
    assert i in h;
    assert |h - {i}| == 0;
  }

  // -------------------------------------------------- a bucket over its size

  // A bucket that is not over its size takes one more address and loses none.
  lemma InsertAdds(c: Book, i: nat, k: Key, gone: seq<Key>)
    requires i < |c.buckets| && k in c.index && k !in c.buckets[i] && |c.buckets[i]| <= NEW_BUCKET_SIZE
    ensures Insert(c, i, k, gone).buckets == c.buckets[i := c.buckets[i] + {k}]
    ensures |Insert(c, i, k, gone).buckets[i]| == |c.buckets[i]| + 1
  {
  }

  function Digit(n: nat): char
    requires n < 10
  {
    '0' + n as char
  }

  // The addresses 1.2.3.0, 1.2.3.1 and so on, which all are in one group.
  function Nth(n: nat): NetAddress
    requires n < 100
  {
    NetAddress("1.2.3." + (if n < 10 then [Digit(n)] else [Digit(n / 10), Digit(n % 10)]) + ":14008", "1.2", 0, {})
  }

  lemma NthDistinct(m: nat, n: nat)
    requires m < n < 100
    ensures Nth(m).key != Nth(n).key
  {
    var a, b := Nth(m).key, Nth(n).key;
    assert |a| == (if m < 10 then 13 else 14) && |b| == if n < 10 then 13 else 14;
    if n < 10 {
      assert a[6] == Digit(m) && b[6] == Digit(n);
    } else if m >= 10 {
      assert a[6] == Digit(m / 10) && b[6] == Digit(n / 10) && a[7] == Digit(m % 10) && b[7] == Digit(n % 10);
    }
  }

  ghost function Names(n: nat): set<Key>
    requires n <= 100
  {
    set x: nat | x < n :: Nth(x).key
  }

  lemma {:induction false} NamesSize(n: nat)
    requires n < 100
    ensures |Names(n)| == n && Nth(n).key !in Names(n)
  {
    forall x: nat | x < n ensures Nth(x).key != Nth(n).key {
      NthDistinct(x, n);
    }
    if n > 0 {
      NamesSize(n - 1);
      NamesNext(n - 1);
    }
  }

  lemma NamesNext(n: nat)
    requires n < 100
    ensures Names(n + 1) == Names(n) + {Nth(n).key}
  {
  }

  // The bucket that they all belong to.
  function BucketOfThese(env: Env, secret: string): (i: nat)
    ensures i < NEW_BUCKET_COUNT
  {
    NewBucketOf(env, secret, "1.2", "1.2")
  }

  // The first n of them and nothing else, in their bucket.
  ghost predicate Filled(b: Book, env: Env, secret: string, n: nat)
    requires n <= 100
  {
    && |b.buckets| == NEW_BUCKET_COUNT && b.secret == secret
    && b.index.Keys == Names(n) == b.buckets[BucketOfThese(env, secret)]
  }

  ghost predicate AllRoutable(env: Env) {
    forall n: nat :: n < 100 ==> env.routable(Nth(n).key)
  }

  // Adding an unknown address to a bucket that is not over its size.
  lemma AddUnknown(b: Book, env: Env, na: NetAddress, src: NetAddress, raw: nat)
    requires |b.buckets| == NEW_BUCKET_COUNT && na.key !in b.index && env.routable(na.key)
    requires var i := NewBucketOf(env, b.secret, na.group, src.group);
             na.key !in b.buckets[i] && |b.buckets[i]| <= NEW_BUCKET_SIZE
    ensures var i := NewBucketOf(env, b.secret, na.group, src.group);
            var d := UpdateAddress(b, env, na, src, raw, []);
            d.index.Keys == b.index.Keys + {na.key} && d.buckets == b.buckets[i := b.buckets[i] + {na.key}]
  {
    var c := Admit(b, na, src, raw).0;
    InsertAdds(c, NewBucketOf(env, b.secret, na.group, src.group), na.key, []);
  }

  lemma FillAdd(b: Book, env: Env, secret: string, n: nat, na: NetAddress)
    requires n <= NEW_BUCKET_SIZE && Filled(b, env, secret, n) && na == Nth(n) && env.routable(na.key)
    ensures na.key !in b.index && |Admit(b, na, na, 0).0.buckets[BucketOfThese(env, secret)]| <= NEW_BUCKET_SIZE
    ensures Filled(UpdateAddress(b, env, na, na, 0, []), env, secret, n + 1)
  {
    NamesSize(n);
    NamesNext(n);
    AddUnknown(b, env, na, na, 0);
  }

  // One more of them.
  lemma FillStep(b: Book, env: Env, secret: string, n: nat) returns (d: Book)
    requires Inv(b, env) && n <= NEW_BUCKET_SIZE && Filled(b, env, secret, n) && AllRoutable(env)
    ensures Step(b, env, Add(Nth(n), Nth(n), 0, 0), d) && Filled(d, env, secret, n + 1)
  {
    FillAdd(b, env, secret, n, Nth(n));
    d := UpdateAddress(b, env, Nth(n), Nth(n), 0, []);
    assert AddStep(b, env, Nth(n), Nth(n), 0, 0, [], d);
  }

  lemma {:induction false} FillRun(env: Env, secret: string, n: nat) returns (ops: seq<Op>, states: seq<Book>)
    requires n <= NEW_BUCKET_SIZE + 1 && AllRoutable(env)
    ensures IsRun(env, secret, ops, states) && |ops| == n && Filled(states[n], env, secret, n)
  {
    if n == 0 {
      ops, states := [], [Empty(secret)];
    } else {
      ops, states := FillRun(env, secret, n - 1);
      RunKeeps(env, secret, ops, states, n - 1);
      var d := FillStep(states[n - 1], env, secret, n - 1);
      var op := Add(Nth(n - 1), Nth(n - 1), 0, 0);
      RunNext(env, secret, ops, states, op, d);
      ops, states := ops + [op], states + [d];
    }
  }

  lemma RunNext(env: Env, secret: string, ops: seq<Op>, states: seq<Book>, op: Op, d: Book)
    requires IsRun(env, secret, ops, states)
    requires Inv(states[|ops|], env) && Step(states[|ops|], env, op, d)
    ensures IsRun(env, secret, ops + [op], states + [d])
  {
    var ops1, states1 := ops + [op], states + [d];
    forall n | 0 <= n < |ops1| ensures FollowsAt(env, ops1, states1, n) {
      if n < |ops| {
        assert FollowsAt(env, ops, states, n);
      }
    }
  }

  // Whatever the hash, a bucket of sixty-five addresses is reached from a fresh
  // manager by adding 1.2.3.0 to 1.2.3.64.
  lemma OverfullReached(env: Env, secret: string) returns (ops: seq<Op>, states: seq<Book>)
    requires AllRoutable(env)
    ensures IsRun(env, secret, ops, states)
    ensures var bs := states[|ops|].buckets;
            |bs| == NEW_BUCKET_COUNT && |bs[BucketOfThese(env, secret)]| == NEW_BUCKET_SIZE + 1
  {
    ops, states := FillRun(env, secret, NEW_BUCKET_SIZE + 1);
    NamesSize(NEW_BUCKET_SIZE + 1);
  }
}
