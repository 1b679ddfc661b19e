// The server's tables of peers and its count of outbound peers by address group.
module PeerTable {
  import opened Wrappers

  type Id = nat
  type Group = nat
  type Host = nat

  // Only outbound peers can be persistent.
  datatype Kind = Inbound | Outbound | Persistent

  // A peer as the server knows it; an address may have no readable host.
  datatype Peer = Peer(id: Id, kind: Kind, group: Group, host: Option<Host>)

  type Table = map<Id, Peer>

  // A count for each group, 0 where there is none.
  type Counts = map<Group, int>

  function Of(counts: Counts, g: Group): int {
    if g in counts then counts[g] else 0
  }

  function Plus(counts: Counts, g: Group, n: int): (r: Counts)
    ensures forall h :: Of(r, h) == Of(counts, h) + if h == g then n else 0
  {
    counts[g := Of(counts, g) + n]
  }

  // ---------------------------------------------------------------- counting

  // The listed peers of a group.
  ghost function Members(table: Table, g: Group): set<Id> {
    set id | id in table && table[id].group == g
  }

  ghost function Size(table: Table, g: Group): nat {
    |Members(table, g)|
  }

  function One(b: bool): int {
    if b then 1 else 0
  }

  lemma SizeWith(table: Table, sp: Peer, g: Group)
    requires sp.id !in table
    ensures Size(table[sp.id := sp], g) == Size(table, g) + One(g == sp.group)
  {
    var more := table[sp.id := sp];
    if g == sp.group {
      assert Members(more, g) == Members(table, g) + {sp.id};
    } else {
      assert Members(more, g) == Members(table, g);
    }
  }

  lemma SizeWithout(table: Table, id: Id, g: Group)
    requires id in table
    ensures Size(table - {id}, g) == Size(table, g) - One(g == table[id].group)
  {
    var less := table - {id};
    if g == table[id].group {
      assert Members(table, g) == Members(less, g) + {id};
    } else {
      assert Members(table, g) == Members(less, g);
    }
  }

  lemma LengthWithout(table: Table, id: Id)
    requires id in table
    ensures |table - {id}| == |table| - 1
  {
    assert (table - {id}).Keys == table.Keys - {id};
  }

  // ---------------------------------------------------------------- the lists

  datatype Lists = Lists(inbound: Table, outbound: Table, persistent: Table, banned: map<Host, int>, groups: Counts) {
    function Count(): nat {
      |inbound| + |outbound| + |persistent|
    }

    function Table(k: Kind): Table {
      match k
      case Inbound => inbound
      case Outbound => outbound
      case Persistent => persistent
    }

    // The lists with another table of one kind, and other counters.
    function With(k: Kind, t: Table, groups: Counts): (r: Lists)
      ensures r.Table(k) == t && forall j :: j != k ==> r.Table(j) == Table(j)
      ensures r.groups == groups && r.banned == banned
      ensures r.Count() == Count() - |Table(k)| + |t|
    {
      match k
      case Inbound => this.(inbound := t, groups := groups)
      case Outbound => this.(outbound := t, groups := groups)
      case Persistent => this.(persistent := t, groups := groups)
    }
  }

  // The outbound and persistent peers of a group that are listed.
  ghost function Outbounds(l: Lists, g: Group): nat {
    Size(l.Table(Outbound), g) + Size(l.Table(Persistent), g)
  }

  // A group's counter is the number of its outbound and persistent peers that
  // are listed, and of those that were taken off without being counted out.
  ghost predicate Counted(l: Lists, leaks: Counts) {
    forall g :: Of(l.groups, g) == Outbounds(l, g) + Of(leaks, g)
  }

  ghost predicate FiledUnder(table: Table, k: Kind, added: set<Id>) {
    forall id :: id in table ==> table[id].id == id && table[id].kind == k && id in added
  }

  ghost predicate Filed(l: Lists, added: set<Id>) {
    forall k :: FiledUnder(l.Table(k), k, added)
  }

  ghost predicate ListsOk(maxPeers: nat, l: Lists, added: set<Id>, leaks: Counts) {
    Filed(l, added) && Counted(l, leaks) && l.Count() <= maxPeers
  }

  // The lists with one more peer, which is counted in if it is outbound.
  function Enter(l: Lists, sp: Peer): Lists {
    l.With(sp.kind, l.Table(sp.kind)[sp.id := sp],
           if sp.kind.Inbound? then l.groups else Plus(l.groups, sp.group, 1))
  }

  // The lists with one peer less, counted out or not.
  function Leave(l: Lists, sp: Peer, countOut: bool): Lists {
    l.With(sp.kind, l.Table(sp.kind) - {sp.id}, if countOut then Plus(l.groups, sp.group, -1) else l.groups)
  }

  lemma OutboundsEnter(l: Lists, sp: Peer, g: Group)
    requires sp.id !in l.Table(sp.kind)
    ensures Outbounds(Enter(l, sp), g) == Outbounds(l, g) + One(!sp.kind.Inbound? && g == sp.group)
  {
    SizeWith(l.Table(sp.kind), sp, g);
  }

  lemma EnterCounted(l: Lists, leaks: Counts, sp: Peer)
    requires Counted(l, leaks) && sp.id !in l.Table(sp.kind)
    ensures Counted(Enter(l, sp), leaks)
  {
    var m := Enter(l, sp);
    forall g ensures Of(m.groups, g) == Outbounds(m, g) + Of(leaks, g) {
      OutboundsEnter(l, sp, g);
      assert Of(m.groups, g) == Of(l.groups, g) + One(!sp.kind.Inbound? && g == sp.group);
    }
  }

  lemma EnterOk(maxPeers: nat, l: Lists, added: set<Id>, leaks: Counts, sp: Peer)
    requires ListsOk(maxPeers, l, added, leaks) && sp.id !in added && l.Count() < maxPeers
    ensures ListsOk(maxPeers, Enter(l, sp), added + {sp.id}, leaks)
    ensures Enter(l, sp).Count() == l.Count() + 1
  {
    assert FiledUnder(l.Table(sp.kind), sp.kind, added);
    EnterFiled(l, added, sp);
    EnterCounted(l, leaks, sp);
    LengthWith(l.Table(sp.kind), sp);
  }

  lemma LengthWith(table: Table, sp: Peer)
    requires sp.id !in table
    ensures |table[sp.id := sp]| == |table| + 1
  {
    assert table[sp.id := sp].Keys == table.Keys + {sp.id};
  }

  ghost function LeaksAfter(leaks: Counts, sp: Peer, countOut: bool): Counts {
    if sp.kind.Inbound? || countOut then leaks else Plus(leaks, sp.group, 1)
  }

  lemma OutboundsLeave(l: Lists, sp: Peer, countOut: bool, g: Group)
    requires sp.id in l.Table(sp.kind) && l.Table(sp.kind)[sp.id] == sp
    ensures Outbounds(Leave(l, sp, countOut), g) == Outbounds(l, g) - One(!sp.kind.Inbound? && g == sp.group)
  {
    SizeWithout(l.Table(sp.kind), sp.id, g);
  }

  lemma LeaveCounted(l: Lists, leaks: Counts, sp: Peer, countOut: bool)
    requires Counted(l, leaks) && sp.id in l.Table(sp.kind) && l.Table(sp.kind)[sp.id] == sp
    requires sp.kind.Inbound? ==> !countOut
    ensures Counted(Leave(l, sp, countOut), LeaksAfter(leaks, sp, countOut))
  {
    var m := Leave(l, sp, countOut);
    forall g ensures Of(m.groups, g) == Outbounds(m, g) + Of(LeaksAfter(leaks, sp, countOut), g) {
      OutboundsLeave(l, sp, countOut, g);
      assert Of(m.groups, g) == Of(l.groups, g) - One(countOut && g == sp.group);
    }
  }

  lemma LeaveFiled(l: Lists, added: set<Id>, sp: Peer, countOut: bool)
    requires Filed(l, added)
    ensures Filed(Leave(l, sp, countOut), added)
  {
    var m := Leave(l, sp, countOut);
    forall k ensures FiledUnder(m.Table(k), k, added) {
      assert FiledUnder(l.Table(k), k, added);
      assert k != sp.kind ==> m.Table(k) == l.Table(k);
    }
  }

  lemma EnterFiled(l: Lists, added: set<Id>, sp: Peer)
    requires Filed(l, added)
    ensures Filed(Enter(l, sp), added + {sp.id})
  {
    var m := Enter(l, sp);
    forall k ensures FiledUnder(m.Table(k), k, added + {sp.id}) {
      assert FiledUnder(l.Table(k), k, added);
      assert k != sp.kind ==> m.Table(k) == l.Table(k);
    }
  }

  // Bans have no part in this.
  lemma BannedOk(maxPeers: nat, l: Lists, added: set<Id>, leaks: Counts, banned: map<Host, int>)
    requires ListsOk(maxPeers, l, added, leaks)
    ensures ListsOk(maxPeers, l.(banned := banned), added, leaks)
  {
    var m := l.(banned := banned);
    assert forall k :: m.Table(k) == l.Table(k);
    forall k ensures FiledUnder(m.Table(k), k, added) {
      assert FiledUnder(l.Table(k), k, added);
    }
    forall g ensures Of(m.groups, g) == Outbounds(m, g) + Of(leaks, g) {
      assert Outbounds(m, g) == Outbounds(l, g);
    }
  }

  // Taking a listed peer off and counting it out, or else leaking it.
  lemma LeaveOk(maxPeers: nat, l: Lists, added: set<Id>, leaks: Counts, sp: Peer, countOut: bool)
    requires ListsOk(maxPeers, l, added, leaks) && sp.id in l.Table(sp.kind) && l.Table(sp.kind)[sp.id] == sp
    requires sp.kind.Inbound? ==> !countOut
    ensures ListsOk(maxPeers, Leave(l, sp, countOut), added, LeaksAfter(leaks, sp, countOut))
    ensures Leave(l, sp, countOut).Count() == l.Count() - 1
  {
    LeaveCounted(l, leaks, sp, countOut);
    LeaveFiled(l, added, sp, countOut);
    LengthWithout(l.Table(sp.kind), sp.id);
  }

  // Every counter is the number of listed outbound and persistent peers; a group
  // without a counter has none.
  ghost predicate Exact(l: Lists) {
    && (forall g :: g in l.groups ==> l.groups[g] == Outbounds(l, g))
    && (forall g :: g !in l.groups ==> Outbounds(l, g) == 0)
  }

  // An outbound peer that is done leaves exact counters exact if and only if its
  // version is known.
  lemma DoneKeepsExact(l: Lists, sp: Peer, versionKnown: bool)
    requires Exact(l) && !sp.kind.Inbound? && sp.id in l.Table(sp.kind) && l.Table(sp.kind)[sp.id] == sp
    ensures Exact(Leave(l, sp, versionKnown)) <==> versionKnown
  {
    var m := Leave(l, sp, versionKnown);
    forall g ensures Of(m.groups, g) == Outbounds(m, g) + One(!versionKnown && g == sp.group) {
      OutboundsLeave(l, sp, versionKnown, g);
      assert Of(m.groups, g) == Of(l.groups, g) - One(versionKnown && g == sp.group);
    }
    assert Of(m.groups, sp.group) == Outbounds(m, sp.group) + One(!versionKnown);
  }

  // The counters are exact if and only if no peer leaked.
  lemma ExactUnlessLeaked(l: Lists, leaks: Counts)
    requires Counted(l, leaks)
    ensures Exact(l) <==> forall g :: g in leaks ==> leaks[g] == 0
  {
    if Exact(l) {
      forall g | g in leaks ensures leaks[g] == 0 {
        assert Of(l.groups, g) == Outbounds(l, g) + Of(leaks, g);
      }
    } else {
      var g :| Of(l.groups, g) != Outbounds(l, g);
      assert Of(leaks, g) != 0;
    }
  }

  // ------------------------------------------------------------ the handlers

  class PeerState {
    const maxPeers: nat
    var lists: Lists

    // The peers ever added, and by group those outbound peers that were done
    // before their version was known.
    ghost var added: set<Id>
    ghost var leaks: Counts

    ghost predicate Valid()
      reads this
    {
      ListsOk(maxPeers, lists, added, leaks)
    }

    constructor (maxPeers: nat)
      ensures Valid() && this.maxPeers == maxPeers && lists.Count() == 0 && added == {} && leaks == map[]
    {
      this.maxPeers := maxPeers;
      lists, added, leaks := Lists(map[], map[], map[], map[], map[]), {}, map[];
    }

    // The peer is on its list.
    ghost predicate Listed(sp: Peer)
      reads this
    {
      sp.id in lists.Table(sp.kind)
    }

    // List a new peer unless the server shuts down, the peer is banned or there
    // are enough peers.
    method HandleAddPeer(sp: Peer, shutdown: bool, now: int) returns (ok: bool)
      requires Valid() && sp.id !in added
      modifies this
      ensures Valid() && leaks == old(leaks)
      ensures ok <==> && !shutdown && sp.host.Some? && old(lists).Count() < maxPeers
                      && !(sp.host.value in old(lists).banned && now < old(lists).banned[sp.host.value])
      ensures ok ==> added == old(added) + {sp.id} && Listed(sp) && lists == Enter(old(lists), sp).(banned := lists.banned)
      ensures !ok ==> added == old(added) && lists == old(lists).(banned := lists.banned)
      // a ban that is over is forgotten
      ensures lists.banned == old(lists).banned -
                if !shutdown && sp.host.Some? && sp.host.value in old(lists).banned &&
                   old(lists).banned[sp.host.value] <= now
                then {sp.host.value} else {}
    {
      if shutdown || sp.host.None? {
        return false;
      }
      if sp.host.value in lists.banned {
        if now < lists.banned[sp.host.value] {
          return false;
        }
        BannedOk(maxPeers, lists, added, leaks, lists.banned - {sp.host.value});
        lists := lists.(banned := lists.banned - {sp.host.value});
      }
      if lists.Count() >= maxPeers {
        return false;
      }
      EnterOk(maxPeers, lists, added, leaks, sp);
      assert Enter(lists, sp) == Enter(old(lists), sp).(banned := lists.banned);
      lists, added := Enter(lists, sp), added + {sp.id};
      ok := true;
    }

    // Take a peer that is done off its list; an outbound one is counted out if
    // its version is known.  A peer that is on no list changes nothing, so no
    // peer is counted out twice.
    method HandleDonePeer(sp: Peer, versionKnown: bool)
      requires Valid() && (Listed(sp) ==> lists.Table(sp.kind)[sp.id] == sp)
      modifies this
      ensures Valid() && added == old(added) && !Listed(sp)
      ensures !old(Listed(sp)) ==> lists == old(lists) && leaks == old(leaks)
      ensures old(Listed(sp)) ==>
                && lists == Leave(old(lists), sp, !sp.kind.Inbound? && versionKnown)
                && leaks == LeaksAfter(old(leaks), sp, versionKnown)
    {
      if sp.id in lists.Table(sp.kind) {
        var countOut := !sp.kind.Inbound? && versionKnown;
        LeaveOk(maxPeers, lists, added, leaks, sp, countOut);
        lists, leaks := Leave(lists, sp, countOut), LeaksAfter(leaks, sp, versionKnown);
      }
    }

    // Take one peer that fits off a list, and count it out if it is outbound.
    method DisconnectPeer(k: Kind, cmp: Peer -> bool) returns (found: bool, ghost gone: Id)
      requires Valid()
      modifies this`lists
      ensures Valid() && found == Any(old(lists).Table(k), cmp)
      ensures !found ==> lists == old(lists)
      ensures found ==> gone in old(lists).Table(k) && cmp(old(lists).Table(k)[gone])
      ensures found ==> lists == Leave(old(lists), old(lists).Table(k)[gone], !k.Inbound?)
      ensures forall j :: lists.Table(j) == old(lists).Table(j) - (if found && j == k then {gone} else {})
      ensures found ==> |lists.Table(k)| < |old(lists).Table(k)|
    {
      var table := lists.Table(k);
      found, gone := Any(table, cmp), 0;
      if found {
        var id :| id in table && cmp(table[id]);
        assert FiledUnder(table, k, added);
        LeaveOk(maxPeers, lists, added, leaks, table[id], !k.Inbound?);
        LengthWithout(table, id);
        lists := Leave(lists, table[id], !k.Inbound?);
        gone := id;
      }
    }

    // Remove a persistent peer: one that fits goes, with its count, if there is
    // one, and nothing else changes.
    method RemoveNode(cmp: Peer -> bool) returns (found: bool, ghost gone: Id)
      requires Valid()
      modifies this`lists
      ensures Valid() && found == Any(old(lists).Table(Persistent), cmp)
      ensures !found ==> lists == old(lists)
      ensures found ==> gone in old(lists).Table(Persistent) && cmp(old(lists).Table(Persistent)[gone])
      ensures found ==> lists == Leave(old(lists), old(lists).Table(Persistent)[gone], true)
    {
      found, gone := DisconnectPeer(Persistent, cmp);
    }

    // Disconnect outbound peers that fit until none is left.
    method DisconnectOutbound(cmp: Peer -> bool)
      requires Valid()
      modifies this`lists
      ensures Valid() && !Any(lists.Table(Outbound), cmp)
      ensures forall j :: j != Outbound ==> lists.Table(j) == old(lists).Table(j)
      ensures Keeps(old(lists).Table(Outbound), lists.Table(Outbound), cmp)
    {
      var found := true;
      while found
        invariant Valid() && (!found ==> !Any(lists.Table(Outbound), cmp))
        invariant forall j :: j != Outbound ==> lists.Table(j) == old(lists).Table(j)
        invariant Keeps(old(lists).Table(Outbound), lists.Table(Outbound), cmp)
        decreases found, |lists.Table(Outbound)|
      {
        ghost var before, gone := lists, 0;
        found, gone := DisconnectPeer(Outbound, cmp);
        KeepsStill(old(lists).Table(Outbound), before.Table(Outbound), cmp, if found then {gone} else {});
      }
    }

    // Disconnect one inbound peer that fits, or else all outbound peers that do.
    method DisconnectNode(cmp: Peer -> bool) returns (found: bool, ghost gone: Id)
      requires Valid()
      modifies this`lists
      ensures Valid() && found == (Any(old(lists).Table(Inbound), cmp) || Any(old(lists).Table(Outbound), cmp))
      ensures Any(old(lists).Table(Inbound), cmp) ==>
                && gone in old(lists).Table(Inbound) && cmp(old(lists).Table(Inbound)[gone])
                && lists == Leave(old(lists), old(lists).Table(Inbound)[gone], false)
      ensures !Any(old(lists).Table(Inbound), cmp) ==>
                && lists.Table(Inbound) == old(lists).Table(Inbound) && lists.Table(Persistent) == old(lists).Table(Persistent)
                && Keeps(old(lists).Table(Outbound), lists.Table(Outbound), cmp) && !Any(lists.Table(Outbound), cmp)
    {
      found, gone := DisconnectPeer(Inbound, cmp);
      if !found {
        found := Any(lists.Table(Outbound), cmp);
        DisconnectOutbound(cmp);
      }
    }
  }

  // Some listed peer fits.
  predicate Any(table: Table, cmp: Peer -> bool) {
    exists id :: id in table && cmp(table[id])
  }

  // All peers that do not fit are still listed, and no others than before.
  ghost predicate Keeps(before: Table, after: Table, cmp: Peer -> bool) {
    && (forall id :: id in after ==> id in before && after[id] == before[id])
    && (forall id :: id in before && !cmp(before[id]) ==> id in after)
  }

  lemma KeepsStill(before: Table, after: Table, cmp: Peer -> bool, gone: set<Id>)
    requires Keeps(before, after, cmp) && forall id :: id in gone ==> id in after && cmp(after[id])
    ensures Keeps(before, after - gone, cmp)
  {
  }
}
