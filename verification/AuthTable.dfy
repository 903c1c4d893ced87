/**
 The authorisation tables as the adapter keeps them, under upfAddrMutex. An address that loses its last
 identity is released before the lock is: its relays are forgotten and its transaction tables dropped.
 */
module AuthTableClass {
  import opened Basics
  import opened AuthSpec
  import opened AuthReleases
  import RelaySpec
  import opened RelayTableClass
  import opened TransactionSpec
  import opened TransactionTables

  /** The expiry walk has dealt with every record but the unseen. */
  ghost predicate Walked(was: Nodes, nodes: Nodes, unseen: set<Node>, now: Time) {
    && unseen <= nodes.Keys <= was.Keys
    && (forall n :: n in nodes ==> nodes[n] == was[n])
    && (forall n :: n in was && n !in unseen ==> (n in nodes <==> Recent(was[n], now)))
  }

  function WithoutExpired(nodes: Nodes, node: Node, now: Time): Nodes
    requires node in nodes
  {
    if Recent(nodes[node], now) then nodes else nodes - {node}
  }

  lemma WalkedOne(was: Nodes, before: Nodes, nodes: Nodes, unseen: set<Node>, node: Node, now: Time)
    requires Walked(was, before, unseen, now) && node in unseen
    requires nodes == WithoutExpired(before, node, now)
    ensures Walked(was, nodes, unseen - {node}, now)
  {
  }

  lemma WalkedAll(was: Nodes, nodes: Nodes, now: Time)
    requires Walked(was, nodes, {}, now)
    ensures nodes == Current(was, now)
  {
  }

  lemma WalkStarts(was: Nodes, addrs: Addrs, e: Elsewhere<Transaction>, now: Time)
    ensures Walked(was, was, was.Keys, now)
    ensures Gone(addrs, addrs, [])
    ensures AfterReleases(e, []) == e
  {
  }

  class AuthTable {
    const relays: RelayTable
    const consumers: ConsumerTable
    var upfAddrs: Addrs
    var upfNodeAddrs: Nodes

    ghost predicate Sound()
      reads relays, consumers, consumers.tables
    {
      relays.Valid() && consumers.Valid()
    }

    ghost predicate Valid()
      reads this, relays, consumers, consumers.tables
    {
      Sound() && Agrees(upfAddrs, upfNodeAddrs)
    }

    constructor (relays: RelayTable, consumers: ConsumerTable)
      requires relays.Valid() && consumers.Valid()
      ensures Valid() && upfAddrs == map[] && upfNodeAddrs == map[]
      ensures this.relays == relays && this.consumers == consumers
    {
      this.relays, this.consumers := relays, consumers;
      upfAddrs, upfNodeAddrs := map[], map[];
    }

    /** Whatever the clock shows. */
    method ReadClock() returns (at: Time) {
      at := *;
    }

    /** What the release of one address does elsewhere, under the lock that decides it. */
    method Release(addr: Host, at: Time)
      requires Sound()
      modifies relays, consumers`m
      ensures Sound()
      ensures Others() == AfterRelease(old(Others()), addr, at)
      ensures forall n :: n in relays.reportRelays <==> n in old(relays.reportRelays) && old(relays.reportRelays)[n].peer.host != addr
      ensures forall n :: n in relays.reportRelays ==> relays.reportRelays[n] == old(relays.reportRelays)[n]
      ensures forall k :: k in consumers.Flat() <==> k in old(consumers.Flat()) && k.consumer.host != addr
      ensures forall k :: k in consumers.Flat() ==> consumers.Flat()[k] == old(consumers.Flat())[k]
    {
      relays.ForgetRelaysForHost(addr, at);
      consumers.DeleteByHost(addr);
    }

    method ReleaseNow(addr: Host) returns (ghost released: seq<Released>)
      requires Sound()
      modifies relays, consumers`m
      ensures Sound()
      ensures Hosts(released) == [addr]
      ensures Others() == AfterReleases(old(Others()), released)
    {
      var at := ReadClock();
      Release(addr, at);
      released := [Released(addr, at)];
      OneRelease(old(Others()), addr, at);
    }

    /** The two tables of others, as values. */
    ghost function Others(): Elsewhere<Transaction>
      requires Sound()
      reads relays, consumers, consumers.tables
    {
      Elsewhere(relays.View(), consumers.Flat())
    }

    /** forgetUpfAddrLocked. */
    method ForgetUpfAddrLocked(node: Node, addr: Host) returns (ghost released: seq<Released>)
      requires Sound()
      modifies this`upfAddrs, relays, consumers`m
      ensures Sound()
      ensures upfAddrs == Vacate(old(upfAddrs), node, addr)
      ensures Hosts(released) == if Releases(old(upfAddrs), node, addr) then [addr] else []
      ensures Others() == AfterReleases(old(Others()), released)
    {
      released := [];
      if addr !in upfAddrs {
        return;
      }
      var nodes := upfAddrs[addr] - {node};
      if |nodes| > 0 {
        upfAddrs := upfAddrs[addr := nodes];
        return;
      }
      upfAddrs := upfAddrs - {addr};
      released := ReleaseNow(addr);
    }

    /** One identity leaves its address: what that keeps, and what it releases. */
    method Leave(node: Node, addr: Host) returns (ghost released: seq<Released>)
      requires Sound()
      modifies this`upfAddrs, relays, consumers`m
      ensures Sound()
      ensures upfAddrs == Vacate(old(upfAddrs), node, addr)
      ensures Gone(old(upfAddrs), upfAddrs, released)
      ensures Others() == AfterReleases(old(Others()), released)
    {
      released := ForgetUpfAddrLocked(node, addr);
    }

    /** One trip of the expiry walk, for a record past its lifetime. */
    method ExpireNode(node: Node) returns (ghost released: seq<Released>)
      requires Valid() && node in upfNodeAddrs
      modifies this, relays, consumers`m
      ensures Valid()
      ensures upfNodeAddrs == old(upfNodeAddrs) - {node}
      ensures Gone(old(upfAddrs), upfAddrs, released)
      ensures Others() == AfterReleases(old(Others()), released)
    {
      released := [];
      var record := upfNodeAddrs[node];
      if record.addr.Some? {
        VacatingKeepsAgreement(upfAddrs, upfNodeAddrs, node, record.addr.value);
      } else {
        ExpiringKeepsAgreement(upfAddrs, upfNodeAddrs, node);
      }
      upfNodeAddrs := upfNodeAddrs - {node};
      if record.addr.Some? {
        released := Leave(node, record.addr.value);
      }
    }

    /** The walk so far: the maps agree, and what they have lost has been released. */
    ghost predicate Progress(was: Addrs, others: Elsewhere<Transaction>, done: seq<Released>)
      reads this, relays, consumers, consumers.tables
    {
      Valid() && Gone(was, upfAddrs, done) && Others() == AfterReleases(others, done)
    }

    /** expireUpfAddrsLocked. */
    method ExpireUpfAddrsLocked(now: Time) returns (ghost released: seq<Released>)
      requires Valid()
      modifies this, relays, consumers`m
      ensures Valid()
      ensures upfNodeAddrs == Current(old(upfNodeAddrs), now)
      ensures Gone(old(upfAddrs), upfAddrs, released)
      ensures Others() == AfterReleases(old(Others()), released)
    {
      WalkStarts(upfNodeAddrs, upfAddrs, Others(), now);
      released := Walk(now, upfAddrs, upfNodeAddrs, Others());
      WalkedAll(old(upfNodeAddrs), upfNodeAddrs, now);
    }

    /** Its walk over the records. */
    method Walk(now: Time, ghost was: Addrs, ghost nodes: Nodes, ghost others: Elsewhere<Transaction>)
      returns (ghost released: seq<Released>)
      requires Progress(was, others, []) && Walked(nodes, upfNodeAddrs, upfNodeAddrs.Keys, now)
      modifies this, relays, consumers`m
      ensures Progress(was, others, released) && Walked(nodes, upfNodeAddrs, {}, now)
    {
      released := [];
      var unseen := upfNodeAddrs.Keys;
      while unseen != {}
        invariant Progress(was, others, released)
        invariant Walked(nodes, upfNodeAddrs, unseen, now)
        decreases unseen
      {
        var node :| node in unseen;
        ghost var before := upfNodeAddrs;
        released := Trip(node, now, was, others, released);
        WalkedOne(nodes, before, upfNodeAddrs, unseen, node, now);
        unseen := unseen - {node};
      }
    }

    /** One trip of the walk: an expired record goes, and its place at its address with it. */
    method Trip(node: Node, now: Time, ghost was: Addrs, ghost others: Elsewhere<Transaction>, ghost done: seq<Released>)
      returns (ghost released: seq<Released>)
      requires Progress(was, others, done) && node in upfNodeAddrs
      modifies this, relays, consumers`m
      ensures Progress(was, others, released)
      ensures upfNodeAddrs == WithoutExpired(old(upfNodeAddrs), node, now)
    {
      released := done;
      if now > upfNodeAddrs[node].seen + UPF_ADDR_LIFETIME {
        ghost var before := upfAddrs;
        ghost var more := ExpireNode(node);
        GoneInTurn(was, before, upfAddrs, done, more);
        ReleasesInTurn(others, done, more);
        released := done + more;
      }
    }

    /** The node's old address, if it resolved to another, loses the node. */
    method Depart(node: Node, from: Option<Host>, key: Host) returns (ghost released: seq<Released>)
      requires Valid() && node in upfNodeAddrs && upfNodeAddrs[node].addr == from
      modifies this`upfAddrs, relays, consumers`m
      ensures Sound()
      ensures Agrees(upfAddrs, Departed(upfNodeAddrs, node, Some(key)))
      ensures Gone(old(upfAddrs), upfAddrs, released)
      ensures Others() == AfterReleases(old(Others()), released)
    {
      released := [];
      if from.Some? && from.value != key {
        VacatingKeepsAgreement(upfAddrs, upfNodeAddrs, node, from.value);
        released := Leave(node, from.value);
      }
    }

    /** The address the node resolved to is authorised for it. */
    method Place(node: Node, now: Time, key: Host)
      requires Agrees(upfAddrs, Departed(upfNodeAddrs, node, Some(key)))
      modifies this
      ensures Agrees(upfAddrs, upfNodeAddrs)
      ensures upfNodeAddrs == old(upfNodeAddrs)[node := NodeRecord(now, Some(key))]
    {
      OccupyingKeepsAgreement(upfAddrs, Departed(upfNodeAddrs, node, Some(key)), node, key, now);
      var nodes := if key in upfAddrs then upfAddrs[key] else {};
      assert Departed(upfNodeAddrs, node, Some(key))[node := NodeRecord(now, Some(key))]
          == upfNodeAddrs[node := NodeRecord(now, Some(key))];
      upfAddrs, upfNodeAddrs := upfAddrs[key := nodes + {node}], upfNodeAddrs[node := NodeRecord(now, Some(key))];
    }

    /** The naming is dated before the sweep, so that it cannot expire the node it names. */
    method NameAndExpire(node: Node, now: Time) returns (ghost released: seq<Released>)
      requires Valid()
      modifies this, relays, consumers`m
      ensures Valid()
      ensures upfNodeAddrs == Current(Named(old(upfNodeAddrs), node, now), now)
      ensures Gone(old(upfAddrs), upfAddrs, released)
      ensures Others() == AfterReleases(old(Others()), released)
    {
      NamingKeepsAgreement(upfAddrs, upfNodeAddrs, node, now);
      var record := RecordOf(upfNodeAddrs, node);
      if record.seen <= now {
        upfNodeAddrs := upfNodeAddrs[node := NodeRecord(now, record.addr)];
      }
      released := ExpireUpfAddrsLocked(now);
    }

    /** The rest of a naming that resolved and was not superseded. */
    method Settle(node: Node, now: Time, from: Option<Host>, key: Host) returns (ghost released: seq<Released>)
      requires Valid() && node in upfNodeAddrs && upfNodeAddrs[node].addr == from
      modifies this, relays, consumers`m
      ensures Valid()
      ensures upfNodeAddrs == old(upfNodeAddrs)[node := NodeRecord(now, Some(key))]
      ensures exists left ::
        Gone(old(upfAddrs), left, released) && Agrees(left, Departed(old(upfNodeAddrs), node, Some(key)))
      ensures Others() == AfterReleases(old(Others()), released)
    {
      released := Depart(node, from, key);
      assert Gone(old(upfAddrs), upfAddrs, released);
      Place(node, now, key);
    }

    /** All of RecordUpfAddr, proved against the records alone. */
    method NameExpireAndSettle(node: Node, now: Time, ip: Option<Host>) returns (ghost released: seq<Released>)
      requires Valid()
      modifies this, relays, consumers`m
      ensures Valid()
      ensures upfNodeAddrs == Recorded(old(upfNodeAddrs), node, now, ip)
      ensures Lists(Hosts(released), Unoccupied(old(upfAddrs), Remaining(old(upfNodeAddrs), node, now, ip)))
      ensures Others() == AfterReleases(old(Others()), released)
    {
      ghost var was, others := upfAddrs, Others();
      var record := RecordOf(upfNodeAddrs, node);
      released := NameAndExpire(node, now);
      if ip.None? || record.seen > now {
        UnoccupiedIsTheDifference(was, upfNodeAddrs, upfAddrs);
        return;
      }
      ghost var between, current := upfAddrs, upfNodeAddrs;
      ghost var more := Settle(node, now, record.addr, ip.value);
      ReleasesInTurn(others, released, more);
      ghost var left :| Gone(between, left, more) && Agrees(left, Departed(current, node, ip));
      GoneInTurn(was, between, left, released, more);
      released := released + more;
      UnoccupiedIsTheDifference(was, Departed(current, node, ip), left);
    }

    /**
     RecordUpfAddr, for a resolution dated `now`; each release reads the clock anew. The whole new reverse map and which
     addresses are released follow from the records. A released address's relays and transactions are gone, whatever port
     they came from, and it is counted once; no other's change; and a relay whose address someone was at still has someone
     at it.
     */
    method RecordUpfAddr(node: Node, now: Time, ip: Option<Host>) returns (ghost released: seq<Released>)
      requires Valid()
      modifies this, relays, consumers`m
      ensures Valid()
      ensures upfNodeAddrs == Recorded(old(upfNodeAddrs), node, now, ip)
      ensures Lists(Hosts(released), Unoccupied(old(upfAddrs), Remaining(old(upfNodeAddrs), node, now, ip)))
      ensures Others() == AfterReleases(old(Others()), released)
      ensures forall n :: n in relays.reportRelays <==>
        n in old(relays.reportRelays) && old(relays.reportRelays)[n].peer.host !in Hosts(released)
      ensures forall n :: n in relays.reportRelays ==> relays.reportRelays[n] == old(relays.reportRelays)[n]
      ensures forall k :: k in consumers.Flat() <==> k in old(consumers.Flat()) && k.consumer.host !in Hosts(released)
      ensures forall k :: k in consumers.Flat() ==> consumers.Flat()[k] == old(consumers.Flat())[k]
      ensures forall h :: RelaySpec.Count(relays.View(), h) == old(RelaySpec.Count(relays.View(), h)) + if h in Hosts(released) then 1 else 0
      ensures (forall n :: n in old(relays.reportRelays) ==> old(relays.reportRelays)[n].peer.host in old(upfAddrs)) ==>
        forall n :: n in relays.reportRelays ==> relays.reportRelays[n].peer.host in upfAddrs
    {
      ghost var was, nodes, others := upfAddrs, upfNodeAddrs, Others();
      released := NameExpireAndSettle(node, now, ip);
      ListedOnce(released, Unoccupied(was, Remaining(nodes, node, now, ip)));
      ReleasesInPlainTerms(others, released);
      RelaysStayAuthorised(was, nodes, upfAddrs, node, now, ip, Hosts(released));
    }

    /** IsKnownUpfAddr. */
    method IsKnownUpfAddr(ip: Host, now: Time) returns (known: bool)
      ensures known <==> Known(Auth(upfAddrs, upfNodeAddrs), ip, now)
      ensures Agrees(upfAddrs, upfNodeAddrs) ==>
        (known <==> exists node :: node in upfNodeAddrs && upfNodeAddrs[node].addr == Some(ip)
                                   && now <= upfNodeAddrs[node].seen + 30 * 60 * SECOND)
    {
      if Agrees(upfAddrs, upfNodeAddrs) {
        KnownMeansNamedLately(Auth(upfAddrs, upfNodeAddrs), ip, now);
      }
      if ip !in upfAddrs {
        return false;
      }
      var unseen := upfAddrs[ip];
      while unseen != {}
        invariant unseen <= upfAddrs[ip]
        invariant forall n :: n in upfAddrs[ip] && n !in unseen ==> !Recent(RecordOf(upfNodeAddrs, n), now)
        decreases unseen
      {
        var node :| node in unseen;
        unseen := unseen - {node};
        var seen := if node in upfNodeAddrs then upfNodeAddrs[node].seen else 0;
        if now <= seen + UPF_ADDR_LIFETIME {
          return true;
        }
      }
      return false;
    }
  }
}
