/**
 What a naming comes to beyond the authorisation maps: the addresses it leaves with nobody at them, each once, and what
 their releases do to the relays and the transactions.
 */
module AuthReleases {
  import opened Basics
  import opened AuthSpec
  import opened RelaySpec
  import opened TransactionSpec

  /** What a release reaches beyond these tables: the relays and the transactions. */
  datatype Elsewhere<T> = Elsewhere(relays: Table, transactions: map<Key, T>)

  function AfterRelease<T>(e: Elsewhere<T>, host: Host, at: Time): Elsewhere<T> {
    Elsewhere(ForgetHost(e.relays, host, at), ReleaseConsumer(e.transactions, host))
  }

  /** One release, and what its own look at the clock showed. */
  datatype Released = Released(host: Host, at: Time)

  /** ... after the given releases in turn. */
  function AfterReleases<T>(e: Elsewhere<T>, rs: seq<Released>): Elsewhere<T> {
    if rs == [] then e
    else AfterRelease(AfterReleases(e, rs[..|rs| - 1]), rs[|rs| - 1].host, rs[|rs| - 1].at)
  }

  lemma {:induction false} ReleasesInTurn<T>(e: Elsewhere<T>, rs: seq<Released>, more: seq<Released>)
    ensures AfterReleases(AfterReleases(e, rs), more) == AfterReleases(e, rs + more)
  {
    if more == [] {
      assert rs + more == rs;
    } else {
      ReleasesInTurn(e, rs, more[..|more| - 1]);
      assert (rs + more)[..|rs + more| - 1] == rs + more[..|more| - 1];
    }
  }

  lemma OneRelease<T>(e: Elsewhere<T>, host: Host, at: Time)
    ensures AfterReleases(e, [Released(host, at)]) == AfterRelease(e, host, at)
  {
    assert [Released(host, at)][..0] == [];
  }

  function Hosts(rs: seq<Released>): seq<Host> {
    seq(|rs|, i requires 0 <= i < |rs| => rs[i].host)
  }

  /**
   What releases come to, if no address is released twice: their relays and their ports' transactions are gone, and
   nobody else's; each is counted once more, and no other.
   */
  lemma {:induction false} ReleasesInPlainTerms<T>(e: Elsewhere<T>, rs: seq<Released>)
    requires forall i, j :: 0 <= i < j < |rs| ==> rs[i].host != rs[j].host
    ensures var e' := AfterReleases(e, rs);
      && (forall n :: n in e'.relays.relays <==> n in e.relays.relays && e.relays.relays[n].peer.host !in Hosts(rs))
      && (forall n :: n in e'.relays.relays ==> e'.relays.relays[n] == e.relays.relays[n])
      && (forall k :: k in e'.transactions <==> k in e.transactions && k.consumer.host !in Hosts(rs))
      && (forall k :: k in e'.transactions ==> e'.transactions[k] == e.transactions[k])
      && (forall h :: Count(e'.relays, h) == Count(e.relays, h) + if h in Hosts(rs) then 1 else 0)
  {
    if rs != [] {
      var init, last := rs[..|rs| - 1], rs[|rs| - 1];
      ReleasesInPlainTerms(e, init);
      assert Hosts(rs) == Hosts(init) + [last.host];
      assert forall h :: h in Hosts(rs) <==> h in Hosts(init) || h == last.host;
      assert forall i :: 0 <= i < |init| ==> init[i].host != last.host;
      OneReleaseInPlainTerms(AfterReleases(e, init), last.host, last.at);
    }
  }

  lemma ListedOnce(rs: seq<Released>, s: set<Host>)
    requires Lists(Hosts(rs), s)
    ensures forall i, j :: 0 <= i < j < |rs| ==> rs[i].host != rs[j].host
  {
    forall i, j | 0 <= i < j < |rs| ensures rs[i].host != rs[j].host {
      assert Hosts(rs)[i] != Hosts(rs)[j];
    }
  }

  lemma OneReleaseInPlainTerms<T>(e: Elsewhere<T>, host: Host, at: Time)
    ensures var e' := AfterRelease(e, host, at);
      && (forall n :: n in e'.relays.relays <==> n in e.relays.relays && e.relays.relays[n].peer.host != host)
      && (forall n :: n in e'.relays.relays ==> e'.relays.relays[n] == e.relays.relays[n])
      && (forall k :: k in e'.transactions <==> k in e.transactions && k.consumer.host != host)
      && (forall k :: k in e'.transactions ==> e'.transactions[k] == e.transactions[k])
      && (forall h :: Count(e'.relays, h) == Count(e.relays, h) + if h == host then 1 else 0)
  {
  }

  /** The addresses are those of the set, each once. */
  ghost predicate Lists(hosts: seq<Host>, s: set<Host>) {
    && (forall h :: h in s <==> h in hosts)
    && (forall i, j :: 0 <= i < j < |hosts| ==> hosts[i] != hosts[j])
  }

  /** The addresses listed are those in the first map and not in the second. */
  ghost predicate Gone(was: Addrs, addrs: Addrs, rs: seq<Released>) {
    addrs.Keys <= was.Keys && Lists(Hosts(rs), was.Keys - addrs.Keys)
  }

  lemma GoneInTurn(a: Addrs, b: Addrs, c: Addrs, first: seq<Released>, more: seq<Released>)
    requires Gone(a, b, first) && Gone(b, c, more)
    ensures Gone(a, c, first + more)
  {
    assert Hosts(first + more) == Hosts(first) + Hosts(more);
    ListsInTurn(Hosts(first), Hosts(more), a.Keys - b.Keys, b.Keys - c.Keys);
    assert a.Keys - c.Keys == (a.Keys - b.Keys) + (b.Keys - c.Keys);
  }

  lemma ListsInTurn(first: seq<Host>, more: seq<Host>, s: set<Host>, t: set<Host>)
    requires Lists(first, s) && Lists(more, t) && s !! t
    ensures Lists(first + more, s + t)
  {
    forall i, j | 0 <= i < j < |first + more| ensures (first + more)[i] != (first + more)[j] {
      if i < |first| <= j {
        assert (first + more)[i] in first && (first + more)[j] in more;
      }
    }
  }

  /** The records just before the naming takes its address: dated, the expired dropped, an old address left. */
  function Remaining(nodes: Nodes, node: Node, now: Time, ip: Option<Host>): Nodes {
    var current := Current(Named(nodes, node, now), now);
    if ip.None? || Superseded(nodes, node, now) then current else Departed(current, node, ip)
  }

  /** The addresses no identity in the records is at. */
  ghost function Unoccupied(addrs: Addrs, nodes: Nodes): set<Host> {
    set h | h in addrs && forall n :: n in nodes ==> nodes[n].addr != Some(h)
  }

  /** With the maps in agreement, the addresses gone from the reverse map are those nobody is at. */
  lemma UnoccupiedIsTheDifference(was: Addrs, nodes: Nodes, addrs: Addrs)
    requires addrs.Keys <= was.Keys && Agrees(addrs, nodes)
    ensures Unoccupied(was, nodes) == was.Keys - addrs.Keys
    ensures forall rs :: Gone(was, addrs, rs) ==> Lists(Hosts(rs), Unoccupied(was, nodes))
  {
    forall h | h in was ensures h in addrs <==> exists n :: n in nodes && nodes[n].addr == Some(h) {
      if h in addrs {
        var n :| n in addrs[h];
        assert nodes[n].addr == Some(h);
      }
    }
  }

  /**
   Whoever had a relay outstanding was at an address someone was at; after a naming and the releases it brings, that is
   still so. And only an address that someone was at, and that nobody but the named node is at any more, is released.
   */
  lemma RelaysStayAuthorised(was: Addrs, nodes: Nodes, addrs: Addrs, node: Node, now: Time, ip: Option<Host>, hosts: seq<Host>)
    requires Agrees(was, nodes) && Agrees(addrs, Recorded(nodes, node, now, ip))
    requires Lists(hosts, Unoccupied(was, Remaining(nodes, node, now, ip)))
    ensures forall h :: h in was && h !in hosts ==> h in addrs
    ensures forall h :: h in hosts ==> h in was
    ensures forall h, n :: h in hosts && n in Recorded(nodes, node, now, ip) && Recorded(nodes, node, now, ip)[n].addr == Some(h) ==>
      n == node && ip == Some(h)
  {
    var remaining, after := Remaining(nodes, node, now, ip), Recorded(nodes, node, now, ip);
    forall h | h in was && h !in hosts ensures h in addrs {
      assert h !in Unoccupied(was, remaining);
      var n :| n in remaining && remaining[n].addr == Some(h);
      assert after[n].addr == Some(h);
    }
    assert forall n :: n in after && n != node ==> n in remaining && remaining[n] == after[n];
    forall h, n | h in hosts && n in after && after[n].addr == Some(h) ensures n == node && ip == Some(h) {
      assert h in Unoccupied(was, remaining);
    }
  }
}
