/**
 Messages naming one node may overlap: each is dated when it resolves the name, outside the lock, and
 they can be committed in either order. For namings that resolved the dates decide, not the order. For namings that may
 not have, this says exactly when the order still does not matter.
 */
module NamingOrder {
  import opened Basics
  import opened AuthSpec

  /** One commit: the node, when its name was resolved, and what it resolved to, if to anything. */
  datatype Naming = Naming(node: Node, dated: Time, ip: Option<Host>)

  function After(nodes: Nodes, ns: seq<Naming>): Nodes {
    if ns == [] then nodes
    else
      var last := ns[|ns| - 1];
      Recorded(After(nodes, ns[..|ns| - 1]), last.node, last.dated, last.ip)
  }

  /** Dates of one node's namings are distinct, in whatever order they come. */
  ghost predicate DistinctDates(ns: seq<Naming>) {
    forall a, b :: a in ns && b in ns && a.node == b.node && a.dated == b.dated ==> a == b
  }

  /** No naming comes a lifetime after a record it finds. */
  ghost predicate Recents(nodes: Nodes, ns: seq<Naming>) {
    forall n, a :: n in nodes && a in ns ==> a.dated <= nodes[n].seen + UPF_ADDR_LIFETIME
  }

  /** Everything dated, in the records and in the namings, lies within one lifetime. */
  ghost predicate WithinALifetime(nodes: Nodes, ns: seq<Naming>) {
    Recents(nodes, ns) && forall a, b :: a in ns && b in ns ==> a.dated <= b.dated + UPF_ADDR_LIFETIME
  }

  ghost predicate SameNamings(ns: seq<Naming>, ms: seq<Naming>) {
    forall a :: a in ns <==> a in ms
  }

  // -- One record at a time --------------------------------------------------------------------------

  /** What a commit makes of its node's record. */
  function Committed(record: NodeRecord, a: Naming): NodeRecord {
    if record.seen > a.dated then record else NodeRecord(a.dated, if a.ip.Some? then a.ip else record.addr)
  }

  function Commit(nodes: Nodes, a: Naming): Nodes {
    nodes[a.node := Committed(RecordOf(nodes, a.node), a)]
  }

  /** The commits without their expiries. */
  function Folded(nodes: Nodes, ns: seq<Naming>): Nodes {
    if ns == [] then nodes else Commit(Folded(nodes, ns[..|ns| - 1]), ns[|ns| - 1])
  }

  lemma RecordedIsCommit(nodes: Nodes, a: Naming)
    requires forall n :: n in nodes ==> Recent(nodes[n], a.dated)
    ensures Recorded(nodes, a.node, a.dated, a.ip) == Commit(nodes, a)
  {
  }

  /** Within one lifetime nothing expires. */
  lemma {:induction false} AfterIsFolded(nodes: Nodes, ns: seq<Naming>, all: seq<Naming>)
    requires WithinALifetime(nodes, all) && forall a :: a in ns ==> a in all
    ensures After(nodes, ns) == Folded(nodes, ns) && Recents(Folded(nodes, ns), all)
  {
    if ns != [] {
      AfterIsFolded(nodes, ns[..|ns| - 1], all);
      RecordedIsCommit(Folded(nodes, ns[..|ns| - 1]), ns[|ns| - 1]);
    }
  }

  // -- Where a node ends -----------------------------------------------------------------------------

  /** A naming of the node that its record did not already supersede. */
  predicate Counts(record: NodeRecord, n: Node, a: Naming) {
    a.node == n && record.seen <= a.dated
  }

  ghost predicate Latest(record: NodeRecord, ns: seq<Naming>, n: Node, a: Naming) {
    a in ns && Counts(record, n, a) && forall b :: b in ns && b.node == n ==> b.dated <= a.dated
  }

  /** Every resolution of the node that counts is to the address it is at. */
  ghost predicate StaysPut(record: NodeRecord, ns: seq<Naming>, n: Node) {
    forall a :: a in ns && Counts(record, n, a) && a.ip.Some? ==> a.ip == record.addr
  }

  /**
   What any order of the namings makes of the record: its date is the latest, its address that of the latest if that
   resolved, and if no resolution that counts is to another address it is the address it was.
   */
  ghost predicate EndsAs(record: NodeRecord, ns: seq<Naming>, n: Node, after: NodeRecord) {
    && ((forall a :: a in ns ==> !Counts(record, n, a)) ==> after == record)
    && ((exists a :: a in ns && Counts(record, n, a)) ==> exists a :: Latest(record, ns, n, a) && after.seen == a.dated)
    && (forall a :: Latest(record, ns, n, a) && a.ip.Some? ==> after == NodeRecord(a.dated, a.ip))
    && (StaysPut(record, ns, n) ==> after.addr == record.addr)
  }

  lemma CommitKeepsEndsAs(record: NodeRecord, ns: seq<Naming>, n: Node, before: NodeRecord, a: Naming)
    requires EndsAs(record, ns, n, before) && DistinctDates(ns + [a])
    ensures EndsAs(record, ns + [a], n, if a.node == n then Committed(before, a) else before)
  {
    var all, after := ns + [a], if a.node == n then Committed(before, a) else before;
    assert a in all && forall b :: b in all <==> b in ns || b == a;
    if Counts(record, n, a) && (forall b :: b in ns && b.node == n ==> b.dated <= a.dated) {
      assert Latest(record, all, n, a);
    } else if exists b :: b in ns && Counts(record, n, b) {
      var b :| Latest(record, ns, n, b) && before.seen == b.dated;
      assert Latest(record, all, n, b);
    }
    forall c | Latest(record, all, n, c) && c.ip.Some? ensures after == NodeRecord(c.dated, c.ip) {
      if c in ns {
        assert Latest(record, ns, n, c);
      }
    }
    if StaysPut(record, all, n) {
      assert StaysPut(record, ns, n);
    }
  }

  lemma {:induction false} EveryOrderEndsAs(nodes: Nodes, ns: seq<Naming>, n: Node)
    requires DistinctDates(ns)
    ensures EndsAs(RecordOf(nodes, n), ns, n, RecordOf(Folded(nodes, ns), n))
    ensures n in Folded(nodes, ns) <==> n in nodes || exists a :: a in ns && a.node == n
  {
    if ns != [] {
      var before, last := ns[..|ns| - 1], ns[|ns| - 1];
      assert ns == before + [last];
      EveryOrderEndsAs(nodes, before, n);
      CommitKeepsEndsAs(RecordOf(nodes, n), before, n, RecordOf(Folded(nodes, before), n), last);
      assert forall a :: a in ns <==> a in before || a == last;
    }
  }

  // -- When the order does not matter ----------------------------------------------------------------

  /** The node stays at the address it was at, whatever the order, or the latest of its namings resolved. */
  ghost predicate Decided(record: NodeRecord, ns: seq<Naming>, n: Node) {
    StaysPut(record, ns, n) || exists a :: Latest(record, ns, n, a) && a.ip.Some?
  }

  lemma DecidedEndsOneWay(record: NodeRecord, ns: seq<Naming>, ms: seq<Naming>, n: Node, r: NodeRecord, q: NodeRecord)
    requires SameNamings(ns, ms) && Decided(record, ns, n)
    requires EndsAs(record, ns, n, r) && EndsAs(record, ms, n, q)
    ensures r == q
  {
    assert forall a :: Latest(record, ns, n, a) <==> Latest(record, ms, n, a);
    assert StaysPut(record, ns, n) <==> StaysPut(record, ms, n);
  }

  /** Namings every node of which is decided end with the same records in every order, repeats and all. */
  lemma DecidedOrdersAgree(nodes: Nodes, ns: seq<Naming>, ms: seq<Naming>)
    requires SameNamings(ns, ms) && DistinctDates(ns) && WithinALifetime(nodes, ns)
    requires forall n :: Decided(RecordOf(nodes, n), ns, n)
    ensures After(nodes, ns) == After(nodes, ms)
  {
    AfterIsFolded(nodes, ns, ns);
    AfterIsFolded(nodes, ms, ns);
    var x, y := Folded(nodes, ns), Folded(nodes, ms);
    forall n ensures (n in x <==> n in y) && (n in x ==> x[n] == y[n]) {
      EveryOrderEndsAs(nodes, ns, n);
      EveryOrderEndsAs(nodes, ms, n);
      DecidedEndsOneWay(RecordOf(nodes, n), ns, ms, n, RecordOf(x, n), RecordOf(y, n));
    }
  }

  /**
   For resolved namings with distinct dates per node, all dated within one lifetime, every commit order ends with the
   same records and the same reverse map, and each node named since its record is at its latest.
   */
  lemma OrderDoesNotMatter(nodes: Nodes, ns: seq<Naming>, ms: seq<Naming>, addrs: Addrs, addrs': Addrs)
    requires SameNamings(ns, ms) && DistinctDates(ns) && WithinALifetime(nodes, ns)
    requires forall a :: a in ns ==> a.ip.Some?
    requires Agrees(addrs, After(nodes, ns)) && Agrees(addrs', After(nodes, ms))
    ensures After(nodes, ns) == After(nodes, ms) && addrs == addrs'
    ensures forall n, a :: Latest(RecordOf(nodes, n), ns, n, a) ==> RecordOf(After(nodes, ns), n) == NodeRecord(a.dated, a.ip)
    ensures forall n :: (forall a :: a in ns ==> !Counts(RecordOf(nodes, n), n, a)) ==>
      RecordOf(After(nodes, ns), n) == RecordOf(nodes, n)
  {
    AfterIsFolded(nodes, ns, ns);
    forall n ensures EndsAs(RecordOf(nodes, n), ns, n, RecordOf(After(nodes, ns), n)) && Decided(RecordOf(nodes, n), ns, n) {
      EveryOrderEndsAs(nodes, ns, n);
    }
    DecidedOrdersAgree(nodes, ns, ms);
    AgreementDeterminesAddrs(addrs, addrs', After(nodes, ns));
  }

  // -- When it does ----------------------------------------------------------------------------------

  /** Namings of the node no later than its record change nothing of it, if none of its own date resolved. */
  lemma {:induction false} SupersededChangeNothing(nodes: Nodes, ns: seq<Naming>, n: Node)
    requires forall a :: a in ns && a.node == n ==>
      a.dated < RecordOf(nodes, n).seen || (a.dated == RecordOf(nodes, n).seen && a.ip.None?)
    ensures RecordOf(Folded(nodes, ns), n) == RecordOf(nodes, n)
  {
    if ns != [] {
      SupersededChangeNothing(nodes, ns[..|ns| - 1], n);
    }
  }

  lemma {:induction false} FoldedInTurn(nodes: Nodes, ns: seq<Naming>, ms: seq<Naming>)
    ensures Folded(nodes, ns + ms) == Folded(Folded(nodes, ns), ms)
  {
    if ms == [] {
      assert ns + ms == ns;
    } else {
      assert (ns + ms)[..|ns + ms| - 1] == ns + ms[..|ms| - 1];
      FoldedInTurn(nodes, ns, ms[..|ms| - 1]);
    }
  }

  lemma Without(ns: seq<Naming>, a: Naming) returns (rest: seq<Naming>)
    requires a in ns
    ensures multiset(ns) == multiset([a] + rest)
    ensures forall b :: b in rest ==> b in ns
  {
    var i :| 0 <= i < |ns| && ns[i] == a;
    rest := ns[..i] + ns[i + 1..];
    assert ns == ns[..i] + [a] + ns[i + 1..];
  }

  lemma FoldedOneAndTwo(nodes: Nodes, a: Naming, b: Naming)
    ensures Folded(nodes, [b]) == Commit(nodes, b) && Folded(nodes, [a, b]) == Commit(Commit(nodes, a), b)
  {
    assert [b][..0] == [] && [a][..0] == [] && [a, b][..1] == [a];
  }

  /** The namings with one of them first, and with another of them before that. */
  lemma Reordered(ns: seq<Naming>, a: Naming, b: Naming) returns (rest: seq<Naming>, others: seq<Naming>)
    requires a in ns && b in ns && a != b
    ensures multiset([b] + rest) == multiset(ns) && multiset([a, b] + others) == multiset(ns)
    ensures (forall c :: c in rest ==> c in ns) && (forall c :: c in others ==> c in ns)
  {
    rest := Without(ns, b);
    assert a in rest by {
      assert a in multiset(ns);
    }
    others := Without(rest, a);
    assert [a, b] + others == [a] + ([b] + others);
  }

  /** With the latest first, a node is left where it was; with an older resolution before it, it is left there. */
  lemma LatestFirstOrSecond(nodes: Nodes, ns: seq<Naming>, n: Node, a: Naming, b: Naming) returns (ms: seq<Naming>, ls: seq<Naming>)
    requires DistinctDates(ns) && WithinALifetime(nodes, ns)
    requires Latest(RecordOf(nodes, n), ns, n, b) && b.ip.None?
    requires a in ns && Counts(RecordOf(nodes, n), n, a) && a.ip.Some?
    ensures multiset(ms) == multiset(ns) && RecordOf(After(nodes, ms), n) == NodeRecord(b.dated, RecordOf(nodes, n).addr)
    ensures multiset(ls) == multiset(ns) && RecordOf(After(nodes, ls), n) == NodeRecord(b.dated, a.ip)
  {
    var rest, others := Reordered(ns, a, b);
    ms, ls := [b] + rest, [a, b] + others;
    FoldedOneAndTwo(nodes, a, b);
    EndsWhereItStarts(nodes, ns, [b], rest, n, b);
    EndsWhereItStarts(nodes, ns, [a, b], others, n, b);
  }

  /** Once the latest has been committed, and did not resolve, the rest change nothing of its node. */
  lemma EndsWhereItStarts(nodes: Nodes, ns: seq<Naming>, start: seq<Naming>, rest: seq<Naming>, n: Node, b: Naming)
    requires DistinctDates(ns) && WithinALifetime(nodes, ns) && Latest(RecordOf(nodes, n), ns, n, b) && b.ip.None?
    requires (forall c :: c in start ==> c in ns) && (forall c :: c in rest ==> c in ns)
    requires RecordOf(Folded(nodes, start), n).seen == b.dated
    ensures RecordOf(After(nodes, start + rest), n) == RecordOf(Folded(nodes, start), n)
  {
    AfterIsFolded(nodes, start + rest, ns);
    FoldedInTurn(nodes, start, rest);
    SupersededChangeNothing(Folded(nodes, start), rest, n);
  }

  /**
   The order of commits matters exactly when some node is undecided: the latest of its namings did not resolve, and an
   earlier one, that its record does not supersede, resolved to an address it was not at.
   */
  lemma OrderMattersExactlyWhenUndecided(nodes: Nodes, ns: seq<Naming>)
    requires DistinctDates(ns) && WithinALifetime(nodes, ns)
    ensures (forall ms :: multiset(ms) == multiset(ns) ==> After(nodes, ms) == After(nodes, ns))
            <==> (forall n :: Decided(RecordOf(nodes, n), ns, n))
  {
    if forall n :: Decided(RecordOf(nodes, n), ns, n) {
      forall ms: seq<Naming> | multiset(ms) == multiset(ns) ensures After(nodes, ms) == After(nodes, ns) {
        assert forall a :: a in ns <==> a in multiset(ns);
        assert forall a :: a in ms <==> a in multiset(ms);
        DecidedOrdersAgree(nodes, ns, ms);
      }
    } else {
      var n :| !Decided(RecordOf(nodes, n), ns, n);
      var a :| a in ns && Counts(RecordOf(nodes, n), n, a) && a.ip.Some? && a.ip != RecordOf(nodes, n).addr;
      EveryOrderEndsAs(nodes, ns, n);
      var b :| Latest(RecordOf(nodes, n), ns, n, b);
      var ms, ls := LatestFirstOrSecond(nodes, ns, n, a, b);
      assert After(nodes, ms) != After(nodes, ls);
    }
  }

  lemma TwoCommits(nodes: Nodes, a: Naming, b: Naming)
    requires a.node == b.node && a.dated < b.dated <= a.dated + UPF_ADDR_LIFETIME
    requires forall n :: n in nodes ==> b.dated <= nodes[n].seen + UPF_ADDR_LIFETIME
    ensures var record := RecordOf(nodes, a.node);
      && Recorded(Recorded(nodes, a.node, a.dated, a.ip), b.node, b.dated, b.ip)
           == nodes[a.node := Committed(Committed(record, a), b)]
      && Recorded(Recorded(nodes, b.node, b.dated, b.ip), a.node, a.dated, a.ip)
           == nodes[a.node := Committed(Committed(record, b), a)]
  {
    RecordedIsCommit(nodes, a);
    RecordedIsCommit(nodes, b);
    RecordedIsCommit(Commit(nodes, a), b);
    RecordedIsCommit(Commit(nodes, b), a);
  }

  /** Two namings of one node: when both orders end alike. */
  lemma TwoNamingsCommuteExactlyWhen(nodes: Nodes, node: Node, first: Time, ip: Option<Host>, second: Time, ip': Option<Host>)
    requires first < second <= first + UPF_ADDR_LIFETIME
    requires forall n :: n in nodes ==> second <= nodes[n].seen + UPF_ADDR_LIFETIME
    ensures Recorded(Recorded(nodes, node, first, ip), node, second, ip') == Recorded(Recorded(nodes, node, second, ip'), node, first, ip)
            <==> ip'.Some? || ip.None? || Superseded(nodes, node, first) || RecordOf(nodes, node).addr == ip
  {
    var a, b, record := Naming(node, first, ip), Naming(node, second, ip'), RecordOf(nodes, node);
    TwoCommits(nodes, a, b);
    var r, q := Committed(Committed(record, a), b), Committed(Committed(record, b), a);
    assert nodes[node := r] == nodes[node := q] <==> r == q by {
      assert nodes[node := r][node] == r && nodes[node := q][node] == q;
    }
  }

  /** From an empty table, the two orders of a resolution and a later failure to resolve. */
  lemma UnresolvedNamingsDoNotCommute(node: Node, h: Host, first: Time, second: Time)
    requires first < second <= first + UPF_ADDR_LIFETIME
    ensures Recorded(Recorded(map[], node, first, Some(h)), node, second, None)[node] == NodeRecord(second, Some(h))
    ensures Recorded(Recorded(map[], node, second, None), node, first, Some(h))[node] == NodeRecord(second, None)
  {
    TwoCommits(map[], Naming(node, first, Some(h)), Naming(node, second, None));
  }
}
