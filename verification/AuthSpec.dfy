/**
 The authorisation tables as values: where each node identity was last reached and when it was last named,
 and the reverse map from address to the identities at it.
 */
module AuthSpec {
  import opened Basics

  /** addr is None for an identity whose name has not resolved. */
  datatype NodeRecord = NodeRecord(seen: Time, addr: Option<Host>)

  type Addrs = map<Host, set<Node>>
  type Nodes = map<Node, NodeRecord>

  datatype Auth = Auth(addrs: Addrs, nodes: Nodes)

  /** The reverse map is exactly the inverse of the non-empty addresses, with no empty bucket. */
  ghost predicate Agrees(addrs: Addrs, nodes: Nodes) {
    && (forall h, n :: h in addrs && n in addrs[h] ==> n in nodes && nodes[n].addr == Some(h))
    && (forall n :: n in nodes && nodes[n].addr.Some? ==> nodes[n].addr.value in addrs && n in addrs[nodes[n].addr.value])
    && (forall h :: h in addrs ==> addrs[h] != {})
  }

  /** Agreement leaves no choice: the reverse map is determined by the records. */
  lemma AgreementDeterminesAddrs(a: Addrs, b: Addrs, nodes: Nodes)
    requires Agrees(a, nodes) && Agrees(b, nodes)
    ensures a == b
  {
    forall h | h in a ensures h in b && a[h] == b[h] {
      var n :| n in a[h];
      assert nodes[n].addr == Some(h);
      forall m ensures m in a[h] <==> m in b[h] {
        assert m in a[h] ==> nodes[m].addr == Some(h);
        assert m in b[h] ==> nodes[m].addr == Some(h);
      }
    }
    forall h | h in b ensures h in a {
      var n :| n in b[h];
      assert nodes[n].addr == Some(h);
    }
  }

  predicate Recent(record: NodeRecord, now: Time) {
    now <= record.seen + UPF_ADDR_LIFETIME
  }

  /** A node that is not recorded reads as never seen. */
  function RecordOf(nodes: Nodes, node: Node): NodeRecord {
    if node in nodes then nodes[node] else NodeRecord(0, None)
  }

  /** IsKnownUpfAddr: some identity at the address was named recently enough. */
  predicate Known(a: Auth, ip: Host, now: Time) {
    ip in a.addrs && exists n :: n in a.addrs[ip] && Recent(RecordOf(a.nodes, n), now)
  }

  // -- The pieces of RecordUpfAddr -------------------------------------------------------------------

  /** A newer naming of the node has already been applied. */
  predicate Superseded(nodes: Nodes, node: Node, now: Time) {
    RecordOf(nodes, node).seen > now
  }

  function Named(nodes: Nodes, node: Node, now: Time): Nodes {
    if Superseded(nodes, node, now) then nodes else nodes[node := NodeRecord(now, RecordOf(nodes, node).addr)]
  }

  /** What an expiry leaves of the records. */
  function Current(nodes: Nodes, now: Time): Nodes {
    map n | n in nodes && Recent(nodes[n], now) :: nodes[n]
  }

  /** forgetUpfAddrLocked's effect on the reverse map. */
  function Vacate(addrs: Addrs, node: Node, addr: Host): Addrs {
    if addr !in addrs then addrs
    else if addrs[addr] - {node} == {} then addrs - {addr}
    else addrs[addr := addrs[addr] - {node}]
  }

  /** ... and whether it releases the address: no identity is left there. */
  predicate Releases(addrs: Addrs, node: Node, addr: Host) {
    addr in addrs && addrs[addr] - {node} == {}
  }

  function Occupy(addrs: Addrs, node: Node, addr: Host): Addrs {
    addrs[addr := (if addr in addrs then addrs[addr] else {}) + {node}]
  }

  /** The node's record once it has left its address. */
  function Homeless(nodes: Nodes, node: Node): Nodes {
    if node in nodes then nodes[node := nodes[node].(addr := None)] else nodes
  }

  /** The records once the node has left an address other than the one it resolved to. */
  function Departed(nodes: Nodes, node: Node, ip: Option<Host>): Nodes {
    if RecordOf(nodes, node).addr in {None, ip} then nodes else Homeless(nodes, node)
  }

  /** RecordUpfAddr's whole effect on the records, for a resolution dated `now`. */
  function Recorded(nodes: Nodes, node: Node, now: Time, ip: Option<Host>): Nodes {
    var named := Current(Named(nodes, node, now), now);
    if ip.None? || Superseded(nodes, node, now) then named else named[node := NodeRecord(now, ip)]
  }

  // -- What the pieces keep --------------------------------------------------------------------------

  lemma NamingKeepsAgreement(addrs: Addrs, nodes: Nodes, node: Node, now: Time)
    requires Agrees(addrs, nodes)
    ensures Agrees(addrs, Named(nodes, node, now))
  {
  }

  lemma VacatingKeepsAgreement(addrs: Addrs, nodes: Nodes, node: Node, addr: Host)
    requires Agrees(addrs, nodes) && node in nodes && nodes[node].addr == Some(addr)
    ensures Agrees(Vacate(addrs, node, addr), Homeless(nodes, node))
    ensures Agrees(Vacate(addrs, node, addr), nodes - {node})
  {
    forall n | n in nodes && n != node && nodes[n].addr == Some(addr) ensures n in addrs[addr] - {node} {
    }
  }

  lemma OccupyingKeepsAgreement(addrs: Addrs, nodes: Nodes, node: Node, addr: Host, now: Time)
    requires Agrees(addrs, nodes)
    requires node in nodes ==> nodes[node].addr in {None, Some(addr)}
    ensures Agrees(Occupy(addrs, node, addr), nodes[node := NodeRecord(now, Some(addr))])
  {
    var occupied := Occupy(addrs, node, addr);
    forall h, n | h in occupied && n in occupied[h]
      ensures n in nodes[node := NodeRecord(now, Some(addr))] && nodes[node := NodeRecord(now, Some(addr))][n].addr == Some(h)
    {
      if n == node && h != addr {
        assert h in addrs && n in addrs[h];
      }
    }
  }

  /** An identity expires with its place at its address. */
  lemma ExpiringKeepsAgreement(addrs: Addrs, nodes: Nodes, node: Node)
    requires Agrees(addrs, nodes) && node in nodes
    ensures nodes[node].addr.None? ==> Agrees(addrs, nodes - {node})
  {
  }

  /**
   Expiry is lazy here too: whether an address is known at some moment is the same before and after any sweep
   dated no later than that moment, because the question tests the ages itself.
   */
  lemma ExpiryChangesNoAnswer(addrs: Addrs, addrs': Addrs, nodes: Nodes, ip: Host, now: Time, later: Time)
    requires Agrees(addrs, nodes) && Agrees(addrs', Current(nodes, now))
    requires now <= later
    ensures Known(Auth(addrs, nodes), ip, later) <==> Known(Auth(addrs', Current(nodes, now)), ip, later)
  {
    if Known(Auth(addrs, nodes), ip, later) {
      var n :| n in addrs[ip] && Recent(RecordOf(nodes, n), later);
      assert n in Current(nodes, now) && Current(nodes, now)[n].addr == Some(ip);
    }
    if Known(Auth(addrs', Current(nodes, now)), ip, later) {
      var n :| n in addrs'[ip] && Recent(RecordOf(Current(nodes, now), n), later);
      assert n in nodes && nodes[n].addr == Some(ip);
    }
  }

  // -- In plain terms --------------------------------------------------------------------------------

  /** With the maps in agreement: known means that some node recorded at the address was named in the last half hour. */
  lemma KnownMeansNamedLately(a: Auth, ip: Host, now: Time)
    requires Agrees(a.addrs, a.nodes)
    ensures Known(a, ip, now) <==>
      exists node :: node in a.nodes && a.nodes[node].addr == Some(ip) && now <= a.nodes[node].seen + 30 * 60 * SECOND
  {
    if Known(a, ip, now) {
      var n :| n in a.addrs[ip] && Recent(RecordOf(a.nodes, n), now);
      assert n in a.nodes && a.nodes[n].addr == Some(ip);
    }
    if n :| n in a.nodes && a.nodes[n].addr == Some(ip) && now <= a.nodes[n].seen + 30 * 60 * SECOND {
      assert n in a.addrs[ip] && Recent(RecordOf(a.nodes, n), now);
    }
  }

  /**
   What a naming makes of the records. Another node's stays as it was for half an hour from its own date, and then goes.
   The named node's is dated now, at the address it resolved to, or where it was when it did not resolve; unless a later
   naming came first, which stands.
   */
  lemma RecordedInPlainTerms(nodes: Nodes, node: Node, now: Time, ip: Option<Host>)
    ensures var after := Recorded(nodes, node, now, ip);
      && (forall n :: n != node ==> (n in after <==> n in nodes && now <= nodes[n].seen + 30 * 60 * SECOND))
      && (forall n :: n != node && n in after ==> after[n] == nodes[n])
      && node in after
      && (node in nodes && nodes[node].seen > now ==> after[node] == nodes[node])
      && (node in nodes && nodes[node].seen <= now ==> after[node] == NodeRecord(now, if ip.Some? then ip else nodes[node].addr))
      && (node !in nodes ==> after[node] == NodeRecord(now, ip))
  {
  }

  /**
   A naming that resolved, and that no later one came before, makes its address known for half an hour; and not for
   longer, unless another node is there.
   */
  lemma ANamingIsGoodForHalfAnHour(nodes: Nodes, addrs: Addrs, node: Node, dated: Time, ip: Host, asked: Time)
    requires node in nodes ==> nodes[node].seen <= dated
    requires Agrees(addrs, Recorded(nodes, node, dated, Some(ip)))
    ensures asked <= dated + 30 * 60 * SECOND ==> Known(Auth(addrs, Recorded(nodes, node, dated, Some(ip))), ip, asked)
    ensures (forall n :: n in nodes && n != node ==> nodes[n].addr != Some(ip)) ==>
      (Known(Auth(addrs, Recorded(nodes, node, dated, Some(ip))), ip, asked) <==> asked <= dated + 30 * 60 * SECOND)
  {
    var after := Recorded(nodes, node, dated, Some(ip));
    RecordedInPlainTerms(nodes, node, dated, Some(ip));
    KnownMeansNamedLately(Auth(addrs, after), ip, asked);
    assert node in after && after[node] == NodeRecord(dated, Some(ip));
  }
}
