/**
 The relay table as a value: the claims on reports by relay sequence number, the release counts by host,
 the number cursor and the time of the last sweep. It has no index; the class RelayTable adds one.
 Each operation under the relay lock is a function, or a relation where the source leaves a choice open.
 */
module RelaySpec {
  import opened Basics
  import opened Allocator

  datatype Relay = Relay(peer: Peer, upfSeq: nat, recorded: Time, answered: bool)

  datatype Generation = Generation(releasedAt: Time, count: nat)

  datatype Table = Table(
    relays: map<nat, Relay>,
    generations: map<Host, Generation>,
    cursor: nat,
    lastSweep: Time)

  const Empty: Table := Table(map[], map[], 0, 0)

  /** How many times the host has been released, as far as the table remembers. */
  function Count(t: Table, host: Host): nat {
    if host in t.generations then t.generations[host].count else 0
  }

  /** The claim is within its lifetime at `now`; a claim dated later than `now` is. */
  predicate Live(r: Relay, now: Time) {
    now <= r.recorded + RELAY_LIFETIME
  }

  predicate Claims(r: Relay, peer: Peer, upfSeq: nat) {
    r.peer == peer && r.upfSeq == upfSeq
  }

  /** The numbers under which a report is being relayed at `now`. */
  function Matching(t: Table, peer: Peer, upfSeq: nat, now: Time): set<nat> {
    set n | n in t.relays && Claims(t.relays[n], peer, upfSeq) && Live(t.relays[n], now)
  }

  ghost predicate IsNextNumber(t: Table, c: Option<nat>) {
    NextFree(t.relays.Keys, t.cursor, RELAY_SEQUENCE_FLOOR, RELAY_SEQUENCE_CEIL, c)
  }

  predicate SweepDue(t: Table, now: Time) {
    now >= t.lastSweep + RELAY_SWEEP_INTERVAL
  }

  function Sweep(t: Table, now: Time): Table {
    if !SweepDue(t, now) then t
    else Table(
      map n | n in t.relays && Live(t.relays[n], now) :: t.relays[n],
      map h | h in t.generations && now <= t.generations[h].releasedAt + RELAY_LIFETIME :: t.generations[h],
      t.cursor,
      now)
  }

  datatype ClaimResult = PeerReleased | Exhausted | Retransmission(number: nat) | Fresh(number: nat)

  /** RelayReportSequence. A retransmission may be told any number that matches it. */
  ghost predicate Claim(t: Table, peer: Peer, upfSeq: nat, now: Time, quoted: nat, r: ClaimResult, t': Table) {
    if Count(t, peer.host) != quoted then
      r == PeerReleased && t' == t
    else
      var s := Sweep(t, now);
      if Matching(s, peer, upfSeq, now) != {} then
        r.Retransmission? && r.number in Matching(s, peer, upfSeq, now) && t' == s
      else
        match r
        case Exhausted => IsNextNumber(s, None) && t' == s
        case Fresh(c) => IsNextNumber(s, Some(c)) && t' == AddClaim(s, c, Relay(peer, upfSeq, now, false))
        case _ => false
  }

  function AddClaim(t: Table, c: nat, r: Relay): Table {
    t.(relays := t.relays[c := r], cursor := c)
  }

  datatype RenumberResult = NotHeld | NoNumber | Renumbered(number: nat)

  /** RenumberReportRelay. */
  ghost predicate Renumber(t: Table, n: nat, r: RenumberResult, t': Table) {
    if n !in t.relays then
      r == NotHeld && t' == t
    else
      match r
      case NotHeld => false
      case NoNumber => IsNextNumber(t, None) && t' == t
      case Renumbered(c) => IsNextNumber(t, Some(c)) && t' == AddClaim(Forget(t, n), c, t.relays[n])
  }

  /** The claim a take at `now` would return. */
  function Taken(t: Table, n: nat, now: Time): Option<Relay> {
    if n in t.relays && !t.relays[n].answered && Live(t.relays[n], now) then Some(t.relays[n]) else None
  }

  function Take(t: Table, n: nat, now: Time): Table {
    if Taken(t, n, now).Some? then t.(relays := t.relays[n := t.relays[n].(answered := true)]) else t
  }

  function Forget(t: Table, n: nat): Table {
    t.(relays := t.relays - {n})
  }

  /** ForgetRelaysForHost: count the release, then drop what the host's peers had outstanding. */
  function ForgetHost(t: Table, host: Host, at: Time): Table {
    t.(generations := t.generations[host := Generation(at, Count(t, host) + 1)],
       relays := map n | n in t.relays && t.relays[n].peer.host != host :: t.relays[n])
  }

  // -- What the table always looks like ------------------------------------------------------------

  ghost predicate WellNumbered(t: Table) {
    && (forall n :: n in t.relays ==> RELAY_SEQUENCE_FLOOR <= n <= RELAY_SEQUENCE_CEIL)
    && (t.cursor == 0 || RELAY_SEQUENCE_FLOOR <= t.cursor <= RELAY_SEQUENCE_CEIL)
  }

  predicate Apart(a: Time, b: Time) {
    a > b + RELAY_LIFETIME || b > a + RELAY_LIFETIME
  }

  /** Two claims on one report were recorded more than a lifetime apart. */
  ghost predicate Spaced(t: Table) {
    forall m, n :: m in t.relays && n in t.relays && m != n && Claims(t.relays[m], t.relays[n].peer, t.relays[n].upfSeq) ==>
      Apart(t.relays[m].recorded, t.relays[n].recorded)
  }

  /** Whatever clock reading the claim carries, it matched nothing, so it is more than a lifetime after the others. */
  lemma AFreshClaimKeepsSpacing(t: Table, c: nat, relay: Relay)
    requires Spaced(t)
    requires c !in t.relays
    requires Matching(t, relay.peer, relay.upfSeq, relay.recorded) == {}
    ensures Spaced(AddClaim(t, c, relay))
  {
    forall n | n in t.relays && Claims(t.relays[n], relay.peer, relay.upfSeq)
      ensures relay.recorded > t.relays[n].recorded + RELAY_LIFETIME
    {
      assert n !in Matching(t, relay.peer, relay.upfSeq, relay.recorded);
    }
  }
}
