/**
 The relay table as the adapter keeps it: package variables guarded by one lock, with an index by host
 beside the claims. Each method is one critical section, and is proved to do what RelaySpec says while
 keeping the index exact.
 */
module RelayTableClass {
  import opened Basics
  import opened Allocator
  import opened RelaySpec

  class RelayTable {
    var reportRelays: map<nat, Relay>
    var relaysByHost: map<Host, set<nat>>
    var relayGenerations: map<Host, Generation>
    var reportRelaySeq: nat
    var lastRelaySweep: Time

    ghost function View(): Table
      reads this
    {
      Table(reportRelays, relayGenerations, reportRelaySeq, lastRelaySweep)
    }

    /** The index is exactly the inverse image of the claims by host, and no bucket is empty. */
    ghost predicate IndexAgrees()
      reads this
    {
      && (forall h, n :: h in relaysByHost && n in relaysByHost[h] ==> n in reportRelays && reportRelays[n].peer.host == h)
      && (forall n :: n in reportRelays ==>
            reportRelays[n].peer.host in relaysByHost && n in relaysByHost[reportRelays[n].peer.host])
      && (forall h :: h in relaysByHost ==> relaysByHost[h] != {})
    }

    ghost predicate Valid()
      reads this
    {
      && IndexAgrees()
      && WellNumbered(View())
      && Spaced(View())
    }

    constructor ()
      ensures Valid() && View() == Empty
    {
      reportRelays, relaysByHost, relayGenerations := map[], map[], map[];
      reportRelaySeq, lastRelaySweep := 0, 0;
    }

    /** recordRelayLocked. No caller overwrites an entry with it. */
    method RecordRelayLocked(relaySeq: nat, relay: Relay)
      requires IndexAgrees()
      requires relaySeq !in reportRelays
      modifies this`reportRelays, this`relaysByHost
      ensures IndexAgrees()
      ensures reportRelays == old(reportRelays)[relaySeq := relay]
    {
      reportRelays := reportRelays[relaySeq := relay];
      var host := relay.peer.host;
      if host !in relaysByHost {
        relaysByHost := relaysByHost[host := {}];
      }
      relaysByHost := relaysByHost[host := relaysByHost[host] + {relaySeq}];
    }

    /** dropRelayLocked: an emptied bucket is removed. */
    method DropRelayLocked(relaySeq: nat)
      requires IndexAgrees()
      modifies this`reportRelays, this`relaysByHost
      ensures IndexAgrees()
      ensures reportRelays == old(reportRelays) - {relaySeq}
    {
      if relaySeq !in reportRelays {
        return;
      }
      var host := reportRelays[relaySeq].peer.host;
      reportRelays := reportRelays - {relaySeq};
      relaysByHost := relaysByHost[host := relaysByHost[host] - {relaySeq}];
      if |relaysByHost[host]| == 0 {
        relaysByHost := relaysByHost - {host};
      }
    }

    /** The first walk of a sweep: release counts no claim can still be quoting. */
    method SweepGenerations(now: Time)
      modifies this`relayGenerations
      ensures relayGenerations == map h | h in old(relayGenerations)
                && now <= old(relayGenerations)[h].releasedAt + RELAY_LIFETIME :: old(relayGenerations)[h]
    {
      var hosts := relayGenerations.Keys;
      while hosts != {}
        invariant hosts <= relayGenerations.Keys <= old(relayGenerations).Keys
        invariant forall h :: h in relayGenerations ==> relayGenerations[h] == old(relayGenerations)[h]
        invariant forall h :: h in old(relayGenerations) && h !in hosts ==>
          (h in relayGenerations <==> now <= old(relayGenerations)[h].releasedAt + RELAY_LIFETIME)
        decreases hosts
      {
        var addr :| addr in hosts;
        hosts := hosts - {addr};
        if now > relayGenerations[addr].releasedAt + RELAY_LIFETIME {
          relayGenerations := relayGenerations - {addr};
        }
      }
    }

    /** The second walk: claims past their lifetime, each dropped through the index. */
    method SweepClaims(now: Time)
      requires IndexAgrees()
      modifies this`reportRelays, this`relaysByHost
      ensures IndexAgrees()
      ensures reportRelays == map n | n in old(reportRelays) && Live(old(reportRelays)[n], now) :: old(reportRelays)[n]
    {
      var unseen := reportRelays.Keys;
      while unseen != {}
        invariant IndexAgrees()
        invariant unseen <= reportRelays.Keys <= old(reportRelays).Keys
        invariant forall n :: n in reportRelays ==> reportRelays[n] == old(reportRelays)[n]
        invariant forall n :: n in old(reportRelays) && n !in unseen ==>
          (n in reportRelays <==> Live(old(reportRelays)[n], now))
        decreases unseen
      {
        var held :| held in unseen;
        unseen := unseen - {held};
        if now > reportRelays[held].recorded + RELAY_LIFETIME {
          DropRelayLocked(held);
        }
      }
    }

    /** sweepRelaysLocked: at most once every interval. */
    method SweepRelaysLocked(now: Time)
      requires Valid()
      modifies this
      ensures Valid()
      ensures View() == Sweep(old(View()), now)
    {
      if now < lastRelaySweep + RELAY_SWEEP_INTERVAL {
        return;
      }
      lastRelaySweep := now;
      SweepGenerations(now);
      SweepClaims(now);
    }

    /** relayFromLocked: walks only the bucket of the peer's host, and tests the age itself. */
    method RelayFromLocked(upfAddr: Peer, upfSeq: nat, now: Time) returns (held: Option<nat>)
      requires Valid()
      ensures held.Some? ==> held.value in Matching(View(), upfAddr, upfSeq, now)
      ensures held.None? ==> Matching(View(), upfAddr, upfSeq, now) == {}
    {
      var bucket := if upfAddr.host in relaysByHost then relaysByHost[upfAddr.host] else {};
      var unseen := bucket;
      while unseen != {}
        invariant unseen <= bucket
        invariant forall n :: n in bucket && n !in unseen ==> n !in Matching(View(), upfAddr, upfSeq, now)
        decreases unseen
      {
        var n :| n in unseen;
        unseen := unseen - {n};
        var relay := reportRelays[n];
        if relay.upfSeq == upfSeq && relay.peer.port == upfAddr.port && now <= relay.recorded + RELAY_LIFETIME {
          return Some(n);
        }
      }
      return None;
    }

    /** RelayGeneration. */
    method RelayGeneration(addr: Host) returns (count: nat)
      ensures count == Count(View(), addr)
    {
      count := if addr in relayGenerations then relayGenerations[addr].count else 0;
    }

    /** The end of a claim that matched nothing: it takes the number, and the cursor moves to it. */
    method RecordFresh(candidate: nat, relay: Relay)
      requires Valid() && candidate !in reportRelays
      requires RELAY_SEQUENCE_FLOOR <= candidate <= RELAY_SEQUENCE_CEIL
      requires Matching(View(), relay.peer, relay.upfSeq, relay.recorded) == {}
      modifies this
      ensures Valid()
      ensures View() == AddClaim(old(View()), candidate, relay)
    {
      AFreshClaimKeepsSpacing(View(), candidate, relay);
      ghost var after := AddClaim(View(), candidate, relay);
      reportRelaySeq := candidate;
      RecordRelayLocked(candidate, relay);
      assert View() == after;
    }

    /** RelayReportSequence. */
    method RelayReportSequence(upfAddr: Peer, upfSeq: nat, now: Time, authorisedUnder: nat) returns (r: ClaimResult)
      requires Valid()
      modifies this
      ensures Valid()
      ensures Claim(old(View()), upfAddr, upfSeq, now, authorisedUnder, r, View())
    {
      var count := RelayGeneration(upfAddr.host);
      if count != authorisedUnder {
        return PeerReleased;
      }
      SweepRelaysLocked(now);
      var outstanding := RelayFromLocked(upfAddr, upfSeq, now);
      if outstanding.Some? {
        return Retransmission(outstanding.value);
      }
      var candidate, free :=
        NextFreeRelaySequence(reportRelays, reportRelaySeq, RELAY_SEQUENCE_FLOOR, RELAY_SEQUENCE_CEIL);
      if !free {
        return Exhausted;
      }
      RecordFresh(candidate, Relay(upfAddr, upfSeq, now, false));
      return Fresh(candidate);
    }

    /** RenumberReportRelay: the claim is never out of the table. */
    method RenumberReportRelay(relaySeq: nat) returns (r: RenumberResult)
      requires Valid()
      modifies this
      ensures Valid()
      ensures Renumber(old(View()), relaySeq, r, View())
    {
      if relaySeq !in reportRelays {
        return NotHeld;
      }
      var relay := reportRelays[relaySeq];
      var candidate, free :=
        NextFreeRelaySequence(reportRelays, reportRelaySeq, RELAY_SEQUENCE_FLOOR, RELAY_SEQUENCE_CEIL);
      if !free {
        return NoNumber;
      }
      DropRelayLocked(relaySeq);
      reportRelaySeq := candidate;
      RecordRelayLocked(candidate, relay);
      assert View() == AddClaim(Forget(old(View()), relaySeq), candidate, relay);
      return Renumbered(candidate);
    }

    /** ForgetRelaysForHost. */
    method ForgetRelaysForHost(addr: Host, at: Time)
      requires Valid()
      modifies this
      ensures Valid()
      ensures View() == ForgetHost(old(View()), addr, at)
    {
      var count := if addr in relayGenerations then relayGenerations[addr].count else 0;
      relayGenerations := relayGenerations[addr := Generation(at, count + 1)];
      var unseen := if addr in relaysByHost then relaysByHost[addr] else {};
      while unseen != {}
        invariant IndexAgrees()
        invariant reportRelays.Keys <= old(reportRelays).Keys
        invariant forall n :: n in reportRelays ==> reportRelays[n] == old(reportRelays)[n]
        invariant forall n :: n in old(reportRelays) ==>
          (n in reportRelays <==> (old(reportRelays)[n].peer.host != addr || n in unseen))
        modifies this`reportRelays, this`relaysByHost
        decreases unseen
      {
        var held :| held in unseen;
        unseen := unseen - {held};
        DropRelayLocked(held);
      }
      assert reportRelays == ForgetHost(old(View()), addr, at).relays;
    }

    /** TakeReportRelay: the entry stays, marked answered, and only the first taker gets it. */
    method TakeReportRelay(relaySeq: nat, now: Time) returns (origin: Option<Relay>)
      requires Valid()
      modifies this`reportRelays
      ensures Valid()
      ensures View() == Take(old(View()), relaySeq, now)
      ensures origin == Taken(old(View()), relaySeq, now)
    {
      if relaySeq !in reportRelays || reportRelays[relaySeq].answered {
        return None;
      }
      var relay := reportRelays[relaySeq];
      if now > relay.recorded + RELAY_LIFETIME {
        return None;
      }
      reportRelays := reportRelays[relaySeq := relay.(answered := true)];
      return Some(relay);
    }

    /** ForgetReportRelay. */
    method ForgetReportRelay(relaySeq: nat)
      requires Valid()
      modifies this
      ensures Valid()
      ensures View() == Forget(old(View()), relaySeq)
    {
      DropRelayLocked(relaySeq);
    }
  }
}
