/**
 The report handlers in the form the adapter runs them, one at a time: what each call does to the relay table and
 the transaction tables when no other thread comes between its critical sections, whatever it found there. What
 other threads may do in between is Protocol's subject; the two places where it sends a call another way, a
 release before the claim and one before a renumbering, are inputs here.
 */
module ReportHandler {
  import opened Basics
  import opened Allocator
  import opened RelaySpec
  import opened AuthSpec
  import opened RelayTableClass
  import opened AuthTableClass
  import opened TransactionSpec

  class Message {
    const isRequest: bool
    var sequenceNumber: nat

    constructor (isRequest: bool, sequenceNumber: nat)
      ensures this.isRequest == isRequest && this.sequenceNumber == sequenceNumber
    {
      this.isRequest, this.sequenceNumber := isRequest, sequenceNumber;
    }
  }

  type Flat = map<Key, nat>

  /** A transaction is registered where there was none, and nothing else changes. */
  predicate Adds(flat: Flat, key: Key, flat': Flat) {
    key !in flat && key in flat' && flat' == flat[key := flat'[key]]
  }

  /** An answer under the key leaves a transaction there to meet the next copy, its own or one that was there already. */
  predicate Answers(flat: Flat, key: Key, fails: bool, flat': Flat) {
    if fails || key in flat then flat' == flat else Adds(flat, key, flat')
  }

  datatype SendError = DuplicateSequenceError | NotSent

  /** A send fails, or finds its number taken, or registers. */
  predicate SendsAs(flat: Flat, key: Key, fails: bool, err: Option<SendError>, flat': Flat) {
    && err == (if fails then Some(NotSent) else if key in flat then Some(DuplicateSequenceError) else None)
    && if err.None? then Adds(flat, key, flat') else flat' == flat
  }

  datatype Outcome = Relayed(number: nat) | Refused | ClaimLost

  datatype ReportOutcome =
    | UnknownPeer
    | NoSmf
    | ReleasedMeanwhile
    | NoNumbers
    | AlreadyRelayed(number: nat)
    | Tried(outcome: Outcome)

  // -- The numbers a relay is tried under ------------------------------------------------------------

  /** The table while the relay claimed under tried[0] is tried under tried[i]. */
  function TableAt(t: Table, tried: seq<nat>, i: nat): Table
    requires i < |tried| && (i > 0 ==> tried[0] in t.relays)
  {
    if i == 0 then t else AddClaim(Forget(t, tried[0]), tried[i], t.relays[tried[0]])
  }

  /** Each number after the first is the next free one while the claim still holds the number before it. */
  ghost predicate IsTrail(t: Table, tried: seq<nat>) {
    && 1 <= |tried| <= RELAY_SEND_ATTEMPTS + 1
    && (|tried| > 1 ==> tried[0] in t.relays)
    && forall i :: 0 <= i < |tried| - 1 ==> IsNextNumber(TableAt(t, tried, i), Some(tried[i + 1]))
  }

  function Last(t: Table, tried: seq<nat>): Table
    requires |tried| >= 1 && (|tried| > 1 ==> tried[0] in t.relays)
  {
    TableAt(t, tried, |tried| - 1)
  }

  /** Every number before the last was refused, because a transaction of the SMF's had it. */
  ghost predicate AllTaken(self: Peer, flat: Flat, tried: seq<nat>, fails: seq<bool>)
    requires |tried| <= |fails| + 1
  {
    forall i :: 0 <= i < |tried| - 1 ==> Key(self, tried[i]) in flat && !fails[i]
  }

  /** What becomes of a relay that is tried under those numbers. */
  ghost predicate Attempted(self: Peer, t: Table, flat: Flat, tried: seq<nat>, fails: seq<bool>,
                            answer: Key, refusalFails: bool, outcome: Outcome, t': Table, flat': Flat)
    requires IsTrail(t, tried) && |fails| == RELAY_SEND_ATTEMPTS
  {
    var k, n := |tried| - 1, tried[|tried| - 1];
    && AllTaken(self, flat, tried, fails)
    && match outcome
       case Relayed(m) =>
         m == n && k < RELAY_SEND_ATTEMPTS && !fails[k] && Adds(flat, Key(self, n), flat') && t' == Last(t, tried)
       case ClaimLost =>
         k == 0 && !fails[0] && n !in t.relays && Key(self, n) in flat && t' == t && flat' == flat
       case Refused =>
         && t' == Forget(Last(t, tried), n)
         && Answers(flat, answer, refusalFails, flat')
         && (k < RELAY_SEND_ATTEMPTS ==>
               fails[k] || (Key(self, n) in flat && n in Last(t, tried).relays && IsNextNumber(Last(t, tried), None)))
  }

  /** One round of the retry: sent, the claim found gone, no use going on, or the number to try next. */
  datatype Round = Sent | Lost | GivesUp | Next(number: nat)

  ghost predicate TriedOnce(self: Peer, t: Table, flat: Flat, n: nat, fails: bool, round: Round, t': Table, flat': Flat) {
    match round
    case Sent => !fails && Adds(flat, Key(self, n), flat') && t' == t
    case Lost => !fails && Key(self, n) in flat && n !in t.relays && t' == t && flat' == flat
    case GivesUp => (fails || (Key(self, n) in flat && n in t.relays && IsNextNumber(t, None))) && t' == t && flat' == flat
    case Next(m) => !fails && Key(self, n) in flat && Renumber(t, n, Renumbered(m), t') && flat' == flat
  }

  /** What becomes of a report from an admitted peer. */
  ghost predicate Reported(self: Peer, t: Table, flat: Flat, relay: Relay, quoted: nat, fails: seq<bool>, refusalFails: bool,
                           outcome: ReportOutcome, tried: seq<nat>, t': Table, flat': Flat)
    requires |fails| == RELAY_SEND_ATTEMPTS
  {
    var s, answer := Sweep(t, relay.recorded), Key(relay.peer, relay.upfSeq);
    var held := Matching(s, relay.peer, relay.upfSeq, relay.recorded);
    && (outcome.ReleasedMeanwhile? <==> Count(t, relay.peer.host) != quoted)
    && match outcome
       case ReleasedMeanwhile => t' == t && flat' == flat
       case AlreadyRelayed(n) => n in held && t' == s && flat' == flat
       case NoNumbers => held == {} && IsNextNumber(s, None) && t' == s && Answers(flat, answer, refusalFails, flat')
       case Tried(o) =>
         && held == {} && 1 <= |tried| && IsNextNumber(s, Some(tried[0])) && IsTrail(AddClaim(s, tried[0], relay), tried)
         && Attempted(self, AddClaim(s, tried[0], relay), flat, tried, fails, answer, refusalFails, o, t', flat')
       case _ => false
  }

  /** ... and from any: a peer the SMF has not named is told nothing. */
  ghost predicate ReportedUnderGate(self: Peer, known: bool, smfKnown: bool, t: Table, flat: Flat, relay: Relay,
                                    fails: seq<bool>, refusalFails: bool,
                                    outcome: ReportOutcome, tried: seq<nat>, t': Table, flat': Flat)
    requires |fails| == RELAY_SEND_ATTEMPTS
  {
    if !known then outcome == UnknownPeer && t' == t && flat' == flat
    else if !smfKnown then outcome == NoSmf && t' == t && Answers(flat, Key(relay.peer, relay.upfSeq), refusalFails, flat')
    else Reported(self, t, flat, relay, Count(t, relay.peer.host), fails, refusalFails, outcome, tried, t', flat')
  }

  /** A claim that can still be taken is answered toward where it came from and ends; any other is left alone. */
  ghost predicate AnsweredAs(t: Table, flat: Flat, n: nat, now: Time, fails: bool, t': Table, flat': Flat) {
    match Taken(t, n, now)
    case None => t' == t && flat' == flat
    case Some(r) => t' == Forget(t, n) && Answers(flat, Key(r.peer, r.upfSeq), fails, flat')
  }

  /** So far every number tried was taken, nothing is registered, and the claim is under the last. */
  ghost predicate Trying(self: Peer, t: Table, flat: Flat, tried: seq<nat>, fails: seq<bool>, t': Table, flat': Flat) {
    && |fails| == RELAY_SEND_ATTEMPTS && IsTrail(t, tried) && AllTaken(self, flat, tried, fails)
    && t' == Last(t, tried) && flat' == flat
  }

  /** A round that sends the relay, or finds its claim gone, ends the retry; one that renumbers goes on with it. */
  lemma RoundEndsItOrGoesOn(self: Peer, t: Table, flat: Flat, tried: seq<nat>, fails: seq<bool>, answer: Key, refusalFails: bool,
                            before: Table, round: Round, t': Table, flat': Flat)
    requires Trying(self, t, flat, tried, fails, before, flat) && |tried| <= RELAY_SEND_ATTEMPTS
    requires TriedOnce(self, before, flat, tried[|tried| - 1], fails[|tried| - 1], round, t', flat')
    ensures match round
            case Sent => Attempted(self, t, flat, tried, fails, answer, refusalFails, Relayed(tried[|tried| - 1]), t', flat')
            case Lost => Attempted(self, t, flat, tried, fails, answer, refusalFails, ClaimLost, t', flat')
            case Next(m) => Trying(self, t, flat, tried + [m], fails, t', flat')
            case GivesUp => Trying(self, t, flat, tried, fails, t', flat') && NoUse(self, t, flat, tried, fails)
  {
    if round.Next? {
      TrailGrows(t, tried, round.number, t');
    }
  }

  /** The last number cannot be sent under, and there is no other. */
  ghost predicate NoUse(self: Peer, t: Table, flat: Flat, tried: seq<nat>, fails: seq<bool>)
    requires IsTrail(t, tried) && |fails| == RELAY_SEND_ATTEMPTS
  {
    var k := |tried| - 1;
    || k == RELAY_SEND_ATTEMPTS
    || fails[k]
    || (Key(self, tried[k]) in flat && tried[k] in Last(t, tried).relays && IsNextNumber(Last(t, tried), None))
  }

  lemma RefusalEndsIt(self: Peer, t: Table, flat: Flat, tried: seq<nat>, fails: seq<bool>, answer: Key, refusalFails: bool,
                      before: Table, t': Table, flat': Flat)
    requires Trying(self, t, flat, tried, fails, before, flat) && NoUse(self, t, flat, tried, fails)
    requires t' == Forget(before, tried[|tried| - 1]) && Answers(flat, answer, refusalFails, flat')
    ensures Attempted(self, t, flat, tried, fails, answer, refusalFails, Refused, t', flat')
  {
  }

  lemma TakenThenForgotten(t: Table, n: nat, now: Time)
    ensures Forget(Take(t, n, now), n) == Forget(t, n)
  {
  }

  lemma TrailGrows(t: Table, tried: seq<nat>, m: nat, t': Table)
    requires IsTrail(t, tried) && |tried| <= RELAY_SEND_ATTEMPTS
    requires Renumber(Last(t, tried), tried[|tried| - 1], Renumbered(m), t')
    ensures IsTrail(t, tried + [m]) && Last(t, tried + [m]) == t'
  {
    var k, longer := |tried| - 1, tried + [m];
    assert forall i :: 0 <= i <= k ==> TableAt(t, longer, i) == TableAt(t, tried, i);
    if k > 0 {
      assert IsNextNumber(TableAt(t, tried, k - 1), Some(tried[k]));
      assert tried[k] !in Forget(t, tried[0]).relays;
    }
  }

  class Adapter {
    const self: Peer
    const relays: RelayTable

    /** Both levels of the transaction tables as TransactionTables.ConsumerTable is proved to present them. */
    var transactions: Flat
    var started: nat

    constructor (self: Peer, relays: RelayTable)
      ensures this.self == self && this.relays == relays && transactions == map[]
    {
      this.self, this.relays, transactions, started := self, relays, map[], 0;
    }

    /** A request is registered under the adapter's own socket, a response under its destination. */
    function Consumer(isRequest: bool, addr: Peer): Peer {
      if isRequest then self else addr
    }

    /** SendPfcp; `fails` is whether it fails before it registers. */
    method SendPfcp(isRequest: bool, number: nat, addr: Peer, fails: bool) returns (err: Option<SendError>)
      modifies this
      ensures SendsAs(old(transactions), Key(Consumer(isRequest, addr), number), fails, err, transactions)
      ensures var key := Key(if isRequest then self else addr, number);
        && (fails ==> err == Some(NotSent) && transactions == old(transactions))
        && (!fails && key in old(transactions) ==> err == Some(DuplicateSequenceError) && transactions == old(transactions))
        && (!fails && key !in old(transactions) ==> err == None && transactions == old(transactions)[key := old(started)])
    {
      var key := Key(Consumer(isRequest, addr), number);
      if fails {
        return Some(NotSent);
      }
      if key in transactions {
        return Some(DuplicateSequenceError);
      }
      transactions, started := transactions[key := started], started + 1;
      return None;
    }

    /** refuseAndRelease: the claim ends once the refusal is registered, or could not be. */
    method RefuseAndRelease(upfSeq: nat, upfAddr: Peer, relaySeq: nat, fails: bool)
      requires relays.Valid()
      modifies this, relays
      ensures relays.Valid() && relays.View() == Forget(old(relays.View()), relaySeq)
      ensures Answers(old(transactions), Key(upfAddr, upfSeq), fails, transactions)
    {
      var _ := SendPfcp(false, upfSeq, upfAddr, fails);
      relays.ForgetReportRelay(relaySeq);
    }

    /** One round: a send, and when its number is taken, a renumbering. */
    method Try(report: Message, upfAddr: Peer, relaySeq: nat, fails: bool) returns (round: Round)
      requires relays.Valid() && report.isRequest
      modifies this, report, relays
      ensures relays.Valid() && report.sequenceNumber == relaySeq
      ensures TriedOnce(self, old(relays.View()), old(transactions), relaySeq, fails, round, relays.View(), transactions)
    {
      report.sequenceNumber := relaySeq;
      var err := SendPfcp(true, relaySeq, upfAddr, fails);
      if err != Some(DuplicateSequenceError) {
        return if err.None? then Sent else GivesUp;
      }
      var renumbered := relays.RenumberReportRelay(relaySeq);
      round := match renumbered
        case NotHeld => Lost
        case NoNumber => GivesUp
        case Renumbered(m) => Next(m);
    }

    /**
     The bounded retry: the relay is sent under its number, or under the next free one when a transaction has that.
     The claim may have been released before it starts; that goes unnoticed unless a number is refused.
     */
    method SendRelay(report: Message, upfAddr: Peer, upfSeq: nat, first: nat, fails: seq<bool>, refusalFails: bool)
      returns (outcome: Outcome, ghost tried: seq<nat>)
      requires relays.Valid() && report.isRequest && |fails| == RELAY_SEND_ATTEMPTS
      modifies this, report, relays
      ensures relays.Valid()
      ensures IsTrail(old(relays.View()), tried) && tried[0] == first
      ensures Attempted(self, old(relays.View()), old(transactions), tried, fails, Key(upfAddr, upfSeq), refusalFails,
                        outcome, relays.View(), transactions)
      ensures outcome.Relayed? ==> report.sequenceNumber == outcome.number
    {
      ghost var t, flat, answer := relays.View(), transactions, Key(upfAddr, upfSeq);
      var relaySeq, attempt := first, 0;
      tried := [first];
      while attempt < RELAY_SEND_ATTEMPTS
        invariant 0 <= attempt <= RELAY_SEND_ATTEMPTS && |tried| == attempt + 1
        invariant tried[0] == first && tried[attempt] == relaySeq
        invariant Trying(self, t, flat, tried, fails, relays.View(), transactions) && relays.Valid()
      {
        ghost var before := relays.View();
        var round := Try(report, upfAddr, relaySeq, fails[attempt]);
        RoundEndsItOrGoesOn(self, t, flat, tried, fails, answer, refusalFails, before, round, relays.View(), transactions);
        if round.Sent? {
          return Relayed(relaySeq), tried;
        }
        if round.Lost? {
          return ClaimLost, tried;
        }
        if round.GivesUp? {
          break;
        }
        relaySeq, attempt := round.number, attempt + 1;
        tried := tried + [relaySeq];
      }
      ghost var before := relays.View();
      RefuseAndRelease(upfSeq, upfAddr, relaySeq, refusalFails);
      RefusalEndsIt(self, t, flat, tried, fails, answer, refusalFails, before, relays.View(), transactions);
      outcome := Refused;
    }

    /** HandlePfcpSessionReportRequest from its claim on, quoting the release count it read before the source check. */
    method RelayAdmitted(report: Message, upfAddr: Peer, upfSeq: nat, now: Time, authorisedUnder: nat,
                         fails: seq<bool>, refusalFails: bool)
      returns (outcome: ReportOutcome, ghost tried: seq<nat>)
      requires relays.Valid() && report.isRequest && |fails| == RELAY_SEND_ATTEMPTS
      modifies this, report, relays
      ensures relays.Valid()
      ensures Reported(self, old(relays.View()), old(transactions), Relay(upfAddr, upfSeq, now, false), authorisedUnder,
                       fails, refusalFails, outcome, tried, relays.View(), transactions)
    {
      tried := [];
      var claimed := relays.RelayReportSequence(upfAddr, upfSeq, now, authorisedUnder);
      match claimed {
        case PeerReleased =>
          outcome := ReleasedMeanwhile;
        case Exhausted =>
          var _ := SendPfcp(false, upfSeq, upfAddr, refusalFails);
          outcome := NoNumbers;
        case Retransmission(n) =>
          outcome := AlreadyRelayed(n);
        case Fresh(n) =>
          var o, numbers := SendRelay(report, upfAddr, upfSeq, n, fails, refusalFails);
          outcome, tried := Tried(o), numbers;
      }
    }

    /** HandlePfcpSessionReportRequest: the count is read before the check, so that a release in between is noticed. */
    method HandlePfcpSessionReportRequest(report: Message, upfAddr: Peer, auth: AuthTable, checkedAt: Time, smfKnown: bool,
                                          now: Time, fails: seq<bool>, refusalFails: bool)
      returns (outcome: ReportOutcome, ghost tried: seq<nat>)
      requires relays.Valid() && report.isRequest && |fails| == RELAY_SEND_ATTEMPTS
      modifies this, report, relays
      ensures relays.Valid()
      ensures ReportedUnderGate(self, Known(Auth(old(auth.upfAddrs), old(auth.upfNodeAddrs)), upfAddr.host, checkedAt), smfKnown,
                                old(relays.View()), old(transactions), Relay(upfAddr, old(report.sequenceNumber), now, false),
                                fails, refusalFails, outcome, tried, relays.View(), transactions)
      // A report is dropped, and nothing done about it, exactly when no node at its host was named in the last half hour.
      ensures Agrees(auth.upfAddrs, auth.upfNodeAddrs) ==>
        (outcome.UnknownPeer? <==>
           !exists node :: node in auth.upfNodeAddrs && auth.upfNodeAddrs[node].addr == Some(upfAddr.host)
                           && checkedAt <= auth.upfNodeAddrs[node].seen + 30 * 60 * SECOND)
      ensures outcome.UnknownPeer? ==> relays.View() == old(relays.View()) && transactions == old(transactions)
      ensures outcome.NoSmf? <==> !outcome.UnknownPeer? && !smfKnown
      ensures outcome.NoSmf? ==> relays.View() == old(relays.View())
      ensures outcome.NoSmf? && !refusalFails ==> Key(upfAddr, old(report.sequenceNumber)) in transactions
      ensures !outcome.ReleasedMeanwhile?
    {
      tried := [];
      if Agrees(auth.upfAddrs, auth.upfNodeAddrs) {
        KnownMeansNamedLately(Auth(auth.upfAddrs, auth.upfNodeAddrs), upfAddr.host, checkedAt);
      }
      var authorisedUnder := relays.RelayGeneration(upfAddr.host);
      var known := auth.IsKnownUpfAddr(upfAddr.host, checkedAt);
      if !known {
        return UnknownPeer, tried;
      }
      var upfSeq := report.sequenceNumber;
      if !smfKnown {
        var _ := SendPfcp(false, upfSeq, upfAddr, refusalFails);
        return NoSmf, tried;
      }
      outcome, tried := RelayAdmitted(report, upfAddr, upfSeq, now, authorisedUnder, fails, refusalFails);
    }

    /** HandlePfcpSessionReportResponse: the claim ends when the answer has been registered or refused registration. */
    method HandlePfcpSessionReportResponse(response: Message, now: Time, fails: bool)
      requires relays.Valid() && !response.isRequest
      modifies this, response, relays
      ensures relays.Valid()
      ensures AnsweredAs(old(relays.View()), old(transactions), old(response.sequenceNumber), now, fails,
                         relays.View(), transactions)
      ensures response.sequenceNumber == match Taken(old(relays.View()), old(response.sequenceNumber), now)
                                         case Some(r) => r.upfSeq
                                         case None => old(response.sequenceNumber)
      // A claim not yet answered and not past its thirty seconds is answered, under the number its report came with.
      ensures var n := old(response.sequenceNumber);
        if n in old(relays.reportRelays) && !old(relays.reportRelays)[n].answered
           && now <= old(relays.reportRelays)[n].recorded + 30 * SECOND
        then var r := old(relays.reportRelays)[n];
             && response.sequenceNumber == r.upfSeq && relays.reportRelays == old(relays.reportRelays) - {n}
             && (!fails ==> Key(r.peer, r.upfSeq) in transactions)
        else response.sequenceNumber == n && relays.View() == old(relays.View()) && transactions == old(transactions)
    {
      var relaySeq := response.sequenceNumber;
      var origin := relays.TakeReportRelay(relaySeq, now);
      if origin.None? {
        return;
      }
      response.sequenceNumber := origin.value.upfSeq;
      var _ := SendPfcp(false, response.sequenceNumber, origin.value.peer, fails);
      TakenThenForgotten(old(relays.View()), relaySeq, now);
      relays.ForgetReportRelay(relaySeq);
    }

    /** What a relayed request's goroutine does when nothing answered it. */
    method GiveUp(sent: nat, now: Time, fails: bool)
      requires relays.Valid()
      modifies this, relays
      ensures relays.Valid()
      ensures AnsweredAs(old(relays.View()), old(transactions), sent, now, fails, relays.View(), transactions)
      ensures if sent in old(relays.reportRelays) && !old(relays.reportRelays)[sent].answered
                 && now <= old(relays.reportRelays)[sent].recorded + 30 * SECOND
              then var r := old(relays.reportRelays)[sent];
                   && relays.reportRelays == old(relays.reportRelays) - {sent}
                   && (!fails ==> Key(r.peer, r.upfSeq) in transactions)
              else relays.View() == old(relays.View()) && transactions == old(transactions)
    {
      var origin := relays.TakeReportRelay(sent, now);
      if origin.Some? {
        RefuseAndRelease(origin.value.upfSeq, origin.value.peer, sent, fails);
      }
    }
  }

  // -- What a report handled alone comes to ----------------------------------------------------------

  /**
   A relay that went out leaves exactly its own claim behind, under the number its request has; one that was refused
   leaves none; and either way every other claim is as it was.
   */
  lemma ARelayLeavesOneClaimOrNone(self: Peer, s: Table, flat: Flat, relay: Relay, tried: seq<nat>, fails: seq<bool>,
                                   answer: Key, refusalFails: bool, outcome: Outcome, t': Table, flat': Flat)
    requires 1 <= |tried| && IsNextNumber(s, Some(tried[0])) && |fails| == RELAY_SEND_ATTEMPTS
    requires IsTrail(AddClaim(s, tried[0], relay), tried)
    requires Attempted(self, AddClaim(s, tried[0], relay), flat, tried, fails, answer, refusalFails, outcome, t', flat')
    ensures !outcome.ClaimLost?
    ensures outcome.Refused? ==> t'.relays == s.relays
    ensures outcome.Relayed? ==> outcome.number !in s.relays && t'.relays == s.relays[outcome.number := relay]
                                 && Key(self, outcome.number) in flat'
  {
    var k := |tried| - 1;
    if k > 0 {
      assert IsNextNumber(TableAt(AddClaim(s, tried[0], relay), tried, k - 1), Some(tried[k]));
    }
    assert tried[k] !in s.relays;
  }

  /** Some claim on the report, under any number, is within its thirty seconds. */
  ghost predicate HeldNow(t: Table, peer: Peer, upfSeq: nat, now: Time) {
    exists n :: n in t.relays && t.relays[n].peer.host == peer.host && t.relays[n].peer.port == peer.port
                && t.relays[n].upfSeq == upfSeq && now <= t.relays[n].recorded + 30 * SECOND
  }

  /**
   What becomes of a report from an admitted peer. It is dropped exactly when its host's count has moved; it is recognised
   exactly when a claim on it is within its lifetime, and then nothing is sent; with every number taken, and when every
   number tried is, it is refused under its own number; and relayed under one that was free.
   */
  lemma ReportedInPlainTerms(self: Peer, t: Table, flat: Flat, relay: Relay, quoted: nat, fails: seq<bool>, refusalFails: bool,
                             outcome: ReportOutcome, tried: seq<nat>, t': Table, flat': Flat)
    requires |fails| == RELAY_SEND_ATTEMPTS
    requires Reported(self, t, flat, relay, quoted, fails, refusalFails, outcome, tried, t', flat')
    ensures var host := relay.peer.host;
      outcome.ReleasedMeanwhile? <==> (if host in t.generations then t.generations[host].count else 0) != quoted
    ensures outcome.ReleasedMeanwhile? ==> t' == t && flat' == flat
    ensures !outcome.ReleasedMeanwhile? ==>
      (outcome.AlreadyRelayed? <==> HeldNow(t, relay.peer, relay.upfSeq, relay.recorded))
    ensures outcome.AlreadyRelayed? ==> flat' == flat && outcome.number in t'.relays
    ensures outcome.NoNumbers? ==> forall n :: 0x80_0000 <= n <= 0xFF_FFFF ==> n in t'.relays
    ensures (outcome.NoNumbers? || outcome == Tried(Refused)) && !refusalFails ==> Key(relay.peer, relay.upfSeq) in flat'
    ensures outcome != Tried(ClaimLost)
    ensures outcome.Tried? && outcome.outcome.Relayed? ==>
      var n := outcome.outcome.number;
      && 0x80_0000 <= n <= 0xFF_FFFF && n in t'.relays && t'.relays[n] == relay
      && Key(self, n) !in flat && Key(self, n) in flat'
  {
    var s := Sweep(t, relay.recorded);
    SweptIsTheYoung(t, relay.recorded, relay.peer, relay.upfSeq);
    if outcome.Tried? {
      var t0, k := AddClaim(s, tried[0], relay), |tried| - 1;
      ARelayLeavesOneClaimOrNone(self, s, flat, relay, tried, fails, Key(relay.peer, relay.upfSeq), refusalFails, outcome.outcome, t', flat');
      if k > 0 {
        assert IsNextNumber(TableAt(t0, tried, k - 1), Some(tried[k]));
      }
    }
  }

  lemma SweptIsTheYoung(t: Table, now: Time, peer: Peer, upfSeq: nat)
    ensures Matching(Sweep(t, now), peer, upfSeq, now) != {} <==> HeldNow(t, peer, upfSeq, now)
  {
    if HeldNow(t, peer, upfSeq, now) {
      var n :| n in t.relays && t.relays[n].peer.host == peer.host && t.relays[n].peer.port == peer.port
                && t.relays[n].upfSeq == upfSeq && now <= t.relays[n].recorded + 30 * SECOND;
      assert n in Matching(Sweep(t, now), peer, upfSeq, now);
    }
    if n :| n in Matching(Sweep(t, now), peer, upfSeq, now) {
      assert t.relays[n].peer.host == peer.host;
    }
  }

  /** And what it leaves alone: no claim within its lifetime changes, and nobody else's transaction comes or goes. */
  lemma ReportedLeavesOthersAlone(self: Peer, t: Table, flat: Flat, relay: Relay, quoted: nat, fails: seq<bool>, refusalFails: bool,
                                  outcome: ReportOutcome, tried: seq<nat>, t': Table, flat': Flat)
    requires |fails| == RELAY_SEND_ATTEMPTS
    requires Reported(self, t, flat, relay, quoted, fails, refusalFails, outcome, tried, t', flat')
    ensures forall n :: n in t.relays && relay.recorded <= t.relays[n].recorded + 30 * SECOND ==> n in t'.relays && t'.relays[n] == t.relays[n]
    ensures forall n :: n in t'.relays ==> (n in t.relays && t'.relays[n] == t.relays[n]) || outcome == Tried(Relayed(n))
    ensures forall k :: k in flat ==> k in flat' && flat'[k] == flat[k]
    ensures forall k :: k in flat' ==> k in flat || k == Key(relay.peer, relay.upfSeq)
                                       || (k.consumer == self && outcome == Tried(Relayed(k.number)))
  {
    if outcome.Tried? {
      var s := Sweep(t, relay.recorded);
      ARelayLeavesOneClaimOrNone(self, s, flat, relay, tried, fails, Key(relay.peer, relay.upfSeq), refusalFails, outcome.outcome, t', flat');
    }
  }

  /**
   The numbers the adapter allocates from that transactions have and no relay does: those of the SMF's own requests, and
   of relayed requests whose claim is forgotten and whose goroutine has yet to remove them.
   */
  function Foreign(self: Peer, s: Table, flat: Flat): set<nat> {
    set n | RELAY_SEQUENCE_FLOOR <= n <= RELAY_SEQUENCE_CEIL && Key(self, n) in flat && n !in s.relays
  }

  lemma TrailIsConsecutive(s: Table, relay: Relay, tried: seq<nat>, m: nat)
    requires 1 <= m <= |tried| && IsNextNumber(s, Some(tried[0])) && IsTrail(AddClaim(s, tried[0], relay), tried)
    ensures Consecutive(s.relays.Keys, s.cursor, RELAY_SEQUENCE_FLOOR, RELAY_SEQUENCE_CEIL, tried[..m])
  {
    var t := AddClaim(s, tried[0], relay);
    forall i | 0 <= i < m - 1
      ensures NextFree(s.relays.Keys + {tried[i]}, tried[i], RELAY_SEQUENCE_FLOOR, RELAY_SEQUENCE_CEIL, Some(tried[..m][i + 1]))
    {
      assert IsNextNumber(TableAt(t, tried, i), Some(tried[i + 1]));
      assert TableAt(t, tried, i).relays.Keys == s.relays.Keys + {tried[i]};
    }
  }

  /**
   A report is relayed, and not refused for a coincidence, whenever nothing keeps its sends from registering and the SMF
   has fewer transactions in the adapter's half than there are attempts, and than there are numbers no relay holds.
   How many relays of its own are in flight does not matter.
   */
  lemma TheRetryGetsThrough(self: Peer, t: Table, flat: Flat, relay: Relay, quoted: nat, fails: seq<bool>, refusalFails: bool,
                            outcome: Outcome, tried: seq<nat>, t': Table, flat': Flat, free: set<nat>)
    requires |fails| == RELAY_SEND_ATTEMPTS && forall i :: 0 <= i < RELAY_SEND_ATTEMPTS ==> !fails[i]
    requires Reported(self, t, flat, relay, quoted, fails, refusalFails, Tried(outcome), tried, t', flat')
    requires var s := Sweep(t, relay.recorded);
      && (forall x :: x in free ==> RELAY_SEQUENCE_FLOOR <= x <= RELAY_SEQUENCE_CEIL && x !in s.relays)
      && |Foreign(self, s, flat)| < 4 && |Foreign(self, s, flat)| < |free|
    ensures outcome.Relayed?
  {
    var s := Sweep(t, relay.recorded);
    ARelayLeavesOneClaimOrNone(self, s, flat, relay, tried, fails, Key(relay.peer, relay.upfSeq), refusalFails, outcome, t', flat');
    var k := |tried| - 1;
    if outcome.Refused? && k < RELAY_SEND_ATTEMPTS {
      assert IsNextNumber(TableAt(AddClaim(s, tried[0], relay), tried, k), None);
      SubsetIsNoLarger(free, {tried[k]});
      TriedAreForeign(self, s, flat, relay, tried, k);
    } else if outcome.Refused? {
      var m := if |free| < RELAY_SEND_ATTEMPTS then |free| else RELAY_SEND_ATTEMPTS;
      ManyAreForeign(self, s, flat, relay, tried, fails, free, m);
    }
  }

  /** A number tried and found taken is taken by a transaction that is not a relay. */
  lemma TriedAreForeign(self: Peer, s: Table, flat: Flat, relay: Relay, tried: seq<nat>, i: nat)
    requires i < |tried| && IsNextNumber(s, Some(tried[0]))
    requires IsTrail(AddClaim(s, tried[0], relay), tried)
    ensures Key(self, tried[i]) in flat ==> tried[i] in Foreign(self, s, flat)
  {
    if i > 0 {
      assert IsNextNumber(TableAt(AddClaim(s, tried[0], relay), tried, i - 1), Some(tried[i]));
    }
  }

  lemma ManyAreForeign(self: Peer, s: Table, flat: Flat, relay: Relay, tried: seq<nat>, fails: seq<bool>, free: set<nat>, m: nat)
    requires 1 <= m < |tried| && m <= |free| && IsNextNumber(s, Some(tried[0]))
    requires IsTrail(AddClaim(s, tried[0], relay), tried) && |fails| == RELAY_SEND_ATTEMPTS
    requires AllTaken(self, flat, tried, fails)
    requires forall x :: x in free ==> RELAY_SEQUENCE_FLOOR <= x <= RELAY_SEQUENCE_CEIL && x !in s.relays
    ensures |Foreign(self, s, flat)| >= m
  {
    var found := tried[..m];
    TrailIsConsecutive(s, relay, tried, m);
    ConsecutiveAreDistinct(s.relays.Keys, free, s.cursor, RELAY_SEQUENCE_FLOOR, RELAY_SEQUENCE_CEIL, found);
    DistinctNumbersAreAsMany(found);
    forall n | n in Numbers(found) ensures n in Foreign(self, s, flat) {
      var i :| 0 <= i < m && found[i] == n;
      TriedAreForeign(self, s, flat, relay, tried, i);
    }
    SubsetIsNoLarger(Numbers(found), Foreign(self, s, flat));
  }

  /**
   A call that relayed a report, and a call that handles the response within its lifetime: in between a copy of the report
   is recognised; the answer goes out toward the report's peer under the report's number, or a transaction is there
   already; the table is as the sweep left it; and no second response, whenever it comes, does anything.
   */
  lemma AnAnswerComesHomeOnce(self: Peer, t: Table, flat: Flat, relay: Relay, quoted: nat, fails: seq<bool>, refusalFails: bool,
                              n: nat, tried: seq<nat>, relayed: Table, between: Flat,
                              at: Time, answerFails: bool, answered: Table, after: Flat)
    requires |fails| == RELAY_SEND_ATTEMPTS && !relay.answered && Live(relay, at)
    requires Reported(self, t, flat, relay, quoted, fails, refusalFails, Tried(Relayed(n)), tried, relayed, between)
    requires AnsweredAs(relayed, between, n, at, answerFails, answered, after)
    ensures Matching(relayed, relay.peer, relay.upfSeq, at) != {} && Key(self, n) in between
    ensures !answerFails ==> Key(relay.peer, relay.upfSeq) in after
    ensures answered.relays == Sweep(t, relay.recorded).relays
    ensures forall later: Time, t', flat' :: AnsweredAs(answered, after, n, later, answerFails, t', flat') ==> t' == answered && flat' == after
  {
    var s, answer := Sweep(t, relay.recorded), Key(relay.peer, relay.upfSeq);
    ARelayLeavesOneClaimOrNone(self, s, flat, relay, tried, fails, answer, refusalFails, Relayed(n), relayed, between);
    assert n in Matching(relayed, relay.peer, relay.upfSeq, at);
  }

  /**
   Through the gate: a report from a peer the SMF has named lately, with an SMF to relay it to, no copy of it held, and
   room enough, is relayed.
   */
  lemma ANamedPeersReportIsRelayed(self: Peer, t: Table, flat: Flat, relay: Relay, fails: seq<bool>, refusalFails: bool,
                                   outcome: ReportOutcome, tried: seq<nat>, t': Table, flat': Flat, free: set<nat>)
    requires |fails| == RELAY_SEND_ATTEMPTS && forall i :: 0 <= i < RELAY_SEND_ATTEMPTS ==> !fails[i]
    requires ReportedUnderGate(self, true, true, t, flat, relay, fails, refusalFails, outcome, tried, t', flat')
    requires !HeldNow(t, relay.peer, relay.upfSeq, relay.recorded)
    requires var s := Sweep(t, relay.recorded);
      && (forall x :: x in free ==> RELAY_SEQUENCE_FLOOR <= x <= RELAY_SEQUENCE_CEIL && x !in s.relays)
      && |Foreign(self, s, flat)| < 4 && |Foreign(self, s, flat)| < |free|
    ensures outcome.Tried? && outcome.outcome.Relayed?
  {
    ReportedInPlainTerms(self, t, flat, relay, Count(t, relay.peer.host), fails, refusalFails, outcome, tried, t', flat');
    var x :| x in free;
    assert outcome.NoNumbers? ==> x in Sweep(t, relay.recorded).relays;
    if outcome.Tried? {
      TheRetryGetsThrough(self, t, flat, relay, Count(t, relay.peer.host), fails, refusalFails, outcome.outcome, tried, t', flat', free);
    }
  }
}
