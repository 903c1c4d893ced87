/**
 Handover without a gap: from its claim on, a report sent again always meets something, either the claim's entry or
 the transaction of its answer, until one of a few events that end the need. A claim and the transaction of its
 answer are in different tables under different locks; the order of the steps is what leaves no gap.
 */
module ProtocolHandover {
  import opened Basics
  import opened RelaySpec
  import opened TransactionSpec
  import opened Protocol
  import opened ProtocolAnswers
  import opened ProtocolAnswerSteps

  /** A copy of the report arriving now is recognised: a live claim matches it, or a transaction has its number. */
  ghost predicate Met(s: State, peer: Peer, upfSeq: nat) {
    Matching(s.table, peer, upfSeq, s.clock) != {} || Key(peer, upfSeq) in s.flat
  }

  predicate EntryOf(s: State, n: nat, c: nat) {
    n in s.table.relays && n in s.past.claimOf && s.past.claimOf[n] == c
  }

  ghost predicate HasExpiredEntry(s: State, c: nat, now: Time) {
    exists n :: EntryOf(s, n, c) && !Live(s.table.relays[n], now)
  }

  ghost predicate HasEntryAt(s: State, c: nat, host: Host) {
    exists n :: EntryOf(s, n, c) && s.table.relays[n].peer.host == host
  }

  /**
   The events that end a claim's need. Its entry is swept, past its lifetime, by a claim that is let past the release
   check when a sweep is due; its host is released, which drops its entry, or the transaction its answer has met; that
   transaction ends; or its answer could not be sent, for a reason other than that its number is taken.
   */
  ghost predicate EndsNeed(s: State, step: Step, c: nat)
    requires c < |s.past.claims|
  {
    match step
    case OfNaming(n) => NamingEndsNeed(s, n, c, s.past.claims[c])
    case OfHandler(id, h) => id in s.handlers && HandlerEndsNeed(s, s.handlers[id], h, c)
    case OfTx(x, t) => x in s.txs && TxEndsNeed(s, x, s.txs[x], t, c, Key(s.past.claims[c].peer, s.past.claims[c].upfSeq))
    case OfResponder(id, a) => id in s.responders && ResponderEndsNeed(s.responders[id], a, c)
    case OfReader(_) => false
  }

  ghost predicate NamingEndsNeed(s: State, step: NamingStep, c: nat, report: Report) {
    match step
    case PurgeRelays =>
      s.naming.Purging? && s.naming.host == report.peer.host && HasEntryAt(s, c, s.naming.host) && c !in s.past.absorbed
    case DropConsumerAt(consumer) =>
      s.naming.Hooking? && s.naming.host == report.peer.host && consumer == report.peer && c in s.past.absorbed
    case _ => false
  }

  ghost predicate HandlerEndsNeed(s: State, h: Handler, step: HandlerStep, c: nat) {
    match step
    case ClaimReport(r) =>
      h.Claiming? && !r.PeerReleased? && SweepDue(s.table, h.now) && HasExpiredEntry(s, c, h.now) && c !in s.past.absorbed
    case RefuseReport(_, Failed) => h.Relaying? && h.claim == c
    case _ => false
  }

  ghost predicate TxEndsNeed(s: State, x: Id, tx: Tx, step: TxStep, c: nat, key: Key) {
    match step
    case GiveUpRefuse(_, Failed) => tx.phase.Refusing? && tx.phase.claim == c
    case RemoveTx => tx.kind.AnswerTx? && key in s.flat && s.flat[key] == x && c in s.past.absorbed
    case _ => false
  }

  predicate ResponderEndsNeed(a: Responder, step: ResponderStep, c: nat) {
    step.AnswerReport? && step.sent.Failed? && a.Answering? && a.taken == c
  }

  // -- Only those events end a need ------------------------------------------------------------------

  lemma NamingsEndNeeds(s: State, step: NamingStep, s': State, c: nat)
    requires Sound(s) && NamingNext(s, step, s')
    requires c in s'.past.ended && c !in s.past.ended
    ensures c < |s.past.claims| && NamingEndsNeed(s, step, c, s.past.claims[c])
  {
    if step.PurgeRelays? {
      assert c in Dropped(s.past, s'.table.relays);
      var n :| n in s.past.claimOf && n !in s'.table.relays && s.past.claimOf[n] == c;
      assert EntryOk(s.past, n, s.table.relays[n]);
      assert EntryOf(s, n, c);
    } else if !step.DropConsumerAt? {
      QuietNamingsLeaveRest(s, step, s');
    }
  }

  lemma ClaimsEndNeeds(s: State, id: Id, h: Handler, r: ClaimResult, s': State, c: nat)
    requires Sound(s) && h.Claiming? && ClaimReportStep(s, id, h, r, s')
    requires c in s'.past.ended && c !in s.past.ended
    ensures c < |s.past.claims| && c !in s.past.absorbed
    ensures !r.PeerReleased? && SweepDue(s.table, h.now) && HasExpiredEntry(s, c, h.now)
  {
    var kept := KeptByClaim(s.table, h.peer.host, h.now, h.token.count);
    assert c in Dropped(s.past, kept.relays);
    var n :| n in s.past.claimOf && n !in kept.relays && s.past.claimOf[n] == c;
    assert EntryOk(s.past, n, s.table.relays[n]);
    assert EntryOf(s, n, c) && !Live(s.table.relays[n], h.now);
  }

  lemma RelaysEndNeeds(s: State, id: Id, h: Handler, step: HandlerStep, s': State, c: nat)
    requires id in s.handlers && h == s.handlers[id] && RelayNext(s, id, h, step, s')
    requires c in s'.past.ended && c !in s.past.ended
    ensures h.Relaying? && h.claim == c && step.RefuseReport? && step.sent.Failed?
  {
  }

  lemma GatesEndNothing(s: State, id: Id, h: Handler, step: HandlerStep, s': State)
    requires GateNext(s, id, h, step, s')
    ensures s'.past == s.past
  {
  }

  lemma HandlersEndNeeds(s: State, id: Id, step: HandlerStep, s': State, c: nat)
    requires Sound(s) && id in s.handlers && HandlerNext(s, id, s.handlers[id], step, s')
    requires c in s'.past.ended && c !in s.past.ended
    ensures c < |s.past.claims| && HandlerEndsNeed(s, s.handlers[id], step, c)
  {
    var h := s.handlers[id];
    if step.ReadGeneration? || step.CheckKnown? || step.FindSmf? {
      GatesEndNothing(s, id, h, step, s');
    } else if step.ClaimReport? {
      ClaimsEndNeeds(s, id, h, step.claimed, s', c);
    } else {
      RelaysEndNeeds(s, id, h, step, s', c);
      assert HandlerOk(s.self, s.past, id, h);
    }
  }

  lemma RemovalsEndNeeds(s: State, x: Id, s': State, c: nat)
    requires Sound(s) && TxNext(s, x, RemoveTx, s')
    requires c in s'.past.ended && c !in s.past.ended
    ensures c < |s.past.claims| && x in s.txs
    ensures TxEndsNeed(s, x, s.txs[x], RemoveTx, c, Key(s.past.claims[c].peer, s.past.claims[c].upfSeq))
  {
  }

  lemma RefusalsEndNeeds(s: State, x: Id, step: TxStep, s': State, c: nat)
    requires TxNext(s, x, step, s') && !step.RemoveTx?
    requires c in s'.past.ended && c !in s.past.ended
    ensures step.GiveUpRefuse? && step.sent.Failed? && x in s.txs && s.txs[x].phase.Refusing? && s.txs[x].phase.claim == c
  {
  }

  lemma TransactionsEndNeeds(s: State, x: Id, step: TxStep, s': State, c: nat)
    requires Sound(s) && TxNext(s, x, step, s')
    requires c in s'.past.ended && c !in s.past.ended
    ensures c < |s.past.claims| && x in s.txs
    ensures TxEndsNeed(s, x, s.txs[x], step, c, Key(s.past.claims[c].peer, s.past.claims[c].upfSeq))
  {
    if step.RemoveTx? {
      RemovalsEndNeeds(s, x, s', c);
    } else {
      RefusalsEndNeeds(s, x, step, s', c);
      assert TxOk(s.self, s.past, x, s.txs[x]);
    }
  }

  lemma RespondersEndNeeds(s: State, id: Id, a: Responder, step: ResponderStep, s': State, c: nat)
    requires Sound(s) && id in s.responders && a == s.responders[id] && ResponderNext(s, id, a, step, s')
    requires c in s'.past.ended && c !in s.past.ended
    ensures c < |s.past.claims| && ResponderEndsNeed(a, step, c)
  {
    assert ResponderOk(s.past, id, a);
  }

  lemma NeedsEndByTheseEventsOnly(s: State, step: Step, s': State, c: nat)
    requires Sound(s) && Next(s, step, s')
    requires c in s'.past.ended && c !in s.past.ended
    ensures c < |s.past.claims| && EndsNeed(s, step, c)
  {
    match step {
      case OfNaming(n) => NamingsEndNeeds(s, n, s', c);
      case OfReader(r) => ReaderLeavesAlone(s, r, s');
      case OfHandler(id, h) => HandlersEndNeeds(s, id, h, s', c);
      case OfTx(x, t) => TransactionsEndNeeds(s, x, t, s', c);
      case OfResponder(id, a) => RespondersEndNeeds(s, id, s.responders[id], a, s', c);
    }
  }

  // -- Over runs -------------------------------------------------------------------------------------

  /** At step k the claim's need ended, by one of those events. */
  ghost predicate EndedAt(r: Run, k: nat, c: nat) {
    && IsStep(r, k) && c !in r.states[k].past.ended && c in r.states[k + 1].past.ended
    && c < |r.states[k].past.claims| && EndsNeed(r.states[k], r.steps[k], c)
  }

  lemma {:induction false} AnEndedNeedHadItsEvent(r: Run, i: nat, c: nat)
    requires IsOrderlyRun(r) && i < |r.states| && c in r.states[i].past.ended
    ensures exists k :: 0 <= k < i && EndedAt(r, k, c)
  {
    if i > 0 {
      assert IsStep(r, i - 1);
      if c in r.states[i - 1].past.ended {
        AnEndedNeedHadItsEvent(r, i - 1, c);
      } else {
        EveryStateIsSound(r, i - 1);
        NeedsEndByTheseEventsOnly(r.states[i - 1], r.steps[i - 1], r.states[i], c);
        assert EndedAt(r, i - 1, c);
      }
    }
  }

  lemma AnUnendedClaimIsMet(s: State, c: nat)
    requires Sound(s) && c < |s.past.claims| && c !in s.past.ended
    ensures Met(s, s.past.claims[c].peer, s.past.claims[c].upfSeq) || (HasExpiredEntry(s, c, s.clock) && c !in s.past.absorbed)
  {
    assert ClaimOk(s.self, s.past, s.flat, c);
    if c !in s.past.absorbed {
      var n :| n in s.past.claimOf && s.past.claimOf[n] == c;
      assert EntryOk(s.past, n, s.table.relays[n]);
      assert EntryOf(s, n, c);
      assert Live(s.table.relays[n], s.clock) ==>
        n in Matching(s.table, s.past.claims[c].peer, s.past.claims[c].upfSeq, s.clock);
    }
  }

  /** A copy of a report whose claim is met is not taken for a new one, whatever reading of the clock it carries. */
  lemma AMetReportIsRecognised(s: State, step: Step, s': State)
    requires Next(s, step, s') && ReadingsPast(s)
    ensures match step
            case OfHandler(id, ClaimReport(r)) =>
              Matching(s.table, s.handlers[id].peer, s.handlers[id].upfSeq, s.clock) != {} ==> r.PeerReleased? || r.Retransmission?
            case OfReader(ReadReport(peer, upfSeq)) => Key(peer, upfSeq) !in s.flat
            case _ => true
  {
    match step {
      case OfHandler(id, ClaimReport(r)) =>
        var h := s.handlers[id];
        if Matching(s.table, h.peer, h.upfSeq, s.clock) != {} {
          var n :| n in Matching(s.table, h.peer, h.upfSeq, s.clock);
          assert n in Matching(Sweep(s.table, h.now), h.peer, h.upfSeq, h.now);
        }
      case _ =>
    }
  }

  /**
   In any state after a claim: a copy of its report is recognised; or the claim, still unanswered, is past its lifetime;
   or its need ended at an earlier step, by one of the events above.
   */
  lemma HandoverLeavesNoGap(r: Run, i: nat, c: nat)
    requires IsOrderlyRun(r) && i < |r.states| && c < |r.states[i].past.claims|
    ensures var s, report := r.states[i], r.states[i].past.claims[c];
      || Met(s, report.peer, report.upfSeq)
      || (HasExpiredEntry(s, c, s.clock) && c !in s.past.absorbed)
      || exists k :: 0 <= k < i && EndedAt(r, k, c)
  {
    EveryStateIsSound(r, i);
    if c in r.states[i].past.ended {
      AnEndedNeedHadItsEvent(r, i, c);
    } else {
      AnUnendedClaimIsMet(r.states[i], c);
    }
  }
}
