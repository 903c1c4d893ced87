/**
 When a report can be relayed a second time: the defect the claim and the answer's transaction are there to prevent.
 A copy of a report claimed before is claimed afresh only after the first claim's need has ended, or past its lifetime,
 or when the copy was read before the answer's transaction was registered and reaches its own claim after.
 */
module ProtocolCopies {
  import opened Basics
  import opened RelaySpec
  import opened TransactionSpec
  import opened Protocol
  import opened ProtocolAnswers
  import opened ProtocolAnswerSteps
  import opened ProtocolHandover
  import ProtocolOwnership

  // -- At the claim ----------------------------------------------------------------------------------

  ghost predicate IsClaimOf(s: State, c: nat, h: Handler)
    requires h.Claiming?
  {
    IsReport(s.past, c, h.peer, h.upfSeq)
  }

  lemma ALiveEntryMatches(t: Table, n: nat, peer: Peer, upfSeq: nat, now: Time)
    requires n in t.relays && Claims(t.relays[n], peer, upfSeq)
    ensures Live(t.relays[n], now) ==> Matching(Sweep(t, now), peer, upfSeq, now) != {}
  {
    assert Live(t.relays[n], now) ==> n in Matching(Sweep(t, now), peer, upfSeq, now);
  }

  ghost predicate HasLiveEntry(s: State, c: nat, now: Time) {
    exists n :: EntryOf(s, n, c) && Live(s.table.relays[n], now)
  }

  /**
   A report let past the release check is taken for a copy if and only if some claim on it, made before, still has its
   entry and is within its lifetime at the reading the copy carries. Otherwise it is claimed afresh, or no number is free.
   */
  lemma CopyIsRecognisedExactlyByALiveEntry(s: State, id: Id, h: Handler, r: ClaimResult, s': State)
    requires Sound(s) && h.Claiming? && ClaimReportStep(s, id, h, r, s') && !r.PeerReleased?
    ensures r.Retransmission? <==> exists c: nat :: IsClaimOf(s, c, h) && HasLiveEntry(s, c, h.now)
  {
    if r.Retransmission? {
      var n := r.number;
      assert EntryOk(s.past, n, s.table.relays[n]);
      assert EntryOf(s, n, s.past.claimOf[n]);
      assert IsClaimOf(s, s.past.claimOf[n], h) && HasLiveEntry(s, s.past.claimOf[n], h.now);
    }
    if c: nat :| IsClaimOf(s, c, h) && HasLiveEntry(s, c, h.now) {
      var n :| EntryOf(s, n, c) && Live(s.table.relays[n], h.now);
      assert EntryOk(s.past, n, s.table.relays[n]);
      ALiveEntryMatches(s.table, n, h.peer, h.upfSeq, h.now);
    }
  }

  /** What a fresh claim on a report says of an earlier claim on it. */
  lemma AFreshClaimFindsNoLiveOne(s: State, id: Id, h: Handler, n: nat, s': State, c: nat)
    requires Sound(s) && h.Claiming? && ClaimReportStep(s, id, h, Fresh(n), s') && IsClaimOf(s, c, h)
    ensures || c in s.past.ended
            || (c in s.past.absorbed && Key(h.peer, h.upfSeq) in s.flat)
            || (c !in s.past.absorbed && HasExpiredEntry(s, c, h.now))
  {
    assert ClaimOk(s.self, s.past, s.flat, c);
    if c !in s.past.ended && c !in s.past.absorbed {
      var m :| m in s.past.claimOf && s.past.claimOf[m] == c;
      assert EntryOk(s.past, m, s.table.relays[m]);
      assert EntryOf(s, m, c);
      ALiveEntryMatches(s.table, m, h.peer, h.upfSeq, h.now);
    }
  }

  // -- Where a copy was read -------------------------------------------------------------------------

  /** The read loop took the report at step q, and had it in hand until step d gave it to the handler. */
  ghost predicate ReadFor(r: Run, q: nat, d: nat, i: nat, id: Id, peer: Peer, upfSeq: nat) {
    q < d < i && d < |r.steps| && HandedOver(r, q, d, peer, upfSeq) && r.steps[d] == OfReader(DispatchReport(id))
  }

  ghost predicate HandedOver(r: Run, q: nat, d: nat, peer: Peer, upfSeq: nat) {
    && q < d && q < |r.steps| && d < |r.states| && r.steps[q] == OfReader(ReadReport(peer, upfSeq))
    && forall m :: q < m <= d ==> r.states[m].reader == Reporting(peer, upfSeq)
  }

  lemma ReaderTakesReports(s: State, step: Step, s': State)
    requires Next(s, step, s') && s'.reader.Reporting?
    ensures s'.reader == s.reader || step == OfReader(ReadReport(s'.reader.peer, s'.reader.upfSeq))
  {
    if !step.OfReader? {
      ProtocolOwnership.OthersLeaveReader(s, step, s');
    }
  }

  lemma {:induction false} WhatIsInHandWasRead(r: Run, i: nat) returns (q: nat)
    requires IsRun(r) && i < |r.states| && r.states[i].reader.Reporting?
    ensures HandedOver(r, q, i, r.states[i].reader.peer, r.states[i].reader.upfSeq)
  {
    assert IsStep(r, i - 1);
    ReaderTakesReports(r.states[i - 1], r.steps[i - 1], r.states[i]);
    if r.states[i - 1].reader == r.states[i].reader {
      q := WhatIsInHandWasRead(r, i - 1);
    } else {
      q := i - 1;
    }
  }

  /** A handler's report is the one it was started with. */
  predicate SameReport(h: Handler, h': Handler) {
    !h.Finished? && !h'.Finished? && h.peer == h'.peer && h.upfSeq == h'.upfSeq
  }

  lemma RelaysKeepReport(s: State, id: Id, h: Handler, step: HandlerStep, s': State)
    requires RelayNext(s, id, h, step, s')
    ensures id in s'.handlers && (s'.handlers[id].Finished? || SameReport(h, s'.handlers[id]))
  {
  }

  lemma ClaimsKeepReport(s: State, id: Id, h: Handler, c: ClaimResult, s': State)
    requires h.Claiming? && ClaimReportStep(s, id, h, c, s')
    ensures id in s'.handlers && (s'.handlers[id].Finished? || SameReport(h, s'.handlers[id]))
  {
  }

  lemma HandlersKeepReport(s: State, step: Step, s': State, id: Id)
    requires Next(s, step, s') && id in s'.handlers && !s'.handlers[id].Finished?
    ensures || (id in s.handlers && SameReport(s.handlers[id], s'.handlers[id]))
            || (step == OfReader(DispatchReport(id)) && s.reader.Reporting?
                && s'.handlers[id] == Arrived(s.reader.peer, s.reader.upfSeq))
  {
    StepsLeaveAlone(s, step, s');
    if step.OfHandler? && step.id == id {
      if step.handling.ClaimReport? {
        ClaimsKeepReport(s, id, s.handlers[id], step.handling.claimed, s');
      } else if !(step.handling.ReadGeneration? || step.handling.CheckKnown? || step.handling.FindSmf?) {
        RelaysKeepReport(s, id, s.handlers[id], step.handling, s');
      }
    }
  }

  lemma {:induction false} WhatIsHandledWasRead(r: Run, i: nat, id: Id) returns (q: nat, d: nat)
    requires IsRun(r) && i < |r.states| && id in r.states[i].handlers && !r.states[i].handlers[id].Finished?
    ensures ReadFor(r, q, d, i, id, r.states[i].handlers[id].peer, r.states[i].handlers[id].upfSeq)
  {
    assert IsStep(r, i - 1);
    HandlersKeepReport(r.states[i - 1], r.steps[i - 1], r.states[i], id);
    if id in r.states[i - 1].handlers && SameReport(r.states[i - 1].handlers[id], r.states[i].handlers[id]) {
      q, d := WhatIsHandledWasRead(r, i - 1, id);
    } else {
      d := i - 1;
      q := WhatIsInHandWasRead(r, d);
    }
  }

  // -- The history only grows ------------------------------------------------------------------------

  ghost predicate Grows(p: History, p': History) {
    && p.ended <= p'.ended && |p.claims| <= |p'.claims|
    && forall c :: 0 <= c < |p.claims| ==> p'.claims[c] == p.claims[c]
  }

  lemma NamingsGrow(s: State, step: NamingStep, s': State)
    requires NamingNext(s, step, s')
    ensures Grows(s.past, s'.past)
  {
    if !step.PurgeRelays? && !step.DropConsumerAt? {
      QuietNamingsLeaveRest(s, step, s');
    }
  }

  lemma HandlersGrow(s: State, id: Id, h: Handler, step: HandlerStep, s': State)
    requires HandlerNext(s, id, h, step, s')
    ensures Grows(s.past, s'.past)
  {
  }

  lemma TransactionsGrow(s: State, x: Id, step: TxStep, s': State)
    requires TxNext(s, x, step, s')
    ensures Grows(s.past, s'.past)
  {
  }

  lemma RespondersGrow(s: State, id: Id, a: Responder, step: ResponderStep, s': State)
    requires ResponderNext(s, id, a, step, s')
    ensures Grows(s.past, s'.past)
  {
  }

  lemma StepsGrow(s: State, step: Step, s': State)
    requires Next(s, step, s')
    ensures Grows(s.past, s'.past)
  {
    match step {
      case OfNaming(n) => NamingsGrow(s, n, s');
      case OfReader(n) => ReaderLeavesAlone(s, n, s');
      case OfHandler(id, h) => HandlersGrow(s, id, s.handlers[id], h, s');
      case OfTx(x, t) => TransactionsGrow(s, x, t, s');
      case OfResponder(id, a) => RespondersGrow(s, id, s.responders[id], a, s');
    }
  }

  lemma {:induction false} HistoryGrows(r: Run, i: nat, j: nat)
    requires IsRun(r) && i <= j < |r.states|
    ensures Grows(r.states[i].past, r.states[j].past)
  {
    if i < j {
      HistoryGrows(r, i, j - 1);
      assert IsStep(r, j - 1);
      StepsGrow(r.states[j - 1], r.steps[j - 1], r.states[j]);
    }
  }

  // -- Over runs -------------------------------------------------------------------------------------

  /** The copy the handler has was read when no transaction had its number, before the claim's answer met one. */
  ghost predicate ReadTooEarly(r: Run, i: nat, id: Id, c: nat, peer: Peer, upfSeq: nat) {
    exists q: nat, d: nat :: ReadFor(r, q, d, i, id, peer, upfSeq) && ReadBefore(r.states[q], c, peer, upfSeq)
  }

  ghost predicate ReadBefore(s: State, c: nat, peer: Peer, upfSeq: nat) {
    Key(peer, upfSeq) !in s.flat && !(c < |s.past.claims| && c in s.past.absorbed)
  }

  /** A report read while a claim on it stood unended was read before that claim's answer met a transaction. */
  lemma AReadFindsNoAnswer(r: Run, q: nat, i: nat, c: nat, peer: Peer, upfSeq: nat)
    requires IsOrderlyRun(r) && q < |r.steps| && q <= i < |r.states| && r.steps[q] == OfReader(ReadReport(peer, upfSeq))
    requires IsReport(r.states[i].past, c, peer, upfSeq) && c !in r.states[i].past.ended
    ensures ReadBefore(r.states[q], c, peer, upfSeq)
  {
    assert IsStep(r, q);
    HistoryGrows(r, q, i);
    EveryStateIsSound(r, q);
    var s := r.states[q];
    if c < |s.past.claims| {
      assert ClaimOk(s.self, s.past, s.flat, c);
    }
  }

  /**
   A report that has been claimed is claimed afresh for one of three reasons only: the need of the earlier claim has
   ended, by one of the ending events; or that claim, not answered, is past its lifetime; or it has been answered, and
   this copy was read before the transaction of the answer was there to meet it.
   */
  lemma ASecondRelayHasAReason(r: Run, i: nat, id: Id, n: nat, c: nat)
    requires IsOrderlyRun(r) && i < |r.steps| && r.steps[i] == OfHandler(id, ClaimReport(Fresh(n)))
    requires id in r.states[i].handlers && r.states[i].handlers[id].Claiming?
    requires IsClaimOf(r.states[i], c, r.states[i].handlers[id])
    ensures var s, h := r.states[i], r.states[i].handlers[id];
      || (exists k :: 0 <= k < i && EndedAt(r, k, c))
      || (c !in s.past.absorbed && HasExpiredEntry(s, c, h.now))
      || (c in s.past.absorbed && ReadTooEarly(r, i, id, c, h.peer, h.upfSeq))
  {
    var s, h := r.states[i], r.states[i].handlers[id];
    assert IsStep(r, i);
    EveryStateIsSound(r, i);
    AFreshClaimFindsNoLiveOne(s, id, h, n, r.states[i + 1], c);
    if c in s.past.ended {
      AnEndedNeedHadItsEvent(r, i, c);
    } else if c in s.past.absorbed {
      var q, d := WhatIsHandledWasRead(r, i, id);
      AReadFindsNoAnswer(r, q, i, c, h.peer, h.upfSeq);
    }
  }
}
