/**
 No claim is stranded: while a report is unanswered and within its lifetime, somebody is still going to deal with
 it. Every exit of the retry loop, of the request's goroutine and of the response's handler is covered, over every
 interleaving and whatever numbers are reused.
 */
module ProtocolOwnership {
  import opened Basics
  import opened RelaySpec
  import opened TransactionSpec
  import opened Protocol
  import RelayRuns

  // -- Who may own the relay under a number ----------------------------------------------------------

  predicate HandlerOwns(h: Handler, n: nat) {
    h.Relaying? && h.number == n
  }

  /** A relayed request whose response has not come, or which failed and has not yet told its error handler. */
  predicate TxOwns(tx: Tx, n: nat) {
    && tx.kind.RelayRequest? && tx.key.number == n
    && (tx.phase == Running(false) || tx.phase == Ended(true) || tx.phase.GivingUp?)
  }

  predicate ReaderOwns(r: Reader, n: nat) {
    r.Responding? && r.number == n
  }

  predicate ResponderOwns(a: Responder, n: nat) {
    a.Pending? && a.number == n
  }

  ghost predicate SomeHandlerOwns(handlers: map<Id, Handler>, n: nat) {
    exists id :: id in handlers && HandlerOwns(handlers[id], n)
  }

  ghost predicate SomeTxOwns(txs: map<Id, Tx>, n: nat) {
    exists x :: x in txs && TxOwns(txs[x], n)
  }

  ghost predicate SomeResponderOwns(responders: map<Id, Responder>, n: nat) {
    exists id :: id in responders && ResponderOwns(responders[id], n)
  }

  ghost predicate Owned(s: State, n: nat) {
    SomeHandlerOwns(s.handlers, n) || SomeTxOwns(s.txs, n) || ReaderOwns(s.reader, n) || SomeResponderOwns(s.responders, n)
  }

  /** The relay is waiting: neither answered nor given up on by age. */
  predicate Waiting(t: Table, n: nat, clock: Time) {
    Taken(t, n, clock).Some?
  }

  /** A response the read loop is holding was matched to a request numbered as it is. */
  ghost predicate ReaderMatched(s: State) {
    s.reader.FoundTx? ==> s.reader.tx in s.txs && s.txs[s.reader.tx].key.number == s.reader.number
  }

  ghost predicate FlatMatched(s: State) {
    forall k :: k in s.flat ==> s.flat[k] in s.txs && s.txs[s.flat[k]].key == k
  }

  ghost predicate Inv(s: State) {
    && FlatMatched(s)
    && ReaderMatched(s)
    && forall n :: Waiting(s.table, n, s.clock) ==> Owned(s, n)
  }

  // -- What an update of one thread does to ownership ------------------------------------------------

  lemma OtherHandlersOwn(handlers: map<Id, Handler>, id: Id, h: Handler, n: nat)
    ensures HandlerOwns(h, n) ==> SomeHandlerOwns(handlers[id := h], n)
    ensures SomeHandlerOwns(handlers, n) && !(id in handlers && HandlerOwns(handlers[id], n)) ==>
      SomeHandlerOwns(handlers[id := h], n)
  {
    var handlers' := handlers[id := h];
    if HandlerOwns(h, n) {
      assert id in handlers' && HandlerOwns(handlers'[id], n);
    } else if SomeHandlerOwns(handlers, n) {
      var o :| o in handlers && HandlerOwns(handlers[o], n);
      if o != id {
        assert o in handlers' && HandlerOwns(handlers'[o], n);
      }
    }
  }

  lemma OtherTxsOwn(txs: map<Id, Tx>, x: Id, tx: Tx, n: nat)
    ensures TxOwns(tx, n) ==> SomeTxOwns(txs[x := tx], n)
    ensures SomeTxOwns(txs, n) && !(x in txs && TxOwns(txs[x], n)) ==> SomeTxOwns(txs[x := tx], n)
  {
    var txs' := txs[x := tx];
    if TxOwns(tx, n) {
      assert x in txs' && TxOwns(txs'[x], n);
    } else if SomeTxOwns(txs, n) {
      var o :| o in txs && TxOwns(txs[o], n);
      if o != x {
        assert o in txs' && TxOwns(txs'[o], n);
      }
    }
  }

  lemma OtherRespondersOwn(responders: map<Id, Responder>, id: Id, a: Responder, n: nat)
    ensures ResponderOwns(a, n) ==> SomeResponderOwns(responders[id := a], n)
    ensures SomeResponderOwns(responders, n) && !(id in responders && ResponderOwns(responders[id], n)) ==>
      SomeResponderOwns(responders[id := a], n)
  {
    var responders' := responders[id := a];
    if ResponderOwns(a, n) {
      assert id in responders' && ResponderOwns(responders'[id], n);
    } else if SomeResponderOwns(responders, n) {
      var o :| o in responders && ResponderOwns(responders[o], n);
      if o != id {
        assert o in responders' && ResponderOwns(responders'[o], n);
      }
    }
  }

  // -- What the table's operations leave waiting -----------------------------------------------------

  /** Only a fresh claim and a renumbering put a relay under a number; nothing else starts one waiting. */
  lemma WaitingComesFrom(t: Table, op: RelayRuns.Op, t': Table, n: nat, clock: Time)
    requires RelayRuns.Next(t, op, t') && Waiting(t', n, clock)
    ensures Waiting(t, n, clock) || RelayRuns.HandedOut(op) == Some(n)
    ensures !(op.DoTake? && op.number == n && op.now == clock)
    ensures op.DoForget? ==> op.number != n
    ensures op.DoRenumber? && op.renumbered.Renumbered? ==> op.number != n
    ensures op.DoRenumber? && op.renumbered.NotHeld? ==> op.number != n
  {
  }

  // -- Each kind of step -----------------------------------------------------------------------------

  lemma NamingsKeepOwners(s: State, step: NamingStep, s': State)
    requires NamingNext(s, step, s')
    ensures s'.handlers == s.handlers && s'.txs == s.txs && s'.reader == s.reader && s'.responders == s.responders
    ensures forall n :: Waiting(s'.table, n, s'.clock) ==> Waiting(s.table, n, s.clock)
    ensures forall k :: k in s'.flat ==> k in s.flat && s'.flat[k] == s.flat[k]
  {
    if !step.PurgeRelays? && !step.DropConsumerAt? {
      QuietNamingsLeaveRest(s, step, s');
    }
  }

  lemma ReaderKeepsMatched(s: State, step: ReaderStep, s': State)
    requires ReaderNext(s, step, s') && FlatMatched(s) && ReaderMatched(s)
    ensures FlatMatched(s') && ReaderMatched(s')
    ensures s'.table == s.table && s'.clock == s.clock
  {
  }

  lemma ReaderKeepsOwned(s: State, step: ReaderStep, s': State, n: nat)
    requires ReaderNext(s, step, s') && ReaderMatched(s) && Owned(s, n)
    ensures Owned(s', n)
  {
    match step {
      case ReadReport(_, _) =>
      case ReadResponse(_) =>
      case PostResponse =>
        var x := s.reader.tx;
        OtherTxsOwn(s.txs, x, s'.txs[x], n);
      case DispatchReport(id) =>
        OtherHandlersOwn(s.handlers, id, s'.handlers[id], n);
      case DispatchResponse(id) =>
        OtherRespondersOwn(s.responders, id, s'.responders[id], n);
    }
  }

  /** A handler's step: it passes the relay on only to the transaction it registered. */
  lemma GatesKeepOwned(s: State, id: Id, h: Handler, step: HandlerStep, s': State, n: nat)
    requires id in s.handlers && h == s.handlers[id] && GateNext(s, id, h, step, s') && Owned(s, n)
    ensures Owned(s', n)
  {
    OtherHandlersOwn(s.handlers, id, s'.handlers[id], n);
  }

  lemma GatesLeaveRest(s: State, id: Id, h: Handler, step: HandlerStep, s': State)
    requires GateNext(s, id, h, step, s')
    ensures s'.table == s.table && s'.flat == s.flat && s'.txs == s.txs && s'.reader == s.reader && s'.responders == s.responders
  {
  }

  lemma ClaimsLeaveRest(s: State, id: Id, h: Handler, r: ClaimResult, s': State)
    requires h.Claiming? && ClaimReportStep(s, id, h, r, s')
    ensures s'.flat == s.flat && s'.txs == s.txs && s'.reader == s.reader && s'.responders == s.responders
    ensures id in s'.handlers && s'.handlers == s.handlers[id := s'.handlers[id]]
    ensures r.Fresh? ==> HandlerOwns(s'.handlers[id], r.number)
  {
  }

  lemma ClaimsKeepOwned(s: State, id: Id, h: Handler, r: ClaimResult, s': State, n: nat)
    requires id in s.handlers && h == s.handlers[id] && h.Claiming? && ClaimReportStep(s, id, h, r, s')
    requires forall m :: Waiting(s.table, m, s.clock) ==> Owned(s, m)
    requires Waiting(s'.table, n, s.clock)
    ensures Owned(s', n)
  {
    WaitingComesFrom(s.table, RelayRuns.DoClaim(h.peer, h.upfSeq, h.now, h.token.count, r), s'.table, n, s.clock);
    ClaimsLeaveRest(s, id, h, r, s');
    OtherHandlersOwn(s.handlers, id, s'.handlers[id], n);
  }

  /** The number a handler still relaying holds after a step. */
  function NumberAfter(h: Handler, step: HandlerStep): nat
    requires h.Relaying?
  {
    if step.RenumberClaim? && step.renumbered.Renumbered? then step.renumbered.number else h.number
  }

  lemma RelaysMoveOwnHandler(s: State, id: Id, h: Handler, step: HandlerStep, s': State)
    requires RelayNext(s, id, h, step, s')
    ensures s'.reader == s.reader && s'.responders == s.responders
    ensures id in s'.handlers && s'.handlers == s.handlers[id := s'.handlers[id]]
  {
  }

  lemma RelaysLeaveRest(s: State, id: Id, h: Handler, step: HandlerStep, s': State)
    requires RelayNext(s, id, h, step, s')
    ensures s'.reader == s.reader && s'.responders == s.responders
    ensures id in s'.handlers && s'.handlers == s.handlers[id := s'.handlers[id]]
    ensures h.Relaying? && s'.handlers[id].Finished? ==>
      (step.SendReport? && step.sent.Registered?) || (step.RenumberClaim? && step.renumbered.NotHeld?) || step.EndClaim?
    ensures h.Relaying? && !s'.handlers[id].Finished? ==>
      s'.handlers[id].Relaying? && s'.handlers[id].number == NumberAfter(h, step)
  {
    RelaysMoveOwnHandler(s, id, h, step, s');
  }

  /** The transactions after a step that sends: those before, and at most one more. */
  ghost predicate SentOne(s: State, key: Key, kind: TxKind, x: Id, r: SendResult, s': State) {
    && Sends(s, key, x, r)
    && s'.txs == AfterSend(s, key, kind, x, r).txs && s'.flat == AfterSend(s, key, kind, x, r).flat
  }

  lemma RelaysSend(s: State, id: Id, h: Handler, step: HandlerStep, s': State)
    requires RelayNext(s, id, h, step, s')
    ensures step.SendReport? ==> h.Relaying? && SentOne(s, Key(s.self, h.number), RelayRequest(h.claim), step.spare, step.sent, s')
    ensures step.RefuseReport? || step.RejectReport? ==>
      (h.Relaying? || h.Rejecting?) && SentOne(s, Key(h.peer, h.upfSeq), AnswerTx, step.spare, step.sent, s')
    ensures !(step.SendReport? || step.RefuseReport? || step.RejectReport?) ==> s'.txs == s.txs && s'.flat == s.flat
  {
  }

  lemma SendingKeepsOwned(s: State, key: Key, kind: TxKind, x: Id, r: SendResult, s': State, n: nat)
    requires SentOne(s, key, kind, x, r, s')
    ensures SomeTxOwns(s.txs, n) ==> SomeTxOwns(s'.txs, n)
    ensures r.Registered? && kind.RelayRequest? && key.number == n ==> SomeTxOwns(s'.txs, n)
    ensures FlatMatched(s) ==> FlatMatched(s')
    ensures forall y :: y in s.txs ==> y in s'.txs && s'.txs[y] == s.txs[y]
  {
    if r.Registered? {
      OtherTxsOwn(s.txs, x, Tx(key, kind, Running(false)), n);
    }
  }

  lemma RelaysKeepOwned(s: State, id: Id, h: Handler, step: HandlerStep, s': State, n: nat)
    requires id in s.handlers && h == s.handlers[id] && RelayNext(s, id, h, step, s')
    requires forall m :: Waiting(s.table, m, s.clock) ==> Owned(s, m)
    requires Waiting(s'.table, n, s.clock)
    ensures Owned(s', n)
  {
    RelaysLeaveRest(s, id, h, step, s');
    RelaysSend(s, id, h, step, s');
    HandlersActOnTheTable(s, id, h, step, s');
    if HandlerOp(h, step).Some? {
      WaitingComesFrom(s.table, HandlerOp(h, step).value, s'.table, n, s.clock);
    }
    OtherHandlersOwn(s.handlers, id, s'.handlers[id], n);
    if step.SendReport? {
      SendingKeepsOwned(s, Key(s.self, h.number), RelayRequest(h.claim), step.spare, step.sent, s', n);
    } else if step.RefuseReport? || step.RejectReport? {
      SendingKeepsOwned(s, Key(h.peer, h.upfSeq), AnswerTx, step.spare, step.sent, s', n);
    }
  }

  lemma RelaysKeepMatched(s: State, id: Id, h: Handler, step: HandlerStep, s': State)
    requires RelayNext(s, id, h, step, s') && FlatMatched(s) && ReaderMatched(s)
    ensures FlatMatched(s') && ReaderMatched(s')
  {
    RelaysLeaveRest(s, id, h, step, s');
    RelaysSend(s, id, h, step, s');
    if step.SendReport? {
      SendingKeepsOwned(s, Key(s.self, h.number), RelayRequest(h.claim), step.spare, step.sent, s', 0);
    } else if step.RefuseReport? || step.RejectReport? {
      SendingKeepsOwned(s, Key(h.peer, h.upfSeq), AnswerTx, step.spare, step.sent, s', 0);
    }
  }

  lemma HandlersKeepInv(s: State, id: Id, step: HandlerStep, s': State)
    requires Inv(s) && id in s.handlers && HandlerNext(s, id, s.handlers[id], step, s')
    ensures Inv(s')
  {
    var h := s.handlers[id];
    HandlersLeaveAlone(s, id, h, step, s');
    if step.ReadGeneration? || step.CheckKnown? || step.FindSmf? {
      GatesLeaveRest(s, id, h, step, s');
    } else if step.ClaimReport? {
      ClaimsLeaveRest(s, id, h, step.claimed, s');
    } else {
      RelaysKeepMatched(s, id, h, step, s');
    }
    forall n | Waiting(s'.table, n, s'.clock) ensures Owned(s', n) {
      if step.ReadGeneration? || step.CheckKnown? || step.FindSmf? {
        GatesKeepOwned(s, id, h, step, s', n);
      } else if step.ClaimReport? {
        ClaimsKeepOwned(s, id, h, step.claimed, s', n);
      } else {
        RelaysKeepOwned(s, id, h, step, s', n);
      }
    }
  }

  /** A transaction's step changes its own phase, and a refusal sends one answer. */
  lemma TransactionsSend(s: State, x: Id, step: TxStep, s': State)
    requires TxNext(s, x, step, s')
    ensures s'.handlers == s.handlers && s'.reader == s.reader && s'.responders == s.responders && s'.clock == s.clock
    ensures step.SendPeerRequest? ==> x !in s.txs && SentOne(s, Key(s.self, step.number), PeerRequest, x, Registered, s')
    ensures !step.SendPeerRequest? ==> x in s.txs && x in s'.txs && s'.txs[x].key == s.txs[x].key && s'.txs[x].kind == s.txs[x].kind
    ensures !step.SendPeerRequest? && !step.GiveUpRefuse? ==>
      s'.txs == s.txs[x := s'.txs[x]] && forall k :: k in s'.flat ==> k in s.flat && s'.flat[k] == s.flat[k]
  {
  }

  lemma TransactionsPassOn(s: State, x: Id, step: TxStep, s': State, n: nat)
    requires TxNext(s, x, step, s') && !step.SendPeerRequest?
    requires x in s.txs && x in s'.txs && TxOwns(s.txs[x], n)
    ensures TxOwns(s'.txs[x], n) || (step.GiveUpTake? && s'.table == Take(s.table, n, s.clock))
  {
  }

  lemma RefusalSends(s: State, x: Id, step: TxStep, s': State)
    requires TxNext(s, x, step, s') && step.GiveUpRefuse?
    ensures x in s.txs && s.txs[x].phase.Refusing? && step.spare !in s.txs && x in s'.txs
    ensures var p := s.txs[x].phase;
      s'.txs == AfterSend(s, Key(p.peer, p.upfSeq), AnswerTx, step.spare, step.sent).txs[x := s'.txs[x]]
      && s'.flat == AfterSend(s, Key(p.peer, p.upfSeq), AnswerTx, step.spare, step.sent).flat
      && s'.txs[x].key == s.txs[x].key && s'.table == s.table
  {
  }

  lemma TransactionsKeepOwned(s: State, x: Id, step: TxStep, s': State, n: nat)
    requires TxNext(s, x, step, s')
    requires forall m :: Waiting(s.table, m, s.clock) ==> Owned(s, m)
    requires Waiting(s'.table, n, s.clock)
    ensures Owned(s', n)
  {
    TransactionsSend(s, x, step, s');
    TransactionsActOnTheTable(s, x, step, s');
    var op := TableOp(s, OfTx(x, step));
    if op.Some? {
      WaitingComesFrom(s.table, op.value, s'.table, n, s.clock);
    }
    if step.SendPeerRequest? {
      SendingKeepsOwned(s, Key(s.self, step.number), PeerRequest, x, Registered, s', n);
    } else if step.GiveUpRefuse? {
      RefusalSends(s, x, step, s');
      var p := s.txs[x].phase;
      var sent := AfterSend(s, Key(p.peer, p.upfSeq), AnswerTx, step.spare, step.sent);
      OtherTxsOwn(s.txs, step.spare, Tx(Key(p.peer, p.upfSeq), AnswerTx, Running(false)), n);
      OtherTxsOwn(sent.txs, x, s'.txs[x], n);
    } else {
      if TxOwns(s.txs[x], n) {
        TransactionsPassOn(s, x, step, s', n);
      }
      OtherTxsOwn(s.txs, x, s'.txs[x], n);
    }
  }

  lemma TransactionsKeepInv(s: State, x: Id, step: TxStep, s': State)
    requires Inv(s) && TxNext(s, x, step, s')
    ensures Inv(s')
  {
    TransactionsSend(s, x, step, s');
    if step.SendPeerRequest? {
      SendingKeepsOwned(s, Key(s.self, step.number), PeerRequest, x, Registered, s', 0);
    } else if step.GiveUpRefuse? {
      RefusalSends(s, x, step, s');
    }
    forall n | Waiting(s'.table, n, s'.clock) ensures Owned(s', n) {
      TransactionsKeepOwned(s, x, step, s', n);
    }
  }

  lemma RespondersSend(s: State, id: Id, a: Responder, step: ResponderStep, s': State)
    requires ResponderNext(s, id, a, step, s')
    ensures s'.handlers == s.handlers && s'.reader == s.reader && s'.clock == s.clock
    ensures id in s'.responders && s'.responders == s.responders[id := s'.responders[id]]
    ensures step.AnswerReport? ==> a.Answering? && SentOne(s, Key(a.peer, a.upfSeq), AnswerTx, step.spare, step.sent, s')
    ensures !step.AnswerReport? ==> s'.txs == s.txs && s'.flat == s.flat
    ensures !a.Done? && ActsOnTable(s.table, ResponderOp(a, step, s.clock), s'.table)
    ensures a.Pending? ==> step.TakeForResponse?
  {
  }

  lemma RespondersKeepInv(s: State, id: Id, step: ResponderStep, s': State)
    requires Inv(s) && id in s.responders && ResponderNext(s, id, s.responders[id], step, s')
    ensures Inv(s')
  {
    var a := s.responders[id];
    RespondersSend(s, id, a, step, s');
    if step.AnswerReport? {
      SendingKeepsOwned(s, Key(a.peer, a.upfSeq), AnswerTx, step.spare, step.sent, s', 0);
    }
    forall n | Waiting(s'.table, n, s'.clock) ensures Owned(s', n) {
      var op := ResponderOp(a, step, s.clock);
      if op.Some? {
        WaitingComesFrom(s.table, op.value, s'.table, n, s.clock);
      }
      OtherRespondersOwn(s.responders, id, s'.responders[id], n);
      if step.AnswerReport? {
        SendingKeepsOwned(s, Key(a.peer, a.upfSeq), AnswerTx, step.spare, step.sent, s', n);
      }
    }
  }

  lemma StepKeepsInv(s: State, step: Step, s': State)
    requires Inv(s) && Next(s, step, s')
    ensures Inv(s')
  {
    match step {
      case OfNaming(n) =>
        NamingsKeepOwners(s, n, s');
      case OfReader(r) =>
        ReaderKeepsMatched(s, r, s');
        forall n | Waiting(s'.table, n, s'.clock) ensures Owned(s', n) {
          ReaderKeepsOwned(s, r, s', n);
        }
      case OfHandler(id, h) =>
        HandlersKeepInv(s, id, h, s');
      case OfTx(x, t) =>
        TransactionsKeepInv(s, x, t, s');
      case OfResponder(id, r) =>
        RespondersKeepInv(s, id, r, s');
    }
  }

  /**
   In every state of every run, a relay that is neither answered nor past its lifetime is held by a handler in its
   retry loop, or by a request in flight under its number whose error handler has not run, or by a response the read
   loop or a handler has yet to act on.
   */
  lemma {:induction false} NoClaimIsStranded(r: Run, i: nat)
    requires IsRun(r) && i < |r.states|
    ensures Inv(r.states[i])
    ensures forall n :: Waiting(r.states[i].table, n, r.states[i].clock) ==> Owned(r.states[i], n)
  {
    if i > 0 {
      NoClaimIsStranded(r, i - 1);
      assert IsStep(r, i - 1);
      StepKeepsInv(r.states[i - 1], r.steps[i - 1], r.states[i]);
    }
  }

  // -- Who moves the read loop -----------------------------------------------------------------------

  lemma HandlersLeaveReader(s: State, id: Id, h: Handler, step: HandlerStep, s': State)
    requires HandlerNext(s, id, h, step, s')
    ensures s'.reader == s.reader && s'.responders == s.responders
  {
    if step.ReadGeneration? || step.CheckKnown? || step.FindSmf? {
      GatesLeaveRest(s, id, h, step, s');
    } else if step.ClaimReport? {
      ClaimsLeaveRest(s, id, h, step.claimed, s');
    } else {
      RelaysLeaveRest(s, id, h, step, s');
    }
  }

  lemma OthersLeaveReader(s: State, step: Step, s': State)
    requires Next(s, step, s') && !step.OfReader?
    ensures s'.reader == s.reader && (!step.OfResponder? ==> s'.responders == s.responders)
  {
    match step {
      case OfNaming(n) => NamingsKeepOwners(s, n, s');
      case OfHandler(id, h) => HandlersLeaveReader(s, id, s.handlers[id], h, s');
      case OfTx(x, t) => TransactionsSend(s, x, t, s');
      case OfResponder(id, a) => RespondersSend(s, id, s.responders[id], a, s');
    }
  }

  // -- The retry loop ends ---------------------------------------------------------------------------

  /** About to send again, or to renumber so as to, only within the bound. */
  predicate WithinAttempts(h: Handler) {
    IsAt(h, Send) || IsAt(h, Renumbering) ==> h.attempt < RELAY_SEND_ATTEMPTS
  }

  lemma RelaysKeepWithinAttempts(s: State, id: Id, h: Handler, step: HandlerStep, s': State)
    requires RelayNext(s, id, h, step, s') && WithinAttempts(h)
    ensures id in s'.handlers && WithinAttempts(s'.handlers[id])
  {
  }

  lemma ClaimsKeepWithinAttempts(s: State, id: Id, h: Handler, r: ClaimResult, s': State)
    requires h.Claiming? && ClaimReportStep(s, id, h, r, s')
    ensures id in s'.handlers && WithinAttempts(s'.handlers[id])
  {
  }

  lemma StepKeepsWithinAttempts(s: State, step: Step, s': State)
    requires Next(s, step, s')
    requires forall id :: id in s.handlers ==> WithinAttempts(s.handlers[id])
    ensures forall id :: id in s'.handlers ==> WithinAttempts(s'.handlers[id])
  {
    StepsLeaveAlone(s, step, s');
    if step.OfHandler? {
      var h := s.handlers[step.id];
      if step.handling.ClaimReport? {
        ClaimsKeepWithinAttempts(s, step.id, h, step.handling.claimed, s');
      } else if !(step.handling.ReadGeneration? || step.handling.CheckKnown? || step.handling.FindSmf?) {
        RelaysKeepWithinAttempts(s, step.id, h, step.handling, s');
      }
    }
  }

  /** No handler sends its relay, or looks for another number to send it under, after its fourth attempt. */
  lemma {:induction false} AttemptsAreBounded(r: Run, i: nat)
    requires IsRun(r) && i < |r.states|
    ensures forall id :: id in r.states[i].handlers ==> WithinAttempts(r.states[i].handlers[id])
    ensures forall id :: id in r.states[i].handlers && IsAt(r.states[i].handlers[id], Send) ==> r.states[i].handlers[id].attempt < 4
  {
    if i > 0 {
      AttemptsAreBounded(r, i - 1);
      assert IsStep(r, i - 1);
      StepKeepsWithinAttempts(r.states[i - 1], r.steps[i - 1], r.states[i]);
    }
  }
}
