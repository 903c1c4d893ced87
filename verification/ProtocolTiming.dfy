/**
 The clock put to the question of who deals with a report: if every thread does its part in time, none is left to its
 lifetime. A request's part is bounded by its resend loop, which ends within nine seconds.
 */
module ProtocolTiming {
  import opened Basics
  import opened RelaySpec
  import opened Protocol
  import opened ProtocolOwnership
  import RelayRuns
  import ResendMachine

  predicate Unanswered(t: Table, n: nat) {
    n in t.relays && !t.relays[n].answered
  }

  predicate StillUnanswered(t: Table, t': Table, n: nat) {
    Unanswered(t, n) && Unanswered(t', n) && t'.relays[n] == t.relays[n]
  }

  /** What a table's operation says of an unanswered relay it leaves: it was there before, or the number was handed out. */
  lemma UnansweredComesFrom(t: Table, op: RelayRuns.Op, t': Table, n: nat)
    requires RelayRuns.Next(t, op, t') && Unanswered(t', n)
    ensures StillUnanswered(t, t', n) || RelayRuns.HandedOut(op) == Some(n)
    ensures op.DoTake? && op.number == n ==> !Live(t'.relays[n], op.now)
    ensures op.DoForget? ==> op.number != n
    ensures op.DoRenumber? && (op.renumbered.Renumbered? || op.renumbered.NotHeld?) ==> op.number != n
  {
  }

  // -- Whoever owns a relay passes it on -------------------------------------------------------------

  ghost predicate NewTxOwns(s: State, s': State, n: nat) {
    exists x :: x !in s.txs && x in s'.txs && TxOwns(s'.txs[x], n)
  }

  ghost predicate NewResponderOwns(s: State, s': State, n: nat) {
    exists id :: id !in s.responders && id in s'.responders && ResponderOwns(s'.responders[id], n)
  }

  lemma RelayPassesOn(s: State, id: Id, h: Handler, step: HandlerStep, s': State, n: nat)
    requires id in s.handlers && h == s.handlers[id] && RelayNext(s, id, h, step, s')
    requires HandlerOwns(h, n) && Unanswered(s'.table, n)
    ensures (id in s'.handlers && HandlerOwns(s'.handlers[id], n)) || NewTxOwns(s, s', n)
  {
    RelaysLeaveRest(s, id, h, step, s');
    RelaysSend(s, id, h, step, s');
    HandlersActOnTheTable(s, id, h, step, s');
    if HandlerOp(h, step).Some? {
      UnansweredComesFrom(s.table, HandlerOp(h, step).value, s'.table, n);
    }
    if step.SendReport? && step.sent.Registered? {
      assert step.spare !in s.txs && step.spare in s'.txs && TxOwns(s'.txs[step.spare], n);
    }
  }

  lemma HandlerPassesOn(s: State, step: Step, s': State, id: Id, n: nat)
    requires Next(s, step, s') && id in s.handlers
    requires HandlerOwns(s.handlers[id], n) && Unanswered(s'.table, n)
    ensures (id in s'.handlers && HandlerOwns(s'.handlers[id], n)) || NewTxOwns(s, s', n)
  {
    StepsLeaveAlone(s, step, s');
    if step.OfHandler? && step.id == id {
      RelayPassesOn(s, id, s.handlers[id], step.handling, s', n);
    }
  }

  lemma OtherStepsLeaveTx(s: State, step: Step, s': State, x: Id)
    requires Next(s, step, s') && x in s.txs && !step.OfReader? && !(step.OfTx? && step.tx == x)
    ensures x in s'.txs && s'.txs[x] == s.txs[x]
  {
    match step {
      case OfNaming(m) => NamingsKeepOwners(s, m, s');
      case OfHandler(id, h) => HandlersLeaveTx(s, id, h, s', x);
      case OfTx(y, t) =>
        TransactionsSend(s, y, t, s');
        if t.GiveUpRefuse? {
          RefusalSends(s, y, t, s');
        }
      case OfResponder(id, a) =>
        RespondersSend(s, id, s.responders[id], a, s');
    }
  }

  lemma HandlersLeaveTx(s: State, id: Id, step: HandlerStep, s': State, x: Id)
    requires id in s.handlers && HandlerNext(s, id, s.handlers[id], step, s') && x in s.txs
    ensures x in s'.txs && s'.txs[x] == s.txs[x]
  {
    var h := s.handlers[id];
    if step.ReadGeneration? || step.CheckKnown? || step.FindSmf? {
      GatesLeaveRest(s, id, h, step, s');
    } else if step.ClaimReport? {
      ClaimsLeaveRest(s, id, h, step.claimed, s');
    } else {
      RelaysSend(s, id, h, step, s');
    }
  }

  lemma TxPassesOn(s: State, step: Step, s': State, x: Id, n: nat)
    requires Next(s, step, s') && ReaderMatched(s) && x in s.txs && TxOwns(s.txs[x], n)
    requires StillUnanswered(s.table, s'.table, n) && Live(s.table.relays[n], s.clock)
    ensures (x in s'.txs && TxOwns(s'.txs[x], n)) || (ReaderOwns(s'.reader, n) && !s.reader.Responding?)
  {
    if step.OfTx? && step.tx == x {
      TransactionsSend(s, x, step.ending, s');
      TransactionsPassOn(s, x, step.ending, s', n);
    } else if !step.OfReader? {
      OtherStepsLeaveTx(s, step, s', x);
    }
  }

  lemma ReaderPassesOn(s: State, step: Step, s': State, n: nat)
    requires Next(s, step, s') && ReaderOwns(s.reader, n)
    ensures ReaderOwns(s'.reader, n) || NewResponderOwns(s, s', n)
  {
    if !step.OfReader? {
      OthersLeaveReader(s, step, s');
    } else if step.reading.DispatchResponse? {
      var id := step.reading.id;
      assert id !in s.responders && id in s'.responders && ResponderOwns(s'.responders[id], n);
    }
  }

  lemma ResponderPassesOn(s: State, step: Step, s': State, id: Id, n: nat)
    requires Next(s, step, s') && id in s.responders && ResponderOwns(s.responders[id], n)
    requires StillUnanswered(s.table, s'.table, n) && Live(s.table.relays[n], s.clock)
    ensures id in s'.responders && ResponderOwns(s'.responders[id], n)
  {
    if step.OfResponder? {
      RespondersSend(s, step.id, s.responders[step.id], step.responding, s');
    } else if !step.OfReader? {
      OthersLeaveReader(s, step, s');
    }
  }

  lemma OwnHandOut(s: State, id: Id, step: HandlerStep, s': State, n: nat)
    requires id in s.handlers && HandlerNext(s, id, s.handlers[id], step, s')
    requires HandlerOp(s.handlers[id], step).Some? && RelayRuns.HandedOut(HandlerOp(s.handlers[id], step).value) == Some(n)
    ensures id in s'.handlers && HandlerOwns(s'.handlers[id], n)
  {
    if step.ClaimReport? {
      ClaimsLeaveRest(s, id, s.handlers[id], step.claimed, s');
    } else {
      RelaysLeaveRest(s, id, s.handlers[id], step, s');
    }
  }

  /** A relay not there before, or there under another number, is its handler's. */
  lemma NewRelayIsItsHandlers(s: State, step: Step, s': State, n: nat)
    requires Next(s, step, s') && Unanswered(s'.table, n) && !StillUnanswered(s.table, s'.table, n)
    ensures SomeHandlerOwns(s'.handlers, n)
  {
    StepsActOnTheTable(s, step, s');
    var op := TableOp(s, step);
    if op.Some? {
      UnansweredComesFrom(s.table, op.value, s'.table, n);
      OwnHandOut(s, step.id, step.handling, s', n);
    }
  }

  // -- Since when ------------------------------------------------------------------------------------

  /** The clock when the transaction was registered, the response handler started, the read loop last took a response. */
  function TxSince(r: Run, x: Id, i: nat): Time
    requires i < |r.states|
  {
    if i == 0 then 0 else if x !in r.states[i - 1].txs then r.states[i].clock else TxSince(r, x, i - 1)
  }

  function ResponderSince(r: Run, id: Id, i: nat): Time
    requires i < |r.states|
  {
    if i == 0 then 0 else if id !in r.states[i - 1].responders then r.states[i].clock else ResponderSince(r, id, i - 1)
  }

  function ReaderSince(r: Run, i: nat): Time
    requires i < |r.states|
  {
    if i == 0 then 0 else if !r.states[i - 1].reader.Responding? then r.states[i].clock else ReaderSince(r, i - 1)
  }

  // -- In time ---------------------------------------------------------------------------------------

  /** How long each may hold an unanswered relay: a handler from its claim's date on, the others from when they got it. */
  datatype Budget = Budget(handler: Time, request: Time, reading: Time, response: Time)

  /** A request gets the time its resend loop takes, and all together no more than a claim's lifetime. */
  predicate Fits(b: Budget) {
    && ResendMachine.NUM_OF_RESEND * ResendMachine.REQUEST_TIMEOUT <= b.request
    && b.handler + b.request + b.reading + b.response <= RELAY_LIFETIME
  }

  ghost predicate PromptAt(r: Run, i: nat, b: Budget)
    requires i < |r.states|
  {
    var s := r.states[i];
    && (forall id :: id in s.handlers && s.handlers[id].Relaying? && Unanswered(s.table, s.handlers[id].number) ==>
          s.clock <= s.table.relays[s.handlers[id].number].recorded + b.handler)
    && (forall x :: x in s.txs && TxOwns(s.txs[x], s.txs[x].key.number) ==> s.clock <= TxSince(r, x, i) + b.request)
    && (s.reader.Responding? ==> s.clock <= ReaderSince(r, i) + b.reading)
    && (forall id :: id in s.responders && s.responders[id].Pending? ==> s.clock <= ResponderSince(r, id, i) + b.response)
  }

  ghost predicate TxOwnsInTime(r: Run, i: nat, n: nat, latest: Time)
    requires i < |r.states|
  {
    exists x :: x in r.states[i].txs && TxOwns(r.states[i].txs[x], n) && TxSince(r, x, i) <= latest
  }

  ghost predicate ResponderOwnsInTime(r: Run, i: nat, n: nat, latest: Time)
    requires i < |r.states|
  {
    exists id :: id in r.states[i].responders && ResponderOwns(r.states[i].responders[id], n) && ResponderSince(r, id, i) <= latest
  }

  ghost predicate OwnedInTime(r: Run, i: nat, n: nat, b: Budget)
    requires i < |r.states| && n in r.states[i].table.relays
  {
    var s, at := r.states[i], r.states[i].table.relays[n].recorded;
    || SomeHandlerOwns(s.handlers, n)
    || TxOwnsInTime(r, i, n, at + b.handler)
    || (ReaderOwns(s.reader, n) && ReaderSince(r, i) <= at + b.handler + b.request)
    || ResponderOwnsInTime(r, i, n, at + b.handler + b.request + b.reading)
  }

  lemma InTimeIsLive(r: Run, i: nat, n: nat, b: Budget)
    requires i < |r.states| && PromptAt(r, i, b) && Fits(b)
    requires Unanswered(r.states[i].table, n) && OwnedInTime(r, i, n, b)
    ensures Live(r.states[i].table.relays[n], r.states[i].clock)
  {
  }

  /** The clock stands still when anything but a naming happens. */
  lemma ClockStandsStill(s: State, step: Step, s': State)
    requires Next(s, step, s')
    ensures s'.clock == s.clock || (s'.txs == s.txs && s'.reader == s.reader && s'.responders == s.responders)
  {
    StepsLeaveAlone(s, step, s');
    if step.OfNaming? {
      NamingsKeepOwners(s, step.naming, s');
    }
  }

  lemma HandlerStaysInTime(r: Run, i: nat, n: nat, b: Budget, id: Id)
    requires IsStep(r, i) && PromptAt(r, i, b)
    requires id in r.states[i].handlers && HandlerOwns(r.states[i].handlers[id], n)
    requires StillUnanswered(r.states[i].table, r.states[i + 1].table, n)
    ensures OwnedInTime(r, i + 1, n, b)
  {
    var s, s' := r.states[i], r.states[i + 1];
    HandlerPassesOn(s, r.steps[i], s', id, n);
    if NewTxOwns(s, s', n) {
      var x :| x !in s.txs && x in s'.txs && TxOwns(s'.txs[x], n);
      ClockStandsStill(s, r.steps[i], s');
      assert TxSince(r, x, i + 1) == s'.clock == s.clock;
      assert TxOwnsInTime(r, i + 1, n, s'.table.relays[n].recorded + b.handler);
    }
  }

  lemma TxStaysInTime(r: Run, i: nat, n: nat, b: Budget)
    requires IsStep(r, i) && PromptAt(r, i, b) && ReaderMatched(r.states[i])
    requires StillUnanswered(r.states[i].table, r.states[i + 1].table, n) && Live(r.states[i].table.relays[n], r.states[i].clock)
    requires TxOwnsInTime(r, i, n, r.states[i].table.relays[n].recorded + b.handler)
    ensures OwnedInTime(r, i + 1, n, b)
  {
    var s, s' := r.states[i], r.states[i + 1];
    var latest := s.table.relays[n].recorded + b.handler;
    var x :| x in s.txs && TxOwns(s.txs[x], n) && TxSince(r, x, i) <= latest;
    TxPassesOn(s, r.steps[i], s', x, n);
    if x in s'.txs && TxOwns(s'.txs[x], n) {
      assert TxSince(r, x, i + 1) == TxSince(r, x, i);
      assert TxOwnsInTime(r, i + 1, n, latest);
    } else {
      ClockStandsStill(s, r.steps[i], s');
      assert ReaderSince(r, i + 1) == s'.clock == s.clock;
    }
  }

  lemma ReaderStaysInTime(r: Run, i: nat, n: nat, b: Budget)
    requires IsStep(r, i) && PromptAt(r, i, b)
    requires StillUnanswered(r.states[i].table, r.states[i + 1].table, n)
    requires ReaderOwns(r.states[i].reader, n)
    requires ReaderSince(r, i) <= r.states[i].table.relays[n].recorded + b.handler + b.request
    ensures OwnedInTime(r, i + 1, n, b)
  {
    var s, s' := r.states[i], r.states[i + 1];
    ReaderPassesOn(s, r.steps[i], s', n);
    if ReaderOwns(s'.reader, n) {
      assert ReaderSince(r, i + 1) == ReaderSince(r, i);
    } else {
      var id :| id !in s.responders && id in s'.responders && ResponderOwns(s'.responders[id], n);
      ClockStandsStill(s, r.steps[i], s');
      assert ResponderSince(r, id, i + 1) == s'.clock == s.clock;
      assert ResponderOwnsInTime(r, i + 1, n, s'.table.relays[n].recorded + b.handler + b.request + b.reading);
    }
  }

  lemma ResponderStaysInTime(r: Run, i: nat, n: nat, b: Budget)
    requires IsStep(r, i)
    requires StillUnanswered(r.states[i].table, r.states[i + 1].table, n) && Live(r.states[i].table.relays[n], r.states[i].clock)
    requires ResponderOwnsInTime(r, i, n, r.states[i].table.relays[n].recorded + b.handler + b.request + b.reading)
    ensures OwnedInTime(r, i + 1, n, b)
  {
    var s, s' := r.states[i], r.states[i + 1];
    var latest := s.table.relays[n].recorded + b.handler + b.request + b.reading;
    var id :| id in s.responders && ResponderOwns(s.responders[id], n) && ResponderSince(r, id, i) <= latest;
    ResponderPassesOn(s, r.steps[i], s', id, n);
    assert ResponderSince(r, id, i + 1) == ResponderSince(r, id, i);
    assert ResponderOwnsInTime(r, i + 1, n, latest);
  }

  lemma StaysInTime(r: Run, i: nat, n: nat, b: Budget)
    requires IsStep(r, i) && PromptAt(r, i, b) && Fits(b) && ReaderMatched(r.states[i])
    requires Unanswered(r.states[i + 1].table, n)
    requires Unanswered(r.states[i].table, n) ==> OwnedInTime(r, i, n, b)
    ensures OwnedInTime(r, i + 1, n, b)
  {
    var s, s' := r.states[i], r.states[i + 1];
    if !StillUnanswered(s.table, s'.table, n) {
      NewRelayIsItsHandlers(s, r.steps[i], s', n);
    } else {
      InTimeIsLive(r, i, n, b);
      var at := s.table.relays[n].recorded;
      if SomeHandlerOwns(s.handlers, n) {
        var id :| id in s.handlers && HandlerOwns(s.handlers[id], n);
        HandlerStaysInTime(r, i, n, b, id);
      } else if TxOwnsInTime(r, i, n, at + b.handler) {
        TxStaysInTime(r, i, n, b);
      } else if ReaderOwns(s.reader, n) && ReaderSince(r, i) <= at + b.handler + b.request {
        ReaderStaysInTime(r, i, n, b);
      } else {
        ResponderStaysInTime(r, i, n, b);
      }
    }
  }

  ghost predicate IsPromptRun(r: Run, b: Budget) {
    IsRun(r) && Fits(b) && forall i: nat :: i < |r.states| ==> PromptAt(r, i, b)
  }

  lemma {:induction false} EveryRelayIsOwnedInTime(r: Run, i: nat, b: Budget)
    requires IsPromptRun(r, b) && i < |r.states|
    ensures forall n :: Unanswered(r.states[i].table, n) ==> OwnedInTime(r, i, n, b)
  {
    if i > 0 {
      EveryRelayIsOwnedInTime(r, i - 1, b);
      assert IsStep(r, i - 1);
      NoClaimIsStranded(r, i - 1);
      forall n | Unanswered(r.states[i].table, n) ensures OwnedInTime(r, i, n, b) {
        StaysInTime(r, i - 1, n, b);
      }
    }
  }

  /**
   In every state of every run in which each thread does its part within its budget, and the budgets fit in a claim's
   lifetime with a request's resend loop among them, no relay has passed its lifetime with nobody having taken it.
   */
  lemma NoReportIsLeftToItsLifetime(r: Run, i: nat, n: nat, b: Budget)
    requires IsPromptRun(r, b) && i < |r.states|
    requires n in r.states[i].table.relays && !Live(r.states[i].table.relays[n], r.states[i].clock)
    ensures r.states[i].table.relays[n].answered
  {
    EveryRelayIsOwnedInTime(r, i, b);
    if Unanswered(r.states[i].table, n) {
      InTimeIsLive(r, i, n, b);
    }
  }
}
