/**
 The source check, over runs: nobody is answered, and nothing is held for anybody, but for a peer that has passed it, at
 a moment when the SMF had named a node at its address within the last half hour.
 */
module ProtocolGate {
  import opened Basics
  import opened RelaySpec
  import opened AuthSpec
  import opened TransactionSpec
  import opened Protocol
  import ProtocolOwnership
  import ProtocolSafety
  import ProtocolTables
  import RelayRuns

  /** The peer whose report passes the check in this step. */
  function Passing(s: State, step: Step): set<Peer> {
    if step.OfHandler? && step.handling.CheckKnown? && step.id in s.handlers && s.handlers[step.id].Quoting?
       && Known(s.auth, s.handlers[step.id].peer.host, s.clock)
    then {s.handlers[step.id].peer} else {}
  }

  function Passed(r: Run, i: nat): set<Peer>
    requires i <= |r.steps| < |r.states|
  {
    if i == 0 then {} else Passed(r, i - 1) + Passing(r.states[i - 1], r.steps[i - 1])
  }

  /** Whoever a handler past the check deals with, and whoever a claim is from. */
  predicate HandlerPassed(h: Handler, g: set<Peer>) {
    h.Admitted? || h.Claiming? || h.Rejecting? || h.Relaying? ==> h.peer in g
  }

  predicate TxPassed(tx: Tx, g: set<Peer>) {
    && (tx.kind.AnswerTx? ==> tx.key.consumer in g)
    && (tx.phase.Refusing? ==> tx.phase.peer in g)
  }

  predicate ResponderPassed(a: Responder, g: set<Peer>) {
    a.Answering? ==> a.peer in g
  }

  ghost predicate TablePassed(t: Table, g: set<Peer>) {
    forall n :: n in t.relays ==> t.relays[n].peer in g
  }

  ghost predicate AllPassed(s: State, g: set<Peer>) {
    && (forall id :: id in s.handlers ==> HandlerPassed(s.handlers[id], g))
    && (forall x :: x in s.txs ==> TxPassed(s.txs[x], g))
    && (forall id :: id in s.responders ==> ResponderPassed(s.responders[id], g))
    && TablePassed(s.table, g)
    && (forall i :: 0 <= i < |s.past.answers| ==> s.past.answers[i].peer in g)
  }

  // -- Each kind of step -----------------------------------------------------------------------------

  lemma TableKeepsPassed(s: State, step: Step, s': State, g: set<Peer>)
    requires Next(s, step, s') && AllPassed(s, g)
    ensures TablePassed(s'.table, g)
  {
    StepsActOnTheTable(s, step, s');
    forall n | n in s'.table.relays ensures s'.table.relays[n].peer in g {
      if TableOp(s, step).Some? {
        ProtocolSafety.EntriesComeFromClaims(s.table, TableOp(s, step).value, s'.table, n);
        if step.OfHandler? {
          assert HandlerPassed(s.handlers[step.id], g);
        }
      }
    }
  }

  /** A send on the way of answering somebody who has passed. */
  lemma SendingKeepsPassed(s: State, key: Key, kind: TxKind, x: Id, r: SendResult, s': State, g: set<Peer>)
    requires ProtocolOwnership.SentOne(s, key, kind, x, r, s')
    requires (forall y :: y in s.txs ==> TxPassed(s.txs[y], g)) && (kind.AnswerTx? ==> key.consumer in g)
    ensures forall y :: y in s'.txs ==> TxPassed(s'.txs[y], g)
  {
  }

  lemma RelaysAnswerPassed(s: State, id: Id, h: Handler, step: HandlerStep, s': State)
    requires RelayNext(s, id, h, step, s')
    ensures s'.past.answers == s.past.answers
            || (h.Relaying? && exists a :: s'.past.answers == s.past.answers + [a] && a.peer == h.peer)
  {
  }

  lemma RelaysKeepPeer(s: State, id: Id, h: Handler, step: HandlerStep, s': State)
    requires RelayNext(s, id, h, step, s')
    ensures id in s'.handlers && (s'.handlers[id].Finished? || (s'.handlers[id].Relaying? && h.Relaying? && s'.handlers[id].peer == h.peer))
  {
  }

  lemma RelaysKeepPassed(s: State, id: Id, h: Handler, step: HandlerStep, s': State, g: set<Peer>)
    requires id in s.handlers && h == s.handlers[id] && RelayNext(s, id, h, step, s')
    requires AllPassed(s, g) && TablePassed(s'.table, g)
    ensures AllPassed(s', g)
  {
    assert HandlerPassed(h, g);
    ProtocolOwnership.RelaysLeaveRest(s, id, h, step, s');
    ProtocolOwnership.RelaysSend(s, id, h, step, s');
    RelaysAnswerPassed(s, id, h, step, s');
    RelaysKeepPeer(s, id, h, step, s');
    if step.SendReport? {
      SendingKeepsPassed(s, Key(s.self, h.number), RelayRequest(h.claim), step.spare, step.sent, s', g);
    } else if step.RefuseReport? || step.RejectReport? {
      SendingKeepsPassed(s, Key(h.peer, h.upfSeq), AnswerTx, step.spare, step.sent, s', g);
    }
  }

  lemma ClaimsKeepPassed(s: State, id: Id, h: Handler, c: ClaimResult, s': State, g: set<Peer>)
    requires id in s.handlers && h == s.handlers[id] && h.Claiming? && ClaimReportStep(s, id, h, c, s')
    requires AllPassed(s, g) && TablePassed(s'.table, g)
    ensures AllPassed(s', g)
  {
    assert HandlerPassed(h, g);
  }

  lemma GatesKeepPassed(s: State, id: Id, h: Handler, step: HandlerStep, s': State, g: set<Peer>)
    requires id in s.handlers && h == s.handlers[id] && GateNext(s, id, h, step, s')
    requires AllPassed(s, g)
    ensures AllPassed(s', g + Passing(s, OfHandler(id, step)))
  {
    assert HandlerPassed(h, g);
    assert s'.past == s.past;
    ProtocolOwnership.GatesLeaveRest(s, id, h, step, s');
  }

  lemma HandlersKeepPassed(s: State, id: Id, step: HandlerStep, s': State, g: set<Peer>)
    requires id in s.handlers && HandlerNext(s, id, s.handlers[id], step, s')
    requires AllPassed(s, g) && TablePassed(s'.table, g)
    ensures AllPassed(s', g + Passing(s, OfHandler(id, step)))
  {
    var h := s.handlers[id];
    if step.ReadGeneration? || step.CheckKnown? || step.FindSmf? {
      GatesKeepPassed(s, id, h, step, s', g);
    } else if step.ClaimReport? {
      ClaimsKeepPassed(s, id, h, step.claimed, s', g);
    } else {
      RelaysKeepPassed(s, id, h, step, s', g);
    }
  }

  lemma NamingsKeepPassed(s: State, step: NamingStep, s': State, g: set<Peer>)
    requires NamingNext(s, step, s') && AllPassed(s, g) && TablePassed(s'.table, g)
    ensures AllPassed(s', g)
  {
    ProtocolOwnership.NamingsKeepOwners(s, step, s');
    if !step.PurgeRelays? && !step.DropConsumerAt? {
      QuietNamingsLeaveRest(s, step, s');
    }
  }

  lemma ReaderKeepsPassed(s: State, step: ReaderStep, s': State, g: set<Peer>)
    requires ReaderNext(s, step, s') && AllPassed(s, g)
    ensures AllPassed(s', g)
  {
    ReaderLeavesAlone(s, step, s');
    assert s'.table == s.table;
  }

  lemma TakesKeepPassed(s: State, x: Id, s': State, g: set<Peer>)
    requires TxNext(s, x, GiveUpTake, s') && AllPassed(s, g) && TablePassed(s'.table, g)
    ensures AllPassed(s', g)
  {
    assert TxPassed(s.txs[x], g);
  }

  lemma RefusalsKeepPassed(s: State, x: Id, y: Id, r: SendResult, s': State, g: set<Peer>)
    requires TxNext(s, x, GiveUpRefuse(y, r), s') && AllPassed(s, g) && TablePassed(s'.table, g)
    ensures AllPassed(s', g)
  {
    assert TxPassed(s.txs[x], g);
  }

  lemma OtherTxStepsKeepPassed(s: State, x: Id, step: TxStep, s': State, g: set<Peer>)
    requires TxNext(s, x, step, s') && !step.GiveUpTake? && !step.GiveUpRefuse?
    requires AllPassed(s, g) && TablePassed(s'.table, g)
    ensures AllPassed(s', g)
  {
    ProtocolOwnership.TransactionsSend(s, x, step, s');
    assert s'.past.answers == s.past.answers;
    assert x in s.txs ==> TxPassed(s.txs[x], g);
    assert x in s'.txs ==> TxPassed(s'.txs[x], g);
  }

  lemma TransactionsKeepPassed(s: State, x: Id, step: TxStep, s': State, g: set<Peer>)
    requires TxNext(s, x, step, s') && AllPassed(s, g) && TablePassed(s'.table, g)
    ensures AllPassed(s', g)
  {
    match step {
      case GiveUpTake => TakesKeepPassed(s, x, s', g);
      case GiveUpRefuse(y, r) => RefusalsKeepPassed(s, x, y, r, s', g);
      case _ => OtherTxStepsKeepPassed(s, x, step, s', g);
    }
  }

  lemma ResponderTakesKeepPassed(s: State, id: Id, s': State, g: set<Peer>)
    requires id in s.responders && ResponderNext(s, id, s.responders[id], TakeForResponse, s')
    requires AllPassed(s, g) && TablePassed(s'.table, g)
    ensures AllPassed(s', g)
  {
  }

  lemma RespondersKeepPassed(s: State, id: Id, step: ResponderStep, s': State, g: set<Peer>)
    requires id in s.responders && ResponderNext(s, id, s.responders[id], step, s')
    requires AllPassed(s, g) && TablePassed(s'.table, g)
    ensures AllPassed(s', g)
  {
    var a := s.responders[id];
    assert ResponderPassed(a, g);
    match step {
      case TakeForResponse => ResponderTakesKeepPassed(s, id, s', g);
      case AnswerReport(x, r) =>
        ProtocolOwnership.RespondersSend(s, id, a, step, s');
        SendingKeepsPassed(s, Key(a.peer, a.upfSeq), AnswerTx, x, r, s', g);
      case EndAnswered =>
    }
  }

  lemma StepKeepsPassed(s: State, step: Step, s': State, g: set<Peer>)
    requires Next(s, step, s') && AllPassed(s, g)
    ensures AllPassed(s', g + Passing(s, step))
  {
    TableKeepsPassed(s, step, s', g);
    match step {
      case OfNaming(n) => NamingsKeepPassed(s, n, s', g);
      case OfReader(n) => ReaderKeepsPassed(s, n, s', g);
      case OfHandler(id, h) => HandlersKeepPassed(s, id, h, s', g);
      case OfTx(x, t) => TransactionsKeepPassed(s, x, t, s', g);
      case OfResponder(id, a) => RespondersKeepPassed(s, id, a, s', g);
    }
  }

  // -- Over runs -------------------------------------------------------------------------------------

  lemma {:induction false} EveryoneHasPassed(r: Run, i: nat)
    requires IsRun(r) && i < |r.states|
    ensures AllPassed(r.states[i], Passed(r, i))
  {
    if i > 0 {
      EveryoneHasPassed(r, i - 1);
      assert IsStep(r, i - 1);
      StepKeepsPassed(r.states[i - 1], r.steps[i - 1], r.states[i], Passed(r, i - 1));
    }
  }

  /** At step k a report from the peer was checked, while some node recorded at its host had been named in the last half hour. */
  ghost predicate CheckedAt(r: Run, k: nat, peer: Peer) {
    && k < |r.steps| && k < |r.states|
    && r.steps[k].OfHandler? && r.steps[k].handling.CheckKnown?
    && r.steps[k].id in r.states[k].handlers && r.states[k].handlers[r.steps[k].id].Quoting?
    && r.states[k].handlers[r.steps[k].id].peer == peer
    && exists node :: node in r.states[k].auth.nodes && r.states[k].auth.nodes[node].addr == Some(peer.host)
                      && r.states[k].clock <= r.states[k].auth.nodes[node].seen + 30 * 60 * SECOND
  }

  lemma {:induction false} WhoPassedWasChecked(r: Run, i: nat, peer: Peer) returns (k: nat)
    requires IsRun(r) && i <= |r.steps| && peer in Passed(r, i)
    ensures k < i && CheckedAt(r, k, peer)
  {
    if peer in Passed(r, i - 1) {
      k := WhoPassedWasChecked(r, i - 1, peer);
    } else {
      k := i - 1;
      assert IsStep(r, k);
      ProtocolTables.AuthorisationAgrees(r, k);
      KnownMeansNamedLately(r.states[k].auth, peer.host, r.states[k].clock);
    }
  }

  /**
   In every state of every run: whoever has been answered, or is about to be, or has a transaction of an answer to it, or
   has a relay outstanding, sent a report that passed the source check earlier in the run.
   */
  lemma OnlyTheCheckedAreDealtWith(r: Run, i: nat, peer: Peer) returns (k: nat)
    requires IsRun(r) && i < |r.states|
    requires var s := r.states[i];
      || (exists j :: 0 <= j < |s.past.answers| && s.past.answers[j].peer == peer)
      || (exists x :: x in s.txs && s.txs[x].kind.AnswerTx? && s.txs[x].key.consumer == peer)
      || (exists n :: n in s.table.relays && s.table.relays[n].peer == peer)
      || (exists id :: id in s.handlers && (s.handlers[id].Rejecting? || s.handlers[id].Relaying?) && s.handlers[id].peer == peer)
    ensures k < i && CheckedAt(r, k, peer)
  {
    EveryoneHasPassed(r, i);
    assert forall id :: id in r.states[i].handlers ==> HandlerPassed(r.states[i].handlers[id], Passed(r, i));
    assert forall x :: x in r.states[i].txs ==> TxPassed(r.states[i].txs[x], Passed(r, i));
    k := WhoPassedWasChecked(r, i, peer);
  }
}
