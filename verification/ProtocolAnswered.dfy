/**
 Taking a claim is a promise to answer it: whoever has taken one has answered it or is about to. With the bound on how
 long each thread may take, every report is answered, refused or released.
 */
module ProtocolAnswered {
  import opened Basics
  import opened RelaySpec
  import opened Protocol
  import opened ProtocolAnswers
  import opened ProtocolAnswerSteps
  import ProtocolOwnership
  import ProtocolTiming

  predicate IsRefusing(txs: map<Id, Tx>, x: Id, c: nat) {
    x in txs && txs[x].phase.Refusing? && txs[x].phase.claim == c
  }

  predicate IsAnswering(responders: map<Id, Responder>, id: Id, c: nat) {
    id in responders && responders[id].Answering? && responders[id].taken == c
  }

  /** The thread that took the claim has its peer and number in hand and an answer to send. */
  predicate AboutToAnswer(s: State, c: nat, who: Taker) {
    match who
    case TxTaker(x) => IsRefusing(s.txs, x, c)
    case ResponderTaker(id) => IsAnswering(s.responders, id, c)
  }

  ghost predicate TakenAreAnswered(s: State) {
    forall c :: c in s.past.takers ==> c in AnsweredBy(s.past.answers) || AboutToAnswer(s, c, s.past.takers[c])
  }

  // -- What the history of a step says ---------------------------------------------------------------

  ghost predicate AnswersStay(p: History, p': History) {
    AnsweredBy(p.answers) <= AnsweredBy(p'.answers)
  }

  /** Nobody takes and nobody answers. */
  predicate NoTakeNoAnswer(p: History, p': History) {
    p'.takers == p.takers && p'.answers == p.answers
  }

  lemma RelaysTakeNothing(s: State, id: Id, h: Handler, step: HandlerStep, s': State)
    requires RelayNext(s, id, h, step, s')
    ensures s'.past.takers == s.past.takers
    ensures s'.past.answers == s.past.answers || exists a :: s'.past.answers == s.past.answers + [a]
  {
  }

  lemma HandlersTakeNothing(s: State, id: Id, h: Handler, step: HandlerStep, s': State)
    requires HandlerNext(s, id, h, step, s')
    ensures s'.past.takers == s.past.takers && AnswersStay(s.past, s'.past)
  {
    if !(step.ReadGeneration? || step.CheckKnown? || step.FindSmf?) && !step.ClaimReport? {
      RelaysTakeNothing(s, id, h, step, s');
      if a :| s'.past.answers == s.past.answers + [a] {
        AnsweredByOneMore(s.past.answers, a);
      }
    }
  }

  lemma NamingsTakeNothing(s: State, step: NamingStep, s': State)
    requires NamingNext(s, step, s')
    ensures NoTakeNoAnswer(s.past, s'.past)
  {
    if !step.PurgeRelays? && !step.DropConsumerAt? {
      QuietNamingsLeaveRest(s, step, s');
    }
  }

  lemma PlainTransactionStepsTakeNothing(s: State, x: Id, step: TxStep, s': State)
    requires TxNext(s, x, step, s') && !step.GiveUpTake? && !step.GiveUpRefuse?
    ensures NoTakeNoAnswer(s.past, s'.past)
    ensures x in s.txs ==> !s.txs[x].phase.Refusing?
  {
  }

  // -- Each kind of step -----------------------------------------------------------------------------

  /** A step that takes nothing, and leaves every thread that is about to answer as it is, keeps the promise. */
  lemma OtherThreadsKeepTheirWord(s: State, s': State)
    requires TakenAreAnswered(s) && s'.past.takers == s.past.takers && AnswersStay(s.past, s'.past)
    requires forall x :: x in s.txs && s.txs[x].phase.Refusing? ==> x in s'.txs && s'.txs[x] == s.txs[x]
    requires forall id :: id in s.responders && s.responders[id].Answering? ==>
      id in s'.responders && s'.responders[id] == s.responders[id]
    ensures TakenAreAnswered(s')
  {
  }

  lemma TxTakesKeepWord(s: State, x: Id, s': State)
    requires TakenAreAnswered(s) && TxNext(s, x, GiveUpTake, s')
    ensures TakenAreAnswered(s')
  {
    TakesMove(s, x, s');
  }

  lemma TxRefusalsKeepWord(s: State, x: Id, y: Id, r: SendResult, s': State)
    requires TakenAreAnswered(s) && TxNext(s, x, GiveUpRefuse(y, r), s')
    ensures TakenAreAnswered(s')
  {
    var q := s.txs[x].phase;
    AnsweredByOneMore(s.past.answers, Answer(q.claim, q.peer, q.upfSeq, ByGiveUp));
  }

  lemma ResponderTakesKeepWord(s: State, id: Id, s': State)
    requires TakenAreAnswered(s) && id in s.responders && ResponderNext(s, id, s.responders[id], TakeForResponse, s')
    ensures TakenAreAnswered(s')
  {
  }

  lemma ResponderAnswersKeepWord(s: State, id: Id, x: Id, r: SendResult, s': State)
    requires TakenAreAnswered(s) && id in s.responders && ResponderNext(s, id, s.responders[id], AnswerReport(x, r), s')
    ensures TakenAreAnswered(s')
  {
    var a := s.responders[id];
    AnsweredByOneMore(s.past.answers, Answer(a.taken, a.peer, a.upfSeq, BySmf));
  }

  lemma TransactionsKeepWord(s: State, x: Id, step: TxStep, s': State)
    requires TakenAreAnswered(s) && TxNext(s, x, step, s')
    ensures TakenAreAnswered(s')
  {
    match step {
      case GiveUpTake => TxTakesKeepWord(s, x, s');
      case GiveUpRefuse(y, r) => TxRefusalsKeepWord(s, x, y, r, s');
      case _ =>
        PlainTransactionStepsTakeNothing(s, x, step, s');
        ProtocolOwnership.TransactionsSend(s, x, step, s');
        OtherThreadsKeepTheirWord(s, s');
    }
  }

  lemma RespondersKeepWord(s: State, id: Id, step: ResponderStep, s': State)
    requires TakenAreAnswered(s) && id in s.responders && ResponderNext(s, id, s.responders[id], step, s')
    ensures TakenAreAnswered(s')
  {
    match step {
      case TakeForResponse => ResponderTakesKeepWord(s, id, s');
      case AnswerReport(x, r) => ResponderAnswersKeepWord(s, id, x, r, s');
      case EndAnswered => OtherThreadsKeepTheirWord(s, s');
    }
  }

  lemma HandlersKeepWord(s: State, id: Id, step: HandlerStep, s': State)
    requires TakenAreAnswered(s) && id in s.handlers && HandlerNext(s, id, s.handlers[id], step, s')
    ensures TakenAreAnswered(s')
  {
    HandlersTakeNothing(s, id, s.handlers[id], step, s');
    ProtocolOwnership.HandlersLeaveReader(s, id, s.handlers[id], step, s');
    forall x | x in s.txs ensures x in s'.txs && s'.txs[x] == s.txs[x] {
      ProtocolTiming.HandlersLeaveTx(s, id, step, s', x);
    }
    OtherThreadsKeepTheirWord(s, s');
  }

  lemma ReaderKeepsWord(s: State, step: ReaderStep, s': State)
    requires TakenAreAnswered(s) && ReaderNext(s, step, s')
    ensures TakenAreAnswered(s')
  {
    ReaderLeavesAlone(s, step, s');
    OtherThreadsKeepTheirWord(s, s');
  }

  lemma StepKeepsWord(s: State, step: Step, s': State)
    requires TakenAreAnswered(s) && Next(s, step, s')
    ensures TakenAreAnswered(s')
  {
    match step {
      case OfNaming(n) =>
        NamingsTakeNothing(s, n, s');
        ProtocolOwnership.NamingsKeepOwners(s, n, s');
        OtherThreadsKeepTheirWord(s, s');
      case OfReader(n) => ReaderKeepsWord(s, n, s');
      case OfHandler(id, h) => HandlersKeepWord(s, id, h, s');
      case OfTx(x, t) => TransactionsKeepWord(s, x, t, s');
      case OfResponder(id, a) => RespondersKeepWord(s, id, a, s');
    }
  }

  // -- Over runs -------------------------------------------------------------------------------------

  /** In every state of every run, a claim somebody has taken has been answered, or whoever took it is about to answer it. */
  lemma {:induction false} EveryTakerAnswers(r: Run, i: nat)
    requires IsRun(r) && i < |r.states|
    ensures TakenAreAnswered(r.states[i])
  {
    if i > 0 {
      EveryTakerAnswers(r, i - 1);
      assert IsStep(r, i - 1);
      StepKeepsWord(r.states[i - 1], r.steps[i - 1], r.states[i]);
    }
  }

  /**
   In every state of every run that is orderly and in which each thread keeps to its budget, the claim of a relay past its
   lifetime has been answered, toward its own peer under its own number, or whoever took it is about to answer it.
   */
  lemma NoReportIsForgotten(r: Run, i: nat, n: nat, b: ProtocolTiming.Budget)
    requires IsOrderlyRun(r) && ProtocolTiming.IsPromptRun(r, b) && i < |r.states|
    requires n in r.states[i].table.relays && !Live(r.states[i].table.relays[n], r.states[i].clock)
    ensures var s := r.states[i];
      && n in s.past.claimOf
      && var c := s.past.claimOf[n];
         && IsReport(s.past, c, s.table.relays[n].peer, s.table.relays[n].upfSeq)
         && c in s.past.takers
         && (AboutToAnswer(s, c, s.past.takers[c])
             || exists a :: a in s.past.answers && a.claim == c && IsReport(s.past, c, a.peer, a.upfSeq))
  {
    var s := r.states[i];
    ProtocolTiming.NoReportIsLeftToItsLifetime(r, i, n, b);
    EveryStateIsSound(r, i);
    EveryTakerAnswers(r, i);
    assert EntryOk(s.past, n, s.table.relays[n]);
    var c := s.past.claimOf[n];
    if c in AnsweredBy(s.past.answers) {
      var a :| a in s.past.answers && a.claim == c;
      assert AnswerOk(s.past, a);
    }
  }
}
