/** Every step keeps what ProtocolAnswers says of the threads, the entries and the history; and what follows over runs. */
module ProtocolAnswerSteps {
  import opened Basics
  import opened RelaySpec
  import opened TransactionSpec
  import opened Protocol
  import opened ProtocolOwnership
  import opened ProtocolAnswers

  // -- Registering a transaction ---------------------------------------------------------------------

  lemma RegisteringKeeps(s: State, p: History, key: Key, kind: TxKind, x: Id, r: SendResult)
    requires FlatInFlight(s) && ThreadsOk(s, p) && ClaimsOk(s.self, p, s.flat) && Sends(s, key, x, r)
    requires r.Registered? ==> TxOk(s.self, p, x, Tx(key, kind, Running(false)))
    ensures var s' := AfterSend(s, key, kind, x, r);
      && FlatInFlight(s') && ThreadsOk(s', p) && ClaimsOk(s'.self, p, s'.flat)
      && s'.table == s.table && s'.handlers == s.handlers && s'.responders == s.responders && s'.reader == s.reader
      && s'.past == s.past && s'.self == s.self && s'.clock == s.clock && s'.naming == s.naming
      && (!r.Failed? ==> key in s'.flat)
  {
    var s' := AfterSend(s, key, kind, x, r);
    forall c: nat | c < |p.claims| ensures ClaimOk(s'.self, p, s'.flat, c) {
      assert ClaimOk(s.self, p, s.flat, c);
    }
  }

  // -- Answering a claim -----------------------------------------------------------------------------

  lemma AnsweredByOneMore(answers: seq<Answer>, a: Answer)
    ensures AnsweredBy(answers + [a]) == AnsweredBy(answers) + {a.claim}
  {
    forall c ensures c in AnsweredBy(answers + [a]) <==> c in AnsweredBy(answers) + {a.claim} {
      if c in AnsweredBy(answers) {
        var b :| b in answers && b.claim == c;
        assert b in answers + [a];
      }
      if c == a.claim {
        assert a in answers + [a];
      }
    }
  }

  /** An answer nobody has given before, to the claim's own report, met by a response transaction if it was registered. */
  lemma AnsweringKeepsHistory(s: State, a: Answer, r: SendResult, flat: map<Key, Id>)
    requires Sound(s)
    requires AnswerOk(s.past, a) && a.claim !in AnsweredBy(s.past.answers)
    requires forall k :: k in s.flat ==> k in flat
    requires !r.Failed? ==> Key(a.peer, a.upfSeq) in flat
    ensures var p' := AnswerHistory(s.past, a, r);
      EntriesOk(p', s.table) && ClaimsOk(s.self, p', flat) && HistoryOk(p') && GoesOn(s.past, p')
  {
    var p, p' := s.past, AnswerHistory(s.past, a, r);
    forall n | n in s.table.relays ensures EntryOk(p', n, s.table.relays[n]) {
      assert EntryOk(p, n, s.table.relays[n]);
    }
    forall c: nat | c < |p'.claims| ensures ClaimOk(s.self, p', flat, c) {
      assert ClaimOk(s.self, p, s.flat, c);
      if HasEntry(p, c) {
        var m :| m in p.claimOf && p.claimOf[m] == c;
        assert m in p'.claimOf && p'.claimOf[m] == c;
      }
    }
    forall i | 0 <= i < |p'.answers| ensures AnswerOk(p', p'.answers[i]) {
      if i < |p.answers| {
        assert AnswerOk(p, p.answers[i]);
      }
    }
    forall i, j | 0 <= i < j < |p'.answers| ensures p'.answers[i].claim != p'.answers[j].claim {
      if j == |p.answers| {
        assert p.answers[i] in p.answers;
      }
    }
  }

  /** Threads that neither relay nor are about to answer the claim do not notice. */
  lemma AnsweringKeepsHandler(self: Peer, p: History, a: Answer, r: SendResult, id: Id, h: Handler)
    requires HandlerOk(self, p, id, h)
    requires h.Relaying? && !h.stage.Release? ==> h.claim != a.claim
    ensures HandlerOk(self, AnswerHistory(p, a, r), id, h)
  {
    AnsweredByOneMore(p.answers, a);
  }

  lemma AnsweringKeepsTx(self: Peer, p: History, a: Answer, r: SendResult, x: Id, tx: Tx)
    requires TxOk(self, p, x, tx)
    requires tx.phase.Refusing? ==> tx.phase.claim != a.claim
    ensures TxOk(self, AnswerHistory(p, a, r), x, tx)
  {
    AnsweredByOneMore(p.answers, a);
  }

  lemma AnsweringKeepsResponder(p: History, a: Answer, r: SendResult, id: Id, b: Responder)
    requires ResponderOk(p, id, b)
    requires b.Answering? ==> b.claim != a.claim
    ensures ResponderOk(AnswerHistory(p, a, r), id, b)
  {
    AnsweredByOneMore(p.answers, a);
  }

  /** Every thread is as it should be, but perhaps the one about to answer the claim. */
  ghost predicate OthersOk(s: State, c: nat) {
    && (forall o :: o in s.handlers && !(s.handlers[o].Relaying? && !s.handlers[o].stage.Release? && s.handlers[o].claim == c) ==>
          HandlerOk(s.self, s.past, o, s.handlers[o]))
    && (forall x :: x in s.txs && !(s.txs[x].phase.Refusing? && s.txs[x].phase.claim == c) ==> TxOk(s.self, s.past, x, s.txs[x]))
    && ReaderOk(s.self, s.past, s.txs, s.reader)
    && (forall o :: o in s.responders && !(s.responders[o].Answering? && s.responders[o].claim == c) ==>
          ResponderOk(s.past, o, s.responders[o]))
  }

  lemma OthersDoNotNotice(s: State, a: Answer, r: SendResult)
    requires ThreadsOk(s, s.past)
    ensures OthersOk(s.(past := AnswerHistory(s.past, a, r)), a.claim)
  {
    var u := s.(past := AnswerHistory(s.past, a, r));
    forall o | o in u.handlers && !(u.handlers[o].Relaying? && !u.handlers[o].stage.Release? && u.handlers[o].claim == a.claim)
      ensures HandlerOk(u.self, u.past, o, u.handlers[o])
    {
      AnsweringKeepsHandler(s.self, s.past, a, r, o, s.handlers[o]);
    }
    forall x | x in u.txs && !(u.txs[x].phase.Refusing? && u.txs[x].phase.claim == a.claim)
      ensures TxOk(u.self, u.past, x, u.txs[x])
    {
      AnsweringKeepsTx(s.self, s.past, a, r, x, s.txs[x]);
    }
    forall o | o in u.responders && !(u.responders[o].Answering? && u.responders[o].claim == a.claim)
      ensures ResponderOk(u.past, o, u.responders[o])
    {
      AnsweringKeepsResponder(s.past, a, r, o, s.responders[o]);
    }
  }

  ghost predicate SoundButFor(s: State, c: nat) {
    && FlatInFlight(s) && OthersOk(s, c)
    && EntriesOk(s.past, s.table) && ClaimsOk(s.self, s.past, s.flat) && HistoryOk(s.past)
  }

  /** Sending an answer, before the thread that sends it moves on. */
  lemma AnsweringLeavesOnlyTheThread(s: State, a: Answer, x: Id, r: SendResult)
    requires Sound(s) && Sends(s, Key(a.peer, a.upfSeq), x, r)
    requires AnswerOk(s.past, a) && a.claim !in AnsweredBy(s.past.answers)
    ensures SoundButFor(AfterAnswer(s, a, x, r), a.claim)
  {
    var key := Key(a.peer, a.upfSeq);
    var sent := AfterSend(s, key, AnswerTx, x, r);
    assert ClaimOk(s.self, s.past, s.flat, a.claim);
    RegisteringKeeps(s, s.past, key, AnswerTx, x, r);
    AnsweringKeepsHistory(s, a, r, sent.flat);
    OthersDoNotNotice(sent, a, r);
    assert AfterAnswer(s, a, x, r) == sent.(past := AnswerHistory(s.past, a, r));
  }

  // -- The handler's refusal -------------------------------------------------------------------------

  lemma RefusingKeepsSound(s: State, id: Id, h: Handler, x: Id, r: SendResult, s': State)
    requires Sound(s) && id in s.handlers && h == s.handlers[id] && RelayNext(s, id, h, RefuseReport(x, r), s')
    ensures Sound(s')
  {
    var a := Answer(h.claim, h.peer, h.upfSeq, ByHandler);
    assert HandlerOk(s.self, s.past, id, h);
    AnsweringLeavesOnlyTheThread(s, a, x, r);
    UnsentAreRefusedAlone(s, id);
    RefuserMovesOn(AfterAnswer(s, a, x, r), id, h);
  }

  /** While a claim has not gone out in a request only its own handler can be about to answer it. */
  ghost predicate RefusesAlone(s: State, c: nat, id: Id) {
    && (forall o :: o in s.handlers && s.handlers[o].Relaying? && s.handlers[o].claim == c ==> o == id)
    && (forall x :: x in s.txs && s.txs[x].phase.Refusing? ==> s.txs[x].phase.claim != c)
    && (forall o :: o in s.responders && s.responders[o].Answering? ==> s.responders[o].claim != c)
  }

  lemma UnsentAreRefusedAlone(s: State, id: Id)
    requires Sound(s) && id in s.handlers && s.handlers[id].Relaying?
    ensures RefusesAlone(s, s.handlers[id].claim, id)
  {
    assert HandlerOk(s.self, s.past, id, s.handlers[id]);
    forall o | o in s.handlers && s.handlers[o].Relaying? && o != id ensures s.handlers[o].claim != s.handlers[id].claim {
      assert HandlerOk(s.self, s.past, o, s.handlers[o]);
    }
  }

  lemma RefuserMovesOn(u: State, id: Id, h: Handler)
    requires id in u.handlers && u.handlers[id] == h && IsAt(h, Refuse)
    requires SoundButFor(u, h.claim) && RefusesAlone(u, h.claim, id)
    requires HandlerOk(u.self, u.past, id, h.(stage := Release))
    ensures Sound(WithHandler(u, id, h.(stage := Release)))
  {
  }

  // -- The give-up's refusal -------------------------------------------------------------------------

  /** Whoever took the claim is alone about to answer it. */
  ghost predicate AnswersAlone(s: State, c: nat, who: Taker) {
    && (forall o :: o in s.handlers && s.handlers[o].Relaying? && !s.handlers[o].stage.Release? ==> s.handlers[o].claim != c)
    && (forall x :: x in s.txs && s.txs[x].phase.Refusing? && s.txs[x].phase.claim == c ==> who == TxTaker(x))
    && (forall o :: o in s.responders && s.responders[o].Answering? && s.responders[o].claim == c ==> who == ResponderTaker(o))
  }

  lemma TakersAnswerAlone(s: State, c: nat, who: Taker)
    requires Sound(s) && c in s.past.takers && s.past.takers[c] == who
    ensures AnswersAlone(s, c, who)
  {
    forall o | o in s.handlers && s.handlers[o].Relaying? ensures s.handlers[o].claim != c {
      assert HandlerOk(s.self, s.past, o, s.handlers[o]);
    }
  }

  lemma GivingUpKeepsSound(s: State, y: Id, x: Id, r: SendResult, s': State)
    requires Sound(s) && TxNext(s, y, GiveUpRefuse(x, r), s')
    ensures Sound(s')
  {
    var q := s.txs[y].phase;
    var a := Answer(q.claim, q.peer, q.upfSeq, ByGiveUp);
    assert TxOk(s.self, s.past, y, s.txs[y]);
    AnsweringLeavesOnlyTheThread(s, a, x, r);
    TakersAnswerAlone(s, a.claim, TxTaker(y));
    var u := AfterAnswer(s, a, x, r);
    assert FlatMatched(s);
    RefusedMovesOn(u, y, a.claim);
  }

  lemma RefusedMovesOn(u: State, y: Id, c: nat)
    requires SoundButFor(u, c) && AnswersAlone(u, c, TxTaker(y))
    requires y in u.txs && u.txs[y].phase.Refusing? && (forall k :: k in u.flat ==> u.flat[k] != y)
    requires TxOk(u.self, u.past, y, u.txs[y].(phase := Releasing))
    ensures Sound(WithTx(u, y, Releasing))
  {
  }

  // -- The SMF's answer ------------------------------------------------------------------------------

  lemma AnsweringKeepsSound(s: State, id: Id, b: Responder, x: Id, r: SendResult, s': State)
    requires Sound(s) && id in s.responders && b == s.responders[id] && ResponderNext(s, id, b, AnswerReport(x, r), s')
    ensures Sound(s')
  {
    var a := Answer(b.taken, b.peer, b.upfSeq, BySmf);
    assert ResponderOk(s.past, id, b);
    AnsweringLeavesOnlyTheThread(s, a, x, r);
    TakersAnswerAlone(s, a.claim, ResponderTaker(id));
    AnsweredMovesOn(AfterAnswer(s, a, x, r), id, b);
  }

  lemma AnsweredMovesOn(u: State, id: Id, b: Responder)
    requires id in u.responders && u.responders[id] == b && b.Answering?
    requires SoundButFor(u, b.claim) && AnswersAlone(u, b.claim, ResponderTaker(id))
    requires ResponderOk(u.past, id, Forgetting(b.number, b.claim))
    ensures Sound(WithResponder(u, id, Forgetting(b.number, b.claim)))
  {
  }

  // -- Namings ---------------------------------------------------------------------------------------

  /** Claims whose answers' transactions went away are ended. */
  lemma EndingKeepsSound(s: State, p': History, gone: set<nat>, flat: map<Key, Id>)
    requires Sound(s) && p' == s.past.(ended := s.past.ended + gone)
    requires forall c :: c in gone ==> c < |s.past.claims|
    requires forall c :: c in s.past.absorbed && c !in gone && Key(s.past.claims[c].peer, s.past.claims[c].upfSeq) in s.flat ==>
      Key(s.past.claims[c].peer, s.past.claims[c].upfSeq) in flat
    ensures EntriesOk(p', s.table) && ClaimsOk(s.self, p', flat) && HistoryOk(p') && ThreadsOk(s, p')
  {
    var p := s.past;
    UntouchedThreadsStayOk(s, p');
    forall n | n in s.table.relays ensures EntryOk(p', n, s.table.relays[n]) {
      assert EntryOk(p, n, s.table.relays[n]);
    }
    forall c: nat | c < |p'.claims| ensures ClaimOk(s.self, p', flat, c) {
      assert ClaimOk(s.self, p, s.flat, c);
      if HasEntry(p, c) {
        var m :| m in p.claimOf && p.claimOf[m] == c;
        assert m in p'.claimOf && p'.claimOf[m] == c;
      }
    }
    HistoryStaysOk(p, p');
  }

  lemma PurgingKeepsSound(s: State, s': State)
    requires Sound(s) && PurgeRelaysStep(s, s')
    ensures Sound(s')
  {
    DroppingKeepsHistory(s, s'.past, s'.table);
    DroppingKeepsThreads(s, s'.past, s'.table.relays);
  }

  lemma DroppingAConsumerKeepsSound(s: State, consumer: Peer, s': State)
    requires Sound(s) && DropConsumerStep(s, consumer, s')
    ensures Sound(s')
  {
    EndingKeepsSound(s, s'.past, AbsorbedAt(s.past, consumer), s'.flat);
  }

  lemma NamingsKeepSound(s: State, step: NamingStep, s': State)
    requires Sound(s) && NamingNext(s, step, s')
    ensures Sound(s')
  {
    if step.PurgeRelays? {
      PurgingKeepsSound(s, s');
    } else if step.DropConsumerAt? {
      DroppingAConsumerKeepsSound(s, step.consumer, s');
    } else {
      QuietNamingsLeaveRest(s, step, s');
    }
  }

  // -- The read loop ---------------------------------------------------------------------------------

  lemma ReadingKeepsSound(s: State, n: nat, s': State)
    requires Sound(s) && ReadResponseStep(s, n, s')
    ensures Sound(s')
  {
    var x := s.flat[Key(s.self, n)];
    assert TxOk(s.self, s.past, x, s.txs[x]);
  }

  lemma PostingKeepsSound(s: State, s': State)
    requires Sound(s) && PostResponseStep(s, s')
    ensures Sound(s')
  {
    var x := s.reader.tx;
    assert TxOk(s.self, s.past, x, s.txs[x]);
    assert TxOk(s.self, s.past, x, s'.txs[x]);
  }

  lemma DispatchingKeepsSound(s: State, step: ReaderStep, s': State)
    requires Sound(s) && ReaderNext(s, step, s') && !step.ReadResponse? && !step.PostResponse?
    ensures Sound(s')
  {
    assert s'.table == s.table && s'.flat == s.flat && s'.past == s.past && s'.self == s.self && s'.txs == s.txs;
    assert ReaderOk(s.self, s.past, s.txs, s.reader);
  }

  lemma ReaderKeepsSound(s: State, step: ReaderStep, s': State)
    requires Sound(s) && ReaderNext(s, step, s')
    ensures Sound(s')
  {
    if step.ReadResponse? {
      ReadingKeepsSound(s, step.number, s');
    } else if step.PostResponse? {
      PostingKeepsSound(s, s');
    } else {
      DispatchingKeepsSound(s, step, s');
    }
  }

  // -- The report handler ----------------------------------------------------------------------------

  lemma GatesKeepSound(s: State, id: Id, h: Handler, step: HandlerStep, s': State)
    requires Sound(s) && id in s.handlers && h == s.handlers[id] && GateNext(s, id, h, step, s')
    ensures Sound(s')
  {
    assert s'.table == s.table && s'.flat == s.flat && s'.past == s.past && s'.self == s.self && s'.txs == s.txs;
    assert s'.reader == s.reader && s'.responders == s.responders;
    assert HandlerOk(s.self, s.past, id, h);
  }

  /** A state in which the claim has swept, and done nothing else. */
  function Swept(s: State, kept: Table): State {
    s.(table := kept, past := Keeping(s.past, kept.relays))
  }

  lemma SweepingKeepsSound(s: State, kept: Table)
    requires Sound(s)
    requires forall n :: n in kept.relays ==> n in s.table.relays && kept.relays[n] == s.table.relays[n]
    ensures Sound(Swept(s, kept))
  {
    var p' := Keeping(s.past, kept.relays);
    DroppingKeepsHistory(s, p', kept);
    DroppingKeepsThreads(s, p', kept.relays);
  }

  lemma ClaimsKeepSound(s: State, id: Id, h: Handler, r: ClaimResult, s': State)
    requires Sound(s) && id in s.handlers && h == s.handlers[id] && h.Claiming? && ClaimReportStep(s, id, h, r, s')
    requires r.Fresh? ==> Unheld(s, r.number)
    ensures Sound(s')
  {
    var kept := KeptByClaim(s.table, h.peer.host, h.now, h.token.count);
    var swept := Swept(s, kept);
    SweepingKeepsSound(s, kept);
    assert HandlerOk(s.self, s.past, id, h);
    if r.Fresh? {
      FreshKeepsSound(swept, id, h.peer, h.upfSeq, r.number, h.now);
      FreshClaimsAfterSweeping(s, id, h, r.number, s');
    } else {
      UnclaimedKeepsSound(swept, id, h.peer, h.upfSeq);
      assert s' == WithHandler(swept, id, Finished) || s' == WithHandler(swept, id, Rejecting(h.peer, h.upfSeq));
    }
  }

  lemma FreshClaimsAfterSweeping(s: State, id: Id, h: Handler, n: nat, s': State)
    requires h.Claiming? && ClaimReportStep(s, id, h, Fresh(n), s')
    ensures s' == Claimed(Swept(s, KeptByClaim(s.table, h.peer.host, h.now, h.token.count)), id, h.peer, h.upfSeq, n, h.now)
  {
  }

  lemma UnclaimedKeepsSound(s: State, id: Id, peer: Peer, upfSeq: nat)
    requires Sound(s) && peer != s.self
    ensures Sound(WithHandler(s, id, Finished)) && Sound(WithHandler(s, id, Rejecting(peer, upfSeq)))
  {
  }

  /** A claim that goes out in a request was its handler's alone until now. */
  lemma SendingKeepsThreads(s: State, id: Id, h: Handler)
    requires ThreadsOk(s, s.past) && id in s.handlers && h == s.handlers[id] && IsAt(h, Send)
    ensures var p' := s.past.(sent := s.past.sent + {h.claim});
      ThreadsOk(WithHandler(s, id, Finished), p') && Flying(p', h.number, h.claim)
  {
    var p' := s.past.(sent := s.past.sent + {h.claim});
    assert HandlerOk(s.self, s.past, id, h);
    forall o | o in s.handlers && o != id ensures HandlerOk(s.self, p', o, s.handlers[o]) {
      assert HandlerOk(s.self, s.past, o, s.handlers[o]);
    }
  }

  lemma SendingKeepsHistory(s: State, id: Id, h: Handler)
    requires Sound(s) && id in s.handlers && h == s.handlers[id] && IsAt(h, Send)
    ensures var p' := s.past.(sent := s.past.sent + {h.claim});
      EntriesOk(p', s.table) && ClaimsOk(s.self, p', s.flat) && HistoryOk(p')
  {
    var p := s.past;
    var p' := p.(sent := p.sent + {h.claim});
    assert HandlerOk(s.self, p, id, h);
    forall n | n in s.table.relays ensures EntryOk(p', n, s.table.relays[n]) {
      assert EntryOk(p, n, s.table.relays[n]);
    }
    forall c: nat | c < |p'.claims| ensures ClaimOk(s.self, p', s.flat, c) {
      assert ClaimOk(s.self, p, s.flat, c);
      assert HasEntry(p, c) ==> HasEntry(p', c);
    }
    forall i | 0 <= i < |p'.answers| ensures AnswerOk(p', p'.answers[i]) {
      assert AnswerOk(p, p.answers[i]);
      assert p.answers[i].claim in AnsweredBy(p.answers);
    }
  }

  lemma SendsKeepSound(s: State, id: Id, h: Handler, x: Id, r: SendResult, s': State)
    requires Sound(s) && id in s.handlers && h == s.handlers[id] && RelayNext(s, id, h, SendReport(x, r), s')
    ensures Sound(s')
  {
    assert HandlerOk(s.self, s.past, id, h);
    if r.Registered? {
      SendingKeepsThreads(s, id, h);
      SendingKeepsHistory(s, id, h);
      var s1 := WithHandler(s, id, Finished);
      var p' := s.past.(sent := s.past.sent + {h.claim});
      RegisteringKeeps(s1, p', Key(s.self, h.number), RelayRequest(h.claim), x, r);
      assert s' == AfterSend(s1, Key(s.self, h.number), RelayRequest(h.claim), x, r).(past := p');
    } else {
      assert s' == WithHandler(s, id, AfterRelaySend(h, r));
      assert s'.table == s.table && s'.flat == s.flat && s'.past == s.past && s'.txs == s.txs;
    }
  }

  function RenumberedState(s: State, id: Id, h: Handler, m: nat): State
    requires h.Relaying? && h.number in s.table.relays
  {
    WithHandler(s, id, h.(number := m, attempt := h.attempt + 1,
                          stage := if h.attempt + 1 < RELAY_SEND_ATTEMPTS then Send else Refuse)).(
      table := AddClaim(Forget(s.table, h.number), m, s.table.relays[h.number]),
      past := s.past.(claimOf := Moved(s.past.claimOf, h.number, m)))
  }

  lemma RenumberMoves(s: State, id: Id, h: Handler, m: nat, s': State)
    requires h.Relaying? && RenumberClaimStep(s, id, h, Renumbered(m), s')
    ensures h.number in s.table.relays && m !in s.table.relays && s' == RenumberedState(s, id, h, m)
  {
  }

  lemma RenumberedKeepsSound(s: State, id: Id, h: Handler, m: nat)
    requires Sound(s) && id in s.handlers && h == s.handlers[id] && IsAt(h, Stage.Renumbering)
    requires h.number in s.table.relays && m !in s.table.relays && Unheld(s, m)
    ensures Sound(RenumberedState(s, id, h, m))
  {
    var s' := RenumberedState(s, id, h, m);
    assert HandlerOk(s.self, s.past, id, h);
    MovingKeepsLinks(s, id, m);
    MovingKeepsHistory(s, h.number, m);
    forall o | o in s'.handlers ensures HandlerOk(s.self, s'.past, o, s'.handlers[o]) {
      assert HandlerOk(s.self, s.past, o, s.handlers[o]);
    }
  }

  lemma RenumbersKeepSound(s: State, id: Id, h: Handler, r: RenumberResult, s': State)
    requires Sound(s) && id in s.handlers && h == s.handlers[id] && IsAt(h, Renumbering) && RenumberClaimStep(s, id, h, r, s')
    requires r.Renumbered? ==> Unheld(s, r.number)
    ensures Sound(s')
  {
    match r {
      case Renumbered(m) =>
        RenumberMoves(s, id, h, m, s');
        RenumberedKeepsSound(s, id, h, m);
      case NotHeld => HandlerMovesOn(s, id, Finished);
      case NoNumber =>
        assert HandlerOk(s.self, s.past, id, h);
        HandlerMovesOn(s, id, h.(stage := Refuse));
    }
  }

  lemma EndsKeepSound(s: State, id: Id, h: Handler, s': State)
    requires Sound(s) && id in s.handlers && h == s.handlers[id] && RelayNext(s, id, h, EndClaim, s')
    ensures Sound(s')
  {
    assert HandlerOk(s.self, s.past, id, h);
    ForgettingKeepsHistory(s, h.number, h.claim);
    ForgettingKeepsThreads(s, h.number);
  }

  lemma RejectsKeepSound(s: State, id: Id, h: Handler, x: Id, r: SendResult, s': State)
    requires Sound(s) && id in s.handlers && h == s.handlers[id] && RelayNext(s, id, h, RejectReport(x, r), s')
    ensures Sound(s')
  {
    assert HandlerOk(s.self, s.past, id, h);
    RegisteringKeeps(s, s.past, Key(h.peer, h.upfSeq), AnswerTx, x, r);
  }

  lemma RelaysKeepSound(s: State, id: Id, h: Handler, step: HandlerStep, s': State)
    requires Sound(s) && id in s.handlers && h == s.handlers[id] && RelayNext(s, id, h, step, s')
    requires step.RenumberClaim? && step.renumbered.Renumbered? ==> Unheld(s, step.renumbered.number)
    ensures Sound(s')
  {
    match step {
      case SendReport(x, r) => SendsKeepSound(s, id, h, x, r, s');
      case RenumberClaim(r) => RenumbersKeepSound(s, id, h, r, s');
      case RefuseReport(x, r) => RefusingKeepsSound(s, id, h, x, r, s');
      case EndClaim => EndsKeepSound(s, id, h, s');
      case RejectReport(x, r) => RejectsKeepSound(s, id, h, x, r, s');
    }
  }

  lemma HandlersKeepSound(s: State, id: Id, step: HandlerStep, s': State)
    requires Sound(s) && id in s.handlers && HandlerNext(s, id, s.handlers[id], step, s')
    requires NotReused(s, OfHandler(id, step))
    ensures Sound(s')
  {
    var h := s.handlers[id];
    if step.ReadGeneration? || step.CheckKnown? || step.FindSmf? {
      GatesKeepSound(s, id, h, step, s');
    } else if step.ClaimReport? {
      ClaimsKeepSound(s, id, h, step.claimed, s');
    } else {
      assert step.RenumberClaim? ==> h.Relaying?;
      RelaysKeepSound(s, id, h, step, s');
    }
  }

  // -- Transactions ----------------------------------------------------------------------------------

  lemma PeerRequestsKeepSound(s: State, x: Id, n: nat, s': State)
    requires Sound(s) && TxNext(s, x, SendPeerRequest(n), s')
    ensures Sound(s')
  {
    RegisteringKeeps(s, s.past, Key(s.self, n), PeerRequest, x, Registered);
  }

  lemma TxEndsKeepSound(s: State, x: Id, failed: bool, s': State)
    requires Sound(s) && TxNext(s, x, EndTx(failed), s')
    ensures Sound(s')
  {
    assert TxOk(s.self, s.past, x, s.txs[x]);
    assert TxOk(s.self, s.past, x, s'.txs[x]);
  }

  lemma RemovalsKeepSound(s: State, x: Id, s': State)
    requires Sound(s) && TxNext(s, x, RemoveTx, s')
    ensures Sound(s')
  {
    var tx := s.txs[x];
    assert TxOk(s.self, s.past, x, tx);
    var gone := if tx.key in s.flat && s.flat[tx.key] == x && tx.kind.AnswerTx? then AbsorbedUnder(s.past, tx.key) else {};
    assert s'.past == s.past.(ended := s.past.ended + gone);
    forall c | c in s.past.absorbed && c !in gone && Key(s.past.claims[c].peer, s.past.claims[c].upfSeq) in s.flat
      ensures Key(s.past.claims[c].peer, s.past.claims[c].upfSeq) in s'.flat
    {
      assert ClaimOk(s.self, s.past, s.flat, c);
    }
    EndingKeepsSound(s, s'.past, gone, s'.flat);
    assert TxOk(s.self, s'.past, x, s'.txs[x]);
  }

  function TakenBy(s: State, n: nat, who: Taker): State {
    s.(table := Take(s.table, n, s.clock), past := AfterTaking(s, n, who))
  }

  lemma TakingKeepsSound(s: State, n: nat, c: nat, who: Taker)
    requires Sound(s) && Flying(s.past, n, c)
    ensures Sound(TakenBy(s, n, who)) && Flying(TakenBy(s, n, who).past, n, c)
    ensures match Taken(s.table, n, s.clock)
            case Some(r) => ClaimAt(s.past, n) == c && Holder(TakenBy(s, n, who).past, c, r.peer, r.upfSeq, who)
            case None => true
  {
    TakingKeepsHistory(s, n, c, who);
  }

  lemma TakesMove(s: State, x: Id, s': State)
    requires TxNext(s, x, GiveUpTake, s')
    ensures x in s.txs && s.txs[x].phase.GivingUp?
    ensures var n := s.txs[x].key.number;
      s' == WithTx(TakenBy(s, n, TxTaker(x)), x, AfterGiveUpTake(Taken(s.table, n, s.clock), ClaimAt(s.past, n)))
  {
  }

  lemma TakesKeepSound(s: State, x: Id, s': State)
    requires Sound(s) && TxNext(s, x, GiveUpTake, s')
    ensures Sound(s')
  {
    TakesMove(s, x, s');
    var tx, n := s.txs[x], s.txs[x].key.number;
    assert TxOk(s.self, s.past, x, tx);
    TakingKeepsSound(s, n, tx.kind.claim, TxTaker(x));
    TxMovesOn(TakenBy(s, n, TxTaker(x)), x, AfterGiveUpTake(Taken(s.table, n, s.clock), ClaimAt(s.past, n)));
  }

  lemma GiveUpsEndSound(s: State, x: Id, s': State)
    requires Sound(s) && TxNext(s, x, GiveUpRelease, s')
    ensures Sound(s')
  {
    var tx := s.txs[x];
    assert TxOk(s.self, s.past, x, tx);
    ForgettingKeepsHistory(s, tx.key.number, tx.kind.claim);
    ForgettingKeepsThreads(s, tx.key.number);
    var u := AfterForget(s, tx.key.number);
    assert TxOk(u.self, u.past, x, tx);
    TxMovesOn(u, x, Over);
  }

  lemma TransactionsKeepSound(s: State, x: Id, step: TxStep, s': State)
    requires Sound(s) && TxNext(s, x, step, s')
    ensures Sound(s')
  {
    match step {
      case SendPeerRequest(n) => PeerRequestsKeepSound(s, x, n, s');
      case EndTx(failed) => TxEndsKeepSound(s, x, failed, s');
      case RemoveTx => RemovalsKeepSound(s, x, s');
      case GiveUpTake => TakesKeepSound(s, x, s');
      case GiveUpRefuse(y, r) => GivingUpKeepsSound(s, x, y, r, s');
      case GiveUpRelease => GiveUpsEndSound(s, x, s');
    }
  }

  // -- The response handler --------------------------------------------------------------------------

  lemma ResponseTakesKeepSound(s: State, id: Id, s': State)
    requires Sound(s) && id in s.responders && ResponderNext(s, id, s.responders[id], TakeForResponse, s')
    ensures Sound(s')
  {
    var a := s.responders[id];
    assert ResponderOk(s.past, id, a);
    TakingKeepsSound(s, a.number, a.claim, ResponderTaker(id));
    ResponderMovesOn(TakenBy(s, a.number, ResponderTaker(id)), id,
                     AfterTake(a, Taken(s.table, a.number, s.clock), ClaimAt(s.past, a.number)));
  }

  lemma ResponsesEndSound(s: State, id: Id, s': State)
    requires Sound(s) && id in s.responders && ResponderNext(s, id, s.responders[id], EndAnswered, s')
    ensures Sound(s')
  {
    var a := s.responders[id];
    assert ResponderOk(s.past, id, a);
    ForgettingKeepsHistory(s, a.number, a.claim);
    ForgettingKeepsThreads(s, a.number);
  }

  lemma RespondersKeepSound(s: State, id: Id, step: ResponderStep, s': State)
    requires Sound(s) && id in s.responders && ResponderNext(s, id, s.responders[id], step, s')
    ensures Sound(s')
  {
    match step {
      case TakeForResponse => ResponseTakesKeepSound(s, id, s');
      case AnswerReport(x, r) => AnsweringKeepsSound(s, id, s.responders[id], x, r, s');
      case EndAnswered => ResponsesEndSound(s, id, s');
    }
  }

  // -- Every step, and every run ---------------------------------------------------------------------

  lemma StepKeepsSound(s: State, step: Step, s': State)
    requires Sound(s) && Next(s, step, s') && NotReused(s, step)
    ensures Sound(s')
  {
    match step {
      case OfNaming(n) => NamingsKeepSound(s, n, s');
      case OfReader(r) => ReaderKeepsSound(s, r, s');
      case OfHandler(id, h) => HandlersKeepSound(s, id, h, s');
      case OfTx(x, t) => TransactionsKeepSound(s, x, t, s');
      case OfResponder(id, r) => RespondersKeepSound(s, id, r, s');
    }
  }

  /** A run in which no number comes back while a thread from an earlier use still holds it. */
  ghost predicate IsOrderlyRun(r: Run) {
    IsRun(r) && forall i: nat :: i < |r.steps| && IsStep(r, i) ==> NotReused(r.states[i], r.steps[i])
  }

  lemma StartIsSound(self: Peer)
    ensures Sound(Start(self))
  {
  }

  lemma NextStateIsSound(r: Run, i: nat)
    requires IsOrderlyRun(r) && i < |r.steps| && Sound(r.states[i])
    ensures Sound(r.states[i + 1])
  {
    assert IsStep(r, i);
    StepKeepsSound(r.states[i], r.steps[i], r.states[i + 1]);
  }

  lemma {:induction false} EveryStateIsSound(r: Run, i: nat)
    requires IsOrderlyRun(r) && i < |r.states|
    ensures Sound(r.states[i])
  {
    if i == 0 {
      StartIsSound(r.states[0].self);
    } else {
      EveryStateIsSound(r, i - 1);
      NextStateIsSound(r, i - 1);
    }
  }

  // -- One answer per claim --------------------------------------------------------------------------

  /**
   Over any interleaving, two answers are never to one claim; each goes to the claim's own peer under the sequence
   number its report came with; a response answers the claim whose own request it answers; and a claim its handler
   refused is one that never went out in a request.
   */
  lemma OneAnswerPerClaim(r: Run, i: nat)
    requires IsOrderlyRun(r) && i < |r.states|
    ensures var p := r.states[i].past;
      && (forall j, k :: 0 <= j < k < |p.answers| ==> p.answers[j].claim != p.answers[k].claim)
      && (forall j :: 0 <= j < |p.answers| ==>
            var a := p.answers[j];
            && a.claim < |p.claims| && a.peer == p.claims[a.claim].peer && a.upfSeq == p.claims[a.claim].upfSeq
            && (a.who.ByHandler? ==> a.claim !in p.sent))
      && (forall id :: id in r.states[i].responders && r.states[i].responders[id].Answering? ==>
            r.states[i].responders[id].taken == r.states[i].responders[id].claim)
  {
    EveryStateIsSound(r, i);
    var p := r.states[i].past;
    forall j | 0 <= j < |p.answers| ensures AnswerOk(p, p.answers[j]) {
    }
    assert forall id :: id in r.states[i].responders ==> ResponderOk(p, id, r.states[i].responders[id]);
  }
}
