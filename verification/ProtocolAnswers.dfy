/**
 One answer per claim, to the report's own peer under its own number; and from its claim on, a report is always
 either claimed or met by a response transaction, until an event that ends the need.

 The argument assumes that no number is handed out while a thread from an earlier use of it can still act on it.
 A number comes back only after the allocator has gone round its whole range (RelayRuns.ReuseBound).
 */
module ProtocolAnswers {
  import opened Basics
  import opened RelaySpec
  import opened TransactionSpec
  import opened Protocol
  import opened ProtocolOwnership
  import RelayRuns

  // -- The invariant, thread by thread ---------------------------------------------------------------

  /** The claim's entry, if it has one, is under the number, and the entry under the number is the claim's. */
  ghost predicate Linked(p: History, n: nat, c: nat) {
    c < |p.claims| && forall m :: m in p.claimOf ==> (p.claimOf[m] == c <==> m == n)
  }

  /** A thread past the send of its request. */
  ghost predicate Flying(p: History, n: nat, c: nat) {
    Linked(p, n, c) && c in p.sent
  }

  ghost function AnsweredBy(answers: seq<Answer>): set<nat> {
    set a | a in answers :: a.claim
  }

  predicate Settled(p: History, c: nat) {
    c in p.absorbed || c in p.ended
  }

  predicate IsReport(p: History, c: nat, peer: Peer, upfSeq: nat) {
    c < |p.claims| && p.claims[c].peer == peer && p.claims[c].upfSeq == upfSeq
  }

  /** About to answer a claim it took. */
  ghost predicate Holder(p: History, c: nat, peer: Peer, upfSeq: nat, who: Taker) {
    && IsReport(p, c, peer, upfSeq)
    && c in p.takers && p.takers[c] == who
    && c !in AnsweredBy(p.answers)
  }

  ghost predicate HandlerOk(self: Peer, p: History, id: Id, h: Handler) {
    && (h.Finished? || h.peer != self)
    && (h.Relaying? ==>
          && Linked(p, h.number, h.claim)
          && p.claims[h.claim] == Report(h.peer, h.upfSeq, id)
          && h.claim !in p.sent
          && (h.stage.Release? ==> Settled(p, h.claim))
          && (!h.stage.Release? ==> h.claim !in AnsweredBy(p.answers)))
  }

  ghost predicate TxOk(self: Peer, p: History, x: Id, tx: Tx) {
    && (tx.kind.AnswerTx? <==> tx.key.consumer != self)
    && (tx.phase.GivingUp? || tx.phase.Refusing? || tx.phase.Releasing? ==> tx.kind.RelayRequest?)
    && (tx.kind.RelayRequest? && !tx.phase.Over? ==> Flying(p, tx.key.number, tx.kind.claim))
    && (tx.phase.Refusing? ==>
          tx.phase.claim == tx.kind.claim && Holder(p, tx.phase.claim, tx.phase.peer, tx.phase.upfSeq, TxTaker(x)))
    && (tx.phase.Releasing? ==> Settled(p, tx.kind.claim))
  }

  ghost predicate ReaderOk(self: Peer, p: History, txs: map<Id, Tx>, r: Reader) {
    match r
    case Idle => true
    case FoundTx(x, n, c) => x in txs && txs[x].key.number == n && Flying(p, n, c)
    case Responding(n, c) => Flying(p, n, c)
    case Reporting(peer, _) => peer != self
  }

  ghost predicate ResponderOk(p: History, id: Id, a: Responder) {
    && (!a.Done? ==> Flying(p, a.number, a.claim))
    && (a.Answering? ==> a.taken == a.claim && Holder(p, a.claim, a.peer, a.upfSeq, ResponderTaker(id)))
    && (a.Forgetting? ==> Settled(p, a.claim))
  }

  /** Each entry is a claim's, holds that claim's report, and is marked answered once it is taken. */
  ghost predicate EntriesOk(p: History, t: Table) {
    && p.claimOf.Keys == t.relays.Keys
    && forall n :: n in t.relays ==> EntryOk(p, n, t.relays[n])
  }

  ghost predicate EntryOk(p: History, n: nat, r: Relay) {
    && n in p.claimOf
    && IsReport(p, p.claimOf[n], r.peer, r.upfSeq)
    && (r.answered <==> p.claimOf[n] in p.takers)
  }

  ghost predicate HasEntry(p: History, c: nat) {
    exists n :: n in p.claimOf && p.claimOf[n] == c
  }

  ghost predicate ClaimOk(self: Peer, p: History, flat: map<Key, Id>, c: nat)
    requires c < |p.claims|
  {
    && p.claims[c].peer != self
    && (c !in p.ended ==>
          if c in p.absorbed then Key(p.claims[c].peer, p.claims[c].upfSeq) in flat else HasEntry(p, c))
  }

  ghost predicate ClaimsOk(self: Peer, p: History, flat: map<Key, Id>) {
    forall c: nat :: c < |p.claims| ==> ClaimOk(self, p, flat, c)
  }

  /** Each answer is its claim's own, and its claim's only one. */
  ghost predicate AnswersOk(p: History) {
    && (forall i :: 0 <= i < |p.answers| ==> AnswerOk(p, p.answers[i]))
    && (forall i, j :: 0 <= i < j < |p.answers| ==> p.answers[i].claim != p.answers[j].claim)
  }

  ghost predicate AnswerOk(p: History, a: Answer) {
    && IsReport(p, a.claim, a.peer, a.upfSeq)
    && (if a.who.ByHandler? then a.claim !in p.sent else a.claim in p.takers)
  }

  ghost predicate HistoryOk(p: History) {
    && (forall c :: c in p.sent || c in p.absorbed || c in p.ended ==> c < |p.claims|)
    && (forall c :: c in p.takers ==> c in p.sent)
    && AnswersOk(p)
  }

  ghost predicate ThreadsOk(s: State, p: History) {
    && (forall id :: id in s.handlers ==> HandlerOk(s.self, p, id, s.handlers[id]))
    && (forall x :: x in s.txs ==> TxOk(s.self, p, x, s.txs[x]))
    && ReaderOk(s.self, p, s.txs, s.reader)
    && (forall id :: id in s.responders ==> ResponderOk(p, id, s.responders[id]))
  }

  /** A transaction leaves the table before its error handler runs. */
  ghost predicate FlatInFlight(s: State) {
    FlatMatched(s) && forall k :: k in s.flat ==> s.txs[s.flat[k]].phase.Running? || s.txs[s.flat[k]].phase.Ended?
  }

  ghost predicate Sound(s: State) {
    && FlatInFlight(s)
    && ThreadsOk(s, s.past)
    && EntriesOk(s.past, s.table)
    && ClaimsOk(s.self, s.past, s.flat)
    && HistoryOk(s.past)
  }

  // -- One thread moves on ---------------------------------------------------------------------------

  lemma HandlerMovesOn(s: State, id: Id, h: Handler)
    requires Sound(s) && HandlerOk(s.self, s.past, id, h)
    ensures Sound(WithHandler(s, id, h))
  {
  }

  lemma TxMovesOn(s: State, x: Id, phase: TxPhase)
    requires Sound(s) && x in s.txs && TxOk(s.self, s.past, x, s.txs[x].(phase := phase))
    requires forall k :: k in s.flat && s.flat[k] == x ==> phase.Running? || phase.Ended?
    ensures Sound(WithTx(s, x, phase))
  {
  }

  lemma ResponderMovesOn(s: State, id: Id, a: Responder)
    requires Sound(s) && ResponderOk(s.past, id, a)
    ensures Sound(WithResponder(s, id, a))
  {
  }

  // -- The assumption --------------------------------------------------------------------------------

  /** No thread holds the number. */
  ghost predicate Unheld(s: State, n: nat) {
    && (forall id :: id in s.handlers && s.handlers[id].Relaying? ==> s.handlers[id].number != n)
    && (forall x :: x in s.txs && s.txs[x].kind.RelayRequest? && !s.txs[x].phase.Over? ==> s.txs[x].key.number != n)
    && (s.reader.FoundTx? || s.reader.Responding? ==> s.reader.number != n)
    && (forall id :: id in s.responders && !s.responders[id].Done? ==> s.responders[id].number != n)
  }

  /** A number handed out is held by nobody. */
  ghost predicate NotReused(s: State, step: Step) {
    match TableOp(s, step)
    case Some(op) => RelayRuns.HandedOut(op).Some? ==> Unheld(s, RelayRuns.HandedOut(op).value)
    case None => true
  }

  // -- What changes of the history leave in place ----------------------------------------------------

  /** The history goes on: nothing that happened is undone. */
  ghost predicate GoesOn(p: History, p': History) {
    && |p.claims| <= |p'.claims| && (forall c :: 0 <= c < |p.claims| ==> p'.claims[c] == p.claims[c])
    && p.sent <= p'.sent && p.absorbed <= p'.absorbed && p.ended <= p'.ended
    && (forall c :: c in p.takers ==> c in p'.takers && p'.takers[c] == p.takers[c])
  }

  ghost predicate LinksStay(s: State, p': History) {
    && (forall id :: id in s.handlers && s.handlers[id].Relaying? ==> Linked(p', s.handlers[id].number, s.handlers[id].claim))
    && FliersStayLinked(s, p')
  }

  ghost predicate FliersStayLinked(s: State, p': History) {
    && (forall x :: x in s.txs && s.txs[x].kind.RelayRequest? && !s.txs[x].phase.Over? ==>
          Linked(p', s.txs[x].key.number, s.txs[x].kind.claim))
    && (s.reader.FoundTx? || s.reader.Responding? ==> Linked(p', s.reader.number, s.reader.claim))
    && (forall id :: id in s.responders && !s.responders[id].Done? ==> Linked(p', s.responders[id].number, s.responders[id].claim))
  }

  /** The history goes on without touching any thread's claim: every thread is as sound as before. */
  lemma UntouchedThreadsStayOk(s: State, p': History)
    requires ThreadsOk(s, s.past) && GoesOn(s.past, p') && LinksStay(s, p')
    requires p'.sent == s.past.sent && p'.answers == s.past.answers
    ensures ThreadsOk(s, p')
  {
  }

  /** Dropping entries breaks no link. */
  lemma LinksSurviveDrops(s: State, p': History)
    requires ThreadsOk(s, s.past) && GoesOn(s.past, p')
    requires forall m :: m in p'.claimOf ==> m in s.past.claimOf && p'.claimOf[m] == s.past.claimOf[m]
    ensures LinksStay(s, p')
  {
  }

  /** ... and what was answered stays well answered. */
  lemma HistoryStaysOk(p: History, p': History)
    requires HistoryOk(p) && GoesOn(p, p')
    requires p'.answers == p.answers && p'.sent == p.sent && p'.absorbed == p.absorbed
    requires (forall c :: c in p'.ended ==> c < |p'.claims|) && (forall c :: c in p'.takers ==> c in p'.sent)
    ensures HistoryOk(p')
  {
    forall i | 0 <= i < |p'.answers| ensures AnswerOk(p', p'.answers[i]) {
      assert AnswerOk(p, p.answers[i]);
    }
  }

  // -- Entries dropped: a sweep, or a release --------------------------------------------------------

  ghost predicate KeptOnly(p: History, p': History, kept: map<nat, Relay>) {
    && p'.claims == p.claims && p'.sent == p.sent && p'.takers == p.takers
    && p'.answers == p.answers && p'.absorbed == p.absorbed
    && p'.claimOf == Keeping(p, kept).claimOf && p'.ended == Keeping(p, kept).ended
  }

  lemma DroppingKeepsHistory(s: State, p': History, t': Table)
    requires Sound(s) && KeptOnly(s.past, p', t'.relays)
    requires forall n :: n in t'.relays ==> n in s.table.relays && t'.relays[n] == s.table.relays[n]
    ensures EntriesOk(p', t') && ClaimsOk(s.self, p', s.flat) && HistoryOk(p')
  {
    var p := s.past;
    forall n | n in t'.relays ensures EntryOk(p', n, t'.relays[n]) {
      assert EntryOk(p, n, s.table.relays[n]);
    }
    forall c: nat | c < |p'.claims| ensures ClaimOk(s.self, p', s.flat, c) {
      assert ClaimOk(s.self, p, s.flat, c);
      if c !in p'.ended && c !in p'.absorbed {
        var n :| n in p.claimOf && p.claimOf[n] == c;
        assert n in p'.claimOf && p'.claimOf[n] == c;
      }
    }
    forall c | c in p'.ended ensures c < |p'.claims| {
      if c !in p.ended {
        var n :| n in p.claimOf && p.claimOf[n] == c;
        assert EntryOk(p, n, s.table.relays[n]);
      }
    }
    HistoryStaysOk(p, p');
  }

  lemma DroppingKeepsThreads(s: State, p': History, kept: map<nat, Relay>)
    requires Sound(s) && KeptOnly(s.past, p', kept)
    ensures ThreadsOk(s, p')
  {
    LinksSurviveDrops(s, p');
    UntouchedThreadsStayOk(s, p');
  }

  // -- A fresh claim ---------------------------------------------------------------------------------

  function Claimed(s: State, id: Id, peer: Peer, upfSeq: nat, n: nat, now: Time): State {
    WithHandler(s, id, Relaying(Send, peer, upfSeq, n, 0, |s.past.claims|)).(
      table := AddClaim(s.table, n, Relay(peer, upfSeq, now, false)),
      past := s.past.(claims := s.past.claims + [Report(peer, upfSeq, id)], claimOf := s.past.claimOf[n := |s.past.claims|]))
  }

  lemma FreshKeepsThreads(s: State, id: Id, peer: Peer, upfSeq: nat, n: nat, now: Time)
    requires Sound(s) && Unheld(s, n) && n !in s.table.relays
    ensures ThreadsOk(s, Claimed(s, id, peer, upfSeq, n, now).past)
  {
    var p' := Claimed(s, id, peer, upfSeq, n, now).past;
    FreshKeepsLinks(s, p', Report(peer, upfSeq, id), n);
    UntouchedThreadsStayOk(s, p');
  }

  /** No thread holds the number, and no thread's claim is the new one. */
  lemma FreshKeepsLinks(s: State, p': History, report: Report, n: nat)
    requires ThreadsOk(s, s.past) && Unheld(s, n)
    requires p' == s.past.(claims := s.past.claims + [report], claimOf := s.past.claimOf[n := |s.past.claims|])
    ensures LinksStay(s, p')
  {
  }

  lemma FreshKeepsHistory(s: State, id: Id, peer: Peer, upfSeq: nat, n: nat, now: Time)
    requires Sound(s) && n !in s.table.relays && peer != s.self
    ensures var s' := Claimed(s, id, peer, upfSeq, n, now);
      EntriesOk(s'.past, s'.table) && ClaimsOk(s'.self, s'.past, s'.flat) && HistoryOk(s'.past)
  {
    var p, s' := s.past, Claimed(s, id, peer, upfSeq, n, now);
    var p' := s'.past;
    forall m | m in s'.table.relays ensures EntryOk(p', m, s'.table.relays[m]) {
      if m != n {
        assert EntryOk(p, m, s.table.relays[m]);
      }
    }
    forall c: nat | c < |p'.claims| ensures ClaimOk(s.self, p', s.flat, c) {
      if c == |p.claims| {
        assert n in p'.claimOf && p'.claimOf[n] == c;
      } else {
        assert ClaimOk(s.self, p, s.flat, c);
        if HasEntry(p, c) {
          var m :| m in p.claimOf && p.claimOf[m] == c;
          assert m in p'.claimOf && p'.claimOf[m] == c;
        }
      }
    }
    HistoryStaysOk(p, p');
  }

  lemma FreshHandlerIsOk(s: State, p': History, report: Report, n: nat)
    requires Sound(s) && report.peer != s.self
    requires p' == s.past.(claims := s.past.claims + [report], claimOf := s.past.claimOf[n := |s.past.claims|])
    ensures HandlerOk(s.self, p', report.handler, Relaying(Send, report.peer, report.upfSeq, n, 0, |s.past.claims|))
  {
    forall c | c in AnsweredBy(s.past.answers) ensures c < |s.past.claims| {
      var a :| a in s.past.answers && a.claim == c;
      assert AnswerOk(s.past, a);
    }
    forall m | m in s.past.claimOf ensures s.past.claimOf[m] < |s.past.claims| {
      assert EntryOk(s.past, m, s.table.relays[m]);
    }
  }

  lemma FreshKeepsSound(s: State, id: Id, peer: Peer, upfSeq: nat, n: nat, now: Time)
    requires Sound(s) && Unheld(s, n) && n !in s.table.relays && peer != s.self
    ensures Sound(Claimed(s, id, peer, upfSeq, n, now))
  {
    var s' := Claimed(s, id, peer, upfSeq, n, now);
    FreshKeepsThreads(s, id, peer, upfSeq, n, now);
    FreshKeepsHistory(s, id, peer, upfSeq, n, now);
    FreshHandlerIsOk(s, s'.past, Report(peer, upfSeq, id), n);
    HandlerMovesOn(s.(table := s'.table, past := s'.past), id, s'.handlers[id]);
  }

  // -- A renumbering ---------------------------------------------------------------------------------

  lemma MovingKeepsLinks(s: State, id: Id, m: nat)
    requires Sound(s) && id in s.handlers && s.handlers[id].Relaying?
    requires s.handlers[id].number in s.table.relays && m !in s.table.relays && Unheld(s, m)
    ensures var p' := s.past.(claimOf := Moved(s.past.claimOf, s.handlers[id].number, m));
      && Linked(p', m, s.handlers[id].claim)
      && FliersStayLinked(s, p')
      && (forall o :: o in s.handlers && o != id && s.handlers[o].Relaying? ==> Linked(p', s.handlers[o].number, s.handlers[o].claim))
  {
    var h := s.handlers[id];
    assert HandlerOk(s.self, s.past, id, h);
    assert s.past.claimOf[h.number] == h.claim;
    forall o | o in s.handlers && o != id && s.handlers[o].Relaying? ensures s.handlers[o].claim != h.claim {
      assert HandlerOk(s.self, s.past, o, s.handlers[o]);
    }
  }

  lemma MovingKeepsClaims(s: State, n: nat, m: nat)
    requires ClaimsOk(s.self, s.past, s.flat) && n in s.past.claimOf && m !in s.past.claimOf
    ensures ClaimsOk(s.self, s.past.(claimOf := Moved(s.past.claimOf, n, m)), s.flat)
  {
    var p, p' := s.past, s.past.(claimOf := Moved(s.past.claimOf, n, m));
    forall c: nat | c < |p'.claims| ensures ClaimOk(s.self, p', s.flat, c) {
      assert ClaimOk(s.self, p, s.flat, c);
      if HasEntry(p, c) {
        var k :| k in p.claimOf && p.claimOf[k] == c;
        var k' := if k == n then m else k;
        assert k' in p'.claimOf && p'.claimOf[k'] == c;
      }
    }
  }

  lemma MovingKeepsHistory(s: State, n: nat, m: nat)
    requires Sound(s) && n in s.table.relays && m !in s.table.relays
    ensures var p', t' := s.past.(claimOf := Moved(s.past.claimOf, n, m)), AddClaim(Forget(s.table, n), m, s.table.relays[n]);
      EntriesOk(p', t') && ClaimsOk(s.self, p', s.flat) && HistoryOk(p')
  {
    var p := s.past;
    var p', t' := p.(claimOf := Moved(p.claimOf, n, m)), AddClaim(Forget(s.table, n), m, s.table.relays[n]);
    forall k | k in t'.relays ensures EntryOk(p', k, t'.relays[k]) {
      assert EntryOk(p, if k == m then n else k, t'.relays[k]);
    }
    MovingKeepsClaims(s, n, m);
    HistoryStaysOk(p, p');
  }

  // -- A forgotten entry -----------------------------------------------------------------------------

  /** Forgetting a settled claim's entry leaves every other claim's. */
  lemma ForgettingKeepsHistory(s: State, n: nat, c: nat)
    requires Sound(s) && Linked(s.past, n, c) && Settled(s.past, c)
    ensures var s' := AfterForget(s, n);
      EntriesOk(s'.past, s'.table) && ClaimsOk(s'.self, s'.past, s'.flat) && HistoryOk(s'.past)
  {
    var p, s' := s.past, AfterForget(s, n);
    var p' := s'.past;
    forall m | m in s'.table.relays ensures EntryOk(p', m, s'.table.relays[m]) {
      assert EntryOk(p, m, s.table.relays[m]);
    }
    forall d: nat | d < |p'.claims| ensures ClaimOk(s.self, p', s.flat, d) {
      assert ClaimOk(s.self, p, s.flat, d);
      if d !in p.ended && d !in p.absorbed {
        var m :| m in p.claimOf && p.claimOf[m] == d;
        assert m != n;
        assert m in p'.claimOf && p'.claimOf[m] == d;
      }
    }
    HistoryStaysOk(p, p');
  }

  lemma ForgettingKeepsThreads(s: State, n: nat)
    requires Sound(s)
    ensures ThreadsOk(s, AfterForget(s, n).past)
  {
    LinksSurviveDrops(s, AfterForget(s, n).past);
    UntouchedThreadsStayOk(s, AfterForget(s, n).past);
  }

  // -- A take ----------------------------------------------------------------------------------------

  /** Whoever takes an entry is the first to, and nobody has answered its claim. */
  lemma TakingKeepsHistory(s: State, n: nat, c: nat, who: Taker)
    requires Sound(s) && Flying(s.past, n, c)
    ensures var p', t' := AfterTaking(s, n, who), Take(s.table, n, s.clock);
      && EntriesOk(p', t') && ClaimsOk(s.self, p', s.flat) && HistoryOk(p') && ThreadsOk(s, p')
      && match Taken(s.table, n, s.clock) {
           case Some(r) => ClaimAt(s.past, n) == c && Holder(p', c, r.peer, r.upfSeq, who)
           case None => p' == s.past
         }
  {
    var p, p', t' := s.past, AfterTaking(s, n, who), Take(s.table, n, s.clock);
    if Taken(s.table, n, s.clock).Some? {
      assert EntryOk(p, n, s.table.relays[n]);
      assert p.claimOf[n] == c;
      assert c !in p.takers;
      NotYetAnswered(p, c);
      forall m | m in t'.relays ensures EntryOk(p', m, t'.relays[m]) {
        assert EntryOk(p, m, s.table.relays[m]);
      }
      forall d: nat | d < |p'.claims| ensures ClaimOk(s.self, p', s.flat, d) {
        assert ClaimOk(s.self, p, s.flat, d);
        if HasEntry(p, d) {
          var m :| m in p.claimOf && p.claimOf[m] == d;
          assert m in p'.claimOf && p'.claimOf[m] == d;
        }
      }
      HistoryStaysOk(p, p');
      LinksSurviveDrops(s, p');
      UntouchedThreadsStayOk(s, p');
    }
  }

  lemma NotYetAnswered(p: History, c: nat)
    requires HistoryOk(p) && c in p.sent && c !in p.takers
    ensures c !in AnsweredBy(p.answers)
  {
    forall a | a in p.answers ensures a.claim != c {
      assert AnswerOk(p, a);
    }
  }
}
