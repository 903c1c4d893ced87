/**
 Nobody is stuck. In every state of every run each thread that has not ended can take its next step, but for the source
 check while a naming holds the lock, and the naming can take one then; and each step brings a report handler nearer its end.
 */
module ProtocolProgress {
  import opened Basics
  import opened Allocator
  import opened RelaySpec
  import opened AuthSpec
  import opened TransactionSpec
  import opened Protocol
  import ProtocolOwnership
  import ProtocolTables
  import opened RelayToken
  import RelayTokenLimits

  // -- Names nobody has ------------------------------------------------------------------------------

  lemma {:induction false} AboveAll(used: set<nat>) returns (x: nat)
    ensures forall y :: y in used ==> y < x
  {
    if used == {} {
      x := 0;
    } else {
      var y :| y in used;
      var above := AboveAll(used - {y});
      x := if y < above then above else y + 1;
      assert forall z :: z in used ==> z == y || z in used - {y};
    }
  }

  ghost predicate CanStep(s: State, step: Step) {
    exists s' :: Next(s, step, s')
  }

  ghost predicate HandlerCanStep(s: State, id: Id) {
    exists step :: CanStep(s, OfHandler(id, step))
  }

  ghost predicate TxCanStep(s: State, x: Id) {
    exists step :: CanStep(s, OfTx(x, step))
  }

  ghost predicate ResponderCanStep(s: State, id: Id) {
    exists step :: CanStep(s, OfResponder(id, step))
  }

  ghost predicate ReaderCanStep(s: State) {
    exists step :: CanStep(s, OfReader(step))
  }

  ghost predicate NamingCanStep(s: State) {
    exists step :: CanStep(s, OfNaming(step)) && !step.Tick?
  }

  // -- Report handlers -------------------------------------------------------------------------------

  lemma GatesCanStep(s: State, id: Id)
    requires id in s.handlers && (s.handlers[id].Arrived? || s.handlers[id].Admitted? || s.handlers[id].Quoting?)
    requires s.handlers[id].Quoting? ==> s.naming.Unlocked?
    ensures HandlerCanStep(s, id)
  {
    var h := s.handlers[id];
    if h.Arrived? {
      var s' := WithHandler(s, id, Quoting(h.peer, h.upfSeq, ReadToken(s.table, h.peer.host, ReleasesOf(s, h.peer.host), s.clock)));
      assert Next(s, OfHandler(id, ReadGeneration), s');
      assert CanStep(s, OfHandler(id, ReadGeneration));
    } else if h.Quoting? {
      var s' := WithHandler(s, id, if Known(s.auth, h.peer.host, s.clock) then Admitted(h.peer, h.upfSeq, h.token) else Finished);
      assert Next(s, OfHandler(id, CheckKnown), s');
      assert CanStep(s, OfHandler(id, CheckKnown));
    } else {
      var s' := WithHandler(s, id, Claiming(h.peer, h.upfSeq, h.token, s.clock));
      assert Next(s, OfHandler(id, FindSmf(true)), s');
      assert CanStep(s, OfHandler(id, FindSmf(true)));
    }
  }

  lemma ClaimsCanStep(s: State, id: Id)
    requires id in s.handlers && s.handlers[id].Claiming?
    ensures HandlerCanStep(s, id)
  {
    var h := s.handlers[id];
    var c, t := RelayTokenLimits.ClaimHasAnOutcome(s.table, h.peer, h.upfSeq, h.now, h.token.count);
    var p := Keeping(s.past, KeptByClaim(s.table, h.peer.host, h.now, h.token.count).relays);
    var s' := match c
      case Fresh(n) =>
        WithHandler(s, id, Relaying(Send, h.peer, h.upfSeq, n, 0, |s.past.claims|)).(
          table := t, past := p.(claims := p.claims + [Report(h.peer, h.upfSeq, id)], claimOf := p.claimOf[n := |p.claims|]))
      case Exhausted => WithHandler(s, id, Rejecting(h.peer, h.upfSeq)).(table := t, past := p)
      case _ => WithHandler(s, id, Finished).(table := t, past := p);
    assert ClaimReportStep(s, id, h, c, s');
    assert Next(s, OfHandler(id, ClaimReport(c)), s');
    assert CanStep(s, OfHandler(id, ClaimReport(c)));
  }

  /** Every renumbering has an outcome. */
  lemma RenumberHasAnOutcome(t: Table, n: nat) returns (r: RenumberResult, t': Table)
    ensures Renumber(t, n, r, t')
  {
    if n !in t.relays {
      r, t' := NotHeld, t;
    } else {
      var free := SearchHasAnAnswer(t.relays.Keys, t.cursor, RELAY_SEQUENCE_FLOOR, RELAY_SEQUENCE_CEIL, 1);
      match free {
        case None => r, t' := NoNumber, t;
        case Some(c) => r, t' := Renumbered(c), AddClaim(Forget(t, n), c, t.relays[n]);
      }
    }
  }

  lemma RenumbersCanStep(s: State, id: Id)
    requires id in s.handlers && IsAt(s.handlers[id], Renumbering)
    ensures HandlerCanStep(s, id)
  {
    var h := s.handlers[id];
    var r, t := RenumberHasAnOutcome(s.table, h.number);
    var s' := match r
      case NotHeld => WithHandler(s, id, Finished)
      case NoNumber => WithHandler(s, id, h.(stage := Refuse))
      case Renumbered(m) =>
        WithHandler(s, id, h.(number := m, attempt := h.attempt + 1,
                              stage := if h.attempt + 1 < RELAY_SEND_ATTEMPTS then Send else Refuse)).(
          table := t, past := s.past.(claimOf := Moved(s.past.claimOf, h.number, m)));
    assert RenumberClaimStep(s, id, h, r, s');
    assert Next(s, OfHandler(id, RenumberClaim(r)), s');
    assert CanStep(s, OfHandler(id, RenumberClaim(r)));
  }

  lemma SendsCanStep(s: State, id: Id)
    requires id in s.handlers && (s.handlers[id].Rejecting? || IsAt(s.handlers[id], Send) || IsAt(s.handlers[id], Refuse))
    ensures HandlerCanStep(s, id)
  {
    var h := s.handlers[id];
    var x := AboveAll(s.txs.Keys);
    if h.Rejecting? {
      assert Next(s, OfHandler(id, RejectReport(x, Failed)), WithHandler(s, id, Finished));
      assert CanStep(s, OfHandler(id, RejectReport(x, Failed)));
    } else if h.stage.Send? {
      assert Next(s, OfHandler(id, SendReport(x, Failed)), WithHandler(s, id, h.(stage := Refuse)));
      assert CanStep(s, OfHandler(id, SendReport(x, Failed)));
    } else {
      var s' := WithHandler(AfterAnswer(s, Answer(h.claim, h.peer, h.upfSeq, ByHandler), x, Failed), id, h.(stage := Release));
      assert Next(s, OfHandler(id, RefuseReport(x, Failed)), s');
      assert CanStep(s, OfHandler(id, RefuseReport(x, Failed)));
    }
  }

  lemma HandlersCanStep(s: State, id: Id)
    requires id in s.handlers && !s.handlers[id].Finished?
    requires s.handlers[id].Quoting? ==> s.naming.Unlocked?
    ensures HandlerCanStep(s, id)
  {
    var h := s.handlers[id];
    if h.Claiming? {
      ClaimsCanStep(s, id);
    } else if IsAt(h, Renumbering) {
      RenumbersCanStep(s, id);
    } else if IsAt(h, Release) {
      assert Next(s, OfHandler(id, EndClaim), WithHandler(AfterForget(s, h.number), id, Finished));
      assert CanStep(s, OfHandler(id, EndClaim));
    } else if h.Rejecting? || h.Relaying? {
      SendsCanStep(s, id);
    } else {
      GatesCanStep(s, id);
    }
  }

  // -- Transactions, the read loop and responses -----------------------------------------------------

  lemma TransactionsCanStep(s: State, x: Id)
    requires x in s.txs && !s.txs[x].phase.Over?
    ensures TxCanStep(s, x)
  {
    var tx := s.txs[x];
    match tx.phase {
      case Running(_) =>
        assert Next(s, OfTx(x, EndTx(true)), WithTx(s, x, Ended(true)));
        assert CanStep(s, OfTx(x, EndTx(true)));
      case Ended(failed) =>
        RemovalsCanStep(s, x);
      case GivingUp =>
        var n := tx.key.number;
        var s' := WithTx(s, x, AfterGiveUpTake(Taken(s.table, n, s.clock), ClaimAt(s.past, n))).(
          table := Take(s.table, n, s.clock), past := AfterTaking(s, n, TxTaker(x)));
        assert Next(s, OfTx(x, GiveUpTake), s');
        assert CanStep(s, OfTx(x, GiveUpTake));
      case Refusing(peer, upfSeq, claim) =>
        var y := AboveAll(s.txs.Keys);
        var s' := WithTx(AfterAnswer(s, Answer(claim, peer, upfSeq, ByGiveUp), y, Failed), x, Releasing);
        assert Next(s, OfTx(x, GiveUpRefuse(y, Failed)), s');
        assert CanStep(s, OfTx(x, GiveUpRefuse(y, Failed)));
      case Releasing =>
        assert Next(s, OfTx(x, GiveUpRelease), WithTx(AfterForget(s, tx.key.number), x, Over));
        assert CanStep(s, OfTx(x, GiveUpRelease));
    }
  }

  lemma RemovalsCanStep(s: State, x: Id)
    requires x in s.txs && s.txs[x].phase.Ended?
    ensures TxCanStep(s, x)
  {
    var tx := s.txs[x];
    var found := tx.key in s.flat && s.flat[tx.key] == x;
    var s' := WithTx(s, x, if tx.kind.RelayRequest? && tx.phase.failed then GivingUp else Over).(
      flat := RemoveIf(s.flat, tx.key, x),
      past := if found && tx.kind.AnswerTx? then s.past.(ended := s.past.ended + AbsorbedUnder(s.past, tx.key)) else s.past);
    assert RemoveTxStep(s, x, tx, s');
    assert Next(s, OfTx(x, RemoveTx), s');
    assert CanStep(s, OfTx(x, RemoveTx));
  }

  lemma RespondersCanStep(s: State, id: Id)
    requires id in s.responders && !s.responders[id].Done?
    ensures ResponderCanStep(s, id)
  {
    var a := s.responders[id];
    match a {
      case Pending(n, _) =>
        var s' := WithResponder(s, id, AfterTake(a, Taken(s.table, n, s.clock), ClaimAt(s.past, n))).(
          table := Take(s.table, n, s.clock), past := AfterTaking(s, n, ResponderTaker(id)));
        assert Next(s, OfResponder(id, TakeForResponse), s');
        assert CanStep(s, OfResponder(id, TakeForResponse));
      case Answering(n, claim, peer, upfSeq, taken) =>
        var x := AboveAll(s.txs.Keys);
        var s' := WithResponder(AfterAnswer(s, Answer(taken, peer, upfSeq, BySmf), x, Failed), id, Forgetting(n, claim));
        assert Next(s, OfResponder(id, AnswerReport(x, Failed)), s');
        assert CanStep(s, OfResponder(id, AnswerReport(x, Failed)));
      case Forgetting(n, _) =>
        assert Next(s, OfResponder(id, EndAnswered), WithResponder(AfterForget(s, n), id, Done));
        assert CanStep(s, OfResponder(id, EndAnswered));
    }
  }

  lemma TheReaderCanStep(s: State)
    requires !s.reader.Idle?
    ensures ReaderCanStep(s)
  {
    match s.reader {
      case FoundTx(x, n, c) =>
        var posted := if x in s.txs && s.txs[x].phase.Running? then WithTx(s, x, Running(true)) else s;
        assert Next(s, OfReader(PostResponse), posted.(reader := Responding(n, c)));
        assert CanStep(s, OfReader(PostResponse));
      case Responding(n, c) =>
        var id := AboveAll(s.responders.Keys);
        assert Next(s, OfReader(DispatchResponse(id)), WithResponder(s, id, Pending(n, c)).(reader := Idle));
        assert CanStep(s, OfReader(DispatchResponse(id)));
      case Reporting(peer, upfSeq) =>
        var id := AboveAll(s.handlers.Keys);
        assert Next(s, OfReader(DispatchReport(id)), WithHandler(s, id, Arrived(peer, upfSeq)).(reader := Idle));
        assert CanStep(s, OfReader(DispatchReport(id)));
    }
  }

  /** And an idle read loop takes the report or response that comes, if no transaction has the report and one the response. */
  lemma AnIdleReaderListens(s: State, peer: Peer, upfSeq: nat, n: nat)
    requires s.reader.Idle? && peer != s.self
    ensures Key(peer, upfSeq) !in s.flat ==> CanStep(s, OfReader(ReadReport(peer, upfSeq)))
    ensures Key(s.self, n) in s.flat && s.flat[Key(s.self, n)] in s.txs && s.txs[s.flat[Key(s.self, n)]].kind.RelayRequest? ==>
      CanStep(s, OfReader(ReadResponse(n)))
  {
    if Key(peer, upfSeq) !in s.flat {
      assert Next(s, OfReader(ReadReport(peer, upfSeq)), s.(reader := Reporting(peer, upfSeq)));
    }
    if Key(s.self, n) in s.flat && s.flat[Key(s.self, n)] in s.txs && s.txs[s.flat[Key(s.self, n)]].kind.RelayRequest? {
      var x := s.flat[Key(s.self, n)];
      assert Next(s, OfReader(ReadResponse(n)), s.(reader := FoundTx(x, n, s.txs[x].kind.claim)));
    }
  }

  // -- What may happen -------------------------------------------------------------------------------

  /** A send goes through when nothing has its number, and finds it taken when something has. */
  lemma ASendMayGoThrough(s: State, id: Id, x: Id)
    requires id in s.handlers && IsAt(s.handlers[id], Send) && x !in s.txs
    ensures var key := Key(s.self, s.handlers[id].number);
      CanStep(s, OfHandler(id, SendReport(x, if key in s.flat then Duplicate else Registered)))
  {
    var h, key := s.handlers[id], Key(s.self, s.handlers[id].number);
    var r := if key in s.flat then Duplicate else Registered;
    var s' := WithHandler(AfterSend(s, key, RelayRequest(h.claim), x, r), id, AfterRelaySend(h, r)).(
      past := if r.Registered? then s.past.(sent := s.past.sent + {h.claim}) else s.past);
    assert Next(s, OfHandler(id, SendReport(x, r)), s');
  }

  /** A transaction may fail at any time; one that is not a relayed request may also end well, and a relayed one once answered. */
  lemma ATransactionMayEndEitherWay(s: State, x: Id)
    requires x in s.txs && s.txs[x].phase.Running?
    ensures CanStep(s, OfTx(x, EndTx(true)))
    ensures !s.txs[x].kind.RelayRequest? || s.txs[x].phase.posted ==> CanStep(s, OfTx(x, EndTx(false)))
  {
    assert Next(s, OfTx(x, EndTx(true)), WithTx(s, x, Ended(true)));
    if !s.txs[x].kind.RelayRequest? || s.txs[x].phase.posted {
      assert Next(s, OfTx(x, EndTx(false)), WithTx(s, x, Ended(false)));
    }
  }

  /** The SMF may be unknown; it may send a request of its own under any free number; and time passes. */
  lemma TheWorldGoesOn(s: State, id: Id, x: Id, n: nat, to: Time)
    requires x !in s.txs && s.clock <= to
    ensures id in s.handlers && s.handlers[id].Admitted? ==> CanStep(s, OfHandler(id, FindSmf(false)))
    ensures Key(s.self, n) !in s.flat ==> CanStep(s, OfTx(x, SendPeerRequest(n)))
    ensures CanStep(s, OfNaming(Tick(to)))
  {
    if id in s.handlers && s.handlers[id].Admitted? {
      assert Next(s, OfHandler(id, FindSmf(false)), WithHandler(s, id, Rejecting(s.handlers[id].peer, s.handlers[id].upfSeq)));
    }
    if Key(s.self, n) !in s.flat {
      assert Next(s, OfTx(x, SendPeerRequest(n)), AfterSend(s, Key(s.self, n), PeerRequest, x, Registered));
    }
    assert Next(s, OfNaming(Tick(to)), s.(clock := to));
  }

  /** Any node may be named, by a message dated no later than now, when no naming holds the lock. */
  lemma AnybodyMayBeNamed(s: State, node: Node, dated: Time, ip: Option<Host>)
    requires s.naming.Unlocked? && dated <= s.clock
    ensures CanStep(s, OfNaming(BeginNaming(node, dated, ip)))
  {
    var job := Job(node, dated, ip, Superseded(s.auth.nodes, node, dated), RecordOf(s.auth.nodes, node).addr);
    var s' := s.(auth := s.auth.(nodes := AuthSpec.Named(s.auth.nodes, node, dated)), naming := Expiring(job));
    assert Next(s, OfNaming(BeginNaming(node, dated, ip)), s');
  }

  // -- Namings ---------------------------------------------------------------------------------------

  lemma ExpiryCanStep(s: State)
    requires s.naming.Expiring?
    ensures NamingCanStep(s)
  {
    var job := s.naming.job;
    if node :| node in s.auth.nodes && !Recent(s.auth.nodes[node], job.dated) {
      var record := s.auth.nodes[node];
      var without := s.(auth := s.auth.(nodes := s.auth.nodes - {node}));
      var s' := if record.addr.Some? then LeaveAddress(without, node, record.addr.value, job, false) else without;
      assert Next(s, OfNaming(ExpireNode(node)), s');
      assert CanStep(s, OfNaming(ExpireNode(node)));
    } else {
      var s' := if job.ip.None? || job.superseded then s.(naming := Unlocked)
                else if job.from.Some? && job.from != job.ip then LeaveAddress(s, job.node, job.from.value, job, true)
                else s.(naming := Placing(job));
      assert Next(s, OfNaming(EndExpiry), s');
      assert CanStep(s, OfNaming(EndExpiry));
    }
  }

  lemma ReleasesCanStep(s: State)
    requires s.naming.Purging? || s.naming.Hooking?
    ensures NamingCanStep(s)
  {
    var host := s.naming.host;
    if s.naming.Purging? {
      var t := ForgetHost(s.table, host, s.clock);
      var s' := s.(table := t, naming := Hooking(host, s.naming.job, s.naming.left),
                   past := Keeping(s.past, t.relays).(releases := s.past.releases[host := ReleasesOf(s, host) + 1]));
      assert Next(s, OfNaming(PurgeRelays), s');
      assert CanStep(s, OfNaming(PurgeRelays));
    } else if k :| k in s.flat && k.consumer.host == host {
      var s' := s.(flat := DropConsumer(s.flat, k.consumer), past := s.past.(ended := s.past.ended + AbsorbedAt(s.past, k.consumer)));
      assert Next(s, OfNaming(DropConsumerAt(k.consumer)), s');
      assert CanStep(s, OfNaming(DropConsumerAt(k.consumer)));
    } else {
      var s' := s.(naming := if s.naming.left then Placing(s.naming.job) else Expiring(s.naming.job));
      assert Next(s, OfNaming(EndRelease), s');
      assert CanStep(s, OfNaming(EndRelease));
    }
  }

  lemma NamingsCanStep(s: State)
    requires s.naming.Placing? ==> s.naming.job.ip.Some?
    ensures NamingCanStep(s)
  {
    match s.naming {
      case Unlocked =>
        var job := Job("", s.clock, None, Superseded(s.auth.nodes, "", s.clock), RecordOf(s.auth.nodes, "").addr);
        var s' := s.(auth := s.auth.(nodes := AuthSpec.Named(s.auth.nodes, "", s.clock)), naming := Expiring(job));
        assert Next(s, OfNaming(BeginNaming("", s.clock, None)), s');
        assert CanStep(s, OfNaming(BeginNaming("", s.clock, None)));
      case Expiring(_) => ExpiryCanStep(s);
      case Purging(_, _, _) => ReleasesCanStep(s);
      case Hooking(_, _, _) => ReleasesCanStep(s);
      case Placing(job) =>
        var s' := s.(auth := Auth(Occupy(s.auth.addrs, job.node, job.ip.value), s.auth.nodes[job.node := NodeRecord(job.dated, job.ip)]),
                     naming := Unlocked);
        assert Next(s, OfNaming(Place), s');
        assert CanStep(s, OfNaming(Place));
    }
  }

  // -- Over runs -------------------------------------------------------------------------------------

  /**
   In every state of every run: a report handler, a transaction's goroutine, a response handler and the read loop can each
   take a step if they have not ended, the source check waiting for a naming that holds the lock, which itself can.
   */
  lemma NobodyIsStuck(r: Run, i: nat)
    requires IsRun(r) && i < |r.states|
    ensures var s := r.states[i];
      && (forall id :: id in s.handlers && !s.handlers[id].Finished? && (s.handlers[id].Quoting? ==> s.naming.Unlocked?) ==>
            HandlerCanStep(s, id))
      && (forall x :: x in s.txs && !s.txs[x].phase.Over? ==> TxCanStep(s, x))
      && (forall id :: id in s.responders && !s.responders[id].Done? ==> ResponderCanStep(s, id))
      && (!s.reader.Idle? ==> ReaderCanStep(s))
      && NamingCanStep(s)
  {
    var s := r.states[i];
    forall id | id in s.handlers && !s.handlers[id].Finished? && (s.handlers[id].Quoting? ==> s.naming.Unlocked?)
      ensures HandlerCanStep(s, id)
    {
      HandlersCanStep(s, id);
    }
    forall x | x in s.txs && !s.txs[x].phase.Over? ensures TxCanStep(s, x) {
      TransactionsCanStep(s, x);
    }
    forall id | id in s.responders && !s.responders[id].Done? ensures ResponderCanStep(s, id) {
      RespondersCanStep(s, id);
    }
    if !s.reader.Idle? {
      TheReaderCanStep(s);
    }
    ProtocolTables.AuthorisationAgrees(r, i);
    NamingsCanStep(s);
  }

  // -- How far to the end ----------------------------------------------------------------------------

  /** The most steps a report handler has before it. */
  function ToGo(h: Handler): nat {
    match h
    case Arrived(_, _) => 14
    case Quoting(_, _, _) => 13
    case Admitted(_, _, _) => 12
    case Claiming(_, _, _, _) => 11
    case Rejecting(_, _) => 1
    case Relaying(stage, _, _, _, attempt, _) => ToGoRelaying(stage, if attempt < RELAY_SEND_ATTEMPTS then RELAY_SEND_ATTEMPTS - attempt else 0)
    case Finished => 0
  }

  function ToGoRelaying(stage: Stage, left: nat): nat {
    match stage
    case Send => 2 + 2 * left
    case Renumbering => 1 + 2 * left
    case Refuse => 2
    case Release => 1
  }

  lemma RelaysGetOn(s: State, id: Id, h: Handler, step: HandlerStep, s': State)
    requires RelayNext(s, id, h, step, s') && ProtocolOwnership.WithinAttempts(h)
    ensures id in s'.handlers && ToGo(s'.handlers[id]) < ToGo(h)
  {
    match step {
      case SendReport(x, r) => SendsGetOn(s, id, h, x, r, s');
      case RenumberClaim(r) => RenumbersGetOn(s, id, h, r, s');
      case RefuseReport(_, _) =>
      case EndClaim =>
      case RejectReport(_, _) =>
    }
  }

  lemma SendsGetOn(s: State, id: Id, h: Handler, x: Id, r: SendResult, s': State)
    requires RelayNext(s, id, h, SendReport(x, r), s') && ProtocolOwnership.WithinAttempts(h)
    ensures id in s'.handlers && ToGo(s'.handlers[id]) < ToGo(h)
  {
    assert s'.handlers[id] == AfterRelaySend(h, r);
  }

  lemma RenumbersGetOn(s: State, id: Id, h: Handler, r: RenumberResult, s': State)
    requires RelayNext(s, id, h, RenumberClaim(r), s') && ProtocolOwnership.WithinAttempts(h)
    ensures id in s'.handlers && ToGo(s'.handlers[id]) < ToGo(h)
  {
  }

  lemma ClaimsGetOn(s: State, id: Id, h: Handler, c: ClaimResult, s': State)
    requires h.Claiming? && ClaimReportStep(s, id, h, c, s')
    ensures id in s'.handlers && ToGo(s'.handlers[id]) < ToGo(h)
  {
  }

  /** Every step of its own brings a report handler nearer its end: fourteen are enough, however the sends go. */
  lemma EveryStepGetsOn(r: Run, i: nat, id: Id)
    requires IsRun(r) && i < |r.steps| && r.steps[i].OfHandler? && r.steps[i].id == id
    ensures id in r.states[i].handlers && id in r.states[i + 1].handlers
    ensures ToGo(r.states[i + 1].handlers[id]) < ToGo(r.states[i].handlers[id]) <= 14
  {
    assert IsStep(r, i);
    ProtocolOwnership.AttemptsAreBounded(r, i);
    var s, step, s' := r.states[i], r.steps[i].handling, r.states[i + 1];
    var h := s.handlers[id];
    if step.ClaimReport? {
      ClaimsGetOn(s, id, h, step.claimed, s');
    } else if !(step.ReadGeneration? || step.CheckKnown? || step.FindSmf?) {
      RelaysGetOn(s, id, h, step, s');
    }
  }
}
