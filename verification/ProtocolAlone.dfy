/**
 The handlers of the protocol, left alone, are the handlers as methods: a report handler, a response handler or a give-up
 whose steps nothing interrupts leaves the relay table and the transactions as ReportHandler says one call does.
 */
module ProtocolAlone {
  import opened Basics
  import opened RelaySpec
  import opened AuthSpec
  import opened TransactionSpec
  import opened Protocol
  import RH = ReportHandler

  /** The handler takes these steps, and nobody else takes any. */
  ghost predicate Uninterrupted(states: seq<State>, steps: seq<HandlerStep>, id: Id) {
    && |states| == |steps| + 1
    && forall i: nat :: i < |steps| ==> StepsAlone(states, steps, id, i)
  }

  ghost predicate StepsAlone(states: seq<State>, steps: seq<HandlerStep>, id: Id, i: nat) {
    i < |steps| && i + 1 < |states| && Next(states[i], OfHandler(id, steps[i]), states[i + 1])
  }

  /** What the call so far has gone through: the numbers tried, which sends failed, and the refusal's send. */
  datatype Trace = Trace(smfKnown: bool, outcome: RH.ReportOutcome, tried: seq<nat>, fails: seq<bool>, refusalFails: bool)

  function NoFailure(): seq<bool> {
    seq(RELAY_SEND_ATTEMPTS, _ => false)
  }

  /** The report as the claim records it. */
  function TheRelay(s: State, peer: Peer, upfSeq: nat): Relay {
    Relay(peer, upfSeq, s.clock, false)
  }

  /** The claim has gone through, and the numbers tried are a trail from its own. */
  ghost predicate Claimed(s: State, peer: Peer, upfSeq: nat, k: Trace, t: Table)
  {
    var sw := Sweep(s.table, s.clock);
    && |k.fails| == RELAY_SEND_ATTEMPTS && 1 <= |k.tried|
    && Matching(sw, peer, upfSeq, s.clock) == {} && IsNextNumber(sw, Some(k.tried[0]))
    && RH.Trying(s.self, AddClaim(sw, k.tried[0], TheRelay(s, peer, upfSeq)), s.flat, k.tried, k.fails, t, s.flat)
  }

  ghost predicate NoUse(s: State, peer: Peer, upfSeq: nat, k: Trace, t: Table)
    requires Claimed(s, peer, upfSeq, k, t)
  {
    RH.NoUse(s.self, AddClaim(Sweep(s.table, s.clock), k.tried[0], TheRelay(s, peer, upfSeq)), s.flat, k.tried, k.fails)
  }

  /** The handler in its retry loop has come as far as the method has. */
  ghost predicate RelayingAs(s: State, peer: Peer, upfSeq: nat, h: Handler, k: Trace, t: Table, flat: map<Key, Id>)
    requires h.Relaying?
  {
    match h.stage
    case Send =>
      && Claimed(s, peer, upfSeq, k, t) && flat == s.flat && h.attempt < RELAY_SEND_ATTEMPTS
      && |k.tried| == h.attempt + 1 && k.tried[h.attempt] == h.number
    case Renumbering =>
      && Claimed(s, peer, upfSeq, k, t) && flat == s.flat && h.attempt < RELAY_SEND_ATTEMPTS
      && |k.tried| == h.attempt + 1 && k.tried[h.attempt] == h.number
      && !k.fails[h.attempt] && Key(s.self, h.number) in s.flat
    case Refuse =>
      && Claimed(s, peer, upfSeq, k, t) && flat == s.flat
      && k.tried[|k.tried| - 1] == h.number && NoUse(s, peer, upfSeq, k, t)
    case Release =>
      && Claimed(s, peer, upfSeq, k, t) && k.tried[|k.tried| - 1] == h.number && NoUse(s, peer, upfSeq, k, t)
      && RH.Answers(s.flat, Key(peer, upfSeq), k.refusalFails, flat)
  }

  ghost predicate EndsAs(s: State, peer: Peer, upfSeq: nat, k: Trace, t: Table, flat: map<Key, Id>) {
    && |k.fails| == RELAY_SEND_ATTEMPTS
    && RH.ReportedUnderGate(s.self, Known(s.auth, peer.host, s.clock), k.smfKnown, s.table, s.flat, TheRelay(s, peer, upfSeq),
                            k.fails, k.refusalFails, k.outcome, k.tried, t, flat)
  }

  /** From a state s in which the handler had just arrived, where it is and what is in the tables. */
  ghost predicate Alone(s: State, peer: Peer, upfSeq: nat, h: Handler, k: Trace, t: Table, flat: map<Key, Id>) {
    && (h.Finished? || (h.peer == peer && h.upfSeq == upfSeq))
    && match h
       case Arrived(_, _) => t == s.table && flat == s.flat
       case Quoting(_, _, token) => t == s.table && flat == s.flat && token.count == Count(s.table, peer.host)
       case Admitted(_, _, token) =>
         t == s.table && flat == s.flat && token.count == Count(s.table, peer.host) && Known(s.auth, peer.host, s.clock)
       case Claiming(_, _, token, now) =>
         t == s.table && flat == s.flat && token.count == Count(s.table, peer.host) && Known(s.auth, peer.host, s.clock)
         && now == s.clock && k.smfKnown
       case Rejecting(_, _) =>
         flat == s.flat && Known(s.auth, peer.host, s.clock) && RejectingAs(s, peer, upfSeq, k, t)
       case Relaying(_, _, _, _, _, _) =>
         Known(s.auth, peer.host, s.clock) && k.smfKnown && RelayingAs(s, peer, upfSeq, h, k, t, flat)
       case Finished => EndsAs(s, peer, upfSeq, k, t, flat)
  }

  /** About to refuse for want of an SMF, or of a number. */
  ghost predicate RejectingAs(s: State, peer: Peer, upfSeq: nat, k: Trace, t: Table) {
    var sw := Sweep(s.table, s.clock);
    if k.smfKnown then t == sw && Matching(sw, peer, upfSeq, s.clock) == {} && IsNextNumber(sw, None)
    else t == s.table
  }

  // -- Each step -------------------------------------------------------------------------------------

  lemma GateGoesOn(s: State, peer: Peer, upfSeq: nat, u: State, id: Id, h: Handler, step: HandlerStep, u': State, k: Trace)
    returns (k': Trace)
    requires GateNext(u, id, h, step, u') && id in u.handlers && u.handlers[id] == h
    requires u.auth == s.auth && u.clock == s.clock && Alone(s, peer, upfSeq, h, k, u.table, u.flat)
    ensures id in u'.handlers && Alone(s, peer, upfSeq, u'.handlers[id], k', u'.table, u'.flat)
  {
    k' := k;
    if step.CheckKnown? {
      k' := Trace(false, RH.UnknownPeer, [], NoFailure(), false);
    } else if step.FindSmf? {
      k' := Trace(step.known, RH.UnknownPeer, [], NoFailure(), false);
    }
  }

  lemma ClaimGoesOn(s: State, peer: Peer, upfSeq: nat, u: State, id: Id, h: Handler, c: ClaimResult, u': State, k: Trace)
    returns (k': Trace)
    requires h.Claiming? && ClaimReportStep(u, id, h, c, u')
    requires Alone(s, peer, upfSeq, h, k, u.table, u.flat)
    ensures id in u'.handlers && Alone(s, peer, upfSeq, u'.handlers[id], k', u'.table, u'.flat)
  {
    match c {
      case PeerReleased => k' := Trace(true, RH.ReleasedMeanwhile, [], NoFailure(), false);
      case Retransmission(n) => k' := Trace(true, RH.AlreadyRelayed(n), [], NoFailure(), false);
      case Exhausted => k' := Trace(true, RH.NoNumbers, [], NoFailure(), false);
      case Fresh(n) =>
        k' := Trace(true, RH.NoNumbers, [n], NoFailure(), false);
        assert Claimed(s, peer, upfSeq, k', u'.table);
    }
  }

  /** A round's send and renumbering are judged by how its own send went; the sends before have been judged. */
  lemma OwnSendIsJudged(s: State, peer: Peer, upfSeq: nat, k: Trace, t: Table, failed: bool) returns (k': Trace)
    requires Claimed(s, peer, upfSeq, k, t) && |k.tried| <= RELAY_SEND_ATTEMPTS
    ensures k' == k.(fails := k.fails[|k.tried| - 1 := failed]) && Claimed(s, peer, upfSeq, k', t)
  {
    k' := k.(fails := k.fails[|k.tried| - 1 := failed]);
  }

  lemma SendGoesOn(s: State, peer: Peer, upfSeq: nat, u: State, id: Id, h: Handler, x: Id, r: SendResult, u': State, k: Trace)
    returns (k': Trace)
    requires RelayNext(u, id, h, SendReport(x, r), u') && u.self == s.self
    requires Alone(s, peer, upfSeq, h, k, u.table, u.flat)
    ensures id in u'.handlers && Alone(s, peer, upfSeq, u'.handlers[id], k', u'.table, u'.flat)
  {
    k' := OwnSendIsJudged(s, peer, upfSeq, k, u.table, r.Failed?);
    if r.Registered? {
      var t0 := AddClaim(Sweep(s.table, s.clock), k.tried[0], TheRelay(s, peer, upfSeq));
      assert RH.Adds(s.flat, Key(s.self, h.number), u'.flat);
      RH.RoundEndsItOrGoesOn(s.self, t0, s.flat, k'.tried, k'.fails, Key(peer, upfSeq), false, u.table, RH.Sent, u.table, u'.flat);
      k' := k'.(outcome := RH.Tried(RH.Relayed(h.number)), refusalFails := false);
    }
  }

  lemma RenumberGoesOn(s: State, peer: Peer, upfSeq: nat, u: State, id: Id, h: Handler, r: RenumberResult, u': State, k: Trace)
    returns (k': Trace)
    requires RelayNext(u, id, h, RenumberClaim(r), u') && u.self == s.self
    requires Alone(s, peer, upfSeq, h, k, u.table, u.flat)
    ensures id in u'.handlers && Alone(s, peer, upfSeq, u'.handlers[id], k', u'.table, u'.flat)
  {
    k' := k;
    assert h.number in u.table.relays;
    if r.Renumbered? {
      var t0 := AddClaim(Sweep(s.table, s.clock), k.tried[0], TheRelay(s, peer, upfSeq));
      RH.RoundEndsItOrGoesOn(s.self, t0, s.flat, k.tried, k.fails, Key(peer, upfSeq), false, u.table, RH.Next(r.number), u'.table, u'.flat);
      k' := k.(tried := k.tried + [r.number]);
      assert k'.tried[0] == k.tried[0];
    }
  }

  lemma RefusalGoesOn(s: State, peer: Peer, upfSeq: nat, u: State, id: Id, h: Handler, x: Id, r: SendResult, u': State, k: Trace)
    returns (k': Trace)
    requires RelayNext(u, id, h, RefuseReport(x, r), u') && u.self == s.self
    requires Alone(s, peer, upfSeq, h, k, u.table, u.flat)
    ensures id in u'.handlers && Alone(s, peer, upfSeq, u'.handlers[id], k', u'.table, u'.flat)
  {
    k' := k.(refusalFails := r.Failed?);
  }

  lemma EndGoesOn(s: State, peer: Peer, upfSeq: nat, u: State, id: Id, h: Handler, u': State, k: Trace) returns (k': Trace)
    requires RelayNext(u, id, h, EndClaim, u') && u.self == s.self
    requires Alone(s, peer, upfSeq, h, k, u.table, u.flat)
    ensures id in u'.handlers && Alone(s, peer, upfSeq, u'.handlers[id], k', u'.table, u'.flat)
  {
    k' := k.(outcome := RH.Tried(RH.Refused));
    var t0 := AddClaim(Sweep(s.table, s.clock), k.tried[0], TheRelay(s, peer, upfSeq));
    RH.RefusalEndsIt(s.self, t0, s.flat, k.tried, k.fails, Key(peer, upfSeq), k.refusalFails, u.table, u'.table, u'.flat);
  }

  lemma RejectGoesOn(s: State, peer: Peer, upfSeq: nat, u: State, id: Id, h: Handler, x: Id, r: SendResult, u': State, k: Trace)
    returns (k': Trace)
    requires RelayNext(u, id, h, RejectReport(x, r), u') && u.self == s.self
    requires Alone(s, peer, upfSeq, h, k, u.table, u.flat)
    ensures id in u'.handlers && Alone(s, peer, upfSeq, u'.handlers[id], k', u'.table, u'.flat)
  {
    k' := Trace(k.smfKnown, if k.smfKnown then RH.NoNumbers else RH.NoSmf, [], NoFailure(), r.Failed?);
  }

  lemma HandlerGoesOn(s: State, peer: Peer, upfSeq: nat, u: State, id: Id, step: HandlerStep, u': State, k: Trace)
    returns (k': Trace)
    requires id in u.handlers && HandlerNext(u, id, u.handlers[id], step, u')
    requires u.self == s.self && u.auth == s.auth && u.clock == s.clock
    requires Alone(s, peer, upfSeq, u.handlers[id], k, u.table, u.flat)
    ensures id in u'.handlers && Alone(s, peer, upfSeq, u'.handlers[id], k', u'.table, u'.flat)
  {
    var h := u.handlers[id];
    match step {
      case ReadGeneration => k' := GateGoesOn(s, peer, upfSeq, u, id, h, step, u', k);
      case CheckKnown => k' := GateGoesOn(s, peer, upfSeq, u, id, h, step, u', k);
      case FindSmf(_) => k' := GateGoesOn(s, peer, upfSeq, u, id, h, step, u', k);
      case ClaimReport(c) => k' := ClaimGoesOn(s, peer, upfSeq, u, id, h, c, u', k);
      case SendReport(x, r) => k' := SendGoesOn(s, peer, upfSeq, u, id, h, x, r, u', k);
      case RenumberClaim(r) => k' := RenumberGoesOn(s, peer, upfSeq, u, id, h, r, u', k);
      case RefuseReport(x, r) => k' := RefusalGoesOn(s, peer, upfSeq, u, id, h, x, r, u', k);
      case EndClaim => k' := EndGoesOn(s, peer, upfSeq, u, id, h, u', k);
      case RejectReport(x, r) => k' := RejectGoesOn(s, peer, upfSeq, u, id, h, x, r, u', k);
    }
  }

  // -- The whole call --------------------------------------------------------------------------------

  lemma {:induction false} AloneAllTheWay(states: seq<State>, steps: seq<HandlerStep>, id: Id, peer: Peer, upfSeq: nat, i: nat)
    returns (k: Trace)
    requires Uninterrupted(states, steps, id) && i <= |steps|
    requires id in states[0].handlers && states[0].handlers[id] == Arrived(peer, upfSeq)
    ensures var s := states[0];
      && states[i].self == s.self && states[i].auth == s.auth && states[i].clock == s.clock
      && id in states[i].handlers && Alone(s, peer, upfSeq, states[i].handlers[id], k, states[i].table, states[i].flat)
  {
    if i == 0 {
      k := Trace(false, RH.UnknownPeer, [], NoFailure(), false);
    } else {
      k := AloneAllTheWay(states, steps, id, peer, upfSeq, i - 1);
      assert StepsAlone(states, steps, id, i - 1);
      StepsLeaveAlone(states[i - 1], OfHandler(id, steps[i - 1]), states[i]);
      k := HandlerGoesOn(states[0], peer, upfSeq, states[i - 1], id, steps[i - 1], states[i], k);
    }
  }

  /**
   A report handler that nothing interrupts, from its start to its end, does to the relay table and the transactions what
   one call of the method does, from the source check on, with the same outcome for the same sends.
   */
  lemma AHandlerAloneIsTheMethod(states: seq<State>, steps: seq<HandlerStep>, id: Id, peer: Peer, upfSeq: nat) returns (k: Trace)
    requires Uninterrupted(states, steps, id)
    requires id in states[0].handlers && states[0].handlers[id] == Arrived(peer, upfSeq)
    requires id in states[|steps|].handlers && states[|steps|].handlers[id].Finished?
    ensures |k.fails| == RELAY_SEND_ATTEMPTS
    ensures var s, s' := states[0], states[|steps|];
      RH.ReportedUnderGate(s.self, Known(s.auth, peer.host, s.clock), k.smfKnown, s.table, s.flat,
                           Relay(peer, upfSeq, s.clock, false), k.fails, k.refusalFails, k.outcome, k.tried, s'.table, s'.flat)
  {
    k := AloneAllTheWay(states, steps, id, peer, upfSeq, |steps|);
  }

  /** So too a response handler: it takes, and if it took, answers and forgets. */
  lemma AResponseAloneIsTheMethod(s: State, id: Id, s1: State, x: Id, r: SendResult, s2: State, s3: State)
    requires id in s.responders && s.responders[id].Pending? && Next(s, OfResponder(id, TakeForResponse), s1)
    ensures id in s1.responders
    ensures s1.responders[id].Done? ==>
      RH.AnsweredAs(s.table, s.flat, s.responders[id].number, s.clock, false, s1.table, s1.flat)
    ensures Next(s1, OfResponder(id, AnswerReport(x, r)), s2) && Next(s2, OfResponder(id, EndAnswered), s3) ==>
      RH.AnsweredAs(s.table, s.flat, s.responders[id].number, s.clock, r.Failed?, s3.table, s3.flat)
  {
    RH.TakenThenForgotten(s.table, s.responders[id].number, s.clock);
  }

  /** And the goroutine of a request that failed. */
  lemma AGiveUpAloneIsTheMethod(s: State, x: Id, s1: State, y: Id, r: SendResult, s2: State, s3: State)
    requires x in s.txs && Next(s, OfTx(x, GiveUpTake), s1)
    ensures x in s1.txs
    ensures s1.txs[x].phase.Over? ==>
      RH.AnsweredAs(s.table, s.flat, s.txs[x].key.number, s.clock, false, s1.table, s1.flat)
    ensures Next(s1, OfTx(x, GiveUpRefuse(y, r)), s2) && Next(s2, OfTx(x, GiveUpRelease), s3) ==>
      RH.AnsweredAs(s.table, s.flat, s.txs[x].key.number, s.clock, r.Failed?, s3.table, s3.flat)
  {
    RH.TakenThenForgotten(s.table, s.txs[x].key.number, s.clock);
  }
}
