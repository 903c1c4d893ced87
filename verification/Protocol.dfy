/**
 The whole relay as steps: any number of report handlers, SMF messages naming user planes, transaction
 goroutines and response handlers, one read loop and a clock, interleaved at every lock. A critical section is one
 step, except a naming, which holds upfAddrMutex across several: a claim takes only the other lock and can land
 between the moment an address is dropped and the moment its relays are.
 */
module Protocol {
  import opened Basics
  import opened RelaySpec
  import opened AuthSpec
  import opened TransactionSpec
  import opened RelayToken
  import RelayRuns

  type Id = nat

  // -- Report handlers -------------------------------------------------------------------------------

  /** Where a handler stands in its retry loop: about to send, to renumber, to refuse, or to end its claim. */
  datatype Stage = Send | Renumbering | Refuse | Release

  /** HandlePfcpSessionReportRequest. `claim` names the claim for the argument only. */
  datatype Handler =
    | Arrived(peer: Peer, upfSeq: nat)
    | Quoting(peer: Peer, upfSeq: nat, token: Token)
    | Admitted(peer: Peer, upfSeq: nat, token: Token)
    | Claiming(peer: Peer, upfSeq: nat, token: Token, now: Time)
    | Rejecting(peer: Peer, upfSeq: nat)
    | Relaying(stage: Stage, peer: Peer, upfSeq: nat, number: nat, attempt: nat, claim: nat)
    | Finished

  // -- Transactions ----------------------------------------------------------------------------------

  datatype TxKind = RelayRequest(claim: nat) | PeerRequest | AnswerTx

  /**
   startTxLifeCycle. A running transaction may have the response event in its channel; a relayed request that
   failed goes on, once removed, to its error handler: take, refuse, release.
   */
  datatype TxPhase =
    | Running(posted: bool)
    | Ended(failed: bool)
    | GivingUp
    | Refusing(peer: Peer, upfSeq: nat, claim: nat)
    | Releasing
    | Over

  datatype Tx = Tx(key: Key, kind: TxKind, phase: TxPhase)

  // -- The read loop and what it dispatches ----------------------------------------------------------

  datatype Reader =
    | Idle
    | FoundTx(tx: Id, number: nat, claim: nat)
    | Responding(number: nat, claim: nat)
    | Reporting(peer: Peer, upfSeq: nat)

  /** HandlePfcpSessionReportResponse. */
  datatype Responder =
    | Pending(number: nat, claim: nat)
    | Answering(number: nat, claim: nat, peer: Peer, upfSeq: nat, taken: nat)
    | Forgetting(number: nat, claim: nat)
    | Done

  // -- Namings ---------------------------------------------------------------------------------------

  /** RecordUpfAddr's locals: `from` is the address in the record it read. */
  datatype Job = Job(node: Node, dated: Time, ip: Option<Host>, superseded: bool, from: Option<Host>)

  /** The holder of upfAddrMutex: expiring, releasing one address (its relays, then its ports' transactions), or about to place. */
  datatype Naming =
    | Unlocked
    | Expiring(job: Job)
    | Purging(host: Host, job: Job, left: bool)
    | Hooking(host: Host, job: Job, left: bool)
    | Placing(job: Job)

  // -- History, for the argument only ----------------------------------------------------------------

  /** A claim: the report, and the handler that claimed it. */
  datatype Report = Report(peer: Peer, upfSeq: nat, handler: Id)

  /** Who took an entry to answer it: a request's goroutine giving up, or the handler of a response. */
  datatype Taker = TxTaker(tx: Id) | ResponderTaker(id: Id)

  datatype Who = ByHandler | BySmf | ByGiveUp

  datatype Answer = Answer(claim: nat, peer: Peer, upfSeq: nat, who: Who)

  /**
   Claims are named in the order they are made; claimOf tells whose the entry under a number is, sent which claims
   went out in a request, takers who took which to answer it. A claim is absorbed when its answer has met a response
   transaction, and ended by an event after which nothing need hold its report any more.
   */
  datatype History = History(
    claims: seq<Report>,
    claimOf: map<nat, nat>,
    sent: set<nat>,
    takers: map<nat, Taker>,
    answers: seq<Answer>,
    releases: map<Host, nat>,
    absorbed: set<nat>,
    ended: set<nat>)

  datatype State = State(
    self: Peer,
    clock: Time,
    table: Table,
    auth: Auth,
    naming: Naming,
    flat: map<Key, Id>,
    txs: map<Id, Tx>,
    reader: Reader,
    handlers: map<Id, Handler>,
    responders: map<Id, Responder>,
    past: History)

  function Start(self: Peer): State {
    State(self, 0, Empty, Auth(map[], map[]), Unlocked, map[], map[], Idle, map[], map[],
          History([], map[], {}, map[], [], map[], {}, {}))
  }

  function ReleasesOf(s: State, host: Host): nat {
    if host in s.past.releases then s.past.releases[host] else 0
  }

  datatype SendResult = Registered | Duplicate | Failed

  /** Whose step it is, and what they do. */
  datatype Step =
    | OfNaming(naming: NamingStep)
    | OfReader(reading: ReaderStep)
    | OfHandler(id: Id, handling: HandlerStep)
    | OfTx(tx: Id, ending: TxStep)
    | OfResponder(id: Id, responding: ResponderStep)

  datatype NamingStep =
    | Tick(to: Time)
    | BeginNaming(node: Node, dated: Time, ip: Option<Host>)
    | ExpireNode(node: Node)
    | EndExpiry
    | PurgeRelays
    | DropConsumerAt(consumer: Peer)
    | EndRelease
    | Place

  datatype ReaderStep =
    | ReadReport(peer: Peer, upfSeq: nat)
    | ReadResponse(number: nat)
    | PostResponse
    | DispatchReport(id: Id)
    | DispatchResponse(id: Id)

  datatype HandlerStep =
    | ReadGeneration
    | CheckKnown
    | FindSmf(known: bool)
    | ClaimReport(claimed: ClaimResult)
    | SendReport(spare: Id, sent: SendResult)
    | RenumberClaim(renumbered: RenumberResult)
    | RefuseReport(spare: Id, sent: SendResult)
    | EndClaim
    | RejectReport(spare: Id, sent: SendResult)

  datatype TxStep =
    | SendPeerRequest(number: nat)
    | EndTx(failed: bool)
    | RemoveTx
    | GiveUpTake
    | GiveUpRefuse(spare: Id, sent: SendResult)
    | GiveUpRelease

  datatype ResponderStep =
    | TakeForResponse
    | AnswerReport(spare: Id, sent: SendResult)
    | EndAnswered

  // -- Sending ---------------------------------------------------------------------------------------

  /** SendPfcp: it fails before registering, or the key is taken, or the transaction is registered and runs. */
  predicate Sends(s: State, key: Key, tx: Id, r: SendResult) {
    && tx !in s.txs
    && (r.Duplicate? ==> key in s.flat)
    && (r.Registered? ==> key !in s.flat)
  }

  function AfterSend(s: State, key: Key, kind: TxKind, tx: Id, r: SendResult): State {
    if r.Registered? then s.(flat := s.flat[key := tx], txs := s.txs[tx := Tx(key, kind, Running(false))]) else s
  }

  /** An answer to a claim goes out toward a peer under its own number. */
  function AfterAnswer(s: State, a: Answer, tx: Id, r: SendResult): State {
    var sent := AfterSend(s, Key(a.peer, a.upfSeq), AnswerTx, tx, r);
    sent.(past := AnswerHistory(s.past, a, r))
  }

  function AnswerHistory(p: History, a: Answer, r: SendResult): History {
    p.(answers := p.answers + [a],
       absorbed := if r.Failed? then p.absorbed else p.absorbed + {a.claim},
       ended := if r.Failed? then p.ended + {a.claim} else p.ended)
  }

  // -- The relay table's operations, with their history ----------------------------------------------

  /** Whose the entry under a number is; every entry is somebody's. */
  function ClaimAt(p: History, n: nat): nat {
    if n in p.claimOf then p.claimOf[n] else 0
  }

  /** The claims whose entries are not among those kept, and whose answers have met no transaction that still stands for them. */
  function Dropped(p: History, kept: map<nat, Relay>): set<nat> {
    set n | n in p.claimOf && n !in kept && p.claimOf[n] !in p.absorbed :: p.claimOf[n]
  }

  function Keeping(p: History, kept: map<nat, Relay>): History {
    p.(claimOf := map n | n in p.claimOf && n in kept :: p.claimOf[n], ended := p.ended + Dropped(p, kept))
  }

  function AfterTaking(s: State, n: nat, who: Taker): History {
    if Taken(s.table, n, s.clock).Some? then s.past.(takers := s.past.takers[ClaimAt(s.past, n) := who]) else s.past
  }

  function AfterForget(s: State, n: nat): State {
    s.(table := Forget(s.table, n), past := s.past.(claimOf := s.past.claimOf - {n}))
  }

  /** What is left to choose a number among: a claim that passes the release check sweeps first. */
  function KeptByClaim(t: Table, host: Host, now: Time, quoted: nat): Table {
    if Count(t, host) == quoted then Sweep(t, now) else t
  }

  // -- The steps -------------------------------------------------------------------------------------

  function WithHandler(s: State, id: Id, h: Handler): State {
    s.(handlers := s.handlers[id := h])
  }

  function WithTx(s: State, x: Id, phase: TxPhase): State
    requires x in s.txs
  {
    s.(txs := s.txs[x := s.txs[x].(phase := phase)])
  }

  function WithResponder(s: State, id: Id, r: Responder): State {
    s.(responders := s.responders[id := r])
  }

  ghost predicate Next(s: State, step: Step, s': State) {
    match step
    case OfNaming(n) => NamingNext(s, n, s')
    case OfReader(r) => ReaderNext(s, r, s')
    case OfHandler(id, h) => id in s.handlers && HandlerNext(s, id, s.handlers[id], h, s')
    case OfTx(x, t) => TxNext(s, x, t, s')
    case OfResponder(id, r) => id in s.responders && ResponderNext(s, id, s.responders[id], r, s')
  }

  // Namings. The record is dated before anything expires; resolution happened before the lock.

  ghost predicate NamingNext(s: State, step: NamingStep, s': State) {
    match step
    case Tick(to) => s.clock <= to && s' == s.(clock := to)
    case BeginNaming(node, dated, ip) => BeginNamingStep(s, node, dated, ip, s')
    case ExpireNode(node) => ExpireNodeStep(s, node, s')
    case EndExpiry => EndExpiryStep(s, s')
    case PurgeRelays => PurgeRelaysStep(s, s')
    case DropConsumerAt(consumer) => DropConsumerStep(s, consumer, s')
    case EndRelease => EndReleaseStep(s, s')
    case Place => PlaceStep(s, s')
  }

  ghost predicate BeginNamingStep(s: State, node: Node, dated: Time, ip: Option<Host>, s': State) {
    && s.naming.Unlocked? && dated <= s.clock
    && s' == s.(auth := s.auth.(nodes := Named(s.auth.nodes, node, dated)),
                naming := Expiring(Job(node, dated, ip, Superseded(s.auth.nodes, node, dated), RecordOf(s.auth.nodes, node).addr)))
  }

  /** forgetUpfAddrLocked's own half: the address is dropped, and if it was the last identity a release begins. */
  function LeaveAddress(s: State, node: Node, addr: Host, job: Job, left: bool): State {
    s.(auth := s.auth.(addrs := Vacate(s.auth.addrs, node, addr)),
       naming := if AuthSpec.Releases(s.auth.addrs, node, addr) then Purging(addr, job, left)
                 else if left then Placing(job) else Expiring(job))
  }

  ghost predicate ExpireNodeStep(s: State, node: Node, s': State) {
    && s.naming.Expiring? && node in s.auth.nodes && !Recent(s.auth.nodes[node], s.naming.job.dated)
    && var record := s.auth.nodes[node];
       var without := s.(auth := s.auth.(nodes := s.auth.nodes - {node}));
       s' == if record.addr.Some? then LeaveAddress(without, node, record.addr.value, s.naming.job, false) else without
  }

  ghost predicate EndExpiryStep(s: State, s': State) {
    && s.naming.Expiring?
    && (forall n :: n in s.auth.nodes ==> Recent(s.auth.nodes[n], s.naming.job.dated))
    && var job := s.naming.job;
       s' == if job.ip.None? || job.superseded then s.(naming := Unlocked)
             else if job.from.Some? && job.from != job.ip then LeaveAddress(s, job.node, job.from.value, job, true)
             else s.(naming := Placing(job))
  }

  ghost predicate PurgeRelaysStep(s: State, s': State) {
    && s.naming.Purging?
    && var host := s.naming.host;
       var t := ForgetHost(s.table, host, s.clock);
       s' == s.(table := t,
                naming := Hooking(host, s.naming.job, s.naming.left),
                past := Keeping(s.past, t.relays).(releases := s.past.releases[host := ReleasesOf(s, host) + 1]))
  }

  /** The walk over the host's ports, one at a time. In the adapter no transaction is registered meanwhile; here one may be. */
  ghost predicate DropConsumerStep(s: State, consumer: Peer, s': State) {
    && s.naming.Hooking? && consumer.host == s.naming.host
    && s' == s.(flat := DropConsumer(s.flat, consumer), past := s.past.(ended := s.past.ended + AbsorbedAt(s.past, consumer)))
  }

  ghost predicate EndReleaseStep(s: State, s': State) {
    && s.naming.Hooking? && (forall k :: k in s.flat ==> k.consumer.host != s.naming.host)
    && s' == s.(naming := if s.naming.left then Placing(s.naming.job) else Expiring(s.naming.job))
  }

  function AbsorbedAt(p: History, consumer: Peer): set<nat> {
    set c | c in p.absorbed && c < |p.claims| && p.claims[c].peer == consumer
  }

  ghost predicate PlaceStep(s: State, s': State) {
    && s.naming.Placing? && s.naming.job.ip.Some?
    && var job := s.naming.job;
       s' == s.(auth := Auth(Occupy(s.auth.addrs, job.node, job.ip.value), s.auth.nodes[job.node := NodeRecord(job.dated, job.ip)]),
                naming := Unlocked)
  }

  // The read loop.

  ghost predicate ReaderNext(s: State, step: ReaderStep, s': State) {
    match step
    case ReadReport(peer, upfSeq) =>
      s.reader.Idle? && peer != s.self && Key(peer, upfSeq) !in s.flat
      && s' == s.(reader := Reporting(peer, upfSeq))
    case ReadResponse(n) => ReadResponseStep(s, n, s')
    case PostResponse => PostResponseStep(s, s')
    case DispatchReport(id) =>
      s.reader.Reporting? && id !in s.handlers
      && s' == WithHandler(s, id, Arrived(s.reader.peer, s.reader.upfSeq)).(reader := Idle)
    case DispatchResponse(id) =>
      s.reader.Responding? && id !in s.responders
      && s' == WithResponder(s, id, Pending(s.reader.number, s.reader.claim)).(reader := Idle)
  }

  ghost predicate ReadResponseStep(s: State, n: nat, s': State) {
    && s.reader.Idle? && Key(s.self, n) in s.flat
    && var x := s.flat[Key(s.self, n)];
       x in s.txs && s.txs[x].kind.RelayRequest?
       && s' == s.(reader := FoundTx(x, n, s.txs[x].kind.claim))
  }

  ghost predicate PostResponseStep(s: State, s': State) {
    && s.reader.FoundTx?
    && var x := s.reader.tx;
       var posted := if x in s.txs && s.txs[x].phase.Running? then WithTx(s, x, Running(true)) else s;
       s' == posted.(reader := Responding(s.reader.number, s.reader.claim))
  }

  // The report handler.

  predicate IsAt(h: Handler, stage: Stage) {
    h.Relaying? && h.stage == stage
  }

  ghost predicate HandlerNext(s: State, id: Id, h: Handler, step: HandlerStep, s': State) {
    if step.ReadGeneration? || step.CheckKnown? || step.FindSmf? then GateNext(s, id, h, step, s')
    else if step.ClaimReport? then h.Claiming? && ClaimReportStep(s, id, h, step.claimed, s')
    else RelayNext(s, id, h, step, s')
  }

  /** Up to the claim: the count, the source check, the SMF's address and the clock. */
  ghost predicate GateNext(s: State, id: Id, h: Handler, step: HandlerStep, s': State) {
    match step
    case ReadGeneration =>
      h.Arrived?
      && s' == WithHandler(s, id, Quoting(h.peer, h.upfSeq, ReadToken(s.table, h.peer.host, ReleasesOf(s, h.peer.host), s.clock)))
    case CheckKnown =>
      h.Quoting? && s.naming.Unlocked?
      && s' == WithHandler(s, id, if Known(s.auth, h.peer.host, s.clock) then Admitted(h.peer, h.upfSeq, h.token) else Finished)
    case FindSmf(known) =>
      h.Admitted?
      && s' == WithHandler(s, id, if known then Claiming(h.peer, h.upfSeq, h.token, s.clock) else Rejecting(h.peer, h.upfSeq))
    case _ => false
  }

  /** From the claim on: the retry loop, and the refusals. */
  ghost predicate RelayNext(s: State, id: Id, h: Handler, step: HandlerStep, s': State) {
    match step
    case SendReport(x, r) =>
      IsAt(h, Send) && Sends(s, Key(s.self, h.number), x, r)
      && s' == WithHandler(AfterSend(s, Key(s.self, h.number), RelayRequest(h.claim), x, r), id, AfterRelaySend(h, r)).(
                 past := if r.Registered? then s.past.(sent := s.past.sent + {h.claim}) else s.past)
    case RenumberClaim(r) =>
      IsAt(h, Renumbering) && RenumberClaimStep(s, id, h, r, s')
    case RefuseReport(x, r) =>
      IsAt(h, Refuse) && Sends(s, Key(h.peer, h.upfSeq), x, r)
      && s' == WithHandler(AfterAnswer(s, Answer(h.claim, h.peer, h.upfSeq, ByHandler), x, r), id, h.(stage := Release))
    case EndClaim =>
      IsAt(h, Release) && s' == WithHandler(AfterForget(s, h.number), id, Finished)
    case RejectReport(x, r) =>
      h.Rejecting? && Sends(s, Key(h.peer, h.upfSeq), x, r)
      && s' == WithHandler(AfterSend(s, Key(h.peer, h.upfSeq), AnswerTx, x, r), id, Finished)
    case _ => false
  }

  ghost predicate ClaimReportStep(s: State, id: Id, h: Handler, r: ClaimResult, s': State)
    requires h.Claiming?
  {
    var p := Keeping(s.past, KeptByClaim(s.table, h.peer.host, h.now, h.token.count).relays);
    && Claim(s.table, h.peer, h.upfSeq, h.now, h.token.count, r, s'.table)
    && s' == match r {
         case Fresh(n) =>
           WithHandler(s, id, Relaying(Send, h.peer, h.upfSeq, n, 0, |s.past.claims|)).(
             table := s'.table,
             past := p.(claims := p.claims + [Report(h.peer, h.upfSeq, id)], claimOf := p.claimOf[n := |p.claims|]))
         case Exhausted =>
           WithHandler(s, id, Rejecting(h.peer, h.upfSeq)).(table := s'.table, past := p)
         case _ =>
           WithHandler(s, id, Finished).(table := s'.table, past := p)
       }
  }

  /** A relay that went out is its transaction's; one refused for its number tries another; any other failure is refused. */
  function AfterRelaySend(h: Handler, r: SendResult): Handler
    requires h.Relaying?
  {
    match r
    case Registered => Finished
    case Duplicate => h.(stage := Renumbering)
    case Failed => h.(stage := Refuse)
  }

  ghost predicate RenumberClaimStep(s: State, id: Id, h: Handler, r: RenumberResult, s': State)
    requires h.Relaying?
  {
    && Renumber(s.table, h.number, r, s'.table)
    && s' == match r {
         case NotHeld => WithHandler(s, id, Finished)
         case NoNumber => WithHandler(s, id, h.(stage := Refuse))
         case Renumbered(m) =>
           WithHandler(s, id, h.(number := m, attempt := h.attempt + 1,
                                 stage := if h.attempt + 1 < RELAY_SEND_ATTEMPTS then Send else Refuse)).(
             table := s'.table,
             past := s.past.(claimOf := Moved(s.past.claimOf, h.number, m)))
       }
  }

  function Moved(claimOf: map<nat, nat>, n: nat, m: nat): map<nat, nat> {
    if n in claimOf then (claimOf - {n})[m := claimOf[n]] else claimOf
  }

  // The transaction's goroutine, and its error handler when a relayed request went unanswered.

  ghost predicate TxNext(s: State, x: Id, step: TxStep, s': State) {
    match step
    case SendPeerRequest(n) =>
      Sends(s, Key(s.self, n), x, Registered) && s' == AfterSend(s, Key(s.self, n), PeerRequest, x, Registered)
    case EndTx(failed) =>
      x in s.txs && s.txs[x].phase.Running?
      && (s.txs[x].kind.RelayRequest? && !failed ==> s.txs[x].phase.posted)
      && s' == WithTx(s, x, Ended(failed))
    case RemoveTx =>
      x in s.txs && s.txs[x].phase.Ended? && RemoveTxStep(s, x, s.txs[x], s')
    case GiveUpTake =>
      x in s.txs && s.txs[x].phase.GivingUp?
      && var n := s.txs[x].key.number;
         s' == WithTx(s, x, AfterGiveUpTake(Taken(s.table, n, s.clock), ClaimAt(s.past, n))).(
                 table := Take(s.table, n, s.clock), past := AfterTaking(s, n, TxTaker(x)))
    case GiveUpRefuse(y, r) =>
      x in s.txs && s.txs[x].phase.Refusing?
      && var p := s.txs[x].phase;
         Sends(s, Key(p.peer, p.upfSeq), y, r)
         && s' == WithTx(AfterAnswer(s, Answer(p.claim, p.peer, p.upfSeq, ByGiveUp), y, r), x, Releasing)
    case GiveUpRelease =>
      x in s.txs && s.txs[x].phase.Releasing?
      && s' == WithTx(AfterForget(s, s.txs[x].key.number), x, Over)
  }

  /** Only what was taken is refused, and toward where it came from. */
  function AfterGiveUpTake(taken: Option<Relay>, claim: nat): TxPhase {
    match taken
    case Some(r) => Refusing(r.peer, r.upfSeq, claim)
    case None => Over
  }

  ghost predicate RemoveTxStep(s: State, x: Id, tx: Tx, s': State)
    requires x in s.txs && tx.phase.Ended?
  {
    var found := tx.key in s.flat && s.flat[tx.key] == x;
    s' == WithTx(s, x, if tx.kind.RelayRequest? && tx.phase.failed then GivingUp else Over).(
            flat := RemoveIf(s.flat, tx.key, x),
            past := if found && tx.kind.AnswerTx? then s.past.(ended := s.past.ended + AbsorbedUnder(s.past, tx.key)) else s.past)
  }

  function AbsorbedUnder(p: History, key: Key): set<nat> {
    set c | c in p.absorbed && c < |p.claims| && Key(p.claims[c].peer, p.claims[c].upfSeq) == key
  }

  // The response handler.

  function AfterTake(a: Responder, taken: Option<Relay>, claim: nat): Responder
    requires a.Pending?
  {
    match taken
    case Some(r) => Answering(a.number, a.claim, r.peer, r.upfSeq, claim)
    case None => Done
  }

  ghost predicate ResponderNext(s: State, id: Id, a: Responder, step: ResponderStep, s': State) {
    match step
    case TakeForResponse =>
      a.Pending?
      && s' == WithResponder(s, id, AfterTake(a, Taken(s.table, a.number, s.clock), ClaimAt(s.past, a.number))).(
                 table := Take(s.table, a.number, s.clock), past := AfterTaking(s, a.number, ResponderTaker(id)))
    case AnswerReport(x, r) =>
      a.Answering? && Sends(s, Key(a.peer, a.upfSeq), x, r)
      && s' == WithResponder(AfterAnswer(s, Answer(a.taken, a.peer, a.upfSeq, BySmf), x, r), id, Forgetting(a.number, a.claim))
    case EndAnswered =>
      a.Forgetting? && s' == WithResponder(AfterForget(s, a.number), id, Done)
  }

  // -- Runs ------------------------------------------------------------------------------------------

  datatype Run = Run(states: seq<State>, steps: seq<Step>)

  ghost predicate IsStep(r: Run, i: nat) {
    i < |r.steps| && i + 1 < |r.states| && Next(r.states[i], r.steps[i], r.states[i + 1])
  }

  ghost predicate IsRun(r: Run) {
    && |r.states| == |r.steps| + 1
    && r.states[0] == Start(r.states[0].self)
    && forall i: nat :: i < |r.steps| ==> IsStep(r, i)
  }

  // -- Every step is one of the relay table's own ----------------------------------------------------

  /** The table operation a step performs, if it performs one. */
  function TableOp(s: State, step: Step): Option<RelayRuns.Op> {
    match step
    case OfNaming(PurgeRelays) =>
      if s.naming.Purging? then Some(RelayRuns.DoForgetHost(s.naming.host, s.clock)) else None
    case OfHandler(id, h) =>
      if id in s.handlers then HandlerOp(s.handlers[id], h) else None
    case OfTx(x, GiveUpTake) => if x in s.txs then Some(RelayRuns.DoTake(s.txs[x].key.number, s.clock)) else None
    case OfTx(x, GiveUpRelease) => if x in s.txs then Some(RelayRuns.DoForget(s.txs[x].key.number)) else None
    case OfResponder(id, r) =>
      if id in s.responders && !s.responders[id].Done? then ResponderOp(s.responders[id], r, s.clock) else None
    case _ => None
  }

  function HandlerOp(h: Handler, step: HandlerStep): Option<RelayRuns.Op> {
    match step
    case ClaimReport(r) => if h.Claiming? then Some(RelayRuns.DoClaim(h.peer, h.upfSeq, h.now, h.token.count, r)) else None
    case RenumberClaim(r) => if h.Relaying? then Some(RelayRuns.DoRenumber(h.number, r)) else None
    case EndClaim => if h.Relaying? then Some(RelayRuns.DoForget(h.number)) else None
    case _ => None
  }

  function ResponderOp(a: Responder, step: ResponderStep, clock: Time): Option<RelayRuns.Op>
    requires !a.Done?
  {
    match step
    case TakeForResponse => Some(RelayRuns.DoTake(a.number, clock))
    case EndAnswered => Some(RelayRuns.DoForget(a.number))
    case AnswerReport(_, _) => None
  }

  ghost predicate ActsOnTable(t: Table, op: Option<RelayRuns.Op>, t': Table) {
    match op
    case None => t' == t
    case Some(o) => RelayRuns.Next(t, o, t')
  }

  lemma HandlersActOnTheTable(s: State, id: Id, h: Handler, step: HandlerStep, s': State)
    requires HandlerNext(s, id, h, step, s')
    ensures ActsOnTable(s.table, HandlerOp(h, step), s'.table)
  {
  }

  lemma TransactionsActOnTheTable(s: State, x: Id, step: TxStep, s': State)
    requires TxNext(s, x, step, s')
    ensures ActsOnTable(s.table, TableOp(s, OfTx(x, step)), s'.table)
  {
  }

  lemma NamingsActOnTheTable(s: State, step: NamingStep, s': State)
    requires NamingNext(s, step, s')
    ensures ActsOnTable(s.table, TableOp(s, OfNaming(step)), s'.table)
  {
  }

  /** So what every run of the relay table keeps, every run of the protocol keeps. */
  lemma StepsActOnTheTable(s: State, step: Step, s': State)
    requires Next(s, step, s')
    ensures ActsOnTable(s.table, TableOp(s, step), s'.table)
  {
    match step {
      case OfNaming(n) => NamingsActOnTheTable(s, n, s');
      case OfReader(_) =>
      case OfHandler(id, h) => HandlersActOnTheTable(s, id, s.handlers[id], h, s');
      case OfTx(x, t) => TransactionsActOnTheTable(s, x, t, s');
      case OfResponder(id, r) =>
    }
  }

  // -- What a step leaves alone ----------------------------------------------------------------------

  ghost predicate OnlyMovesHandler(s: State, id: Id, s': State) {
    && id in s'.handlers && s'.handlers == s.handlers[id := s'.handlers[id]]
    && s'.self == s.self && s'.clock == s.clock && s'.auth == s.auth && s'.naming == s.naming
    && s'.past.releases == s.past.releases
    && (s'.handlers[id].Claiming? ==> s'.handlers[id].now == s.clock)
  }

  lemma RelayLeavesAlone(s: State, id: Id, h: Handler, step: HandlerStep, s': State)
    requires RelayNext(s, id, h, step, s')
    ensures OnlyMovesHandler(s, id, s')
    ensures s'.handlers[id].Relaying? || s'.handlers[id].Finished?
  {
  }

  lemma ClaimLeavesAlone(s: State, id: Id, h: Handler, r: ClaimResult, s': State)
    requires h.Claiming? && ClaimReportStep(s, id, h, r, s')
    ensures OnlyMovesHandler(s, id, s')
    ensures s'.handlers[id].Relaying? || s'.handlers[id].Finished? || s'.handlers[id].Rejecting?
  {
  }

  lemma GateLeavesAlone(s: State, id: Id, h: Handler, step: HandlerStep, s': State)
    requires GateNext(s, id, h, step, s')
    ensures OnlyMovesHandler(s, id, s')
  {
  }

  lemma HandlersLeaveAlone(s: State, id: Id, h: Handler, step: HandlerStep, s': State)
    requires HandlerNext(s, id, h, step, s')
    ensures OnlyMovesHandler(s, id, s')
  {
    if step.ReadGeneration? || step.CheckKnown? || step.FindSmf? {
      GateLeavesAlone(s, id, h, step, s');
    } else if step.ClaimReport? {
      ClaimLeavesAlone(s, id, h, step.claimed, s');
    } else {
      RelayLeavesAlone(s, id, h, step, s');
    }
  }

  lemma ReaderLeavesAlone(s: State, step: ReaderStep, s': State)
    requires ReaderNext(s, step, s')
    ensures if step.DispatchReport?
            then step.id !in s.handlers && s.reader.Reporting?
                 && s'.handlers == s.handlers[step.id := Arrived(s.reader.peer, s.reader.upfSeq)]
            else s'.handlers == s.handlers
    ensures s'.self == s.self && s'.clock == s.clock && s'.auth == s.auth && s'.naming == s.naming && s'.past == s.past
  {
  }

  lemma TransactionsLeaveAlone(s: State, x: Id, step: TxStep, s': State)
    requires TxNext(s, x, step, s')
    ensures s'.handlers == s.handlers
    ensures s'.self == s.self && s'.clock == s.clock && s'.auth == s.auth && s'.naming == s.naming
    ensures s'.past.releases == s.past.releases
  {
  }

  lemma RespondersLeaveAlone(s: State, id: Id, a: Responder, step: ResponderStep, s': State)
    requires ResponderNext(s, id, a, step, s')
    ensures s'.handlers == s.handlers
    ensures s'.self == s.self && s'.clock == s.clock && s'.auth == s.auth && s'.naming == s.naming
    ensures s'.past.releases == s.past.releases
  {
  }

  ghost predicate OnlyAuthorisationMoves(s: State, s': State) {
    s' == s.(clock := s'.clock, auth := s'.auth, naming := s'.naming)
  }

  lemma ExpiriesLeaveRest(s: State, node: Node, s': State)
    requires ExpireNodeStep(s, node, s')
    ensures OnlyAuthorisationMoves(s, s') && s'.clock == s.clock
  {
  }

  lemma EndsOfExpiryLeaveRest(s: State, s': State)
    requires EndExpiryStep(s, s')
    ensures OnlyAuthorisationMoves(s, s') && s'.clock == s.clock
  {
  }

  /** Only a release reaches beyond the authorisation maps. */
  lemma QuietNamingsLeaveRest(s: State, step: NamingStep, s': State)
    requires NamingNext(s, step, s') && !step.PurgeRelays? && !step.DropConsumerAt?
    ensures OnlyAuthorisationMoves(s, s') && s.clock <= s'.clock
  {
    match step {
      case Tick(_) =>
      case BeginNaming(_, _, _) =>
      case ExpireNode(node) => ExpiriesLeaveRest(s, node, s');
      case EndExpiry => EndsOfExpiryLeaveRest(s, s');
      case EndRelease =>
      case Place =>
    }
  }

  lemma NamingsLeaveAlone(s: State, step: NamingStep, s': State)
    requires NamingNext(s, step, s')
    ensures s'.handlers == s.handlers && s'.self == s.self && s.clock <= s'.clock
  {
  }

  /** A step moves its own handler only, or starts one; and only a naming's step moves the clock or authorisation. */
  lemma StepsLeaveAlone(s: State, step: Step, s': State)
    requires Next(s, step, s')
    ensures match step
            case OfHandler(id, _) => OnlyMovesHandler(s, id, s')
            case OfReader(DispatchReport(id)) =>
              id !in s.handlers && s.reader.Reporting? && s'.handlers == s.handlers[id := Arrived(s.reader.peer, s.reader.upfSeq)]
            case _ => s'.handlers == s.handlers
    ensures s'.self == s.self && s.clock <= s'.clock
    ensures !step.OfNaming? ==> s'.clock == s.clock && s'.auth == s.auth && s'.naming == s.naming
                                && s'.past.releases == s.past.releases
  {
    match step {
      case OfNaming(n) => NamingsLeaveAlone(s, n, s');
      case OfReader(r) => ReaderLeavesAlone(s, r, s');
      case OfHandler(id, h) => HandlersLeaveAlone(s, id, s.handlers[id], h, s');
      case OfTx(x, t) => TransactionsLeaveAlone(s, x, t, s');
      case OfResponder(id, r) => RespondersLeaveAlone(s, id, s.responders[id], r, s');
    }
  }

  /** Readings handlers took of the clock are not ahead of it. */
  ghost predicate ReadingsPast(s: State) {
    forall id :: id in s.handlers && s.handlers[id].Claiming? ==> s.handlers[id].now <= s.clock
  }

  lemma StepsKeepReadingsPast(s: State, step: Step, s': State)
    requires Next(s, step, s') && ReadingsPast(s)
    ensures ReadingsPast(s')
  {
    StepsLeaveAlone(s, step, s');
  }

  lemma StepsAreDated(s: State, step: Step)
    requires ReadingsPast(s) && TableOp(s, step).Some?
    ensures Dated(TableOp(s, step).value, s.clock)
  {
  }
}
