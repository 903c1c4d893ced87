/**
 How soon a relay number can come back while something still holds it. The protocol's runs are runs of the relay
 table, so the allocator's reuse bound holds of them; a run in which no number is held for as long as it takes the
 search to go round the range is one in which no number is handed out while held.
 */
module ProtocolReuse {
  import opened Basics
  import opened RelaySpec
  import opened Protocol
  import opened ProtocolAnswers
  import opened ProtocolAnswerSteps
  import ProtocolOwnership
  import ProtocolTables
  import RelayRuns

  // -- The protocol's runs, seen from the relay table ------------------------------------------------

  /** Zero is no relay number, so forgetting it does nothing. */
  function OpOf(s: State, step: Step): RelayRuns.Op {
    match TableOp(s, step)
    case Some(op) => op
    case None => RelayRuns.DoForget(0)
  }

  ghost function TableRun(r: Run): RelayRuns.Run
    requires |r.states| == |r.steps| + 1
  {
    RelayRuns.Run(
      seq(|r.states|, i requires 0 <= i < |r.states| => r.states[i].table),
      seq(|r.steps|, i requires 0 <= i < |r.steps| => OpOf(r.states[i], r.steps[i])))
  }

  lemma TableRunIsARun(r: Run)
    requires IsRun(r)
    ensures RelayRuns.IsRun(TableRun(r))
  {
    forall i: nat | i < |r.steps| ensures RelayRuns.IsStep(TableRun(r), i) {
      assert IsStep(r, i);
      ProtocolTables.RelaysStaySound(r, i);
      StepsActOnTheTable(r.states[i], r.steps[i], r.states[i + 1]);
    }
  }

  // -- A number that is held was handed out ----------------------------------------------------------

  /** The number a step hands out. */
  function HandsOut(s: State, step: Step): Option<nat> {
    RelayRuns.HandedOut(OpOf(s, step))
  }

  /** Whose numbers: every handler's, every relayed request's, the read loop's and every response handler's. */
  ghost predicate HandlersAmong(s: State, given: set<nat>) {
    forall id :: id in s.handlers && s.handlers[id].Relaying? ==> s.handlers[id].number in given
  }

  ghost predicate RestAmong(s: State, given: set<nat>) {
    && (forall x :: x in s.txs && s.txs[x].kind.RelayRequest? ==> s.txs[x].key.number in given)
    && (s.reader.FoundTx? || s.reader.Responding? ==> s.reader.number in given)
    && (forall id :: id in s.responders && !s.responders[id].Done? ==> s.responders[id].number in given)
  }

  function Given(given: set<nat>, n: Option<nat>): set<nat> {
    if n.Some? then given + {n.value} else given
  }

  lemma RelaysKeepAmong(s: State, id: Id, h: Handler, step: HandlerStep, s': State, given: set<nat>)
    requires id in s.handlers && h == s.handlers[id] && RelayNext(s, id, h, step, s')
    requires HandlersAmong(s, given) && RestAmong(s, given)
    ensures var after := Given(given, HandsOut(s, OfHandler(id, step))); HandlersAmong(s', after) && RestAmong(s', after)
  {
    ProtocolOwnership.RelaysLeaveRest(s, id, h, step, s');
    ProtocolOwnership.RelaysSend(s, id, h, step, s');
  }

  lemma ClaimsKeepAmong(s: State, id: Id, h: Handler, r: ClaimResult, s': State, given: set<nat>)
    requires id in s.handlers && h == s.handlers[id] && h.Claiming? && ClaimReportStep(s, id, h, r, s')
    requires HandlersAmong(s, given) && RestAmong(s, given)
    ensures var after := Given(given, HandsOut(s, OfHandler(id, ClaimReport(r)))); HandlersAmong(s', after) && RestAmong(s', after)
  {
    ProtocolOwnership.ClaimsLeaveRest(s, id, h, r, s');
  }

  lemma HandlersKeepAmong(s: State, id: Id, step: HandlerStep, s': State, given: set<nat>)
    requires id in s.handlers && HandlerNext(s, id, s.handlers[id], step, s')
    requires HandlersAmong(s, given) && RestAmong(s, given)
    ensures var after := Given(given, HandsOut(s, OfHandler(id, step))); HandlersAmong(s', after) && RestAmong(s', after)
  {
    var h := s.handlers[id];
    if step.ReadGeneration? || step.CheckKnown? || step.FindSmf? {
      ProtocolOwnership.GatesLeaveRest(s, id, h, step, s');
    } else if step.ClaimReport? {
      ClaimsKeepAmong(s, id, h, step.claimed, s', given);
    } else {
      RelaysKeepAmong(s, id, h, step, s', given);
    }
  }

  lemma ReaderKeepsAmong(s: State, step: ReaderStep, s': State, given: set<nat>)
    requires ReaderNext(s, step, s') && ProtocolOwnership.FlatMatched(s)
    requires HandlersAmong(s, given) && RestAmong(s, given)
    ensures HandlersAmong(s', given) && RestAmong(s', given)
  {
  }

  lemma TransactionsKeepAmong(s: State, x: Id, step: TxStep, s': State, given: set<nat>)
    requires TxNext(s, x, step, s')
    requires HandlersAmong(s, given) && RestAmong(s, given)
    ensures HandlersAmong(s', given) && RestAmong(s', given)
  {
    ProtocolOwnership.TransactionsSend(s, x, step, s');
    if step.GiveUpRefuse? {
      ProtocolOwnership.RefusalSends(s, x, step, s');
    }
  }

  lemma RespondersKeepAmong(s: State, id: Id, step: ResponderStep, s': State, given: set<nat>)
    requires id in s.responders && ResponderNext(s, id, s.responders[id], step, s')
    requires HandlersAmong(s, given) && RestAmong(s, given)
    ensures HandlersAmong(s', given) && RestAmong(s', given)
  {
    ProtocolOwnership.RespondersSend(s, id, s.responders[id], step, s');
  }

  lemma StepKeepsAmong(s: State, step: Step, s': State, given: set<nat>)
    requires Next(s, step, s') && ProtocolOwnership.FlatMatched(s)
    requires HandlersAmong(s, given) && RestAmong(s, given)
    ensures var after := Given(given, HandsOut(s, step)); HandlersAmong(s', after) && RestAmong(s', after)
  {
    match step {
      case OfNaming(n) => ProtocolOwnership.NamingsKeepOwners(s, n, s');
      case OfReader(rs) => ReaderKeepsAmong(s, rs, s', given);
      case OfHandler(id, h) => HandlersKeepAmong(s, id, h, s', given);
      case OfTx(x, t) => TransactionsKeepAmong(s, x, t, s', given);
      case OfResponder(id, a) => RespondersKeepAmong(s, id, a, s', given);
    }
  }

  /** The last step before state j that handed the number out. */
  function LastHandOut(r: Run, n: nat, j: nat): (last: Option<nat>)
    requires j <= |r.steps| && |r.states| == |r.steps| + 1
    ensures last.Some? ==> last.value < j && HandsOut(r.states[last.value], r.steps[last.value]) == Some(n)
  {
    if j == 0 then None
    else if HandsOut(r.states[j - 1], r.steps[j - 1]) == Some(n) then Some(j - 1)
    else LastHandOut(r, n, j - 1)
  }

  function HandedOutBefore(r: Run, j: nat): (given: set<nat>)
    requires j <= |r.steps| && |r.states| == |r.steps| + 1
    ensures forall n :: n in given ==> LastHandOut(r, n, j).Some?
  {
    if j == 0 then {} else Given(HandedOutBefore(r, j - 1), HandsOut(r.states[j - 1], r.steps[j - 1]))
  }

  lemma {:induction false} NumbersAreHandedOut(r: Run, j: nat)
    requires IsRun(r) && j < |r.states|
    ensures HandlersAmong(r.states[j], HandedOutBefore(r, j)) && RestAmong(r.states[j], HandedOutBefore(r, j))
  {
    if j > 0 {
      NumbersAreHandedOut(r, j - 1);
      assert IsStep(r, j - 1);
      ProtocolOwnership.NoClaimIsStranded(r, j - 1);
      StepKeepsAmong(r.states[j - 1], r.steps[j - 1], r.states[j], HandedOutBefore(r, j - 1));
    }
  }

  lemma AHeldNumberWasHandedOut(r: Run, j: nat, n: nat)
    requires IsRun(r) && j < |r.states| && !Unheld(r.states[j], n)
    ensures LastHandOut(r, n, j).Some?
  {
    NumbersAreHandedOut(r, j);
  }

  // -- So it is not handed out again soon ------------------------------------------------------------

  /** After step i, up to state j, at most k relays are outstanding. */
  ghost predicate AtMostBetween(r: Run, i: nat, j: nat, k: nat) {
    forall m :: i < m <= j && m < |r.states| ==> |r.states[m].table.relays| <= k
  }

  /** The allocator's bound, in the protocol's runs. */
  lemma ReuseTakesManyHandOuts(r: Run, i: nat, j: nat, n: nat, k: nat)
    requires IsRun(r) && i < j < |r.steps|
    requires AtMostBetween(r, i, j, k)
    requires HandsOut(r.states[i], r.steps[i]) == Some(n) && HandsOut(r.states[j], r.steps[j]) == Some(n)
    ensures RelayRuns.HandOuts(TableRun(r), i + 1, j + 1) * (k + 1) >= RELAY_SEQUENCES
  {
    TableRunIsARun(r);
    RelayRuns.ReuseBound(TableRun(r), i, j, n, k);
  }

  /** With some bound k on the relays outstanding since step i, fewer than N/(k+1) numbers are handed out by step j, it included. */
  ghost predicate HandsOutFew(r: Run, i: nat, j: nat)
    requires j < |r.steps| && |r.states| == |r.steps| + 1 && i <= j
  {
    exists k: nat :: AtMostBetween(r, i, j, k) && RelayRuns.HandOuts(TableRun(r), i + 1, j + 1) * (k + 1) < RELAY_SEQUENCES
  }

  /** Nothing holds on to a number past the hand-outs it takes the search to come round to it. */
  ghost predicate LetsGoInTime(r: Run)
    requires |r.states| == |r.steps| + 1
  {
    forall j: nat, n: nat :: j < |r.steps| && !Unheld(r.states[j], n) && LastHandOut(r, n, j).Some? ==>
      HandsOutFew(r, LastHandOut(r, n, j).value, j)
  }

  lemma NothingHoldsIt(r: Run, j: nat, n: nat)
    requires IsRun(r) && LetsGoInTime(r) && j < |r.steps|
    requires HandsOut(r.states[j], r.steps[j]) == Some(n)
    ensures Unheld(r.states[j], n)
  {
    if !Unheld(r.states[j], n) {
      AHeldNumberWasHandedOut(r, j, n);
      var i := LastHandOut(r, n, j).value;
      assert HandsOutFew(r, i, j);
      var k: nat :| AtMostBetween(r, i, j, k) && RelayRuns.HandOuts(TableRun(r), i + 1, j + 1) * (k + 1) < RELAY_SEQUENCES;
      ReuseTakesManyHandOuts(r, i, j, n, k);
    }
  }

  /** Such a run hands no number out while something holds it. */
  lemma NoNumberComesBackWhileHeld(r: Run)
    requires IsRun(r) && LetsGoInTime(r)
    ensures IsOrderlyRun(r)
  {
    forall j: nat | j < |r.steps| && IsStep(r, j) ensures NotReused(r.states[j], r.steps[j]) {
      match HandsOut(r.states[j], r.steps[j]) {
        case Some(n) => NothingHoldsIt(r, j, n);
        case None =>
      }
    }
  }
}
