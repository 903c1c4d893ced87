/**
 Runs of the relay table: any sequence of its critical sections, in any order and with any arguments, from
 the empty table. What holds over every run is stated here.
 */
module RelayRuns {
  import opened Basics
  import opened Allocator
  import opened RelaySpec

  datatype Op =
    | DoClaim(peer: Peer, upfSeq: nat, now: Time, quoted: nat, claimed: ClaimResult)
    | DoRenumber(number: nat, renumbered: RenumberResult)
    | DoTake(number: nat, now: Time)
    | DoForget(number: nat)
    | DoForgetHost(host: Host, at: Time)

  ghost predicate Next(t: Table, op: Op, t': Table) {
    match op
    case DoClaim(peer, upfSeq, now, quoted, r) => Claim(t, peer, upfSeq, now, quoted, r, t')
    case DoRenumber(n, r) => Renumber(t, n, r, t')
    case DoTake(n, now) => t' == Take(t, n, now)
    case DoForget(n) => t' == Forget(t, n)
    case DoForgetHost(host, at) => t' == ForgetHost(t, host, at)
  }

  datatype Run = Run(states: seq<Table>, ops: seq<Op>)

  ghost predicate IsStep(r: Run, i: nat) {
    i < |r.ops| && i + 1 < |r.states| && Next(r.states[i], r.ops[i], r.states[i + 1])
  }

  ghost predicate IsRun(r: Run) {
    && |r.states| == |r.ops| + 1
    && r.states[0] == Empty
    && forall i: nat :: i < |r.ops| ==> IsStep(r, i)
  }

  // -- Numbers and spacing ---------------------------------------------------------------------------

  lemma StepKeepsSound(t: Table, op: Op, t': Table)
    requires WellNumbered(t) && Spaced(t)
    requires Next(t, op, t')
    ensures WellNumbered(t') && Spaced(t')
  {
    if op.DoClaim? && op.claimed.Fresh? && Count(t, op.peer.host) == op.quoted {
      var s := Sweep(t, op.now);
      assert Spaced(s);
      AFreshClaimKeepsSpacing(s, op.claimed.number, Relay(op.peer, op.upfSeq, op.now, false));
    }
  }

  /**
   In every state of every run the numbers are the adapter's own, and two claims on one report are dated
   more than a lifetime apart, whatever order the callers' clock readings reach the lock in.
   */
  lemma {:induction false} EveryStateIsSound(r: Run, i: nat)
    requires IsRun(r) && i < |r.states|
    ensures WellNumbered(r.states[i]) && Spaced(r.states[i])
  {
    if i > 0 {
      EveryStateIsSound(r, i - 1);
      assert IsStep(r, i - 1);
      StepKeepsSound(r.states[i - 1], r.ops[i - 1], r.states[i]);
    }
  }

  /** At a clock reading no claim is dated after, a report is being relayed under at most one number. */
  lemma AtMostOneLiveClaim(r: Run, i: nat, peer: Peer, upfSeq: nat, now: Time)
    requires IsRun(r) && i < |r.states|
    requires forall n :: n in r.states[i].relays ==> r.states[i].relays[n].recorded <= now
    ensures forall m, n :: m in Matching(r.states[i], peer, upfSeq, now) && n in Matching(r.states[i], peer, upfSeq, now) ==> m == n
  {
    EveryStateIsSound(r, i);
  }

  /** The number a step hands out, if it hands one out. */
  function HandedOut(op: Op): Option<nat> {
    match op
    case DoClaim(_, _, _, _, Fresh(c)) => Some(c)
    case DoRenumber(_, Renumbered(c)) => Some(c)
    case _ => None
  }

  /** The claims a number is chosen among: a claim sweeps first. */
  function ChosenAmong(t: Table, op: Op): Table {
    if op.DoClaim? then Sweep(t, op.now) else t
  }

  /** A hand-out never lands on a claim that is still there, and becomes the cursor. */
  lemma HandOutOverwritesNothing(t: Table, op: Op, t': Table)
    requires Next(t, op, t') && HandedOut(op).Some?
    ensures var c := HandedOut(op).value;
      && IsNextNumber(ChosenAmong(t, op), Some(c))
      && c !in ChosenAmong(t, op).relays && c in t'.relays && t'.cursor == c
      && (op.DoRenumber? ==> c !in t.relays && t'.relays[c] == t.relays[op.number] && op.number !in t'.relays)
  {
  }

  // -- Age -------------------------------------------------------------------------------------------

  /** The readings claims carry never go back. */
  ghost predicate ClaimTimesNeverGoBack(r: Run) {
    forall i, j :: 0 <= i < j < |r.ops| && r.ops[i].DoClaim? && r.ops[j].DoClaim? ==> r.ops[i].now <= r.ops[j].now
  }

  /** Nothing outlived the last sweep, and nothing is dated after `last`. */
  ghost predicate SweptUpTo(t: Table, last: Time) {
    && t.lastSweep <= last
    && forall n :: n in t.relays ==> t.relays[n].recorded <= last && Live(t.relays[n], t.lastSweep)
  }

  lemma StepKeepsSweptUpTo(t: Table, op: Op, t': Table, last: Time)
    requires Next(t, op, t') && SweptUpTo(t, last)
    requires op.DoClaim? ==> last <= op.now
    ensures SweptUpTo(t', if op.DoClaim? then op.now else last)
  {
  }

  function LatestClaim(ops: seq<Op>, i: nat): Time
    requires i <= |ops|
  {
    if i == 0 then 0 else if ops[i - 1].DoClaim? then ops[i - 1].now else LatestClaim(ops, i - 1)
  }

  lemma {:induction false} LatestClaimIsNotAfter(r: Run, i: nat, j: nat)
    requires IsRun(r) && ClaimTimesNeverGoBack(r)
    requires i <= j < |r.ops| && r.ops[j].DoClaim?
    ensures LatestClaim(r.ops, i) <= r.ops[j].now
  {
    if i > 0 && !r.ops[i - 1].DoClaim? {
      LatestClaimIsNotAfter(r, i - 1, j);
    }
  }

  lemma {:induction false} EveryStateIsSweptUpTo(r: Run, i: nat)
    requires IsRun(r) && i < |r.states| && ClaimTimesNeverGoBack(r)
    ensures SweptUpTo(r.states[i], LatestClaim(r.ops, i))
  {
    if i > 0 {
      EveryStateIsSweptUpTo(r, i - 1);
      assert IsStep(r, i - 1);
      if r.ops[i - 1].DoClaim? {
        LatestClaimIsNotAfter(r, i - 1, i - 1);
      }
      StepKeepsSweptUpTo(r.states[i - 1], r.ops[i - 1], r.states[i], LatestClaim(r.ops, i - 1));
    }
  }

  /**
   The throttle costs at most one interval: after a claim that passes the release check, nothing in the table
   is as old as the lifetime and the sweep interval together.
   */
  lemma SweepAgeBound(r: Run, i: nat, n: nat)
    requires IsRun(r) && ClaimTimesNeverGoBack(r)
    requires i < |r.ops| && r.ops[i].DoClaim? && !r.ops[i].claimed.PeerReleased?
    requires n in r.states[i + 1].relays
    ensures r.ops[i].now < r.states[i + 1].relays[n].recorded + 31 * SECOND
  {
    assert IsStep(r, i);
    EveryStateIsSweptUpTo(r, i + 1);
  }

  // -- Reuse -----------------------------------------------------------------------------------------

  /** How far a step moves the search round the range. */
  function Advance(t: Table, op: Op): nat {
    match HandedOut(op)
    case Some(c) =>
      if RELAY_SEQUENCE_FLOOR <= c <= RELAY_SEQUENCE_CEIL
      then Distance(t.cursor, c, RELAY_SEQUENCE_FLOOR, RELAY_SEQUENCE_CEIL)
      else 0
    case None => 0
  }

  /** How far steps i up to j move it in all, and how many of them hand a number out. */
  function Advanced(r: Run, i: nat, j: nat): nat
    requires i <= j <= |r.ops| <= |r.states|
  {
    if i == j then 0 else Advanced(r, i, j - 1) + Advance(r.states[j - 1], r.ops[j - 1])
  }

  function HandOuts(r: Run, i: nat, j: nat): nat
    requires i <= j <= |r.ops|
  {
    if i == j then 0 else HandOuts(r, i, j - 1) + if HandedOut(r.ops[j - 1]).Some? then 1 else 0
  }

  /** Where the cursor stands in the range; before the first hand-out it stands as if at the ceiling. */
  function Position(cursor: nat): nat {
    if RELAY_SEQUENCE_FLOOR <= cursor <= RELAY_SEQUENCE_CEIL then cursor - RELAY_SEQUENCE_FLOOR else RELAY_SEQUENCES - 1
  }

  /** The cursor's position accounts for every advance, up to whole turns. */
  lemma {:induction false} AdvancesAreWholeTurns(r: Run, i: nat, j: nat) returns (turns: nat)
    requires IsRun(r) && i <= j <= |r.ops|
    ensures Advanced(r, i, j) + Position(r.states[i].cursor) == Position(r.states[j].cursor) + RELAY_SEQUENCES * turns
  {
    if i == j {
      turns := 0;
    } else {
      turns := AdvancesAreWholeTurns(r, i, j - 1);
      var t, op, t' := r.states[j - 1], r.ops[j - 1], r.states[j];
      assert IsStep(r, j - 1);
      match HandedOut(op) {
        case Some(c) =>
          HandOutOverwritesNothing(t, op, t');
          if Position(c) <= Position(t.cursor) {
            turns := turns + 1;
          }
        case None =>
          assert t'.cursor == t.cursor;
      }
    }
  }

  lemma AdvanceIsBounded(t: Table, op: Op, t': Table, k: nat)
    requires Next(t, op, t') && |t.relays| <= k
    ensures Advance(t, op) <= if HandedOut(op).Some? then k + 1 else 0
  {
    if HandedOut(op).Some? {
      var among := ChosenAmong(t, op);
      HandOutOverwritesNothing(t, op, t');
      HandOutSkipsOnlyTaken(among.relays.Keys, among.cursor, RELAY_SEQUENCE_FLOOR, RELAY_SEQUENCE_CEIL, HandedOut(op).value);
      SubsetIsNoLarger(among.relays.Keys, t.relays.Keys);
    }
  }

  lemma OneMoreHandOut(handOuts: nat, k: nat)
    ensures (handOuts + 1) * (k + 1) == handOuts * (k + 1) + (k + 1)
  {
  }

  ghost predicate AtMostOutstanding(r: Run, i: nat, j: nat, k: nat) {
    forall x :: i <= x < j && x < |r.states| ==> |r.states[x].relays| <= k
  }

  lemma {:induction false} AdvancesAreBounded(r: Run, i: nat, j: nat, k: nat)
    requires IsRun(r) && i <= j <= |r.ops|
    requires AtMostOutstanding(r, i, j, k)
    ensures Advanced(r, i, j) <= HandOuts(r, i, j) * (k + 1)
  {
    if i < j {
      AdvancesAreBounded(r, i, j - 1, k);
      assert IsStep(r, j - 1);
      AdvanceIsBounded(r.states[j - 1], r.ops[j - 1], r.states[j], k);
      OneMoreHandOut(HandOuts(r, i, j - 1), k);
    }
  }

  /** Between two hand-outs of one number the search goes round the whole range. */
  lemma ReuseTakesAWholeTurn(r: Run, i: nat, j: nat, n: nat)
    requires IsRun(r) && i < j < |r.ops|
    requires HandedOut(r.ops[i]) == Some(n) && HandedOut(r.ops[j]) == Some(n)
    ensures Advanced(r, i + 1, j + 1) >= RELAY_SEQUENCES
  {
    assert IsStep(r, i) && IsStep(r, j);
    HandOutOverwritesNothing(r.states[i], r.ops[i], r.states[i + 1]);
    HandOutOverwritesNothing(r.states[j], r.ops[j], r.states[j + 1]);
    var turns := AdvancesAreWholeTurns(r, i + 1, j + 1);
    assert Advance(r.states[j], r.ops[j]) >= 1;
    assert turns > 0;
  }

  /** So with at most k claims outstanding in between, it takes at least N/(k+1) hand-outs to come back to it. */
  lemma ReuseBound(r: Run, i: nat, j: nat, n: nat, k: nat)
    requires IsRun(r) && i < j < |r.ops|
    requires HandedOut(r.ops[i]) == Some(n) && HandedOut(r.ops[j]) == Some(n)
    requires AtMostOutstanding(r, i + 1, j + 1, k)
    ensures HandOuts(r, i + 1, j + 1) * (k + 1) >= 8388608
  {
    ReuseTakesAWholeTurn(r, i, j, n);
    AdvancesAreBounded(r, i + 1, j + 1, k);
  }
}
