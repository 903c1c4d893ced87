/**
 When the release count misleads. A sweep forgets old counts, and a count that starts again can come back to what a
 claim quotes. Here is exactly when it does, over every run, and exactly how long a count that was read can be relied on.
 */
module RelayTokenLimits {
  import opened Basics
  import opened Allocator
  import opened RelaySpec
  import opened RelayRuns
  import opened RelayToken

  // -- What the count is, whatever was swept ---------------------------------------------------------

  predicate Forgotten(t: Table, t': Table, host: Host) {
    host in t.generations && host !in t'.generations
  }

  /** The releases of the host since its count was last forgotten, if it was between states i and j. */
  function SinceForgotten(r: Run, host: Host, i: nat, j: nat): Option<nat>
    requires i <= j <= |r.ops| < |r.states|
  {
    if i == j then None
    else if Forgotten(r.states[j - 1], r.states[j], host) then Some(0)
    else match SinceForgotten(r, host, i, j - 1)
         case None => None
         case Some(k) => Some(ReleasesAfter(k, r.ops[j - 1], host))
  }

  lemma StepCounts(t: Table, op: Op, t': Table, host: Host)
    requires Next(t, op, t')
    ensures Count(t', host) == if Forgotten(t, t', host) then 0 else ReleasesAfter(Count(t, host), op, host)
    ensures Forgotten(t, t', host) ==> ReleasesAfter(0, op, host) == 0
  {
  }

  lemma {:induction false} CountIsThatSinceForgotten(r: Run, host: Host, i: nat, j: nat)
    requires IsRun(r) && i <= j <= |r.ops|
    ensures Count(r.states[j], host) == match SinceForgotten(r, host, i, j)
                                        case None => Count(r.states[i], host) + Releases(r.ops, host, i, j)
                                        case Some(k) => k
    ensures SinceForgotten(r, host, i, j).Some? ==> SinceForgotten(r, host, i, j).value <= Releases(r.ops, host, i, j)
  {
    if i < j {
      CountIsThatSinceForgotten(r, host, i, j - 1);
      assert IsStep(r, j - 1);
      StepCounts(r.states[j - 1], r.ops[j - 1], r.states[j], host);
    }
  }

  /**
   With no assumption on time: a claim quoting the count read at state i goes wrong in two ways and no other. It is
   admitted although its host was released if and only if the count was forgotten and there have been as many releases
   since as it quotes; and it is turned away although its host was not released if and only if it quotes a count that
   was forgotten.
   */
  lemma ClaimIsMisjudgedExactlyWhenForgotten(r: Run, i: nat, j: nat)
    requires IsRun(r) && i <= j < |r.ops| && r.ops[j].DoClaim?
    requires r.ops[j].quoted == Count(r.states[i], r.ops[j].peer.host)
    ensures var op := r.ops[j];
      var released, since := Releases(r.ops, op.peer.host, i, j) > 0, SinceForgotten(r, op.peer.host, i, j);
      && (released && !op.claimed.PeerReleased? <==> released && since == Some(op.quoted))
      && (!released && op.claimed.PeerReleased? <==> !released && op.quoted > 0 && since.Some?)
  {
    CountIsThatSinceForgotten(r, r.ops[j].peer.host, i, j);
    assert IsStep(r, j);
  }

  // -- How long a count can be relied on -------------------------------------------------------------

  /** The clock has not passed the quote's deadline, or the next sweep is not due yet. */
  predicate InWindow(t: Table, host: Host, readAt: Time, late: Time) {
    late <= ReadToken(t, host, 0, readAt).deadline || !SweepDue(t, late)
  }

  /** A count starts at one, and nothing in the table is dated after the clock. */
  ghost predicate Reached(t: Table, clock: Time) {
    && ReleasesDated(t, clock)
    && t.lastSweep <= clock
    && forall h :: h in t.generations ==> t.generations[h].count > 0
  }

  lemma StepKeepsReached(t: Table, op: Op, t': Table, clock: Time)
    requires Next(t, op, t') && Dated(op, clock) && Reached(t, clock)
    ensures Reached(t', clock)
  {
  }

  lemma {:induction false} EveryStateIsReached(r: Run, clocks: seq<Time>, i: nat, clock: Time)
    requires IsTimed(r, clocks) && i < |r.states|
    requires i > 0 ==> clocks[i - 1] <= clock
    ensures Reached(r.states[i], clock)
  {
    if i > 0 {
      EveryStateIsReached(r, clocks, i - 1, clocks[i - 1]);
      assert IsStep(r, i - 1);
      StepKeepsReached(r.states[i - 1], r.ops[i - 1], r.states[i], clocks[i - 1]);
    }
  }

  /** Before the next sweep is due nothing is forgotten. */
  lemma {:induction false} NothingIsForgottenBeforeASweep(r: Run, clocks: seq<Time>, host: Host, i: nat, j: nat, late: Time)
    requires IsTimed(r, clocks) && i <= j <= |r.ops|
    requires !SweepDue(r.states[i], late) && (j > i ==> clocks[j - 1] <= late)
    ensures SinceForgotten(r, host, i, j) == None && r.states[j].lastSweep == r.states[i].lastSweep
  {
    if i < j {
      NothingIsForgottenBeforeASweep(r, clocks, host, i, j - 1, late);
      assert IsStep(r, j - 1);
    }
  }

  ghost predicate Extends(longer: Run, clocks': seq<Time>, r: Run, clocks: seq<Time>) {
    && IsTimed(longer, clocks') && |r.ops| <= |longer.ops| && |r.states| <= |longer.states| && |clocks| <= |clocks'|
    && longer.ops[..|r.ops|] == r.ops && longer.states[..|r.states|] == r.states && clocks'[..|clocks|] == clocks
  }

  /**
   A way the run can go on after the count was read: to a claim at the clock reading `late` that quotes it and is
   admitted, although the host was released in between.
   */
  ghost predicate Misleads(r: Run, clocks: seq<Time>, readAt: Time, host: Host, late: Time, longer: Run, clocks': seq<Time>) {
    var i, j := |r.ops|, |longer.ops| - 1;
    && |r.states| == i + 1 && Extends(longer, clocks', r, clocks) && i <= j && readAt <= clocks'[i]
    && longer.ops[j].DoClaim? && longer.ops[j].peer.host == host && clocks'[j] == late
    && longer.ops[j].quoted == Count(r.states[i], host)
    && !longer.ops[j].claimed.PeerReleased? && Releases(longer.ops, host, i, j) > 0
  }

  lemma NothingMisleadsInTheWindow(r: Run, clocks: seq<Time>, readAt: Time, host: Host, late: Time, longer: Run, clocks': seq<Time>)
    requires IsTimed(r, clocks) && (|r.ops| > 0 ==> clocks[|r.ops| - 1] <= readAt)
    requires InWindow(r.states[|r.ops|], host, readAt, late)
    ensures !Misleads(r, clocks, readAt, host, late, longer, clocks')
  {
    if Misleads(r, clocks, readAt, host, late, longer, clocks') {
      var i, j := |r.ops|, |longer.ops| - 1;
      assert longer.states[i] == longer.states[..|r.states|][i];
      assert i > 0 ==> clocks'[i - 1] == clocks'[..|clocks|][i - 1];
      if late <= ReadToken(r.states[i], host, 0, readAt).deadline {
        ClaimIsAdmittedExactlyWhenNotReleased(longer, clocks', i, readAt, j);
      } else {
        NothingIsForgottenBeforeASweep(longer, clocks', host, i, j, late);
        ClaimIsMisjudgedExactlyWhenForgotten(longer, i, j);
      }
      assert false;
    }
  }

  // -- Past the window there is a run that misleads --------------------------------------------------

  lemma Extended(r: Run, clocks: seq<Time>, op: Op, t: Table, clock: Time) returns (longer: Run, clocks': seq<Time>)
    requires IsTimed(r, clocks) && Next(r.states[|r.ops|], op, t) && Dated(op, clock)
    requires |clocks| > 0 ==> clocks[|clocks| - 1] <= clock
    ensures longer == Run(r.states + [t], r.ops + [op]) && clocks' == clocks + [clock]
    ensures IsTimed(longer, clocks')
  {
    longer, clocks' := Run(r.states + [t], r.ops + [op]), clocks + [clock];
    forall i: nat | i < |longer.ops| ensures IsStep(longer, i) {
      assert i < |r.ops| ==> IsStep(r, i);
    }
  }

  /** Every claim has an outcome. */
  lemma ClaimHasAnOutcome(t: Table, peer: Peer, upfSeq: nat, now: Time, quoted: nat) returns (c: ClaimResult, t': Table)
    ensures Claim(t, peer, upfSeq, now, quoted, c, t')
  {
    var s := Sweep(t, now);
    if Count(t, peer.host) != quoted {
      c, t' := PeerReleased, t;
    } else if Matching(s, peer, upfSeq, now) != {} {
      var n :| n in Matching(s, peer, upfSeq, now);
      c, t' := Retransmission(n), s;
    } else {
      var free := SearchHasAnAnswer(s.relays.Keys, s.cursor, RELAY_SEQUENCE_FLOOR, RELAY_SEQUENCE_CEIL, 1);
      match free {
        case None => c, t' := Exhausted, s;
        case Some(n) => c, t' := Fresh(n), AddClaim(s, n, Relay(peer, upfSeq, now, false));
      }
    }
  }

  lemma ExtendsFurther(r: Run, clocks: seq<Time>, m: Run, ms: seq<Time>, longer: Run, clocks': seq<Time>)
    requires Extends(m, ms, r, clocks) && Extends(longer, clocks', m, ms)
    ensures Extends(longer, clocks', r, clocks)
  {
    assert longer.ops[..|r.ops|] == longer.ops[..|m.ops|][..|r.ops|];
    assert longer.states[..|r.states|] == longer.states[..|m.states|][..|r.states|];
    assert clocks'[..|clocks|] == clocks'[..|ms|][..|clocks|];
  }

  lemma {:induction false} AReleaseCounts(ops: seq<Op>, host: Host, i: nat, k: nat, j: nat)
    requires i <= k < j <= |ops| && ops[k].DoForgetHost? && ops[k].host == host
    ensures Releases(ops, host, i, j) > 0
  {
    if k < j - 1 {
      AReleaseCounts(ops, host, i, k, j - 1);
    }
  }

  /** The host is released n times more, at one clock reading. */
  lemma {:induction false} ReleasedTimes(r: Run, clocks: seq<Time>, host: Host, late: Time, n: nat) returns (longer: Run, clocks': seq<Time>)
    requires IsTimed(r, clocks) && (|clocks| > 0 ==> clocks[|clocks| - 1] <= late)
    ensures Extends(longer, clocks', r, clocks) && |longer.ops| == |r.ops| + n
    ensures Count(longer.states[|longer.ops|], host) == Count(r.states[|r.ops|], host) + n
    ensures |clocks'| > 0 ==> clocks'[|clocks'| - 1] <= late
    ensures n > 0 ==> longer.ops[|longer.ops| - 1] == DoForgetHost(host, late)
  {
    longer, clocks' := r, clocks;
    if n > 0 {
      var m, ms := ReleasedTimes(r, clocks, host, late, n - 1);
      longer, clocks' := Extended(m, ms, DoForgetHost(host, late), ForgetHost(m.states[|m.ops|], host, late), late);
      ExtendsFurther(r, clocks, m, ms, longer, clocks');
    }
  }

  /** A claim after the clock has passed the window of a count that is kept: the sweep it runs forgets the count. */
  lemma AClaimForgets(r: Run, clocks: seq<Time>, peer: Peer, upfSeq: nat, late: Time) returns (longer: Run, clocks': seq<Time>)
    requires IsTimed(r, clocks) && (|clocks| > 0 ==> clocks[|clocks| - 1] <= late)
    requires var t := r.states[|r.ops|];
      peer.host in t.generations && SweepDue(t, late) && late > t.generations[peer.host].releasedAt + RELAY_LIFETIME
    ensures Extends(longer, clocks', r, clocks) && |longer.ops| == |r.ops| + 1 && clocks' == clocks + [late]
    ensures peer.host !in longer.states[|longer.ops|].generations
  {
    var t := r.states[|r.ops|];
    var c, t' := ClaimHasAnOutcome(t, peer, upfSeq, late, Count(t, peer.host));
    longer, clocks' := Extended(r, clocks, DoClaim(peer, upfSeq, late, Count(t, peer.host), c), t', late);
  }

  /** A claim quoting the current count ends the run. */
  lemma AClaimIsAdmitted(r: Run, clocks: seq<Time>, peer: Peer, upfSeq: nat, late: Time) returns (longer: Run, clocks': seq<Time>)
    requires IsTimed(r, clocks) && (|clocks| > 0 ==> clocks[|clocks| - 1] <= late)
    ensures Extends(longer, clocks', r, clocks) && |longer.ops| == |r.ops| + 1 && clocks' == clocks + [late]
    ensures var op := longer.ops[|r.ops|];
      op.DoClaim? && op.peer == peer && op.quoted == Count(r.states[|r.ops|], peer.host) && !op.claimed.PeerReleased?
  {
    var t := r.states[|r.ops|];
    var c, t' := ClaimHasAnOutcome(t, peer, upfSeq, late, Count(t, peer.host));
    longer, clocks' := Extended(r, clocks, DoClaim(peer, upfSeq, late, Count(t, peer.host), c), t', late);
  }

  /** A count read as zero: a release makes it one, and a sweep a lifetime later forgets that. */
  lemma AReleaseIsForgotten(r: Run, clocks: seq<Time>, readAt: Time, peer: Peer, upfSeq: nat, late: Time)
    returns (longer: Run, clocks': seq<Time>)
    requires IsTimed(r, clocks) && (|r.ops| > 0 ==> clocks[|r.ops| - 1] <= readAt) && readAt <= late
    requires peer.host !in r.states[|r.ops|].generations && !InWindow(r.states[|r.ops|], peer.host, readAt, late)
    ensures Misleads(r, clocks, readAt, peer.host, late, longer, clocks')
  {
    var t := r.states[|r.ops|];
    EveryStateIsReached(r, clocks, |r.ops|, readAt);
    var m, ms := Extended(r, clocks, DoForgetHost(peer.host, readAt), ForgetHost(t, peer.host, readAt), readAt);
    var n, ns := AClaimForgets(m, ms, peer, upfSeq, late);
    ExtendsFurther(r, clocks, m, ms, n, ns);
    longer, clocks' := AClaimIsAdmitted(n, ns, peer, upfSeq, late);
    ExtendsFurther(r, clocks, n, ns, longer, clocks');
    ExtendsFurther(m, ms, n, ns, longer, clocks');
    assert longer.ops[|r.ops|] == longer.ops[..|m.ops|][|r.ops|];
    assert clocks'[|r.ops|] == clocks'[..|ms|][|r.ops|];
    AReleaseCounts(longer.ops, peer.host, |r.ops|, |r.ops|, |longer.ops| - 1);
  }

  /** A count read as c: a sweep forgets it, and c releases bring it back. */
  lemma ACountComesBack(r: Run, clocks: seq<Time>, readAt: Time, peer: Peer, upfSeq: nat, late: Time)
    returns (longer: Run, clocks': seq<Time>)
    requires IsTimed(r, clocks) && (|r.ops| > 0 ==> clocks[|r.ops| - 1] <= readAt) && readAt <= late
    requires peer.host in r.states[|r.ops|].generations && !InWindow(r.states[|r.ops|], peer.host, readAt, late)
    ensures Misleads(r, clocks, readAt, peer.host, late, longer, clocks')
  {
    var c := Count(r.states[|r.ops|], peer.host);
    EveryStateIsReached(r, clocks, |r.ops|, readAt);
    var m, ms := AClaimForgets(r, clocks, peer, upfSeq, late);
    var n, ns := ReleasedTimes(m, ms, peer.host, late, c);
    ExtendsFurther(r, clocks, m, ms, n, ns);
    longer, clocks' := AClaimIsAdmitted(n, ns, peer, upfSeq, late);
    ExtendsFurther(r, clocks, n, ns, longer, clocks');
    ExtendsFurther(m, ms, n, ns, longer, clocks');
    assert clocks'[|r.ops|] == clocks'[..|ms|][|r.ops|];
    assert longer.ops[|n.ops| - 1] == longer.ops[..|n.ops|][|n.ops| - 1];
    AReleaseCounts(longer.ops, peer.host, |r.ops|, |n.ops| - 1, |longer.ops| - 1);
  }

  /**
   The window is exact. From any run, a count read there can mislead a claim that reaches the lock at `late` if and
   only if the deadline has passed and a sweep is due by then: before that no way of going on does, after it one does.
   */
  lemma TheWindowIsExact(r: Run, clocks: seq<Time>, readAt: Time, host: Host, late: Time)
    requires IsTimed(r, clocks) && (|r.ops| > 0 ==> clocks[|r.ops| - 1] <= readAt) && readAt <= late
    ensures (exists longer, clocks' :: Misleads(r, clocks, readAt, host, late, longer, clocks'))
            <==> !InWindow(r.states[|r.ops|], host, readAt, late)
  {
    if InWindow(r.states[|r.ops|], host, readAt, late) {
      forall longer, clocks' ensures !Misleads(r, clocks, readAt, host, late, longer, clocks') {
        NothingMisleadsInTheWindow(r, clocks, readAt, host, late, longer, clocks');
      }
    } else {
      var longer, clocks';
      if host in r.states[|r.ops|].generations {
        longer, clocks' := ACountComesBack(r, clocks, readAt, Peer(host, 0), 0, late);
      } else {
        longer, clocks' := AReleaseIsForgotten(r, clocks, readAt, Peer(host, 0), 0, late);
      }
    }
  }
}
