/**
 The release count as a token. A report is authorised under one lock and claimed under another; the count
 read before the first is quoted at the second, so that a release in between is noticed. The sweep forgets
 old counts, which is why the argument needs the window between the two to be short.
 */
module RelayToken {
  import opened Basics
  import opened RelaySpec
  import opened RelayRuns

  /**
   What a read of the count yields: the count the caller will quote, and two values for the argument only -
   the number of releases of the host so far, and the latest clock reading at which no sweep can have
   forgotten what the quote rests on.
   */
  datatype Token = Token(count: nat, releases: nat, deadline: Time)

  function ReadToken(t: Table, host: Host, releases: nat, clock: Time): Token {
    Token(Count(t, host), releases,
          (if host in t.generations then t.generations[host].releasedAt else clock) + RELAY_LIFETIME)
  }

  /** Callers read the clock before they take the lock; a release reads it inside. */
  ghost predicate Dated(op: Op, clock: Time) {
    && (op.DoClaim? ==> op.now <= clock)
    && (op.DoForgetHost? ==> op.at == clock)
  }

  ghost predicate ReleasesDated(t: Table, clock: Time) {
    forall h :: h in t.generations ==> t.generations[h].releasedAt <= clock
  }

  function ReleasesAfter(releases: nat, op: Op, host: Host): nat {
    if op.DoForgetHost? && op.host == host then releases + 1 else releases
  }

  /** Until its deadline the token tells the releases since it was read: the count has moved on by as many. */
  ghost predicate TokenHolds(t: Table, host: Host, releases: nat, clock: Time, k: Token) {
    && k.releases <= releases
    && k.deadline <= clock + RELAY_LIFETIME
    && (clock <= k.deadline ==>
          && Count(t, host) == k.count + (releases - k.releases)
          && (host in t.generations ==> k.deadline <= t.generations[host].releasedAt + RELAY_LIFETIME))
  }

  lemma ReadTokenHolds(t: Table, host: Host, releases: nat, clock: Time)
    requires ReleasesDated(t, clock)
    ensures TokenHolds(t, host, releases, clock, ReadToken(t, host, releases, clock))
  {
  }

  lemma StepKeepsToken(t: Table, op: Op, t': Table, host: Host, releases: nat, clock: Time, k: Token)
    requires Next(t, op, t') && Dated(op, clock)
    requires TokenHolds(t, host, releases, clock, k)
    ensures TokenHolds(t', host, ReleasesAfter(releases, op, host), clock, k)
  {
    if op.DoClaim? && clock <= k.deadline && host in t.generations {
      assert host in Sweep(t, op.now).generations;
    }
  }

  lemma StepKeepsReleasesDated(t: Table, op: Op, t': Table, clock: Time)
    requires Next(t, op, t') && Dated(op, clock) && ReleasesDated(t, clock)
    ensures ReleasesDated(t', clock)
  {
  }

  /** A run with the clock reading at each step. */
  ghost predicate IsTimed(r: Run, clocks: seq<Time>) {
    && IsRun(r)
    && |clocks| == |r.ops|
    && (forall i :: 0 <= i < |clocks| ==> Dated(r.ops[i], clocks[i]))
    && (forall i, j :: 0 <= i < j < |clocks| ==> clocks[i] <= clocks[j])
  }

  function Releases(ops: seq<Op>, host: Host, i: nat, j: nat): nat
    requires i <= j <= |ops|
  {
    if i == j then 0 else ReleasesAfter(Releases(ops, host, i, j - 1), ops[j - 1], host)
  }

  lemma {:induction false} EveryStateHasReleasesDated(r: Run, clocks: seq<Time>, i: nat, clock: Time)
    requires IsTimed(r, clocks) && i < |r.states|
    requires i > 0 ==> clocks[i - 1] <= clock
    ensures ReleasesDated(r.states[i], clock)
  {
    if i > 0 {
      EveryStateHasReleasesDated(r, clocks, i - 1, clock);
      assert IsStep(r, i - 1);
      var op := r.ops[i - 1];
      assert op.DoForgetHost? ==> op.at <= clock;
    }
  }

  lemma {:induction false} TokenHoldsUntil(r: Run, clocks: seq<Time>, host: Host, i: nat, readAt: Time, j: nat)
    requires IsTimed(r, clocks) && i <= j < |r.ops|
    requires (i > 0 ==> clocks[i - 1] <= readAt) && readAt <= clocks[i]
    ensures TokenHolds(r.states[j], host, Releases(r.ops, host, i, j), clocks[j], ReadToken(r.states[i], host, 0, readAt))
  {
    if i == j {
      EveryStateHasReleasesDated(r, clocks, i, readAt);
    } else {
      TokenHoldsUntil(r, clocks, host, i, readAt, j - 1);
      assert IsStep(r, j - 1);
      var k := ReadToken(r.states[i], host, 0, readAt);
      StepKeepsToken(r.states[j - 1], r.ops[j - 1], r.states[j], host, Releases(r.ops, host, i, j - 1), clocks[j - 1], k);
    }
  }

  /**
   A claim quoting the count read at state i is admitted exactly when no release of its host ran in between,
   provided it reaches the lock by the deadline: within a lifetime of the read when no count was held then, and
   within a lifetime of the last release when one was.
   */
  lemma ClaimIsAdmittedExactlyWhenNotReleased(r: Run, clocks: seq<Time>, i: nat, readAt: Time, j: nat)
    requires IsTimed(r, clocks) && i <= j < |r.ops| && r.ops[j].DoClaim?
    requires (i > 0 ==> clocks[i - 1] <= readAt) && readAt <= clocks[i]
    requires r.ops[j].quoted == Count(r.states[i], r.ops[j].peer.host)
    requires clocks[j] <= ReadToken(r.states[i], r.ops[j].peer.host, 0, readAt).deadline
    ensures r.ops[j].claimed.PeerReleased? <==> Releases(r.ops, r.ops[j].peer.host, i, j) > 0
  {
    TokenHoldsUntil(r, clocks, r.ops[j].peer.host, i, readAt, j);
    assert IsStep(r, j);
  }

  lemma FirstNumberIsFree(t: Table, peer: Peer, now: Time, quoted: nat)
    requires Count(t, peer.host) == quoted && t.relays == map[] && t.cursor == 0 && SweepDue(t, now)
    ensures Claim(t, peer, 1, now, quoted, Fresh(RELAY_SEQUENCE_FLOOR),
                  AddClaim(Sweep(t, now), RELAY_SEQUENCE_FLOOR, Relay(peer, 1, now, false)))
  {
    assert Sweep(t, now).relays.Keys == {};
  }

  lemma NextNumberIsFree(t: Table, first: Peer, peer: Peer, now: Time, quoted: nat)
    requires Count(t, peer.host) == quoted && !SweepDue(t, now) && first != peer
    requires t.relays == map[RELAY_SEQUENCE_FLOOR := Relay(first, 1, now, false)] && t.cursor == RELAY_SEQUENCE_FLOOR
    ensures Claim(t, peer, 1, now, quoted, Fresh(RELAY_SEQUENCE_FLOOR + 1),
                  AddClaim(t, RELAY_SEQUENCE_FLOOR + 1, Relay(peer, 1, now, false)))
  {
    assert t.relays.Keys == {RELAY_SEQUENCE_FLOOR};
  }

  /**
   The deadline is needed. The count is read as 1, a claim from elsewhere sweeps it away, a release brings it
   back to 1, and the claim that quotes the old 1 is admitted.
   */
  lemma ASweptCountCanBeMistaken() returns (r: Run, clocks: seq<Time>)
    ensures IsTimed(r, clocks) && |r.ops| == 4
    ensures r.ops[3].DoClaim? && r.ops[3].peer.host == "a"
    ensures r.ops[3].quoted == Count(r.states[1], "a")
    ensures Releases(r.ops, "a", 1, 3) == 1
    ensures r.ops[3].claimed.Fresh?
  {
    var first := SECOND;
    var late := first + RELAY_LIFETIME + SECOND;
    var floor := RELAY_SEQUENCE_FLOOR;
    var a, b := Peer("a", 8805), Peer("b", 8805);
    var ops := [
      DoForgetHost("a", first),
      DoClaim(b, 1, late, 0, Fresh(floor)),
      DoForgetHost("a", late),
      DoClaim(a, 1, late, 1, Fresh(floor + 1))];
    var t1 := ForgetHost(Empty, "a", first);
    var t2 := AddClaim(Sweep(t1, late), floor, Relay(b, 1, late, false));
    var t3 := ForgetHost(t2, "a", late);
    var t4 := AddClaim(t3, floor + 1, Relay(a, 1, late, false));
    r := Run([Empty, t1, t2, t3, t4], ops);
    clocks := [first, late, late, late];
    FirstNumberIsFree(t1, b, late, 0);
    NextNumberIsFree(t3, b, a, late, 1);
    assert IsStep(r, 0) && IsStep(r, 1) && IsStep(r, 2) && IsStep(r, 3);
    assert Releases(ops, "a", 1, 2) == ReleasesAfter(Releases(ops, "a", 1, 1), ops[1], "a") == 0;
    assert Releases(ops, "a", 1, 3) == ReleasesAfter(0, ops[2], "a");
  }
}
