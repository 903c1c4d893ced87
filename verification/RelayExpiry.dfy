/**
 Expiry is lazy: the sweep is throttled, and what must not be stale tests the age of the claim it found.
 The partner here is a set of live claims with no index and no throttle, purged at every claim.
 */
module RelayExpiry {
  import opened Basics
  import opened Allocator
  import opened RelaySpec
  import opened RelayRuns

  /** No question asked at or after a sweep can tell whether the sweep happened. */
  lemma SweepChangesNoAnswer(t: Table, now: Time, later: Time, peer: Peer, upfSeq: nat, n: nat)
    requires now <= later
    ensures Matching(Sweep(t, now), peer, upfSeq, later) == Matching(t, peer, upfSeq, later)
    ensures Taken(Sweep(t, now), n, later) == Taken(t, n, later)
  {
    var s := Sweep(t, now);
    forall m | m in t.relays && Live(t.relays[m], later) ensures m in s.relays && s.relays[m] == t.relays[m] {
    }
  }

  type LiveSet = map<nat, Relay>

  function Alive(c: LiveSet, now: Time): LiveSet {
    map n | n in c && Live(c[n], now) :: c[n]
  }

  /** The live claims on one report, found by looking at every claim. */
  function Outstanding(c: LiveSet, peer: Peer, upfSeq: nat): set<nat> {
    set n | n in c && Claims(c[n], peer, upfSeq)
  }

  /** The claim a take would find. */
  function Unanswered(c: LiveSet, n: nat): Option<Relay> {
    if n in c && !c[n].answered then Some(c[n]) else None
  }

  function Move(c: LiveSet, n: nat, m: nat): LiveSet {
    if n in c then (c - {n})[m := c[n]] else c
  }

  /** What a step does to the set that purges at every claim that gets as far as sweeping. */
  function EagerStep(c: LiveSet, op: Op): LiveSet {
    match op
    case DoClaim(peer, upfSeq, now, _, PeerReleased) => c
    case DoClaim(peer, upfSeq, now, _, Fresh(n)) => Alive(c, now)[n := Relay(peer, upfSeq, now, false)]
    case DoClaim(_, _, now, _, _) => Alive(c, now)
    case DoRenumber(n, Renumbered(m)) => Move(c, n, m)
    case DoRenumber(_, _) => c
    case DoTake(n, now) => if n in Alive(c, now) then c[n := c[n].(answered := true)] else c
    case DoForget(n) => c - {n}
    case DoForgetHost(host, _) => map n | n in c && c[n].peer.host != host :: c[n]
  }

  function Eagerly(ops: seq<Op>, i: nat): LiveSet
    requires i <= |ops|
  {
    if i == 0 then map[] else EagerStep(Eagerly(ops, i - 1), ops[i - 1])
  }

  /** The claim got past the release check, and so purged by its reading of the clock. */
  predicate Purges(op: Op) {
    op.DoClaim? && !op.claimed.PeerReleased?
  }

  /** The latest reading any of the first i steps purged by. Readings reach the lock in any order. */
  function Furthest(ops: seq<Op>, i: nat): Time
    requires i <= |ops|
  {
    if i == 0 then 0
    else
      var before := Furthest(ops, i - 1);
      if Purges(ops[i - 1]) && ops[i - 1].now > before then ops[i - 1].now else before
  }

  predicate Holds(c: LiveSet, n: nat, now: Time) {
    n in c && Live(c[n], now)
  }

  /** The two hold the same claims, as far as claims within their lifetime go. */
  ghost predicate Agree(a: LiveSet, b: LiveSet, now: Time) {
    forall n :: (Holds(a, n, now) <==> Holds(b, n, now)) && (Holds(a, n, now) ==> a[n] == b[n])
  }

  /** The live set is part of the table, and all of it that is within its lifetime at the furthest reading. */
  ghost predicate PartOf(c: LiveSet, t: LiveSet, furthest: Time) {
    && (forall n :: n in c ==> n in t && t[n] == c[n])
    && (forall n :: Holds(t, n, furthest) ==> n in c)
  }

  lemma PartsAgree(c: LiveSet, t: LiveSet, furthest: Time, now: Time)
    requires PartOf(c, t, furthest) && furthest <= now
    ensures Agree(c, t, now) && Alive(c, now) == Alive(t, now)
  {
    forall n | n in t && Live(t[n], now) ensures n in c {
      assert Holds(t, n, furthest);
    }
  }

  lemma ClaimKeepsPart(t: Table, op: Op, t': Table, c: LiveSet, furthest: Time)
    requires Purges(op) && Next(t, op, t') && PartOf(c, t.relays, furthest)
    ensures PartOf(EagerStep(c, op), t'.relays, if op.now > furthest then op.now else furthest)
  {
    var latest := if op.now > furthest then op.now else furthest;
    var purged, swept := Alive(c, op.now), Sweep(t, op.now);
    assert PartOf(purged, swept.relays, latest) by {
      forall n | Holds(swept.relays, n, latest) ensures n in purged {
        assert Holds(t.relays, n, furthest);
      }
    }
  }

  lemma StepKeepsPart(t: Table, op: Op, t': Table, c: LiveSet, furthest: Time)
    requires Next(t, op, t') && PartOf(c, t.relays, furthest)
    ensures PartOf(EagerStep(c, op), t'.relays, if Purges(op) && op.now > furthest then op.now else furthest)
  {
    if Purges(op) {
      ClaimKeepsPart(t, op, t', c, furthest);
    }
  }

  /** In every state of every run, whatever order readings of the clock reach the lock in. */
  lemma {:induction false} TheLiveSetIsPartOfTheTable(r: Run, i: nat)
    requires IsRun(r) && i <= |r.ops|
    ensures PartOf(Eagerly(r.ops, i), r.states[i].relays, Furthest(r.ops, i))
  {
    if i > 0 {
      TheLiveSetIsPartOfTheTable(r, i - 1);
      assert IsStep(r, i - 1);
      StepKeepsPart(r.states[i - 1], r.ops[i - 1], r.states[i], Eagerly(r.ops, i - 1), Furthest(r.ops, i - 1));
    }
  }

  /**
   The table and the live set agree on every claim within its lifetime, at any reading not before those purged by so far,
   after every step of every run.
   */
  lemma LazyRefinesEager(r: Run, i: nat, now: Time)
    requires IsRun(r) && i <= |r.ops| && Furthest(r.ops, i) <= now
    ensures Agree(Eagerly(r.ops, i), r.states[i].relays, now)
    ensures Alive(Eagerly(r.ops, i), now) == Alive(r.states[i].relays, now)
  {
    TheLiveSetIsPartOfTheTable(r, i);
    PartsAgree(Eagerly(r.ops, i), r.states[i].relays, Furthest(r.ops, i), now);
  }

  // -- Decisions -------------------------------------------------------------------------------------

  /** The entry is within its lifetime at a reading that comes late, though not at one that came before it. */
  predicate Overdue(t: Table, n: nat, now: Time, furthest: Time) {
    n in t.relays && Live(t.relays[n], now) && !Live(t.relays[n], furthest)
  }

  ghost predicate SomeOverdue(t: Table, peer: Peer, upfSeq: nat, now: Time, furthest: Time) {
    exists n :: Overdue(t, n, now, furthest) && Claims(t.relays[n], peer, upfSeq)
  }

  /**
   On every run: a report let past the release check is taken for a retransmission if and only if the live set holds it,
   or it carries a reading from before the furthest and the table still has an entry for it that is within its lifetime at
   the one and not at the other. Whatever the live set does not hold is such an entry.
   */
  lemma ClaimsAreDecidedByTheLiveSet(r: Run, i: nat)
    requires IsRun(r) && i < |r.ops| && Purges(r.ops[i])
    ensures var t, op, furthest := r.states[i], r.ops[i], Furthest(r.ops, i);
      var held := Outstanding(Alive(Eagerly(r.ops, i), op.now), op.peer, op.upfSeq);
      && (op.claimed.Retransmission? <==> held != {} || SomeOverdue(t, op.peer, op.upfSeq, op.now, furthest))
      && (op.claimed.Retransmission? ==> op.claimed.number in held || Overdue(t, op.claimed.number, op.now, furthest))
  {
    TheLiveSetIsPartOfTheTable(r, i);
    assert IsStep(r, i);
    MatchesAreHeldOrOverdue(r.states[i], Eagerly(r.ops, i), r.ops[i].peer, r.ops[i].upfSeq, r.ops[i].now, Furthest(r.ops, i));
  }

  lemma MatchesAreHeldOrOverdue(t: Table, c: LiveSet, peer: Peer, upfSeq: nat, now: Time, furthest: Time)
    requires PartOf(c, t.relays, furthest)
    ensures var held, matching := Outstanding(Alive(c, now), peer, upfSeq), Matching(Sweep(t, now), peer, upfSeq, now);
      && (matching != {} <==> held != {} || SomeOverdue(t, peer, upfSeq, now, furthest))
      && (forall n :: n in matching ==> n in held || Overdue(t, n, now, furthest))
  {
    SweepChangesNoAnswer(t, now, now, peer, upfSeq, 0);
    var held, matching := Outstanding(Alive(c, now), peer, upfSeq), Matching(t, peer, upfSeq, now);
    forall n | n in matching ensures n in held || Overdue(t, n, now, furthest) {
      if Holds(t.relays, n, furthest) {
        assert n in c;
      }
    }
    assert held <= matching;
    forall n | Overdue(t, n, now, furthest) && Claims(t.relays[n], peer, upfSeq) ensures n in matching {
    }
  }

  /** On every run: a take finds what the live set holds; and if it finds anything else, an entry overdue in that way. */
  lemma TakesAreDecidedByTheLiveSet(r: Run, i: nat)
    requires IsRun(r) && i < |r.ops| && r.ops[i].DoTake?
    ensures var t, op, furthest := r.states[i], r.ops[i], Furthest(r.ops, i);
      var live := Alive(Eagerly(r.ops, i), op.now);
      && (Taken(t, op.number, op.now) == Unanswered(live, op.number)
          <==> !(Taken(t, op.number, op.now).Some? && op.number !in Eagerly(r.ops, i)))
      && (Taken(t, op.number, op.now).Some? && op.number !in Eagerly(r.ops, i) ==> Overdue(t, op.number, op.now, furthest))
  {
    TheLiveSetIsPartOfTheTable(r, i);
    var t, op, furthest := r.states[i], r.ops[i], Furthest(r.ops, i);
    if Holds(t.relays, op.number, furthest) {
      assert op.number in Eagerly(r.ops, i);
    }
  }

  /**
   So a step whose own reading is not before those purged by so far, whatever the order of the others, is decided exactly
   as by the live set: a report let past the release check is a retransmission exactly when the set holds it, and a take
   yields exactly what the set holds unanswered.
   */
  lemma DecisionsAreThoseOfTheLiveSet(r: Run, i: nat)
    requires IsRun(r) && i < |r.ops| && (r.ops[i].DoClaim? || r.ops[i].DoTake?) && Furthest(r.ops, i) <= r.ops[i].now
    ensures var op := r.ops[i]; var live := Alive(Eagerly(r.ops, i), op.now);
      && (Purges(op) ==> (op.claimed.Retransmission? <==> Outstanding(live, op.peer, op.upfSeq) != {}))
      && (op.DoClaim? && op.claimed.Retransmission? ==> op.claimed.number in Outstanding(live, op.peer, op.upfSeq))
      && (op.DoTake? ==> Taken(r.states[i], op.number, op.now) == Unanswered(live, op.number))
  {
    if Purges(r.ops[i]) {
      ClaimsAreDecidedByTheLiveSet(r, i);
    } else if r.ops[i].DoTake? {
      TakesAreDecidedByTheLiveSet(r, i);
    }
  }

  // -- A reading that comes late ---------------------------------------------------------------------

  lemma TheNextNumberIsHandedOut(t: Table, peer: Peer, upfSeq: nat, now: Time, c: nat)
    requires Count(t, peer.host) == 0 && Matching(Sweep(t, now), peer, upfSeq, now) == {}
    requires RELAY_SEQUENCE_FLOOR <= c <= RELAY_SEQUENCE_CEIL && c !in t.relays
    requires if t.cursor == 0 then c == RELAY_SEQUENCE_FLOOR else c == t.cursor + 1 && t.cursor >= RELAY_SEQUENCE_FLOOR
    ensures Claim(t, peer, upfSeq, now, 0, Fresh(c), AddClaim(Sweep(t, now), c, Relay(peer, upfSeq, now, false)))
  {
    assert Distance(t.cursor, c, RELAY_SEQUENCE_FLOOR, RELAY_SEQUENCE_CEIL) == 1;
  }

  const FLOOR := RELAY_SEQUENCE_FLOOR
  const UPF := Peer("10.0.0.2", 8805)

  function ClaimedAt(n: nat, now: Time): Relay {
    Relay(UPF, n, now, false)
  }

  /**
   The readings' order matters to that one kind of entry. A report is claimed at 5 s. Claims at 34.5 s and at 35.2 s do
   not sweep it away: it is not past its lifetime at the one, and no sweep is due at the other. A copy with a reading of
   34.9 s that reaches the lock after them is taken for a retransmission, which the live set has purged.
   */
  lemma ALateReadingIsRecognisedAllTheSame() returns (r: Run)
    ensures IsRun(r) && |r.ops| == 4 && r.ops[3].DoClaim? && r.ops[3].claimed.Retransmission?
    ensures Outstanding(Alive(Eagerly(r.ops, 3), r.ops[3].now), r.ops[3].peer, r.ops[3].upfSeq) == {}
  {
    var tenth := SECOND / 10;
    var a, b, c, late := 50 * tenth, 345 * tenth, 352 * tenth, 349 * tenth;
    var t1 := AddClaim(Sweep(Empty, a), FLOOR, ClaimedAt(1, a));
    var t2 := AddClaim(Sweep(t1, b), FLOOR + 1, ClaimedAt(2, b));
    var t3 := AddClaim(Sweep(t2, c), FLOOR + 2, ClaimedAt(3, c));
    var ops := [DoClaim(UPF, 1, a, 0, Fresh(FLOOR)), DoClaim(UPF, 2, b, 0, Fresh(FLOOR + 1)),
                DoClaim(UPF, 3, c, 0, Fresh(FLOOR + 2)), DoClaim(UPF, 1, late, 0, Retransmission(FLOOR))];
    r := Run([Empty, t1, t2, t3, t3], ops);
    FirstThreeClaims(a, b, c);
    assert Sweep(t3, late) == t3 && FLOOR in Matching(t3, UPF, 1, late);
    assert IsStep(r, 0) && IsStep(r, 1) && IsStep(r, 2) && IsStep(r, 3);
    ThePurgedSet(a, b, c, ops);
  }

  lemma FirstThreeClaims(a: Time, b: Time, c: Time)
    requires SECOND <= a < b < a + RELAY_LIFETIME < c < b + SECOND && a + SECOND <= b
    ensures var t1 := AddClaim(Sweep(Empty, a), FLOOR, ClaimedAt(1, a));
      var t2 := AddClaim(Sweep(t1, b), FLOOR + 1, ClaimedAt(2, b));
      && Claim(Empty, UPF, 1, a, 0, Fresh(FLOOR), t1)
      && Claim(t1, UPF, 2, b, 0, Fresh(FLOOR + 1), t2)
      && Claim(t2, UPF, 3, c, 0, Fresh(FLOOR + 2), AddClaim(Sweep(t2, c), FLOOR + 2, ClaimedAt(3, c)))
  {
    var t1 := AddClaim(Sweep(Empty, a), FLOOR, ClaimedAt(1, a));
    var t2 := AddClaim(Sweep(t1, b), FLOOR + 1, ClaimedAt(2, b));
    assert Matching(Sweep(Empty, a), UPF, 1, a) == {};
    assert Matching(Sweep(t1, b), UPF, 2, b) == {};
    assert Matching(Sweep(t2, c), UPF, 3, c) == {};
    TheNextNumberIsHandedOut(Empty, UPF, 1, a, FLOOR);
    TheNextNumberIsHandedOut(t1, UPF, 2, b, FLOOR + 1);
    TheNextNumberIsHandedOut(t2, UPF, 3, c, FLOOR + 2);
  }

  lemma ThePurgedSet(a: Time, b: Time, c: Time, ops: seq<Op>)
    requires |ops| >= 3 && a + RELAY_LIFETIME < c
    requires ops[0] == DoClaim(UPF, 1, a, 0, Fresh(FLOOR)) && ops[1] == DoClaim(UPF, 2, b, 0, Fresh(FLOOR + 1))
    requires ops[2] == DoClaim(UPF, 3, c, 0, Fresh(FLOOR + 2))
    ensures forall now: Time :: Outstanding(Alive(Eagerly(ops, 3), now), UPF, 1) == {}
  {
    var two := Eagerly(ops, 2);
    assert Eagerly(ops, 1) == Alive(map[], a)[FLOOR := ClaimedAt(1, a)];
    assert two == Alive(Eagerly(ops, 1), b)[FLOOR + 1 := ClaimedAt(2, b)];
    assert Eagerly(ops, 3) == Alive(two, c)[FLOOR + 2 := ClaimedAt(3, c)];
  }
}
