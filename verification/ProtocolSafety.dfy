/**
 Cross-table safety: no claim outlives its peer's authorisation. The two are under different locks; the release
 count quoted at the claim is what links them, for claims made before the quote's deadline.
 */
module ProtocolSafety {
  import opened Basics
  import opened RelaySpec
  import opened RelayToken
  import opened Protocol
  import RelayRuns

  /** The host has an identity at it, or its release is under way and has yet to reach its relays. */
  predicate Authorised(s: State, host: Host) {
    host in s.auth.addrs || (s.naming.Purging? && s.naming.host == host)
  }

  /** The handlers that carry a token, and those among them that have passed the source check. */
  predicate HasToken(h: Handler) {
    h.Quoting? || h.Admitted? || h.Claiming?
  }

  predicate Checked(h: Handler) {
    h.Admitted? || h.Claiming?
  }

  ghost predicate HandlerSafe(s: State, h: Handler) {
    HasToken(h) ==>
      && TokenHolds(s.table, h.peer.host, ReleasesOf(s, h.peer.host), s.clock, h.token)
      && (Checked(h) && ReleasesOf(s, h.peer.host) == h.token.releases ==> Authorised(s, h.peer.host))
  }

  ghost predicate RelaysAuthorised(s: State) {
    forall n :: n in s.table.relays ==> Authorised(s, s.table.relays[n].peer.host)
  }

  ghost predicate Inv(s: State) {
    && ReleasesDated(s.table, s.clock)
    && ReadingsPast(s)
    && (forall id :: id in s.handlers ==> HandlerSafe(s, s.handlers[id]))
    && RelaysAuthorised(s)
  }

  /** A claim reaches the lock before its quote's deadline. */
  predicate Timely(s: State, step: Step) {
    step.OfHandler? && step.handling.ClaimReport? && step.id in s.handlers && s.handlers[step.id].Claiming? ==>
      s.clock <= s.handlers[step.id].token.deadline
  }

  // -- What a step does to authorisation -------------------------------------------------------------

  predicate Purges(s: State, step: Step, host: Host) {
    step == OfNaming(PurgeRelays) && s.naming.Purging? && s.naming.host == host
  }

  lemma ExpiryEndsAuthorisationInARelease(s: State, node: Node, s': State, host: Host)
    requires ExpireNodeStep(s, node, s') && Authorised(s, host)
    ensures Authorised(s', host)
  {
  }

  lemma MoveEndsAuthorisationInARelease(s: State, s': State, host: Host)
    requires EndExpiryStep(s, s') && Authorised(s, host)
    ensures Authorised(s', host)
  {
  }

  /** An address goes only into its release, and its release ends only by forgetting its relays and counting. */
  lemma NamingsEndAuthorisationInARelease(s: State, step: NamingStep, s': State, host: Host)
    requires NamingNext(s, step, s') && Authorised(s, host)
    ensures Authorised(s', host) || Purges(s, OfNaming(step), host)
  {
    match step {
      case Tick(_) =>
      case BeginNaming(_, _, _) =>
      case ExpireNode(node) => ExpiryEndsAuthorisationInARelease(s, node, s', host);
      case EndExpiry => MoveEndsAuthorisationInARelease(s, s', host);
      case PurgeRelays =>
      case DropConsumerAt(_) =>
      case EndRelease =>
      case Place =>
    }
  }

  lemma AuthorisationEndsInARelease(s: State, step: Step, s': State, host: Host)
    requires Next(s, step, s') && Authorised(s, host)
    ensures Authorised(s', host) || Purges(s, step, host)
  {
    StepsLeaveAlone(s, step, s');
    if step.OfNaming? {
      NamingsEndAuthorisationInARelease(s, step.naming, s', host);
    }
  }

  lemma NamingsCountReleases(s: State, step: NamingStep, s': State, host: Host)
    requires NamingNext(s, step, s')
    ensures ReleasesOf(s', host) == ReleasesOf(s, host) + if Purges(s, OfNaming(step), host) then 1 else 0
  {
  }

  lemma ReleasesAreCounted(s: State, step: Step, s': State, host: Host)
    requires Next(s, step, s')
    ensures ReleasesOf(s', host) == ReleasesOf(s, host) + if Purges(s, step, host) then 1 else 0
    ensures TableOp(s, step).Some? ==>
      ReleasesOf(s', host) == ReleasesAfter(ReleasesOf(s, host), TableOp(s, step).value, host)
  {
    StepsLeaveAlone(s, step, s');
    if step.OfNaming? {
      NamingsCountReleases(s, step.naming, s', host);
    }
  }

  /** A step leaves a token's handler alone, moves it on with its token, or makes a new one out of the count. */
  ghost predicate TokenComesFrom(s: State, step: Step, id: Id, h': Handler)
    requires HasToken(h')
  {
    || (&& id in s.handlers && HasToken(s.handlers[id])
        && s.handlers[id].token == h'.token && s.handlers[id].peer == h'.peer
        && (Checked(h') ==> Checked(s.handlers[id]) || h'.peer.host in s.auth.addrs))
    || (&& step == OfHandler(id, ReadGeneration) && h'.Quoting?
        && h'.token == ReadToken(s.table, h'.peer.host, ReleasesOf(s, h'.peer.host), s.clock))
  }

  lemma OwnTokenComesFromARead(s: State, id: Id, step: HandlerStep, s': State)
    requires id in s.handlers && HandlerNext(s, id, s.handlers[id], step, s')
    requires id in s'.handlers && HasToken(s'.handlers[id])
    ensures TokenComesFrom(s, OfHandler(id, step), id, s'.handlers[id])
  {
    if step.ClaimReport? {
      ClaimLeavesAlone(s, id, s.handlers[id], step.claimed, s');
    } else if !(step.ReadGeneration? || step.CheckKnown? || step.FindSmf?) {
      RelayLeavesAlone(s, id, s.handlers[id], step, s');
    }
  }

  lemma TokensComeFromReads(s: State, step: Step, s': State, id: Id)
    requires Next(s, step, s') && id in s'.handlers && HasToken(s'.handlers[id])
    ensures TokenComesFrom(s, step, id, s'.handlers[id])
  {
    StepsLeaveAlone(s, step, s');
    if step.OfHandler? && step.id == id {
      OwnTokenComesFromARead(s, id, step.handling, s');
    }
  }

  lemma TokenOutlastsTheClock(t: Table, host: Host, releases: nat, clock: Time, later: Time, k: Token)
    requires TokenHolds(t, host, releases, clock, k) && clock <= later
    ensures TokenHolds(t, host, releases, later, k)
  {
  }

  lemma StepKeepsTokenInTable(s: State, step: Step, s': State, host: Host, k: Token)
    requires Next(s, step, s') && ReadingsPast(s)
    requires TokenHolds(s.table, host, ReleasesOf(s, host), s.clock, k)
    ensures TokenHolds(s'.table, host, ReleasesOf(s', host), s'.clock, k)
  {
    StepsActOnTheTable(s, step, s');
    StepsLeaveAlone(s, step, s');
    ReleasesAreCounted(s, step, s', host);
    if TableOp(s, step).Some? {
      StepsAreDated(s, step);
      StepKeepsToken(s.table, TableOp(s, step).value, s'.table, host, ReleasesOf(s, host), s.clock, k);
    }
    TokenOutlastsTheClock(s'.table, host, ReleasesOf(s', host), s.clock, s'.clock, k);
  }

  lemma StepKeepsHandlerSafe(s: State, step: Step, s': State, id: Id)
    requires Inv(s) && Next(s, step, s') && id in s'.handlers
    ensures HandlerSafe(s', s'.handlers[id])
  {
    var h' := s'.handlers[id];
    if HasToken(h') {
      TokensComeFromReads(s, step, s', id);
      var host := h'.peer.host;
      if step == OfHandler(id, ReadGeneration) && h'.Quoting? {
        ReadTokenHolds(s.table, host, ReleasesOf(s, host), s.clock);
      } else {
        assert HandlerSafe(s, s.handlers[id]);
      }
      StepKeepsTokenInTable(s, step, s', host, h'.token);
      ReleasesAreCounted(s, step, s', host);
      if Checked(h') && ReleasesOf(s', host) == h'.token.releases {
        AuthorisationEndsInARelease(s, step, s', host);
      }
    }
  }

  /** A claim that is admitted in time is admitted for an authorised host. */
  lemma AdmittedClaimsAreAuthorised(s: State, id: Id, r: ClaimResult, s': State)
    requires Inv(s) && Next(s, OfHandler(id, ClaimReport(r)), s') && Timely(s, OfHandler(id, ClaimReport(r)))
    ensures !r.PeerReleased? ==> Authorised(s, s.handlers[id].peer.host)
  {
    assert HandlerSafe(s, s.handlers[id]);
  }

  /** Where the entries after a step come from: an entry of the same peer before it, or an admitted claim. */
  lemma EntriesComeFromClaims(t: Table, op: RelayRuns.Op, t': Table, n: nat)
    requires RelayRuns.Next(t, op, t') && n in t'.relays
    ensures (exists m :: m in t.relays && t.relays[m].peer == t'.relays[n].peer
                         && (op.DoForgetHost? ==> t.relays[m].peer.host != op.host))
         || (op.DoClaim? && op.claimed.Fresh? && op.peer == t'.relays[n].peer)
  {
    if op.DoRenumber? && op.renumbered.Renumbered? && n == op.renumbered.number {
      assert t.relays[op.number].peer == t'.relays[n].peer;
    } else if op.DoClaim? && op.claimed.Fresh? && n == op.claimed.number {
    } else {
      assert n in t.relays;
    }
  }

  lemma StepKeepsRelaysAuthorised(s: State, step: Step, s': State)
    requires Inv(s) && Next(s, step, s') && Timely(s, step)
    ensures RelaysAuthorised(s')
  {
    StepsActOnTheTable(s, step, s');
    forall n | n in s'.table.relays ensures Authorised(s', s'.table.relays[n].peer.host) {
      var host := s'.table.relays[n].peer.host;
      if TableOp(s, step).Some? {
        EntriesComeFromClaims(s.table, TableOp(s, step).value, s'.table, n);
        if step.OfHandler? && step.handling.ClaimReport? {
          AdmittedClaimsAreAuthorised(s, step.id, step.handling.claimed, s');
        }
      }
      assert Authorised(s, host);
      AuthorisationEndsInARelease(s, step, s', host);
    }
  }

  lemma StepKeepsInv(s: State, step: Step, s': State)
    requires Inv(s) && Next(s, step, s') && Timely(s, step)
    ensures Inv(s')
  {
    StepsKeepReadingsPast(s, step, s');
    StepsLeaveAlone(s, step, s');
    StepsActOnTheTable(s, step, s');
    if TableOp(s, step).Some? {
      StepsAreDated(s, step);
      StepKeepsReleasesDated(s.table, TableOp(s, step).value, s'.table, s.clock);
    }
    forall id | id in s'.handlers ensures HandlerSafe(s', s'.handlers[id]) {
      StepKeepsHandlerSafe(s, step, s', id);
    }
    StepKeepsRelaysAuthorised(s, step, s');
  }

  ghost predicate IsTimelyRun(r: Run) {
    IsRun(r) && forall i: nat :: i < |r.steps| && IsStep(r, i) ==> Timely(r.states[i], r.steps[i])
  }

  lemma {:induction false} EveryStateIsSafe(r: Run, i: nat)
    requires IsTimelyRun(r) && i < |r.states|
    ensures Inv(r.states[i])
  {
    if i > 0 {
      EveryStateIsSafe(r, i - 1);
      assert IsStep(r, i - 1);
      StepKeepsInv(r.states[i - 1], r.steps[i - 1], r.states[i]);
    }
  }

  /**
   In every state of every timely run, over every interleaving, each outstanding relay belongs to an address some
   identity is at, or to one whose release has begun and not yet reached the relays.
   */
  lemma NoClaimOutlivesItsAuthorisation(r: Run, i: nat, n: nat)
    requires IsTimelyRun(r) && i < |r.states|
    requires n in r.states[i].table.relays
    ensures var host := r.states[i].table.relays[n].peer.host;
      host in r.states[i].auth.addrs || (r.states[i].naming.Purging? && r.states[i].naming.host == host)
  {
    EveryStateIsSafe(r, i);
  }
}
