/**
 The two shared tables in every state of every run, between any two critical sections of any threads: the relay
 numbers and the spacing of claims, and the agreement of the authorisation maps, in the middle of a naming too.
 */
module ProtocolTables {
  import opened Basics
  import opened RelaySpec
  import opened AuthSpec
  import opened Protocol
  import RelayRuns

  /** What every operation of the relay table keeps, every run of the protocol keeps. */
  lemma {:induction false} RelaysStaySound(r: Run, i: nat)
    requires IsRun(r) && i < |r.states|
    ensures WellNumbered(r.states[i].table) && Spaced(r.states[i].table)
  {
    if i > 0 {
      RelaysStaySound(r, i - 1);
      assert IsStep(r, i - 1);
      var s, step := r.states[i - 1], r.steps[i - 1];
      StepsActOnTheTable(s, step, r.states[i]);
      if TableOp(s, step).Some? {
        RelayRuns.StepKeepsSound(s.table, TableOp(s, step).value, r.states[i].table);
      }
    }
  }

  // -- Authorisation ---------------------------------------------------------------------------------

  /** The node has left its old address and is yet to be at its new one. */
  predicate Underway(naming: Naming) {
    naming.Placing? || ((naming.Purging? || naming.Hooking?) && naming.left)
  }

  /** The records the reverse map agrees with: a node underway is nowhere, unless it stays where it was. */
  function Whereabouts(nodes: Nodes, naming: Naming): Nodes {
    if Underway(naming) then Departed(nodes, naming.job.node, naming.job.ip) else nodes
  }

  /** A naming that goes ahead has dated its node's record, and nothing it sweeps is that record. */
  predicate JobOk(nodes: Nodes, naming: Naming) {
    !naming.Unlocked? ==>
      && (!naming.job.superseded ==>
            naming.job.node in nodes && nodes[naming.job.node] == NodeRecord(naming.job.dated, naming.job.from))
      && (Underway(naming) ==> !naming.job.superseded && naming.job.ip.Some?)
  }

  ghost predicate Inv(s: State) {
    JobOk(s.auth.nodes, s.naming) && Agrees(s.auth.addrs, Whereabouts(s.auth.nodes, s.naming))
  }

  lemma LeavingKeepsInv(s: State, node: Node, addr: Host, job: Job)
    requires Inv(s) && s.naming == Expiring(job)
    requires node in s.auth.nodes && s.auth.nodes[node].addr == Some(addr)
    ensures job.superseded || node != job.node ==>
      Inv(LeaveAddress(s.(auth := s.auth.(nodes := s.auth.nodes - {node})), node, addr, job, false))
    ensures node == job.node && !job.superseded && job.ip.Some? && job.ip != Some(addr) ==>
      Inv(LeaveAddress(s, node, addr, job, true))
  {
    VacatingKeepsAgreement(s.auth.addrs, s.auth.nodes, node, addr);
  }

  lemma ExpiringKeepsInv(s: State, node: Node, s': State)
    requires Inv(s) && ExpireNodeStep(s, node, s')
    ensures Inv(s')
  {
    var record := s.auth.nodes[node];
    if record.addr.Some? {
      LeavingKeepsInv(s, node, record.addr.value, s.naming.job);
    } else {
      ExpiringKeepsAgreement(s.auth.addrs, s.auth.nodes, node);
    }
  }

  lemma EndingExpiryKeepsInv(s: State, s': State)
    requires Inv(s) && EndExpiryStep(s, s')
    ensures Inv(s')
  {
    var job := s.naming.job;
    if job.ip.Some? && !job.superseded && job.from.Some? && job.from != job.ip {
      LeavingKeepsInv(s, job.node, job.from.value, job);
    }
  }

  lemma PlacingKeepsInv(s: State, s': State)
    requires Inv(s) && PlaceStep(s, s')
    ensures Inv(s')
  {
    var job := s.naming.job;
    var nodes := Whereabouts(s.auth.nodes, s.naming);
    OccupyingKeepsAgreement(s.auth.addrs, nodes, job.node, job.ip.value, job.dated);
    assert nodes[job.node := NodeRecord(job.dated, job.ip)] == s'.auth.nodes;
  }

  lemma NamingsKeepInv(s: State, step: NamingStep, s': State)
    requires Inv(s) && NamingNext(s, step, s')
    ensures Inv(s')
  {
    match step {
      case Tick(_) =>
      case BeginNaming(node, dated, _) => NamingKeepsAgreement(s.auth.addrs, s.auth.nodes, node, dated);
      case ExpireNode(node) => ExpiringKeepsInv(s, node, s');
      case EndExpiry => EndingExpiryKeepsInv(s, s');
      case PurgeRelays =>
      case DropConsumerAt(_) =>
      case EndRelease =>
      case Place => PlacingKeepsInv(s, s');
    }
  }

  lemma StepKeepsInv(s: State, step: Step, s': State)
    requires Inv(s) && Next(s, step, s')
    ensures Inv(s')
  {
    StepsLeaveAlone(s, step, s');
    if step.OfNaming? {
      NamingsKeepInv(s, step.naming, s');
    }
  }

  lemma {:induction false} AuthorisationAgrees(r: Run, i: nat)
    requires IsRun(r) && i < |r.states|
    ensures Inv(r.states[i])
    ensures var s := r.states[i]; s.naming.Unlocked? || s.naming.Expiring? ==> Agrees(s.auth.addrs, s.auth.nodes)
  {
    if i > 0 {
      AuthorisationAgrees(r, i - 1);
      assert IsStep(r, i - 1);
      StepKeepsInv(r.states[i - 1], r.steps[i - 1], r.states[i]);
    }
  }

  // -- A naming in steps is RecordUpfAddr in one -----------------------------------------------------

  /** Some of the expired records have gone, and nothing else. */
  ghost predicate PartlyExpired(named: Nodes, nodes: Nodes, now: Time) {
    && nodes.Keys <= named.Keys
    && (forall n :: n in nodes ==> nodes[n] == named[n])
    && (forall n :: n in named && Recent(named[n], now) ==> n in nodes)
  }

  /** How far a naming has come, that found the records `was` when it took the lock. */
  ghost predicate Halfway(was: Nodes, job: Job, s: State) {
    var named := Named(was, job.node, job.dated);
    if s.naming.Unlocked? then s.auth.nodes == Recorded(was, job.node, job.dated, job.ip)
    else s.naming.job == job
         && job.superseded == Superseded(was, job.node, job.dated)
         && PartlyExpired(named, s.auth.nodes, job.dated)
         && (Underway(s.naming) ==> s.auth.nodes == Current(named, job.dated) && job.ip.Some? && !job.superseded)
  }

  lemma ExpiryBringsNamingOn(was: Nodes, job: Job, s: State, node: Node, s': State)
    requires ExpireNodeStep(s, node, s') && Halfway(was, job, s)
    ensures Halfway(was, job, s')
  {
    assert s'.auth.nodes == s.auth.nodes - {node};
    assert s'.naming.Expiring? || (s'.naming.Purging? && !s'.naming.left);
  }

  lemma EndOfExpiryBringsNamingOn(was: Nodes, job: Job, s: State, s': State)
    requires EndExpiryStep(s, s') && Halfway(was, job, s)
    ensures Halfway(was, job, s')
  {
    assert s.auth.nodes == Current(Named(was, job.node, job.dated), job.dated);
    assert s'.auth.nodes == s.auth.nodes;
  }

  lemma StepBringsNamingOn(was: Nodes, job: Job, s: State, step: NamingStep, s': State)
    requires NamingNext(s, step, s') && Halfway(was, job, s) && !s.naming.Unlocked?
    ensures Halfway(was, job, s')
  {
    match step {
      case Tick(_) =>
      case BeginNaming(_, _, _) =>
      case ExpireNode(node) => ExpiryBringsNamingOn(was, job, s, node, s');
      case EndExpiry => EndOfExpiryBringsNamingOn(was, job, s, s');
      case PurgeRelays =>
      case DropConsumerAt(_) =>
      case EndRelease =>
      case Place =>
    }
  }

  /**
   Whatever comes between its steps, a naming that takes the lock in state `i` and has let go of it by state `j`
   leaves the records as RecordUpfAddr does in one go.
   */
  lemma {:induction false} NamingsRecord(r: Run, i: nat, j: nat, node: Node, dated: Time, ip: Option<Host>)
    requires IsRun(r) && i < j < |r.states| && r.steps[i] == OfNaming(BeginNaming(node, dated, ip))
    requires forall k :: i < k < j ==> !r.states[k].naming.Unlocked?
    ensures var was := r.states[i].auth.nodes;
      Halfway(was, Job(node, dated, ip, Superseded(was, node, dated), RecordOf(was, node).addr), r.states[j])
    ensures r.states[j].naming.Unlocked? ==> r.states[j].auth.nodes == Recorded(r.states[i].auth.nodes, node, dated, ip)
  {
    var was := r.states[i].auth.nodes;
    assert IsStep(r, j - 1);
    if j > i + 1 {
      NamingsRecord(r, i, j - 1, node, dated, ip);
      var s, step := r.states[j - 1], r.steps[j - 1];
      StepsLeaveAlone(s, step, r.states[j]);
      if step.OfNaming? {
        var job := Job(node, dated, ip, Superseded(was, node, dated), RecordOf(was, node).addr);
        StepBringsNamingOn(was, job, s, step.naming, r.states[j]);
      }
    }
  }
}
