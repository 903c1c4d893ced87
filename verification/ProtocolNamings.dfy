/**
 The naming of the protocol, left alone, is RecordUpfAddr: whatever order it expires nodes and drops ports in, it releases
 the same addresses, each once, and leaves the relays and the transactions as those releases do.
 */
module ProtocolNamings {
  import opened Basics
  import opened RelaySpec
  import opened AuthSpec
  import opened AuthReleases
  import opened TransactionSpec
  import opened Protocol
  import PT = ProtocolTables

  /** A naming takes these steps from when it takes the lock to when it lets go, and nobody else takes any. */
  ghost predicate Uninterrupted(states: seq<State>, steps: seq<NamingStep>) {
    && |states| == |steps| + 1 && |steps| > 0
    && (forall i: nat :: i < |steps| ==> StepsAlone(states, steps, i))
    && (forall i :: 0 < i < |steps| ==> !states[i].naming.Unlocked?)
  }

  ghost predicate StepsAlone(states: seq<State>, steps: seq<NamingStep>, i: nat) {
    i < |steps| && i + 1 < |states| && Next(states[i], OfNaming(steps[i]), states[i + 1])
  }

  /** The relays and transactions, as the method's own releases see them. */
  function Others(s: State): Elsewhere<Id> {
    Elsewhere(s.table, s.flat)
  }

  /** Some of the host's ports have been dropped, and nothing else. */
  ghost predicate PartlyDropped(flat: map<Key, Id>, host: Host, flat': map<Key, Id>) {
    && (forall k :: k in flat' ==> k in flat && flat'[k] == flat[k])
    && (forall k :: k in flat && k.consumer.host != host ==> k in flat')
  }

  /** The addresses gone so far are those released, and perhaps one more whose release is under way. */
  ghost predicate GoneBut(was: Addrs, addrs: Addrs, rs: seq<Released>, host: Host) {
    addrs.Keys <= was.Keys && Lists(Hosts(rs) + [host], was.Keys - addrs.Keys)
  }

  /** How far the naming has come since state s, having made the releases rs. */
  ghost predicate ReleasedSo(s: State, u: State, rs: seq<Released>) {
    var was := s.auth.addrs;
    match u.naming
    case Expiring(_) => Gone(was, u.auth.addrs, rs) && Others(u) == AfterReleases(Others(s), rs)
    case Placing(_) => Gone(was, u.auth.addrs, rs) && Others(u) == AfterReleases(Others(s), rs)
    case Purging(host, _, _) => GoneBut(was, u.auth.addrs, rs, host) && Others(u) == AfterReleases(Others(s), rs)
    case Hooking(host, _, _) =>
      && Gone(was, u.auth.addrs, rs) && rs != [] && rs[|rs| - 1].host == host
      && u.table == AfterReleases(Others(s), rs).relays
      && PartlyDropped(AfterReleases(Others(s), rs[..|rs| - 1]).transactions, host, u.flat)
    case Unlocked => Others(u) == AfterReleases(Others(s), rs)
  }

  /** At its end the naming has released exactly the addresses nobody is left at. */
  ghost predicate ReleasedAll(s: State, u: State, job: Job, rs: seq<Released>) {
    u.naming.Unlocked? ==>
      Lists(Hosts(rs), Unoccupied(s.auth.addrs, Remaining(s.auth.nodes, job.node, job.dated, job.ip)))
  }

  ghost predicate SoFar(s: State, u: State, job: Job, rs: seq<Released>) {
    ReleasedSo(s, u, rs) && ReleasedAll(s, u, job, rs) && PT.Inv(u) && PT.Halfway(s.auth.nodes, job, u)
  }

  // -- Each step -------------------------------------------------------------------------------------

  lemma LeavingGoesOn(was: Addrs, addrs: Addrs, node: Node, addr: Host, rs: seq<Released>)
    requires Gone(was, addrs, rs) && addr in addrs
    ensures AuthSpec.Releases(addrs, node, addr) ==> GoneBut(was, Vacate(addrs, node, addr), rs, addr)
    ensures !AuthSpec.Releases(addrs, node, addr) ==> Gone(was, Vacate(addrs, node, addr), rs)
  {
    if AuthSpec.Releases(addrs, node, addr) {
      var after := Vacate(addrs, node, addr);
      assert was.Keys - after.Keys == (was.Keys - addrs.Keys) + {addr};
      assert addr !in Hosts(rs);
      ListsInTurn(Hosts(rs), [addr], was.Keys - addrs.Keys, {addr});
    } else {
      assert Vacate(addrs, node, addr).Keys == addrs.Keys;
    }
  }

  lemma ExpiryGoesOn(s: State, u: State, node: Node, u': State, job: Job, rs: seq<Released>)
    requires ExpireNodeStep(u, node, u') && SoFar(s, u, job, rs)
    ensures ReleasedSo(s, u', rs) && ReleasedAll(s, u', job, rs)
  {
    var record := u.auth.nodes[node];
    if record.addr.Some? {
      LeavingGoesOn(s.auth.addrs, u.auth.addrs, node, record.addr.value, rs);
    }
  }

  lemma EndOfExpiryGoesOn(s: State, u: State, u': State, job: Job, rs: seq<Released>)
    requires EndExpiryStep(u, u') && SoFar(s, u, job, rs)
    ensures ReleasedSo(s, u', rs) && ReleasedAll(s, u', job, rs)
  {
    var j := u.naming.job;
    assert u.auth.nodes == Current(Named(s.auth.nodes, job.node, job.dated), job.dated);
    if j.ip.None? || j.superseded {
      UnoccupiedIsTheDifference(s.auth.addrs, u.auth.nodes, u.auth.addrs);
    } else if j.from.Some? && j.from != j.ip {
      LeavingGoesOn(s.auth.addrs, u.auth.addrs, j.node, j.from.value, rs);
    }
  }

  lemma PurgeGoesOn(s: State, u: State, u': State, job: Job, rs: seq<Released>) returns (rs': seq<Released>)
    requires PurgeRelaysStep(u, u') && SoFar(s, u, job, rs)
    ensures ReleasedSo(s, u', rs') && ReleasedAll(s, u', job, rs')
  {
    var host := u.naming.host;
    var one := Released(host, u.clock);
    rs' := rs + [one];
    assert Hosts(rs') == Hosts(rs) + [host];
    assert rs'[..|rs'| - 1] == rs;
  }

  lemma DropGoesOn(s: State, u: State, consumer: Peer, u': State, job: Job, rs: seq<Released>)
    requires DropConsumerStep(u, consumer, u') && SoFar(s, u, job, rs)
    ensures ReleasedSo(s, u', rs) && ReleasedAll(s, u', job, rs)
  {
  }

  lemma EndOfReleaseGoesOn(s: State, u: State, u': State, job: Job, rs: seq<Released>)
    requires EndReleaseStep(u, u') && SoFar(s, u, job, rs)
    ensures ReleasedSo(s, u', rs) && ReleasedAll(s, u', job, rs)
  {
    var host := u.naming.host;
    var before := AfterReleases(Others(s), rs[..|rs| - 1]);
    assert u.flat == ReleaseConsumer(before.transactions, host);
  }

  lemma PlaceGoesOn(s: State, u: State, u': State, job: Job, rs: seq<Released>)
    requires PlaceStep(u, u') && SoFar(s, u, job, rs)
    ensures ReleasedSo(s, u', rs) && ReleasedAll(s, u', job, rs)
  {
    assert PT.Whereabouts(u.auth.nodes, u.naming) == Remaining(s.auth.nodes, job.node, job.dated, job.ip);
    UnoccupiedIsTheDifference(s.auth.addrs, Remaining(s.auth.nodes, job.node, job.dated, job.ip), u.auth.addrs);
  }

  lemma StepGoesOn(s: State, u: State, step: NamingStep, u': State, job: Job, rs: seq<Released>)
    returns (rs': seq<Released>)
    requires NamingNext(u, step, u') && SoFar(s, u, job, rs) && !u.naming.Unlocked?
    ensures SoFar(s, u', job, rs')
  {
    rs' := rs;
    match step {
      case Tick(_) =>
      case BeginNaming(_, _, _) =>
      case ExpireNode(node) => ExpiryGoesOn(s, u, node, u', job, rs);
      case EndExpiry => EndOfExpiryGoesOn(s, u, u', job, rs);
      case PurgeRelays => rs' := PurgeGoesOn(s, u, u', job, rs);
      case DropConsumerAt(consumer) => DropGoesOn(s, u, consumer, u', job, rs);
      case EndRelease => EndOfReleaseGoesOn(s, u, u', job, rs);
      case Place => PlaceGoesOn(s, u, u', job, rs);
    }
    PT.NamingsKeepInv(u, step, u');
    PT.StepBringsNamingOn(s.auth.nodes, job, u, step, u');
  }

  // -- The whole naming ------------------------------------------------------------------------------

  lemma NamingStarts(s: State, node: Node, dated: Time, ip: Option<Host>, u: State)
    requires PT.Inv(s) && Next(s, OfNaming(BeginNaming(node, dated, ip)), u)
    ensures SoFar(s, u, Job(node, dated, ip, Superseded(s.auth.nodes, node, dated), RecordOf(s.auth.nodes, node).addr), [])
  {
    PT.NamingsKeepInv(s, BeginNaming(node, dated, ip), u);
  }

  lemma {:induction false} AloneAllTheWay(states: seq<State>, steps: seq<NamingStep>, node: Node, dated: Time, ip: Option<Host>, i: nat)
    returns (rs: seq<Released>)
    requires Uninterrupted(states, steps) && 0 < i <= |steps| && steps[0] == BeginNaming(node, dated, ip) && PT.Inv(states[0])
    ensures var s := states[0];
      SoFar(s, states[i], Job(node, dated, ip, Superseded(s.auth.nodes, node, dated), RecordOf(s.auth.nodes, node).addr), rs)
  {
    var s := states[0];
    assert StepsAlone(states, steps, i - 1);
    if i == 1 {
      NamingStarts(s, node, dated, ip, states[1]);
      rs := [];
    } else {
      rs := AloneAllTheWay(states, steps, node, dated, ip, i - 1);
      var job := Job(node, dated, ip, Superseded(s.auth.nodes, node, dated), RecordOf(s.auth.nodes, node).addr);
      rs := StepGoesOn(s, states[i - 1], steps[i - 1], states[i], job, rs);
    }
  }

  /**
   A naming that nothing interrupts, from a state in which the maps agree, leaves the records, the relays and the
   transactions as one call of RecordUpfAddr does: the addresses with nobody left at them are released, each once, at
   whatever the clock showed then, and nothing else is touched.
   */
  lemma ANamingAloneIsTheMethod(states: seq<State>, steps: seq<NamingStep>, node: Node, dated: Time, ip: Option<Host>)
    returns (rs: seq<Released>)
    requires Uninterrupted(states, steps) && steps[0] == BeginNaming(node, dated, ip)
    requires PT.Inv(states[0]) && states[|steps|].naming.Unlocked?
    ensures var s, s' := states[0], states[|steps|];
      && s'.auth.nodes == Recorded(s.auth.nodes, node, dated, ip)
      && Agrees(s'.auth.addrs, s'.auth.nodes)
      && Lists(Hosts(rs), Unoccupied(s.auth.addrs, Remaining(s.auth.nodes, node, dated, ip)))
      && Elsewhere(s'.table, s'.flat) == AfterReleases(Elsewhere(s.table, s.flat), rs)
  {
    rs := AloneAllTheWay(states, steps, node, dated, ip, |steps|);
  }
}
