/**
 The same structure under interleaving. Registering and releasing share a lock, but a release drops its peer's tables one
 by one, and a goroutine ending its transaction loads a table and deletes from it in two separate operations, with no
 lock at all; so does the read loop look things up. Every step still acts on the flat map as the flat map's own
 operation does.
 */
module TransactionSteps {
  import opened Basics
  import opened TransactionSpec

  type TableId = nat
  type TxId = nat

  /** A table remembers whose it was made for; that is for the argument, the adapter's holds transactions only. */
  datatype Table = Table(consumer: Peer, txs: map<nat, TxId>)

  datatype Server = Server(
    attached: map<Peer, TableId>,
    tables: map<TableId, Table>,
    keys: map<TxId, Key>,
    removing: map<TxId, Option<TableId>>,
    releasing: Option<Host>)

  datatype Step =
    | Put(tx: TxId, key: Key, spare: TableId)
    | BeginRelease(host: Host)
    | Detach(consumer: Peer)
    | EndRelease
    | LoadToRemove(tx: TxId)
    | Delete(tx: TxId)

  const Initial: Server := Server(map[], map[], map[], map[], None)

  ghost predicate TablesSound(s: Server) {
    && (forall c :: c in s.attached ==> s.attached[c] in s.tables && s.tables[s.attached[c]].consumer == c)
    && (forall t :: t in s.tables ==> TableSound(s.tables[t], s.keys))
  }

  /** A table holds registered transactions, each under its own number. */
  ghost predicate TableSound(t: Table, keys: map<TxId, Key>) {
    forall n :: n in t.txs ==> t.txs[n] in keys && keys[t.txs[n]] == Key(t.consumer, n)
  }

  /** The transaction is registered where a lookup finds it. */
  ghost predicate Findable(s: Server, x: TxId)
    requires TablesSound(s)
  {
    x in s.keys && Registered(Contents(s), s.keys[x]) && Contents(s)[s.keys[x].consumer][s.keys[x].number] == x
  }

  /** A goroutine that has loaded a table loaded one of its peer's, and the one its transaction is in if any still is. */
  ghost predicate LoadSound(s: Server, x: TxId)
    requires TablesSound(s) && x in s.removing
  {
    && x in s.keys
    && (s.removing[x].Some? ==> s.removing[x].value in s.tables && s.tables[s.removing[x].value].consumer == s.keys[x].consumer)
    && (Findable(s, x) ==> s.removing[x] == Some(s.attached[s.keys[x].consumer]))
  }

  ghost predicate Inv(s: Server) {
    && TablesSound(s)
    && forall x :: x in s.removing ==> LoadSound(s, x)
  }

  /** What each peer's table holds; a detached table appears nowhere. */
  ghost function Contents(s: Server): (tables: Tables<TxId>)
    requires TablesSound(s)
  {
    map c | c in s.attached :: s.tables[s.attached[c]].txs
  }

  ghost function Flat(s: Server): map<Key, TxId>
    requires TablesSound(s)
  {
    Flatten(Contents(s))
  }

  ghost predicate Next(s: Server, step: Step, s': Server)
    requires Inv(s)
  {
    match step
    case Put(x, key, spare) =>
      && x !in s.keys && spare !in s.tables && s.releasing.None?
      && s' == (if Registered(Contents(s), key) then s.(keys := s.keys[x := key]) else Inserted(s, x, key, spare))
    case BeginRelease(host) =>
      s.releasing.None? && s' == s.(releasing := Some(host))
    case Detach(consumer) =>
      s.releasing == Some(consumer.host) && s' == s.(attached := s.attached - {consumer})
    case EndRelease =>
      && s.releasing.Some? && (forall c :: c in s.attached ==> c.host != s.releasing.value)
      && s' == s.(releasing := None)
    case LoadToRemove(x) =>
      && x in s.keys && x !in s.removing
      && var c := s.keys[x].consumer;
         s' == s.(removing := s.removing[x := if c in s.attached then Some(s.attached[c]) else None])
    case Delete(x) =>
      && x in s.removing
      && s' == (if s.removing[x].None? then s else Deleted(s, x, s.removing[x].value))
  }

  ghost function Inserted(s: Server, x: TxId, key: Key, spare: TableId): Server
    requires Inv(s)
  {
    var id := if key.consumer in s.attached then s.attached[key.consumer] else spare;
    var table := Table(key.consumer, TableOf(Contents(s), key.consumer)[key.number := x]);
    Server(s.attached[key.consumer := id], s.tables[id := table], s.keys[x := key], s.removing, s.releasing)
  }

  ghost function Deleted(s: Server, x: TxId, id: TableId): Server
    requires Inv(s) && x in s.keys && id in s.tables
  {
    var n := s.keys[x].number;
    if n in s.tables[id].txs && s.tables[id].txs[n] == x
    then s.(tables := s.tables[id := s.tables[id].(txs := s.tables[id].txs - {n})])
    else s
  }

  /** The flat map's own version of the step. */
  ghost function FlatStep(s: Server, flat: map<Key, TxId>, step: Step): map<Key, TxId> {
    match step
    case Put(x, key, _) => if key in flat then flat else flat[key := x]
    case Detach(consumer) => DropConsumer(flat, consumer)
    case Delete(x) => if x in s.keys then RemoveIf(flat, s.keys[x], x) else flat
    case _ => flat
  }

  lemma InsertedIsSound(s: Server, x: TxId, key: Key, spare: TableId)
    requires Inv(s) && x !in s.keys && spare !in s.tables
    ensures TablesSound(Inserted(s, x, key, spare))
  {
    var s' := Inserted(s, x, key, spare);
    var id := s'.attached[key.consumer];
    assert key.consumer in s.attached ==> TableSound(s.tables[id], s.keys);
    assert TableSound(s'.tables[id], s'.keys);
    forall t | t in s'.tables && t != id ensures TableSound(s'.tables[t], s'.keys) {
      assert TableSound(s.tables[t], s.keys);
    }
  }

  /** A put leaves what other consumers' tables hold. */
  lemma PutLeavesOthers(s: Server, x: TxId, key: Key, spare: TableId, c: Peer)
    requires Inv(s) && spare !in s.tables && c in s.attached && c != key.consumer
    ensures c in Inserted(s, x, key, spare).attached
    ensures var s' := Inserted(s, x, key, spare);
      s'.attached[c] in s'.tables && s'.tables[s'.attached[c]] == s.tables[s.attached[c]]
  {
    assert s.tables[s.attached[c]].consumer == c;
  }

  /** A put that goes in changes what lookups see at its own key. */
  lemma PutContents(s: Server, x: TxId, key: Key, spare: TableId)
    requires Inv(s) && x !in s.keys && spare !in s.tables
    ensures TablesSound(Inserted(s, x, key, spare))
    ensures Contents(Inserted(s, x, key, spare)) == PutIn(Contents(s), key, x)
  {
    InsertedIsSound(s, x, key, spare);
    var a, b := Contents(Inserted(s, x, key, spare)), PutIn(Contents(s), key, x);
    assert a.Keys == b.Keys;
    forall c | c in b ensures a[c] == b[c] {
      if c != key.consumer {
        PutLeavesOthers(s, x, key, spare, c);
      }
    }
  }

  lemma PutRefused(s: Server, x: TxId, key: Key)
    requires Inv(s) && x !in s.keys
    ensures TablesSound(s.(keys := s.keys[x := key]))
    ensures Contents(s.(keys := s.keys[x := key])) == Contents(s)
  {
    var s' := s.(keys := s.keys[x := key]);
    forall t | t in s'.tables ensures TableSound(s'.tables[t], s'.keys) {
      assert TableSound(s.tables[t], s.keys);
    }
  }

  lemma PutLoads(s: Server, x: TxId, key: Key, s': Server)
    requires Inv(s) && x !in s.keys && TablesSound(s')
    requires s'.keys == s.keys[x := key] && s'.removing == s.removing
    requires Contents(s') == Contents(s) || Contents(s') == PutIn(Contents(s), key, x)
    requires forall c :: c in s.attached ==> c in s'.attached && s'.attached[c] == s.attached[c]
    requires forall t :: t in s.tables ==> t in s'.tables && s'.tables[t].consumer == s.tables[t].consumer
    ensures Inv(s')
  {
    forall y | y in s.removing ensures LoadSound(s', y) {
      assert LoadSound(s, y);
      assert Findable(s', y) ==> Findable(s, y);
    }
  }

  lemma PutRefines(s: Server, x: TxId, key: Key, spare: TableId, s': Server)
    requires Inv(s) && Next(s, Put(x, key, spare), s')
    ensures TablesSound(s')
    ensures Flat(s') == FlatStep(s, Flat(s), Put(x, key, spare))
    ensures Inv(s')
  {
    if Registered(Contents(s), key) {
      PutRefused(s, x, key);
      PutLoads(s, x, key, s');
    } else {
      PutContents(s, x, key, spare);
      PutLoads(s, x, key, s');
      FlattenPut(Contents(s), key, x);
    }
  }

  lemma DetachRefines(s: Server, consumer: Peer, s': Server)
    requires Inv(s) && Next(s, Detach(consumer), s')
    ensures TablesSound(s')
    ensures Flat(s') == FlatStep(s, Flat(s), Detach(consumer))
    ensures Inv(s')
  {
    FlattenDrop(Contents(s), consumer);
    assert Contents(s') == Contents(s) - {consumer};
    assert forall y :: y in s.removing ==> LoadSound(s, y);
  }

  lemma LockRefines(s: Server, step: Step, s': Server)
    requires Inv(s) && Next(s, step, s') && (step.BeginRelease? || step.EndRelease?)
    ensures TablesSound(s')
    ensures Flat(s') == Flat(s)
    ensures Inv(s')
  {
    assert Contents(s') == Contents(s);
    forall y | y in s.removing ensures LoadSound(s', y) {
      assert LoadSound(s, y);
    }
  }

  lemma LoadRefines(s: Server, x: TxId, s': Server)
    requires Inv(s) && Next(s, LoadToRemove(x), s')
    ensures TablesSound(s')
    ensures Flat(s') == Flat(s)
    ensures Inv(s')
  {
    assert Contents(s') == Contents(s);
    forall y | y in s'.removing ensures LoadSound(s', y) {
      assert Findable(s', y) <==> Findable(s, y);
      if y != x {
        assert LoadSound(s, y);
      }
    }
  }

  lemma DeletedIsSound(s: Server, x: TxId, id: TableId)
    requires Inv(s) && x in s.removing && s.removing[x] == Some(id)
    ensures x in s.keys && id in s.tables && s.tables[id].consumer == s.keys[x].consumer
    ensures TablesSound(Deleted(s, x, id))
  {
    assert LoadSound(s, x);
    var s' := Deleted(s, x, id);
    assert TableSound(s.tables[id], s.keys);
    forall t | t in s'.tables ensures TableSound(s'.tables[t], s'.keys) {
      assert TableSound(s.tables[t], s.keys);
    }
  }

  /** Only the table that was loaded can change, and only if it is still attached does a lookup see it. */
  lemma DeletedContents(s: Server, x: TxId, id: TableId)
    requires Inv(s) && x in s.removing && s.removing[x] == Some(id)
    ensures x in s.keys && id in s.tables && TablesSound(Deleted(s, x, id))
    ensures Contents(Deleted(s, x, id)) == RemoveIn(Contents(s), s.keys[x], x)
  {
    DeletedIsSound(s, x, id);
    var key := s.keys[x];
    assert LoadSound(s, x);
    if key.consumer in s.attached && s.attached[key.consumer] == id {
      assert Contents(Deleted(s, x, id)) == RemoveIn(Contents(s), key, x);
    } else {
      assert !Findable(s, x);
      assert Contents(Deleted(s, x, id)) == Contents(s);
    }
  }

  lemma DeleteLoads(s: Server, x: TxId, s': Server)
    requires Inv(s) && TablesSound(s') && x in s.keys
    requires s'.keys == s.keys && s'.removing == s.removing && s'.attached == s.attached
    requires Contents(s') == RemoveIn(Contents(s), s.keys[x], x)
    requires forall t :: t in s.tables ==> t in s'.tables && s'.tables[t].consumer == s.tables[t].consumer
    ensures Inv(s')
  {
    forall y | y in s.removing ensures LoadSound(s', y) {
      assert LoadSound(s, y);
      assert Findable(s', y) ==> Findable(s, y);
    }
  }

  lemma DeleteRefines(s: Server, x: TxId, s': Server)
    requires Inv(s) && Next(s, Delete(x), s')
    ensures TablesSound(s')
    ensures Flat(s') == FlatStep(s, Flat(s), Delete(x))
    ensures Inv(s')
  {
    assert LoadSound(s, x);
    FlattenRemove(Contents(s), s.keys[x], x);
    if s.removing[x].None? {
      assert !Findable(s, x);
    } else {
      DeletedContents(s, x, s.removing[x].value);
      DeleteLoads(s, x, s');
    }
  }

  /**
   Registering inserts if absent, a release's walk drops a port at a time, and removing - late, and against a
   table that may have been replaced - removes that transaction if it is still registered and nothing else.
   */
  lemma StepRefinesFlatMap(s: Server, step: Step, s': Server)
    requires Inv(s) && Next(s, step, s')
    ensures Inv(s')
    ensures Flat(s') == FlatStep(s, Flat(s), step)
  {
    match step {
      case Put(x, key, spare) => PutRefines(s, x, key, spare, s');
      case BeginRelease(_) => LockRefines(s, step, s');
      case Detach(consumer) => DetachRefines(s, consumer, s');
      case EndRelease => LockRefines(s, step, s');
      case LoadToRemove(x) => LoadRefines(s, x, s');
      case Delete(x) => DeleteRefines(s, x, s');
    }
  }

  /** No step but its own removal or the drop of its peer's table loses a registered transaction. */
  lemma RegisteredStaysFindable(s: Server, step: Step, s': Server, key: Key)
    requires Inv(s) && Next(s, step, s')
    requires key in Flat(s)
    ensures Inv(s')
    ensures step != Delete(Flat(s)[key]) && step != Detach(key.consumer) ==>
      key in Flat(s') && Flat(s')[key] == Flat(s)[key]
  {
    StepRefinesFlatMap(s, step, s');
  }

  // -- Over runs -------------------------------------------------------------------------------------

  ghost predicate StepsFrom(states: seq<Server>, steps: seq<Step>, i: nat) {
    i < |steps| && i + 1 < |states| && (Inv(states[i]) ==> Next(states[i], steps[i], states[i + 1]))
  }

  ghost predicate IsRun(states: seq<Server>, steps: seq<Step>) {
    && |states| == |steps| + 1
    && states[0] == Initial
    && forall i: nat :: i < |steps| ==> StepsFrom(states, steps, i)
  }

  /** The same steps taken on one map. */
  ghost function FlatRun(states: seq<Server>, steps: seq<Step>, i: nat): map<Key, TxId>
    requires i <= |steps| < |states|
  {
    if i == 0 then map[] else FlatStep(states[i - 1], FlatRun(states, steps, i - 1), steps[i - 1])
  }

  ghost predicate RefinedAt(states: seq<Server>, steps: seq<Step>, i: nat) {
    i <= |steps| < |states| && Inv(states[i]) && Flat(states[i]) == FlatRun(states, steps, i)
  }

  lemma StartIsRefined(states: seq<Server>, steps: seq<Step>)
    requires IsRun(states, steps)
    ensures RefinedAt(states, steps, 0)
  {
  }

  lemma RefinementGoesOn(states: seq<Server>, steps: seq<Step>, i: nat)
    requires IsRun(states, steps) && 0 < i <= |steps| && RefinedAt(states, steps, i - 1)
    ensures RefinedAt(states, steps, i)
  {
    assert StepsFrom(states, steps, i - 1);
    StepRefinesFlatMap(states[i - 1], steps[i - 1], states[i]);
  }

  lemma {:induction false} EveryStateIsRefined(states: seq<Server>, steps: seq<Step>, i: nat)
    requires IsRun(states, steps) && i < |states|
    ensures RefinedAt(states, steps, i)
  {
    if i == 0 {
      StartIsRefined(states, steps);
    } else {
      EveryStateIsRefined(states, steps, i - 1);
      RefinementGoesOn(states, steps, i);
    }
  }

  /** In every state of every interleaving, what lookups see is the one map. */
  lemma RunRefinesFlatMap(states: seq<Server>, steps: seq<Step>, i: nat)
    requires IsRun(states, steps) && i < |states|
    ensures Inv(states[i])
    ensures Flat(states[i]) == FlatRun(states, steps, i)
  {
    EveryStateIsRefined(states, steps, i);
  }

  // -- A release, with what comes in between ---------------------------------------------------------

  /** The transactions removed by steps i up to m. */
  function DeletedIn(steps: seq<Step>, i: nat, m: nat): set<TxId>
    requires i <= m <= |steps|
  {
    if i == m then {} else DeletedIn(steps, i, m - 1) + if steps[m - 1].Delete? then {steps[m - 1].tx} else {}
  }

  /** How far the walk has come: nothing is new, and of the other hosts' only the deleted have gone. */
  ghost predicate PartlyReleased(flat: map<Key, TxId>, host: Host, gone: set<TxId>, flat': map<Key, TxId>) {
    && (forall k :: k in flat' ==> k in flat && flat'[k] == flat[k])
    && (forall k :: k in flat && k.consumer.host != host ==> (k in flat' <==> flat[k] !in gone))
  }

  ghost predicate Keyed(s: Server, flat: map<Key, TxId>) {
    forall k :: k in flat ==> flat[k] in s.keys && s.keys[flat[k]] == k
  }

  lemma WalkKeepsPartlyReleased(s: Server, step: Step, flat: map<Key, TxId>, host: Host, gone: set<TxId>, flat': map<Key, TxId>)
    requires PartlyReleased(flat, host, gone, flat')
    requires !step.Put? && (step.Detach? ==> step.consumer.host == host)
    requires Keyed(s, flat)
    ensures PartlyReleased(flat, host, gone + (if step.Delete? then {step.tx} else {}), FlatStep(s, flat', step))
  {
  }

  lemma FlatIsKeyed(s: Server)
    requires Inv(s)
    ensures Keyed(s, Flat(s))
  {
    forall k | k in Flat(s) ensures Flat(s)[k] in s.keys && s.keys[Flat(s)[k]] == k {
      assert TableSound(s.tables[s.attached[k.consumer]], s.keys);
    }
  }

  lemma KeysStay(s: Server, step: Step, s': Server)
    requires Inv(s) && Next(s, step, s')
    ensures forall x :: x in s.keys ==> x in s'.keys && s'.keys[x] == s.keys[x]
    ensures s.releasing.Some? ==> !step.Put? && (step.Detach? ==> step.consumer.host == s.releasing.value)
  {
  }

  /** The lock is held from after step i to state m. */
  ghost predicate HeldThrough(states: seq<Server>, i: nat, m: nat, host: Host) {
    forall q :: i < q <= m && q < |states| ==> states[q].releasing == Some(host)
  }

  /** A step of a run, and what it does to what lookups see. */
  lemma RunStep(states: seq<Server>, steps: seq<Step>, m: nat)
    requires IsRun(states, steps) && m < |steps|
    ensures Inv(states[m]) && Next(states[m], steps[m], states[m + 1]) && Inv(states[m + 1])
    ensures Flat(states[m + 1]) == FlatStep(states[m], Flat(states[m]), steps[m])
  {
    RunRefinesFlatMap(states, steps, m);
    assert StepsFrom(states, steps, m);
    StepRefinesFlatMap(states[m], steps[m], states[m + 1]);
  }

  ghost predicate ReleasedSoFar(s: Server, flat: map<Key, TxId>, host: Host, gone: set<TxId>) {
    Inv(s) && Keyed(s, flat) && PartlyReleased(flat, host, gone, Flat(s))
  }

  lemma RunKeepsPartlyReleased(states: seq<Server>, steps: seq<Step>, m: nat, flat: map<Key, TxId>, host: Host, gone: set<TxId>)
    requires IsRun(states, steps) && m < |steps| && states[m].releasing == Some(host)
    requires ReleasedSoFar(states[m], flat, host, gone)
    ensures ReleasedSoFar(states[m + 1], flat, host, gone + (if steps[m].Delete? then {steps[m].tx} else {}))
  {
    RunStep(states, steps, m);
    KeysStay(states[m], steps[m], states[m + 1]);
    WalkKeepsPartlyReleased(states[m], steps[m], flat, host, gone, Flat(states[m]));
  }

  lemma ReleaseBegins(states: seq<Server>, steps: seq<Step>, i: nat, host: Host)
    requires IsRun(states, steps) && i < |steps| && steps[i] == BeginRelease(host)
    ensures Inv(states[i]) && ReleasedSoFar(states[i + 1], Flat(states[i]), host, {})
  {
    RunStep(states, steps, i);
    FlatIsKeyed(states[i]);
    KeysStay(states[i], steps[i], states[i + 1]);
  }

  /** By state m the walk that step i began has come so far. */
  ghost predicate WalkedTo(states: seq<Server>, steps: seq<Step>, i: nat, m: nat, flat: map<Key, TxId>, host: Host) {
    i <= m <= |steps| && m < |states| && ReleasedSoFar(states[m], flat, host, DeletedIn(steps, i, m))
  }

  lemma WalkBegins(states: seq<Server>, steps: seq<Step>, i: nat, host: Host)
    requires IsRun(states, steps) && i < |steps| && steps[i] == BeginRelease(host)
    ensures Inv(states[i]) && WalkedTo(states, steps, i, i + 1, Flat(states[i]), host)
  {
    ReleaseBegins(states, steps, i, host);
    assert DeletedIn(steps, i, i + 1) == DeletedIn(steps, i, i) + {} == {};
  }

  lemma WalkGoesOn(states: seq<Server>, steps: seq<Step>, i: nat, m: nat, flat: map<Key, TxId>, host: Host)
    requires IsRun(states, steps) && i <= m < |steps| && states[m].releasing == Some(host)
    requires WalkedTo(states, steps, i, m, flat, host)
    ensures WalkedTo(states, steps, i, m + 1, flat, host)
  {
    RunKeepsPartlyReleased(states, steps, m, flat, host, DeletedIn(steps, i, m));
  }

  lemma {:induction false} WalkReleases(states: seq<Server>, steps: seq<Step>, i: nat, m: nat, flat: map<Key, TxId>, host: Host)
    requires IsRun(states, steps) && i < m <= |steps|
    requires HeldThrough(states, i, m, host) && WalkedTo(states, steps, i, i + 1, flat, host)
    ensures WalkedTo(states, steps, i, m, flat, host)
  {
    if m > i + 1 {
      WalkReleases(states, steps, i, m - 1, flat, host);
      WalkGoesOn(states, steps, i, m - 1, flat, host);
    }
  }

  lemma EndedReleaseLeavesNone(s: Server, s': Server, host: Host)
    requires Inv(s) && Next(s, EndRelease, s') && s.releasing == Some(host)
    ensures forall k :: k in Flat(s) ==> k.consumer.host != host
  {
  }

  /**
   A release, one table at a time and with removals in between, comes to the flat map's release: when it ends nothing of
   the host is left, and of the rest exactly what has been removed since it began has gone.
   */
  lemma AWalkIsARelease(states: seq<Server>, steps: seq<Step>, i: nat, j: nat, host: Host)
    requires IsRun(states, steps) && i < j < |steps|
    requires steps[i] == BeginRelease(host) && steps[j] == EndRelease && HeldThrough(states, i, j, host)
    ensures Inv(states[i]) && Inv(states[j + 1])
    ensures var released := ReleaseConsumer(Flat(states[i]), host);
      Flat(states[j + 1]) == map k | k in released && released[k] !in DeletedIn(steps, i, j) :: released[k]
  {
    WalkBegins(states, steps, i, host);
    WalkReleases(states, steps, i, j, Flat(states[i]), host);
    RunStep(states, steps, j);
    EndedReleaseLeavesNone(states[j], states[j + 1], host);
  }

  // -- How long a registration lasts -----------------------------------------------------------------

  /** One of steps i up to j removes the transaction, or drops the table of its consumer. */
  predicate RemovedIn(steps: seq<Step>, x: TxId, consumer: Peer, i: nat, j: nat)
    requires i <= j <= |steps|
  {
    i < j && (RemovedIn(steps, x, consumer, i, j - 1) || steps[j - 1] == Delete(x) || steps[j - 1] == Detach(consumer))
  }

  ghost predicate FoundAt(states: seq<Server>, i: nat, key: Key, x: TxId) {
    i < |states| && Inv(states[i]) && key in Flat(states[i]) && Flat(states[i])[key] == x
  }

  lemma FoundGoesOn(states: seq<Server>, steps: seq<Step>, key: Key, x: TxId, m: nat)
    requires IsRun(states, steps) && m < |steps| && FoundAt(states, m, key, x)
    requires steps[m] != Delete(x) && steps[m] != Detach(key.consumer)
    ensures FoundAt(states, m + 1, key, x)
  {
    RunStep(states, steps, m);
    RegisteredStaysFindable(states[m], steps[m], states[m + 1], key);
  }

  /** A registered transaction is found, under its key, until its own removal or the drop of its consumer's table. */
  lemma {:induction false} RegisteredIsFoundUntilRemoved(states: seq<Server>, steps: seq<Step>, key: Key, x: TxId, i: nat, j: nat)
    requires IsRun(states, steps) && i <= j <= |steps|
    requires FoundAt(states, i, key, x) && !RemovedIn(steps, x, key.consumer, i, j)
    ensures FoundAt(states, j, key, x)
  {
    if i < j {
      RegisteredIsFoundUntilRemoved(states, steps, key, x, i, j - 1);
      FoundGoesOn(states, steps, key, x, j - 1);
    }
  }

  // -- The read loop's lookups -----------------------------------------------------------------------

  /** A transaction, none, or - the table found and the number in it a moment ago - nothing after all. */
  datatype Looked = Got(tx: TxId) | Missing | Vanished

  /** findTransaction: the table is looked up twice, then the number in it twice, each in a state of its own. */
  function LookUp(first: Server, second: Server, third: Server, fourth: Server, key: Key): Looked {
    if key.consumer !in first.attached || key.consumer !in second.attached then Missing
    else
      var id := second.attached[key.consumer];
      if !Has(third, id, key.number) then Missing
      else if !Has(fourth, id, key.number) then Vanished
      else Got(fourth.tables[id].txs[key.number])
  }

  predicate Has(s: Server, id: TableId, n: nat) {
    id in s.tables && n in s.tables[id].txs
  }

  predicate TakesOut(s: Server, step: Step, id: TableId, x: TxId) {
    step == Delete(x) && x in s.removing && s.removing[x] == Some(id)
  }

  /** The transaction is taken out of the table by one of steps i up to j. */
  predicate TakenOut(states: seq<Server>, steps: seq<Step>, id: TableId, x: TxId, i: nat, j: nat)
    requires i <= j <= |steps| < |states|
  {
    i < j && (TakenOut(states, steps, id, x, i, j - 1) || TakesOut(states[j - 1], steps[j - 1], id, x))
  }

  /** The step takes out of the table whatever is under the number. */
  predicate Empties(s: Server, step: Step, id: TableId, n: nat) {
    Has(s, id, n) && TakesOut(s, step, id, s.tables[id].txs[n])
  }

  /** The step registers a transaction under the key where lookups of its consumer look, and that is the table. */
  predicate PutsInto(s: Server, step: Step, id: TableId, key: Key) {
    step.Put? && step.key == key && key.consumer in s.attached && s.attached[key.consumer] == id
  }

  /** One of steps i up to j takes out what is under the number, and none after it puts another there. */
  predicate LeftEmpty(states: seq<Server>, steps: seq<Step>, id: TableId, key: Key, i: nat, j: nat)
    requires i <= j <= |steps| < |states|
  {
    && i < j
    && (Empties(states[j - 1], steps[j - 1], id, key.number)
        || (LeftEmpty(states, steps, id, key, i, j - 1) && !PutsInto(states[j - 1], steps[j - 1], id, key)))
  }

  lemma TablesChange(s: Server, step: Step, s': Server, id: TableId, n: nat)
    requires Inv(s) && Next(s, step, s') && id in s.tables
    ensures id in s'.tables && s'.tables[id].consumer == s.tables[id].consumer
    ensures Has(s, id, n) ==> if TakesOut(s, step, id, s.tables[id].txs[n]) then !Has(s', id, n)
                              else Has(s', id, n) && s'.tables[id].txs[n] == s.tables[id].txs[n]
    ensures !Has(s, id, n) ==> (Has(s', id, n) <==> PutsInto(s, step, id, Key(s.tables[id].consumer, n)))
  {
    assert TableSound(s.tables[id], s.keys);
    assert step.Delete? ==> LoadSound(s, step.tx);
  }

  lemma RunChangesTables(states: seq<Server>, steps: seq<Step>, m: nat, id: TableId, n: nat)
    requires IsRun(states, steps) && m < |steps| && id in states[m].tables
    ensures id in states[m + 1].tables && states[m + 1].tables[id].consumer == states[m].tables[id].consumer
    ensures Has(states[m], id, n) ==>
      if TakesOut(states[m], steps[m], id, states[m].tables[id].txs[n]) then !Has(states[m + 1], id, n)
      else Has(states[m + 1], id, n) && states[m + 1].tables[id].txs[n] == states[m].tables[id].txs[n]
    ensures !Has(states[m], id, n) ==>
      (Has(states[m + 1], id, n) <==> PutsInto(states[m], steps[m], id, Key(states[m].tables[id].consumer, n)))
  {
    RunStep(states, steps, m);
    TablesChange(states[m], steps[m], states[m + 1], id, n);
  }

  /** A number once filled is empty exactly when it was emptied and not filled again; and its first occupant left by itself. */
  lemma {:induction false} EmptyExactlyWhenLeftEmpty(states: seq<Server>, steps: seq<Step>, id: TableId, n: nat, i: nat, j: nat)
    requires IsRun(states, steps) && i <= j <= |steps| && Has(states[i], id, n)
    ensures id in states[j].tables && states[j].tables[id].consumer == states[i].tables[id].consumer
    ensures !Has(states[j], id, n) <==> LeftEmpty(states, steps, id, Key(states[i].tables[id].consumer, n), i, j)
    ensures TakenOut(states, steps, id, states[i].tables[id].txs[n], i, j)
            || (Has(states[j], id, n) && states[j].tables[id].txs[n] == states[i].tables[id].txs[n])
  {
    if i < j {
      EmptyExactlyWhenLeftEmpty(states, steps, id, n, i, j - 1);
      RunChangesTables(states, steps, j - 1, id, n);
    }
  }

  /**
   A lookup that found the number in its table comes back with nothing if and only if, between its last two looks, the
   occupant of the number was taken out and none was put there after. The transaction it found is then among those that
   ended in between.
   */
  lemma ALookupVanishesExactlyWhenLeftEmpty(states: seq<Server>, steps: seq<Step>, key: Key,
                                            first: nat, second: nat, third: nat, fourth: nat)
    requires IsRun(states, steps) && first <= second <= third <= fourth <= |steps|
    requires key.consumer in states[first].attached && key.consumer in states[second].attached
    requires Has(states[third], states[second].attached[key.consumer], key.number)
    ensures var id := states[second].attached[key.consumer];
      var vanished := LookUp(states[first], states[second], states[third], states[fourth], key).Vanished?;
      && (vanished <==> LeftEmpty(states, steps, id, key, third, fourth))
      && (vanished ==> TakenOut(states, steps, id, states[third].tables[id].txs[key.number], third, fourth))
  {
    var id := states[second].attached[key.consumer];
    RunRefinesFlatMap(states, steps, second);
    TableIsItsPeers(states, steps, id, second, third);
    EmptyExactlyWhenLeftEmpty(states, steps, id, key.number, third, fourth);
  }

  lemma {:induction false} TableIsItsPeers(states: seq<Server>, steps: seq<Step>, id: TableId, i: nat, j: nat)
    requires IsRun(states, steps) && i <= j <= |steps| && id in states[i].tables
    ensures id in states[j].tables && states[j].tables[id].consumer == states[i].tables[id].consumer
  {
    if i < j {
      TableIsItsPeers(states, steps, id, i, j - 1);
      RunChangesTables(states, steps, j - 1, id, 0);
    }
  }

  /** What is got was registered under the key looked up. */
  lemma WhatIsGotIsTheKeys(states: seq<Server>, steps: seq<Step>, key: Key, first: nat, second: nat, third: nat, fourth: nat)
    requires IsRun(states, steps) && first <= second <= third <= fourth <= |steps|
    ensures match LookUp(states[first], states[second], states[third], states[fourth], key)
            case Got(x) => x in states[fourth].keys && states[fourth].keys[x] == key
            case _ => true
  {
    if LookUp(states[first], states[second], states[third], states[fourth], key).Got? {
      var id := states[second].attached[key.consumer];
      RunRefinesFlatMap(states, steps, second);
      TableIsItsPeers(states, steps, id, second, fourth);
      RunRefinesFlatMap(states, steps, fourth);
      assert TableSound(states[fourth].tables[id], states[fourth].keys);
    }
  }

  /** A state with one transaction registered, and perhaps its goroutine about to remove it, or having done so. */
  function OneTransaction(key: Key, removing: map<TxId, Option<TableId>>, txs: map<nat, TxId>): Server {
    Server(map[key.consumer := 0], map[0 := Table(key.consumer, txs)], map[0 := key], removing, None)
  }

  lemma OneIsRegistered(key: Key)
    ensures Inv(Initial) && Next(Initial, Put(0, key, 0), OneTransaction(key, map[], map[key.number := 0]))
  {
    assert !Registered(Contents(Initial), key);
  }

  lemma OneIsRemoved(key: Key)
    ensures var loaded := OneTransaction(key, map[0 := Some(0)], map[key.number := 0]);
      Inv(loaded) ==> Next(loaded, Delete(0), OneTransaction(key, map[0 := Some(0)], map[]))
  {
    assert map[key.number := 0] - {key.number} == map[];
  }

  /** A transaction registered when the search begins, and not removed nor its table dropped before it ends, is got. */
  lemma WhatStaysIsGot(states: seq<Server>, steps: seq<Step>, key: Key, x: TxId, first: nat, second: nat, third: nat, fourth: nat)
    requires IsRun(states, steps) && first <= second <= third <= fourth <= |steps|
    requires FoundAt(states, first, key, x) && !RemovedIn(steps, x, key.consumer, first, fourth)
    ensures LookUp(states[first], states[second], states[third], states[fourth], key) == Got(x)
  {
    StillThere(states, steps, key, x, first, second, fourth);
    StillThere(states, steps, key, x, first, third, fourth);
    StillThere(states, steps, key, x, first, fourth, fourth);
    SameTable(states, steps, key.consumer, x, first, second, fourth);
    SameTable(states, steps, key.consumer, x, first, third, fourth);
    SameTable(states, steps, key.consumer, x, first, fourth, fourth);
  }

  lemma {:induction false} RemovedInPart(steps: seq<Step>, x: TxId, consumer: Peer, i: nat, m: nat, j: nat)
    requires i <= m <= j <= |steps| && RemovedIn(steps, x, consumer, i, m)
    ensures RemovedIn(steps, x, consumer, i, j)
  {
    if m < j {
      RemovedInPart(steps, x, consumer, i, m, j - 1);
    }
  }

  lemma StillThere(states: seq<Server>, steps: seq<Step>, key: Key, x: TxId, i: nat, m: nat, j: nat)
    requires IsRun(states, steps) && i <= m <= j <= |steps|
    requires FoundAt(states, i, key, x) && !RemovedIn(steps, x, key.consumer, i, j)
    ensures key.consumer in states[m].attached && Has(states[m], states[m].attached[key.consumer], key.number)
    ensures states[m].tables[states[m].attached[key.consumer]].txs[key.number] == x
  {
    if RemovedIn(steps, x, key.consumer, i, m) {
      RemovedInPart(steps, x, key.consumer, i, m, j);
    }
    RegisteredIsFoundUntilRemoved(states, steps, key, x, i, m);
  }

  lemma AttachedStays(s: Server, step: Step, s': Server, c: Peer)
    requires Inv(s) && Next(s, step, s') && c in s.attached && step != Detach(c)
    ensures c in s'.attached && s'.attached[c] == s.attached[c]
  {
  }

  lemma {:induction false} SameTable(states: seq<Server>, steps: seq<Step>, c: Peer, x: TxId, i: nat, m: nat, j: nat)
    requires IsRun(states, steps) && i <= m <= j <= |steps| && c in states[i].attached
    requires !RemovedIn(steps, x, c, i, j)
    ensures c in states[m].attached && states[m].attached[c] == states[i].attached[c]
  {
    if i < m {
      SameTable(states, steps, c, x, i, m - 1, j);
      if RemovedIn(steps, x, c, i, m) {
        RemovedInPart(steps, x, c, i, m, j);
      }
      RunKeepsTable(states, steps, c, m - 1);
    }
  }

  lemma RunKeepsTable(states: seq<Server>, steps: seq<Step>, c: Peer, m: nat)
    requires IsRun(states, steps) && m < |steps| && c in states[m].attached && steps[m] != Detach(c)
    ensures c in states[m + 1].attached && states[m + 1].attached[c] == states[m].attached[c]
  {
    RunStep(states, steps, m);
    AttachedStays(states[m], steps[m], states[m + 1], c);
  }

  /** It happens: a request ends between the two looks at its number. */
  lemma ALookupCanVanish(key: Key) returns (states: seq<Server>, steps: seq<Step>)
    ensures IsRun(states, steps) && |steps| == 3
    ensures LookUp(states[2], states[2], states[2], states[3], key).Vanished?
  {
    var registered := OneTransaction(key, map[], map[key.number := 0]);
    var loaded := OneTransaction(key, map[0 := Some(0)], map[key.number := 0]);
    states := [Initial, registered, loaded, OneTransaction(key, map[0 := Some(0)], map[])];
    steps := [Put(0, key, 0), LoadToRemove(0), Delete(0)];
    OneIsRegistered(key);
    OneIsRemoved(key);
    assert StepsFrom(states, steps, 0) && StepsFrom(states, steps, 1) && StepsFrom(states, steps, 2);
  }
}
