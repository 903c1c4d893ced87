/**
 The flat view of the transaction machinery: one map from consumer and sequence number to the transaction
 registered there. A request's consumer is the adapter's own socket, a response's is its destination.
 */
module TransactionSpec {
  import opened Basics

  datatype Key = Key(consumer: Peer, number: nat)

  /** Identity-checked removal: only the transaction itself is ever removed, never a successor. */
  function RemoveIf<T(==)>(flat: map<Key, T>, key: Key, tx: T): map<Key, T> {
    if key in flat && flat[key] == tx then flat - {key} else flat
  }

  /** Releasing a peer drops the transactions of every port seen at its address. */
  function ReleaseConsumer<T>(flat: map<Key, T>, host: Host): map<Key, T> {
    map k | k in flat && k.consumer.host != host :: flat[k]
  }

  /** ... one port at a time. */
  function DropConsumer<T>(flat: map<Key, T>, consumer: Peer): map<Key, T> {
    map k | k in flat && k.consumer != consumer :: flat[k]
  }

  /** The two levels as values: a table of transactions for each consumer. */
  type Tables<T> = map<Peer, map<nat, T>>

  ghost predicate Registered<T>(tables: Tables<T>, k: Key) {
    k.consumer in tables && k.number in tables[k.consumer]
  }

  ghost function KeysOf<T>(tables: Tables<T>): set<Key> {
    set c, n | c in tables && n in tables[c] :: Key(c, n)
  }

  lemma KeysOfRegistered<T>(tables: Tables<T>)
    ensures forall k :: k in KeysOf(tables) <==> Registered(tables, k)
  {
    forall k | Registered(tables, k) ensures k in KeysOf(tables) {
      assert k == Key(k.consumer, k.number);
    }
  }

  /** What a lookup sees. */
  ghost function Flatten<T>(tables: Tables<T>): (flat: map<Key, T>)
    ensures forall k {:trigger k in flat} :: k in flat <==> Registered(tables, k)
    ensures forall k {:trigger flat[k]} :: k in flat ==> Registered(tables, k) && flat[k] == tables[k.consumer][k.number]
  {
    KeysOfRegistered(tables);
    map k | k in KeysOf(tables) :: tables[k.consumer][k.number]
  }

  function TableOf<T>(tables: Tables<T>, consumer: Peer): map<nat, T> {
    if consumer in tables then tables[consumer] else map[]
  }

  function PutIn<T>(tables: Tables<T>, key: Key, tx: T): Tables<T> {
    tables[key.consumer := TableOf(tables, key.consumer)[key.number := tx]]
  }

  lemma RoundIsPut<T>(tables: Tables<T>, key: Key, tx: T)
    ensures var created := tables[key.consumer := TableOf(tables, key.consumer)];
      && (Registered(created, key) <==> Registered(tables, key))
      && (Registered(tables, key) ==> created == tables)
      && PutIn(created, key, tx) == PutIn(tables, key, tx)
  {
  }

  function RemoveIn<T(==)>(tables: Tables<T>, key: Key, tx: T): Tables<T> {
    if key.consumer in tables && key.number in tables[key.consumer] && tables[key.consumer][key.number] == tx
    then tables[key.consumer := tables[key.consumer] - {key.number}]
    else tables
  }

  function ReleaseIn<T>(tables: Tables<T>, host: Host): Tables<T> {
    map c | c in tables && c.host != host :: tables[c]
  }

  lemma FlattenPut<T>(tables: Tables<T>, key: Key, tx: T)
    ensures Flatten(PutIn(tables, key, tx)) == Flatten(tables)[key := tx]
  {
    var a, b := Flatten(PutIn(tables, key, tx)), Flatten(tables)[key := tx];
    forall k ensures (k in a <==> k in b) && (k in a ==> a[k] == b[k]) {
      PutShows(tables, key, tx, k);
    }
  }

  lemma PutShows<T>(tables: Tables<T>, key: Key, tx: T, k: Key)
    ensures var put := PutIn(tables, key, tx);
      && (Registered(put, k) <==> Registered(tables, k) || k == key)
      && (Registered(put, k) ==> put[k.consumer][k.number] == if k == key then tx else tables[k.consumer][k.number])
  {
  }

  lemma FlattenRemove<T>(tables: Tables<T>, key: Key, tx: T)
    ensures Flatten(RemoveIn(tables, key, tx)) == RemoveIf(Flatten(tables), key, tx)
  {
  }

  lemma FlattenDrop<T>(tables: Tables<T>, consumer: Peer)
    ensures Flatten(tables - {consumer}) == DropConsumer(Flatten(tables), consumer)
  {
  }

  lemma FlattenRelease<T>(tables: Tables<T>, host: Host)
    ensures Flatten(ReleaseIn(tables, host)) == ReleaseConsumer(Flatten(tables), host)
  {
  }
}

/**
 The two-level structure the adapter keeps: a table per consumer, shared by reference, so that a table which
 a release has detached is still usable and no longer found.
 */
module TransactionTables {
  import opened Basics
  import opened TransactionSpec

  datatype EventType = ReceiveResendRequest | ReceiveValidResponse

  class Transaction {
    const consumerAddr: Peer
    const sequenceNumber: nat
    const isRequest: bool
    var eventChannel: Option<EventType>

    constructor (consumerAddr: Peer, sequenceNumber: nat, isRequest: bool)
      ensures this.consumerAddr == consumerAddr && this.sequenceNumber == sequenceNumber && this.isRequest == isRequest
      ensures eventChannel == None
    {
      this.consumerAddr, this.sequenceNumber, this.isRequest := consumerAddr, sequenceNumber, isRequest;
      eventChannel := None;
    }

    function TxKey(): Key {
      Key(consumerAddr, sequenceNumber)
    }

    /** The read loop's send: the channel holds one event, and a send into a full one is dropped, never waited for. */
    method Post(event: EventType)
      modifies this
      ensures old(eventChannel) == None ==> eventChannel == Some(event)
      ensures old(eventChannel) != None ==> eventChannel == old(eventChannel)
    {
      if eventChannel == None {
        eventChannel := Some(event);
      }
    }
  }

  class TxTable {
    var m: map<nat, Transaction>

    /** The peer the table was made for. */
    ghost const owner: Peer

    /** Each transaction is under its own number, in a table of its own consumer. */
    ghost predicate Sound()
      reads this
    {
      forall n :: n in m ==> m[n].TxKey() == Key(owner, n)
    }

    constructor (ghost owner: Peer)
      ensures m == map[] && this.owner == owner
    {
      m := map[];
      this.owner := owner;
    }

    method LoadOrStore(sequenceNumber: nat, tx: Transaction) returns (existing: Transaction, loaded: bool)
      modifies this
      ensures loaded <==> sequenceNumber in old(m)
      ensures loaded ==> existing == old(m)[sequenceNumber] && m == old(m)
      ensures !loaded ==> existing == tx && m == old(m)[sequenceNumber := tx]
    {
      if sequenceNumber in m {
        return m[sequenceNumber], true;
      }
      m := m[sequenceNumber := tx];
      return tx, false;
    }

    method DeleteIf(sequenceNumber: nat, tx: Transaction) returns (deleted: bool)
      modifies this
      ensures deleted <==> sequenceNumber in old(m) && old(m)[sequenceNumber] == tx
      ensures m == if deleted then old(m) - {sequenceNumber} else old(m)
    {
      deleted := sequenceNumber in m && m[sequenceNumber] == tx;
      if deleted {
        m := m - {sequenceNumber};
      }
    }
  }

  datatype PutError = DuplicateSequence | Detached

  const PUT_ATTEMPTS: nat := 3

  datatype MessageKind = Request | Response | Neither

  /** What becomes of a message: handed to a handler, absorbed as a copy, or dropped. */
  datatype Decision = Dispatched | ResendAsked | NoTransaction

  datatype Lookup = Found(tx: Transaction) | Nothing | NotFound

  class ConsumerTable {
    var m: map<Peer, TxTable>

    /** Every table that was ever a peer's, attached or not. */
    ghost var tables: set<TxTable>

    ghost predicate Valid()
      reads this, tables
    {
      && (forall c :: c in m ==> m[c] in tables && m[c].owner == c)
      && (forall t :: t in tables ==> t.Sound())
    }

    ghost function Contents(): Tables<Transaction>
      requires forall c :: c in m ==> m[c] in tables
      reads this, tables
    {
      map c | c in m :: m[c].m
    }

    /** What a lookup sees: only attached tables. */
    ghost function Flat(): map<Key, Transaction>
      requires forall c :: c in m ==> m[c] in tables
      reads this, tables
    {
      Flatten(Contents())
    }

    constructor ()
      ensures Valid() && Flat() == map[] && m == map[] && tables == {}
    {
      m, tables := map[], {};
    }

    method LoadOrStore(consumerAddr: Peer, txTable: TxTable) returns (actual: TxTable)
      modifies this
      ensures consumerAddr in old(m) ==> actual == old(m)[consumerAddr] && m == old(m) && tables == old(tables)
      ensures consumerAddr !in old(m) ==>
        actual == txTable && m == old(m)[consumerAddr := txTable] && tables == old(tables) + {txTable}
    {
      if consumerAddr in m {
        return m[consumerAddr];
      }
      m := m[consumerAddr := txTable];
      tables := tables + {txTable};
      return txTable;
    }

    predicate StillHolds(consumerAddr: Peer, table: TxTable)
      reads this
    {
      consumerAddr in m && m[consumerAddr] == table
    }

    /** The first half of a round of registering: the peer's table, created if there is none. */
    method TableFor(consumerAddr: Peer) returns (txTable: TxTable)
      requires Valid()
      modifies this
      ensures Valid() && fresh(tables - old(tables)) && old(tables) <= tables
      ensures StillHolds(consumerAddr, txTable)
      ensures Contents() == old(Contents())[consumerAddr := TableOf(old(Contents()), consumerAddr)]
    {
      var created := new TxTable(consumerAddr);
      txTable := LoadOrStore(consumerAddr, created);
    }

    /** The second half: insert if absent, into a table that is the peer's. */
    method InsertInto(txTable: TxTable, tx: Transaction) returns (loaded: bool)
      requires Valid() && StillHolds(tx.consumerAddr, txTable)
      modifies txTable
      ensures Valid()
      ensures loaded <==> Registered(old(Contents()), tx.TxKey())
      ensures Contents() == if loaded then old(Contents()) else PutIn(old(Contents()), tx.TxKey(), tx)
    {
      ghost var before := Contents();
      var _, present := txTable.LoadOrStore(tx.sequenceNumber, tx);
      loaded := present;
      assert forall c :: c in m && c != tx.consumerAddr ==> m[c].m == before[c];
    }

    /** The bounded retry: rounds until the insertion is refused or stands. */
    method PutRounds(tx: Transaction) returns (loaded: bool, held: bool, rounds: nat)
      requires Valid()
      modifies this, tables
      ensures Valid() && fresh(tables - old(tables)) && old(tables) <= tables
      ensures rounds == 1 && (loaded || held)
      ensures loaded <==> Registered(old(Contents()), tx.TxKey())
      ensures Contents() == if loaded then old(Contents()) else PutIn(old(Contents()), tx.TxKey(), tx)
    {
      ghost var before := Contents();
      loaded, held, rounds := false, false, 0;
      while rounds < PUT_ATTEMPTS && !loaded && !held
        invariant Valid() && fresh(tables - old(tables)) && old(tables) <= tables
        invariant rounds <= 1 && (rounds == 0 ==> !loaded && !held && Contents() == before)
        invariant rounds == 1 ==> (loaded <==> Registered(before, tx.TxKey())) && (loaded || held)
        invariant rounds == 1 ==> Contents() == if loaded then before else PutIn(before, tx.TxKey(), tx)
        decreases PUT_ATTEMPTS - rounds
      {
        rounds := rounds + 1;
        var txTable := TableFor(tx.consumerAddr);
        RoundIsPut(before, tx.TxKey(), tx);
        loaded := InsertInto(txTable, tx);
        held := StillHolds(tx.consumerAddr, txTable);
      }
    }

    /**
     PutTransaction, under registerMu throughout: insert if absent. With no release able to land between the
     lookup and the insertion, the first round decides, and the bounded retry never runs out.
     */
    method PutTransaction(tx: Transaction) returns (err: Option<PutError>, rounds: nat)
      requires Valid()
      modifies this, tables
      ensures Valid() && fresh(tables - old(tables)) && old(tables) <= tables
      ensures rounds == 1
      ensures err == if tx.TxKey() in old(Flat()) then Some(DuplicateSequence) else None
      ensures Flat() == if err.None? then old(Flat())[tx.TxKey() := tx] else old(Flat())
    {
      FlattenPut(Contents(), tx.TxKey(), tx);
      var loaded, held, n := PutRounds(tx);
      err, rounds := if loaded then Some(DuplicateSequence) else if held then None else Some(Detached), n;
    }

    /** DeleteByHost, under registerMu: the peer chooses its port, so every port of the address goes. */
    method DeleteByHost(ip: Host)
      requires Valid()
      modifies this`m
      ensures Valid()
      ensures Flat() == ReleaseConsumer(old(Flat()), ip)
      ensures forall c :: c in m <==> c in old(m) && c.host != ip
      ensures forall c :: c in m ==> m[c] == old(m)[c]
    {
      FlattenRelease(Contents(), ip);
      var unseen := m.Keys;
      while unseen != {}
        invariant unseen <= m.Keys <= old(m).Keys
        invariant forall c :: c in m ==> m[c] == old(m)[c]
        invariant forall c :: c in old(m) && c !in unseen ==> (c in m <==> c.host != ip)
        invariant forall c :: c in unseen ==> c in m
        decreases unseen
      {
        var consumerAddr :| consumerAddr in unseen;
        unseen := unseen - {consumerAddr};
        if consumerAddr.host == ip {
          m := m - {consumerAddr};
        }
      }
      assert Contents() == ReleaseIn(old(Contents()), ip);
    }

    /** findTransaction: for a response a missing table or number is an error, for a request it means a new request. */
    method FindTransaction(isResponse: bool, addr: Peer, seqNum: nat) returns (found: Lookup)
      requires Valid()
      ensures found == if Key(addr, seqNum) in Flat() then Found(Flat()[Key(addr, seqNum)])
                       else if isResponse then NotFound else Nothing
    {
      if addr !in m || seqNum !in m[addr].m {
        return if isResponse then NotFound else Nothing;
      }
      return Found(m[addr].m[seqNum]);
    }

    /**
     What readPfcpMessage decides about a message from `addr` at the socket `server`. A request that finds its own
     transaction is a copy of one already answered, and is absorbed; a response that finds none is dropped; all else,
     a message that is neither included, is dispatched. One transaction at most is told, and never waited for.
     */
    method ReadPfcpMessage(kind: MessageKind, addr: Peer, server: Peer, seqNum: nat) returns (decision: Decision)
      requires Valid()
      modifies Flat().Values
      ensures Flat() == old(Flat())
      ensures var key := Key(if kind.Request? then addr else server, seqNum);
              var told := key in Flat() && !kind.Neither?;
        && decision == (if kind.Request? && told then ResendAsked
                        else if kind.Response? && !told then NoTransaction else Dispatched)
        && (told && old(Flat()[key].eventChannel) == None ==>
              Flat()[key].eventChannel == Some(if kind.Request? then ReceiveResendRequest else ReceiveValidResponse))
        && (told && old(Flat()[key].eventChannel) != None ==> Flat()[key].eventChannel == old(Flat()[key].eventChannel))
        && forall tx :: tx in Flat().Values && (!told || tx != Flat()[key]) ==> tx.eventChannel == old(tx.eventChannel)
    {
      if kind.Neither? {
        return Dispatched;
      }
      var found := FindTransaction(kind.Response?, if kind.Request? then addr else server, seqNum);
      match found {
        case Nothing =>
          decision := Dispatched;
        case NotFound =>
          decision := NoTransaction;
        case Found(tx) =>
          tx.Post(if kind.Request? then ReceiveResendRequest else ReceiveValidResponse);
          decision := if kind.Request? then ResendAsked else Dispatched;
      }
    }

    /** Compare-and-delete in one table, whether or not it is still a peer's. */
    method DeleteIn(loaded: TxTable, tx: Transaction) returns (deleted: bool)
      requires Valid() && loaded in tables && loaded.owner == tx.consumerAddr
      modifies loaded
      ensures Valid()
      ensures deleted <==> tx.sequenceNumber in old(loaded.m) && old(loaded.m)[tx.sequenceNumber] == tx
      ensures Contents() == if tx.consumerAddr in m && m[tx.consumerAddr] == loaded
                            then RemoveIn(old(Contents()), tx.TxKey(), tx) else old(Contents())
    {
      deleted := loaded.DeleteIf(tx.sequenceNumber, tx);
      assert forall c :: c in m && c != tx.consumerAddr ==> m[c].m == old(m[c].m);
    }

    /**
     The second half of removeTransaction, on a table loaded earlier: since then it may have been detached and
     the address given a new one. It has the effect of identity-checked removal from the flat map all the same,
     because a transaction still registered is registered in the table that was loaded for it.
     */
    method DeleteFrom(loaded: TxTable, tx: Transaction) returns (deleted: bool)
      requires Valid() && loaded in tables && loaded.owner == tx.consumerAddr
      requires tx.TxKey() in Flat() && Flat()[tx.TxKey()] == tx ==> m[tx.consumerAddr] == loaded
      modifies loaded
      ensures Valid()
      ensures Flat() == RemoveIf(old(Flat()), tx.TxKey(), tx)
      ensures tx.TxKey() in old(Flat()) && old(Flat())[tx.TxKey()] == tx ==> deleted
    {
      FlattenRemove(Contents(), tx.TxKey(), tx);
      deleted := DeleteIn(loaded, tx);
    }

    /** removeTransaction with nothing in between. */
    method RemoveTransaction(tx: Transaction) returns (removed: bool)
      requires Valid()
      modifies tables
      ensures Valid()
      ensures Flat() == RemoveIf(old(Flat()), tx.TxKey(), tx)
      ensures removed <==> tx.TxKey() in old(Flat()) && old(Flat())[tx.TxKey()] == tx
    {
      FlattenRemove(Contents(), tx.TxKey(), tx);
      if tx.consumerAddr !in m {
        return false;
      }
      removed := DeleteIn(m[tx.consumerAddr], tx);
    }
  }
}
