/** The transaction database: a batch of pending changes that reads like the store it will become. */
module TxDb {
  import opened Bytes

  type Store = map<Data, Data>

  datatype Op = Put(key: Data, value: Data) | Delete(key: Data)

  /** A store after a batch has been written to it. */
  function Applied(store: Store, ops: seq<Op>): Store {
    if ops == [] then store
    else
      var before := Applied(store, ops[..|ops| - 1]);
      match ops[|ops| - 1]
      case Put(k, v) => before[k := v]
      case Delete(k) => before - {k}
  }

  function Lookup(store: Store, key: Data): Option<Data> {
    if key in store then Some(store[key]) else None
  }

  /** The last change a batch makes to a key. */
  function LastOn(ops: seq<Op>, key: Data): (last: Option<Op>)
    ensures last.Some? ==> last.value in ops && last.value.key == key
    ensures last.None? ==> forall i :: 0 <= i < |ops| ==> ops[i].key != key
  {
    if ops == [] then None
    else if ops[|ops| - 1].key == key then Some(ops[|ops| - 1])
    else LastOn(ops[..|ops| - 1], key)
  }

  ghost predicate PendingDelete(ops: seq<Op>, key: Data) {
    LastOn(ops, key).Some? && LastOn(ops, key).value.Delete?
  }

  /** Only the last change to a key matters. */
  lemma {:induction false} LastWins(store: Store, ops: seq<Op>, key: Data)
    ensures Lookup(Applied(store, ops), key) ==
            match LastOn(ops, key)
            case None => Lookup(store, key)
            case Some(Put(_, v)) => Some(v)
            case Some(Delete(_)) => None
    decreases |ops|
  {
    if ops != [] && ops[|ops| - 1].key != key {
      LastWins(store, ops[..|ops| - 1], key);
    }
  }

  /** CBatchScanner: the handler a batch is played to. */
  class Scanner {
    const needle: Data
    var found: bool
    var deleted: bool
    var value: Data

    constructor (key: Data)
      ensures needle == key && !found && !deleted
    {
      needle, found, deleted, value := key, false, false, [];
    }

    /** What has been seen agrees with the last change to the key. */
    ghost predicate Saw(last: Option<Op>)
      reads this
    {
      && found == last.Some? && deleted == (last.Some? && last.value.Delete?)
      && (last.Some? && last.value.Put? ==> value == last.value.value)
    }

    method OnPut(key: Data, v: Data)
      modifies this
      ensures if key == needle then Saw(Some(Put(key, v)))
              else found == old(found) && deleted == old(deleted) && value == old(value)
    {
      if key == needle {
        found, deleted, value := true, false, v;
      }
    }

    method OnDelete(key: Data)
      modifies this
      ensures if key == needle then Saw(Some(Delete(key)))
              else found == old(found) && deleted == old(deleted) && value == old(value)
    {
      if key == needle {
        found, deleted := true, true;
      }
    }
  }

  class Db {
    var store: Store
    var batch: Option<seq<Op>>

    /** The store as the code inside a transaction is to see it. */
    ghost function View(): Store
      reads this
    {
      if batch.None? then store else Applied(store, batch.value)
    }

    constructor (s: Store)
      ensures store == s && batch == None && View() == s
    {
      store, batch := s, None;
    }

    /** ScanBatch */
    method ScanBatch(key: Data) returns (found: bool, deleted: bool, value: Data)
      requires batch.Some?
      ensures var last := LastOn(batch.value, key);
              && found == last.Some? && deleted == (last.Some? && last.value.Delete?)
              && (last.Some? && last.value.Put? ==> value == last.value.value)
    {
      var s := new Scanner(key);
      var ops := batch.value;
      for i := 0 to |ops|
        invariant s.Saw(LastOn(ops[..i], key))
      {
        assert ops[..i + 1][..i] == ops[..i];
        match ops[i]
        case Put(k, v) => s.OnPut(k, v);
        case Delete(k) => s.OnDelete(k);
      }
      assert ops[..|ops|] == ops;
      return s.found, s.deleted, s.value;
    }

    /** Read: the pending changes first, then the disk. */
    method Read(key: Data) returns (r: Option<Data>)
      ensures r == Lookup(View(), key)
    {
      if batch.Some? {
        LastWins(store, batch.value, key);
        var found, deleted, value := ScanBatch(key);
        if deleted {
          return None;
        }
        if found {
          return Some(value);
        }
      }
      r := Lookup(store, key);
    }

    /** Exists: a pending delete falls through to the disk. */
    method Exists(key: Data) returns (yes: bool)
      ensures yes <==> key in View() || key in store
      ensures batch.None? ==> (yes <==> key in View())
      ensures batch.Some? ==> ((yes <==> key in View()) <==> !(PendingDelete(batch.value, key) && key in store))
    {
      if batch.Some? {
        LastWins(store, batch.value, key);
        var found, deleted, value := ScanBatch(key);
        if found && !deleted {
          return true;
        }
      }
      yes := key in store;
    }

    method Write(key: Data, value: Data)
      modifies this
      ensures View() == old(View())[key := value] && batch.Some? == old(batch).Some?
      ensures batch.Some? ==> store == old(store)
    {
      if batch.Some? {
        assert (batch.value + [Put(key, value)])[..|batch.value|] == batch.value;
        batch := Some(batch.value + [Put(key, value)]);
      } else {
        store := store[key := value];
      }
    }

    method Erase(key: Data)
      modifies this
      ensures View() == old(View()) - {key} && batch.Some? == old(batch).Some?
      ensures batch.Some? ==> store == old(store)
    {
      if batch.Some? {
        assert (batch.value + [Delete(key)])[..|batch.value|] == batch.value;
        batch := Some(batch.value + [Delete(key)]);
      } else {
        store := store - {key};
      }
    }

    method TxnBegin()
      requires batch == None
      modifies this
      ensures batch == Some([]) && store == old(store) && View() == old(View())
    {
      batch := Some([]);
    }

    /** TxnCommit: the store becomes what reads have shown all along. */
    method TxnCommit()
      requires batch.Some?
      modifies this
      ensures batch == None && store == old(View()) && View() == old(View())
    {
      var ops := batch.value;
      for i := 0 to |ops|
        invariant store == Applied(old(store), ops[..i]) && batch == old(batch)
      {
        assert ops[..i + 1][..i] == ops[..i];
        match ops[i]
        case Put(k, v) => store := store[k := v];
        case Delete(k) => store := store - {k};
      }
      assert ops[..|ops|] == ops;
      batch := None;
    }

    method TxnAbort()
      modifies this
      ensures batch == None && store == old(store) && View() == old(store)
    {
      batch := None;
    }

    /** A whole transaction: its changes take effect together or not at all. */
    method Transaction(ops: seq<Op>, commit: bool)
      requires batch == None
      modifies this
      ensures batch == None && store == if commit then Applied(old(store), ops) else old(store)
    {
      TxnBegin();
      for i := 0 to |ops|
        invariant batch.Some? && store == old(store) && View() == Applied(old(store), ops[..i])
      {
        assert ops[..i + 1][..i] == ops[..i];
        match ops[i]
        case Put(k, v) => Write(k, v);
        case Delete(k) => Erase(k);
      }
      assert ops[..|ops|] == ops;
      if commit {
        TxnCommit();
      } else {
        TxnAbort();
      }
    }
  }

  /** A key on disk, deleted within a transaction: Exists still finds it, Read does not. */
  method ExistsAfterErase(key: Data, value: Data) returns (yes: bool, read: Option<Data>)
    ensures yes && read == None
  {
    var db := new Db(map[key := value]);
    db.TxnBegin();
    db.Erase(key);
    yes := db.Exists(key);
    read := db.Read(key);
  }
}
