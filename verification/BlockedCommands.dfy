/** The commands that block clients and those that create, change and remove lists, run one after the other. */
module BlockedCommands {
  import opened Common
  import opened Blocked
  import opened BlockedServer

  datatype Request =
    | Arrive(c: ClientId, db: nat)
    | Pop(c: ClientId, keys: seq<Key>)                    // BLPOP, BRPOP
    | Move(c: ClientId, key: Key, target: Key)            // BRPOPLPUSH
    | Wait(c: ClientId, btype: BType, keys: seq<Key>)     // BZPOPMIN, BZPOPMAX, XREAD, a module
    | Expire(c: ClientId)                                 // the timeout of a client
    | Append(k: Place)                                    // LPUSH, RPUSH
    | Put(k: Place, sortedOrStream: bool)                 // SET, ZADD, XADD, ... where they create or replace a key
    | Remove(k: Place)
    | Sort(k: Place, n: nat)                              // SORT ... STORE of n elements
    | Reprocess                                           // processUnblockedClients

  /** Between two commands: nothing is ready, and nobody waits for a list at a key that holds one. */
  ghost predicate Quiet(s: Server) reads s {
    s.Valid() && s.taken == [] && s.ready == [] && Heard(s.items, s.lists, s.owner, s.clients, [], None)
  }

  /** After a command, before the ready keys are served. */
  ghost predicate Told(s: Server) reads s {
    s.Valid() && s.taken == [] && Heard(s.items, s.lists, s.owner, s.clients, s.taken + s.ready, None)
  }

  /** A list is stored over a value of another type, and somebody waits for one there. */
  predicate Deaf(s: Server, r: Request) reads s {
    r.Sort? && r.n > 0 && r.k in s.others && !NobodyWaits(s.lists, s.owner, s.clients, r.k)
  }

  /** An element leaves a list, for the client or for another list; an emptied list goes. */
  method PopFrom(s: Server, k: Place, target: Option<Place>)
    requires Quiet(s) && k in s.items
    modifies s`items, s`ready, s`readySet
    ensures Told(s) && s.items == Swept(ServeOne(old(s.items), s.others, k, target), k)
  {
    hide IndexOk, CountersOk, FlagsOk, QueueOk, NobodyWaits, NoDup, ServeOne;
    assert s.taken + s.ready == [];
    s.MoveElement(k, target);
    SweptHeard(s.items, s.lists, s.owner, s.clients, s.taken + s.ready, k);
    s.Sweep(k);
  }

  predicate There(items: map<Place, nat>, others: set<Place>, k: Place) {
    k in items || k in others
  }

  /** blockingPopGenericCommand: the first key that is there decides, with an element or, if it is no list, an error;
      where none is, the client blocks on all of them. */
  method BlockingPop(s: Server, c: ClientId, keys: seq<Key>) returns (at: nat)
    requires Quiet(s) && c in s.clients && !s.clients[c].blocked && keys != []
    modifies s
    ensures Told(s) && s.others == old(s.others) && at <= |keys|
    ensures forall i :: 0 <= i < at ==> !There(old(s.items), s.others, Place(old(s.clients)[c].db, keys[i]))
    ensures at < |keys| ==>
              var k := Place(old(s.clients)[c].db, keys[at]);
              There(old(s.items), s.others, k) && s.clients == old(s.clients) && s.lists == old(s.lists) &&
              s.items == if k in s.others then old(s.items) else Swept(ServeOne(old(s.items), s.others, k, None), k)
    ensures at == |keys| ==>
              c in s.clients && s.items == old(s.items) && s.ready == [] && s.clients[c].blocked &&
              s.clients[c].btype == OnList &&
              s.clients[c].keys.Keys == (set x | x in keys) && s.clients[c].db == old(s.clients)[c].db
  {
    hide IndexOk, CountersOk, FlagsOk, QueueOk, NobodyWaits, NoDup, Heard, ServeOne, Swept, Joined;
    var db := s.clients[c].db;
    assert s.taken + s.ready == [];
    at := 0;
    while at < |keys|
      invariant unchanged(s) && at <= |keys|
      invariant forall i :: 0 <= i < at ==> !There(s.items, s.others, Place(db, keys[i]))
    {
      var k := Place(db, keys[at]);
      if k in s.others {
        return;
      } else if k in s.items {
        PopFrom(s, k, None);
        return;
      }
      at := at + 1;
    }
    s.BlockForKeys(c, OnList, keys, None);
  }

  /** brpoplpushCommand, and the rpoplpushCommand it turns into where there is a list. */
  method BlockingMove(s: Server, c: ClientId, key: Key, target: Key)
    requires Quiet(s) && c in s.clients && !s.clients[c].blocked
    modifies s
    ensures Told(s) && s.others == old(s.others) && c in s.clients
    ensures s.clients[c].blocked <==> !There(old(s.items), s.others, Place(old(s.clients)[c].db, key))
    ensures var k, d := Place(old(s.clients)[c].db, key), Place(old(s.clients)[c].db, target);
            if s.clients[c].blocked then
              s.items == old(s.items) && s.clients[c].keys.Keys == {key} && s.clients[c].target == Some(d)
            else
              s.clients == old(s.clients) &&
              s.items == if k in old(s.items) then Swept(ServeOne(old(s.items), s.others, k, Some(d)), k)
                         else old(s.items)
  {
    hide IndexOk, CountersOk, FlagsOk, QueueOk, NobodyWaits, NoDup, Heard, Swept, Joined, Pushed;
    var k, d := Place(s.clients[c].db, key), Place(s.clients[c].db, target);
    assert s.taken + s.ready == [];
    if !There(s.items, s.others, k) {
      s.BlockForKeys(c, OnList, [key], Some(d));
    } else if k in s.items && d !in s.others {
      PopFrom(s, k, Some(d));
    } else if k in s.items {
      NothingEmpty(s.items, s.lists, s.owner, s.clients, [], k);
    }
  }

  lemma NothingEmpty(items: map<Place, nat>, lists: Lists, owner: Owners, clients: Clients, queue: seq<Place>, k: Place)
    requires Heard(items, lists, owner, clients, queue, None) && k in items
    ensures items[k] > 0 && Swept(items, k) == items
  {
  }

  /** What is asked of a client: one that is not there yet, one that is not blocked, or one that is. */
  predicate Asked(s: Server, r: Request) reads s {
    match r
    case Arrive(c, _) => c !in s.clients
    case Pop(c, keys) => c in s.clients && !s.clients[c].blocked && keys != []
    case Move(c, _, _) => c in s.clients && !s.clients[c].blocked
    case Wait(c, btype, keys) =>
      c in s.clients && !s.clients[c].blocked && keys != [] && btype in {OnZset, OnStream, OnModule}
    case Expire(c) => c in s.clients && s.clients[c].blocked
    case _ => true
  }

  /** A request that asks nothing of a client, carried out on the keys. */
  method OnKeys(s: Server, r: Request)
    requires Quiet(s) && (r.Append? || r.Put? || r.Remove? || r.Sort?)
    modifies s
    ensures s.Valid() && s.taken == [] && (Told(s) <==> !old(Deaf(s, r))) && (old(Deaf(s, r)) ==> s.ready == [])
    ensures s.lists == old(s.lists) && s.owner == old(s.owner) && s.clients == old(s.clients)
    ensures r.Sort? && r.n > 0 ==> r.k in s.items && s.items[r.k] == r.n
  {
    hide IndexOk, CountersOk, FlagsOk, QueueOk, NobodyWaits, NoDup, Heard;
    assert s.taken + s.ready == [];
    match r
    case Append(k) => var _ := s.Push(k, None);
    case Put(k, sortedOrStream) => s.SetToOther(k, sortedOrStream);
    case Remove(k) => s.DeleteKey(k);
    case Sort(k, n) => s.StoreSorted(k, n);
  }

  method OnClients(s: Server, r: Request)
    requires Quiet(s) && Asked(s, r) && (r.Arrive? || r.Pop? || r.Move? || r.Wait? || r.Expire? || r.Reprocess?)
    modifies s
    ensures Told(s)
  {
    hide IndexOk, CountersOk, FlagsOk, QueueOk, NobodyWaits, NoDup, Heard;
    assert s.taken + s.ready == [];
    match r
    case Arrive(c, db) => s.Connect(c, db);
    case Pop(c, keys) => var _ := BlockingPop(s, c, keys);
    case Move(c, key, target) => BlockingMove(s, c, key, target);
    case Wait(c, btype, keys) => s.BlockForKeys(c, btype, keys, None);
    case Expire(c) => s.TimeOut(c);
    case Reprocess => var _ := s.ProcessUnblockedClients();
  }

  /** The end of processCommand. */
  method ServeReady(s: Server)
    requires Told(s)
    modifies s
    ensures Quiet(s)
  {
    hide IndexOk, CountersOk, FlagsOk, QueueOk, NobodyWaits, NoDup;
    assert s.taken + s.ready == s.ready;
    if s.ready != [] {
      var _ := s.HandleClientsBlockedOnKeys();
    }
  }

  /** A request, then the ready keys; one that cannot be asked changes nothing. */
  method Execute(s: Server, r: Request) returns (deaf: bool)
    requires Quiet(s)
    modifies s
    ensures s.Valid() && s.taken == [] && s.ready == [] && (deaf <==> old(Deaf(s, r))) && (Quiet(s) <==> !deaf)
    ensures deaf ==> r.k in s.items && s.items[r.k] == r.n > 0 && !NobodyWaits(s.lists, s.owner, s.clients, r.k)
  {
    hide IndexOk, CountersOk, FlagsOk, QueueOk, NobodyWaits, NoDup, Heard;
    deaf := Deaf(s, r);
    if r.Append? || r.Put? || r.Remove? || r.Sort? {
      OnKeys(s, r);
    } else if Asked(s, r) {
      OnClients(s, r);
    } else {
      assert s.taken + s.ready == [];
    }
    if !deaf {
      ServeReady(s);
    } else {
      assert s.taken + s.ready == [];
    }
  }

  /** Requests one after the other, as far as the first that leaves somebody waiting at a list: only SORT ... STORE over
      a key of another type, at which somebody waits for a list, does. */
  method ExecuteAll(s: Server, reqs: seq<Request>) returns (done: nat)
    requires Quiet(s)
    modifies s
    ensures done <= |reqs| && s.Valid() && s.taken == [] && s.ready == []
    ensures (forall k :: k in s.items ==> s.items[k] > 0 && NobodyWaits(s.lists, s.owner, s.clients, k)) <==>
            done == |reqs|
    ensures done < |reqs| ==> reqs[done].Sort? && reqs[done].n > 0 && reqs[done].k in s.items &&
                              !NobodyWaits(s.lists, s.owner, s.clients, reqs[done].k)
  {
    hide IndexOk, CountersOk, FlagsOk, QueueOk, NobodyWaits, NoDup;
    done := 0;
    while done < |reqs|
      invariant done <= |reqs| && Quiet(s)
    {
      var deaf := Execute(s, reqs[done]);
      if deaf {
        return;
      }
      done := done + 1;
    }
  }

  /** A server, and the requests BLPOP k, SET k, SORT ... STORE k: k then holds a list, its client waits, nothing is
      ready, and a further RPUSH makes nothing ready either. */
  method Starved() returns (s: Server)
    ensures fresh(s) && s.Valid() && s.taken == [] && s.ready == []
    ensures exists k :: k in s.items && s.items[k] > 0 && !NobodyWaits(s.lists, s.owner, s.clients, k)
  {
    hide IndexOk, CountersOk, FlagsOk, QueueOk, NoDup, NobodyWaits, Heard;
    var k := Place(0, "k");
    s := Waiter();
    s.SetToOther(k, false);
    s.StoreSorted(k, 3);
    OnlyList(s.items, s.lists, s.owner, s.clients, s.taken + s.ready, k);
    var _ := s.Push(k, Some(k));
  }

  /** BLPOP k where there is no key. */
  method Waiter() returns (s: Server)
    ensures fresh(s) && Told(s) && s.ready == [] && s.items == map[] && s.others == {}
    ensures !NobodyWaits(s.lists, s.owner, s.clients, Place(0, "k"))
  {
    hide IndexOk, CountersOk, FlagsOk, QueueOk, NoDup, NobodyWaits, Heard;
    s := new Server();
    NoLists(s.items, s.lists, s.owner, s.clients, s.taken + s.ready);
    s.Connect(1, 0);
    assert s.taken + s.ready == [];
    var at := BlockingPop(s, 1, ["k"]);
    assert at == 1 && "k" in s.clients[1].keys;
    s.HasIndex();
    SoleWaiter(s.lists, s.owner, s.clients, 1, "k");
  }

  lemma NoLists(items: map<Place, nat>, lists: Lists, owner: Owners, clients: Clients, queue: seq<Place>)
    requires items == map[]
    ensures Heard(items, lists, owner, clients, queue, None)
  {
  }

  lemma OnlyList(items: map<Place, nat>, lists: Lists, owner: Owners, clients: Clients, queue: seq<Place>, k: Place)
    requires items.Keys == {k}
    ensures Heard(items, lists, owner, clients, queue, Some(k))
  {
  }

  lemma SoleWaiter(lists: Lists, owner: Owners, clients: Clients, c: ClientId, key: Key)
    requires IndexOk(lists, owner, clients) && c in clients && key in clients[c].keys && clients[c].btype == OnList
    ensures !NobodyWaits(lists, owner, clients, Place(clients[c].db, key))
  {
    assert KeyOk(lists, owner, c, clients[c], key);
  }
}
