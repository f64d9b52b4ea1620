/** Blocking, unblocking and serving clients on the server's own fields. */
module BlockedServer {
  import opened Common
  import opened Blocked

  class Server {
    var lists: Lists                  // blocking_keys of every db
    var owner: Owners                 // the live list nodes
    var nextNode: Node                // an address never handed out
    var clients: Clients
    var unblocked: seq<ClientId>      // unblocked_clients
    var blockedClients: int
    var byType: map<BType, int>       // blocked_clients_by_type
    var ready: seq<Place>             // ready_keys, the list
    var readySet: set<Place>          // ready_keys of every db, the dictionaries
    var taken: seq<Place>             // the list handleClientsBlockedOnKeys is working through
    var items: map<Place, nat>        // the keys that hold a list, with its length
    var others: set<Place>            // the keys that hold something else

    ghost predicate Indexed()
      reads this`lists, this`owner, this`clients, this`nextNode
    {
      IndexOk(lists, owner, clients) && forall n :: n in owner ==> n < nextNode
    }

    ghost predicate Counted()
      reads this`clients, this`blockedClients, this`byType
    {
      CountersOk(clients, blockedClients, byType)
    }

    ghost predicate ReadyOk()
      reads this`taken, this`ready, this`readySet
    {
      NoDup(taken + ready) && forall k :: k in taken + ready <==> k in readySet
    }

    ghost predicate Typed()
      reads this`items, this`others
    {
      items.Keys !! others
    }

    ghost predicate Valid() reads this {
      Indexed() && Counted() && FlagsOk(clients) && QueueOk(clients, unblocked) && ReadyOk() && Typed()
    }

    lemma HasIndex()
      requires Valid()
      ensures IndexOk(lists, owner, clients)
    {
    }

    constructor ()
      ensures Valid() && clients == map[] && lists == map[] && items == map[] && others == {} && ready == []
      ensures taken == []
    {
      lists, owner, nextNode, clients, unblocked, ready, readySet, taken := map[], map[], 0, map[], [], [], {}, [];
      items, others := map[], {};
      blockedClients := 0;
      byType := map[NotBlocked := 0, OnList := 0, OnZset := 0, OnStream := 0, OnWait := 0, OnModule := 0];
      new;
      assert AllBlocked(clients) == {};
      forall t: BType
        ensures t in byType && byType[t] == |OfType(clients, t)|
      {
        assert OfType(clients, t) == {};
        match t
        case NotBlocked =>
        case OnList =>
        case OnZset =>
        case OnStream =>
        case OnWait =>
        case OnModule =>
      }
    }

    method Connect(c: ClientId, db: nat)
      requires Valid() && c !in clients
      modifies this`clients
      ensures Valid() && clients == old(clients)[c := Client(db, map[], None, NotBlocked, false, false)]
      ensures old(Heard(items, lists, owner, clients, taken + ready, None)) ==>
                Heard(items, lists, owner, clients, taken + ready, None)
    {
      hide IndexOk, CountersOk, NoDup, Heard;
      ghost var was := clients;
      clients := clients[c := Client(db, map[], None, NotBlocked, false, false)];
      NewClientCounts(was, c, db, blockedClients, byType);
      NewClientIndex(lists, owner, was, c, db);
      if Heard(items, lists, owner, was, taken + ready, None) {
        SameTypesHeard(items, lists, owner, clients, was, taken + ready);
      }
    }

    /** One turn of the loop of blockForKeys. */
    method BlockOnKey(c: ClientId, key: Key)
      requires Indexed() && c in clients
      modifies this`lists, this`owner, this`nextNode, this`clients
      ensures Indexed()
      ensures key in old(clients)[c].keys ==> clients == old(clients) && lists == old(lists)
      ensures key !in old(clients)[c].keys ==>
                var k := Place(old(clients)[c].db, key);
                clients == WithKey(old(clients), c, key, old(nextNode)) &&
                lists == old(lists)[k := ListAt(old(lists), k) + [old(nextNode)]]
    {
      if key in clients[c].keys {
        return;
      }
      AddOk(lists, owner, clients, c, key, nextNode);
      var k := Place(clients[c].db, key);
      clients := WithKey(clients, c, key, nextNode);
      lists := lists[k := ListAt(lists, k) + [nextNode]];
      owner := owner[nextNode := Standing(c, k)];
      nextNode := nextNode + 1;
    }

    /** The loop of blockForKeys. */
    method JoinLists(c: ClientId, keys: seq<Key>)
      requires Indexed() && c in clients && clients[c].keys == map[]
      modifies this`lists, this`owner, this`nextNode, this`clients
      ensures Indexed() && c in clients && clients == old(clients)[c := old(clients)[c].(keys := clients[c].keys)]
      ensures clients[c].keys.Keys == (set x | x in keys) && Joined(lists, old(lists), clients[c].db, clients[c].keys)
    {
      hide IndexOk, Joined;
      NothingJoined(lists, clients[c].db);
      for j := 0 to |keys|
        invariant Indexed() && c in clients && clients == old(clients)[c := old(clients)[c].(keys := clients[c].keys)]
        invariant clients[c].keys.Keys == set x | x in keys[..j]
        invariant Joined(lists, old(lists), clients[c].db, clients[c].keys)
      {
        assert keys[..j + 1] == keys[..j] + [keys[j]];
        if keys[j] !in clients[c].keys {
          JoinStep(lists, old(lists), clients[c].db, clients[c].keys, keys[j], nextNode);
        }
        BlockOnKey(c, keys[j]);
        assert clients == old(clients)[c := old(clients)[c].(keys := clients[c].keys)];
      }
      assert keys[..|keys|] == keys;
    }

    /** blockForKeys: the client joins the tail of the list of every key it names, once. */
    method BlockForKeys(c: ClientId, btype: BType, keys: seq<Key>, target: Option<Place>)
      requires Valid() && c in clients && !clients[c].blocked && keys != [] && (OnKeys(btype) || btype == OnModule)
      modifies this`lists, this`owner, this`nextNode, this`clients, this`blockedClients, this`byType
      ensures Valid() && c in clients
      ensures var x := old(clients)[c].(keys := clients[c].keys, target := target, btype := btype, blocked := true);
              clients == old(clients)[c := x]
      ensures clients[c].keys.Keys == (set x | x in keys) && Joined(lists, old(lists), clients[c].db, clients[c].keys)
      ensures old(Heard(items, lists, owner, clients, taken + ready, None)) &&
              (btype == OnList ==> forall x :: x in keys ==> Place(clients[c].db, x) !in items) ==>
                Heard(items, lists, owner, clients, taken + ready, None)
    {
      hide IndexOk, CountersOk, Joined, QueueOk, NoDup, Heard;
      ghost var lists0, owner0, clients0 := lists, owner, clients;
      Block(c, btype, keys, target);
      if Heard(items, lists0, owner0, clients0, taken + ready, None) &&
         (btype == OnList ==> forall x :: x in keys ==> Place(clients[c].db, x) !in items) {
        BlockHeard(items, lists, lists0, owner, owner0, clients, clients0, c, taken + ready);
      }
    }

    method Block(c: ClientId, btype: BType, keys: seq<Key>, target: Option<Place>)
      requires Valid() && c in clients && !clients[c].blocked && keys != [] && (OnKeys(btype) || btype == OnModule)
      modifies this`lists, this`owner, this`nextNode, this`clients, this`blockedClients, this`byType
      ensures Valid() && c in clients
      ensures var x := old(clients)[c].(keys := clients[c].keys, target := target, btype := btype, blocked := true);
              clients == old(clients)[c := x]
      ensures clients[c].keys.Keys == (set x | x in keys) && Joined(lists, old(lists), clients[c].db, clients[c].keys)
    {
      hide IndexOk, CountersOk, Joined, QueueOk, NoDup, FlagsOk;
      OneOk(clients, c);
      ghost var was := clients;
      Join(c, keys, target);
      AllOk(was);
      assert keys[0] in clients[c].keys;
      BlockClient(c, btype);
    }

    /** The target, then the lists. */
    method Join(c: ClientId, keys: seq<Key>, target: Option<Place>)
      requires Valid() && c in clients && clients[c].keys == map[]
      modifies this`lists, this`owner, this`nextNode, this`clients
      ensures Indexed() && Counted() && QueueOk(clients, unblocked) && c in clients
      ensures clients == old(clients)[c := old(clients)[c].(keys := clients[c].keys, target := target)]
      ensures clients[c].keys.Keys == (set x | x in keys) && Joined(lists, old(lists), clients[c].db, clients[c].keys)
    {
      hide IndexOk, CountersOk, Joined, QueueOk, NoDup, FlagsOk;
      ghost var was, y := clients, clients[c].(target := target);
      FlagsApart(lists, owner, clients, c, y);
      clients := clients[c := clients[c].(target := target)];
      JoinLists(c, keys);
      QueueApart(was, unblocked, c, clients[c]);
      SameCounts(was, c, clients[c], blockedClients, byType);
      assert was[c := clients[c]] == clients;
    }

    /** blockClient */
    method BlockClient(c: ClientId, btype: BType)
      requires Indexed() && Counted() && ReadyOk() && Typed() && c in clients && !clients[c].blocked
      requires btype != NotBlocked
      requires forall d :: d in clients && d != c ==> ClientOk(clients[d])
      requires ClientOk(clients[c].(btype := btype, blocked := true))
      requires QueueOk(clients, unblocked)
      modifies this`clients, this`blockedClients, this`byType
      ensures Valid() && clients == old(clients)[c := old(clients)[c].(btype := btype, blocked := true)]
    {
      hide IndexOk, CountersOk, ClientOk;
      ghost var x := clients[c].(btype := btype, blocked := true);
      BlockCounts(clients, c, x, blockedClients, byType);
      FlagsApart(lists, owner, clients, c, x);
      HasType(clients, blockedClients, byType, btype);
      clients := clients[c := clients[c].(btype := btype, blocked := true)];
      blockedClients := blockedClients + 1;
      byType := byType[btype := byType[btype] + 1];
    }

    /** The loop of unblockClientWaitingData; the assertion that the list is there cannot fail. */
    method LeaveLists(c: ClientId)
      requires Indexed() && c in clients
      modifies this`lists, this`owner
      ensures IndexOk(lists, owner, clients[c := clients[c].(keys := map[])])
      ensures forall n :: n in owner ==> n < nextNode
      ensures Left(lists, old(lists), clients[c].db, clients[c].keys)
      ensures forall n :: n in owner ==> n in old(owner) && owner[n] == old(owner)[n]
    {
      hide IndexOk, Left;
      var x := clients[c];
      var todo := x.keys;
      assert clients[c := x.(keys := todo)] == clients;
      NothingLeft(lists, x.db);
      assert x.keys - todo.Keys == map[];
      while todo != map[]
        invariant IndexOk(lists, owner, clients[c := x.(keys := todo)]) && forall n :: n in owner ==> n < nextNode
        invariant forall key :: key in todo ==> key in x.keys && x.keys[key] == todo[key]
        invariant Left(lists, old(lists), x.db, x.keys - todo.Keys)
        invariant forall n :: n in owner ==> n in old(owner) && owner[n] == old(owner)[n]
        decreases |todo.Keys|
      {
        assert todo.Keys != {};
        var key :| key in todo;
        LeftStep(lists, old(lists), x.db, x.keys - todo.Keys, key, todo[key]);
        KeysLeft(x.keys, todo, key);
        LeaveList(c, x, todo, key);
        todo := todo - {key};
      }
      assert x.keys - todo.Keys == x.keys;
    }

    /** One turn of that loop: `todo` is what is left of the client's table. */
    method LeaveList(c: ClientId, x: Client, todo: map<Key, Node>, key: Key)
      requires c in clients && key in todo && IndexOk(lists, owner, clients[c := x.(keys := todo)])
      requires forall n :: n in owner ==> n < nextNode
      modifies this`lists, this`owner
      ensures IndexOk(lists, owner, clients[c := x.(keys := todo - {key})]) && forall n :: n in owner ==> n < nextNode
      ensures lists == DropNode(old(lists), Place(x.db, key), todo[key]) && owner == old(owner) - {todo[key]}
    {
      hide IndexOk, DropNode;
      var k, n := Place(x.db, key), todo[key];
      ghost var now := clients[c := x.(keys := todo)];
      RemoveOk(lists, owner, now, c, key);
      assert k in lists;
      assert WithoutKey(now, c, key) == clients[c := x.(keys := todo - {key})];
      lists := DropNode(lists, k, n);
      owner := owner - {n};
    }

    /** unblockClient: off every list, out of the counters, into the queue once. */
    method UnblockClient(c: ClientId)
      requires Valid() && c in clients && clients[c].blocked
      modifies this`lists, this`owner, this`clients, this`unblocked, this`blockedClients, this`byType
      ensures Valid() && blockedClients == old(blockedClients) - 1
      ensures clients == old(clients)[c := Released(old(clients)[c])]
      ensures Left(lists, old(lists), old(clients)[c].db, old(clients)[c].keys)
      ensures unblocked == if old(clients)[c].queued then old(unblocked) else old(unblocked) + [c]
      ensures forall n :: n in owner ==> n in old(owner) && owner[n] == old(owner)[n]
    {
      hide IndexOk, CountersOk, Left, QueueOk, FlagsOk;
      var x := clients[c];
      assert ClientOk(x) by { OneOk(clients, c); }
      if OnKeys(x.btype) || (x.btype == OnModule && x.keys != map[]) {
        assert x.keys != map[];
        LeaveLists(c);
      } else {
        assert x.keys == map[];
        assert clients[c := x.(keys := map[])] == clients;
        NothingLeft(lists, x.db);
      }
      ClearBlock(c);
      QueueForReprocessing(c);
    }

    /** The timeout of a blocked client. */
    method TimeOut(c: ClientId)
      requires Valid() && c in clients && clients[c].blocked && Heard(items, lists, owner, clients, taken + ready, None)
      modifies this`lists, this`owner, this`clients, this`unblocked, this`blockedClients, this`byType
      ensures Valid() && clients == old(clients)[c := Released(old(clients)[c])]
      ensures Heard(items, lists, owner, clients, taken + ready, None)
    {
      hide IndexOk, CountersOk, QueueOk, FlagsOk, Heard, Left;
      ghost var was, owned, x, mid := lists, owner, clients[c], clients;
      UnblockClient(c);
      LostSome(lists, was, x.db, x.keys, owner, owned);
      ReleaseHeard(items, lists, was, owner, owned, clients, mid, c, taken + ready);
    }

    /** The counters and the flags of unblockClient. */
    method ClearBlock(c: ClientId)
      requires c in clients && clients[c].blocked && IndexOk(lists, owner, clients[c := clients[c].(keys := map[])])
      requires Counted() && FlagsOk(clients) && QueueOk(clients, unblocked) && ReadyOk() && Typed()
      requires forall n :: n in owner ==> n < nextNode
      modifies this`clients, this`blockedClients, this`byType
      ensures Valid() && blockedClients == old(blockedClients) - 1
      ensures clients ==
              old(clients)[c := old(clients)[c].(keys := map[], target := None, btype := NotBlocked, blocked := false)]
    {
      hide IndexOk, CountersOk;
      var x := clients[c];
      ghost var y := x.(keys := map[], target := None, btype := NotBlocked, blocked := false);
      UnblockCounts(clients, c, y, blockedClients, byType);
      FlagsApart(lists, owner, clients[c := x.(keys := map[])], c, y);
      assert clients[c := x.(keys := map[])][c := y] == clients[c := y];
      HasType(clients, blockedClients, byType, x.btype);
      blockedClients := blockedClients - 1;
      byType := byType[x.btype := byType[x.btype] - 1];
      clients := clients[c := x.(keys := map[], target := None, btype := NotBlocked, blocked := false)];
    }

    /** queueClientForReprocessing */
    method QueueForReprocessing(c: ClientId)
      requires Valid() && c in clients
      modifies this`clients, this`unblocked
      ensures Valid() && clients == old(clients)[c := old(clients)[c].(queued := true)]
      ensures unblocked == if old(clients)[c].queued then old(unblocked) else old(unblocked) + [c]
    {
      hide IndexOk, CountersOk;
      var y := clients[c].(queued := true);
      FlagsApart(lists, owner, clients, c, y);
      SameCounts(clients, c, y, blockedClients, byType);
      if !clients[c].queued {
        QueueSnoc(clients, unblocked, c);
        clients := clients[c := y];
        unblocked := unblocked + [c];
      } else {
        assert clients[c := y] == clients;
      }
    }

    /** processUnblockedClients, without what the clients' pending input goes on to do. */
    method ProcessUnblockedClients() returns (processed: seq<ClientId>)
      requires Valid()
      modifies this`clients, this`unblocked
      ensures Valid() && unblocked == [] && processed == old(unblocked)
      ensures clients.Keys == old(clients.Keys)
      ensures forall c :: c in clients ==> clients[c] == old(clients)[c].(queued := false)
      ensures old(Heard(items, lists, owner, clients, taken + ready, None)) ==>
                Heard(items, lists, owner, clients, taken + ready, None)
    {
      hide IndexOk, CountersOk, FlagsOk, QueueOk, Heard;
      processed := [];
      assert forall c :: c in clients ==> clients[c] == clients[c].(queued := c in unblocked) by {
        QueueSays(clients, unblocked);
      }
      while |unblocked| > 0
        invariant Valid() && processed + unblocked == old(unblocked)
        invariant clients.Keys == old(clients.Keys)
        invariant forall c :: c in clients ==> clients[c] == old(clients)[c].(queued := c in unblocked)
        decreases |unblocked|
      {
        assert processed + [unblocked[0]] + unblocked[1..] == processed + unblocked;
        var c := ProcessOne();
        processed := processed + [c];
      }
      assert processed + [] == processed;
      if Heard(items, lists, owner, old(clients), taken + ready, None) {
        SameTypesHeard(items, lists, owner, clients, old(clients), taken + ready);
      }
    }

    method ProcessOne() returns (c: ClientId)
      requires Valid() && unblocked != []
      modifies this`clients, this`unblocked
      ensures Valid() && c == old(unblocked)[0] && unblocked == old(unblocked)[1..] && c in old(clients)
      ensures c !in unblocked
      ensures clients == old(clients)[c := old(clients)[c].(queued := false)]
    {
      hide IndexOk, CountersOk;
      c := unblocked[0];
      var y := clients[c].(queued := false);
      FlagsApart(lists, owner, clients, c, y);
      SameCounts(clients, c, y, blockedClients, byType);
      clients := clients[c := y];
      unblocked := unblocked[1..];
    }

    /** signalKeyAsReady: a key somebody waits for is queued once. */
    method SignalKeyAsReady(k: Place)
      requires Valid()
      modifies this`ready, this`readySet
      ensures Valid()
      ensures ready == if k in lists && k !in taken + old(ready) then old(ready) + [k] else old(ready)
    {
      if k !in lists || k in readySet {
        return;
      }
      assert taken + (ready + [k]) == (taken + ready) + [k];
      ready := ready + [k];
      readySet := readySet + {k};
    }

    /** listRotateHeadToTail on the list of a key. */
    method Rotate(k: Place)
      requires Valid() && k in lists
      modifies this`lists
      ensures Valid() && old(lists)[k] != [] && lists == old(lists)[k := old(lists)[k][1..] + [old(lists)[k][0]]]
    {
      hide IndexOk, CountersOk;
      RotateOk(lists, owner, clients, k);
      lists := lists[k := lists[k][1..] + [lists[k][0]]];
    }

    /** listTypePop, then what serveClientBlockedOnList does with the element: it goes to the client, or to the target
        list, which is created and signalled if it is not there, or back where it was if the target is no list. */
    method MoveElement(k: Place, target: Option<Place>)
      requires Valid() && k in items && items[k] > 0 && Heard(items, lists, owner, clients, taken + ready, Some(k))
      modifies this`items, this`ready, this`readySet
      ensures Valid() && items == ServeOne(old(items), others, k, target) && k in items && old(ready) <= ready
      ensures Heard(items, lists, owner, clients, taken + ready, Some(k))
    {
      hide IndexOk, CountersOk, FlagsOk, QueueOk, NobodyWaits, NoDup;
      items := items[k := items[k] - 1];
      if target.Some? {
        var d := target.value;
        if d in others {
          items := items[k := items[k] + 1];
        } else {
          var _ := Push(d, Some(k));
        }
      }
    }

    /** rpoplpushHandlePush, and pushGenericCommand for one element: a list that was not there is signalled by dbAdd; a
        key that holds something else is refused. */
    method Push(d: Place, ghost but: Option<Place>) returns (ok: bool)
      requires Valid() && Heard(items, lists, owner, clients, taken + ready, but)
      modifies this`items, this`ready, this`readySet
      ensures Valid() && (ok <==> d !in others) && old(ready) <= ready && (d in old(items) ==> ready == old(ready))
      ensures items == if ok then Pushed(old(items), d) else old(items)
      ensures Heard(items, lists, owner, clients, taken + ready, but)
    {
      hide Valid, NobodyWaits, Heard;
      if d in others {
        return false;
      }
      ghost var before := ready;
      if d !in items {
        SignalKeyAsReady(d);
        if d !in lists {
          NoListNoWaiter(lists, owner, clients, d);
        }
      }
      PushHeard(items, lists, owner, clients, taken + before, taken + ready, d, but);
      AddElement(d);
      return true;
    }

    method AddElement(d: Place)
      requires Valid() && d !in others
      modifies this`items
      ensures Valid() && items == Pushed(old(items), d)
    {
      if d !in items {
        items := items[d := 0];
      }
      items := items[d := items[d] + 1];
    }

    /** dbDelete */
    method DeleteKey(k: Place)
      requires Valid() && Heard(items, lists, owner, clients, taken + ready, None)
      modifies this`items, this`others
      ensures Valid() && items == old(items) - {k} && others == old(others) - {k}
      ensures Heard(items, lists, owner, clients, taken + ready, None)
    {
      hide IndexOk, CountersOk, FlagsOk, QueueOk, NobodyWaits, NoDup;
      items, others := items - {k}, others - {k};
    }

    /** genericSetKey to something that is no list: dbAdd signals a sorted set or a stream. */
    method SetToOther(k: Place, sortedOrStream: bool)
      requires Valid() && Heard(items, lists, owner, clients, taken + ready, None)
      modifies this`items, this`others, this`ready, this`readySet
      ensures Valid() && items == old(items) - {k} && others == old(others) + {k} && old(ready) <= ready
      ensures k in old(items) || k in old(others) || !sortedOrStream ==> ready == old(ready)
      ensures Heard(items, lists, owner, clients, taken + ready, None)
    {
      hide IndexOk, CountersOk, FlagsOk, QueueOk, NobodyWaits, NoDup;
      if k !in items && k !in others && sortedOrStream {
        SignalKeyAsReady(k);
      }
      items, others := items - {k}, others + {k};
    }

    /** SORT ... STORE of `n` elements: nothing deletes the key, and genericSetKey signals a list only where dbAdd
        creates the key. So a waiting client hears of the list unless the key held something else and was not queued. */
    method StoreSorted(k: Place, n: nat)
      requires Valid() && Heard(items, lists, owner, clients, taken + ready, None)
      modifies this`items, this`others, this`ready, this`readySet
      ensures Valid() && others == old(others) - {k}
      ensures items == if n > 0 then old(items)[k := n] else old(items) - {k}
      ensures ready == if n > 0 && k !in old(items) && k !in old(others) && k in lists && k !in taken + old(ready)
                       then old(ready) + [k] else old(ready)
      ensures Heard(items, lists, owner, clients, taken + ready, None) <==>
              n > 0 && k in old(others) ==> NobodyWaits(lists, owner, clients, k) || k in taken + ready
    {
      hide Valid, NobodyWaits, Heard;
      if n == 0 {
        DeleteKey(k);
        return;
      }
      ghost var before := ready;
      if k !in items && k !in others {
        SignalKeyAsReady(k);
        if k !in lists {
          NoListNoWaiter(lists, owner, clients, k);
        }
      }
      StoreHeard(items, lists, owner, clients, taken + before, taken + ready, k, n);
      PutList(k, n);
    }

    method PutList(k: Place, n: nat)
      requires Valid()
      modifies this`items, this`others
      ensures Valid() && items == old(items)[k := n] && others == old(others) - {k}
    {
      items, others := items[k := n], others - {k};
    }

    /** One turn of the loop of serveClientsBlockedOnListKey: the head of the list is there, and is either moved
        to the tail, served, or left because nothing can be popped. */
    method ServeHead(k: Place) returns (receiver: ClientId, served: bool)
      requires Valid() && k in lists && k in items && Heard(items, lists, owner, clients, taken + ready, Some(k))
      modifies this`lists, this`owner, this`clients, this`unblocked, this`blockedClients, this`byType, this`items,
        this`ready, this`readySet
      ensures Valid() && k in items && Heard(items, lists, owner, clients, taken + ready, Some(k))
      ensures old(ready) <= ready
      ensures Turned(k, receiver, served, lists, owner, clients, items,
                     old(lists), old(owner), old(clients), old(items), others)
      ensures if served then blockedClients == old(blockedClients) - 1
              else ready == old(ready) && blockedClients == old(blockedClients)
    {
      hide IndexOk, CountersOk, FlagsOk, QueueOk, NoDup, Heard;
      HeadOk(lists, owner, clients, k);
      receiver := owner[lists[k][0]].c;
      assert ClientOk(clients[receiver]) by { OneOk(clients, receiver); }
      served := false;
      ghost var was, owned, x, before := lists, owner, clients[receiver], clients;
      if clients[receiver].btype != OnList {
        Rotate(k);
        assert forall k2, n :: n in ListAt(lists, k2) ==> n in ListAt(was, k2);
        FreedNone(clients);
        HeardLose(items, lists, was, owner, owned, clients, before, [], taken + ready, Some(k));
      } else if items[k] > 0 {
        WithoutHead(lists[k]);
        var target := clients[receiver].target;
        UnblockClient(receiver);
        LostSome(lists, was, x.db, x.keys, owner, owned);
        FreedNone(before);
        FreedMore(before, before, [], receiver);
        HeardLose(items, lists, was, owner, owned, clients, before, [] + [receiver], taken + ready, Some(k));
        MoveElement(k, target);
        served := true;
      }
      NodesOwned(lists, owner, clients, k);
    }

    /** The loop of serveClientsBlockedOnListKey: it looks at each client of the list once, and stops where nothing can
        be popped; it never runs past the list. */
    method ServeQueue(k: Place) returns (served: seq<ClientId>, ghost p: nat)
      requires Valid() && k in lists && k in items && Heard(items, lists, owner, clients, taken + ready, Some(k))
      modifies this`lists, this`owner, this`clients, this`unblocked, this`blockedClients, this`byType, this`items,
        this`ready, this`readySet
      ensures Valid() && k in items && Heard(items, lists, owner, clients, taken + ready, Some(k))
      ensures p <= |old(lists)[k]| && (p < |old(lists)[k]| ==> items[k] == 0)
      ensures served == Waiting(old(lists)[k][..p], old(owner), old(clients))
      ensures ListAt(lists, k) == old(lists)[k][p..] + Others(old(lists)[k][..p], old(owner), old(clients))
      ensures Freed(clients, old(clients), served) && OnlyLose(lists, old(lists), owner, old(owner))
      ensures items == ServeAll(old(items), others, k, Targets(served, old(clients)))
      ensures blockedClients == old(blockedClients) - |served| && old(ready) <= ready
      ensures served == [] ==> ready == old(ready)
    {
      hide IndexOk, Valid, Waiting, Others, Freed, OnlyLose, Heard, ServeAll, Targets, Looked, Turned;
      HasIndex();
      served, p := [], 0;
      ghost var q := lists[k];
      LookedNone(q, k, lists, owner, clients, items, others);
      var numclients := |lists[k]|;
      while numclients > 0
        invariant Valid() && k in items && Heard(items, lists, owner, clients, taken + ready, Some(k))
        invariant p <= |q| && numclients == |q| - p
        invariant Looked(q, p, k, served, lists, owner, clients, items,
                         old(lists), old(owner), old(clients), old(items), others)
        invariant blockedClients == old(blockedClients) - |served| && old(ready) <= ready
        invariant served == [] ==> ready == old(ready)
        decreases numclients
      {
        HasIndex();
        ghost var lists0, owner0, clients0, items0 := lists, owner, clients, items;
        NextToLook(q, p, k, served, lists, owner, clients, items, old(lists), old(owner), old(clients), old(items),
                   others);
        var isList := clients[owner[lists[k][0]].c].btype == OnList;
        var receiver, ok := ServeHead(k);
        LookedNext(q, p, k, served, receiver, ok, lists, owner, clients, items, lists0, owner0, clients0, items0,
                   old(lists), old(owner), old(clients), old(items), others);
        if isList {
          if !ok {
            break;
          }
          served := served + [receiver];
        }
        p := p + 1;
        numclients := numclients - 1;
      }
      LookedMeans(q, p, k, served, lists, owner, clients, items, old(lists), old(owner), old(clients), old(items),
                  others);
    }

    /** serveClientsBlockedOnListKey. Clients are served in the order they blocked; those blocked for another type go to
        the tail; a list that was emptied goes. */
    method ServeClientsBlockedOnListKey(k: Place) returns (served: seq<ClientId>)
      requires Valid() && k in items && Heard(items, lists, owner, clients, taken + ready, Some(k))
      modifies this`lists, this`owner, this`clients, this`unblocked, this`blockedClients, this`byType, this`items,
        this`ready, this`readySet
      ensures Valid() && Heard(items, lists, owner, clients, taken + ready, None)
      ensures exists p :: 0 <= p <= |ListAt(old(lists), k)| &&
                served == Waiting(ListAt(old(lists), k)[..p], old(owner), old(clients)) &&
                ListAt(lists, k) ==
                ListAt(old(lists), k)[p..] + Others(ListAt(old(lists), k)[..p], old(owner), old(clients)) &&
                (p < |ListAt(old(lists), k)| ==> k !in items)
      ensures Freed(clients, old(clients), served) && OnlyLose(lists, old(lists), owner, old(owner))
      ensures items == Swept(ServeAll(old(items), others, k, Targets(served, old(clients))), k)
      ensures blockedClients == old(blockedClients) - |served| && old(ready) <= ready
      ensures served == [] ==> ready == old(ready)
    {
      hide IndexOk, Valid, Waiting, Others, Freed, OnlyLose, NobodyWaits, Heard, ServeAll, ServeOne, Targets, Released;
      served := [];
      HasIndex();
      NothingYet(lists, owner, clients, k);
      NobodyYet(owner, clients);
      NoTargets(items, others, k, clients);
      OwnersKnown(lists, owner, clients, k);
      ghost var q, p := ListAt(lists, k), 0;
      assert q[..0] == [] && q[0..] + [] == q;
      if k in lists {
        served, p := ServeQueue(k);
      }
      HasIndex();
      if p == |q| {
        assert q[p..] == [] && q[..p] == q;
        assert [] + Others(q, old(owner), old(clients)) == Others(q, old(owner), old(clients));
        AllServed(lists, owner, clients, k, q, old(lists), old(owner), old(clients), served);
      }
      SweptHeard(items, lists, owner, clients, taken + ready, k);
      Sweep(k);
    }

    method Sweep(k: Place)
      requires Valid() && k in items
      modifies this`items
      ensures Valid() && items == Swept(old(items), k)
    {
      if items[k] == 0 {
        items := items - {k};
      }
    }

    /** One turn of handleClientsBlockedOnKeys: the key leaves the dictionary, so that it may be signalled again, then
        its clients are served if it holds a list. */
    method ServeReadyKey() returns (served: seq<ClientId>)
      requires Valid() && taken != [] && Heard(items, lists, owner, clients, taken + ready, None)
      modifies this
      ensures Valid() && taken == old(taken)[1..] && others == old(others)
      ensures Heard(items, lists, owner, clients, taken + ready, None)
      ensures Freed(clients, old(clients), served)
      ensures blockedClients == old(blockedClients) - |served| && (served == [] ==> ready == old(ready))
    {
      hide IndexOk, CountersOk, FlagsOk, QueueOk, Freed, OnlyLose, NobodyWaits, Waiting, Others, ServeAll, Swept,
        Targets;
      var k := taken[0];
      assert (taken + ready)[0] == k && (taken + ready)[1..] == taken[1..] + ready;
      HeadOnce(taken + ready);
      readySet := readySet - {k};
      taken := taken[1..];
      served := [];
      NothingYet(lists, owner, clients, k);
      if k in items {
        served := ServeClientsBlockedOnListKey(k);
      }
    }

    /** handleClientsBlockedOnKeys: over the ready keys, again and again, until none is ready. Every new signal costs a
        blocked client, so that it ends; and then nobody waits for a list where there is one. */
    method HandleClientsBlockedOnKeys() returns (served: seq<seq<ClientId>>)
      requires Valid() && taken == [] && Heard(items, lists, owner, clients, ready, None)
      modifies this
      ensures Valid() && taken == [] && ready == [] && others == old(others)
      ensures FreedInTurn(clients, old(clients), served)
      ensures forall k :: k in items ==> items[k] > 0 && NobodyWaits(lists, owner, clients, k)
    {
      hide IndexOk, FlagsOk, QueueOk, FreedInTurn, Freed, NobodyWaits, NoDup;
      served := [];
      FreedNobody(clients);
      while ready != []
        invariant Valid() && taken == [] && others == old(others) && Heard(items, lists, owner, clients, ready, None)
        invariant FreedInTurn(clients, old(clients), served)
        decreases blockedClients, |ready|
      {
        assert taken + ready == ready && ready + [] == ready;
        var before := blockedClients;
        taken, ready := ready, [];
        while taken != []
          invariant Valid() && others == old(others) && Heard(items, lists, owner, clients, taken + ready, None)
          invariant FreedInTurn(clients, old(clients), served)
          invariant blockedClients <= before && (blockedClients == before ==> ready == [])
          decreases |taken|
        {
          ghost var clients0 := clients;
          var now := ServeReadyKey();
          FreedNext(clients, clients0, old(clients), served, now);
          served := served + [now];
        }
        assert taken + ready == ready;
      }
    }
  }

  // ----- elements

  function Pushed(items: map<Place, nat>, d: Place): map<Place, nat> {
    items[d := (if d in items then items[d] else 0) + 1]
  }

  /** What serving one client at a key does to the lists. */
  function ServeOne(items: map<Place, nat>, others: set<Place>, k: Place, target: Option<Place>): map<Place, nat> {
    if k !in items || items[k] == 0 then items
    else
      var popped := items[k := items[k] - 1];
      if target == None then popped else if target.value in others then items else Pushed(popped, target.value)
  }

  function ServeAll(items: map<Place, nat>, others: set<Place>, k: Place,
                    targets: seq<Option<Place>>): map<Place, nat> {
    if targets == [] then items
    else ServeOne(ServeAll(items, others, k, targets[..|targets| - 1]), others, k, targets[|targets| - 1])
  }

  function Targets(served: seq<ClientId>, clients: Clients): seq<Option<Place>> {
    seq(|served|, i requires 0 <= i < |served| => if served[i] in clients then clients[served[i]].target else None)
  }

  /** dbDelete of a list that was emptied. */
  function Swept(items: map<Place, nat>, k: Place): map<Place, nat> {
    if k in items && items[k] == 0 then items - {k} else items
  }

  lemma NoTargets(items: map<Place, nat>, others: set<Place>, k: Place, clients: Clients)
    ensures ServeAll(items, others, k, Targets([], clients)) == items
  {
    assert Targets([], clients) == [];
  }

  lemma TargetsSnoc(items: map<Place, nat>, others: set<Place>, k: Place, served: seq<ClientId>, c: ClientId,
                    clients: Clients)
    requires c in clients
    ensures ServeAll(items, others, k, Targets(served + [c], clients)) ==
            ServeOne(ServeAll(items, others, k, Targets(served, clients)), others, k, clients[c].target)
  {
    hide ServeOne;
    var t := Targets(served + [c], clients);
    assert t[..|t| - 1] == Targets(served, clients) && t[|t| - 1] == clients[c].target;
  }

  /** Where there is a list, nobody waits for one or the key is queued; save perhaps at one key. */
  ghost predicate Heard(items: map<Place, nat>, lists: Lists, owner: Owners, clients: Clients, queue: seq<Place>,
                        but: Option<Place>) {
    forall j :: j in items && but != Some(j) ==> items[j] > 0 && (NobodyWaits(lists, owner, clients, j) || j in queue)
  }

  lemma NoListNoWaiter(lists: Lists, owner: Owners, clients: Clients, k: Place)
    requires k !in lists
    ensures NobodyWaits(lists, owner, clients, k)
  {
  }

  lemma PushHeard(items: map<Place, nat>, lists: Lists, owner: Owners, clients: Clients, queue: seq<Place>,
                  queue1: seq<Place>, d: Place, but: Option<Place>)
    requires Heard(items, lists, owner, clients, queue, but) && forall j :: j in queue ==> j in queue1
    requires d !in items ==> NobodyWaits(lists, owner, clients, d) || d in queue1
    ensures Heard(Pushed(items, d), lists, owner, clients, queue1, but)
  {
    hide NobodyWaits;
  }

  lemma StoreHeard(items: map<Place, nat>, lists: Lists, owner: Owners, clients: Clients, queue: seq<Place>,
                   queue1: seq<Place>, k: Place, n: nat)
    requires Heard(items, lists, owner, clients, queue, None) && forall j :: j in queue ==> j in queue1
    requires n > 0
    ensures Heard(items[k := n], lists, owner, clients, queue1, None) <==>
            NobodyWaits(lists, owner, clients, k) || k in queue1
    ensures k in items ==> NobodyWaits(lists, owner, clients, k) || k in queue1
  {
    hide NobodyWaits;
    var items1 := items[k := n];
    if Heard(items1, lists, owner, clients, queue1, None) {
      assert k in items1;
    }
  }

  lemma WaitsLess(lists: Lists, was: Lists, owner: Owners, owned: Owners, clients: Clients, mid: Clients,
                  served: seq<ClientId>, k: Place)
    requires OnlyLose(lists, was, owner, owned) && Freed(clients, mid, served) && IndexOk(lists, owner, clients)
    requires NobodyWaits(was, owned, mid, k)
    ensures NobodyWaits(lists, owner, clients, k)
  {
    hide IndexOk;
    OwnersKnown(lists, owner, clients, k);
  }

  lemma HeardLose(items: map<Place, nat>, lists: Lists, was: Lists, owner: Owners, owned: Owners, clients: Clients,
                  mid: Clients, served: seq<ClientId>, queue: seq<Place>, but: Option<Place>)
    requires OnlyLose(lists, was, owner, owned) && Freed(clients, mid, served) && IndexOk(lists, owner, clients)
    requires Heard(items, was, owned, mid, queue, but)
    ensures Heard(items, lists, owner, clients, queue, but)
  {
    hide IndexOk, OnlyLose, Freed, NobodyWaits;
    forall j | j in items && but != Some(j)
      ensures items[j] > 0 && (NobodyWaits(lists, owner, clients, j) || j in queue)
    {
      if NobodyWaits(was, owned, mid, j) {
        WaitsLess(lists, was, owner, owned, clients, mid, served, j);
      }
    }
  }

  lemma SameTypesHeard(items: map<Place, nat>, lists: Lists, owner: Owners, clients: Clients, was: Clients,
                       queue: seq<Place>)
    requires Heard(items, lists, owner, was, queue, None)
    requires forall c :: c in was ==> c in clients && clients[c].btype == was[c].btype
    ensures Heard(items, lists, owner, clients, queue, None)
  {
    assert forall j :: NobodyWaits(lists, owner, was, j) ==> NobodyWaits(lists, owner, clients, j);
  }

  /** A client that blocks where there is no list starves nobody. */
  lemma BlockHeard(items: map<Place, nat>, lists: Lists, was: Lists, owner: Owners, owned: Owners, clients: Clients,
                   mid: Clients, c: ClientId, queue: seq<Place>)
    requires IndexOk(lists, owner, clients) && IndexOk(was, owned, mid) && c in clients
    requires clients == mid[c := clients[c]]
    requires clients[c].btype == OnList ==> forall x :: x in clients[c].keys ==> Place(clients[c].db, x) !in items
    requires Heard(items, was, owned, mid, queue, None)
    ensures Heard(items, lists, owner, clients, queue, None)
  {
    hide IndexOk;
    forall j | j in items && NobodyWaits(was, owned, mid, j)
      ensures NobodyWaits(lists, owner, clients, j)
    {
      forall n | n in ListAt(lists, j)
        ensures n in owner && owner[n].c in clients && clients[owner[n].c].btype != OnList
      {
        StandsWhere(lists, was, owner, owned, clients, mid, c, j, n);
      }
    }
  }

  lemma StandsWhere(lists: Lists, was: Lists, owner: Owners, owned: Owners, clients: Clients, mid: Clients, c: ClientId,
                    j: Place, n: Node)
    requires IndexOk(lists, owner, clients) && IndexOk(was, owned, mid) && c in clients
    requires clients == mid[c := clients[c]]
    requires n in ListAt(lists, j)
    ensures n in owner && owner[n].c in clients && clients[owner[n].c].db == j.db && j.key in clients[owner[n].c].keys
    ensures owner[n].c != c ==>
              n in ListAt(was, j) && n in owned && owned[n].c == owner[n].c && mid[owner[n].c] == clients[owner[n].c]
  {
    assert ListOk(clients, owner, j, lists[j]);
    var i :| 0 <= i < |lists[j]| && lists[j][i] == n;
    assert NodeOk(clients, owner, j, lists[j][i]);
    var d := owner[n].c;
    if d != c {
      assert KeyOk(was, owned, d, mid[d], j.key);
      assert Place(mid[d].db, j.key) == j;
    }
  }

  /** Nor does one that is unblocked. */
  lemma ReleaseHeard(items: map<Place, nat>, lists: Lists, was: Lists, owner: Owners, owned: Owners, clients: Clients,
                     mid: Clients, c: ClientId, queue: seq<Place>)
    requires OnlyLose(lists, was, owner, owned) && IndexOk(lists, owner, clients) && c in mid
    requires clients == mid[c := Released(mid[c])]
    requires Heard(items, was, owned, mid, queue, None)
    ensures Heard(items, lists, owner, clients, queue, None)
  {
    hide IndexOk;
    forall j | j in items && NobodyWaits(was, owned, mid, j)
      ensures NobodyWaits(lists, owner, clients, j)
    {
      OwnersKnown(lists, owner, clients, j);
    }
  }

  lemma SweptHeard(items: map<Place, nat>, lists: Lists, owner: Owners, clients: Clients, queue: seq<Place>, k: Place)
    requires k in items && Heard(items, lists, owner, clients, queue, Some(k))
    requires items[k] == 0 || NobodyWaits(lists, owner, clients, k) || k in queue
    ensures Heard(Swept(items, k), lists, owner, clients, queue, None)
  {
    hide NobodyWaits;
  }

  lemma FreedNone(clients: Clients)
    ensures Freed(clients, clients, [])
  {
  }

  // ----- who was served

  ghost predicate AnyOf(c: ClientId, served: seq<seq<ClientId>>) {
    exists i :: 0 <= i < |served| && c in served[i]
  }

  /** Every client is as it was or was served, under exactly one key. */
  ghost predicate FreedInTurn(clients: Clients, was: Clients, served: seq<seq<ClientId>>) {
    clients.Keys == was.Keys &&
    (forall c :: c in was && !AnyOf(c, served) ==> clients[c] == was[c]) &&
    (forall i, c :: 0 <= i < |served| && c in served[i] ==>
       c in was && was[c].btype == OnList && clients[c] == Released(was[c])) &&
    (forall i, j, c :: 0 <= i < j < |served| && c in served[i] ==> c !in served[j])
  }

  lemma FreedNobody(clients: Clients)
    ensures FreedInTurn(clients, clients, [])
  {
  }

  lemma FreedNext(clients: Clients, mid: Clients, was: Clients, served: seq<seq<ClientId>>, now: seq<ClientId>)
    requires FreedInTurn(mid, was, served) && Freed(clients, mid, now)
    ensures FreedInTurn(clients, was, served + [now])
  {
    var all := served + [now];
    forall i, c | 0 <= i < |all| && c in all[i]
      ensures c in was && was[c].btype == OnList && clients[c] == Released(was[c])
      ensures i < |served| ==> c !in now
    {
      if i == |served| {
        assert !AnyOf(c, served);
      }
    }
    forall c | c in was && !AnyOf(c, all)
      ensures clients[c] == was[c]
    {
      assert c !in all[|served|];
      assert forall i :: 0 <= i < |served| ==> all[i] == served[i];
    }
  }

  /** Where the client now stands last: the lists of its keys, each longer by its node, the others as they were. */
  ghost predicate Joined(lists: Lists, was: Lists, db: nat, keys: map<Key, Node>) {
    forall k :: ListAt(lists, k) == ListAt(was, k) + (if k.db == db && k.key in keys then [keys[k.key]] else [])
  }

  lemma NothingJoined(lists: Lists, db: nat)
    ensures Joined(lists, lists, db, map[])
  {
  }

  lemma JoinStep(lists: Lists, was: Lists, db: nat, keys: map<Key, Node>, key: Key, n: Node)
    requires Joined(lists, was, db, keys) && key !in keys
    ensures Joined(lists[Place(db, key) := ListAt(lists, Place(db, key)) + [n]], was, db, keys[key := n])
  {
    var at := Place(db, key);
    forall k
      ensures ListAt(lists[at := ListAt(lists, at) + [n]], k) ==
              ListAt(was, k) + (if k.db == db && k.key in keys[key := n] then [keys[key := n][k.key]] else [])
    {
      if k == at {
        assert ListAt(was, k) + [] + [n] == ListAt(was, k) + [n];
      }
    }
  }

  /** The lists of the keys, each without its node, the others as they were. */
  ghost predicate Left(lists: Lists, was: Lists, db: nat, keys: map<Key, Node>) {
    forall k :: ListAt(lists, k) ==
      if k.db == db && k.key in keys then Without(ListAt(was, k), keys[k.key]) else ListAt(was, k)
  }

  lemma NothingLeft(lists: Lists, db: nat)
    ensures Left(lists, lists, db, map[])
  {
  }

  lemma LeftStep(lists: Lists, was: Lists, db: nat, keys: map<Key, Node>, key: Key, n: Node)
    requires Left(lists, was, db, keys) && key !in keys
    ensures Left(DropNode(lists, Place(db, key), n), was, db, keys[key := n])
  {
    hide DropNode;
    forall k
      ensures ListAt(DropNode(lists, Place(db, key), n), k) ==
              if k.db == db && k.key in keys[key := n] then Without(ListAt(was, k), keys[key := n][k.key])
              else ListAt(was, k)
    {
      DropNodeAt(lists, Place(db, key), n, k);
    }
  }

  lemma QueueSnoc(clients: Clients, q: seq<ClientId>, c: ClientId)
    requires QueueOk(clients, q) && c in clients && !clients[c].queued
    ensures QueueOk(clients[c := clients[c].(queued := true)], q + [c])
  {
    assert c !in q;
  }

  lemma QueueApart(clients: Clients, q: seq<ClientId>, c: ClientId, x: Client)
    requires QueueOk(clients, q) && c in clients && x.queued == clients[c].queued
    ensures QueueOk(clients[c := x], q)
  {
  }

  lemma HeadOk(lists: Lists, owner: Owners, clients: Clients, k: Place)
    requires IndexOk(lists, owner, clients) && k in lists
    ensures lists[k] != [] && NoDup(lists[k]) && NodeOk(clients, owner, k, lists[k][0])
  {
    assert ListOk(clients, owner, k, lists[k]);
  }

  lemma HeadOnce(q: seq<Place>)
    requires q != [] && NoDup(q)
    ensures q[0] !in q[1..] && NoDup(q[1..])
    ensures forall k :: k in q[1..] <==> k in q && k != q[0]
  {
    assert forall i :: 0 < i < |q| ==> q[i] != q[0];
  }

  lemma WithoutHead(q: seq<Node>)
    requires q != [] && NoDup(q)
    ensures Without(q, q[0]) == q[1..]
  {
    assert q[0] !in q[1..];
  }

  lemma NodesOwned(lists: Lists, owner: Owners, clients: Clients, k: Place)
    requires IndexOk(lists, owner, clients)
    ensures forall n :: n in ListAt(lists, k) ==> n in owner
  {
    if k in lists {
      assert ListOk(clients, owner, k, lists[k]);
    }
  }

  /** A client after it was unblocked. */
  function Released(x: Client): Client {
    x.(keys := map[], target := None, btype := NotBlocked, blocked := false, queued := true)
  }

  /** The served clients, which had been blocked for a list, are released; all others are as they were. */
  ghost predicate Freed(clients: Clients, was: Clients, served: seq<ClientId>) {
    clients.Keys == was.Keys &&
    (forall c :: c in was && c !in served ==> clients[c] == was[c]) &&
    (forall c :: c in served ==> c in was && was[c].btype == OnList && clients[c] == Released(was[c]))
  }

  /** No list has a node it did not have, and no node another client. */
  ghost predicate OnlyLose(lists: Lists, was: Lists, owner: Owners, owned: Owners) {
    (forall k, n :: n in ListAt(lists, k) ==> n in ListAt(was, k)) &&
    (forall n :: n in owner ==> n in owned && owner[n] == owned[n])
  }

  /** No client in the list of a key is blocked for a list. */
  predicate NobodyWaits(lists: Lists, owner: Owners, clients: Clients, k: Place) {
    forall n :: n in ListAt(lists, k) ==> n in owner && owner[n].c in clients && clients[owner[n].c].btype != OnList
  }

  lemma {:induction false} OthersDoNotWait(q: seq<Node>, owner: Owners, clients: Clients)
    requires forall n :: n in q ==> n in owner && owner[n].c in clients
    ensures forall n :: n in Others(q, owner, clients) ==> n in q && clients[owner[n].c].btype != OnList
  {
    if q != [] {
      OthersDoNotWait(q[1..], owner, clients);
    }
  }

  /** When every client of a list was looked at and none is left to be served, nobody waits there. */
  lemma AllServed(lists: Lists, owner: Owners, clients: Clients, k: Place,
                  q: seq<Node>, lists0: Lists, owned: Owners, was: Clients, served: seq<ClientId>)
    requires IndexOk(lists, owner, clients) && Freed(clients, was, served) && ListAt(lists, k) == Others(q, owned, was)
    requires forall n :: n in q ==> n in owned && owned[n].c in was
    requires OnlyLose(lists, lists0, owner, owned)
    ensures NobodyWaits(lists, owner, clients, k)
  {
    hide IndexOk;
    OthersDoNotWait(q, owned, was);
    OwnersKnown(lists, owner, clients, k);
  }

  lemma LostSome(lists: Lists, was: Lists, db: nat, keys: map<Key, Node>, owner: Owners, owned: Owners)
    requires Left(lists, was, db, keys) && forall n :: n in owner ==> n in owned && owner[n] == owned[n]
    ensures OnlyLose(lists, was, owner, owned)
  {
  }

  lemma NothingYet(lists: Lists, owner: Owners, clients: Clients, k: Place)
    ensures OnlyLose(lists, lists, owner, owner) && Freed(clients, clients, [])
    ensures k !in lists ==> NobodyWaits(lists, owner, clients, k)
  {
  }

  lemma LoseMore(lists: Lists, mid: Lists, was: Lists, owner: Owners, owner1: Owners, owned: Owners)
    requires OnlyLose(lists, mid, owner, owner1) && OnlyLose(mid, was, owner1, owned)
    ensures OnlyLose(lists, was, owner, owned)
  {
  }

  lemma FreedMore(clients: Clients, was: Clients, served: seq<ClientId>, c: ClientId)
    requires Freed(clients, was, served) && c in clients && clients[c].btype == OnList
    ensures Freed(clients[c := Released(clients[c])], was, served + [c]) && c !in served
  {
  }

  /** Nodes and clients that were not looked at yet are as they were. */
  ghost predicate AsBefore(rest: seq<Node>, owner: Owners, owned: Owners, clients: Clients, was: Clients) {
    forall n :: n in rest ==> n in owner && n in owned && owner[n] == owned[n] && SameClient(clients, was, owner[n].c)
  }

  lemma AllAsBefore(q: seq<Node>, owner: Owners, clients: Clients)
    requires forall n :: n in q ==> n in owner && owner[n].c in clients
    ensures AsBefore(q, owner, owner, clients, clients) && q[0..] == q
  {
  }

  lemma HeadAsBefore(rest: seq<Node>, owner: Owners, owned: Owners, clients: Clients, was: Clients)
    requires AsBefore(rest, owner, owned, clients, was) && rest != []
    ensures rest[0] in owner && rest[0] in owned && owner[rest[0]] == owned[rest[0]]
    ensures SameClient(clients, was, owner[rest[0]].c)
  {
  }

  predicate SameClient(a: Clients, b: Clients, c: ClientId) {
    c in a && c in b && a[c] == b[c]
  }

  predicate ForList(n: Node, owner: Owners, clients: Clients) {
    n in owner && owner[n].c in clients && clients[owner[n].c].btype == OnList
  }

  /** The clients blocked for a list among some nodes, in order; and the nodes of the others. */
  function Waiting(q: seq<Node>, owner: Owners, clients: Clients): seq<ClientId> {
    if q == [] then []
    else (if ForList(q[0], owner, clients) then [owner[q[0]].c] else []) + Waiting(q[1..], owner, clients)
  }

  function Others(q: seq<Node>, owner: Owners, clients: Clients): seq<Node> {
    if q == [] then []
    else (if ForList(q[0], owner, clients) then [] else [q[0]]) + Others(q[1..], owner, clients)
  }

  lemma NobodyYet(owner: Owners, clients: Clients)
    ensures Waiting([], owner, clients) == [] && Others([], owner, clients) == []
  {
  }

  lemma {:induction false} Snoc(q: seq<Node>, p: nat, owner: Owners, clients: Clients)
    requires p < |q| && q[p] in owner && owner[q[p]].c in clients
    ensures var c := owner[q[p]].c;
            Waiting(q[..p + 1], owner, clients) ==
            Waiting(q[..p], owner, clients) + (if clients[c].btype == OnList then [c] else []) &&
            Others(q[..p + 1], owner, clients) ==
            Others(q[..p], owner, clients) + (if clients[c].btype == OnList then [] else [q[p]])
    decreases p
  {
    if p > 0 {
      assert q[..p + 1][1..] == q[1..][..p] && q[..p][1..] == q[1..][..p - 1];
      Snoc(q[1..], p - 1, owner, clients);
    } else {
      assert q[..1][1..] == [];
    }
  }

  /** The list and the clients served after one more turn. */
  lemma NextTurn(q: seq<Node>, p: nat, owner: Owners, clients: Clients, l0: seq<Node>, now: seq<Node>)
    requires p < |q| && q[p] in owner && owner[q[p]].c in clients && l0 == q[p..] + Others(q[..p], owner, clients)
    requires now == l0[1..] + if clients[owner[q[p]].c].btype == OnList then [] else [q[p]]
    ensures now == q[p + 1..] + Others(q[..p + 1], owner, clients)
    ensures var c := owner[q[p]].c;
            Waiting(q[..p + 1], owner, clients) ==
            Waiting(q[..p], owner, clients) + (if clients[c].btype == OnList then [c] else [])
  {
    hide Others, Waiting;
    Snoc(q, p, owner, clients);
    var moved := Others(q[..p], owner, clients);
    assert l0[1..] == q[p + 1..] + moved;
    assert q[p + 1..] + moved + [q[p]] == q[p + 1..] + (moved + [q[p]]);
    assert q[p + 1..] + (moved + []) == q[p + 1..] + moved;
  }

  // ----- the loop over the clients of a key

  /** One turn: the first client is moved to the tail, served, or left because nothing can be popped. */
  ghost predicate Turned(k: Place, receiver: ClientId, served: bool,
                         lists: Lists, owner: Owners, clients: Clients, items: map<Place, nat>,
                         was: Lists, owned: Owners, mid: Clients, items0: map<Place, nat>, others: set<Place>)
  {
    k in was && was[k] != [] && k in items0 && was[k][0] in owned && receiver == owned[was[k][0]].c &&
    receiver in mid &&
    served == (mid[receiver].btype == OnList && items0[k] > 0) &&
    (if mid[receiver].btype != OnList then ListAt(lists, k) == was[k][1..] + [was[k][0]] && owner == owned
     else if served then ListAt(lists, k) == was[k][1..]
     else lists == was && owner == owned) &&
    items == (if served then ServeOne(items0, others, k, mid[receiver].target) else items0) &&
    clients == (if served then mid[receiver := Released(mid[receiver])] else mid) &&
    OnlyLose(lists, was, owner, owned) && forall n :: n in ListAt(lists, k) ==> n in owner
  }

  /** After the first `p` clients of the list `q` that the key had: those of them blocked for a list were served, in
      order, and the others stand behind the rest. */
  ghost predicate Looked(q: seq<Node>, p: nat, k: Place, served: seq<ClientId>,
                         lists: Lists, owner: Owners, clients: Clients, items: map<Place, nat>,
                         was: Lists, owned: Owners, mid: Clients, items0: map<Place, nat>, others: set<Place>)
  {
    p <= |q| && served == Waiting(q[..p], owned, mid) &&
    items == ServeAll(items0, others, k, Targets(served, mid)) &&
    ListAt(lists, k) == q[p..] + Others(q[..p], owned, mid) &&
    Freed(clients, mid, served) && OnlyLose(lists, was, owner, owned) && AsBefore(q[p..], owner, owned, clients, mid)
  }

  lemma LookedNone(q: seq<Node>, k: Place, lists: Lists, owner: Owners, clients: Clients, items: map<Place, nat>,
                   others: set<Place>)
    requires IndexOk(lists, owner, clients) && k in lists && q == lists[k]
    ensures Looked(q, 0, k, [], lists, owner, clients, items, lists, owner, clients, items, others)
  {
    hide IndexOk, Waiting, Others, ServeAll, Targets, Freed, OnlyLose, AsBefore;
    NothingYet(lists, owner, clients, k);
    OwnersKnown(lists, owner, clients, k);
    NobodyYet(owner, clients);
    NoTargets(items, others, k, clients);
    AllAsBefore(q, owner, clients);
    assert q[..0] == [] && q[0..] + [] == q;
  }

  lemma NextToLook(q: seq<Node>, p: nat, k: Place, served: seq<ClientId>,
                   lists: Lists, owner: Owners, clients: Clients, items: map<Place, nat>,
                   was: Lists, owned: Owners, mid: Clients, items0: map<Place, nat>, others: set<Place>)
    requires Looked(q, p, k, served, lists, owner, clients, items, was, owned, mid, items0, others) && p < |q|
    ensures k in lists && lists[k] != [] && lists[k][0] == q[p] && q[p] in owner && q[p] in owned
    ensures owner[q[p]] == owned[q[p]] && SameClient(clients, mid, owner[q[p]].c)
  {
    hide Waiting, Others, ServeAll, Targets, Freed, OnlyLose;
    HeadAsBefore(q[p..], owner, owned, clients, mid);
  }

  lemma LookedNext(q: seq<Node>, p: nat, k: Place, served: seq<ClientId>, receiver: ClientId, ok: bool,
                   lists: Lists, owner: Owners, clients: Clients, items: map<Place, nat>,
                   lists0: Lists, owner0: Owners, clients0: Clients, items1: map<Place, nat>,
                   was: Lists, owned: Owners, mid: Clients, items0: map<Place, nat>, others: set<Place>)
    requires Looked(q, p, k, served, lists0, owner0, clients0, items1, was, owned, mid, items0, others) && p < |q|
    requires IndexOk(lists0, owner0, clients0)
    requires Turned(k, receiver, ok, lists, owner, clients, items, lists0, owner0, clients0, items1, others)
    ensures q[p] in owner0 && receiver == owner0[q[p]].c && receiver in clients0
    ensures ok ==> clients0[receiver].btype == OnList
    ensures clients0[receiver].btype == OnList && !ok ==>
              k in items && items[k] == 0 &&
              Looked(q, p, k, served, lists, owner, clients, items, was, owned, mid, items0, others)
    ensures clients0[receiver].btype != OnList || ok ==>
              var served1 := if ok then served + [receiver] else served;
              Looked(q, p + 1, k, served1, lists, owner, clients, items, was, owned, mid, items0, others)
  {
    hide IndexOk, Waiting, Others, ServeAll, ServeOne, Targets, Freed, OnlyLose, AsBefore, Released;
    NextToLook(q, p, k, served, lists0, owner0, clients0, items1, was, owned, mid, items0, others);
    if clients0[receiver].btype != OnList || ok {
      var moved := Others(q[..p], owned, mid);
      HeadAndRest(lists0, owner0, clients0, k, q, p, moved);
      LoseMore(lists, lists0, was, owner, owner0, owned);
      LookedRest(q, p, k, receiver, lists, owner, clients, lists0, owner0, clients0, was, owned, mid, moved);
      NextTurn(q, p, owned, mid, lists0[k], ListAt(lists, k));
      if ok {
        FreedMore(clients0, mid, served, receiver);
        TargetsSnoc(items0, others, k, served, receiver, mid);
      }
    }
  }

  /** The clients that were not looked at yet are as they were, after one more turn. */
  lemma LookedRest(q: seq<Node>, p: nat, k: Place, receiver: ClientId, lists: Lists, owner: Owners, clients: Clients,
                   lists0: Lists, owner0: Owners, clients0: Clients, was: Lists, owned: Owners, mid: Clients,
                   moved: seq<Node>)
    requires p < |q| && AsBefore(q[p..], owner0, owned, clients0, mid) && OnlyLose(lists, lists0, owner, owner0)
    requires k in lists0 && lists0[k] == q[p..] + moved && lists0[k][1..] == q[p + 1..] + moved
    requires forall n :: n in q[p + 1..] ==> n in owner0 && owner0[n].c != receiver && n in q[p..]
    requires forall n :: n in ListAt(lists, k) ==> n in owner
    requires ListAt(lists, k) == lists0[k][1..] || ListAt(lists, k) == lists0[k][1..] + [lists0[k][0]]
    requires clients.Keys == clients0.Keys && forall d :: d in clients && d != receiver ==> clients[d] == clients0[d]
    ensures AsBefore(q[p + 1..], owner, owned, clients, mid)
  {
    forall n | n in q[p + 1..]
      ensures n in owner && n in owned && owner[n] == owned[n] && SameClient(clients, mid, owner[n].c)
    {
      assert n in ListAt(lists, k);
    }
  }

  lemma LookedMeans(q: seq<Node>, p: nat, k: Place, served: seq<ClientId>,
                    lists: Lists, owner: Owners, clients: Clients, items: map<Place, nat>,
                    was: Lists, owned: Owners, mid: Clients, items0: map<Place, nat>, others: set<Place>)
    requires Looked(q, p, k, served, lists, owner, clients, items, was, owned, mid, items0, others)
    ensures served == Waiting(q[..p], owned, mid) && ListAt(lists, k) == q[p..] + Others(q[..p], owned, mid)
    ensures items == ServeAll(items0, others, k, Targets(served, mid))
    ensures Freed(clients, mid, served) && OnlyLose(lists, was, owner, owned)
  {
  }

  lemma OwnersKnown(lists: Lists, owner: Owners, clients: Clients, k: Place)
    requires IndexOk(lists, owner, clients)
    ensures forall n :: n in ListAt(lists, k) ==> n in owner && owner[n].c in clients
  {
    if k in lists {
      assert ListOk(clients, owner, k, lists[k]);
    }
  }

  /** Nodes of one list belong to different clients. */
  lemma KeepOthers(lists: Lists, owner: Owners, clients: Clients, k: Place)
    requires IndexOk(lists, owner, clients) && k in lists
    ensures lists[k] != []
    ensures forall i :: 0 < i < |lists[k]| ==>
              lists[k][i] in owner && lists[k][0] in owner && owner[lists[k][i]].c != owner[lists[k][0]].c
  {
    assert ListOk(clients, owner, k, lists[k]);
    forall i | 0 < i < |lists[k]|
      ensures lists[k][i] in owner && lists[k][0] in owner && owner[lists[k][i]].c != owner[lists[k][0]].c
    {
      assert NodeOk(clients, owner, k, lists[k][i]) && NodeOk(clients, owner, k, lists[k][0]);
    }
  }

  lemma HeadAndRest(lists: Lists, owner: Owners, clients: Clients, k: Place, q: seq<Node>, p: nat, moved: seq<Node>)
    requires IndexOk(lists, owner, clients) && k in lists && p < |q| && lists[k] == q[p..] + moved
    ensures lists[k] != [] && lists[k][0] == q[p] && lists[k][1..] == q[p + 1..] + moved
    ensures (q[p + 1..] + moved) + [q[p]] == q[p + 1..] + (moved + [q[p]])
    ensures q[p] in owner && forall n :: n in q[p + 1..] ==> n in owner && owner[n].c != owner[q[p]].c && n in q[p..]
  {
    hide IndexOk;
    HeadOk(lists, owner, clients, k);
    KeepOthers(lists, owner, clients, k);
    var rest := q[p + 1..];
    assert q[p..] == [q[p]] + rest;
    forall n | n in rest
      ensures n in owner && owner[n].c != owner[q[p]].c && n in q[p..]
    {
      var m :| 0 <= m < |rest| && rest[m] == n;
      assert lists[k][m + 1] == n;
    }
  }

  lemma OneOk(clients: Clients, c: ClientId)
    requires FlagsOk(clients) && c in clients
    ensures ClientOk(clients[c])
  {
  }

  lemma AllOk(clients: Clients)
    requires FlagsOk(clients)
    ensures forall c :: c in clients ==> ClientOk(clients[c])
  {
  }

  lemma QueueSays(clients: Clients, q: seq<ClientId>)
    requires QueueOk(clients, q)
    ensures forall c :: c in clients ==> (clients[c].queued <==> c in q)
  {
  }

  lemma KeysLeft(keys: map<Key, Node>, todo: map<Key, Node>, key: Key)
    requires key in todo && key in keys && keys[key] == todo[key]
    ensures (todo - {key}).Keys == todo.Keys - {key}
    ensures keys - (todo - {key}).Keys == (keys - todo.Keys)[key := todo[key]]
  {
  }

  lemma HasType(clients: Clients, total: int, byType: map<BType, int>, t: BType)
    requires CountersOk(clients, total, byType)
    ensures t in byType
  {
  }

  lemma NewClientCounts(clients: Clients, c: ClientId, db: nat, total: int, byType: map<BType, int>)
    requires CountersOk(clients, total, byType) && c !in clients
    ensures CountersOk(clients[c := Client(db, map[], None, NotBlocked, false, false)], total, byType)
  {
    var clients1 := clients[c := Client(db, map[], None, NotBlocked, false, false)];
    assert AllBlocked(clients1) == AllBlocked(clients);
    forall t: BType
      ensures OfType(clients1, t) == OfType(clients, t)
    {
    }
  }

  lemma NewClientIndex(lists: Lists, owner: Owners, clients: Clients, c: ClientId, db: nat)
    requires IndexOk(lists, owner, clients) && c !in clients
    ensures IndexOk(lists, owner, clients[c := Client(db, map[], None, NotBlocked, false, false)])
  {
    var clients1 := clients[c := Client(db, map[], None, NotBlocked, false, false)];
    forall k | k in lists
      ensures ListOk(clients1, owner, k, lists[k])
    {
      assert ListOk(clients, owner, k, lists[k]);
      forall i | 0 <= i < |lists[k]|
        ensures NodeOk(clients1, owner, k, lists[k][i])
      {
        assert NodeOk(clients, owner, k, lists[k][i]);
      }
    }
    forall d, key | d in clients1 && key in clients1[d].keys
      ensures KeyOk(lists, owner, d, clients1[d], key)
    {
      assert KeyOk(lists, owner, d, clients[d], key);
    }
  }
}
