/** The index of clients blocked on keys (src/blocked.c): for every key the list of waiting clients, for every
    client the list nodes it stands on. A list is the sequence of its nodes, a node is known by its address. */
module Blocked {
  import opened Common

  type ClientId = nat
  type Node = nat
  type Key = string

  /** A key of a db. */
  datatype Place = Place(db: nat, key: Key)

  datatype BType = NotBlocked | OnList | OnZset | OnStream | OnWait | OnModule

  datatype Client = Client(
    db: nat,
    keys: map<Key, Node>,     // bpop.keys, with the listnode of each bkinfo
    target: Option<Place>,    // bpop.target
    btype: BType,
    blocked: bool,            // CLIENT_BLOCKED
    queued: bool)             // CLIENT_UNBLOCKED

  type Lists = map<Place, seq<Node>>
  type Clients = map<ClientId, Client>

  /** A list node: its value, and the key whose list it was allocated for. */
  datatype Standing = Standing(c: ClientId, place: Place)

  type Owners = map<Node, Standing>

  predicate NoDup<T(==)>(q: seq<T>) {
    forall i, j :: 0 <= i < j < |q| ==> q[i] != q[j]
  }

  // ----- the two sides of the index

  /** Node n of the list of a key belongs to a client that stores n for that key. */
  predicate NodeOk(clients: Clients, owner: Owners, k: Place, n: Node) {
    n in owner && owner[n].place == k && owner[n].c in clients && clients[owner[n].c].db == k.db &&
    k.key in clients[owner[n].c].keys && clients[owner[n].c].keys[k.key] == n
  }

  predicate ListOk(clients: Clients, owner: Owners, k: Place, q: seq<Node>) {
    q != [] && NoDup(q) && forall i :: 0 <= i < |q| ==> NodeOk(clients, owner, k, q[i])
  }

  /** A key in a client's table: its stored node is in the list of that key, and is the client's. */
  predicate KeyOk(lists: Lists, owner: Owners, c: ClientId, cl: Client, key: Key)
    requires key in cl.keys
  {
    Place(cl.db, key) in lists && cl.keys[key] in lists[Place(cl.db, key)] && cl.keys[key] in owner &&
    owner[cl.keys[key]] == Standing(c, Place(cl.db, key))
  }

  ghost predicate IndexOk(lists: Lists, owner: Owners, clients: Clients) {
    (forall k :: k in lists ==> ListOk(clients, owner, k, lists[k])) &&
    (forall c, key :: c in clients && key in clients[c].keys ==> KeyOk(lists, owner, c, clients[c], key))
  }

  /** The client's only node in a list is n. */
  predicate OnceAt(q: seq<Node>, owner: Owners, c: ClientId, n: Node) {
    n in q && forall j :: 0 <= j < |q| ==> q[j] in owner && (owner[q[j]].c == c <==> q[j] == n)
  }

  /** A client stands in the list of a key exactly once iff the key is in its table, and there at the stored node. */
  lemma TwoWay(lists: Lists, owner: Owners, clients: Clients, c: ClientId, k: Place)
    requires IndexOk(lists, owner, clients) && c in clients && clients[c].db == k.db
    ensures k.key in clients[c].keys <==>
            k in lists && exists i :: 0 <= i < |lists[k]| && lists[k][i] in owner && owner[lists[k][i]].c == c
    ensures k.key in clients[c].keys ==> k in lists && OnceAt(lists[k], owner, c, clients[c].keys[k.key])
  {
    if k.key in clients[c].keys {
      assert KeyOk(lists, owner, c, clients[c], k.key);
      assert Place(clients[c].db, k.key) == k;
      forall j | 0 <= j < |lists[k]|
        ensures lists[k][j] in owner && (owner[lists[k][j]].c == c <==> lists[k][j] == clients[c].keys[k.key])
      {
        assert NodeOk(clients, owner, k, lists[k][j]);
      }
    } else if k in lists {
      forall i | 0 <= i < |lists[k]|
        ensures lists[k][i] in owner && owner[lists[k][i]].c != c
      {
        assert NodeOk(clients, owner, k, lists[k][i]);
      }
    }
  }

  // ----- changes of the index

  function ListAt(lists: Lists, k: Place): seq<Node> {
    if k in lists then lists[k] else []
  }

  function WithKey(clients: Clients, c: ClientId, key: Key, n: Node): Clients
    requires c in clients
  {
    clients[c := clients[c].(keys := clients[c].keys[key := n])]
  }

  function WithoutKey(clients: Clients, c: ClientId, key: Key): Clients
    requires c in clients
  {
    clients[c := clients[c].(keys := clients[c].keys - {key})]
  }

  lemma AddOk(lists: Lists, owner: Owners, clients: Clients, c: ClientId, key: Key, n: Node)
    requires IndexOk(lists, owner, clients) && c in clients && key !in clients[c].keys && n !in owner
    ensures var k := Place(clients[c].db, key);
            IndexOk(lists[k := ListAt(lists, k) + [n]], owner[n := Standing(c, k)], WithKey(clients, c, key, n))
  {
    var k := Place(clients[c].db, key);
    var lists1, owner1 := lists[k := ListAt(lists, k) + [n]], owner[n := Standing(c, k)];
    var clients1 := WithKey(clients, c, key, n);
    forall j | j in lists1
      ensures ListOk(clients1, owner1, j, lists1[j])
    {
      if j in lists {
        assert ListOk(clients, owner, j, lists[j]);
        forall i | 0 <= i < |lists[j]|
          ensures NodeOk(clients1, owner1, j, lists[j][i]) && lists[j][i] != n
        {
          assert NodeOk(clients, owner, j, lists[j][i]);
        }
      }
    }
    forall d, x | d in clients1 && x in clients1[d].keys
      ensures KeyOk(lists1, owner1, d, clients1[d], x)
    {
      if !(d == c && x == key) {
        assert KeyOk(lists, owner, d, clients[d], x);
      }
    }
  }

  /** listDelNode on the sequence of nodes. */
  function Without(q: seq<Node>, n: Node): (r: seq<Node>)
    ensures forall x :: x in r <==> x in q && x != n
    ensures NoDup(q) ==> NoDup(r)
    ensures n !in q ==> r == q
  {
    if q == [] then []
    else if q[0] == n then Without(q[1..], n)
    else
      assert NoDup(q) ==> NoDup(q[1..]) && q[0] !in q[1..];
      [q[0]] + Without(q[1..], n)
  }

  /** The list of a key without a node; an empty list is dropped. */
  function DropNode(lists: Lists, k: Place, n: Node): Lists {
    var q := Without(ListAt(lists, k), n);
    if q == [] then lists - {k} else lists[k := q]
  }

  lemma DropNodeAt(lists: Lists, k: Place, n: Node, j: Place)
    ensures ListAt(DropNode(lists, k, n), j) == if j == k then Without(ListAt(lists, k), n) else ListAt(lists, j)
  {
  }

  lemma RemoveOk(lists: Lists, owner: Owners, clients: Clients, c: ClientId, key: Key)
    requires IndexOk(lists, owner, clients) && c in clients && key in clients[c].keys
    ensures var k, n := Place(clients[c].db, key), clients[c].keys[key];
            k in lists && n in lists[k] && IndexOk(DropNode(lists, k, n), owner - {n}, WithoutKey(clients, c, key))
  {
    var k, n := Place(clients[c].db, key), clients[c].keys[key];
    assert KeyOk(lists, owner, c, clients[c], key);
    var lists1, owner1, clients1 := DropNode(lists, k, n), owner - {n}, WithoutKey(clients, c, key);
    forall j | j in lists1
      ensures ListOk(clients1, owner1, j, lists1[j])
    {
      assert ListOk(clients, owner, j, lists[j]);
      forall i | 0 <= i < |lists1[j]|
        ensures NodeOk(clients1, owner1, j, lists1[j][i])
      {
        var x := lists1[j][i];
        assert x in lists[j];
        assert NodeOk(clients, owner, j, x);
      }
    }
    forall d, x | d in clients1 && x in clients1[d].keys
      ensures KeyOk(lists1, owner1, d, clients1[d], x)
    {
      assert KeyOk(lists, owner, d, clients[d], x);
    }
  }

  /** Moving the head to the tail keeps the nodes, so it keeps the index. */
  lemma RotateOk(lists: Lists, owner: Owners, clients: Clients, k: Place)
    requires IndexOk(lists, owner, clients) && k in lists
    ensures lists[k] != [] && IndexOk(lists[k := lists[k][1..] + [lists[k][0]]], owner, clients)
  {
    var q := lists[k];
    assert ListOk(clients, owner, k, q);
    var r := q[1..] + [q[0]];
    var lists1 := lists[k := r];
    assert forall x :: x in r <==> x in q;
    forall j | j in lists1
      ensures ListOk(clients, owner, j, lists1[j])
    {
      assert ListOk(clients, owner, j, lists[j]);
      forall i | 0 <= i < |lists1[j]|
        ensures NodeOk(clients, owner, j, lists1[j][i])
      {
        assert lists1[j][i] in lists[j];
      }
    }
    forall d, x | d in clients && x in clients[d].keys
      ensures KeyOk(lists1, owner, d, clients[d], x)
    {
      assert KeyOk(lists, owner, d, clients[d], x);
    }
  }

  /** Flags and types of clients are not part of the index. */
  lemma FlagsApart(lists: Lists, owner: Owners, clients: Clients, c: ClientId, x: Client)
    requires IndexOk(lists, owner, clients) && c in clients && x.db == clients[c].db && x.keys == clients[c].keys
    ensures IndexOk(lists, owner, clients[c := x])
  {
    var clients1 := clients[c := x];
    forall k | k in lists
      ensures ListOk(clients1, owner, k, lists[k])
    {
      assert ListOk(clients, owner, k, lists[k]);
      forall i | 0 <= i < |lists[k]|
        ensures NodeOk(clients1, owner, k, lists[k][i])
      {
        assert NodeOk(clients, owner, k, lists[k][i]);
      }
    }
    forall d, key | d in clients1 && key in clients1[d].keys
      ensures KeyOk(lists, owner, d, clients1[d], key)
    {
      assert KeyOk(lists, owner, d, clients[d], key);
    }
  }

  // ----- flags and counters

  predicate OnKeys(t: BType) {
    t == OnList || t == OnZset || t == OnStream
  }

  predicate ClientOk(x: Client) {
    (x.blocked <==> x.btype != NotBlocked) && (x.keys != map[] ==> OnKeys(x.btype) || x.btype == OnModule) &&
    (OnKeys(x.btype) ==> x.keys != map[])
  }

  function OfType(clients: Clients, t: BType): set<ClientId> {
    set c | c in clients && clients[c].blocked && clients[c].btype == t
  }

  function AllBlocked(clients: Clients): set<ClientId> {
    set c | c in clients && clients[c].blocked
  }

  ghost predicate CountersOk(clients: Clients, total: int, byType: map<BType, int>) {
    total == |AllBlocked(clients)| && forall t :: t in byType && byType[t] == |OfType(clients, t)|
  }

  lemma BlockCountOf(clients: Clients, c: ClientId, x: Client, t: BType)
    requires c in clients && !clients[c].blocked && x.blocked
    ensures |OfType(clients[c := x], t)| == |OfType(clients, t)| + if t == x.btype then 1 else 0
  {
    assert c !in OfType(clients, t);
    assert OfType(clients[c := x], t) == if t == x.btype then OfType(clients, t) + {c} else OfType(clients, t);
  }

  lemma BlockCounts(clients: Clients, c: ClientId, x: Client, total: int, byType: map<BType, int>)
    requires CountersOk(clients, total, byType) && c in clients && !clients[c].blocked && x.blocked
    ensures CountersOk(clients[c := x], total + 1, byType[x.btype := byType[x.btype] + 1])
  {
    hide OfType;
    assert c !in AllBlocked(clients) && AllBlocked(clients[c := x]) == AllBlocked(clients) + {c};
    var now := byType[x.btype := byType[x.btype] + 1];
    forall t: BType
      ensures t in now && now[t] == |OfType(clients[c := x], t)|
    {
      BlockCountOf(clients, c, x, t);
    }
  }

  lemma UnblockCounts(clients: Clients, c: ClientId, x: Client, total: int, byType: map<BType, int>)
    requires CountersOk(clients, total, byType) && c in clients && clients[c].blocked && !x.blocked
    ensures CountersOk(clients[c := x], total - 1, byType[clients[c].btype := byType[clients[c].btype] - 1])
  {
    var clients1 := clients[c := x];
    var bt := clients[c].btype;
    assert AllBlocked(clients1) == AllBlocked(clients) - {c};
    forall t: BType
      ensures |OfType(clients1, t)| == byType[bt := byType[bt] - 1][t]
    {
      assert OfType(clients1, t) == if t == bt then OfType(clients, t) - {c} else OfType(clients, t);
    }
  }

  lemma SameCounts(clients: Clients, c: ClientId, x: Client, total: int, byType: map<BType, int>)
    requires CountersOk(clients, total, byType) && c in clients && x.blocked == clients[c].blocked
    requires x.btype == clients[c].btype
    ensures CountersOk(clients[c := x], total, byType)
  {
    var clients1 := clients[c := x];
    assert AllBlocked(clients1) == AllBlocked(clients);
    forall t: BType
      ensures OfType(clients1, t) == OfType(clients, t)
    {
    }
  }

  predicate QueueOk(clients: Clients, q: seq<ClientId>) {
    NoDup(q) && (forall c :: c in q ==> c in clients && clients[c].queued) &&
    (forall c :: c in clients && clients[c].queued ==> c in q)
  }

  predicate FlagsOk(clients: Clients) {
    forall c :: c in clients ==> ClientOk(clients[c])
  }
}
