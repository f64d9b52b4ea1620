/** The code of one mode as it updates its tables and its job in place, proved to take
    the steps of the state machine. */
module BackendMain {
  import opened Common
  import opened Backend

  ghost function Candidates(dicts: seq<map<Key, Entry>>): set<Cand> {
    set d, k | 0 <= d < |dicts| && k in dicts[d] :: Cand(d, k)
  }

  /** The dictionaries of all dbs, as one table. */
  ghost function Table(dicts: seq<map<Key, Entry>>): (t: map<Cand, Entry>)
    ensures forall k :: k in t <==> k.dbid < |dicts| && k.key in dicts[k.dbid]
    ensures forall k :: k in t ==> t[k] == dicts[k.dbid][k.key]
  {
    map k | k in Candidates(dicts) :: dicts[k.dbid][k.key]
  }

  lemma TableUpdate(dicts: seq<map<Key, Entry>>, k: Cand, e: Entry)
    requires k.dbid < |dicts|
    ensures Table(dicts[k.dbid := dicts[k.dbid][k.key := e]]) == Table(dicts)[k := e]
  {
    hide Candidates, Table;
    var a := Table(dicts[k.dbid := dicts[k.dbid][k.key := e]]);
    var b := Table(dicts)[k := e];
    forall j
      ensures j in a <==> j in b
      ensures j in a ==> a[j] == b[j]
    {
      if j != k && j.dbid == k.dbid {
        assert j.key != k.key;
      }
    }
  }

  lemma TableRemove(dicts: seq<map<Key, Entry>>, k: Cand)
    requires k.dbid < |dicts|
    ensures Table(dicts[k.dbid := dicts[k.dbid] - {k.key}]) == Table(dicts) - {k}
  {
    hide Candidates, Table;
  }

  class ModeState {
    const mode: Mode
    const dicts: array<map<Key, Entry>>   // one per db
    var job: Job
    var worker: Worker
    var pipe: nat
    var bufs: map<Ptr, Key>

    constructor (m: Mode, dbnum: nat)
      ensures mode == m && dicts.Length == dbnum && fresh(dicts) && View() == START_SIDE
    {
      mode := m;
      dicts := new map<Key, Entry>[dbnum](_ => map[]);
      job, worker, pipe, bufs := NO_JOB, Polling, 0, map[];
      new;
      assert Table(dicts[..]) == map[];
    }

    ghost function View(): Side
      reads this, dicts
    {
      Side(Table(dicts[..]), job, worker, pipe, bufs)
    }

    /** _hasAvailableCandidate */
    method HasAvailableCandidate() returns (pick: Option<Cand>)
      ensures pick == None <==> View().cands == map[]
      ensures pick.Some? ==> pick.value in View().cands && forall k :: k in View().cands ==> pick.value.dbid <= k.dbid
    {
      for i := 0 to dicts.Length
        invariant forall d :: 0 <= d < i ==> dicts[d] == map[]
      {
        if dicts[i] != map[] {
          assert dicts[i].Keys != {};
          var key :| key in dicts[i];
          assert Cand(i, key) in Table(dicts[..]);
          return Some(Cand(i, key));
        }
      }
      assert forall k :: k !in Table(dicts[..]);
      assert Table(dicts[..]) == map[];
      return None;
    }

    /** _addKeyToBackendKeys; the result is the outcome of the assertion on the waiting value. */
    method AddKeyToBackendKeys(c: ClientId, cmd: Command) returns (ok: bool)
      requires cmd.m == mode && cmd.cand.dbid < dicts.Length
      modifies dicts
      ensures ok <==> AddKey(old(View()), c, cmd).Some?
      ensures View() == if ok then AddKey(old(View()), c, cmd).value else old(View())
    {
      var d := dicts[cmd.cand.dbid];
      var e;
      if cmd.cand.key !in d {
        e := Entry(cmd.value, cmd.ttl, []);
      } else {
        e := d[cmd.cand.key];
        if mode == Set && e.value != cmd.value {
          return false;
        }
        e := e.(ttl := cmd.ttl);
      }
      if cmd.sync {
        e := e.(clients := e.clients + [c]);
      }
      dicts[cmd.cand.dbid] := d[cmd.cand.key := e];
      assert dicts[..] == old(dicts[..])[cmd.cand.dbid := d[cmd.cand.key := e]];
      TableUpdate(old(dicts[..]), cmd.cand, e);
      return true;
    }

    /** _createNewJobIfHasMoreCandidates after its first lock section, `p` being the copied key. */
    method CreateNewJob(p: Ptr) returns (pick: Option<Cand>, ok: bool)
      requires p !in bufs
      modifies this
      ensures pick == None <==> old(View().cands) == map[]
      ensures pick == None ==> View() == old(View()) && ok
      ensures pick.Some? ==>
                pick.value in old(View().cands) && (forall k :: k in old(View().cands) ==> pick.value.dbid <= k.dbid) &&
                (ok <==> FillSlot(mode, old(View()), pick.value, p).Some?) &&
                View() == if ok then FillSlot(mode, old(View()), pick.value, p).value else old(View())
    {
      pick := HasAvailableCandidate();
      ok := true;
      if pick == None {
        return;
      }
      if !(job.key == None && job.ret == None && (mode == Set ==> job.val == None)) {
        ok := false;
        return;
      }
      bufs := bufs[p := pick.value.key];
      job := job.(key := Some(p), dbid := pick.value.dbid);
      if mode == Set {
        var info := dicts[pick.value.dbid][pick.value.key];
        job := job.(result := 0, val := Some(info.value), ttl := info.ttl);
      } else if mode == Del {
        job := job.(result := 0);
      }
    }

    /** _getJobInWorkingThread, then the assertion on the db; false is its failure. */
    method GetJob(dbnum: nat) returns (have: bool, ok: bool)
      requires worker == Polling
      modifies this
      ensures ok <==> TakeJob(old(View()), dbnum).Some?
      ensures View() == if ok then TakeJob(old(View()), dbnum).value else old(View())
      ensures have <==> old(OwnedByWorker())
    {
      have := job.ret == None && job.key.Some?;
      ok := !have || 0 <= job.dbid < dbnum;
      if have && ok {
        worker := Working(job.dbid, job.key.value);
      }
    }

    predicate OwnedByWorker() reads this {
      job.key.Some? && job.ret == None
    }

    /** The assertion on the answer to a GET, then the lock section and the write with which the worker hands its
        result back. */
    method ReturnResult(val: Option<Value>, result: int) returns (ok: bool)
      requires if mode == Set then worker.Loaded? else worker.Working?
      modifies this
      ensures ok <==> ReturnJob(mode, old(View()), val, result).Some?
      ensures View() == if ok then Announce(ReturnJob(mode, old(View()), val, result).value) else old(View())
    {
      if mode == Get && val == Some("") {
        return false;
      }
      var k := worker.key;
      if k !in bufs || job.key != Some(k) || job.ret != None {
        return false;
      }
      job := job.(ret := Some(k));
      if mode == Get {
        job := job.(val := val);
      } else {
        job := job.(result := result);
      }
      pipe := pipe + 1;
      worker := Polling;
      return true;
    }

    /** The first half of _clearFinishKey: copy the waiting list, then delete the entry. */
    method TakeClients(dbid: nat, key: Key) returns (copy: Option<seq<ClientId>>)
      requires dbid < dicts.Length
      modifies dicts
      ensures copy == None <==> Cand(dbid, key) !in old(View().cands)
      ensures copy == None ==> View() == old(View())
      ensures copy.Some? ==> copy.value == old(View().cands)[Cand(dbid, key)].clients
      ensures copy.Some? ==> View() == old(View()).(cands := old(View().cands) - {Cand(dbid, key)})
    {
      if key !in dicts[dbid] {
        return None;
      }
      var clients := dicts[dbid][key].clients;
      var copied: seq<ClientId> := [];
      for i := 0 to |clients|
        invariant copied == clients[..i]
      {
        copied := copied + [clients[i]];
      }
      dicts[dbid] := dicts[dbid] - {key};
      assert dicts[..] == old(dicts[..])[dbid := old(dicts[..])[dbid] - {key}];
      TableRemove(old(dicts[..]), Cand(dbid, key));
      return Some(copied);
    }

    /** The lock section of _clearFinishKey. */
    method ClearJob() returns (ok: bool)
      modifies this
      ensures ok <==> EmptySlot(old(View())).Some?
      ensures View() == if ok then EmptySlot(old(View())).value else old(View())
    {
      if job.ret == None || job.key != job.ret || job.ret.value !in bufs {
        return false;
      }
      bufs := bufs - {job.ret.value};
      job := NO_JOB;
      return true;
    }

    /** The part of releaseWhenFreeClient for this mode. */
    method Release(c: ClientId)
      modifies dicts
      ensures View() == ReleaseFrom(old(View()), c)
    {
      hide Table, Released, ReleaseFrom;
      ghost var was := dicts[..];
      for i := 0 to dicts.Length
        invariant forall d :: i <= d < dicts.Length ==> dicts[d] == was[d]
        invariant forall d :: 0 <= d < i ==> dicts[d] == Released(was[d], c)
      {
        var d := ReleaseDict(dicts[i], c);
        dicts[i] := d;
      }
      TableReleased(was, dicts[..], old(View()), c);
    }
  }

  lemma TableReleased(was: seq<map<Key, Entry>>, now: seq<map<Key, Entry>>, x: Side, c: ClientId)
    requires |now| == |was| && forall d :: 0 <= d < |was| ==> now[d] == Released(was[d], c)
    requires x.cands == Table(was)
    ensures x.(cands := Table(now)) == ReleaseFrom(x, c)
  {
    hide Table;
    assert Table(now) == ReleaseFrom(x, c).cands;
  }

  function Released(d: map<Key, Entry>, c: ClientId): map<Key, Entry> {
    map k | k in d :: d[k].(clients := Without(d[k].clients, c))
  }

  method ReleaseDict(d: map<Key, Entry>, c: ClientId) returns (r: map<Key, Entry>)
    ensures r == Released(d, c)
  {
    r := d;
    var todo := d.Keys;
    while todo != {}
      invariant todo <= d.Keys && r.Keys == d.Keys
      invariant forall k :: k in d ==> r[k] == if k in todo then d[k] else d[k].(clients := Without(d[k].clients, c))
      decreases |todo|
    {
      var k :| k in todo;
      var left := DeleteFromList(r[k].clients, c);
      r := r[k := r[k].(clients := left)];
      todo := todo - {k};
    }
  }

  /** The inner loop: a cursor that deletes every node holding the client. */
  method DeleteFromList(q: seq<ClientId>, c: ClientId) returns (left: seq<ClientId>)
    ensures left == Without(q, c)
  {
    left := q;
    var i := 0;
    while i < |left|
      invariant 0 <= i <= |left|
      invariant left[..i] + Without(left[i..], c) == Without(q, c)
      decreases |left| - i
    {
      if left[i] == c {
        assert (left[..i] + left[i + 1..])[..i] == left[..i] && (left[..i] + left[i + 1..])[i..] == left[i..][1..];
        left := left[..i] + left[i + 1..];
      } else {
        assert left[..i + 1] == left[..i] + [left[i]] && left[i..][1..] == left[i + 1..];
        i := i + 1;
      }
    }
    assert left[..i] == left && left[i..] == [];
  }
}
