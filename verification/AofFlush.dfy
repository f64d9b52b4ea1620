/** flushAppendOnlyFile: moving the pending buffer into the append only file in the face of short
    writes, interrupted and failed writes, and failed truncates. */
module AofFlush {
  import opened Common

  type Bytes = seq<bv8>

  datatype Policy = No | EverySec | Always

  /** What one write(2) answers. */
  datatype WriteResult = Wrote(n: nat) | Interrupted | Error

  datatype Aof = Aof(
    file: Bytes,            // the file, opened for appending
    buf: Bytes,             // aof_buf
    currentSize: nat,
    fsyncOffset: nat,
    lastFsync: int,
    postponedStart: int,
    delayedFsync: nat,
    lastWriteOk: bool)

  /** The world during one call; calls of write(2) beyond the script fail. */
  datatype Env = Env(now: int, force: bool, syncing: bool, writes: seq<WriteResult>, truncates: bool,
                     noSyncOnRewrite: bool, childActive: bool)

  datatype Outcome = Flushed(s: Aof) | Exit(file: Bytes)

  /** aofWrite: the bytes of a buffer of the given length that reach the file. */
  function Written(writes: seq<WriteResult>, len: nat): (total: nat)
    ensures total <= len
    decreases |writes|
  {
    if len == 0 || writes == [] then 0
    else match writes[0]
      case Interrupted => Written(writes[1..], len)
      case Error => 0
      case Wrote(n) => var m := Min(n, len); m + Written(writes[1..], len - m)
  }

  /** Everysec, not forced, a sync running, and less than two seconds waited so far. */
  predicate Postpones(p: Policy, s: Aof, e: Env) {
    p == EverySec && !e.force && e.syncing && (s.postponedStart == 0 || e.now - s.postponedStart < 2)
  }

  function TrySync(p: Policy, s: Aof, e: Env): Aof {
    if e.noSyncOnRewrite && e.childActive then s
    else if p == Always then s.(fsyncOffset := s.currentSize, lastFsync := e.now)
    else if p == EverySec && e.now > s.lastFsync then
      if e.syncing then s.(lastFsync := e.now) else s.(fsyncOffset := s.currentSize, lastFsync := e.now)
    else s
  }

  /** The state after an attempt to write: all of the buffer, none of it (perhaps after a truncate), or the
      part that could not be undone. */
  function Attempted(p: Policy, s: Aof, e: Env): Aof {
    var n := Written(e.writes, |s.buf|);
    if n == |s.buf| then
      TrySync(p, s.(file := s.file + s.buf, buf := [], currentSize := s.currentSize + n, lastWriteOk := true), e)
    else if n == 0 || e.truncates then s.(lastWriteOk := false)
    else s.(file := s.file + s.buf[..n], buf := s.buf[n..], currentSize := s.currentSize + n, lastWriteOk := false)
  }

  function WriteOut(p: Policy, s: Aof, e: Env): Outcome {
    var delayed := p == EverySec && !e.force && e.syncing;
    var s1 := s.(postponedStart := 0, delayedFsync := if delayed then s.delayedFsync + 1 else s.delayedFsync);
    var t := Attempted(p, s1, e);
    if Written(e.writes, |s.buf|) == |s.buf| || p != Always then Flushed(t) else Exit(t.file)
  }

  function Flush(p: Policy, s: Aof, e: Env): Outcome {
    if s.buf == [] then
      if p == EverySec && s.fsyncOffset != s.currentSize && e.now > s.lastFsync && !e.syncing
      then Flushed(TrySync(p, s, e))
      else Flushed(s)
    else if Postpones(p, s, e) then
      Flushed(if s.postponedStart == 0 then s.(postponedStart := e.now) else s)
    else WriteOut(p, s, e)
  }

  predicate Valid(s: Aof) {
    s.currentSize == |s.file| && s.fsyncOffset <= s.currentSize
  }

  /** Whatever the writes and the truncate do, a flush that returns leaves file then buffer as they were and
      the recorded size right, and only ever extends the file; a flush that exits keeps the file a prefix of them. */
  lemma FlushConserves(p: Policy, s: Aof, e: Env)
    requires Valid(s)
    ensures Flush(p, s, e).Exit? ==> p == Always && s.file <= Flush(p, s, e).file <= s.file + s.buf
    ensures Flush(p, s, e).Flushed? ==>
              var t := Flush(p, s, e).s;
              Valid(t) && t.file + t.buf == s.file + s.buf && s.file <= t.file && s.fsyncOffset <= t.fsyncOffset
  {
    var n := Written(e.writes, |s.buf|);
    assert s.buf == s.buf[..n] + s.buf[n..];
    assert s.file + s.buf == (s.file + s.buf[..n]) + s.buf[n..];
    assert s.file + s.buf + [] == s.file + s.buf;
  }

  /** Under "always" a flush that returns has the whole log on disk, unless syncing is off during a rewrite. */
  lemma AlwaysIsDurable(s: Aof, e: Env)
    requires Valid(s) && Flush(Always, s, e).Flushed? && s.buf != []
    ensures var t := Flush(Always, s, e).s;
            t.buf == [] && t.file == s.file + s.buf &&
            (t.fsyncOffset == |t.file| || (e.noSyncOnRewrite && e.childActive))
  {
  }

  /** The server refuses writes after a flush iff the attempt to write did not empty the buffer. */
  lemma StatusTellsTheBuffer(p: Policy, s: Aof, e: Env)
    requires Valid(s) && s.buf != [] && !Postpones(p, s, e) && Flush(p, s, e).Flushed?
    ensures Flush(p, s, e).s.lastWriteOk <==> Flush(p, s, e).s.buf == []
    ensures Flush(p, s, e).s.postponedStart == 0
  {
  }

  // ----- whole runs

  datatype Event = Feed(x: Bytes) | DoFlush(e: Env)

  function Step(p: Policy, s: Aof, v: Event): Outcome {
    match v
    case Feed(x) => Flushed(s.(buf := s.buf + x))
    case DoFlush(e) => Flush(p, s, e)
  }

  function Run(p: Policy, s: Aof, vs: seq<Event>): Outcome
    decreases |vs|
  {
    if vs == [] then Flushed(s)
    else match Step(p, s, vs[0])
      case Exit(f) => Exit(f)
      case Flushed(s1) => Run(p, s1, vs[1..])
  }

  function Fed(vs: seq<Event>): Bytes {
    if vs == [] then [] else (if vs[0].Feed? then vs[0].x else []) + Fed(vs[1..])
  }

  /** Over any run without "always", the file followed by the buffer is the old log followed by all that was fed. */
  lemma {:induction false} RunConserves(p: Policy, s: Aof, vs: seq<Event>)
    requires Valid(s)
    ensures p != Always ==> Run(p, s, vs).Flushed?
    ensures Run(p, s, vs).Flushed? ==>
              var t := Run(p, s, vs).s; Valid(t) && s.file <= t.file && t.file + t.buf == s.file + s.buf + Fed(vs)
    ensures Run(p, s, vs).Exit? ==> s.file <= Run(p, s, vs).file <= s.file + s.buf + Fed(vs)
    decreases |vs|
  {
    if vs == [] {
      assert s.file + s.buf + [] == s.file + s.buf;
    } else {
      StepConserves(p, s, vs[0]);
      var o := Step(p, s, vs[0]);
      var here := if vs[0].Feed? then vs[0].x else [];
      if o.Flushed? {
        RunConserves(p, o.s, vs[1..]);
        assert s.file + s.buf + here + Fed(vs[1..]) == s.file + s.buf + (here + Fed(vs[1..]));
      } else {
        assert s.file + s.buf <= s.file + s.buf + Fed(vs);
      }
    }
  }

  lemma StepConserves(p: Policy, s: Aof, v: Event)
    requires Valid(s)
    ensures Step(p, s, v).Flushed? ==>
              var t := Step(p, s, v).s;
              Valid(t) && s.file <= t.file && t.file + t.buf == s.file + s.buf + (if v.Feed? then v.x else [])
    ensures Step(p, s, v).Exit? ==> p == Always && v.DoFlush? && s.file <= Step(p, s, v).file <= s.file + s.buf
  {
    hide Flush;
    match v
    case Feed(x) => assert s.file + (s.buf + x) == s.file + s.buf + x;
    case DoFlush(e) =>
      FlushConserves(p, s, e);
      assert s.file + s.buf + [] == s.file + s.buf;
  }

  /** Two postponed flushes in a row are under two seconds apart from the first one: a flush at least two
      seconds after it does write. */
  lemma PostponedAtMostTwoSeconds(p: Policy, s: Aof, e: Env, e2: Env)
    requires Postpones(p, s, e) && s.buf != [] && s.postponedStart == 0 && e.now > 0 && e2.now >= e.now + 2
    ensures Flush(p, s, e).Flushed? && !Postpones(p, Flush(p, s, e).s, e2)
  {
  }

  // ----- the code, on fields updated in place

  class Server {
    const policy: Policy
    var file: Bytes
    var buf: Bytes
    var currentSize: nat
    var fsyncOffset: nat
    var lastFsync: int
    var postponedStart: int
    var delayedFsync: nat
    var lastWriteOk: bool

    constructor (p: Policy)
      ensures policy == p && View() == Aof([], [], 0, 0, 0, 0, 0, true)
    {
      policy := p;
      file, buf, currentSize, fsyncOffset := [], [], 0, 0;
      lastFsync, postponedStart, delayedFsync, lastWriteOk := 0, 0, 0, true;
    }

    function View(): Aof
      reads this
    {
      Aof(file, buf, currentSize, fsyncOffset, lastFsync, postponedStart, delayedFsync, lastWriteOk)
    }

    /** aofWrite: -1 when the first write fails. */
    method Write(writes: seq<WriteResult>) returns (total: int)
      modifies this`file
      ensures var n := Written(writes, |buf|);
              file == old(file) + buf[..n] && total == if n == 0 && buf != [] then -1 else n
    {
      var len, done, i := |buf|, 0, 0;
      while len > 0
        invariant 0 <= done && 0 <= len && done + len == |buf| && i <= |writes|
        invariant file == old(file) + buf[..done]
        invariant done + Written(writes[i..], len) == Written(writes, |buf|)
        decreases |writes| - i
      {
        if i == |writes| || writes[i] == Error {
          return if done > 0 then done else -1;
        }
        assert writes[i..][1..] == writes[i + 1..];
        if writes[i].Wrote? {
          var n := Min(writes[i].n, len);
          assert buf[..done + n] == buf[..done] + buf[done..done + n];
          file := file + buf[done..done + n];
          len, done := len - n, done + n;
        }
        i := i + 1;
      }
      return done;
    }

    /** The try_fsync tail. */
    method Sync(e: Env)
      modifies this`fsyncOffset, this`lastFsync
      ensures View() == TrySync(policy, old(View()), e)
    {
      if e.noSyncOnRewrite && e.childActive {
        return;
      }
      if policy == Always {
        fsyncOffset, lastFsync := currentSize, e.now;
      } else if policy == EverySec && e.now > lastFsync {
        if !e.syncing {
          fsyncOffset := currentSize;
        }
        lastFsync := e.now;
      }
    }

    /** flushAppendOnlyFile; false is exit(1). */
    method FlushAppendOnlyFile(e: Env) returns (alive: bool)
      requires Valid(View())
      modifies this
      ensures alive <==> Flush(policy, old(View()), e).Flushed?
      ensures alive ==> View() == Flush(policy, old(View()), e).s
      ensures !alive ==> file == Flush(policy, old(View()), e).file
    {
      if buf == [] {
        if policy == EverySec && fsyncOffset != currentSize && e.now > lastFsync && !e.syncing {
          Sync(e);
        }
        return true;
      }
      if policy == EverySec && !e.force && e.syncing {
        if postponedStart == 0 {
          postponedStart := e.now;
          return true;
        } else if e.now - postponedStart < 2 {
          return true;
        }
        delayedFsync := delayedFsync + 1;
      }
      postponedStart := 0;
      alive := WriteBuffer(e);
    }

    /** From aofWrite to the end. */
    method WriteBuffer(e: Env) returns (alive: bool)
      requires Valid(View()) && buf != [] && postponedStart == 0
      modifies this
      ensures alive <==> Written(e.writes, |old(buf)|) == |old(buf)| || policy != Always
      ensures alive ==> View() == Attempted(policy, old(View()), e)
      ensures !alive ==> file == Attempted(policy, old(View()), e).file
    {
      var nwritten := Write(e.writes);
      if nwritten != |buf| {
        if nwritten != -1 && e.truncates {
          file := file[..currentSize];
          nwritten := -1;
        }
        if policy == Always {
          return false;
        }
        lastWriteOk := false;
        if nwritten > 0 {
          currentSize := currentSize + nwritten;
          buf := buf[nwritten..];
        }
        return true;
      }
      lastWriteOk := true;
      currentSize := currentSize + nwritten;
      buf := [];
      Sync(e);
      return true;
    }
  }
}
