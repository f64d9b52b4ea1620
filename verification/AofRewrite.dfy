/** The buffer of changes made while a child rewrites the append only file: the block list the
    parent appends to, drains into the pipe, and finally writes after the rewritten file. */
module AofRewriteBuffer {
  import opened Common

  type Bytes = seq<bv8>

  const AOF_RW_BUF_BLOCK_SIZE: nat := 1024 * 1024 * 10

  function Flat(q: seq<Bytes>): Bytes {
    if q == [] then [] else q[0] + Flat(q[1..])
  }

  lemma {:induction false} FlatSnoc(q: seq<Bytes>, x: Bytes)
    ensures Flat(q + [x]) == Flat(q) + x
  {
    if q == [] {
      assert [x][1..] == [];
    } else {
      assert (q + [x])[1..] == q[1..] + [x];
      FlatSnoc(q[1..], x);
      assert Flat(q + [x]) == q[0] + (Flat(q[1..]) + x);
    }
  }

  lemma FlatLast(q: seq<Bytes>)
    requires q != []
    ensures Flat(q) == Flat(q[..|q| - 1]) + q[|q| - 1]
  {
    assert q == q[..|q| - 1] + [q[|q| - 1]];
    FlatSnoc(q[..|q| - 1], q[|q| - 1]);
  }

  class Block {
    const buf: array<bv8>
    var used: nat
    var free: nat

    constructor ()
      ensures Valid() && fresh(buf) && Data() == [] && free == AOF_RW_BUF_BLOCK_SIZE
    {
      buf := new bv8[AOF_RW_BUF_BLOCK_SIZE];
      used, free := 0, AOF_RW_BUF_BLOCK_SIZE;
    }

    ghost predicate Valid()
      reads this
    {
      buf.Length == AOF_RW_BUF_BLOCK_SIZE && used + free == AOF_RW_BUF_BLOCK_SIZE
    }

    ghost function Data(): Bytes
      reads this, buf
      requires Valid()
    {
      buf[..used]
    }

    /** The memcpy of aofRewriteBufferAppend. */
    method Fill(s: Bytes)
      requires Valid() && |s| <= free
      modifies this, buf
      ensures Valid() && Data() == old(Data()) + s
    {
      forall i | 0 <= i < |s| {
        buf[used + i] := s[i];
      }
      used, free := used + |s|, free - |s|;
      assert buf[..used] == old(buf[..used]) + s;
    }

    /** The memmove of aofChildWriteDiffData. */
    method Drop(n: nat)
      requires Valid() && n <= used
      modifies this, buf
      ensures Valid() && Data() == old(Data())[n..]
    {
      forall i | 0 <= i < used - n {
        buf[i] := buf[n + i];
      }
      used, free := used - n, free + n;
      assert buf[..used] == old(buf[..used])[n..];
    }
  }

  class RewriteBuffer {
    var blocks: seq<Block>

    constructor ()
      ensures Valid() && Contents() == []
    {
      blocks := [];
    }

    ghost function Repr(): set<object>
      reads this
    {
      (set b | b in blocks :: b as object) + (set b | b in blocks :: b.buf as object)
    }

    ghost predicate Valid()
      reads this, Repr()
    {
      (forall b :: b in blocks ==> b.Valid()) &&
      (forall i, j :: 0 <= i < j < |blocks| ==> blocks[i] != blocks[j] && blocks[i].buf != blocks[j].buf)
    }

    ghost function DataAt(i: nat): Bytes
      reads this, Repr()
      requires Valid() && i < |blocks|
    {
      assert blocks[i] in blocks;
      blocks[i].Data()
    }

    ghost function Datas(): seq<Bytes>
      reads this, Repr()
      requires Valid()
    {
      seq(|blocks|, i requires 0 <= i < |blocks| && Valid() reads this, Repr() => DataAt(i))
    }

    /** Every byte appended and not yet sent, oldest first. */
    ghost function Contents(): Bytes
      reads this, Repr()
      requires Valid()
    {
      Flat(Datas())
    }

    /** aofRewriteBufferSize */
    method Size() returns (size: nat)
      requires Valid()
      ensures size == |Contents()|
    {
      size := 0;
      for i := 0 to |blocks|
        invariant size == |Flat(Datas()[..i])|
      {
        size := size + blocks[i].used;
        assert Datas()[..i + 1] == Datas()[..i] + [blocks[i].Data()];
        FlatSnoc(Datas()[..i], blocks[i].Data());
      }
      assert Datas()[..|blocks|] == Datas();
    }

    method AddBlock()
      requires Valid()
      modifies this
      ensures Valid() && Contents() == old(Contents())
      ensures |blocks| == |old(blocks)| + 1 && blocks[..|old(blocks)|] == old(blocks)
      ensures fresh(Repr() - old(Repr()))
      ensures Room() == AOF_RW_BUF_BLOCK_SIZE
    {
      var block := new Block();
      blocks := blocks + [block];
      assert Datas() == old(Datas()) + [[]];
      FlatSnoc(old(Datas()), []);
    }

    method FillLast(s: Bytes)
      requires Valid() && blocks != [] && |s| <= blocks[|blocks| - 1].free
      modifies Repr()
      ensures Valid() && Contents() == old(Contents()) + s
      ensures blocks == old(blocks) && Repr() == old(Repr())
    {
      var last := |blocks| - 1;
      FlatLast(Datas());
      blocks[last].Fill(s);
      assert Datas()[..last] == old(Datas())[..last];
      FlatLast(Datas());
    }

    /** One turn of the loop of aofRewriteBufferAppend: as much as the last block takes, then a new block if need be. */
    method AppendSome(s: Bytes) returns (rest: Bytes)
      requires Valid() && s != []
      modifies this, Repr()
      ensures Valid() && Contents() + rest == old(Contents()) + s
      ensures fresh(Repr() - old(Repr()))
      ensures |rest| <= |s| && (rest != [] ==> Room() == AOF_RW_BUF_BLOCK_SIZE)
      ensures |rest| < |s| || old(Room()) == 0
    {
      hide Valid, Contents;
      rest := s;
      if blocks != [] {
        var thislen := if blocks[|blocks| - 1].free < |s| then blocks[|blocks| - 1].free else |s|;
        if thislen > 0 {
          FillLast(s[..thislen]);
          rest := s[thislen..];
          assert s == s[..thislen] + rest;
        }
      }
      if rest != [] {
        AddBlock();
      }
    }

    ghost function Room(): nat
      reads this, Repr()
    {
      if blocks == [] then 0 else assert blocks[|blocks| - 1] in blocks; blocks[|blocks| - 1].free
    }

    /** aofRewriteBufferAppend */
    method Append(s: Bytes)
      requires Valid()
      modifies this, Repr()
      ensures Valid() && Contents() == old(Contents()) + s
      ensures fresh(Repr() - old(Repr()))
    {
      hide Valid, Contents;
      var rest := s;
      while rest != []
        invariant Valid() && Contents() + rest == old(Contents()) + s
        invariant fresh(Repr() - old(Repr()))
        decreases |rest|, Room() == 0
      {
        ghost var had := Contents();
        var left := AppendSome(rest);
        rest := left;
      }
    }

    method DropFirst(n: nat)
      requires Valid() && blocks != [] && n <= blocks[0].used
      modifies Repr()
      ensures Valid() && blocks == old(blocks)
      ensures n <= |old(Contents())| && Contents() == old(Contents())[n..]
    {
      assert Datas()[0] == blocks[0].Data();
      blocks[0].Drop(n);
      assert Datas()[1..] == old(Datas())[1..];
      assert Datas()[0] == old(Datas())[0][n..];
    }

    method RemoveFirst()
      requires Valid() && blocks != [] && blocks[0].used == 0
      modifies this
      ensures Valid() && Contents() == old(Contents()) && blocks == old(blocks)[1..] && Repr() <= old(Repr())
    {
      assert Datas()[0] == [];
      blocks := blocks[1..];
      assert Datas() == old(Datas())[1..];
    }

    /** aofChildWriteDiffData. `writes` holds what write(2) answers, call after call; when it runs out, and
        where it holds no positive number, the call failed. A write never takes more than it is offered. */
    method ChildWriteDiffData(stop: bool, writes: seq<int>) returns (sent: Bytes, installed: bool)
      requires Valid()
      modifies this, Repr()
      ensures Valid() && sent + Contents() == old(Contents()) && Repr() <= old(Repr())
      ensures stop ==> sent == []
      ensures !installed <==> stop || blocks == []
    {
      hide Valid, Contents;
      sent := [];
      var i := 0;
      while !stop && blocks != []
        invariant Valid() && sent + Contents() == old(Contents()) && Repr() <= old(Repr())
        invariant stop ==> sent == []
        invariant i <= |writes|
        decreases |writes| - i, |blocks|
      {
        if blocks[0].used > 0 {
          if i == |writes| || writes[i] <= 0 {
            return sent, true;
          }
          var n := if writes[i] < blocks[0].used then writes[i] else blocks[0].used;
          i := i + 1;
          sent := SendFirst(sent, n);
        }
        if blocks[0].used == 0 {
          RemoveFirst();
        }
      }
      return sent, false;
    }

    method SendFirst(sent: Bytes, n: nat) returns (more: Bytes)
      requires Valid() && blocks != [] && n <= blocks[0].used
      modifies Repr()
      ensures Valid() && blocks == old(blocks) && more + Contents() == sent + old(Contents())
    {
      assert blocks[0].Valid();
      more := sent + blocks[0].buf[..n];
      assert Datas()[0] == blocks[0].Data();
      assert Contents()[..n] == blocks[0].buf[..n];
      DropFirst(n);
      assert old(Contents()) == old(Contents())[..n] + old(Contents())[n..];
    }

    /** aofRewriteBufferWrite, from an answer of write(2) per block; None is a short write or an error. */
    method Write(writes: seq<int>) returns (written: Option<Bytes>)
      requires Valid()
      ensures written.Some? ==> written.value == Contents()
      ensures (forall i :: 0 <= i < |blocks| ==> i < |writes| && writes[i] == blocks[i].used) ==> written.Some?
    {
      var out: Bytes := [];
      for i := 0 to |blocks|
        invariant out == Flat(Datas()[..i])
      {
        assert blocks[i].Valid();
        if blocks[i].used > 0 {
          if i >= |writes| || writes[i] != blocks[i].used {
            return None;
          }
          out := out + blocks[i].buf[..blocks[i].used];
        }
        assert Datas()[..i + 1] == Datas()[..i] + [blocks[i].Data()];
        FlatSnoc(Datas()[..i], blocks[i].Data());
      }
      assert Datas()[..|blocks|] == Datas();
      return Some(out);
    }
  }
}

/** The hand-off between the parent and the child that rewrites the file: one data pipe, the
    child's request to stop, the parent's acknowledgement. Any interleaving of the two processes. */
module AofRewrite {
  import opened Common
  import opened AofRewriteBuffer

  datatype Child = Dumping | Asked | Draining | Exited | Failed

  datatype State = State(
    dump: Bytes,             // what the child wrote of the dataset at the fork
    fed: Bytes,              // history: everything appended since the fork
    blocks: Bytes,           // the parent's rewrite buffer
    stop: bool,              // aof_stop_sending_diff
    pipe: Bytes,             // data from parent to child
    childDiff: Bytes,        // aof_child_diff
    child: Child,
    askPending: bool,        // the child's '!' in its pipe
    ackPending: bool,        // the parent's '!' in its pipe
    file: Option<Bytes>,     // the temporary file, once the child has exited
    result: Option<Bytes>)   // the new append only file, once renamed

  datatype Action =
    | Feed(s: Bytes)                  // aofRewriteBufferAppend
    | Send(n: nat)                    // aofChildWriteDiffData took n bytes
    | ChildRead(n: nat)               // a read of aofReadDiffFromParent
    | Ask                             // write '!'
    | Acknowledge(ok: bool)           // aofChildPipeReadable; the write of the ack may fail
    | SeeAck
    | GiveUp                          // no ack in time, or a write error
    | Finalize(interrupted: bool)     // the last read returned nothing, or failed
    | Done(ok: bool)                  // backgroundRewriteDoneHandler; the write of the rest may fail

  function Start(dump: Bytes): State {
    State(dump, [], [], false, [], [], Dumping, false, false, None, None)
  }

  predicate Enabled(s: State, a: Action) {
    s.result == None &&
    match a
    case Feed(_) => true
    case Send(n) => !s.stop && n <= |s.blocks|
    case ChildRead(n) => (s.child.Dumping? || s.child.Draining?) && 0 < n <= Min(65536, |s.pipe|)
    case Ask => s.child.Dumping?
    case Acknowledge(_) => s.askPending
    case SeeAck => s.child.Asked? && s.ackPending
    case GiveUp => s.child != Exited && s.child != Failed
    case Finalize(interrupted) => s.child.Draining? && (interrupted || s.pipe == [])
    case Done(_) => s.child.Exited?
  }

  function Apply(s: State, a: Action): State
    requires Enabled(s, a)
  {
    match a
    case Feed(x) => s.(fed := s.fed + x, blocks := s.blocks + x)
    case Send(n) => s.(pipe := s.pipe + s.blocks[..n], blocks := s.blocks[n..])
    case ChildRead(n) => s.(childDiff := s.childDiff + s.pipe[..n], pipe := s.pipe[n..])
    case Ask => s.(child := Asked, askPending := true)
    case Acknowledge(ok) => s.(askPending := false, stop := true, ackPending := ok)
    case SeeAck => s.(child := Draining, ackPending := false)
    case GiveUp => s.(child := Failed)
    case Finalize(_) => s.(child := Exited, file := Some(s.dump + s.childDiff))
    case Done(ok) => if ok && s.file.Some? then s.(result := Some(s.file.value + s.blocks)) else s
  }

  /** A run, as the sequence of its states. */
  ghost predicate Reaches(s: State, acts: seq<Action>, t: State)
    decreases |acts|
  {
    if acts == [] then s == t
    else Enabled(s, acts[0]) && Reaches(Apply(s, acts[0]), acts[1..], t)
  }

  /** Nothing is lost, repeated or reordered, and after the acknowledgement nothing enters the pipe. */
  predicate Inv(s: State) {
    s.childDiff + s.pipe + s.blocks == s.fed &&
    (s.ackPending || s.child.Draining? || s.child.Exited? ==> s.stop) &&
    (s.child.Exited? ==> s.file == Some(s.dump + s.childDiff)) &&
    (s.result.Some? ==> s.child.Exited? && s.result == Some(s.dump + s.childDiff + s.blocks))
  }

  lemma StepOk(s: State, a: Action)
    requires Inv(s) && Enabled(s, a)
    ensures Inv(Apply(s, a))
  {
    match a
    case Feed(x) => assert s.childDiff + s.pipe + (s.blocks + x) == s.fed + x;
    case Send(n) =>
      assert s.blocks == s.blocks[..n] + s.blocks[n..];
      assert s.childDiff + (s.pipe + s.blocks[..n]) + s.blocks[n..] == s.childDiff + s.pipe + s.blocks;
    case ChildRead(n) =>
      assert s.pipe == s.pipe[..n] + s.pipe[n..];
      assert s.childDiff + s.pipe[..n] + s.pipe[n..] + s.blocks == s.childDiff + s.pipe + s.blocks;
    case _ =>
  }

  lemma {:induction false} RunOk(s: State, acts: seq<Action>, t: State)
    requires Inv(s) && Reaches(s, acts, t)
    ensures Inv(t)
    decreases |acts|
  {
    if acts != [] {
      StepOk(s, acts[0]);
      RunOk(Apply(s, acts[0]), acts[1..], t);
    }
  }

  /** In every reachable state: received, then in the pipe, then in the blocks, is all that was appended. */
  lemma NothingLost(dump: Bytes, acts: seq<Action>, t: State)
    requires Reaches(Start(dump), acts, t)
    ensures t.childDiff + t.pipe + t.blocks == t.fed
    ensures t.child.Exited? ==> t.stop
  {
    RunOk(Start(dump), acts, t);
  }

  /** The new file is the dump followed by everything appended, exactly when the child left nothing in the pipe. */
  lemma FinalFileIffDrained(dump: Bytes, acts: seq<Action>, t: State)
    requires Reaches(Start(dump), acts, t) && t.result.Some?
    ensures t.result.value == t.dump + t.fed <==> t.pipe == []
  {
    RunOk(Start(dump), acts, t);
    assert |t.result.value| == |t.dump + t.fed| - |t.pipe|;
    if t.pipe == [] {
      assert t.childDiff + t.pipe == t.childDiff;
      assert t.dump + (t.childDiff + t.blocks) == t.dump + t.childDiff + t.blocks;
    }
  }

  predicate NeverInterrupted(acts: seq<Action>) {
    forall i :: 0 <= i < |acts| ==> acts[i] != Finalize(true)
  }

  lemma {:induction false} PipeEmptyAtExit(s: State, acts: seq<Action>, t: State)
    requires Inv(s) && Reaches(s, acts, t) && NeverInterrupted(acts)
    requires s.child.Exited? ==> s.pipe == []
    ensures t.child.Exited? ==> t.pipe == []
    ensures t.dump == s.dump
    decreases |acts|
  {
    if acts != [] {
      StepOk(s, acts[0]);
      PipeEmptyAtExit(Apply(s, acts[0]), acts[1..], t);
    }
  }

  /** When the child's last read stops because the pipe is empty, the new file is complete. */
  lemma FinalFileIsDumpThenDiff(dump: Bytes, acts: seq<Action>, t: State)
    requires Reaches(Start(dump), acts, t) && NeverInterrupted(acts) && t.result.Some?
    ensures t.result.value == dump + t.fed
  {
    RunOk(Start(dump), acts, t);
    PipeEmptyAtExit(Start(dump), acts, t);
    FinalFileIffDrained(dump, acts, t);
  }

  lemma Then(s: State, a: Action, rest: seq<Action>, t: State) returns (acts: seq<Action>)
    requires Enabled(s, a) && (rest == [] ==> Apply(s, a) == t) && (rest != [] ==> Reaches(Apply(s, a), rest, t))
    ensures Reaches(s, acts, t) && acts != []
  {
    acts := [a] + rest;
    assert acts[1..] == rest;
  }

  /** A read that fails with data in the pipe does lose it. */
  lemma InterruptedReadLoses()
    ensures exists acts, t :: Reaches(Start([]), acts, t) && t.result.Some? && t.result.value != t.dump + t.fed
  {
    hide Reaches;
    var s0 := Start([]);
    var s1 := Apply(s0, Feed([1]));
    var s2 := Apply(s1, Send(1));
    var s3 := Apply(s2, Ask);
    var s4 := Apply(s3, Acknowledge(true));
    var s5 := Apply(s4, SeeAck);
    var s6 := Apply(s5, Finalize(true));
    var t := Apply(s6, Done(true));
    var acts := Then(s6, Done(true), [], t);
    acts := Then(s5, Finalize(true), acts, t);
    acts := Then(s4, SeeAck, acts, t);
    acts := Then(s3, Acknowledge(true), acts, t);
    acts := Then(s2, Ask, acts, t);
    acts := Then(s1, Send(1), acts, t);
    acts := Then(s0, Feed([1]), acts, t);
    assert |t.result.value| == 0 && |t.dump + t.fed| == 1;
  }

  /** aofReadDiffFromParent: reads until one returns nothing. `sizes` holds what they return; a size of zero, or the
      end of the script with data left, is a failed read. */
  method ReadDiffFromParent(diff: Bytes, pipe: Bytes, sizes: seq<nat>) returns (diff1: Bytes, pipe1: Bytes, total: nat)
    ensures diff1 + pipe1 == diff + pipe && |diff1| == |diff| + total
    ensures (forall i :: 0 <= i < |sizes| ==> sizes[i] > 0) && |sizes| >= |pipe| ==> pipe1 == []
  {
    diff1, pipe1, total := diff, pipe, 0;
    var i := 0;
    while pipe1 != [] && i < |sizes| && sizes[i] > 0
      invariant diff1 + pipe1 == diff + pipe && |diff1| == |diff| + total
      invariant i <= |sizes| && (|sizes| >= |pipe| ==> |sizes| - i >= |pipe1|)
    {
      var n := Min(Min(sizes[i], 65536), |pipe1|);
      assert pipe1 == pipe1[..n] + pipe1[n..];
      assert (diff1 + pipe1[..n]) + pipe1[n..] == diff1 + pipe1;
      diff1, pipe1, total, i := diff1 + pipe1[..n], pipe1[n..], total + n, i + 1;
    }
  }
}
