/** Cutting a log where its loader says, until it loads, and feeding on behind the cut. */
module AofCut {
  import opened Common
  import opened AofLog
  import opened AofLoad

  // ----- how often a file must be cut

  /** The MULTIs of the transaction some commands leave open. */
  function OpenMultis(kinds: string -> Kind, cmds: seq<Argv>): nat
    requires Good(kinds, cmds)
  {
    if cmds == [] then 0
    else
      var k := OpenMultis(kinds, cmds[..|cmds| - 1]);
      var kind := kinds(cmds[|cmds| - 1][0]);
      if kind == Multi then k + 1 else if kind == Exec then 0 else k
  }

  /** The commands before the transaction that is left open. */
  function Closed(kinds: string -> Kind, cmds: seq<Argv>): (j: nat)
    requires Good(kinds, cmds)
    ensures j <= |cmds|
  {
    if OpenMultis(kinds, cmds) == 0 then |cmds| else Closed(kinds, cmds[..|cmds| - 1])
  }

  lemma ProcessMulti(kinds: string -> Kind, c: Client, a: Argv)
    requires a != []
    ensures Process(kinds, c, a).multi <==> kinds(a[0]) == Multi || (c.multi && kinds(a[0]) != Exec)
  {
    var c1 := RunAll(kinds, c, c.queue).(multi := kinds(a[0]) == Multi, queue := []);
    assert RunOne(kinds, c1, a).multi == c1.multi;
  }

  lemma {:induction false} OpenMultisCount(kinds: string -> Kind, cmds: seq<Argv>)
    requires Good(kinds, cmds)
    ensures Replay(kinds, NEW_CLIENT, cmds).multi <==> OpenMultis(kinds, cmds) > 0
  {
    hide Process;
    if cmds != [] {
      var head, a := cmds[..|cmds| - 1], cmds[|cmds| - 1];
      assert cmds == head + [a];
      OpenMultisCount(kinds, head);
      ReplaySnoc(kinds, NEW_CLIENT, head, a);
      ProcessMulti(kinds, Replay(kinds, NEW_CLIENT, head), a);
    }
  }

  /** The last MULTI is one of those of the open transaction, and all that was run since is itself if it opened it. */
  lemma {:induction false} LastMultiCounts(kinds: string -> Kind, cmds: seq<Argv>)
    requires Good(kinds, cmds) && OpenMultis(kinds, cmds) > 0
    ensures HasMulti(kinds, cmds)
    ensures var i := LastMulti(kinds, cmds);
            OpenMultis(kinds, cmds[..i]) + 1 == OpenMultis(kinds, cmds) &&
            Closed(kinds, cmds[..i]) == Closed(kinds, cmds)
    ensures var i := LastMulti(kinds, cmds);
            var c := Replay(kinds, NEW_CLIENT, cmds[..i]);
            Replay(kinds, NEW_CLIENT, cmds).done == if c.multi then c.done else Process(kinds, c, cmds[i]).done
  {
    hide Process;
    var head, a := cmds[..|cmds| - 1], cmds[|cmds| - 1];
    assert cmds == head + [a];
    ReplaySnoc(kinds, NEW_CLIENT, head, a);
    OpenMultisCount(kinds, head);
    var c := Replay(kinds, NEW_CLIENT, head);
    QueuedDone(kinds, c, a);
    if kinds(a[0]) != Multi {
      LastMultiCounts(kinds, head);
      var i := LastMulti(kinds, head);
      assert kinds(cmds[i][0]) == Multi && cmds[..i] == head[..i];
      LastMultiIs(kinds, cmds, i);
    } else {
      LastMultiIs(kinds, cmds, |cmds| - 1);
    }
  }

  lemma LastMultiIs(kinds: string -> Kind, cmds: seq<Argv>, i: nat)
    requires Good(kinds, cmds) && i < |cmds| && kinds(cmds[i][0]) == Multi
    requires forall k :: i < k < |cmds| ==> kinds(cmds[k][0]) != Multi
    ensures HasMulti(kinds, cmds) && LastMulti(kinds, cmds) == i
  {
    var l := LastMulti(kinds, cmds);
    assert l >= i;
  }

  lemma QueuedDone(kinds: string -> Kind, c: Client, a: Argv)
    requires a != []
    ensures c.multi && kinds(a[0]) != Exec ==> Process(kinds, c, a).done == c.done
  {
  }

  /** Load the file, cut it where the loader says, and again, until it loads: how often it was cut, and what is left. */
  function Cuts(o: Options, f: string): nat
    decreases |f|
  {
    var r := Load(o, f, |f|, NEW_CLIENT, 0, 0);
    if r.Truncated? && r.at < |f| then 1 + Cuts(o, f[..r.at]) else 0
  }

  function Left(o: Options, f: string): string
    decreases |f|
  {
    var r := Load(o, f, |f|, NEW_CLIENT, 0, 0);
    if r.Truncated? && r.at < |f| then Left(o, f[..r.at]) else f
  }

  lemma {:induction false} EncodePrefix(cmds: seq<Argv>, i: nat)
    requires i <= |cmds|
    ensures |EncodeAll(cmds[..i])| <= |EncodeAll(cmds)|
    ensures EncodeAll(cmds)[..|EncodeAll(cmds[..i])|] == EncodeAll(cmds[..i])
    ensures i < |cmds| ==> |EncodeAll(cmds[..i])| < |EncodeAll(cmds)|
    decreases i
  {
    hide Encode;
    if i > 0 {
      EncodePrefix(cmds[1..], i - 1);
      assert cmds[..i][1..] == cmds[1..][..i - 1];
    } else if cmds != [] {
      EncodeNonEmpty(cmds[0]);
    }
  }

  /** Loading whole commands. */
  lemma LoadWhole(o: Options, cmds: seq<Argv>)
    requires o.loadTruncated && Good(o.kinds, cmds)
    ensures var c := Replay(o.kinds, NEW_CLIENT, cmds);
            Load(o, EncodeAll(cmds), |EncodeAll(cmds)|, NEW_CLIENT, 0, 0) ==
            if c.multi then Truncated(c, BeforeMulti(o.kinds, cmds, 0, 0)) else Loaded(c)
  {
    hide Load, Process, EncodeAll, BeforeMulti, Whole;
    WholeAll(cmds);
    LoadCut(o, cmds, |EncodeAll(cmds)|);
    assert cmds[..|cmds|] == cmds && EncodeAll(cmds)[..|EncodeAll(cmds)|] == EncodeAll(cmds);
  }

  lemma {:induction false} CutsWhole(o: Options, cmds: seq<Argv>)
    requires o.loadTruncated && Good(o.kinds, cmds)
    ensures Cuts(o, EncodeAll(cmds)) == OpenMultis(o.kinds, cmds)
    ensures Left(o, EncodeAll(cmds)) == EncodeAll(cmds[..Closed(o.kinds, cmds)])
    decreases |cmds|
  {
    hide Load, Process, EncodeAll, BeforeMulti, Whole;
    LoadWhole(o, cmds);
    OpenMultisCount(o.kinds, cmds);
    if OpenMultis(o.kinds, cmds) > 0 {
      LastMultiCounts(o.kinds, cmds);
      CutIsLastMulti(o.kinds, cmds);
      var i := LastMulti(o.kinds, cmds);
      EncodePrefix(cmds, i);
      CutsWhole(o, cmds[..i]);
      assert cmds[..i][..Closed(o.kinds, cmds[..i])] == cmds[..Closed(o.kinds, cmds)];
    } else {
      assert cmds[..|cmds|] == cmds;
    }
  }

  /** A prefix of any log must be cut once if it ends inside a command, and then once for each MULTI of the transaction
      left open. What loads in the end is everything before that transaction. */
  lemma CutFileLoads(o: Options, cmds: seq<Argv>, n: nat)
    requires o.loadTruncated && Good(o.kinds, cmds) && n <= |EncodeAll(cmds)|
    ensures var whole := cmds[..Whole(cmds, n)];
            var f := EncodeAll(cmds)[..n];
            Good(o.kinds, whole) &&
            Cuts(o, f) == OpenMultis(o.kinds, whole) + (if n == |EncodeAll(whole)| then 0 else 1) &&
            Left(o, f) == EncodeAll(whole[..Closed(o.kinds, whole)])
    ensures Load(o, Left(o, EncodeAll(cmds)[..n]), |Left(o, EncodeAll(cmds)[..n])|, NEW_CLIENT, 0, 0).Loaded?
  {
    hide Load, Process, EncodeAll, BeforeMulti, Whole;
    var j := Whole(cmds, n);
    var f := EncodeAll(cmds)[..n];
    LoadCut(o, cmds, n);
    PrefixIsWholeThenPart(cmds, n);
    CutsWhole(o, cmds[..j]);
    var size := |EncodeAll(cmds[..j])|;
    assert f[..size] == EncodeAll(cmds[..j]);
    assert size == n ==> f == EncodeAll(cmds[..j]);
    var closed := cmds[..j][..Closed(o.kinds, cmds[..j])];
    LoadWhole(o, closed);
    OpenMultisCount(o.kinds, closed);
    ClosedIs(o.kinds, cmds[..j]);
  }

  lemma {:induction false} ClosedIs(kinds: string -> Kind, cmds: seq<Argv>)
    requires Good(kinds, cmds)
    ensures OpenMultis(kinds, cmds[..Closed(kinds, cmds)]) == 0
  {
    if OpenMultis(kinds, cmds) == 0 {
      assert cmds[..|cmds|] == cmds;
    } else {
      var head := cmds[..|cmds| - 1];
      ClosedIs(kinds, head);
      assert head[..Closed(kinds, head)] == cmds[..Closed(kinds, head)];
    }
  }

  // ----- feeding on after a cut

  /** The commands of a log that change data. */
  function Data(kinds: string -> Kind, fed: seq<Fed>): seq<Fed> {
    if fed == [] then []
    else
      var f := fed[|fed| - 1];
      Data(kinds, fed[..|fed| - 1]) + (if KindOf(kinds, f.argv) in {Multi, Exec} then [] else [f])
  }

  lemma DataSnoc(kinds: string -> Kind, fed: seq<Fed>, f: Fed)
    ensures Data(kinds, fed + [f]) == Data(kinds, fed) + (if KindOf(kinds, f.argv) in {Multi, Exec} then [] else [f])
  {
    assert (fed + [f])[..|fed|] == fed;
  }

  lemma {:induction false} DataConcat(kinds: string -> Kind, a: seq<Fed>, b: seq<Fed>)
    ensures Data(kinds, a + b) == Data(kinds, a) + Data(kinds, b)
    decreases |b|
  {
    if b == [] {
      assert a + b == a;
    } else {
      var b0 := b[..|b| - 1];
      assert a + b == (a + b0) + [b[|b| - 1]];
      DataConcat(kinds, a, b0);
      DataSnoc(kinds, a + b0, b[|b| - 1]);
    }
  }

  /** The cut leaves a transaction open in the file: the file ended inside a command and the whole ones leave one open,
      or it ended cleanly and the last MULTI, where it is cut, is not the first of the transaction. */
  predicate CutInside(kinds: string -> Kind, cmds: seq<Argv>, n: nat)
    requires Good(kinds, cmds)
  {
    var whole := cmds[..Whole(cmds, n)];
    OpenMultis(kinds, whole) > if n == |EncodeAll(whole)| then 1 else 0
  }

  function KeptAt(r: Outcome, n: nat): nat {
    if r.Truncated? then r.at else n
  }

  /** How many commands the loader leaves in the file. */
  function Kept(kinds: string -> Kind, cmds: seq<Argv>, n: nat): (k: nat)
    requires Good(kinds, cmds)
    ensures k <= |cmds|
  {
    var whole := cmds[..Whole(cmds, n)];
    if n == |EncodeAll(whole)| && OpenMultis(kinds, whole) > 0 && HasMulti(kinds, whole)
    then LastMulti(kinds, whole) else |whole|
  }

  lemma FirstLoad(o: Options, cmds: seq<Argv>, n: nat)
    requires o.loadTruncated && Good(o.kinds, cmds) && n <= |EncodeAll(cmds)|
    ensures var r := Load(o, EncodeAll(cmds)[..n], n, NEW_CLIENT, 0, 0);
            var k := Kept(o.kinds, cmds, n);
            var c := Replay(o.kinds, NEW_CLIENT, cmds[..k]);
            !r.Fatal? && KeptAt(r, n) <= n && EncodeAll(cmds)[..KeptAt(r, n)] == EncodeAll(cmds[..k]) &&
            (c.multi <==> CutInside(o.kinds, cmds, n)) &&
            (r.c.done == c.done ||
             (!c.multi && k < |cmds| && KindOf(o.kinds, cmds[k]) == Multi && r.c.done == c.done + [Fed(c.db, cmds[k])]))
  {
    hide Load, Process, EncodeAll, BeforeMulti, Whole, OpenMultis;
    var j := Whole(cmds, n);
    var whole := cmds[..j];
    LoadCut(o, cmds, n);
    PrefixIsWholeThenPart(cmds, n);
    OpenMultisCount(o.kinds, whole);
    EncodePrefix(cmds, j);
    if n == |EncodeAll(whole)| && OpenMultis(o.kinds, whole) > 0 {
      LastMultiCounts(o.kinds, whole);
      CutIsLastMulti(o.kinds, whole);
      var i := LastMulti(o.kinds, whole);
      assert whole[..i] == cmds[..i];
      EncodePrefix(cmds, i);
      EncodePrefix(whole, i);
      OpenMultisCount(o.kinds, whole[..i]);
      ReplayView(o.kinds, NEW_CLIENT, cmds[..i]);
      if !Replay(o.kinds, NEW_CLIENT, cmds[..i]).multi {
        OpenDone(o.kinds, Replay(o.kinds, NEW_CLIENT, cmds[..i]), cmds[i]);
      }
    }
  }

  lemma OpenDone(kinds: string -> Kind, c: Client, a: Argv)
    requires a != [] && !c.multi && Sane(c) && kinds(a[0]) == Multi
    ensures Process(kinds, c, a).done == c.done + [Fed(c.db, a)]
  {
    RunNone(kinds, c);
  }

  /** Loading whole commands and part of others. */
  lemma LoadJoined(o: Options, head: seq<Argv>, tail: seq<Argv>, n: nat)
    requires o.loadTruncated && Good(o.kinds, head) && Good(o.kinds, tail) && n <= |EncodeAll(tail)|
    ensures var f := EncodeAll(head) + EncodeAll(tail)[..n];
            var r := Load(o, f, |f|, NEW_CLIENT, 0, 0);
            !r.Fatal? && r.c == Replay(o.kinds, Replay(o.kinds, NEW_CLIENT, head), tail[..Whole(tail, n)])
  {
    hide Encode, ReadCommand, Process, Whole, EncodeAll, BeforeMulti;
    var x := EncodeAll(tail)[..n];
    var off := |EncodeAll(head)|;
    var j := Whole(tail, n);
    PrefixIsWholeThenPart(tail, n);
    var size := |EncodeAll(tail[..j])|;
    var part := if j < |tail| then Encode(tail[j])[..n - size] else [];
    LoadPast(o, head, x, 0, NEW_CLIENT, 0);
    LoadPast(o, tail[..j], part, off, Replay(o.kinds, NEW_CLIENT, head), BeforeMulti(o.kinds, head, 0, 0));
    if size < n {
      CommandCut(tail[j], n - size);
    }
  }

  lemma {:induction false} OpenShift(kinds: string -> Kind, open: Option<nat>, cmds: seq<Fed>, at: nat, d: nat)
    ensures var up := if open.Some? then Some(open.value + d) else None;
            OpenAfter(kinds, up, cmds, at + d) ==
            match OpenAfter(kinds, open, cmds, at) { case None => None case Some(i) => Some(i + d) }
    decreases |cmds|
  {
    if cmds != [] {
      OpenShift(kinds, NextOpen(open, KindOf(kinds, cmds[0].argv), at), cmds[1..], at + 1, d);
    }
  }

  lemma {:induction false} OpenBelow(kinds: string -> Kind, open: Option<nat>, cmds: seq<Fed>, at: nat)
    requires open.Some? ==> open.value < at
    ensures OpenAfter(kinds, open, cmds, at).Some? ==> OpenAfter(kinds, open, cmds, at).value < at + |cmds|
    decreases |cmds|
  {
    if cmds != [] {
      OpenBelow(kinds, NextOpen(open, KindOf(kinds, cmds[0].argv), at), cmds[1..], at + 1);
    }
  }

  /** The first load, the file it leaves, and the load of that file with part of what was fed since. */
  function First(o: Options, cmds: seq<Fed>, n: nat): Outcome
    requires n <= |Log(cmds)|
  {
    Load(o, Log(cmds)[..n], n, NEW_CLIENT, 0, 0)
  }

  function CutLog(o: Options, cmds: seq<Fed>, n: nat): string
    requires n <= |Log(cmds)|
  {
    Log(cmds)[..Min(KeptAt(First(o, cmds, n), n), n)]
  }

  function Again(o: Options, cmds: seq<Fed>, n: nat, more: seq<Fed>, n2: nat): Outcome
    requires n <= |Log(cmds)| && n2 <= |Log(more)|
  {
    var f := CutLog(o, cmds, n) + Log(more)[..n2];
    Load(o, f, |f|, NEW_CLIENT, 0, 0)
  }

  /** The fed commands that are whole in a prefix, and those the loader keeps. */
  function WholeFed(cmds: seq<Fed>, n: nat): seq<Fed> {
    cmds[..FedAmong(-1, cmds, Whole(Raw(-1, cmds), n))]
  }

  function KeptFed(kinds: string -> Kind, cmds: seq<Fed>, n: nat): seq<Fed>
    requires Good(kinds, Raw(-1, cmds))
  {
    cmds[..FedAmong(-1, cmds, Kept(kinds, Raw(-1, cmds), n))]
  }

  /** The first load, over fed commands. */
  lemma FirstFed(o: Options, cmds: seq<Fed>, n: nat)
    requires o.loadTruncated && Valid(o.kinds, cmds) && n <= |Log(cmds)|
    ensures var raw := Raw(-1, cmds);
            Good(o.kinds, raw) && !First(o, cmds, n).Fatal? && KeptAt(First(o, cmds, n), n) <= n &&
            CutLog(o, cmds, n) == EncodeAll(raw[..Kept(o.kinds, raw, n)]) &&
            var c := Replay(o.kinds, NEW_CLIENT, raw[..Kept(o.kinds, raw, n)]);
            var kept := KeptFed(o.kinds, cmds, n);
            Sent(o.kinds, c, kept, OpenIn(o.kinds, kept)) && (c.multi <==> CutInside(o.kinds, raw, n)) &&
            (c.multi ==> First(o, cmds, n).c.done == c.done) &&
            (!c.multi ==> Data(o.kinds, First(o, cmds, n).c.done) == Data(o.kinds, kept))
  {
    hide Load, Raw, Process, EncodeAll, Whole, View, OpenAfter, CutInside, Kept, Data, FedAmong;
    var raw := Raw(-1, cmds);
    RawGood(o.kinds, -1, cmds);
    FirstLoad(o, raw, n);
    var k := Kept(o.kinds, raw, n);
    StartSent(o.kinds);
    RawSent(o.kinds, -1, cmds, NEW_CLIENT, [], None, k);
    assert [] + KeptFed(o.kinds, cmds, n) == KeptFed(o.kinds, cmds, n);
    var c := Replay(o.kinds, NEW_CLIENT, raw[..k]);
    if k < |raw| {
      DataSnoc(o.kinds, c.done, Fed(c.db, raw[k]));
    }
  }

  /** The second load, over the fed commands kept and those fed since. */
  lemma SecondFed(o: Options, cmds: seq<Fed>, n: nat, more: seq<Fed>, n2: nat)
    requires o.loadTruncated && Valid(o.kinds, cmds) && Valid(o.kinds, more) && n <= |Log(cmds)| && n2 <= |Log(more)|
    ensures Good(o.kinds, Raw(-1, cmds)) && !Again(o, cmds, n, more, n2).Fatal?
    ensures var kept, since := KeptFed(o.kinds, cmds, n), WholeFed(more, n2);
            Sent(o.kinds, Again(o, cmds, n, more, n2).c, kept + since,
                 OpenAfter(o.kinds, OpenIn(o.kinds, kept), since, |kept|))
  {
    hide Load, Raw, Process, EncodeAll, Whole, View, OpenAfter, CutInside, Kept, Data, FedAmong, Sent;
    FirstFed(o, cmds, n);
    var raw, raw2 := Raw(-1, cmds), Raw(-1, more);
    RawGood(o.kinds, -1, more);
    var k := Kept(o.kinds, raw, n);
    LoadJoined(o, raw[..k], raw2, n2);
    var kept := KeptFed(o.kinds, cmds, n);
    RawSent(o.kinds, -1, more, Replay(o.kinds, NEW_CLIENT, raw[..k]), kept, OpenIn(o.kinds, kept), Whole(raw2, n2));
  }

  /** Load, cut, feed, load: unless the cut left a transaction open, the second load runs what the first ran followed by
      what a load of the new commands alone runs. */
  lemma Reload(o: Options, cmds: seq<Fed>, n: nat, more: seq<Fed>, n2: nat)
    requires o.loadTruncated && Valid(o.kinds, cmds) && Valid(o.kinds, more) && n <= |Log(cmds)| && n2 <= |Log(more)|
    ensures Good(o.kinds, Raw(-1, cmds))
    ensures !CutInside(o.kinds, Raw(-1, cmds), n) ==>
              var r1, r2, r3 := First(o, cmds, n), Again(o, cmds, n, more, n2), First(o, more, n2);
              !r1.Fatal? && !r2.Fatal? && !r3.Fatal? && r2.c.multi == r3.c.multi &&
              Data(o.kinds, r2.c.done) == Data(o.kinds, r1.c.done) + Data(o.kinds, r3.c.done)
  {
    hide Load, Raw, Process, EncodeAll, Whole, View, OpenAfter, CutInside, Kept, Data, FedAmong;
    FirstFed(o, cmds, n);
    SecondFed(o, cmds, n, more, n2);
    LoadOfPrefix(o, more, n2);
    var kept, since := KeptFed(o.kinds, cmds, n), WholeFed(more, n2);
    if OpenIn(o.kinds, kept) == None {
      OpenShift(o.kinds, None, since, 0, |kept|);
      var open := OpenIn(o.kinds, since);
      OpenBelow(o.kinds, None, since, 0);
      assert open.Some? ==> (kept + since)[..|kept| + open.value + 1] == kept + since[..open.value + 1];
      DataConcat(o.kinds, kept, Ran(since, open));
    }
  }

  /** A cut that left a transaction open swallows what is fed since, up to the next EXEC. */
  lemma Swallowed(o: Options, cmds: seq<Fed>, n: nat, more: seq<Fed>, n2: nat)
    requires o.loadTruncated && Valid(o.kinds, cmds) && Valid(o.kinds, more) && n <= |Log(cmds)| && n2 <= |Log(more)|
    requires forall i :: 0 <= i < |more| ==> KindOf(o.kinds, more[i].argv) != Exec
    ensures Good(o.kinds, Raw(-1, cmds))
    ensures CutInside(o.kinds, Raw(-1, cmds), n) ==>
              var r1, r2 := First(o, cmds, n), Again(o, cmds, n, more, n2);
              !r1.Fatal? && r2.Truncated? && r2.c.multi && r2.c.done == r1.c.done
  {
    hide Raw, Process, EncodeAll, Whole, View, OpenAfter, CutInside, Kept, Data, FedAmong, Load;
    FirstFed(o, cmds, n);
    SecondFed(o, cmds, n, more, n2);
    var kept, since := KeptFed(o.kinds, cmds, n), WholeFed(more, n2);
    var open := OpenIn(o.kinds, kept);
    if open.Some? {
      StaysOpen(o.kinds, open, since, |kept|);
      assert (kept + since)[..open.value + 1] == kept[..open.value + 1];
      var f := CutLog(o, cmds, n) + Log(more)[..n2];
      LoadedIsClosed(o, f, |f|, NEW_CLIENT, 0, 0);
    }
  }

  lemma {:induction false} LoadedIsClosed(o: Options, f: string, size: nat, c: Client, v: nat, b: nat)
    requires |f| <= size
    ensures Load(o, f, size, c, v, b).Loaded? ==> !Load(o, f, size, c, v, b).c.multi
    decreases |f|
  {
    hide ReadCommand, Process;
    if f != [] {
      ReadCommandConsumes(f);
      var read := ReadCommand(f);
      if read.Got? {
        var v1 := if o.loadTruncated then size - |read.rest| else v;
        var b1 := if o.kinds(read.v[0]) == Multi then v else b;
        LoadedIsClosed(o, read.rest, size, Process(o.kinds, c, read.v), v1, b1);
      }
    }
  }

  lemma {:induction false} StaysOpen(kinds: string -> Kind, open: Option<nat>, cmds: seq<Fed>, at: nat)
    requires open.Some? && forall i :: 0 <= i < |cmds| ==> KindOf(kinds, cmds[i].argv) != Exec
    ensures OpenAfter(kinds, open, cmds, at) == open
    decreases |cmds|
  {
    if cmds != [] {
      StaysOpen(kinds, open, cmds[1..], at + 1);
    }
  }

  /** A data command fed after the cut is run by the next load, behind what the first one ran, iff the cut left no
      transaction open. */
  lemma ReloadIff(o: Options, cmds: seq<Fed>, n: nat, f: Fed)
    requires o.loadTruncated && Valid(o.kinds, cmds) && Valid(o.kinds, [f]) && n <= |Log(cmds)|
    requires KindOf(o.kinds, f.argv) == Other
    ensures Good(o.kinds, Raw(-1, cmds))
    ensures var r1, r2 := First(o, cmds, n), Again(o, cmds, n, [f], |Log([f])|);
            !r1.Fatal? && !r2.Fatal? &&
            (Data(o.kinds, r2.c.done) == Data(o.kinds, r1.c.done) + [f] <==> !CutInside(o.kinds, Raw(-1, cmds), n))
  {
    hide Raw, Process, EncodeAll, Whole, View, OpenAfter, CutInside, Kept, FedAmong, Load;
    FirstFed(o, cmds, n);
    Reload(o, cmds, n, [f], |Log([f])|);
    Swallowed(o, cmds, n, [f], |Log([f])|);
    LoadUndoesFeed(o, [f]);
    OpenOne(o.kinds, f);
    assert Log([f])[..|Log([f])|] == Log([f]);
    assert [f][..0] == [];
  }

  lemma OpenOne(kinds: string -> Kind, f: Fed)
    requires KindOf(kinds, f.argv) == Other
    ensures OpenIn(kinds, [f]) == None
  {
    assert [f][1..] == [];
    assert OpenAfter(kinds, None, [], 1) == None;
  }

  // ----- a log this server writes that must be cut three times

  function Names(name: string): Kind {
    if name == "MULTI" then Multi else if name == "EXEC" then Exec else if name == "SELECT" then Select else Other
  }

  const O: Options := Options(Names, true)
  const MULTI: Fed := Fed(0, ["MULTI"])
  const SET: Fed := Fed(0, ["SET"])

  lemma {:induction false} EncodeConcat(a: seq<Argv>, b: seq<Argv>)
    ensures EncodeAll(a + b) == EncodeAll(a) + EncodeAll(b)
    decreases |b|
  {
    hide Encode;
    if b == [] {
      assert a + b == a;
    } else {
      var b0, x := b[..|b| - 1], b[|b| - 1];
      assert a + b == (a + b0) + [x] && b == b0 + [x];
      EncodeConcat(a, b0);
      EncodeAllSnoc(a + b0, x);
      EncodeAllSnoc(b0, x);
    }
  }

  /** Without its last byte a log lacks its last command and ends inside it. */
  lemma {:induction false} ButLastByte(cmds: seq<Argv>)
    requires cmds != []
    ensures var n := |EncodeAll(cmds)| - 1;
            n > 0 && Whole(cmds, n) == |cmds| - 1 && n > |EncodeAll(cmds[..|cmds| - 1])|
    decreases |cmds|
  {
    hide Encode;
    EncodeLong(cmds[0]);
    if |cmds| > 1 {
      ButLastByte(cmds[1..]);
      assert cmds[..|cmds| - 1][1..] == cmds[1..][..|cmds| - 2];
    } else {
      assert cmds[..0] == [] && cmds[1..] == [];
    }
  }

  lemma EncodeLong(a: Argv)
    ensures |Encode(a)| > 2
  {
  }

  lemma Feeds()
    ensures Valid(Names, [MULTI, SET, SET]) && Valid(Names, [MULTI, SET])
    ensures Raw(-1, [MULTI, SET, SET]) == [SelectCommand(0), ["MULTI"], ["SET"], ["SET"]]
    ensures Raw(-1, [MULTI, SET]) == [SelectCommand(0), ["MULTI"], ["SET"]]
  {
    DecFits(0);
    assert [MULTI, SET, SET][1..] == [SET, SET] && [SET, SET][1..] == [SET] && [SET][1..] == [];
    assert [MULTI, SET][1..] == [SET];
    assert Raw(0, [SET]) == [["SET"]] && Raw(0, [SET, SET]) == [["SET"], ["SET"]];
  }

  lemma OpenMultisSnoc(kinds: string -> Kind, cmds: seq<Argv>, a: Argv)
    requires Good(kinds, cmds + [a]) && a != []
    ensures Good(kinds, cmds)
    ensures OpenMultis(kinds, cmds + [a]) ==
            if kinds(a[0]) == Multi then OpenMultis(kinds, cmds) + 1
            else if kinds(a[0]) == Exec then 0 else OpenMultis(kinds, cmds)
  {
    assert forall i :: 0 <= i < |cmds| ==> cmds[i] == (cmds + [a])[i];
    assert (cmds + [a])[..|cmds|] == cmds;
  }

  /** MULTI, SET and part of a command; the load cuts off the part; then MULTI and part of a command are fed. The file
      must now be cut three times before it loads. */
  lemma ThreeCuts()
    ensures var n, n2 := |Log([MULTI, SET, SET])| - 1, |Log([MULTI, SET])| - 1;
            n >= 0 && n2 >= 0 && Valid(Names, [MULTI, SET, SET]) && Valid(Names, [MULTI, SET]) &&
            Cuts(O, CutLog(O, [MULTI, SET, SET], n) + Log([MULTI, SET])[..n2]) == 3
  {
    hide Raw, EncodeAll, Encode, Whole, OpenMultis, Cuts, Load, CutInside, Replay, Data, Sent;
    Feeds();
    var sel := SelectCommand(0);
    var raw, raw2 := Raw(-1, [MULTI, SET, SET]), Raw(-1, [MULTI, SET]);
    ButLastByte(raw);
    ButLastByte(raw2);
    var n, n2 := |Log([MULTI, SET, SET])| - 1, |Log([MULTI, SET])| - 1;
    FirstFed(O, [MULTI, SET, SET], n);
    RawGood(Names, -1, [MULTI, SET]);
    var kept := raw[..3];
    assert CutLog(O, [MULTI, SET, SET], n) == EncodeAll(kept);
    var all := kept + raw2;
    EncodeConcat(kept, raw2);
    ButLastByte(all);
    var f := CutLog(O, [MULTI, SET, SET], n) + Log([MULTI, SET])[..n2];
    assert f == EncodeAll(all)[..|EncodeAll(all)| - 1];
    CutFileLoads(O, all, |EncodeAll(all)| - 1);
    Twice(all[..5], sel);
  }

  lemma Twice(cmds: seq<Argv>, sel: Argv)
    requires sel == SelectCommand(0) && cmds == [sel, ["MULTI"], ["SET"], sel, ["MULTI"]] && Good(Names, cmds)
    ensures OpenMultis(Names, cmds) == 2
  {
    hide OpenMultis;
    assert cmds == [sel, ["MULTI"], ["SET"], sel] + [["MULTI"]];
    OpenMultisSnoc(Names, [sel, ["MULTI"], ["SET"], sel], ["MULTI"]);
    assert [sel, ["MULTI"], ["SET"], sel] == [sel, ["MULTI"], ["SET"]] + [sel];
    OpenMultisSnoc(Names, [sel, ["MULTI"], ["SET"]], sel);
    assert [sel, ["MULTI"], ["SET"]] == [sel, ["MULTI"]] + [["SET"]];
    OpenMultisSnoc(Names, [sel, ["MULTI"]], ["SET"]);
    assert [sel, ["MULTI"]] == [sel] + [["MULTI"]];
    OpenMultisSnoc(Names, [sel], ["MULTI"]);
    assert [sel] == [] + [sel];
    OpenMultisSnoc(Names, [], sel);
    NoMultis(Names);
  }

  lemma NoMultis(kinds: string -> Kind)
    ensures OpenMultis(kinds, []) == 0
  {
  }
}
