/**
 Background rewrite of the append only file. The parent keeps every byte it logs since
 the fork in a list of blocks and pours them into a pipe; the child reads them while it
 writes the snapshot; a '!' each way ends the transfer; the parent appends what is left.
 */
module AofRewrite {
  import opened Wrappers

  const BLOCK_SIZE: nat := 1024 * 1024 * 10

  function Concat(blocks: seq<string>): string {
    if blocks == [] then "" else blocks[0] + Concat(blocks[1..])
  }

  lemma {:induction false} ConcatAppend(a: seq<string>, b: seq<string>)
    ensures Concat(a + b) == Concat(a) + Concat(b)
  {
    if a == [] {
      assert a + b == b;
    } else {
      assert (a + b)[1..] == a[1..] + b;
      ConcatAppend(a[1..], b);
      assert a[0] + (Concat(a[1..]) + Concat(b)) == Concat(a) + Concat(b);
    }
  }

  lemma ConcatOne(s: string)
    ensures Concat([s]) == s
  {
    assert [s][1..] == [];
    assert s + "" == s;
  }

  // ----------------------------------------------------------- the rewrite buffer

  /** server.aof_rewrite_buf_blocks: `used` is the length of a block, the rest is free. */
  class RewriteBuffer {
    var blocks: seq<string>

    ghost predicate Valid()
      reads this
    {
      forall i | 0 <= i < |blocks| :: |blocks[i]| <= BLOCK_SIZE
    }

    /** The bytes still to be handed over, in order. */
    ghost function Contents(): string
      reads this
    {
      Concat(blocks)
    }

    constructor ()
      ensures Valid() && Contents() == ""
    {
      blocks := [];
    }

    /** aofRewriteBufferAppend. */
    method Append(data: string)
      requires Valid()
      modifies this
      ensures Valid() && Contents() == old(Contents()) + data
    {
      hide Concat;
      var s := data;
      ghost var done := "";
      var haveBlock := blocks != [];
      assert Contents() == old(Contents()) + done;
      while s != []
        invariant Valid() && haveBlock == (blocks != [])
        invariant data == done + s
        invariant Contents() == old(Contents()) + done
        decreases |s|, if blocks == [] || |blocks[|blocks| - 1]| == BLOCK_SIZE then 1 else 0
      {
        if haveBlock {
          var last := |blocks| - 1;
          var free := BLOCK_SIZE - |blocks[last]|;
          var thislen := if free < |s| then free else |s|;
          if thislen > 0 {
            var piece := s[..thislen];
            GrowLast(blocks, piece);
            blocks := blocks[last := blocks[last] + piece];
            assert done + s == done + piece + s[thislen..];
            done := done + piece;
            s := s[thislen..];
          }
        }
        if s != [] {
          ConcatAppend(blocks, [""]);
          ConcatOne("");
          blocks := blocks + [""];
          haveBlock := true;
        }
      }
    }

    /** aofRewriteBufferSize. */
    method Size() returns (size: nat)
      ensures size == |Contents()|
    {
      size := 0;
      var i := 0;
      assert blocks[0..] == blocks;
      while i < |blocks|
        invariant 0 <= i <= |blocks|
        invariant size + |Concat(blocks[i..])| == |Contents()|
      {
        assert blocks[i..][1..] == blocks[i + 1..];
        size := size + |blocks[i]|;
        i := i + 1;
      }
    }

    /** aofChildWriteDiffData. `accepts[k]` is what the k-th write(2) of this call returns,
        0 or less when the pipe is full; `stop` is server.aof_stop_sending_diff. */
    method WriteDiff(stop: bool, accepts: seq<int>) returns (sent: string)
      requires Valid()
      modifies this
      ensures Valid() && sent + Contents() == old(Contents())
      ensures stop ==> sent == ""
      ensures exists k | 0 <= k <= |accepts| :: Accepted(accepts, k) && |sent| >= k
                && (stop || Contents() == "" || k == |accepts| || accepts[k] <= 0)
    {
      hide Concat;
      sent := "";
      var k := 0;
      while !stop && blocks != []
        invariant Valid() && 0 <= k <= |accepts| && Accepted(accepts, k) && |sent| >= k
        invariant sent + Contents() == old(Contents())
        invariant stop ==> sent == ""
        decreases |accepts| - k, |blocks|
      {
        var block, tail := blocks[0], blocks[1..];
        ConcatHead(block, tail);
        assert blocks == [block] + tail;
        if |block| > 0 {
          if k == |accepts| || accepts[k] <= 0 { return; }
          var n := if accepts[k] < |block| then accepts[k] else |block|;
          k := k + 1;
          ConcatHead(block[n..], tail);
          assert sent + (block + Concat(tail)) == sent + block[..n] + (block[n..] + Concat(tail));
          sent := sent + block[..n];
          block := block[n..];
          blocks := [block] + tail;
        }
        if |block| == 0 {
          assert block + Concat(tail) == Concat(tail);
          blocks := tail;
        }
      }
      ConcatNothing();
      assert Accepted(accepts, k);
    }

    /** aofRewriteBufferWrite: append what is left to the rewritten file. `accepts[i]` is what
        the write(2) of the i-th non-empty block returns; a short write is an error. */
    method WriteAll(accepts: seq<int>) returns (ok: bool, written: string)
      ensures ok <==> WholeBlocks(blocks, accepts)
      ensures written <= Contents() && (ok ==> written == Contents())
    {
      hide Concat;
      written := "";
      var i, k := 0, 0;
      assert blocks[0..] == blocks && accepts[0..] == accepts;
      while i < |blocks|
        invariant 0 <= i <= |blocks| && 0 <= k <= |accepts|
        invariant written + Concat(blocks[i..]) == Contents()
        invariant WholeBlocks(blocks[i..], accepts[k..]) <==> WholeBlocks(blocks, accepts)
      {
        var block := blocks[i];
        ConcatHead(block, blocks[i + 1..]);
        assert blocks[i..] == [block] + blocks[i + 1..];
        assert k < |accepts| ==> accepts[k..][1..] == accepts[k + 1..];
        if |block| > 0 {
          if k == |accepts| || accepts[k] != |block| { return false, written; }
          k := k + 1;
        }
        assert written + (block + Concat(blocks[i + 1..])) == written + block + Concat(blocks[i + 1..]);
        written := written + block;
        i := i + 1;
      }
      assert blocks[i..] == [];
      ConcatNothing();
      ok := true;
    }
  }

  /** The first k writes went through, at least in part. */
  predicate Accepted(accepts: seq<int>, k: nat)
    requires k <= |accepts|
  {
    forall i | 0 <= i < k :: accepts[i] > 0
  }

  /** Every write takes a whole block; empty blocks are not written. */
  predicate WholeBlocks(blocks: seq<string>, accepts: seq<int>) {
    blocks == []
    || (if blocks[0] == "" then WholeBlocks(blocks[1..], accepts)
        else accepts != [] && accepts[0] == |blocks[0]| && WholeBlocks(blocks[1..], accepts[1..]))
  }

  lemma ConcatNothing()
    ensures Concat([]) == ""
  {
  }

  lemma ConcatHead(block: string, tail: seq<string>)
    ensures Concat([block] + tail) == block + Concat(tail)
  {
    assert ([block] + tail)[1..] == tail;
  }

  lemma GrowLast(blocks: seq<string>, s: string)
    requires blocks != []
    ensures Concat(blocks[|blocks| - 1 := blocks[|blocks| - 1] + s]) == Concat(blocks) + s
  {
    var last := |blocks| - 1;
    var init := blocks[..last];
    assert blocks == init + [blocks[last]];
    assert blocks[last := blocks[last] + s] == init + [blocks[last] + s];
    ConcatAppend(init, [blocks[last]]);
    ConcatAppend(init, [blocks[last] + s]);
    ConcatOne(blocks[last]);
    ConcatOne(blocks[last] + s);
    assert Concat(init) + (blocks[last] + s) == Concat(init) + blocks[last] + s;
  }

  // -------------------------------------------------------------- the handshake

  datatype Phase = Snapshotting | AskedToStop | Finalizing | Exited(ok: bool)

  /** Parent, child and the three pipes between them. `pending` is the contents of the
      rewrite buffer, `fed` is the history of all that was logged since the fork. */
  datatype Rewrite = Rewrite(
    snapshot: string,
    fed: string,
    pending: string,
    stop: bool,             // server.aof_stop_sending_diff
    pipe: string,           // parent -> child data
    asked: bool,            // '!' on its way to the parent
    acked: bool,            // '!' on its way to the child
    phase: Phase,
    diff: string,           // server.aof_child_diff
    temp: Option<string>,   // the file the child leaves
    installed: Option<string>)

  datatype Step =
    | Feed(data: string)         // feedAppendOnlyFile
    | Send(n: nat)               // one write(2) of aofChildWriteDiffData
    | Receive(n: nat)            // one read(2) of aofReadDiffFromParent
    | Ask                        // the child asks the parent to stop
    | Stop(ackSent: bool)        // aofChildPipeReadable
    | TakeAck
    | Finish                     // the last read found the pipe empty
    | Die                        // any failure of the child
    | Install                    // backgroundRewriteDoneHandler, everything succeeding

  predicate Enabled(r: Rewrite, step: Step) {
    && r.installed.None?
    && match step
       case Feed(_) => true
       case Send(n) => !r.stop && 0 < n <= |r.pending|
       case Receive(n) => !r.phase.Exited? && 0 < n <= |r.pipe|
       case Ask => r.phase.Snapshotting?
       case Stop(_) => r.asked
       case TakeAck => r.phase.AskedToStop? && r.acked
       case Finish => r.phase.Finalizing? && r.pipe == ""
       case Die => !r.phase.Exited?
       case Install => r.phase == Exited(true) && r.temp.Some?
  }

  function Next(r: Rewrite, step: Step): Rewrite
    requires Enabled(r, step)
  {
    match step
    case Feed(data) => r.(pending := r.pending + data, fed := r.fed + data)
    case Send(n) => r.(pipe := r.pipe + r.pending[..n], pending := r.pending[n..])
    case Receive(n) => r.(diff := r.diff + r.pipe[..n], pipe := r.pipe[n..])
    case Ask => r.(asked := true, phase := AskedToStop)
    case Stop(ackSent) => r.(asked := false, stop := true, acked := ackSent)
    case TakeAck => r.(acked := false, phase := Finalizing)
    case Finish => r.(phase := Exited(true), temp := Some(r.snapshot + r.diff))
    case Die => r.(phase := Exited(false))
    case Install => r.(installed := Some(r.temp.value + r.pending))
  }

  /** Nothing lost, duplicated or reordered; the child finalizes only after the parent has
      stopped; the file it leaves holds all it received, and nothing is left in the pipe. */
  ghost predicate Conserved(r: Rewrite) {
    && r.diff + r.pipe + r.pending == r.fed
    && (r.acked || r.phase.Finalizing? ==> r.stop)
    && (r.temp.Some? ==> r.stop && r.pipe == "" && r.temp.value == r.snapshot + r.diff && r.phase == Exited(true))
    && (r.installed.Some? ==> r.installed.value == r.snapshot + r.fed)
  }

  lemma NextConserves(r: Rewrite, step: Step)
    requires Enabled(r, step) && Conserved(r)
    ensures Conserved(Next(r, step))
  {
    var a, b, c := r.diff, r.pipe, r.pending;
    match step
    case Feed(data) => Fourth(a, b, c, data);
    case Send(n) => Carry(a, b, c, n);
    case Receive(n) => Carry("", a, b, n); Empty3(a, b); Empty3(a + b[..n], b[n..]);
    case Install => Fourth(r.snapshot, a, "", c); InstallsAll(r.snapshot, a, c);
    case _ =>
  }

  lemma Fourth(a: string, b: string, c: string, d: string)
    ensures a + b + (c + d) == a + b + c + d
  {
  }

  lemma Carry(a: string, b: string, c: string, n: nat)
    requires n <= |c|
    ensures a + (b + c[..n]) + c[n..] == a + b + c
  {
    assert c == c[..n] + c[n..];
  }

  lemma Empty3(a: string, b: string)
    ensures "" + a + b == a + b
  {
  }

  lemma InstallsAll(snapshot: string, a: string, c: string)
    ensures snapshot + a + c == snapshot + (a + "" + c)
  {
  }

  /** Each step moves as many bytes as it says: a write from the blocks to the pipe, a read from
      the pipe to the child, and no other step any. */
  lemma BytesMove(r: Rewrite, step: Step)
    requires Enabled(r, step)
    ensures var t := Next(r, step);
            match step
            case Feed(data) => |t.pending| == |r.pending| + |data| && t.pipe == r.pipe && t.diff == r.diff
            case Send(n) => |t.pending| == |r.pending| - n && |t.pipe| == |r.pipe| + n && t.diff == r.diff
            case Receive(n) => t.pending == r.pending && |t.pipe| == |r.pipe| - n && |t.diff| == |r.diff| + n
            case _ => t.pending == r.pending && t.pipe == r.pipe && t.diff == r.diff
  {
  }

  function AfterFork(snapshot: string): Rewrite {
    Rewrite(snapshot, "", "", false, "", false, false, Snapshotting, "", None, None)
  }

  ghost predicate IsRun(run: seq<Rewrite>, steps: seq<Step>, snapshot: string) {
    && |run| == |steps| + 1 && run[0] == AfterFork(snapshot)
    && forall i | 0 <= i < |steps| :: Enabled(run[i], steps[i]) && run[i + 1] == Next(run[i], steps[i])
  }

  /** In every interleaving of feeds, partial writes, partial reads and the exchange of
      stop and ack, what the child has, what is in the pipe and what the parent still has
      add up to what was logged since the fork; an installed file is the snapshot and
      exactly those bytes. */
  lemma {:induction false} RewriteComplete(run: seq<Rewrite>, steps: seq<Step>, snapshot: string, i: nat)
    requires IsRun(run, steps, snapshot) && i < |run|
    ensures Conserved(run[i]) && run[i].snapshot == snapshot
    ensures run[i].installed.Some? ==> run[i].installed.value == snapshot + run[i].fed
  {
    if i > 0 {
      RewriteComplete(run, steps, snapshot, i - 1);
      NextConserves(run[i - 1], steps[i - 1]);
    }
  }

  // --------------------------------------------------------------- whether it can finish

  /** The steps one after the other, if each is possible in its turn. */
  function After(r: Rewrite, steps: seq<Step>): Option<Rewrite>
    decreases |steps|
  {
    if steps == [] then Some(r) else if Enabled(r, steps[0]) then After(Next(r, steps[0]), steps[1..]) else None
  }

  /** The child is gone, or waits for an ack that could not be sent. */
  predicate Lost(r: Rewrite) {
    r.phase == Exited(false) || (r.phase.AskedToStop? && !r.asked && !r.acked)
  }

  /** A child that exited well has left its file. */
  ghost predicate LeavesFile(r: Rewrite) {
    r.phase == Exited(true) ==> r.temp.Some?
  }

  lemma NextLeavesFile(r: Rewrite, step: Step)
    requires Enabled(r, step) && LeavesFile(r)
    ensures LeavesFile(Next(r, step))
  {
  }

  lemma Chain(r: Rewrite, step: Step, steps: seq<Step>)
    requires Enabled(r, step)
    ensures After(r, [step] + steps) == After(Next(r, step), steps)
  {
    assert ([step] + steps)[1..] == steps;
  }

  /** From every state that is not lost, parent and child can end the rewrite, and the file is
      then the snapshot and all that was logged. */
  lemma CanFinish(r: Rewrite) returns (steps: seq<Step>)
    requires Conserved(r) && r.installed.None? && LeavesFile(r) && !Lost(r)
    ensures var t := After(r, steps);
            t.Some? && t.value.installed == Some(r.snapshot + r.fed)
    decreases match r.phase case Snapshotting => 4 case AskedToStop => 3 case Finalizing => 2 case Exited(_) => 1,
              !r.acked, r.pipe != ""
  {
    hide Conserved;
    var step := match r.phase
                case Snapshotting => Ask
                case AskedToStop => if r.acked then TakeAck else Stop(true)
                case Finalizing => if r.pipe != "" then Receive(|r.pipe|) else Finish
                case Exited(_) => Install;
    NextConserves(r, step);
    var r1 := Next(r, step);
    if step.Install? {
      steps := [Install];
      Chain(r, step, []);
      assert [Install] + [] == [Install];
      assert r1.installed == Some(r.snapshot + r.fed) by { Installs(r1); }
    } else {
      NextLeavesFile(r, step);
      var rest := CanFinish(r1);
      steps := [step] + rest;
      Chain(r, step, rest);
    }
  }

  lemma Installs(r: Rewrite)
    requires Conserved(r) && r.installed.Some?
    ensures r.installed == Some(r.snapshot + r.fed)
  {
  }

  /** From a lost state it can not, whatever happens. */
  lemma {:induction false} NeverFinishes(r: Rewrite, steps: seq<Step>)
    requires Lost(r) && r.installed.None?
    ensures var t := After(r, steps); t.Some? ==> t.value.installed.None? && Lost(t.value)
    decreases |steps|
  {
    if steps != [] && Enabled(r, steps[0]) {
      NeverFinishes(Next(r, steps[0]), steps[1..]);
    }
  }

  ghost predicate Ends(r: Rewrite, steps: seq<Step>, file: string) {
    var t := After(r, steps);
    t.Some? && t.value.installed == Some(file)
  }

  /** At every point of every run the rewrite can still be brought to its end, the snapshot and
      all that was logged until now, exactly if the child lives and no ack is missing. */
  lemma FinishExactly(run: seq<Rewrite>, steps: seq<Step>, snapshot: string, i: nat)
    requires IsRun(run, steps, snapshot) && i < |run| && run[i].installed.None?
    ensures !Lost(run[i]) <==> exists more :: Ends(run[i], more, snapshot + run[i].fed)
  {
    hide Conserved, Next, Enabled, After;
    RewriteComplete(run, steps, snapshot, i);
    FileLeft(run, steps, snapshot, i);
    if Lost(run[i]) {
      forall more ensures !Ends(run[i], more, snapshot + run[i].fed) {
        NeverFinishes(run[i], more);
      }
    } else {
      var more := CanFinish(run[i]);
      assert Ends(run[i], more, snapshot + run[i].fed);
    }
  }

  lemma {:induction false} FileLeft(run: seq<Rewrite>, steps: seq<Step>, snapshot: string, i: nat)
    requires IsRun(run, steps, snapshot) && i < |run|
    ensures LeavesFile(run[i])
  {
    hide Next, Enabled;
    if i > 0 {
      FileLeft(run, steps, snapshot, i - 1);
      NextLeavesFile(run[i - 1], steps[i - 1]);
    }
  }
}
