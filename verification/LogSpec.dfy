/**
  The on-disk redo log (kernel/log.c) as functions of whole disks.

  A disk maps block numbers to blocks.  The log occupies the blocks
  `start .. start + size`: first the header, then one slot per logged block.  Every
  `bwrite` is one atomic step, and the machine may stop after any of them, so a commit
  and a recovery are modelled by the disk found after each of their writes.
 */
module LogSpec {
  import opened DiskBlocks

  type Disk = map<nat, Block>

  datatype Layout = Layout(start: nat, size: nat) {
    predicate InLog(b: nat) {
      start <= b < start + size
    }

    // The block holding the i-th logged block.
    function Slot(i: nat): nat {
      start + 1 + i
    }
  }

  // ----- the header block: a count followed by home block numbers

  function Logged(h: Block): seq<nat> {
    if |h| == BSIZE && Word(h, 0) < WORDS then WordsOf(h, 1, 1 + Word(h, 0)) else []
  }

  // What write_head leaves in the header block: only the words it assigns change.
  function EncodeHeader(h: Block, bs: seq<nat>): (r: Block)
    requires |h| == BSIZE && |bs| < WORDS && Fit32(bs)
    ensures |r| == BSIZE && Word(r, 0) == |bs| && Logged(r) == bs
  {
    PutWords(h, 0, [|bs|] + bs)
  }

  // Home blocks that a header may name: on the disk, outside the log, and few enough.
  ghost predicate GoodList(l: Layout, d: Disk, bs: seq<nat>) {
    && |bs| <= LOGSIZE
    && |bs| < l.size
    && forall i :: 0 <= i < |bs| ==> bs[i] in d && !l.InLog(bs[i])
  }

  // A disk carrying the log region, every block of BSIZE bytes and numbered in 32 bits.
  ghost predicate Formatted(l: Layout, d: Disk) {
    && l.size > 0
    && (forall b :: l.InLog(b) ==> b in d)
    && (forall b :: b in d ==> |d[b]| == BSIZE && b < 0x1_0000_0000)
  }

  ghost predicate WellFormed(l: Layout, d: Disk) {
    && Formatted(l, d)
    && Word(d[l.start], 0) <= LOGSIZE
    && GoodList(l, d, Logged(d[l.start]))
  }

  // ----- the tests of begin_op and log_write

  predicate MustWait(n: nat, outstanding: int, committing: bool) {
    committing || n + (outstanding + 1) * MAXOPBLOCKS > LOGSIZE
  }

  // The guard of log_write; it runs before the search for an absorbing entry.
  predicate TooBig(l: Layout, n: nat, outstanding: int) {
    n >= LOGSIZE || n >= l.size - 1 || outstanding < 1
  }

  function Absorb(bs: seq<nat>, b: nat): seq<nat> {
    if b in bs then bs else bs + [b]
  }

  // ----- install_trans and recover_from_log

  // The disk after install_trans has copied the first k logged blocks home.
  ghost function Install(l: Layout, d: Disk, bs: seq<nat>, k: nat): (r: Disk)
    requires Formatted(l, d) && GoodList(l, d, bs) && k <= |bs|
    ensures Formatted(l, r) && r.Keys == d.Keys
    ensures forall b :: b in d && l.InLog(b) ==> r[b] == d[b]
    decreases k
  {
    if k == 0 then d
    else
      var p := Install(l, d, bs, k - 1);
      p[bs[k - 1] := p[l.Slot(k - 1)]]
  }

  // The disk after write_head has written the list bs into the header.
  ghost function PutHeader(l: Layout, d: Disk, bs: seq<nat>): (r: Disk)
    requires Formatted(l, d) && |bs| < WORDS && Fit32(bs)
    ensures Formatted(l, r) && r.Keys == d.Keys && Logged(r[l.start]) == bs && Word(r[l.start], 0) == |bs|
    ensures forall b :: b in d && b != l.start ==> r[b] == d[b]
  {
    d[l.start := EncodeHeader(d[l.start], bs)]
  }

  // The disk after j of the n + 1 writes of recover_from_log.
  ghost function RecoveryDisk(l: Layout, d: Disk, j: nat): (r: Disk)
    requires WellFormed(l, d) && j <= |Logged(d[l.start])| + 1
    ensures Formatted(l, r) && r.Keys == d.Keys
  {
    var bs := Logged(d[l.start]);
    if j <= |bs| then Install(l, d, bs, j)
    else PutHeader(l, Install(l, d, bs, |bs|), [])
  }

  ghost function Recover(l: Layout, d: Disk): (r: Disk)
    requires WellFormed(l, d)
    ensures WellFormed(l, r) && r.Keys == d.Keys && Logged(r[l.start]) == []
  {
    RecoveryDisk(l, d, |Logged(d[l.start])| + 1)
  }

  // The last position below k at which bs names b, or -1.
  function Last(bs: seq<nat>, k: nat, b: nat): (j: int)
    requires k <= |bs|
    ensures -1 <= j < k
    ensures j >= 0 ==> bs[j] == b
    ensures j < 0 <==> b !in bs[..k]
    decreases k
  {
    if k == 0 then -1
    else
      assert bs[..k] == bs[..k - 1] + [bs[k - 1]];
      if bs[k - 1] == b then k - 1 else Last(bs, k - 1, b)
  }

  lemma {:induction false} InstallValue(l: Layout, d: Disk, bs: seq<nat>, k: nat, b: nat)
    requires Formatted(l, d) && GoodList(l, d, bs) && k <= |bs| && b in d
    ensures Install(l, d, bs, k)[b] == if Last(bs, k, b) < 0 then d[b] else d[l.Slot(Last(bs, k, b))]
    decreases k
  {
    if k > 0 {
      InstallValue(l, d, bs, k - 1, b);
      assert l.InLog(l.Slot(k - 1));
    }
  }

  // What recovery makes of a home block, read off the disk without running recovery.
  ghost function HomeValue(l: Layout, d: Disk, b: nat): Block
    requires WellFormed(l, d) && b in d
  {
    var bs := Logged(d[l.start]);
    var j := Last(bs, |bs|, b);
    if j < 0 then d[b] else d[l.Slot(j)]
  }

  lemma RecoverValue(l: Layout, d: Disk, b: nat)
    requires WellFormed(l, d) && b in d && !l.InLog(b)
    ensures Recover(l, d)[b] == HomeValue(l, d, b)
  {
    var bs := Logged(d[l.start]);
    InstallValue(l, d, bs, |bs|, b);
  }

  // ----- crashes during recovery

  lemma RecoveryFormed(l: Layout, d: Disk, j: nat)
    requires WellFormed(l, d) && j <= |Logged(d[l.start])| + 1
    ensures WellFormed(l, RecoveryDisk(l, d, j))
    ensures j <= |Logged(d[l.start])| ==> RecoveryDisk(l, d, j)[l.start] == d[l.start]
  {
    hide EncodeHeader, Install, Logged, Word, Fit32;
    assert l.InLog(l.start);
  }

  // While recovery installs, what it would yield for a home block does not change.
  lemma InstallHome(l: Layout, d: Disk, j: nat, b: nat)
    requires WellFormed(l, d) && j <= |Logged(d[l.start])| && b in d && !l.InLog(b)
    requires WellFormed(l, RecoveryDisk(l, d, j)) && RecoveryDisk(l, d, j)[l.start] == d[l.start]
    ensures HomeValue(l, RecoveryDisk(l, d, j), b) == HomeValue(l, d, b)
  {
    hide EncodeHeader, Install, Logged, Word, Last;
    var bs := Logged(d[l.start]);
    InstallValue(l, d, bs, j, b);
    LastMonotone(bs, j, |bs|, b);
    var t := Last(bs, |bs|, b);
    if t >= 0 {
      SlotIn(l, d, bs, t);
    }
  }

  // Stopping recovery after any number of its writes loses nothing: recovering
  // from the disk so left gives the same home blocks.
  lemma RecoveryCrashSafe(l: Layout, d: Disk, j: nat)
    requires WellFormed(l, d) && j <= |Logged(d[l.start])| + 1
    ensures WellFormed(l, RecoveryDisk(l, d, j))
    ensures forall b :: b in d && !l.InLog(b) ==>
                          Recover(l, RecoveryDisk(l, d, j))[b] == Recover(l, d)[b]
  {
    hide EncodeHeader, Install, RecoveryDisk, WellFormed, Logged, Word, Last;
    var r := RecoveryDisk(l, d, j);
    RecoveryFormed(l, d, j);
    forall b | b in d && !l.InLog(b)
      ensures Recover(l, r)[b] == Recover(l, d)[b]
    {
      RecoverValue(l, r, b);
      if j <= |Logged(d[l.start])| {
        InstallHome(l, d, j, b);
        RecoverValue(l, d, b);
      } else {
        assert r == Recover(l, d);
      }
    }
  }

  lemma {:induction false} LastMonotone(bs: seq<nat>, j: nat, k: nat, b: nat)
    requires j <= k <= |bs|
    ensures Last(bs, j, b) >= 0 ==> Last(bs, k, b) >= 0
    decreases k
  {
    if Last(bs, j, b) >= 0 {
      assert bs[Last(bs, j, b)] == bs[..k][Last(bs, j, b)];
    }
  }

  // The effect of write number j of a recovery on the disk p it finds, when the
  // header read at boot listed bs.
  ghost function RecoveryWrite(l: Layout, p: Disk, bs: seq<nat>, j: nat): (r: Disk)
    requires Formatted(l, p) && GoodList(l, p, bs) && j <= |bs|
  {
    if j < |bs| then
      assert l.InLog(l.Slot(j));
      p[bs[j] := p[l.Slot(j)]]
    else PutHeader(l, p, [])
  }

  lemma RecoveryStep(l: Layout, d: Disk, j: nat)
    requires WellFormed(l, d) && j <= |Logged(d[l.start])|
    ensures RecoveryWrite(l, RecoveryDisk(l, d, j), Logged(d[l.start]), j) == RecoveryDisk(l, d, j + 1)
  {
    hide Logged, EncodeHeader, Word, Fit32;
    var bs := Logged(d[l.start]);
    if j < |bs| {
      assert RecoveryDisk(l, d, j + 1) == Install(l, d, bs, j + 1);
    }
  }

  // A chain of boots: each recovery starts from the disk on which the one before stopped.
  ghost predicate CrashChain(l: Layout, ds: seq<Disk>) {
    && |ds| > 0
    && WellFormed(l, ds[0])
    && forall i :: 0 <= i < |ds| - 1 ==>
         WellFormed(l, ds[i]) &&
         Stopped(l, ds[i], ds[i + 1])
  }

  // r is a disk on which a recovery of d may have stopped.
  ghost predicate Stopped(l: Layout, d: Disk, r: Disk)
    requires WellFormed(l, d)
  {
    exists j: nat :: j <= |Logged(d[l.start])| + 1 && r == RecoveryDisk(l, d, j)
  }

  lemma StoppedSafe(l: Layout, d: Disk, r: Disk)
    requires WellFormed(l, d) && Stopped(l, d, r)
    ensures WellFormed(l, r) && r.Keys == d.Keys
    ensures forall b :: b in d && !l.InLog(b) ==> Recover(l, r)[b] == Recover(l, d)[b]
  {
    var j: nat :| j <= |Logged(d[l.start])| + 1 && r == RecoveryDisk(l, d, j);
    RecoveryCrashSafe(l, d, j);
  }

  lemma {:induction false} RepeatedCrashesSafe(l: Layout, ds: seq<Disk>)
    requires CrashChain(l, ds)
    ensures WellFormed(l, ds[|ds| - 1]) && ds[|ds| - 1].Keys == ds[0].Keys
    ensures forall b :: b in ds[0] && !l.InLog(b) ==>
                          Recover(l, ds[|ds| - 1])[b] == Recover(l, ds[0])[b]
    decreases |ds|
  {
    if |ds| > 1 {
      var front := ds[..|ds| - 1];
      RepeatedCrashesSafe(l, front);
      var i := |ds| - 2;
      assert front[i] == ds[i];
      StoppedSafe(l, ds[i], ds[i + 1]);
    }
  }

  // ----- commit

  // Every block to be logged has contents in the cache, `view`.
  ghost predicate Loggable(view: Disk, bs: seq<nat>) {
    forall i :: 0 <= i < |bs| ==> bs[i] in view && |view[bs[i]]| == BSIZE
  }

  // The disk after write_log has filled the first k slots from the cache.
  ghost function Fill(l: Layout, d: Disk, view: Disk, bs: seq<nat>, k: nat): (r: Disk)
    requires Formatted(l, d) && GoodList(l, d, bs) && Loggable(view, bs) && k <= |bs|
    ensures Formatted(l, r) && r.Keys == d.Keys
    ensures forall b :: b in d && (!l.InLog(b) || b == l.start) ==> r[b] == d[b]
    decreases k
  {
    if k == 0 then d
    else
      assert l.InLog(l.Slot(k - 1));
      Fill(l, d, view, bs, k - 1)[l.Slot(k - 1) := view[bs[k - 1]]]
  }

  // The disk at the commit point: all slots filled and the header written.
  ghost function CommitPoint(l: Layout, d: Disk, view: Disk, bs: seq<nat>): (r: Disk)
    requires Formatted(l, d) && GoodList(l, d, bs) && Loggable(view, bs)
    ensures WellFormed(l, r) && r.Keys == d.Keys && Logged(r[l.start]) == bs
  {
    PutHeader(l, Fill(l, d, view, bs, |bs|), bs)
  }

  // The disk after i of the 2n + 2 writes of commit: n log slots, the header,
  // n home blocks, the cleared header.  From the header write on, commit does to
  // the disk what recovery would do.
  ghost function CommitDisk(l: Layout, d: Disk, view: Disk, bs: seq<nat>, i: nat): (r: Disk)
    requires Formatted(l, d) && GoodList(l, d, bs) && Loggable(view, bs)
    requires i <= 2 * |bs| + 2
    ensures Formatted(l, r) && r.Keys == d.Keys
  {
    if i <= |bs| then Fill(l, d, view, bs, i)
    else RecoveryDisk(l, CommitPoint(l, d, view, bs), i - |bs| - 1)
  }

  lemma SlotIn(l: Layout, d: Disk, bs: seq<nat>, t: nat)
    requires Formatted(l, d) && GoodList(l, d, bs) && t < |bs|
    ensures l.InLog(l.Slot(t)) && l.Slot(t) in d && l.Slot(t) != bs[t]
  {
  }

  lemma {:induction false} FillValue(l: Layout, d: Disk, view: Disk, bs: seq<nat>, k: nat, t: nat)
    requires Formatted(l, d) && GoodList(l, d, bs) && Loggable(view, bs) && t < k <= |bs|
    ensures l.InLog(l.Slot(t)) && l.Slot(t) in d && Fill(l, d, view, bs, k)[l.Slot(t)] == view[bs[t]]
    decreases k
  {
    hide Formatted, GoodList, Loggable;
    SlotIn(l, d, bs, t);
    if t < k - 1 {
      FillValue(l, d, view, bs, k - 1, t);
    }
  }

  // Recovering from the commit point installs the cached contents.
  lemma CommitPointValue(l: Layout, d: Disk, view: Disk, bs: seq<nat>, b: nat)
    requires Formatted(l, d) && GoodList(l, d, bs) && Loggable(view, bs)
    requires b in d && !l.InLog(b)
    ensures HomeValue(l, CommitPoint(l, d, view, bs), b) == if b in bs then view[b] else d[b]
  {
    var j := Last(bs, |bs|, b);
    assert bs[..|bs|] == bs;
    assert l.InLog(l.start);
    if j >= 0 {
      FillValue(l, d, view, bs, |bs|, j);
    }
  }

  // Atomicity of one commit: recovery from the disk left after i writes yields
  // the old home blocks before the header write and the new ones from it on.
  lemma CommitAtomic(l: Layout, d: Disk, view: Disk, bs: seq<nat>, i: nat)
    requires WellFormed(l, d) && Logged(d[l.start]) == []
    requires GoodList(l, d, bs) && Loggable(view, bs)
    requires i <= 2 * |bs| + 2
    ensures WellFormed(l, CommitDisk(l, d, view, bs, i))
    ensures forall b :: b in d && !l.InLog(b) ==>
                          Recover(l, CommitDisk(l, d, view, bs, i))[b] ==
                          if i > |bs| && b in bs then view[b] else d[b]
  {
    hide Install, Fill, Recover, RecoveryDisk, CommitPoint, EncodeHeader, Logged, Word;
    var r := CommitDisk(l, d, view, bs, i);
    var c := CommitPoint(l, d, view, bs);
    if i > |bs| {
      RecoveryCrashSafe(l, c, i - |bs| - 1);
    }
    forall b | b in d && !l.InLog(b)
      ensures Recover(l, r)[b] == if i > |bs| && b in bs then view[b] else d[b]
    {
      if i <= |bs| {
        RecoverValue(l, r, b);
      } else {
        RecoverValue(l, c, b);
        CommitPointValue(l, d, view, bs, b);
      }
    }
  }

  // Once its last write is done, a commit has put every new block in place and
  // left the log empty, with nothing else changed outside the log.
  lemma CommitComplete(l: Layout, d: Disk, view: Disk, bs: seq<nat>)
    requires Formatted(l, d) && GoodList(l, d, bs) && Loggable(view, bs)
    ensures var r := CommitDisk(l, d, view, bs, 2 * |bs| + 2);
            && WellFormed(l, r) && Logged(r[l.start]) == []
            && forall b :: b in d && !l.InLog(b) ==> r[b] == if b in bs then view[b] else d[b]
  {
    var c := CommitPoint(l, d, view, bs);
    assert CommitDisk(l, d, view, bs, 2 * |bs| + 2) == Recover(l, c);
    forall b | b in d && !l.InLog(b)
      ensures Recover(l, c)[b] == if b in bs then view[b] else d[b]
    {
      RecoverValue(l, c, b);
      CommitPointValue(l, d, view, bs, b);
    }
  }

  // The effect of write number i of a commit on the disk p it finds.
  ghost function CommitWrite(l: Layout, p: Disk, view: Disk, bs: seq<nat>, i: nat): (r: Disk)
    requires Formatted(l, p) && GoodList(l, p, bs) && Loggable(view, bs)
    requires i <= 2 * |bs| + 1
  {
    var n := |bs|;
    if i < n then p[l.Slot(i) := view[bs[i]]]
    else if i == n then PutHeader(l, p, bs)
    else RecoveryWrite(l, p, bs, i - n - 1)
  }

  // The disks of a commit are those its single writes produce one after the other.
  lemma CommitStep(l: Layout, d: Disk, view: Disk, bs: seq<nat>, i: nat)
    requires Formatted(l, d) && GoodList(l, d, bs) && Loggable(view, bs)
    requires i <= 2 * |bs| + 1
    ensures CommitWrite(l, CommitDisk(l, d, view, bs, i), view, bs, i) ==
            CommitDisk(l, d, view, bs, i + 1)
  {
    hide Logged, EncodeHeader, Word, Fit32, RecoveryWrite, RecoveryDisk, Install, PutHeader;
    var n := |bs|;
    var p := CommitDisk(l, d, view, bs, i);
    if i < n {
      assert p == Fill(l, d, view, bs, i);
      assert CommitDisk(l, d, view, bs, i + 1) == Fill(l, d, view, bs, i + 1);
    } else if i == n {
      FirstRecoveryDisk(l, CommitPoint(l, d, view, bs));
    } else {
      RecoveryStep(l, CommitPoint(l, d, view, bs), i - n - 1);
    }
  }

  // ----- the disks left by each write, in order

  ghost function FillTrace(l: Layout, d: Disk, view: Disk, bs: seq<nat>, k: nat): (r: seq<Disk>)
    requires Formatted(l, d) && GoodList(l, d, bs) && Loggable(view, bs) && k <= |bs|
    ensures |r| == k
  {
    seq(k, i requires 0 <= i < k => Fill(l, d, view, bs, i + 1))
  }

  ghost function RecoveryTrace(l: Layout, d: Disk, k: nat): (r: seq<Disk>)
    requires WellFormed(l, d) && k <= |Logged(d[l.start])| + 1
    ensures |r| == k
  {
    seq(k, j requires 0 <= j < k => RecoveryDisk(l, d, j + 1))
  }

  lemma FillTraceNext(l: Layout, d: Disk, view: Disk, bs: seq<nat>, k: nat)
    requires Formatted(l, d) && GoodList(l, d, bs) && Loggable(view, bs) && k < |bs|
    ensures FillTrace(l, d, view, bs, k + 1) == FillTrace(l, d, view, bs, k) + [Fill(l, d, view, bs, k + 1)]
  {
    hide Fill, Formatted, GoodList, Loggable;
  }

  lemma RecoveryTraceNext(l: Layout, d: Disk, k: nat)
    requires WellFormed(l, d) && k <= |Logged(d[l.start])|
    ensures RecoveryTrace(l, d, k + 1) == RecoveryTrace(l, d, k) + [RecoveryDisk(l, d, k + 1)]
  {
    hide RecoveryDisk, Logged, Word, GoodList;
  }

  // All the disks a crash can find during a commit.
  ghost function CommitTrace(l: Layout, d: Disk, view: Disk, bs: seq<nat>): (r: seq<Disk>)
    requires Formatted(l, d) && GoodList(l, d, bs) && Loggable(view, bs)
    ensures |r| == 2 * |bs| + 2
  {
    var c := CommitPoint(l, d, view, bs);
    FillTrace(l, d, view, bs, |bs|) + [c] + RecoveryTrace(l, c, |bs| + 1)
  }

  lemma CommitTraceAt(l: Layout, d: Disk, view: Disk, bs: seq<nat>, i: nat)
    requires Formatted(l, d) && GoodList(l, d, bs) && Loggable(view, bs) && i < 2 * |bs| + 2
    ensures CommitTrace(l, d, view, bs)[i] == CommitDisk(l, d, view, bs, i + 1)
  {
    hide Fill, RecoveryDisk, CommitPoint, GoodList, Formatted, Loggable, WellFormed, Logged;
    var c := CommitPoint(l, d, view, bs);
    if i < |bs| {
      assert CommitTrace(l, d, view, bs)[i] == FillTrace(l, d, view, bs, |bs|)[i];
    } else if i > |bs| {
      assert CommitTrace(l, d, view, bs)[i] == RecoveryTrace(l, c, |bs| + 1)[i - |bs| - 1];
    } else {
      FirstRecoveryDisk(l, c);
    }
  }

  lemma FirstRecoveryDisk(l: Layout, c: Disk)
    requires WellFormed(l, c)
    ensures RecoveryDisk(l, c, 0) == c
  {
  }

  // Commit and recovery together: stop a commit after any i writes, then stop any
  // number of recoveries after any number of their writes.  The home blocks end up
  // all old or all new, and new exactly when the header write was done.
  lemma CommitThenCrashes(l: Layout, d: Disk, view: Disk, bs: seq<nat>, i: nat, ds: seq<Disk>)
    requires WellFormed(l, d) && Logged(d[l.start]) == []
    requires GoodList(l, d, bs) && Loggable(view, bs)
    requires i <= 2 * |bs| + 2
    requires CrashChain(l, ds) && ds[0] == CommitDisk(l, d, view, bs, i)
    ensures WellFormed(l, ds[|ds| - 1]) && ds[|ds| - 1].Keys == d.Keys
    ensures forall b :: b in d && !l.InLog(b) ==>
                          Recover(l, ds[|ds| - 1])[b] ==
                          if i > |bs| && b in bs then view[b] else d[b]
  {
    CommitAtomic(l, d, view, bs, i);
    RepeatedCrashesSafe(l, ds);
  }

  // The same for the disks of a commit as they are written: a crash on any of them,
  // and any further crashes in recovery, leave the home blocks all old if the header
  // write had not been done and all new if it had.
  lemma CrashAfterAnyWrite(l: Layout, d: Disk, view: Disk, bs: seq<nat>, i: nat, ds: seq<Disk>)
    requires WellFormed(l, d) && Logged(d[l.start]) == []
    requires GoodList(l, d, bs) && Loggable(view, bs)
    requires i < |CommitTrace(l, d, view, bs)|
    requires CrashChain(l, ds) && ds[0] == CommitTrace(l, d, view, bs)[i]
    ensures WellFormed(l, ds[|ds| - 1]) && ds[|ds| - 1].Keys == d.Keys
    ensures forall b :: b in d && !l.InLog(b) ==>
                          Recover(l, ds[|ds| - 1])[b] ==
                          if i >= |bs| && b in bs then view[b] else d[b]
  {
    hide CommitTrace, CommitDisk, Recover, GoodList, Loggable, Logged, Word;
    CommitTraceAt(l, d, view, bs, i);
    CommitThenCrashes(l, d, view, bs, i + 1, ds);
  }
}
