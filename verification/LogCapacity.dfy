// How large the log must be: the log as mkfs lays it out is one block short.
module LogCapacity {
  import opened DiskBlocks
  import opened LogSpec
  import opened LogProtocol
  import opened LogSpace
  import opened LogRuns

  ghost predicate Reaches(l: Layout, d: Disk, s: State) {
    exists ss: seq<State> :: Run(l, d, ss) && ss[|ss| - 1] == s
  }

  lemma ReachesNext(l: Layout, d: Disk, s: State, s': State)
    requires Reaches(l, d, s) && Next(l, s, s')
    ensures Reaches(l, d, s')
  {
    var ss :| Run(l, d, ss) && ss[|ss| - 1] == s;
    var tt := ss + [s'];
    assert tt[|tt| - 1] == s';
    forall i | 0 <= i < |tt| - 1 ensures StepAt(l, tt, i) {
      assert i < |ss| - 1 ==> StepAt(l, ss, i);
    }
    assert Run(l, d, tt);
  }

  lemma ReachesRecoverOne(l: Layout, d: Disk, s: State, s': State)
    requires Reaches(l, d, s) && RecoverOne(l, s, s')
    ensures Reaches(l, d, s')
  {
    ReachesNext(l, d, s, s');
  }

  lemma ReachesBegin(l: Layout, d: Disk, s: State, op: OpId) returns (s': State)
    requires Reaches(l, d, s)
    requires s.phase.Running? && op !in s.seen && op !in s.waiting && !Blocked(s)
    ensures Reaches(l, d, s') && BeginOp(s, s', op)
  {
    s' := s.(outstanding := s.outstanding + 1, touched := s.touched[op := {}],
             txn := s.txn + {op}, seen := s.seen + {op});
    assert BeginOp(s, s', op);
    ReachesNext(l, d, s, s');
  }

  lemma ReachesWrite(l: Layout, d: Disk, s: State, w: Write) returns (s': State)
    requires Reaches(l, d, s) && MayWrite(l, s, w) && !LogWritePanics(l, s)
    ensures Reaches(l, d, s') && LogWrite(l, s, s', w)
  {
    s' := s.(blocks := Absorb(s.blocks, w.block), cache := s.cache[w.block := w.data],
             touched := s.touched[w.op := s.touched[w.op] + {w.block}],
             history := s.history + [w]);
    assert LogWrite(l, s, s', w);
    ReachesNext(l, d, s, s');
  }

  ghost function RecoveringAt(l: Layout, d: Disk, j: nat): State
    requires WellFormed(l, d) && j <= |Logged(d[l.start])| + 1
  {
    Boot(l, d).(disk := RecoveryDisk(l, d, j), phase := Recovering(d, j))
  }

  lemma RecoveringOne(l: Layout, d: Disk, j: nat)
    requires WellFormed(l, d) && j <= |Logged(d[l.start])|
    ensures RecoverOne(l, RecoveringAt(l, d, j), RecoveringAt(l, d, j + 1))
  {
    RecoveryStep(l, d, j);
  }

  lemma RecoveringStep(l: Layout, d: Disk, j: nat)
    requires WellFormed(l, d) && j <= |Logged(d[l.start])|
    requires Reaches(l, d, RecoveringAt(l, d, j))
    ensures Reaches(l, d, RecoveringAt(l, d, j + 1))
  {
    hide Reaches, RecoverOne, RecoveringAt;
    RecoveringOne(l, d, j);
    ReachesRecoverOne(l, d, RecoveringAt(l, d, j), RecoveringAt(l, d, j + 1));
  }

  lemma ReachesRunning(l: Layout, d: Disk) returns (s: State)
    requires WellFormed(l, d)
    ensures Reaches(l, d, s) && s.phase.Running? && s.disk.Keys == d.Keys
    ensures s.blocks == [] && s.outstanding == 0 && !s.committing && s.waiting == {} && s.seen == {}
    ensures s.touched == map[]
  {
    var n := |Logged(d[l.start])|;
    ReachesRecovery(l, d, n + 1);
    var p := RecoveringAt(l, d, n + 1);
    s := p.(phase := Running, blocks := []);
    assert RecoverDone(p, s);
    ReachesNext(l, d, p, s);
  }

  lemma ReachesBoot(l: Layout, d: Disk)
    requires WellFormed(l, d)
    ensures Reaches(l, d, RecoveringAt(l, d, 0))
  {
    var ss := [Boot(l, d)];
    assert Run(l, d, ss);
    assert RecoveringAt(l, d, 0) == Boot(l, d) == ss[|ss| - 1];
  }

  lemma {:induction false} ReachesRecovery(l: Layout, d: Disk, j: nat)
    requires WellFormed(l, d) && j <= |Logged(d[l.start])| + 1
    ensures Reaches(l, d, RecoveringAt(l, d, j))
    decreases j
  {
    if j == 0 {
      ReachesBoot(l, d);
    } else {
      ReachesRecovery(l, d, j - 1);
      RecoveringStep(l, d, j - 1);
    }
  }

  // Three calls run and the first m blocks of hb are logged.
  ghost predicate Crowded(d: Disk, hb: seq<nat>, m: nat, s: State) {
    && s.phase.Running? && !s.committing && s.outstanding == 3 && s.touched.Keys == {0, 1, 2}
    && s.disk.Keys == d.Keys
    && m <= |hb| && s.blocks == hb[..m]
  }

  ghost predicate HomeBlocks(l: Layout, d: Disk, hb: seq<nat>) {
    && (forall i :: 0 <= i < |hb| ==> hb[i] in d && !l.InLog(hb[i]))
    && (forall i, j :: 0 <= i < j < |hb| ==> hb[i] != hb[j])
  }

  lemma {:induction false} ElemsSize(bs: seq<nat>)
    ensures |Elems(bs)| <= |bs|
    decreases |bs|
  {
    if bs != [] {
      var front := bs[..|bs| - 1];
      ElemsSize(front);
      assert Elems(bs) == Elems(front) + {bs[|bs| - 1]};
    }
  }

  lemma ElemsExtend(bs: seq<nat>, lo: nat, m: nat)
    requires lo <= m < |bs|
    ensures bs[..m + 1] == bs[..m] + [bs[m]]
    ensures Elems(bs[lo..m + 1]) == Elems(bs[lo..m]) + {bs[m]}
  {
    assert bs[lo..m + 1] == bs[lo..m] + [bs[m]];
  }

  // Three calls may be let in before any of them has written.
  lemma ReachesThree(l: Layout, d: Disk, hb: seq<nat>) returns (s: State)
    requires WellFormed(l, d)
    ensures Reaches(l, d, s) && Crowded(d, hb, 0, s) && s.touched == map[0 := {}, 1 := {}, 2 := {}]
  {
    var s0 := ReachesRunning(l, d);
    var s1 := ReachesBegin(l, d, s0, 0);
    var s2 := ReachesBegin(l, d, s1, 1);
    s := ReachesBegin(l, d, s2, 2);
  }

  function SomeBlock(): Block {
    seq(BSIZE, _ => 0)
  }

  // A call that has logged hb[lo..m] may log hb[m].
  lemma ShareMayWrite(l: Layout, d: Disk, hb: seq<nat>, op: OpId, lo: nat, m: nat, s: State)
    requires WellFormed(l, d) && HomeBlocks(l, d, hb)
    requires op < 3 && Crowded(d, hb, m, s) && lo <= m < |hb| && m - lo < MAXOPBLOCKS
    requires s.touched[op] == Elems(hb[lo..m])
    ensures MayWrite(l, s, Write(op, hb[m], SomeBlock())) && hb[m] !in s.blocks
    ensures s.touched[op] + {hb[m]} == Elems(hb[lo..m + 1])
  {
    hide WellFormed, Elems;
    ElemsExtend(hb, lo, m);
    ElemsSize(hb[lo..m + 1]);
  }

  // A call that has logged nothing logs hb[lo..m].
  lemma {:induction false} ReachesShare(l: Layout, d: Disk, hb: seq<nat>, op: OpId, lo: nat, m: nat, s: State)
    returns (t: State)
    requires WellFormed(l, d) && HomeBlocks(l, d, hb)
    requires Reaches(l, d, s) && Crowded(d, hb, lo, s) && op < 3 && s.touched[op] == {}
    requires lo <= m < l.size && m <= LOGSIZE <= |hb| && m - lo <= MAXOPBLOCKS
    ensures Reaches(l, d, t) && Crowded(d, hb, m, t)
    ensures t.touched == s.touched[op := Elems(hb[lo..m])]
    decreases m
  {
    hide WellFormed, Reaches, HomeBlocks, MayWrite, Elems;
    if m == lo {
      ElemsSize(hb[lo..m]);
      t := s;
    } else {
      ElemsExtend(hb, lo, m - 1);
      var p := ReachesShare(l, d, hb, op, lo, m - 1, s);
      var w := Write(op, hb[m - 1], SomeBlock());
      ShareMayWrite(l, d, hb, op, lo, m - 1, p);
      t := ReachesWrite(l, d, p, w);
      assert t.touched == p.touched[op := p.touched[op] + {w.block}];
    }
  }

  // The fullest reachable log: the three calls log m blocks between them, in order.
  lemma ReachesFull(l: Layout, d: Disk, hb: seq<nat>, m: nat) returns (s: State)
    requires WellFormed(l, d) && HomeBlocks(l, d, hb)
    requires m < l.size && m <= LOGSIZE <= |hb|
    ensures Reaches(l, d, s) && Crowded(d, hb, m, s)
    ensures s.touched[0] == Elems(hb[..if m < MAXOPBLOCKS then m else MAXOPBLOCKS])
    ensures s.touched[2] == Elems(hb[if m < 2 * MAXOPBLOCKS then m else 2 * MAXOPBLOCKS..m])
  {
    hide Reaches, HomeBlocks, WellFormed, Elems;
    var a := if m < MAXOPBLOCKS then m else MAXOPBLOCKS;
    var b := if m < 2 * MAXOPBLOCKS then m else 2 * MAXOPBLOCKS;
    var s0 := ReachesThree(l, d, hb);
    var s1 := ReachesShare(l, d, hb, 0, 0, a, s0);
    assert hb[0..a] == hb[..a];
    var s2 := ReachesShare(l, d, hb, 1, a, b, s1);
    s := ReachesShare(l, d, hb, 2, b, m, s2);
  }

  // A log of at most LOGSIZE blocks runs out while a call is within its share.
  lemma ShortLogPanics(l: Layout, d: Disk, hb: seq<nat>) returns (s: State, w: Write)
    requires WellFormed(l, d) && HomeBlocks(l, d, hb) && l.size <= LOGSIZE <= |hb|
    ensures Reaches(l, d, s) && MayWrite(l, s, w) && w.block !in s.blocks && LogWritePanics(l, s)
  {
    hide Reaches, HomeBlocks, Elems, MayWrite;
    var m := l.size - 1;
    s := ReachesFull(l, d, hb, m);
    ShareMayWrite(l, d, hb, 2, if m < 2 * MAXOPBLOCKS then m else 2 * MAXOPBLOCKS, m, s);
    w := Write(2, hb[m], SomeBlock());
  }

  // Because the guard comes before the search, even a write that needs no new slot
  // can panic, on a log of any size.
  lemma AbsorbedWritePanics(l: Layout, d: Disk, hb: seq<nat>) returns (s: State, w: Write)
    requires WellFormed(l, d) && HomeBlocks(l, d, hb) && l.size >= 2 && LOGSIZE <= |hb|
    ensures Reaches(l, d, s) && MayWrite(l, s, w) && w.block in s.blocks && LogWritePanics(l, s)
  {
    hide Reaches, WellFormed;
    var m := if l.size - 1 < LOGSIZE then l.size - 1 else LOGSIZE;
    s := ReachesFull(l, d, hb, m);
    w := Write(0, hb[0], SomeBlock());
    var share := hb[..if m < MAXOPBLOCKS then m else MAXOPBLOCKS];
    assert share[0] == hb[0] && s.blocks[0] == hb[0];
    assert s.touched[0] + {hb[0]} == s.touched[0];
    ElemsSize(share);
  }

  // The condition is exact: with LOGSIZE home blocks to write to, a call within its
  // share can be made to panic if and only if the log has at most LOGSIZE blocks,
  // header included.  mkfs makes it LOGSIZE.
  lemma AddingPanicsExactly(l: Layout, d: Disk, hb: seq<nat>)
    requires WellFormed(l, d) && HomeBlocks(l, d, hb) && LOGSIZE <= |hb|
    ensures AddingNeverPanics(l, d) <==> l.size > LOGSIZE
  {
    if l.size > LOGSIZE {
      forall ss: seq<State>, w: Write |
        Run(l, d, ss) && MayWrite(l, ss[|ss| - 1], w) && w.block !in ss[|ss| - 1].blocks
        ensures !LogWritePanics(l, ss[|ss| - 1])
      {
        EnoughLogNeverPanics(l, d, ss, w);
      }
    } else {
      var s, w := ShortLogPanics(l, d, hb);
      var ss: seq<State> :| Run(l, d, ss) && ss[|ss| - 1] == s;
      assert MayWrite(l, ss[|ss| - 1], w) && LogWritePanics(l, ss[|ss| - 1]);
    }
  }

  // When a write panics, for writes that add a block and writes that do not: in every
  // run a call that may write is outstanding, so that only the fill of the log counts.
  lemma WritePanicsExactly(l: Layout, d: Disk, ss: seq<State>, w: Write)
    requires Run(l, d, ss) && MayWrite(l, ss[|ss| - 1], w)
    ensures var n := |ss[|ss| - 1].blocks|;
            LogWritePanics(l, ss[|ss| - 1]) <==> n >= LOGSIZE || n >= l.size - 1
  {
    hide Contents, Reserved;
    RunInvariant(l, d, ss);
    Smaller(ss[|ss| - 1].touched, w.op);
  }

  // A call can always change again a block that is in the log already.
  ghost predicate AbsorbingNeverPanics(l: Layout, d: Disk) {
    forall ss: seq<State>, w: Write ::
      Run(l, d, ss) && MayWrite(l, ss[|ss| - 1], w) && w.block in ss[|ss| - 1].blocks ==>
        !LogWritePanics(l, ss[|ss| - 1])
  }

  // No size of the log rules the panic of an absorbed write out, but for a log
  // without slots, where there is nothing to absorb.
  lemma AbsorbingPanicsExactly(l: Layout, d: Disk, hb: seq<nat>)
    requires WellFormed(l, d) && HomeBlocks(l, d, hb) && LOGSIZE <= |hb|
    ensures AbsorbingNeverPanics(l, d) <==> l.size < 2
  {
    if l.size < 2 {
      forall ss: seq<State>, w: Write | Run(l, d, ss) && MayWrite(l, ss[|ss| - 1], w)
        ensures w.block !in ss[|ss| - 1].blocks
      {
        NoSlots(l, d, ss);
      }
    } else {
      var s, w := AbsorbedWritePanics(l, d, hb);
      var ss: seq<State> :| Run(l, d, ss) && ss[|ss| - 1] == s;
      assert MayWrite(l, ss[|ss| - 1], w) && w.block in ss[|ss| - 1].blocks;
    }
  }

  lemma NoSlots(l: Layout, d: Disk, ss: seq<State>)
    requires Run(l, d, ss) && l.size < 2
    ensures ss[|ss| - 1].blocks == []
  {
    hide Reserved;
    RunInvariant(l, d, ss);
  }
}
