// Group commit over whole runs: every interleaving of calls, commits, crashes and recoveries.
module LogRuns {
  import opened DiskBlocks
  import opened LogSpec
  import opened LogProtocol
  import opened LogSpace

  lemma RunPrefix(l: Layout, d: Disk, ss: seq<State>, k: nat)
    requires Run(l, d, ss) && 0 < k <= |ss|
    ensures Run(l, d, ss[..k]) && ss[..k][k - 1] == ss[k - 1]
  {
    var front := ss[..k];
    forall i | 0 <= i < |front| - 1 ensures StepAt(l, front, i) {
      assert StepAt(l, ss, i);
    }
  }

  // Everything that holds at every point of every run.
  ghost predicate Inv(l: Layout, init: Disk, s: State) {
    Books(l, s) && Contents(l, init, s) && Reserved(s)
  }

  lemma BootInv(l: Layout, d: Disk)
    requires WellFormed(l, d)
    ensures Inv(l, Recover(l, d), Boot(l, d))
  {
    hide Word, EncodeHeader, Recover, PutHeader;
    FirstRecoveryDisk(l, d);
    assert Effect(Recover(l, d), [], {}) == Recover(l, d);
  }

  lemma NextInv(l: Layout, init: Disk, s: State, s': State)
    requires Inv(l, init, s) && Next(l, s, s')
    ensures Inv(l, init, s')
  {
    hide Books, Contents, Reserved, Next;
    BooksNext(l, s, s');
    ContentsNext(l, init, s, s');
    ReservedNext(l, s, s');
  }

  lemma {:induction false} RunInvariant(l: Layout, d: Disk, ss: seq<State>)
    requires Run(l, d, ss)
    ensures Inv(l, Recover(l, d), ss[|ss| - 1])
    decreases |ss|
  {
    hide Inv, Next, Recover;
    if |ss| == 1 {
      BootInv(l, d);
    } else {
      RunPrefix(l, d, ss, |ss| - 1);
      RunInvariant(l, d, ss[..|ss| - 1]);
      assert StepAt(l, ss, |ss| - 2);
      NextInv(l, Recover(l, d), ss[|ss| - 2], ss[|ss| - 1]);
    }
  }

  // Crash safety of group commit.  At every point of every run, recovering from the
  // disk as it stands yields exactly the effect of the committed calls, each of them
  // whole, on the disk first booted from; no committed call is still running, and
  // nothing runs while a commit is in progress.
  lemma CrashSafety(l: Layout, d: Disk, ss: seq<State>)
    requires Run(l, d, ss)
    ensures var s := ss[|ss| - 1];
            && WellFormed(l, s.disk)
            && (forall b :: b in Recover(l, s.disk) && !l.InLog(b) ==>
                              b in Effect(Recover(l, d), s.history, s.committed) &&
                              Recover(l, s.disk)[b] == Effect(Recover(l, d), s.history, s.committed)[b])
            && s.committed !! s.touched.Keys
            && (s.committing ==> s.touched == map[] && s.outstanding == 0)
  {
    RunInvariant(l, d, ss);
    ContentsDurable(l, Recover(l, d), ss[|ss| - 1]);
  }

  // What is committed stays committed, through crashes too, and its writes are never
  // added to; only a crash drops calls from the transaction; when a commit ends, all
  // of its calls are committed.
  ghost predicate Keeps(l: Layout, s: State, s': State) {
    && s.committed <= s'.committed
    && s.history <= s'.history
    && (forall i :: |s.history| <= i < |s'.history| ==> s'.history[i].op !in s.committed)
    && (Crash(l, s, s') || s.txn <= s'.txn + s'.committed)
    && (s.phase.Committing? && s'.phase.Running? ==> s.txn <= s'.committed)
  }

  lemma WriteKeeps(l: Layout, s: State, s': State, w: Write)
    requires Books(l, s) && LogWrite(l, s, s', w)
    ensures Keeps(l, s, s')
  {
    assert w.op in s.txn;
    assert s'.history == s.history + [w];
  }

  lemma CallKeeps(l: Layout, s: State, s': State, op: OpId)
    requires Books(l, s) && (BeginSleep(s, s', op) || BeginOp(s, s', op) || EndOp(s, s', op))
    ensures Keeps(l, s, s')
  {
  }

  lemma CommitKeeps(l: Layout, s: State, s': State)
    requires Books(l, s) && (CommitOne(l, s, s') || CommitDone(s, s'))
    ensures Keeps(l, s, s')
  {
  }

  lemma BootKeeps(l: Layout, s: State, s': State)
    requires Books(l, s) && (Crash(l, s, s') || RecoverOne(l, s, s') || RecoverDone(s, s'))
    ensures Keeps(l, s, s')
  {
  }

  lemma StepKeeps(l: Layout, s: State, s': State)
    requires Books(l, s) && Next(l, s, s')
    ensures Keeps(l, s, s')
  {
    hide Books, Keeps, LogWrite, BeginSleep, BeginOp, EndOp, CommitOne, CommitDone, Crash, RecoverOne, RecoverDone;
    if w :| LogWrite(l, s, s', w) {
      WriteKeeps(l, s, s', w);
    } else if op :| BeginOp(s, s', op) {
      CallKeeps(l, s, s', op);
    } else if op :| EndOp(s, s', op) {
      CallKeeps(l, s, s', op);
    } else if op :| BeginSleep(s, s', op) {
      CallKeeps(l, s, s', op);
    } else if CommitOne(l, s, s') || CommitDone(s, s') {
      CommitKeeps(l, s, s');
    } else {
      BootKeeps(l, s, s');
    }
  }

  lemma RunKeeps(l: Layout, d: Disk, ss: seq<State>, k: nat)
    requires Run(l, d, ss) && k + 1 < |ss|
    ensures Keeps(l, ss[k], ss[k + 1])
  {
    hide Next, Keeps, Books, Contents, Reserved, Recover, WellFormed;
    RunPrefix(l, d, ss, k + 1);
    RunInvariant(l, d, ss[..k + 1]);
    assert StepAt(l, ss, k);
    StepKeeps(l, ss[k], ss[k + 1]);
  }

  lemma {:induction false} CommittedForever(l: Layout, d: Disk, ss: seq<State>, i: nat, j: nat)
    requires Run(l, d, ss) && i <= j < |ss|
    ensures ss[i].committed <= ss[j].committed
    decreases j
  {
    hide Run;
    if i < j {
      CommittedForever(l, d, ss, i, j - 1);
      RunKeeps(l, d, ss, j - 1);
    }
  }

  // No call sleeps in begin_op unless it would have to sleep again; end_op never
  // finds a commit in progress.
  lemma NoLostLogWakeup(l: Layout, d: Disk, ss: seq<State>)
    requires Run(l, d, ss)
    ensures var s := ss[|ss| - 1];
            && (s.waiting != {} ==> s.committing || |s.blocks| + (s.outstanding + 1) * MAXOPBLOCKS > LOGSIZE)
            && (s.touched != map[] ==> !s.committing)
  {
    RunInvariant(l, d, ss);
  }

  // A call that keeps to its share can always log one more block, whatever the others do.
  ghost predicate AddingNeverPanics(l: Layout, d: Disk) {
    forall ss: seq<State>, w: Write ::
      Run(l, d, ss) && MayWrite(l, ss[|ss| - 1], w) && w.block !in ss[|ss| - 1].blocks ==>
        !LogWritePanics(l, ss[|ss| - 1])
  }

  lemma RoomForOne(l: Layout, s: State, w: Write)
    requires Books(l, s) && Reserved(s) && l.size > LOGSIZE && MayWrite(l, s, w) && w.block !in s.blocks
    ensures !LogWritePanics(l, s)
  {
    hide Unused;
    var t := s.touched[w.op];
    assert w.block !in t;
    assert |t + {w.block}| == |t| + 1;
    UnusedRemove(s.touched, w.op);
    UnusedNonnegative(s.touched - {w.op});
    Smaller(s.touched, w.op);
  }

  lemma EnoughLogNeverPanics(l: Layout, d: Disk, ss: seq<State>, w: Write)
    requires Run(l, d, ss) && l.size > LOGSIZE
    requires MayWrite(l, ss[|ss| - 1], w) && w.block !in ss[|ss| - 1].blocks
    ensures !LogWritePanics(l, ss[|ss| - 1])
  {
    hide Books, Contents, Reserved, MayWrite, LogWritePanics, WellFormed;
    RunInvariant(l, d, ss);
    RoomForOne(l, ss[|ss| - 1], w);
  }

  lemma CommitReady(l: Layout, init: Disk, s: State)
    requires Contents(l, init, s) && s.phase.Committing?
    ensures s.phase.step <= 2 * |s.blocks| + 2
    ensures |s.blocks| > 0 ==> Formatted(l, s.disk) && GoodList(l, s.disk, s.blocks) && Loggable(s.cache, s.blocks)
  {
    hide Effect, Agrees, CommitDisk, Logged, Word, Formatted, Loggable;
  }

  lemma RecoveryReady(l: Layout, init: Disk, s: State)
    requires Contents(l, init, s) && s.phase.Recovering?
    ensures s.phase.step <= |s.blocks| + 1 && Formatted(l, s.disk) && GoodList(l, s.disk, s.blocks)
  {
    hide Effect, Agrees, RecoveryDisk, Recover, Logged, Word, Formatted;
  }

  // A commit or a recovery that has begun can always take its next step, up to its end:
  // so calls that wait for it do not wait for ever.
  lemma CommitMovesOn(l: Layout, d: Disk, ss: seq<State>) returns (s': State)
    requires Run(l, d, ss) && ss[|ss| - 1].phase.Committing?
    ensures CommitOne(l, ss[|ss| - 1], s') || CommitDone(ss[|ss| - 1], s')
    ensures s'.phase.Committing? ==> s'.phase.step == ss[|ss| - 1].phase.step + 1 <= 2 * |s'.blocks| + 2
  {
    hide Books, Contents, Reserved, Formatted, GoodList, Loggable, CommitWrite, Next, WellFormed, Recover;
    RunInvariant(l, d, ss);
    var s := ss[|ss| - 1];
    CommitReady(l, Recover(l, d), s);
    if |s.blocks| == 0 || s.phase.step == 2 * |s.blocks| + 2 {
      s' := s.(committing := false, phase := Running, blocks := [], cache := map[], txn := {}, waiting := {},
               committed := s.committed + s.txn);
    } else {
      s' := s.(disk := CommitWrite(l, s.disk, s.cache, s.blocks, s.phase.step),
               phase := Committing(s.phase.base, s.phase.step + 1),
               committed := if s.phase.step == |s.blocks| then s.committed + s.txn else s.committed);
    }
  }

  lemma RecoveryMovesOn(l: Layout, d: Disk, ss: seq<State>) returns (s': State)
    requires Run(l, d, ss) && ss[|ss| - 1].phase.Recovering?
    ensures RecoverOne(l, ss[|ss| - 1], s') || RecoverDone(ss[|ss| - 1], s')
    ensures s'.phase.Recovering? ==> s'.phase.step == ss[|ss| - 1].phase.step + 1 <= |s'.blocks| + 1
  {
    hide Books, Contents, Reserved, Formatted, GoodList, RecoveryWrite, Next, WellFormed, Recover;
    RunInvariant(l, d, ss);
    var s := ss[|ss| - 1];
    RecoveryReady(l, Recover(l, d), s);
    if s.phase.step == |s.blocks| + 1 {
      s' := s.(phase := Running, blocks := []);
    } else {
      s' := s.(disk := RecoveryWrite(l, s.disk, s.blocks, s.phase.step),
               phase := Recovering(s.phase.base, s.phase.step + 1));
    }
  }

  // A call can always end, and when none is running a new one can begin.
  lemma EndMovesOn(l: Layout, d: Disk, ss: seq<State>, op: OpId) returns (s': State)
    requires Run(l, d, ss) && op in ss[|ss| - 1].touched
    ensures EndOp(ss[|ss| - 1], s', op)
  {
    hide Contents, Reserved, Recover, WellFormed, Next, Blocked;
    RunInvariant(l, d, ss);
    var s := ss[|ss| - 1];
    var t := s.(outstanding := s.outstanding - 1, touched := s.touched - {op});
    s' := if t.outstanding == 0 then t.(committing := true, phase := Committing(s.disk, 0)) else t.(waiting := {});
  }

  lemma BeginMovesOn(l: Layout, d: Disk, ss: seq<State>, op: OpId) returns (s': State)
    requires Run(l, d, ss) && ss[|ss| - 1].phase.Running? && ss[|ss| - 1].touched == map[]
    requires op !in ss[|ss| - 1].seen
    ensures ss[|ss| - 1].waiting == {} && BeginOp(ss[|ss| - 1], s', op)
  {
    hide Contents, Reserved, Recover, WellFormed, Next;
    RunInvariant(l, d, ss);
    var s := ss[|ss| - 1];
    s' := s.(outstanding := s.outstanding + 1, touched := s.touched[op := {}], txn := s.txn + {op},
             seen := s.seen + {op});
  }
}
