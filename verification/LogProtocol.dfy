/**
  Group commit (kernel/log.c) as a step system.

  File-system calls run concurrently between begin_op and end_op, log their blocks,
  sleep when the log is short of space, and the last one to finish commits for all.
  Each step below is one region under log.lock or one disk write of commit or recovery;
  the machine may crash at any step.  The state also carries a history (which call
  wrote what), so that what survives a crash can be compared with what was asked for.
 */
module LogProtocol {
  import opened DiskBlocks
  import opened LogSpec

  type OpId = nat
  datatype Write = Write(op: OpId, block: nat, data: Block)

  datatype Phase =
    | Running
    | Committing(base: Disk, step: nat)   // the disk before the commit, and its writes done so far
    | Recovering(base: Disk, step: nat)   // the disk found at boot, and recovery's writes done so far

  datatype State = State(
    disk: Disk,
    cache: Disk,                          // contents of the pinned blocks
    blocks: seq<nat>,                     // log.lh.block[..log.lh.n]
    outstanding: int,
    committing: bool,
    phase: Phase,
    waiting: set<OpId>,                   // calls asleep in begin_op
    touched: map<OpId, set<nat>>,         // calls between begin_op and end_op, and the blocks each has logged
    txn: set<OpId>,                       // calls whose writes belong to the current transaction
    committed: set<OpId>,
    seen: set<OpId>,
    history: seq<Write>)                  // every log_write so far

  // ----- the steps

  predicate Blocked(s: State) {
    MustWait(|s.blocks|, s.outstanding, s.committing)
  }

  predicate BeginSleep(s: State, s': State, op: OpId) {
    && !s.phase.Recovering? && op !in s.seen && op !in s.waiting
    && Blocked(s)
    && s' == s.(waiting := s.waiting + {op})
  }

  predicate BeginOp(s: State, s': State, op: OpId) {
    && !s.phase.Recovering? && op !in s.seen && op !in s.waiting
    && !Blocked(s)
    && s' == s.(outstanding := s.outstanding + 1, touched := s.touched[op := {}],
                txn := s.txn + {op}, seen := s.seen + {op})
  }

  predicate LogWritePanics(l: Layout, s: State) {
    TooBig(l, |s.blocks|, s.outstanding)
  }

  // Call op changes block b under its buffer lock and logs it.  Each call logs at
  // most MAXOPBLOCKS distinct blocks.
  predicate MayWrite(l: Layout, s: State, w: Write) {
    && w.op in s.touched
    && w.block in s.disk && !l.InLog(w.block) && |w.data| == BSIZE
    && |s.touched[w.op] + {w.block}| <= MAXOPBLOCKS
  }

  predicate LogWrite(l: Layout, s: State, s': State, w: Write) {
    && MayWrite(l, s, w)
    && !LogWritePanics(l, s)
    && s' == s.(blocks := Absorb(s.blocks, w.block), cache := s.cache[w.block := w.data],
                touched := s.touched[w.op := s.touched[w.op] + {w.block}],
                history := s.history + [w])
  }

  predicate EndOp(s: State, s': State, op: OpId) {
    && op in s.touched && !s.committing
    && var t := s.(outstanding := s.outstanding - 1, touched := s.touched - {op});
       s' == if t.outstanding == 0
             then t.(committing := true, phase := Committing(s.disk, 0))
             else t.(waiting := {})
  }

  // One disk write of commit().  The write of the filled header is the commit point.
  ghost predicate CommitOne(l: Layout, s: State, s': State) {
    && s.phase.Committing? && |s.blocks| > 0 && s.phase.step <= 2 * |s.blocks| + 1
    && Formatted(l, s.disk) && GoodList(l, s.disk, s.blocks) && Loggable(s.cache, s.blocks)
    && s' == s.(disk := CommitWrite(l, s.disk, s.cache, s.blocks, s.phase.step),
                phase := Committing(s.phase.base, s.phase.step + 1),
                committed := if s.phase.step == |s.blocks| then s.committed + s.txn else s.committed)
  }

  predicate CommitDone(s: State, s': State) {
    && s.phase.Committing? && (|s.blocks| == 0 || s.phase.step == 2 * |s.blocks| + 2)
    && s' == s.(committing := false, phase := Running, blocks := [], cache := map[],
                txn := {}, waiting := {}, committed := s.committed + s.txn)
  }

  // Memory is lost; the next boot reads the header it finds.
  ghost predicate Crash(l: Layout, s: State, s': State) {
    && WellFormed(l, s.disk)
    && s' == s.(cache := map[], blocks := Logged(s.disk[l.start]), outstanding := 0, committing := false,
                phase := Recovering(s.disk, 0), waiting := {}, touched := map[], txn := {})
  }

  ghost predicate RecoverOne(l: Layout, s: State, s': State) {
    && s.phase.Recovering? && s.phase.step <= |s.blocks|
    && Formatted(l, s.disk) && GoodList(l, s.disk, s.blocks)
    && s' == s.(disk := RecoveryWrite(l, s.disk, s.blocks, s.phase.step),
                phase := Recovering(s.phase.base, s.phase.step + 1))
  }

  predicate RecoverDone(s: State, s': State) {
    && s.phase.Recovering? && s.phase.step == |s.blocks| + 1
    && s' == s.(phase := Running, blocks := [])
  }

  ghost predicate Next(l: Layout, s: State, s': State) {
    || (exists op :: BeginSleep(s, s', op))
    || (exists op :: BeginOp(s, s', op))
    || (exists w :: LogWrite(l, s, s', w))
    || (exists op :: EndOp(s, s', op))
    || CommitOne(l, s, s')
    || CommitDone(s, s')
    || Crash(l, s, s')
    || RecoverOne(l, s, s')
    || RecoverDone(s, s')
  }

  // Booting on the disk d.
  function Boot(l: Layout, d: Disk): State
    requires l.start in d
  {
    State(d, map[], Logged(d[l.start]), 0, false, Recovering(d, 0), {}, map[], {}, {}, {}, [])
  }

  ghost predicate Run(l: Layout, d: Disk, ss: seq<State>) {
    && WellFormed(l, d)
    && |ss| > 0 && ss[0] == Boot(l, d)
    && forall i :: 0 <= i < |ss| - 1 ==> StepAt(l, ss, i)
  }

  ghost predicate StepAt(l: Layout, ss: seq<State>, i: nat)
    requires i + 1 < |ss|
  {
    Next(l, ss[i], ss[i + 1])
  }

  // ----- what a set of calls does to a disk

  // The disk that results from init when exactly the writes of the calls in ops happen, in order.
  ghost function Effect(init: Disk, h: seq<Write>, ops: set<OpId>): (r: Disk)
    decreases |h|
  {
    if h == [] then init
    else
      var w := h[|h| - 1];
      var p := Effect(init, h[..|h| - 1], ops);
      if w.op in ops then p[w.block := w.data] else p
  }

  lemma EffectAppend(init: Disk, h: seq<Write>, w: Write, ops: set<OpId>)
    ensures Effect(init, h + [w], ops) ==
            if w.op in ops then Effect(init, h, ops)[w.block := w.data] else Effect(init, h, ops)
  {
    assert (h + [w])[..|h|] == h;
  }

  lemma {:induction false} EffectSame(init: Disk, h: seq<Write>, a: set<OpId>, b: set<OpId>)
    requires forall i :: 0 <= i < |h| ==> (h[i].op in a <==> h[i].op in b)
    ensures Effect(init, h, a) == Effect(init, h, b)
    decreases |h|
  {
    if h != [] {
      EffectSame(init, h[..|h| - 1], a, b);
    }
  }

  // ----- bookkeeping: who is running, who is in the transaction

  ghost predicate Books(l: Layout, s: State) {
    && s.outstanding == |s.touched|
    && s.touched.Keys <= s.txn <= s.seen
    && s.committed <= s.seen
    && (forall i :: 0 <= i < |s.history| ==> s.history[i].op in s.seen)
    && s.committing == s.phase.Committing?
    && (s.phase.Committing? ==> s.touched == map[])
    && (s.phase.Recovering? ==> s.touched == map[] && s.txn == {} && s.waiting == {})
    && (s.phase.Running? && s.touched == map[] ==> s.txn == {} && s.blocks == [])
    && (if s.phase.Committing? && s.phase.step > |s.blocks| > 0 then s.txn <= s.committed
        else s.txn !! s.committed)
    && (s.waiting != {} ==> Blocked(s))
  }

  lemma BooksBegin(l: Layout, s: State, s': State, op: OpId)
    requires Books(l, s) && (BeginOp(s, s', op) || BeginSleep(s, s', op))
    ensures Books(l, s')
  {
    if BeginOp(s, s', op) {
      assert s'.touched.Keys == s.touched.Keys + {op};
      assert |s'.touched| == |s'.touched.Keys|;
    }
  }

  lemma BooksWrite(l: Layout, s: State, s': State, w: Write)
    requires Books(l, s) && LogWrite(l, s, s', w)
    ensures Books(l, s')
  {
    assert s'.touched.Keys == s.touched.Keys;
    assert |s'.touched| == |s'.touched.Keys| == |s.touched.Keys| == |s.touched|;
  }

  lemma BooksEnd(l: Layout, s: State, s': State, op: OpId)
    requires Books(l, s) && EndOp(s, s', op)
    ensures Books(l, s')
  {
    assert s'.touched.Keys == s.touched.Keys - {op};
    assert |s'.touched| == |s'.touched.Keys| && |s.touched| == |s.touched.Keys|;
  }

  lemma BooksCommit(l: Layout, s: State, s': State)
    requires Books(l, s) && (CommitOne(l, s, s') || CommitDone(s, s'))
    ensures Books(l, s')
  {
  }

  lemma BooksBoot(l: Layout, s: State, s': State)
    requires Books(l, s) && (Crash(l, s, s') || RecoverOne(l, s, s') || RecoverDone(s, s'))
    ensures Books(l, s')
  {
  }

  lemma BooksNext(l: Layout, s: State, s': State)
    requires Books(l, s) && Next(l, s, s')
    ensures Books(l, s')
  {
    hide Books, LogWrite, BeginSleep, BeginOp, EndOp, CommitOne, CommitDone, Crash, RecoverOne, RecoverDone;
    if op :| BeginSleep(s, s', op) {
      BooksBegin(l, s, s', op);
    } else if op :| BeginOp(s, s', op) {
      BooksBegin(l, s, s', op);
    } else if w :| LogWrite(l, s, s', w) {
      BooksWrite(l, s, s', w);
    } else if op :| EndOp(s, s', op) {
      BooksEnd(l, s, s', op);
    } else if CommitOne(l, s, s') || CommitDone(s, s') {
      BooksCommit(l, s, s');
    } else {
      BooksBoot(l, s, s');
    }
  }

  // ----- contents: the disk, the cache and the history agree

  // Outside the log, d overlaid with the cached blocks is the disk e.
  ghost predicate Agrees(l: Layout, d: Disk, cache: Disk, e: Disk) {
    forall b :: b in d && !l.InLog(b) ==> b in e && (if b in cache then cache[b] else d[b]) == e[b]
  }

  // The logged blocks are exactly the cached ones, each listed once.
  ghost predicate Pinned(l: Layout, d: Disk, cache: Disk, bs: seq<nat>) {
    && GoodList(l, d, bs)
    && Loggable(cache, bs)
    && (forall b :: b in cache ==> b in bs)
    && (forall i, j :: 0 <= i < j < |bs| ==> bs[i] != bs[j])
  }

  // How the disk stands in each phase, when the committed calls make `old'` of the
  // initial disk and they and the current transaction together make `new'` of it.
  ghost predicate PhaseContents(l: Layout, s: State, old': Disk, new': Disk) {
    match s.phase
    case Running =>
      && WellFormed(l, s.disk) && Logged(s.disk[l.start]) == []
      && Pinned(l, s.disk, s.cache, s.blocks)
      && Agrees(l, s.disk, map[], old')
      && Agrees(l, s.disk, s.cache, new')
    case Committing(base, step) =>
      && WellFormed(l, base) && Logged(base[l.start]) == []
      && Pinned(l, base, s.cache, s.blocks)
      && step <= 2 * |s.blocks| + 2
      && s.disk == (if |s.blocks| > 0 then CommitDisk(l, base, s.cache, s.blocks, step) else base)
      && (step <= |s.blocks| || |s.blocks| == 0 ==> Agrees(l, base, map[], old'))
      && Agrees(l, base, s.cache, new')
    case Recovering(base, step) =>
      && WellFormed(l, base) && s.blocks == Logged(base[l.start])
      && step <= |s.blocks| + 1
      && s.disk == RecoveryDisk(l, base, step)
      && s.cache == map[]
      && Agrees(l, Recover(l, base), map[], old')
  }

  ghost predicate Contents(l: Layout, init: Disk, s: State) {
    PhaseContents(l, s, Effect(init, s.history, s.committed), Effect(init, s.history, s.committed + s.txn))
  }

  // In every phase, recovering from the present disk gives the committed calls' effect.
  ghost predicate Durable(l: Layout, d: Disk, e: Disk) {
    && WellFormed(l, d)
    && Agrees(l, Recover(l, d), map[], e)
  }

  lemma DurableClean(l: Layout, d: Disk, e: Disk)
    requires WellFormed(l, d) && Logged(d[l.start]) == [] && Agrees(l, d, map[], e)
    ensures Durable(l, d, e)
  {
    forall b | b in d && !l.InLog(b) ensures Recover(l, d)[b] == d[b] {
      RecoverValue(l, d, b);
    }
  }

  lemma DurableCommitting(l: Layout, base: Disk, cache: Disk, bs: seq<nat>, step: nat, e: Disk)
    requires WellFormed(l, base) && Logged(base[l.start]) == [] && Pinned(l, base, cache, bs)
    requires step <= 2 * |bs| + 2
    requires Agrees(l, base, if step > |bs| then cache else map[], e)
    ensures Durable(l, CommitDisk(l, base, cache, bs, step), e)
  {
    hide Logged, Word, EncodeHeader, Recover, CommitDisk;
    CommitAtomic(l, base, cache, bs, step);
  }

  lemma DurableRecovering(l: Layout, base: Disk, step: nat, e: Disk)
    requires WellFormed(l, base) && step <= |Logged(base[l.start])| + 1
    requires Agrees(l, Recover(l, base), map[], e)
    ensures Durable(l, RecoveryDisk(l, base, step), e)
  {
    RecoveryCrashSafe(l, base, step);
  }

  lemma ContentsDurable(l: Layout, init: Disk, s: State)
    requires Books(l, s) && Contents(l, init, s)
    ensures Durable(l, s.disk, Effect(init, s.history, s.committed))
  {
    match s.phase
    case Running =>
      DurableClean(l, s.disk, Effect(init, s.history, s.committed));
    case Committing(base, step) =>
      if |s.blocks| == 0 {
        DurableClean(l, s.disk, Effect(init, s.history, s.committed));
      } else {
        if step > |s.blocks| {
          EffectSame(init, s.history, s.committed, s.committed + s.txn);
        }
        DurableCommitting(l, base, s.cache, s.blocks, step, Effect(init, s.history, s.committed));
      }
    case Recovering(base, step) =>
      DurableRecovering(l, base, step, Effect(init, s.history, s.committed));
  }

  lemma ContentsBegin(l: Layout, init: Disk, s: State, s': State, op: OpId)
    requires Books(l, s) && Contents(l, init, s)
    requires BeginOp(s, s', op) || BeginSleep(s, s', op)
    ensures Contents(l, init, s')
  {
    if BeginOp(s, s', op) {
      EffectSame(init, s.history, s.committed + s.txn, s'.committed + s'.txn);
    }
  }

  lemma PinnedWrite(l: Layout, s: State, s': State, w: Write)
    requires Pinned(l, s.disk, s.cache, s.blocks) && LogWrite(l, s, s', w)
    ensures Pinned(l, s'.disk, s'.cache, s'.blocks)
  {
  }

  lemma AgreesWrite(l: Layout, d: Disk, cache: Disk, e: Disk, b: nat, v: Block)
    requires Agrees(l, d, cache, e)
    ensures Agrees(l, d, cache[b := v], e[b := v])
  {
  }

  lemma ContentsWrite(l: Layout, init: Disk, s: State, s': State, w: Write)
    requires Books(l, s) && Contents(l, init, s) && LogWrite(l, s, s', w)
    ensures Contents(l, init, s')
  {
    EffectAppend(init, s.history, w, s.committed);
    EffectAppend(init, s.history, w, s.committed + s.txn);
    PinnedWrite(l, s, s', w);
    AgreesWrite(l, s.disk, s.cache, Effect(init, s.history, s.committed + s.txn), w.block, w.data);
  }

  lemma ContentsEnd(l: Layout, init: Disk, s: State, s': State, op: OpId)
    requires Books(l, s) && Contents(l, init, s) && EndOp(s, s', op)
    ensures Contents(l, init, s')
  {
  }

  lemma ContentsCommit(l: Layout, init: Disk, s: State, s': State)
    requires Books(l, s) && Contents(l, init, s) && CommitOne(l, s, s')
    ensures Contents(l, init, s')
  {
    hide Logged, Word, EncodeHeader, CommitDisk, CommitWrite, Agrees;
    CommitStep(l, s.phase.base, s.cache, s.blocks, s.phase.step);
    EffectSame(init, s.history, s.committed + s.txn, s'.committed + s'.txn);
  }

  lemma CommitInstalled(l: Layout, base: Disk, cache: Disk, bs: seq<nat>, e: Disk)
    requires WellFormed(l, base) && Pinned(l, base, cache, bs) && Agrees(l, base, cache, e)
    ensures var r := CommitDisk(l, base, cache, bs, 2 * |bs| + 2);
            WellFormed(l, r) && Logged(r[l.start]) == [] && Agrees(l, r, map[], e)
  {
    hide Logged, Word, EncodeHeader, CommitDisk;
    CommitComplete(l, base, cache, bs);
  }

  lemma ContentsCommitDone(l: Layout, init: Disk, s: State, s': State)
    requires Books(l, s) && Contents(l, init, s) && CommitDone(s, s')
    ensures Contents(l, init, s')
  {
    hide CommitDisk, RecoveryDisk, Recover, WellFormed, Agrees;
    var e := Effect(init, s.history, s.committed + s.txn);
    EffectSame(init, s.history, s.committed + s.txn, s'.committed);
    EffectSame(init, s.history, s.committed + s.txn, s'.committed + s'.txn);
    CommittedDisk(l, s, Effect(init, s.history, s.committed), e);
  }

  lemma CommittedDisk(l: Layout, s: State, old': Disk, new': Disk)
    requires s.phase.Committing? && (|s.blocks| == 0 || s.phase.step == 2 * |s.blocks| + 2)
    requires PhaseContents(l, s, old', new')
    ensures WellFormed(l, s.disk) && Logged(s.disk[l.start]) == [] && Agrees(l, s.disk, map[], new')
  {
    hide CommitDisk, WellFormed;
    if |s.blocks| > 0 {
      CommitInstalled(l, s.phase.base, s.cache, s.blocks, new');
    }
  }

  lemma ContentsCrash(l: Layout, init: Disk, s: State, s': State)
    requires Books(l, s) && Contents(l, init, s) && Crash(l, s, s')
    ensures Contents(l, init, s')
  {
    ContentsDurable(l, init, s);
  }

  lemma ContentsRecover(l: Layout, init: Disk, s: State, s': State)
    requires Books(l, s) && Contents(l, init, s) && RecoverOne(l, s, s')
    ensures Contents(l, init, s')
  {
    hide Logged, Word, EncodeHeader, Recover, RecoveryDisk, RecoveryWrite, WellFormed, Formatted, GoodList;
    RecoveryStep(l, s.phase.base, s.phase.step);
  }

  lemma ContentsRecoverDone(l: Layout, init: Disk, s: State, s': State)
    requires Books(l, s) && Contents(l, init, s) && RecoverDone(s, s')
    ensures Contents(l, init, s')
  {
    hide Logged, Word, EncodeHeader, Install, PutHeader;
    EffectSame(init, s.history, s.committed, s'.committed + s'.txn);
  }

  lemma ContentsNext(l: Layout, init: Disk, s: State, s': State)
    requires Books(l, s) && Contents(l, init, s) && Next(l, s, s')
    ensures Contents(l, init, s')
  {
    hide Books, Contents, LogWrite, BeginSleep, BeginOp, EndOp, CommitOne, CommitDone, Crash, RecoverOne, RecoverDone;
    if op :| BeginSleep(s, s', op) {
      ContentsBegin(l, init, s, s', op);
    } else if op :| BeginOp(s, s', op) {
      ContentsBegin(l, init, s, s', op);
    } else if w :| LogWrite(l, s, s', w) {
      ContentsWrite(l, init, s, s', w);
    } else if op :| EndOp(s, s', op) {
      ContentsEnd(l, init, s, s', op);
    } else if CommitOne(l, s, s') {
      ContentsCommit(l, init, s, s');
    } else if CommitDone(s, s') {
      ContentsCommitDone(l, init, s, s');
    } else if RecoverOne(l, s, s') {
      ContentsRecover(l, init, s, s');
    } else if RecoverDone(s, s') {
      ContentsRecoverDone(l, init, s, s');
    } else {
      ContentsCrash(l, init, s, s');
    }
  }
}
