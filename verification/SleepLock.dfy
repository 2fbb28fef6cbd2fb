// The sleep locks of kernel/sleeplock.c, with sleep and wakeup of kernel/proc.c, as steps
// that interleave.  A step takes one spinlock, changes what it protects, or gives it up.
module SleepLock {
  import opened Common

  // Where a process is.
  datatype Pc =
    | Out                // neither has the lock nor wants it
    | Try                // acquiresleep: to test lk->locked, with lk->lk
    | Bed                // sleep: with lk->lk and p->lock
    | Going              // sleep: has given up lk->lk, with p->lock
    | Abed               // sleep: off the processor until it is woken
    | In                 // has the sleep lock
    | Freeing(j: nat)    // releasesleep: in wakeup at entry j, with lk->lk

  // A process: p->state == SLEEPING, and p->lock held by itself.
  datatype Proc = Proc(pc: Pc, asleep: bool, held: bool)

  // lk->lk with its holder, lk->locked, lk->pid, and the processes.
  datatype State = State(spin: Option<nat>, locked: bool, owner: nat, procs: seq<Proc>)

  datatype Step =
    | Acquire(p: nat) | Test(p: nat) | LetGo(p: nat) | Sleep(p: nat) | Release(p: nat) | Wake(p: nat) | Kill(p: nat)

  predicate Enabled(s: State, st: Step) {
    && st.p < |s.procs|
    && var q := s.procs[st.p];
       match st
       case Acquire(_) => (q.pc == Out || (q.pc == Abed && !q.asleep)) && s.spin == None
       case Test(_) => q.pc == Try && !q.held
       case LetGo(_) => q.pc == Bed
       case Sleep(_) => q.pc == Going
       case Release(_) => q.pc == In && s.spin == None
       case Wake(_) => q.pc.Freeing? && (q.pc.j < |s.procs| && q.pc.j != st.p ==> !s.procs[q.pc.j].held)
       case Kill(_) => q.asleep && !q.held
  }

  function Move(s: State, p: nat, q: Proc, spin: Option<nat>): State
    requires p < |s.procs|
  {
    s.(procs := s.procs[p := q], spin := spin)
  }

  // One turn of the loop of wakeup by p, at entry j.
  function Rouse(s: State, p: nat, j: nat): State
    requires j < |s.procs|
  {
    if j != p && s.procs[j].asleep then s.(procs := s.procs[j := s.procs[j].(asleep := false)]) else s
  }

  function Do(s: State, st: Step): State
    requires Enabled(s, st)
  {
    var p, q := st.p, s.procs[st.p];
    match st
    case Acquire(_) => Move(s, p, q.(pc := Try), Some(p))
    case Test(_) =>
      if s.locked then Move(s, p, q.(pc := Bed, held := true), s.spin)
      else Move(s, p, q.(pc := In), None).(locked := true, owner := p)
    case LetGo(_) => Move(s, p, q.(pc := Going), None)
    case Sleep(_) => Move(s, p, q.(pc := Abed, asleep := true, held := false), s.spin)
    case Release(_) => Move(s, p, q.(pc := Freeing(0)), Some(p)).(locked := false)
    case Wake(_) =>
      if q.pc.j >= |s.procs| then Move(s, p, q.(pc := Out), None)
      else
        var s' := Rouse(s, p, q.pc.j);
        Move(s', p, s'.procs[p].(pc := Freeing(q.pc.j + 1)), s.spin)
    case Kill(_) => Move(s, p, q.(asleep := false), s.spin)
  }

  predicate HoldsSpin(pc: Pc) { pc == Try || pc == Bed || pc.Freeing? }

  predicate Waiting(q: Proc) { q.pc == Bed || q.pc == Going || q.asleep }

  // A process in releasesleep is still to wake q.
  predicate Pending(s: State, q: nat) {
    s.spin.Some? && s.spin.value < |s.procs| && s.procs[s.spin.value].pc.Freeing? && s.procs[s.spin.value].pc.j <= q
  }

  predicate Fine(s: State, p: nat)
    requires p < |s.procs|
  {
    var q := s.procs[p];
    && (s.spin == Some(p) <==> HoldsSpin(q.pc))
    && q.held == (q.pc == Bed || q.pc == Going)
    && (q.asleep ==> q.pc == Abed)
    && (q.pc == In <==> s.locked && s.owner == p)
    && (q.pc.Freeing? ==> !s.locked)
    && (Waiting(q) ==> s.locked || Pending(s, p))
  }

  ghost predicate Inv(s: State) {
    && (s.locked ==> s.owner < |s.procs|) && (s.spin.Some? ==> s.spin.value < |s.procs|)
    && (forall p: nat :: p < |s.procs| ==> Fine(s, p))
  }

  lemma StepKeeps(s: State, st: Step)
    requires Inv(s) && Enabled(s, st)
    ensures Inv(Do(s, st))
  {
    hide Inv;
    match st
    case Acquire(p) => KeepAcquire(s, p);
    case Test(p) => KeepTest(s, p);
    case LetGo(p) => KeepLetGo(s, p);
    case Sleep(p) => KeepSleep(s, p);
    case Release(p) => KeepRelease(s, p);
    case Wake(p) => KeepWake(s, p);
    case Kill(p) => KeepKill(s, p);
  }

  lemma KeepAcquire(s: State, p: nat)
    requires Inv(s) && Enabled(s, Acquire(p))
    ensures Inv(Do(s, Acquire(p)))
  {
    var s' := Do(s, Acquire(p));
    assert Fine(s, p);
    forall r: nat | r < |s'.procs| ensures Fine(s', r) {
      assert Fine(s, r);
    }
  }

  lemma KeepTest(s: State, p: nat)
    requires Inv(s) && Enabled(s, Test(p))
    ensures Inv(Do(s, Test(p)))
  {
    var s' := Do(s, Test(p));
    assert Fine(s, p);
    forall r: nat | r < |s'.procs| ensures Fine(s', r) {
      assert Fine(s, r);
    }
  }

  lemma KeepLetGo(s: State, p: nat)
    requires Inv(s) && Enabled(s, LetGo(p))
    ensures Inv(Do(s, LetGo(p)))
  {
    var s' := Do(s, LetGo(p));
    assert Fine(s, p);
    forall r: nat | r < |s'.procs| ensures Fine(s', r) {
      assert Fine(s, r);
    }
  }

  lemma KeepSleep(s: State, p: nat)
    requires Inv(s) && Enabled(s, Sleep(p))
    ensures Inv(Do(s, Sleep(p)))
  {
    var s' := Do(s, Sleep(p));
    assert Fine(s, p);
    forall r: nat | r < |s'.procs| ensures Fine(s', r) {
      assert Fine(s, r);
    }
  }

  lemma KeepRelease(s: State, p: nat)
    requires Inv(s) && Enabled(s, Release(p))
    ensures Inv(Do(s, Release(p)))
  {
    var s' := Do(s, Release(p));
    assert Fine(s, p);
    forall r: nat | r < |s'.procs| ensures Fine(s', r) {
      assert Fine(s, r);
    }
  }

  lemma KeepWake(s: State, p: nat)
    requires Inv(s) && Enabled(s, Wake(p))
    ensures Inv(Do(s, Wake(p)))
  {
    var s' := Do(s, Wake(p));
    assert Fine(s, p);
    forall r: nat | r < |s'.procs| ensures Fine(s', r) {
      assert Fine(s, r);
    }
  }

  lemma KeepKill(s: State, p: nat)
    requires Inv(s) && Enabled(s, Kill(p))
    ensures Inv(Do(s, Kill(p)))
  {
    var s' := Do(s, Kill(p));
    assert Fine(s, p);
    forall r: nat | r < |s'.procs| ensures Fine(s', r) {
      assert Fine(s, r);
    }
  }

  // Nobody has the lock, and nobody wants it.
  ghost predicate Boot(s: State) {
    s.spin == None && !s.locked && forall p :: 0 <= p < |s.procs| ==> s.procs[p] == Proc(Out, false, false)
  }

  predicate StepAt(ss: seq<State>, sts: seq<Step>, i: nat)
    requires i < |sts| && |ss| == |sts| + 1
  {
    Enabled(ss[i], sts[i]) && ss[i + 1] == Do(ss[i], sts[i])
  }

  // A run: any interleaving of steps.
  ghost predicate Run(ss: seq<State>, sts: seq<Step>) {
    |ss| == |sts| + 1 && Boot(ss[0]) && forall i :: 0 <= i < |sts| ==> StepAt(ss, sts, i)
  }

  lemma {:induction false} RunInv(ss: seq<State>, sts: seq<Step>, k: nat)
    requires Run(ss, sts) && k < |ss|
    ensures Inv(ss[k])
    decreases k
  {
    if k > 0 {
      RunInv(ss, sts, k - 1);
      assert StepAt(ss, sts, k - 1);
      StepKeeps(ss[k - 1], sts[k - 1]);
    }
  }

  // No two processes have the lock at once.
  lemma MutualExclusion(ss: seq<State>, sts: seq<Step>, k: nat, p: nat, q: nat)
    requires Run(ss, sts) && k < |ss| && p < |ss[k].procs| && q < |ss[k].procs|
    requires ss[k].procs[p].pc == In && ss[k].procs[q].pc == In
    ensures p == q
  {
    RunInv(ss, sts, k);
    assert Fine(ss[k], p) && Fine(ss[k], q);
  }

  // No process stays asleep on a lock that has been released.
  lemma NoLostWakeup(ss: seq<State>, sts: seq<Step>, k: nat, p: nat)
    requires Run(ss, sts) && k < |ss| && p < |ss[k].procs| && ss[k].spin == None && !ss[k].locked
    ensures !ss[k].procs[p].asleep
  {
    RunInv(ss, sts, k);
    assert Fine(ss[k], p);
  }

  // A lock that is free is there for the taking.
  lemma FreeLockTaken(ss: seq<State>, sts: seq<Step>, k: nat, p: nat)
    requires Run(ss, sts) && k < |ss| && p < |ss[k].procs|
    requires ss[k].spin == None && !ss[k].locked && ss[k].procs[p].pc == Out
    ensures Enabled(ss[k], Acquire(p)) && Enabled(Do(ss[k], Acquire(p)), Test(p))
    ensures var s := Do(Do(ss[k], Acquire(p)), Test(p));
            s.procs[p].pc == In && s.locked && s.owner == p && s.spin == None
  {
    RunInv(ss, sts, k);
    assert Fine(ss[k], p);
  }

  // When releasesleep returns the lock is free, and everybody who waited for it is awake.
  lemma ReleaseWakesAll(ss: seq<State>, sts: seq<Step>, i: nat, q: nat)
    requires Run(ss, sts) && i < |sts| && sts[i].Wake? && q < |ss[i + 1].procs|
    ensures sts[i].p < |ss[i + 1].procs|
    ensures ss[i + 1].procs[sts[i].p].pc == Out ==>
              ss[i + 1].spin == None && !ss[i + 1].locked && !Waiting(ss[i + 1].procs[q])
  {
    assert StepAt(ss, sts, i);
    RunInv(ss, sts, i);
    RunInv(ss, sts, i + 1);
    assert Fine(ss[i], sts[i].p) && Fine(ss[i + 1], q);
  }

  // Whoever holds the spinlock can go on, or waits for the lock of a process that is about
  // to give it up.
  lemma SpinMovesOn(ss: seq<State>, sts: seq<Step>, k: nat) returns (st: Step)
    requires Run(ss, sts) && k < |ss| && ss[k].spin.Some?
    ensures Enabled(ss[k], st) && !st.Kill?
    ensures st.p == ss[k].spin.value || (ss[k].procs[st.p].held && !Do(ss[k], st).procs[st.p].held)
  {
    RunInv(ss, sts, k);
    var s := ss[k];
    var p := s.spin.value;
    assert Fine(s, p);
    match s.procs[p].pc
    case Try => st := Test(p);
    case Bed => st := LetGo(p);
    case Freeing(j) =>
      if j < |s.procs| && j != p && s.procs[j].held {
        assert Fine(s, j);
        st := Sleep(j);
      } else {
        st := Wake(p);
      }
  }

  // While the spinlock is free, everybody who is not asleep can go on.
  lemma EveryoneMovesOn(ss: seq<State>, sts: seq<Step>, k: nat, p: nat)
    requires Run(ss, sts) && k < |ss| && p < |ss[k].procs| && ss[k].spin == None
    ensures var s, q := ss[k], ss[k].procs[p];
            && (q.pc == Out || (q.pc == Abed && !q.asleep) ==> Enabled(s, Acquire(p)))
            && (q.pc == In ==> Enabled(s, Release(p))) && (q.pc == Going ==> Enabled(s, Sleep(p)))
            && q.pc in {Out, Abed, In, Going}
  {
    RunInv(ss, sts, k);
    assert Fine(ss[k], p);
  }
}
