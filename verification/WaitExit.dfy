// fork, wait and exit of kernel/proc.c, with sleep and wakeup, as steps that interleave.
// A step takes one lock, changes what it protects, or gives it up; wait_lock and the
// locks of the processes are held across the steps between.
module WaitExit {
  import opened Common

  // p->state; RUNNING counts as Runnable.
  datatype PState = Unused | Used | Runnable | Sleeping | Zombie

  // Where a process is in the kernel.
  datatype Pc =
    | Away                           // none of the below
    | ForkLink(child: nat)           // fork: to take wait_lock and set np->parent
    | ForkRun(child: nat)            // fork: to set np->state
    | Scan(i: nat, kids: bool)       // wait: at entry i of the table, with wait_lock
    | Bed                            // sleep: with wait_lock and p->lock
    | Going                          // sleep: has given up wait_lock, with p->lock
    | Asleep                         // sleep: off the processor
    | Reparent(i: nat)               // exit: at entry i of the table, with wait_lock
    | WakeInit(i: nat, j: nat)       // exit: in wakeup(initproc), for the child at i
    | WakeParent(j: nat)             // exit: in wakeup(p->parent)
    | Dying                          // exit: to take p->lock
    | Dead                           // exit: a zombie, with wait_lock and p->lock
    | Leaving                        // exit: has given up wait_lock, with p->lock
    | Gone                           // exit: off the processor

  // A process, with p->lock: whether it is held (by the process itself).
  datatype Proc = Proc(state: PState, pid: nat, parent: Option<nat>, pc: Pc, locked: bool)

  // The process table, wait_lock with its holder, initproc, nextpid, and the pids that
  // wait has returned.
  datatype State = State(procs: seq<Proc>, waitLock: Option<nat>, init: nat, nextpid: nat, reaped: seq<nat>)

  datatype Step =
    | Alloc(p: nat, child: nat) | Undo(p: nat) | Link(p: nat) | Start(p: nat)
    | Enter(p: nat) | Look(p: nat) | Fail(p: nat) | GiveUp(p: nat) | LieDown(p: nat)
    | LetGo(p: nat) | Sleep(p: nat) | Kill(p: nat)
    | Quit(p: nat) | Adopt(p: nat) | Rouse(p: nat) | Die(p: nat) | Unlock(p: nat) | Leave(p: nat)

  function Set(s: State, p: nat, q: Proc): State
    requires p < |s.procs|
  {
    s.(procs := s.procs[p := q])
  }

  function Goto(s: State, p: nat, pc: Pc): State
    requires p < |s.procs|
  {
    Set(s, p, s.procs[p].(pc := pc))
  }

  const EMPTY := Proc(Unused, 0, None, Away, false)

  // One turn of the loop of wakeup(target) by p, at entry j.
  function Wake(s: State, p: nat, target: Option<nat>, j: nat): State
    requires j < |s.procs|
  {
    if j != p && target == Some(j) && s.procs[j].state == Sleeping then Set(s, j, s.procs[j].(state := Runnable)) else s
  }

  // A step can happen: its process is there, and the locks it takes are free.
  predicate Enabled(s: State, st: Step) {
    && st.p < |s.procs| && s.init < |s.procs|
    && var p := s.procs[st.p];
       match st
       case Alloc(_, c) => p.pc == Away && p.state == Runnable && c < |s.procs| && s.procs[c].state == Unused
           && !s.procs[c].locked
       case Undo(_) => p.pc.ForkLink? && p.pc.child < |s.procs| && !s.procs[p.pc.child].locked
       case Link(_) => p.pc.ForkLink? && p.pc.child < |s.procs| && s.waitLock == None
       case Start(_) => p.pc.ForkRun? && p.pc.child < |s.procs| && !s.procs[p.pc.child].locked
       case Enter(_) => (p.pc == Away || p.pc == Asleep) && p.state == Runnable && s.waitLock == None
       case Look(_) => p.pc.Scan? && p.pc.i < |s.procs|
           && (s.procs[p.pc.i].parent == Some(st.p) ==> !s.procs[p.pc.i].locked)
       case Fail(_) => p.pc.Scan? && p.pc.i < |s.procs| && s.procs[p.pc.i].parent == Some(st.p)
           && s.procs[p.pc.i].state == Zombie && !s.procs[p.pc.i].locked
       case GiveUp(_) => p.pc.Scan? && p.pc.i == |s.procs|
       case LieDown(_) => p.pc.Scan? && p.pc.i == |s.procs| && p.pc.kids && !p.locked
       case LetGo(_) => p.pc == Bed
       case Sleep(_) => p.pc == Going
       case Kill(_) => p.state == Sleeping && !p.locked
       case Quit(_) => p.pc == Away && p.state == Runnable && st.p != s.init && s.waitLock == None
       case Adopt(_) => p.pc.Reparent?
       case Rouse(_) => (p.pc.WakeInit? || p.pc.WakeParent?)
           && (p.pc.j < |s.procs| && p.pc.j != st.p ==> !s.procs[p.pc.j].locked)
       case Die(_) => p.pc == Dying && !p.locked
       case Unlock(_) => p.pc == Dead
       case Leave(_) => p.pc == Leaving
  }

  // allocproc takes an unused entry and gives it a new pid.
  function DoAlloc(s: State, p: nat, c: nat): State
    requires p < |s.procs| && c < |s.procs|
  {
    Goto(Set(s, c, Proc(Used, s.nextpid, None, Away, false)).(nextpid := s.nextpid + 1), p, ForkLink(c))
  }

  // fork cannot copy the memory and frees the entry again.
  function DoUndo(s: State, p: nat, c: nat): State
    requires p < |s.procs| && c < |s.procs|
  {
    Goto(Set(s, c, EMPTY), p, Away)
  }

  function DoLink(s: State, p: nat, c: nat): State
    requires p < |s.procs| && c < |s.procs|
  {
    Goto(Set(s, c, s.procs[c].(parent := Some(p))), p, ForkRun(c))
  }

  function DoStart(s: State, p: nat, c: nat): State
    requires p < |s.procs| && c < |s.procs|
  {
    Goto(Set(s, c, s.procs[c].(state := Runnable)), p, Away)
  }

  // p takes wait_lock, or gives it up.
  function Take(s: State, p: nat, pc: Pc): State
    requires p < |s.procs|
  {
    Goto(s, p, pc).(waitLock := Some(p))
  }

  function Drop(s: State, p: nat, pc: Pc): State
    requires p < |s.procs|
  {
    Goto(s, p, pc).(waitLock := None)
  }

  // wait finds a zombie child c.
  function DoReap(s: State, p: nat, c: nat): State
    requires p < |s.procs| && c < |s.procs|
  {
    Drop(Set(s, c, EMPTY), p, Away).(reaped := s.reaped + [s.procs[c].pid])
  }

  // reparent finds a child c.
  function DoAdopt(s: State, p: nat, c: nat): State
    requires p < |s.procs| && c < |s.procs|
  {
    Goto(Set(s, c, s.procs[c].(parent := Some(s.init))), p, WakeInit(c, 0))
  }

  function DoWake(s: State, p: nat, target: Option<nat>, j: nat, pc: Pc): State
    requires p < |s.procs| && j < |s.procs|
  {
    Goto(Wake(s, p, target, j), p, pc)
  }

  function Do(s: State, st: Step): State
    requires Enabled(s, st)
  {
    var p, q := st.p, s.procs[st.p];
    match st
    case Alloc(_, c) => DoAlloc(s, p, c)
    case Undo(_) => DoUndo(s, p, q.pc.child)
    case Link(_) => DoLink(s, p, q.pc.child)
    case Start(_) => DoStart(s, p, q.pc.child)
    case Enter(_) => Take(s, p, Scan(0, false))
    case Look(_) =>
      if s.procs[q.pc.i].parent != Some(p) then Goto(s, p, Scan(q.pc.i + 1, q.pc.kids))
      else if s.procs[q.pc.i].state != Zombie then Goto(s, p, Scan(q.pc.i + 1, true))
      else DoReap(s, p, q.pc.i)
    case Fail(_) => Drop(s, p, Away)
    case GiveUp(_) => Drop(s, p, Away)
    case LieDown(_) => Set(s, p, q.(pc := Bed, locked := true))
    case LetGo(_) => Drop(s, p, Going)
    case Sleep(_) => Set(s, p, q.(pc := Asleep, state := Sleeping, locked := false))
    case Kill(_) => Set(s, p, q.(state := Runnable))
    case Quit(_) => Take(s, p, Reparent(0))
    case Adopt(_) =>
      if q.pc.i >= |s.procs| then Goto(s, p, WakeParent(0))
      else if s.procs[q.pc.i].parent == Some(p) then DoAdopt(s, p, q.pc.i)
      else Goto(s, p, Reparent(q.pc.i + 1))
    case Rouse(_) => (
      match q.pc
      case WakeInit(i, j) => if j >= |s.procs| then Goto(s, p, Reparent(i + 1))
          else DoWake(s, p, Some(s.init), j, WakeInit(i, j + 1))
      case WakeParent(j) => if j >= |s.procs| then Goto(s, p, Dying) else DoWake(s, p, q.parent, j, WakeParent(j + 1))
      case _ => s)
    case Die(_) => Set(s, p, q.(state := Zombie, pc := Dead, locked := true))
    case Unlock(_) => Drop(s, p, Leaving)
    case Leave(_) => Set(s, p, q.(pc := Gone, locked := false))
  }

  // ----- invariants

  predicate HoldsWait(pc: Pc) {
    pc.Scan? || pc == Bed || pc.Reparent? || pc.WakeInit? || pc.WakeParent? || pc == Dying || pc == Dead
  }

  predicate HoldsSelf(pc: Pc) { pc == Bed || pc == Going || pc == Dead || pc == Leaving }
  predicate Finished(pc: Pc) { pc == Dead || pc == Leaving || pc == Gone }

  // The locks are where the program counters say, and the states fit them.
  predicate Local(s: State, p: nat)
    requires p < |s.procs|
  {
    var q := s.procs[p];
    && (s.waitLock == Some(p) <==> HoldsWait(q.pc))
    && q.locked == HoldsSelf(q.pc)
    && (q.state == Zombie <==> Finished(q.pc))
    && (q.state == Sleeping ==> q.pc == Asleep)
    && (q.state == Unused || q.state == Used ==> q.pc == Away)
    && (q.state == Unused ==> q.parent == None)
    && q.parent != Some(p)
  }

  // p will sleep in wait until it is woken.
  predicate Waiting(s: State, p: nat)
    requires p < |s.procs|
  {
    s.procs[p].pc == Bed || s.procs[p].pc == Going || s.procs[p].state == Sleeping
  }

  // A process in exit is still to wake init.
  predicate Pending(s: State, q: nat) {
    q == s.init && s.waitLock.Some? && s.waitLock.value < |s.procs|
    && var pc := s.procs[s.waitLock.value].pc; pc.WakeInit? && pc.j <= s.init
  }

  predicate ZombieOf(s: State, c: nat, q: nat)
    requires c < |s.procs|
  {
    s.procs[c].state == Zombie && s.procs[c].parent == Some(q)
  }

  // A process that waits has no zombie child, unless it is still to be woken.
  predicate Awake(s: State, q: nat, c: nat)
    requires q < |s.procs| && c < |s.procs|
  {
    Waiting(s, q) && ZombieOf(s, c, q) ==> Pending(s, q)
  }

  // What a process in exit has woken is awake.
  predicate Woken(s: State, e: nat)
    requires e < |s.procs| && s.init < |s.procs|
  {
    var q := s.procs[e];
    && (q.pc.WakeInit? && q.pc.j > s.init ==> !Waiting(s, s.init))
    && (q.parent.Some? && q.parent.value < |s.procs|
        && ((q.pc.WakeParent? && q.pc.j > q.parent.value) || q.pc == Dying) ==>
          !Waiting(s, q.parent.value))
  }

  // wait has passed no zombie of its own, and exit has passed no child of its own.
  predicate Passed(s: State, p: nat, c: nat)
    requires p < |s.procs| && c < |s.procs|
  {
    var q := s.procs[p];
    && (q.pc.Scan? && c < q.pc.i ==> !ZombieOf(s, c, p))
    && (Childless(q, c) ==> s.procs[c].parent != Some(p))
  }

  predicate Childless(q: Proc, c: nat) {
    || (q.pc.Reparent? && c < q.pc.i) || (q.pc.WakeInit? && c <= q.pc.i) || q.pc.WakeParent? || q.pc == Dying
    || q.state == Zombie || q.state == Unused || q.state == Used
  }

  // fork's child is its own until it runs, and wait stays within the table.
  predicate Forking(s: State, p: nat)
    requires p < |s.procs|
  {
    var pc := s.procs[p].pc;
    && (pc.ForkLink? || pc.ForkRun? ==> pc.child < |s.procs| && s.procs[pc.child].state == Used)
    && (pc.ForkRun? && pc.child < |s.procs| ==> s.procs[pc.child].parent == Some(p))
    && (pc.Scan? ==> pc.i <= |s.procs|)
  }

  predicate Forks(s: State, p: nat, q: nat)
    requires p < |s.procs| && q < |s.procs|
  {
    var a, b := s.procs[p].pc, s.procs[q].pc;
    p != q && (a.ForkLink? || a.ForkRun?) && (b.ForkLink? || b.ForkRun?) ==> a.child != b.child
  }

  predicate Tree(s: State, p: nat)
    requires p < |s.procs|
  {
    var q := s.procs[p];
    && (q.parent.Some? ==> q.parent.value < |s.procs|)
    && (p == s.init ==> q.parent == None && (q.state == Runnable || q.state == Sleeping) && !ExitPc(q.pc))
  }

  predicate ExitPc(pc: Pc) { pc.Reparent? || pc.WakeInit? || pc.WakeParent? || pc == Dying || Finished(pc) }

  // No two processes have the same pid, and no pid that wait returned.
  predicate Pids(s: State, p: nat, q: nat)
    requires p < |s.procs| && q < |s.procs|
  {
    var a, b := s.procs[p], s.procs[q];
    && (a.state != Unused ==> a.pid < s.nextpid && a.pid !in s.reaped)
    && (p != q && a.state != Unused && b.state != Unused ==> a.pid != b.pid)
  }

  // The structure of the table.
  ghost predicate Shape(s: State) {
    && s.init < |s.procs| && (s.waitLock.Some? ==> s.waitLock.value < |s.procs|)
    && (forall p: nat :: p < |s.procs| ==> Local(s, p))
    && (forall p: nat :: p < |s.procs| ==> Tree(s, p))
    && (forall p: nat :: p < |s.procs| ==> Forking(s, p))
    && (forall p: nat, q: nat :: p < |s.procs| && q < |s.procs| ==> Forks(s, p, q))
  }

  ghost predicate Numbered(s: State) {
    && (forall i :: 0 <= i < |s.reaped| ==> s.reaped[i] < s.nextpid)
    && (forall i, j :: 0 <= i < j < |s.reaped| ==> s.reaped[i] != s.reaped[j])
    && (forall p: nat, q: nat :: p < |s.procs| && q < |s.procs| ==> Pids(s, p, q))
  }

  ghost predicate Watchful(s: State) {
    && s.init < |s.procs|
    && (forall p: nat :: p < |s.procs| ==> Woken(s, p))
    && (forall p: nat, c: nat :: p < |s.procs| && c < |s.procs| ==> Awake(s, p, c))
    && (forall p: nat, c: nat :: p < |s.procs| && c < |s.procs| ==> Passed(s, p, c))
  }

  // A step that changes only the entry of p and wait_lock.
  function Move(s: State, p: nat, q: Proc, w: Option<nat>): State
    requires p < |s.procs|
  {
    Set(s, p, q).(waitLock := w)
  }

  // p takes wait_lock when it is free, or gives it up when it holds it, or neither.
  predicate Fair(s: State, p: nat, w: Option<nat>) {
    w == s.waitLock || ((s.waitLock == None || s.waitLock == Some(p)) && (w == None || w == Some(p)))
  }

  // ----- the structure is kept

  lemma ShapeMove(s: State, p: nat, q: Proc, w: Option<nat>)
    requires Shape(s) && p < |s.procs| && q.parent == s.procs[p].parent && Fair(s, p, w)
    requires Local(Move(s, p, q, w), p) && Tree(Move(s, p, q, w), p) && s.procs[p].state != Used && !q.pc.ForkLink?
             && !q.pc.ForkRun? && (q.pc.Scan? ==> q.pc.i <= |s.procs|)
    ensures Shape(Move(s, p, q, w))
  {
    var s' := Move(s, p, q, w);
    assert Local(s, p) && Tree(s, p) && Forking(s, p);
    forall r: nat | r < |s'.procs| ensures Local(s', r) && Tree(s', r) && Forking(s', r) {
      assert Local(s, r) && Tree(s, r) && Forking(s, r);
    }
    forall r: nat, t: nat | r < |s'.procs| && t < |s'.procs| ensures Forks(s', r, t) {
      assert Forks(s, r, t);
    }
  }

  lemma ShapeAlloc(s: State, p: nat, c: nat)
    requires Shape(s) && p < |s.procs| && c < |s.procs| && s.procs[p].pc == Away && s.procs[p].state == Runnable
             && s.procs[c].state == Unused
    ensures Shape(DoAlloc(s, p, c))
  {
    var s' := DoAlloc(s, p, c);
    assert Local(s, p) && Tree(s, p) && Forking(s, p);
    assert Local(s, c);
    forall q: nat | q < |s'.procs| ensures Local(s', q) && Tree(s', q) && Forking(s', q) {
      assert Local(s, q) && Tree(s, q) && Forking(s, q);
    }
    forall q: nat, r: nat | q < |s'.procs| && r < |s'.procs| ensures Forks(s', q, r) {
      assert Forks(s, q, r) && Forking(s, q) && Forking(s, r);
    }
  }

  lemma ShapeUndo(s: State, p: nat, c: nat)
    requires Shape(s) && p < |s.procs| && c < |s.procs| && s.procs[p].pc == ForkLink(c)
    ensures Shape(DoUndo(s, p, c))
  {
    var s' := DoUndo(s, p, c);
    assert Local(s, p) && Tree(s, p) && Forking(s, p);
    assert Local(s, c) && Tree(s, c);
    forall q: nat | q < |s'.procs| ensures Local(s', q) && Tree(s', q) && Forking(s', q) {
      assert Local(s, q) && Tree(s, q) && Forking(s, q) && Forks(s, p, q);
    }
    forall q: nat, r: nat | q < |s'.procs| && r < |s'.procs| ensures Forks(s', q, r) {
      assert Forks(s, q, r);
    }
  }

  lemma ShapeLink(s: State, p: nat, c: nat)
    requires Shape(s) && p < |s.procs| && c < |s.procs| && s.procs[p].pc == ForkLink(c)
    ensures Shape(DoLink(s, p, c))
  {
    var s' := DoLink(s, p, c);
    assert Local(s, p) && Tree(s, p) && Forking(s, p) && Local(s, c);
    forall q: nat | q < |s'.procs| ensures Local(s', q) && Tree(s', q) {
      assert Local(s, q) && Tree(s, q);
    }
    forall q: nat | q < |s'.procs| ensures Forking(s', q) {
      LinkForking(s, p, c, q);
    }
    forall q: nat, r: nat | q < |s'.procs| && r < |s'.procs| ensures Forks(s', q, r) {
      assert Forks(s, q, r);
    }
  }

  lemma LinkForking(s: State, p: nat, c: nat, q: nat)
    requires p < |s.procs| && c < |s.procs| && s.procs[p].pc == ForkLink(c) && q < |s.procs|
    requires Local(s, p) && Local(s, c) && Forking(s, p) && Forking(s, q) && Forks(s, p, q)
    ensures Forking(DoLink(s, p, c), q)
  {
  }

  lemma ShapeStart(s: State, p: nat, c: nat)
    requires Shape(s) && p < |s.procs| && c < |s.procs| && s.procs[p].pc == ForkRun(c)
    ensures Shape(DoStart(s, p, c))
  {
    var s' := DoStart(s, p, c);
    assert Local(s, p) && Tree(s, p) && Forking(s, p);
    assert Local(s, c);
    forall q: nat | q < |s'.procs| ensures Local(s', q) && Tree(s', q) && Forking(s', q) {
      assert Local(s, q) && Tree(s, q) && Forking(s, q) && Forks(s, p, q);
    }
    forall q: nat, r: nat | q < |s'.procs| && r < |s'.procs| ensures Forks(s', q, r) {
      assert Forks(s, q, r);
    }
  }

  lemma ShapeReap(s: State, p: nat, c: nat)
    requires Shape(s) && p < |s.procs| && c < |s.procs| && s.procs[p].pc.Scan? && ZombieOf(s, c, p)
             && !s.procs[c].locked
    ensures Shape(DoReap(s, p, c))
  {
    var s' := DoReap(s, p, c);
    assert Local(s, p) && Tree(s, p) && Forking(s, p);
    assert Local(s, c) && Tree(s, c);
    forall q: nat | q < |s'.procs| ensures Local(s', q) && Tree(s', q) && Forking(s', q) {
      assert Local(s, q) && Tree(s, q) && Forking(s, q);
    }
    forall q: nat, r: nat | q < |s'.procs| && r < |s'.procs| ensures Forks(s', q, r) {
      assert Forks(s, q, r);
    }
  }

  lemma ShapeAdopt(s: State, p: nat, c: nat)
    requires Shape(s) && p < |s.procs| && c < |s.procs| && s.procs[p].pc == Reparent(c) && s.procs[c].parent == Some(p)
    ensures Shape(DoAdopt(s, p, c))
  {
    var s' := DoAdopt(s, p, c);
    assert Local(s, p) && Tree(s, p) && Forking(s, p);
    assert Local(s, c) && Tree(s, s.init);
    forall q: nat | q < |s'.procs| ensures Local(s', q) && Tree(s', q) && Forking(s', q) {
      assert Local(s, q) && Tree(s, q) && Forking(s, q);
    }
    forall q: nat, r: nat | q < |s'.procs| && r < |s'.procs| ensures Forks(s', q, r) {
      assert Forks(s, q, r);
    }
  }

  lemma ShapeWake(s: State, p: nat, t: Option<nat>, j: nat, pc: Pc)
    requires Shape(s) && p < |s.procs| && j < |s.procs| && (s.procs[p].pc.WakeInit? || s.procs[p].pc.WakeParent?)
    requires pc.WakeInit? || pc.WakeParent?
    ensures Shape(DoWake(s, p, t, j, pc))
  {
    var s' := DoWake(s, p, t, j, pc);
    assert Local(s, p) && Tree(s, p) && Forking(s, p);
    assert Local(s, j) && Tree(s, j);
    forall q: nat | q < |s'.procs| ensures Local(s', q) && Tree(s', q) && Forking(s', q) {
      assert Local(s, q) && Tree(s, q) && Forking(s, q);
    }
    forall q: nat, r: nat | q < |s'.procs| && r < |s'.procs| ensures Forks(s', q, r) {
      assert Forks(s, q, r);
    }
  }


  // ----- nobody sleeps through a wakeup

  lemma WatchMove(s: State, p: nat, q: Proc, w: Option<nat>)
    requires Shape(s) && Watchful(s) && p < |s.procs| && q.parent == s.procs[p].parent && Fair(s, p, w)
    requires Woken(Move(s, p, q, w), p)
             && forall c: nat :: c < |s.procs| ==> Awake(Move(s, p, q, w), p, c) && Passed(Move(s, p, q, w), p, c)
    requires Waiting(Move(s, p, q, w), p) && !Waiting(s, p) ==> s.waitLock == Some(p)
    requires q.state == Zombie && s.procs[p].state != Zombie ==>
               s.waitLock == Some(p) && (q.parent.Some? && q.parent.value < |s.procs| ==> !Waiting(s, q.parent.value))
    requires s.procs[p].pc.WakeInit? ==> s.procs[p].pc.j > s.init
    ensures Watchful(Move(s, p, q, w))
  {
    var s' := Move(s, p, q, w);
    assert Local(s, p) && Tree(s, p) && Woken(s, p);
    forall r: nat | r < |s'.procs| ensures Woken(s', r) {
      assert Local(s, r) && Tree(s, r) && Woken(s, r);
    }
    forall r: nat, t: nat | r < |s'.procs| && t < |s'.procs| ensures Awake(s', r, t) && Passed(s', r, t) {
      assert Local(s, r) && Local(s, t) && Awake(s, r, t) && Passed(s, r, t);
    }
  }

  lemma WatchAlloc(s: State, p: nat, c: nat)
    requires Shape(s) && Watchful(s) && p < |s.procs| && c < |s.procs| && s.procs[p].pc == Away
             && s.procs[p].state == Runnable && s.procs[c].state == Unused
    ensures Watchful(DoAlloc(s, p, c))
  {
    var s' := DoAlloc(s, p, c);
    assert Local(s, p) && Tree(s, p) && Woken(s, p);
    assert Local(s, c);
    forall q: nat | q < |s'.procs| ensures Woken(s', q) {
      assert Local(s, q) && Tree(s, q) && Woken(s, q);
    }
    forall q: nat, r: nat | q < |s'.procs| && r < |s'.procs| ensures Awake(s', q, r) && Passed(s', q, r) {
      assert Local(s, q) && Local(s, r) && Awake(s, q, r) && Passed(s, q, r);
    }
  }

  lemma WatchUndo(s: State, p: nat, c: nat)
    requires Shape(s) && Watchful(s) && p < |s.procs| && c < |s.procs| && s.procs[p].pc == ForkLink(c)
    ensures Watchful(DoUndo(s, p, c))
  {
    var s' := DoUndo(s, p, c);
    assert Local(s, p) && Tree(s, p) && Woken(s, p);
    assert Local(s, c) && Forking(s, p);
    forall q: nat | q < |s'.procs| ensures Woken(s', q) {
      assert Local(s, q) && Tree(s, q) && Woken(s, q);
    }
    forall q: nat, r: nat | q < |s'.procs| && r < |s'.procs| ensures Awake(s', q, r) && Passed(s', q, r) {
      assert Local(s, q) && Local(s, r) && Awake(s, q, r) && Passed(s, q, r);
    }
  }

  lemma WatchLink(s: State, p: nat, c: nat)
    requires Shape(s) && Watchful(s) && p < |s.procs| && c < |s.procs| && s.procs[p].pc == ForkLink(c)
    ensures Watchful(DoLink(s, p, c))
  {
    var s' := DoLink(s, p, c);
    assert Local(s, p) && Local(s, c) && Forking(s, p);
    forall q: nat | q < |s'.procs| ensures Woken(s', q) {
      assert Local(s, q) && Tree(s, q) && Woken(s, q);
    }
    forall q: nat, r: nat | q < |s'.procs| && r < |s'.procs| ensures Awake(s', q, r) && Passed(s', q, r) {
      LinkPair(s, p, c, q, r);
    }
  }

  lemma LinkPair(s: State, p: nat, c: nat, q: nat, r: nat)
    requires p < |s.procs| && c < |s.procs| && q < |s.procs| && r < |s.procs| && s.procs[p].pc == ForkLink(c)
    requires Local(s, p) && Local(s, c) && Forking(s, p) && Awake(s, q, r) && Passed(s, q, r)
    ensures Awake(DoLink(s, p, c), q, r) && Passed(DoLink(s, p, c), q, r)
  {
  }

  lemma WatchStart(s: State, p: nat, c: nat)
    requires Shape(s) && Watchful(s) && p < |s.procs| && c < |s.procs| && s.procs[p].pc == ForkRun(c)
    ensures Watchful(DoStart(s, p, c))
  {
    var s' := DoStart(s, p, c);
    assert Local(s, p) && Tree(s, p) && Woken(s, p);
    assert Local(s, c) && Forking(s, p);
    forall q: nat | q < |s'.procs| ensures Woken(s', q) {
      assert Local(s, q) && Tree(s, q) && Woken(s, q);
    }
    forall q: nat, r: nat | q < |s'.procs| && r < |s'.procs| ensures Awake(s', q, r) && Passed(s', q, r) {
      assert Local(s, q) && Local(s, r) && Awake(s, q, r) && Passed(s, q, r);
    }
  }

  lemma WatchReap(s: State, p: nat, c: nat)
    requires Shape(s) && Watchful(s) && p < |s.procs| && c < |s.procs| && s.procs[p].pc.Scan? && ZombieOf(s, c, p)
             && !s.procs[c].locked
    ensures Watchful(DoReap(s, p, c))
  {
    var s' := DoReap(s, p, c);
    assert Local(s, p) && Tree(s, p) && Woken(s, p);
    assert Local(s, c);
    forall q: nat | q < |s'.procs| ensures Woken(s', q) {
      assert Local(s, q) && Tree(s, q) && Woken(s, q);
    }
    forall q: nat, r: nat | q < |s'.procs| && r < |s'.procs| ensures Awake(s', q, r) && Passed(s', q, r) {
      ReapPair(s, p, c, q, r);
    }
  }

  lemma ReapPair(s: State, p: nat, c: nat, q: nat, r: nat)
    requires p < |s.procs| && c < |s.procs| && q < |s.procs| && r < |s.procs| && s.init < |s.procs|
    requires s.procs[p].pc.Scan? && ZombieOf(s, c, p) && !s.procs[c].locked
    requires Local(s, p) && Local(s, c) && Local(s, q) && Local(s, r) && Awake(s, q, r) && Passed(s, q, r)
    ensures Awake(DoReap(s, p, c), q, r) && Passed(DoReap(s, p, c), q, r)
  {
  }

  lemma WatchAdopt(s: State, p: nat, c: nat)
    requires Shape(s) && Watchful(s) && p < |s.procs| && c < |s.procs| && s.procs[p].pc == Reparent(c)
             && s.procs[c].parent == Some(p)
    ensures Watchful(DoAdopt(s, p, c))
  {
    var s' := DoAdopt(s, p, c);
    assert Local(s, p) && Tree(s, p) && Woken(s, p);
    assert Local(s, c) && Tree(s, s.init) && Local(s, s.init);
    forall q: nat | q < |s'.procs| ensures Woken(s', q) {
      assert Local(s, q) && Tree(s, q) && Woken(s, q);
    }
    forall q: nat, r: nat | q < |s'.procs| && r < |s'.procs| ensures Awake(s', q, r) && Passed(s', q, r) {
      AdoptPair(s, p, c, q, r);
    }
  }

  lemma AdoptPair(s: State, p: nat, c: nat, q: nat, r: nat)
    requires p < |s.procs| && c < |s.procs| && q < |s.procs| && r < |s.procs| && s.init < |s.procs|
    requires s.procs[p].pc == Reparent(c) && s.procs[c].parent == Some(p)
    requires Local(s, p) && Local(s, c) && Local(s, s.init) && Tree(s, s.init) && Local(s, q) && Local(s, r)
    requires Awake(s, q, r) && Passed(s, q, r)
    ensures Awake(DoAdopt(s, p, c), q, r) && Passed(DoAdopt(s, p, c), q, r)
  {
  }

  // One round of wakeup: of init, for a child passed to it, or of the parent.
  predicate WakeRound(s: State, p: nat, t: Option<nat>, j: nat, pc: Pc) {
    && p < |s.procs| && j < |s.procs| && (j != p ==> !s.procs[j].locked)
    && (|| (s.procs[p].pc.WakeInit? && t == Some(s.init) && s.procs[p].pc.j == j && pc == s.procs[p].pc.(j := j + 1))
        || (s.procs[p].pc == WakeParent(j) && t == s.procs[p].parent && pc == WakeParent(j + 1)))
  }

  lemma WatchWake(s: State, p: nat, t: Option<nat>, j: nat, pc: Pc)
    requires Shape(s) && Watchful(s) && WakeRound(s, p, t, j, pc)
    ensures Watchful(DoWake(s, p, t, j, pc))
  {
    var s' := DoWake(s, p, t, j, pc);
    forall q: nat | q < |s'.procs| ensures Woken(s', q) {
      WakeWoken(s, p, t, j, pc, q);
    }
    forall q: nat, r: nat | q < |s'.procs| && r < |s'.procs| ensures Awake(s', q, r) && Passed(s', q, r) {
      WakeAwake(s, p, t, j, pc, q, r);
      WakePassed(s, p, t, j, pc, q, r);
    }
  }

  lemma WakeWoken(s: State, p: nat, t: Option<nat>, j: nat, pc: Pc, q: nat)
    requires WakeRound(s, p, t, j, pc) && q < |s.procs| && s.init < |s.procs|
    requires Local(s, p) && Local(s, j) && Tree(s, p) && Woken(s, p) && Woken(s, q)
    ensures Woken(DoWake(s, p, t, j, pc), q)
  {
    hide Local, Tree, Woken, WakeRound, DoWake;
    if q == p {
      WakerWoken(s, p, t, j, pc);
    } else {
      OtherWoken(s, p, t, j, pc, q);
    }
  }

  lemma WakerWoken(s: State, p: nat, t: Option<nat>, j: nat, pc: Pc)
    requires WakeRound(s, p, t, j, pc) && s.init < |s.procs| && Local(s, p) && Local(s, j) && Tree(s, p) && Woken(s, p)
    ensures Woken(DoWake(s, p, t, j, pc), p)
  {
  }

  lemma OtherWoken(s: State, p: nat, t: Option<nat>, j: nat, pc: Pc, q: nat)
    requires WakeRound(s, p, t, j, pc) && q < |s.procs| && q != p && s.init < |s.procs|
    requires Local(s, p) && Local(s, j) && Woken(s, q)
    ensures Woken(DoWake(s, p, t, j, pc), q)
  {
    hide Local;
    OnlyLess(s, p, t, j, pc);
  }

  // A round of wakeup puts nobody to sleep.
  lemma OnlyLess(s: State, p: nat, t: Option<nat>, j: nat, pc: Pc)
    requires WakeRound(s, p, t, j, pc) && Local(s, p) && Local(s, j)
    ensures forall q: nat :: q < |s.procs| && Waiting(DoWake(s, p, t, j, pc), q) ==> Waiting(s, q)
  {
  }

  lemma WakeAwake(s: State, p: nat, t: Option<nat>, j: nat, pc: Pc, q: nat, r: nat)
    requires WakeRound(s, p, t, j, pc) && q < |s.procs| && r < |s.procs|
    requires Local(s, p) && Local(s, j) && Local(s, q) && Local(s, r) && Awake(s, q, r)
    ensures Awake(DoWake(s, p, t, j, pc), q, r)
  {
  }

  lemma WakePassed(s: State, p: nat, t: Option<nat>, j: nat, pc: Pc, q: nat, r: nat)
    requires WakeRound(s, p, t, j, pc) && q < |s.procs| && r < |s.procs| && Local(s, j) && Passed(s, q, r)
    ensures Passed(DoWake(s, p, t, j, pc), q, r)
  {
  }


  // ----- pids

  lemma NumberSame(s: State, s': State)
    requires Numbered(s) && |s'.procs| == |s.procs| && s'.nextpid == s.nextpid && s'.reaped == s.reaped
    requires forall p: nat :: p < |s.procs| ==>
               s'.procs[p].pid == s.procs[p].pid && (s'.procs[p].state == Unused <==> s.procs[p].state == Unused)
    ensures Numbered(s')
  {
    forall p: nat, q: nat | p < |s'.procs| && q < |s'.procs| ensures Pids(s', p, q) {
      assert Pids(s, p, q);
    }
  }

  lemma NumberAlloc(s: State, p: nat, c: nat)
    requires Numbered(s) && p < |s.procs| && c < |s.procs| && p != c
    ensures Numbered(DoAlloc(s, p, c))
  {
    var s' := DoAlloc(s, p, c);
    assert s.nextpid !in s.reaped;
    forall q: nat, r: nat | q < |s'.procs| && r < |s'.procs| ensures Pids(s', q, r) {
      assert Pids(s, q, r) && Pids(s, r, q);
    }
  }

  lemma NumberUndo(s: State, p: nat, c: nat)
    requires Numbered(s) && p < |s.procs| && c < |s.procs| && p != c
    ensures Numbered(DoUndo(s, p, c))
  {
    var s' := DoUndo(s, p, c);
    forall q: nat, r: nat | q < |s'.procs| && r < |s'.procs| ensures Pids(s', q, r) {
      assert Pids(s, q, r);
    }
  }

  lemma NumberReap(s: State, p: nat, c: nat)
    requires Numbered(s) && p < |s.procs| && c < |s.procs| && p != c && s.procs[c].state == Zombie
    ensures Numbered(DoReap(s, p, c))
  {
    var s' := DoReap(s, p, c);
    assert Pids(s, c, p);
    forall q: nat, r: nat | q < |s'.procs| && r < |s'.procs| ensures Pids(s', q, r) {
      assert Pids(s, q, r) && Pids(s, q, c);
    }
  }

  // ----- every step keeps all of it

  ghost predicate Inv(s: State) { Shape(s) && Watchful(s) && Numbered(s) }

  // What a step that changes only p and the lock has to show of p alone.
  predicate OwnMove(s: State, p: nat, q: Proc, w: Option<nat>) {
    && p < |s.procs| && s.init < |s.procs| && Fair(s, p, w)
    && q.parent == s.procs[p].parent && q.pid == s.procs[p].pid
    && s.procs[p].state != Used && s.procs[p].state != Unused && q.state != Unused && !q.pc.ForkLink? && !q.pc.ForkRun?
    && (q.pc.Scan? ==> q.pc.i <= |s.procs|)
    && Local(Move(s, p, q, w), p) && Tree(Move(s, p, q, w), p) && Woken(Move(s, p, q, w), p)
    && (Waiting(Move(s, p, q, w), p) && !Waiting(s, p) ==> s.waitLock == Some(p))
    && (q.state == Zombie && s.procs[p].state != Zombie ==>
          s.waitLock == Some(p) && (q.parent.Some? && q.parent.value < |s.procs| ==> !Waiting(s, q.parent.value)))
    && (s.procs[p].pc.WakeInit? ==> s.procs[p].pc.j > s.init)
  }

  lemma KeepMove(s: State, p: nat, q: Proc, w: Option<nat>)
    requires Inv(s) && OwnMove(s, p, q, w)
    requires forall c: nat :: c < |s.procs| ==> Awake(Move(s, p, q, w), p, c) && Passed(Move(s, p, q, w), p, c)
    ensures Inv(Move(s, p, q, w))
  {
    hide Shape, Watchful, Numbered;
    ShapeMove(s, p, q, w);
    WatchMove(s, p, q, w);
    NumberSame(s, Move(s, p, q, w));
  }

  // The steps of wait, sleep and kill in which a process changes only itself and the
  // lock: from p as it is to q, with wait_lock then being w.
  ghost predicate WaitStep(s: State, p: nat, q: Proc, w: Option<nat>)
    requires p < |s.procs|
  {
    var r := s.procs[p];
    || (r.state == Runnable && (r.pc == Away || r.pc == Asleep) && s.waitLock == None
        && q == r.(pc := Scan(0, false)) && w == Some(p))
    || (r.pc.Scan? && r.pc.i < |s.procs| && !ZombieOf(s, r.pc.i, p) && q.pc.Scan?
        && q == r.(pc := Scan(r.pc.i + 1, q.pc.kids))
        && w == s.waitLock)
    || (r.pc.Scan? && q == r.(pc := Away) && w == None)
    || (r.pc.Scan? && r.pc.i == |s.procs| && q == r.(pc := Bed, locked := true) && w == s.waitLock)
    || (r.pc == Bed && q == r.(pc := Going) && w == None)
    || (r.pc == Going && q == r.(pc := Asleep, state := Sleeping, locked := false) && w == s.waitLock)
    || (r.state == Sleeping && q == r.(state := Runnable) && w == s.waitLock)
  }

  // The same for exit.
  ghost predicate ExitStep(s: State, p: nat, q: Proc, w: Option<nat>)
    requires p < |s.procs|
  {
    var r, n := s.procs[p], |s.procs|;
    || (r.pc == Away && r.state == Runnable && p != s.init && s.waitLock == None && q == r.(pc := Reparent(0))
        && w == Some(p))
    || (w == s.waitLock &&
        (|| (r.pc.Reparent? && r.pc.i < n && s.procs[r.pc.i].parent != Some(p) && q == r.(pc := Reparent(r.pc.i + 1)))
         || (r.pc.Reparent? && r.pc.i >= n && q == r.(pc := WakeParent(0)))
         || (r.pc.WakeInit? && r.pc.j >= n && q == r.(pc := Reparent(r.pc.i + 1)))
         || (r.pc.WakeParent? && r.pc.j >= n && q == r.(pc := Dying))
         || (r.pc == Dying && q == r.(state := Zombie, pc := Dead, locked := true))
         || (r.pc == Leaving && q == r.(pc := Gone, locked := false))))
    || (r.pc == Dead && q == r.(pc := Leaving) && w == None)
  }

  lemma OwnStep(s: State, p: nat, q: Proc, w: Option<nat>)
    requires p < |s.procs| && s.init < |s.procs| && (WaitStep(s, p, q, w) || ExitStep(s, p, q, w))
    requires Local(s, p) && Tree(s, p) && Woken(s, p)
    ensures OwnMove(s, p, q, w)
  {
    if WaitStep(s, p, q, w) {
      hide ExitStep;
    } else {
      hide WaitStep;
    }
  }

  lemma OwnPair(s: State, p: nat, q: Proc, w: Option<nat>, c: nat)
    requires p < |s.procs| && c < |s.procs| && (WaitStep(s, p, q, w) || ExitStep(s, p, q, w))
    requires Local(s, p) && Local(s, c) && Awake(s, p, c) && Passed(s, p, c)
    ensures Awake(Move(s, p, q, w), p, c) && Passed(Move(s, p, q, w), p, c)
  {
  }

  lemma KeepStep(s: State, p: nat, q: Proc, w: Option<nat>)
    requires Inv(s) && p < |s.procs| && (WaitStep(s, p, q, w) || ExitStep(s, p, q, w))
    ensures Inv(Move(s, p, q, w))
  {
    hide Numbered, Local, Tree, Woken, Awake, Passed, WaitStep, ExitStep, OwnMove;
    OwnStep(s, p, q, w);
    forall c: nat | c < |s.procs| ensures Awake(Move(s, p, q, w), p, c) && Passed(Move(s, p, q, w), p, c) {
      OwnPair(s, p, q, w, c);
    }
    KeepMove(s, p, q, w);
  }

  lemma StepKeeps(s: State, st: Step)
    requires Inv(s) && Enabled(s, st)
    ensures Inv(Do(s, st))
  {
    hide Shape, Watchful, Numbered;
    match st
    case Alloc(p, c) =>
      ShapeAlloc(s, p, c);
      WatchAlloc(s, p, c);
      NumberAlloc(s, p, c);
    case Undo(p) =>
      KeepUndo(s, p, s.procs[p].pc.child);
    case Link(p) =>
      KeepLink(s, p, s.procs[p].pc.child);
    case Start(p) =>
      KeepStart(s, p, s.procs[p].pc.child);
    case Enter(p) =>
      KeepStep(s, p, s.procs[p].(pc := Scan(0, false)), Some(p));
    case Look(p) =>
      KeepLook(s, p);
    case Fail(p) =>
      KeepStep(s, p, s.procs[p].(pc := Away), None);
    case GiveUp(p) =>
      KeepStep(s, p, s.procs[p].(pc := Away), None);
    case LieDown(p) =>
      KeepStep(s, p, s.procs[p].(pc := Bed, locked := true), s.waitLock);
    case LetGo(p) =>
      KeepStep(s, p, s.procs[p].(pc := Going), None);
    case Sleep(p) =>
      KeepStep(s, p, s.procs[p].(pc := Asleep, state := Sleeping, locked := false), s.waitLock);
    case Kill(p) =>
      KeepStep(s, p, s.procs[p].(state := Runnable), s.waitLock);
    case Quit(p) =>
      KeepStep(s, p, s.procs[p].(pc := Reparent(0)), Some(p));
    case Adopt(p) =>
      KeepAdopt(s, p);
    case Rouse(p) =>
      KeepRouse(s, p);
    case Die(p) =>
      KeepStep(s, p, s.procs[p].(state := Zombie, pc := Dead, locked := true), s.waitLock);
    case Unlock(p) =>
      KeepStep(s, p, s.procs[p].(pc := Leaving), None);
    case Leave(p) =>
      KeepStep(s, p, s.procs[p].(pc := Gone, locked := false), s.waitLock);
  }

  lemma KeepUndo(s: State, p: nat, c: nat)
    requires Inv(s) && p < |s.procs| && c < |s.procs| && s.procs[p].pc == ForkLink(c)
    ensures Inv(DoUndo(s, p, c))
  {
    hide Watchful, Numbered;
    assert Forking(s, p) && Local(s, p) && Local(s, c);
    ShapeUndo(s, p, c);
    WatchUndo(s, p, c);
    NumberUndo(s, p, c);
  }

  lemma KeepLink(s: State, p: nat, c: nat)
    requires Inv(s) && p < |s.procs| && c < |s.procs| && s.procs[p].pc == ForkLink(c)
    ensures Inv(DoLink(s, p, c))
  {
    hide Watchful, Numbered;
    assert Forking(s, p) && Local(s, p) && Local(s, c);
    ShapeLink(s, p, c);
    WatchLink(s, p, c);
    NumberSame(s, DoLink(s, p, c));
  }

  lemma KeepStart(s: State, p: nat, c: nat)
    requires Inv(s) && p < |s.procs| && c < |s.procs| && s.procs[p].pc == ForkRun(c)
    ensures Inv(DoStart(s, p, c))
  {
    hide Watchful, Numbered;
    assert Forking(s, p) && Local(s, p) && Local(s, c);
    ShapeStart(s, p, c);
    WatchStart(s, p, c);
    NumberSame(s, DoStart(s, p, c));
  }

  lemma KeepLook(s: State, p: nat)
    requires Inv(s) && Enabled(s, Look(p))
    ensures Inv(Do(s, Look(p)))
  {
    hide Watchful, Numbered;
    assert Local(s, p);
    var pc := s.procs[p].pc;
    if s.procs[pc.i].parent != Some(p) {
      KeepStep(s, p, s.procs[p].(pc := Scan(pc.i + 1, pc.kids)), s.waitLock);
    } else if s.procs[pc.i].state != Zombie {
      KeepStep(s, p, s.procs[p].(pc := Scan(pc.i + 1, true)), s.waitLock);
    } else {
      ShapeReap(s, p, pc.i);
      WatchReap(s, p, pc.i);
      NumberReap(s, p, pc.i);
    }
  }

  lemma KeepAdopt(s: State, p: nat)
    requires Inv(s) && Enabled(s, Adopt(p))
    ensures Inv(Do(s, Adopt(p)))
  {
    hide Shape, Watchful, Numbered;
    var i := s.procs[p].pc.i;
    if i >= |s.procs| {
      KeepStep(s, p, s.procs[p].(pc := WakeParent(0)), s.waitLock);
    } else if s.procs[i].parent == Some(p) {
      ShapeAdopt(s, p, i);
      WatchAdopt(s, p, i);
      NumberSame(s, DoAdopt(s, p, i));
    } else {
      KeepStep(s, p, s.procs[p].(pc := Reparent(s.procs[p].pc.i + 1)), s.waitLock);
    }
  }

  lemma KeepRouse(s: State, p: nat)
    requires Inv(s) && Enabled(s, Rouse(p))
    ensures Inv(Do(s, Rouse(p)))
  {
    hide Shape, Watchful, Numbered;
    match s.procs[p].pc {
      case WakeInit(i, j) =>
        if j >= |s.procs| {
          KeepStep(s, p, s.procs[p].(pc := Reparent(s.procs[p].pc.i + 1)), s.waitLock);
        } else {
          ShapeWake(s, p, Some(s.init), j, WakeInit(i, j + 1));
          WatchWake(s, p, Some(s.init), j, WakeInit(i, j + 1));
          NumberSame(s, DoWake(s, p, Some(s.init), j, WakeInit(i, j + 1)));
        }
      case WakeParent(j) =>
        if j >= |s.procs| {
          KeepStep(s, p, s.procs[p].(pc := Dying), s.waitLock);
        } else {
          ShapeWake(s, p, s.procs[p].parent, j, WakeParent(j + 1));
          WatchWake(s, p, s.procs[p].parent, j, WakeParent(j + 1));
          NumberSame(s, DoWake(s, p, s.procs[p].parent, j, WakeParent(j + 1)));
        }
    }
  }

  // ----- runs

  // Only init is there.
  ghost predicate Boot(s: State) {
    && s.init < |s.procs| && s.waitLock == None && s.reaped == []
       && s.procs[s.init] == Proc(Runnable, s.procs[s.init].pid, None, Away, false)
    && s.procs[s.init].pid < s.nextpid
    && forall p :: 0 <= p < |s.procs| && p != s.init ==> s.procs[p] == EMPTY
  }

  predicate StepAt(ss: seq<State>, sts: seq<Step>, i: nat)
    requires i < |sts| && |ss| == |sts| + 1
  {
    Enabled(ss[i], sts[i]) && ss[i + 1] == Do(ss[i], sts[i])
  }

  // A run: any interleaving of steps.
  ghost predicate Run(ss: seq<State>, sts: seq<Step>) {
    |ss| == |sts| + 1 && Boot(ss[0]) && forall i :: 0 <= i < |sts| ==> StepAt(ss, sts, i)
  }

  lemma BootInv(s: State)
    requires Boot(s)
    ensures Inv(s)
  {
  }

  lemma {:induction false} RunInv(ss: seq<State>, sts: seq<Step>, k: nat)
    requires Run(ss, sts) && k < |ss|
    ensures Inv(ss[k])
    decreases k
  {
    if k == 0 {
      BootInv(ss[0]);
    } else {
      RunInv(ss, sts, k - 1);
      assert StepAt(ss, sts, k - 1);
      StepKeeps(ss[k - 1], sts[k - 1]);
    }
  }

  // Whenever wait_lock is free, no process sleeps in wait while it has a zombie child.
  lemma NoLostWakeup(ss: seq<State>, sts: seq<Step>, k: nat, q: nat, c: nat)
    requires Run(ss, sts) && k < |ss| && q < |ss[k].procs| && c < |ss[k].procs|
    requires ss[k].waitLock == None && ss[k].procs[q].state == Sleeping
    ensures !ZombieOf(ss[k], c, q)
  {
    RunInv(ss, sts, k);
    assert Awake(ss[k], q, c);
  }

  // A pid is returned by wait at most once, and a zombie has no children left.
  lemma ReapedOnce(ss: seq<State>, sts: seq<Step>, k: nat, i: nat, j: nat)
    requires Run(ss, sts) && k < |ss| && i < j < |ss[k].reaped|
    ensures ss[k].reaped[i] != ss[k].reaped[j]
  {
    RunInv(ss, sts, k);
  }

  lemma ZombieChildless(ss: seq<State>, sts: seq<Step>, k: nat, p: nat, c: nat)
    requires Run(ss, sts) && k < |ss| && p < |ss[k].procs| && c < |ss[k].procs| && ss[k].procs[p].state == Zombie
    ensures ss[k].procs[c].parent != Some(p)
  {
    RunInv(ss, sts, k);
    assert Passed(ss[k], p, c);
  }

  // ----- what fork and wait achieve

  // The process with this pid has been started, and has not been waited for.
  predicate Alive(s: State, c: nat, pid: nat) {
    c < |s.procs| && s.procs[c].pid == pid && s.procs[c].state != Unused && s.procs[c].state != Used
  }

  // c is a child of p that can run, with a pid of its own.
  predicate Forked(s: State, p: nat, c: nat) {
    && c < |s.procs| && s.procs[c].state == Runnable && s.procs[c].pc == Away && s.procs[c].parent == Some(p)
    && forall q: nat :: q < |s.procs| && q != c && s.procs[q].state != Unused ==> s.procs[q].pid != s.procs[c].pid
  }

  // fork makes such a child.
  lemma ForkStarts(ss: seq<State>, sts: seq<Step>, i: nat)
    requires Run(ss, sts) && i < |sts| && sts[i].Start?
    ensures Enabled(ss[i], sts[i]) && Forked(ss[i + 1], sts[i].p, ss[i].procs[sts[i].p].pc.child)
  {
    hide Enabled, Inv, Run, Forked;
    RunStep(ss, sts, i);
    RunInv(ss, sts, i);
    RunInv(ss, sts, i + 1);
    StartForks(ss[i], sts[i].p);
  }

  lemma RunStep(ss: seq<State>, sts: seq<Step>, i: nat)
    requires Run(ss, sts) && i < |sts|
    ensures |ss| == |sts| + 1 && StepAt(ss, sts, i)
  {
  }

  lemma StartForks(s: State, p: nat)
    requires Inv(s) && Enabled(s, Start(p)) && Inv(Do(s, Start(p)))
    ensures Forked(Do(s, Start(p)), p, s.procs[p].pc.child)
  {
    hide Watchful;
    var c, s' := s.procs[p].pc.child, Do(s, Start(p));
    assert Local(s, p) && Forking(s, p) && Local(s, c);
    forall q: nat | q < |s'.procs| && q != c && s'.procs[q].state != Unused ensures s'.procs[q].pid != s'.procs[c].pid {
      assert Pids(s', q, c);
    }
  }

  // wait takes the zombie child c of p out of the table, and returns its pid.
  predicate Collected(s: State, p: nat, c: nat, s': State) {
    && p < |s.procs| && c < |s.procs| && c != p && ZombieOf(s, c, p) && s'.reaped == s.reaped + [s.procs[c].pid]
    && s'.procs == s.procs[c := EMPTY][p := s.procs[p].(pc := Away)]
  }

  // Nothing else returns a pid.
  lemma WaitReturnsChild(ss: seq<State>, sts: seq<Step>, i: nat) returns (c: nat)
    requires Run(ss, sts) && i < |sts| && ss[i + 1].reaped != ss[i].reaped
    ensures Collected(ss[i], sts[i].p, c, ss[i + 1])
  {
    hide Inv, Run;
    RunStep(ss, sts, i);
    RunInv(ss, sts, i);
    c := Collects(ss[i], sts[i]);
  }

  lemma Collects(s: State, st: Step) returns (c: nat)
    requires Inv(s) && Enabled(s, st) && Do(s, st).reaped != s.reaped
    ensures Collected(s, st.p, c, Do(s, st))
  {
    hide Watchful, Numbered;
    c := s.procs[st.p].pc.i;
    assert Local(s, st.p) && Local(s, c);
  }

  lemma StillThere(s: State, st: Step, c: nat, pid: nat)
    requires Enabled(s, st) && Alive(s, c, pid) && Local(s, st.p) && Forking(s, st.p)
    ensures Alive(Do(s, st), c, pid) || pid in Do(s, st).reaped
  {
    hide Local;
    if st.Look? && s.procs[st.p].pc.i == c {
      assert s.reaped + [pid] == s.reaped + [s.procs[c].pid];
    }
  }

  lemma ReapedGrows(s: State, st: Step, pid: nat)
    requires Enabled(s, st) && pid in s.reaped
    ensures pid in Do(s, st).reaped
  {
  }

  // A process that was started stays in the table until a wait has returned its pid.
  lemma {:induction false} NeverLost(ss: seq<State>, sts: seq<Step>, i: nat, k: nat, c: nat, pid: nat)
    requires Run(ss, sts) && i <= k < |ss| && Alive(ss[i], c, pid)
    ensures Alive(ss[k], c, pid) || pid in ss[k].reaped
    decreases k
  {
    if i < k {
      NeverLost(ss, sts, i, k - 1, c, pid);
      RunInv(ss, sts, k - 1);
      assert StepAt(ss, sts, k - 1);
      if pid in ss[k - 1].reaped {
        ReapedGrows(ss[k - 1], sts[k - 1], pid);
      } else {
        StillThere(ss[k - 1], sts[k - 1], c, pid);
      }
    }
  }

  // Whoever holds wait_lock can go on, or waits for the lock of a process that can: there
  // is no deadlock.
  lemma LockMovesOn(ss: seq<State>, sts: seq<Step>, k: nat) returns (st: Step)
    requires Run(ss, sts) && k < |ss| && ss[k].waitLock.Some?
    ensures Enabled(ss[k], st) && !st.Kill?
    ensures st.p == ss[k].waitLock.value || (ss[k].procs[st.p].locked && !Do(ss[k], st).procs[st.p].locked)
  {
    hide Watchful, Numbered;
    RunInv(ss, sts, k);
    var s := ss[k];
    var p := s.waitLock.value;
    assert Local(s, p) && Forking(s, p);
    match s.procs[p].pc
    case Scan(i, _) =>
      if i < |s.procs| && s.procs[i].parent == Some(p) && s.procs[i].locked {
        st := OtherUnlocks(s, p, i);
      } else {
        st := if i < |s.procs| then Look(p) else GiveUp(p);
      }
    case Bed => st := LetGo(p);
    case Reparent(_) => st := Adopt(p);
    case WakeInit(_, j) => st := WakerMovesOn(s, p, j);
    case WakeParent(j) => st := WakerMovesOn(s, p, j);
    case Dying => st := Die(p);
    case Dead => st := Unlock(p);
  }

  lemma WakerMovesOn(s: State, p: nat, j: nat) returns (st: Step)
    requires Shape(s) && s.waitLock == Some(p) && p < |s.procs|
    requires s.procs[p].pc == WakeParent(j) || (s.procs[p].pc.WakeInit? && s.procs[p].pc.j == j)
    ensures Enabled(s, st) && !st.Kill?
    ensures st.p == p || (s.procs[st.p].locked && !Do(s, st).procs[st.p].locked)
  {
    if j < |s.procs| && j != p && s.procs[j].locked {
      st := OtherUnlocks(s, p, j);
    } else {
      st := Rouse(p);
    }
  }

  // A process that has its own lock but not wait_lock is about to give it up.
  lemma OtherUnlocks(s: State, p: nat, i: nat) returns (st: Step)
    requires Shape(s) && s.waitLock == Some(p) && i < |s.procs| && i != p && s.procs[i].locked
    ensures Enabled(s, st) && !st.Kill? && st.p == i && !Do(s, st).procs[i].locked
  {
    assert Local(s, i);
    st := if s.procs[i].pc == Going then Sleep(i) else Leave(i);
  }

  // While wait_lock is free, every process that is neither asleep nor gone can go on.
  lemma EveryoneMovesOn(ss: seq<State>, sts: seq<Step>, k: nat, p: nat)
    requires Run(ss, sts) && k < |ss| && p < |ss[k].procs| && ss[k].waitLock == None
    ensures var s, q := ss[k], ss[k].procs[p];
            && (q.state == Runnable && (q.pc == Away || q.pc == Asleep) ==> Enabled(s, Enter(p)))
            && (q.state == Runnable && q.pc == Away && p != s.init ==> Enabled(s, Quit(p)))
            && (q.pc.ForkLink? ==> Enabled(s, Link(p)) && Enabled(s, Undo(p)))
            && (q.pc.ForkRun? ==> Enabled(s, Start(p)))
            && (q.pc == Going ==> Enabled(s, Sleep(p))) && (q.pc == Leaving ==> Enabled(s, Leave(p)))
            && (q.state == Runnable ==> q.pc in {Away, Asleep, Going} || q.pc.ForkLink? || q.pc.ForkRun?)
  {
    hide Watchful, Numbered;
    RunInv(ss, sts, k);
    var s := ss[k];
    assert Local(s, p) && Forking(s, p);
    if s.procs[p].pc.ForkLink? || s.procs[p].pc.ForkRun? {
      assert Local(s, s.procs[p].pc.child);
    }
  }
}
