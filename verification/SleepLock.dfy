/**
 Sleep locks of kernel/sleeplock.c over sleep and wakeup of kernel/proc.c, as interleaved steps:
 every acquire and release of the inner spinlock and of a process lock is a step, and the scan
 of wakeup goes on slot by slot.  A process may sleep on other channels, inside the lock or out.
*/
module SleepLock {

  const NPROC := 64

  datatype Holder = Free | By(i: nat)
  datatype State = Sleeping | Runnable | Running

  datatype Pc =
    | Out
    | Check         // inner lock held, at the test of locked
    | SleepEnter    // sleep called, before acquire(&p->lock)
    | SleepRelease  // before release(&lk->lk)
    | SleepMark     // before SLEEPING
    | SleepSwitch   // before the scheduler releases p->lock
    | Asleep
    | SleepTidy     // woken, p->lock held
    | SleepRetake   // before acquire(&lk->lk)
    | Got           // locked set, before release(&lk->lk)
    | Inside        // between acquiresleep and releasesleep
    | Clear         // in releasesleep, before locked = 0
    | Wake(j: nat)  // its wakeup at slot j

  // onChan: asleep on this sleep lock.
  datatype Proc = Proc(state: State, onChan: bool, pc: Pc, lock: Holder)

  // pid is the index of the process whose pid is stored, Free standing for 0.
  datatype Sys = Sys(proc: seq<Proc>, inner: Holder, locked: bool, pid: Holder) {
    function Set(p: nat, x: Proc): Sys
      requires p < |proc|
    {
      this.(proc := proc[p := x])
    }
    function At(p: nat, pc: Pc): Sys
      requires p < |proc|
    {
      Set(p, proc[p].(pc := pc))
    }
  }

  datatype Action =
    | Enter(p: nat) | Test(p: nat) | SleepLock(p: nat) | SleepUnlock(p: nat) | SleepSet(p: nat)
    | SleepSwitched(p: nat) | SleepResume(p: nat) | SleepTidied(p: nat) | SleepTake(p: nat) | Leave(p: nat)
    | Release(p: nat) | Cleared(p: nat) | WakeOne(p: nat) | Finish(p: nat)
    | Kill(p: nat) | Preempt(p: nat) | Dispatch(p: nat)
    | Block(p: nat) | Unblock(p: nat)  // sleep and wakeup on another channel

  predicate NoLock(pc: Pc) { pc.Out? || pc.SleepRetake? || pc.Inside? }

  predicate Enabled(s: Sys, a: Action) {
    a.p < |s.proc| &&
    var x := s.proc[a.p]; var run := x.state == Running; var pc := x.pc;
    match a
    case Enter(_) => run && pc.Out? && s.inner.Free?
    case Test(_) => run && pc.Check?
    case SleepLock(_) => run && pc.SleepEnter? && x.lock.Free?
    case SleepUnlock(_) => run && pc.SleepRelease?
    case SleepSet(_) => run && pc.SleepMark?
    case SleepSwitched(_) => pc.SleepSwitch?
    case SleepResume(_) => x.state == Runnable && pc.Asleep? && x.lock.Free?
    case SleepTidied(_) => run && pc.SleepTidy?
    case SleepTake(_) => run && pc.SleepRetake? && s.inner.Free?
    case Leave(_) => run && pc.Got?
    case Release(_) => run && pc.Inside? && s.inner.Free?
    case Cleared(_) => run && pc.Clear?
    case WakeOne(p) => run && pc.Wake? && pc.j < |s.proc| && (pc.j != p ==> s.proc[pc.j].lock.Free?)
    case Finish(_) => run && pc.Wake? && pc.j >= |s.proc|
    case Kill(_) => x.lock.Free?
    case Preempt(_) => run && NoLock(pc) && x.lock.Free?
    case Dispatch(_) => x.state == Runnable && NoLock(pc) && x.lock.Free?
    case Block(_) => run && (pc.Out? || pc.Inside?) && x.lock.Free?
    case Unblock(_) => x.state == Sleeping && !x.onChan && x.lock.Free?
  }

  function Woken(x: Proc): Proc {
    if x.state == Sleeping && x.onChan then x.(state := Runnable) else x
  }

  function Apply(s: Sys, a: Action): Sys
    requires Enabled(s, a)
  {
    var p := a.p; var x := s.proc[p];
    match a
    case Enter(_) => s.(inner := By(p)).At(p, Check)
    case Test(_) => if s.locked then s.At(p, SleepEnter) else s.(locked := true, pid := By(p)).At(p, Got)
    case SleepLock(_) => s.Set(p, x.(lock := By(p), pc := SleepRelease))
    case SleepUnlock(_) => s.(inner := Free).At(p, SleepMark)
    case SleepSet(_) => s.Set(p, x.(onChan := true, state := Sleeping, pc := SleepSwitch))
    case SleepSwitched(_) => s.Set(p, x.(lock := Free, pc := Asleep))
    case SleepResume(_) => s.Set(p, x.(lock := By(p), state := Running, pc := SleepTidy))
    case SleepTidied(_) => s.Set(p, x.(onChan := false, lock := Free, pc := SleepRetake))
    case SleepTake(_) => s.(inner := By(p)).At(p, Check)
    case Leave(_) => s.(inner := Free).At(p, Inside)
    case Release(_) => s.(inner := By(p)).At(p, Clear)
    case Cleared(_) => s.(locked := false, pid := Free).At(p, Wake(0))
    case WakeOne(_) =>
      if x.pc.j == p then s.At(p, Wake(p + 1)) else s.Set(x.pc.j, Woken(s.proc[x.pc.j])).At(p, Wake(x.pc.j + 1))
    case Finish(_) => s.(inner := Free).At(p, Out)
    case Kill(_) => s.Set(p, x.(state := if x.state == Sleeping then Runnable else x.state))
    case Preempt(_) => s.Set(p, x.(state := Runnable))
    case Dispatch(_) => s.Set(p, x.(state := Running))
    case Block(_) => s.Set(p, x.(state := Sleeping))
    case Unblock(_) => s.Set(p, x.(state := Runnable))
  }

  // initsleeplock, with no process anywhere near.
  ghost predicate Init(s: Sys) {
    && |s.proc| == NPROC && s.inner == Free && !s.locked && s.pid == Free
    && forall p :: 0 <= p < NPROC ==> s.proc[p] == Proc(Running, false, Out, Free)
  }

  // ---------- the invariant ----------

  predicate HoldsInner(pc: Pc) {
    pc.Check? || pc.SleepEnter? || pc.SleepRelease? || pc.Got? || pc.Clear? || pc.Wake?
  }

  predicate HoldsOwn(pc: Pc) { pc.SleepRelease? || pc.SleepMark? || pc.SleepSwitch? || pc.SleepTidy? }

  // From the moment acquiresleep has set locked to the moment releasesleep clears it.
  predicate Owner(pc: Pc) { pc.Got? || pc.Inside? || pc.Clear? }

  // Asleep in acquiresleep, or bound for it with the inner lock already released.
  predicate Waiting(x: Proc) { x.pc.SleepMark? || x.pc.SleepSwitch? || (x.pc.Asleep? && x.state == Sleeping) }

  // A releaser's wakeup has yet to reach slot p.
  predicate WakeDue(s: Sys, p: nat) {
    s.inner.By? && s.inner.i < |s.proc| && s.proc[s.inner.i].pc.Wake? && s.proc[s.inner.i].pc.j <= p
  }

  predicate StateFits(x: Proc) {
    (x.onChan <==> x.pc.SleepSwitch? || x.pc.Asleep? || x.pc.SleepTidy?) &&
    match x.pc
    case SleepSwitch => x.state == Sleeping
    case Asleep => x.state == Runnable || x.state == Sleeping
    case Out => true
    case Inside => true
    case _ => x.state == Running || (x.state == Runnable && NoLock(x.pc))
  }

  predicate Alone(x: Proc, p: nat, inner: Holder, locked: bool, pid: Holder, due: bool) {
    && StateFits(x) && (inner == By(p) <==> HoldsInner(x.pc))
    && (HoldsOwn(x.pc) ==> x.lock == By(p)) && (x.lock.By? ==> HoldsOwn(x.pc))
    && (Owner(x.pc) <==> locked && pid == By(p))
    && (x.pc.SleepEnter? || x.pc.SleepRelease? ==> locked)
    && (Waiting(x) ==> locked || due)
  }

  predicate One(s: Sys, p: nat) {
    p < |s.proc| && Alone(s.proc[p], p, s.inner, s.locked, s.pid, WakeDue(s, p))
  }

  ghost predicate Inv(s: Sys) {
    && |s.proc| == NPROC && (s.inner.By? ==> s.inner.i < NPROC)
    && (s.locked <==> s.pid.By?) && (s.locked ==> s.pid.i < NPROC)
    && forall p: nat :: p < NPROC ==> One(s, p)
  }

  lemma AcquireKeeps(s: Sys, a: Action)
    requires Inv(s) && Enabled(s, a) && (a.Enter? || a.Test? || a.SleepTake? || a.Leave?)
    ensures Inv(Apply(s, a))
  {
    var s', p := Apply(s, a), a.p;
    assert One(s, p);
    forall r: nat | r < NPROC ensures One(s', r) {
      assert One(s, r);
    }
  }

  lemma SleepKeeps(s: Sys, a: Action)
    requires Inv(s) && Enabled(s, a)
    requires a.SleepLock? || a.SleepUnlock? || a.SleepSet? || a.SleepSwitched? || a.SleepResume? || a.SleepTidied?
    ensures Inv(Apply(s, a))
  {
    var s', p := Apply(s, a), a.p;
    assert One(s, p);
    forall r: nat | r < NPROC ensures One(s', r) {
      assert One(s, r);
    }
  }

  lemma ReleaseKeeps(s: Sys, a: Action)
    requires Inv(s) && Enabled(s, a) && (a.Release? || a.Cleared? || a.WakeOne? || a.Finish?)
    ensures Inv(Apply(s, a))
  {
    var s', p := Apply(s, a), a.p;
    assert One(s, p);
    forall r: nat | r < NPROC ensures One(s', r) {
      assert One(s, r);
    }
  }

  lemma OutsideKeeps(s: Sys, a: Action)
    requires Inv(s) && Enabled(s, a) && (a.Kill? || a.Preempt? || a.Dispatch? || a.Block? || a.Unblock?)
    ensures Inv(Apply(s, a))
  {
    var s', p := Apply(s, a), a.p;
    assert One(s, p);
    forall r: nat | r < NPROC ensures One(s', r) {
      assert One(s, r);
    }
  }

  /** Every step of every process keeps the invariant. */
  lemma NextInv(s: Sys, a: Action)
    requires Inv(s) && Enabled(s, a)
    ensures Inv(Apply(s, a))
  {
    hide Inv, Enabled, Apply;
    if a.Enter? || a.Test? || a.SleepTake? || a.Leave? {
      AcquireKeeps(s, a);
    } else if a.Release? || a.Cleared? || a.WakeOne? || a.Finish? {
      ReleaseKeeps(s, a);
    } else if a.Kill? || a.Preempt? || a.Dispatch? || a.Block? || a.Unblock? {
      OutsideKeeps(s, a);
    } else {
      SleepKeeps(s, a);
    }
  }

  ghost predicate Run(s: Sys, acts: seq<Action>, s': Sys)
    decreases acts
  {
    if acts == [] then s' == s else Enabled(s, acts[0]) && Run(Apply(s, acts[0]), acts[1..], s')
  }

  lemma {:induction false} RunInv(s: Sys, acts: seq<Action>, s': Sys)
    requires Inv(s) && Run(s, acts, s')
    ensures Inv(s')
    decreases acts
  {
    if acts != [] {
      NextInv(s, acts[0]);
      RunInv(Apply(s, acts[0]), acts[1..], s');
    }
  }

  /** Mutual exclusion: in every state of every run at most one process is between acquiresleep and
      releasesleep, and only when the lock is marked held, with its pid. */
  lemma AtMostOneInside(s0: Sys, acts: seq<Action>, s: Sys, p: nat, q: nat)
    requires Init(s0) && Run(s0, acts, s) && p < NPROC && q < NPROC
    ensures |s.proc| == NPROC
    ensures s.proc[p].pc.Inside? && s.proc[q].pc.Inside? ==> p == q
    ensures s.proc[p].pc.Inside? ==> s.locked && s.pid == By(p)
  {
    assert Inv(s0);
    RunInv(s0, acts, s);
    hide Run, Init;
    assert One(s, p) && One(s, q);
  }

  predicate AsleepOnLock(x: Proc) { x.state == Sleeping && x.onChan }

  /** No lost sleeper: a process asleep in acquiresleep means that the lock is held, or that a
      releaser, still holding the inner lock, has yet to reach it with its wakeup. */
  lemma SleeperHasWaker(s0: Sys, acts: seq<Action>, s: Sys, p: nat)
    requires Init(s0) && Run(s0, acts, s) && p < NPROC
    ensures |s.proc| == NPROC
    ensures AsleepOnLock(s.proc[p]) ==> s.locked || WakeDue(s, p)
    ensures AsleepOnLock(s.proc[p]) && s.inner.Free? ==> s.locked
  {
    assert Inv(s0);
    RunInv(s0, acts, s);
    hide Run, Init;
    assert One(s, p);
  }

  /** holdingsleep: for a process that is not inside acquiresleep or releasesleep, locked and its
      own pid mean exactly that it is between the two. */
  lemma HoldingIsInside(s0: Sys, acts: seq<Action>, s: Sys, p: nat)
    requires Init(s0) && Run(s0, acts, s) && p < NPROC
    ensures |s.proc| == NPROC
    ensures s.proc[p].pc.Out? || s.proc[p].pc.Inside? ==>
      (s.proc[p].pc.Inside? <==> s.locked && s.pid == By(p))
  {
    assert Inv(s0);
    RunInv(s0, acts, s);
    hide Run, Init;
    assert One(s, p);
  }
}
