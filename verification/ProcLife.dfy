/**
 Sleep, wakeup and the life of a process in kernel/proc.c: fork, exit, reparent, wait, kill, as
 steps of processes that run interleaved.  A process takes and releases wait_lock, its own lock
 and the lock of the child it makes in steps of their own, and wakeup and the scans of the table
 go on slot by slot.  What is done to one slot under that slot's lock, from acquire to release, is
 one step: wakeup's and kill's look at a process, and wait's at a child, which ends with the
 release of wait_lock as well when it finds a zombie.
*/
module ProcLife {

  const NPROC := 64
  const INIT := 0  // initproc

  datatype State = Unused | Used | Sleeping | Runnable | Running | Zombie
  datatype Chan = NoChan | OfProc(i: nat) | Other(n: nat)
  datatype Parent = Nobody | Of(i: nat)
  datatype Holder = Free | By(i: nat)

  // What the last fork or wait of a process has returned: -1, 0 to a new child, or the pid of the
  // process in slot i.
  datatype Ret = None | Failed | Zero | Child(i: nat)

  // Where a process is in the modelled code.
  datatype Pc =
    | Idle                          // not started
    | User(ret: Ret)                // elsewhere
    | Blocked                       // asleep on some other channel
    | ForkCopy(np: nat)             // allocproc done, np->lock held
    | ForkLink(np: nat)             // np->lock released, before acquire(&wait_lock)
    | ForkSet(np: nat)              // before np->parent = p
    | ForkUnset(np: nat)            // before release(&wait_lock)
    | ForkRun(np: nat)              // before np->state = RUNNABLE
    | Reparent(k: nat)              // reparent's loop at slot k
    | ReWake(k: nat, j: nat)        // its wakeup(initproc) at slot j
    | ExitWake(ch: nat, j: nat)     // wakeup(p->parent) at slot j
    | ExitMark                      // p->lock held, before ZOMBIE
    | ExitRelease                   // before release(&wait_lock)
    | ExitSwitch                    // before the scheduler releases p->lock
    | Dead
    | WaitScan(k: nat, have: bool)  // wait's loop at slot k
    | SleepEnter                    // sleep called, before acquire(&p->lock)
    | SleepRelease                  // before release(&wait_lock)
    | SleepMark                     // before SLEEPING
    | SleepSwitch                   // before the scheduler releases p->lock
    | Asleep
    | SleepTidy                     // woken, p->lock held
    | SleepRetake                   // before acquire(&wait_lock)

  datatype Proc = Proc(state: State, chan: Chan, parent: Parent, killed: bool, pc: Pc, lock: Holder)

  datatype Sys = Sys(proc: seq<Proc>, waitLock: Holder) {
    function Set(p: nat, x: Proc): Sys
      requires p < |proc|
    {
      this.(proc := proc[p := x])
    }
    function At(p: nat, pc: Pc): Sys
      requires p < |proc|
    {
      Set(p, proc[p].(pc := pc))
    }
    function Take(p: nat): Sys { this.(waitLock := By(p)) }
    function Release(): Sys { this.(waitLock := Free) }
  }

  const EMPTY := Proc(Unused, NoChan, Nobody, false, Idle, Free)

  // wakeup at one slot.
  function Woken(x: Proc, ch: Chan): Proc {
    if x.state == Sleeping && x.chan == ch then x.(state := Runnable) else x
  }

  datatype Action =
    | ForkAlloc(p: nat, np: nat) | ForkFail(p: nat) | ForkUnlock(p: nat) | ForkTake(p: nat)
    | ForkParent(p: nat) | ForkRelease(p: nat) | ForkStart(p: nat)
    | ExitTake(p: nat) | ReparentOne(p: nat) | ReWakeOne(p: nat) | ExitCall(p: nat) | ExitWakeOne(p: nat)
    | ExitLock(p: nat) | ExitZombie(p: nat) | ExitUnlock(p: nat) | ExitDone(p: nat)
    | WaitTake(p: nat) | WaitOne(p: nat, copied: bool) | WaitEnd(p: nat)
    | SleepLock(p: nat) | SleepUnlock(p: nat) | SleepSet(p: nat) | SleepSwitched(p: nat)
    | SleepResume(p: nat) | SleepTidied(p: nat) | SleepTake(p: nat)
    | Block(p: nat, n: nat) | Unblock(p: nat) | Wakeup(n: nat, p: nat) | Kill(p: nat)
    | Preempt(p: nat) | Dispatch(p: nat)

  // Code in which no spinlock is held, so that the process can be preempted.
  predicate NoLock(pc: Pc) { pc.User? || pc.ForkLink? || pc.ForkRun? || pc.SleepRetake? }

  predicate Forking(pc: Pc) { pc.ForkCopy? || pc.ForkLink? || pc.ForkSet? || pc.ForkUnset? || pc.ForkRun? }

  predicate New(s: Sys, pc: Pc) { Forking(pc) && pc.np < |s.proc| }

  predicate Enabled(s: Sys, a: Action) {
    a.p < |s.proc| &&
    var x := s.proc[a.p]; var run := x.state == Running; var pc := x.pc;
    match a
    case ForkAlloc(p, np) => run && pc.User? && np < |s.proc| && s.proc[np].state == Unused && s.proc[np].lock.Free?
    case ForkFail(p) => run && pc.ForkCopy? && New(s, pc)
    case ForkUnlock(p) => run && pc.ForkCopy? && New(s, pc)
    case ForkTake(p) => run && pc.ForkLink? && s.waitLock.Free?
    case ForkParent(p) => run && pc.ForkSet? && New(s, pc)
    case ForkRelease(p) => run && pc.ForkUnset?
    case ForkStart(p) => run && pc.ForkRun? && New(s, pc) && s.proc[pc.np].lock.Free?
    case ExitTake(p) => run && pc.User? && p != INIT && s.waitLock.Free?
    case ReparentOne(p) => run && pc.Reparent? && pc.k < |s.proc|
    case ReWakeOne(p) => run && pc.ReWake? && (pc.j < |s.proc| && pc.j != p ==> s.proc[pc.j].lock.Free?)
    case ExitCall(p) => run && pc.Reparent? && pc.k >= |s.proc| && x.parent.Of?
    case ExitWakeOne(p) => run && pc.ExitWake? && pc.j < |s.proc| && (pc.j != p ==> s.proc[pc.j].lock.Free?)
    case ExitLock(p) => run && pc.ExitWake? && pc.j >= |s.proc| && x.lock.Free?
    case ExitZombie(p) => run && pc.ExitMark?
    case ExitUnlock(p) => pc.ExitRelease?
    case ExitDone(p) => pc.ExitSwitch?
    case WaitTake(p) => run && pc.User? && s.waitLock.Free?
    case WaitOne(p, copied) =>
      run && pc.WaitScan? && pc.k < |s.proc| && (s.proc[pc.k].parent == Of(p) ==> s.proc[pc.k].lock.Free?)
    case WaitEnd(p) => run && pc.WaitScan? && pc.k >= |s.proc| && x.lock.Free?
    case SleepLock(p) => run && pc.SleepEnter? && x.lock.Free?
    case SleepUnlock(p) => run && pc.SleepRelease?
    case SleepSet(p) => run && pc.SleepMark?
    case SleepSwitched(p) => pc.SleepSwitch?
    case SleepResume(p) => x.state == Runnable && pc.Asleep? && x.lock.Free?
    case SleepTidied(p) => run && pc.SleepTidy?
    case SleepTake(p) => run && pc.SleepRetake? && s.waitLock.Free?
    case Block(p, n) => run && pc.User? && x.lock.Free?
    case Unblock(p) => x.state == Runnable && pc.Blocked? && x.lock.Free?
    case Wakeup(n, p) => x.lock.Free?
    case Kill(p) => x.lock.Free? && x.state != Unused
    case Preempt(p) => run && NoLock(pc) && x.lock.Free?
    case Dispatch(p) => x.state == Runnable && NoLock(pc) && x.lock.Free?
  }

  function Apply(s: Sys, a: Action): Sys
    requires Enabled(s, a)
  {
    var p := a.p; var x := s.proc[p]; var pc := x.pc;
    match a
    case ForkAlloc(_, np) => s.Set(np, s.proc[np].(state := Used, lock := By(p))).At(p, ForkCopy(np))
    case ForkFail(_) => s.Set(pc.np, EMPTY).At(p, User(Failed))
    case ForkUnlock(_) => s.Set(pc.np, s.proc[pc.np].(lock := Free)).At(p, ForkLink(pc.np))
    case ForkTake(_) => s.Take(p).At(p, ForkSet(pc.np))
    case ForkParent(_) => s.Set(pc.np, s.proc[pc.np].(parent := Of(p))).At(p, ForkUnset(pc.np))
    case ForkRelease(_) => s.Release().At(p, ForkRun(pc.np))
    case ForkStart(_) =>
      s.Set(pc.np, s.proc[pc.np].(state := Runnable, pc := User(Zero))).At(p, User(Child(pc.np)))
    case ExitTake(_) => s.Take(p).At(p, Reparent(0))
    case ReparentOne(_) =>
      if s.proc[pc.k].parent == Of(p)
      then s.Set(pc.k, s.proc[pc.k].(parent := Of(INIT))).At(p, ReWake(pc.k, 0))
      else s.At(p, Reparent(pc.k + 1))
    case ReWakeOne(_) =>
      if pc.j >= |s.proc| then s.At(p, Reparent(pc.k + 1))
      else if pc.j == p then s.At(p, ReWake(pc.k, pc.j + 1))
      else s.Set(pc.j, Woken(s.proc[pc.j], OfProc(INIT))).At(p, ReWake(pc.k, pc.j + 1))
    case ExitCall(_) => s.At(p, ExitWake(x.parent.i, 0))
    case ExitWakeOne(_) =>
      if pc.j == p then s.At(p, ExitWake(pc.ch, pc.j + 1))
      else s.Set(pc.j, Woken(s.proc[pc.j], OfProc(pc.ch))).At(p, ExitWake(pc.ch, pc.j + 1))
    case ExitLock(_) => s.Set(p, x.(lock := By(p), pc := ExitMark))
    case ExitZombie(_) => s.Set(p, x.(state := Zombie, pc := ExitRelease))
    case ExitUnlock(_) => s.Release().At(p, ExitSwitch)
    case ExitDone(_) => s.Set(p, x.(lock := Free, pc := Dead))
    case WaitTake(_) => s.Take(p).At(p, WaitScan(0, false))
    case WaitOne(_, copied) =>
      if s.proc[pc.k].parent != Of(p) then s.At(p, WaitScan(pc.k + 1, pc.have))
      else if s.proc[pc.k].state != Zombie then s.At(p, WaitScan(pc.k + 1, true))
      else if copied then s.Release().Set(pc.k, EMPTY).At(p, User(Child(pc.k)))
      else s.Release().At(p, User(Failed))
    case WaitEnd(_) => if !pc.have || x.killed then s.Release().At(p, User(Failed)) else s.At(p, SleepEnter)
    case SleepLock(_) => s.Set(p, x.(lock := By(p), pc := SleepRelease))
    case SleepUnlock(_) => s.Release().At(p, SleepMark)
    case SleepSet(_) => s.Set(p, x.(chan := OfProc(p), state := Sleeping, pc := SleepSwitch))
    case SleepSwitched(_) => s.Set(p, x.(lock := Free, pc := Asleep))
    case SleepResume(_) => s.Set(p, x.(lock := By(p), state := Running, pc := SleepTidy))
    case SleepTidied(_) => s.Set(p, x.(chan := NoChan, lock := Free, pc := SleepRetake))
    case SleepTake(_) => s.Take(p).At(p, WaitScan(0, false))
    case Block(_, n) => s.Set(p, x.(state := Sleeping, chan := Other(n), pc := Blocked))
    case Unblock(_) => s.Set(p, x.(state := Running, chan := NoChan, pc := User(None)))
    case Wakeup(n, _) => s.Set(p, Woken(x, Other(n)))
    case Kill(_) => s.Set(p, x.(killed := true, state := if x.state == Sleeping then Runnable else x.state))
    case Preempt(_) => s.Set(p, x.(state := Runnable))
    case Dispatch(_) => s.Set(p, x.(state := Running))
  }

  // userinit's process, before it first runs.
  ghost predicate Init(s: Sys) {
    && |s.proc| == NPROC && s.waitLock == Free
    && s.proc[INIT] == EMPTY.(state := Runnable, pc := User(None))
    && forall p :: 0 <= p < NPROC && p != INIT ==> s.proc[p] == EMPTY
  }

  // ---------- the invariant ----------

  predicate HoldsWait(pc: Pc) {
    pc.ForkSet? || pc.ForkUnset? || pc.Reparent? || pc.ReWake? || pc.ExitWake? || pc.ExitMark? || pc.ExitRelease? ||
    pc.WaitScan? || pc.SleepEnter? || pc.SleepRelease?
  }

  predicate HoldsOwn(pc: Pc) {
    pc.ExitMark? || pc.ExitRelease? || pc.ExitSwitch? ||
    pc.SleepRelease? || pc.SleepMark? || pc.SleepSwitch? || pc.SleepTidy?
  }

  predicate Linked(pc: Pc) { pc.ForkUnset? || pc.ForkRun? }

  predicate Exiting(pc: Pc) {
    pc.Reparent? || pc.ReWake? || pc.ExitWake? || pc.ExitMark? || pc.ExitRelease? || pc.ExitSwitch? || pc.Dead?
  }

  // exit has passed the reparenting of slot c.
  predicate Disowned(pc: Pc, c: nat) {
    Exiting(pc) && (pc.Reparent? ==> c < pc.k) && (pc.ReWake? ==> c <= pc.k)
  }

  // wait has passed slot c.
  predicate Seen(pc: Pc, c: nat) { (pc.WaitScan? && c < pc.k) || pc.SleepEnter? || pc.SleepRelease? }

  // exit's wakeup has passed the slot of the parent.
  predicate WokeParent(pc: Pc) { pc.ExitMark? || (pc.ExitWake? && pc.j > pc.ch) }

  // In wait's sleep, or bound for it with wait_lock already released.
  predicate Waiting(x: Proc) { x.pc.SleepMark? || x.pc.SleepSwitch? || (x.pc.Asleep? && x.state == Sleeping) }

  predicate StateFits(x: Proc, p: nat) {
    match x.pc
    case Idle => x.state == Unused || x.state == Used
    case Blocked => x.state == Runnable || (x.state == Sleeping && x.chan.Other?)
    case ExitRelease => x.state == Zombie
    case ExitSwitch => x.state == Zombie
    case Dead => x.state == Zombie
    case SleepSwitch => x.state == Sleeping && x.chan == OfProc(p)
    case Asleep => x.state == Runnable || (x.state == Sleeping && x.chan == OfProc(p))
    case _ => x.state == Running || (x.state == Runnable && NoLock(x.pc))
  }

  // What holds of each process by itself.
  predicate Alone(x: Proc, p: nat, wl: Holder) {
    && StateFits(x, p) && (wl == By(p) <==> HoldsWait(x.pc)) && (x.lock == By(p) <==> HoldsOwn(x.pc))
    && (x.lock.By? ==> x.lock.i < NPROC)
    && (x.parent.Of? ==> x.parent.i < NPROC && x.parent.i != p && x.state != Unused)
    && (p == INIT ==> x.parent == Nobody && !x.pc.Idle? && !Exiting(x.pc))
    && (p != INIT && !x.pc.Idle? ==> x.parent.Of?)
    && (x.pc.ExitWake? ==> x.parent == Of(x.pc.ch))
    && (Forking(x.pc) ==> x.pc.np < NPROC && x.pc.np != p)
  }

  // What holds of two processes, x at p and y at q: the lock of one held by the other, the child
  // that one is making, and what a parent and a child may be doing.
  predicate Two(x: Proc, p: nat, y: Proc, q: nat, waking: bool) {
    && (y.lock == By(p) <==> x.pc == ForkCopy(q))
    && (Forking(x.pc) && x.pc.np == q ==> y.state == Used && y.parent == if Linked(x.pc) then Of(p) else Nobody)
    && (Forking(x.pc) && Forking(y.pc) ==> x.pc.np != y.pc.np)
    && (y.parent == Of(p) ==>
          && !x.pc.Idle? && !Disowned(x.pc, q) && (Seen(x.pc, q) ==> y.state != Zombie)
          && (WokeParent(y.pc) ==> !Waiting(x))
          && (y.state == Zombie && Waiting(x) ==> p == INIT && waking))
    && (x.pc.ReWake? && x.pc.j > INIT && q == INIT ==> !Waiting(y))
  }

  // A wakeup of initproc is under way that has not reached it yet.
  predicate WakingInit(s: Sys) {
    s.waitLock.By? && s.waitLock.i < |s.proc| &&
    s.proc[s.waitLock.i].pc.ReWake? && s.proc[s.waitLock.i].pc.j <= INIT
  }

  predicate One(s: Sys, p: nat) { p < |s.proc| && Alone(s.proc[p], p, s.waitLock) }

  predicate Pair(s: Sys, p: nat, q: nat) {
    p < |s.proc| && q < |s.proc| && (p != q ==> Two(s.proc[p], p, s.proc[q], q, WakingInit(s)))
  }

  ghost predicate HasChild(s: Sys, p: nat, k: nat) {
    exists c :: 0 <= c < k && c < |s.proc| && s.proc[c].parent == Of(p)
  }

  // wait's havekids is right.
  ghost predicate Have(s: Sys, p: nat) {
    p < |s.proc| && (s.proc[p].pc.WaitScan? ==> (s.proc[p].pc.have <==> HasChild(s, p, s.proc[p].pc.k)))
  }

  ghost predicate Inv(s: Sys) {
    && |s.proc| == NPROC && (s.waitLock.By? ==> s.waitLock.i < NPROC)
    && (forall p: nat :: p < NPROC ==> One(s, p))
    && (forall p: nat, q: nat :: p < NPROC && q < NPROC ==> Pair(s, p, q))
    && forall p: nat :: p < NPROC ==> Have(s, p)
  }

  lemma InitInv(s: Sys)
    requires Init(s)
    ensures Inv(s)
  {
    assert forall p: nat, q: nat :: p < NPROC && q < NPROC ==> Pair(s, p, q);
  }

  ghost predicate Around(s: Sys, p: nat, r: nat) { Pair(s, p, r) && Pair(s, r, p) }

  // A step that changes processes p and q alone keeps the invariant if it does so around them.
  lemma Assemble(s: Sys, s': Sys, p: nat, q: nat)
    requires Inv(s) && p < NPROC && q < NPROC && |s'.proc| == NPROC && (s'.waitLock.By? ==> s'.waitLock.i < NPROC)
    requires forall r :: 0 <= r < NPROC && r != p && r != q ==> s'.proc[r] == s.proc[r]
    requires s'.waitLock == s.waitLock || {s.waitLock, s'.waitLock} == {Free, By(p)}
    requires One(s', p) && One(s', q)
    requires forall r: nat :: r < NPROC ==> Around(s', p, r) && Around(s', q, r)
    requires WakingInit(s) ==> WakingInit(s') || q == INIT
    requires Have(s', p) && (q != p ==> s'.proc[q].pc == s.proc[q].pc || !s'.proc[q].pc.WaitScan?)
    requires HoldsWait(s.proc[p].pc) || (s'.proc[p].parent == s.proc[p].parent && s'.proc[q].parent == s.proc[q].parent)
    ensures Inv(s')
  {
    forall r: nat | r < NPROC ensures One(s', r) {
      assert One(s, r) && One(s, p);
    }
    forall a: nat, b: nat | a < NPROC && b < NPROC ensures Pair(s', a, b) {
      assert Pair(s, a, b) && Around(s', p, a) && Around(s', p, b) && Around(s', q, a) && Around(s', q, b);
    }
    forall r: nat | r < NPROC ensures Have(s', r) {
      assert Have(s, r) && One(s, r) && One(s, p);
      hide Alone;
      if r != p && s'.proc[r].pc.WaitScan? {
        OnlyHolder(s, p, r);
        assert forall c :: 0 <= c < NPROC ==> s'.proc[c].parent == s.proc[c].parent;
        SameChildren(s, s', r, s.proc[r].pc.k);
      }
    }
  }

  lemma OnlyHolder(s: Sys, p: nat, r: nat)
    requires One(s, p) && One(s, r) && p != r && HoldsWait(s.proc[r].pc)
    ensures !HoldsWait(s.proc[p].pc)
  {
  }

  lemma SameChildren(s: Sys, s': Sys, r: nat, k: nat)
    requires |s'.proc| == |s.proc| && forall c :: 0 <= c < |s.proc| ==> s'.proc[c].parent == s.proc[c].parent
    ensures HasChild(s', r, k) == HasChild(s, r, k)
  {
    if c :| 0 <= c < k && c < |s.proc| && s.proc[c].parent == Of(r) { assert s'.proc[c].parent == Of(r); }
    if c :| 0 <= c < k && c < |s.proc| && s'.proc[c].parent == Of(r) { assert s.proc[c].parent == Of(r); }
  }

  // ---------- steps of one process ----------

  // From x to y process p takes on nothing that another process depends on: whom it is making, what
  // its exit or its wait has got past, whether it waits, and that it is alive.
  ghost predicate Calm(x: Proc, y: Proc, p: nat) {
    && y.parent == x.parent && (y.lock == x.lock || {x.lock, y.lock} == {Free, By(p)})
    && (y.state == Used <==> x.state == Used) && (y.state == Zombie ==> x.state == Zombie)
    && (y.pc.Idle? ==> x.pc.Idle?) && (Waiting(y) ==> Waiting(x)) && (WokeParent(y.pc) ==> WokeParent(x.pc))
    && (x.pc.ForkCopy? || y.pc.ForkCopy? || y.pc.ReWake? ==> y.pc == x.pc)
    && (Forking(y.pc) ==> Forking(x.pc) && y.pc.np == x.pc.np && (Linked(y.pc) <==> Linked(x.pc)))
    && forall c: nat :: c < NPROC ==>
         (Disowned(y.pc, c) ==> Disowned(x.pc, c)) && (Seen(y.pc, c) ==> Seen(x.pc, c))
  }

  lemma CalmAround(s: Sys, s': Sys, p: nat, r: nat)
    requires Inv(s) && p < NPROC && r < NPROC && |s'.proc| == NPROC && s'.proc == s.proc[p := s'.proc[p]]
    requires Calm(s.proc[p], s'.proc[p], p) && (WakingInit(s) ==> WakingInit(s'))
    ensures Around(s', p, r)
  {
    assert Around(s, p, r);
    hide WakingInit, Waiting, WokeParent, Disowned, Seen, Forking, Linked;
  }

  // Such a step keeps the invariant if the process is right by itself.
  lemma CalmKeeps(s: Sys, s': Sys, p: nat)
    requires Inv(s) && p < NPROC && |s'.proc| == NPROC && s'.proc == s.proc[p := s'.proc[p]]
    requires s'.waitLock == s.waitLock || {s.waitLock, s'.waitLock} == {Free, By(p)}
    requires Calm(s.proc[p], s'.proc[p], p) && (WakingInit(s) ==> WakingInit(s'))
    requires One(s', p) && Have(s', p)
    ensures Inv(s')
  {
    forall r: nat | r < NPROC ensures Around(s', p, r) { CalmAround(s, s', p, r); }
    hide Two, Around, Alone, Have;
    Assemble(s, s', p, p);
  }

  // A calm step of p from s to s' that leaves p right by itself.
  ghost predicate OwnKept(s: Sys, s': Sys, p: nat) {
    && p < NPROC && |s.proc| == |s'.proc| == NPROC && s'.proc == s.proc[p := s'.proc[p]]
    && (s'.waitLock == s.waitLock || {s.waitLock, s'.waitLock} == {Free, By(p)})
    && Calm(s.proc[p], s'.proc[p], p) && One(s', p) && (WakingInit(s) ==> WakingInit(s'))
    && (s'.proc[p].pc.WaitScan? ==> s'.proc[p].pc == WaitScan(0, false) || s'.proc[p].pc == s.proc[p].pc)
  }

  lemma OwnStepKeeps(s: Sys, s': Sys, p: nat)
    requires Inv(s) && OwnKept(s, s', p)
    ensures Inv(s')
  {
    assert Have(s, p);
    hide One, Pair, Alone, Two, Calm;
    SameChildren(s, s', p, if s'.proc[p].pc.WaitScan? then s'.proc[p].pc.k else 0);
    CalmKeeps(s, s', p);
  }

  lemma ForkLockKeeps(s: Sys, a: Action)
    requires Inv(s) && Enabled(s, a) && (a.ForkTake? || a.ForkRelease?)
    ensures Inv(Apply(s, a))
  {
    assert One(s, a.p);
    hide Two, Pair, Have;
    OwnStepKeeps(s, Apply(s, a), a.p);
  }

  lemma ExitStartKeeps(s: Sys, a: Action)
    requires Inv(s) && Enabled(s, a) && (a.ExitTake? || a.ExitCall? || a.ExitLock?)
    ensures Inv(Apply(s, a))
  {
    assert One(s, a.p);
    hide Two, Pair, Have;
    OwnStepKeeps(s, Apply(s, a), a.p);
  }

  lemma ExitEndKeeps(s: Sys, a: Action)
    requires Inv(s) && Enabled(s, a) && (a.ExitUnlock? || a.ExitDone?)
    ensures Inv(Apply(s, a))
  {
    assert One(s, a.p);
    hide Two, Pair, Have;
    OwnStepKeeps(s, Apply(s, a), a.p);
  }

  lemma WaitEndsKeeps(s: Sys, a: Action)
    requires Inv(s) && Enabled(s, a) && (a.WaitTake? || a.WaitEnd?)
    ensures Inv(Apply(s, a))
  {
    assert One(s, a.p);
    hide Two, Pair, Have;
    OwnStepKeeps(s, Apply(s, a), a.p);
  }

  lemma FallAsleepKeeps(s: Sys, a: Action)
    requires Inv(s) && Enabled(s, a) && (a.SleepLock? || a.SleepSet? || a.SleepSwitched?)
    ensures Inv(Apply(s, a))
  {
    assert One(s, a.p);
    hide Two, Pair, Have;
    OwnStepKeeps(s, Apply(s, a), a.p);
  }

  lemma WakeUpKeeps(s: Sys, a: Action)
    requires Inv(s) && Enabled(s, a) && (a.SleepResume? || a.SleepTidied? || a.SleepTake?)
    ensures Inv(Apply(s, a))
  {
    assert One(s, a.p);
    hide Two, Pair, Have;
    OwnStepKeeps(s, Apply(s, a), a.p);
  }

  lemma BlockOtherKeeps(s: Sys, a: Action)
    requires Inv(s) && Enabled(s, a) && (a.Block? || a.Unblock?)
    ensures Inv(Apply(s, a))
  {
    assert One(s, a.p);
    hide Two, Pair, Have;
    OwnStepKeeps(s, Apply(s, a), a.p);
  }

  lemma RouseKeeps(s: Sys, a: Action)
    requires Inv(s) && Enabled(s, a) && (a.Wakeup? || a.Kill?)
    ensures Inv(Apply(s, a))
  {
    assert One(s, a.p);
    hide Two, Pair, Have;
    OwnStepKeeps(s, Apply(s, a), a.p);
  }

  lemma ScheduleKeeps(s: Sys, a: Action)
    requires Inv(s) && Enabled(s, a) && (a.Preempt? || a.Dispatch?)
    ensures Inv(Apply(s, a))
  {
    assert One(s, a.p);
    hide Two, Pair, Have;
    OwnStepKeeps(s, Apply(s, a), a.p);
  }

  // ---------- steps that concern another process ----------

  // What the invariant says of p, q and r.
  ghost predicate Near(s: Sys, p: nat, q: nat, r: nat) {
    && |s.proc| == NPROC && p < NPROC && q < NPROC && r < NPROC && p != q
    && One(s, p) && One(s, q) && One(s, r) && One(s, INIT)
    && Around(s, p, q) && Around(s, p, r) && Around(s, q, r)
  }

  lemma InvNear(s: Sys, p: nat, q: nat, r: nat)
    requires Inv(s) && p < NPROC && q < NPROC && r < NPROC && p != q
    ensures Near(s, p, q, r)
  {
    hide Alone, Two;
  }

  lemma ForkAllocAround(s: Sys, s': Sys, p: nat, q: nat, r: nat)
    requires Near(s, p, q, r)
    requires s.proc[p].state == Running && s.proc[p].pc.User? && s.proc[q].state == Unused && s.proc[q].lock.Free?
    requires s' == s.Set(q, s.proc[q].(state := Used, lock := By(p))).At(p, ForkCopy(q))
    ensures Around(s', p, r) && Around(s', q, r)
  {
  }

  lemma ForkAllocKeeps(s: Sys, a: Action)
    requires Inv(s) && Enabled(s, a) && a.ForkAlloc?
    ensures Inv(Apply(s, a))
  {
    var p, s' := a.p, Apply(s, a);
    var q: nat := a.np;
    assert One(s, p) && One(s, q) && Pair(s, p, q) && Pair(s, q, p) && Have(s, p);
    forall r: nat | r < NPROC ensures Around(s', p, r) && Around(s', q, r) {
      InvNear(s, p, q, r);
      ForkAllocAround(s, s', p, q, r);
    }
    hide Two, Around;
    Assemble(s, s', p, q);
  }

  lemma ForkFailAround(s: Sys, s': Sys, p: nat, q: nat, r: nat)
    requires Near(s, p, q, r)
    requires s.proc[p].state == Running && s.proc[p].pc == ForkCopy(q)
    requires s' == s.Set(q, EMPTY).At(p, User(Failed))
    ensures Around(s', p, r) && Around(s', q, r)
  {
  }

  lemma ForkFailKeeps(s: Sys, a: Action)
    requires Inv(s) && Enabled(s, a) && a.ForkFail?
    ensures Inv(Apply(s, a))
  {
    var p, s' := a.p, Apply(s, a);
    var q: nat := s.proc[a.p].pc.np;
    assert One(s, p) && One(s, q) && Pair(s, p, q) && Pair(s, q, p) && Have(s, p);
    forall r: nat | r < NPROC ensures Around(s', p, r) && Around(s', q, r) {
      InvNear(s, p, q, r);
      ForkFailAround(s, s', p, q, r);
    }
    hide Two, Around;
    Assemble(s, s', p, q);
  }

  lemma ForkUnlockAround(s: Sys, s': Sys, p: nat, q: nat, r: nat)
    requires Near(s, p, q, r)
    requires s.proc[p].state == Running && s.proc[p].pc == ForkCopy(q)
    requires s' == s.Set(q, s.proc[q].(lock := Free)).At(p, ForkLink(q))
    ensures Around(s', p, r) && Around(s', q, r)
  {
  }

  lemma ForkUnlockKeeps(s: Sys, a: Action)
    requires Inv(s) && Enabled(s, a) && a.ForkUnlock?
    ensures Inv(Apply(s, a))
  {
    var p, s' := a.p, Apply(s, a);
    var q: nat := s.proc[a.p].pc.np;
    assert One(s, p) && One(s, q) && Pair(s, p, q) && Pair(s, q, p) && Have(s, p);
    forall r: nat | r < NPROC ensures Around(s', p, r) && Around(s', q, r) {
      InvNear(s, p, q, r);
      ForkUnlockAround(s, s', p, q, r);
    }
    hide Two, Around;
    Assemble(s, s', p, q);
  }

  lemma ForkParentAround(s: Sys, s': Sys, p: nat, q: nat, r: nat)
    requires Near(s, p, q, r)
    requires s.proc[p].state == Running && s.proc[p].pc == ForkSet(q)
    requires s' == s.Set(q, s.proc[q].(parent := Of(p))).At(p, ForkUnset(q))
    ensures Around(s', p, r) && Around(s', q, r)
  {
  }

  lemma ForkParentKeeps(s: Sys, a: Action)
    requires Inv(s) && Enabled(s, a) && a.ForkParent?
    ensures Inv(Apply(s, a))
  {
    var p, s' := a.p, Apply(s, a);
    var q: nat := s.proc[a.p].pc.np;
    assert One(s, p) && One(s, q) && Pair(s, p, q) && Pair(s, q, p) && Have(s, p);
    forall r: nat | r < NPROC ensures Around(s', p, r) && Around(s', q, r) {
      InvNear(s, p, q, r);
      ForkParentAround(s, s', p, q, r);
    }
    hide Two, Around;
    Assemble(s, s', p, q);
  }

  lemma ForkStartAround(s: Sys, s': Sys, p: nat, q: nat, r: nat)
    requires Near(s, p, q, r)
    requires s.proc[p].state == Running && s.proc[p].pc == ForkRun(q) && s.proc[q].lock.Free?
    requires s' == s.Set(q, s.proc[q].(state := Runnable, pc := User(Zero))).At(p, User(Child(q)))
    ensures Around(s', p, r) && Around(s', q, r)
  {
  }

  lemma ForkStartOnes(s: Sys, s': Sys, p: nat, q: nat)
    requires Known(s, p, q) && p != q
    requires s.proc[p].state == Running && s.proc[p].pc == ForkRun(q) && s.proc[q].lock.Free?
    requires s' == s.Set(q, s.proc[q].(state := Runnable, pc := User(Zero))).At(p, User(Child(q)))
    ensures One(s', p) && One(s', q) && |s'.proc| == NPROC
  {
  }

  lemma ForkStartIs(s: Sys, a: Action)
    requires |s.proc| == NPROC && Enabled(s, a) && a.ForkStart? && One(s, a.p)
    ensures s.proc[a.p].pc.ForkRun? && s.proc[a.p].state == Running
    ensures var p, q := a.p, s.proc[a.p].pc.np;
      && p < NPROC && q < NPROC && p != q && s.proc[q].lock.Free?
      && Apply(s, a) == s.Set(q, s.proc[q].(state := Runnable, pc := User(Zero))).At(p, User(Child(q)))
  {
  }

  lemma ForkStartKeeps(s: Sys, a: Action)
    requires Inv(s) && Enabled(s, a) && a.ForkStart?
    ensures Inv(Apply(s, a))
  {
    InvSizes(s, a);
    KnownOf(s, a.p, a.p);
    ForkStartIs(s, a);
    hide Two, Around, Alone, Apply, Enabled, Inv;
    var p, s' := a.p, Apply(s, a);
    var q: nat := s.proc[a.p].pc.np;
    KnownOf(s, p, q);
    ForkStartOnes(s, s', p, q);
    forall r: nat | r < NPROC ensures Around(s', p, r) && Around(s', q, r) {
      InvNear(s, p, q, r);
      ForkStartAround(s, s', p, q, r);
    }
    Assemble(s, s', p, q);
  }

  lemma AdoptAround(s: Sys, s': Sys, p: nat, q: nat, r: nat)
    requires Near(s, p, q, r)
    requires s.proc[p].state == Running && s.proc[p].pc == Reparent(q) && s.proc[q].parent == Of(p)
    requires s' == s.Set(q, s.proc[q].(parent := Of(INIT))).At(p, ReWake(q, 0))
    ensures Around(s', p, r) && Around(s', q, r)
  {
  }

  // reparent at one slot: the child goes to initproc, or there is none.
  lemma ReparentOneKeeps(s: Sys, a: Action)
    requires Inv(s) && Enabled(s, a) && a.ReparentOne?
    ensures Inv(Apply(s, a))
  {
    var p, s' := a.p, Apply(s, a);
    var q: nat := s.proc[p].pc.k;
    assert One(s, p) && One(s, q) && One(s, INIT) && Pair(s, p, q) && Pair(s, q, p) && Have(s, p);
    if s.proc[q].parent == Of(p) {
      forall r: nat | r < NPROC ensures Around(s', p, r) && Around(s', q, r) {
        InvNear(s, p, q, r);
        AdoptAround(s, s', p, q, r);
      }
      hide Two, Around;
      Assemble(s, s', p, q);
    } else {
      PassOver(s, s', p);
    }
  }

  lemma PassOver(s: Sys, s': Sys, p: nat)
    requires Inv(s) && p < NPROC && s.proc[p].state == Running && s.proc[p].pc.Reparent? && s.proc[p].pc.k < NPROC
    requires s.proc[s.proc[p].pc.k].parent != Of(p) && s' == s.At(p, Reparent(s.proc[p].pc.k + 1))
    ensures Inv(s')
  {
    assert One(s, p) && Have(s, p);
    forall r: nat | r < NPROC ensures Around(s', p, r) {
      assert Around(s, p, r);
    }
    Assemble(s, s', p, p);
  }

  lemma ReWakeSlot(s: Sys, s': Sys, p: nat, q: nat, k: nat, r: nat)
    requires Near(s, p, q, r)
    requires s.proc[p].state == Running && s.proc[p].pc == ReWake(k, q) && s.proc[q].lock.Free?
    requires s' == s.Set(q, Woken(s.proc[q], OfProc(INIT))).At(p, ReWake(k, q + 1))
    ensures Around(s', p, r) && Around(s', q, r)
  {
    WokenKeeps(s.proc[q], q, INIT);
    hide Woken;
  }

  // A wakeup changes at most the state, and nobody it is meant for keeps waiting.
  lemma WokenKeeps(x: Proc, q: nat, ch: nat)
    requires StateFits(x, q) && (x.lock == By(q) <==> HoldsOwn(x.pc)) && x.lock.Free?
    ensures Woken(x, OfProc(ch)) == x || Woken(x, OfProc(ch)) == x.(state := Runnable)
    ensures StateFits(Woken(x, OfProc(ch)), q) && (Woken(x, OfProc(ch)).state == x.state || (x.pc.Asleep? && q == ch))
    ensures q == ch ==> !Waiting(Woken(x, OfProc(ch)))
    ensures Waiting(Woken(x, OfProc(ch))) ==> Waiting(x)
    ensures Woken(x, OfProc(ch)).state == Zombie <==> x.state == Zombie
    ensures Woken(x, OfProc(ch)).state == Used <==> x.state == Used
  {
  }

  lemma ReWakeOneKeeps(s: Sys, a: Action)
    requires Inv(s) && Enabled(s, a) && a.ReWakeOne?
    ensures Inv(Apply(s, a))
  {
    var p, s' := a.p, Apply(s, a);
    var k, q := s.proc[p].pc.k, s.proc[p].pc.j;
    assert One(s, p) && Have(s, p);
    if q < NPROC && q != p {
      assert One(s, q);
      WokenKeeps(s.proc[q], q, INIT);
      forall r: nat | r < NPROC ensures Around(s', p, r) && Around(s', q, r) {
        InvNear(s, p, q, r);
        ReWakeSlot(s, s', p, q, k, r);
      }
      hide Two, Around, Woken;
      Assemble(s, s', p, q);
    } else {
      ReWakeSkip(s, s', p, k, q);
    }
  }

  lemma ReWakeSkip(s: Sys, s': Sys, p: nat, k: nat, q: nat)
    requires Inv(s) && p < NPROC && s.proc[p].state == Running && s.proc[p].pc == ReWake(k, q)
    requires s' == s.At(p, if q >= NPROC then Reparent(k + 1) else ReWake(k, q + 1)) && (q >= NPROC || q == p)
    ensures Inv(s')
  {
    assert One(s, p) && Have(s, p);
    forall r: nat | r < NPROC ensures Around(s', p, r) {
      assert Around(s, p, r);
    }
    Assemble(s, s', p, p);
  }

  lemma ExitWakeSlot(s: Sys, s': Sys, p: nat, q: nat, k: nat, r: nat)
    requires Near(s, p, q, r)
    requires s.proc[p].state == Running && s.proc[p].pc == ExitWake(k, q) && s.proc[q].lock.Free?
    requires s' == s.Set(q, Woken(s.proc[q], OfProc(k))).At(p, ExitWake(k, q + 1))
    ensures Around(s', p, r) && Around(s', q, r)
  {
    WokenKeeps(s.proc[q], q, k);
    hide Woken;
  }

  lemma ExitWakeOneKeeps(s: Sys, a: Action)
    requires Inv(s) && Enabled(s, a) && a.ExitWakeOne?
    ensures Inv(Apply(s, a))
  {
    var p, s' := a.p, Apply(s, a);
    var k, q := s.proc[p].pc.ch, s.proc[p].pc.j;
    assert One(s, p) && Have(s, p);
    if q != p {
      assert One(s, q);
      WokenKeeps(s.proc[q], q, k);
      forall r: nat | r < NPROC ensures Around(s', p, r) && Around(s', q, r) {
        InvNear(s, p, q, r);
        ExitWakeSlot(s, s', p, q, k, r);
      }
      hide Two, Around, Woken;
      Assemble(s, s', p, q);
    } else {
      ExitWakeSkip(s, s', p, k);
    }
  }

  lemma ExitWakeSkip(s: Sys, s': Sys, p: nat, k: nat)
    requires Inv(s) && p < NPROC && s.proc[p].state == Running && s.proc[p].pc == ExitWake(k, p)
    requires s' == s.At(p, ExitWake(k, p + 1))
    ensures Inv(s')
  {
    assert One(s, p) && Have(s, p);
    forall r: nat | r < NPROC ensures Around(s', p, r) {
      assert Around(s, p, r);
    }
    Assemble(s, s', p, p);
  }

  lemma ExitZombieKeeps(s: Sys, a: Action)
    requires Inv(s) && Enabled(s, a) && a.ExitZombie?
    ensures Inv(Apply(s, a))
  {
    var p, s' := a.p, Apply(s, a);
    assert One(s, p) && Have(s, p);
    forall r: nat | r < NPROC ensures Around(s', p, r) {
      assert Around(s, p, r) && One(s, r);
    }
    Assemble(s, s', p, p);
  }

  lemma ReapAround(s: Sys, s': Sys, p: nat, q: nat, r: nat)
    requires Near(s, p, q, r)
    requires s.proc[p].state == Running && s.proc[p].pc.WaitScan?
    requires s.proc[q].parent == Of(p) && s.proc[q].state == Zombie && s.proc[q].lock.Free?
    requires s' == s.Release().Set(q, EMPTY).At(p, User(Child(q)))
    ensures Around(s', p, r) && Around(s', q, r)
  {
  }

  // wait at one slot: no child, a running child, or a zombie that is reaped or left.
  lemma WaitOneKeeps(s: Sys, a: Action)
    requires Inv(s) && Enabled(s, a) && a.WaitOne?
    ensures Inv(Apply(s, a))
  {
    var p, s' := a.p, Apply(s, a);
    var q, have := s.proc[p].pc.k, s.proc[p].pc.have;
    if s.proc[q].parent == Of(p) && s.proc[q].state == Zombie && a.copied {
      assert One(s, p) && One(s, q) && Pair(s, p, q) && Pair(s, q, p);
      ReapKeeps(s, s', p, q);
    } else if s.proc[q].parent == Of(p) && s.proc[q].state == Zombie {
      LeaveWait(s, s', p);
    } else {
      ScanOn(s, s', p, q, have);
    }
  }

  lemma ReapKeeps(s: Sys, s': Sys, p: nat, q: nat)
    requires Inv(s) && p < NPROC && q < NPROC && p != q && s.proc[p].state == Running && s.proc[p].pc.WaitScan?
    requires s.proc[q].parent == Of(p) && s.proc[q].state == Zombie && s.proc[q].lock.Free?
    requires s' == s.Release().Set(q, EMPTY).At(p, User(Child(q)))
    ensures Inv(s')
  {
    assert One(s, p) && One(s, q) && Have(s, p);
    forall r: nat | r < NPROC ensures Around(s', p, r) && Around(s', q, r) {
      InvNear(s, p, q, r);
      ReapAround(s, s', p, q, r);
    }
    hide Two, Around;
    Assemble(s, s', p, q);
  }

  lemma LeaveWait(s: Sys, s': Sys, p: nat)
    requires Inv(s) && p < NPROC && s.proc[p].state == Running && s.proc[p].pc.WaitScan?
    requires s' == s.Release().At(p, User(Failed))
    ensures Inv(s')
  {
    assert One(s, p) && Have(s, p);
    forall r: nat | r < NPROC ensures Around(s', p, r) {
      assert Around(s, p, r);
    }
    Assemble(s, s', p, p);
  }

  lemma ScanOn(s: Sys, s': Sys, p: nat, q: nat, have: bool)
    requires Inv(s) && p < NPROC && q < NPROC && s.proc[p].state == Running && s.proc[p].pc == WaitScan(q, have)
    requires s.proc[q].parent == Of(p) ==> s.proc[q].state != Zombie
    requires s' == s.At(p, WaitScan(q + 1, have || s.proc[q].parent == Of(p)))
    ensures Inv(s')
  {
    assert One(s, p) && Have(s, p);
    forall r: nat | r < NPROC ensures Around(s', p, r) {
      assert Around(s, p, r);
    }
    NextChild(s, s', p, q);
    Assemble(s, s', p, p);
  }

  lemma NextChild(s: Sys, s': Sys, p: nat, q: nat)
    requires q < |s.proc| == |s'.proc| && forall c :: 0 <= c < |s.proc| ==> s'.proc[c].parent == s.proc[c].parent
    ensures HasChild(s', p, q + 1) <==> HasChild(s, p, q) || s.proc[q].parent == Of(p)
  {
    if c :| 0 <= c < q && c < |s.proc| && s.proc[c].parent == Of(p) { assert s'.proc[c].parent == Of(p); }
    if s.proc[q].parent == Of(p) { assert s'.proc[q].parent == Of(p); }
    if c :| 0 <= c < q + 1 && c < |s.proc| && s'.proc[c].parent == Of(p) { assert s.proc[c].parent == Of(p); }
  }

  lemma SleepUnlockKeeps(s: Sys, a: Action)
    requires Inv(s) && Enabled(s, a) && a.SleepUnlock?
    ensures Inv(Apply(s, a))
  {
    var p, s' := a.p, Apply(s, a);
    assert One(s, p) && Have(s, p);
    forall r: nat | r < NPROC ensures Around(s', p, r) {
      assert Around(s, p, r) && One(s, r);
    }
    Assemble(s, s', p, p);
  }

  // ---------- whole runs ----------

  /** Every step of every process keeps the invariant. */
  lemma NextInv(s: Sys, a: Action)
    requires Inv(s) && Enabled(s, a)
    ensures Inv(Apply(s, a))
  {
    hide Inv, Enabled, Apply;
    match a {
      case ForkAlloc(_, _) => ForkAllocKeeps(s, a);
      case ForkFail(_) => ForkFailKeeps(s, a);
      case ForkUnlock(_) => ForkUnlockKeeps(s, a);
      case ForkParent(_) => ForkParentKeeps(s, a);
      case ForkStart(_) => ForkStartKeeps(s, a);
      case ReparentOne(_) => ReparentOneKeeps(s, a);
      case ReWakeOne(_) => ReWakeOneKeeps(s, a);
      case ExitWakeOne(_) => ExitWakeOneKeeps(s, a);
      case ExitZombie(_) => ExitZombieKeeps(s, a);
      case WaitOne(_, _) => WaitOneKeeps(s, a);
      case SleepUnlock(_) => SleepUnlockKeeps(s, a);
      case ForkTake(_) => ForkLockKeeps(s, a);
      case ForkRelease(_) => ForkLockKeeps(s, a);
      case ExitTake(_) => ExitStartKeeps(s, a);
      case ExitCall(_) => ExitStartKeeps(s, a);
      case ExitLock(_) => ExitStartKeeps(s, a);
      case ExitUnlock(_) => ExitEndKeeps(s, a);
      case ExitDone(_) => ExitEndKeeps(s, a);
      case WaitTake(_) => WaitEndsKeeps(s, a);
      case WaitEnd(_) => WaitEndsKeeps(s, a);
      case SleepLock(_) => FallAsleepKeeps(s, a);
      case SleepSet(_) => FallAsleepKeeps(s, a);
      case SleepSwitched(_) => FallAsleepKeeps(s, a);
      case SleepResume(_) => WakeUpKeeps(s, a);
      case SleepTidied(_) => WakeUpKeeps(s, a);
      case SleepTake(_) => WakeUpKeeps(s, a);
      case Block(_, _) => BlockOtherKeeps(s, a);
      case Unblock(_) => BlockOtherKeeps(s, a);
      case Wakeup(_, _) => RouseKeeps(s, a);
      case Kill(_) => RouseKeeps(s, a);
      case Preempt(_) => ScheduleKeeps(s, a);
      case Dispatch(_) => ScheduleKeeps(s, a);
    }
  }

  ghost predicate Run(s: Sys, acts: seq<Action>, s': Sys)
    decreases acts
  {
    if acts == [] then s' == s else Enabled(s, acts[0]) && Run(Apply(s, acts[0]), acts[1..], s')
  }

  lemma {:induction false} RunInv(s: Sys, acts: seq<Action>, s': Sys)
    requires Inv(s) && Run(s, acts, s')
    ensures Inv(s')
    decreases acts
  {
    if acts != [] {
      NextInv(s, acts[0]);
      RunInv(Apply(s, acts[0]), acts[1..], s');
    }
  }

  /** No orphan: in every state of every run a parent is alive, neither ZOMBIE nor UNUSED, and every
      process that has been started, but the first, has a parent. */
  lemma ParentsLive(s0: Sys, acts: seq<Action>, s: Sys, c: nat)
    requires Init(s0) && Run(s0, acts, s) && c < NPROC
    ensures |s.proc| == NPROC
    ensures s.proc[c].parent.Of? ==> s.proc[c].parent.i < NPROC && s.proc[c].parent.i != c
    ensures s.proc[c].parent.Of? ==> s.proc[s.proc[c].parent.i].state !in {Unused, Used, Zombie}
    ensures c != INIT && s.proc[c].state !in {Unused, Used} ==> s.proc[c].parent.Of?
  {
    InitInv(s0);
    RunInv(s0, acts, s);
    hide Run, Init;
    assert One(s, c);
    if s.proc[c].parent.Of? {
      var p := s.proc[c].parent.i;
      assert One(s, p) && Pair(s, p, c);
    }
  }

  predicate AsleepInWait(x: Proc, p: nat) { x.state == Sleeping && x.chan == OfProc(p) }

  /** No lost exit: whenever wait_lock is free, no process asleep in wait has a zombie child. */
  lemma NoLostExit(s0: Sys, acts: seq<Action>, s: Sys, p: nat, c: nat)
    requires Init(s0) && Run(s0, acts, s) && p < NPROC && c < NPROC
    ensures |s.proc| == NPROC
    ensures s.waitLock.Free? && AsleepInWait(s.proc[p], p) && s.proc[c].parent == Of(p) ==>
      s.proc[c].state != Zombie
  {
    InitInv(s0);
    RunInv(s0, acts, s);
    hide Run, Init;
    assert One(s, p) && One(s, c) && Pair(s, p, c);
  }

  ghost predicate HasAnyChild(s: Sys, p: nat) { exists c :: 0 <= c < |s.proc| && s.proc[c].parent == Of(p) }

  predicate ZombieChild(s: Sys, p: nat, k: nat) {
    k < |s.proc| && s.proc[k].parent == Of(p) && s.proc[k].state == Zombie
  }

  lemma WaitMoves(s: Sys, a: Action, p: nat)
    requires |s.proc| == NPROC && Enabled(s, a) && a.p == p < NPROC && s.proc[p].pc.WaitScan? && Have(s, p)
    requires s.proc[p].parent != Of(p)
    requires forall c: nat :: c < NPROC && s.proc[c].parent == Of(p) && Seen(s.proc[p].pc, c) ==> !ZombieChild(s, p, c)
    ensures |Apply(s, a).proc| == NPROC
    ensures Apply(s, a).proc[p].pc != s.proc[p].pc ==> WaitMove(s, Apply(s, a), p, s.proc[p].pc.k)
  {
  }

  // One step of the caller in wait's scan at slot k, from s to s'.
  ghost predicate WaitMove(s: Sys, s': Sys, p: nat, k: nat)
    requires |s.proc| == |s'.proc| == NPROC && p < NPROC
  {
    var pc' := s'.proc[p].pc;
    if k < NPROC && ZombieChild(s, p, k) then
      (pc' == User(Child(k)) && s'.proc[k] == EMPTY) || (pc' == User(Failed) && s'.proc[k] == s.proc[k])
    else if k < NPROC then
      pc'.WaitScan? && pc'.k == k + 1
    else if HasAnyChild(s, p) && !s.proc[p].killed then
      pc' == SleepEnter && forall c: nat :: !ZombieChild(s, p, c)
    else
      pc' == User(Failed)
  }

  /** What wait answers, at every step of every run that moves its caller p on from slot k: at a
      zombie child its pid, and then the slot is empty, or -1 when the status cannot be copied out;
      at the end of the scan -1 exactly when the caller has no child or is killed.  Otherwise it goes
      to sleep, with no zombie child.  The copy decides between the first two. */
  lemma WaitAnswers(s0: Sys, acts: seq<Action>, s: Sys, a: Action, p: nat)
    requires Init(s0) && Run(s0, acts, s) && Enabled(s, a) && p < NPROC
    ensures |s.proc| == |Apply(s, a).proc| == NPROC
    ensures s.proc[p].pc.WaitScan? && Apply(s, a).proc[p].pc != s.proc[p].pc ==>
      a.p == p && WaitMove(s, Apply(s, a), p, s.proc[p].pc.k)
    ensures a.p < NPROC && (a.WaitOne? ==> s.proc[a.p].pc.WaitScan?)
    ensures a.WaitOne? && ZombieChild(s, a.p, s.proc[a.p].pc.k) ==>
      Apply(s, a).proc[a.p].pc == User(if a.copied then Child(s.proc[a.p].pc.k) else Failed)
  {
    InitInv(s0);
    RunInv(s0, acts, s);
    hide *;
    InvSizes(s, a);
    if s.proc[p].pc.WaitScan? {
      if a.p == p {
        PassedNoZombie(s, p);
        WaitMoves(s, a, p);
      } else {
        OthersStay(s, a, p);
      }
    }
    if a.WaitOne? { CopyDecides(s, a); }
  }

  lemma InvSizes(s: Sys, a: Action)
    requires Inv(s) && Enabled(s, a)
    ensures |s.proc| == |Apply(s, a).proc| == NPROC && a.p < NPROC
  {
  }

  lemma CopyDecides(s: Sys, a: Action)
    requires |s.proc| == NPROC && Enabled(s, a) && a.WaitOne?
    ensures |Apply(s, a).proc| == NPROC && s.proc[a.p].pc.WaitScan?
    ensures ZombieChild(s, a.p, s.proc[a.p].pc.k) ==>
      Apply(s, a).proc[a.p].pc == User(if a.copied then Child(s.proc[a.p].pc.k) else Failed)
  {
  }

  lemma PassedNoZombie(s: Sys, p: nat)
    requires Inv(s) && p < NPROC && s.proc[p].pc.WaitScan?
    ensures Have(s, p) && s.proc[p].parent != Of(p)
    ensures forall c: nat :: c < NPROC && s.proc[c].parent == Of(p) && Seen(s.proc[p].pc, c) ==> !ZombieChild(s, p, c)
  {
    assert One(s, p);
    forall c: nat | c < NPROC && s.proc[c].parent == Of(p) && Seen(s.proc[p].pc, c) ensures !ZombieChild(s, p, c) {
      assert Pair(s, p, c);
    }
  }

  // Nobody else moves a process in wait's scan on.
  lemma OthersStay(s: Sys, a: Action, p: nat)
    requires Inv(s) && Enabled(s, a) && a.p != p < NPROC && s.proc[p].pc.WaitScan?
    ensures |Apply(s, a).proc| == NPROC && Apply(s, a).proc[p].pc == s.proc[p].pc
  {
    MoveOf(s, a, p);
    hide Inv, Enabled, Apply, StateMove, ParentMove, KilledMove;
  }

  /** wait's havekids is right at the end of its scan. */
  lemma WaitIsRight(s0: Sys, acts: seq<Action>, s: Sys, p: nat)
    requires Init(s0) && Run(s0, acts, s) && p < NPROC
    ensures |s.proc| == NPROC
    ensures s.proc[p].pc.WaitScan? && s.proc[p].pc.k >= NPROC ==> (s.proc[p].pc.have <==> HasAnyChild(s, p))
  {
    InitInv(s0);
    RunInv(s0, acts, s);
    hide Run, Init, Alone, Two;
    assert Have(s, p);
  }

  // From x to y under a step of process q, whose place was pc and is pc': how the state of process c
  // may change, and by whom.
  predicate StateMove(x: Proc, y: Proc, c: nat, q: nat, pc: Pc, pc': Pc) {
    match (x.state, y.state)
    case (Unused, Used) => pc.User? && pc' == ForkCopy(c)
    case (Used, Unused) => pc == ForkCopy(c) && pc' == User(Failed) && y == EMPTY
    case (Used, Runnable) => pc == ForkRun(c) && pc' == User(Child(c)) && y.pc == User(Zero) && y.parent == Of(q)
    case (Runnable, Running) => q == c
    case (Running, Runnable) => q == c
    case (Running, Sleeping) => q == c
    case (Sleeping, Runnable) => true
    case (Running, Zombie) => q == c && x.parent.Of?
    case (Zombie, Unused) => x.parent == Of(q) && pc.WaitScan? && pc' == User(Child(c)) && y == EMPTY
    case _ => x.state == y.state
  }

  // A parent is given by fork, taken over by initproc from a parent in exit, or gone with the process.
  predicate ParentMove(x: Proc, y: Proc, c: nat, q: nat, pc: Pc) {
    || y.parent == x.parent
    || (x.parent == Nobody && y.parent == Of(q) && pc == ForkSet(c))
    || (x.parent == Of(q) && y.parent == Of(INIT) && pc == Reparent(c))
    || (x.state == Zombie && y == EMPTY)
  }

  predicate KilledMove(x: Proc, y: Proc, c: nat, a: Action) {
    && (x.killed && !y.killed ==> y == EMPTY && x.state in {Used, Zombie})
    && (y.killed && !x.killed ==> a == Kill(c)) && (a == Kill(c) ==> y.killed && y.state != Sleeping)
  }

  /** The life of a process c, over every step of every run: made by a fork and then either given up
      or started, with 0 as its answer and its pid as its parent's; at last a zombie without children,
      reaped by its parent's wait.  Being killed lasts, and rouses a sleeper. */
  lemma Lifecycle(s0: Sys, acts: seq<Action>, s: Sys, a: Action, c: nat)
    requires Init(s0) && Run(s0, acts, s) && Enabled(s, a) && c < NPROC
    ensures |s.proc| == |Apply(s, a).proc| == NPROC && a.p < NPROC
    ensures var s', q := Apply(s, a), a.p; var x, y, pc := s.proc[c], s'.proc[c], s.proc[q].pc;
      && StateMove(x, y, c, q, pc, s'.proc[q].pc) && ParentMove(x, y, c, q, pc) && KilledMove(x, y, c, a)
    ensures Apply(s, a).proc[c].state == Zombie ==> !HasAnyChild(Apply(s, a), c)
  {
    InitInv(s0);
    RunInv(s0, acts, s);
    hide *;
    InvSizes(s, a);
    MoveOf(s, a, c);
    MovesIs(s, a, c);
    NextInv(s, a);
    if Apply(s, a).proc[c].state == Zombie { ZombieChildless(Apply(s, a), c); }
  }

  // A step of a is a move of process c.
  ghost predicate Moves(s: Sys, a: Action, c: nat)
    requires Enabled(s, a)
  {
    && |s.proc| == |Apply(s, a).proc| == NPROC && a.p < NPROC && c < NPROC
    && var s', q := Apply(s, a), a.p; var x, y, pc := s.proc[c], s'.proc[c], s.proc[q].pc;
      && StateMove(x, y, c, q, pc, s'.proc[q].pc) && ParentMove(x, y, c, q, pc) && KilledMove(x, y, c, a)
      && (q != c && x.pc.WaitScan? ==> y.pc == x.pc)
  }

  // What the invariant says of the process that takes the step, and of process c.
  ghost predicate Known(s: Sys, q: nat, c: nat) {
    |s.proc| == NPROC && q < NPROC && c < NPROC && One(s, q) && One(s, c) && (q != c ==> Around(s, q, c))
  }

  lemma KnownOf(s: Sys, q: nat, c: nat)
    requires Inv(s) && q < NPROC && c < NPROC
    ensures Known(s, q, c)
  {
    hide Alone, Two;
  }

  lemma MoveOf(s: Sys, a: Action, c: nat)
    requires Inv(s) && Enabled(s, a) && c < NPROC
    ensures Moves(s, a, c)
  {
    hide *;
    InvSizes(s, a);
    KnownOf(s, a.p, c);
    if ByAlloc(a) {
      AllocMoves(s, a, c);
    } else if a.ForkFail? {
      FailMoves(s, a, c);
    } else if ByFork(a) {
      ForkMoves(s, a, c);
    } else if ByScan(a) {
      ScanMoves(s, a, c);
    } else if ByExit(a) {
      ExitMoves(s, a, c);
    } else if ByWait(a) {
      ReapMoves(s, a, c);
    } else if BySleep(a) {
      SleepMoves(s, a, c);
    } else {
      OtherMoves(s, a, c);
    }
  }

  predicate ByAlloc(a: Action) { a.ForkAlloc? || a.ForkUnlock? }

  predicate ByFork(a: Action) { a.ForkTake? || a.ForkParent? || a.ForkRelease? || a.ForkStart? }

  predicate ByScan(a: Action) { a.ReparentOne? || a.ReWakeOne? || a.ExitWakeOne? }

  predicate ByExit(a: Action) {
    a.ExitTake? || a.ExitCall? || a.ExitLock? || a.ExitZombie? || a.ExitUnlock? || a.ExitDone?
  }

  predicate ByWait(a: Action) {
    a.WaitTake? || a.WaitOne? || a.WaitEnd?
  }

  predicate BySleep(a: Action) {
    a.SleepLock? || a.SleepUnlock? || a.SleepSet? || a.SleepSwitched? || a.SleepResume? ||
    a.SleepTidied? || a.SleepTake?
  }

  lemma AllocMoves(s: Sys, a: Action, c: nat)
    requires Enabled(s, a) && Known(s, a.p, c) && ByAlloc(a)
    ensures Moves(s, a, c)
  {
  }

  lemma FailMoves(s: Sys, a: Action, c: nat)
    requires Enabled(s, a) && Known(s, a.p, c) && a.ForkFail?
    ensures Moves(s, a, c)
  {
  }

  lemma ScanMoves(s: Sys, a: Action, c: nat)
    requires Enabled(s, a) && Known(s, a.p, c) && ByScan(a)
    ensures Moves(s, a, c)
  {
  }

  lemma ForkMoves(s: Sys, a: Action, c: nat)
    requires Enabled(s, a) && Known(s, a.p, c) && ByFork(a)
    ensures Moves(s, a, c)
  {
  }

  lemma ExitMoves(s: Sys, a: Action, c: nat)
    requires Enabled(s, a) && Known(s, a.p, c) && ByExit(a)
    ensures Moves(s, a, c)
  {
  }

  lemma ReapMoves(s: Sys, a: Action, c: nat)
    requires Enabled(s, a) && Known(s, a.p, c) && ByWait(a)
    ensures Moves(s, a, c)
  {
  }

  lemma SleepMoves(s: Sys, a: Action, c: nat)
    requires Enabled(s, a) && Known(s, a.p, c) && BySleep(a)
    ensures Moves(s, a, c)
  {
  }

  lemma OtherMoves(s: Sys, a: Action, c: nat)
    requires Enabled(s, a) && Known(s, a.p, c)
    requires !ByAlloc(a) && !a.ForkFail? && !ByFork(a) && !ByScan(a) && !ByExit(a) && !ByWait(a) && !BySleep(a)
    ensures Moves(s, a, c)
  {
  }

  lemma MovesIs(s: Sys, a: Action, c: nat)
    requires Enabled(s, a) && Moves(s, a, c)
    ensures |s.proc| == |Apply(s, a).proc| == NPROC && a.p < NPROC && c < NPROC
    ensures var s', q := Apply(s, a), a.p; var x, y, pc := s.proc[c], s'.proc[c], s.proc[q].pc;
      && StateMove(x, y, c, q, pc, s'.proc[q].pc) && ParentMove(x, y, c, q, pc) && KilledMove(x, y, c, a)
  {
    hide Apply, StateMove, ParentMove, KilledMove;
  }

  lemma ZombieChildless(s: Sys, p: nat)
    requires Inv(s) && p < NPROC && s.proc[p].state == Zombie
    ensures !HasAnyChild(s, p)
  {
    assert One(s, p);
    forall c: nat | c < NPROC ensures s.proc[c].parent != Of(p) {
      assert One(s, c) && Pair(s, p, c);
    }
  }

  /** wait_lock excludes: of the code it protects at most one process is executing any, and it is
      the holder. */
  lemma WaitLockExcludes(s0: Sys, acts: seq<Action>, s: Sys, p: nat, q: nat)
    requires Init(s0) && Run(s0, acts, s) && p < NPROC && q < NPROC
    ensures |s.proc| == NPROC && (HoldsWait(s.proc[p].pc) ==> s.waitLock == By(p))
    ensures HoldsWait(s.proc[p].pc) && HoldsWait(s.proc[q].pc) ==> p == q
  {
    InitInv(s0);
    RunInv(s0, acts, s);
    hide Run, Init;
    assert One(s, p) && One(s, q);
  }
}
