/** What the log promises of whole runs: crash atomicity, group commit, and log space. */
module LogSafety {
  import opened LogProtocol
  import opened LogInvariant

  // ---------- runs ----------

  // states[0] is a freshly mounted disk and acts[i] leads from states[i] to states[i + 1].
  ghost predicate IsRun(g: Layout, states: seq<State>, acts: seq<Action>) {
    && |states| == |acts| + 1
    && Init(g, states[0])
    && (forall i :: 0 <= i < |acts| ==>
        Typed(g, states[i]) && Enabled(g, states[i], acts[i])
        && states[i + 1] == Next(g, states[i], acts[i]))
  }

  lemma {:induction false} RunInv(g: Layout, states: seq<State>, acts: seq<Action>, n: nat)
    requires IsRun(g, states, acts) && n < |states|
    ensures Inv(g, states[n])
  {
    hide Init, Inv, Typed, Next, Enabled;
    if n == 0 {
      InitInv(g, states[0]);
    } else {
      RunInv(g, states, acts, n - 1);
      NextInv(g, states[n - 1], acts[n - 1]);
    }
  }

  /** Crash safety of whole runs.  Wherever a run stops, also between two disk writes of a
      commit or of a recovery, the disk stands for the file system at mount with the writes
      of all groups committed so far and nothing else.  A group's writes all belong to
      operations of that group, no operation is in two groups, and one that is still
      running is in no committed group. */
  lemma RecoveredIsCommittedGroups(g: Layout, states: seq<State>, acts: seq<Action>, n: nat)
    requires IsRun(g, states, acts) && n < |states|
    ensures var s := states[n];
      && DiskOk(g, s.disk)
      && Redo(g, s.disk) == ApplyGroups(s.base, s.hist)
      && (forall i :: 0 <= i < |s.hist| ==> OwnWrites(s.hist[i]))
      && (forall i, j :: 0 <= i < j < |s.hist| ==> s.hist[i].ops !! s.hist[j].ops)
      && (forall i, k :: 0 <= i < |s.hist| && 0 <= k < |s.ops| ==> s.ops[k].id !in s.hist[i].ops)
  {
    RunInv(g, states, acts, n);
  }

  /** The committed groups grow only by Seal, only when no operation is running, and then
      by the whole open transaction: every operation that began in it has ended. */
  lemma OnlySealCommits(g: Layout, s: State, a: Action)
    requires Inv(g, s) && Enabled(g, s, a)
    ensures Typed(g, s)
    ensures var s' := Next(g, s, a);
      if a.Seal? then s'.hist == s.hist + [s.current] && s.ops == [] && Committed(s') == View(s)
      else s'.hist == s.hist && s'.base == s.base
  {
    hide *;
    InvParts(g, s);
    HistStep(g, s, a);
    if a.Seal? {
      MeaningSeal(g, s);
    }
  }

  lemma HistStep(g: Layout, s: State, a: Action)
    requires Typed(g, s) && Enabled(g, s, a)
    ensures a.Seal? ==> s.phase.CopyToLog?
    ensures var s' := Next(g, s, a);
      s'.base == s.base && s'.hist == if a.Seal? then s.hist + [s.current] else s.hist
  {
    hide DiskOk, Loggable, PutHead;
  }

  // acts leads from states[0], which need not be initial.
  ghost predicate IsPath(g: Layout, states: seq<State>, acts: seq<Action>) {
    && |states| == |acts| + 1
    && (forall i :: 0 <= i < |acts| ==>
        Typed(g, states[i]) && Enabled(g, states[i], acts[i])
        && states[i + 1] == Next(g, states[i], acts[i]))
  }

  ghost predicate Sealed(acts: seq<Action>) {
    exists i :: 0 <= i < |acts| && acts[i].Seal?
  }

  // One action of CommitIsAtomic: the open transaction can only be sealed or lost.
  lemma SealedOrLost(g: Layout, s: State, a: Action)
    requires Inv(g, s) && Enabled(g, s, a) && !IsOp(a)
    ensures Typed(g, s)
    ensures var s' := Next(g, s, a);
      && (s'.phase.CopyToLog? ==> s.phase.CopyToLog? && !a.Seal? && View(s') == View(s))
      && (a.Seal? ==> s.phase.CopyToLog? && Committed(s') == View(s))
      && (!a.Seal? ==> Committed(s') == Committed(s))
  {
    hide DiskOk, Loggable, CacheInv, DirtyInv, BudgetInv, HistoryInv, PhaseInv, MeaningInv, ViewInv;
    OnlySealCommits(g, s, a);
  }

  lemma NormalHome(g: Layout, s: State)
    requires Inv(g, s) && s.phase.Normal?
    ensures Home(g, s.disk) == Committed(s)
  {
    forall b | b in s.disk && !g.InLog(b) ensures RedoAt(g, s.disk, b) == s.disk[b] {}
    assert Home(g, s.disk) == Redo(g, s.disk);
  }

  /** Crash atomicity.  From the start of a commit let the commit, other readers, crashes and
      recoveries interleave in any way, crashing between any two disk writes any number of
      times.  The committed file system is then exactly as before the transaction, or exactly
      as after all of it, according to whether its header was written; and once a commit or
      recovery completes, the home blocks are that file system. */
  lemma {:induction false} CommitIsAtomic(g: Layout, states: seq<State>, acts: seq<Action>)
    requires IsPath(g, states, acts) && Inv(g, states[0]) && states[0].phase.CopyToLog?
    requires forall i :: 0 <= i < |acts| ==> !IsOp(acts[i])
    ensures var s := states[|acts|];
      && Inv(g, s)
      && Committed(s) == (if Sealed(acts) then View(states[0]) else Committed(states[0]))
      && (s.phase.CopyToLog? ==> !Sealed(acts) && View(s) == View(states[0]))
      && (s.phase.Normal? ==> Home(g, s.disk) == Committed(s))
  {
    hide Inv, Typed, Enabled, Next, Committed, View, IsOp;
    var n := |acts|;
    if n == 0 { return; }
    CommitIsAtomic(g, states[..n], acts[..n - 1]);
    var s, a := states[n - 1], acts[n - 1];
    SealedOrLost(g, s, a);
    NextInv(g, s, a);
    assert Sealed(acts) <==> Sealed(acts[..n - 1]) || a.Seal? by {
      if Sealed(acts) {
        var i :| 0 <= i < n && acts[i].Seal?;
        assert i < n - 1 ==> acts[..n - 1][i].Seal?;
      }
      if Sealed(acts[..n - 1]) {
        var i :| 0 <= i < n - 1 && acts[..n - 1][i].Seal?;
        assert acts[i].Seal?;
      }
    }
    if states[n].phase.Normal? { NormalHome(g, states[n]); }
  }

  /** Recovery after a crash in any state whatever, interrupted any number of times, ends
      with home blocks equal to the file system committed at the crash. */
  lemma {:induction false} RecoveryRestores(g: Layout, states: seq<State>, acts: seq<Action>)
    requires IsPath(g, states, acts) && Inv(g, states[0])
    requires forall i :: 0 <= i < |acts| ==> IsRecoveryAct(acts[i])
    ensures Inv(g, states[|acts|])
    ensures Committed(states[|acts|]) == Committed(states[0])
    ensures states[|acts|].phase.Normal? ==> Home(g, states[|acts|].disk) == Committed(states[0])
  {
    hide Inv, Typed, Enabled, Next;
    var n := |acts|;
    if n > 0 {
      RecoveryRestores(g, states[..n], acts[..n - 1]);
      NextInv(g, states[n - 1], acts[n - 1]);
      OnlySealCommits(g, states[n - 1], acts[n - 1]);
    }
    if states[n].phase.Normal? { NormalHome(g, states[n]); }
  }

  ghost predicate IsRecoveryAct(a: Action) {
    a.Crash? || a.ReadHead? || a.ReplayOne? || a.ReplayErase?
  }

  // ---------- the cache ----------

  /** Filling, recycling and releasing buffers never changes what bread returns, and only a
      buffer that is pinned or held by a running operation can differ from its disk block. */
  lemma RecyclingIsInvisible(g: Layout, s: State, a: Action, b: nat)
    requires Inv(g, s) && Enabled(g, s, a) && IsLocal(a) && !a.Modify? && b in s.disk
    ensures Typed(g, s) && b in Next(g, s, a).disk
    ensures Next(g, s, a).Logical(b) == s.Logical(b)
    ensures s.Logical(b) != s.disk[b] ==> b in s.pins || (b in s.held && Runs(s.ops, s.held[b]))
  {
  }

  // ---------- log space ----------

  /** Whatever operations do, the log keeps within its region.  While each stays within its
      MAXOPBLOCKS new blocks, the blocks logged and the unused budgets fit in LOGSIZE. */
  lemma Reservation(g: Layout, states: seq<State>, acts: seq<Action>, n: nat)
    requires IsRun(g, states, acts) && n < |states|
    ensures |states[n].lh| <= LOGSIZE == 30 == 3 * MAXOPBLOCKS && |states[n].lh| < g.size
    ensures !states[n].over ==> |states[n].lh| + Budgets(states[n].ops) <= LOGSIZE
    ensures states[n].outstanding == |states[n].ops|
  {
    RunInv(g, states, acts, n);
  }

  /** No lost sleeper: a process asleep in begin_op always has someone left to wake it. */
  lemma SleeperHasWaker(g: Layout, states: seq<State>, acts: seq<Action>, n: nat)
    requires IsRun(g, states, acts) && n < |states|
    ensures states[n].asleep != {} ==> states[n].outstanding > 0 || states[n].Committing()
  {
    RunInv(g, states, acts, n);
  }

  // ---------- when log_write panics ----------

  function CallCount(acts: seq<Action>, p: nat): nat {
    if acts == [] then 0
    else
      var a := acts[|acts| - 1];
      CallCount(acts[..|acts| - 1], p) + if a.LogWrite? && a.p == p then 1 else 0
  }

  lemma OneMore(acts: seq<Action>, a: Action)
    ensures forall p: nat ::
      CallCount(acts + [a], p) == CallCount(acts, p) + if a.LogWrite? && a.p == p then 1 else 0
  {
    assert (acts + [a])[..|acts|] == acts;
  }

  // No operation calls log_write more than MAXOPBLOCKS times, whether absorbed or not.
  ghost predicate FewCalls(acts: seq<Action>) {
    forall p: nat :: CallCount(acts, p) <= MAXOPBLOCKS
  }

  // A run from s ends where operation k calls log_write and meets its first panic.
  ghost predicate Panics(g: Layout, s: State, states: seq<State>, acts: seq<Action>, p: nat, k: nat, b: nat) {
    && IsRun(g, states, acts) && states[0] == s
    && CallsLogWrite(g, states[|acts|], p, k, b) && TooBig(g, states[|acts|])
  }

  // No operation has logged more blocks than it reserved, nor will k by logging b.
  ghost predicate Reserved(s: State, k: nat, b: nat) {
    !s.over && k < |s.ops| && (b in s.lh || s.ops[k].budget > 0)
  }

  // Operations keep to their reservation in blocks.
  ghost predicate NeverPanicsWhenReserved(g: Layout, s: State) {
    forall states: seq<State>, acts: seq<Action>, p: nat, k: nat, b: nat ::
      Panics(g, s, states, acts, p, k, b) ==> !Reserved(states[|acts|], k, b)
  }

  // Operations keep to their reservation in calls, the panicking one included.
  ghost predicate NeverPanicsOnFewCalls(g: Layout, s: State) {
    forall states: seq<State>, acts: seq<Action>, p: nat, k: nat, b: nat ::
      FewCalls(acts + [LogWrite(p, k, b)]) ==> !Panics(g, s, states, acts, p, k, b)
  }

  // Of these, calls that add a block do not panic.
  ghost predicate NeverPanicsOnNewBlock(g: Layout, s: State) {
    forall states: seq<State>, acts: seq<Action>, p: nat, k: nat, b: nat ::
      Panics(g, s, states, acts, p, k, b) && Reserved(states[|acts|], k, b) ==> b in states[|acts|].lh
  }

  lemma BudgetsAtLeast(ops: seq<Op>, k: nat)
    requires k < |ops|
    ensures ops[k].budget <= Budgets(ops)
  {
    BudgetsUpdate(ops, k, ops[k].(budget := 0));
  }

  lemma RoomyNotTooBig(g: Layout, states: seq<State>, acts: seq<Action>, k: nat)
    requires IsRun(g, states, acts) && g.size > LOGSIZE && !states[|acts|].over
    requires k < |states[|acts|].ops| && states[|acts|].ops[k].budget > 0
    ensures !TooBig(g, states[|acts|])
  {
    Reservation(g, states, acts, |acts|);
    BudgetsAtLeast(states[|acts|].ops, k);
  }

  // Calls so far and budget left together cover MAXOPBLOCKS, so that few calls overdraw nothing;
  // nobody to come has called yet.
  ghost predicate Charged(s: State, acts: seq<Action>) {
    && (forall k :: 0 <= k < |s.ops| ==> s.ops[k].budget + CallCount(acts, s.ops[k].id) >= MAXOPBLOCKS)
    && (forall p: nat :: p >= s.nextOp ==> CallCount(acts, p) == 0)
    && (FewCalls(acts) ==> !s.over)
  }

  lemma FewBefore(acts: seq<Action>, a: Action)
    requires FewCalls(acts + [a])
    ensures FewCalls(acts)
  {
    OneMore(acts, a);
    forall p: nat ensures CallCount(acts, p) <= MAXOPBLOCKS {
      assert CallCount(acts + [a], p) <= MAXOPBLOCKS;
    }
  }

  // What an action does to operations and their budgets.
  ghost predicate OpsMoved(s: State, a: Action, s': State) {
    && (a.Begin? ==> s'.ops == s.ops + [Op(s.nextOp, MAXOPBLOCKS)] && s'.nextOp == s.nextOp + 1)
    && (!a.Begin? ==> s'.nextOp == s.nextOp)
    && (a.End? ==> a.k < |s.ops| && s'.ops == s.ops[..a.k] + s.ops[a.k + 1..])
    && (a.LogWrite? ==> a.k < |s.ops| && s.ops[a.k].id == a.p && Charges(s.ops, a.k, s'.ops))
    && (!IsOp(a) ==> s'.ops == s.ops || s'.ops == [])
    && (s'.over ==> s.over || (a.LogWrite? && s.ops[a.k].budget == 0))
  }

  lemma OpsStep(g: Layout, s: State, a: Action)
    requires Typed(g, s) && Enabled(g, s, a)
    ensures OpsMoved(s, a, Next(g, s, a))
  {
    if a.End? {
      EndFrame(g, s, a.k);
      NotOver(g, s, a);
      hide Typed, Enabled, Next;
    } else if a.LogWrite? {
      hide DiskOk, Loggable;
    } else {
      NotOver(g, s, a);
      hide DiskOk, Loggable, PutHead;
    }
  }

  lemma NotOver(g: Layout, s: State, a: Action)
    requires Typed(g, s) && Enabled(g, s, a) && !a.LogWrite?
    ensures Next(g, s, a).over ==> s.over
    ensures !a.Begin? ==> Next(g, s, a).nextOp == s.nextOp
  {
    hide DiskOk, Loggable, PutHead;
  }

  ghost predicate Charges(ops: seq<Op>, k: nat, ops': seq<Op>) {
    k < |ops| && exists m: nat :: m + 1 >= ops[k].budget && ops' == ops[k := ops[k].(budget := m)]
  }

  lemma {:induction false} ChargedMoved(s: State, acts: seq<Action>, a: Action, s': State)
    requires Charged(s, acts) && OpsMoved(s, a, s') && forall k :: 0 <= k < |s.ops| ==> s.ops[k].id < s.nextOp
    ensures Charged(s', acts + [a])
  {
    OneMore(acts, a);
    hide CallCount;
    if FewCalls(acts + [a]) {
      FewBefore(acts, a);
      assert a.LogWrite? ==> CallCount(acts + [a], a.p) <= MAXOPBLOCKS;
    }
  }

  lemma {:induction false} ChargedStep(g: Layout, s: State, acts: seq<Action>, a: Action)
    requires Inv(g, s) && Typed(g, s) && Enabled(g, s, a) && Charged(s, acts)
    ensures Charged(Next(g, s, a), acts + [a])
  {
    hide *;
    IdsBelow(g, s);
    OpsStep(g, s, a);
    ChargedMoved(s, acts, a, Next(g, s, a));
  }

  lemma IdsBelow(g: Layout, s: State)
    requires Inv(g, s)
    ensures forall k :: 0 <= k < |s.ops| ==> s.ops[k].id < s.nextOp
  {
    assert HistoryInv(s);
  }

  lemma {:induction false} RunCharged(g: Layout, states: seq<State>, acts: seq<Action>)
    requires IsRun(g, states, acts)
    ensures Charged(states[|acts|], acts)
  {
    hide Typed, Enabled, Next, Inv;
    var n := |acts|;
    if n > 0 {
      RunCharged(g, states[..n], acts[..n - 1]);
      RunInv(g, states, acts, n - 1);
      ChargedStep(g, states[n - 1], acts[..n - 1], acts[n - 1]);
      assert acts == acts[..n - 1] + [acts[n - 1]];
    }
  }

  lemma InvTyped(g: Layout, s: State)
    requires Inv(g, s)
    ensures Typed(g, s)
  {
  }

  lemma Extend(g: Layout, states: seq<State>, acts: seq<Action>, a: Action)
    returns (states': seq<State>, acts': seq<Action>)
    requires IsRun(g, states, acts)
    requires Enabled(g, states[|acts|], a)
    ensures Typed(g, states[|acts|])
    ensures IsRun(g, states', acts') && acts' == acts + [a]
    ensures states'[0] == states[0] && states'[|acts'|] == Next(g, states[|acts|], a)
  {
    hide Init, Inv, Typed, Next, Enabled;
    RunInv(g, states, acts, |acts|);
    InvTyped(g, states[|acts|]);
    states', acts' := states + [Next(g, states[|acts|], a)], acts + [a];
  }

  // The budget left to the i-th of three operations when n blocks have been logged in order.
  function Left(i: nat, n: nat): nat {
    if n <= 10 * i then 10 else if n >= 10 * i + 10 then 0 else 10 * i + 10 - n
  }

  // Three operations are running and have logged the first n of the given blocks.
  ghost predicate Filled(g: Layout, s: State, blocks: seq<nat>, n: nat) {
    && n <= |blocks| && n <= LOGSIZE
    && s.phase.Normal? && s.lh == blocks[..n] && s.outstanding == 3 && s.held == map[] && !s.over
    && s.ops == [Op(0, Left(0, n)), Op(1, Left(1, n)), Op(2, Left(2, n))]
    && (forall i :: 0 <= i < |blocks| ==> blocks[i] in s.disk && !g.InLog(blocks[i]))
  }

  // One call for each block logged.
  ghost predicate OncePerBlock(acts: seq<Action>, n: nat) {
    forall p: nat :: CallCount(acts, p) == if p < 3 then 10 - Left(p, n) else 0
  }

  ghost predicate CanFill(g: Layout, s: State, blocks: seq<nat>) {
    && Init(g, s) && Head(s.disk[g.start]) == []
    && |blocks| == LOGSIZE && Distinct(blocks)
    && (forall i :: 0 <= i < |blocks| ==> blocks[i] in s.disk && !g.InLog(blocks[i]))
  }

  // Mount a disk with an empty log.
  lemma Mount(g: Layout, s: State)
    returns (states: seq<State>, acts: seq<Action>)
    requires Init(g, s) && Head(s.disk[g.start]) == []
    ensures IsRun(g, states, acts) && states[0] == s
    ensures forall p: nat :: CallCount(acts, p) == 0
    ensures var t := states[|acts|];
      t.phase.Normal? && t.lh == [] && t.ops == [] && t.outstanding == 0 && t.nextOp == 0
      && t.held == map[] && t.disk.Keys == s.disk.Keys && !t.over
  {
    hide Inv, Find, Loggable;
    states, acts := [s], [];
    OneMore(acts, ReadHead);
    states, acts := Extend(g, states, acts, ReadHead);
    OneMore(acts, ReplayErase);
    states, acts := Extend(g, states, acts, ReplayErase);
  }

  lemma ThreeBegin(g: Layout, s: State, blocks: seq<nat>)
    returns (states: seq<State>, acts: seq<Action>)
    requires CanFill(g, s, blocks)
    ensures IsRun(g, states, acts) && states[0] == s
    ensures Filled(g, states[|acts|], blocks, 0) && OncePerBlock(acts, 0)
  {
    hide Inv, Find, Loggable, DiskOk, Typed, CallCount;
    states, acts := Mount(g, s);
    OneMore(acts, Begin);
    states, acts := Extend(g, states, acts, Begin);
    OneMore(acts, Begin);
    states, acts := Extend(g, states, acts, Begin);
    OneMore(acts, Begin);
    states, acts := Extend(g, states, acts, Begin);
    assert states[|acts|].ops == [Op(0, 10), Op(1, 10), Op(2, 10)];
  }

  // The k-th operation has the next block's buffer and is about to log it.
  ghost predicate AtNext(g: Layout, s: State, blocks: seq<nat>, n: nat, k: nat) {
    && n < |blocks| && k < 3 && Filled(g, s.(held := map[]), blocks, n)
    && s.held == map[blocks[n] := k] && blocks[n] in s.cache
  }

  lemma TakeBuffer(g: Layout, states: seq<State>, acts: seq<Action>, blocks: seq<nat>, n: nat, k: nat)
    returns (states': seq<State>, acts': seq<Action>)
    requires IsRun(g, states, acts) && Filled(g, states[|acts|], blocks, n) && n < |blocks| && k < 3
    ensures IsRun(g, states', acts') && states'[0] == states[0]
    ensures AtNext(g, states'[|acts'|], blocks, n, k)
    ensures forall p: nat :: CallCount(acts', p) == CallCount(acts, p)
  {
    hide Inv, Typed, CallCount;
    var b := blocks[n];
    OneMore(acts, Read(b));
    states', acts' := Extend(g, states, acts, Read(b));
    OneMore(acts', Lock(k, b));
    states', acts' := Extend(g, states', acts', Lock(k, b));
  }

  lemma LogNext(g: Layout, s: State, blocks: seq<nat>, n: nat, k: nat)
    requires AtNext(g, s, blocks, n, k) && Distinct(blocks) && n < LOGSIZE && n + 1 < g.size && k == n / 10
    ensures Enabled(g, s, LogWrite(k, k, blocks[n]))
    ensures Typed(g, s) ==> Logged(g, Next(g, s, LogWrite(k, k, blocks[n])), blocks, n, k)
  {
    hide Typed;
    var b := blocks[n];
    assert Find(s.lh, b) == |s.lh|;
    assert blocks[..n + 1] == blocks[..n] + [b];
  }

  // It has logged the block and is about to release the buffer.
  ghost predicate Logged(g: Layout, s: State, blocks: seq<nat>, n: nat, k: nat) {
    && n < |blocks| && Filled(g, s.(held := map[]), blocks, n + 1)
    && s.held == map[blocks[n] := k] && blocks[n] !in s.dirty
  }

  lemma UnlockNext(g: Layout, s: State, blocks: seq<nat>, n: nat, k: nat)
    requires Logged(g, s, blocks, n, k)
    ensures Enabled(g, s, Unlock(k, blocks[n]))
    ensures Typed(g, s) ==> Filled(g, Next(g, s, Unlock(k, blocks[n])), blocks, n + 1)
  {
    hide Typed, Left;
    assert map[blocks[n] := k] - {blocks[n]} == map[];
  }

  lemma FillOne(g: Layout, states: seq<State>, acts: seq<Action>, blocks: seq<nat>, n: nat)
    returns (states': seq<State>, acts': seq<Action>)
    requires IsRun(g, states, acts) && Filled(g, states[|acts|], blocks, n) && OncePerBlock(acts, n)
    requires Distinct(blocks) && n < |blocks| && n < LOGSIZE && n + 1 < g.size
    ensures IsRun(g, states', acts') && states'[0] == states[0]
    ensures Filled(g, states'[|acts'|], blocks, n + 1) && OncePerBlock(acts', n + 1)
  {
    hide Inv, Typed, CallCount, AtNext, Logged, Filled, Enabled, Next, Distinct;
    var b, k := blocks[n], n / 10;
    states', acts' := TakeBuffer(g, states, acts, blocks, n, k);
    LogNext(g, states'[|acts'|], blocks, n, k);
    OneMore(acts', LogWrite(k, k, b));
    states', acts' := Extend(g, states', acts', LogWrite(k, k, b));
    UnlockNext(g, states'[|acts'|], blocks, n, k);
    OneMore(acts', Unlock(k, b));
    states', acts' := Extend(g, states', acts', Unlock(k, b));
  }

  lemma {:induction false} Fill(g: Layout, s: State, blocks: seq<nat>, n: nat)
    returns (states: seq<State>, acts: seq<Action>)
    requires CanFill(g, s, blocks) && n <= LOGSIZE && n < g.size
    ensures IsRun(g, states, acts) && states[0] == s
    ensures Filled(g, states[|acts|], blocks, n) && OncePerBlock(acts, n)
  {
    if n == 0 {
      states, acts := ThreeBegin(g, s, blocks);
    } else {
      states, acts := Fill(g, s, blocks, n - 1);
      states, acts := FillOne(g, states, acts, blocks, n - 1);
    }
  }

  // A log region of at most LOGSIZE blocks: the third operation logs one more new block, in
  // at most its tenth call.
  lemma SmallLogPanics(g: Layout, s: State, blocks: seq<nat>)
    returns (states: seq<State>, acts: seq<Action>)
    requires CanFill(g, s, blocks) && g.size <= LOGSIZE
    ensures Panics(g, s, states, acts, 2, 2, blocks[g.size - 1])
    ensures FewCalls(acts + [LogWrite(2, 2, blocks[g.size - 1])])
    ensures blocks[g.size - 1] !in states[|acts|].lh && Reserved(states[|acts|], 2, blocks[g.size - 1])
  {
    var n := g.size - 1;
    states, acts := Fill(g, s, blocks, n);
    states, acts := TakeBuffer(g, states, acts, blocks, n, 2);
    OneMore(acts, LogWrite(2, 2, blocks[n]));
  }

  // Any other: three operations log ten blocks each, and the first logs its first one again.
  lemma FullLogPanics(g: Layout, s: State, blocks: seq<nat>)
    returns (states: seq<State>, acts: seq<Action>)
    requires CanFill(g, s, blocks) && g.size > LOGSIZE
    ensures Panics(g, s, states, acts, 0, 0, blocks[0])
    ensures blocks[0] in states[|acts|].lh && Reserved(states[|acts|], 0, blocks[0])
  {
    hide Inv, Typed, IsRun, DiskOk, Loggable;
    states, acts := Fill(g, s, blocks, LOGSIZE);
    RunInv(g, states, acts, |acts|);
    ListedIsCached(g, states[|acts|], 0);
    states, acts := Extend(g, states, acts, Lock(0, blocks[0]));
  }

  lemma ListedIsCached(g: Layout, s: State, i: nat)
    requires Inv(g, s) && s.phase.Normal? && i < |s.lh|
    ensures s.lh[i] in s.cache
  {
    assert PhaseInv(g, s) && s.lh[i] in Members(s.lh);
    assert CacheInv(g, s);
  }

  /** Operations that keep to their reservation counted in blocks, as begin_op counts it, are
      not safe with any log size: the check comes before absorption, so once three operations
      have filled the log, logging one of its blocks again panics. */
  lemma ReservationDoesNotSuffice(g: Layout, s: State, blocks: seq<nat>)
    requires CanFill(g, s, blocks)
    ensures !NeverPanicsWhenReserved(g, s)
  {
    if g.size > LOGSIZE {
      var states, acts := FullLogPanics(g, s, blocks);
      assert Panics(g, s, states, acts, 0, 0, blocks[0]);
    } else {
      var states, acts := SmallLogPanics(g, s, blocks);
      assert Panics(g, s, states, acts, 2, 2, blocks[g.size - 1]);
    }
  }

  /** If no operation makes more than MAXOPBLOCKS calls, absorbed ones included, log_write never
      meets its first panic exactly when the log region is larger than LOGSIZE blocks.  mkfs
      makes it LOGSIZE blocks, header included. */
  lemma FewCallsNeverPanicIffRoomy(g: Layout, s: State, blocks: seq<nat>)
    requires CanFill(g, s, blocks)
    ensures NeverPanicsOnFewCalls(g, s) <==> g.size > LOGSIZE
  {
    if g.size > LOGSIZE {
      forall states: seq<State>, acts: seq<Action>, p: nat, k: nat, b: nat |
        Panics(g, s, states, acts, p, k, b) && FewCalls(acts + [LogWrite(p, k, b)])
        ensures false
      {
        RunCharged(g, states, acts);
        FewBefore(acts, LogWrite(p, k, b));
        OneMore(acts, LogWrite(p, k, b));
        assert CallCount(acts + [LogWrite(p, k, b)], p) <= MAXOPBLOCKS;
        RoomyNotTooBig(g, states, acts, k);
      }
    } else {
      var states, acts := SmallLogPanics(g, s, blocks);
    }
  }

  /** The same condition decides whether a call that adds a block within the reservation can panic.
      So with a larger log every panic is one on a block that would have been absorbed. */
  lemma NewBlocksNeverPanicIffRoomy(g: Layout, s: State, blocks: seq<nat>)
    requires CanFill(g, s, blocks)
    ensures NeverPanicsOnNewBlock(g, s) <==> g.size > LOGSIZE
  {
    if g.size > LOGSIZE {
      forall states: seq<State>, acts: seq<Action>, p: nat, k: nat, b: nat |
        Panics(g, s, states, acts, p, k, b) && Reserved(states[|acts|], k, b)
        ensures b in states[|acts|].lh
      {
        if b !in states[|acts|].lh {
          assert Find(states[|acts|].lh, b) == |states[|acts|].lh|;
          RoomyNotTooBig(g, states, acts, k);
        }
      }
    } else {
      var states, acts := SmallLogPanics(g, s, blocks);
      assert Panics(g, s, states, acts, 2, 2, blocks[g.size - 1]);
    }
  }
}
