/**
 log.c itself: `struct log` and the functions that update it, over a disk and its buffers.
 `state` is the protocol state the fields stand for.  `states` and `acts` record the path of
 protocol actions the calls have taken, one action per disk write or critical section, so
 what is proved of all protocol paths holds of every disk these loops pass through.
*/
module Log {
  import opened LogProtocol
  import opened LogInvariant
  import opened LogSafety

  function Repeat(a: Action, n: nat): (r: seq<Action>)
    ensures |r| == n && forall i :: 0 <= i < n ==> r[i] == a
  {
    seq(n, i => a)
  }

  // The disk writes of commit() with n logged blocks.
  function CommitActs(n: nat): seq<Action> {
    if n == 0 then [] else Repeat(CopyOne, n) + [Seal] + Repeat(InstallOne, n) + [Erase]
  }

  function RecoveryActs(n: nat): seq<Action> {
    [ReadHead] + Repeat(ReplayOne, n) + [ReplayErase]
  }

  // How log_write ends.
  datatype Outcome = Listed | PanicTooBig | PanicOutside

  class LogSystem {
    const g: Layout
    var disk: Disk
    var cache: Disk
    var pins: set<nat>
    var lh: seq<nat>
    var outstanding: nat
    var committing: bool
    var asleep: set<nat>
    ghost var state: State
    ghost var states: seq<State>
    ghost var acts: seq<Action>

    ghost predicate Rep()
      reads this
    {
      && state.disk == disk && state.cache == cache && state.pins == pins
      && state.lh == lh && state.outstanding == outstanding && state.asleep == asleep
      && state.Committing() == committing
    }

    ghost predicate Recorded()
      reads this
    {
      && |states| == |acts| + 1 && states[|acts|] == state && IsPath(g, states, acts)
      && (forall i :: 0 <= i < |states| ==> Inv(g, states[i]))
    }

    ghost predicate Valid()
      reads this
    {
      Rep() && Recorded()
    }

    constructor (g: Layout, disk: Disk)
      requires DiskOk(g, disk)
      ensures Valid() && this.g == g && this.disk == disk && state.phase.Boot?
      ensures Init(g, state) && acts == []
    {
      this.g, this.disk, this.cache, this.pins := g, disk, map[], {};
      this.lh, this.outstanding, this.committing, this.asleep := [], 0, false, {};
      ghost var s := State(disk, map[], map[], {}, {}, [], 0, Boot, {}, [], 0, false, Redo(g, disk), [],
                           NewTransaction());
      this.state, this.states, this.acts := s, [s], [];
      InitInv(g, s);
    }

    // Record one protocol action.
    ghost method Take(a: Action)
      requires Recorded() && Enabled(g, state, a)
      modifies `state, `states, `acts
      ensures Typed(g, old(state)) && state == Next(g, old(state), a)
      ensures Recorded() && acts == old(acts) + [a] && states == old(states) + [state]
    {
      hide Enabled, Next, Inv, Typed;
      NextInv(g, state, a);
      state := Next(g, state, a);
      states, acts := states + [state], acts + [a];
    }

    // The buffer of a block, read from disk if it is not cached.
    method Bread(b: nat) returns (v: Block)
      requires b in disk
      modifies `cache
      ensures v == (if b in old(cache) then old(cache)[b] else disk[b])
      ensures cache == old(cache)[b := v]
    {
      if b !in cache {
        cache := cache[b := disk[b]];
      }
      v := cache[b];
    }

    method Bwrite(b: nat, v: Block)
      modifies `cache, `disk
      ensures cache == old(cache)[b := v] && disk == old(disk)[b := v]
    {
      cache := cache[b := v];
      disk := disk[b := v];
    }

    // One iteration of write_log: read both blocks, copy, write the log slot.
    method CopyToSlot(tail: nat)
      requires Valid() && state.phase == CopyToLog(tail) && tail < |lh|
      modifies `disk, `cache, `state, `states, `acts
      ensures Valid() && state.phase == CopyToLog(tail + 1)
      ensures acts == old(acts) + [CopyOne] && states == old(states) + [state]
    {
      hide Inv, Typed, Enabled, Next, IsPath, Loggable, DiskOk;
      CopyOneIs(g, state);
      var to := Bread(g.Slot(tail));
      var from := Bread(lh[tail]);
      Bwrite(g.Slot(tail), from);
      Take(CopyOne);
      assert cache == state.cache;
    }

    method WriteLog()
      requires Valid() && state.phase == CopyToLog(0)
      modifies `disk, `cache, `state, `states, `acts
      ensures Valid() && state.phase == CopyToLog(|lh|)
      ensures acts == old(acts) + Repeat(CopyOne, |lh|) && old(states) <= states
    {
      hide Inv, Rep, IsPath;
      var tail := 0;
      while tail < |lh|
        invariant tail <= |lh| && Valid() && state.phase == CopyToLog(tail)
        invariant acts == old(acts) + Repeat(CopyOne, tail) && old(states) <= states
      {
        CopyToSlot(tail);
        assert Repeat(CopyOne, tail + 1) == Repeat(CopyOne, tail) + [CopyOne];
        tail := tail + 1;
      }
    }

    // The body of write_head: copy the in-memory header into the header block.
    method FillHead(hb: Block) returns (r: Block)
      requires |lh| <= LOGSIZE
      ensures r == PutHead(hb, lh)
    {
      r := hb[0 := |lh|];
      var i := 0;
      while i < |lh|
        invariant i <= |lh|
        invariant r == [|lh|] + lh[..i] + hb[i + 1..]
      {
        r := r[i + 1 := lh[i]];
        i := i + 1;
      }
    }

    method WriteHead() returns (hb: Block)
      requires g.start in disk && |lh| <= LOGSIZE
      modifies `disk, `cache
      ensures hb == (if g.start in old(cache) then old(cache)[g.start] else old(disk)[g.start])
      ensures disk == old(disk)[g.start := PutHead(hb, lh)]
      ensures cache == old(cache)[g.start := PutHead(hb, lh)]
    {
      hb := Bread(g.start);
      var h := FillHead(hb);
      Bwrite(g.start, h);
    }

    // bread the log slot and its home block, copy, bwrite.
    method CopySlotHome(tail: nat)
      requires tail < |lh| && lh[tail] in disk && g.Slot(tail) in disk && lh[tail] != g.Slot(tail)
      modifies `disk, `cache
      ensures var t, b := g.Slot(tail), lh[tail];
        var v := if t in old(cache) then old(cache)[t] else old(disk)[t];
        disk == old(disk)[b := v] && cache == old(cache)[t := v][b := v]
    {
      var lbuf := Bread(g.Slot(tail));
      var dbuf := Bread(lh[tail]);
      Bwrite(lh[tail], lbuf);
      var t, b := g.Slot(tail), lh[tail];
      assert cache == old(cache)[t := lbuf][b := dbuf][b := lbuf] == old(cache)[t := lbuf][b := lbuf];
    }

    // One iteration of install_trans.
    method InstallBlock(tail: nat, recovering: bool)
      requires Valid() && tail < |lh|
      requires state.phase == if recovering then Replay(tail) else Install(tail)
      modifies `disk, `cache, `pins, `state, `states, `acts
      ensures Valid() && state.phase == if recovering then Replay(tail + 1) else Install(tail + 1)
      ensures acts == old(acts) + [if recovering then ReplayOne else InstallOne]
      ensures states == old(states) + [state]
    {
      hide Inv, Typed, Enabled, Next, IsPath, Loggable, DiskOk, CopyHome;
      InstallIs(g, state);
      CopySlotHome(tail);
      if recovering {
        NextReplay(g, state);
        Take(ReplayOne);
      } else {
        pins := pins - {lh[tail]};
        NextInstall(g, state);
        Take(InstallOne);
      }
    }

    method InstallTrans(recovering: bool)
      requires Valid() && state.phase == if recovering then Replay(0) else Install(0)
      modifies `disk, `cache, `pins, `state, `states, `acts
      ensures Valid() && state.phase == if recovering then Replay(|lh|) else Install(|lh|)
      ensures acts == old(acts) + Repeat(if recovering then ReplayOne else InstallOne, |lh|)
      ensures old(states) <= states
    {
      hide Inv, Rep, IsPath;
      ghost var a := if recovering then ReplayOne else InstallOne;
      var tail := 0;
      while tail < |lh|
        invariant tail <= |lh| && Valid()
        invariant state.phase == if recovering then Replay(tail) else Install(tail)
        invariant acts == old(acts) + Repeat(a, tail) && old(states) <= states
      {
        InstallBlock(tail, recovering);
        assert Repeat(a, tail + 1) == Repeat(a, tail) + [a];
        tail := tail + 1;
      }
    }

    // write_head with the transaction's entries: the commit point.
    method SealHead()
      requires Valid() && state.phase == CopyToLog(|lh|)
      modifies `disk, `cache, `state, `states, `acts
      ensures Valid() && state.phase == Install(0) && acts == old(acts) + [Seal]
      ensures states == old(states) + [state]
    {
      hide Inv, Typed, Enabled, Next, IsPath, Loggable, DiskOk;
      SealIs(g, state);
      var hb := WriteHead();
      Take(Seal);
    }

    // lh.n = 0; write_head.
    method EraseHead(recovering: bool)
      requires Valid() && state.phase == if recovering then Replay(|lh|) else Install(|lh|)
      modifies `disk, `cache, `lh, `state, `states, `acts
      ensures Valid() && lh == [] && state.phase == if recovering then Normal else Finishing
      ensures acts == old(acts) + [if recovering then ReplayErase else Erase]
      ensures states == old(states) + [state]
    {
      hide Inv, Typed, Enabled, Next, IsPath, Loggable, DiskOk;
      EraseIs(g, state);
      lh := [];
      var hb := WriteHead();
      if recovering {
        Take(ReplayErase);
      } else {
        Take(Erase);
      }
    }

    /** commit(): whichever of its disk writes a crash follows, the disk left behind stands
        for the file system without the open transaction up to the header write, and with
        all of it from then on.  When it returns the home blocks hold it. */
    method Commit()
      requires Valid()
      requires state.phase == if |lh| > 0 then CopyToLog(0) else Finishing
      modifies `disk, `cache, `pins, `lh, `state, `states, `acts
      ensures Valid() && lh == [] && state.phase.Finishing?
      ensures acts == old(acts) + CommitActs(|old(lh)|) && old(states) <= states
      ensures forall i :: |old(acts)| <= i <= |acts| ==>
        DiskOk(g, states[i].disk) &&
        Redo(g, states[i].disk) ==
          if i <= |old(acts)| + |old(lh)| then Committed(old(state)) else View(old(state))
      ensures Home(g, disk) == View(old(state))
    {
      hide Inv, IsPath;
      ghost var before := state;
      ghost var from := |acts|;
      ghost var n := |lh|;
      if |lh| > 0 {
        WriteLog();
        SealHead();
        InstallTrans(false);
        EraseHead(false);
        assert Repeat(CopyOne, n) + [Seal] + Repeat(InstallOne, n) + [Erase] == CommitActs(n);
      }
      assert acts == old(acts) + CommitActs(n);
      forall i | from <= i <= |acts|
        ensures DiskOk(g, states[i].disk)
        ensures Redo(g, states[i].disk) ==
          if i <= from + n then Committed(before) else View(before)
      {
        assert states[from] == before;
        CommitPrefix(g, states, acts, from, i, n);
      }
      FinishingHome(g, state);
      assert n > 0 ==> |acts| > from + n;
      assert Redo(g, states[|acts|].disk) == View(before);
    }

    // The loop of read_head.
    method CopyEntries(buf: Block) returns (r: seq<nat>)
      requires HeadOk(buf)
      ensures r == Head(buf)
    {
      r := [];
      var i := 0;
      while i < buf[0]
        invariant i <= buf[0] && r == buf[1..1 + i]
      {
        r := r + [buf[1 + i]];
        i := i + 1;
      }
    }

    method ReadLogHead()
      requires Valid() && state.phase.Boot?
      modifies `cache, `lh, `state, `states, `acts
      ensures Valid() && state.phase == Replay(0) && acts == old(acts) + [ReadHead]
      ensures states == old(states) + [state]
    {
      hide Inv, Typed, Enabled, Next, IsPath, Loggable, DiskOk;
      ReadHeadIs(g, state);
      var buf := Bread(g.start);
      lh := CopyEntries(buf);
      Take(ReadHead);
    }

    /** recover_from_log(): it ends with an empty log and with home blocks equal to the file
        system the disk stood for. */
    method RecoverFromLog()
      requires Valid() && state.phase.Boot?
      modifies `disk, `cache, `pins, `lh, `state, `states, `acts
      ensures Valid() && lh == [] && state.phase.Normal?
      ensures exists n :: acts == old(acts) + RecoveryActs(n)
      ensures old(states) <= states
      ensures Home(g, disk) == Committed(old(state)) == Committed(state)
    {
      hide Inv, IsPath;
      ghost var from := |acts|;
      ghost var before := state;
      ReadLogHead();
      ghost var n := |lh|;
      InstallTrans(true);
      EraseHead(true);
      assert acts == old(acts) + RecoveryActs(n);
      assert states[from] == before;
      RecoverySlice(g, states, acts, from, n);
    }

    // One pass of begin_op's loop: false means the caller p went to sleep.
    method TryBeginOp(p: nat) returns (started: bool)
      requires Valid() && !state.Recovering()
      modifies `outstanding, `asleep, `state, `states, `acts
      ensures Valid()
      ensures started <==> !old(committing) && |lh| + (old(outstanding) + 1) * MAXOPBLOCKS <= LOGSIZE
      ensures acts == old(acts) + [if started then Begin else Sleep(p)]
      ensures started ==> outstanding == old(outstanding) + 1 && asleep == old(asleep)
      ensures !started ==> outstanding == old(outstanding) && asleep == old(asleep) + {p}
    {
      hide Inv, IsPath, Loggable, DiskOk;
      if committing {
        asleep := asleep + {p};
        started := false;
        Take(Sleep(p));
      } else if |lh| + (outstanding + 1) * MAXOPBLOCKS > LOGSIZE {
        asleep := asleep + {p};
        started := false;
        Take(Sleep(p));
      } else {
        outstanding := outstanding + 1;
        started := true;
        Take(Begin);
      }
    }

    /** end_op(): ending the last running operation commits, and then every block logged by
        the operations of the transaction is in its home block. */
    method EndOp(k: nat)
      requires Valid() && k < |state.ops| && Enabled(g, state, End(k))
      modifies this
      ensures Valid() && state.phase.Normal?
      ensures outstanding == old(outstanding) - 1 && asleep == {} && old(states) <= states
      ensures old(outstanding) > 1 ==>
        acts == old(acts) + [End(k)] && disk == old(disk) && lh == old(lh)
      ensures old(outstanding) == 1 ==>
        && acts == old(acts) + [End(k)] + CommitActs(|old(lh)|) + [Finish]
        && lh == [] && !committing && Home(g, disk) == View(old(state))
    {
      hide Inv, Typed, Enabled, Next, IsPath, Loggable, DiskOk, Home;
      EndIs(g, state, k);
      var doCommit := false;
      outstanding := outstanding - 1;
      assert !committing;
      if outstanding == 0 {
        doCommit := true;
        committing := true;
      } else {
        asleep := {};
      }
      Take(End(k));
      if doCommit {
        Commit();
        FinishIs(g, state);
        committing := false;
        asleep := {};
        Take(Finish);
      }
    }

    /** log_write(): absorbs a block that is already logged, otherwise appends and pins it.
        It panics when the log is full, even for a block it would absorb, and otherwise exactly
        when no operation is running. */
    method LogWriteBuf(p: nat, k: nat, b: nat) returns (outcome: Outcome)
      requires Valid()
      requires outstanding > 0 ==> CallsLogWrite(g, state, p, k, b)
      modifies `lh, `pins, `state, `states, `acts
      ensures Valid()
      ensures outcome ==
        if |old(lh)| >= LOGSIZE || |old(lh)| >= g.size - 1 then PanicTooBig
        else if outstanding < 1 then PanicOutside else Listed
      ensures !outcome.Listed? ==> acts == old(acts) && lh == old(lh) && pins == old(pins)
      ensures outcome.Listed? ==> acts == old(acts) + [LogWrite(p, k, b)]
      ensures outcome.Listed? ==> lh == if b in old(lh) then old(lh) else old(lh) + [b]
      ensures outcome.Listed? ==> pins == old(pins) + {b}
    {
      hide Inv, Typed, IsPath, Loggable, DiskOk, Next;
      if |lh| >= LOGSIZE || |lh| >= g.size - 1 {
        return PanicTooBig;
      }
      if outstanding < 1 {
        return PanicOutside;
      }
      LogWriteIs(g, state, p, k, b);
      var i := 0;
      while i < |lh| && lh[i] != b
        invariant i <= |lh| && b !in lh[..i]
      {
        i := i + 1;
      }
      assert i == Find(lh, b) by { FindIs(lh, b, i); }
      if i == |lh| {
        lh := lh + [b];
        pins := pins + {b};
      } else {
        lh := lh[i := b];
        assert lh == old(lh) && b in lh;
      }
      assert pins == state.pins + {b};
      Take(LogWrite(p, k, b));
      outcome := Listed;
    }
  }

  // What the protocol's two copying actions amount to.
  lemma CopyOneIs(g: Layout, s: State)
    requires Inv(g, s) && s.phase.CopyToLog? && s.phase.done < |s.lh|
    ensures Typed(g, s) && Enabled(g, s, CopyOne)
    ensures var t, b := g.Slot(s.phase.done), s.lh[s.phase.done];
      && t in s.disk && b in s.disk && t != b
      && Next(g, s, CopyOne) == s.(
           disk := s.disk[t := s.Logical(b)],
           cache := s.cache[b := s.Logical(b)][t := s.Logical(b)],
           phase := CopyToLog(s.phase.done + 1))
  {
    assert g.InLog(g.Slot(s.phase.done));
    hide CacheInv, DirtyInv, BudgetInv, HistoryInv, PhaseInv, MeaningInv, ViewInv;
  }

  lemma InstallIs(g: Layout, s: State)
    requires Inv(g, s) && (s.phase.Install? || s.phase.Replay?) && s.phase.done < |s.lh|
    ensures Typed(g, s)
    ensures s.phase.Install? ==> Enabled(g, s, InstallOne)
    ensures s.phase.Replay? ==> Enabled(g, s, ReplayOne)
    ensures var t, b := g.Slot(s.phase.done), s.lh[s.phase.done];
      && t in s.disk && b in s.disk && t != b
      && CopyHome(g, s) == s.(disk := s.disk[b := s.Logical(t)],
                              cache := s.cache[t := s.Logical(t)][b := s.Logical(t)])
  {
    hide CacheInv, DirtyInv, BudgetInv, HistoryInv, PhaseInv, MeaningInv, ViewInv;
    assert g.InLog(g.Slot(s.phase.done));
  }

  // Nor do they disturb anything else.
  lemma NextInstall(g: Layout, s: State)
    requires Typed(g, s) && Enabled(g, s, InstallOne)
    ensures Next(g, s, InstallOne) == CopyHome(g, s).(
      pins := s.pins - {s.lh[s.phase.done]}, phase := Install(s.phase.done + 1))
  {
    hide DiskOk, Loggable, CopyHome;
  }

  lemma NextReplay(g: Layout, s: State)
    requires Typed(g, s) && Enabled(g, s, ReplayOne)
    ensures Next(g, s, ReplayOne) == CopyHome(g, s).(phase := Replay(s.phase.done + 1))
  {
    hide DiskOk, Loggable, CopyHome;
  }

  lemma SealIs(g: Layout, s: State)
    requires Inv(g, s) && s.phase == CopyToLog(|s.lh|)
    ensures Typed(g, s) && Enabled(g, s, Seal) && g.start in s.disk && |s.lh| <= LOGSIZE
    ensures var h := PutHead(s.Logical(g.start), s.lh);
      Next(g, s, Seal) == s.(
        disk := s.disk[g.start := h], cache := s.cache[g.start := h], phase := Install(0),
        hist := s.hist + [s.current], current := NewTransaction())
  {
    hide CacheInv, DirtyInv, BudgetInv, HistoryInv, PhaseInv, MeaningInv, ViewInv;
    assert g.InLog(g.start);
  }

  lemma EraseIs(g: Layout, s: State)
    requires Inv(g, s) && (s.phase == Install(|s.lh|) || s.phase == Replay(|s.lh|))
    ensures Typed(g, s) && g.start in s.disk
    ensures var a := if s.phase.Replay? then ReplayErase else Erase;
      var h := PutHead(s.Logical(g.start), []);
      && Enabled(g, s, a)
      && Next(g, s, a) == s.(
           disk := s.disk[g.start := h], cache := s.cache[g.start := h], lh := [],
           phase := if s.phase.Replay? then Normal else Finishing)
  {
    hide CacheInv, DirtyInv, BudgetInv, HistoryInv, PhaseInv, MeaningInv, ViewInv;
    assert g.InLog(g.start);
  }

  lemma ReadHeadIs(g: Layout, s: State)
    requires Inv(g, s) && s.phase.Boot?
    ensures Typed(g, s) && Enabled(g, s, ReadHead) && g.start in s.disk
    ensures var h := s.Logical(g.start);
      HeadOk(h) && Next(g, s, ReadHead) == s.(
        cache := s.cache[g.start := h], lh := Head(h), phase := Replay(0))
  {
    hide CacheInv, DirtyInv, BudgetInv, HistoryInv, PhaseInv, MeaningInv, ViewInv;
    assert g.InLog(g.start);
  }

  lemma EndIs(g: Layout, s: State, k: nat)
    requires Inv(g, s) && k < |s.ops| && Enabled(g, s, End(k))
    ensures Typed(g, s) && s.phase.Normal? && s.outstanding == |s.ops|
    ensures var s' := Next(g, s, End(k));
      && View(s') == View(s)
      && s' == s.(outstanding := s'.outstanding, ops := s'.ops, asleep := s'.asleep, phase := s'.phase)
      && s'.outstanding == s.outstanding - 1
      && s'.asleep == (if s'.outstanding == 0 then s.asleep else {})
      && s'.phase == if s'.outstanding != 0 then Normal
                     else if |s.lh| > 0 then CopyToLog(0) else Finishing
  {
    hide CacheInv, DirtyInv, HistoryInv, PhaseInv, MeaningInv, ViewInv, DiskOk, Loggable;
  }

  lemma FinishIs(g: Layout, s: State)
    requires Inv(g, s) && s.phase.Finishing?
    ensures Typed(g, s) && Enabled(g, s, Finish)
    ensures Next(g, s, Finish) == s.(phase := Normal, asleep := {}, over := false, current := NewTransaction())
  {
    hide CacheInv, DirtyInv, HistoryInv, PhaseInv, MeaningInv, ViewInv, DiskOk, Loggable;
  }

  lemma LogWriteIs(g: Layout, s: State, p: nat, k: nat, b: nat)
    requires Inv(g, s) && CallsLogWrite(g, s, p, k, b) && !TooBig(g, s)
    ensures Typed(g, s) && Enabled(g, s, LogWrite(p, k, b))
    ensures b in s.lh ==> b in s.pins
    ensures var s' := Next(g, s, LogWrite(p, k, b));
      && s' == s.(dirty := s'.dirty, current := s'.current, ops := s'.ops, over := s'.over,
                  lh := (if b in s.lh then s.lh else s.lh + [b]), pins := s.pins + {b})
  {
    hide DirtyInv, HistoryInv, MeaningInv, ViewInv, DiskOk, Loggable;
    assert s.pins == Members(s.lh);
  }

  lemma FindIs(s: seq<nat>, b: nat, i: nat)
    requires i <= |s| && b !in s[..i] && (i < |s| ==> s[i] == b)
    ensures i == Find(s, b)
  {
  }

  lemma FinishingHome(g: Layout, s: State)
    requires Inv(g, s) && s.phase.Finishing?
    ensures DiskOk(g, s.disk) && Home(g, s.disk) == Redo(g, s.disk) == Committed(s) == View(s)
  {
    forall b | b in s.disk && !g.InLog(b) ensures RedoAt(g, s.disk, b) == s.disk[b] {}
  }

  lemma SlicePath(g: Layout, states: seq<State>, acts: seq<Action>, from: nat, to: nat)
    requires IsPath(g, states, acts) && from <= to <= |acts|
    ensures IsPath(g, states[from..to + 1], acts[from..to])
  {
    hide Inv, Typed, Enabled, Next;
    var path, part := states[from..to + 1], acts[from..to];
    forall j | 0 <= j < |part|
      ensures Typed(g, path[j]) && Enabled(g, path[j], part[j]) && path[j + 1] == Next(g, path[j], part[j])
    {
      assert path[j] == states[from + j] && path[j + 1] == states[from + j + 1];
      assert part[j] == acts[from + j];
    }
  }

  lemma CommitActsShape(n: nat, m: nat)
    requires n > 0 && m <= |CommitActs(n)|
    ensures |CommitActs(n)| == 2 * n + 2
    ensures forall j :: 0 <= j < m ==> !IsOp(CommitActs(n)[..m][j])
    ensures Sealed(CommitActs(n)[..m]) <==> m > n
  {
    assert CommitActs(n)[n] == Seal;
    if m > n { assert CommitActs(n)[..m][n].Seal?; }
  }

  // The first steps of a commit that starts at states[from], up to states[i].
  lemma {:induction false} CommitPrefix(g: Layout, states: seq<State>, acts: seq<Action>, from: nat, i: nat, n: nat)
    requires IsPath(g, states, acts) && |states| == |acts| + 1
    requires from <= i <= |acts| == from + |CommitActs(n)|
    requires acts == acts[..from] + CommitActs(n) && Inv(g, states[from])
    requires states[from].phase == if n > 0 then CopyToLog(0) else Finishing
    ensures DiskOk(g, states[i].disk)
    ensures Redo(g, states[i].disk) ==
      if i <= from + n then Committed(states[from]) else View(states[from])
  {
    hide Inv, Typed, Enabled, Next, IsPath, View, Committed, Redo, DiskOk, IsOp;
    if n > 0 {
      CommitPart(g, states, acts, from, i, n);
    } else {
      FinishingHome(g, states[from]);
    }
  }

  lemma {:induction false} CommitPart(g: Layout, states: seq<State>, acts: seq<Action>, from: nat, i: nat, n: nat)
    requires n > 0 && IsPath(g, states, acts) && |states| == |acts| + 1
    requires from <= i <= |acts| == from + |CommitActs(n)|
    requires acts == acts[..from] + CommitActs(n) && Inv(g, states[from])
    requires states[from].phase == CopyToLog(0)
    ensures DiskOk(g, states[i].disk)
    ensures Redo(g, states[i].disk) ==
      if i <= from + n then Committed(states[from]) else View(states[from])
  {
    hide *;
    var path, part := states[from..i + 1], acts[from..i];
    assert part == CommitActs(n)[..i - from];
    assert path[0] == states[from] && path[i - from] == states[i];
    CommitActsShape(n, i - from);
    SlicePath(g, states, acts, from, i);
    CommitIsAtomic(g, path, part);
    InvMeaning(g, states[i]);
  }

  lemma InvMeaning(g: Layout, s: State)
    requires Inv(g, s)
    ensures DiskOk(g, s.disk) && Redo(g, s.disk) == Committed(s)
  {
  }

  lemma RecoverySlice(g: Layout, states: seq<State>, acts: seq<Action>, from: nat, n: nat)
    requires IsPath(g, states, acts) && |states| == |acts| + 1 && from <= |acts|
    requires acts == acts[..from] + RecoveryActs(n) && Inv(g, states[from])
    requires states[|acts|].phase.Normal?
    ensures Home(g, states[|acts|].disk) == Committed(states[from]) == Committed(states[|acts|])
  {
    hide Inv, Typed, Enabled, Next, IsPath;
    SlicePath(g, states, acts, from, |acts|);
    assert acts[from..|acts|] == RecoveryActs(n);
    assert states[from..|acts| + 1][|acts| - from] == states[|acts|];
    RecoveryRestores(g, states[from..|acts| + 1], acts[from..|acts|]);
  }
}
