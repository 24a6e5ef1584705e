/** Every action of the log protocol keeps the invariant. */
module LogInvariant {
  import opened LogProtocol

  lemma InitInv(g: Layout, s: State)
    requires Init(g, s)
    ensures Inv(g, s)
  {
  }
  // ---------- arithmetic and sequence lemmas ----------

  lemma ApplyWritesSnoc(m: Disk, ws: seq<Write>, w: Write)
    ensures ApplyWrites(m, ws + [w]) == ApplyWrites(m, ws)[w.block := w.data]
  {
    assert (ws + [w])[..|ws|] == ws;
  }

  lemma ApplyGroupsSnoc(m: Disk, gs: seq<Group>, t: Group)
    ensures ApplyGroups(m, gs + [t]) == ApplyWrites(ApplyGroups(m, gs), t.writes)
  {
    assert (gs + [t])[..|gs|] == gs;
  }

  lemma {:induction false} BudgetsUpdate(ops: seq<Op>, k: nat, o: Op)
    requires k < |ops|
    ensures Budgets(ops[k := o]) == Budgets(ops) - ops[k].budget + o.budget
  {
    var n := |ops| - 1;
    if k < n {
      BudgetsUpdate(ops[..n], k, o);
      assert ops[k := o][..n] == ops[..n][k := o];
    } else {
      assert ops[k := o][..n] == ops[..n];
    }
  }

  lemma {:induction false} BudgetsRemove(ops: seq<Op>, k: nat)
    requires k < |ops|
    ensures Budgets(ops[..k] + ops[k + 1..]) == Budgets(ops) - ops[k].budget
  {
    var n := |ops| - 1;
    if k < n {
      BudgetsRemove(ops[..n], k);
      assert (ops[..k] + ops[k + 1..])[..n - 1] == ops[..n][..k] + ops[..n][k + 1..];
    } else {
      assert ops[..k] + ops[k + 1..] == ops[..n];
    }
  }

  lemma {:induction false} BudgetsBound(ops: seq<Op>)
    requires forall k :: 0 <= k < |ops| ==> ops[k].budget <= MAXOPBLOCKS
    ensures Budgets(ops) <= |ops| * MAXOPBLOCKS
  {
    if ops != [] {
      BudgetsBound(ops[..|ops| - 1]);
    }
  }

  // ---------- what disk writes do to the meaning of the disk ----------

  // Writing a free slot, or a listed home block, leaves the meaning alone.
  lemma RedoUnchanged(g: Layout, d: Disk, b: nat, v: Block)
    requires DiskOk(g, d) && b in d && b != g.start
    requires var h := Head(d[g.start]); if g.InLog(b) then h == [] else b in h
    ensures DiskOk(g, d[b := v])
    ensures Redo(g, d[b := v]) == Redo(g, d)
  {
    var d' := d[b := v];
    assert g.InLog(g.start);
    assert d'[g.start] == d[g.start];
    var h := Head(d[g.start]);
    forall x | x in d && !g.InLog(x) ensures RedoAt(g, d', x) == RedoAt(g, d, x) {
      var i := Find(h, x);
      if i < |h| {
        assert g.InLog(g.Slot(i));
      }
    }
  }

  // Clearing the header of a fully installed log leaves the meaning alone.
  lemma EraseMeaning(g: Layout, d: Disk, hb: Block)
    requires DiskOk(g, d) && Installed(g, d, Head(d[g.start]), |Head(d[g.start])|)
    ensures var d' := d[g.start := PutHead(hb, [])];
      DiskOk(g, d') && Redo(g, d') == Redo(g, d) == Home(g, d') == Home(g, d)
  {
    assert g.InLog(g.start);
    var d' := d[g.start := PutHead(hb, [])];
    forall x | x in d && !g.InLog(x) ensures RedoAt(g, d', x) == RedoAt(g, d, x) == d[x] {}
  }

  lemma SealDiskOk(g: Layout, d: Disk, lh: seq<nat>, hb: Block)
    requires DiskOk(g, d) && Loggable(g, d, lh) && HeadOk(hb) && Head(hb) == lh
    ensures DiskOk(g, d[g.start := hb])
  {
    assert g.InLog(g.start);
    assert Loggable(g, d[g.start := hb], lh);
  }

  // Writing the header of a fully copied log replaces every listed block.
  lemma SealMeaning(g: Layout, d: Disk, lh: seq<nat>, hb: Block, view: Disk)
    requires DiskOk(g, d) && Loggable(g, d, lh) && HeadOk(hb) && Head(hb) == lh
    requires view.Keys == Home(g, d).Keys
    requires forall i :: 0 <= i < |lh| ==> d[g.Slot(i)] == view[lh[i]]
    requires forall b :: b in view && b !in lh ==> d[b] == view[b]
    ensures DiskOk(g, d[g.start := hb]) && Redo(g, d[g.start := hb]) == view
  {
    hide Find, Distinct, RedoAt, Head, HeadOk;
    SealDiskOk(g, d, lh, hb);
    var d' := d[g.start := hb];
    forall x | x in view ensures RedoAt(g, d', x) == view[x] {
      SealAt(g, d, lh, hb, view, x);
    }
    hide Loggable;
  }

  lemma SealAt(g: Layout, d: Disk, lh: seq<nat>, hb: Block, view: Disk, x: nat)
    requires DiskOk(g, d) && Loggable(g, d, lh) && HeadOk(hb) && Head(hb) == lh && x in d && !g.InLog(x) && x in view
    requires view.Keys == Home(g, d).Keys
    requires forall i :: 0 <= i < |lh| ==> d[g.Slot(i)] == view[lh[i]]
    requires x !in lh ==> d[x] == view[x]
    ensures DiskOk(g, d[g.start := hb]) && RedoAt(g, d[g.start := hb], x) == view[x]
  {
    hide Distinct;
    SealDiskOk(g, d, lh, hb);
    assert g.InLog(g.start);
    var i := Find(lh, x);
    if i < |lh| {
      assert d[g.start := hb][g.Slot(i)] == d[g.Slot(i)];
    }
  }

  // ---------- each part of the invariant is kept by every action ----------

  // Buffer traffic and sleeping: disk, log header, operations and phase stay.
  ghost predicate IsLocal(a: Action) {
    a.Read? || a.Recycle? || a.Lock? || a.Unlock? || a.Modify? || a.Sleep? || a.Wake?
  }

  ghost predicate IsOp(a: Action) { a.Begin? || a.End? || a.LogWrite? }

  // One disk write by the commit or recovery thread.
  ghost predicate IsDisk(a: Action) {
    a.CopyOne? || a.Seal? || a.InstallOne? || a.Erase? || a.ReplayOne? || a.ReplayErase?
  }

  ghost predicate IsRest(a: Action) { a.Finish? || a.Crash? || a.ReadHead? }

  lemma TypedLogWrite(g: Layout, s: State, p: nat, k: nat, b: nat)
    requires Typed(g, s) && Enabled(g, s, LogWrite(p, k, b))
    ensures Typed(g, Next(g, s, LogWrite(p, k, b)))
  {
    assert b in s.lh <==> Find(s.lh, b) < |s.lh|;
    hide DiskOk;
  }

  lemma TypedStep(g: Layout, s: State, a: Action)
    requires Typed(g, s) && Enabled(g, s, a) && CacheInv(g, s) && !IsDisk(a)
    ensures Typed(g, Next(g, s, a))
  {
    if a.LogWrite? {
      TypedLogWrite(g, s, a.p, a.k, a.b);
    } else {
      assert g.InLog(g.start);
    }
  }

  lemma TypedDisk(g: Layout, s: State, a: Action)
    requires Typed(g, s) && Enabled(g, s, a) && IsDisk(a)
    requires s.phase.Install? || s.phase.Replay? ==> Head(s.disk[g.start]) == s.lh
    ensures Typed(g, Next(g, s, a))
  {
    assert g.InLog(g.start);
    if s.phase.done < |s.lh| {
      assert g.InLog(g.Slot(s.phase.done)) && !g.InLog(s.lh[s.phase.done]);
    }
  }

  lemma CacheStep(g: Layout, s: State, a: Action)
    requires Typed(g, s) && Enabled(g, s, a) && CacheInv(g, s) && !IsDisk(a) && !a.LogWrite?
    ensures CacheInv(g, Next(g, s, a))
  {
    assert g.InLog(g.start);
    hide Loggable;
  }

  lemma CacheLogWrite(g: Layout, s: State, p: nat, k: nat, b: nat)
    requires Typed(g, s) && Enabled(g, s, LogWrite(p, k, b)) && CacheInv(g, s)
    requires s.pins == Members(s.lh)
    ensures CacheInv(g, Next(g, s, LogWrite(p, k, b)))
  {
    hide DiskOk, Loggable;
  }

  lemma CacheDisk(g: Layout, s: State, a: Action)
    requires Typed(g, s) && Enabled(g, s, a) && CacheInv(g, s) && IsDisk(a)
    requires s.dirty == {}
    ensures CacheInv(g, Next(g, s, a))
  {
    assert g.InLog(g.start);
    assert s.phase.done < |s.lh| ==> g.InLog(g.Slot(s.phase.done));
  }

  lemma DirtyStep(g: Layout, s: State, a: Action)
    requires Typed(g, s) && Enabled(g, s, a) && DirtyInv(s)
    ensures DirtyInv(Next(g, s, a))
  {
    var s' := Next(g, s, a);
    if IsOp(a) || a.Modify? {
      forall b | b in s'.dirty ensures b in s'.held && Runs(s'.ops, s'.held[b]) {
        if b in s.dirty {
          var j :| 0 <= j < |s.ops| && s.ops[j].id == s.held[b];
          assert s'.ops[if a.End? && j > a.k then j - 1 else j].id == s.ops[j].id;
        }
      }
    }
  }

  lemma BudgetStep(g: Layout, s: State, a: Action)
    requires Typed(g, s) && Enabled(g, s, a) && BudgetInv(s) && !IsOp(a)
    ensures BudgetInv(Next(g, s, a))
  {
  }

  lemma BudgetBegin(g: Layout, s: State)
    requires Typed(g, s) && Enabled(g, s, Begin) && BudgetInv(s)
    ensures BudgetInv(Next(g, s, Begin))
  {
    BudgetsBound(s.ops);
    var s' := Next(g, s, Begin);
    assert s'.ops[..|s.ops|] == s.ops;
  }

  lemma BudgetEnd(g: Layout, s: State, k: nat)
    requires Typed(g, s) && Enabled(g, s, End(k)) && BudgetInv(s)
    ensures BudgetInv(Next(g, s, End(k)))
  {
    hide Next, Enabled, Typed, Budgets;
    var s' := Next(g, s, End(k));
    EndShape(g, s, k);
    BudgetsRemove(s.ops, k);
    forall j | 0 <= j < |s'.ops| ensures s'.ops[j].budget <= MAXOPBLOCKS {
      assert s'.ops[j] == s.ops[if j < k then j else j + 1];
    }
  }

  lemma EndShape(g: Layout, s: State, k: nat)
    requires Typed(g, s) && Enabled(g, s, End(k)) && BudgetInv(s)
    ensures var s' := Next(g, s, End(k));
      && k < |s.ops| && s'.ops == s.ops[..k] + s.ops[k + 1..] && s'.lh == s.lh && s'.over == s.over
      && s'.outstanding == s.outstanding - 1 && s.phase.Normal?
      && (s'.outstanding != 0 ==> s'.phase.Normal? && s'.asleep == {})
      && (s'.outstanding == 0 ==> s'.phase == if |s.lh| > 0 then CopyToLog(0) else Finishing)
  {
    hide DiskOk, Loggable;
  }

  lemma BudgetLogWrite(g: Layout, s: State, p: nat, k: nat, b: nat)
    requires Typed(g, s) && Enabled(g, s, LogWrite(p, k, b)) && BudgetInv(s)
    ensures BudgetInv(Next(g, s, LogWrite(p, k, b)))
  {
    if Find(s.lh, b) == |s.lh| {
      BudgetsUpdate(s.ops, k, Next(g, s, LogWrite(p, k, b)).ops[k]);
    }
  }

  lemma HistoryStep(g: Layout, s: State, a: Action)
    requires Typed(g, s) && Enabled(g, s, a) && HistoryInv(s) && !IsOp(a)
    requires !s.phase.Normal? ==> s.ops == []
    ensures HistoryInv(Next(g, s, a))
  {
    hide DiskOk, Loggable;
  }

  lemma HistoryBegin(g: Layout, s: State)
    requires Typed(g, s) && Enabled(g, s, Begin) && HistoryInv(s)
    ensures HistoryInv(Next(g, s, Begin))
  {
  }

  lemma HistoryLogWrite(g: Layout, s: State, p: nat, k: nat, b: nat)
    requires Typed(g, s) && Enabled(g, s, LogWrite(p, k, b)) && HistoryInv(s)
    ensures HistoryInv(Next(g, s, LogWrite(p, k, b)))
  {
  }

  lemma EndFrame(g: Layout, s: State, k: nat)
    requires Typed(g, s) && Enabled(g, s, End(k))
    ensures k < |s.ops|
    ensures var s' := Next(g, s, End(k));
      && s'.disk == s.disk && s'.cache == s.cache && s'.dirty == s.dirty && s'.lh == s.lh
      && s'.current == s.current && s'.hist == s.hist && s'.base == s.base && s'.nextOp == s.nextOp
      && s'.ops == s.ops[..k] + s.ops[k + 1..]
      && (s'.phase == s.phase || s'.phase == if |s.lh| > 0 then CopyToLog(0) else Finishing)
  {
    hide DiskOk, Loggable;
  }

  lemma HistoryEnd(g: Layout, s: State, k: nat)
    requires Typed(g, s) && Enabled(g, s, End(k)) && HistoryInv(s)
    ensures HistoryInv(Next(g, s, End(k)))
  {
    EndFrame(g, s, k);
    hide Typed, Enabled, Next;
    var s' := Next(g, s, End(k));
    forall j | 0 <= j < |s'.ops| ensures s'.ops[j] == s.ops[if j < k then j else j + 1] {}
  }

  // In phases that compare buffers with log slots, local actions change no logical block.
  lemma LocalLogical(g: Layout, s: State, a: Action, b: nat)
    requires Typed(g, s) && Enabled(g, s, a) && IsLocal(a) && CacheInv(g, s) && b in s.disk
    requires s.ops == []
    ensures Next(g, s, a).disk == s.disk && Next(g, s, a).Logical(b) == s.Logical(b)
  {
  }

  lemma PhaseLocal(g: Layout, s: State, a: Action)
    requires Typed(g, s) && Enabled(g, s, a) && PhaseInv(g, s) && IsLocal(a)
    requires CacheInv(g, s) && Typed(g, Next(g, s, a))
    requires !s.phase.Normal? ==> s.ops == []
    ensures PhaseInv(g, Next(g, s, a))
  {
    var s' := Next(g, s, a);
    assert s'.disk == s.disk && s'.lh == s.lh && s'.pins == s.pins && s'.phase == s.phase;
    if !s.phase.Normal? {
      forall i | 0 <= i < |s.lh| ensures s'.Logical(s.lh[i]) == s.Logical(s.lh[i]) {
        LocalLogical(g, s, a, s.lh[i]);
      }
    }
    hide DiskOk, CacheInv, Enabled, Next;
  }

  lemma PhaseOp(g: Layout, s: State, a: Action)
    requires Typed(g, s) && Enabled(g, s, a) && PhaseInv(g, s) && IsOp(a)
    requires BudgetInv(s) && Typed(g, Next(g, s, a))
    ensures PhaseInv(g, Next(g, s, a))
  {
  }

  lemma PhaseCopy(g: Layout, s: State)
    requires Typed(g, s) && Enabled(g, s, CopyOne) && PhaseInv(g, s)
    requires CacheInv(g, s) && Typed(g, Next(g, s, CopyOne))
    ensures PhaseInv(g, Next(g, s, CopyOne))
  {
    var s' := Next(g, s, CopyOne);
    assert g.InLog(g.start);
    forall i | 0 <= i <= s.phase.done ensures s'.Logical(s.lh[i]) == s'.disk[g.Slot(i)] {
      assert s'.Logical(s.lh[i]) == s.Logical(s.lh[i]);
    }
  }

  // What writing the header does to disk and buffers.
  lemma SealFrame(g: Layout, s: State)
    requires Typed(g, s) && Enabled(g, s, Seal) && CacheInv(g, s)
    ensures g.start in s.disk
    ensures var s', h := Next(g, s, Seal), PutHead(s.Logical(g.start), s.lh);
      && s'.disk == s.disk[g.start := h]
      && (forall x :: x in s.disk && x != g.start ==> s'.Logical(x) == s.Logical(x))
      && s'.lh == s.lh && s'.pins == s.pins && s'.phase == Install(0)
  {
    assert g.InLog(g.start);
    hide DiskOk, Loggable;
  }

  lemma PhaseSeal(g: Layout, s: State)
    requires Typed(g, s) && Enabled(g, s, Seal) && PhaseInv(g, s)
    requires CacheInv(g, s) && Typed(g, Next(g, s, Seal))
    ensures PhaseInv(g, Next(g, s, Seal))
  {
    SealFrame(g, s);
    hide Next, CacheInv, DiskOk, PutHead, Members;
    assert s.lh[0..] == s.lh;
    assert g.InLog(g.start);
  }

  lemma MembersDrop(s: seq<nat>, t: nat)
    requires Distinct(s) && t < |s|
    ensures Members(s[t + 1..]) == Members(s[t..]) - {s[t]}
  {
    assert s[t..] == [s[t]] + s[t + 1..];
  }

  // What one iteration of install_trans does to disk and buffers.
  lemma InstallFrame(g: Layout, s: State)
    requires Typed(g, s) && Enabled(g, s, InstallOne) && CacheInv(g, s) && s.dirty == {}
    requires Typed(g, Next(g, s, InstallOne))
    ensures var s', b := Next(g, s, InstallOne), s.lh[s.phase.done];
      && s'.disk == s.disk[b := s.disk[g.Slot(s.phase.done)]]
      && (forall x :: x in s.disk && x != b ==> s'.Logical(x) == s.Logical(x))
      && s'.lh == s.lh && s'.pins == s.pins - {b} && s'.phase == Install(s.phase.done + 1)
  {
    assert g.InLog(g.start) && g.InLog(g.Slot(s.phase.done));
  }

  lemma PhaseInstall(g: Layout, s: State)
    requires Typed(g, s) && Enabled(g, s, InstallOne) && PhaseInv(g, s)
    requires CacheInv(g, s) && s.dirty == {} && Typed(g, Next(g, s, InstallOne))
    ensures PhaseInv(g, Next(g, s, InstallOne))
  {
    hide CacheInv, Next, Members;
    var s' := Next(g, s, InstallOne);
    var t := s.phase.done;
    InstallFrame(g, s);
    MembersDrop(s.lh, t);
    assert g.InLog(g.start) && g.InLog(g.Slot(t));
    forall i | 0 <= i < |s.lh| ensures g.InLog(g.Slot(i)) && !g.InLog(s.lh[i]) { }
    hide Enabled;
  }

  lemma PhaseReplay(g: Layout, s: State)
    requires Typed(g, s) && Enabled(g, s, ReplayOne) && PhaseInv(g, s)
    requires CacheInv(g, s) && s.dirty == {} && Typed(g, Next(g, s, ReplayOne))
    ensures PhaseInv(g, Next(g, s, ReplayOne))
  {
    assert g.InLog(g.start) && g.InLog(g.Slot(s.phase.done));
  }

  lemma PhaseRest(g: Layout, s: State, a: Action)
    requires Typed(g, s) && Enabled(g, s, a) && PhaseInv(g, s)
    requires IsRest(a)
    requires BudgetInv(s) && Typed(g, Next(g, s, a))
    ensures PhaseInv(g, Next(g, s, a))
  {
  }

  lemma PhaseErase(g: Layout, s: State, a: Action)
    requires Typed(g, s) && Enabled(g, s, a) && PhaseInv(g, s) && (a.Erase? || a.ReplayErase?)
    ensures PhaseInv(g, Next(g, s, a))
  {
    assert |s.lh[|s.lh|..]| == 0;
  }

  // ---------- the meaning of the disk changes only when a header is written ----------

  lemma MeaningStep(g: Layout, s: State, a: Action)
    requires Typed(g, s) && Enabled(g, s, a) && PhaseInv(g, s) && CacheInv(g, s)
    requires MeaningInv(g, s) && !IsDisk(a)
    ensures MeaningInv(g, Next(g, s, a)) && Committed(Next(g, s, a)) == Committed(s)
  {
    hide DiskOk, Loggable, PhaseInv, CacheInv;
  }

  lemma MeaningDisk(g: Layout, s: State, a: Action)
    requires Typed(g, s) && Enabled(g, s, a) && PhaseInv(g, s) && CacheInv(g, s)
    requires MeaningInv(g, s) && IsDisk(a) && !a.Seal?
    ensures MeaningInv(g, Next(g, s, a)) && Committed(Next(g, s, a)) == Committed(s)
  {
    assert g.InLog(g.start);
    match a
    case CopyOne =>
      assert g.InLog(g.Slot(s.phase.done));
      RedoUnchanged(g, s.disk, g.Slot(s.phase.done), s.Logical(s.lh[s.phase.done]));
    case InstallOne =>
      RedoUnchanged(g, s.disk, s.lh[s.phase.done], s.Logical(g.Slot(s.phase.done)));
    case ReplayOne =>
      RedoUnchanged(g, s.disk, s.lh[s.phase.done], s.Logical(g.Slot(s.phase.done)));
    case Erase => EraseMeaning(g, s.disk, s.Logical(g.start));
    case ReplayErase => EraseMeaning(g, s.disk, s.Logical(g.start));
  }

  lemma MeaningSeal(g: Layout, s: State)
    requires Typed(g, s) && Enabled(g, s, Seal) && PhaseInv(g, s) && CacheInv(g, s)
    requires ViewInv(g, s) && s.dirty == {}
    ensures MeaningInv(g, Next(g, s, Seal)) && Committed(Next(g, s, Seal)) == View(s)
  {
    ApplyGroupsSnoc(s.base, s.hist, s.current);
    assert g.InLog(g.start);
    SealMeaning(g, s.disk, s.lh, PutHead(s.Logical(g.start), s.lh), View(s));
  }

  lemma ViewLocal(g: Layout, s: State, a: Action)
    requires Typed(g, s) && Enabled(g, s, a) && CacheInv(g, s) && PhaseInv(g, s)
    requires ViewInv(g, s) && IsLocal(a)
    requires Typed(g, Next(g, s, a))
    ensures ViewInv(g, Next(g, s, a))
  {
    hide DiskOk, Loggable;
    var s' := Next(g, s, a);
    assert View(s') == View(s);
    forall b | b in s.disk && b !in s'.dirty ensures s'.Logical(b) == s.Logical(b) {}
  }

  lemma ViewBegin(g: Layout, s: State)
    requires Typed(g, s) && Enabled(g, s, Begin) && ViewInv(g, s) && BudgetInv(s)
    requires Typed(g, Next(g, s, Begin))
    ensures ViewInv(g, Next(g, s, Begin))
  {
    hide DiskOk, Loggable, Budgets;
    assert View(Next(g, s, Begin)) == View(s);
  }

  lemma ViewEnd(g: Layout, s: State, k: nat)
    requires Typed(g, s) && Enabled(g, s, End(k)) && ViewInv(g, s) && s.phase.Normal?
    requires Typed(g, Next(g, s, End(k)))
    ensures ViewInv(g, Next(g, s, End(k)))
  {
    EndFrame(g, s, k);
    hide DiskOk, Loggable, Next, Enabled, ApplyWrites, ApplyGroups;
    assert View(Next(g, s, End(k))) == View(s);
  }

  lemma LogWriteFrame(g: Layout, s: State, p: nat, k: nat, b: nat)
    requires Typed(g, s) && Enabled(g, s, LogWrite(p, k, b))
    ensures b in s.cache && b in s.disk && !g.InLog(b) && s.ops != []
    ensures var s' := Next(g, s, LogWrite(p, k, b));
      && s'.disk == s.disk && s'.cache == s.cache && s'.phase == s.phase && s'.hist == s.hist && s'.base == s.base
      && s'.dirty == s.dirty - {b} && s'.current.writes == s.current.writes + [Write(p, b, s.cache[b])]
      && s'.lh == if b in s.lh then s.lh else s.lh + [b]
  {
    assert b in s.lh <==> Find(s.lh, b) < |s.lh|;
    hide DiskOk, Loggable;
  }

  lemma ViewLogWrite(g: Layout, s: State, p: nat, k: nat, b: nat)
    requires Typed(g, s) && Enabled(g, s, LogWrite(p, k, b)) && ViewInv(g, s) && BudgetInv(s)
    requires Typed(g, Next(g, s, LogWrite(p, k, b)))
    ensures ViewInv(g, Next(g, s, LogWrite(p, k, b)))
  {
    LogWriteFrame(g, s, p, k, b);
    ApplyWritesSnoc(Committed(s), s.current.writes, Write(p, b, s.cache[b]));
    hide DiskOk, Loggable, Next, Enabled, Budgets, ApplyWrites, ApplyGroups;
    assert View(Next(g, s, LogWrite(p, k, b))) == View(s)[b := s.cache[b]];
  }

  // What one iteration of write_log does to disk and buffers.
  lemma CopyFrame(g: Layout, s: State)
    requires Typed(g, s) && Enabled(g, s, CopyOne) && CacheInv(g, s)
    ensures var s' := Next(g, s, CopyOne);
      && (forall x :: x in s.disk && !g.InLog(x) ==>
          s'.disk[x] == s.disk[x] && s'.Logical(x) == s.Logical(x))
      && s'.disk.Keys == s.disk.Keys && s'.cache.Keys >= s.cache.Keys
      && s'.lh == s.lh && s'.dirty == s.dirty && s'.current == s.current
      && s'.hist == s.hist && s'.base == s.base && s'.phase.CopyToLog?
  {
    assert g.InLog(g.Slot(s.phase.done));
  }

  lemma ViewCopy(g: Layout, s: State)
    requires Typed(g, s) && Enabled(g, s, CopyOne) && ViewInv(g, s) && CacheInv(g, s)
    requires Typed(g, Next(g, s, CopyOne))
    ensures ViewInv(g, Next(g, s, CopyOne))
  {
    CopyFrame(g, s);
    assert View(Next(g, s, CopyOne)) == View(s);
    hide DiskOk, Loggable, CacheInv, Next;
  }

  // Outside an open transaction the view is the committed file system.
  lemma ViewClosed(g: Layout, s: State)
    requires Typed(g, s) && PhaseInv(g, s) && CacheInv(g, s) && MeaningInv(g, s)
    requires s.current.writes == [] && s.dirty == {} && !s.phase.CopyToLog?
    requires s.phase.Normal? ==> s.lh == []
    ensures ViewInv(g, s)
  {
    hide Distinct, Loggable, OwnWrites;
    assert View(s) == Committed(s) == Redo(g, s.disk);
    if s.phase.Normal? {
      forall b | b in s.disk && !g.InLog(b) ensures s.Logical(b) == View(s)[b] == s.disk[b] {
        assert View(s)[b] == RedoAt(g, s.disk, b);
      }
    }
  }

  // ---------- the invariant over steps and runs ----------

  lemma DirtyNeedsOps(s: State)
    requires DirtyInv(s) && s.ops == []
    ensures s.dirty == {}
  {
    if b :| b in s.dirty { assert Runs(s.ops, s.held[b]); }
  }

  lemma InvParts(g: Layout, s: State)
    requires Inv(g, s)
    ensures Typed(g, s) && CacheInv(g, s) && DirtyInv(s) && BudgetInv(s)
    ensures HistoryInv(s) && PhaseInv(g, s) && MeaningInv(g, s) && ViewInv(g, s)
    ensures s.phase.Install? || s.phase.Replay? ==> Head(s.disk[g.start]) == s.lh
    ensures s.phase.Normal? ==> s.pins == Members(s.lh)
    ensures !s.phase.Normal? ==> s.ops == [] && s.outstanding == 0 && s.dirty == {}
  {
    if s.ops == [] { DirtyNeedsOps(s); }
  }

  lemma Kinds(g: Layout, s: State, a: Action)
    requires Enabled(g, s, a)
    ensures IsOp(a) <==> a.Begin? || a.End? || a.LogWrite?
    ensures IsRest(a) <==> a.Finish? || a.Crash? || a.ReadHead?
    ensures !IsOp(a) && !IsRest(a) && !IsDisk(a) ==> IsLocal(a)
    ensures IsLocal(a) ==> !IsOp(a) && !IsRest(a) && !IsDisk(a)
    ensures a.CopyOne? || a.Seal? || a.InstallOne? || a.ReplayOne? || a.Erase? || a.ReplayErase?
      <==> IsDisk(a)
    ensures IsDisk(a) || a.Finish? || a.ReadHead? ==> !s.phase.Normal?
    ensures a.End? ==> s.outstanding > 0
    ensures a.LogWrite? ==> |s.ops| > 0
  {
  }

  // The commit and recovery thread's actions, but for copying, leave nothing open.
  lemma Closed(g: Layout, s: State, a: Action)
    requires Typed(g, s) && Enabled(g, s, a) && BudgetInv(s)
    requires !s.phase.Normal? ==> s.dirty == {}
    requires ViewInv(g, s) && !a.CopyOne? && (IsRest(a) || IsDisk(a))
    ensures var s' := Next(g, s, a);
      && s'.current.writes == [] && s'.dirty == {} && !s'.phase.CopyToLog?
      && (s'.phase.Normal? ==> s'.lh == [])
  {
    hide DiskOk, Loggable, Redo, Committed, View;
  }

  lemma FrameStep(g: Layout, s: State, a: Action)
    requires Inv(g, s) && Enabled(g, s, a)
    ensures Typed(g, s) && Typed(g, Next(g, s, a))
    ensures CacheInv(g, Next(g, s, a)) && DirtyInv(Next(g, s, a))
  {
    hide *;
    InvParts(g, s);
    Kinds(g, s, a);
    if IsDisk(a) {
      TypedDisk(g, s, a);
      CacheDisk(g, s, a);
    } else {
      TypedStep(g, s, a);
      match a
      case LogWrite(p, k, b) => CacheLogWrite(g, s, p, k, b);
      case _ => CacheStep(g, s, a);
    }
    DirtyStep(g, s, a);
  }

  lemma CountStep(g: Layout, s: State, a: Action)
    requires Inv(g, s) && Enabled(g, s, a)
    ensures Typed(g, s) && BudgetInv(Next(g, s, a)) && HistoryInv(Next(g, s, a))
  {
    hide *;
    InvParts(g, s);
    Kinds(g, s, a);
    match a
    case Begin => BudgetBegin(g, s); HistoryBegin(g, s);
    case End(k) => BudgetEnd(g, s, k); HistoryEnd(g, s, k);
    case LogWrite(p, k, b) => BudgetLogWrite(g, s, p, k, b); HistoryLogWrite(g, s, p, k, b);
    case _ => BudgetStep(g, s, a); HistoryStep(g, s, a);
  }

  lemma PhaseStep(g: Layout, s: State, a: Action)
    requires Inv(g, s) && Enabled(g, s, a)
    ensures Typed(g, s) && Typed(g, Next(g, s, a)) && PhaseInv(g, Next(g, s, a))
  {
    hide *;
    InvParts(g, s);
    Kinds(g, s, a);
    FrameStep(g, s, a);
    if IsOp(a) { PhaseOp(g, s, a); return; }
    match a
    case CopyOne => PhaseCopy(g, s);
    case Seal => PhaseSeal(g, s);
    case InstallOne => PhaseInstall(g, s);
    case ReplayOne => PhaseReplay(g, s);
    case Erase => PhaseErase(g, s, a);
    case ReplayErase => PhaseErase(g, s, a);
    case _ => if IsRest(a) { PhaseRest(g, s, a); } else { PhaseLocal(g, s, a); }
  }

  lemma MeaningAndView(g: Layout, s: State, a: Action)
    requires Inv(g, s) && Enabled(g, s, a)
    ensures Typed(g, s) && MeaningInv(g, Next(g, s, a))
    ensures Typed(g, Next(g, s, a)) && ViewInv(g, Next(g, s, a))
  {
    hide *;
    InvParts(g, s);
    Kinds(g, s, a);
    FrameStep(g, s, a);
    PhaseStep(g, s, a);
    if a.Seal? { MeaningSeal(g, s); }
    else if IsDisk(a) { MeaningDisk(g, s, a); }
    else { MeaningStep(g, s, a); }
    if IsRest(a) || (IsDisk(a) && !a.CopyOne?) {
      Closed(g, s, a);
      ViewClosed(g, Next(g, s, a));
    } else if IsLocal(a) {
      ViewLocal(g, s, a);
    } else {
      match a
      case LogWrite(p, k, b) => ViewLogWrite(g, s, p, k, b);
      case CopyOne => ViewCopy(g, s);
      case Begin => ViewBegin(g, s);
      case End(k) => ViewEnd(g, s, k);
    }
  }

  lemma NextInv(g: Layout, s: State, a: Action)
    requires Inv(g, s) && Enabled(g, s, a)
    ensures Typed(g, s) && Inv(g, Next(g, s, a))
  {
    hide Typed, CacheInv, DirtyInv, BudgetInv, HistoryInv, PhaseInv, MeaningInv, ViewInv, Next, Enabled;
    FrameStep(g, s, a);
    CountStep(g, s, a);
    PhaseStep(g, s, a);
    MeaningAndView(g, s, a);
  }
}
