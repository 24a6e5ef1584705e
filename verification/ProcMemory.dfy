/**
 Who owns each frame of memory, over every run of the process functions that allocate:
 kernel/proc.c (proc_pagetable, proc_freepagetable, allocproc, freeproc, growproc, fork) and
 the table-building path of kernel/exec.c, each with kalloc failing anywhere.
*/
module ProcMemory {
  import opened Sv39
  import opened UserMemory

  const NPROC := 64
  const RAMFRAMES := 32768       // (PHYSTOP - KERNBASE) / PGSIZE
  const TRAMPOLINE := MAXVPN - 1 // as page numbers
  const TRAPFRAME := MAXVPN - 2
  const USYSCALL := MAXVPN - 3

  const RX := Flags(false, true, false, true, false, 0)
  const RW := Flags(false, true, true, false, false, 0)
  const RU := Flags(false, true, false, false, true, 0)

  // The frames under the three fixed pages.
  datatype Top = Top(trampoline: nat, trapframe: nat, usyscall: nat)

  function TopFrame(top: Top, x: nat): nat {
    if x == TRAMPOLINE then top.trampoline else if x == TRAPFRAME then top.trapframe else top.usyscall
  }

  function TopPerm(x: nat): Flags {
    if x == TRAMPOLINE then RX else if x == TRAPFRAME then RW else RU
  }

  function TopEntry(top: Top, x: nat): Word { Word(TopFrame(top, x), TopPerm(x).(v := true)) }

  // Above the user pages only the fixed ones from vpn `from` up are mapped.
  ghost predicate Tops(mem: Mem, t: Tables, top: Top, n: nat, from: nat) {
    Inside(mem, t) &&
    forall x: nat :: x >= n ==> Entry(mem, t, x) == if from <= x < MAXVPN then TopEntry(top, x) else ZERO
  }

  /** The layout of a process's address space: n user pages in frames of their own, the
      trampoline, the trapframe and the usyscall page, and nothing else. */
  ghost predicate Space(mem: Mem, t: Tables, top: Top, n: nat) {
    && Wf(mem, t) && Inside(mem, t) && 0 !in t.Frames() && n <= USYSCALL
    && (forall x: nat :: x < n ==> Entry(mem, t, x).f.v)
    && Freeable(mem, t, 0, n) && Tops(mem, t, top, n, USYSCALL)
  }

  ghost function SpaceFrames(mem: Mem, t: Tables, n: nat): set<nat> {
    t.Frames() + if Inside(mem, t) then LeafFrames(mem, t, 0, n) else {}
  }

  // ---------- proc_pagetable ----------

  // A table under construction that holds the fixed pages from `from` up; all its frames came
  // from the free list.
  ghost predicate Building(m: PhysMem, t: Tables, top: Top, from: nat, mem0: Mem, fs0: set<nat>)
    reads m
  {
    && m.Valid() && m.Holds(t) && 0 !in t.Frames() && Tops(m.mem, t, top, 0, from)
    && t.Frames() + m.FreeSet() == fs0 && SameOutside(mem0, m.mem, fs0)
  }

  lemma NoFreeZero(m: PhysMem)
    requires m.Valid()
    ensures 0 !in m.FreeSet() && m.FreeSet() <= m.mem.Keys
  {
    forall f | f in m.FreeSet() ensures f != 0 && f in m.mem {
      ChainIn(m.mem, m.freelist, m.free, f);
    }
  }

  lemma BuildingStart(m: PhysMem, t: Tables, top: Top, mem0: Mem, fs0: set<nat>)
    requires m.Valid() && m.Holds(t) && NoEntries(m.mem, t) && t.Frames() + m.FreeSet() == fs0 && 0 !in fs0
    requires SameOutside(mem0, m.mem, fs0)
    ensures Building(m, t, top, MAXVPN, mem0, fs0)
  {
    hide Wf, Tables.Frames;
  }

  // One of the fixed pages; on failure nothing is mapped.
  method MapTop(m: PhysMem, root: nat, x: nat, top: Top, ghost t: Tables, ghost mem0: Mem, ghost fs0: set<nat>)
    returns (ok: bool, ghost t': Tables)
    requires Building(m, t, top, x + 1, mem0, fs0) && root == t.root && USYSCALL <= x < MAXVPN && 0 !in fs0
    modifies m
    ensures t'.root == root && Building(m, t', top, if ok then x else x + 1, mem0, fs0)
    ensures if ok then |old(m.free)| <= |m.free| + 2 else |old(m.free)| < 2
  {
    BuildingIs(m, t, top, x + 1, mem0, fs0);
    hide *;
    ghost var mem1, fs1, k := m.mem, m.FreeSet(), 0;
    TopPermLeaf(x);
    VacantOne(m.mem, t, x);
    var r;
    r, t', k := m.MapPages(root, x, 1, TopFrame(top, x), TopPerm(x), t);
    assert !r.Panicked?;
    ok := r.Done?;
    BuildingMore(m, t, t', top, x, mem0, mem1, fs1, fs0, k);
  }

  lemma TopPermLeaf(x: nat)
    ensures IsLeaf(TopPerm(x))
  {
  }

  lemma BuildingIs(m: PhysMem, t: Tables, top: Top, from: nat, mem0: Mem, fs0: set<nat>)
    requires Building(m, t, top, from, mem0, fs0)
    ensures m.Valid() && m.Holds(t) && 0 !in t.Frames() && Tops(m.mem, t, top, 0, from) && Inside(m.mem, t)
    ensures forall x: nat :: x < from || x >= MAXVPN ==> Entry(m.mem, t, x) == ZERO && !Entry(m.mem, t, x).f.v
    ensures forall x: nat :: from <= x < MAXVPN ==> Entry(m.mem, t, x) == TopEntry(top, x) && Entry(m.mem, t, x).f.v
    ensures t.Frames() + m.FreeSet() == fs0 && SameOutside(mem0, m.mem, fs0)
  {
    hide Wf, Tables.Frames;
  }

  lemma BuildingMore(m: PhysMem, t: Tables, t': Tables, top: Top, x: nat, mem0: Mem, mem1: Mem,
                     fs1: set<nat>, fs0: set<nat>, k: nat)
    requires Inside(mem1, t) && Tops(mem1, t, top, 0, x + 1) && t.Frames() + fs1 == fs0 && SameOutside(mem0, mem1, fs0)
    requires m.Valid() && m.Holds(t') && k <= 1 && USYSCALL <= x < MAXVPN && 0 !in fs0
    requires MapsRange(mem1, t, m.mem, t', x, k, TopFrame(top, x), TopPerm(x))
    requires t'.Frames() + m.FreeSet() == t.Frames() + fs1 && SameOutside(mem1, m.mem, t'.Frames())
    ensures Building(m, t', top, x + 1 - k, mem0, fs0)
  {
    hide Wf, Tables.Frames;
  }

  // Taking the lowest fixed page out again.
  method UnmapTop(m: PhysMem, root: nat, x: nat, top: Top, ghost t: Tables, ghost mem0: Mem, ghost fs0: set<nat>)
    requires Building(m, t, top, x, mem0, fs0) && root == t.root && USYSCALL <= x < MAXVPN
    modifies m
    ensures Building(m, t, top, x + 1, mem0, fs0)
  {
    hide *;
    BuildingIs(m, t, top, x, mem0, fs0);
    ghost var mem1, fs1 := m.mem, m.FreeSet();
    LeadingAll(m.mem, t, x, 1, false);
    VpnFits(x, 1);
    var panicked := m.Unmap(root, x, 1, false, t);
    assert !panicked;
    BuildingLess(m, t, top, x, mem0, mem1, fs1, fs0);
  }

  lemma BuildingLess(m: PhysMem, t: Tables, top: Top, x: nat, mem0: Mem, mem1: Mem,
                     fs1: set<nat>, fs0: set<nat>)
    requires Tops(mem1, t, top, 0, x) && t.Frames() + fs1 == fs0 && SameOutside(mem0, mem1, fs0)
    requires 0 !in t.Frames() && m.Valid() && m.Holds(t) && USYSCALL <= x < MAXVPN
    requires Unmapped(mem1, fs1, m.mem, m.FreeSet(), t, x, 1, false)
    ensures Building(m, t, top, x + 1, mem0, fs0)
  {
    hide Wf, Tables.Frames, LeafFrames;
  }

  // uvmfree(pagetable, 0), the end of every failing path of proc_pagetable.
  method Abandon(m: PhysMem, root: nat, top: Top, ghost t: Tables, ghost mem0: Mem, ghost fs0: set<nat>)
    requires Building(m, t, top, MAXVPN, mem0, fs0) && root == t.root
    modifies m
    ensures m.Valid() && m.FreeSet() == fs0 && SameOutside(mem0, m.mem, fs0)
  {
    hide *;
    TopOrder();
    BuildingIs(m, t, top, MAXVPN, mem0, fs0);
    ghost var mem1 := m.mem;
    MappedNone(m.mem, m.FreeSet(), t);
    UvmFree(m, root, 0, t);
    OutsideTrans(mem0, mem1, m.mem, fs0, t.Frames());
  }

  lemma MappedNone(mem: Mem, fs: set<nat>, t: Tables)
    requires Inside(mem, t)
    ensures Pages(0) == 0 && Mapped(mem, fs, t, 0, 0) && LeafFrames(mem, t, 0, 0) == {}
    ensures t.Frames() + LeafFrames(mem, t, 0, Pages(0)) == t.Frames()
  {
  }

  lemma TopOrder()
    ensures 0 < USYSCALL && USYSCALL + 1 == TRAPFRAME && TRAPFRAME + 1 == TRAMPOLINE && TRAMPOLINE + 1 == MAXVPN
  {
  }

  lemma BuildingSpace(m: PhysMem, t: Tables, top: Top, mem0: Mem, fs0: set<nat>)
    requires Building(m, t, top, USYSCALL, mem0, fs0)
    ensures Space(m.mem, t, top, 0) && m.Valid() && m.Holds(t)
    ensures t.Frames() + m.FreeSet() == fs0 && SameOutside(mem0, m.mem, fs0)
  {
  }

  /** proc_pagetable: an address space of no user pages, or, when memory runs out on the way,
      every frame back on the free list. */
  method ProcPagetable(m: PhysMem, top: Top) returns (root: nat, ghost t: Tables)
    requires m.Valid()
    modifies m
    ensures m.Valid() && SameOutside(old(m.mem), m.mem, old(m.FreeSet()))
    ensures root == 0 ==> m.FreeSet() == old(m.FreeSet())
    ensures root != 0 ==> t.root == root && m.Holds(t) && Space(m.mem, t, top, 0)
    ensures root != 0 ==> t.Frames() + m.FreeSet() == old(m.FreeSet())
    ensures if root == 0 then |old(m.free)| < 7 else |old(m.free)| <= |m.free| + 7
  {
    hide *;
    ghost var mem0, fs0 := m.mem, m.FreeSet();
    TopOrder();
    NoFreeZero(m);
    SameAll(mem0, fs0);
    root, t := UvmCreate(m);
    if root == 0 {
      return 0, t;
    }
    BuildingFirst(m, root, t, top, mem0, fs0);
    var ok;
    ok, t := MapTop(m, root, TRAMPOLINE, top, t, mem0, fs0);
    if !ok {
      Abandon(m, root, top, t, mem0, fs0);
      return 0, t;
    }
    ok, t := MapTop(m, root, TRAPFRAME, top, t, mem0, fs0);
    if !ok {
      UnmapTop(m, root, TRAMPOLINE, top, t, mem0, fs0);
      Abandon(m, root, top, t, mem0, fs0);
      return 0, t;
    }
    ok, t := MapTop(m, root, USYSCALL, top, t, mem0, fs0);
    if !ok {
      UnmapTop(m, root, TRAPFRAME, top, t, mem0, fs0);
      UnmapTop(m, root, TRAMPOLINE, top, t, mem0, fs0);
      Abandon(m, root, top, t, mem0, fs0);
      return 0, t;
    }
    BuildingSpace(m, t, top, mem0, fs0);
  }

  lemma SameAll(mem: Mem, fs: set<nat>)
    ensures SameOutside(mem, mem, fs)
  {
  }

  lemma BuildingFirst(m: PhysMem, root: nat, t: Tables, top: Top, mem0: Mem, fs0: set<nat>)
    requires m.Valid() && t == Tables(root, map[], map[]) && m.Holds(t) && NoEntries(m.mem, t)
    requires root in fs0 && m.FreeSet() == fs0 - {root} && 0 !in fs0 && SameOutside(mem0, m.mem, {root})
    ensures Building(m, t, top, MAXVPN, mem0, fs0)
  {
    assert t.Frames() == {root};
    BuildingStart(m, t, top, mem0, fs0);
  }

  // ---------- proc_freepagetable ----------

  lemma SpaceIs(mem: Mem, t: Tables, top: Top, n: nat)
    requires Space(mem, t, top, n)
    ensures Wf(mem, t) && Inside(mem, t) && 0 !in t.Frames() && n <= USYSCALL < MAXVPN && Freeable(mem, t, 0, n)
    ensures forall x: nat :: x < n ==> Entry(mem, t, x).f.v
    ensures forall x: nat :: n <= x < USYSCALL || x >= MAXVPN ==> Entry(mem, t, x) == ZERO
    ensures forall x: nat :: USYSCALL <= x < MAXVPN ==> Entry(mem, t, x) == TopEntry(top, x) && Entry(mem, t, x).f.v
    ensures SpaceFrames(mem, t, n) == t.Frames() + LeafFrames(mem, t, 0, n)
  {
    hide Wf, Tables.Frames, Freeable, LeafFrames;
  }

  lemma ClearedOne(mem: Mem, t: Tables, mem': Mem, x: nat)
    requires ClearsRange(mem, t, mem', x, 1)
    ensures Inside(mem, t) && Inside(mem', t)
    ensures forall y: nat :: Entry(mem', t, y) == if y == x then ZERO else Entry(mem, t, y)
  {
  }

  // Without the fixed pages, the user pages stand as before.
  lemma UserPagesStay(mem: Mem, fs: set<nat>, t: Tables, mem': Mem, n: nat)
    requires Inside(mem, t) && Inside(mem', t) && Mapped(mem, fs, t, 0, n) && mem'.Keys == mem.Keys
    requires forall x: nat :: x < n ==> Entry(mem', t, x) == Entry(mem, t, x)
    ensures Mapped(mem', fs, t, 0, n) && LeafFrames(mem', t, 0, n) == LeafFrames(mem, t, 0, n)
  {
    LeafSame(mem, t, mem', t, 0, n);
    hide LeafFrames, Tables.Frames;
  }

  lemma SameKeys(mem: Mem, mem': Mem, fs: set<nat>)
    requires SameOutside(mem, mem', fs)
    ensures mem'.Keys == mem.Keys
  {
  }

  // With no leaf freed only the tables themselves can have changed.
  lemma UnmappedKeep(mem: Mem, fs: set<nat>, mem': Mem, fs': set<nat>, t: Tables, x: nat)
    requires Unmapped(mem, fs, mem', fs', t, x, 1, false)
    ensures fs' == fs && SameOutside(mem, mem', t.Frames()) && mem'.Keys == mem.Keys
  {
    assert t.Frames() + {} == t.Frames();
    hide Tables.Frames;
  }

  method UnmapFixed(m: PhysMem, root: nat, x: nat, ghost t: Tables)
    requires m.Valid() && m.Holds(t) && root == t.root && x < MAXVPN && Inside(m.mem, t) && Entry(m.mem, t, x).f.v
    modifies m
    ensures m.Valid() && m.Holds(t) && m.FreeSet() == old(m.FreeSet())
    ensures SameOutside(old(m.mem), m.mem, t.Frames()) && m.mem.Keys == old(m.mem).Keys
    ensures Inside(m.mem, t)
    ensures forall y: nat :: Entry(m.mem, t, y) == if y == x then ZERO else Entry(old(m.mem), t, y)
  {
    hide *;
    LeadingAll(m.mem, t, x, 1, false);
    VpnFits(x, 1);
    var panicked := m.Unmap(root, x, 1, false, t);
    assert !panicked;
    UnmappedDone(old(m.mem), old(m.FreeSet()), m.mem, m.FreeSet(), t, x, 1, false);
    ClearedOne(old(m.mem), t, m.mem, x);
    UnmappedKeep(old(m.mem), old(m.FreeSet()), m.mem, m.FreeSet(), t, x);
  }

  /** proc_freepagetable: the table's own pages and the user pages become free; the frames under
      the fixed pages do not.  In the layout above none of its panics can happen. */
  method ProcFreepagetable(m: PhysMem, root: nat, sz: nat, ghost t: Tables, ghost top: Top)
    requires m.Valid() && m.Holds(t) && root == t.root && Space(m.mem, t, top, Pages(sz))
    requires SpaceFrames(m.mem, t, Pages(sz)) !! m.FreeSet()
    modifies m
    ensures m.Valid() && m.FreeSet() == old(m.FreeSet()) + SpaceFrames(old(m.mem), t, Pages(sz))
    ensures SameOutside(old(m.mem), m.mem, SpaceFrames(old(m.mem), t, Pages(sz)))
  {
    hide *;
    TopOrder();
    ghost var mem0, fs0, n := m.mem, m.FreeSet(), Pages(sz);
    SpaceIs(mem0, t, top, n);
    MappedFrom(mem0, fs0, t, n);
    UnmapFixed(m, root, TRAMPOLINE, t);
    ghost var mem1 := m.mem;
    UnmapFixed(m, root, TRAPFRAME, t);
    ghost var mem2 := m.mem;
    UnmapFixed(m, root, USYSCALL, t);
    ghost var mem3 := m.mem;
    OutsideTrans(mem0, mem1, mem2, t.Frames(), t.Frames());
    OutsideTrans(mem0, mem2, mem3, t.Frames(), t.Frames());
    UserPagesStay(mem0, fs0, t, mem3, n);
    ZeroInvalid();
    UvmFree(m, root, sz, t);
    OutsideMore(mem0, mem3, t.Frames(), SpaceFrames(mem0, t, n));
    OutsideTrans(mem0, mem3, m.mem, SpaceFrames(mem0, t, n), SpaceFrames(mem0, t, n));
  }

  lemma ZeroInvalid()
    ensures !ZERO.f.v
  {
  }

  lemma MappedFrom(mem: Mem, fs: set<nat>, t: Tables, n: nat)
    requires Inside(mem, t) && Freeable(mem, t, 0, n) && LeafFrames(mem, t, 0, n) !! fs
    requires forall x: nat :: x < n ==> Entry(mem, t, x).f.v
    ensures Mapped(mem, fs, t, 0, n)
  {
    hide LeafFrames, Freeable;
  }

  lemma OutsideMore(mem: Mem, mem': Mem, a: set<nat>, b: set<nat>)
    requires SameOutside(mem, mem', a) && a <= b
    ensures SameOutside(mem, mem', b)
  {
  }

  // ---------- the process table and who owns what ----------

  datatype State = Unused | Used | Sleeping | Runnable | Running | Zombie

  datatype Proc = Proc(state: State, pid: nat, pagetable: nat, sz: nat, trapframe: nat, usyscall: nat)

  const EMPTY := Proc(Unused, 0, 0, 0, 0, 0)

  lemma EmptyIs()
    ensures EMPTY.state.Unused? && EMPTY.pid == EMPTY.sz == EMPTY.pagetable == EMPTY.trapframe == EMPTY.usyscall == 0
  {
  }

  function TopOf(tramp: nat, p: Proc): Top { Top(tramp, p.trapframe, p.usyscall) }

  // The pid a user program reads at USYSCALL: the first 32 bits of the page.
  function PidOf(page: Frame): nat { Pte(page[0]) % 0x1_0000_0000 }

  ghost function Held(mem: Mem, p: Proc, t: Tables): set<nat> {
    (if p.trapframe != 0 then {p.trapframe} else {}) + (if p.usyscall != 0 then {p.usyscall} else {}) +
    (if p.pagetable != 0 then SpaceFrames(mem, t, Pages(p.sz)) else {})
  }

  ghost predicate Fit(mem: Mem, p: Proc, t: Tables, tramp: nat) {
    && (p.trapframe != 0 ==> p.trapframe in mem) && (p.usyscall != 0 ==> p.usyscall in mem)
    && (p.trapframe != 0 && p.usyscall != 0 ==> p.trapframe != p.usyscall)
    && (p.pagetable == 0 ==> p.sz == 0)
    && (p.pagetable != 0 ==>
          && p.trapframe != 0 && p.usyscall != 0 && p.pagetable == t.root
          && Space(mem, t, TopOf(tramp, p), Pages(p.sz))
          && {p.trapframe, p.usyscall} !! SpaceFrames(mem, t, Pages(p.sz)))
  }

  // A slot between calls is empty, or a process with its own address space and its pid on its
  // usyscall page.
  ghost predicate Settled(mem: Mem, p: Proc) {
    if p.state.Unused? then p == EMPTY
    else p.pagetable != 0 && p.usyscall != 0 && p.usyscall in mem && PidOf(mem[p.usyscall]) == p.pid % 0x1_0000_0000
  }

  ghost predicate Apart(mem: Mem, fs: set<nat>, ps: seq<Proc>, ts: seq<Tables>, kernel: set<nat>)
    requires |ps| == |ts|
  {
    && fs !! kernel
    && (forall i :: 0 <= i < |ps| ==> Held(mem, ps[i], ts[i]) !! fs + kernel)
    && forall i, j :: 0 <= i < |ps| && 0 <= j < |ps| && i != j ==>
         Held(mem, ps[i], ts[i]) !! Held(mem, ps[j], ts[j])
  }

  ghost predicate Covered(mem: Mem, fs: set<nat>, ps: seq<Proc>, ts: seq<Tables>, kernel: set<nat>)
    requires |ps| == |ts|
  {
    forall f :: f in mem && f !in fs && f !in kernel ==> exists i :: 0 <= i < |ps| && f in Held(mem, ps[i], ts[i])
  }

  /** Every frame of memory has exactly one owner: the free list, the kernel, or one process. */
  ghost predicate Owners(mem: Mem, fs: set<nat>, ps: seq<Proc>, ts: seq<Tables>, kernel: set<nat>, tramp: nat) {
    && |ps| == |ts| == NPROC && |mem| <= RAMFRAMES
    && (forall i :: 0 <= i < NPROC ==> Fit(mem, ps[i], ts[i], tramp))
    && Apart(mem, fs, ps, ts, kernel) && Covered(mem, fs, ps, ts, kernel)
  }

  // What a process has is untouched.
  ghost predicate Kept(mem: Mem, mem': Mem, p: Proc, t: Tables) {
    && Held(mem', p, t) == Held(mem, p, t)
    && (p.pagetable != 0 ==> SameEntries(mem, t, mem', t))
    && forall f :: f in Held(mem, p, t) && f in mem ==> f in mem' && mem'[f] == mem[f]
  }

  lemma FrameSpace(mem: Mem, mem': Mem, t: Tables, top: Top, n: nat, touched: set<nat>)
    requires Space(mem, t, top, n) && SameOutside(mem, mem', touched) && SpaceFrames(mem, t, n) !! touched
    ensures Space(mem', t, top, n) && SpaceFrames(mem', t, n) == SpaceFrames(mem, t, n)
    ensures SameEntries(mem, t, mem', t)
  {
    hide Wf, Tables.Frames, LeafFrames;
    Framing(mem, mem', t);
    LeafSame(mem, t, mem', t, 0, n);
  }

  lemma KeptBy(mem: Mem, mem': Mem, p: Proc, t: Tables, tramp: nat, touched: set<nat>)
    requires Fit(mem, p, t, tramp) && SameOutside(mem, mem', touched) && Held(mem, p, t) !! touched
    ensures Fit(mem', p, t, tramp) && Kept(mem, mem', p, t)
    ensures p.usyscall != 0 ==> p.usyscall in mem && p.usyscall in mem' && mem'[p.usyscall] == mem[p.usyscall]
  {
    hide Space, SpaceFrames, Tables.Frames;
    if p.pagetable != 0 {
      FrameSpace(mem, mem', t, TopOf(tramp, p), Pages(p.sz), touched);
    }
  }

  // Every process but k is as before.
  ghost predicate OthersKept(mem: Mem, mem': Mem, ps: seq<Proc>, ps': seq<Proc>,
                             ts: seq<Tables>, ts': seq<Tables>, k: nat) {
    && |ps| == |ps'| == |ts| == |ts'| == NPROC
    && (forall i :: 0 <= i < NPROC && i != k ==> ps'[i] == ps[i] && ts'[i] == ts[i])
    && (forall i :: 0 <= i < NPROC && i != k ==> Kept(mem, mem', ps[i], ts[i]))
    && (forall i :: 0 <= i < NPROC && i != k && Settled(mem, ps[i]) ==> Settled(mem', ps[i]))
  }

  /** One process's step: if its frames and the free ones are exchanged among themselves, and
      nothing else is written, ownership holds again and every other process is untouched. */
  lemma SlotStep(mem: Mem, fs: set<nat>, ps: seq<Proc>, ts: seq<Tables>, kernel: set<nat>, tramp: nat,
                 k: nat, mem': Mem, fs': set<nat>, p': Proc, t': Tables)
    requires Owners(mem, fs, ps, ts, kernel, tramp) && k < NPROC
    requires SameOutside(mem, mem', Held(mem, ps[k], ts[k]) + fs)
    requires Fit(mem', p', t', tramp) && Held(mem', p', t') !! fs'
    requires Held(mem', p', t') + fs' == Held(mem, ps[k], ts[k]) + fs
    ensures Owners(mem', fs', ps[k := p'], ts[k := t'], kernel, tramp)
    ensures OthersKept(mem, mem', ps, ps[k := p'], ts, ts[k := t'], k)
  {
    hide Held, Fit;
    var ps', ts' := ps[k := p'], ts[k := t'];
    forall i | 0 <= i < NPROC && i != k
      ensures Fit(mem', ps[i], ts[i], tramp) && Kept(mem, mem', ps[i], ts[i])
      ensures Held(mem', ps[i], ts[i]) == Held(mem, ps[i], ts[i])
      ensures Settled(mem, ps[i]) ==> Settled(mem', ps[i])
    {
      KeptBy(mem, mem', ps[i], ts[i], tramp, Held(mem, ps[k], ts[k]) + fs);
    }
    SameCount(mem, mem');
    forall f | f in mem' && f !in fs' && f !in kernel
      ensures exists i :: 0 <= i < |ps'| && f in Held(mem', ps'[i], ts'[i])
    {
      if f in Held(mem', p', t') {
        assert f in Held(mem', ps'[k], ts'[k]);
      } else {
        assert f !in fs && f in mem;
        var i :| 0 <= i < |ps| && f in Held(mem, ps[i], ts[i]);
        assert i != k && f in Held(mem', ps'[i], ts'[i]);
      }
    }
  }

  lemma SameCount(mem: Mem, mem': Mem)
    requires mem.Keys == mem'.Keys
    ensures |mem| == |mem'|
  {
    assert |mem| == |mem.Keys| && |mem'| == |mem'.Keys|;
  }

  lemma OwnersAt(mem: Mem, fs: set<nat>, ps: seq<Proc>, ts: seq<Tables>, kernel: set<nat>, tramp: nat, i: nat)
    requires Owners(mem, fs, ps, ts, kernel, tramp) && i < NPROC
    ensures |ps| == |ts| == NPROC && Fit(mem, ps[i], ts[i], tramp) && Held(mem, ps[i], ts[i]) !! fs
  {
    hide Fit, Held;
  }

  lemma OwnersTwo(mem: Mem, fs: set<nat>, ps: seq<Proc>, ts: seq<Tables>, kernel: set<nat>, tramp: nat,
                  i: nat, j: nat)
    requires Owners(mem, fs, ps, ts, kernel, tramp) && i < NPROC && j < NPROC && i != j
    ensures |ps| == |ts| == NPROC && Held(mem, ps[i], ts[i]) !! Held(mem, ps[j], ts[j])
  {
    hide Fit, Held;
  }

  lemma FitSpace(mem: Mem, p: Proc, t: Tables, tramp: nat)
    requires Fit(mem, p, t, tramp) && p.pagetable != 0
    ensures p.trapframe != 0 && p.usyscall != 0 && p.pagetable == t.root && p.trapframe != p.usyscall
    ensures p.trapframe in mem && p.usyscall in mem
    ensures Space(mem, t, TopOf(tramp, p), Pages(p.sz))
    ensures {p.trapframe, p.usyscall} !! SpaceFrames(mem, t, Pages(p.sz))
    ensures Held(mem, p, t) == {p.trapframe, p.usyscall} + SpaceFrames(mem, t, Pages(p.sz))
    ensures Inside(mem, t) && Wf(mem, t) && t.Frames() <= Held(mem, p, t)
    ensures LeafFrames(mem, t, 0, Pages(p.sz)) <= Held(mem, p, t)
  {
    hide Space, LeafFrames, Tables.Frames;
    SpaceIs(mem, t, TopOf(tramp, p), Pages(p.sz));
  }

  // ---------- the operations ----------

  const NOTABLES := Tables(0, map[], map[])

  lemma EmptyFits(mem: Mem, fs: set<nat>, tramp: nat)
    ensures Fit(mem, EMPTY, NOTABLES, tramp) && Held(mem, EMPTY, NOTABLES) == {}
    ensures Held(mem, EMPTY, NOTABLES) + fs == fs
  {
  }

  lemma BootOwners(mem: Mem, fs: set<nat>, ps: seq<Proc>, ts: seq<Tables>, kernel: set<nat>, tramp: nat)
    requires |ps| == |ts| == NPROC && |mem| <= RAMFRAMES && kernel == mem.Keys - fs
    requires forall i :: 0 <= i < NPROC ==> ps[i] == EMPTY && ts[i] == NOTABLES
    ensures Owners(mem, fs, ps, ts, kernel, tramp)
  {
    EmptyFits(mem, fs, tramp);
    hide Held, Fit;
    assert forall i :: 0 <= i < NPROC ==> Held(mem, ps[i], ts[i]) == {};
  }

  // ---------- how growing and shrinking change a space ----------

  lemma {:induction false} LeafSplit(mem: Mem, t: Tables, n: nat, k: nat)
    requires Inside(mem, t)
    ensures LeafFrames(mem, t, 0, n + k) == LeafFrames(mem, t, 0, n) + LeafFrames(mem, t, n, k)
  {
    if k > 0 { LeafSplit(mem, t, n, k - 1); }
  }

  // Distinct frames of memory: no more pages than frames.
  lemma {:induction false} LeafCount(mem: Mem, t: Tables, n: nat)
    requires Inside(mem, t) && Freeable(mem, t, 0, n)
    ensures |LeafFrames(mem, t, 0, n)| == n
  {
    if n > 0 {
      LeafCount(mem, t, n - 1);
      LeafHas(mem, t, 0, n - 1, Entry(mem, t, n - 1).ppn);
    }
  }

  function Elements(s: seq<nat>): set<nat> { set f | f in s }

  lemma ConsElements(x: nat, rest: seq<nat>)
    ensures Elements([x] + rest) == Elements(rest) + {x} && (x in Elements(rest) <==> x in rest)
  {
  }

  lemma {:induction false} FreeCount(free: seq<nat>)
    requires Distinct(free)
    ensures |Elements(free)| == |free|
  {
    if free != [] {
      var rest, x := free[1..], free[0];
      assert x !in rest && Distinct(rest);
      FreeCount(rest);
      ConsElements(x, rest);
      hide Elements, Distinct;
      assert free == [x] + rest;
    }
  }

  lemma SubsetCount(a: set<nat>, b: set<nat>)
    requires a <= b
    ensures |a| <= |b|
  {
    DisjointCount(a, b - a);
    assert b == a + (b - a);
  }

  lemma DisjointCount(a: set<nat>, b: set<nat>)
    requires a !! b
    ensures |a + b| == |a| + |b|
  {
    assert |a + b| + |a * b| == |a| + |b|;
    assert a * b == {};
  }

  // User pages and free frames together fit in memory.
  lemma PagesAndFree(m: PhysMem, t: Tables, n: nat)
    requires m.Valid() && Inside(m.mem, t) && Freeable(m.mem, t, 0, n) && LeafFrames(m.mem, t, 0, n) !! m.FreeSet()
    requires |m.mem| <= RAMFRAMES
    ensures n + |m.free| <= RAMFRAMES
  {
    LeafCount(m.mem, t, n);
    FreeCount(m.free);
    assert Elements(m.free) == m.FreeSet();
    NoFreeZero(m);
    FreeableApart(m.mem, t, 0, n);
    assert |m.mem| == |m.mem.Keys|;
    SubsetCount(LeafFrames(m.mem, t, 0, n) + m.FreeSet(), m.mem.Keys);
    hide LeafFrames, Freeable, Chain;
    DisjointCount(LeafFrames(m.mem, t, 0, n), m.FreeSet());
  }

  // Below n the pages have the same frames, rights and bytes.
  ghost predicate PagesKept(mem: Mem, t: Tables, mem': Mem, t': Tables, n: nat) {
    && Inside(mem, t) && Inside(mem', t')
    && forall x: nat :: x < n ==> PageKept(mem, t, mem', t', x)
  }

  ghost predicate PageKept(mem: Mem, t: Tables, mem': Mem, t': Tables, x: nat)
    requires Inside(mem, t) && Inside(mem', t')
  {
    var e := Entry(mem, t, x);
    Entry(mem', t', x) == e && e.ppn in mem && e.ppn in mem' && mem'[e.ppn] == mem[e.ppn]
  }

  lemma GrewKept(mem: Mem, fs: set<nat>, t: Tables, mem': Mem, fs': set<nat>, t': Tables,
                 n: nat, pages: seq<Page>)
    requires Grew(mem, fs, t, mem', fs', t', n, pages)
    requires Inside(mem, t) && Freeable(mem, t, 0, n) && LeafFrames(mem, t, 0, n) !! fs
    ensures PagesKept(mem, t, mem', t', n)
    ensures Freeable(mem', t', 0, n + |pages|)
    ensures LeafFrames(mem', t', 0, n + |pages|) == LeafFrames(mem, t, 0, n) + LeafFrames(mem', t', n, |pages|)
  {
    hide LeafFrames, Tables.Frames, GrewEntries, FreeablePage;
    forall x: nat | x < n
      ensures PageKept(mem, t, mem', t', x) && FreeablePage(mem', t', Entry(mem', t', x).ppn)
      ensures Entry(mem, t, x).ppn !in fs
    {
      GrewKeeps(mem, fs, t, mem', fs', t', 0, n, pages, x);
    }
    LeafSame(mem, t, mem', t', 0, n);
    LeafSplit(mem', t', n, |pages|);
    forall x: nat | n <= x < n + |pages|
      ensures FreeablePage(mem', t', Entry(mem', t', x).ppn) && Entry(mem', t', x).ppn in fs
    {
      LeafRangeIn(mem', t', n, |pages|, x);
    }
  }

  /** Growing a space: it has its layout again, and its frames and the free ones are together
      what they were. */
  lemma GrewSpace(mem: Mem, fs: set<nat>, t: Tables, top: Top, n: nat, m: PhysMem, t': Tables, pages: seq<Page>)
    requires Space(mem, t, top, n) && SpaceFrames(mem, t, n) !! fs && 0 !in fs
    requires Grew(mem, fs, t, m.mem, m.FreeSet(), t', n, pages) && m.Holds(t') && m.Valid()
    requires (forall i :: 0 <= i < |pages| ==> pages[i].f.v) && |m.mem| <= RAMFRAMES
    ensures Space(m.mem, t', top, n + |pages|) && n + |pages| <= RAMFRAMES
    ensures SpaceFrames(m.mem, t', n + |pages|) + m.FreeSet() == SpaceFrames(mem, t, n) + fs
    ensures SpaceFrames(m.mem, t', n + |pages|) !! m.FreeSet()
    ensures PagesKept(mem, t, m.mem, t', n) && SameOutside(mem, m.mem, SpaceFrames(mem, t, n) + fs)
  {
    hide LeafFrames, Tables.Frames, Wf, Freeable, SameEntries, Chain, Distinct;
    var mem', fs' := m.mem, m.FreeSet();
    GrewKept(mem, fs, t, mem', fs', t', n, pages);
    FreeableApart(mem, t, 0, n);
    GrewMapped(mem, fs, t, mem', fs', t', n, pages);
    SpaceSets(t.Frames(), LeafFrames(mem, t, 0, n), fs, t'.Frames(), LeafFrames(mem', t', n, |pages|), fs');
    PagesAndFree(m, t', n + |pages|);
    assert forall x: nat :: x < n ==> PageKept(mem, t, mem', t', x);
  }

  lemma SpaceSets(t: set<nat>, l: set<nat>, fs: set<nat>, t': set<nat>, l': set<nat>, fs': set<nat>)
    requires t' + fs' + l' == t + fs && t + l !! fs && l !! t && t <= t' && l' <= fs && l' !! fs' && t' !! fs'
    ensures t' + (l + l') + fs' == t + l + fs && t' + (l + l') !! fs' && (0 in t' ==> 0 in t + fs)
    ensures t' + fs <= t + l + fs
  {
  }

  /** Shrinking a space: the same, the pages below the cut kept. */
  lemma CutSpace(mem: Mem, fs: set<nat>, t: Tables, top: Top, n: nat, n2: nat, mem': Mem, fs': set<nat>)
    requires Space(mem, t, top, n) && SpaceFrames(mem, t, n) !! fs && n2 <= n && Wf(mem', t)
    requires Unmapped(mem, fs, mem', fs', t, n2, n - n2, true)
    ensures Space(mem', t, top, n2) && SpaceFrames(mem', t, n2) + fs' == SpaceFrames(mem, t, n) + fs
    ensures SpaceFrames(mem', t, n2) !! fs'
    ensures PagesKept(mem, t, mem', t, n2) && SameOutside(mem, mem', SpaceFrames(mem, t, n) + fs)
  {
    hide LeafFrames, Tables.Frames, Wf;
    LeafSplit(mem, t, n2, n - n2);
    FreeableApart(mem, t, 0, n);
    CutApart(mem, t, n2, n - n2);
    LeafSame(mem, t, mem', t, 0, n2);
    forall x: nat | x < n2 ensures PageKept(mem, t, mem', t, x) {
      LeafRangeIn(mem, t, 0, n2, x);
    }
  }

  lemma CutApart(mem: Mem, t: Tables, n: nat, k: nat)
    requires Inside(mem, t) && Freeable(mem, t, 0, n + k)
    ensures LeafFrames(mem, t, 0, n) !! LeafFrames(mem, t, n, k)
  {
    forall f | f in LeafFrames(mem, t, 0, n) && f in LeafFrames(mem, t, n, k) ensures false {
      LeafHas(mem, t, 0, n, f);
      LeafHas(mem, t, n, k, f);
      hide LeafFrames;
    }
  }

  // A process whose space was exchanged for one made of its frames and free ones.
  lemma Respaced(mem: Mem, fs: set<nat>, p: Proc, t: Tables, tramp: nat, mem': Mem, fs': set<nat>,
                 t': Tables, sz: nat)
    requires Fit(mem, p, t, tramp) && p.pagetable != 0 && Held(mem, p, t) !! fs && mem'.Keys == mem.Keys
    requires Space(mem', t', TopOf(tramp, p), Pages(sz)) && t'.root == t.root
    requires SpaceFrames(mem', t', Pages(sz)) + fs' == SpaceFrames(mem, t, Pages(p.sz)) + fs
    requires SpaceFrames(mem', t', Pages(sz)) !! fs'
    requires SameOutside(mem, mem', SpaceFrames(mem, t, Pages(p.sz)) + fs)
    ensures Fit(mem', p.(sz := sz), t', tramp) && Held(mem', p.(sz := sz), t') !! fs'
    ensures Held(mem', p.(sz := sz), t') + fs' == Held(mem, p, t) + fs
    ensures SameOutside(mem, mem', Held(mem, p, t) + fs)
    ensures mem'[p.usyscall] == mem[p.usyscall] && (Settled(mem, p) ==> Settled(mem', p.(sz := sz)))
  {
    hide Space, SpaceFrames;
    assert p.trapframe !in SpaceFrames(mem', t', Pages(sz)) + fs';
    assert p.usyscall !in SpaceFrames(mem', t', Pages(sz)) + fs';
  }

  // An earlier state to compare with.
  datatype Snap = Snap(mem: Mem, proc: seq<Proc>, tab: seq<Tables>)

  lemma OthersTrans(mem: Mem, mem1: Mem, mem2: Mem, ps: seq<Proc>, ps1: seq<Proc>, ps2: seq<Proc>,
                    ts: seq<Tables>, ts1: seq<Tables>, ts2: seq<Tables>, k: nat)
    requires OthersKept(mem, mem1, ps, ps1, ts, ts1, k) && OthersKept(mem1, mem2, ps1, ps2, ts1, ts2, k)
    ensures OthersKept(mem, mem2, ps, ps2, ts, ts2, k)
  {
    hide Held, Settled, SameEntries, Kept;
    forall i | 0 <= i < NPROC && i != k ensures Kept(mem, mem2, ps[i], ts[i]) {
      assert ps1[i] == ps[i] && ts1[i] == ts[i];
      KeptTrans(mem, mem1, mem2, ps[i], ts[i]);
    }
  }

  lemma KeptTrans(mem: Mem, mem1: Mem, mem2: Mem, p: Proc, t: Tables)
    requires Kept(mem, mem1, p, t) && Kept(mem1, mem2, p, t)
    ensures Kept(mem, mem2, p, t)
  {
    hide Held;
  }

  class ProcTable {
    const m: PhysMem
    const trampoline: nat
    ghost const kernel: set<nat>
    var proc: seq<Proc>
    var nextpid: nat
    ghost var tab: seq<Tables>

    ghost predicate Owned()
      reads this, m
    {
      m.Valid() && Owners(m.mem, m.FreeSet(), proc, tab, kernel, trampoline)
    }

    ghost predicate Inv()
      reads this, m
    {
      Owned() && forall i :: 0 <= i < NPROC ==> Settled(m.mem, proc[i])
    }

    /** procinit over a memory some of whose frames are free; the others are the kernel's. */
    constructor (m: PhysMem, trampoline: nat)
      requires m.Valid() && |m.mem| <= RAMFRAMES
      ensures Inv() && this.m == m && nextpid == 1 && forall i :: 0 <= i < NPROC ==> proc[i] == EMPTY
      ensures kernel == m.mem.Keys - m.FreeSet()
    {
      this.m, this.trampoline, kernel := m, trampoline, m.mem.Keys - m.FreeSet();
      proc, tab, nextpid := seq(NPROC, i => EMPTY), seq(NPROC, i => NOTABLES), 1;
      new;
      BootOwners(m.mem, m.FreeSet(), proc, tab, kernel, trampoline);
    }

    /** freeproc: everything the process holds becomes free, and its slot is empty.  Any of its
        three parts may be missing. */
    method Freeproc(k: nat, ghost s0: Snap)
      requires Since(s0, k) && Owned() && k < NPROC
      modifies this, m
      ensures Owned() && Since(s0, k)
      ensures |proc| == |tab| == NPROC && proc[k] == EMPTY && nextpid == old(nextpid)
      ensures proc[k].state.Unused? && proc[k].pid == proc[k].sz == proc[k].pagetable == 0
      ensures proc[k].trapframe == proc[k].usyscall == 0
      ensures m.FreeSet() == old(Held(m.mem, proc[k], tab[k]) + m.FreeSet())
    {
      hide *;
      ghost var mem0, fs0, ps, ts := m.mem, m.FreeSet(), proc, tab;
      SinceIs(s0, k);
      OwnedAt(k);
      FreeParts(proc[k], tab[k]);
      EmptyIs();
      proc := proc[k := EMPTY];
      tab := tab[k := NOTABLES];
      EmptyFits(m.mem, m.FreeSet(), trampoline);
      OutsideMore(mem0, m.mem, Held(mem0, ps[k], ts[k]), Held(mem0, ps[k], ts[k]) + fs0);
      SlotStep(mem0, fs0, ps, ts, kernel, trampoline, k, m.mem, m.FreeSet(), EMPTY, NOTABLES);
      FoldOwned();
      SinceTrans(s0, mem0, ps, ts, k);
    }

    lemma FoldOwned()
      requires m.Valid() && Owners(m.mem, m.FreeSet(), proc, tab, kernel, trampoline)
      ensures Owned()
    {
    }

    lemma OwnedAt(k: nat)
      requires Owned() && k < NPROC
      ensures m.Valid() && Owners(m.mem, m.FreeSet(), proc, tab, kernel, trampoline)
      ensures |proc| == |tab| == NPROC && Fit(m.mem, proc[k], tab[k], trampoline)
      ensures Held(m.mem, proc[k], tab[k]) !! m.FreeSet()
    {
      OwnersAt(m.mem, m.FreeSet(), proc, tab, kernel, trampoline, k);
    }

    method FreeParts(p: Proc, ghost t: Tables)
      requires m.Valid() && Fit(m.mem, p, t, trampoline) && Held(m.mem, p, t) !! m.FreeSet()
      modifies m
      ensures m.Valid() && m.FreeSet() == old(m.FreeSet()) + Held(old(m.mem), p, t)
      ensures SameOutside(old(m.mem), m.mem, Held(old(m.mem), p, t))
    {
      hide Chain, Distinct, Wf, Space, SpaceFrames, Tables.Frames;
      if p.trapframe != 0 {
        var panicked := m.Kfree(p.trapframe * PGSIZE);
        assert !panicked;
      }
      if p.usyscall != 0 {
        var panicked := m.Kfree(p.usyscall * PGSIZE);
        assert !panicked;
      }
      if p.pagetable != 0 {
        FrameSpace(old(m.mem), m.mem, t, TopOf(trampoline, p), Pages(p.sz), {p.trapframe, p.usyscall});
        SpaceIs(m.mem, t, TopOf(trampoline, p), Pages(p.sz));
        ProcFreepagetable(m, p.pagetable, p.sz, t, TopOf(trampoline, p));
      }
    }

    // Only process k differs from the state s0.
    ghost predicate Since(s0: Snap, k: nat)
      reads this, m
    {
      OthersKept(s0.mem, m.mem, s0.proc, proc, s0.tab, tab, k)
    }

    lemma SinceTrans(s0: Snap, mem1: Mem, ps1: seq<Proc>, ts1: seq<Tables>, k: nat)
      requires OthersKept(s0.mem, mem1, s0.proc, ps1, s0.tab, ts1, k)
      requires OthersKept(mem1, m.mem, ps1, proc, ts1, tab, k)
      ensures Since(s0, k)
    {
      OthersTrans(s0.mem, mem1, m.mem, s0.proc, ps1, proc, s0.tab, ts1, tab, k);
    }

    lemma SinceIs(s0: Snap, k: nat)
      requires Since(s0, k)
      ensures OthersKept(s0.mem, m.mem, s0.proc, proc, s0.tab, tab, k)
      ensures |s0.proc| == |proc| == |s0.tab| == |tab| == NPROC
      ensures forall i :: 0 <= i < NPROC && i != k ==> proc[i] == s0.proc[i] && tab[i] == s0.tab[i]
      ensures forall i :: 0 <= i < NPROC && i != k && Settled(s0.mem, s0.proc[i]) ==> Settled(m.mem, proc[i])
    {
      hide Held, Kept, Settled;
    }

    // kalloc into the trapframe field, or the usyscall field, of a process being built.
    method TakePage(k: nat, second: bool, ghost s0: Snap) returns (f: nat)
      requires Since(s0, k) && Owned() && k < NPROC && |proc| == |tab| == NPROC && proc[k].pagetable == 0
      requires proc[k].usyscall == 0 && (!second ==> proc[k].trapframe == 0)
      modifies this, m
      ensures Owned() && Since(s0, k)
      ensures |proc| == |tab| == NPROC && nextpid == old(nextpid)
      ensures proc[k] == if second then old(proc)[k].(usyscall := f) else old(proc)[k].(trapframe := f)
      ensures Held(m.mem, proc[k], tab[k]) + m.FreeSet() == old(Held(m.mem, proc[k], tab[k]) + m.FreeSet())
      ensures if f == 0 then |old(m.free)| == 0 else |m.free| == |old(m.free)| - 1
    {
      hide *;
      SinceIs(s0, k);
      OwnedAt(k);
      ghost var mem0, fs0, ps, ts := m.mem, m.FreeSet(), proc, tab;
      NoFreeZero(m);
      f := m.Kalloc();
      var p := proc[k];
      proc := proc[k := if second then p.(usyscall := f) else p.(trapframe := f)];
      tab := tab[k := tab[k]];
      PageFits(mem0, fs0, p, ts[k], trampoline, m, f, second);
      SlotStep(mem0, fs0, ps, ts, kernel, trampoline, k, m.mem, m.FreeSet(), proc[k], ts[k]);
      FoldOwned();
      SinceTrans(s0, mem0, ps, ts, k);
    }

    // proc_pagetable into the process being built.
    method TakeTable(k: nat, ghost s0: Snap) returns (root: nat)
      requires Since(s0, k) && Owned() && k < NPROC && |proc| == |tab| == NPROC && proc[k].pagetable == 0
      requires proc[k].trapframe != 0 && proc[k].usyscall != 0
      modifies this, m
      ensures Owned() && Since(s0, k)
      ensures |proc| == |tab| == NPROC && nextpid == old(nextpid)
      ensures proc[k] == old(proc)[k].(pagetable := root)
      ensures Held(m.mem, proc[k], tab[k]) + m.FreeSet() == old(Held(m.mem, proc[k], tab[k]) + m.FreeSet())
      ensures if root == 0 then |old(m.free)| < 7 else |old(m.free)| <= |m.free| + 7
    {
      hide *;
      SinceIs(s0, k);
      OwnedAt(k);
      ghost var mem0, fs0, ps, ts, t := m.mem, m.FreeSet(), proc, tab, tab[k];
      NoFreeZero(m);
      var p := proc[k];
      root, t := ProcPagetable(m, TopOf(trampoline, p));
      proc := proc[k := p.(pagetable := root)];
      tab := tab[k := t];
      TableFits(mem0, fs0, p, ts[k], trampoline, m, root, t);
      SlotStep(mem0, fs0, ps, ts, kernel, trampoline, k, m.mem, m.FreeSet(), proc[k], t);
      FoldOwned();
      SinceTrans(s0, mem0, ps, ts, k);
    }

    // p->usyscall->pid = p->pid
    method WritePid(k: nat, ghost s0: Snap)
      requires Since(s0, k) && Owned() && k < NPROC && |proc| == |tab| == NPROC && proc[k].pagetable != 0
      requires !proc[k].state.Unused?
      modifies m
      ensures Owned() && Since(s0, k)
      ensures Settled(m.mem, proc[k]) && m.free == old(m.free)
      ensures Held(m.mem, proc[k], tab[k]) + m.FreeSet() == old(Held(m.mem, proc[k], tab[k]) + m.FreeSet())
    {
      hide *;
      SinceIs(s0, k);
      OwnedAt(k);
      ghost var mem0, fs0, ps, ts := m.mem, m.FreeSet(), proc, tab;
      FitSpace(m.mem, proc[k], tab[k], trampoline);
      var us := proc[k].usyscall;
      var page := m.mem[us];
      StorePage(m, us, page[0 := WithPid(page[0], proc[k].pid)]);
      WritePidFits(mem0, fs0, proc[k], tab[k], trampoline, m, us);
      assert ps[k := ps[k]] == ps && ts[k := ts[k]] == ts;
      SlotStep(mem0, fs0, ps, ts, kernel, trampoline, k, m.mem, m.FreeSet(), proc[k], tab[k]);
      FoldOwned();
      SinceTrans(s0, mem0, ps, ts, k);
    }

    // The scan of the process table.
    method FindUnused() returns (k: nat)
      requires |proc| == NPROC
      ensures k <= NPROC && (k < NPROC ==> proc[k].state.Unused?)
      ensures k == NPROC ==> forall i :: 0 <= i < NPROC ==> !proc[i].state.Unused?
    {
      k := 0;
      while k < NPROC && !proc[k].state.Unused?
        invariant k <= NPROC && forall i :: 0 <= i < k ==> !proc[i].state.Unused?
      {
        k := k + 1;
      }
    }

    method Claim(k: nat)
      requires Inv() && k < NPROC && |proc| == |tab| == NPROC && proc[k] == EMPTY
      modifies this
      ensures Owned() && Since(Snap(old(m.mem), old(proc), old(tab)), k)
      ensures |proc| == |tab| == NPROC && nextpid == old(nextpid) + 1
      ensures proc[k] == Proc(Used, old(nextpid), 0, 0, 0, 0)
      ensures Held(m.mem, proc[k], tab[k]) + m.FreeSet() == m.FreeSet()
    {
      ghost var ps, ts := proc, tab;
      OwnedAt(k);
      var pid := nextpid;
      nextpid := nextpid + 1;
      proc := proc[k := EMPTY.(state := Used, pid := pid)];
      tab := tab[k := tab[k]];
      hide Space, SpaceFrames, Apart, Covered, Owners;
      SameAll(m.mem, Held(m.mem, ps[k], ts[k]) + m.FreeSet());
      SlotStep(m.mem, m.FreeSet(), ps, ts, kernel, trampoline, k, m.mem, m.FreeSet(), proc[k], ts[k]);
    }

    lemma InvIs()
      requires Inv()
      ensures Owned() && |proc| == |tab| == NPROC && Owners(m.mem, m.FreeSet(), proc, tab, kernel, trampoline)
      ensures m.Valid() && forall i :: 0 <= i < NPROC ==> Settled(m.mem, proc[i])
      ensures forall i :: 0 <= i < NPROC && proc[i].state.Unused? ==> proc[i] == EMPTY
      ensures forall i :: 0 <= i < NPROC && !proc[i].state.Unused? ==> proc[i].pagetable != 0
    {
      hide Held, Fit;
    }

    lemma FoldInv(s0: Snap, k: nat)
      requires Owned() && Since(s0, k) && (k < NPROC ==> Settled(m.mem, proc[k]))
      requires forall i :: 0 <= i < NPROC ==> Settled(s0.mem, s0.proc[i])
      ensures Inv()
    {
      hide Held, Fit, Kept;
    }

    lemma SinceSelf(k: nat)
      requires Owned()
      ensures Since(Snap(m.mem, proc, tab), k)
    {
      hide Held, Settled, Space;
      forall i | 0 <= i < NPROC && i != k ensures Kept(m.mem, m.mem, proc[i], tab[i]) {
        OwnersAt(m.mem, m.FreeSet(), proc, tab, kernel, trampoline, i);
        if proc[i].pagetable != 0 { FitSpace(m.mem, proc[i], tab[i], trampoline); }
      }
    }

    lemma EmptySettled(mem: Mem)
      ensures Settled(mem, EMPTY)
    {
    }

    /** allocproc: a USED process with an address space of no user pages and its pid readable at
        USYSCALL; or nothing at all, every frame free again, and then only because the table is
        full or memory short. */
    method Allocproc() returns (k: nat, ghost slot: nat)
      requires Inv()
      modifies this, m
      ensures Inv() && k <= NPROC && slot <= NPROC && |proc| == |tab| == |old(proc)| == NPROC
      ensures Since(Snap(old(m.mem), old(proc), old(tab)), slot)
      ensures slot < NPROC ==> old(proc)[slot] == EMPTY
      ensures k < NPROC ==> slot == k && proc[k].state == Used && proc[k].pagetable != 0
      ensures k < NPROC ==> proc[k].pid == old(nextpid) && proc[k].sz == 0 && nextpid == old(nextpid) + 1
      ensures k < NPROC ==> Held(m.mem, proc[k], tab[k]) + m.FreeSet() == old(m.FreeSet())
      ensures k < NPROC ==> |old(m.free)| <= |m.free| + 9
      ensures k == NPROC ==> proc == old(proc) && m.FreeSet() == old(m.FreeSet())
      ensures k == NPROC ==> |old(m.free)| < 9 || forall i :: 0 <= i < NPROC ==> !old(proc)[i].state.Unused?
    {
      hide *;
      InvIs();
      k := FindUnused();
      slot := k;
      if k == NPROC {
        SinceSelf(NPROC);
        return;
      }
      ghost var s0 := Snap(m.mem, proc, tab);
      Claim(k);
      var ok := Equip(k, s0);
      if !ok {
        EmptySettled(m.mem);
        SinceIs(s0, k);
        FoldInv(s0, k);
        assert proc == old(proc);
        return NPROC, k;
      }
      FoldInv(s0, k);
    }

    // The three allocations of allocproc, each backing out through freeproc.
    method Equip(k: nat, ghost s0: Snap) returns (ok: bool)
      requires Since(s0, k) && Owned() && k < NPROC && |proc| == |tab| == NPROC
      requires proc[k] == Proc(Used, proc[k].pid, 0, 0, 0, 0)
      modifies this, m
      ensures Owned() && Since(s0, k) && |proc| == |tab| == NPROC && nextpid == old(nextpid)
      ensures !ok ==> proc[k] == EMPTY && m.FreeSet() == old(Held(m.mem, proc[k], tab[k]) + m.FreeSet())
      ensures if ok then |old(m.free)| <= |m.free| + 9 else |old(m.free)| < 9
      ensures ok ==> Settled(m.mem, proc[k]) && proc[k].state == Used && proc[k].pagetable != 0
      ensures ok ==> proc[k].pid == old(proc)[k].pid && proc[k].sz == 0
      ensures ok ==> Held(m.mem, proc[k], tab[k]) + m.FreeSet() == old(Held(m.mem, proc[k], tab[k]) + m.FreeSet())
    {
      hide *;
      var tf := TakePage(k, false, s0);
      if tf == 0 {
        Freeproc(k, s0);
        return false;
      }
      var us := TakePage(k, true, s0);
      if us == 0 {
        Freeproc(k, s0);
        return false;
      }
      var root := TakeTable(k, s0);
      if root == 0 {
        Freeproc(k, s0);
        return false;
      }
      WritePid(k, s0);
      ok := true;
    }

    // Process i now has size sz; its pages below the old size are kept, those above are fresh.
    ghost predicate Resized(s0: Snap, i: nat, sz: nat)
      reads this, m
    {
      && |s0.proc| == |s0.tab| == |proc| == |tab| == NPROC && i < NPROC
      && proc == s0.proc[i := s0.proc[i].(sz := sz)]
      && PagesKept(s0.mem, s0.tab[i], m.mem, tab[i], Min(Pages(sz), Pages(s0.proc[i].sz)))
      && forall x: nat :: Pages(s0.proc[i].sz) <= x < Pages(sz) ==>
           FreshPage(m.mem, tab[i], x, UserRights(WONLY))
    }

    lemma FoldResized(s0: Snap, i: nat, sz: nat)
      requires |s0.proc| == |s0.tab| == |proc| == |tab| == NPROC && i < NPROC
      requires proc == s0.proc[i := s0.proc[i].(sz := sz)] && Inside(m.mem, tab[i])
      requires PagesKept(s0.mem, s0.tab[i], m.mem, tab[i], Min(Pages(sz), Pages(s0.proc[i].sz)))
      requires forall x: nat :: Pages(s0.proc[i].sz) <= x < Pages(sz) ==>
        FreshPage(m.mem, tab[i], x, UserRights(WONLY))
      ensures Resized(s0, i, sz)
    {
    }

    // A change of process i within its own and the free frames.
    lemma Install(s0: Snap, fs0: set<nat>, i: nat)
      requires Owners(s0.mem, fs0, s0.proc, s0.tab, kernel, trampoline) && i < NPROC && m.Valid()
      requires forall j :: 0 <= j < NPROC ==> Settled(s0.mem, s0.proc[j])
      requires |proc| == |tab| == NPROC && proc == s0.proc[i := proc[i]] && tab == s0.tab[i := tab[i]]
      requires Fit(m.mem, proc[i], tab[i], trampoline) && Held(m.mem, proc[i], tab[i]) !! m.FreeSet()
      requires Held(m.mem, proc[i], tab[i]) + m.FreeSet() == Held(s0.mem, s0.proc[i], s0.tab[i]) + fs0
      requires SameOutside(s0.mem, m.mem, Held(s0.mem, s0.proc[i], s0.tab[i]) + fs0)
      requires Settled(m.mem, proc[i])
      ensures Inv() && Since(s0, i)
    {
      hide Fit, Held, Kept, Settled, SameOutside;
      SlotStep(s0.mem, fs0, s0.proc, s0.tab, kernel, trampoline, i, m.mem, m.FreeSet(), proc[i], tab[i]);
      hide Owners, Apart, Covered;
      FoldInv(s0, i);
    }

    // The branch of growproc that adds.
    method Enlarge(i: nat, n: nat) returns (ok: bool)
      requires Inv() && i < NPROC && |proc| == |tab| == NPROC && !proc[i].state.Unused? && n > 0
      modifies this, m
      ensures Inv() && Since(Snap(old(m.mem), old(proc), old(tab)), i) && |proc| == |tab| == |old(proc)| == NPROC
      ensures Resized(Snap(old(m.mem), old(proc), old(tab)), i, old(proc)[i].sz + if ok then n else 0)
      ensures Held(m.mem, proc[i], tab[i]) + m.FreeSet() == old(Held(m.mem, proc[i], tab[i]) + m.FreeSet())
      ensures !ok ==> |old(m.free)| < 3 * Freed(old(proc)[i].sz + n, old(proc)[i].sz)
    {
      hide *;
      ghost var s0, fs0, t := Snap(m.mem, proc, tab), m.FreeSet(), tab[i];
      InvIs();
      OwnedAt(i);
      var p := proc[i];
      ghost var top := TopOf(trampoline, p);
      FitSpace(m.mem, p, t, trampoline);
      SpaceIs(m.mem, t, top, Pages(p.sz));
      SpaceHolds(m, p, t, top);
      RoomToGrow(m, t, top, Pages(p.sz));
      NoFreeZero(m);
      FreedMore(p.sz + n, p.sz);
      PagesFacts(p.sz, p.sz + n);
      var r;
      ghost var done;
      r, done, t := UvmAlloc(m, p.pagetable, p.sz, p.sz + n, WONLY, t);
      ok := r != 0;
      if ok {
        proc := proc[i := p.(sz := r)];
      }
      tab := tab[i := t];
      EnlargeFits(s0, fs0, m, i, trampoline, t, p.sz + n, done);
      Install(s0, fs0, i);
      MinIs(Pages(proc[i].sz), Pages(p.sz));
      FoldResized(s0, i, proc[i].sz);
    }

    // The branch of growproc that takes away.
    method Shrink(i: nat, newsz: nat)
      requires Inv() && i < NPROC && |proc| == |tab| == NPROC && !proc[i].state.Unused?
      modifies this, m
      ensures Inv() && Since(Snap(old(m.mem), old(proc), old(tab)), i) && |proc| == |tab| == |old(proc)| == NPROC
      ensures Resized(Snap(old(m.mem), old(proc), old(tab)), i, Min(newsz, old(proc)[i].sz))
      ensures Held(m.mem, proc[i], tab[i]) + m.FreeSet() == old(Held(m.mem, proc[i], tab[i]) + m.FreeSet())
    {
      hide *;
      ghost var s0, fs0, t := Snap(m.mem, proc, tab), m.FreeSet(), tab[i];
      InvIs();
      OwnedAt(i);
      var p := proc[i];
      ghost var top := TopOf(trampoline, p);
      FitSpace(m.mem, p, t, trampoline);
      SpaceHolds(m, p, t, top);
      CutMapped(m.mem, fs0, t, top, p.sz, newsz);
      MappedGone(m.mem, fs0, t, p.sz, newsz);
      var panicked, r := UvmDealloc(m, p.pagetable, p.sz, newsz, t);
      assert !panicked;
      proc := proc[i := p.(sz := r)];
      tab := tab[i := t];
      ShrinkFits(s0, fs0, m, i, trampoline, newsz);
      Install(s0, fs0, i);
      MinIs(newsz, p.sz);
      MinIs(Pages(proc[i].sz), Pages(p.sz));
      FoldResized(s0, i, proc[i].sz);
    }

    /** growproc: the process keeps the pages up to the smaller of its two sizes, what is added
        is zeroed and writable, and what is given up becomes free.  It fails only when memory is
        short, and then changes no translation.  A decrement larger than the size wraps around
        to a huge size, and then nothing happens. */
    method Growproc(i: nat, n: int) returns (ok: bool)
      requires Inv() && i < NPROC && |proc| == |tab| == NPROC && !proc[i].state.Unused?
      requires -0x8000_0000 <= n < 0x8000_0000
      modifies this, m
      ensures Inv() && Since(Snap(old(m.mem), old(proc), old(tab)), i) && |proc| == |tab| == |old(proc)| == NPROC
      ensures var sz := old(proc)[i].sz;
        Resized(Snap(old(m.mem), old(proc), old(tab)), i, if !ok || sz + n < 0 then sz else sz + n)
      ensures Held(m.mem, proc[i], tab[i]) + m.FreeSet() == old(Held(m.mem, proc[i], tab[i]) + m.FreeSet())
      ensures !ok ==> n > 0 && |old(m.free)| < 3 * Freed(old(proc)[i].sz + n, old(proc)[i].sz)
    {
      hide *;
      SizeBound(i);
      ok := true;
      if n > 0 {
        ok := Enlarge(i, n);
      } else if n < 0 {
        var newsz := Sum64(proc[i].sz, n);
        Sum64Is(proc[i].sz, n);
        MinIs(newsz, proc[i].sz);
        Shrink(i, newsz);
      } else {
        SameSize(i);
      }
    }

    lemma SameSize(i: nat)
      requires Inv() && i < NPROC && |proc| == |tab| == NPROC && !proc[i].state.Unused?
      ensures Since(Snap(m.mem, proc, tab), i) && Resized(Snap(m.mem, proc, tab), i, proc[i].sz)
    {
      InvIs();
      SinceSelf(i);
      OwnedAt(i);
      FitSpace(m.mem, proc[i], tab[i], trampoline);
      SpaceIs(m.mem, tab[i], TopOf(trampoline, proc[i]), Pages(proc[i].sz));
      hide Space, SpaceFrames, Held, Owners, Wf, LeafFrames, Settled;
      assert proc == proc[i := proc[i].(sz := proc[i].sz)];
    }

    lemma SizeBound(i: nat)
      requires Inv() && i < NPROC
      ensures |proc| == NPROC && proc[i].sz <= USYSCALL * PGSIZE
    {
      OwnersAt(m.mem, m.FreeSet(), proc, tab, kernel, trampoline, i);
      hide Owners, Settled, Wf, Freeable, SpaceFrames;
      PagesFacts(proc[i].sz, proc[i].sz);
    }

    // uvmcopy into the child, and the child's size on success.
    method CopySpace(i: nat, k: nat, ghost s0: Snap) returns (ok: bool)
      requires Inv() && i < NPROC && k < NPROC && i != k && |proc| == |tab| == NPROC && Since(s0, k)
      requires !proc[i].state.Unused? && !proc[k].state.Unused? && proc[k].sz == 0
      modifies this, m
      ensures Inv() && Since(s0, k) && |proc| == |tab| == |old(proc)| == NPROC && nextpid == old(nextpid)
      ensures proc == old(proc)[k := old(proc)[k].(sz := if ok then proc[i].sz else 0)]
      ensures Held(m.mem, proc[k], tab[k]) + m.FreeSet() == old(Held(m.mem, proc[k], tab[k]) + m.FreeSet())
      ensures ok ==> SamePages(m.mem, tab[i], tab[k], Pages(proc[i].sz))
      ensures !ok ==> |old(m.free)| < 3 * Pages(proc[i].sz)
    {
      hide *;
      ghost var s1, fs1, t, u := Snap(m.mem, proc, tab), m.FreeSet(), tab[k], tab[i];
      var p, c := proc[i], proc[k];
      InvIs();
      SinceIs(s0, k);
      OwnedAt(i);
      OwnedAt(k);
      OwnersTwo(m.mem, m.FreeSet(), proc, tab, kernel, trampoline, i, k);
      NoFreeZero(m);
      CopyReady(m, p, c, u, t, trampoline);
      ok, t := UvmCopy(m, p.pagetable, c.pagetable, p.sz, u, t);
      if ok {
        proc := proc[k := c.(sz := p.sz)];
      } else {
        proc := proc[k := c];
      }
      tab := tab[k := t];
      CopiedFits(s1, fs1, m, i, k, trampoline, t, ok);
      Install(s1, fs1, k);
      SinceIs(s1, k);
      SinceTrans(s0, s1.mem, s1.proc, s1.tab, k);
    }

    // The child's registers, a0 cleared, and its release to the scheduler.
    method CopyRegisters(i: nat, k: nat, ghost s0: Snap)
      requires Inv() && i < NPROC && k < NPROC && i != k && |proc| == |tab| == NPROC && Since(s0, k)
      requires !proc[i].state.Unused? && !proc[k].state.Unused? && proc[k].sz == proc[i].sz
      requires SamePages(m.mem, tab[i], tab[k], Pages(proc[i].sz))
      modifies this, m
      ensures Inv() && Since(s0, k) && |proc| == |tab| == |old(proc)| == NPROC && nextpid == old(nextpid)
      ensures proc == old(proc)[k := old(proc)[k].(state := Runnable)]
      ensures SamePages(m.mem, tab[i], tab[k], Pages(proc[i].sz))
      ensures SameRegisters(m.mem, proc[i].trapframe, proc[k].trapframe)
    {
      hide *;
      ghost var s1, fs1 := Snap(m.mem, proc, tab), m.FreeSet();
      InvIs();
      SinceIs(s0, k);
      OwnedAt(i);
      OwnedAt(k);
      OwnersTwo(m.mem, m.FreeSet(), proc, tab, kernel, trampoline, i, k);
      FitSpace(m.mem, proc[i], tab[i], trampoline);
      FitSpace(m.mem, proc[k], tab[k], trampoline);
      var page := Registers(m.mem[proc[i].trapframe], m.mem[proc[k].trapframe]);
      StorePage(m, proc[k].trapframe, page[14 := ZERO]);
      proc := proc[k := proc[k].(state := Runnable)];
      tab := tab[k := tab[k]];
      RegistersFit(s1, fs1, m, i, k, trampoline);
      Install(s1, fs1, k);
      SinceIs(s1, k);
      SinceTrans(s0, s1.mem, s1.proc, s1.tab, k);
    }

    /** fork: the child has the parent's size, rights and bytes in frames of its own, its own pid
        and the parent's registers with a0 cleared; or nothing has changed but the next pid.  The
        parent, like every other process, keeps what it has.  It fails only when the process
        table is full or memory is short. */
    method Fork(i: nat) returns (pid: int, ghost k: nat)
      requires Inv() && i < NPROC && |proc| == |tab| == NPROC && !proc[i].state.Unused?
      modifies this, m
      ensures Inv() && |proc| == |tab| == |old(proc)| == NPROC
      ensures k <= NPROC && k != i && Since(Snap(old(m.mem), old(proc), old(tab)), k)
      ensures k < NPROC ==> old(proc)[k] == EMPTY
      ensures pid == -1 || (pid == old(nextpid) && nextpid == pid + 1 && k < NPROC)
      ensures pid == -1 ==> proc == old(proc) && m.FreeSet() == old(m.FreeSet())
      ensures pid == -1 ==> |old(m.free)| < 9 + 3 * Pages(old(proc)[i].sz) ||
                            forall j :: 0 <= j < NPROC ==> !old(proc)[j].state.Unused?
      ensures pid != -1 ==>
        && proc[k].state == Runnable && proc[k].pid == pid && proc[k].sz == proc[i].sz
        && SamePages(m.mem, tab[i], tab[k], Pages(proc[i].sz))
        && SameRegisters(m.mem, proc[i].trapframe, proc[k].trapframe)
    {
      hide *;
      ghost var s0 := Snap(m.mem, proc, tab);
      InvIs();
      NotEmpty(proc[i]);
      var np;
      np, k := Allocproc();
      if np == NPROC {
        return -1, k;
      }
      SinceIs(s0, k);
      InvIs();
      NotUnused(proc[np]);
      var ok := CopySpace(i, np, s0);
      if !ok {
        InvIs();
        Freeproc(np, s0);
        EmptySettled(m.mem);
        SinceIs(s0, k);
        FoldInv(s0, k);
        assert proc == old(proc);
        return -1, k;
      }
      NotUnused(proc[np]);
      CopyRegisters(i, np, s0);
      pid := proc[np].pid;
    }
  }

  lemma NotEmpty(p: Proc)
    ensures !p.state.Unused? ==> p != EMPTY
  {
  }

  lemma NotUnused(p: Proc)
    ensures p.state == Used ==> !p.state.Unused?
  {
  }

  // A store outside the pages of both leaves them the same.
  lemma SamePagesStay(mem: Mem, mem': Mem, u: Tables, t: Tables, n: nat, f: nat)
    requires SamePages(mem, u, t, n) && SameEntries(mem, u, mem', u) && SameEntries(mem, t, mem', t)
    requires SameOutside(mem, mem', {f}) && f !in LeafFrames(mem, u, 0, n) && f !in LeafFrames(mem, t, 0, n)
    ensures SamePages(mem', u, t, n)
  {
    forall x: nat | x < n ensures SamePage(mem', Entry(mem', u, x), Entry(mem', t, x)) {
      assert SamePage(mem, Entry(mem, u, x), Entry(mem, t, x));
      LeafHas(mem, u, 0, n, Entry(mem, u, x).ppn);
      LeafHas(mem, t, 0, n, Entry(mem, t, x).ppn);
      hide LeafFrames;
    }
  }

  // The assignment of one struct trapframe, 288 bytes, to another.
  function Registers(from: Frame, to: Frame): Frame { from[..36] + to[36..] }

  // The saved registers in frame c are those in frame p, but for a0, which is 0.
  ghost predicate SameRegisters(mem: Mem, p: nat, c: nat) {
    p in mem && c in mem && mem[c][..36] == mem[p][..36][14 := ZERO]
  }

  lemma RegistersFit(s1: Snap, fs1: set<nat>, m: PhysMem, i: nat, k: nat, tramp: nat)
    requires |s1.proc| == |s1.tab| == NPROC && i < NPROC && k < NPROC
    requires var p, c, u, t := s1.proc[i], s1.proc[k], s1.tab[i], s1.tab[k];
      && Fit(s1.mem, p, u, tramp) && Fit(s1.mem, c, t, tramp) && p.pagetable != 0 && c.pagetable != 0
      && Held(s1.mem, p, u) !! Held(s1.mem, c, t) && Held(s1.mem, c, t) !! fs1 && c.sz == p.sz
      && SamePages(s1.mem, u, t, Pages(p.sz)) && Settled(s1.mem, c) && !c.state.Unused?
      && p.trapframe in s1.mem && c.trapframe in s1.mem
      && m.mem == s1.mem[c.trapframe := Registers(s1.mem[p.trapframe], s1.mem[c.trapframe])[14 := ZERO]]
      && m.FreeSet() == fs1
    ensures var p, c, u, t := s1.proc[i], s1.proc[k], s1.tab[i], s1.tab[k];
      var c' := c.(state := Runnable);
      && Fit(m.mem, c', t, tramp) && Held(m.mem, c', t) !! m.FreeSet()
      && Held(m.mem, c', t) + m.FreeSet() == Held(s1.mem, c, t) + fs1
      && SameOutside(s1.mem, m.mem, Held(s1.mem, c, t) + fs1) && Settled(m.mem, c')
      && SamePages(m.mem, u, t, Pages(p.sz)) && SameRegisters(m.mem, p.trapframe, c.trapframe)
  {
    var p, c, u, t := s1.proc[i], s1.proc[k], s1.tab[i], s1.tab[k];
    hide Wf, Space, SpaceFrames, LeafFrames, Tables.Frames, SameEntries, SamePages;
    FitSpace(s1.mem, p, u, tramp);
    FitSpace(s1.mem, c, t, tramp);
    StoreFits(s1.mem, fs1, c, t, tramp, m.mem, c.trapframe);
    KeptBy(s1.mem, m.mem, p, u, tramp, {c.trapframe});
    SpaceIs(s1.mem, t, TopOf(tramp, c), Pages(c.sz));
    SamePagesStay(s1.mem, m.mem, u, t, Pages(p.sz), c.trapframe);
  }

  // The same rights and the same bytes, page by page, in different frames.
  ghost predicate SamePages(mem: Mem, t: Tables, u: Tables, n: nat) {
    && Inside(mem, t) && Inside(mem, u)
    && forall x: nat :: x < n ==> SamePage(mem, Entry(mem, t, x), Entry(mem, u, x))
  }

  ghost predicate SamePage(mem: Mem, a: Word, b: Word) {
    a.f == b.f && a.ppn != b.ppn && a.ppn in mem && b.ppn in mem && mem[a.ppn] == mem[b.ppn]
  }

  // What uvmcopy needs holds of any two processes.
  lemma CopyReady(m: PhysMem, p: Proc, c: Proc, u: Tables, t: Tables, tramp: nat)
    requires m.Valid() && Fit(m.mem, p, u, tramp) && Fit(m.mem, c, t, tramp) && p.pagetable != 0 && c.pagetable != 0
    requires Held(m.mem, p, u) !! Held(m.mem, c, t) && c.sz == 0
    requires Held(m.mem, p, u) !! m.FreeSet() && Held(m.mem, c, t) !! m.FreeSet()
    ensures m.Holds(u) && m.Holds(t) && p.pagetable == u.root && c.pagetable == t.root
    ensures Pages(p.sz) <= MAXVPN && Inside(m.mem, u) && Inside(m.mem, t)
    ensures Mapped(m.mem, m.FreeSet(), u, 0, Pages(p.sz))
    ensures u.Frames() + LeafFrames(m.mem, u, 0, Pages(p.sz)) !! t.Frames()
    ensures forall x: nat :: x < Pages(p.sz) ==> Entry(m.mem, t, x) == ZERO
  {
    FitSpace(m.mem, p, u, tramp);
    FitSpace(m.mem, c, t, tramp);
    SpaceIs(m.mem, u, TopOf(tramp, p), Pages(p.sz));
    SpaceIs(m.mem, t, TopOf(tramp, c), 0);
    hide Wf, LeafFrames, Tables.Frames, Fit, Held, Space, SpaceFrames, Freeable;
  }

  // p->sz + n as the 64-bit number that uvmdealloc is given.
  function Sum64(sz: nat, n: int): nat { (sz + n) % 0x1_0000_0000_0000_0000 }

  lemma Sum64Is(sz: nat, n: int)
    requires -0x8000_0000 <= n <= 0 && sz <= USYSCALL * PGSIZE
    ensures if sz + n < 0 then Sum64(sz, n) > sz else Sum64(sz, n) == sz + n
  {
    if sz + n < 0 {
      assert (sz + n) % 0x1_0000_0000_0000_0000 == sz + n + 0x1_0000_0000_0000_0000;
    }
  }

  // The pages that shrinking gives up are there to be unmapped.
  lemma CutMapped(mem: Mem, fs: set<nat>, t: Tables, top: Top, oldsz: nat, newsz: nat)
    requires Space(mem, t, top, Pages(oldsz)) && SpaceFrames(mem, t, Pages(oldsz)) !! fs
    ensures Inside(mem, t) && Mapped(mem, fs, t, Pages(newsz), Freed(oldsz, newsz))
    ensures newsz < oldsz ==> Pages(newsz) <= Pages(oldsz) <= MAXVPN
    ensures newsz < oldsz ==> Freed(oldsz, newsz) == Pages(oldsz) - Pages(newsz)
    ensures newsz >= oldsz ==> Freed(oldsz, newsz) == 0
  {
    PagesFacts(newsz, oldsz);
    FreedIs(oldsz, newsz);
    hide Wf, Tables.Frames, Pages, Freed;
    if newsz < oldsz {
      LeafSplit(mem, t, Pages(newsz), Pages(oldsz) - Pages(newsz));
    }
  }

  // The pages of a process that uvmunmap can free: the trampoline is kernel text, below `end`.
  lemma SpaceRemovable(mem: Mem, p: Proc, t: Tables, tramp: nat)
    requires Fit(mem, p, t, tramp) && p.pagetable != 0 && tramp !in mem
    ensures Inside(mem, t) && Pages(p.sz) <= USYSCALL
    ensures forall x: nat :: Removable(mem, t, x, true) <==> x < Pages(p.sz) || x == USYSCALL || x == TRAPFRAME
    ensures Entry(mem, t, USYSCALL).ppn == p.usyscall && Entry(mem, t, TRAPFRAME).ppn == p.trapframe
    ensures forall x: nat :: Removable(mem, t, x, true) ==>
      Entry(mem, t, x).ppn in Held(mem, p, t) && FreeablePage(mem, t, Entry(mem, t, x).ppn)
  {
    hide Wf, Tables.Frames, LeafFrames, Held, SpaceFrames;
    var n := Pages(p.sz);
    FitSpace(mem, p, t, tramp);
    SpaceIs(mem, t, TopOf(tramp, p), n);
    ZeroInvalid();
    assert p.usyscall in Held(mem, p, t) && p.trapframe in Held(mem, p, t);
    forall x: nat | x < n ensures Entry(mem, t, x).ppn in Held(mem, p, t) {
      LeafRangeIn(mem, t, 0, n, x);
    }
  }

  // Different pages that can be freed have different frames.
  lemma RemovableApart(mem: Mem, p: Proc, t: Tables, tramp: nat, x: nat, y: nat)
    requires Fit(mem, p, t, tramp) && p.pagetable != 0 && tramp !in mem && Inside(mem, t)
    requires Removable(mem, t, x, true) && Removable(mem, t, y, true) && x < y
    ensures Entry(mem, t, x).ppn != Entry(mem, t, y).ppn
  {
    var n := Pages(p.sz);
    FitSpace(mem, p, t, tramp);
    SpaceIs(mem, t, TopOf(tramp, p), n);
    SpaceRemovable(mem, p, t, tramp);
    hide Removable, Fit, Held, Space, Tables.Frames, LeafFrames, Wf, FreeablePage;
    if x < n {
      LeafRangeIn(mem, t, 0, n, x);
    }
  }

  /** uvmdealloc can be called on a process with any sizes.  It panics exactly when it has a page
      to free and either it reaches the trampoline, which kfree does not take, or it comes upon
      the gap between the user pages and the fixed ones. */
  lemma SpaceDeallocPanicsIff(mem: Mem, fs: set<nat>, p: Proc, t: Tables, tramp: nat, oldsz: nat, newsz: nat)
    requires Fit(mem, p, t, tramp) && p.pagetable != 0 && Held(mem, p, t) !! fs && tramp !in mem
    ensures Inside(mem, t) && Releasable(mem, fs, t, Pages(newsz), Gone(mem, t, oldsz, newsz))
    ensures var n, lo, hi := Pages(p.sz), Pages(newsz), Pages(newsz) + Asked(oldsz, newsz);
      Gone(mem, t, oldsz, newsz) < Asked(oldsz, newsz) <==>
      lo < hi && (hi >= MAXVPN || (lo < USYSCALL && n < USYSCALL && n < hi))
  {
    SpaceRemovable(mem, p, t, tramp);
    GoneIs(mem, t, oldsz, newsz);
    LeadingIs(mem, t, Pages(newsz), Asked(oldsz, newsz));
    hide *;
    TopOrder();
    var n, lo, k := Pages(p.sz), Pages(newsz), Gone(mem, t, oldsz, newsz);
    var hi := lo + Asked(oldsz, newsz);
    assert k < Asked(oldsz, newsz) ==> !Removable(mem, t, lo + k, true);
    assert lo < hi <= lo + k ==> Removable(mem, t, hi - 1, true);
    assert lo < n < lo + k ==> Removable(mem, t, n, true);
    assert n <= lo < lo + k ==> Removable(mem, t, lo, true);
    forall x: nat | lo <= x < lo + k ensures FreeablePage(mem, t, Entry(mem, t, x).ppn) {
      assert Removable(mem, t, x, true);
    }
    forall x: nat, y: nat | lo <= x < y < lo + k ensures Entry(mem, t, x).ppn != Entry(mem, t, y).ppn {
      RemovableApart(mem, p, t, tramp, x, y);
    }
    FoldReleasable(mem, fs, t, lo, k, Held(mem, p, t));
  }

  lemma LeadingIs(mem: Mem, t: Tables, lo: nat, n: nat)
    requires Inside(mem, t)
    ensures forall x: nat :: lo <= x < lo + Leading(mem, t, lo, n, true) ==> Removable(mem, t, x, true)
    ensures Leading(mem, t, lo, n, true) < n ==> !Removable(mem, t, lo + Leading(mem, t, lo, n, true), true)
  {
  }

  lemma FoldReleasable(mem: Mem, fs: set<nat>, t: Tables, lo: nat, k: nat, held: set<nat>)
    requires Inside(mem, t) && held !! fs
    requires forall x: nat :: lo <= x < lo + k ==>
      FreeablePage(mem, t, Entry(mem, t, x).ppn) && Entry(mem, t, x).ppn in held
    requires forall x: nat, y: nat :: lo <= x < y < lo + k ==> Entry(mem, t, x).ppn != Entry(mem, t, y).ppn
    ensures Releasable(mem, fs, t, lo, k)
  {
    forall f | f in LeafFrames(mem, t, lo, k) ensures f !in fs {
      LeafHas(mem, t, lo, k, f);
      hide LeafFrames;
    }
  }

  /** When uvmdealloc frees a page that the process still points to: the usyscall page exactly
      when it reaches it without a gap below, and the trapframe likewise. */
  lemma DeallocFreesHeldIff(mem: Mem, p: Proc, t: Tables, tramp: nat, oldsz: nat, newsz: nat)
    requires Fit(mem, p, t, tramp) && p.pagetable != 0 && tramp !in mem
    ensures Inside(mem, t)
    ensures var n, lo, hi := Pages(p.sz), Pages(newsz), Pages(newsz) + Asked(oldsz, newsz);
      var freed := LeafFrames(mem, t, lo, Gone(mem, t, oldsz, newsz));
      && (p.usyscall in freed <==> lo <= USYSCALL < hi && (n == USYSCALL || lo == USYSCALL))
      && (p.trapframe in freed <==> lo <= TRAPFRAME < hi && (n == USYSCALL || lo >= USYSCALL))
  {
    SpaceDeallocPanicsIff(mem, {}, p, t, tramp, oldsz, newsz);
    SpaceRemovable(mem, p, t, tramp);
    GoneIs(mem, t, oldsz, newsz);
    LeadingIs(mem, t, Pages(newsz), Asked(oldsz, newsz));
    hide *;
    TopOrder();
    var n, lo, k := Pages(p.sz), Pages(newsz), Gone(mem, t, oldsz, newsz);
    var hi := lo + Asked(oldsz, newsz);
    FreedAt(mem, p, t, tramp, lo, k, USYSCALL);
    FreedAt(mem, p, t, tramp, lo, k, TRAPFRAME);
    assert k < Asked(oldsz, newsz) ==> !Removable(mem, t, lo + k, true);
    assert n < USYSCALL ==> !Removable(mem, t, n, true);
    assert n <= lo < USYSCALL ==> !Removable(mem, t, lo, true);
  }

  // Of a range that can be freed exactly page x has x's frame.
  lemma FreedAt(mem: Mem, p: Proc, t: Tables, tramp: nat, lo: nat, k: nat, x: nat)
    requires Fit(mem, p, t, tramp) && p.pagetable != 0 && tramp !in mem && Inside(mem, t)
    requires forall y: nat :: lo <= y < lo + k ==> Removable(mem, t, y, true)
    requires Removable(mem, t, x, true)
    ensures Entry(mem, t, x).ppn in LeafFrames(mem, t, lo, k) <==> lo <= x < lo + k
  {
    hide Removable, Fit, Held, LeafFrames, Wf, Tables.Frames;
    var f := Entry(mem, t, x).ppn;
    LeafHas(mem, t, lo, k, f);
    if f in LeafFrames(mem, t, lo, k) && !(lo <= x < lo + k) {
      var y: nat :| lo <= y < lo + k && Entry(mem, t, y).ppn == f;
      if x < y { RemovableApart(mem, p, t, tramp, x, y); } else { RemovableApart(mem, p, t, tramp, y, x); }
    }
  }

  // One such input for every process whatever its size: nothing panics, and the one frame freed
  // is the one p->usyscall still points to.
  lemma UsyscallPageFreed(mem: Mem, fs: set<nat>, p: Proc, t: Tables, tramp: nat)
    requires Fit(mem, p, t, tramp) && p.pagetable != 0 && Held(mem, p, t) !! fs && tramp !in mem
    ensures var oldsz, newsz := (USYSCALL + 1) * PGSIZE, USYSCALL * PGSIZE;
      && Inside(mem, t) && Releasable(mem, fs, t, Pages(newsz), 1)
      && Gone(mem, t, oldsz, newsz) == Asked(oldsz, newsz) == 1
      && LeafFrames(mem, t, Pages(newsz), 1) == {p.usyscall}
  {
    var oldsz, newsz := (USYSCALL + 1) * PGSIZE, USYSCALL * PGSIZE;
    assert Pages(oldsz) == USYSCALL + 1 && Pages(newsz) == USYSCALL;
    SpaceDeallocPanicsIff(mem, fs, p, t, tramp, oldsz, newsz);
    SpaceRemovable(mem, p, t, tramp);
    GoneIs(mem, t, oldsz, newsz);
    AskedIs(oldsz, newsz);
    FreedIs(oldsz, newsz);
    LeafOne(mem, t, USYSCALL);
    hide Fit, Held, LeafFrames, Gone, Pages, Asked, Releasable;
  }

  lemma ShrinkFits(s0: Snap, fs0: set<nat>, m: PhysMem, i: nat, tramp: nat, newsz: nat)
    requires |s0.proc| == |s0.tab| == NPROC && i < NPROC && m.Valid()
    requires var p, t := s0.proc[i], s0.tab[i];
      && Fit(s0.mem, p, t, tramp) && p.pagetable != 0 && Held(s0.mem, p, t) !! fs0
      && Unmapped(s0.mem, fs0, m.mem, m.FreeSet(), t, Pages(newsz), Freed(p.sz, newsz), true)
      && m.Holds(t)
    ensures var p, t := s0.proc[i], s0.tab[i]; var sz := if newsz < p.sz then newsz else p.sz; var p' := p.(sz := sz);
      && Fit(m.mem, p', t, tramp) && Held(m.mem, p', t) !! m.FreeSet()
      && Held(m.mem, p', t) + m.FreeSet() == Held(s0.mem, p, t) + fs0
      && SameOutside(s0.mem, m.mem, Held(s0.mem, p, t) + fs0)
      && (Settled(s0.mem, p) ==> Settled(m.mem, p'))
      && PagesKept(s0.mem, t, m.mem, t, Pages(sz)) && Inside(m.mem, t) && Pages(sz) <= Pages(p.sz)
  {
    hide *;
    var p, t := s0.proc[i], s0.tab[i];
    var sz := if newsz < p.sz then newsz else p.sz;
    FitSpace(s0.mem, p, t, tramp);
    CutMapped(s0.mem, fs0, t, TopOf(tramp, p), p.sz, newsz);
    HoldsWf(m, t);
    if newsz >= p.sz {
      NothingUnmapped(s0.mem, fs0, m.mem, m.FreeSet(), t, Pages(newsz), Pages(p.sz));
    }
    CutSpace(s0.mem, fs0, t, TopOf(tramp, p), Pages(p.sz), Pages(sz), m.mem, m.FreeSet());
    SameKeys(s0.mem, m.mem, SpaceFrames(s0.mem, t, Pages(p.sz)) + fs0);
    Respaced(s0.mem, fs0, p, t, tramp, m.mem, m.FreeSet(), t, sz);
  }

  lemma HoldsWf(m: PhysMem, t: Tables)
    requires m.Holds(t)
    ensures Wf(m.mem, t) && Inside(m.mem, t)
  {
    WfIn(m.mem, t);
  }

  // An empty range may be named by either of its ends.
  lemma NothingUnmapped(mem: Mem, fs: set<nat>, mem': Mem, fs': set<nat>, t: Tables, x: nat, y: nat)
    requires Unmapped(mem, fs, mem', fs', t, x, 0, true)
    ensures Unmapped(mem, fs, mem', fs', t, y, 0, true)
  {
    assert LeafFrames(mem, t, x, 0) == LeafFrames(mem, t, y, 0);
  }

  const WONLY := Flags(false, false, true, false, false, 0)  // PTE_W

  function Min(a: nat, b: nat): nat { if a < b then a else b }

  lemma MinIs(a: nat, b: nat)
    ensures Min(a, b) == if a < b then a else b
  {
  }

  lemma SpaceHolds(m: PhysMem, p: Proc, t: Tables, top: Top)
    requires Space(m.mem, t, top, Pages(p.sz)) && Held(m.mem, p, t) !! m.FreeSet()
    requires Held(m.mem, p, t) == {p.trapframe, p.usyscall} + SpaceFrames(m.mem, t, Pages(p.sz))
    ensures m.Holds(t) && SpaceFrames(m.mem, t, Pages(p.sz)) !! m.FreeSet() && 0 !in t.Frames()
  {
    hide Wf, LeafFrames, Freeable, Tables.Frames;
  }

  lemma GrewFresh(mem: Mem, t: Tables, mem': Mem, t': Tables, n: nat, f: Flags, k: nat)
    requires GrewEntries(mem, t, mem', t', n, Repeat(Page(f, Zeros()), k))
    ensures Inside(mem', t') && forall x: nat :: n <= x < n + k ==> FreshPage(mem', t', x, f)
  {
    forall x: nat | n <= x < n + k ensures FreshPage(mem', t', x, f) {
      assert PageAt(mem', t', n, Repeat(Page(f, Zeros()), k), x);
    }
  }

  lemma EnlargeFits(s0: Snap, fs0: set<nat>, m: PhysMem, i: nat, tramp: nat, t': Tables, newsz: nat, done: bool)
    requires |s0.proc| == |s0.tab| == NPROC && i < NPROC
    requires var p, t := s0.proc[i], s0.tab[i];
      var pages := if done then Repeat(Page(UserRights(WONLY), Zeros()), Freed(newsz, p.sz)) else [];
      && Fit(s0.mem, p, t, tramp) && p.pagetable != 0 && Held(s0.mem, p, t) !! fs0 && 0 !in fs0
      && Grew(s0.mem, fs0, t, m.mem, m.FreeSet(), t', Pages(p.sz), pages)
      && t'.root == t.root && newsz >= p.sz
    requires m.Valid() && m.Holds(t') && |s0.mem| <= RAMFRAMES
    ensures var p, t := s0.proc[i], s0.tab[i]; var sz := if done then newsz else p.sz; var p' := p.(sz := sz);
      && Fit(m.mem, p', t', tramp) && Held(m.mem, p', t') !! m.FreeSet()
      && Held(m.mem, p', t') + m.FreeSet() == Held(s0.mem, p, t) + fs0
      && SameOutside(s0.mem, m.mem, Held(s0.mem, p, t) + fs0)
      && (Settled(s0.mem, p) ==> Settled(m.mem, p'))
      && PagesKept(s0.mem, t, m.mem, t', Pages(p.sz)) && Inside(m.mem, t')
      && forall x: nat :: Pages(p.sz) <= x < Pages(sz) ==> FreshPage(m.mem, t', x, UserRights(WONLY))
  {
    hide *;
    var p, t := s0.proc[i], s0.tab[i];
    var k := if done then Freed(newsz, p.sz) else 0;
    var pages := Repeat(Page(UserRights(WONLY), Zeros()), k);
    var sz := if done then newsz else p.sz;
    RepeatNone(Page(UserRights(WONLY), Zeros()));
    FitSpace(s0.mem, p, t, tramp);
    FreedMore(newsz, p.sz);
    PagesFacts(p.sz, newsz);
    UserRightsLeaf(WONLY);
    GrewKeys(s0.mem, fs0, t, m.mem, m.FreeSet(), t', Pages(p.sz), pages);
    GrewSpace(s0.mem, fs0, t, TopOf(tramp, p), Pages(p.sz), m, t', pages);
    Respaced(s0.mem, fs0, p, t, tramp, m.mem, m.FreeSet(), t', sz);
    GrewFresh(s0.mem, t, m.mem, t', Pages(p.sz), UserRights(WONLY), k);
  }

  lemma RepeatNone(p: Page)
    ensures Repeat(p, 0) == []
  {
  }

  lemma GrewKeys(mem: Mem, fs: set<nat>, t: Tables, mem': Mem, fs': set<nat>, t': Tables, n: nat, pages: seq<Page>)
    requires Grew(mem, fs, t, mem', fs', t', n, pages)
    ensures mem'.Keys == mem.Keys && |mem'| == |mem| && GrewEntries(mem, t, mem', t', n, pages)
  {
    SameCount(mem, mem');
  }

  // Memory runs out before a process could reach its fixed pages.
  lemma RoomToGrow(m: PhysMem, t: Tables, top: Top, n: nat)
    requires m.Valid() && |m.mem| <= RAMFRAMES && Space(m.mem, t, top, n)
    requires m.Holds(t) && SpaceFrames(m.mem, t, n) !! m.FreeSet()
    ensures Inside(m.mem, t) && n + |m.free| <= RAMFRAMES < MAXVPN
    ensures forall x: nat :: n <= x < n + |m.free| ==> Entry(m.mem, t, x) == ZERO
  {
    hide Wf, Freeable, LeafFrames, Tables.Frames;
    PagesAndFree(m, t, n);
  }

  ghost predicate FreshPage(mem: Mem, t: Tables, x: nat, f: Flags)
    requires Inside(mem, t)
  {
    var e := Entry(mem, t, x);
    e.f == f && e.ppn in mem && mem[e.ppn] == Zeros()
  }

  lemma CopiedFits(s1: Snap, fs1: set<nat>, m: PhysMem, i: nat, k: nat, tramp: nat, t': Tables, ok: bool)
    requires |s1.proc| == |s1.tab| == NPROC && i < NPROC && k < NPROC && |s1.mem| <= RAMFRAMES
    requires var p, c, u, t := s1.proc[i], s1.proc[k], s1.tab[i], s1.tab[k];
      && Fit(s1.mem, p, u, tramp) && Fit(s1.mem, c, t, tramp) && p.pagetable != 0 && c.pagetable != 0
      && Held(s1.mem, p, u) !! fs1 && Held(s1.mem, c, t) !! fs1 && 0 !in fs1 && c.sz == 0
      && Inside(s1.mem, u) && Mapped(s1.mem, fs1, u, 0, Pages(p.sz))
      && Grew(s1.mem, fs1, t, m.mem, m.FreeSet(), t', 0, if ok then Copies(s1.mem, u, Pages(p.sz)) else [])
      && Preserved(s1.mem, m.mem, u, Pages(p.sz)) && t'.root == t.root
    requires m.Valid() && m.Holds(t')
    ensures var p, c, u, t := s1.proc[i], s1.proc[k], s1.tab[i], s1.tab[k];
      var c' := c.(sz := if ok then p.sz else 0);
      && Fit(m.mem, c', t', tramp) && Held(m.mem, c', t') !! m.FreeSet()
      && Held(m.mem, c', t') + m.FreeSet() == Held(s1.mem, c, t) + fs1
      && SameOutside(s1.mem, m.mem, Held(s1.mem, c, t) + fs1)
      && (Settled(s1.mem, c) ==> Settled(m.mem, c'))
      && (ok ==> SamePages(m.mem, u, t', Pages(p.sz)))
  {
    hide *;
    var p, c, u, t := s1.proc[i], s1.proc[k], s1.tab[i], s1.tab[k];
    var n := Pages(p.sz);
    MappedIs(s1.mem, fs1, u, 0, n);
    CopiesValid(s1.mem, u, n, n, fs1);
    var pages := if ok then Copies(s1.mem, u, n) else [];
    var sz := if ok then p.sz else 0;
    NoPages(0);
    FitSpace(s1.mem, c, t, tramp);
    GrewKeys(s1.mem, fs1, t, m.mem, m.FreeSet(), t', 0, pages);
    GrewSpace(s1.mem, fs1, t, TopOf(tramp, c), 0, m, t', pages);
    Respaced(s1.mem, fs1, c, t, tramp, m.mem, m.FreeSet(), t', sz);
    if ok { CopiedSame(s1.mem, fs1, t, m.mem, m.FreeSet(), t', u, n); }
  }

  lemma CopiedSame(mem: Mem, fs: set<nat>, t: Tables, mem': Mem, fs': set<nat>, t': Tables, u: Tables, n: nat)
    requires Inside(mem, u) && Mapped(mem, fs, u, 0, n) && Preserved(mem, mem', u, n)
    requires Grew(mem, fs, t, mem', fs', t', 0, Copies(mem, u, n))
    ensures SamePages(mem', u, t', n)
  {
    hide Tables.Frames, LeafFrames, Wf;
    forall x: nat | x < n ensures SamePage(mem', Entry(mem', u, x), Entry(mem', t', x)) {
      NextPage(mem, fs, mem', u, n, x);
      assert PageAt(mem', t', 0, Copies(mem, u, n), x);
      LeafRangeIn(mem, u, 0, n, x);
      LeafRangeIn(mem', t', 0, n, x);
    }
  }

  // The word with its lower half replaced.
  function WithPid(w: Word, pid: nat): Word {
    OfPte(Pte(w) / 0x1_0000_0000 * 0x1_0000_0000 + pid % 0x1_0000_0000)
  }

  lemma WithPidReads(w: Word, pid: nat, page: Frame)
    requires page[0] == WithPid(w, pid)
    ensures PidOf(page) == pid % 0x1_0000_0000
  {
    hide Pte, OfPte;
    PteToWord(Pte(w) / 0x1_0000_0000 * 0x1_0000_0000 + pid % 0x1_0000_0000);
    LowHalf(Pte(w) / 0x1_0000_0000, pid);
  }

  lemma LowHalf(a: nat, b: nat)
    ensures (a * 0x1_0000_0000 + b % 0x1_0000_0000) % 0x1_0000_0000 == b % 0x1_0000_0000
  {
  }

  method StorePage(m: PhysMem, f: nat, page: Frame)
    requires m.Valid() && f in m.mem && f !in m.FreeSet()
    modifies m`mem
    ensures m.Valid() && m.mem == old(m.mem)[f := page] && m.free == old(m.free)
    ensures m.FreeSet() == old(m.FreeSet()) && SameOutside(old(m.mem), m.mem, {f})
  {
    ChainFrame(m.mem, m.mem[f := page], m.freelist, m.free);
    m.mem := m.mem[f := page];
  }

  // Writing one of a process's fixed pages keeps its space.
  lemma StoreFits(mem: Mem, fs: set<nat>, p: Proc, t: Tables, tramp: nat, mem': Mem, f: nat)
    requires Fit(mem, p, t, tramp) && p.pagetable != 0 && (f == p.usyscall || f == p.trapframe)
    requires SameOutside(mem, mem', {f})
    ensures Fit(mem', p, t, tramp) && Held(mem', p, t) == Held(mem, p, t) && SameEntries(mem, t, mem', t)
    ensures SpaceFrames(mem', t, Pages(p.sz)) == SpaceFrames(mem, t, Pages(p.sz))
    ensures SameOutside(mem, mem', Held(mem, p, t) + fs)
  {
    hide Space, SpaceFrames;
    FrameSpace(mem, mem', t, TopOf(tramp, p), Pages(p.sz), {f});
  }

  lemma WritePidFits(mem: Mem, fs: set<nat>, p: Proc, t: Tables, tramp: nat, m: PhysMem, us: nat)
    requires Fit(mem, p, t, tramp) && p.pagetable != 0 && us == p.usyscall && us in mem && us != 0
    requires Held(mem, p, t) !! fs && m.FreeSet() == fs && !p.state.Unused?
    requires m.mem == mem[us := mem[us][0 := WithPid(mem[us][0], p.pid)]]
    ensures Fit(m.mem, p, t, tramp) && Held(m.mem, p, t) !! m.FreeSet() && Settled(m.mem, p)
    ensures Held(m.mem, p, t) + m.FreeSet() == Held(mem, p, t) + fs
    ensures SameOutside(mem, m.mem, Held(mem, p, t) + fs)
  {
    StoreFits(mem, fs, p, t, tramp, m.mem, us);
    WithPidReads(mem[us][0], p.pid, m.mem[us]);
    hide Fit, Held;
  }

  lemma TableFits(mem: Mem, fs: set<nat>, p: Proc, t: Tables, tramp: nat, m: PhysMem, root: nat, t': Tables)
    requires Fit(mem, p, t, tramp) && Held(mem, p, t) !! fs && p.pagetable == 0
    requires p.trapframe != 0 && p.usyscall != 0 && SameOutside(mem, m.mem, fs) && 0 !in fs
    requires root == 0 ==> m.FreeSet() == fs
    requires root != 0 ==> t'.root == root && Space(m.mem, t', TopOf(tramp, p), 0) && m.Holds(t')
    requires root != 0 ==> t'.Frames() + m.FreeSet() == fs
    ensures var p' := p.(pagetable := root);
      && Fit(m.mem, p', t', tramp) && Held(m.mem, p', t') !! m.FreeSet()
      && Held(m.mem, p', t') + m.FreeSet() == Held(mem, p, t) + fs
    ensures SameOutside(mem, m.mem, Held(mem, p, t) + fs)
  {
    if root != 0 {
      SpaceIs(m.mem, t', TopOf(tramp, p), 0);
      assert SpaceFrames(m.mem, t', Pages(0)) == t'.Frames();
    }
    hide Space, SpaceFrames, Tables.Frames, LeafFrames, Wf;
  }

  lemma PageFits(mem: Mem, fs: set<nat>, p: Proc, t: Tables, tramp: nat, m: PhysMem, f: nat, second: bool)
    requires Fit(mem, p, t, tramp) && Held(mem, p, t) !! fs && p.pagetable == 0
    requires p.usyscall == 0 && (!second ==> p.trapframe == 0) && fs <= mem.Keys
    requires f != 0 ==> f in fs && m.FreeSet() == fs - {f} && SameOutside(mem, m.mem, {f})
    requires f == 0 ==> m.mem == mem && m.FreeSet() == fs
    ensures var p' := if second then p.(usyscall := f) else p.(trapframe := f);
      && Fit(m.mem, p', t, tramp) && Held(m.mem, p', t) !! m.FreeSet()
      && Held(m.mem, p', t) + m.FreeSet() == Held(mem, p, t) + fs
    ensures SameOutside(mem, m.mem, Held(mem, p, t) + fs)
  {
    hide SpaceFrames, Space;
  }
}
