/**
 What a user program finds in its address space: the pages that allocproc, fork, growproc and exec
 promise, as bytes it can or cannot read, write and execute, and the numbers it loads from them.
*/
module ProcessView {
  import opened Sv39
  import opened UserMemory
  import opened ProcMemory
  import opened FrameBytes
  import opened UserCopy
  import opened ExecMemory

  /** The bits of kernel/riscv.h, and the addresses of kernel/memlayout.h. */
  lemma BitsAndPlaces(vpn: nat, f: nat)
    requires vpn < MAXVPN
    ensures Bits(NOFLAGS) == 0 && Bits(VONLY) == 1
    ensures Bits(NOFLAGS.(r := true)) == 2 && Bits(NOFLAGS.(w := true)) == 4
    ensures Bits(NOFLAGS.(x := true)) == 8 && Bits(NOFLAGS.(u := true)) == 16
    ensures MAXVPN * PGSIZE == 0x40_0000_0000 && TRAMPOLINE * PGSIZE == 0x3f_ffff_f000
    ensures TRAPFRAME * PGSIZE == 0x3f_ffff_e000 && USYSCALL * PGSIZE == 0x3f_ffff_d000
    ensures vpn == PX(2, vpn) * 512 * 512 + PX(1, vpn) * 512 + PX(0, vpn)
    ensures Pte(PtrWord(f)) == f * PGSIZE
  {
  }

  // ---------- the fixed pages ----------

  // The hardware finds frame f at page x, with these rights.
  ghost predicate Finds(mem: Mem, root: nat, x: nat, f: nat, r: bool, w: bool, e: bool, u: bool) {
    var found := Translate(mem, root, 2, x);
    && found.Leaf? && found.level == 0 && found.w.ppn == f
    && found.w.f.r == r && found.w.f.w == w && found.w.f.x == e && found.w.f.u == u
  }

  // Page x is open to the user for reading alone, or closed.
  ghost predicate ReadOnly(v: View, x: nat) {
    forall va: nat :: va / PGSIZE == x ==> v.Readable(va) && !v.Writable(va)
  }

  ghost predicate Closed(v: View, x: nat) { forall va: nat :: va / PGSIZE == x ==> !v.Readable(va) }

  ghost predicate Open(v: View, x: nat) { forall va: nat :: va / PGSIZE == x ==> v.Readable(va) && v.Writable(va) }

  /** Every process can read its pid at USYSCALL, and can write nothing there; the trapframe and the
      trampoline are the kernel's alone, the one to read and write, the other to execute. */
  lemma FixedPagesSeen(pt: ProcTable, i: nat)
    requires pt.Inv() && i < NPROC && |pt.proc| == |pt.tab| == NPROC && !pt.proc[i].state.Unused?
    ensures var mem, p, t := pt.m.mem, pt.proc[i], pt.tab[i];
      && Inside(mem, t)
      && ReadOnly(ViewOf(mem, t), USYSCALL) && Closed(ViewOf(mem, t), TRAPFRAME) && Closed(ViewOf(mem, t), TRAMPOLINE)
      && Number(Read(ViewOf(mem, t), USYSCALL * PGSIZE, 4)) == p.pid % 0x1_0000_0000
      && Finds(mem, p.pagetable, USYSCALL, p.usyscall, true, false, false, true)
      && Finds(mem, p.pagetable, TRAPFRAME, p.trapframe, true, true, false, false)
      && Finds(mem, p.pagetable, TRAMPOLINE, pt.trampoline, true, false, true, false)
  {
    hide *;
    pt.InvIs();
    pt.OwnedAt(i);
    SettledPid(pt.m.mem, pt.proc[i]);
    FixedRights(pt.m.mem, pt.proc[i], pt.tab[i], pt.trampoline);
    FixedFound(pt.m.mem, pt.proc[i], pt.tab[i], pt.trampoline);
  }

  lemma SettledPid(mem: Mem, p: Proc)
    requires Settled(mem, p) && !p.state.Unused?
    ensures p.pagetable != 0 && p.usyscall in mem && PidOf(mem[p.usyscall]) == p.pid % 0x1_0000_0000
  {
  }

  lemma FixedRights(mem: Mem, p: Proc, t: Tables, tramp: nat)
    requires Fit(mem, p, t, tramp) && p.pagetable != 0
    ensures Inside(mem, t) && p.usyscall in mem
    ensures ReadOnly(ViewOf(mem, t), USYSCALL)
    ensures Closed(ViewOf(mem, t), TRAPFRAME) && Closed(ViewOf(mem, t), TRAMPOLINE)
    ensures Number(Read(ViewOf(mem, t), USYSCALL * PGSIZE, 4)) == PidOf(mem[p.usyscall])
  {
    FitSpace(mem, p, t, tramp);
    SpaceIs(mem, t, TopOf(tramp, p), Pages(p.sz));
    hide Fit, Space, SpaceFrames, Wf, Tables.Frames, LeafFrames, ViewOf, Entry, DataOf, PidOf, Held;
    forall va: nat | va / PGSIZE == USYSCALL
      ensures ViewOf(mem, t).Readable(va) && !ViewOf(mem, t).Writable(va)
      ensures ViewOf(mem, t).At(va) == DataOf(mem[p.usyscall])[va % PGSIZE]
    {
      ViewAt(mem, t, va);
    }
    forall va: nat | va / PGSIZE == TRAPFRAME || va / PGSIZE == TRAMPOLINE ensures !ViewOf(mem, t).Readable(va) {
      ViewAt(mem, t, va);
    }
    FirstNumber(ViewOf(mem, t), USYSCALL, mem[p.usyscall]);
  }

  lemma FixedFound(mem: Mem, p: Proc, t: Tables, tramp: nat)
    requires Fit(mem, p, t, tramp) && p.pagetable != 0
    ensures Finds(mem, p.pagetable, USYSCALL, p.usyscall, true, false, false, true)
    ensures Finds(mem, p.pagetable, TRAPFRAME, p.trapframe, true, true, false, false)
    ensures Finds(mem, p.pagetable, TRAMPOLINE, tramp, true, false, true, false)
  {
    FitSpace(mem, p, t, tramp);
    SpaceIs(mem, t, TopOf(tramp, p), Pages(p.sz));
    TranslateIsEntry(mem, t, USYSCALL);
    TranslateIsEntry(mem, t, TRAPFRAME);
    TranslateIsEntry(mem, t, TRAMPOLINE);
    hide Fit, Space, SpaceFrames, Wf, Translate, Tables.Frames, LeafFrames, Entry, Held;
  }

  // The first four bytes of a page, as a number.
  lemma FirstNumber(v: View, x: nat, page: Frame)
    requires forall va: nat :: va / PGSIZE == x ==> v.At(va) == DataOf(page)[va % PGSIZE]
    ensures Number(Read(v, x * PGSIZE, 4)) == PidOf(page)
  {
    var s, w := Read(v, x * PGSIZE, 4), Pte(page[0]);
    hide View.At, Pte, Read, DataOf, ByteOf, Number, PidOf;
    forall k: nat | k < 4 ensures s[k] == ByteOf(w, k) { FirstByte(v, x, page, k); }
    assert s == [s[0], s[1], s[2], s[3]];
    NumberFour(s[0], s[1], s[2], s[3]);
    LowFour(w);
    PidIs(page);
  }

  lemma PidIs(page: Frame)
    ensures PidOf(page) == Pte(page[0]) % 0x1_0000_0000
  {
  }

  lemma FirstByte(v: View, x: nat, page: Frame, k: nat)
    requires k < 4 && forall va: nat :: va / PGSIZE == x ==> v.At(va) == DataOf(page)[va % PGSIZE]
    ensures v.At(x * PGSIZE + k) == ByteOf(Pte(page[0]), k)
  {
    hide View.At, Pte, ByteOf;
    assert (x * PGSIZE + k) / PGSIZE == x && (x * PGSIZE + k) % PGSIZE == k;
    assert k / 8 == 0 && k % 8 == k;
  }

  lemma NumberFour(a: byte, b: byte, c: byte, d: byte)
    ensures Number([a, b, c, d]) == a + 256 * b + 65536 * c + 16777216 * d
  {
    assert [a, b, c, d][1..] == [b, c, d] && [b, c, d][1..] == [c, d] && [c, d][1..] == [d] && [d][1..] == [];
    assert Number([d]) == d && Number([c, d]) == c + 256 * Number([d]);
    assert Number([b, c, d]) == b + 256 * Number([c, d]);
  }

  lemma LowFour(n: nat)
    ensures ByteOf(n, 0) + 256 * ByteOf(n, 1) + 65536 * ByteOf(n, 2) + 16777216 * ByteOf(n, 3) == n % 0x1_0000_0000
  {
    assert ByteOf(n, 1) == n / 256 % 256;
    assert ByteOf(n, 2) == ByteOf(n / 256, 1) == n / 256 / 256 % 256;
    assert ByteOf(n, 3) == ByteOf(n / 256, 2) == ByteOf(n / 256 / 256, 1) == n / 256 / 256 / 256 % 256;
    hide ByteOf;
    assert n / 256 / 256 == n / 65536 && n / 65536 / 256 == n / 16777216;
  }

  // ---------- the image that exec leaves ----------

  // Page x comes with the k-th segment: those before it end below.
  ghost predicate Brings(segs: seq<Segment>, k: nat, x: nat) {
    k < |segs| && segs[k].load && Pages(SizeAfter(segs, k)) <= x < Pages(SizeAfter(segs, k + 1))
  }

  // Byte va of the image is one that the k-th segment has in the file.
  predicate Has(segs: seq<Segment>, k: nat, va: nat) {
    k < |segs| && segs[k].load && segs[k].vaddr <= va < segs[k].vaddr + segs[k].filesz
  }

  /** The rights of a page of the program are the flags of the segment that brought it, for the user
      and always with reading: bit 0 is for execution and bit 1 for writing. */
  lemma {:induction false} ProgramRightsSeen(mem: Mem, t: Tables, n: nat, segs: seq<Segment>, args: seq<Text>,
                                             k: nat, x: nat)
    requires NewImage(mem, t, n, segs, args) && Brings(segs, k, x)
    ensures Inside(mem, t)
    ensures var f := Entry(mem, t, x).f;
      f.v && f.r && f.u && (f.x <==> segs[k].flags % 2 == 1) && (f.w <==> segs[k].flags / 2 % 2 == 1)
  {
    SizeGrows(segs, k + 1, |segs|);
    RightsStay(segs, k, |segs|, x);
    hide SizeAfter, Pages, StackReady, PageAfter, DataOf, Entry, RightsAfter;
  }

  lemma {:induction false} RightsStay(segs: seq<Segment>, k: nat, j: nat, x: nat)
    requires Brings(segs, k, x) && k < j <= |segs|
    ensures RightsAfter(segs, j, x) == UserRights(Flags2Perm(segs[k].flags))
  {
    if j > k + 1 {
      SizeGrows(segs, k + 1, j - 1);
      RightsStay(segs, k, j - 1, x);
    }
  }

  // Every page of the program has been brought by a segment.
  lemma {:induction false} PageIsBrought(segs: seq<Segment>, j: nat, x: nat) returns (k: nat)
    requires j <= |segs| && x < Pages(SizeAfter(segs, j))
    ensures k < j && Brings(segs, k, x)
  {
    assert j > 0;
    if x < Pages(SizeAfter(segs, j - 1)) {
      k := PageIsBrought(segs, j - 1, x);
    } else {
      k := j - 1;
    }
  }

  /** A byte of the program is the one that the last segment to have it has in the file, and 0 where
      no segment has any.  Every segment lies inside, and nothing is larger than it must be. */
  lemma {:induction false} ProgramBytesSeen(mem: Mem, t: Tables, top: Top, n: nat, segs: seq<Segment>,
                                            args: seq<Text>, va: nat)
    requires NewImage(mem, t, n, segs, args) && Space(mem, t, top, n) && Loads(segs, |segs|)
    requires va / PGSIZE < Pages(SizeAfter(segs, |segs|))
    ensures Inside(mem, t) && ViewOf(mem, t).Readable(va)
    ensures forall k: nat :: Has(segs, k, va) && (forall j: nat :: j > k ==> !Has(segs, j, va)) ==>
      va - segs[k].vaddr < |segs[k].data| && ViewOf(mem, t).At(va) == segs[k].data[va - segs[k].vaddr]
    ensures (forall k: nat :: !Has(segs, k, va)) ==> ViewOf(mem, t).At(va) == 0
  {
    var x := va / PGSIZE;
    ProgramPage(mem, t, top, n, segs, args, va);
    hide NewImage, Space, ViewOf, SizeAfter, Pages, ByteAfter;
    forall k: nat | Has(segs, k, va) && forall j: nat :: j > k ==> !Has(segs, j, va)
      ensures va - segs[k].vaddr < |segs[k].data| && ByteAfter(segs, |segs|, va) == segs[k].data[va - segs[k].vaddr]
    {
      ByteFrom(segs, k, |segs|, va);
    }
    if forall k: nat :: !Has(segs, k, va) { ByteNone(segs, |segs|, va); }
  }

  lemma {:induction false} ProgramPage(mem: Mem, t: Tables, top: Top, n: nat, segs: seq<Segment>,
                                       args: seq<Text>, va: nat)
    requires NewImage(mem, t, n, segs, args) && Space(mem, t, top, n) && Loads(segs, |segs|)
    requires va / PGSIZE < Pages(SizeAfter(segs, |segs|))
    ensures Inside(mem, t) && ViewOf(mem, t).Readable(va) && ViewOf(mem, t).At(va) == ByteAfter(segs, |segs|, va)
  {
    var x := va / PGSIZE;
    UserRightsAfter(segs, |segs|, x);
    ImageAt(mem, t, top, n, x);
    ViewAt(mem, t, va);
    hide Space, ViewOf, SizeAfter, Pages, Entry, StackReady, RightsAfter, ByteAfter, DataOf, PageAfter;
    PageAfterAt(segs, va);
    assert HasPage(mem, t, x, RightsAfter(segs, |segs|, x), PageAfter(segs, |segs|, x));
  }

  lemma {:induction false} PageAfterAt(segs: seq<Segment>, va: nat)
    ensures PageAfter(segs, |segs|, va / PGSIZE)[va % PGSIZE] == ByteAfter(segs, |segs|, va)
  {
    hide ByteAfter;
    assert va / PGSIZE * PGSIZE + va % PGSIZE == va;
  }

  lemma {:induction false} ByteFrom(segs: seq<Segment>, k: nat, j: nat, va: nat)
    requires Loads(segs, |segs|) && Has(segs, k, va) && k < j <= |segs|
    requires forall i: nat :: i > k ==> !Has(segs, i, va)
    ensures va - segs[k].vaddr < |segs[k].data| && ByteAfter(segs, j, va) == segs[k].data[va - segs[k].vaddr]
  {
    assert Passes(segs[k], SizeAfter(segs, k));
    if j > k + 1 {
      ByteFrom(segs, k, j - 1, va);
      assert !Has(segs, j - 1, va);
    }
  }

  lemma {:induction false} ByteNone(segs: seq<Segment>, j: nat, va: nat)
    requires j <= |segs| && forall i: nat :: !Has(segs, i, va)
    ensures ByteAfter(segs, j, va) == 0
  {
    if j > 0 {
      ByteNone(segs, j - 1, va);
      assert !Has(segs, j - 1, va);
    }
  }

  lemma {:induction false} ImageSize(segs: seq<Segment>, j: nat)
    requires j <= |segs|
    ensures forall k: nat :: k < j && segs[k].load ==> segs[k].vaddr + segs[k].memsz <= SizeAfter(segs, j)
    ensures SizeAfter(segs, j) == 0 ||
      exists k: nat :: k < j && segs[k].load && segs[k].vaddr + segs[k].memsz == SizeAfter(segs, j)
  {
    if j > 0 { ImageSize(segs, j - 1); }
  }

  // Page x reads as d.
  ghost predicate ReadsAs(v: View, x: nat, d: Data) {
    forall va: nat :: va / PGSIZE == x ==> v.At(va) == d[va % PGSIZE]
  }

  lemma {:induction false} ReadOn(v: View, x: nat, d: Data, o: nat, len: nat)
    requires ReadsAs(v, x, d) && o + len <= PGSIZE
    ensures Read(v, x * PGSIZE + o, len) == d[o..o + len]
  {
    var s := Read(v, x * PGSIZE + o, len);
    hide View.At, Read;
    forall k: nat | k < len ensures s[k] == d[o + k] {
      var va := x * PGSIZE + o + k;
      assert va / PGSIZE == x && va % PGSIZE == o + k;
    }
  }

  /** The stack: below it a page closed to the user, then a page to read and write but not to execute.
      From sp on it holds |args| addresses and a 0, and at the i-th address the i-th string. */
  lemma {:induction false} StackSeen(mem: Mem, t: Tables, n: nat, segs: seq<Segment>, args: seq<Text>)
    requires NewImage(mem, t, n, segs, args) && n <= MAXVPN
    ensures Inside(mem, t) && n >= 2 && Room(args) <= PGSIZE <= n * PGSIZE
    ensures Closed(ViewOf(mem, t), n - 2) && Open(ViewOf(mem, t), n - 1)
    ensures !Entry(mem, t, n - 1).f.x && Entry(mem, t, n - 1).f.r
    ensures var v, sp: nat := ViewOf(mem, t), n * PGSIZE - Room(args);
      && sp % 16 == 0 && Number(Read(v, sp + 8 * |args|, 8)) == 0
      && forall i: nat :: i < |args| ==> ArgSeen(v, sp, args, i)
  {
    hide *;
    var d := StackData(mem, t, n, segs, args);
    var v, sp: nat := ViewOf(mem, t), n * PGSIZE - Room(args);
    WholePages(n, Room(args));
    PointerSeen(v, n, d, args, |args|);
    ArgsSeen(v, n, d, args, sp);
  }

  lemma {:induction false} ArgsSeen(v: View, n: nat, d: Data, args: seq<Text>, sp: nat)
    requires n >= 2 && ArgvOn(d, AddrOf(n), args) && ReadsAs(v, n - 1, d)
    requires Room(args) <= PGSIZE && sp == n * PGSIZE - Room(args)
    ensures forall i: nat :: i < |args| ==> ArgSeen(v, sp, args, i)
  {
    hide *;
    forall i: nat | i < |args| ensures ArgSeen(v, sp, args, i) {
      PointerSeen(v, n, d, args, i);
      StringSeen(v, n, d, args, i);
      FoldArg(v, sp, args, i);
    }
  }

  ghost predicate ArgSeen(v: View, sp: nat, args: seq<Text>, i: nat) {
    i < |args| && Read(v, Number(Read(v, sp + 8 * i, 8)), |args[i]| + 1) == args[i] + [0]
  }

  lemma FoldArg(v: View, sp: nat, args: seq<Text>, i: nat)
    requires i < |args| && Read(v, Number(Read(v, sp + 8 * i, 8)), |args[i]| + 1) == args[i] + [0]
    ensures ArgSeen(v, sp, args, i)
  {
  }

  lemma WholePages(n: nat, room: nat)
    requires n >= 2 && room <= PGSIZE && room % 16 == 0
    ensures n * PGSIZE >= PGSIZE >= 0 && (n * PGSIZE - room) % 16 == 0 && n * PGSIZE - room >= 0
  {
  }

  lemma {:induction false} StackData(mem: Mem, t: Tables, n: nat, segs: seq<Segment>, args: seq<Text>) returns (d: Data)
    requires NewImage(mem, t, n, segs, args) && n <= MAXVPN
    ensures Inside(mem, t) && n >= 2 && ArgvOn(d, AddrOf(n), args) && ReadsAs(ViewOf(mem, t), n - 1, d)
    ensures Room(args) <= PGSIZE && Room(args) % 16 == 0 && AddrOf(n) == n * PGSIZE >= PGSIZE
    ensures Closed(ViewOf(mem, t), n - 2) && Open(ViewOf(mem, t), n - 1)
    ensures !Entry(mem, t, n - 1).f.x && Entry(mem, t, n - 1).f.r
  {
    d :| StackAt(mem, t, n, d) && ArgvOn(d, AddrOf(n), args);
    hide Program, SizeAfter, Pages, ViewOf, Entry, DataOf, StringsOn, PointerOn, Room;
    forall va: nat | va / PGSIZE == n - 1
      ensures ViewOf(mem, t).Readable(va) && ViewOf(mem, t).Writable(va) && ViewOf(mem, t).At(va) == d[va % PGSIZE]
    {
      ViewAt(mem, t, va);
    }
    forall va: nat | va / PGSIZE == n - 2 ensures !ViewOf(mem, t).Readable(va) { ViewAt(mem, t, va); }
  }

  lemma {:induction false} PointerSeen(v: View, n: nat, d: Data, args: seq<Text>, i: nat)
    requires n >= 2 && ArgvOn(d, AddrOf(n), args) && ReadsAs(v, n - 1, d) && i <= |args|
    requires Room(args) <= PGSIZE
    ensures n * PGSIZE - Room(args) + 8 * i >= 0
    ensures Number(Read(v, n * PGSIZE - Room(args) + 8 * i, 8)) == Pointer(AddrOf(n), args, i)
    ensures i == |args| ==> Pointer(AddrOf(n), args, i) == 0
  {
    hide Room, StringsOn, ReadsAs, Read, Number, ArgBytes;
    assert PointerOn(d, AddrOf(n), args, i);
    var o: nat := PGSIZE - Room(args) + 8 * i;
    ReadOn(v, n - 1, d, o, 8);
    assert (n - 1) * PGSIZE + o == n * PGSIZE - Room(args) + 8 * i;
  }

  lemma {:induction false} StringSeen(v: View, n: nat, d: Data, args: seq<Text>, i: nat)
    requires n >= 2 && ArgvOn(d, AddrOf(n), args) && ReadsAs(v, n - 1, d) && i < |args|
    ensures Pointer(AddrOf(n), args, i) >= 0
    ensures Read(v, Pointer(AddrOf(n), args, i), |args[i]| + 1) == args[i] + [0]
  {
    hide Room, PointerOn, ReadsAs, Read, ArgBytes;
    assert StringOn(d, args, i);
    var o: nat := PGSIZE - ArgBytes(args, i + 1);
    ReadOn(v, n - 1, d, o, |args[i]| + 1);
    assert (n - 1) * PGSIZE + o == Pointer(AddrOf(n), args, i);
  }

  // ---------- growing, and the copy that fork makes ----------

  /** growproc: the user can read and write every byte of the pages that are new, and finds 0. */
  lemma GrownPagesSeen(pt: ProcTable, s0: Snap, i: nat, sz: nat, va: nat)
    requires pt.Resized(s0, i, sz) && pt.Inv()
    requires Pages(s0.proc[i].sz) <= va / PGSIZE < Pages(sz)
    ensures Inside(pt.m.mem, pt.tab[i])
    ensures var v, e := ViewOf(pt.m.mem, pt.tab[i]), Entry(pt.m.mem, pt.tab[i], va / PGSIZE);
      v.Readable(va) && v.Writable(va) && v.At(va) == 0 && e.f.r && !e.f.x
  {
    var x := va / PGSIZE;
    ResizedAt(pt, s0, i, sz, x);
    ViewAt(pt.m.mem, pt.tab[i], va);
    ZeroData();
    hide ViewOf, Entry, DataOf;
  }

  lemma ResizedAt(pt: ProcTable, s0: Snap, i: nat, sz: nat, x: nat)
    requires pt.Resized(s0, i, sz) && pt.Inv() && Pages(s0.proc[i].sz) <= x < Pages(sz)
    ensures Inside(pt.m.mem, pt.tab[i]) && FreshPage(pt.m.mem, pt.tab[i], x, UserRights(WONLY)) && x < MAXVPN
  {
    pt.InvIs();
    pt.OwnedAt(i);
    hide Held, PagesKept, FreshPage, Owners, Settled, Space, SpaceFrames;
    if pt.proc[i].pagetable != 0 { SpaceIs(pt.m.mem, pt.tab[i], TopOf(pt.trampoline, pt.proc[i]), Pages(sz)); }
  }

  /** fork: the saved registers of the child, struct trapframe's 288 bytes, are the parent's, but for
      a0, at byte 112, which is 0. */
  lemma RegistersSeen(mem: Mem, p: nat, c: nat, j: nat)
    requires SameRegisters(mem, p, c) && j < 288 / 8
    ensures p in mem && c in mem
    ensures Pte(mem[c][j]) == if j == 112 / 8 then 0 else Pte(mem[p][j])
  {
    hide Pte;
    ZeroPte();
    assert mem[c][j] == mem[c][..36][j] && mem[p][j] == mem[p][..36][j];
  }

  /** fork: below its size the child reads what the parent reads, and can write where it can. */
  lemma CopySeen(mem: Mem, t: Tables, u: Tables, n: nat, va: nat)
    requires SamePages(mem, t, u, n) && va / PGSIZE < n <= MAXVPN
    ensures Inside(mem, t) && Inside(mem, u)
    ensures var v, w := ViewOf(mem, t), ViewOf(mem, u);
      && (w.Readable(va) <==> v.Readable(va)) && (w.Writable(va) <==> v.Writable(va))
      && (v.Readable(va) ==> w.At(va) == v.At(va))
    ensures Entry(mem, u, va / PGSIZE).f == Entry(mem, t, va / PGSIZE).f
  {
    assert ProcMemory.SamePage(mem, Entry(mem, t, va / PGSIZE), Entry(mem, u, va / PGSIZE));
    ViewAt(mem, t, va);
    ViewAt(mem, u, va);
    hide ViewOf, Entry, DataOf;
  }
}
