/**
 kernel/exec.c from the ELF header on: the table-building path, the loop that pushes the arguments,
 and the way out at `bad`.  What the file holds, the path of readi included, is a parameter.
*/
module ExecMemory {
  import opened Sv39
  import opened UserMemory
  import opened ProcMemory
  import opened FrameBytes
  import opened UserCopy

  const MAXARG: nat := 32

  type uint64 = n: nat | n < 0x1_0000_0000_0000_0000

  // One program header: whether readi delivers it, whether its type is ELF_PROG_LOAD, its fields,
  // and what the file holds from its offset on.
  datatype Segment = Segment(read: bool, load: bool, flags: nat, vaddr: uint64, filesz: uint64, memsz: uint64,
                             data: seq<byte>)

  function Flags2Perm(flags: nat): Flags {
    NOFLAGS.(x := flags % 2 == 1, w := flags / 2 % 2 == 1)
  }

  predicate Aligned(va: nat) { va % PGSIZE == 0 }

  // ---------- what a program's headers ask for ----------

  // The size of the image after the first k headers.
  function SizeAfter(segs: seq<Segment>, k: nat): nat
    requires k <= |segs|
  {
    if k == 0 then 0
    else
      var sz := SizeAfter(segs, k - 1);
      if !segs[k - 1].load then sz else Max(sz, segs[k - 1].vaddr + segs[k - 1].memsz)
  }

  function Max(a: nat, b: nat): nat { if a < b then b else a }

  // What exec checks of a header by itself, and that the file holds what it says.
  predicate GoodHeader(s: Segment) {
    s.read && (s.load ==>
      && s.filesz <= s.memsz && s.vaddr + s.memsz < 0x1_0000_0000_0000_0000 && s.vaddr % PGSIZE == 0
      && s.filesz <= |s.data|)
  }

  // Whether exec gets past this header with an image of size sz, memory permitting.
  predicate Passes(s: Segment, sz: nat) {
    GoodHeader(s) && (s.load ==> sz > 0 || s.vaddr + s.memsz > 0)
  }

  ghost predicate Loads(segs: seq<Segment>, k: nat) {
    k <= |segs| && forall j :: 0 <= j < k ==> Passes(segs[j], SizeAfter(segs, j))
  }

  // Byte va under the first b bytes of a segment, over a byte of the image so far.
  function Over(s: Segment, b: nat, va: nat, below: byte): byte {
    if s.vaddr <= va < s.vaddr + b && va - s.vaddr < |s.data| then s.data[va - s.vaddr] else below
  }

  // Byte va of the image: from the last segment that has it, or else 0.
  function ByteAfter(segs: seq<Segment>, k: nat, va: nat): byte
    requires k <= |segs|
  {
    if k == 0 then 0
    else
      var below := ByteAfter(segs, k - 1, va);
      if segs[k - 1].load then Over(segs[k - 1], segs[k - 1].filesz, va, below) else below
  }

  function PageAfter(segs: seq<Segment>, k: nat, x: nat): Data
    requires k <= |segs|
  {
    seq(4096, o requires 0 <= o < 4096 => PageByte(segs, k, x, o))
  }

  function PageByte(segs: seq<Segment>, k: nat, x: nat, o: nat): byte
    requires k <= |segs|
  {
    ByteAfter(segs, k, x * PGSIZE + o)
  }

  // The rights of page x: those of the segment that made the image reach it.
  function RightsAfter(segs: seq<Segment>, k: nat, x: nat): Flags
    requires k <= |segs|
  {
    if k == 0 then NOFLAGS
    else if segs[k - 1].load && Pages(SizeAfter(segs, k - 1)) <= x then UserRights(Flags2Perm(segs[k - 1].flags))
    else RightsAfter(segs, k - 1, x)
  }

  // A page of the image, with these rights and bytes.
  ghost predicate HasPage(mem: Mem, t: Tables, x: nat, f: Flags, d: Data)
    requires Inside(mem, t)
  {
    var e := Entry(mem, t, x);
    e.f == f && e.ppn in mem && DataOf(mem[e.ppn]) == d
  }

  /** The program as its first k headers describe it: every page has the right bytes and rights. */
  ghost predicate Program(mem: Mem, t: Tables, segs: seq<Segment>, k: nat) {
    && Inside(mem, t) && k <= |segs|
    && forall x: nat :: x < Pages(SizeAfter(segs, k)) ==>
         HasPage(mem, t, x, RightsAfter(segs, k, x), PageAfter(segs, k, x))
  }

  lemma {:induction false} UserRightsAfter(segs: seq<Segment>, k: nat, x: nat)
    requires k <= |segs| && x < Pages(SizeAfter(segs, k))
    ensures RightsAfter(segs, k, x).v && RightsAfter(segs, k, x).u
  {
    if k > 0 && (!segs[k - 1].load || x < Pages(SizeAfter(segs, k - 1))) {
      UserRightsAfter(segs, k - 1, x);
    }
  }

  ghost predicate UserTill(segs: seq<Segment>, k: nat, n: nat) {
    k <= |segs| && forall x: nat :: x < n ==> RightsAfter(segs, k, x).u
  }

  lemma {:induction false} AllUser(segs: seq<Segment>, k: nat)
    requires k <= |segs|
    ensures UserTill(segs, k, Pages(SizeAfter(segs, k)))
  {
    forall x: nat | x < Pages(SizeAfter(segs, k)) ensures RightsAfter(segs, k, x).u { UserRightsAfter(segs, k, x); }
  }

  // Past its size the image has no bytes of the file.
  lemma {:induction false} NothingPast(segs: seq<Segment>, k: nat, va: nat)
    requires Loads(segs, k) && va >= SizeAfter(segs, k)
    ensures ByteAfter(segs, k, va) == 0
  {
    if k > 0 {
      assert Passes(segs[k - 1], SizeAfter(segs, k - 1));
      NothingPast(segs, k - 1, va);
    }
  }

  lemma {:induction false} NoPagePast(segs: seq<Segment>, k: nat, x: nat)
    requires Loads(segs, k) && x >= Pages(SizeAfter(segs, k))
    ensures PageAfter(segs, k, x) == NODATA
  {
    forall o: nat | o < 4096 ensures PageByte(segs, k, x, o) == 0 {
      NothingPast(segs, k, x * PGSIZE + o);
    }
  }

  lemma {:induction false} SizeGrows(segs: seq<Segment>, j: nat, k: nat)
    requires j <= k <= |segs|
    ensures SizeAfter(segs, j) <= SizeAfter(segs, k) && Pages(SizeAfter(segs, j)) <= Pages(SizeAfter(segs, k))
  {
    if j < k { SizeGrows(segs, j, k - 1); }
    PagesFacts(SizeAfter(segs, j), SizeAfter(segs, k));
  }

  /** uvmalloc reports a success that ends at size 0 as 0, which exec takes for a failure.  So a
      program of good headers is refused exactly when its first loadable segment, wherever it
      stands, ends at address 0. */
  lemma {:induction false} EmptySegmentRefusedIff(segs: seq<Segment>, k: nat)
    requires k < |segs| && segs[k].load && forall j :: 0 <= j < k ==> !segs[j].load
    requires forall j :: 0 <= j < |segs| ==> GoodHeader(segs[j])
    ensures Loads(segs, |segs|) <==> segs[k].vaddr + segs[k].memsz > 0
  {
    NoneLoadable(segs, k);
    assert SizeAfter(segs, k + 1) == segs[k].vaddr + segs[k].memsz;
    hide GoodHeader, Pages, SizeAfter;
    assert Loads(segs, |segs|) ==> Passes(segs[k], SizeAfter(segs, k));
    forall j | 0 <= j < |segs| && segs[k].vaddr + segs[k].memsz > 0 ensures Passes(segs[j], SizeAfter(segs, j)) {
      if j > k { SizeGrows(segs, k + 1, j); } else { NoneLoadable(segs, j); }
    }
  }

  lemma {:induction false} NoneLoadable(segs: seq<Segment>, k: nat)
    requires k <= |segs| && forall j :: 0 <= j < k ==> !segs[j].load
    ensures SizeAfter(segs, k) == 0
  {
    if k > 0 { NoneLoadable(segs, k - 1); }
  }

  // ---------- the new image while it is built ----------

  // A space made of frames that were free at the start, with nothing else written.
  ghost predicate Image(m: PhysMem, t: Tables, top: Top, n: nat, mem0: Mem, fs0: set<nat>)
    reads m
  {
    && m.Valid() && m.Holds(t) && Space(m.mem, t, top, n) && |m.mem| <= RAMFRAMES && 0 !in fs0
    && SpaceFrames(m.mem, t, n) !! m.FreeSet() && SpaceFrames(m.mem, t, n) + m.FreeSet() == fs0
    && SameOutside(mem0, m.mem, fs0)
  }

  lemma ImageIs(m: PhysMem, t: Tables, top: Top, n: nat, mem0: Mem, fs0: set<nat>)
    requires Image(m, t, top, n, mem0, fs0)
    ensures m.Valid() && m.Holds(t) && Space(m.mem, t, top, n) && |m.mem| <= RAMFRAMES && 0 !in fs0
    ensures SpaceFrames(m.mem, t, n) !! m.FreeSet() && SpaceFrames(m.mem, t, n) + m.FreeSet() == fs0
    ensures SameOutside(mem0, m.mem, fs0) && Inside(m.mem, t) && Wf(m.mem, t)
  {
    hide Wf, SpaceFrames, Freeable;
  }

  lemma FoldImage(m: PhysMem, t: Tables, top: Top, n: nat, mem0: Mem, fs0: set<nat>)
    requires m.Valid() && m.Holds(t) && Space(m.mem, t, top, n) && |m.mem| <= RAMFRAMES && 0 !in fs0
    requires SpaceFrames(m.mem, t, n) !! m.FreeSet() && SpaceFrames(m.mem, t, n) + m.FreeSet() == fs0
    requires SameOutside(mem0, m.mem, fs0)
    ensures Image(m, t, top, n, mem0, fs0)
  {
  }

  // uvmalloc on the image.
  method GrowImage(m: PhysMem, root: nat, sz: nat, newsz: nat, xperm: Flags, ghost top: Top, ghost t: Tables,
                   ghost mem0: Mem, ghost fs0: set<nat>)
    returns (r: nat, ghost t': Tables)
    requires Image(m, t, top, Pages(sz), mem0, fs0) && root == t.root
    modifies m
    ensures t'.root == root && Image(m, t', top, Pages(if r == 0 then sz else r), mem0, fs0)
    ensures r != 0 ==> r == Max(sz, newsz) && |old(m.free)| <= |m.free| + 3 * Freed(newsz, sz)
    ensures r == 0 ==> Max(sz, newsz) == 0 || |old(m.free)| < 3 * Freed(newsz, sz)
    ensures r != 0 ==> PagesKept(old(m.mem), t, m.mem, t', Pages(sz))
    ensures r != 0 ==> Inside(m.mem, t') && forall x: nat :: Pages(sz) <= x < Pages(r) ==>
      FreshPage(m.mem, t', x, UserRights(xperm))
  {
    hide *;
    MaxIs(sz, newsz);
    ghost var mem1, fs1, n := m.mem, m.FreeSet(), Pages(sz);
    ImageIs(m, t, top, n, mem0, fs0);
    NoFreeZero(m);
    RoomToGrow(m, t, top, n);
    ghost var ok;
    r, ok, t' := UvmAlloc(m, root, sz, newsz, xperm, t);
    FreedIs(newsz, sz);
    if newsz < sz {
      FoldImage(m, t, top, n, mem0, fs0);
      SpacePagesKept(m.mem, t, top, n);
      return;
    }
    ghost var p, k := Page(UserRights(xperm), Zeros()), if ok then Freed(newsz, sz) else 0;
    RepeatNone(p);
    FreedMore(newsz, sz);
    UserRightsLeaf(xperm);
    GrewKeys(mem1, fs1, t, m.mem, m.FreeSet(), t', n, Repeat(p, k));
    GrewSpace(mem1, fs1, t, top, n, m, t', Repeat(p, k));
    GrewFresh(mem1, t, m.mem, t', n, UserRights(xperm), k);
    OutsideTrans(mem0, mem1, m.mem, fs0, fs0);
    FoldImage(m, t', top, n + k, mem0, fs0);
  }

  lemma MaxIs(a: nat, b: nat)
    ensures Max(a, b) == if a < b then b else a
  {
  }

  lemma SpacePagesKept(mem: Mem, t: Tables, top: Top, n: nat)
    requires Space(mem, t, top, n)
    ensures Inside(mem, t) && PagesKept(mem, t, mem, t, n)
  {
    forall x: nat | x < n ensures PageKept(mem, t, mem, t, x) {
      ImageAt(mem, t, top, n, x);
    }
  }

  // ---------- loadseg ----------

  // Writing into a user page keeps the layout.
  lemma UserStore(mem: Mem, t: Tables, top: Top, n: nat, x: nat, mem': Mem, page: Frame)
    requires Space(mem, t, top, n) && x < n && Inside(mem, t)
    requires mem' == mem[Entry(mem, t, x).ppn := page]
    ensures Space(mem', t, top, n) && SpaceFrames(mem', t, n) == SpaceFrames(mem, t, n)
    ensures SameEntries(mem, t, mem', t) && Entry(mem, t, x).ppn in mem
    ensures Entry(mem, t, x).ppn in SpaceFrames(mem, t, n) && Entry(mem, t, x).ppn != 0
  {
    hide Wf, Tables.Frames, LeafFrames;
    LeafRangeIn(mem, t, 0, n, x);
    FreeableApart(mem, t, 0, n);
    Framing(mem, mem', t);
    LeafSame(mem, t, mem', t, 0, n);
  }

  lemma ImageAt(mem: Mem, t: Tables, top: Top, n: nat, x: nat)
    requires Space(mem, t, top, n) && x < n && Inside(mem, t)
    ensures Entry(mem, t, x).f.v && x < MAXVPN
    ensures var f := Entry(mem, t, x).ppn; f != 0 && f in mem && f in SpaceFrames(mem, t, n)
  {
    hide Wf, Tables.Frames, LeafFrames;
    LeafRangeIn(mem, t, 0, n, x);
    FreeableApart(mem, t, 0, n);
  }

  // A store to user page x of the image.
  method StoreImage(m: PhysMem, x: nat, f: nat, page: Frame, ghost top: Top, ghost n: nat, ghost t: Tables,
                    ghost mem0: Mem, ghost fs0: set<nat>)
    requires Image(m, t, top, n, mem0, fs0) && Inside(m.mem, t) && x < n && f == Entry(m.mem, t, x).ppn
    modifies m
    ensures Image(m, t, top, n, mem0, fs0) && SameEntries(old(m.mem), t, m.mem, t)
    ensures f in m.mem && m.mem == old(m.mem)[f := page] && m.free == old(m.free)
  {
    hide *;
    ghost var mem1 := m.mem;
    ImageIs(m, t, top, n, mem0, fs0);
    ImageAt(m.mem, t, top, n, x);
    StorePage(m, f, page);
    UserStore(mem1, t, top, n, x, m.mem, page);
    SpaceWf(m.mem, t, top, n);
    FoldHolds(m, t);
    Outside1(mem0, mem1, m.mem, fs0, f);
    FoldImage(m, t, top, n, mem0, fs0);
  }

  lemma Outside1(mem0: Mem, mem1: Mem, mem2: Mem, a: set<nat>, f: nat)
    requires SameOutside(mem0, mem1, a) && SameOutside(mem1, mem2, {f}) && f in a
    ensures SameOutside(mem0, mem2, a) && |mem2| == |mem1|
  {
    SameCount(mem1, mem2);
  }

  lemma FoldHolds(m: PhysMem, t: Tables)
    requires Wf(m.mem, t) && t.Frames() !! m.FreeSet()
    ensures m.Holds(t)
  {
  }

  lemma SpaceWf(mem: Mem, t: Tables, top: Top, n: nat)
    requires Space(mem, t, top, n)
    ensures Wf(mem, t) && t.Frames() <= SpaceFrames(mem, t, n)
  {
    hide Wf, Tables.Frames, LeafFrames;
  }

  // The image while the first b bytes of segment k are in place.
  function PartAfter(segs: seq<Segment>, k: nat, b: nat, x: nat): Data
    requires k < |segs|
  {
    seq(4096, o requires 0 <= o < 4096 => PartByte(segs, k, b, x, o))
  }

  function PartByte(segs: seq<Segment>, k: nat, b: nat, x: nat, o: nat): byte
    requires k < |segs|
  {
    Over(segs[k], b, x * PGSIZE + o, PageByte(segs, k, x, o))
  }

  ghost predicate Loading(mem: Mem, t: Tables, segs: seq<Segment>, k: nat, b: nat, n: nat) {
    && Inside(mem, t) && k < |segs|
    && forall x: nat :: x < n ==> HasPage(mem, t, x, RightsAfter(segs, k + 1, x), PartAfter(segs, k, b, x))
  }

  lemma {:induction false} NothingLoaded(segs: seq<Segment>, k: nat, x: nat)
    requires k < |segs|
    ensures PartAfter(segs, k, 0, x) == PageAfter(segs, k, x)
  {
    forall o: nat | o < 4096 ensures PartByte(segs, k, 0, x, o) == PageByte(segs, k, x, o) {
    }
  }

  lemma {:induction false} AllLoaded(segs: seq<Segment>, k: nat, x: nat)
    requires k < |segs| && segs[k].load
    ensures PartAfter(segs, k, segs[k].filesz, x) == PageAfter(segs, k + 1, x)
  {
    var j := k + 1;
    forall o: nat | o < 4096 ensures PartByte(segs, k, segs[k].filesz, x, o) == PageByte(segs, j, x, o) {
    }
  }

  // After uvmalloc the new pages are empty, as the image is past its size.
  lemma {:induction false} LoadingStart(mem: Mem, t: Tables, mem': Mem, t': Tables, segs: seq<Segment>, k: nat)
    requires Program(mem, t, segs, k) && Loads(segs, k) && k < |segs| && segs[k].load
    requires PagesKept(mem, t, mem', t', Pages(SizeAfter(segs, k)))
    requires forall x: nat :: Pages(SizeAfter(segs, k)) <= x < Pages(SizeAfter(segs, k + 1)) ==>
      FreshPage(mem', t', x, UserRights(Flags2Perm(segs[k].flags)))
    ensures Loading(mem', t', segs, k, 0, Pages(SizeAfter(segs, k + 1)))
  {
    ZeroData();
    hide SizeAfter, PartAfter, PageAfter, Pages, Entry, DataOf, UserRights, Flags2Perm, Passes;
    forall x: nat | x < Pages(SizeAfter(segs, k + 1))
      ensures HasPage(mem', t', x, RightsAfter(segs, k + 1, x), PartAfter(segs, k, 0, x))
    {
      NothingLoaded(segs, k, x);
      if x < Pages(SizeAfter(segs, k)) {
        assert PageKept(mem, t, mem', t', x);
        assert HasPage(mem, t, x, RightsAfter(segs, k, x), PageAfter(segs, k, x));
      } else {
        assert FreshPage(mem', t', x, UserRights(Flags2Perm(segs[k].flags)));
        NoPagePast(segs, k, x);
      }
    }
  }

  lemma {:induction false} LoadingEnd(mem: Mem, t: Tables, segs: seq<Segment>, k: nat)
    requires k < |segs| && segs[k].load
    requires Loading(mem, t, segs, k, segs[k].filesz, Pages(SizeAfter(segs, k + 1)))
    ensures Program(mem, t, segs, k + 1)
  {
    hide SizeAfter, PartAfter, PageAfter, Pages, HasPage, RightsAfter;
    var j := k + 1;
    forall x: nat | x < Pages(SizeAfter(segs, j))
      ensures HasPage(mem, t, x, RightsAfter(segs, j, x), PageAfter(segs, j, x))
    {
      AllLoaded(segs, k, x);
    }
  }

  // How one readi of loadseg changes what is in place, byte by byte and page by page.
  lemma {:induction false} ByteMore(segs: seq<Segment>, k: nat, i: nat, b: nat, x: nat, o: nat)
    requires k < |segs| && Aligned(segs[k].vaddr) && Aligned(i) && i <= b <= i + PGSIZE && b <= |segs[k].data|
    requires o < PGSIZE
    ensures PartByte(segs, k, b, x, o) ==
      if x == PageNo(segs[k].vaddr + i) && i + o < b then segs[k].data[i + o] else PartByte(segs, k, i, x, o)
  {
    var va0 := segs[k].vaddr + i;
    hide PageByte;
    AlignedSum(segs[k].vaddr, i);
    if x != PageNo(va0) { PageApart(x, o, va0, b - i); }
  }

  lemma {:induction false} PartMore(segs: seq<Segment>, k: nat, i: nat, b: nat, x: nat)
    requires k < |segs| && Aligned(segs[k].vaddr) && Aligned(i) && i <= b <= i + PGSIZE && b <= |segs[k].data|
    ensures PartAfter(segs, k, b, x) ==
      if x == PageNo(segs[k].vaddr + i) then Put(PartAfter(segs, k, i, x), 0, segs[k].data[i..b])
      else PartAfter(segs, k, i, x)
  {
    hide PartByte, Aligned, PageNo;
    forall o: nat | o < 4096
      ensures PartByte(segs, k, b, x, o) ==
        if x == PageNo(segs[k].vaddr + i) && i + o < b then segs[k].data[i + o] else PartByte(segs, k, i, x, o)
    {
      ByteMore(segs, k, i, b, x, o);
    }
  }

  lemma AlignedSum(va: nat, i: nat)
    requires Aligned(va) && Aligned(i)
    ensures Aligned(va + i) && PageNo(va + i) * PGSIZE == va + i
  {
  }

  lemma PageApart(x: nat, o: nat, va0: nat, c: nat)
    requires PageNo(va0) * PGSIZE == va0 && c <= PGSIZE && o < PGSIZE && x != PageNo(va0)
    ensures x * PGSIZE + o < va0 || va0 + c <= x * PGSIZE + o
  {
  }

  lemma {:induction false} LoadingMore(mem: Mem, t: Tables, top: Top, n: nat, segs: seq<Segment>, k: nat,
                                      i: nat, c: nat, x: nat, mem': Mem)
    requires Space(mem, t, top, n) && Loading(mem, t, segs, k, i, n) && x < n && x == PageNo(segs[k].vaddr + i)
    requires Aligned(segs[k].vaddr) && Aligned(i) && c <= PGSIZE && i + c <= |segs[k].data|
    requires SameEntries(mem, t, mem', t)
    requires var f := Entry(mem, t, x).ppn;
      f in mem && mem' == mem[f := FrameOf(Put(DataOf(mem[f]), 0, segs[k].data[i..i + c]))]
    ensures Loading(mem', t, segs, k, i + c, n)
  {
    var f := Entry(mem, t, x).ppn;
    FrameHasData(Put(DataOf(mem[f]), 0, segs[k].data[i..i + c]));
    hide Wf, Tables.Frames, Entry, DataOf, FrameOf, Put, PartAfter, RightsAfter;
    var j, b := k + 1, i + c;
    forall y: nat | y < n
      ensures HasPage(mem', t, y, RightsAfter(segs, j, y), PartAfter(segs, k, b, y))
    {
      assert Entry(mem', t, y) == Entry(mem, t, y);
      assert HasPage(mem, t, y, RightsAfter(segs, k + 1, y), PartAfter(segs, k, i, y));
      PartMore(segs, k, i, b, y);
      if y != x {
        assert Entry(mem, t, y).ppn != f;
      }
    }
  }

  // The page at byte i of a segment lies inside the image.
  lemma SegmentPage(s: Segment, i: nat, sz: nat)
    requires i < s.filesz <= s.memsz && s.vaddr + s.memsz <= sz
    ensures PageNo(s.vaddr + i) < Pages(sz)
  {
  }

  // Segment k has passed the checks and the image has grown for it.
  ghost predicate Placed(segs: seq<Segment>, k: nat) {
    k < |segs| && segs[k].load && segs[k].filesz <= segs[k].memsz && Aligned(segs[k].vaddr)
  }

  lemma {:induction false} PlacedIs(segs: seq<Segment>, k: nat)
    requires Placed(segs, k)
    ensures k < |segs| && segs[k].load && segs[k].filesz <= segs[k].memsz && Aligned(segs[k].vaddr) && Aligned(0)
    ensures segs[k].vaddr + segs[k].memsz <= SizeAfter(segs, k + 1)
  {
  }

  /** loadseg: every address it asks for exists, so its panic cannot happen; it succeeds exactly
      when the file has the segment's bytes, and then exactly they are added to the image. */
  method LoadSeg(m: PhysMem, root: nat, segs: seq<Segment>, k: nat, ghost top: Top, ghost t: Tables,
                 ghost mem0: Mem, ghost fs0: set<nat>)
    returns (ok: bool)
    requires Placed(segs, k) && root == t.root && Image(m, t, top, Pages(SizeAfter(segs, k + 1)), mem0, fs0)
    requires Loading(m.mem, t, segs, k, 0, Pages(SizeAfter(segs, k + 1)))
    modifies m
    ensures Image(m, t, top, Pages(SizeAfter(segs, k + 1)), mem0, fs0) && m.free == old(m.free)
    ensures ok <==> segs[k].filesz <= |segs[k].data|
    ensures ok ==> Program(m.mem, t, segs, k + 1)
  {
    hide *;
    PlacedIs(segs, k);
    ghost var n := Pages(SizeAfter(segs, k + 1));
    ImageIs(m, t, top, n, mem0, fs0);
    RoomToGrow(m, t, top, n);
    NoTruncation(segs[k], SizeAfter(segs, k + 1), n);
    AllUser(segs, k + 1);
    var sz := Low32(segs[k].filesz);
    var i, b := 0, 0;
    while i < sz
      invariant Aligned(i) && 0 <= b <= sz && b <= |segs[k].data| && (i < sz ==> b == i) && (i >= sz ==> b == sz)
      invariant Image(m, t, top, n, mem0, fs0) && m.free == old(m.free) && Loading(m.mem, t, segs, k, b, n)
      decreases sz - i
    {
      SegmentPage(segs[k], i, SizeAfter(segs, k + 1));
      NextPage(i);
      var c := if sz - i < PGSIZE then sz - i else PGSIZE;
      ok := LoadPage(m, root, segs, k, i, c, top, n, t, mem0, fs0);
      if !ok {
        return;
      }
      b := i + c;
      i := i + PGSIZE;
    }
    LoadingEnd(m.mem, t, segs, k);
    ok := true;
  }

  lemma NextPage(i: nat)
    requires Aligned(i)
    ensures Aligned(i + PGSIZE) && PGSIZE == 4096
  {
  }

  function Low32(n: nat): nat { n % 0x1_0000_0000 }

  // filesz is passed on as a 32-bit number; the image is far smaller than that.
  lemma NoTruncation(s: Segment, sz: nat, n: nat)
    requires s.filesz <= s.memsz && s.vaddr + s.memsz <= sz && Pages(sz) <= n <= RAMFRAMES
    ensures Low32(s.filesz) == s.filesz
  {
  }

  method LoadPage(m: PhysMem, root: nat, segs: seq<Segment>, k: nat, i: nat, c: nat, ghost top: Top, ghost n: nat,
                  ghost t: Tables, ghost mem0: Mem, ghost fs0: set<nat>)
    returns (ok: bool)
    requires Image(m, t, top, n, mem0, fs0) && Loading(m.mem, t, segs, k, i, n) && root == t.root
    requires k < |segs| && Aligned(segs[k].vaddr) && Aligned(i) && c <= PGSIZE && PageNo(segs[k].vaddr + i) < n
    requires UserTill(segs, k + 1, n)
    modifies m
    ensures Image(m, t, top, n, mem0, fs0) && m.free == old(m.free)
    ensures ok <==> i + c <= |segs[k].data|
    ensures ok ==> Loading(m.mem, t, segs, k, i + c, n)
  {
    hide *;
    var x := PageNo(segs[k].vaddr + i);
    ImageIs(m, t, top, n, mem0, fs0);
    ImageAt(m.mem, t, top, n, x);
    LoadingAt(m.mem, t, segs, k, i, n, x);
    ghost var mem1 := m.mem;
    var pa := WalkAddr(m, root, x, t);
    FoldImage(m, t, top, n, mem0, fs0);
    if pa == 0 {
      assert false;  // panic("loadseg: address should exist")
    }
    if i + c > |segs[k].data| {
      return false;
    }
    PartFits(c);
    StoreImage(m, x, pa, FrameOf(Put(DataOf(m.mem[pa]), 0, segs[k].data[i..i + c])), top, n, t, mem0, fs0);
    LoadingMore(mem1, t, top, n, segs, k, i, c, x, m.mem);
    ok := true;
  }

  lemma PartFits(c: nat)
    requires c <= PGSIZE
    ensures 0 + c <= 4096
  {
  }

  lemma {:induction false} LoadingAt(mem: Mem, t: Tables, segs: seq<Segment>, k: nat, b: nat, n: nat, x: nat)
    requires Loading(mem, t, segs, k, b, n) && x < n && UserTill(segs, k + 1, n)
    ensures Inside(mem, t) && k < |segs| && Entry(mem, t, x).f.u
  {
    assert HasPage(mem, t, x, RightsAfter(segs, k + 1, x), PartAfter(segs, k, b, x));
  }

  // ---------- the program headers ----------

  function Wrap64(n: nat): nat { n % 0x1_0000_0000_0000_0000 }

  lemma SegmentFits(s: Segment)
    ensures Wrap64(s.vaddr + s.memsz) >= s.vaddr <==> s.vaddr + s.memsz < 0x1_0000_0000_0000_0000
    ensures Wrap64(s.vaddr + s.memsz) >= s.vaddr ==> Wrap64(s.vaddr + s.memsz) == s.vaddr + s.memsz
  {
  }

  lemma PassesIs(s: Segment, sz: nat)
    requires s.load
    ensures Passes(s, sz) <==>
      && s.read && s.filesz <= s.memsz && s.vaddr + s.memsz < 0x1_0000_0000_0000_0000 && Aligned(s.vaddr)
      && s.filesz <= |s.data| && (sz > 0 || s.vaddr + s.memsz > 0)
    ensures Max(sz, s.vaddr + s.memsz) == 0 <==> sz == 0 && s.vaddr + s.memsz == 0
  {
  }

  lemma {:induction false} SizeNext(segs: seq<Segment>, k: nat)
    requires k < |segs| && segs[k].load
    ensures SizeAfter(segs, k + 1) == Max(SizeAfter(segs, k), segs[k].vaddr + segs[k].memsz)
    ensures Freed(segs[k].vaddr + segs[k].memsz, SizeAfter(segs, k)) ==
      Pages(SizeAfter(segs, k + 1)) - Pages(SizeAfter(segs, k)) >= 0
  {
    var sz, e := SizeAfter(segs, k), segs[k].vaddr + segs[k].memsz;
    FreedIs(e, sz);
    PagesFacts(sz, e);
    hide Pages;
  }

  // One loadable segment.
  method LoadOne(m: PhysMem, root: nat, segs: seq<Segment>, k: nat, sz: nat, ghost top: Top, ghost t: Tables,
                 ghost mem0: Mem, ghost fs0: set<nat>)
    returns (ok: bool, sz': nat, ghost t': Tables)
    requires k < |segs| && segs[k].load && segs[k].read && Loads(segs, k) && sz == SizeAfter(segs, k)
    requires Image(m, t, top, Pages(sz), mem0, fs0) && Program(m.mem, t, segs, k) && root == t.root
    modifies m
    ensures t'.root == root && Image(m, t', top, Pages(sz'), mem0, fs0)
    ensures ok ==> Passes(segs[k], sz) && sz' == SizeAfter(segs, k + 1) && Program(m.mem, t', segs, k + 1)
    ensures ok ==> |old(m.free)| <= |m.free| + 3 * (Pages(sz') - Pages(sz))
    ensures !ok ==> !Passes(segs[k], sz) || |old(m.free)| < 3 * (Pages(SizeAfter(segs, k + 1)) - Pages(sz))
  {
    hide *;
    sz', t' := sz, t;
    var s := segs[k];
    PassesIs(s, sz);
    SegmentFits(s);
    SizeNext(segs, k);
    if s.memsz < s.filesz {
      return false, sz, t;
    }
    if Wrap64(s.vaddr + s.memsz) < s.vaddr {
      return false, sz, t;
    }
    if !Aligned(s.vaddr) {
      return false, sz, t;
    }
    ghost var mem1 := m.mem;
    var sz1;
    sz1, t' := GrowImage(m, root, sz, Wrap64(s.vaddr + s.memsz), Flags2Perm(s.flags), top, t, mem0, fs0);
    if sz1 == 0 {
      return false, sz, t';
    }
    sz' := sz1;
    LoadingStart(mem1, t, m.mem, t', segs, k);
    FoldPlaced(segs, k);
    ok := LoadSeg(m, root, segs, k, top, t', mem0, fs0);
  }

  lemma {:induction false} FoldPlaced(segs: seq<Segment>, k: nat)
    requires k < |segs| && segs[k].load && segs[k].filesz <= segs[k].memsz && Aligned(segs[k].vaddr)
    ensures Placed(segs, k)
  {
  }

  // The loop over the program headers.
  method LoadAll(m: PhysMem, root: nat, segs: seq<Segment>, ghost top: Top, ghost t: Tables,
                 ghost mem0: Mem, ghost fs0: set<nat>)
    returns (ok: bool, sz: nat, ghost t': Tables)
    requires Image(m, t, top, 0, mem0, fs0) && root == t.root
    modifies m
    ensures t'.root == root && Image(m, t', top, Pages(sz), mem0, fs0)
    ensures ok ==> Loads(segs, |segs|) && sz == SizeAfter(segs, |segs|) && Program(m.mem, t', segs, |segs|)
    ensures ok ==> |old(m.free)| <= |m.free| + 3 * Pages(sz)
    ensures !ok ==> !Loads(segs, |segs|) || |old(m.free)| < 3 * Pages(SizeAfter(segs, |segs|))
  {
    hide *;
    t', sz := t, 0;
    ImageIs(m, t, top, 0, mem0, fs0);
    NothingYet(m.mem, t, segs);
    var k := 0;
    while k < |segs|
      invariant 0 <= k <= |segs| && t'.root == root && Image(m, t', top, Pages(sz), mem0, fs0)
      invariant Loads(segs, k) && sz == SizeAfter(segs, k) && Program(m.mem, t', segs, k)
      invariant |old(m.free)| <= |m.free| + 3 * Pages(sz)
    {
      LoadsNext(segs, k);
      SizeGrows(segs, k + 1, |segs|);
      if !segs[k].read {
        return false, sz, t';
      }
      if segs[k].load {
        ok, sz, t' := LoadOne(m, root, segs, k, sz, top, t', mem0, fs0);
        if !ok {
          return;
        }
      } else {
        Skipped(m.mem, t', segs, k);
      }
      k := k + 1;
    }
    ok := true;
  }

  lemma {:induction false} NothingYet(mem: Mem, t: Tables, segs: seq<Segment>)
    requires Inside(mem, t)
    ensures Program(mem, t, segs, 0) && Loads(segs, 0) && SizeAfter(segs, 0) == 0 && Pages(0) == 0
  {
  }

  lemma {:induction false} LoadsNext(segs: seq<Segment>, k: nat)
    requires Loads(segs, k) && k < |segs|
    ensures Loads(segs, k + 1) <==> Passes(segs[k], SizeAfter(segs, k))
    ensures Loads(segs, |segs|) ==> Loads(segs, k + 1)
    ensures !segs[k].read ==> !Passes(segs[k], SizeAfter(segs, k))
    ensures segs[k].read && !segs[k].load ==> Passes(segs[k], SizeAfter(segs, k))
  {
    hide SizeAfter;
  }

  lemma {:induction false} Skipped(mem: Mem, t: Tables, segs: seq<Segment>, k: nat)
    requires k < |segs| && !segs[k].load && Program(mem, t, segs, k)
    ensures Program(mem, t, segs, k + 1) && SizeAfter(segs, k + 1) == SizeAfter(segs, k)
  {
    hide Entry, DataOf, Pages;
    var j := k + 1;
    forall x: nat | x < Pages(SizeAfter(segs, k))
      ensures HasPage(mem, t, x, RightsAfter(segs, j, x), PageAfter(segs, j, x))
    {
      assert HasPage(mem, t, x, RightsAfter(segs, k, x), PageAfter(segs, k, x));
      assert forall o: nat :: o < 4096 ==> PageByte(segs, j, x, o) == PageByte(segs, k, x, o);
      assert PageAfter(segs, j, x) == PageAfter(segs, k, x);
    }
  }

  // ---------- the stack ----------

  function Rounded(sz: nat): nat { Pages(sz) * PGSIZE }  // PGROUNDUP(sz)

  function TwoMore(sz: nat): nat { Rounded(sz) + 2 * PGSIZE }

  lemma RoundedIs(sz: nat)
    ensures Pages(Rounded(sz)) == Pages(sz) && Pages(TwoMore(sz)) == Pages(sz) + 2
    ensures PageNo(TwoMore(sz)) == Pages(sz) + 2 && 0 <= Rounded(sz) < TwoMore(sz)
    ensures Freed(TwoMore(sz), Rounded(sz)) == 2 && Max(Rounded(sz), TwoMore(sz)) == TwoMore(sz)
    ensures TwoMore(sz) == AddrOf(Pages(sz) + 2)
  {
  }

  // The stack: two more pages, the lower one closed to the user as a guard, the upper one holding d.
  ghost predicate StackAt(mem: Mem, t: Tables, n: nat, d: Data) {
    && Inside(mem, t) && n >= 2
    && Entry(mem, t, n - 2).f.v && !Entry(mem, t, n - 2).f.u
    && HasPage(mem, t, n - 1, UserRights(WONLY), d)
  }

  // uvmclear on a user page of the image.
  method CloseGuard(m: PhysMem, root: nat, x: nat, ghost top: Top, ghost n: nat, ghost t: Tables,
                    ghost mem0: Mem, ghost fs0: set<nat>)
    requires Image(m, t, top, n, mem0, fs0) && root == t.root && x < n && Inside(m.mem, t)
    modifies m
    ensures Image(m, t, top, n, mem0, fs0) && SameOutside(old(m.mem), m.mem, t.Frames()) && m.free == old(m.free)
    ensures var e := Entry(old(m.mem), t, x); SetsEntry(old(m.mem), t, m.mem, t, x, e.(f := e.f.(u := false)))
  {
    hide *;
    ghost var mem1, fs1 := m.mem, m.FreeSet();
    ImageIs(m, t, top, n, mem0, fs0);
    ImageAt(m.mem, t, top, n, x);
    EntryMeans(m.mem, t, x);
    UvmClear(m, root, x, t);
    HoldsWf(m, t);
    SpaceWf(mem1, t, top, n);
    OutsideMore(mem1, m.mem, t.Frames(), fs0);
    SameKeys(mem1, m.mem, fs0);
    SameCount(mem1, m.mem);
    GuardSpace(mem1, t, top, n, x, m.mem);
    OutsideTrans(mem0, mem1, m.mem, fs0, fs0);
    FoldImage(m, t, top, n, mem0, fs0);
  }

  lemma GuardSpace(mem: Mem, t: Tables, top: Top, n: nat, x: nat, mem': Mem)
    requires Space(mem, t, top, n) && x < n && Inside(mem, t) && Wf(mem', t) && mem'.Keys == mem.Keys
    requires var e := Entry(mem, t, x); SetsEntry(mem, t, mem', t, x, e.(f := e.f.(u := false)))
    ensures Space(mem', t, top, n) && SpaceFrames(mem', t, n) == SpaceFrames(mem, t, n)
  {
    hide Wf, Tables.Frames, LeafFrames;
    LeafSame(mem, t, mem', t, 0, n);
  }

  lemma {:induction false} ProgramKept(mem: Mem, t: Tables, mem': Mem, t': Tables, segs: seq<Segment>, n: nat)
    requires Program(mem, t, segs, |segs|) && PagesKept(mem, t, mem', t', n) && Pages(SizeAfter(segs, |segs|)) <= n
    ensures Program(mem', t', segs, |segs|)
  {
    hide Entry, DataOf, SizeAfter, PageAfter, RightsAfter, Pages;
    forall x: nat | x < Pages(SizeAfter(segs, |segs|))
      ensures HasPage(mem', t', x, RightsAfter(segs, |segs|, x), PageAfter(segs, |segs|, x))
    {
      assert PageKept(mem, t, mem', t', x);
    }
  }

  // Closing a page changes that page's entry and no other page.
  lemma GuardKept(mem: Mem, t: Tables, top: Top, n: nat, x: nat, mem': Mem, y: nat)
    requires Space(mem, t, top, n) && x < n && y < n && x != y && Inside(mem, t)
    requires var e := Entry(mem, t, x); SetsEntry(mem, t, mem', t, x, e.(f := e.f.(u := false)))
    requires SameOutside(mem, mem', t.Frames())
    ensures Inside(mem', t) && PageKept(mem, t, mem', t, y)
  {
    hide Wf, Tables.Frames, LeafFrames;
    LeafRangeIn(mem, t, 0, n, y);
  }

  lemma {:induction false} GuardStack(mem: Mem, t: Tables, top: Top, n: nat, mem': Mem, segs: seq<Segment>)
    requires Space(mem, t, top, n) && n >= 2 && Inside(mem, t) && FreshPage(mem, t, n - 1, UserRights(WONLY))
    requires Program(mem, t, segs, |segs|) && Pages(SizeAfter(segs, |segs|)) == n - 2
    requires var e := Entry(mem, t, n - 2); SetsEntry(mem, t, mem', t, n - 2, e.(f := e.f.(u := false)))
    requires SameOutside(mem, mem', t.Frames())
    ensures StackAt(mem', t, n, NODATA) && Program(mem', t, segs, |segs|)
  {
    ZeroData();
    GuardKept(mem, t, top, n, n - 2, mem', n - 1);
    SpaceIs(mem, t, top, n);
    forall y: nat | y < n - 2 ensures PageKept(mem, t, mem', t, y) { GuardKept(mem, t, top, n, n - 2, mem', y); }
    hide Space, Wf, Tables.Frames, SizeAfter, Pages, Entry, DataOf;
    ProgramKept(mem, t, mem', t, segs, n - 2);
  }

  // The two pages.
  method GrowStack(m: PhysMem, root: nat, ghost segs: seq<Segment>, sz0: nat, ghost top: Top, ghost t: Tables,
                   ghost mem0: Mem, ghost fs0: set<nat>)
    returns (ok: bool, sz: nat, ghost t': Tables)
    requires Image(m, t, top, Pages(sz0), mem0, fs0) && root == t.root
    requires sz0 == SizeAfter(segs, |segs|) && Program(m.mem, t, segs, |segs|)
    modifies m
    ensures t'.root == root && Image(m, t', top, Pages(sz), mem0, fs0)
    ensures ok ==> sz == TwoMore(sz0) && StackAt(m.mem, t', Pages(sz), NODATA) && Program(m.mem, t', segs, |segs|)
    ensures !ok ==> |old(m.free)| < 6
  {
    hide *;
    sz := Rounded(sz0);
    RoundedIs(sz0);
    ghost var mem1 := m.mem;
    var sz1;
    sz1, t' := GrowImage(m, root, sz, TwoMore(sz0), WONLY, top, t, mem0, fs0);
    if sz1 == 0 {
      return false, sz, t';
    }
    sz := sz1;
    ghost var n, mem2 := Pages(sz), m.mem;
    ProgramKept(mem1, t, mem2, t', segs, Pages(sz0));
    ImageIs(m, t', top, n, mem0, fs0);
    CloseGuard(m, root, PageNo(sz) - 2, top, n, t', mem0, fs0);
    GuardStack(mem2, t', top, n, m.mem, segs);
    ok := true;
  }

  // ---------- pushing the arguments ----------

  function AddrOf(x: nat): nat { x * PGSIZE }

  // A string as strlen sees it.
  type Text = s: seq<byte> | 0 !in s && |s| < 0x8000_0000_0000_0000

  function Round16(n: nat): nat { (n + 15) / 16 * 16 }

  // The stack taken by the first k strings, each with its NUL.
  function ArgBytes(args: seq<Text>, k: nat): nat
    requires k <= |args|
  {
    if k == 0 then 0 else ArgBytes(args, k - 1) + Round16(|args[k - 1]| + 1)
  }

  // With the array of pointers to them and its final 0.
  function Room(args: seq<Text>): nat { ArgBytes(args, |args|) + Round16(8 * (|args| + 1)) }

  predicate ArgsFit(args: seq<Text>) { |args| < MAXARG && Room(args) <= PGSIZE }

  predicate StringsFit(args: seq<Text>) { ArgBytes(args, |args|) <= PGSIZE }

  // exec's check lets MAXARG strings through; the 0 behind their pointers is then written past
  // the end of ustack, and C says nothing of what happens from there on.
  predicate Overruns(args: seq<Text>) { |args| == MAXARG && StringsFit(args) }

  lemma {:induction false} ArgsKinds(args: seq<Text>)
    ensures ArgsFit(args) ==> |args| < MAXARG && StringsFit(args)
    ensures Overruns(args) <==> |args| == MAXARG && StringsFit(args)
  {
  }

  /** So MAXARG short strings are enough: those of at most fifteen bytes take 16 bytes each. */
  lemma {:induction false} ShortStringsOverrun(args: seq<Text>)
    requires |args| == MAXARG && forall i :: 0 <= i < |args| ==> |args[i]| <= 15
    ensures Overruns(args)
  {
    ShortBytes(args, MAXARG);
  }

  lemma {:induction false} ShortBytes(args: seq<Text>, k: nat)
    requires k <= |args| && forall i :: 0 <= i < |args| ==> |args[i]| <= 15
    ensures ArgBytes(args, k) == 16 * k
  {
    if k > 0 { ShortBytes(args, k - 1); }
  }

  ghost predicate Holding(d: Data, o: nat, s: seq<byte>) {
    o + |s| <= 4096 && d[o..o + |s|] == s
  }

  // The i-th string is where it was pushed.
  ghost predicate StringOn(d: Data, args: seq<Text>, i: nat) {
    && i < |args| && ArgBytes(args, i + 1) <= PGSIZE
    && Holding(d, PGSIZE - ArgBytes(args, i + 1), args[i] + [0])
  }

  ghost predicate StringsOn(d: Data, args: seq<Text>, k: nat) {
    k <= |args| && forall i: nat :: i < k ==> StringOn(d, args, i)
  }

  // A number of eight bytes, as a user program loads it.
  ghost function NumberOn(d: Data, o: nat): nat
    requires o + 8 <= 4096
  {
    Number(d[o..o + 8])
  }

  // Where the i-th string of a stack page that ends at address sz is; the array ends in 0.
  function Pointer(sz: nat, args: seq<Text>, i: nat): int
    requires i <= |args|
  {
    if i == |args| then 0 else sz - ArgBytes(args, i + 1)
  }

  /** What main(argc, argv) finds on the stack page that ends at sz: the strings, and at sp, which is
      16-byte aligned, the array of pointers to them with a 0 at its end. */
  ghost predicate ArgvOn(d: Data, sz: nat, args: seq<Text>) {
    && StringsOn(d, args, |args|) && Room(args) <= PGSIZE && Room(args) % 16 == 0
    && forall i: nat :: i <= |args| ==> PointerOn(d, sz, args, i)
  }

  ghost predicate PointerOn(d: Data, sz: nat, args: seq<Text>, i: nat) {
    && i <= |args| && PGSIZE - Room(args) + 8 * i >= 0 && PGSIZE - Room(args) + 8 * i + 8 <= 4096
    && NumberOn(d, PGSIZE - Room(args) + 8 * i) == Pointer(sz, args, i)
  }

  ghost predicate StackReady(mem: Mem, t: Tables, n: nat, args: seq<Text>) {
    exists d :: StackAt(mem, t, n, d) && ArgvOn(d, AddrOf(n), args)
  }

  lemma Round16Is(n: nat)
    ensures Round16(n) % 16 == 0 && n <= Round16(n) < n + 16
  {
  }

  lemma {:induction false} ArgBytesGrow(args: seq<Text>, j: nat, k: nat)
    requires j <= k <= |args|
    ensures ArgBytes(args, j) <= ArgBytes(args, k) && ArgBytes(args, k) % 16 == 0
    decreases k
  {
    if k > 0 { Round16Is(|args[k - 1]| + 1); }
    hide Round16;
    if j < k {
      ArgBytesGrow(args, j, k - 1);
    } else if k > 0 {
      ArgBytesGrow(args, k - 1, k - 1);
    }
  }

  lemma {:induction false} ArgBytesMore(args: seq<Text>, k: nat)
    requires k < |args|
    ensures ArgBytes(args, k + 1) == ArgBytes(args, k) + Round16(|args[k]| + 1) <= ArgBytes(args, |args|) <= Room(args)
    ensures Round16(|args[k]| + 1) >= |args[k]| + 1 && |args[k]| + 1 <= 0x8000_0000_0000_0000
    ensures ArgBytes(args, k) % 16 == 0
  {
    ArgBytesGrow(args, k + 1, |args|);
    ArgBytesGrow(args, k, k);
    Round16Is(|args[k]| + 1);
    hide Round16;
  }

  // Eight bytes, the least significant first.
  function Le(n: nat, k: nat): (s: seq<byte>)
    ensures |s| == k
  {
    if k == 0 then [] else [n % 256] + Le(n / 256, k - 1)
  }

  function Power(k: nat): nat { if k == 0 then 1 else 256 * Power(k - 1) }

  lemma {:induction false} NumberLe(n: nat, k: nat)
    requires n < Power(k)
    ensures Number(Le(n, k)) == n
  {
    if k > 0 {
      assert n / 256 < Power(k - 1);
      NumberLe(n / 256, k - 1);
      assert Le(n, k)[1..] == Le(n / 256, k - 1);
    }
  }

  lemma Power8()
    ensures Power(8) == 0x1_0000_0000_0000_0000
  {
    assert Power(3) == 0x100_0000;
    assert Power(6) == 0x1_0000_0000_0000;
  }

  // An array of 64-bit words in memory.
  function WordBytes(xs: seq<nat>): (s: seq<byte>)
    ensures |s| == 8 * |xs|
  {
    if xs == [] then [] else WordBytes(xs[..|xs| - 1]) + Le(xs[|xs| - 1], 8)
  }

  lemma {:induction false} WordBytesAt(xs: seq<nat>, i: nat)
    requires i < |xs| && xs[i] < 0x1_0000_0000_0000_0000
    ensures Number(WordBytes(xs)[8 * i..8 * i + 8]) == xs[i]
  {
    var k := |xs| - 1;
    var s := WordBytes(xs);
    if i < k {
      WordBytesAt(xs[..k], i);
      assert s[8 * i..8 * i + 8] == WordBytes(xs[..k])[8 * i..8 * i + 8];
    } else {
      Power8();
      NumberLe(xs[k], 8);
      assert s[8 * i..8 * i + 8] == Le(xs[k], 8);
    }
  }

  // sp -= c; sp -= sp % 16, on 64-bit numbers.
  function Lower(sp: nat, c: nat): nat {
    var q := Minus64(sp, c);
    q - q % 16
  }

  function Minus64(a: nat, b: nat): nat { (a - b) % 0x1_0000_0000_0000_0000 }

  lemma LowerIs(sp: nat, c: nat)
    requires sp % 16 == 0 && sp <= MAXVPN * PGSIZE && c <= 0x8000_0000_0000_0000
    ensures Lower(sp, c) < 0x1_0000_0000_0000_0000
    ensures if Round16(c) <= sp then Lower(sp, c) == sp - Round16(c) else Lower(sp, c) >= MAXVPN * PGSIZE
  {
    if c <= sp {
      assert Minus64(sp, c) == sp - c;
    } else {
      assert Minus64(sp, c) == sp - c + 0x1_0000_0000_0000_0000;
    }
  }

  // Only page x of the image can have changed.
  ghost predicate OnlyPage(mem: Mem, t: Tables, mem': Mem, x: nat) {
    Inside(mem, t) && SameEntries(mem, t, mem', t) && SameOutside(mem, mem', {Entry(mem, t, x).ppn})
  }

  lemma OnlyPageNone(mem: Mem, t: Tables, x: nat)
    requires Inside(mem, t)
    ensures OnlyPage(mem, t, mem, x)
  {
  }

  lemma OnlyPageTrans(mem: Mem, t: Tables, mem1: Mem, mem2: Mem, x: nat)
    requires OnlyPage(mem, t, mem1, x) && OnlyPage(mem1, t, mem2, x)
    ensures OnlyPage(mem, t, mem2, x)
  {
    assert Entry(mem1, t, x) == Entry(mem, t, x);
    hide Entry;
  }

  // Neither the guard nor the program is affected.
  lemma {:induction false} OnlyStack(mem: Mem, t: Tables, top: Top, n: nat, mem': Mem, segs: seq<Segment>,
                                     d: Data, d': Data)
    requires Space(mem, t, top, n) && StackAt(mem, t, n, d) && OnlyPage(mem, t, mem', n - 1)
    requires Program(mem, t, segs, |segs|) && Pages(SizeAfter(segs, |segs|)) == n - 2
    requires Inside(mem', t) && HasPage(mem', t, n - 1, UserRights(WONLY), d')
    ensures StackAt(mem', t, n, d') && Program(mem', t, segs, |segs|)
  {
    SpaceIs(mem, t, top, n);
    forall x: nat | x < n - 2 ensures PageKept(mem, t, mem', t, x) {
      ImageAt(mem, t, top, n, x);
      assert Entry(mem, t, x).ppn != Entry(mem, t, n - 1).ppn;
    }
    assert Entry(mem', t, n - 2) == Entry(mem, t, n - 2);
    hide Space, Wf, Tables.Frames, SizeAfter, Pages, Entry, DataOf;
    ProgramKept(mem, t, mem', t, segs, n - 2);
  }

  // The usyscall page is not among the frames the image is made of.
  ghost predicate Outsider(top: Top, mem0: Mem, fs0: set<nat>) {
    top.usyscall in mem0 && top.usyscall != 0 && top.usyscall !in fs0
  }

  lemma ImageOutside(m: PhysMem, t: Tables, top: Top, n: nat, mem0: Mem, fs0: set<nat>)
    requires Image(m, t, top, n, mem0, fs0) && Outsider(top, mem0, fs0)
    ensures top.usyscall in m.mem && top.usyscall != 0 && top.usyscall !in SpaceFrames(m.mem, t, n)
  {
    hide Space, SpaceFrames, Wf;
  }

  ghost predicate OnStack(n: nat, sp: nat, s: seq<byte>) {
    n > 0 && AddrOf(n - 1) <= sp && sp + |s| <= AddrOf(n)
  }

  // Every byte of a range on the stack page can be written; none past MAXVA can.
  lemma StackWritable(mem: Mem, t: Tables, n: nat, sp: nat, s: seq<byte>)
    requires Inside(mem, t) && n <= MAXVPN && |s| > 0
    requires n > 0 && Entry(mem, t, n - 1).f == UserRights(WONLY)
    ensures OnStack(n, sp, s) ==> forall k: nat :: sp <= k < sp + |s| ==> ViewOf(mem, t).Writable(k)
    ensures sp >= MAXVPN * PGSIZE ==> !ViewOf(mem, t).Writable(sp)
  {
    forall k: nat | OnStack(n, sp, s) && sp <= k < sp + |s| ensures ViewOf(mem, t).Writable(k) {
      assert k / PGSIZE == n - 1;
      ViewAt(mem, t, k);
    }
    ViewAt(mem, t, sp);
  }

  lemma OnPage(n: nat, o: nat)
    requires n > 0 && o < 4096
    ensures (AddrOf(n - 1) + o) / PGSIZE == n - 1 && (AddrOf(n - 1) + o) % PGSIZE == o
  {
  }

  lemma OnPageToo(n: nat, sp: nat, s: seq<byte>, k: nat)
    requires OnStack(n, sp, s) && sp <= k < sp + |s|
    ensures k / PGSIZE == n - 1
  {
  }

  lemma PushedByte(mem: Mem, t: Tables, n: nat, mem': Mem, sp: nat, s: seq<byte>, d: Data, o: nat)
    requires 0 < n <= MAXVPN && OnStack(n, sp, s) && Copied(mem, t, mem', sp, s) && o < 4096
    requires Inside(mem, t) && HasPage(mem, t, n - 1, UserRights(WONLY), d)
    ensures Entry(mem, t, n - 1).ppn in mem' && sp - AddrOf(n - 1) >= 0 && sp - AddrOf(n - 1) + |s| <= 4096
    ensures DataOf(mem'[Entry(mem, t, n - 1).ppn])[o] == Put(d, sp - AddrOf(n - 1), s)[o]
  {
    hide *;
    var va := AddrOf(n - 1) + o;
    OnPage(n, o);
    OnPageStart(n, sp, s);
    CopiedAt(mem, t, mem', sp, s, va);
    StackReadable(mem, t, n, va, d);
    ViewAt(mem, t, va);
    ViewAt(mem', t, va);
    PutAt(d, sp - AddrOf(n - 1), s, o);
  }

  lemma StackReadable(mem: Mem, t: Tables, n: nat, va: nat, d: Data)
    requires 0 < n <= MAXVPN && Inside(mem, t) && HasPage(mem, t, n - 1, UserRights(WONLY), d) && va / PGSIZE == n - 1
    ensures ViewOf(mem, t).Readable(va) && Entry(mem, t, n - 1).f == UserRights(WONLY)
    ensures UserRights(WONLY).v && UserRights(WONLY).u
    ensures Entry(mem, t, n - 1).ppn in mem && DataOf(mem[Entry(mem, t, n - 1).ppn]) == d && PGSIZE == 4096
  {
    ViewAt(mem, t, va);
    hide ViewOf, DataOf, Entry, View.Readable;
  }

  lemma OnPageStart(n: nat, sp: nat, s: seq<byte>)
    requires OnStack(n, sp, s)
    ensures n > 0 && sp - AddrOf(n - 1) >= 0 && sp - AddrOf(n - 1) + |s| <= 4096
  {
  }

  // Byte k after copyout, where the user can read it.
  lemma CopiedAt(mem: Mem, t: Tables, mem': Mem, va: nat, s: seq<byte>, k: nat)
    requires Copied(mem, t, mem', va, s)
    ensures Inside(mem, t) && Inside(mem', t) && mem'.Keys == mem.Keys
    ensures Entry(mem', t, k / PGSIZE) == Entry(mem, t, k / PGSIZE)
    ensures ViewOf(mem, t).Readable(k) ==>
      ViewOf(mem', t).At(k) == if va <= k < va + |s| then s[k - va] else ViewOf(mem, t).At(k)
  {
    hide ViewOf, View.At, View.Readable, Entry;
  }

  lemma PushedPage(mem: Mem, t: Tables, n: nat, mem': Mem, sp: nat, s: seq<byte>, d: Data)
    requires 0 < n <= MAXVPN && OnStack(n, sp, s) && Copied(mem, t, mem', sp, s)
    requires Inside(mem, t) && HasPage(mem, t, n - 1, UserRights(WONLY), d)
    ensures OnlyPage(mem, t, mem', n - 1) && sp - AddrOf(n - 1) >= 0 && sp - AddrOf(n - 1) + |s| <= 4096
    ensures HasPage(mem', t, n - 1, UserRights(WONLY), Put(d, sp - AddrOf(n - 1), s))
  {
    var e := Entry(mem, t, n - 1);
    assert Entry(mem', t, n - 1) == e;
    forall f | f in mem && mem'[f] != mem[f] ensures f == e.ppn {
      var k: nat :| sp <= k < sp + |s| && ViewOf(mem, t).Writable(k) && ViewOf(mem, t).leaf[k / PGSIZE].ppn == f;
      OnPageToo(n, sp, s, k);
      ViewAt(mem, t, k);
    }
    hide Copied, Entry, DataOf, Put;
    forall o: nat | o < 4096 ensures DataOf(mem'[e.ppn])[o] == Put(d, sp - AddrOf(n - 1), s)[o] {
      PushedByte(mem, t, n, mem', sp, s, d, o);
    }
    assert DataOf(mem'[e.ppn]) == Put(d, sp - AddrOf(n - 1), s);
  }

  lemma NothingCopied(mem: Mem, t: Tables, mem': Mem, sp: nat, x: nat)
    requires Copied(mem, t, mem', sp, [])
    ensures OnlyPage(mem, t, mem', x) && mem' == mem
  {
    forall f | f in mem ensures mem'[f] == mem[f] {
      assert !Under(ViewOf(mem, t), sp, 0, f);
    }
  }

  // copyout to the stack page, or to an address out of reach.
  method Push(m: PhysMem, root: nat, sp: nat, s: seq<byte>, ghost d: Data, ghost top: Top, ghost n: nat,
              ghost t: Tables, ghost mem0: Mem, ghost fs0: set<nat>)
    returns (ok: bool, ghost d': Data)
    requires Image(m, t, top, n, mem0, fs0) && Outsider(top, mem0, fs0) && root == t.root && |s| > 0
    requires Inside(m.mem, t) && n > 0 && HasPage(m.mem, t, n - 1, UserRights(WONLY), d)
    requires sp < 0x1_0000_0000_0000_0000 && (OnStack(n, sp, s) || sp >= MAXVPN * PGSIZE)
    modifies m
    ensures Image(m, t, top, n, mem0, fs0) && OnlyPage(old(m.mem), t, m.mem, n - 1) && Inside(m.mem, t)
    ensures ok <==> OnStack(n, sp, s)
    ensures ok ==> sp - AddrOf(n - 1) >= 0 && sp - AddrOf(n - 1) + |s| <= 4096
    ensures ok ==> d' == Put(d, sp - AddrOf(n - 1), s)
    ensures HasPage(m.mem, t, n - 1, UserRights(WONLY), d')
  {
    hide *;
    ghost var mem1, fs1 := m.mem, m.FreeSet();
    ImageIs(m, t, top, n, mem0, fs0);
    ImageAt(m.mem, t, top, n, n - 1);
    ImageOutside(m, t, top, n, mem0, fs0);
    SpaceUserOk(mem1, fs1, t, top, n);
    PageIs(mem1, t, n - 1, UserRights(WONLY), d);
    SpaceSmall(mem1, t, top, n);
    StackWritable(mem1, t, n, sp, s);
    ghost var done;
    ok, done := Copyout(m, root, sp, s, t);
    d' := d;
    if ok {
      assert s[..done] == s;
      OnStackIs(n, sp, s);
      PushedPage(mem1, t, n, m.mem, sp, s, d);
      d' := Put(d, sp - AddrOf(n - 1), s);
    } else {
      NothingDone(mem1, t, m.mem, sp, s, done);
      assert s[..done] == [];
      NothingCopied(mem1, t, m.mem, sp, n - 1);
    }
    HoldsWf(m, t);
    CopiedSpace(mem1, fs1, t, top, n, m.mem, sp, s[..done]);
    CopiedKeys(mem1, t, m.mem, sp, s[..done]);
    OutsideTrans(mem0, mem1, m.mem, fs0, LeafFrames(mem1, t, 0, n));
    FoldImage(m, t, top, n, mem0, fs0);
  }

  lemma PageIs(mem: Mem, t: Tables, x: nat, f: Flags, d: Data)
    requires Inside(mem, t) && HasPage(mem, t, x, f, d)
    ensures Entry(mem, t, x).f == f
  {
  }

  lemma SpaceSmall(mem: Mem, t: Tables, top: Top, n: nat)
    requires Space(mem, t, top, n)
    ensures n <= MAXVPN && MAXVPN * PGSIZE >= AddrOf(n) && Inside(mem, t)
  {
    hide Wf, Freeable, Tops;
  }

  lemma OnStackIs(n: nat, sp: nat, s: seq<byte>)
    requires OnStack(n, sp, s) || sp >= MAXVPN * PGSIZE
    requires n <= MAXVPN && |s| > 0
    ensures OnStack(n, sp, s) ==> sp < MAXVPN * PGSIZE && sp - AddrOf(n - 1) >= 0 && sp - AddrOf(n - 1) + |s| <= 4096
  {
  }

  lemma NothingDone(mem: Mem, t: Tables, mem': Mem, sp: nat, s: seq<byte>, done: nat)
    requires done <= |s| && Copied(mem, t, mem', sp, s[..done]) && Inside(mem, t) && !ViewOf(mem, t).Writable(sp)
    ensures done == 0
  {
    CopiedAll(mem, t, mem', sp, s[..done]);
  }

  lemma CopiedKeys(mem: Mem, t: Tables, mem': Mem, va: nat, s: seq<byte>)
    requires Copied(mem, t, mem', va, s)
    ensures mem'.Keys == mem.Keys && |mem'| == |mem| && Inside(mem', t) && SameEntries(mem, t, mem', t)
  {
    SameCount(mem, mem');
  }

  // How the loop stands after k strings.
  ghost predicate Pushed(d: Data, us: seq<nat>, sz: nat, args: seq<Text>, k: nat, sp: nat) {
    && k <= |args| && k <= MAXARG == |us| && ArgBytes(args, k) <= PGSIZE && sp == sz - ArgBytes(args, k)
    && StringsOn(d, args, k)
    && forall i: nat :: i < k ==> us[i] == sz - ArgBytes(args, i + 1)
  }

  lemma {:induction false} PushedNone(d: Data, us: seq<nat>, sz: nat, args: seq<Text>)
    requires |us| == MAXARG
    ensures Pushed(d, us, sz, args, 0, sz)
  {
  }

  // The next string goes below the others, and leaves them as they are.
  lemma {:induction false} PushedMore(d: Data, us: seq<nat>, n: nat, args: seq<Text>, k: nat, sp: nat, sp': nat, o: nat)
    requires Pushed(d, us, AddrOf(n), args, k, sp) && k < |args| && k < MAXARG && n > 0
    requires sp' == sp - Round16(|args[k]| + 1) && sp' >= AddrOf(n - 1) && o == sp' - AddrOf(n - 1)
    ensures o + |args[k] + [0]| <= 4096
    ensures Pushed(Put(d, o, args[k] + [0]), us[k := sp'], AddrOf(n), args, k + 1, sp')
  {
    ArgBytesMore(args, k);
    var s := args[k] + [0];
    assert o == PGSIZE - ArgBytes(args, k + 1);
    var d' := Put(d, o, s);
    forall i: nat | i < k + 1 ensures StringOn(d', args, i) {
      if i < k {
        assert StringOn(d, args, i);
        ArgBytesGrow(args, i + 1, k);
        StringStays(d, o, s, PGSIZE - ArgBytes(args, i + 1), args[i] + [0]);
      } else {
        assert d'[o..o + |s|] == s;
      }
    }
  }

  lemma StringStays(d: Data, o: nat, s: seq<byte>, o2: nat, s2: seq<byte>)
    requires o + |s| <= o2 && Holding(d, o2, s2)
    ensures Holding(Put(d, o, s), o2, s2)
  {
    forall j | 0 <= j < |s2| ensures Put(d, o, s)[o2 + j] == s2[j] {
      PutAt(d, o, s, o2 + j);
      assert d[o2..o2 + |s2|][j] == d[o2 + j];
    }
  }

  // sp stays aligned, and between the ends of the page.
  lemma SpFacts(n: nat, b: nat)
    requires 2 <= n <= RAMFRAMES && b % 16 == 0 && b <= PGSIZE
    ensures AddrOf(n) - b >= 0 && (AddrOf(n) - b) % 16 == 0 && AddrOf(n) - b <= MAXVPN * PGSIZE
    ensures AddrOf(n - 1) == AddrOf(n) - PGSIZE >= PGSIZE == 4096 && MAXARG == 32
    ensures AddrOf(n) <= MAXVPN * PGSIZE < 0x1_0000_0000_0000_0000
  {
  }

  lemma {:induction false} PushedIs(d: Data, us: seq<nat>, sz: nat, args: seq<Text>, k: nat, sp: nat)
    requires Pushed(d, us, sz, args, k, sp)
    ensures k <= |args| && |us| == MAXARG && ArgBytes(args, k) <= PGSIZE && sp == sz - ArgBytes(args, k)
    ensures ArgsFit(args) <==> |args| < MAXARG && Room(args) <= PGSIZE
    ensures StringsFit(args) <==> ArgBytes(args, |args|) <= PGSIZE
    ensures Room(args) == ArgBytes(args, |args|) + Round16(8 * (|args| + 1))
  {
    hide ArgBytes, Round16;
  }

  lemma OnStackMeans(n: nat, sp: nat, s: seq<byte>)
    requires n > 0
    ensures OnStack(n, sp, s) <==> AddrOf(n - 1) <= sp && sp + |s| <= AddrOf(n)
  {
    hide AddrOf;
  }

  // One turn of the loop: where sp goes, and whether that is still on the page.
  lemma {:induction false} NextSp(d: Data, us: seq<nat>, n: nat, args: seq<Text>, k: nat, sp: nat)
    requires Pushed(d, us, AddrOf(n), args, k, sp) && k < |args| && 2 <= n <= RAMFRAMES
    ensures sp >= AddrOf(n - 1) && Lower(sp, |args[k]| + 1) < 0x1_0000_0000_0000_0000
    ensures Lower(sp, |args[k]| + 1) < AddrOf(n - 1) ==> !StringsFit(args)
    ensures Lower(sp, |args[k]| + 1) >= AddrOf(n - 1) ==>
      if OnStack(n, Lower(sp, |args[k]| + 1), args[k] + [0])
      then Lower(sp, |args[k]| + 1) == sp - Round16(|args[k]| + 1)
      else !StringsFit(args) && Lower(sp, |args[k]| + 1) >= MAXVPN * PGSIZE
  {
    hide *;
    PushedIs(d, us, AddrOf(n), args, k, sp);
    ArgBytesMore(args, k);
    SpFacts(n, ArgBytes(args, k));
    LowerIs(sp, |args[k]| + 1);
    OnStackMeans(n, Lower(sp, |args[k]| + 1), args[k] + [0]);
  }

  lemma {:induction false} LastSp(d: Data, us: seq<nat>, n: nat, args: seq<Text>, sp: nat)
    requires Pushed(d, us, AddrOf(n), args, |args|, sp) && 2 <= n <= RAMFRAMES && |args| < MAXARG
    ensures Lower(sp, 8 * (|args| + 1)) == AddrOf(n) - Room(args) < 0x1_0000_0000_0000_0000
    ensures ArgsFit(args) <==> Lower(sp, 8 * (|args| + 1)) >= AddrOf(n - 1)
    ensures Room(args) % 16 == 0 && Room(args) >= 8 * (|args| + 1)
    ensures ArgsFit(args) ==>
      forall s: seq<byte> :: |s| == 8 * (|args| + 1) ==> OnStack(n, Lower(sp, 8 * (|args| + 1)), s)
  {
    hide *;
    var c := 8 * (|args| + 1);
    PushedIs(d, us, AddrOf(n), args, |args|, sp);
    ArgBytesGrow(args, |args|, |args|);
    Round16Is(c);
    SpFacts(n, ArgBytes(args, |args|));
    LowerIs(sp, c);
    forall s: seq<byte> | ArgsFit(args) && |s| == c ensures OnStack(n, Lower(sp, c), s) {
      OnStackMeans(n, Lower(sp, c), s);
    }
  }

  lemma {:induction false} ArgvDone(d: Data, us: seq<nat>, n: nat, args: seq<Text>, sp: nat, o: nat)
    requires Pushed(d, us, AddrOf(n), args, |args|, sp) && 2 <= n <= RAMFRAMES && ArgsFit(args)
    requires us[|args|] == 0 && o == PGSIZE - Room(args)
    ensures o + 8 * (|args| + 1) <= 4096
    ensures ArgvOn(Put(d, o, WordBytes(us[..|args| + 1])), AddrOf(n), args)
  {
    hide *;
    PushedIs(d, us, AddrOf(n), args, |args|, sp);
    LastSp(d, us, n, args, sp);
    ArgBytesGrow(args, |args|, |args|);
    SpFacts(n, ArgBytes(args, |args|));
    PageFits(o, Room(args), |args|);
    var xs := us[..|args| + 1];
    var s := WordBytes(xs);
    forall i: nat | i < |args| ensures StringOn(Put(d, o, s), args, i) {
      PushedAt(d, us, AddrOf(n), args, sp, i);
      StringBelow(d, args, i, o, s);
    }
    forall i: nat | i <= |args| ensures PointerOn(Put(d, o, s), AddrOf(n), args, i) {
      PointerDone(d, us, AddrOf(n), args, sp, o, i);
    }
    FoldArgv(Put(d, o, s), AddrOf(n), args);
  }

  lemma PageFits(o: nat, room: nat, k: nat)
    requires o == PGSIZE - room && room >= 8 * (k + 1)
    ensures o + 8 * (k + 1) <= 4096
  {
  }

  lemma {:induction false} PushedAt(d: Data, us: seq<nat>, sz: nat, args: seq<Text>, sp: nat, i: nat)
    requires Pushed(d, us, sz, args, |args|, sp) && i < |args|
    ensures StringOn(d, args, i) && |args| <= |us| && us[i] == sz - ArgBytes(args, i + 1)
  {
    hide ArgBytes, StringOn;
  }

  lemma {:induction false} PointerDone(d: Data, us: seq<nat>, sz: nat, args: seq<Text>, sp: nat, o: nat, i: nat)
    requires Pushed(d, us, sz, args, |args|, sp) && |args| < |us| && us[|args|] == 0 && i <= |args|
    requires sz < 0x1_0000_0000_0000_0000
    requires o == PGSIZE - Room(args) && o + 8 * (|args| + 1) <= 4096
    ensures PointerOn(Put(d, o, WordBytes(us[..|args| + 1])), sz, args, i)
  {
    var xs := us[..|args| + 1];
    if i < |args| { PushedAt(d, us, sz, args, sp, i); }
    hide ArgBytes, Room, WordBytes, Put;
    WordBytesAt(xs, i);
    SliceOf(d, o, WordBytes(xs), 8 * i, 8);
  }

  lemma {:induction false} FoldArgv(d: Data, sz: nat, args: seq<Text>)
    requires Room(args) <= PGSIZE && Room(args) % 16 == 0
    requires forall i: nat :: i < |args| ==> StringOn(d, args, i)
    requires forall i: nat :: i <= |args| ==> PointerOn(d, sz, args, i)
    ensures ArgvOn(d, sz, args)
  {
    hide StringOn, PointerOn, Room;
  }

  lemma SliceOf(d: Data, o: nat, s: seq<byte>, a: nat, c: nat)
    requires o + |s| <= 4096 && a + c <= |s|
    ensures Put(d, o, s)[o + a..o + a + c] == s[a..a + c]
  {
  }

  // The array does not reach up to the strings.
  lemma {:induction false} StringBelow(d: Data, args: seq<Text>, i: nat, o: nat, s: seq<byte>)
    requires StringOn(d, args, i) && o == PGSIZE - Room(args) && |s| == 8 * (|args| + 1) && o + |s| <= 4096
    ensures StringOn(Put(d, o, s), args, i)
  {
    ArrayBelow(args, i);
    StringStays(d, o, s, PGSIZE - ArgBytes(args, i + 1), args[i] + [0]);
  }

  lemma {:induction false} ArrayBelow(args: seq<Text>, i: nat)
    requires i < |args|
    ensures Room(args) >= ArgBytes(args, i + 1) + 8 * (|args| + 1)
  {
    ArgBytesGrow(args, i + 1, |args|);
  }

  lemma {:induction false} PushedSet(d: Data, us: seq<nat>, sz: nat, args: seq<Text>, k: nat, sp: nat, j: nat, v: nat)
    requires Pushed(d, us, sz, args, k, sp) && k <= j < |us|
    ensures Pushed(d, us[j := v], sz, args, k, sp)
  {
  }

  lemma StackSizes(n: nat)
    requires n > 0
    ensures MAXARG == 32 && AddrOf(n) - PGSIZE == AddrOf(n - 1)
  {
  }

  // The image with a stack page that holds d; since mem1 nothing but that page has changed.
  ghost predicate Pushing(m: PhysMem, t: Tables, top: Top, n: nat, mem0: Mem, fs0: set<nat>, mem1: Mem, d: Data)
    reads m
  {
    && Image(m, t, top, n, mem0, fs0) && Inside(m.mem, t) && n > 0
    && OnlyPage(mem1, t, m.mem, n - 1) && HasPage(m.mem, t, n - 1, UserRights(WONLY), d)
  }

  lemma PushingIs(m: PhysMem, t: Tables, top: Top, n: nat, mem0: Mem, fs0: set<nat>, mem1: Mem, d: Data)
    requires Pushing(m, t, top, n, mem0, fs0, mem1, d)
    ensures Image(m, t, top, n, mem0, fs0) && Inside(m.mem, t) && n > 0
    ensures OnlyPage(mem1, t, m.mem, n - 1) && HasPage(m.mem, t, n - 1, UserRights(WONLY), d)
  {
    hide Image, OnlyPage, HasPage, Inside;
  }

  // copyout of s to sp while pushing.
  method PushOn(m: PhysMem, root: nat, sp: nat, s: seq<byte>, ghost d: Data, ghost top: Top, ghost n: nat,
                ghost t: Tables, ghost mem0: Mem, ghost fs0: set<nat>, ghost mem1: Mem)
    returns (ok: bool, ghost d': Data)
    requires Pushing(m, t, top, n, mem0, fs0, mem1, d) && Outsider(top, mem0, fs0) && root == t.root && |s| > 0
    requires sp < 0x1_0000_0000_0000_0000 && (OnStack(n, sp, s) || sp >= MAXVPN * PGSIZE)
    modifies m
    ensures Pushing(m, t, top, n, mem0, fs0, mem1, d') && n > 0
    ensures ok <==> OnStack(n, sp, s)
    ensures ok ==> sp - AddrOf(n - 1) >= 0 && sp - AddrOf(n - 1) + |s| <= 4096
    ensures ok ==> d' == Put(d, sp - AddrOf(n - 1), s)
  {
    hide *;
    PushingIs(m, t, top, n, mem0, fs0, mem1, d);
    ghost var mem2 := m.mem;
    ok, d' := Push(m, root, sp, s, d, top, n, t, mem0, fs0);
    OnlyPageTrans(mem1, t, mem2, m.mem, n - 1);
    FoldPushing(m, t, top, n, mem0, fs0, mem1, d');
  }

  lemma FoldPushing(m: PhysMem, t: Tables, top: Top, n: nat, mem0: Mem, fs0: set<nat>, mem1: Mem, d: Data)
    requires Image(m, t, top, n, mem0, fs0) && Inside(m.mem, t) && n > 0
    requires OnlyPage(mem1, t, m.mem, n - 1) && HasPage(m.mem, t, n - 1, UserRights(WONLY), d)
    ensures Pushing(m, t, top, n, mem0, fs0, mem1, d)
  {
    hide Image, OnlyPage, HasPage, Inside;
  }

  // The body of the loop.
  method PushString(m: PhysMem, root: nat, args: seq<Text>, argc: nat, sp: nat, stackbase: int, ghost us: seq<nat>,
                    ghost d: Data, ghost top: Top, ghost n: nat, ghost t: Tables, ghost mem0: Mem, ghost fs0: set<nat>,
                    ghost mem1: Mem)
    returns (ok: bool, sp': nat, ghost d': Data)
    requires Pushing(m, t, top, n, mem0, fs0, mem1, d) && Outsider(top, mem0, fs0) && root == t.root
    requires 2 <= n <= RAMFRAMES && stackbase == AddrOf(n - 1) && argc < |args| && argc < MAXARG
    requires Pushed(d, us, AddrOf(n), args, argc, sp) && argc < |us|
    modifies m
    ensures Pushing(m, t, top, n, mem0, fs0, mem1, d')
    ensures ok ==> Pushed(d', us[argc := sp'], AddrOf(n), args, argc + 1, sp')
    ensures !ok ==> !StringsFit(args)
  {
    hide *;
    NextSp(d, us, n, args, argc, sp);
    sp', d' := Lower(sp, |args[argc]| + 1), d;
    if sp' < stackbase {
      return false, sp', d;
    }
    ok, d' := PushOn(m, root, sp', args[argc] + [0], d, top, n, t, mem0, fs0, mem1);
    if ok {
      PushedMore(d, us, n, args, argc, sp, sp', sp' - AddrOf(n - 1));
    }
  }

  // The array of pointers.
  method PushPointers(m: PhysMem, root: nat, args: seq<Text>, sp: nat, stackbase: int, us: seq<nat>,
                      ghost d: Data, ghost top: Top, ghost n: nat, ghost t: Tables, ghost mem0: Mem,
                      ghost fs0: set<nat>, ghost mem1: Mem)
    returns (ok: bool, sp': nat, ghost d': Data)
    requires Pushing(m, t, top, n, mem0, fs0, mem1, d) && Outsider(top, mem0, fs0) && root == t.root
    requires 2 <= n <= RAMFRAMES && stackbase == AddrOf(n - 1) && |args| < MAXARG
    requires Pushed(d, us, AddrOf(n), args, |args|, sp) && |args| < |us| && us[|args|] == 0
    modifies m
    ensures Pushing(m, t, top, n, mem0, fs0, mem1, d')
    ensures ok <==> ArgsFit(args)
    ensures ok ==> sp' == AddrOf(n) - Room(args) && ArgvOn(d', AddrOf(n), args)
  {
    hide *;
    LastSp(d, us, n, args, sp);
    sp', d' := Lower(sp, 8 * (|args| + 1)), d;
    if sp' < stackbase {
      return false, sp', d;
    }
    StackSizes(n);
    ArgvDone(d, us, n, args, sp, sp' - AddrOf(n - 1));
    ok, d' := PushOn(m, root, sp', WordBytes(us[..|args| + 1]), d, top, n, t, mem0, fs0, mem1);
  }

  /** The loop that pushes the strings, and the array of pointers to them.  It goes well exactly
      when they fit on the page with the array, and writes past ustack exactly when there are
      MAXARG strings that fit by themselves. */
  method PushArgs(m: PhysMem, root: nat, args: seq<Text>, sz: nat, ghost d0: Data, ghost top: Top, ghost n: nat,
                  ghost t: Tables, ghost mem0: Mem, ghost fs0: set<nat>)
    returns (ok: bool, overrun: bool, sp: nat, ghost d: Data)
    requires Image(m, t, top, n, mem0, fs0) && Outsider(top, mem0, fs0) && root == t.root && sz == AddrOf(n)
    requires Inside(m.mem, t) && n >= 2 && HasPage(m.mem, t, n - 1, UserRights(WONLY), d0)
    modifies m
    ensures Pushing(m, t, top, n, mem0, fs0, old(m.mem), d)
    ensures (ok <==> ArgsFit(args)) && (overrun <==> Overruns(args))
    ensures ok ==> sp == sz - Room(args) && ArgvOn(d, sz, args)
  {
    hide *;
    PushingStart(m, t, top, n, mem0, fs0, d0);
    ghost var mem1 := m.mem;
    StackSizes(n);
    var ustack := new nat[32];
    PushedNone(d0, ustack[..], sz, args);
    ArgsKinds(args);
    overrun, sp, d := false, sz, d0;
    var stackbase := sz - PGSIZE;
    var argc := 0;
    while argc < |args|
      invariant 0 <= argc <= |args| && argc <= MAXARG && Pushed(d, ustack[..], sz, args, argc, sp)
      invariant Pushing(m, t, top, n, mem0, fs0, mem1, d)
    {
      if argc >= MAXARG {
        return false, false, sp, d;
      }
      ghost var us := ustack[..];
      ok, sp, d := PushString(m, root, args, argc, sp, stackbase, us, d, top, n, t, mem0, fs0, mem1);
      if !ok {
        return;
      }
      ustack[argc] := sp;
      assert ustack[..] == us[argc := sp];
      argc := argc + 1;
    }
    ghost var us := ustack[..];
    PushedIs(d, us, sz, args, argc, sp);
    if argc >= ustack.Length {
      return false, true, sp, d;
    }
    PushedSet(d, us, sz, args, argc, sp, argc, 0);
    ustack[argc] := 0;
    assert ustack[..] == us[argc := 0];
    ok, sp, d := PushPointers(m, root, args, sp, stackbase, ustack[..], d, top, n, t, mem0, fs0, mem1);
  }

  lemma PushingStart(m: PhysMem, t: Tables, top: Top, n: nat, mem0: Mem, fs0: set<nat>, d: Data)
    requires Image(m, t, top, n, mem0, fs0) && Inside(m.mem, t) && n > 0
    requires HasPage(m.mem, t, n - 1, UserRights(WONLY), d)
    ensures Pushing(m, t, top, n, mem0, fs0, m.mem, d) && n <= RAMFRAMES
  {
    ImageIs(m, t, top, n, mem0, fs0);
    RoomToGrow(m, t, top, n);
    OnlyPageNone(m.mem, t, n - 1);
    hide Image, OnlyPage, HasPage, Inside;
  }

  // ---------- exec ----------

  /** The image exec leaves: the program its headers describe, and above it the stack. */
  ghost predicate NewImage(mem: Mem, t: Tables, n: nat, segs: seq<Segment>, args: seq<Text>) {
    && n == Pages(SizeAfter(segs, |segs|)) + 2
    && Program(mem, t, segs, |segs|) && StackReady(mem, t, n, args)
  }

  lemma {:induction false} FoldNewImage(mem: Mem, t: Tables, top: Top, n: nat, mem': Mem, segs: seq<Segment>,
                                        args: seq<Text>, d: Data, d': Data)
    requires Space(mem, t, top, n) && StackAt(mem, t, n, d) && OnlyPage(mem, t, mem', n - 1)
    requires Program(mem, t, segs, |segs|) && n == Pages(SizeAfter(segs, |segs|)) + 2
    requires Inside(mem', t) && HasPage(mem', t, n - 1, UserRights(WONLY), d') && ArgvOn(d', AddrOf(n), args)
    ensures NewImage(mem', t, n, segs, args)
  {
    OnlyStack(mem, t, top, n, mem', segs, d, d');
    hide Space, OnlyPage, StackAt, ArgvOn, Program, HasPage, SizeAfter, Pages;
    assert StackAt(mem', t, n, d') && ArgvOn(d', AddrOf(n), args);
  }

  // It lives in its own frames.
  lemma {:induction false} NewImageKept(mem: Mem, t: Tables, top: Top, n: nat, mem': Mem, touched: set<nat>,
                                        segs: seq<Segment>, args: seq<Text>)
    requires Space(mem, t, top, n) && SameOutside(mem, mem', touched) && SpaceFrames(mem, t, n) !! touched
    requires NewImage(mem, t, n, segs, args)
    ensures NewImage(mem', t, n, segs, args)
  {
    FrameSpace(mem, mem', t, top, n, touched);
    forall x: nat | x < n ensures Inside(mem, t) && Inside(mem', t) && PageKept(mem, t, mem', t, x) {
      ImageAt(mem, t, top, n, x);
    }
    hide Space, SpaceFrames, Entry, DataOf, ArgvOn, SizeAfter, Pages, Program;
    ProgramKept(mem, t, mem', t, segs, n);
    var d :| StackAt(mem, t, n, d) && ArgvOn(d, AddrOf(n), args);
    assert PageKept(mem, t, mem', t, n - 2) && PageKept(mem, t, mem', t, n - 1);
    assert StackAt(mem', t, n, d);
  }

  // The stack pages, and the arguments on them.
  method BuildStack(m: PhysMem, root: nat, ghost segs: seq<Segment>, sz0: nat, args: seq<Text>, ghost top: Top,
                    ghost t: Tables, ghost mem0: Mem, ghost fs0: set<nat>)
    returns (ok: bool, overrun: bool, sz: nat, sp: nat, ghost t': Tables)
    requires Image(m, t, top, Pages(sz0), mem0, fs0) && Outsider(top, mem0, fs0) && root == t.root
    requires sz0 == SizeAfter(segs, |segs|) && Program(m.mem, t, segs, |segs|)
    modifies m
    ensures t'.root == root && Image(m, t', top, Pages(sz), mem0, fs0)
    ensures ok ==> ArgsFit(args) && sz == TwoMore(sz0) && sp == sz - Room(args)
    ensures ok ==> NewImage(m.mem, t', Pages(sz), segs, args)
    ensures overrun ==> Overruns(args) && !ok
    ensures !ok && !overrun ==> !(ArgsFit(args) || Overruns(args)) || |old(m.free)| < 6
  {
    hide *;
    RoundedIs(sz0);
    overrun, sp := false, 0;
    ArgsKinds(args);
    ok, sz, t' := GrowStack(m, root, segs, sz0, top, t, mem0, fs0);
    if !ok {
      return;
    }
    ghost var n, mem1, d := Pages(sz), m.mem, NODATA;
    StackAtIs(mem1, t', n, d);
    ImageIs(m, t', top, n, mem0, fs0);
    ok, overrun, sp, d := PushArgs(m, root, args, sz, NODATA, top, n, t', mem0, fs0);
    PushingIs(m, t', top, n, mem0, fs0, mem1, d);
    if ok {
      FoldNewImage(mem1, t', top, n, m.mem, segs, args, NODATA, d);
    }
  }

  lemma StackAtIs(mem: Mem, t: Tables, n: nat, d: Data)
    requires StackAt(mem, t, n, d)
    ensures Inside(mem, t) && n >= 2 && HasPage(mem, t, n - 1, UserRights(WONLY), d)
  {
  }

  // The words exec stores in the trapframe: a1, epc and sp.
  function Entered(page: Frame, entry: uint64, sp: nat): Frame {
    page[15 := OfPte(sp)][3 := OfPte(entry)][6 := OfPte(sp)]
  }

  // In struct trapframe epc is at byte 24, sp at 48 and a1 at 120.
  lemma EnteredIs(page: Frame, entry: uint64, sp: nat)
    ensures var page' := Entered(page, entry, sp);
      && Pte(page'[24 / 8]) == entry && Pte(page'[48 / 8]) == Pte(page'[120 / 8]) == sp
      && forall j: nat :: j < 512 && j != 3 && j != 6 && j != 15 ==> page'[j] == page[j]
  {
    PteToWord(entry);
    PteToWord(sp);
    hide Pte, OfPte;
  }

  // The process after exec: the new image in place of the old one, whose frames are free.
  lemma {:induction false} ExecFits(mem0: Mem, fs0: set<nat>, p: Proc, t: Tables, tramp: nat, mem1: Mem, fs1: set<nat>,
                 t': Tables, sz: nat, mem2: Mem, mem3: Mem, fs3: set<nat>, segs: seq<Segment>, args: seq<Text>)
    requires Fit(mem0, p, t, tramp) && p.pagetable != 0 && Held(mem0, p, t) !! fs0
    requires Space(mem1, t', TopOf(tramp, p), Pages(sz)) && t'.root != 0 && SameOutside(mem0, mem1, fs0)
    requires SpaceFrames(mem1, t', Pages(sz)) !! fs1 && SpaceFrames(mem1, t', Pages(sz)) + fs1 == fs0
    requires NewImage(mem1, t', Pages(sz), segs, args)
    requires SameOutside(mem1, mem2, {p.trapframe})
    requires SameOutside(mem2, mem3, SpaceFrames(mem0, t, Pages(p.sz)))
    requires fs3 == fs1 + SpaceFrames(mem0, t, Pages(p.sz))
    ensures var p' := p.(pagetable := t'.root, sz := sz);
      && Fit(mem3, p', t', tramp) && Held(mem3, p', t') !! fs3
      && Held(mem3, p', t') + fs3 == Held(mem0, p, t) + fs0
      && SameOutside(mem0, mem3, Held(mem0, p, t) + fs0)
      && (Settled(mem0, p) ==> Settled(mem3, p')) && NewImage(mem3, t', Pages(sz), segs, args)
      && p.trapframe in mem2 && p.trapframe in mem3 && mem3[p.trapframe] == mem2[p.trapframe]
  {
    hide Space, LeafFrames, Tables.Frames, Fit, Held, NewImage, SpaceFrames;
    var top, n := TopOf(tramp, p), Pages(sz);
    FitSpace(mem0, p, t, tramp);
    FrameSpace(mem1, mem2, t', top, n, {p.trapframe});
    NewImageKept(mem1, t', top, n, mem2, {p.trapframe}, segs, args);
    FrameSpace(mem2, mem3, t', top, n, SpaceFrames(mem0, t, Pages(p.sz)));
    NewImageKept(mem2, t', top, n, mem3, SpaceFrames(mem0, t, Pages(p.sz)), segs, args);
    ExecHeld(mem0, fs0, p, t, tramp, mem3, fs1, t', sz, fs3);
  }

  lemma ExecHeld(mem0: Mem, fs0: set<nat>, p: Proc, t: Tables, tramp: nat, mem3: Mem, fs1: set<nat>,
                 t': Tables, sz: nat, fs3: set<nat>)
    requires Fit(mem0, p, t, tramp) && p.pagetable != 0 && Held(mem0, p, t) !! fs0 && t'.root != 0
    requires Space(mem3, t', TopOf(tramp, p), Pages(sz)) && mem3.Keys == mem0.Keys
    requires SpaceFrames(mem3, t', Pages(sz)) !! fs1 && SpaceFrames(mem3, t', Pages(sz)) + fs1 == fs0
    requires fs3 == fs1 + SpaceFrames(mem0, t, Pages(p.sz))
    ensures var p' := p.(pagetable := t'.root, sz := sz);
      && Fit(mem3, p', t', tramp) && Held(mem3, p', t') !! fs3
      && Held(mem3, p', t') + fs3 == Held(mem0, p, t) + fs0
  {
    FitSpace(mem0, p, t, tramp);
    hide Space, SpaceFrames;
  }

  // Frames that were free are free again: no process has lost anything.
  lemma Unharmed(pt: ProcTable, s0: Snap, fs0: set<nat>, i: nat)
    requires Owners(s0.mem, fs0, s0.proc, s0.tab, pt.kernel, pt.trampoline) && i < NPROC && pt.m.Valid()
    requires forall j :: 0 <= j < NPROC ==> Settled(s0.mem, s0.proc[j])
    requires pt.proc == s0.proc && pt.tab == s0.tab && pt.m.FreeSet() == fs0
    requires SameOutside(s0.mem, pt.m.mem, fs0)
    ensures pt.Inv() && pt.Since(s0, NPROC)
  {
    hide Fit, Held, Kept, Apart, Covered;
    forall j | 0 <= j < NPROC
      ensures Fit(pt.m.mem, s0.proc[j], s0.tab[j], pt.trampoline) && Kept(s0.mem, pt.m.mem, s0.proc[j], s0.tab[j])
      ensures Settled(pt.m.mem, s0.proc[j])
    {
      OwnersAt(s0.mem, fs0, s0.proc, s0.tab, pt.kernel, pt.trampoline, j);
      KeptBy(s0.mem, pt.m.mem, s0.proc[j], s0.tab[j], pt.trampoline, fs0);
    }
    OwnersAt(s0.mem, fs0, s0.proc, s0.tab, pt.kernel, pt.trampoline, i);
    KeptBy(s0.mem, pt.m.mem, s0.proc[i], s0.tab[i], pt.trampoline, fs0);
    UnharmedHeld(s0.mem, pt.m.mem, fs0, s0.proc[i], s0.tab[i]);
    assert s0.proc[i := s0.proc[i]] == s0.proc && s0.tab[i := s0.tab[i]] == s0.tab;
    SlotStep(s0.mem, fs0, s0.proc, s0.tab, pt.kernel, pt.trampoline, i, pt.m.mem, fs0, s0.proc[i], s0.tab[i]);
  }

  lemma UnharmedHeld(mem: Mem, mem': Mem, fs: set<nat>, p: Proc, t: Tables)
    requires Kept(mem, mem', p, t) && SameOutside(mem, mem', fs)
    ensures Held(mem', p, t) == Held(mem, p, t) && SameOutside(mem, mem', Held(mem, p, t) + fs)
  {
    hide Held;
  }

  /** exec.  On success the process has the image its program headers describe, the last segment
      counting where two overlap, a guard page, and the arguments on its stack; argc, a1 and sp say
      where, and the old image is free.  On failure nothing of any process has changed, and every
      frame taken on the way is free again; that happens only for a bad file, for arguments that do
      not fit, or for want of memory.  With MAXARG arguments that fit by themselves it neither
      succeeds nor, given a good file and memory, fails: it overruns ustack. */
  method Exec(pt: ProcTable, i: nat, elfOk: bool, entry: uint64, segs: seq<Segment>, args: seq<Text>)
    returns (r: int, overrun: bool)
    requires pt.Inv() && i < NPROC && |pt.proc| == |pt.tab| == NPROC && !pt.proc[i].state.Unused?
    modifies pt, pt.m
    ensures overrun ==> elfOk && Loads(segs, |segs|) && Overruns(args)
    ensures elfOk && Loads(segs, |segs|) && Overruns(args) && |old(pt.m.free)| >= MemoryFor(segs) ==> overrun
    ensures |pt.proc| == |pt.tab| == |old(pt.proc)| == NPROC && (overrun ==> pt.proc == old(pt.proc))
    ensures !overrun ==> pt.Inv() && (r == -1 || r == |args|)
    ensures r != -1 ==> !overrun && elfOk && Loads(segs, |segs|) && ArgsFit(args)
    ensures r == -1 && !overrun ==>
      !elfOk || !Loads(segs, |segs|) || !ArgsFit(args) || |old(pt.m.free)| < MemoryFor(segs)
    ensures r == -1 && !overrun ==> pt.proc == old(pt.proc) && pt.m.FreeSet() == old(pt.m.FreeSet())
    ensures r == -1 && !overrun ==> pt.Since(Snap(old(pt.m.mem), old(pt.proc), old(pt.tab)), NPROC)
    ensures r != -1 ==> var p := pt.proc[i];
      && pt.Since(Snap(old(pt.m.mem), old(pt.proc), old(pt.tab)), i)
      && p == old(pt.proc)[i].(pagetable := p.pagetable, sz := TwoMore(SizeAfter(segs, |segs|)))
      && p.pagetable in old(pt.m.FreeSet()) && NewImage(pt.m.mem, pt.tab[i], Pages(p.sz), segs, args)
      && p.trapframe in old(pt.m.mem) && p.trapframe in pt.m.mem && p.sz >= Room(args)
      && Pte(pt.m.mem[p.trapframe][3]) == entry
      && Pte(pt.m.mem[p.trapframe][6]) == Pte(pt.m.mem[p.trapframe][15]) == p.sz - Room(args)
      && (forall j: nat :: j < 512 && j != 3 && j != 6 && j != 15 ==>
            pt.m.mem[p.trapframe][j] == old(pt.m.mem)[p.trapframe][j])
      && Held(pt.m.mem, p, pt.tab[i]) + pt.m.FreeSet() == old(Held(pt.m.mem, pt.proc[i], pt.tab[i]) + pt.m.FreeSet())
  {
    hide *;
    var m := pt.m;
    ghost var s0, fs0, told := Snap(m.mem, pt.proc, pt.tab), m.FreeSet(), pt.tab[i];
    pt.InvIs();
    pt.OwnedAt(i);
    NoFreeZero(m);
    SameAll(m.mem, fs0);
    Unharmed(pt, s0, fs0, i);
    MemoryIs(segs);
    ArgsKinds(args);
    if !elfOk {
      return -1, false;
    }
    var p := pt.proc[i];
    var top := TopOf(pt.trampoline, p);
    FitOutsider(s0.mem, fs0, p, told, pt.trampoline);
    var root;
    ghost var t;
    root, t := ProcPagetable(m, top);
    if root == 0 {
      Unharmed(pt, s0, fs0, i);
      return -1, false;
    }
    ImageStart(m, t, top, s0.mem, fs0);
    var ok, sz, sp := false, 0, 0;
    ok, sz, t := LoadAll(m, root, segs, top, t, s0.mem, fs0);
    overrun := false;
    if ok {
      ok, overrun, sz, sp, t := BuildStack(m, root, segs, sz, args, top, t, s0.mem, fs0);
      if overrun {
        return -1, true;
      }
    }
    if !ok {
      ghost var mem1 := m.mem;
      ImageIs(m, t, top, Pages(sz), s0.mem, fs0);
      ProcFreepagetable(m, root, sz, t, top);
      OutsideTrans(s0.mem, mem1, m.mem, fs0, SpaceFrames(mem1, t, Pages(sz)));
      Unharmed(pt, s0, fs0, i);
      return -1, false;
    }
    Commit(pt, i, root, sz, entry, sp, segs, args, told, t, s0, fs0);
    r := |args|;
  }

  // Free frames enough for the page table, its fixed pages, the program and the stack.
  function MemoryFor(segs: seq<Segment>): nat { 7 + 3 * Pages(SizeAfter(segs, |segs|)) + 6 }

  lemma {:induction false} MemoryIs(segs: seq<Segment>)
    ensures MemoryFor(segs) == 7 + 3 * Pages(SizeAfter(segs, |segs|)) + 6
  {
  }

  lemma FitOutsider(mem: Mem, fs: set<nat>, p: Proc, t: Tables, tramp: nat)
    requires Fit(mem, p, t, tramp) && p.pagetable != 0 && Held(mem, p, t) !! fs
    ensures Outsider(TopOf(tramp, p), mem, fs)
  {
    FitSpace(mem, p, t, tramp);
    hide Space, SpaceFrames, Tables.Frames;
  }

  lemma ImageStart(m: PhysMem, t: Tables, top: Top, mem0: Mem, fs0: set<nat>)
    requires m.Valid() && m.Holds(t) && Space(m.mem, t, top, 0) && |mem0| <= RAMFRAMES && 0 !in fs0
    requires t.Frames() + m.FreeSet() == fs0 && SameOutside(mem0, m.mem, fs0)
    ensures Image(m, t, top, 0, mem0, fs0)
  {
    hide *;
    EmptySpace(m.mem, t, top);
    SameKeys(mem0, m.mem, fs0);
    SameCount(mem0, m.mem);
    HoldsApart(m, t);
    FoldImage(m, t, top, 0, mem0, fs0);
  }

  lemma EmptySpace(mem: Mem, t: Tables, top: Top)
    requires Space(mem, t, top, 0)
    ensures SpaceFrames(mem, t, 0) == t.Frames()
  {
    hide Wf, Tables.Frames;
  }

  lemma RootOf(mem: Mem, t: Tables, top: Top, n: nat, fs1: set<nat>, fs0: set<nat>)
    requires Space(mem, t, top, n) && SpaceFrames(mem, t, n) + fs1 == fs0
    ensures t.root in fs0 && t.root != 0 && fs1 <= fs0
  {
    assert t.root in t.Frames();
    hide Wf, Freeable;
  }

  lemma TrapframeApart(mem0: Mem, mem1: Mem, p: Proc, t: Tables, fs0: set<nat>, fs1: set<nat>)
    requires p.trapframe != 0 && Held(mem0, p, t) !! fs0 && fs1 <= fs0 && p.trapframe in mem0 && p.pagetable != 0
    requires SameOutside(mem0, mem1, fs0) && Kept(mem0, mem1, p, t)
    ensures p.trapframe !in fs1 && p.trapframe in mem1 && mem1[p.trapframe] == mem0[p.trapframe]
    ensures SpaceFrames(mem1, t, Pages(p.sz)) !! fs1
  {
    hide SpaceFrames;
  }

  lemma SpaceApart(mem: Mem, p: Proc, t: Tables, fs: set<nat>)
    requires Held(mem, p, t) !! fs && p.pagetable != 0
    ensures SpaceFrames(mem, t, Pages(p.sz)) !! fs
  {
    hide SpaceFrames;
  }

  // The point of no return: the new image is installed and the old one freed.
  method Commit(pt: ProcTable, i: nat, root: nat, sz: nat, entry: uint64, sp: nat, ghost segs: seq<Segment>,
                ghost args: seq<Text>, ghost told: Tables, ghost t: Tables, ghost s0: Snap, ghost fs0: set<nat>)
    requires Owners(s0.mem, fs0, s0.proc, s0.tab, pt.kernel, pt.trampoline) && i < NPROC
    requires forall j :: 0 <= j < NPROC ==> Settled(s0.mem, s0.proc[j])
    requires pt.proc == s0.proc && pt.tab == s0.tab && told == pt.tab[i] && pt.proc[i].pagetable != 0
    requires Image(pt.m, t, TopOf(pt.trampoline, pt.proc[i]), Pages(sz), s0.mem, fs0) && root == t.root
    requires NewImage(pt.m.mem, t, Pages(sz), segs, args)
    modifies pt, pt.m
    ensures pt.Inv() && pt.Since(s0, i) && |pt.proc| == |pt.tab| == NPROC
    ensures var p := pt.proc[i];
      && p == s0.proc[i].(pagetable := root, sz := sz) && root in fs0
      && NewImage(pt.m.mem, pt.tab[i], Pages(sz), segs, args)
      && p.trapframe in s0.mem && p.trapframe in pt.m.mem
      && Pte(pt.m.mem[p.trapframe][3]) == entry
      && Pte(pt.m.mem[p.trapframe][6]) == Pte(pt.m.mem[p.trapframe][15]) == sp
      && (forall j: nat :: j < 512 && j != 3 && j != 6 && j != 15 ==>
            pt.m.mem[p.trapframe][j] == s0.mem[p.trapframe][j])
      && Held(pt.m.mem, p, pt.tab[i]) + pt.m.FreeSet() == Held(s0.mem, s0.proc[i], s0.tab[i]) + fs0
  {
    hide *;
    var m := pt.m;
    ghost var tramp := pt.trampoline;
    OwnersAt(s0.mem, fs0, s0.proc, s0.tab, pt.kernel, tramp, i);
    var p := pt.proc[i];
    var oldsz := p.sz;
    ghost var top, mem1, fs1 := TopOf(tramp, p), m.mem, m.FreeSet();
    ImageIs(m, t, top, Pages(sz), s0.mem, fs0);
    RootOf(m.mem, t, top, Pages(sz), fs1, fs0);
    FitSpace(s0.mem, p, told, tramp);
    KeptBy(s0.mem, mem1, p, told, tramp, fs0);
    FitSpace(mem1, p, told, tramp);
    TrapframeApart(s0.mem, mem1, p, told, fs0, fs1);
    EnteredIs(m.mem[p.trapframe], entry, sp);
    StorePage(m, p.trapframe, Entered(m.mem[p.trapframe], entry, sp));
    ghost var mem2 := m.mem;
    SpaceApart(s0.mem, p, told, fs0);
    FrameSpace(s0.mem, mem1, told, top, Pages(oldsz), fs0);
    FrameSpace(mem1, mem2, told, top, Pages(oldsz), {p.trapframe});
    SpaceWf(mem2, told, top, Pages(oldsz));
    pt.proc := pt.proc[i := p.(pagetable := root, sz := sz)];
    pt.tab := pt.tab[i := t];
    FoldHolds(m, told);
    ProcFreepagetable(m, p.pagetable, oldsz, told, top);
    ExecFits(s0.mem, fs0, p, told, tramp, mem1, fs1, t, sz, mem2, m.mem, m.FreeSet(), segs, args);
    pt.Install(s0, fs0, i);
  }
}
