/**
 Sv39 page tables of kernel/vm.c and the frame allocator of kernel/kalloc.c, in one memory.
 A frame holds 512 words; a word is kept as its bits 10 and up (`ppn`) and its low ten bits,
 which is what PTE2PA and PTE_FLAGS select.  Free frames are linked through their first word.
 The memory is what kalloc hands out: its frames are those from `end` up to PHYSTOP.
 The ghost value Tables names the frames of one page table by their place in the tree.
*/
module Sv39 {

  // Bits 0..4 of a word by name, and bits 5..9 as a number.
  datatype Flags = Flags(v: bool, r: bool, w: bool, x: bool, u: bool, rest: nat)

  datatype Word = Word(ppn: nat, f: Flags)

  const NOFLAGS := Flags(false, false, false, false, false, 0)
  const VONLY := Flags(true, false, false, false, false, 0)
  const ZERO := Word(0, NOFLAGS)

  const PGSIZE := 4096

  type Frame = s: seq<Word> | |s| == 512 witness seq(512, i => ZERO)
  type Mem = map<nat, Frame>

  function Zeros(): (s: Frame)
    ensures forall i :: 0 <= i < 512 ==> s[i] == ZERO
  {
    seq(512, i => ZERO)
  }

  predicate IsLeaf(f: Flags) { f.r || f.w || f.x }

  // ---------- the word as an unsigned integer ----------

  function Bit(b: bool, n: nat): nat { if b then n else 0 }

  function Bits(f: Flags): nat {
    Bit(f.v, 1) + Bit(f.r, 2) + Bit(f.w, 4) + Bit(f.x, 8) + Bit(f.u, 16) + f.rest * 32
  }

  // PA2PTE(pa) | flags, for a page-aligned pa.
  function Pte(w: Word): nat { w.ppn * 1024 + Bits(w.f) }

  function OfPte(n: nat): Word {
    Word(n / 1024, Flags(n % 2 == 1, n / 2 % 2 == 1, n / 4 % 2 == 1, n / 8 % 2 == 1,
                         n / 16 % 2 == 1, n / 32 % 32))
  }

  lemma Halve(r: nat, b: bool)
    ensures var n := r * 2 + Bit(b, 1); n / 2 == r && (n % 2 == 1 <==> b)
  {
  }

  lemma DivSmall(n: nat)
    ensures n / 4 == n / 2 / 2 && n / 8 == n / 4 / 2 && n / 16 == n / 8 / 2
    ensures n / 32 == n / 16 / 2 && n / 1024 == n / 32 / 32
  {
  }

  /** Words are page-table entries: nothing is lost either way, and PTE2PA, (n >> 10) << 12,
      and PTE_FLAGS, n & 0x3FF, select the two parts. */
  lemma WordsArePtes(w: Word, n: nat)
    requires w.f.rest < 32
    ensures OfPte(Pte(w)) == w && Pte(OfPte(n)) == n
    ensures Pte(w) / 1024 * 4096 == w.ppn * 4096 && Pte(w) % 1024 == Bits(w.f)
  {
    hide *;
    WordToPte(w);
    PteToWord(n);
  }

  lemma SplitPte(w: Word)
    requires w.f.rest < 32
    ensures Pte(w) / 1024 == w.ppn && Pte(w) % 1024 == Bits(w.f)
  {
    assert Bits(w.f) < 1024;
    hide Bits;
  }

  lemma WordToPte(w: Word)
    requires w.f.rest < 32
    ensures OfPte(Pte(w)) == w
    ensures Pte(w) / 1024 * 4096 == w.ppn * 4096 && Pte(w) % 1024 == Bits(w.f)
  {
    SplitPte(w);
    var r := w.ppn * 32 + w.f.rest;
    var x3 := r * 2 + Bit(w.f.u, 1);
    var x2 := x3 * 2 + Bit(w.f.x, 1);
    var x1 := x2 * 2 + Bit(w.f.w, 1);
    var x0 := x1 * 2 + Bit(w.f.r, 1);
    var n := x0 * 2 + Bit(w.f.v, 1);
    assert Pte(w) == n;
    hide Pte, Bits;
    Halve(x0, w.f.v);
    Halve(x1, w.f.r);
    Halve(x2, w.f.w);
    Halve(x3, w.f.x);
    Halve(r, w.f.u);
    hide Bit;
    assert n / 2 == x0 && n / 4 == x1 && n / 8 == x2 && n / 16 == x3 && n / 32 == r by {
      DivSmall(n);
    }
    assert r % 32 == w.f.rest;
  }

  lemma PteToWord(n: nat)
    ensures Pte(OfPte(n)) == n
  {
    DivSmall(n);
    var m := OfPte(n);
    assert n == n / 2 * 2 + Bit(m.f.v, 1);
    assert n / 2 == n / 4 * 2 + Bit(m.f.r, 1);
    assert n / 4 == n / 8 * 2 + Bit(m.f.w, 1);
    assert n / 8 == n / 16 * 2 + Bit(m.f.x, 1);
    assert n / 16 == n / 32 * 2 + Bit(m.f.u, 1);
    assert n / 32 == m.ppn * 32 + m.f.rest;
  }

  // ---------- virtual page numbers ----------

  const MAXVPN := 0x400_0000  // MAXVA / PGSIZE
  const MAXPAGES := 0x10_0000_0000_0000  // the pages of 64-bit addresses

  function PX(level: nat, vpn: nat): (i: nat)
    requires level <= 2
    ensures i < 512
  {
    if level == 2 then vpn / 262144 % 512 else if level == 1 then vpn / 512 % 512 else vpn % 512
  }

  // A table page's place in the tree: the virtual pages it serves start with this number.
  datatype Node = Root | Mid(i: nat) | Low(q: nat)

  function NodeAt(level: nat, vpn: nat): Node
    requires level <= 2
  {
    if level == 2 then Root else if level == 1 then Mid(vpn / 262144) else Low(vpn / 512)
  }

  function Child(n: Node, i: nat): Node
    requires !n.Low?
  {
    if n.Root? then Mid(i) else Low(n.i * 512 + i)
  }

  // ---------- one page table ----------

  datatype Tables = Tables(root: nat, mid: map<nat, nat>, low: map<nat, nat>) {
    predicate Has(n: Node) {
      match n
      case Root => true
      case Mid(i) => i in mid
      case Low(q) => q in low
    }
    function At(n: Node): nat
      requires Has(n)
    {
      match n
      case Root => root
      case Mid(i) => mid[i]
      case Low(q) => low[q]
    }
    function Add(n: Node, f: nat): Tables
      requires !n.Root?
    {
      if n.Mid? then this.(mid := mid[n.i := f]) else this.(low := low[n.q := f])
    }
    function Frames(): set<nat> { {root} + mid.Values + low.Values }
  }

  ghost predicate Link(w: Word, t: Tables, child: Node) {
    && (w.f.v <==> t.Has(child))
    && (t.Has(child) ==> w == Word(t.At(child), VONLY))
  }

  // An upper page names exactly the children; a bottom page's valid entries are leaves.
  ghost predicate NodeOk(mem: Mem, t: Tables, n: Node)
    requires t.Has(n)
  {
    && t.At(n) in mem
    && (if n.Low?
        then forall j :: 0 <= j < 512 && mem[t.At(n)][j].f.v ==> IsLeaf(mem[t.At(n)][j].f)
        else forall j :: 0 <= j < 512 ==> Link(mem[t.At(n)][j], t, Child(n, j)))
  }

  ghost predicate Shape(t: Tables) {
    && (forall i :: i in t.mid ==> i < 512)
    && (forall q :: q in t.low ==> q / 512 in t.mid)
    && (forall m, n :: t.Has(m) && t.Has(n) && m != n ==> t.At(m) != t.At(n))
  }

  ghost predicate Wf(mem: Mem, t: Tables) {
    Shape(t) && forall n :: t.Has(n) ==> NodeOk(mem, t, n)
  }

  // The entry for a virtual page: section 4.3.2 of the privileged architecture, steps 2-5.
  ghost function Entry(mem: Mem, t: Tables, vpn: nat): Word
    requires forall n :: t.Has(n) ==> t.At(n) in mem
  {
    if vpn / 512 in t.low then mem[t.At(Low(vpn / 512))][vpn % 512] else ZERO
  }

  ghost predicate SameEntries(mem: Mem, t: Tables, mem': Mem, t': Tables) {
    && (forall n :: t.Has(n) ==> t.At(n) in mem)
    && (forall n :: t'.Has(n) ==> t'.At(n) in mem')
    && forall vpn: nat :: Entry(mem', t', vpn) == Entry(mem, t, vpn)
  }

  // The entries of mem' are those of mem but for w at vpn.
  ghost predicate SetsEntry(mem: Mem, t: Tables, mem': Mem, t': Tables, vpn: nat, w: Word) {
    && (forall n :: t.Has(n) ==> t.At(n) in mem)
    && (forall n :: t'.Has(n) ==> t'.At(n) in mem')
    && Entry(mem', t', vpn) == w
    && forall x: nat :: x != vpn ==> Entry(mem', t', x) == Entry(mem, t, x)
  }

  lemma FramesHas(t: Tables, f: nat)
    ensures f in t.Frames() <==> exists n :: t.Has(n) && t.At(n) == f
  {
    if i :| i in t.mid && t.mid[i] == f { assert t.Has(Mid(i)) && t.At(Mid(i)) == f; }
    if q :| q in t.low && t.low[q] == f { assert t.Has(Low(q)) && t.At(Low(q)) == f; }
    if f == t.root { assert t.Has(Root) && t.At(Root) == f; }
    if n :| t.Has(n) && t.At(n) == f {
      match n
      case Root =>
      case Mid(i) => assert f in t.mid.Values;
      case Low(q) => assert f in t.low.Values;
    }
  }

  lemma NodeInFrames(t: Tables, n: Node)
    requires t.Has(n)
    ensures t.At(n) in t.Frames()
  {
    FramesHas(t, t.At(n));
  }

  // A table depends on its own frames only.
  lemma Framing(mem: Mem, mem': Mem, t: Tables)
    requires Wf(mem, t)
    requires forall f :: f in t.Frames() && f in mem ==> f in mem' && mem'[f] == mem[f]
    ensures Wf(mem', t)
    ensures SameEntries(mem, t, mem', t)
  {
    forall n | t.Has(n) ensures NodeOk(mem', t, n) {
      NodeInFrames(t, n);
      assert NodeOk(mem, t, n);
    }
    forall vpn: nat ensures Entry(mem', t, vpn) == Entry(mem, t, vpn) {
      if vpn / 512 in t.low {
        NodeInFrames(t, Low(vpn / 512));
        assert NodeOk(mem, t, Low(vpn / 512));
      }
    }
  }

  // ---------- editing a table ----------

  lemma ChildInjective(m: Node, i: nat, n: Node, j: nat)
    requires !m.Low? && !n.Low? && i < 512 && j < 512 && Child(m, i) == Child(n, j)
    ensures m == n && i == j
  {
  }

  // walk's step into a missing table page: memory and tree with a zeroed page f linked in.
  function LinkPage(mem: Mem, t: Tables, n: Node, i: nat, f: nat): Mem
    requires t.Has(n) && t.At(n) in mem && i < 512
  {
    mem[f := Zeros()][t.At(n) := mem[t.At(n)][i := Word(f, VONLY)]]
  }

  lemma AddFrames(t: Tables, n: Node, f: nat)
    requires !n.Root? && !t.Has(n)
    ensures t.Add(n, f).Frames() == t.Frames() + {f}
  {
    var t' := t.Add(n, f);
    forall x ensures x in t'.Frames() <==> x in t.Frames() + {f} {
      FramesHas(t, x);
      FramesHas(t', x);
      if m :| t.Has(m) && t.At(m) == x { assert t'.Has(m) && t'.At(m) == x; }
      if m :| t'.Has(m) && t'.At(m) == x { assert m != n ==> t.Has(m) && t.At(m) == x; }
      assert t'.Has(n) && t'.At(n) == f;
    }
  }

  lemma AddShape(t: Tables, n: Node, i: nat, f: nat)
    requires Shape(t) && t.Has(n) && !n.Low? && i < 512 && !t.Has(Child(n, i)) && f !in t.Frames()
    ensures Shape(t.Add(Child(n, i), f))
  {
    var c, t' := Child(n, i), t.Add(Child(n, i), f);
    forall a, b | t'.Has(a) && t'.Has(b) && a != b ensures t'.At(a) != t'.At(b) {
      if a != c { NodeInFrames(t, a); }
      if b != c { NodeInFrames(t, b); }
    }
  }

  lemma AddChild(mem: Mem, t: Tables, n: Node, i: nat, f: nat)
    requires Wf(mem, t) && t.Has(n) && !n.Low? && i < 512 && !t.Has(Child(n, i))
    requires f in mem && f !in t.Frames()
    ensures t.At(n) in mem
    ensures Wf(LinkPage(mem, t, n, i, f), t.Add(Child(n, i), f))
    ensures SameEntries(mem, t, LinkPage(mem, t, n, i, f), t.Add(Child(n, i), f))
  {
    assert NodeOk(mem, t, n);
    NodeInFrames(t, n);
    var mem', t', c := LinkPage(mem, t, n, i, f), t.Add(Child(n, i), f), Child(n, i);
    AddShape(t, n, i, f);
    forall m | t'.Has(m) ensures NodeOk(mem', t', m) {
      if m == c {
        NewNodeOk(mem', t, n, i, f);
      } else {
        NodeInFrames(t, m);
        assert NodeOk(mem, t, m);
        if !m.Low? {
          forall j | 0 <= j < 512 ensures Link(mem'[t'.At(m)][j], t', Child(m, j)) {
            if Child(m, j) == c { ChildInjective(m, j, n, i); }
            assert Link(mem[t.At(m)][j], t, Child(m, j));
          }
        }
      }
    }
    forall vpn: nat ensures Entry(mem', t', vpn) == Entry(mem, t, vpn) {
      var q := vpn / 512;
      if q in t.low {
        NodeInFrames(t, Low(q));
        assert NodeOk(mem, t, Low(q));
        assert t.At(Low(q)) != t.At(n);
      } else if c == Low(q) {
        assert mem'[f] == Zeros();
      }
    }
  }

  // A zeroed page is a correct page without children.
  lemma NewNodeOk(mem': Mem, t: Tables, n: Node, i: nat, f: nat)
    requires Shape(t) && t.Has(n) && !n.Low? && i < 512 && !t.Has(Child(n, i))
    requires f in mem' && mem'[f] == Zeros()
    ensures NodeOk(mem', t.Add(Child(n, i), f), Child(n, i))
  {
    var c, t' := Child(n, i), t.Add(Child(n, i), f);
    if c.Mid? {
      forall j | 0 <= j < 512 ensures Link(mem'[f][j], t', Child(c, j)) {
        assert !t.Has(Low(c.i * 512 + j)) by { assert (c.i * 512 + j) / 512 == c.i; }
      }
    }
  }

  function SetEntry(mem: Mem, t: Tables, vpn: nat, w: Word): Mem
    requires vpn / 512 in t.low && t.low[vpn / 512] in mem
  {
    var f := t.low[vpn / 512];
    mem[f := mem[f][vpn % 512 := w]]
  }

  // Writing one bottom entry changes the translation of that page and of no other.
  lemma SetLeaf(mem: Mem, t: Tables, vpn: nat, w: Word)
    requires Wf(mem, t) && vpn / 512 in t.low && (w.f.v ==> IsLeaf(w.f))
    ensures t.low[vpn / 512] in mem
    ensures Wf(SetEntry(mem, t, vpn, w), t)
    ensures SetsEntry(mem, t, SetEntry(mem, t, vpn, w), t, vpn, w)
  {
    var q := vpn / 512;
    assert t.Has(Low(q)) && NodeOk(mem, t, Low(q));
    var mem' := SetEntry(mem, t, vpn, w);
    forall n | t.Has(n) ensures NodeOk(mem', t, n) {
      assert NodeOk(mem, t, n);
      if n != Low(q) { assert t.At(n) != t.At(Low(q)); }
    }
    forall x: nat ensures Entry(mem', t, x) == (if x == vpn then w else Entry(mem, t, x)) {
      if x / 512 in t.low {
        assert NodeOk(mem, t, Low(x / 512));
        if x / 512 != q { assert t.At(Low(x / 512)) != t.At(Low(q)); }
      }
    }
  }

  // ---------- the free list ----------

  function PtrWord(f: nat): Word { Word(f * 4, NOFLAGS) }  // the address f * PGSIZE

  function NextOf(page: Frame): nat { page[0].ppn / 4 }

  ghost predicate Chain(mem: Mem, head: nat, free: seq<nat>)
    decreases free
  {
    if free == [] then head == 0
    else head == free[0] && head != 0 && head in mem && Chain(mem, NextOf(mem[head]), free[1..])
  }

  ghost predicate Distinct(s: seq<nat>) {
    forall i, j :: 0 <= i < j < |s| ==> s[i] != s[j]
  }

  lemma {:induction false} ChainFrame(mem: Mem, mem': Mem, head: nat, free: seq<nat>)
    requires Chain(mem, head, free)
    requires forall f :: f in free && f in mem ==> f in mem' && mem'[f] == mem[f]
    ensures Chain(mem', head, free)
    decreases free
  {
    if free != [] {
      assert free[0] in free && forall f :: f in free[1..] ==> f in free;
      ChainFrame(mem, mem', NextOf(mem[head]), free[1..]);
    }
  }

  lemma {:induction false} ChainIn(mem: Mem, head: nat, free: seq<nat>, f: nat)
    requires Chain(mem, head, free) && f in free
    ensures f in mem && f != 0
    decreases free
  {
    if f != free[0] {
      assert f in free[1..];
      ChainIn(mem, NextOf(mem[head]), free[1..], f);
    }
  }

  // memset of a whole frame to one byte.
  function Fill(b: nat): Frame { seq(512, i => OfPte(b * 0x0101_0101_0101_0101)) }

  // PX picks the child on the way to vpn.
  lemma NodeStep(level: nat, vpn: nat)
    requires 0 < level <= 2 && vpn < MAXVPN
    ensures !NodeAt(level, vpn).Low?
    ensures Child(NodeAt(level, vpn), PX(level, vpn)) == NodeAt(level - 1, vpn)
  {
    if level == 1 {
      assert vpn / 512 == vpn / 262144 * 512 + vpn / 512 % 512 by {
        assert vpn / 512 / 512 == vpn / 262144;
      }
    }
  }

  // Only the missing part of the path to vpn can be missing.
  lemma MissingPath(t: Tables, level: nat, vpn: nat)
    requires Shape(t) && 0 < level <= 2 && vpn < MAXVPN && !t.Has(NodeAt(level - 1, vpn))
    ensures vpn / 512 !in t.low
  {
    assert vpn / 512 / 512 == vpn / 262144;
  }

  lemma NodeLink(mem: Mem, t: Tables, n: Node, i: nat)
    requires Wf(mem, t) && t.Has(n)
    ensures t.At(n) in mem
    ensures !n.Low? && i < 512 ==> mem[t.At(n)][i].f.v == t.Has(Child(n, i))
    ensures !n.Low? && i < 512 && t.Has(Child(n, i)) ==> mem[t.At(n)][i].ppn == t.At(Child(n, i))
  {
    assert NodeOk(mem, t, n);
    if !n.Low? && i < 512 { assert Link(mem[t.At(n)][i], t, Child(n, i)); }
  }

  lemma NodeEnds(t: Tables, vpn: nat)
    ensures NodeAt(2, vpn) == Root && NodeAt(0, vpn) == Low(vpn / 512)
  {
  }

  lemma WfShape(mem: Mem, t: Tables)
    requires Wf(mem, t)
    ensures Shape(t)
  {
  }

  ghost predicate SameOutside(mem: Mem, mem': Mem, fs: set<nat>) {
    && mem'.Keys == mem.Keys
    && forall f :: f in mem && f !in fs ==> mem'[f] == mem[f]
  }

  // ---------- the hardware's translation ----------

  datatype Translation = Fault | Leaf(w: Word, level: nat)

  // Steps 2 to 5 of section 4.3.2 of the privileged architecture, version 20211203, from one page.
  function Translate(mem: Mem, page: nat, level: nat, vpn: nat): Translation
    requires level <= 2
    decreases level
  {
    if page !in mem then Fault
    else
      var w := mem[page][PX(level, vpn)];
      if !w.f.v || (!w.f.r && w.f.w) then Fault
      else if w.f.r || w.f.x then Leaf(w, level)
      else if level == 0 then Fault
      else Translate(mem, w.ppn, level - 1, vpn)
  }

  /** In a well-formed table the hardware finds the bottom entry of the page, and nothing else. */
  lemma TranslateIsEntry(mem: Mem, t: Tables, vpn: nat)
    requires Wf(mem, t) && vpn < MAXVPN
    ensures Inside(mem, t)
    ensures var e := Entry(mem, t, vpn);
      Translate(mem, t.root, 2, vpn) == if !e.f.v || (!e.f.r && e.f.w) then Fault else Leaf(e, 0)
  {
    WfIn(mem, t);
    NodeEnds(t, vpn);
    NodeStep(2, vpn);
    NodeStep(1, vpn);
    TranslateStep(mem, t, 2, vpn);
    if t.Has(NodeAt(1, vpn)) {
      TranslateStep(mem, t, 1, vpn);
      if t.Has(NodeAt(0, vpn)) { TranslateLow(mem, t, vpn); }
    } else {
      MissingPath(t, 2, vpn);
    }
  }

  lemma TranslateStep(mem: Mem, t: Tables, level: nat, vpn: nat)
    requires Wf(mem, t) && vpn < MAXVPN && 0 < level <= 2 && t.Has(NodeAt(level, vpn))
    ensures Translate(mem, t.At(NodeAt(level, vpn)), level, vpn) ==
      if t.Has(NodeAt(level - 1, vpn)) then Translate(mem, t.At(NodeAt(level - 1, vpn)), level - 1, vpn) else Fault
  {
    NodeStep(level, vpn);
    assert NodeOk(mem, t, NodeAt(level, vpn));
    assert Link(mem[t.At(NodeAt(level, vpn))][PX(level, vpn)], t, NodeAt(level - 1, vpn));
    hide PX, NodeAt, Shape, Child;
  }

  lemma TranslateLow(mem: Mem, t: Tables, vpn: nat)
    requires Wf(mem, t) && Inside(mem, t) && t.Has(Low(vpn / 512))
    ensures var e := Entry(mem, t, vpn);
      Translate(mem, t.At(Low(vpn / 512)), 0, vpn) == if !e.f.v || (!e.f.r && e.f.w) then Fault else Leaf(e, 0)
  {
    assert NodeOk(mem, t, Low(vpn / 512));
  }

  // What kfree asks of a frame: from `end` up to PHYSTOP.
  predicate InRam(mem: Mem, f: nat) { f in mem && f != 0 }

  lemma RamAddress(mem: Mem, f: nat)
    requires f in mem && f != 0
    ensures PGSIZE > 0 && f * PGSIZE >= 0 && f * PGSIZE % PGSIZE == 0 && f * PGSIZE / PGSIZE == f && InRam(mem, f)
  {
  }

  // The frame lies between two addresses.
  predicate Whole(f: nat, paStart: nat, paEnd: nat) { paStart <= f * PGSIZE && (f + 1) * PGSIZE <= paEnd }

  datatype MapResult = Done | NoMemory | Panicked

  class PhysMem {
    var mem: Mem
    var freelist: nat
    ghost var free: seq<nat>

    ghost predicate Valid()
      reads this
    {
      Chain(mem, freelist, free) && Distinct(free)
    }

    ghost function FreeSet(): set<nat>
      reads this
    {
      set f | f in free
    }

    // The table is well formed and owns none of the free frames.
    ghost predicate Holds(t: Tables)
      reads this
    {
      Wf(mem, t) && t.Frames() !! FreeSet()
    }

    // Only the frames fs can have changed.
    twostate predicate Touches(fs: set<nat>)
      reads this
    {
      SameOutside(old(mem), mem, fs)
    }

    method Kalloc() returns (f: nat)
      requires Valid()
      modifies this
      ensures Valid()
      ensures f == 0 <==> old(free) == []
      ensures f == 0 ==> mem == old(mem) && free == old(free) && FreeSet() == old(FreeSet())
      ensures f != 0 ==> f == old(free)[0] && free == old(free)[1..] && f in old(mem) && f !in free
      ensures f != 0 ==> FreeSet() == old(FreeSet()) - {f} && f in old(FreeSet())
      ensures SameOutside(old(mem), mem, {f}) && (f != 0 ==> mem[f] == Fill(5))
    {
      f := freelist;
      if f != 0 {
        freelist := NextOf(mem[f]);
        free := free[1..];
        assert f !in free;
        ChainFrame(mem, mem[f := Fill(5)], freelist, free);
        mem := mem[f := Fill(5)];
        assert old(free) == [f] + free;
      }
    }

    /** kfree: it panics exactly on an address that is not a frame's, or not kalloc's to give. */
    method Kfree(pa: nat) returns (panicked: bool)
      requires Valid() && (InRam(mem, pa / PGSIZE) ==> pa / PGSIZE !in free)
      modifies this
      ensures Valid() && (panicked <==> pa % PGSIZE != 0 || !InRam(mem, pa / PGSIZE))
      ensures panicked ==> mem == old(mem) && free == old(free) && FreeSet() == old(FreeSet())
      ensures !panicked ==> var f := pa / PGSIZE;
        && free == [f] + old(free) && freelist == f && FreeSet() == old(FreeSet()) + {f}
        && SameOutside(old(mem), mem, {f})
        && forall j :: 1 <= j < 512 ==> mem[f][j] == Fill(1)[j]
    {
      var f := pa / PGSIZE;
      if pa % PGSIZE != 0 || !InRam(mem, f) {
        return true;
      }
      panicked := false;
      var page := Fill(1)[0 := PtrWord(freelist)];
      ChainFrame(mem, mem[f := page], freelist, free);
      mem := mem[f := page];
      freelist := f;
      free := [f] + free;
      assert free[1..] == old(free);
    }

    /** freerange: the whole frames from paStart up to paEnd join the free list, each once; it
        panics exactly when one of them is not kalloc's to give. */
    method FreeRange(paStart: nat, paEnd: nat) returns (panicked: bool)
      requires Valid()
      requires forall f: nat :: Whole(f, paStart, paEnd) ==> f !in free
      modifies this
      ensures Valid() && mem.Keys == old(mem).Keys
      ensures panicked <==> exists f: nat :: Whole(f, paStart, paEnd) && !InRam(old(mem), f)
      ensures !panicked ==>
        forall f: nat :: f in FreeSet() <==> f in old(FreeSet()) || Whole(f, paStart, paEnd)
    {
      hide Chain, Distinct;
      var lo := (paStart + PGSIZE - 1) / PGSIZE;
      var p := lo * PGSIZE;
      while p + PGSIZE <= paEnd
        invariant p % PGSIZE == 0 && lo <= p / PGSIZE && Valid() && mem.Keys == old(mem).Keys
        invariant p > lo * PGSIZE ==> p <= paEnd
        invariant forall f: nat :: f in FreeSet() <==> f in old(FreeSet()) || lo <= f < p / PGSIZE
        invariant forall f :: f in free <==> f in FreeSet()
        invariant forall f: nat :: lo <= f < p / PGSIZE ==> InRam(old(mem), f)
      {
        assert Whole(p / PGSIZE, paStart, paEnd);
        panicked := Kfree(p);
        if panicked {
          return;
        }
        p := p + PGSIZE;
      }
      panicked := false;
    }

    /** walk: the bottom page for vpn, if it exists or can be made.  Translations stay; frames
        move from the free list into the table and nowhere else. */
    method Walk(root: nat, vpn: nat, alloc: bool, ghost t: Tables)
      returns (found: bool, f: nat, ghost t': Tables)
      requires Valid() && Holds(t) && root == t.root && vpn < MAXVPN
      modifies this
      ensures Valid() && Holds(t') && t'.root == root
      ensures SameEntries(old(mem), t, mem, t')
      ensures found <==> vpn / 512 in t'.low
      ensures found ==> f == t'.At(Low(vpn / 512)) && f in mem
      ensures !alloc ==> t' == t && mem == old(mem) && free == old(free)
      ensures |free| <= |old(free)| <= |free| + 2
      ensures alloc && !found ==> |old(free)| <= 1 && free == []
      ensures t.Frames() <= t'.Frames() && t'.Frames() + FreeSet() == t.Frames() + old(FreeSet())
      ensures Touches(t'.Frames())
    {
      hide Chain, Distinct, Wf, Shape, PX, NodeAt, Child;
      t' := t;
      f := root;
      var level := 2;
      Framing(mem, mem, t);
      NodeEnds(t, vpn);
      while level > 0
        invariant level <= 2 && Valid() && Holds(t') && t'.root == root
        invariant t'.Has(NodeAt(level, vpn)) && f == t'.At(NodeAt(level, vpn))
        invariant SameEntries(old(mem), t, mem, t') && |free| <= |old(free)| <= |free| + 2 - level
        invariant !alloc ==> t' == t && mem == old(mem) && free == old(free)
        invariant t.Frames() <= t'.Frames() && t'.Frames() + FreeSet() == t.Frames() + old(FreeSet())
        invariant Touches(t'.Frames())
      {
        ghost var n := NodeAt(level, vpn);
        NodeStep(level, vpn);
        var i := PX(level, vpn);
        NodeLink(mem, t', n, i);
        var pte := mem[f][i];
        if pte.f.v {
          f := pte.ppn;
        } else {
          WfShape(mem, t');
          MissingPath(t', level, vpn);
          if !alloc {
            return false, f, t';
          }
          var p := AddPage(f, i, n, t');
          if p == 0 {
            return false, f, t';
          }
          t' := t'.Add(Child(n, i), p);
          f := p;
        }
        level := level - 1;
      }
      NodeEnds(t', vpn);
      NodeLink(mem, t', Low(vpn / 512), 0);
      found := true;
    }

    // The part of walk that makes a missing page.
    method AddPage(f: nat, i: nat, ghost n: Node, ghost t: Tables) returns (p: nat)
      requires Valid() && Holds(t) && t.Has(n) && !n.Low? && i < 512 && f == t.At(n)
      requires !t.Has(Child(n, i))
      modifies this
      ensures Valid() && (p == 0 <==> old(free) == [])
      ensures p == 0 ==> mem == old(mem) && free == old(free)
      ensures p != 0 ==> |free| == |old(free)| - 1
      ensures p != 0 ==> var t' := t.Add(Child(n, i), p);
        && Holds(t') && SameEntries(old(mem), t, mem, t') && Touches(t'.Frames())
        && t'.Frames() == t.Frames() + {p} && FreeSet() == old(FreeSet()) - {p} && p in old(FreeSet())
    {
      NodeInFrames(t, n);
      assert NodeOk(mem, t, n);
      p := Kalloc();
      if p != 0 {
        Framing(old(mem), mem, t);
        ghost var mid := mem;
        AddChild(mem, t, n, i, p);
        AddFrames(t, Child(n, i), p);
        ChainFrame(mem, LinkPage(mem, t, n, i, p), freelist, free);
        mem := mem[p := Zeros()];
        mem := mem[f := mem[f][i := Word(p, VONLY)]];
        assert mem == LinkPage(mid, t, n, i, p);
      }
    }

    method PutEntry(f: nat, vpn: nat, w: Word, ghost t: Tables)
      requires Valid() && Holds(t) && vpn / 512 in t.low && f == t.At(Low(vpn / 512))
      requires w.f.v ==> IsLeaf(w.f)
      modifies `mem
      ensures Valid() && Holds(t) && Touches(t.Frames())
      ensures SetsEntry(old(mem), t, mem, t, vpn, w)
    {
      NodeInFrames(t, Low(vpn / 512));
      SetLeaf(mem, t, vpn, w);
      hide Wf;
      ChainFrame(mem, SetEntry(mem, t, vpn, w), freelist, free);
      mem := mem[f := mem[f][vpn % 512 := w]];
    }

    /** mappages: on success exactly the pages vpn .. vpn + n are mapped, to consecutive
        frames; otherwise exactly the first k of them.  It panics when it is asked for no page,
        and when memory lasts up to a page that is mapped already or past MAXVA; it fails only
        for lack of memory before that: two free frames a page always suffice. */
    method MapPages(root: nat, vpn: nat, n: nat, ppn: nat, perm: Flags, ghost t: Tables)
      returns (r: MapResult, ghost t': Tables, ghost k: nat)
      requires Valid() && Holds(t) && root == t.root && IsLeaf(perm)
      modifies this
      ensures Inside(old(mem), t) && Valid() && Holds(t') && t'.root == root
      ensures MapsRange(old(mem), t, mem, t', vpn, k, ppn, perm)
      ensures match r
        case Done => n > 0 && k == n == Vacant(old(mem), t, vpn, n)
        case NoMemory => k < Vacant(old(mem), t, vpn, n) && |old(free)| < 2 * n
        case Panicked => n == 0 || k == Vacant(old(mem), t, vpn, n) < n
      ensures |free| <= |old(free)| <= |free| + 2 * k + if r.Done? then 0 else if r.NoMemory? then 1 else 2
      ensures t.Frames() <= t'.Frames() && t'.Frames() + FreeSet() == t.Frames() + old(FreeSet())
      ensures SameOutside(old(mem), mem, t'.Frames())
    {
      hide *;
      t', k := t, 0;
      MapsNone(this, t, vpn, n, ppn, perm);
      if n == 0 {
        return Panicked, t', k;
      }
      var a, pa, last := vpn, ppn, vpn + n - 1;
      while true
        invariant a == vpn + k && pa == ppn + k && k < n && k <= Vacant(old(mem), t, vpn, n)
        invariant Valid() && Holds(t') && t'.root == root
        invariant |free| <= |old(free)| <= |free| + 2 * k
        invariant MapsRange(old(mem), t, mem, t', vpn, k, ppn, perm)
        invariant t.Frames() <= t'.Frames() && t'.Frames() + FreeSet() == t.Frames() + old(FreeSet())
        invariant SameOutside(old(mem), mem, t'.Frames())
        decreases n - k
      {
        ghost var t0, mem0 := t', mem;
        VacantNext(old(mem), t, mem, t', vpn, k, n, ppn, perm);
        r, t' := MapOne(root, a, pa, perm, t');
        OutsideGrows(old(mem), mem0, mem, t0.Frames(), t'.Frames());
        if !r.Done? {
          MapsTrans(old(mem), t, mem0, t0, mem, t', vpn, k, ppn, perm);
          return;
        }
        MapsOne(old(mem), t, mem0, t0, mem, t', vpn, k, ppn, perm);
        k := k + 1;
        if a == last {
          break;
        }
        a := a + 1;
        pa := pa + 1;
      }
    }

    // The body of the loop of mappages.
    method MapOne(root: nat, a: nat, pa: nat, perm: Flags, ghost t: Tables)
      returns (r: MapResult, ghost t': Tables)
      requires Valid() && Holds(t) && root == t.root && IsLeaf(perm) && Inside(mem, t)
      modifies this
      ensures Valid() && Holds(t') && t'.root == root
      ensures r.Panicked? <==> !Mappable(old(mem), t, a)
      ensures if r.Done? then SetsEntry(old(mem), t, mem, t', a, Word(pa, perm.(v := true)))
              else SameEntries(old(mem), t, mem, t')
      ensures |free| <= |old(free)| <= |free| + 2 && (r.NoMemory? ==> |old(free)| <= 1 && free == [])
      ensures t.Frames() <= t'.Frames() && t'.Frames() + FreeSet() == t.Frames() + old(FreeSet())
      ensures SameOutside(old(mem), mem, t'.Frames())
    {
      hide Chain, Distinct, Wf;
      t' := t;
      if a >= MAXVPN {
        return Panicked, t';
      }
      var found, f;
      found, f, t' := Walk(root, a, true, t);
      if !found {
        return NoMemory, t';
      }
      if mem[f][a % 512].f.v {
        return Panicked, t';
      }
      PutEntry(f, a, Word(pa, perm.(v := true)), t');
      r := Done;
    }

    /** uvmunmap: it panics exactly when a page of vpn .. vpn + n is missing, or with doFree has a
        frame that kfree refuses.  Exactly the pages before the first such one lose their
        translation, and with doFree their frames become free.  The end of the range is a 64-bit
        address. */
    method Unmap(root: nat, vpn: nat, n: nat, doFree: bool, ghost t: Tables) returns (panicked: bool)
      requires Valid() && Holds(t) && root == t.root && Inside(mem, t) && vpn < MAXPAGES
      requires doFree ==> Releasable(mem, FreeSet(), t, vpn, Leading(mem, t, vpn, Span(vpn, n), doFree))
      modifies this
      ensures Valid() && Holds(t)
      ensures panicked <==> Leading(old(mem), t, vpn, Span(vpn, n), doFree) < Span(vpn, n)
      ensures Unmapped(old(mem), old(FreeSet()), mem, FreeSet(), t, vpn,
                       Leading(old(mem), t, vpn, Span(vpn, n), doFree), doFree)
      ensures !doFree ==> free == old(free)
    {
      hide *;
      ghost var k := Leading(mem, t, vpn, Span(vpn, n), doFree);
      UnmappedNone(mem, FreeSet(), t, vpn, doFree);
      SpanIs(vpn, n);
      var a, end := vpn, (vpn + n) % MAXPAGES;
      while a < end
        invariant vpn <= a <= vpn + k && k <= Span(vpn, n) && Valid() && Holds(t) && (!doFree ==> free == old(free))
        invariant Unmapped(old(mem), old(FreeSet()), mem, FreeSet(), t, vpn, a - vpn, doFree)
      {
        ghost var mem0, fs0 := mem, FreeSet();
        UnmapReady(old(mem), old(FreeSet()), mem0, fs0, t, vpn, k, a, doFree);
        panicked := UnmapOne(root, a, doFree, t);
        if panicked {
          return;
        }
        UnmappedNext(old(mem), old(FreeSet()), mem0, fs0, mem, FreeSet(), t, vpn, a - vpn, doFree);
        a := a + 1;
      }
      panicked := false;
    }

    // The body of uvmunmap's loop.
    method UnmapOne(root: nat, a: nat, doFree: bool, ghost t: Tables) returns (panicked: bool)
      requires Valid() && Holds(t) && Inside(mem, t) && root == t.root
      requires doFree && Removable(mem, t, a, doFree) ==> FreeablePage(mem, t, Entry(mem, t, a).ppn)
      requires doFree && Removable(mem, t, a, doFree) ==> Entry(mem, t, a).ppn !in FreeSet()
      modifies this
      ensures Valid() && Holds(t) && (panicked <==> !Removable(old(mem), t, a, doFree))
      ensures panicked ==> mem == old(mem) && free == old(free) && FreeSet() == old(FreeSet())
      ensures !panicked ==> SetsEntry(old(mem), t, mem, t, a, ZERO)
      ensures !panicked ==> FreeSet() == old(FreeSet()) + if doFree then {Entry(old(mem), t, a).ppn} else {}
      ensures !doFree ==> free == old(free)
      ensures !panicked ==>
        SameOutside(old(mem), mem, t.Frames() + if doFree then {Entry(old(mem), t, a).ppn} else {})
    {
      hide Chain, Distinct, Wf;
      if a >= MAXVPN {
        return true;
      }
      var found, f;
      ghost var t1;
      found, f, t1 := Walk(root, a, false, t);
      if !found {
        return true;
      }
      var pte := mem[f][a % 512];
      if !pte.f.v {
        return true;
      }
      EntryMeans(mem, t, a);
      assert IsLeaf(pte.f);
      if doFree {
        panicked := Kfree(pte.ppn * PGSIZE);
        if panicked {
          return;
        }
        Framing(old(mem), mem, t);
      }
      PutEntry(f, a, ZERO, t);
      panicked := false;
    }
  }

  // walk panics on an address from MAXVA on.
  ghost predicate Present(mem: Mem, t: Tables, a: nat)
    requires Inside(mem, t)
  {
    a < MAXVPN && Entry(mem, t, a).f.v
  }

  // kfree takes only the frames of the memory, and only from uvmunmap with doFree.
  ghost predicate Removable(mem: Mem, t: Tables, a: nat, doFree: bool)
    requires Inside(mem, t)
  {
    Present(mem, t, a) && (doFree ==> InRam(mem, Entry(mem, t, a).ppn))
  }

  // The pages from vpn to the end of a range of n, which may wrap around.
  function Span(vpn: nat, n: nat): nat {
    var end := (vpn + n) % MAXPAGES;
    if vpn < end then end - vpn else 0
  }

  lemma SpanIs(vpn: nat, n: nat)
    ensures MAXPAGES > 0 && 0 <= (vpn + n) % MAXPAGES
    ensures vpn < (vpn + n) % MAXPAGES ==> vpn + Span(vpn, n) == (vpn + n) % MAXPAGES
    ensures vpn >= (vpn + n) % MAXPAGES ==> Span(vpn, n) == 0
    ensures vpn + n < MAXPAGES ==> Span(vpn, n) == n
  {
  }

  // The pages of a range that uvmunmap gets through: those before the first it panics on.
  ghost function Leading(mem: Mem, t: Tables, vpn: nat, n: nat, doFree: bool): (k: nat)
    requires Inside(mem, t)
    ensures k <= n && forall x: nat :: vpn <= x < vpn + k ==> Removable(mem, t, x, doFree)
    ensures k < n ==> !Removable(mem, t, vpn + k, doFree)
    decreases n
  {
    if n == 0 || !Removable(mem, t, vpn, doFree) then 0 else 1 + Leading(mem, t, vpn + 1, n - 1, doFree)
  }

  lemma LeadingAll(mem: Mem, t: Tables, vpn: nat, n: nat, doFree: bool)
    requires Inside(mem, t) && (n > 0 ==> vpn + n <= MAXVPN)
    requires forall x: nat :: vpn <= x < vpn + n ==> Entry(mem, t, x).f.v
    requires doFree ==> Freeable(mem, t, vpn, n)
    ensures Leading(mem, t, vpn, n, doFree) == n
  {
    assert doFree ==> forall x: nat :: vpn <= x < vpn + n ==> FreeablePage(mem, t, Entry(mem, t, x).ppn);
    assert n > 0 ==> forall x: nat :: vpn <= x < vpn + n ==> Removable(mem, t, x, doFree);
  }

  // What mappages can map: walk panics past MAXVA, and a page that is mapped is a remap.
  ghost predicate Mappable(mem: Mem, t: Tables, a: nat)
    requires Inside(mem, t)
  {
    a < MAXVPN && !Entry(mem, t, a).f.v
  }

  // The pages of a range before the first that mappages panics on.
  ghost function Vacant(mem: Mem, t: Tables, vpn: nat, n: nat): (k: nat)
    requires Inside(mem, t)
    ensures k <= n && forall x: nat :: vpn <= x < vpn + k ==> Mappable(mem, t, x)
    ensures k < n ==> !Mappable(mem, t, vpn + k)
    decreases n
  {
    if n == 0 || !Mappable(mem, t, vpn) then 0 else 1 + Vacant(mem, t, vpn + 1, n - 1)
  }

  lemma VacantNext(mem: Mem, t: Tables, mem0: Mem, t0: Tables, vpn: nat, k: nat, n: nat, ppn: nat, perm: Flags)
    requires MapsRange(mem, t, mem0, t0, vpn, k, ppn, perm) && Inside(mem, t) && k < n && k <= Vacant(mem, t, vpn, n)
    ensures Inside(mem0, t0) && Vacant(mem, t, vpn, n) <= n
    ensures k < Vacant(mem, t, vpn, n) <==> Mappable(mem0, t0, vpn + k)
  {
    assert Mappable(mem0, t0, vpn + k) <==> Mappable(mem, t, vpn + k);
    hide MapsRange, Mappable;
  }

  lemma MapsNone(m: PhysMem, t: Tables, vpn: nat, n: nat, ppn: nat, perm: Flags)
    requires m.Holds(t)
    ensures Inside(m.mem, t) && MapsRange(m.mem, t, m.mem, t, vpn, 0, ppn, perm) && Vacant(m.mem, t, vpn, n) >= 0
    ensures SameOutside(m.mem, m.mem, t.Frames())
  {
    WfIn(m.mem, t);
  }

  lemma OutsideGrows(mem: Mem, mem0: Mem, mem': Mem, a: set<nat>, b: set<nat>)
    requires SameOutside(mem, mem0, a) && SameOutside(mem0, mem', b) && a <= b
    ensures SameOutside(mem, mem', b)
  {
  }

  lemma VacantOne(mem: Mem, t: Tables, vpn: nat)
    requires Inside(mem, t) && vpn < MAXVPN && !Entry(mem, t, vpn).f.v
    ensures Vacant(mem, t, vpn, 1) == 1
  {
  }

  // The frames under n pages are distinct, none is free, and none belongs to the table.
  ghost predicate Releasable(mem: Mem, fs: set<nat>, t: Tables, vpn: nat, n: nat)
    requires Inside(mem, t)
  {
    Freeable(mem, t, vpn, n) && LeafFrames(mem, t, vpn, n) !! fs
  }

  // uvmunmap's progress: k pages unmapped, their frames free, nothing else changed.
  ghost predicate Unmapped(mem: Mem, fs: set<nat>, mem': Mem, fs': set<nat>,
                           t: Tables, vpn: nat, k: nat, doFree: bool) {
    && ClearsRange(mem, t, mem', vpn, k)
    && fs' == fs + (if doFree then LeafFrames(mem, t, vpn, k) else {})
    && SameOutside(mem, mem', t.Frames() + if doFree then LeafFrames(mem, t, vpn, k) else {})
  }

  lemma UnmappedNone(mem: Mem, fs: set<nat>, t: Tables, vpn: nat, doFree: bool)
    requires Inside(mem, t)
    ensures Unmapped(mem, fs, mem, fs, t, vpn, 0, doFree)
  {
  }

  lemma UnmappedDone(mem: Mem, fs: set<nat>, mem': Mem, fs': set<nat>,
                     t: Tables, vpn: nat, k: nat, doFree: bool)
    requires Unmapped(mem, fs, mem', fs', t, vpn, k, doFree)
    ensures Inside(mem, t) && ClearsRange(mem, t, mem', vpn, k)
    ensures fs' == fs + if doFree then LeafFrames(mem, t, vpn, k) else {}
    ensures SameOutside(mem, mem', t.Frames() + if doFree then LeafFrames(mem, t, vpn, k) else {})
  {
  }

  // The next page is still as it was at the start.
  lemma UnmapReady(mem: Mem, fs: set<nat>, mem0: Mem, fs0: set<nat>,
                   t: Tables, vpn: nat, n: nat, a: nat, doFree: bool)
    requires vpn <= a && Unmapped(mem, fs, mem0, fs0, t, vpn, a - vpn, doFree) && Inside(mem, t)
    requires Removable(mem, t, a, doFree) ==> a < vpn + n
    requires doFree ==> Releasable(mem, fs, t, vpn, n)
    ensures Inside(mem0, t) && Entry(mem0, t, a) == Entry(mem, t, a)
    ensures Removable(mem0, t, a, doFree) <==> Removable(mem, t, a, doFree)
    ensures doFree && Removable(mem, t, a, doFree) ==> FreeablePage(mem0, t, Entry(mem0, t, a).ppn)
    ensures doFree && Removable(mem, t, a, doFree) ==> Entry(mem0, t, a).ppn !in fs0
  {
    if doFree && Removable(mem, t, a, doFree) { LeafRangeIn(mem, t, vpn, n, a); }
  }

  lemma UnmappedNext(mem: Mem, fs: set<nat>, mem0: Mem, fs0: set<nat>, mem': Mem, fs': set<nat>,
                     t: Tables, vpn: nat, k: nat, doFree: bool)
    requires Unmapped(mem, fs, mem0, fs0, t, vpn, k, doFree)
    requires SetsEntry(mem0, t, mem', t, vpn + k, ZERO)
    requires fs' == fs0 + if doFree then {Entry(mem0, t, vpn + k).ppn} else {}
    requires SameOutside(mem0, mem', t.Frames() + if doFree then {Entry(mem0, t, vpn + k).ppn} else {})
    ensures Unmapped(mem, fs, mem', fs', t, vpn, k + 1, doFree)
  {
    LeafNext(mem, t, vpn, k);
    ClearsOne(mem, t, mem0, mem', vpn, k);
    assert Entry(mem0, t, vpn + k) == Entry(mem, t, vpn + k);
    hide ClearsRange, LeafFrames, Tables.Frames, SetsEntry;
  }

  ghost predicate Inside(mem: Mem, t: Tables) {
    forall n :: t.Has(n) ==> t.At(n) in mem
  }

  lemma WfIn(mem: Mem, t: Tables)
    requires Wf(mem, t)
    ensures Inside(mem, t)
  {
    forall n | t.Has(n) ensures t.At(n) in mem { assert NodeOk(mem, t, n); }
  }

  // A valid bottom entry is where walk finds it, and it is a leaf.
  lemma EntryMeans(mem: Mem, t: Tables, vpn: nat)
    requires Wf(mem, t) && Inside(mem, t) && Entry(mem, t, vpn).f.v
    ensures vpn / 512 in t.low && mem[t.At(Low(vpn / 512))][vpn % 512] == Entry(mem, t, vpn)
    ensures IsLeaf(Entry(mem, t, vpn).f)
  {
    assert NodeOk(mem, t, Low(vpn / 512));
  }

  ghost predicate MapsRange(mem: Mem, t: Tables, mem': Mem, t': Tables,
                            vpn: nat, k: nat, ppn: nat, perm: Flags) {
    && Inside(mem, t) && Inside(mem', t')
    && forall x: nat :: Entry(mem', t', x) ==
         if vpn <= x < vpn + k then Word(ppn + (x - vpn), perm.(v := true)) else Entry(mem, t, x)
  }

  ghost predicate ClearsRange(mem: Mem, t: Tables, mem': Mem, vpn: nat, k: nat) {
    && Inside(mem, t) && Inside(mem', t)
    && forall x: nat :: Entry(mem', t, x) == (if vpn <= x < vpn + k then ZERO else Entry(mem, t, x))
  }

  // The frames of the n leaves from vpn on.
  ghost function LeafFrames(mem: Mem, t: Tables, vpn: nat, n: nat): set<nat>
    requires Inside(mem, t)
  {
    if n == 0 then {} else LeafFrames(mem, t, vpn, n - 1) + {Entry(mem, t, vpn + n - 1).ppn}
  }

  ghost predicate FreeablePage(mem: Mem, t: Tables, f: nat) { f in mem && f != 0 && f !in t.Frames() }

  // They are distinct frames of memory outside the table itself.
  ghost predicate Freeable(mem: Mem, t: Tables, vpn: nat, n: nat)
    requires Inside(mem, t)
  {
    && (forall x: nat :: vpn <= x < vpn + n ==> FreeablePage(mem, t, Entry(mem, t, x).ppn))
    && (forall x: nat, y: nat :: vpn <= x < y < vpn + n ==>
          Entry(mem, t, x).ppn != Entry(mem, t, y).ppn)
  }

  lemma {:induction false} LeafHas(mem: Mem, t: Tables, vpn: nat, n: nat, f: nat)
    requires Inside(mem, t)
    ensures f in LeafFrames(mem, t, vpn, n) <==>
      exists x: nat :: vpn <= x < vpn + n && Entry(mem, t, x).ppn == f
  {
    if n > 0 { LeafHas(mem, t, vpn, n - 1, f); }
  }

  lemma LeafNext(mem: Mem, t: Tables, vpn: nat, k: nat)
    requires Inside(mem, t)
    ensures LeafFrames(mem, t, vpn, k + 1) == LeafFrames(mem, t, vpn, k) + {Entry(mem, t, vpn + k).ppn}
  {
  }

  // The frame at x is one of the range's, and not one of those before it.
  lemma LeafRangeIn(mem: Mem, t: Tables, vpn: nat, n: nat, x: nat)
    requires Inside(mem, t) && Freeable(mem, t, vpn, n) && vpn <= x < vpn + n
    ensures Entry(mem, t, x).ppn in LeafFrames(mem, t, vpn, n)
    ensures Entry(mem, t, x).ppn !in LeafFrames(mem, t, vpn, x - vpn)
    ensures FreeablePage(mem, t, Entry(mem, t, x).ppn)
  {
    LeafHas(mem, t, vpn, n, Entry(mem, t, x).ppn);
    LeafHas(mem, t, vpn, x - vpn, Entry(mem, t, x).ppn);
  }

  lemma MapsTrans(mem: Mem, t: Tables, mem0: Mem, t0: Tables, mem': Mem, t': Tables,
                  vpn: nat, k: nat, ppn: nat, perm: Flags)
    requires MapsRange(mem, t, mem0, t0, vpn, k, ppn, perm) && SameEntries(mem0, t0, mem', t')
    ensures MapsRange(mem, t, mem', t', vpn, k, ppn, perm)
  {
  }

  lemma MapsOne(mem: Mem, t: Tables, mem0: Mem, t0: Tables, mem': Mem, t': Tables,
                vpn: nat, k: nat, ppn: nat, perm: Flags)
    requires MapsRange(mem, t, mem0, t0, vpn, k, ppn, perm)
    requires SetsEntry(mem0, t0, mem', t', vpn + k, Word(ppn + k, perm.(v := true)))
    ensures MapsRange(mem, t, mem', t', vpn, k + 1, ppn, perm)
  {
  }

  lemma ClearsOne(mem: Mem, t: Tables, mem1: Mem, mem': Mem, vpn: nat, k: nat)
    requires ClearsRange(mem, t, mem1, vpn, k) && SetsEntry(mem1, t, mem', t, vpn + k, ZERO)
    ensures ClearsRange(mem, t, mem', vpn, k + 1)
  {
  }
}
