/**
 The user-memory functions of kernel/vm.c: growing, shrinking, copying and freeing the pages
 of one address space, with every out-of-memory path.
*/
module UserMemory {
  import opened Sv39

  function Pages(sz: nat): nat { (sz + PGSIZE - 1) / PGSIZE }  // PGROUNDUP(sz) / PGSIZE

  // ---------- freewalk ----------

  // t without the subtree at c.
  function Drop(t: Tables, c: Node): Tables
    requires !c.Root?
  {
    match c
    case Mid(i) => Tables(t.root, t.mid - {i}, map q | q in t.low && q / 512 != i :: t.low[q])
    case Low(q) => t.(low := t.low - {q})
  }

  lemma DropHas(t: Tables, c: Node, n: Node)
    requires Shape(t) && !c.Root?
    ensures Drop(t, c).Has(n) ==> t.Has(n) && n != c && Drop(t, c).At(n) == t.At(n)
    ensures t.Has(n) && n != c && !Drop(t, c).Has(n) ==> c.Mid? && n.Low? && n.q / 512 == c.i
  {
  }

  lemma DropFrames(t: Tables, c: Node)
    requires Shape(t) && !c.Root?
    ensures Drop(t, c).Frames() <= t.Frames()
  {
    forall f | f in Drop(t, c).Frames() ensures f in t.Frames() {
      FramesHas(Drop(t, c), f);
      var n :| Drop(t, c).Has(n) && Drop(t, c).At(n) == f;
      DropHas(t, c, n);
      NodeInFrames(t, n);
    }
  }

  ghost predicate NoLeaves(mem: Mem, t: Tables) {
    Inside(mem, t) && forall x: nat :: !Entry(mem, t, x).f.v
  }

  // Clearing the entry for c detaches its subtree.
  lemma DropChild(mem: Mem, mem': Mem, t: Tables, n: Node, i: nat)
    requires Wf(mem, t) && NoLeaves(mem, t) && t.Has(n) && !n.Low? && i < 512 && t.Has(Child(n, i))
    requires t.At(n) in mem && t.At(n) in mem' && mem'[t.At(n)] == mem[t.At(n)][i := ZERO]
    requires forall f :: f in Drop(t, Child(n, i)).Frames() && f != t.At(n) && f in mem ==>
      f in mem' && mem'[f] == mem[f]
    ensures Wf(mem', Drop(t, Child(n, i))) && NoLeaves(mem', Drop(t, Child(n, i)))
  {
    var c, t' := Child(n, i), Drop(t, Child(n, i));
    forall m | t'.Has(m) ensures NodeOk(mem', t', m) {
      DropHas(t, c, m);
      assert NodeOk(mem, t, m);
      NodeInFrames(t', m);
      if !m.Low? {
        forall j | 0 <= j < 512 ensures Link(mem'[t'.At(m)][j], t', Child(m, j)) {
          assert Link(mem[t.At(m)][j], t, Child(m, j));
          DropHas(t, c, Child(m, j));
          if Child(m, j) == c { ChildInjective(m, j, n, i); }
        }
      }
    }
    assert Shape(t') by {
      forall a, b | t'.Has(a) && t'.Has(b) && a != b ensures t'.At(a) != t'.At(b) {
        DropHas(t, c, a);
        DropHas(t, c, b);
      }
    }
    WfIn(mem', t');
    forall x: nat ensures !Entry(mem', t', x).f.v {
      var q := x / 512;
      if q in t'.low {
        DropHas(t, c, Low(q));
        NodeInFrames(t', Low(q));
        assert t'.Has(Low(q)) && t.At(Low(q)) != t.At(n);
        assert Entry(mem', t', x) == Entry(mem, t, x);
      }
    }
  }

  ghost function Sub(t: Tables, n: Node): set<nat> {
    if n.Root? then t.Frames() else t.Frames() - Drop(t, n).Frames()
  }

  ghost predicate Childless(t: Tables, n: Node) {
    !n.Low? ==> forall j :: 0 <= j < 512 ==> !t.Has(Child(n, j))
  }

  lemma RootAlone(t: Tables)
    requires Shape(t) && Childless(t, Root)
    ensures t.Frames() == {t.root}
  {
    forall i: nat ensures i !in t.mid {
      assert i < 512 ==> !t.Has(Child(Root, i));
    }
    assert t.mid == map[];
    assert t.low == map[];
  }

  // Dropping a page without children drops one frame.
  lemma DropLone(t: Tables, n: Node)
    requires Shape(t) && t.Has(n) && !n.Root? && Childless(t, n)
    ensures Drop(t, n).Frames() == t.Frames() - {t.At(n)}
  {
    var t' := Drop(t, n);
    forall f ensures f in t'.Frames() <==> f in t.Frames() - {t.At(n)} {
      FramesHas(t', f);
      FramesHas(t, f);
      if a :| t'.Has(a) && t'.At(a) == f { DropHas(t, n, a); }
      if a :| t.Has(a) && t.At(a) == f && a != n {
        DropHas(t, n, a);
        assert a.Low? && n.Mid? && a.q / 512 == n.i ==> Child(n, a.q % 512) == a;
      }
    }
  }

  lemma DropParent(t: Tables, n: Node, i: nat)
    requires Shape(t) && n.Mid? && i < 512
    ensures Drop(Drop(t, Child(n, i)), n) == Drop(t, n)
  {
    assert (n.i * 512 + i) / 512 == n.i;
  }

  lemma ChildNotDropped(t: Tables, n: Node, i: nat)
    requires Shape(t) && t.Has(n) && !n.Low? && i < 512
    ensures Drop(t, Child(n, i)).Has(n) && Drop(t, Child(n, i)).At(n) == t.At(n)
    ensures t.At(n) !in Sub(t, Child(n, i))
  {
    DropHas(t, Child(n, i), n);
    NodeInFrames(Drop(t, Child(n, i)), n);
  }

  lemma DropGone(t: Tables, n: Node, i: nat)
    requires Shape(t) && !n.Low? && i < 512 && forall j :: 0 <= j < i ==> !t.Has(Child(n, j))
    ensures forall j :: 0 <= j <= i ==> !Drop(t, Child(n, i)).Has(Child(n, j))
  {
    forall j | 0 <= j <= i ensures !Drop(t, Child(n, i)).Has(Child(n, j)) {
      DropHas(t, Child(n, i), Child(n, j));
    }
  }

  method ZeroWord(m: PhysMem, f: nat, i: nat)
    requires m.Valid() && f in m.mem && i < 512 && f !in m.free
    modifies m`mem
    ensures m.Valid() && m.mem == old(m.mem)[f := old(m.mem)[f][i := ZERO]]
  {
    ChainFrame(m.mem, m.mem[f := m.mem[f][i := ZERO]], m.freelist, m.free);
    m.mem := m.mem[f := m.mem[f][i := ZERO]];
  }

  // One entry of freewalk's loop: free the subtree below it, then clear it.
  method FreeChild(m: PhysMem, f: nat, i: nat, ghost t: Tables, ghost n: Node) returns (ghost t': Tables)
    requires m.Valid() && m.Holds(t) && NoLeaves(m.mem, t) && 0 !in t.Frames()
    requires t.Has(n) && !n.Low? && f == t.At(n) && i < 512 && t.Has(Child(n, i)) && f in m.mem
    modifies m
    ensures t' == Drop(t, Child(n, i)) && m.Valid() && m.Holds(t') && NoLeaves(m.mem, t')
    ensures m.FreeSet() == old(m.FreeSet()) + (t.Frames() - t'.Frames()) && t'.Frames() <= t.Frames()
    ensures t'.Has(n) && t'.At(n) == f
    ensures SameOutside(old(m.mem), m.mem, (t.Frames() - t'.Frames()) + {f})
    decreases if n.Root? then 2 else 1, 0
  {
    WfShape(m.mem, t);
    NodeLink(m.mem, t, n, i);
    ChildNotDropped(t, n, i);
    DropFrames(t, Child(n, i));
    NodeInFrames(t, n);
    t' := Drop(t, Child(n, i));
    Freewalk(m, m.mem[f][i].ppn, t, Child(n, i));
    hide Wf, Chain, Distinct, Drop;
    assert f !in m.free;
    ZeroWord(m, f, i);
    DropChild(old(m.mem), m.mem, t, n, i);
  }

  /** freewalk: frees the frames of the subtree and nothing else.  With every leaf gone its
      panic cannot happen. */
  method Freewalk(m: PhysMem, f: nat, ghost t: Tables, ghost n: Node)
    requires m.Valid() && m.Holds(t) && NoLeaves(m.mem, t) && 0 !in t.Frames()
    requires t.Has(n) && f == t.At(n)
    modifies m
    ensures m.Valid() && m.FreeSet() == old(m.FreeSet()) + Sub(t, n)
    ensures SameOutside(old(m.mem), m.mem, Sub(t, n))
    decreases if n.Root? then 2 else if n.Mid? then 1 else 0, 2
  {
    hide *;
    ghost var t1, mem0, fs0 := t, m.mem, m.FreeSet();
    WalkingStart(m, t, n);
    var i := 0;
    while i < 512
      invariant 0 <= i <= 512 && t1.Has(n) && t1.At(n) == f && Walking(m, t, t1, n, i, mem0, fs0)
    {
      t1 := WalkEntry(m, f, i, t, t1, n, mem0, fs0);
      i := i + 1;
    }
    WalkingIs(m, t, t1, n, i, mem0, fs0);
    ghost var mem1, fs1 := m.mem, m.FreeSet();
    WalkingFree(m, t, t1, n, mem0, fs0);
    RamAddress(m.mem, f);
    var panicked := m.Kfree(f * PGSIZE);
    assert !panicked;
    WalkingEnd(m, t, t1, n, mem0, fs0, mem1, fs1);
  }

  // freewalk at entry i: of t the tables t1 are left, the rest is free, the entries of n so far
  // are clear, and nothing but page n and what is free has been written.
  ghost predicate Walking(m: PhysMem, t: Tables, t1: Tables, n: Node, i: nat, mem0: Mem, fs0: set<nat>)
    reads m
  {
    && m.Valid() && m.Holds(t1) && NoLeaves(m.mem, t1) && Shape(t) && 0 !in t1.Frames()
    && t.Has(n) && t1.Has(n) && t1.At(n) == t.At(n) && t1.Frames() <= t.Frames()
    && (!n.Low? ==> forall j :: 0 <= j < i && j < 512 ==> !t1.Has(Child(n, j)))
    && m.FreeSet() == fs0 + (t.Frames() - t1.Frames())
    && SameOutside(mem0, m.mem, (t.Frames() - t1.Frames()) + {t.At(n)})
    && (!n.Root? ==> Drop(t1, n) == Drop(t, n))
  }

  lemma WalkingStart(m: PhysMem, t: Tables, n: Node)
    requires m.Valid() && m.Holds(t) && NoLeaves(m.mem, t) && 0 !in t.Frames() && t.Has(n)
    ensures Walking(m, t, t, n, 0, m.mem, m.FreeSet())
  {
    WfShape(m.mem, t);
    hide Wf, Drop, Tables.Frames, NoLeaves, Child;
  }

  lemma WalkingIs(m: PhysMem, t: Tables, t1: Tables, n: Node, i: nat, mem0: Mem, fs0: set<nat>)
    requires Walking(m, t, t1, n, i, mem0, fs0)
    ensures m.Valid() && m.Holds(t1) && NoLeaves(m.mem, t1) && 0 !in t1.Frames()
    ensures Wf(m.mem, t1) && Shape(t1) && t1.Has(n) && t1.At(n) in m.mem && t1.At(n) in t1.Frames()
    ensures Shape(t) && t.Has(n) && t1.At(n) == t.At(n) && t1.Frames() <= t.Frames()
    ensures !n.Low? ==> forall j :: 0 <= j < i && j < 512 ==> !t1.Has(Child(n, j))
    ensures m.FreeSet() == fs0 + (t.Frames() - t1.Frames())
    ensures SameOutside(mem0, m.mem, (t.Frames() - t1.Frames()) + {t.At(n)})
    ensures !n.Root? ==> Drop(t1, n) == Drop(t, n)
  {
    WfShape(m.mem, t1);
    NodeLink(m.mem, t1, n, 0);
    NodeInFrames(t1, n);
  }

  // The body of freewalk's loop.
  method WalkEntry(m: PhysMem, f: nat, i: nat, ghost t: Tables, ghost t1: Tables, ghost n: Node,
                   ghost mem0: Mem, ghost fs0: set<nat>)
    returns (ghost t2: Tables)
    requires Walking(m, t, t1, n, i, mem0, fs0) && t1.Has(n) && f == t1.At(n) && i < 512
    modifies m
    ensures Walking(m, t, t2, n, i + 1, mem0, fs0) && t2.Has(n) && t2.At(n) == f
    decreases if n.Root? then 2 else if n.Mid? then 1 else 0, 1
  {
    hide *;
    WalkingIs(m, t, t1, n, i, mem0, fs0);
    NodeLink(m.mem, t1, n, i);
    LowInvalid(m.mem, t1, n, i);
    t2 := t1;
    var pte := m.mem[f][i];
    if pte.f.v {
      ghost var mem1, fs1 := m.mem, m.FreeSet();
      t2 := FreeChild(m, f, i, t1, n);
      WalkingMore(m, t, t1, t2, n, i, mem0, fs0, mem1, fs1);
    } else {
      WalkingSkip(m, t, t1, n, i, mem0, fs0);
    }
  }

  lemma WalkingSkip(m: PhysMem, t: Tables, t1: Tables, n: Node, i: nat, mem0: Mem, fs0: set<nat>)
    requires Walking(m, t, t1, n, i, mem0, fs0) && i < 512 && (!n.Low? ==> !t1.Has(Child(n, i)))
    ensures Walking(m, t, t1, n, i + 1, mem0, fs0)
  {
    hide Wf, Drop, Tables.Frames, NoLeaves, Child;
  }

  lemma WalkingMore(m: PhysMem, t: Tables, t1: Tables, t2: Tables, n: Node, i: nat, mem0: Mem, fs0: set<nat>,
                    mem1: Mem, fs1: set<nat>)
    requires Shape(t) && Shape(t1) && !n.Low? && i < 512 && t.Has(n) && t1.Has(n) && t1.At(n) == t.At(n)
    requires t1.Frames() <= t.Frames() && fs1 == fs0 + (t.Frames() - t1.Frames()) && 0 !in t1.Frames()
    requires forall j :: 0 <= j < i && j < 512 ==> !t1.Has(Child(n, j))
    requires SameOutside(mem0, mem1, (t.Frames() - t1.Frames()) + {t.At(n)})
    requires !n.Root? ==> Drop(t1, n) == Drop(t, n)
    requires t2 == Drop(t1, Child(n, i)) && m.Valid() && m.Holds(t2) && NoLeaves(m.mem, t2)
    requires m.FreeSet() == fs1 + (t1.Frames() - t2.Frames()) && t2.Frames() <= t1.Frames()
    requires t2.Has(n) && t2.At(n) == t1.At(n)
    requires SameOutside(mem1, m.mem, (t1.Frames() - t2.Frames()) + {t1.At(n)})
    ensures Walking(m, t, t2, n, i + 1, mem0, fs0)
  {
    if n.Mid? { DropParent(t1, n, i); }
    DropGone(t1, n, i);
    hide Wf, Drop, Tables.Frames, NoLeaves, Child, Shape;
  }

  lemma WalkingFree(m: PhysMem, t: Tables, t1: Tables, n: Node, mem0: Mem, fs0: set<nat>)
    requires Walking(m, t, t1, n, 512, mem0, fs0) && t1.Has(n) && t1.At(n) in t1.Frames()
    ensures t1.At(n) != 0 && t1.At(n) !in m.free
  {
    hide Wf, Drop, Tables.Frames, NoLeaves, Child;
    assert t1.At(n) !in m.FreeSet();
  }

  lemma WalkingEnd(m: PhysMem, t: Tables, t1: Tables, n: Node, mem0: Mem, fs0: set<nat>, mem1: Mem, fs1: set<nat>)
    requires Shape(t1) && t.Has(n) && t1.Has(n) && t1.At(n) == t.At(n) && t1.Frames() <= t.Frames()
    requires !n.Low? ==> forall j :: 0 <= j < 512 ==> !t1.Has(Child(n, j))
    requires !n.Root? ==> Drop(t1, n) == Drop(t, n)
    requires fs1 == fs0 + (t.Frames() - t1.Frames()) && m.FreeSet() == fs1 + {t1.At(n)}
    requires SameOutside(mem0, mem1, (t.Frames() - t1.Frames()) + {t.At(n)}) && SameOutside(mem1, m.mem, {t1.At(n)})
    ensures m.FreeSet() == fs0 + Sub(t, n) && SameOutside(mem0, m.mem, Sub(t, n))
  {
    assert Childless(t1, n);
    if n.Root? {
      RootAlone(t1);
    } else {
      DropLone(t1, n);
      NodeInFrames(t, n);
    }
    NodeInFrames(t1, n);
    hide Drop, Tables.Frames, Shape, Child;
  }

  // Without leaves a bottom page has no valid entry at all.
  lemma LowInvalid(mem: Mem, t: Tables, n: Node, i: nat)
    requires Wf(mem, t) && NoLeaves(mem, t) && t.Has(n) && i < 512
    ensures n.Low? ==> t.At(n) in mem && !mem[t.At(n)][i].f.v
  {
    if n.Low? {
      var x := n.q * 512 + i;
      assert x / 512 == n.q && x % 512 == i;
      assert !Entry(mem, t, x).f.v;
    }
  }

  // ---------- fresh pages ----------

  datatype Page = Page(f: Flags, data: Frame)

  // Virtual page x holds its share of the pages laid out from lo on.
  ghost predicate PageAt(mem: Mem, t: Tables, lo: nat, pages: seq<Page>, x: nat)
    requires Inside(mem, t) && lo <= x < lo + |pages|
  {
    var e, p := Entry(mem, t, x), pages[x - lo];
    e.f == p.f && e.ppn in mem && mem[e.ppn] == p.data
  }

  // mem' has the given pages mapped from lo on; every other translation is that of mem.
  ghost predicate GrewEntries(mem: Mem, t: Tables, mem': Mem, t': Tables, lo: nat, pages: seq<Page>) {
    && Inside(mem, t) && Inside(mem', t')
    && (forall x: nat :: lo <= x < lo + |pages| ==> PageAt(mem', t', lo, pages, x))
    && (forall x: nat :: !(lo <= x < lo + |pages|) ==> Entry(mem', t', x) == Entry(mem, t, x))
  }

  // The new pages are in distinct frames from the free list fs, and no frame is lost: each of
  // the frames at stake is now a table page, a new page or still free.
  ghost predicate GrewFrames(fs: set<nat>, t: Tables, mem': Mem, fs': set<nat>, t': Tables,
                             lo: nat, n: nat) {
    && t.Frames() <= t'.Frames() && Inside(mem', t') && Freeable(mem', t', lo, n)
    && LeafFrames(mem', t', lo, n) <= fs && LeafFrames(mem', t', lo, n) !! fs'
    && t'.Frames() + fs' + LeafFrames(mem', t', lo, n) == t.Frames() + fs
  }

  ghost predicate Grew(mem: Mem, fs: set<nat>, t: Tables, mem': Mem, fs': set<nat>, t': Tables,
                       lo: nat, pages: seq<Page>) {
    && GrewEntries(mem, t, mem', t', lo, pages)
    && GrewFrames(fs, t, mem', fs', t', lo, |pages|)
    && SameOutside(mem, mem', t'.Frames() + fs)
  }

  lemma GrewNone(mem: Mem, fs: set<nat>, t: Tables, lo: nat)
    requires Inside(mem, t)
    ensures Grew(mem, fs, t, mem, fs, t, lo, [])
  {
  }

  // A frame of the first pages keeps its place and contents while another page is added.
  lemma GrewKeeps(mem1: Mem, fs1: set<nat>, t1: Tables, mem2: Mem, fs2: set<nat>, t2: Tables,
                  lo: nat, n: nat, more: seq<Page>, x: nat)
    requires Grew(mem1, fs1, t1, mem2, fs2, t2, lo + n, more)
    requires Freeable(mem1, t1, lo, n) && LeafFrames(mem1, t1, lo, n) !! fs1 && lo <= x < lo + n
    ensures Entry(mem2, t2, x) == Entry(mem1, t1, x)
    ensures var f := Entry(mem1, t1, x).ppn;
      f in mem1 && f in mem2 && mem2[f] == mem1[f] && FreeablePage(mem2, t2, f) && f !in fs1
  {
    LeafRangeIn(mem1, t1, lo, n, x);
    var f := Entry(mem1, t1, x).ppn;
    assert f !in t1.Frames() + fs1;
    assert f !in t2.Frames() + fs1;
    hide LeafFrames, Tables.Frames, Freeable;
  }

  lemma {:induction false} LeafSame(mem1: Mem, t1: Tables, mem2: Mem, t2: Tables, lo: nat, n: nat)
    requires Inside(mem1, t1) && Inside(mem2, t2)
    requires forall x: nat :: lo <= x < lo + n ==> Entry(mem2, t2, x).ppn == Entry(mem1, t1, x).ppn
    ensures LeafFrames(mem2, t2, lo, n) == LeafFrames(mem1, t1, lo, n)
  {
    if n > 0 { LeafSame(mem1, t1, mem2, t2, lo, n - 1); }
  }

  lemma GrewEntriesMore(mem: Mem, fs: set<nat>, t: Tables, mem1: Mem, fs1: set<nat>, t1: Tables,
                        mem2: Mem, fs2: set<nat>, t2: Tables, lo: nat, pages: seq<Page>, p: Page)
    requires Grew(mem, fs, t, mem1, fs1, t1, lo, pages)
    requires Grew(mem1, fs1, t1, mem2, fs2, t2, lo + |pages|, [p])
    ensures GrewEntries(mem, t, mem2, t2, lo, pages + [p])
  {
    forall x: nat | lo <= x < lo + |pages| + 1 ensures PageAt(mem2, t2, lo, pages + [p], x) {
      if x < lo + |pages| {
        GrewKeeps(mem1, fs1, t1, mem2, fs2, t2, lo, |pages|, [p], x);
        assert PageAt(mem1, t1, lo, pages, x);
      } else {
        assert PageAt(mem2, t2, lo + |pages|, [p], x);
      }
    }
  }

  lemma LeafOne(mem: Mem, t: Tables, x: nat)
    requires Inside(mem, t)
    ensures LeafFrames(mem, t, x, 1) == {Entry(mem, t, x).ppn}
  {
    assert LeafFrames(mem, t, x, 0) == {};
  }

  lemma FreeableMore(mem1: Mem, fs1: set<nat>, t1: Tables, mem2: Mem, fs2: set<nat>, t2: Tables,
                     lo: nat, n: nat, p: Page)
    requires Inside(mem1, t1) && Freeable(mem1, t1, lo, n) && LeafFrames(mem1, t1, lo, n) !! fs1
    requires Grew(mem1, fs1, t1, mem2, fs2, t2, lo + n, [p])
    ensures Freeable(mem2, t2, lo, n + 1)
    ensures LeafFrames(mem2, t2, lo, n) == LeafFrames(mem1, t1, lo, n)
    ensures LeafFrames(mem2, t2, lo + n, 1) == {Entry(mem2, t2, lo + n).ppn}
    ensures LeafFrames(mem2, t2, lo, n + 1) == LeafFrames(mem2, t2, lo, n) + LeafFrames(mem2, t2, lo + n, 1)
  {
    hide LeafFrames, Tables.Frames, GrewEntries, FreeablePage;
    LeafOne(mem2, t2, lo + n);
    LeafNext(mem2, t2, lo, n);
    forall x: nat | lo <= x < lo + n
      ensures Entry(mem2, t2, x) == Entry(mem1, t1, x) && Entry(mem1, t1, x).ppn !in fs1
      ensures FreeablePage(mem2, t2, Entry(mem2, t2, x).ppn)
    {
      GrewKeeps(mem1, fs1, t1, mem2, fs2, t2, lo, n, [p], x);
    }
    LeafSame(mem1, t1, mem2, t2, lo, n);
  }

  lemma FreeableApart(mem: Mem, t: Tables, lo: nat, n: nat)
    requires Inside(mem, t) && Freeable(mem, t, lo, n)
    ensures LeafFrames(mem, t, lo, n) !! t.Frames() && LeafFrames(mem, t, lo, n) <= mem.Keys
    ensures 0 !in LeafFrames(mem, t, lo, n)
  {
    forall f | f in LeafFrames(mem, t, lo, n) ensures f !in t.Frames() && f in mem && f != 0 {
      LeafHas(mem, t, lo, n, f);
      hide LeafFrames, Tables.Frames;
    }
  }

  lemma SetsMore(T: set<nat>, fs: set<nat>, T1: set<nat>, fs1: set<nat>, l1: set<nat>,
                 T2: set<nat>, fs2: set<nat>, l2: set<nat>)
    requires T <= T1 && l1 <= fs && l1 !! fs1 && l1 !! T1 && T1 + fs1 + l1 == T + fs && T1 !! fs1
    requires T1 <= T2 && l2 <= fs1 && l2 !! fs2 && T2 + fs2 + l2 == T1 + fs1
    ensures T <= T2 && l1 + l2 <= fs && l1 + l2 !! fs2 && T2 + fs2 + (l1 + l2) == T + fs
  {
  }

  lemma GrewFramesMore(mem: Mem, fs: set<nat>, t: Tables, mem1: Mem, fs1: set<nat>, t1: Tables,
                       mem2: Mem, fs2: set<nat>, t2: Tables, lo: nat, n: nat, p: Page)
    requires GrewFrames(fs, t, mem1, fs1, t1, lo, n) && t1.Frames() !! fs1
    requires Grew(mem1, fs1, t1, mem2, fs2, t2, lo + n, [p])
    ensures GrewFrames(fs, t, mem2, fs2, t2, lo, n + 1)
  {
    hide LeafFrames, Tables.Frames, GrewEntries, Freeable, SameOutside;
    FreeableMore(mem1, fs1, t1, mem2, fs2, t2, lo, n, p);
    FreeableApart(mem1, t1, lo, n);
    SetsMore(t.Frames(), fs, t1.Frames(), fs1, LeafFrames(mem1, t1, lo, n),
             t2.Frames(), fs2, LeafFrames(mem2, t2, lo + n, 1));
  }

  lemma GrewMore(mem: Mem, fs: set<nat>, t: Tables, mem1: Mem, fs1: set<nat>, t1: Tables,
                 mem2: Mem, fs2: set<nat>, t2: Tables, lo: nat, pages: seq<Page>, p: Page)
    requires Grew(mem, fs, t, mem1, fs1, t1, lo, pages) && t1.Frames() !! fs1
    requires Grew(mem1, fs1, t1, mem2, fs2, t2, lo + |pages|, [p])
    ensures Grew(mem, fs, t, mem2, fs2, t2, lo, pages + [p])
  {
    GrewEntriesMore(mem, fs, t, mem1, fs1, t1, mem2, fs2, t2, lo, pages, p);
    GrewFramesMore(mem, fs, t, mem1, fs1, t1, mem2, fs2, t2, lo, |pages|, p);
    assert fs1 <= t.Frames() + fs && t1.Frames() <= t2.Frames();
    hide GrewEntries, LeafFrames, Tables.Frames, Freeable;
  }

  // A step that maps nothing leaves the pages so far as they are.
  lemma GrewStay(mem: Mem, fs: set<nat>, t: Tables, mem1: Mem, fs1: set<nat>, t1: Tables,
                 mem2: Mem, fs2: set<nat>, t2: Tables, lo: nat, pages: seq<Page>)
    requires Grew(mem, fs, t, mem1, fs1, t1, lo, pages) && t1.Frames() !! fs1
    requires Grew(mem1, fs1, t1, mem2, fs2, t2, lo + |pages|, [])
    ensures Grew(mem, fs, t, mem2, fs2, t2, lo, pages)
  {
    hide LeafFrames, Tables.Frames, FreeablePage;
    forall x: nat | lo <= x < lo + |pages|
      ensures Entry(mem2, t2, x) == Entry(mem1, t1, x) && PageAt(mem2, t2, lo, pages, x)
      ensures FreeablePage(mem2, t2, Entry(mem2, t2, x).ppn)
    {
      assert PageAt(mem1, t1, lo, pages, x);
      GrewKeeps(mem1, fs1, t1, mem2, fs2, t2, lo, |pages|, [], x);
    }
    LeafSame(mem1, t1, mem2, t2, lo, |pages|);
    LeafNone(mem2, t2, lo + |pages|);
    FreeableApart(mem1, t1, lo, |pages|);
    SetsMore(t.Frames(), fs, t1.Frames(), fs1, LeafFrames(mem1, t1, lo, |pages|), t2.Frames(), fs2, {});
  }

  lemma LeafNone(mem: Mem, t: Tables, x: nat)
    requires Inside(mem, t)
    ensures LeafFrames(mem, t, x, 0) == {}
  {
  }

  // ---------- one fresh page ----------

  // What mappages of one page at a leaves when f holds data: the one-page Grew.
  lemma MappedOne(mem: Mem, fs: set<nat>, t: Tables, mem1: Mem, mem2: Mem, fs2: set<nat>, t2: Tables,
                  a: nat, f: nat, p: Page)
    requires Inside(mem, t) && f in fs && f !in t.Frames() && f in mem && f != 0
    requires mem1.Keys == mem.Keys && mem1[f] == p.data && SameOutside(mem, mem1, {f})
    requires SameEntries(mem, t, mem1, t)
    requires MapsRange(mem1, t, mem2, t2, a, 1, f, p.f) && p.f.v
    requires t.Frames() <= t2.Frames() && t2.Frames() + fs2 == t.Frames() + (fs - {f})
    requires SameOutside(mem1, mem2, t2.Frames())
    ensures Grew(mem, fs, t, mem2, fs2, t2, a, [p])
  {
    hide Tables.Frames;
    LeafOne(mem2, t2, a);
    assert Entry(mem2, t2, a) == Word(f, p.f);
    forall x: nat | !(a <= x < a + 1) ensures Entry(mem2, t2, x) == Entry(mem, t, x) {
      assert Entry(mem2, t2, x) == Entry(mem1, t, x);
    }
  }

  // Giving f back after a mappages that mapped nothing leaves nothing mapped.
  lemma NotMapped(mem: Mem, fs: set<nat>, t: Tables, mem1: Mem, mem2: Mem, mem3: Mem,
                  fs3: set<nat>, t2: Tables, a: nat, f: nat, p: Page)
    requires Inside(mem, t) && f in fs
    requires mem1.Keys == mem.Keys && SameOutside(mem, mem1, {f}) && SameEntries(mem, t, mem1, t)
    requires MapsRange(mem1, t, mem2, t2, a, 0, f, p.f) && SameOutside(mem1, mem2, t2.Frames())
    requires SameEntries(mem2, t2, mem3, t2) && SameOutside(mem2, mem3, {f})
    requires t.Frames() <= t2.Frames() && t2.Frames() + fs3 == t.Frames() + fs
    ensures Grew(mem, fs, t, mem3, fs3, t2, a, [])
  {
    hide Tables.Frames;
    forall x: nat ensures Entry(mem3, t2, x) == Entry(mem, t, x) {
      assert Entry(mem3, t2, x) == Entry(mem2, t2, x) == Entry(mem1, t, x);
    }
  }

  // kalloc, and the filling of the frame.
  method FreshFrame(m: PhysMem, p: Page, ghost t: Tables) returns (f: nat)
    requires m.Valid() && m.Holds(t)
    modifies m
    ensures m.Valid() && m.Holds(t) && Inside(old(m.mem), t) && Inside(m.mem, t)
    ensures f == 0 <==> old(m.free) == []
    ensures f == 0 ==> m.mem == old(m.mem) && m.free == old(m.free) && m.FreeSet() == old(m.FreeSet())
    ensures f != 0 ==> f in old(m.mem) && f in old(m.FreeSet()) && f !in t.Frames()
    ensures f != 0 ==> m.FreeSet() == old(m.FreeSet()) - {f} && |m.free| == |old(m.free)| - 1
    ensures f != 0 ==> m.mem.Keys == old(m.mem).Keys && m.mem[f] == p.data && SameOutside(old(m.mem), m.mem, {f})
    ensures SameEntries(old(m.mem), t, m.mem, t)
  {
    hide Chain, Distinct, Wf, Tables.Frames;
    WfIn(m.mem, t);
    f := m.Kalloc();
    if f != 0 {
      ChainIn(old(m.mem), old(m.freelist), old(m.free), f);
      ChainFrame(m.mem, m.mem[f := p.data], m.freelist, m.free);
      m.mem := m.mem[f := p.data];
      Framing(old(m.mem), m.mem, t);
    }
  }

  lemma EntryStays(mem: Mem, t: Tables, mem1: Mem, a: nat)
    requires SameEntries(mem, t, mem1, t)
    ensures Inside(mem, t) && Inside(mem1, t) && Entry(mem1, t, a) == Entry(mem, t, a)
    ensures Entry(mem, t, a) == ZERO ==> !Entry(mem1, t, a).f.v
  {
  }

  lemma RamKept(mem1: Mem, mem2: Mem, fs: set<nat>, f: nat)
    requires SameOutside(mem1, mem2, fs) && f in mem1 && f != 0
    ensures f in mem2 && InRam(mem2, f) && PGSIZE > 0
    ensures f * PGSIZE >= 0 && f * PGSIZE % PGSIZE == 0 && f * PGSIZE / PGSIZE == f
  {
  }

  lemma HoldsParts(m: PhysMem, t: Tables)
    requires m.Holds(t)
    ensures Wf(m.mem, t) && t.Frames() !! m.FreeSet()
  {
  }

  lemma FreeHas(m: PhysMem, f: nat)
    ensures f in m.free <==> f in m.FreeSet()
  {
  }

  lemma FreedFrame(m: PhysMem, mem2: Mem, t: Tables, f: nat)
    requires Wf(mem2, t) && SameOutside(mem2, m.mem, {f}) && f !in t.Frames() && t.Frames() !! m.FreeSet()
    ensures m.Holds(t) && SameEntries(mem2, t, m.mem, t)
  {
    Framing(mem2, m.mem, t);
    hide Wf, Tables.Frames;
  }

  // kalloc, fill, mappages of one page, with the kfree of a failed mappages: the part uvmalloc
  // and uvmcopy have in common.
  method MapFresh(m: PhysMem, root: nat, a: nat, p: Page, ghost t: Tables)
    returns (ok: bool, ghost t': Tables)
    requires m.Valid() && m.Holds(t) && root == t.root && p.f.v && IsLeaf(p.f)
    requires m.free != [] ==> a < MAXVPN && Entry(m.mem, t, a) == ZERO
    modifies m
    ensures m.Valid() && m.Holds(t') && t'.root == root
    ensures if ok then |m.free| < |old(m.free)| <= |m.free| + 3 else |old(m.free)| <= 2
    ensures Grew(old(m.mem), old(m.FreeSet()), t, m.mem, m.FreeSet(), t', a, if ok then [p] else [])
  {
    hide *;
    t' := t;
    var f := FreshFrame(m, p, t);
    if f == 0 {
      GrewNone(m.mem, m.FreeSet(), t, a);
      return false, t;
    }
    ghost var mem1, fs1, k := m.mem, m.FreeSet(), 0;
    EntryStays(old(m.mem), t, mem1, a);
    VacantOne(mem1, t, a);
    var r;
    r, t', k := m.MapPages(root, a, 1, f, p.f, t);
    assert !r.Panicked?;
    ok := r.Done?;
    if ok {
      MappedOne(old(m.mem), old(m.FreeSet()), t, mem1, m.mem, m.FreeSet(), t', a, f, p);
    } else {
      ghost var mem2 := m.mem;
      RamKept(mem1, mem2, t'.Frames(), f);
      FreeHas(m, f);
      HoldsParts(m, t');
      var panicked := m.Kfree(f * PGSIZE);
      assert !panicked;
      FreedFrame(m, mem2, t', f);
      NotMapped(old(m.mem), old(m.FreeSet()), t, mem1, mem2, m.mem, m.FreeSet(), t', a, f, p);
    }
  }

  // ---------- shrinking and growing ----------

  lemma PagesFacts(sz: nat, more: nat)
    ensures sz <= Pages(sz) * PGSIZE < sz + PGSIZE && Pages(Pages(sz) * PGSIZE) == Pages(sz)
    ensures sz <= more ==> Pages(sz) <= Pages(more)
  {
  }

  /** uvmdealloc: unmaps and frees exactly the pages past newsz, as many as its int npages makes of
      them.  uvmunmap panics when one of them is missing, whatever the comment on uvmdealloc says of
      an oldsz past the process size, or has a frame that kfree refuses; DeallocPanicsIff says when. */
  method UvmDealloc(m: PhysMem, root: nat, oldsz: nat, newsz: nat, ghost t: Tables)
    returns (panicked: bool, r: nat)
    requires m.Valid() && m.Holds(t) && root == t.root && Inside(m.mem, t)
    requires newsz < oldsz ==> oldsz < 0x1_0000_0000_0000_0000
    requires Releasable(m.mem, m.FreeSet(), t, Pages(newsz), Gone(m.mem, t, oldsz, newsz))
    modifies m
    ensures m.Valid() && m.Holds(t)
    ensures panicked <==> Gone(old(m.mem), t, oldsz, newsz) < Asked(oldsz, newsz)
    ensures !panicked ==> r == if newsz < oldsz then newsz else oldsz
    ensures Unmapped(old(m.mem), old(m.FreeSet()), m.mem, m.FreeSet(), t, Pages(newsz),
                     Gone(old(m.mem), t, oldsz, newsz), true)
  {
    UnmappedNone(m.mem, m.FreeSet(), t, Pages(newsz), true);
    AskedIs(oldsz, newsz);
    GoneIs(m.mem, t, oldsz, newsz);
    hide *;
    if newsz >= oldsz {
      return false, oldsz;
    }
    panicked := false;
    var lo, hi := Pages(newsz) % MAXPAGES, Pages(oldsz) % MAXPAGES;
    if lo < hi {
      var npages := ThroughInt(hi - lo);
      panicked := m.Unmap(root, lo, npages, true, t);
    }
    r := newsz;
  }

  // A 64-bit number assigned to an int and widened again: its low 32 bits, sign-extended.
  function ThroughInt(n: nat): nat {
    var k := n % 0x1_0000_0000;
    if k < 0x8000_0000 then k else k + 0xffff_ffff_0000_0000
  }

  lemma ThroughIntIs(n: nat)
    ensures ThroughInt(n) % 0x1_0000_0000 == n % 0x1_0000_0000
    ensures ThroughInt(n) < 0x8000_0000 || 0xffff_ffff_8000_0000 <= ThroughInt(n) < 0x1_0000_0000_0000_0000
  {
    var k := n % 0x1_0000_0000;
    assert (k + 0xffff_ffff * 0x1_0000_0000) % 0x1_0000_0000 == k;
  }

  // The pages that uvmdealloc has unmapped; PGROUNDUP of the last page's addresses wraps to 0.
  function Asked(oldsz: nat, newsz: nat): nat {
    if newsz >= oldsz || Pages(oldsz) >= MAXPAGES then 0
    else Span(Pages(newsz), ThroughInt(Pages(oldsz) - Pages(newsz)))
  }

  lemma AskedIs(oldsz: nat, newsz: nat)
    ensures newsz >= oldsz ==> Asked(oldsz, newsz) == 0
    ensures newsz < oldsz < 0x1_0000_0000_0000_0000 ==>
      var lo, hi := Pages(newsz) % MAXPAGES, Pages(oldsz) % MAXPAGES;
      && 0 <= lo < MAXPAGES && 0 <= hi < MAXPAGES && (lo >= hi ==> Asked(oldsz, newsz) == 0)
      && (lo < hi ==> Asked(oldsz, newsz) == Span(lo, ThroughInt(hi - lo)) && lo == Pages(newsz))
    ensures newsz < oldsz && Pages(oldsz) < MAXPAGES && Freed(oldsz, newsz) < 0x8000_0000 ==>
      Asked(oldsz, newsz) == Freed(oldsz, newsz)
    ensures Asked(oldsz, newsz) > 0 ==> Pages(newsz) + Asked(oldsz, newsz) < MAXPAGES
  {
    hide Pages, Freed, Span;
    PagesFacts(newsz, oldsz);
    PagesTop(oldsz);
    FreedIs(oldsz, newsz);
    if newsz < oldsz { SpanIs(Pages(newsz), ThroughInt(Pages(oldsz) - Pages(newsz))); }
  }

  lemma PagesTop(sz: nat)
    ensures sz < 0x1_0000_0000_0000_0000 ==> Pages(sz) <= MAXPAGES
  {
  }

  // How many pages uvmdealloc frees before it returns or panics.
  ghost function Gone(mem: Mem, t: Tables, oldsz: nat, newsz: nat): nat
    requires Inside(mem, t)
  {
    Leading(mem, t, Pages(newsz), Asked(oldsz, newsz), true)
  }

  lemma GoneIs(mem: Mem, t: Tables, oldsz: nat, newsz: nat)
    requires Inside(mem, t)
    ensures Gone(mem, t, oldsz, newsz) == Leading(mem, t, Pages(newsz), Asked(oldsz, newsz), true)
    ensures Gone(mem, t, oldsz, newsz) <= Asked(oldsz, newsz)
  {
  }

  /** With the pages before n there to be freed and none from n to top, uvmdealloc panics exactly
      when it has a page unmapped and reaches past page n.  Only what lies above top is left open,
      so with top at MAXVA the sizes can be any. */
  lemma DeallocPanicsIff(mem: Mem, t: Tables, n: nat, top: nat, oldsz: nat, newsz: nat)
    requires Inside(mem, t) && n < top <= MAXVPN
    requires forall x: nat :: x < top ==> (Removable(mem, t, x, true) <==> x < n)
    requires top == MAXVPN || Pages(newsz) <= n || Pages(newsz) + Asked(oldsz, newsz) <= top
    ensures var k := Asked(oldsz, newsz);
      Gone(mem, t, oldsz, newsz) < k <==> k > 0 && n < Pages(newsz) + k
  {
    var lo, k := Pages(newsz), Gone(mem, t, oldsz, newsz);
    NotPast(mem, t);
    hide Removable, Pages, Asked;
    assert Removable(mem, t, lo + k, true) ==> lo + k < n || top <= lo + k;
    assert !Removable(mem, t, n, true);
    assert lo < top ==> (Removable(mem, t, lo, true) <==> lo < n);
  }

  lemma NotPast(mem: Mem, t: Tables)
    requires Inside(mem, t)
    ensures forall a: nat :: a >= MAXVPN ==> !Removable(mem, t, a, true)
  {
  }

  // One such input: a table without user pages, asked to shrink from one page to none.
  lemma DeallocPastSizePanics()
    ensures var mem, t := map[1 := Zeros()], Tables(1, map[], map[]);
      Wf(mem, t) && Inside(mem, t) && Gone(mem, t, 4096, 0) < Asked(4096, 0) == 1
  {
    var mem, t := map[1 := Zeros()], Tables(1, map[], map[]);
    assert forall n :: t.Has(n) ==> n == Root;
    DeallocPanicsIff(mem, t, 0, 1, 4096, 0);
  }

  // The number of pages that shrinking from oldsz to newsz gives up.
  function Freed(oldsz: nat, newsz: nat): nat {
    if newsz < oldsz then Pages(oldsz) - Pages(newsz) else 0
  }

  lemma FreedIs(oldsz: nat, newsz: nat)
    ensures newsz >= oldsz ==> Freed(oldsz, newsz) == 0
    ensures newsz < oldsz ==> Freed(oldsz, newsz) == Pages(oldsz) - Pages(newsz) >= 0
  {
  }

  // n pages from lo on are mapped to distinct frames that are not free.
  ghost predicate Mapped(mem: Mem, fs: set<nat>, t: Tables, lo: nat, n: nat)
    requires Inside(mem, t)
  {
    && (forall x: nat :: lo <= x < lo + n ==> Entry(mem, t, x).f.v)
    && Freeable(mem, t, lo, n) && LeafFrames(mem, t, lo, n) !! fs
  }

  lemma MappedIs(mem: Mem, fs: set<nat>, t: Tables, lo: nat, n: nat)
    requires Inside(mem, t) && Mapped(mem, fs, t, lo, n)
    ensures forall x: nat :: lo <= x < lo + n ==> Entry(mem, t, x).f.v
    ensures Freeable(mem, t, lo, n) && LeafFrames(mem, t, lo, n) !! fs
  {
  }

  lemma MappedLeads(mem: Mem, fs: set<nat>, t: Tables, lo: nat, n: nat)
    requires Inside(mem, t) && Mapped(mem, fs, t, lo, n) && (n > 0 ==> lo + n <= MAXVPN)
    ensures Leading(mem, t, lo, n, true) == n && Releasable(mem, fs, t, lo, n)
  {
    LeadingAll(mem, t, lo, n, true);
  }

  lemma MappedGone(mem: Mem, fs: set<nat>, t: Tables, oldsz: nat, newsz: nat)
    requires Inside(mem, t) && Mapped(mem, fs, t, Pages(newsz), Freed(oldsz, newsz))
    requires newsz < oldsz ==> Pages(oldsz) <= MAXVPN
    ensures Gone(mem, t, oldsz, newsz) == Asked(oldsz, newsz) == Freed(oldsz, newsz)
    ensures newsz < oldsz ==> oldsz < 0x1_0000_0000_0000_0000
    ensures Releasable(mem, fs, t, Pages(newsz), Freed(oldsz, newsz))
  {
    PagesFacts(newsz, oldsz);
    FreedIs(oldsz, newsz);
    AskedIs(oldsz, newsz);
    MappedLeads(mem, fs, t, Pages(newsz), Freed(oldsz, newsz));
  }

  lemma GrewMapped(mem: Mem, fs: set<nat>, t: Tables, mem1: Mem, fs1: set<nat>, t1: Tables,
                   lo: nat, pages: seq<Page>)
    requires Grew(mem, fs, t, mem1, fs1, t1, lo, pages)
    requires forall i :: 0 <= i < |pages| ==> pages[i].f.v
    ensures Inside(mem1, t1) && Mapped(mem1, fs1, t1, lo, |pages|)
  {
    forall x: nat | lo <= x < lo + |pages| ensures Entry(mem1, t1, x).f.v {
      assert PageAt(mem1, t1, lo, pages, x);
    }
  }

  // Growing and then unmapping what was added leaves every translation as it was, and every
  // frame that did not become a table page free again.
  lemma GrewUndone(mem: Mem, fs: set<nat>, t: Tables, mem1: Mem, fs1: set<nat>, t1: Tables,
                   mem2: Mem, fs2: set<nat>, lo: nat, pages: seq<Page>)
    requires Grew(mem, fs, t, mem1, fs1, t1, lo, pages)
    requires Unmapped(mem1, fs1, mem2, fs2, t1, lo, |pages|, true)
    requires forall x: nat :: lo <= x < lo + |pages| ==> Entry(mem, t, x) == ZERO
    ensures Grew(mem, fs, t, mem2, fs2, t1, lo, [])
  {
    assert LeafFrames(mem2, t1, lo, 0) == {};
    hide LeafFrames, Tables.Frames;
  }

  function Repeat(p: Page, n: nat): (s: seq<Page>)
    ensures |s| == n && forall i :: 0 <= i < n ==> s[i] == p
  {
    if n == 0 then [] else Repeat(p, n - 1) + [p]
  }

  lemma GrewApart(mem: Mem, fs: set<nat>, t: Tables, mem1: Mem, fs1: set<nat>, t1: Tables,
                  lo: nat, pages: seq<Page>)
    requires Grew(mem, fs, t, mem1, fs1, t1, lo, pages)
    ensures Inside(mem, t) && Inside(mem1, t1)
    ensures Entry(mem1, t1, lo + |pages|) == Entry(mem, t, lo + |pages|)
  {
  }

  lemma HoldsApart(m: PhysMem, t: Tables)
    requires m.Holds(t)
    ensures t.Frames() !! m.FreeSet() && Inside(m.mem, t)
  {
    WfIn(m.mem, t);
  }

  function UserRights(xperm: Flags): Flags { xperm.(v := true, r := true, u := true) }

  // PTE_R | PTE_U | xperm, and PTE_V from mappages.
  lemma UserRightsLeaf(xperm: Flags)
    ensures UserRights(xperm).v && IsLeaf(UserRights(xperm)) && UserRights(xperm).u
  {
  }

  // uvmalloc's way out: uvmdealloc back to where it began.
  method UndoAlloc(m: PhysMem, root: nat, lo: nat, a: nat, ghost mem0: Mem, ghost fs0: set<nat>,
                   ghost t0: Tables, ghost t: Tables, ghost p: Page)
    requires m.Valid() && m.Holds(t) && root == t.root && lo <= a && (a > lo ==> a <= MAXVPN) && p.f.v
    requires Grew(mem0, fs0, t0, m.mem, m.FreeSet(), t, lo, Repeat(p, a - lo)) && Inside(mem0, t0)
    requires forall x: nat :: lo <= x < a ==> Entry(mem0, t0, x) == ZERO
    modifies m
    ensures m.Valid() && m.Holds(t) && Grew(mem0, fs0, t0, m.mem, m.FreeSet(), t, lo, [])
  {
    hide *;
    ghost var mem1, fs1 := m.mem, m.FreeSet();
    GrewMapped(mem0, fs0, t0, mem1, fs1, t, lo, Repeat(p, a - lo));
    FreedPages(a, lo);
    var oldsz, newsz := a * PGSIZE, lo * PGSIZE;
    MappedGone(m.mem, m.FreeSet(), t, oldsz, newsz);
    var panicked, r := UvmDealloc(m, root, oldsz, newsz, t);
    assert !panicked;
    GrewUndone(mem0, fs0, t0, mem1, fs1, t, m.mem, m.FreeSet(), lo, Repeat(p, a - lo));
  }

  /** uvmalloc: either every page up to newsz is mapped, zeroed and with the given rights, in
      frames that were free, or nothing is mapped and no frame is lost.  It fails only for lack
      of memory.  The pages it can reach before memory runs out must be unmapped. */
  method UvmAlloc(m: PhysMem, root: nat, oldsz: nat, newsz: nat, xperm: Flags, ghost t: Tables)
    returns (r: nat, ghost ok: bool, ghost t': Tables)
    requires m.Valid() && m.Holds(t) && root == t.root && Inside(m.mem, t)
    requires Pages(newsz) <= MAXVPN || Pages(oldsz) + |m.free| <= MAXVPN || newsz <= oldsz
    requires forall x: nat :: Pages(oldsz) <= x < Pages(oldsz) + |m.free| && x < Pages(newsz) ==>
      Entry(m.mem, t, x) == ZERO
    modifies m
    ensures m.Valid() && m.Holds(t') && t'.root == root
    ensures newsz < oldsz ==> r == oldsz && ok && t' == t && m.mem == old(m.mem) && m.free == old(m.free)
    ensures newsz < oldsz ==> m.FreeSet() == old(m.FreeSet())
    ensures newsz >= oldsz ==> r == if ok then newsz else 0
    ensures newsz >= oldsz ==>
      Grew(old(m.mem), old(m.FreeSet()), t, m.mem, m.FreeSet(), t', Pages(oldsz),
           if ok then Repeat(Page(UserRights(xperm), Zeros()), Freed(newsz, oldsz)) else [])
    ensures newsz >= oldsz && |old(m.free)| >= 3 * Freed(newsz, oldsz) ==> ok
    ensures newsz >= oldsz && ok ==> |old(m.free)| <= |m.free| + 3 * Freed(newsz, oldsz)
  {
    hide *;
    t', ok := t, true;
    if newsz < oldsz {
      return oldsz, true, t;
    }
    PagesFacts(oldsz, newsz);
    PagesFacts(newsz, newsz);
    FreedMore(newsz, oldsz);
    UserRightsLeaf(xperm);
    var lo := Pages(oldsz);
    ghost var p := Page(UserRights(xperm), Zeros());
    var a := lo;
    GrewNone(m.mem, m.FreeSet(), t, lo);
    assert Repeat(p, 0) == [];
    while a * PGSIZE < newsz
      invariant lo <= a <= Pages(newsz) && m.Valid() && m.Holds(t') && t'.root == root
      invariant Grew(old(m.mem), old(m.FreeSet()), t, m.mem, m.FreeSet(), t', lo, Repeat(p, a - lo))
      invariant a > lo ==> a <= MAXVPN
      invariant a - lo + |m.free| <= |old(m.free)| <= 3 * (a - lo) + |m.free|
    {
      ghost var mem1, fs1, t1, pages := m.mem, m.FreeSet(), t', Repeat(p, a - lo);
      PagesReached(a, newsz);
      HoldsApart(m, t');
      GrewApart(old(m.mem), old(m.FreeSet()), t, mem1, fs1, t1, lo, pages);
      var done;
      done, t' := MapFresh(m, root, a, Page(UserRights(xperm), Zeros()), t');
      if !done {
        GrewStay(old(m.mem), old(m.FreeSet()), t, mem1, fs1, t1, m.mem, m.FreeSet(), t', lo, pages);
        UndoAlloc(m, root, lo, a, old(m.mem), old(m.FreeSet()), t, t', p);
        return 0, false, t';
      }
      GrewMore(old(m.mem), old(m.FreeSet()), t, mem1, fs1, t1, m.mem, m.FreeSet(), t', lo, pages, p);
      RepeatMore(p, a - lo);
      a := a + 1;
    }
    PagesReached(a, newsz);
    r := newsz;
  }

  lemma PagesReached(a: nat, newsz: nat)
    ensures a * PGSIZE < newsz <==> a < Pages(newsz)
  {
  }

  lemma RepeatMore(p: Page, n: nat)
    ensures Repeat(p, n + 1) == Repeat(p, n) + [p]
  {
  }

  lemma FreedMore(newsz: nat, oldsz: nat)
    requires newsz >= oldsz
    ensures Freed(newsz, oldsz) == Pages(newsz) - Pages(oldsz) >= 0
  {
  }

  lemma FreedPages(a: nat, lo: nat)
    requires lo <= a
    ensures Freed(a * PGSIZE, lo * PGSIZE) == a - lo
    ensures Pages(lo * PGSIZE) == lo && Pages(a * PGSIZE) == a
    ensures 0 <= lo * PGSIZE <= a * PGSIZE
  {
  }

  // ---------- reading an entry ----------

  // walk without alloc and the load that follows it; a missing bottom page reads as no entry.
  method Load(m: PhysMem, root: nat, vpn: nat, ghost t: Tables) returns (found: bool, pte: Word)
    requires m.Valid() && m.Holds(t) && root == t.root && vpn < MAXVPN
    modifies m
    ensures m.mem == old(m.mem) && m.free == old(m.free) && m.Valid()
    ensures m.FreeSet() == old(m.FreeSet()) && forall x :: old(m.Holds(x)) ==> m.Holds(x)
    ensures Inside(m.mem, t) && found == (vpn / 512 in t.low)
    ensures pte == if found then Entry(m.mem, t, vpn) else ZERO
    ensures pte == Entry(m.mem, t, vpn)
  {
    HoldsApart(m, t);
    hide Wf, Chain, Distinct, Tables.Frames;
    var f;
    ghost var t1;
    found, f, t1 := m.Walk(root, vpn, false, t);
    pte := if found then m.mem[f][vpn % 512] else ZERO;
  }

  /** walkaddr: the user-visible translation of a page, or 0. */
  method WalkAddr(m: PhysMem, root: nat, vpn: nat, ghost t: Tables) returns (ppn: nat)
    requires m.Valid() && m.Holds(t) && root == t.root && Inside(m.mem, t)
    modifies m
    ensures m.mem == old(m.mem) && m.free == old(m.free) && m.Valid()
    ensures m.FreeSet() == old(m.FreeSet()) && forall x :: old(m.Holds(x)) ==> m.Holds(x)
    ensures var e := Entry(old(m.mem), t, vpn);
      ppn == if vpn < MAXVPN && e.f.v && e.f.u then e.ppn else 0
  {
    if vpn >= MAXVPN {
      return 0;
    }
    hide *;
    var found, pte := Load(m, root, vpn, t);
    if !found || !pte.f.v || !pte.f.u {
      return 0;
    }
    ppn := pte.ppn;
  }

  /** uvmclear: user access to one page is withdrawn, all else stays. */
  method UvmClear(m: PhysMem, root: nat, vpn: nat, ghost t: Tables)
    requires m.Valid() && m.Holds(t) && root == t.root && vpn < MAXVPN && Inside(m.mem, t)
    requires vpn / 512 in t.low
    modifies m
    ensures m.Valid() && m.Holds(t) && m.free == old(m.free) && m.FreeSet() == old(m.FreeSet())
    ensures SameOutside(old(m.mem), m.mem, t.Frames())
    ensures var e := Entry(old(m.mem), t, vpn);
      SetsEntry(old(m.mem), t, m.mem, t, vpn, e.(f := e.f.(u := false)))
  {
    if Entry(m.mem, t, vpn).f.v { EntryMeans(m.mem, t, vpn); }
    hide Wf, Chain, Distinct, Tables.Frames;
    var found, f;
    ghost var t1;
    found, f, t1 := m.Walk(root, vpn, false, t);
    var pte := m.mem[f][vpn % 512];
    m.PutEntry(f, vpn, pte.(f := pte.f.(u := false)), t);
  }

  // ---------- a whole address space ----------

  /** uvmcreate: an empty page table. */
  method UvmCreate(m: PhysMem) returns (root: nat, ghost t: Tables)
    requires m.Valid()
    modifies m
    ensures m.Valid() && (root == 0 <==> old(m.free) == [])
    ensures root == 0 ==> m.mem == old(m.mem) && m.FreeSet() == old(m.FreeSet())
    ensures root != 0 ==> t == Tables(root, map[], map[]) && m.Holds(t) && NoEntries(m.mem, t)
    ensures root != 0 ==> root in old(m.FreeSet()) && m.FreeSet() == old(m.FreeSet()) - {root}
    ensures root != 0 ==> SameOutside(old(m.mem), m.mem, {root}) && |m.free| == |old(m.free)| - 1
  {
    root := m.Kalloc();
    t := Tables(root, map[], map[]);
    if root != 0 {
      ChainFrame(m.mem, m.mem[root := Zeros()], m.freelist, m.free);
      m.mem := m.mem[root := Zeros()];
      assert t.Frames() == {root};
      assert NodeOk(m.mem, t, Root);
      WfIn(m.mem, t);
    }
  }

  ghost predicate NoEntries(mem: Mem, t: Tables) {
    Inside(mem, t) && forall x: nat :: Entry(mem, t, x) == ZERO
  }

  lemma ClearedAll(mem: Mem, t: Tables, mem': Mem, n: nat)
    requires ClearsRange(mem, t, mem', 0, n) && forall x: nat :: x >= n ==> !Entry(mem, t, x).f.v
    ensures NoLeaves(mem', t)
  {
  }

  /** uvmfree: the pages, the page tables and nothing else become free. */
  method UvmFree(m: PhysMem, root: nat, sz: nat, ghost t: Tables)
    requires m.Valid() && m.Holds(t) && root == t.root && 0 !in t.Frames()
    requires Pages(sz) <= MAXVPN && Inside(m.mem, t) && Mapped(m.mem, m.FreeSet(), t, 0, Pages(sz))
    requires forall x: nat :: x >= Pages(sz) ==> !Entry(m.mem, t, x).f.v
    modifies m
    ensures m.Valid()
    ensures m.FreeSet() == old(m.FreeSet()) + t.Frames() + LeafFrames(old(m.mem), t, 0, Pages(sz))
    ensures SameOutside(old(m.mem), m.mem, t.Frames() + LeafFrames(old(m.mem), t, 0, Pages(sz)))
  {
    hide *;
    UnmappedNone(m.mem, m.FreeSet(), t, 0, true);
    NoPages(sz);
    MappedIs(m.mem, m.FreeSet(), t, 0, Pages(sz));
    MappedLeads(m.mem, m.FreeSet(), t, 0, Pages(sz));
    VpnFits(0, Pages(sz));
    if sz > 0 {
      var panicked := m.Unmap(root, 0, Pages(sz), true, t);
      assert !panicked;
    }
    UnmappedDone(old(m.mem), old(m.FreeSet()), m.mem, m.FreeSet(), t, 0, Pages(sz), true);
    ClearedAll(old(m.mem), t, m.mem, Pages(sz));
    ghost var mem1 := m.mem;
    HasRoot(t);
    Freewalk(m, root, t, Root);
    SubRoot(t);
    OutsideTrans(old(m.mem), mem1, m.mem, t.Frames() + LeafFrames(old(m.mem), t, 0, Pages(sz)), t.Frames());
  }

  lemma VpnFits(vpn: nat, n: nat)
    requires vpn + n <= MAXVPN
    ensures vpn < MAXPAGES && Span(vpn, n) == n
  {
    SpanIs(vpn, n);
  }

  lemma NoPages(sz: nat)
    ensures sz == 0 ==> Pages(sz) == 0
  {
  }

  lemma HasRoot(t: Tables)
    ensures t.Has(Root) && t.At(Root) == t.root
  {
  }

  lemma SubRoot(t: Tables)
    ensures Sub(t, Root) == t.Frames()
  {
  }

  lemma OutsideTrans(mem: Mem, mem1: Mem, mem2: Mem, a: set<nat>, b: set<nat>)
    requires SameOutside(mem, mem1, a) && SameOutside(mem1, mem2, b) && b <= a
    ensures SameOutside(mem, mem2, a)
  {
  }

  // ---------- uvmcopy ----------

  // What fork must reproduce: rights and bytes of the first n pages.
  ghost function Copies(mem: Mem, t: Tables, n: nat): (s: seq<Page>)
    requires Inside(mem, t) && Freeable(mem, t, 0, n)
    ensures |s| == n && forall x :: 0 <= x < n ==> s[x].f == Entry(mem, t, x).f
    ensures forall x :: 0 <= x < n ==> s[x].data == mem[Entry(mem, t, x).ppn]
  {
    if n == 0 then []
    else Copies(mem, t, n - 1) + [Page(Entry(mem, t, n - 1).f, mem[Entry(mem, t, n - 1).ppn])]
  }

  lemma CopiesMore(mem: Mem, t: Tables, n: nat, k: nat)
    requires k < n && Inside(mem, t) && Freeable(mem, t, 0, n)
    ensures Freeable(mem, t, 0, k) && Freeable(mem, t, 0, k + 1)
    ensures FreeablePage(mem, t, Entry(mem, t, k).ppn) && Entry(mem, t, k).ppn in mem
    ensures var p := Page(Entry(mem, t, k).f, mem[Entry(mem, t, k).ppn]);
      Copies(mem, t, k + 1) == Copies(mem, t, k) + [p]
  {
  }

  lemma CopiesValid(mem: Mem, t: Tables, n: nat, k: nat, fs: set<nat>)
    requires k <= n && Inside(mem, t) && Mapped(mem, fs, t, 0, n)
    ensures Freeable(mem, t, 0, k) && forall i :: 0 <= i < k ==> Copies(mem, t, k)[i].f.v
  {
  }

  // The address space of t, of n pages, is in the memory mem' exactly what it is in mem.
  ghost predicate Preserved(mem: Mem, mem': Mem, t: Tables, n: nat) {
    && SameEntries(mem, t, mem', t)
    && forall f :: f in t.Frames() + LeafFrames(mem, t, 0, n) && f in mem ==> f in mem' && mem'[f] == mem[f]
  }

  // Growing one table leaves alone another whose frames are neither free nor its own.
  lemma OtherPreserved(mem: Mem, fs: set<nat>, t: Tables, mem': Mem, fs': set<nat>, t': Tables,
                       pages: seq<Page>, other: Tables, n: nat)
    requires Grew(mem, fs, t, mem', fs', t', 0, pages) && Wf(mem, other) && Inside(mem, other)
    requires other.Frames() !! fs + t.Frames()
    requires LeafFrames(mem, other, 0, n) !! fs + t.Frames()
    ensures Wf(mem', other) && Preserved(mem, mem', other, n) && other.Frames() !! fs'
  {
    hide Wf, LeafFrames, Tables.Frames, GrewEntries, Freeable;
    Framing(mem, mem', other);
  }

  // The next page of the parent, read while the copy is under way.
  lemma NextPage(mem: Mem, fs: set<nat>, mem': Mem, t: Tables, n: nat, k: nat)
    requires Inside(mem, t) && Mapped(mem, fs, t, 0, n) && k < n && Preserved(mem, mem', t, n)
    ensures var e := Entry(mem, t, k);
      Inside(mem', t) && Entry(mem', t, k) == e && e.f.v && e.ppn in mem && e.ppn in mem' && mem'[e.ppn] == mem[e.ppn]
  {
    LeafRangeIn(mem, t, 0, n, k);
    hide LeafFrames, Tables.Frames;
  }

  lemma EntryLeaf(mem: Mem, t: Tables, vpn: nat)
    requires Wf(mem, t) && Inside(mem, t) && Entry(mem, t, vpn).f.v
    ensures IsLeaf(Entry(mem, t, vpn).f)
  {
    EntryMeans(mem, t, vpn);
  }

  /** uvmcopy: on success the child has the parent's rights and bytes, page by page, in frames
      that were free; on failure its translations are what they were and every copied frame is
      free again.  The parent's space is untouched either way. */
  method UvmCopy(m: PhysMem, oldRoot: nat, newRoot: nat, sz: nat, ghost told: Tables, ghost tnew: Tables)
    returns (ok: bool, ghost t': Tables)
    requires m.Valid() && m.Holds(told) && m.Holds(tnew) && oldRoot == told.root && newRoot == tnew.root
    requires Pages(sz) <= MAXVPN && Inside(m.mem, told) && Inside(m.mem, tnew)
    requires Mapped(m.mem, m.FreeSet(), told, 0, Pages(sz))
    requires told.Frames() + LeafFrames(m.mem, told, 0, Pages(sz)) !! tnew.Frames()
    requires forall x: nat :: x < Pages(sz) ==> Entry(m.mem, tnew, x) == ZERO
    modifies m
    ensures m.Valid() && m.Holds(told) && m.Holds(t') && t'.root == newRoot
    ensures Grew(old(m.mem), old(m.FreeSet()), tnew, m.mem, m.FreeSet(), t', 0,
                 if ok then Copies(old(m.mem), told, Pages(sz)) else [])
    ensures Preserved(old(m.mem), m.mem, told, Pages(sz))
    ensures |old(m.free)| >= 3 * Pages(sz) ==> ok
  {
    ghost var n := Pages(sz);
    t', ok := tnew, true;
    hide *;
    CopyStart(m, told, tnew, n);
    PagesFacts(sz, sz);
    var i := 0;
    while i * PGSIZE < sz
      invariant 0 <= i <= n && t'.root == newRoot
      invariant CopyState(m, told, tnew, t', n, i, old(m.mem), old(m.FreeSet()))
      invariant |old(m.free)| <= 3 * i + |m.free|
    {
      PagesReached(i, sz);
      ok, t' := CopyPage(m, oldRoot, newRoot, i, n, told, tnew, t', old(m.mem), old(m.FreeSet()));
      if !ok {
        return false, t';
      }
      i := i + 1;
    }
    PagesReached(i, sz);
    CopyStateIs(m, told, tnew, t', n, i, old(m.mem), old(m.FreeSet()));
  }

  lemma CopyStart(m: PhysMem, told: Tables, tnew: Tables, n: nat)
    requires m.Valid() && m.Holds(told) && m.Holds(tnew) && Inside(m.mem, told) && Inside(m.mem, tnew)
    requires Mapped(m.mem, m.FreeSet(), told, 0, n)
    requires told.Frames() + LeafFrames(m.mem, told, 0, n) !! tnew.Frames()
    requires forall x: nat :: x < n ==> Entry(m.mem, tnew, x) == ZERO
    ensures CopyState(m, told, tnew, tnew, n, 0, m.mem, m.FreeSet())
  {
    GrewNone(m.mem, m.FreeSet(), tnew, 0);
    hide Wf, LeafFrames, Tables.Frames, Grew;
  }

  // One turn of uvmcopy's loop; with failure, the way out through uvmunmap as well.
  method CopyPage(m: PhysMem, oldRoot: nat, newRoot: nat, i: nat, ghost n: nat, ghost told: Tables,
                  ghost tnew: Tables, ghost t: Tables, ghost mem0: Mem, ghost fs0: set<nat>)
    returns (ok: bool, ghost t': Tables)
    requires CopyState(m, told, tnew, t, n, i, mem0, fs0) && i < n <= MAXVPN
    requires oldRoot == told.root && newRoot == t.root
    modifies m
    ensures m.Valid() && m.Holds(told) && m.Holds(t') && t'.root == newRoot
    ensures CopyFits(told, tnew, n, mem0, fs0)
    ensures ok ==> CopyState(m, told, tnew, t', n, i + 1, mem0, fs0)
    ensures !ok ==> Grew(mem0, fs0, tnew, m.mem, m.FreeSet(), t', 0, []) && Preserved(mem0, m.mem, told, n)
    ensures if ok then |old(m.free)| <= 3 + |m.free| else |old(m.free)| <= 2
  {
    hide *;
    ghost var mem1, fs1 := m.mem, m.FreeSet();
    CopyStateIs(m, told, tnew, t, n, i, mem0, fs0);
    CopyRead(m, told, tnew, t, n, i, mem0, fs0);
    HoldsApart(m, t);
    var found, pte := Load(m, oldRoot, i, told);
    ok, t' := MapFresh(m, newRoot, i, Page(pte.f, m.mem[pte.ppn]), t);
    if ok {
      CopiesMore(mem0, told, n, i);
      GrewMore(mem0, fs0, tnew, mem1, fs1, t, m.mem, m.FreeSet(), t', 0, Copies(mem0, told, i),
               Page(pte.f, mem0[pte.ppn]));
      CopyNext(m, told, tnew, t', n, i + 1, mem0, fs0);
    } else {
      GrewStay(mem0, fs0, tnew, mem1, fs1, t, m.mem, m.FreeSet(), t', 0, Copies(mem0, told, i));
      CopyNext(m, told, tnew, t', n, i, mem0, fs0);
      UndoCopy(m, newRoot, i, n, told, tnew, t', mem0, fs0);
    }
  }

  // uvmcopy's way out.
  method UndoCopy(m: PhysMem, newRoot: nat, i: nat, ghost n: nat, ghost told: Tables, ghost tnew: Tables,
                  ghost t: Tables, ghost mem0: Mem, ghost fs0: set<nat>)
    requires CopyState(m, told, tnew, t, n, i, mem0, fs0) && i < n <= MAXVPN && newRoot == t.root
    modifies m
    ensures CopyFits(told, tnew, n, mem0, fs0)
    ensures m.Valid() && m.Holds(told) && m.Holds(t)
    ensures Grew(mem0, fs0, tnew, m.mem, m.FreeSet(), t, 0, []) && Preserved(mem0, m.mem, told, n)
  {
    hide *;
    ghost var mem1, fs1 := m.mem, m.FreeSet();
    CopyStateIs(m, told, tnew, t, n, i, mem0, fs0);
    CopiesValid(mem0, told, n, i, fs0);
    GrewMapped(mem0, fs0, tnew, mem1, fs1, t, 0, Copies(mem0, told, i));
    MappedIs(mem1, fs1, t, 0, i);
    MappedLeads(mem1, fs1, t, 0, i);
    VpnFits(0, i);
    var panicked := m.Unmap(newRoot, 0, i, true, t);
    assert !panicked;
    GrewUndone(mem0, fs0, tnew, mem1, fs1, t, m.mem, m.FreeSet(), 0, Copies(mem0, told, i));
    CopyOther(m, told, tnew, t, n, [], mem0, fs0);
  }

  ghost predicate CopyFits(told: Tables, tnew: Tables, n: nat, mem0: Mem, fs0: set<nat>) {
    && Wf(mem0, told) && Inside(mem0, told) && Inside(mem0, tnew) && Mapped(mem0, fs0, told, 0, n)
    && told.Frames() + LeafFrames(mem0, told, 0, n) !! fs0 + tnew.Frames()
    && forall x: nat :: x < n ==> Entry(mem0, tnew, x) == ZERO
  }

  ghost predicate CopyState(m: PhysMem, told: Tables, tnew: Tables, t: Tables, n: nat, i: nat,
                            mem0: Mem, fs0: set<nat>)
    reads m
  {
    && CopyFits(told, tnew, n, mem0, fs0) && i <= n && m.Valid() && m.Holds(told) && m.Holds(t)
    && Freeable(mem0, told, 0, i)
    && Grew(mem0, fs0, tnew, m.mem, m.FreeSet(), t, 0, Copies(mem0, told, i))
    && Preserved(mem0, m.mem, told, n)
  }

  lemma CopyStateIs(m: PhysMem, told: Tables, tnew: Tables, t: Tables, n: nat, i: nat,
                    mem0: Mem, fs0: set<nat>)
    requires CopyState(m, told, tnew, t, n, i, mem0, fs0)
    ensures CopyFits(told, tnew, n, mem0, fs0) && i <= n
    ensures Inside(mem0, told) && Inside(mem0, tnew) && Mapped(mem0, fs0, told, 0, n)
    ensures forall x: nat :: x < n ==> Entry(mem0, tnew, x) == ZERO
    ensures m.Valid() && m.Holds(told) && m.Holds(t) && Freeable(mem0, told, 0, i) && Freeable(mem0, told, 0, n)
    ensures Grew(mem0, fs0, tnew, m.mem, m.FreeSet(), t, 0, Copies(mem0, told, i))
    ensures Preserved(mem0, m.mem, told, n)
  {
  }

  lemma CopyRead(m: PhysMem, told: Tables, tnew: Tables, t: Tables, n: nat, i: nat,
                 mem0: Mem, fs0: set<nat>)
    requires CopyState(m, told, tnew, t, n, i, mem0, fs0) && i < n && Inside(mem0, told)
    ensures Inside(m.mem, t) && Entry(m.mem, t, i) == ZERO && Inside(m.mem, told)
    ensures var e := Entry(mem0, told, i);
      && Entry(m.mem, told, i) == e && e.f.v && IsLeaf(e.f)
      && e.ppn in mem0 && e.ppn in m.mem && m.mem[e.ppn] == mem0[e.ppn]
  {
    hide Wf, LeafFrames, Tables.Frames, Freeable;
    NextPage(mem0, fs0, m.mem, told, n, i);
    EntryLeaf(mem0, told, i);
    HoldsApart(m, t);
    GrewApart(mem0, fs0, tnew, m.mem, m.FreeSet(), t, 0, Copies(mem0, told, i));
  }

  lemma CopyOther(m: PhysMem, told: Tables, tnew: Tables, t: Tables, n: nat, pages: seq<Page>,
                  mem0: Mem, fs0: set<nat>)
    requires CopyFits(told, tnew, n, mem0, fs0) && Grew(mem0, fs0, tnew, m.mem, m.FreeSet(), t, 0, pages)
    ensures m.Holds(told) && Preserved(mem0, m.mem, told, n)
  {
    hide Wf, LeafFrames, Tables.Frames, Freeable, Grew, Mapped;
    OtherPreserved(mem0, fs0, tnew, m.mem, m.FreeSet(), t, pages, told, n);
  }

  lemma CopyNext(m: PhysMem, told: Tables, tnew: Tables, t: Tables, n: nat, i: nat,
                 mem0: Mem, fs0: set<nat>)
    requires CopyFits(told, tnew, n, mem0, fs0) && i <= n && m.Valid() && m.Holds(t)
    requires Inside(mem0, told) && Freeable(mem0, told, 0, i)
    requires Grew(mem0, fs0, tnew, m.mem, m.FreeSet(), t, 0, Copies(mem0, told, i))
    ensures CopyState(m, told, tnew, t, n, i, mem0, fs0)
  {
    CopyOther(m, told, tnew, t, n, Copies(mem0, told, i), mem0, fs0);
  }
}
