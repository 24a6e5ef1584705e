/**
 The K&R allocator of user/umalloc.c.  An address counts units of sizeof(Header); `hdr` is
 the memory read as headers.  The ghost list `fl` is the free list from `base` onwards,
 `alloc` the blocks handed out, and `owned` the units sbrk has returned.
*/
module Umalloc {

  const BASE := 1          // &base, below the heap; 0 is the null pointer
  const MINUNITS := 4096   // morecore's minimum
  const MAXUNITS := 0x800_0000  // from here on nu * sizeof(Header) does not fit sbrk's int

  datatype Header = Header(ptr: nat, size: nat)
  datatype Block = Block(addr: nat, size: nat)
  datatype Sbrk = Fails | Returns(p: nat)

  function Succ(i: nat, n: nat): nat { if i + 1 == n then 0 else i + 1 }

  ghost predicate Gap(fl: seq<Block>, i: nat)
    requires i + 1 < |fl|
  {
    fl[i].addr + fl[i].size < fl[i + 1].addr
  }

  // Address order, starting at base, with a gap after every block: no two touch.
  ghost predicate Ordered(fl: seq<Block>) {
    && fl != [] && fl[0] == Block(BASE, 0)
    && (forall i :: 1 <= i < |fl| ==> fl[i].size > 0)
    && (forall i :: 0 <= i < |fl| - 1 ==> Gap(fl, i))
  }

  ghost predicate RingLink(hdr: map<nat, Header>, fl: seq<Block>, i: nat)
    requires i < |fl|
  {
    fl[i].addr in hdr && hdr[fl[i].addr] == Header(fl[Succ(i, |fl|)].addr, fl[i].size)
  }

  // The headers form one cycle through fl that wraps once.
  ghost predicate Ring(hdr: map<nat, Header>, fl: seq<Block>) {
    forall i :: 0 <= i < |fl| ==> RingLink(hdr, fl, i)
  }

  ghost predicate InBlock(b: Block, u: nat) { b.addr <= u < b.addr + b.size }

  ghost predicate FreeUnit(fl: seq<Block>, u: nat) {
    exists i :: 0 <= i < |fl| && InBlock(fl[i], u)
  }

  ghost predicate UsedUnit(alloc: map<nat, nat>, u: nat) {
    exists a :: a in alloc && InBlock(Block(a, alloc[a]), u)
  }

  // Every unit from sbrk is in exactly one block, and blocks hold nothing else.
  ghost predicate Partition(fl: seq<Block>, alloc: map<nat, nat>, owned: set<nat>) {
    && (forall u: nat :: u in owned <==> FreeUnit(fl, u) || UsedUnit(alloc, u))
    && (forall u: nat :: !(FreeUnit(fl, u) && UsedUnit(alloc, u)))
    && (forall a, b, u: nat :: a in alloc && b in alloc && a != b ==>
        !(InBlock(Block(a, alloc[a]), u) && InBlock(Block(b, alloc[b]), u)))
  }

  ghost predicate Headers(hdr: map<nat, Header>, alloc: map<nat, nat>) {
    forall a :: a in alloc ==> a in hdr && hdr[a].size == alloc[a] > 0
  }

  // ---------- free, on the list ----------

  // fl[k] is the block b goes behind.
  ghost predicate Place(fl: seq<Block>, k: nat, b: nat) {
    k < |fl| && fl[k].addr < b && (k + 1 < |fl| ==> b < fl[k + 1].addr)
  }

  function JoinsNext(fl: seq<Block>, k: nat, b: Block): bool
    requires k < |fl|
  {
    k + 1 < |fl| && b.addr + b.size == fl[k + 1].addr
  }

  function WithNext(fl: seq<Block>, k: nat, b: Block): Block
    requires k < |fl|
  {
    if JoinsNext(fl, k, b) then Block(b.addr, b.size + fl[k + 1].size) else b
  }

  function Behind(fl: seq<Block>, k: nat, b: Block): seq<Block>
    requires k < |fl|
  {
    if JoinsNext(fl, k, b) then fl[k + 2..] else fl[k + 1..]
  }

  function WithPrev(fl: seq<Block>, k: nat, mid: Block): seq<Block>
    requires k < |fl|
  {
    if fl[k].addr + fl[k].size == mid.addr
    then fl[..k] + [Block(fl[k].addr, fl[k].size + mid.size)]
    else fl[..k + 1] + [mid]
  }

  // Put b behind fl[k], joining it with the neighbours it touches.
  function Release(fl: seq<Block>, k: nat, b: Block): seq<Block>
    requires k < |fl|
  {
    WithPrev(fl, k, WithNext(fl, k, b)) + Behind(fl, k, b)
  }

  // A block that overlaps no free block.
  ghost predicate Clear(fl: seq<Block>, b: Block) {
    b.size > 0 && b.addr > BASE && forall u: nat :: InBlock(b, u) ==> !FreeUnit(fl, u)
  }

  lemma ClearGaps(fl: seq<Block>, k: nat, b: Block)
    requires Ordered(fl) && Clear(fl, b) && Place(fl, k, b.addr)
    ensures fl[k].addr + fl[k].size <= b.addr
    ensures k + 1 < |fl| ==> b.addr + b.size <= fl[k + 1].addr
  {
    assert InBlock(b, b.addr) && !InBlock(fl[k], b.addr);
    if k + 1 < |fl| {
      var u := fl[k + 1].addr;
      assert InBlock(fl[k + 1], u) && !InBlock(b, u);
    }
  }

  // Free blocks in order, none of them base.
  ghost predicate Run(s: seq<Block>) {
    && (forall i :: 0 <= i < |s| ==> s[i].size > 0)
    && (forall i :: 0 <= i < |s| - 1 ==> Gap(s, i))
  }

  lemma OrderedConcat(front: seq<Block>, back: seq<Block>)
    requires Ordered(front) && Run(back)
    requires back != [] ==>
      front[|front| - 1].addr + front[|front| - 1].size < back[0].addr
    ensures Ordered(front + back)
  {
    var s := front + back;
    forall i | 0 <= i < |s| - 1 ensures Gap(s, i) {
      if i < |front| - 1 { assert Gap(front, i); }
      if i >= |front| { assert Gap(back, i - |front|); }
    }
  }

  lemma FrontOrdered(fl: seq<Block>, k: nat, mid: Block)
    requires Ordered(fl) && k < |fl| && mid.size > 0 && mid.addr > BASE
    requires fl[k].addr + fl[k].size <= mid.addr
    ensures var front := WithPrev(fl, k, mid);
      && Ordered(front)
      && front[|front| - 1].addr + front[|front| - 1].size == mid.addr + mid.size
  {
    var front := WithPrev(fl, k, mid);
    forall i | 0 <= i < |front| - 1 ensures Gap(front, i) {
      if i < k { assert Gap(fl, i); }
    }
  }

  lemma BehindRun(fl: seq<Block>, k: nat, b: Block)
    requires Ordered(fl) && k < |fl|
    ensures Run(Behind(fl, k, b))
    ensures JoinsNext(fl, k, b) && k + 2 < |fl| ==>
      fl[k + 1].addr + fl[k + 1].size < fl[k + 2].addr
  {
    var back := Behind(fl, k, b);
    var from := |fl| - |back|;
    forall i | 0 <= i < |back| - 1 ensures Gap(back, i) { assert Gap(fl, from + i); }
    if k + 2 < |fl| { assert Gap(fl, k + 1); }
  }

  lemma ReleaseOrdered(fl: seq<Block>, k: nat, b: Block)
    requires Ordered(fl) && Clear(fl, b) && Place(fl, k, b.addr)
    ensures Ordered(Release(fl, k, b))
  {
    ClearGaps(fl, k, b);
    FrontOrdered(fl, k, WithNext(fl, k, b));
    BehindRun(fl, k, b);
    hide Clear, WithPrev, Ordered, Run;
    OrderedConcat(WithPrev(fl, k, WithNext(fl, k, b)), Behind(fl, k, b)) by {
      assert k + 1 < |fl| ==> fl[k + 1].addr >= b.addr + b.size;
    }
  }

  lemma UnitsConcat(a: seq<Block>, b: seq<Block>, u: nat)
    ensures FreeUnit(a + b, u) <==> FreeUnit(a, u) || FreeUnit(b, u)
  {
    if i :| 0 <= i < |a| && InBlock(a[i], u) { assert (a + b)[i] == a[i]; }
    if i :| 0 <= i < |b| && InBlock(b[i], u) { assert (a + b)[|a| + i] == b[i]; }
  }

  lemma UnitsOne(b: Block, u: nat)
    ensures FreeUnit([b], u) <==> InBlock(b, u)
  {
    if InBlock(b, u) { assert InBlock([b][0], u); }
  }

  // Releasing b makes exactly its units free.
  lemma ReleaseUnits(fl: seq<Block>, k: nat, b: Block, u: nat)
    requires Ordered(fl) && Clear(fl, b) && Place(fl, k, b.addr)
    ensures FreeUnit(Release(fl, k, b), u) <==> FreeUnit(fl, u) || InBlock(b, u)
  {
    ClearGaps(fl, k, b);
    hide Clear, Ordered, FreeUnit;
    var mid := WithNext(fl, k, b);
    UnitsConcat(WithPrev(fl, k, mid), Behind(fl, k, b), u);
    UnitsConcat(fl[..k], fl[k..], u);
    assert fl == fl[..k] + fl[k..];
    UnitsConcat([fl[k]], fl[k + 1..], u);
    assert fl[k..] == [fl[k]] + fl[k + 1..];
    UnitsOne(fl[k], u);
    if JoinsNext(fl, k, b) {
      UnitsConcat([fl[k + 1]], fl[k + 2..], u);
      assert fl[k + 1..] == [fl[k + 1]] + fl[k + 2..];
      UnitsOne(fl[k + 1], u);
    }
    var joined := Block(fl[k].addr, fl[k].size + mid.size);
    UnitsConcat(fl[..k], [joined], u);
    UnitsOne(joined, u);
    UnitsConcat(fl[..k + 1], [mid], u);
    assert fl[..k + 1] == fl[..k] + [fl[k]];
    UnitsConcat(fl[..k], [fl[k]], u);
    UnitsOne(mid, u);
  }

  lemma {:induction false} OrderedPair(fl: seq<Block>, i: nat, j: nat)
    requires Ordered(fl) && i < j < |fl|
    ensures fl[i].addr + fl[i].size < fl[j].addr
  {
    assert Gap(fl, j - 1);
    if i + 1 < j { OrderedPair(fl, i, j - 1); }
  }

  lemma PlaceExists(fl: seq<Block>, b: nat) returns (k: nat)
    requires Ordered(fl) && b > BASE && forall i :: 0 <= i < |fl| ==> fl[i].addr != b
    ensures Place(fl, k, b)
  {
    k := 0;
    while k + 1 < |fl| && fl[k + 1].addr < b
      invariant k < |fl| && fl[k].addr < b
    {
      k := k + 1;
    }
  }

  lemma PlaceUnique(fl: seq<Block>, b: nat, i: nat, k: nat)
    requires Ordered(fl) && Place(fl, i, b) && Place(fl, k, b)
    ensures i == k
  {
    if i < k && i + 1 < k { OrderedPair(fl, i + 1, k); }
    if k < i && k + 1 < i { OrderedPair(fl, k + 1, i); }
  }

  // ---------- the headers ----------

  // The two coalescing ifs of free(), as header writes.
  function LinkIn(hdr: map<nat, Header>, p: nat, bp: nat): map<nat, Header>
    requires p in hdr && bp in hdr && hdr[p].ptr in hdr
  {
    var n := hdr[p].ptr;
    var h1 :=
      if bp + hdr[bp].size == n
      then hdr[bp := Header(hdr[n].ptr, hdr[bp].size + hdr[n].size)]
      else hdr[bp := Header(n, hdr[bp].size)];
    if p + h1[p].size == bp
    then h1[p := Header(h1[bp].ptr, h1[p].size + h1[bp].size)]
    else h1[p := Header(bp, h1[p].size)]
  }

  ghost predicate JoinsPrev(fl: seq<Block>, k: nat, b: Block)
    requires k < |fl|
  {
    fl[k].addr + fl[k].size == b.addr
  }

  // The block after b once it is released.
  function After(fl: seq<Block>, k: nat, b: Block): nat
    requires k < |fl|
  {
    Succ(if JoinsNext(fl, k, b) then k + 1 else k, |fl|)
  }

  // What the header writes of free() leave, given the three headers it reads.
  lemma LinkInWrites(hdr: map<nat, Header>, p: nat, b: nat, n: nat)
    requires p in hdr && b in hdr && n in hdr && hdr[p].ptr == n && p != b && b != n
    requires b + hdr[b].size == n ==> n != p
    ensures var h := LinkIn(hdr, p, b);
      var mid := if b + hdr[b].size == n then Header(hdr[n].ptr, hdr[b].size + hdr[n].size)
                 else Header(n, hdr[b].size);
      && p in h && b in h
      && (forall x :: x in hdr && x != p && x != b ==> x in h && h[x] == hdr[x])
      && (p + hdr[p].size == b ==> h[p] == Header(mid.ptr, hdr[p].size + mid.size))
      && (p + hdr[p].size != b ==> h[p] == Header(b, hdr[p].size) && h[b] == mid)
  {
  }

  ghost predicate Linked(hdr: map<nat, Header>, h: map<nat, Header>, fl: seq<Block>, k: nat, b: Block)
    requires k < |fl|
  {
    && (forall x :: x in hdr && x != fl[k].addr && x != b.addr ==> x in h && h[x] == hdr[x])
    && fl[k].addr in h && b.addr in h
    && (JoinsPrev(fl, k, b) ==>
        h[fl[k].addr] == Header(fl[After(fl, k, b)].addr, fl[k].size + WithNext(fl, k, b).size))
    && (!JoinsPrev(fl, k, b) ==>
        && h[fl[k].addr] == Header(b.addr, fl[k].size)
        && h[b.addr] == Header(fl[After(fl, k, b)].addr, WithNext(fl, k, b).size))
  }

  lemma LinkInIs(hdr: map<nat, Header>, fl: seq<Block>, k: nat, b: Block)
    requires Ordered(fl) && Ring(hdr, fl) && Place(fl, k, b.addr)
    requires b.addr in hdr && hdr[b.addr].size == b.size > 0
    ensures fl[k].addr in hdr && hdr[fl[k].addr].ptr in hdr
    ensures Linked(hdr, LinkIn(hdr, fl[k].addr, b.addr), fl, k, b)
  {
    assert RingLink(hdr, fl, k);
    assert RingLink(hdr, fl, Succ(k, |fl|));
    if k > 0 { OrderedPair(fl, 0, k); }
    assert fl[0].addr == BASE;
    hide Ring, Ordered, LinkIn;
    LinkInWrites(hdr, fl[k].addr, b.addr, fl[Succ(k, |fl|)].addr);
  }

  lemma RingBefore(hdr: map<nat, Header>, h: map<nat, Header>, fl: seq<Block>, k: nat, b: Block, i: nat)
    requires Ordered(fl) && Ring(hdr, fl) && Place(fl, k, b.addr) && Linked(hdr, h, fl, k, b) && i < k
    ensures fl[i].addr in h && h[fl[i].addr] == Header(fl[i + 1].addr, fl[i].size)
  {
    assert RingLink(hdr, fl, i);
    OrderedPair(fl, i, k);
  }

  lemma RingBehind(hdr: map<nat, Header>, h: map<nat, Header>, fl: seq<Block>, k: nat, b: Block, j: nat)
    requires Ordered(fl) && Ring(hdr, fl) && Place(fl, k, b.addr) && Linked(hdr, h, fl, k, b)
    requires k < j < |fl|
    ensures fl[j].addr in h && h[fl[j].addr] == Header(fl[Succ(j, |fl|)].addr, fl[j].size)
  {
    assert RingLink(hdr, fl, j);
    OrderedPair(fl, k, j);
    if k + 1 < j { OrderedPair(fl, k + 1, j); }
  }

  // r is Release(fl, k, b): the first `at` blocks stay, then the released block with all it
  // joined, then what is left of fl behind it.
  ghost predicate IsRelease(r: seq<Block>, fl: seq<Block>, k: nat, b: Block, at: nat, from: nat) {
    && k < |fl| && 0 < at && from <= |fl| && |r| == at + 1 + |fl| - from
    && at == (if JoinsPrev(fl, k, b) then k else k + 1)
    && from == (if JoinsNext(fl, k, b) then k + 2 else k + 1)
    && (forall i :: 0 <= i < at ==> r[i] == fl[i])
    && (forall i :: at < i < |r| ==> r[i] == fl[i - at - 1 + from])
    && r[at] == (if JoinsPrev(fl, k, b) then Block(fl[k].addr, fl[k].size + WithNext(fl, k, b).size)
                 else WithNext(fl, k, b))
  }

  lemma FrontShape(fl: seq<Block>, k: nat, mid: Block) returns (at: nat)
    requires k < |fl|
    ensures at == (if fl[k].addr + fl[k].size == mid.addr then k else k + 1)
    ensures |WithPrev(fl, k, mid)| == at + 1
    ensures forall i :: 0 <= i < at ==> WithPrev(fl, k, mid)[i] == fl[i]
    ensures WithPrev(fl, k, mid)[at] ==
      if at == k then Block(fl[k].addr, fl[k].size + mid.size) else mid
  {
    at := if fl[k].addr + fl[k].size == mid.addr then k else k + 1;
  }

  lemma ReleaseShape(fl: seq<Block>, k: nat, b: Block) returns (at: nat, from: nat)
    requires Ordered(fl) && Place(fl, k, b.addr)
    ensures IsRelease(Release(fl, k, b), fl, k, b, at, from)
  {
    from := if JoinsNext(fl, k, b) then k + 2 else k + 1;
    var mid := WithNext(fl, k, b);
    assert fl[0] == Block(BASE, 0) && mid.addr == b.addr;
    at := FrontShape(fl, k, mid);
    assert Behind(fl, k, b) == fl[from..];
    hide Ordered, WithPrev, Behind, WithNext;
  }

  // The links at and after the released block.
  lemma RingAtBlock(h: map<nat, Header>, hdr: map<nat, Header>, fl: seq<Block>, r: seq<Block>,
                    k: nat, b: Block, at: nat, from: nat, i: nat)
    requires k < |fl| && k <= i <= at && Linked(hdr, h, fl, k, b) && IsRelease(r, fl, k, b, at, from)
    ensures RingLink(h, r, i)
  {
    assert r[0].addr == fl[0].addr;
  }

  lemma RingReleaseAt(hdr: map<nat, Header>, h: map<nat, Header>, fl: seq<Block>, r: seq<Block>,
                      k: nat, b: Block, at: nat, from: nat, i: nat)
    requires Ordered(fl) && Ring(hdr, fl) && Place(fl, k, b.addr) && i < |r|
    requires Linked(hdr, h, fl, k, b) && IsRelease(r, fl, k, b, at, from)
    ensures RingLink(h, r, i)
  {
    assert r[0].addr == fl[0].addr;
    if i < k {
      RingBefore(hdr, h, fl, k, b, i);
    } else if i > at {
      RingBehind(hdr, h, fl, k, b, i - at - 1 + from);
    } else {
      RingAtBlock(h, hdr, fl, r, k, b, at, from, i);
    }
    hide Ordered, Ring, Linked, Place;
  }

  lemma RingRelease(hdr: map<nat, Header>, fl: seq<Block>, k: nat, b: Block)
    requires Ordered(fl) && Ring(hdr, fl) && Clear(fl, b) && Place(fl, k, b.addr)
    requires b.addr in hdr && hdr[b.addr].size == b.size
    ensures fl[k].addr in hdr && hdr[fl[k].addr].ptr in hdr
    ensures Ring(LinkIn(hdr, fl[k].addr, b.addr), Release(fl, k, b))
  {
    ClearGaps(fl, k, b);
    LinkInIs(hdr, fl, k, b);
    var r, h := Release(fl, k, b), LinkIn(hdr, fl[k].addr, b.addr);
    var at, from := ReleaseShape(fl, k, b);
    hide Clear, Ordered, LinkIn, Release, IsRelease;
    forall i | 0 <= i < |r|
      ensures RingLink(h, r, i)
    {
      RingReleaseAt(hdr, h, fl, r, k, b, at, from, i);
    }
  }

  // ---------- malloc, on the list ----------

  // Blocks other than the one at i are disjoint from it.
  lemma OthersApart(fl: seq<Block>, i: nat, j: nat, u: nat)
    requires Ordered(fl) && i < |fl| && j < |fl| && i != j && InBlock(fl[i], u)
    ensures !InBlock(fl[j], u)
  {
    if i < j { OrderedPair(fl, i, j); } else { OrderedPair(fl, j, i); }
  }

  function Without(fl: seq<Block>, i: nat): seq<Block>
    requires i < |fl|
  {
    fl[..i] + fl[i + 1..]
  }

  lemma WithoutKeeps(hdr: map<nat, Header>, fl: seq<Block>, i: nat, prev: nat)
    requires Ordered(fl) && Ring(hdr, fl) && 0 < i < |fl| && Succ(prev, |fl|) == i && prev < |fl|
    ensures Ordered(Without(fl, i)) && fl[prev].addr in hdr && fl[i].addr in hdr
    ensures Ring(hdr[fl[prev].addr := Header(hdr[fl[i].addr].ptr, hdr[fl[prev].addr].size)],
                 Without(fl, i))
    ensures forall u: nat :: FreeUnit(Without(fl, i), u) <==> FreeUnit(fl, u) && !InBlock(fl[i], u)
    ensures exists j :: 0 <= j < |Without(fl, i)| && Without(fl, i)[j].addr == fl[prev].addr
  {
    var r := Without(fl, i);
    assert RingLink(hdr, fl, prev) && RingLink(hdr, fl, i);
    var h := hdr[fl[prev].addr := Header(hdr[fl[i].addr].ptr, hdr[fl[prev].addr].size)];
    forall j | 0 <= j < |r| - 1 ensures Gap(r, j) {
      if j < i { OrderedPair(fl, j, j + 1); } else { OrderedPair(fl, j + 1, j + 2); }
      if j == i - 1 { OrderedPair(fl, j, j + 2); }
    }
    forall j | 0 <= j < |r| ensures RingLink(h, r, j) {
      var k := if j < i then j else j + 1;
      assert RingLink(hdr, fl, k) && r[j] == fl[k];
      if k != prev {
        if k < prev { OrderedPair(fl, k, prev); } else { OrderedPair(fl, prev, k); }
      }
    }
    forall u: nat ensures FreeUnit(r, u) <==> FreeUnit(fl, u) && !InBlock(fl[i], u) {
      if j :| 0 <= j < |r| && InBlock(r[j], u) {
        var k := if j < i then j else j + 1;
        assert InBlock(fl[k], u);
        OthersApart(fl, k, i, u);
      }
      if k :| 0 <= k < |fl| && InBlock(fl[k], u) && !InBlock(fl[i], u) {
        assert r[if k < i then k else k - 1] == fl[k];
      }
    }
    assert r[i - 1].addr == fl[prev].addr;
  }

  lemma ShrinkKeeps(hdr: map<nat, Header>, fl: seq<Block>, i: nat, n: nat, x: Header)
    requires Ordered(fl) && Ring(hdr, fl) && i < |fl| && 0 < n < fl[i].size
    ensures var small := Block(fl[i].addr, fl[i].size - n);
      var r := fl[i := small];
      var top := fl[i].addr + small.size;
      && fl[i].addr in hdr && Ordered(r)
      && Ring(hdr[fl[i].addr := Header(hdr[fl[i].addr].ptr, small.size)][top := x], r)
      && (forall u: nat :: FreeUnit(r, u) <==> FreeUnit(fl, u) && !InBlock(Block(top, n), u))
      && (forall u: nat :: InBlock(Block(top, n), u) ==> FreeUnit(fl, u))
  {
    var small := Block(fl[i].addr, fl[i].size - n);
    var r, top := fl[i := small], fl[i].addr + small.size;
    assert RingLink(hdr, fl, i);
    assert i > 0;
    forall j | 0 <= j < |r| - 1 ensures Gap(r, j) { assert Gap(fl, j); }
    var h := hdr[fl[i].addr := Header(hdr[fl[i].addr].ptr, small.size)][top := x];
    forall j | 0 <= j < |r| ensures RingLink(h, r, j) {
      assert RingLink(hdr, fl, j);
      if j < i { OrderedPair(fl, j, i); } else if i < j { OrderedPair(fl, i, j); }
    }
    forall u: nat
      ensures (FreeUnit(r, u) <==> FreeUnit(fl, u) && !InBlock(Block(top, n), u))
        && (InBlock(Block(top, n), u) ==> FreeUnit(fl, u))
    {
      if j :| 0 <= j < |r| && InBlock(r[j], u) {
        assert InBlock(fl[j], u);
        if InBlock(Block(top, n), u) { assert InBlock(fl[i], u); }
        if j != i { OthersApart(fl, j, i, u); }
      }
      if j :| 0 <= j < |fl| && InBlock(fl[j], u) && !InBlock(Block(top, n), u) {
        assert InBlock(r[j], u);
      }
      if InBlock(Block(top, n), u) { assert InBlock(fl[i], u); }
    }
  }

  // ---------- the partition ----------

  // Moving the units of a free block to a used one, or back.
  ghost predicate Moves(fl: seq<Block>, fl': seq<Block>, b: Block) {
    forall u: nat :: FreeUnit(fl', u) <==> FreeUnit(fl, u) && !InBlock(b, u)
  }

  lemma PartitionTake(fl: seq<Block>, fl': seq<Block>, alloc: map<nat, nat>, owned: set<nat>, b: Block)
    requires Partition(fl, alloc, owned) && Moves(fl, fl', b) && b.size > 0
    requires forall u: nat :: InBlock(b, u) ==> FreeUnit(fl, u)
    requires forall a :: a in alloc ==> alloc[a] > 0
    ensures b.addr !in alloc && Partition(fl', alloc[b.addr := b.size], owned)
  {
    assert InBlock(b, b.addr);
    if b.addr in alloc { assert InBlock(Block(b.addr, alloc[b.addr]), b.addr); }
    var alloc' := alloc[b.addr := b.size];
    forall u: nat ensures UsedUnit(alloc', u) <==> UsedUnit(alloc, u) || InBlock(b, u) {
      if a :| a in alloc && InBlock(Block(a, alloc[a]), u) { assert InBlock(Block(a, alloc'[a]), u); }
      if InBlock(b, u) { assert InBlock(Block(b.addr, alloc'[b.addr]), u); }
    }
    forall x, y, u: nat | x in alloc' && y in alloc' && x != y
      ensures !(InBlock(Block(x, alloc'[x]), u) && InBlock(Block(y, alloc'[y]), u))
    {
      if x == b.addr && InBlock(b, u) { assert !UsedUnit(alloc, u); }
      if y == b.addr && InBlock(b, u) { assert !UsedUnit(alloc, u); }
    }
  }

  lemma PartitionGive(fl: seq<Block>, fl': seq<Block>, alloc: map<nat, nat>, owned: set<nat>, a: nat)
    requires Partition(fl, alloc, owned) && a in alloc
    requires forall u: nat :: FreeUnit(fl', u) <==> FreeUnit(fl, u) || InBlock(Block(a, alloc[a]), u)
    ensures Partition(fl', alloc - {a}, owned)
  {
    var b := Block(a, alloc[a]);
    forall u: nat ensures UsedUnit(alloc - {a}, u) <==> UsedUnit(alloc, u) && !InBlock(b, u) {
      if x :| x in alloc && InBlock(Block(x, alloc[x]), u) && !InBlock(b, u) {
        assert x in alloc - {a};
      }
      if x :| x in alloc - {a} && InBlock(Block(x, (alloc - {a})[x]), u) {
        assert InBlock(Block(x, alloc[x]), u);
      }
    }
  }

  // Steps along the ring from index i to index k.
  function Steps(i: nat, k: nat, n: nat): nat
    requires i < n && k < n
  {
    if i <= k then k - i else n - i + k
  }

  function UnitsFor(nbytes: nat): nat { (nbytes + 15) / 16 + 1 }

  lemma UnitsAre(nbytes: nat)
    ensures UnitsFor(nbytes) > 0 && nbytes <= 16 * (UnitsFor(nbytes) - 1) < nbytes + 16
  {
  }

  function Request(nu: nat): nat { if nu < MINUNITS then MINUNITS else nu }

  // nu * sizeof(Header) as sbrk's int.
  function SbrkArg(nu: nat): int {
    var k := nu * 16 % 0x1_0000_0000;
    if k < 0x8000_0000 then k else k - 0x1_0000_0000
  }

  /** sbrk is asked for the bytes of the new block exactly below MAXUNITS units, which malloc passes
      from 2^31 - 31 bytes on.  From there it is asked for too few, and first of all for a negative
      number: to shrink the heap. */
  lemma SbrkArgIff(nu: nat, nbytes: nat)
    ensures SbrkArg(nu) == nu * 16 <==> nu < MAXUNITS
    ensures SbrkArg(nu) <= nu * 16 && (MAXUNITS <= nu < 2 * MAXUNITS ==> SbrkArg(nu) < 0)
    ensures Request(UnitsFor(nbytes)) < MAXUNITS <==> nbytes < 0x8000_0000 - 31
  {
    if nu < MAXUNITS {
      assert nu * 16 % 0x1_0000_0000 == nu * 16;
    } else if nu < 2 * MAXUNITS {
      assert nu * 16 % 0x1_0000_0000 == nu * 16;
    } else {
      assert nu * 16 % 0x1_0000_0000 < 0x1_0000_0000;
    }
  }

  // What sbrk promises: memory above base that it has not returned before.
  ghost predicate Grants(sbrk: Sbrk, nu: nat, owned: set<nat>) {
    sbrk.Returns? ==> sbrk.p > BASE && forall u: nat :: sbrk.p <= u < sbrk.p + nu ==> u !in owned
  }

  function Region(p: nat, nu: nat): (r: set<nat>)
    ensures forall u: nat :: u in r <==> p <= u < p + nu
  {
    if nu == 0 then {} else Region(p, nu - 1) + {p + nu - 1}
  }

  ghost predicate IsListed(fl: seq<Block>, a: nat) {
    exists i :: 0 <= i < |fl| && fl[i].addr == a
  }

  ghost predicate Placed(fl: seq<Block>, fl': seq<Block>, k: nat, b: Block, freep: nat) {
    Place(fl, k, b.addr) && fl' == Release(fl, k, b) && freep == fl[k].addr
  }

  ghost predicate AllSmall(fl: seq<Block>, n: nat) {
    forall i :: 0 <= i < |fl| ==> fl[i].size < n
  }

  lemma StartSmall(fl: seq<Block>, n: nat)
    requires n > 0
    ensures AllSmall([Block(BASE, 0)], n) && (fl == [] ==> AllSmall(fl, n))
  {
  }

  lemma OneLarge(fl: seq<Block>, i: nat, n: nat)
    requires i < |fl| && fl[i].size >= n
    ensures !AllSmall(fl, n)
  {
  }

  // malloc's walk from behind index s has reached i, and all it has passed is too small.
  ghost predicate Scan(fl: seq<Block>, s: nat, i: nat, prev: nat, n: nat) {
    && s < |fl| && i < |fl| && prev < |fl| && Succ(prev, |fl|) == i
    && forall j :: 0 <= j < |fl| && Steps(j, s, |fl|) > Steps(i, s, |fl|) ==> fl[j].size < n
  }

  lemma ScanStart(fl: seq<Block>, s: nat, n: nat)
    requires s < |fl|
    ensures Scan(fl, s, Succ(s, |fl|), s, n)
  {
  }

  lemma ScanNext(fl: seq<Block>, s: nat, i: nat, prev: nat, n: nat)
    requires Scan(fl, s, i, prev, n) && fl[i].size < n && i != s
    ensures Scan(fl, s, Succ(i, |fl|), i, n)
    ensures Steps(Succ(i, |fl|), s, |fl|) < Steps(i, s, |fl|)
  {
  }

  lemma ScanAll(fl: seq<Block>, s: nat, i: nat, prev: nat, n: nat)
    requires Scan(fl, s, i, prev, n) && fl[i].size < n && i == s
    ensures AllSmall(fl, n)
  {
    forall j | 0 <= j < |fl| ensures fl[j].size < n {
      assert j != i ==> Steps(j, s, |fl|) > Steps(i, s, |fl|);
    }
  }

  class Allocator {
    var hdr: map<nat, Header>
    var freep: nat
    ghost var fl: seq<Block>
    ghost var alloc: map<nat, nat>
    ghost var owned: set<nat>

    ghost predicate Listed()
      reads this
    {
      Ordered(fl) && Ring(hdr, fl) && IsListed(fl, freep)
    }

    ghost predicate Valid()
      reads this
    {
      if freep == 0 then fl == [] && alloc == map[] && owned == {}
      else Listed() && Headers(hdr, alloc) && Partition(fl, alloc, owned)
           && forall u :: u in owned ==> u > BASE
    }

    constructor ()
      ensures Valid() && freep == 0
    {
      hdr, freep, fl, alloc, owned := map[], 0, [], map[], {};
    }

    /** The search of free(): it always ends, at the block that bp goes behind. */
    method FindPlace(bp: nat) returns (p: nat, ghost k: nat)
      requires Listed() && bp > BASE && forall i :: 0 <= i < |fl| ==> fl[i].addr != bp
      ensures k < |fl| && Place(fl, k, bp) && p == fl[k].addr && p in hdr
    {
      k := PlaceExists(fl, bp);
      ghost var i: nat :| i < |fl| && fl[i].addr == freep;
      p := freep;
      assert RingLink(hdr, fl, i);
      if k > 0 { OrderedPair(fl, 0, k); }
      while !(bp > p && bp < hdr[p].ptr)
        invariant i < |fl| && p == fl[i].addr && RingLink(hdr, fl, i)
        decreases Steps(i, k, |fl|)
      {
        if i + 1 < |fl| { OrderedPair(fl, i, i + 1); }
        if i > 0 { OrderedPair(fl, 0, i); }
        if p >= hdr[p].ptr && (bp > p || bp < hdr[p].ptr) {
          PlaceUnique(fl, bp, i, k);
          return;
        }
        assert i != k;
        i := Succ(i, |fl|);
        assert RingLink(hdr, fl, i);
        p := hdr[p].ptr;
      }
      PlaceUnique(fl, bp, i, k);
    }

    // free() from the search on: bp becomes free, joined with the blocks it touches.
    method LinkBlock(bp: nat)
      requires Listed() && bp in hdr && Clear(fl, Block(bp, hdr[bp].size))
      modifies `hdr, `freep, `fl
      ensures Listed() && hdr.Keys == old(hdr).Keys
      ensures forall x :: x in hdr && x != bp && !IsListed(old(fl), x) ==> hdr[x] == old(hdr)[x]
      ensures forall u: nat :: FreeUnit(fl, u) <==> FreeUnit(old(fl), u) || InBlock(Block(bp, old(hdr)[bp].size), u)
      ensures freep != 0
      ensures exists k: nat :: Placed(old(fl), fl, k, Block(bp, old(hdr)[bp].size), freep)
    {
      ghost var b := Block(bp, hdr[bp].size);
      NotListed(fl, b);
      var p, k := FindPlace(bp);
      RingRelease(hdr, fl, k, b);
      ReleaseOrdered(fl, k, b);
      forall u: nat ensures FreeUnit(Release(fl, k, b), u) <==> FreeUnit(fl, u) || InBlock(b, u) {
        ReleaseUnits(fl, k, b, u);
      }
      var n := hdr[p].ptr;
      if bp + hdr[bp].size == n {
        hdr := hdr[bp := Header(hdr[n].ptr, hdr[bp].size + hdr[n].size)];
      } else {
        hdr := hdr[bp := Header(n, hdr[bp].size)];
      }
      if p + hdr[p].size == bp {
        hdr := hdr[p := Header(hdr[bp].ptr, hdr[p].size + hdr[bp].size)];
      } else {
        hdr := hdr[p := Header(bp, hdr[p].size)];
      }
      assert hdr == LinkIn(old(hdr), p, bp);
      freep := p;
      ghost var at, from := ReleaseShape(fl, k, b);
      assert Release(fl, k, b)[k].addr == p;
      if k > 0 { OrderedPair(fl, 0, k); }
      assert Placed(fl, Release(fl, k, b), k, b, freep);
      fl := Release(fl, k, b);
    }

    /** free(ap) of a block that is in use: exactly its units become free, no two free blocks
        touch, and every other block in use keeps its header. */
    method Free(ap: nat)
      requires Valid() && ap > 0 && ap - 1 in alloc
      modifies this
      ensures Valid() && alloc == old(alloc) - {ap - 1} && owned == old(owned)
      ensures forall u: nat :: FreeUnit(fl, u) <==>
        FreeUnit(old(fl), u) || InBlock(Block(ap - 1, old(alloc)[ap - 1]), u)
    {
      var bp := ap - 1;
      ghost var b := Block(bp, alloc[bp]);
      AllocClear(hdr, fl, alloc, owned, bp);
      ghost var others := alloc - {bp};
      AllocNotListed(fl, alloc, owned, others);
      LinkBlock(bp);
      PartitionGive(old(fl), fl, alloc, owned, bp);
      alloc := others;
    }

    // The part of morecore after sbrk: the new units become one free block.
    method AddBlock(hp: nat, nu: nat)
      requires Valid() && freep != 0 && hp > BASE && nu > 0
      requires forall u: nat :: InBlock(Block(hp, nu), u) ==> u !in owned
      modifies this
      ensures Valid() && freep != 0 && alloc == old(alloc) && owned == old(owned) + Region(hp, nu)
      ensures !AllSmall(fl, nu)
    {
      hide Ordered, Ring, FreeUnit, UsedUnit, Release, Place;
      ghost var b := Block(hp, nu);
      NewClear(hdr, fl, alloc, owned, b);
      NotListed(fl, b);
      AllocNotListed(fl, alloc, owned, alloc);
      RingKept(hdr, fl, hp, Header(0, nu));
      hdr := hdr[hp := Header(0, nu)];
      ghost var h, before := hdr, fl;
      LinkBlock(hp);
      PartitionGrow(before, fl, alloc, owned, b);
      ghost var k: nat :| Placed(before, fl, k, b, freep);
      ReleaseHolds(before, k, b);
      owned := owned + Region(hp, nu);
      assert Headers(hdr, alloc) by {
        forall a | a in alloc ensures a in hdr && hdr[a].size == alloc[a] > 0 { assert hdr[a] == h[a]; }
      }
      hide Partition;
    }

    /** morecore: at least 4096 units from sbrk become free; freep points before them.  When their
        bytes do not fit sbrk's int, it asks for the wrong number of them, and what the heap is
        after that is left open. */
    method Morecore(nu: nat, sbrk: Sbrk) returns (p: nat, missized: bool)
      requires Valid() && freep != 0 && 0 < nu
      requires Request(nu) < MAXUNITS ==> Grants(sbrk, Request(nu), owned)
      modifies this
      ensures missized <==> Request(nu) >= MAXUNITS
      ensures !missized ==> Valid() && alloc == old(alloc) && (p == 0 <==> sbrk.Fails?)
      ensures p == 0 && !missized ==> fl == old(fl) && owned == old(owned) && freep == old(freep) && hdr == old(hdr)
      ensures p != 0 ==> !missized && p == freep && owned == old(owned) + Region(sbrk.p, Request(nu))
      ensures p != 0 ==> !AllSmall(fl, nu)
    {
      hide Valid;
      var nu' := if nu < 4096 then 4096 else nu;
      SbrkArgIff(nu', 0);
      missized := SbrkArg(nu') != nu' * 16;
      if missized {
        return 0, true;
      }
      match sbrk
      case Fails => return 0, false;
      case Returns(hp) =>
        AddBlock(hp, nu');
        p := freep;
    }

    // A block is removed from the list whole, or its top units are.
    method Take(prevp: nat, p: nat, nunits: nat, ghost i: nat, ghost prev: nat) returns (r: nat)
      requires Valid() && freep != 0 && 0 < nunits && i < |fl| && prev < |fl|
      requires p == fl[i].addr && prevp == fl[prev].addr && Succ(prev, |fl|) == i
      requires fl[i].size >= nunits
      modifies this
      ensures Valid() && owned == old(owned) && r > 0 && r - 1 !in old(alloc)
      ensures alloc == old(alloc)[r - 1 := nunits]
      ensures Moves(old(fl), fl, Block(r - 1, nunits))
      ensures forall u: nat :: InBlock(Block(r - 1, nunits), u) ==> FreeUnit(old(fl), u)
      ensures freep == prevp != 0
    {
      assert RingLink(hdr, fl, i) && RingLink(hdr, fl, prev);
      AllocNotListed(fl, alloc, owned, alloc);
      AtLeastBase(fl, prev);
      AtLeastBase(fl, i);
      if hdr[p].size == nunits {
        WithoutKeeps(hdr, fl, i, prev);
        hdr := hdr[prevp := Header(hdr[p].ptr, hdr[prevp].size)];
        PartitionTake(fl, Without(fl, i), alloc, owned, Block(p, nunits));
        fl := Without(fl, i);
        r := p + 1;
      } else {
        var top := p + (hdr[p].size - nunits);
        ShrinkKeeps(hdr, fl, i, nunits, Header(if top in hdr then hdr[top].ptr else 0, nunits));
        hdr := hdr[p := Header(hdr[p].ptr, hdr[p].size - nunits)];
        hdr := hdr[top := Header(if top in hdr then hdr[top].ptr else 0, nunits)];
        ghost var fl' := fl[i := Block(p, fl[i].size - nunits)];
        PartitionTake(fl, fl', alloc, owned, Block(top, nunits));
        assert fl'[prev].addr == prevp;
        fl := fl';
        r := top + 1;
      }
      alloc := alloc[r - 1 := nunits];
      freep := prevp;
    }

    // The first call links base to itself.
    method Start()
      requires Valid() && freep == 0
      modifies this
      ensures Valid() && freep != 0 && fl == [Block(BASE, 0)]
      ensures alloc == old(alloc) && owned == old(owned)
    {
      hdr := hdr[BASE := Header(BASE, 0)];
      freep := BASE;
      fl := [Block(BASE, 0)];
      assert RingLink(hdr, fl, 0);
    }

    /** malloc: a new block of at least nbytes, taken from units that were free or came from
        at most one sbrk call, which is made only if no free block is large enough; or 0, when
        that call fails, and then nothing is lost.  It asks sbrk for the wrong number of bytes
        exactly when it has to ask and the number does not fit an int. */
    method Malloc(nbytes: nat, sbrk: Sbrk) returns (r: nat, grew: bool, missized: bool)
      requires Valid()
      requires Request(UnitsFor(nbytes)) < MAXUNITS ==> Grants(sbrk, Request(UnitsFor(nbytes)), owned)
      modifies this
      ensures grew <==> AllSmall(old(fl), UnitsFor(nbytes))
      ensures missized <==> grew && Request(UnitsFor(nbytes)) >= MAXUNITS
      ensures !missized ==> Valid() && freep != 0 && (r == 0 <==> grew && sbrk.Fails?)
      ensures !missized ==>
        owned == old(owned) + if grew && sbrk.Returns? then Region(sbrk.p, Request(UnitsFor(nbytes))) else {}
      ensures r == 0 && !missized ==> alloc == old(alloc)
      ensures r != 0 ==> !missized && r - 1 !in old(alloc) && alloc == old(alloc)[r - 1 := UnitsFor(nbytes)]
      ensures r != 0 ==> nbytes <= 16 * (alloc[r - 1] - 1) < nbytes + 16
    {
      hide Ordered, Ring, Headers, Partition, FreeUnit, UsedUnit, AllSmall, Grants, Request, Region, UnitsFor;
      UnitsAre(nbytes);
      var nunits := UnitsFor(nbytes);
      StartSmall(fl, nunits);
      if freep == 0 {
        Start();
      }
      grew, missized := false, false;
      var prevp := freep;
      ghost var s: nat :| s < |fl| && fl[s].addr == freep;
      ghost var prev: nat, i: nat := s, Succ(s, |fl|);
      RingNext(hdr, fl, s);
      var p := hdr[prevp].ptr;
      ScanStart(fl, s, nunits);
      ghost var start := fl;
      while true
        invariant Valid() && freep != 0 && alloc == old(alloc) && s < |fl| && fl[s].addr == freep
        invariant Scan(fl, s, i, prev, nunits) && p == fl[i].addr && prevp == fl[prev].addr
        invariant !grew ==> !missized && fl == start && owned == old(owned)
        invariant grew ==> !missized && Request(nunits) < MAXUNITS && sbrk.Returns?
        invariant grew ==> owned == old(owned) + Region(sbrk.p, Request(nunits))
        invariant grew ==> !AllSmall(fl, nunits) && AllSmall(start, nunits)
        decreases !grew, Steps(i, s, |fl|)
      {
        RingNext(hdr, fl, i);
        if hdr[p].size >= nunits {
          OneLarge(fl, i, nunits);
          r := Take(prevp, p, nunits, i, prev);
          return;
        }
        if p == freep {
          SameIndex(fl, i, s);
          ScanAll(fl, s, i, prev, nunits);
          grew := true;
          p, missized := Morecore(nunits, sbrk);
          if p == 0 {
            return 0, true, missized;
          }
          s :| s < |fl| && fl[s].addr == freep;
          i := s;
          RingNext(hdr, fl, i);
          ScanStart(fl, s, nunits);
        } else {
          ScanNext(fl, s, i, prev, nunits);
        }
        prevp := p;
        p := hdr[p].ptr;
        prev, i := i, Succ(i, |fl|);
      }
    }

    // The owner of a block writes one of its units, which may look like any header.
    method UserWrite(a: nat, u: nat, h: Header)
      requires Valid() && a in alloc && InBlock(Block(a, alloc[a]), u) && u != a
      modifies `hdr
      ensures Valid()
    {
      assert UsedUnit(alloc, u) && !FreeUnit(fl, u);
      assert freep != 0;
      forall i | 0 <= i < |fl| ensures fl[i].addr != u {
        assert i > 0 ==> InBlock(fl[i], fl[i].addr);
        assert u in owned;
      }
      assert forall x :: x in alloc ==> InBlock(Block(x, alloc[x]), x);
      assert u !in alloc;
      RingKept(hdr, fl, u, h);
      hdr := hdr[u := h];
    }
  }

  lemma RingKept(hdr: map<nat, Header>, fl: seq<Block>, x: nat, h: Header)
    requires Ring(hdr, fl) && forall i :: 0 <= i < |fl| ==> fl[i].addr != x
    ensures Ring(hdr[x := h], fl)
  {
    var hdr' := hdr[x := h];
    forall i | 0 <= i < |fl| ensures RingLink(hdr', fl, i) { assert RingLink(hdr, fl, i); }
  }

  lemma AtLeastBase(fl: seq<Block>, i: nat)
    requires Ordered(fl) && i < |fl|
    ensures fl[i].addr >= BASE
  {
    if i > 0 { OrderedPair(fl, 0, i); }
  }

  lemma RingNext(hdr: map<nat, Header>, fl: seq<Block>, i: nat)
    requires Ring(hdr, fl) && i < |fl|
    ensures fl[i].addr in hdr && hdr[fl[i].addr] == Header(fl[Succ(i, |fl|)].addr, fl[i].size)
  {
    assert RingLink(hdr, fl, i);
  }

  lemma SameIndex(fl: seq<Block>, i: nat, j: nat)
    requires Ordered(fl) && i < |fl| && j < |fl| && fl[i].addr == fl[j].addr
    ensures i == j
  {
    if i < j { OrderedPair(fl, i, j); } else if j < i { OrderedPair(fl, j, i); }
  }

  lemma ReleaseHolds(fl: seq<Block>, k: nat, b: Block)
    requires Ordered(fl) && Place(fl, k, b.addr)
    ensures exists i :: 0 <= i < |Release(fl, k, b)| && Release(fl, k, b)[i].size >= b.size
  {
    var at, from := ReleaseShape(fl, k, b);
    assert Release(fl, k, b)[at].size >= b.size;
  }

  lemma NewClear(hdr: map<nat, Header>, fl: seq<Block>, alloc: map<nat, nat>, owned: set<nat>, b: Block)
    requires Partition(fl, alloc, owned) && Headers(hdr, alloc) && b.size > 0 && b.addr > BASE
    requires forall u: nat :: InBlock(b, u) ==> u !in owned
    ensures Clear(fl, b) && b.addr !in alloc
  {
    assert InBlock(b, b.addr);
    if b.addr in alloc { assert InBlock(Block(b.addr, alloc[b.addr]), b.addr); }
  }

  lemma PartitionGrow(fl: seq<Block>, fl': seq<Block>, alloc: map<nat, nat>, owned: set<nat>, b: Block)
    requires Partition(fl, alloc, owned)
    requires forall u: nat :: InBlock(b, u) ==> u !in owned
    requires forall u: nat :: FreeUnit(fl', u) <==> FreeUnit(fl, u) || InBlock(b, u)
    ensures Partition(fl', alloc, owned + Region(b.addr, b.size))
  {
  }

  lemma NotListed(fl: seq<Block>, b: Block)
    requires Ordered(fl) && Clear(fl, b)
    ensures forall i :: 0 <= i < |fl| ==> fl[i].addr != b.addr
  {
    assert InBlock(b, b.addr);
    forall i | 0 <= i < |fl| ensures fl[i].addr != b.addr {
      if i > 0 && fl[i].addr == b.addr { assert InBlock(fl[i], b.addr); }
    }
  }

  // A block in use overlaps no free block.
  lemma AllocClear(hdr: map<nat, Header>, fl: seq<Block>, alloc: map<nat, nat>, owned: set<nat>, a: nat)
    requires Ordered(fl) && Headers(hdr, alloc) && Partition(fl, alloc, owned) && a in alloc
    requires forall u :: u in owned ==> u > BASE
    ensures Clear(fl, Block(a, alloc[a]))
  {
    var b := Block(a, alloc[a]);
    assert InBlock(b, a) && UsedUnit(alloc, a);
    forall u: nat | InBlock(b, u) ensures !FreeUnit(fl, u) { assert UsedUnit(alloc, u); }
  }

  lemma AllocNotListed(fl: seq<Block>, alloc: map<nat, nat>, owned: set<nat>, some: map<nat, nat>)
    requires Ordered(fl) && Partition(fl, alloc, owned) && some.Keys <= alloc.Keys
    requires forall a :: a in alloc ==> alloc[a] > 0
    requires forall u :: u in owned ==> u > BASE
    ensures forall a :: a in some ==> !IsListed(fl, a)
  {
    forall a, i | a in some && 0 <= i < |fl| ensures fl[i].addr != a {
      assert InBlock(Block(a, alloc[a]), a) && UsedUnit(alloc, a);
      if i > 0 && fl[i].addr == a { assert InBlock(fl[i], a); }
    }
  }
}
