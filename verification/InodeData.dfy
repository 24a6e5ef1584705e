/**
 The inode data layer of kernel/fs.c: the block bitmap, the direct and indirect block map of a
 file, and the byte loops over them.  The disk is what bread returns and log_write keeps.
*/
module InodeData {

  const BSIZE := 1024
  const BPB := 8192        // BSIZE * 8
  const NDIRECT := 12
  const NINDIRECT := 256   // BSIZE / sizeof(uint)
  const MAXFILE := 268

  type byte = x: nat | x < 256
  type Block = s: seq<byte> | |s| == 1024 witness seq(1024, i => 0)

  function ZeroBlock(): (b: Block)
    ensures forall i :: 0 <= i < 1024 ==> b[i] == 0
  {
    seq(1024, i => 0)
  }

  // The parts of the super block used here; the blocks below nmeta hold no file data.
  datatype Super = Super(size: nat, nmeta: nat, bmapstart: nat)

  predicate Layout(sb: Super) {
    0 < sb.bmapstart && sb.nmeta <= sb.size < 0x1_0000_0000 && 0 < sb.size &&
    sb.bmapstart + (sb.size - 1) / BPB < sb.nmeta
  }

  type Addrs = s: seq<nat> | |s| == 13 witness seq(13, i => 0)

  datatype Inode = Inode(addrs: Addrs, size: nat)

  // ---------- words and bits inside a block ----------

  // ((uint*)data)[j], least significant byte first.
  function Entry(b: Block, j: nat): nat
    requires j < NINDIRECT
  {
    var x0: nat, x1: nat, x2: nat, x3: nat := b[4 * j], b[4 * j + 1], b[4 * j + 2], b[4 * j + 3];
    x0 + 256 * x1 + 65536 * x2 + 16777216 * x3
  }

  function Low(w: nat): byte { w % 256 }

  function PutEntry(b: Block, j: nat, w: nat): Block
    requires j < NINDIRECT
  {
    b[4 * j := Low(w)][4 * j + 1 := Low(w / 256)][4 * j + 2 := Low(w / 65536)][4 * j + 3 := Low(w / 16777216)]
  }

  lemma WordSplit(w: nat)
    requires w < 0x1_0000_0000
    ensures w == Low(w) + 256 * Low(w / 256) + 65536 * Low(w / 65536) + 16777216 * Low(w / 16777216)
  {
    assert w / 65536 == w / 256 / 256 && w / 16777216 == w / 65536 / 256;
  }

  lemma EntryPut(b: Block, j: nat, w: nat, k: nat)
    requires j < NINDIRECT && k < NINDIRECT && w < 0x1_0000_0000
    ensures Entry(PutEntry(b, j, w), k) == if k == j then w else Entry(b, k)
  {
    WordSplit(w);
    hide Low;
  }

  // Four bytes at 4j, the lowest first, as they stand on the disk.
  function Word(b: Block, j: nat): nat
    requires j < NINDIRECT
  {
    var high: nat, low: nat := b[4 * j + 3], b[4 * j];
    (high * 256 + b[4 * j + 2]) * 65536 + (b[4 * j + 1] as nat) * 256 + low
  }

  lemma EntryZero(j: nat)
    requires j < NINDIRECT
    ensures Entry(ZeroBlock(), j) == 0
  {
  }

  // b & (1 << k), and b with that bit set or cleared.
  predicate HasBit(b: nat, k: nat) { if k == 0 then b % 2 == 1 else HasBit(b / 2, k - 1) }

  function WithBit(b: nat, k: nat, v: bool): nat {
    if k == 0 then b / 2 * 2 + if v then 1 else 0 else 2 * WithBit(b / 2, k - 1, v) + b % 2
  }

  lemma {:induction false} BitWith(b: nat, k: nat, v: bool, j: nat)
    ensures HasBit(WithBit(b, k, v), j) == if j == k then v else HasBit(b, j)
  {
    if k > 0 && j > 0 { BitWith(b / 2, k - 1, v, j - 1); }
  }

  lemma {:induction false} WithBitByte(b: nat, k: nat, v: bool, n: nat)
    requires k < n && b < Pow2(n)
    ensures WithBit(b, k, v) < Pow2(n)
  {
    if k > 0 { WithBitByte(b / 2, k - 1, v, n - 1); }
  }

  function Pow2(n: nat): nat { if n == 0 then 1 else 2 * Pow2(n - 1) }

  lemma ByteRange()
    ensures Pow2(8) == 256
  {
    assert Pow2(4) == 16;
  }

  // Bit bi of a bitmap block: data[bi / 8] & (1 << (bi % 8)).
  predicate BitAt(b: Block, bi: nat)
    requires bi < BPB
  {
    HasBit(b[bi / 8], bi % 8)
  }

  function PutBit(b: Block, bi: nat, v: bool): Block
    requires bi < BPB
  {
    WithBitByte(b[bi / 8], bi % 8, v, 8);
    ByteRange();
    b[bi / 8 := WithBit(b[bi / 8], bi % 8, v)]
  }

  lemma BitPut(b: Block, bi: nat, v: bool, bj: nat)
    requires bi < BPB && bj < BPB
    ensures BitAt(PutBit(b, bi, v), bj) == if bj == bi then v else BitAt(b, bj)
  {
    BitWith(b[bi / 8], bi % 8, v, bj % 8);
    hide HasBit, WithBit;
  }

  // ---------- the block map of a file ----------

  // Where a block is referenced: file i, and 0..11 a direct block, 12 the indirect block itself,
  // 13.. an entry of the indirect block.
  datatype Slot = Slot(i: nat, p: nat)

  const SLOTS := 269

  function Pos(bn: nat): nat { if bn < NDIRECT then bn else bn + 1 }

  ghost function Addr(block: seq<Block>, inode: seq<Inode>, i: nat, p: nat): nat {
    if i >= |inode| || p >= SLOTS then 0
    else if p <= NDIRECT then inode[i].addrs[p]
    else
      var a := inode[i].addrs[NDIRECT];
      if a == 0 || a >= |block| then 0 else Entry(block[a], p - 13)
  }

  predicate Used(sb: Super, block: seq<Block>, b: nat) {
    b / BPB + sb.bmapstart < |block| && BitAt(block[b / BPB + sb.bmapstart], b % BPB)
  }

  // 1 << k
  function Mask(k: nat): nat
    requires k < 8
  {
    [1, 2, 4, 8, 16, 32, 64, 128][k]
  }

  /** The bitmap on disk: bit b % 8, counted from the lowest, of byte b / 8 of the bitmap blocks. */
  lemma BitmapFormat(sb: Super, block: seq<Block>, b: nat)
    requires b / 8192 + sb.bmapstart < |block|
    ensures Used(sb, block, b) <==> block[b / 8192 + sb.bmapstart][b % 8192 / 8] / Mask(b % 8) % 2 == 1
  {
    BitIs(block[b / 8192 + sb.bmapstart][b % 8192 / 8], b % 8);
    assert b % 8192 % 8 == b % 8;
    hide HasBit, Mask;
  }

  lemma BitIs(x: nat, k: nat)
    requires k < 8
    ensures HasBit(x, k) <==> x / Mask(k) % 2 == 1
  {
    var x1, x2, x3, x4, x5, x6, x7 := x / 2, x / 4, x / 8, x / 16, x / 32, x / 64, x / 128;
    assert x2 == x1 / 2 && x3 == x2 / 2 && x4 == x3 / 2 && x5 == x4 / 2 && x6 == x5 / 2 && x7 == x6 / 2;
    assert HasBit(x, k) == if k == 0 then x % 2 == 1 else HasBit(x1, k - 1);
    if k >= 2 { assert HasBit(x1, k - 1) == HasBit(x2, k - 2); }
    if k >= 3 { assert HasBit(x2, k - 2) == HasBit(x3, k - 3); }
    if k >= 4 { assert HasBit(x3, k - 3) == HasBit(x4, k - 4); }
    if k >= 5 { assert HasBit(x4, k - 4) == HasBit(x5, k - 5); }
    if k >= 6 { assert HasBit(x5, k - 5) == HasBit(x6, k - 6); }
    if k >= 7 { assert HasBit(x6, k - 6) == HasBit(x7, k - 7); }
  }

  // Each referenced block is a data block and is referenced from one slot, the one owner names.
  ghost predicate Referenced(sb: Super, block: seq<Block>, inode: seq<Inode>, owner: map<nat, Slot>) {
    && (forall i: nat, p: nat :: Addr(block, inode, i, p) != 0 ==>
          Addr(block, inode, i, p) in owner && owner[Addr(block, inode, i, p)] == Slot(i, p))
    && forall b :: b in owner ==>
         sb.nmeta <= b < sb.size && Addr(block, inode, owner[b].i, owner[b].p) == b
  }

  // The set bits are the metadata blocks, the referenced blocks and those in extra.
  ghost predicate Bits(sb: Super, block: seq<Block>, owner: map<nat, Slot>, extra: set<nat>)
    requires Layout(sb) && |block| == sb.size
  {
    forall b: nat :: b < sb.size ==> (Used(sb, block, b) <==> b < sb.nmeta || b in owner || b in extra)
  }

  /** Block ownership.  extra holds the blocks in the hands of the running call: allocated and
      not yet referenced, or no longer referenced and not yet freed. */
  ghost predicate Owns(sb: Super, block: seq<Block>, inode: seq<Inode>, owner: map<nat, Slot>, extra: set<nat>) {
    && Layout(sb) && |block| == sb.size
    && Referenced(sb, block, inode, owner) && Bits(sb, block, owner, extra)
    && extra !! owner.Keys && forall b :: b in extra ==> sb.nmeta <= b < sb.size
  }

  lemma UsedInMeta(sb: Super, b: nat)
    requires Layout(sb) && b < sb.size
    ensures b / BPB + sb.bmapstart < sb.nmeta
  {
  }

  // Addresses depend on the indirect blocks alone.
  lemma AddrSame(sb: Super, block: seq<Block>, inode: seq<Inode>, owner: map<nat, Slot>, block': seq<Block>,
                 i: nat, p: nat)
    requires Referenced(sb, block, inode, owner) && |block'| == |block|
    requires forall b :: b in owner && owner[b].p == NDIRECT && b < |block| ==> block'[b] == block[b]
    ensures Addr(block', inode, i, p) == Addr(block, inode, i, p)
  {
    if i < |inode| && NDIRECT < p < SLOTS {
      assert Addr(block, inode, i, NDIRECT) == inode[i].addrs[NDIRECT];
    }
    hide Entry;
  }

  lemma ReferencedSame(sb: Super, block: seq<Block>, inode: seq<Inode>, owner: map<nat, Slot>, block': seq<Block>)
    requires Referenced(sb, block, inode, owner) && |block'| == |block|
    requires forall b :: b in owner && owner[b].p == NDIRECT && b < |block| ==> block'[b] == block[b]
    ensures Referenced(sb, block', inode, owner)
    ensures forall i: nat, p: nat :: Addr(block', inode, i, p) == Addr(block, inode, i, p)
  {
    forall i: nat, p: nat ensures Addr(block', inode, i, p) == Addr(block, inode, i, p) {
      AddrSame(sb, block, inode, owner, block', i, p);
    }
    hide Addr;
  }

  // Bits depend on the metadata alone.
  lemma BitsSame(sb: Super, block: seq<Block>, owner: map<nat, Slot>, extra: set<nat>, block': seq<Block>)
    requires Layout(sb) && |block| == |block'| == sb.size && Bits(sb, block, owner, extra)
    requires forall b :: 0 <= b < sb.nmeta ==> block'[b] == block[b]
    ensures Bits(sb, block', owner, extra)
  {
    hide BitAt;
    forall b: nat | b < sb.size ensures Used(sb, block', b) == Used(sb, block, b) {
      UsedInMeta(sb, b);
    }
  }

  // Writing the contents of a data block disturbs nothing.
  lemma DataWrite(sb: Super, block: seq<Block>, inode: seq<Inode>, owner: map<nat, Slot>, extra: set<nat>,
                  d: nat, x: Block)
    requires Owns(sb, block, inode, owner, extra) && sb.nmeta <= d < sb.size
    requires d in owner ==> owner[d].p != NDIRECT
    ensures Owns(sb, block[d := x], inode, owner, extra)
    ensures forall i: nat, p: nat :: Addr(block[d := x], inode, i, p) == Addr(block, inode, i, p)
  {
    hide Addr, Used;
    ReferencedSame(sb, block, inode, owner, block[d := x]);
    BitsSame(sb, block, owner, extra, block[d := x]);
  }

  // Setting or clearing the bit of one block.
  lemma FlipBit(sb: Super, block: seq<Block>, inode: seq<Inode>, owner: map<nat, Slot>, extra: set<nat>,
                d: nat, v: bool)
    requires Owns(sb, block, inode, owner, extra) && sb.nmeta <= d < sb.size && d !in owner
    ensures d / BPB + sb.bmapstart < sb.nmeta
    ensures var k := d / BPB + sb.bmapstart; var block' := block[k := PutBit(block[k], d % BPB, v)];
      && Owns(sb, block', inode, owner, if v then extra + {d} else extra - {d})
      && forall i: nat, p: nat :: Addr(block', inode, i, p) == Addr(block, inode, i, p)
  {
    hide Addr, Used, PutBit, Referenced;
    UsedInMeta(sb, d);
    var k := d / BPB + sb.bmapstart;
    var block' := block[k := PutBit(block[k], d % BPB, v)];
    forall b | b in owner && owner[b].p == NDIRECT && b < |block| ensures block'[b] == block[b] {
      InData(sb, block, inode, owner, b);
    }
    ReferencedSame(sb, block, inode, owner, block');
    forall b: nat | b < sb.size ensures Used(sb, block', b) == if b == d then v else Used(sb, block, b) {
      UsedFlip(sb, block, d, v, b);
    }
  }

  lemma InData(sb: Super, block: seq<Block>, inode: seq<Inode>, owner: map<nat, Slot>, b: nat)
    requires Referenced(sb, block, inode, owner) && b in owner
    ensures sb.nmeta <= b < sb.size
  {
  }

  lemma UsedFlip(sb: Super, block: seq<Block>, d: nat, v: bool, b: nat)
    requires Layout(sb) && |block| == sb.size && b < sb.size && d < sb.size
    ensures d / BPB + sb.bmapstart < |block|
    ensures var k := d / BPB + sb.bmapstart; var block' := block[k := PutBit(block[k], d % BPB, v)];
      Used(sb, block', b) == if b == d then v else Used(sb, block, b)
  {
    UsedInMeta(sb, d);
    UsedInMeta(sb, b);
    hide BitAt, PutBit;
    if b / BPB == d / BPB {
      BitPut(block[d / BPB + sb.bmapstart], d % BPB, v, b % BPB);
      assert b == b / BPB * BPB + b % BPB && d == d / BPB * BPB + d % BPB;
    }
  }

  // ---------- attaching and detaching a block ----------

  function SetAddr(inode: seq<Inode>, i: nat, p: nat, d: nat): seq<Inode>
    requires i < |inode| && p <= NDIRECT
  {
    inode[i := inode[i].(addrs := inode[i].addrs[p := d])]
  }

  // What a new reference makes of the addresses.
  ghost predicate AddrSet(block: seq<Block>, inode: seq<Inode>, block': seq<Block>, inode': seq<Inode>,
                          i: nat, p: nat, d: nat) {
    forall i2: nat, p2: nat :: Addr(block', inode', i2, p2) ==
      if i2 == i && p2 == p then d else Addr(block, inode, i2, p2)
  }

  // Ownership follows the addresses.
  lemma Attach(sb: Super, block: seq<Block>, inode: seq<Inode>, owner: map<nat, Slot>, extra: set<nat>,
               block': seq<Block>, inode': seq<Inode>, i: nat, p: nat, d: nat)
    requires Owns(sb, block, inode, owner, extra) && d in extra && Addr(block, inode, i, p) == 0
    requires |block'| == |block| && forall b :: 0 <= b < sb.nmeta ==> block'[b] == block[b]
    requires AddrSet(block, inode, block', inode', i, p, d)
    ensures Owns(sb, block', inode', owner[d := Slot(i, p)], extra - {d})
  {
    hide Addr, Used;
    BitsSame(sb, block, owner, extra, block');
    var owner' := owner[d := Slot(i, p)];
    forall b | b in owner' ensures Addr(block', inode', owner'[b].i, owner'[b].p) == b {
      if b != d { assert Addr(block, inode, owner[b].i, owner[b].p) == b; }
    }
  }

  lemma SetDirect(block: seq<Block>, inode: seq<Inode>, i: nat, p: nat, d: nat)
    requires i < |inode| && p <= NDIRECT && d < |block|
    requires p == NDIRECT ==> inode[i].addrs[p] == 0 && block[d] == ZeroBlock()
    ensures AddrSet(block, inode, block, SetAddr(inode, i, p, d), i, p, d)
  {
    forall i2: nat, p2: nat ensures Addr(block, SetAddr(inode, i, p, d), i2, p2) ==
      if i2 == i && p2 == p then d else Addr(block, inode, i2, p2)
    {
      if i2 == i && p == NDIRECT && NDIRECT < p2 < SLOTS { EntryZero(p2 - 13); }
    }
  }

  lemma SetIndirect(sb: Super, block: seq<Block>, inode: seq<Inode>, owner: map<nat, Slot>, extra: set<nat>,
                    i: nat, p: nat, d: nat)
    requires Owns(sb, block, inode, owner, extra) && i < |inode| && NDIRECT < p < SLOTS && d < sb.size
    requires inode[i].addrs[NDIRECT] != 0
    ensures sb.nmeta <= inode[i].addrs[NDIRECT] < |block| && inode[i].addrs[NDIRECT] in owner
    ensures var a := inode[i].addrs[NDIRECT];
      AddrSet(block, inode, block[a := PutEntry(block[a], p - 13, d)], inode, i, p, d)
  {
    IndirectOf(sb, block, inode, owner, i);
    hide Entry, PutEntry, Bits, Owns;
    var a := inode[i].addrs[NDIRECT];
    var block' := block[a := PutEntry(block[a], p - 13, d)];
    forall i2: nat, p2: nat ensures Addr(block', inode, i2, p2) ==
      if i2 == i && p2 == p then d else Addr(block, inode, i2, p2)
    {
      if i2 < |inode| && NDIRECT < p2 < SLOTS && inode[i2].addrs[NDIRECT] != 0 {
        IndirectOf(sb, block, inode, owner, i2);
        if i2 == i { EntryPut(block[a], p - 13, d, p2 - 13); }
      }
    }
  }

  // A file's indirect block is a data block of its own.
  lemma IndirectOf(sb: Super, block: seq<Block>, inode: seq<Inode>, owner: map<nat, Slot>, i: nat)
    requires Referenced(sb, block, inode, owner) && i < |inode| && inode[i].addrs[NDIRECT] != 0
    ensures var a := inode[i].addrs[NDIRECT]; a in owner && owner[a] == Slot(i, NDIRECT) && sb.nmeta <= a < sb.size
  {
    assert Addr(block, inode, i, NDIRECT) == inode[i].addrs[NDIRECT];
    hide Addr;
  }

  // ---------- the file system ----------

  // What readi is asked for: a part of the contents, cut at their end.
  function Asked(c: seq<byte>, off: nat, n: nat): seq<byte> {
    if off > |c| || off + n >= 0x1_0000_0000 then [] else if off + n > |c| then c[off..] else c[off..off + n]
  }

  lemma AskedIs(c: seq<byte>, off: nat, n: nat)
    requires off < 0x1_0000_0000 && n < 0x1_0000_0000
    ensures off > |c| || off + n >= 0x1_0000_0000 ==> Asked(c, off, n) == []
    ensures off <= |c| && off + n < 0x1_0000_0000 ==>
      var len := if off + n > |c| then |c| - off else n;
      Asked(c, off, n) == c[off..off + len] && forall k: nat :: k <= len ==> Asked(c, off, n)[..k] == c[off..off + k]
  {
  }

  lemma Wraps(off: nat, n: nat)
    requires off < 0x1_0000_0000 && n < 0x1_0000_0000
    ensures (off + n) % 0x1_0000_0000 < off <==> off + n >= 0x1_0000_0000
  {
  }

  // The next k bytes of a slice, and as many of them as fit.
  lemma SliceMore(c: seq<byte>, off: nat, a: nat, k: nat, room: nat)
    requires off + a + k <= |c| && a <= room
    ensures c[off..off + a] + c[off + a..off + a + k] == c[off..off + a + k]
    ensures a + k > room ==> c[off..off + a] + c[off + a..off + a + k][..room - a] == c[off..off + room]
  {
  }

  lemma SizeIs(block: seq<Block>, inode: seq<Inode>, i: nat)
    requires i < |inode|
    ensures |Contents(block, inode, i)| == inode[i].size
  {
  }

  class FileSystem {
    const sb: Super
    var block: seq<Block>
    var inode: seq<Inode>
    ghost var owner: map<nat, Slot>

    constructor (sb: Super, block: seq<Block>, inode: seq<Inode>, ghost owner: map<nat, Slot>)
      requires Owns(sb, block, inode, owner, {})
      ensures Holding({}) && this.sb == sb && this.block == block && this.inode == inode
    {
      this.sb, this.block, this.inode, this.owner := sb, block, inode, owner;
    }

    ghost predicate Holding(extra: set<nat>)
      reads this
    {
      Owns(sb, block, inode, owner, extra)
    }

    /** balloc: a zeroed block that nobody references, now marked in use; or 0 when every block of
        the disk is in use.  Nothing else changes. */
    method Balloc() returns (d: nat)
      requires Holding({})
      modifies `block
      ensures Holding(if d == 0 then {} else {d})
      ensures d == 0 ==> block == old(block) && forall b: nat :: sb.nmeta <= b < sb.size ==> b in owner
      ensures d != 0 ==> sb.nmeta <= d < sb.size && d !in owner && block[d] == ZeroBlock()
      ensures |block| == |old(block)| && forall b :: sb.nmeta <= b < |block| && b != d ==> block[b] == old(block)[b]
      ensures forall i: nat, p: nat :: Addr(block, inode, i, p) == old(Addr(block, inode, i, p))
    {
      hide Addr, BitAt, Referenced, PutBit;
      d := FindFree();
      if d != 0 {
        UsedInMeta(sb, d);
        var k := d / BPB + sb.bmapstart;
        FlipBit(sb, block, inode, owner, {}, d, true);
        block := block[k := PutBit(block[k], d % BPB, true)];
        DataWrite(sb, block, inode, owner, {d}, d, ZeroBlock());
        block := block[d := ZeroBlock()];  // bzero
      }
    }

    // The scan of the bitmap, block by block and bit by bit.
    method FindFree() returns (d: nat)
      requires Holding({})
      ensures d == 0 ==> forall b: nat :: sb.nmeta <= b < sb.size ==> b in owner
      ensures d != 0 ==> sb.nmeta <= d < sb.size && d !in owner
    {
      hide Addr, BitAt, Referenced;
      var b := 0;
      while b < sb.size
        invariant b % BPB == 0 && forall x: nat :: x < b && x < sb.size ==> Used(sb, block, x)
      {
        UsedInMeta(sb, b);
        var k := b / BPB + sb.bmapstart;
        var bi := 0;
        while bi < BPB && b + bi < sb.size
          invariant 0 <= bi <= BPB && forall x: nat :: x < b + bi && x < sb.size ==> Used(sb, block, x)
        {
          Index(b, bi);
          if !BitAt(block[k], bi) {
            NotUsed(sb, block, inode, owner, b + bi);
            return b + bi;
          }
          assert Used(sb, block, b + bi);
          bi := bi + 1;
        }
        b := b + BPB;
      }
      d := 0;
      forall x: nat | sb.nmeta <= x < sb.size ensures x in owner { assert Used(sb, block, x); }
    }

    /** bfree: only the bit of d changes.  d is in the hands of the caller, so the panic "freeing
        free block" cannot happen.  ino and own describe the files without the blocks in extra. */
    method Bfree(d: nat, ghost ino: seq<Inode>, ghost own: map<nat, Slot>, ghost extra: set<nat>)
      requires Owns(sb, block, ino, own, extra) && d in extra
      modifies `block
      ensures Owns(sb, block, ino, own, extra - {d})
      ensures |block| == |old(block)| && forall b :: sb.nmeta <= b < |block| ==> block[b] == old(block)[b]
    {
      hide Addr, BitAt, Referenced, PutBit;
      UsedInMeta(sb, d);
      var k := d / BPB + sb.bmapstart;
      var bi := d % BPB;
      assert Used(sb, block, d);
      FlipBit(sb, block, ino, own, extra, d, false);
      if !BitAt(block[k], bi) {
        assert false;  // panic("freeing free block")
      }
      block := block[k := PutBit(block[k], bi, false)];
    }

    // balloc for the empty address p of file i, which is kept in the inode itself.
    method MapDirect(i: nat, p: nat) returns (d: nat)
      requires Holding({}) && i < |inode| && p <= NDIRECT && inode[i].addrs[p] == 0
      modifies this
      ensures Holding({}) && Extends(old(block), old(inode), old(owner), block, inode, owner)
      ensures OnlyAt(old(block), old(inode), block, inode, i, p, d)
      ensures d == 0 ==> Full(sb, owner)
      ensures d != 0 ==> sb.nmeta <= d < |block| && block[d] == ZeroBlock() && d !in old(owner)
    {
      hide Owns, Used;
      ghost var block0, inode0, owner0 := block, inode, owner;
      d := Balloc();
      if d != 0 {
        inode := SetAddr(inode, i, p, d);
        owner := owner[d := Slot(i, p)];
        OwnsIs(sb, block, inode0, owner0, {d});
        SetDirect(block, inode0, i, p, d);
        AddrEmpty(block, inode0, i, p);
        Attach(sb, block, inode0, owner0, {d}, block, inode, i, p, d);
        assert {d} - {d} == {};
      }
      OwnsIs(sb, block0, inode0, owner0, {});
      ExtendsBy(block0, inode0, owner0, block, inode, owner, i, p, d);
    }

    // The same for an entry of the file's indirect block.
    method MapEntry(i: nat, p: nat) returns (d: nat)
      requires Holding({}) && i < |inode| && NDIRECT < p < SLOTS && inode[i].addrs[NDIRECT] != 0
      requires Addr(block, inode, i, p) == 0
      modifies this
      ensures Holding({}) && Extends(old(block), old(inode), old(owner), block, inode, owner)
      ensures OnlyAt(old(block), old(inode), block, inode, i, p, d) && inode == old(inode)
      ensures d == 0 ==> Full(sb, owner)
      ensures d != 0 ==> sb.nmeta <= d < |block| && block[d] == ZeroBlock() && d !in old(owner)
    {
      hide Owns, Used, Addr, Entry, PutEntry;
      ghost var block0, inode0, owner0 := block, inode, owner;
      var a := inode[i].addrs[NDIRECT];
      d := Balloc();
      if d != 0 {
        ghost var block1 := block;
        OwnsIs(sb, block, inode0, owner0, {d});
        IndirectOf(sb, block, inode, owner, i);
        SetIndirect(sb, block, inode, owner, {d}, i, p, d);
        block := block[a := PutEntry(block[a], p - 13, d)];
        owner := owner[d := Slot(i, p)];
        Attach(sb, block1, inode, owner0, {d}, block, inode, i, p, d);
        assert {d} - {d} == {};
      }
      OwnsIs(sb, block0, inode0, owner0, {});
      ExtendsBy(block0, inode0, owner0, block, inode, owner, i, p, d);
    }

    /** bmap: the address of block bn of file i, the one it had or a zeroed block nobody referenced;
        0 when every data block is in use.  Every other reference, and the bytes of every block
        that was referenced as data, are as before. */
    method Bmap(i: nat, bn: nat) returns (addr: nat)
      requires Holding({}) && i < |inode| && bn < MAXFILE
      modifies this
      ensures Holding({}) && Mapped(sb, old(block), old(inode), old(owner), block, inode, owner, i, Pos(bn), addr)
      ensures |inode| == |old(inode)| && (bn < 12 ==> addr == inode[i].addrs[bn])
      ensures bn >= 12 && addr != 0 ==>
        0 < inode[i].addrs[12] < |block| && addr == Word(block[inode[i].addrs[12]], bn - 12)
    {
      hide *;
      PosIs(bn);
      if bn < NDIRECT {
        addr := MapSlot(i, bn);
      } else {
        addr := MapIndirect(i, bn - NDIRECT + 13);
      }
      MappedAt(sb, old(block), old(inode), old(owner), block, inode, owner, i, bn, addr);
    }

    // The part of bmap beyond the direct blocks.
    method MapIndirect(i: nat, p: nat) returns (addr: nat)
      requires Holding({}) && i < |inode| && NDIRECT < p < SLOTS
      modifies this
      ensures Holding({}) && Mapped(sb, old(block), old(inode), old(owner), block, inode, owner, i, p, addr)
    {
      hide Owns, MapsOnly, OnlyAt, Full, Addr, Entry;
      ExtendsSelf(block, inode, owner);
      AddrEntry(block, inode, i, p);
      ghost var block0, inode0, owner0 := block, inode, owner;
      addr := MapSlot(i, NDIRECT);
      ghost var block1, inode1, owner1 := block, inode, owner;
      ghost var a1 := addr;
      AddrEntry(block, inode, i, p);
      if addr != 0 {
        OwnsAt(sb, block, inode, owner, i);
        addr := Entry(block[addr], Entries(p));
        if addr == 0 {
          addr := MapEntry(i, p);
        }
      }
      MapTwice(sb, block0, inode0, owner0, block1, inode1, owner1, block, inode, owner, i, p, a1, addr);
    }

    // An address kept in the inode itself: a direct block, or the indirect block.
    method MapSlot(i: nat, p: nat) returns (addr: nat)
      requires Holding({}) && i < |inode| && p <= NDIRECT
      modifies this
      ensures Holding({}) && Mapped(sb, old(block), old(inode), old(owner), block, inode, owner, i, p, addr)
    {
      AddrDirect(block, inode, i, p);
      hide Owns, Full, Addr;
      addr := inode[i].addrs[p];
      if addr == 0 {
        addr := MapDirect(i, p);
      } else {
        ExtendsSelf(block, inode, owner);
      }
    }

    ghost predicate Valid()
      reads this
    {
      Holding({}) && forall i: nat :: i < |inode| ==> WholeFile(block, inode, i)
    }

    // min(n - tot, BSIZE - off % BSIZE)
    function Chunk(left: nat, off: nat): nat {
      if left < BSIZE - off % BSIZE then left else BSIZE - off % BSIZE
    }

    // One turn of writei's loop.  The source gives its first room bytes; m == 0 when the disk is
    // full, or when the copy fails after done bytes and log_write is not called for them.
    method WriteChunk(i: nat, off: nat, src: seq<byte>, room: nat) returns (m: nat, ghost done: nat)
      requires Holding({}) && i < |inode| && off + |src| <= MAXFILE * BSIZE && |src| > 0
      modifies this
      ensures Holding({}) && SameSizes(old(inode), inode) && done <= |src|
      ensures if m > 0 then m == done == Chunk(|src|, off) <= room
              else (done == 0 && Full(sb, owner)) || done == room < Chunk(|src|, off)
      ensures Stored(old(block), old(inode), block, inode, i, off, src[..done])
    {
      hide Owns, Full, Addr, MapsOnly, Stored, Extends, ByteAt;
      ghost var block0, inode0, owner0 := block, inode, owner;
      BlockNo(off);
      var addr := Bmap(i, off / BSIZE);
      ghost var block1 := block;
      OwnsIs(sb, block0, inode0, owner0, {});
      MappedIs(sb, block0, inode0, owner0, block, inode, owner, i, Pos(off / BSIZE), addr);
      KeepsBytes(sb, block0, inode0, owner0, block, inode, owner, i, off);
      assert src[..0] == [];
      if addr == 0 {
        return 0, 0;
      }
      m := Chunk(|src|, off);
      var copied := if room < m then room else m;
      SlotOf(sb, block, inode, owner, i, Pos(off / BSIZE));
      DataWrite(sb, block, inode, owner, {}, addr, Overlay(block[addr], off % BSIZE, src[..copied]));
      block := block[addr := Overlay(block[addr], off % BSIZE, src[..copied])];
      StoredBy(sb, block0, inode0, block1, block, inode, owner, i, off, src[..copied], addr);
      done := copied;
      if copied < m {
        m := 0;
      }
    }

    // Where writei stops: at the end, on a full disk, or in the chunk whose copy fails.
    ghost predicate Stops(n: nat, off: nat, room: nat, tot: nat, done: nat)
      reads this
    {
      && tot <= done <= n && tot <= room
      && (tot == n || (done == tot && Full(sb, owner)) || done == room < tot + Chunk(n - tot, off + tot))
    }

    /** writei: -1, changing nothing, exactly when the range starts past the end of the file, wraps
        around 32 bits or exceeds the largest file.  Otherwise the first r bytes of src replace
        those of the file from off on, the file growing if they pass its end, and every other file
        keeps its contents.  r < |src| only when no block is left or src gives only its first room
        bytes; in that case the bytes up to done, past those it reports, have changed as well as far
        as the file reaches, in a buffer that is not logged. */
    method Writei(i: nat, src: seq<byte>, off: nat, room: nat) returns (r: int, ghost done: nat)
      requires Valid() && i < |inode| && off < 0x1_0000_0000 && |src| < 0x1_0000_0000
      modifies this
      ensures Valid() && |inode| == |old(inode)|
      ensures r == -1 <==> off > old(inode)[i].size || off + |src| >= 0x1_0000_0000 || off + |src| > MAXFILE * BSIZE
      ensures r == -1 ==> block == old(block) && inode == old(inode) && owner == old(owner)
      ensures r != -1 ==> 0 <= r && Stops(|src|, off, room, r, done)
      ensures r != -1 ==>
        Contents(block, inode, i) == SplicedTo(old(Contents(block, inode, i)), off, src[..done], r)
      ensures forall j: nat :: j < |inode| && j != i ==> Contents(block, inode, j) == old(Contents(block, inode, j))
    {
      var n := |src|;
      if off > inode[i].size || (off + n) % 0x1_0000_0000 < off {
        return -1, 0;
      }
      if off + n > MAXFILE * BSIZE {
        return -1, 0;
      }
      hide Owns, Full, Stored, WholeFile, Contents, SplicedTo;
      ghost var block0, inode0 := block, inode;
      var tot;
      tot, done := WriteLoop(i, src, off, room);
      ghost var inode1 := inode;
      if off + tot > inode[i].size {
        inode := inode[i := inode[i].(size := off + tot)];
      }
      WriteDone(sb, block0, inode0, block, inode1, inode, owner, i, off, src[..done], tot);
      r := tot;
    }

    method WriteLoop(i: nat, src: seq<byte>, off: nat, room: nat) returns (tot: nat, ghost done: nat)
      requires Holding({}) && i < |inode| && off + |src| <= MAXFILE * BSIZE
      modifies this
      ensures Holding({}) && SameSizes(old(inode), inode) && Stops(|src|, off, room, tot, done)
      ensures Stored(old(block), old(inode), block, inode, i, off, src[..done])
    {
      hide Owns, Full, Stored;
      tot, done := 0, 0;
      StoredNone(block, inode, i, off, src);
      while tot < |src|
        invariant 0 <= tot <= |src| && tot <= room && done == tot && Holding({}) && SameSizes(old(inode), inode)
        invariant Stored(old(block), old(inode), block, inode, i, off, src[..tot])
      {
        ghost var block1, inode1 := block, inode;
        var m;
        m, done := WriteChunk(i, off + tot, src[tot..], room - tot);
        StoredMore(old(block), old(inode), block1, inode1, block, inode, i, off, src, tot, done);
        done := tot + done;
        if m == 0 {
          break;
        }
        tot := tot + m;
      }
    }

    /** readi: the bytes of the file from off on, at most n of them, none when the range starts
        past the end or wraps around 32 bits.  The destination takes the first room bytes; if they
        are fewer, the copy fails and so does readi.  Nothing in the file system changes: bmap
        never has to allocate. */
    method Readi(i: nat, off: nat, n: nat, room: nat) returns (r: int, dst: seq<byte>)
      requires Valid() && i < |inode| && off < 0x1_0000_0000 && n < 0x1_0000_0000
      modifies this
      ensures Valid() && block == old(block) && inode == old(inode) && owner == old(owner)
      ensures var s := Asked(Contents(block, inode, i), off, n);
        if |s| <= room then r == |s| && dst == s else r == -1 && dst == s[..room]
    {
      hide *;
      ghost var c := Contents(block, inode, i);
      SizeIs(block, inode, i);
      Wraps(off, n);
      AskedIs(c, off, n);
      if off > inode[i].size || (off + n) % 0x1_0000_0000 < off {
        return 0, [];
      }
      var len := if off + n > inode[i].size then inode[i].size - off else n;
      dst := [];
      while |dst| < len
        invariant Valid() && block == old(block) && inode == old(inode) && owner == old(owner)
        invariant |dst| <= len && |dst| <= room && dst == c[off..off + |dst|]
        decreases len - |dst|
      {
        var s := ReadChunk(i, off + |dst|, len - |dst|);
        SliceMore(c, off, |dst|, |s|, room);
        if |dst| + |s| > room {
          dst := dst + s[..room - |dst|];
          return -1, dst;
        }
        dst := dst + s;
      }
      r := |dst|;
    }

    // One turn of readi's loop.
    method ReadChunk(i: nat, off: nat, left: nat) returns (s: seq<byte>)
      requires Valid() && i < |inode| && off + left <= inode[i].size && left > 0
      modifies this
      ensures Valid() && block == old(block) && inode == old(inode) && owner == old(owner)
      ensures 0 < |s| <= left && s == Contents(block, inode, i)[off..off + |s|]
    {
      hide Owns, Mapped, Addr, WholeFile, Contents;
      InFile(block, inode, i, off);
      ghost var block0, inode0, owner0 := block, inode, owner;
      var addr := Bmap(i, off / BSIZE);
      Unchanged(sb, block0, inode0, owner0, block, inode, owner, i, Pos(off / BSIZE), addr);
      if addr == 0 {
        assert false;
      }
      SlotOf(sb, block, inode, owner, i, Pos(off / BSIZE));
      var m := Chunk(left, off);
      ReadSlice(block, inode, i, off, m);
      s := block[addr][off % BSIZE..off % BSIZE + m];
    }

    /** itrunc: the file is empty and without blocks, every block it had is free, and no other bit,
        file or block is touched. */
    method Itrunc(i: nat)
      requires Valid() && i < |inode|
      modifies this
      ensures Valid() && |inode| == |old(inode)| && inode == old(inode)[i := inode[i]]
      ensures inode[i].size == 0 && forall p: nat :: p <= NDIRECT ==> inode[i].addrs[p] == 0
      ensures owner == Others(old(owner), i)
      ensures forall b: nat :: b < sb.size ==>
        (Used(sb, block, b) <==> Used(sb, old(block), b) && !(b in old(owner) && old(owner)[b].i == i))
      ensures forall j: nat :: j < |inode| && j != i ==> Contents(block, inode, j) == old(Contents(block, inode, j))
    {
      ghost var block0, inode0, owner0 := block, inode, owner;
      hide Owns, WholeFile, Contents, Addr, Used;
      FreeDirect(i);
      if inode[i].addrs[NDIRECT] != 0 {
        FreeIndirect(i);
      }
      ghost var inode1 := inode;
      inode := inode[i := inode[i].(size := 0)];
      TruncDone(sb, block0, inode0, owner0, block, inode1, inode, owner, i);
    }

    // The loop over the direct blocks.
    method FreeDirect(i: nat)
      requires Holding({}) && i < |inode|
      modifies this
      ensures Holding({}) && |inode| == |old(inode)| && inode == old(inode)[i := inode[i]]
      ensures inode[i].addrs[NDIRECT] == old(inode)[i].addrs[NDIRECT] && inode[i].size == old(inode)[i].size
      ensures forall p :: 0 <= p < NDIRECT ==> inode[i].addrs[p] == 0
      ensures KeepsOthers(old(owner), owner, i) && SameData(sb, old(block), block)
    {
      hide Owns;
      OwnsIs(sb, block, inode, owner, {});
      var k := 0;
      while k < NDIRECT
        invariant 0 <= k <= NDIRECT && Holding({}) && |inode| == |old(inode)| && inode == old(inode)[i := inode[i]]
        invariant inode[i].addrs[NDIRECT] == old(inode)[i].addrs[NDIRECT] && inode[i].size == old(inode)[i].size
        invariant forall p :: 0 <= p < k ==> inode[i].addrs[p] == 0
        invariant KeepsOthers(old(owner), owner, i) && SameData(sb, old(block), block)
      {
        var d := inode[i].addrs[k];
        if d != 0 {
          DetachDirect(sb, block, inode, owner, i, k);
          Bfree(d, SetAddr(inode, i, k, 0), owner - {d}, {d});
          assert {d} - {d} == {};
          inode := SetAddr(inode, i, k, 0);
          owner := owner - {d};
        }
        k := k + 1;
      }
    }

    // The indirect block: every block it names, then itself.
    method FreeIndirect(i: nat)
      requires Holding({}) && i < |inode| && inode[i].addrs[NDIRECT] != 0
      modifies this
      ensures Holding({}) && inode == SetAddr(old(inode), i, NDIRECT, 0)
      ensures KeepsOthers(old(owner), owner, i) && SameData(sb, old(block), block)
    {
      hide Owns, Addr, Entry, Rest;
      var a := inode[i].addrs[NDIRECT];
      ghost var ino, own, owner0, block0 := SetAddr(inode, i, NDIRECT, 0), Lower(owner, i), owner, block;
      OwnsIs(sb, block, inode, owner, {});
      IndirectOf(sb, block, inode, owner, i);
      DetachIndirect(sb, block, inode, owner, i);
      var j := 0;
      while j < NINDIRECT
        invariant 0 <= j <= NINDIRECT && inode == old(inode) && owner == owner0
        invariant Owns(sb, block, ino, own, Rest(owner0, i, j)) && SameData(sb, block0, block)
      {
        EntryOwned(sb, block0, inode, owner0, i, j);
        var d := Entry(block[a], j);
        if d != 0 {
          Bfree(d, ino, own, Rest(owner0, i, j));
        }
        j := j + 1;
      }
      LastOwned(sb, block0, inode, owner0, i);
      Bfree(a, ino, own, Rest(owner0, i, NINDIRECT));
      assert {a} - {a} == {};
      inode := SetAddr(inode, i, NDIRECT, 0);
      owner := own;
    }
  }

  ghost function Others(owner: map<nat, Slot>, i: nat): map<nat, Slot> {
    map b | b in owner && owner[b].i != i :: owner[b]
  }

  // Of the references only some of file i are gone.
  ghost predicate KeepsOthers(owner: map<nat, Slot>, owner': map<nat, Slot>, i: nat) {
    && (forall b :: b in owner' ==> b in owner && owner'[b] == owner[b])
    && forall b :: b in owner && owner[b].i != i ==> b in owner'
  }

  ghost predicate SameData(sb: Super, block: seq<Block>, block': seq<Block>) {
    |block'| == |block| && forall b :: sb.nmeta <= b < |block| ==> block'[b] == block[b]
  }

  // The references of the direct blocks, and of other files.
  ghost function Lower(owner: map<nat, Slot>, i: nat): map<nat, Slot> {
    map b | b in owner && !(owner[b].i == i && owner[b].p >= NDIRECT) :: owner[b]
  }

  // The indirect block of file i and the blocks named by its entries from j on.
  ghost function Rest(owner: map<nat, Slot>, i: nat, j: nat): set<nat> {
    set b | b in owner && owner[b].i == i && (owner[b].p == NDIRECT || owner[b].p >= 13 + j)
  }

  lemma DetachDirect(sb: Super, block: seq<Block>, inode: seq<Inode>, owner: map<nat, Slot>, i: nat, p: nat)
    requires Owns(sb, block, inode, owner, {}) && i < |inode| && p < NDIRECT && inode[i].addrs[p] != 0
    ensures var d := inode[i].addrs[p];
      && d in owner && owner[d].i == i && Owns(sb, block, SetAddr(inode, i, p, 0), owner - {d}, {d})
  {
    var d, inode' := inode[i].addrs[p], SetAddr(inode, i, p, 0);
    assert Addr(block, inode, i, p) == d;
    forall i2: nat, p2: nat ensures Addr(block, inode', i2, p2) ==
      if i2 == i && p2 == p then 0 else Addr(block, inode, i2, p2) { }
    hide Addr, Used;
  }

  lemma DetachIndirect(sb: Super, block: seq<Block>, inode: seq<Inode>, owner: map<nat, Slot>, i: nat)
    requires Owns(sb, block, inode, owner, {}) && i < |inode| && inode[i].addrs[NDIRECT] != 0
    ensures Owns(sb, block, SetAddr(inode, i, NDIRECT, 0), Lower(owner, i), Rest(owner, i, 0))
  {
    var inode' := SetAddr(inode, i, NDIRECT, 0);
    forall i2: nat, p2: nat ensures Addr(block, inode', i2, p2) ==
      if i2 == i && p2 >= NDIRECT then 0 else Addr(block, inode, i2, p2) { }
    hide Addr, Used;
  }

  // The next entry, if it names a block, names the one block that leaves the rest.
  lemma EntryOwned(sb: Super, block: seq<Block>, inode: seq<Inode>, owner: map<nat, Slot>, i: nat, j: nat)
    requires Owns(sb, block, inode, owner, {}) && i < |inode| && inode[i].addrs[NDIRECT] != 0 && j < NINDIRECT
    ensures inode[i].addrs[NDIRECT] < |block|
    ensures var d := Entry(block[inode[i].addrs[NDIRECT]], j);
      if d != 0 then d in Rest(owner, i, j) && Rest(owner, i, j + 1) == Rest(owner, i, j) - {d}
      else Rest(owner, i, j + 1) == Rest(owner, i, j)
  {
    IndirectOf(sb, block, inode, owner, i);
    AddrEntry(block, inode, i, 13 + j);
    hide Addr, Entry, Bits;
    var d := Entry(block[inode[i].addrs[NDIRECT]], j);
    assert Addr(block, inode, i, 13 + j) == d;
    forall b | b in Rest(owner, i, j) && b != d ensures owner[b].p != 13 + j {
      assert Addr(block, inode, owner[b].i, owner[b].p) == b;
    }
  }

  lemma LastOwned(sb: Super, block: seq<Block>, inode: seq<Inode>, owner: map<nat, Slot>, i: nat)
    requires Owns(sb, block, inode, owner, {}) && i < |inode| && inode[i].addrs[NDIRECT] != 0
    ensures Rest(owner, i, NINDIRECT) == {inode[i].addrs[NDIRECT]}
  {
    IndirectOf(sb, block, inode, owner, i);
    forall b | b in Rest(owner, i, NINDIRECT) ensures b == inode[i].addrs[NDIRECT] {
      assert Addr(block, inode, owner[b].i, owner[b].p) == b;
    }
  }

  lemma TruncDone(sb: Super, block0: seq<Block>, inode0: seq<Inode>, owner0: map<nat, Slot>,
                  block: seq<Block>, inode1: seq<Inode>, inode: seq<Inode>, owner: map<nat, Slot>, i: nat)
    requires Owns(sb, block0, inode0, owner0, {}) && Owns(sb, block, inode1, owner, {}) && i < |inode0| == |inode1|
    requires forall j: nat :: j < |inode0| ==> WholeFile(block0, inode0, j)
    requires inode1 == inode0[i := inode1[i]] && inode == inode1[i := inode1[i].(size := 0)]
    requires KeepsOthers(owner0, owner, i) && SameData(sb, block0, block)
    requires forall p: nat :: p <= NDIRECT ==> inode1[i].addrs[p] == 0
    ensures Owns(sb, block, inode, owner, {}) && owner == Others(owner0, i)
    ensures forall j: nat :: j < |inode| ==> WholeFile(block, inode, j)
    ensures forall b: nat :: b < sb.size ==>
      (Used(sb, block, b) <==> Used(sb, block0, b) && !(b in owner0 && owner0[b].i == i))
    ensures forall j: nat :: j < |inode| && j != i ==> Contents(block, inode, j) == Contents(block0, inode0, j)
  {
    SizeOnly(sb, block, inode1, owner, i, 0);
    NoneLeft(sb, block, inode1, owner, i);
    hide Addr, Used, Contents;
    forall j: nat | j < |inode| ensures WholeFile(block, inode, j) {
      assert WholeFile(block0, inode0, j);
      if j != i { OtherKept(sb, block0, inode0, owner0, block, inode, j); }
    }
    forall j: nat | j < |inode| && j != i ensures Contents(block, inode, j) == Contents(block0, inode0, j) {
      assert WholeFile(block0, inode0, j);
      OtherKept(sb, block0, inode0, owner0, block, inode, j);
    }
  }

  // With no address left the file references nothing.
  lemma NoneLeft(sb: Super, block: seq<Block>, inode: seq<Inode>, owner: map<nat, Slot>, i: nat)
    requires Owns(sb, block, inode, owner, {}) && i < |inode|
    requires forall p: nat :: p <= NDIRECT ==> inode[i].addrs[p] == 0
    ensures forall b :: b in owner ==> owner[b].i != i
  {
    forall b | b in owner ensures owner[b].i != i {
      assert Addr(block, inode, owner[b].i, owner[b].p) == b;
    }
  }

  // A file whose inode and blocks are the same has the same contents.
  lemma OtherKept(sb: Super, block0: seq<Block>, inode0: seq<Inode>, owner0: map<nat, Slot>,
                  block: seq<Block>, inode: seq<Inode>, j: nat)
    requires Owns(sb, block0, inode0, owner0, {}) && SameData(sb, block0, block)
    requires j < |inode| == |inode0| && inode[j] == inode0[j] && WholeFile(block0, inode0, j)
    ensures WholeFile(block, inode, j) && Contents(block, inode, j) == Contents(block0, inode0, j)
  {
    forall p: nat ensures Addr(block, inode, j, p) == Addr(block0, inode0, j, p) {
      if inode0[j].addrs[NDIRECT] != 0 { IndirectOf(sb, block0, inode0, owner0, j); }
      hide Entry;
    }
    forall k: nat | k < inode0[j].size
      ensures Backed(block, inode, j, k) && ByteAt(block, inode, j, k) == ByteAt(block0, inode0, j, k)
    {
      assert Backed(block0, inode0, j, k);
      SlotOf(sb, block0, inode0, owner0, j, Pos(k / BSIZE));
      hide Addr;
    }
  }

  lemma InFile(block: seq<Block>, inode: seq<Inode>, i: nat, k: nat)
    requires i < |inode| && WholeFile(block, inode, i) && k < inode[i].size
    ensures k / BSIZE < MAXFILE && Addr(block, inode, i, Pos(k / BSIZE)) != 0
  {
    BlockNo(k);
    assert Backed(block, inode, i, k);
  }

  lemma Unchanged(sb: Super, block: seq<Block>, inode: seq<Inode>, owner: map<nat, Slot>,
                  block': seq<Block>, inode': seq<Inode>, owner': map<nat, Slot>, i: nat, p: nat, addr: nat)
    requires Mapped(sb, block, inode, owner, block', inode', owner', i, p, addr)
    requires Addr(block, inode, i, p) != 0
    ensures addr == Addr(block, inode, i, p) && block' == block && inode' == inode && owner' == owner
  {
    hide Extends, MapsOnly, Full, Addr;
  }

  lemma ReadSlice(block: seq<Block>, inode: seq<Inode>, i: nat, off: nat, m: nat)
    requires i < |inode| && off + m <= inode[i].size && off % BSIZE + m <= BSIZE
    requires var a := Addr(block, inode, i, Pos(off / BSIZE)); a != 0 && a < |block|
    ensures block[Addr(block, inode, i, Pos(off / BSIZE))][off % BSIZE..off % BSIZE + m] ==
      Contents(block, inode, i)[off..off + m]
  {
    hide Addr;
    forall k: nat | off <= k < off + m
      ensures ByteAt(block, inode, i, k) == block[Addr(block, inode, i, Pos(off / BSIZE))][off % BSIZE + (k - off)]
    {
      SameBlock(off, k, m);
    }
  }

  /** What is written is what is read back, at every place: from a splice, the new bytes inside
      it and the old ones outside. */
  lemma ReadBack(c: seq<byte>, off: nat, s: seq<byte>, from: nat, n: nat)
    requires off <= |c| && from + n <= |Spliced(c, off, s)|
    ensures |Spliced(c, off, s)| == if off + |s| > |c| then off + |s| else |c|
    ensures SplicedTo(c, off, s, |s|) == Spliced(c, off, s)
    ensures off <= from && from + n <= off + |s| ==>
      Spliced(c, off, s)[from..from + n] == s[from - off..from - off + n]
    ensures n > 0 && (from + n <= off || off + |s| <= from) ==>
      from + n <= |c| && Spliced(c, off, s)[from..from + n] == c[from..from + n]
  {
    var r := Spliced(c, off, s)[from..from + n];
    assert forall k :: 0 <= k < n && off <= from + k < off + |s| ==> r[k] == s[from - off + k];
    assert forall k :: 0 <= k < n && !(off <= from + k < off + |s|) ==> r[k] == c[from + k];
  }

  lemma StoredNone(block: seq<Block>, inode: seq<Inode>, i: nat, off: nat, src: seq<byte>)
    ensures Stored(block, inode, block, inode, i, off, src[..0])
  {
    hide ByteAt, Backed;
  }

  lemma StoredMore(block0: seq<Block>, inode0: seq<Inode>, block1: seq<Block>, inode1: seq<Inode>,
                   block2: seq<Block>, inode2: seq<Inode>, i: nat, off: nat, src: seq<byte>, tot: nat, m: nat)
    requires tot + m <= |src| && Stored(block0, inode0, block1, inode1, i, off, src[..tot])
    requires Stored(block1, inode1, block2, inode2, i, off + tot, src[tot..][..m])
    ensures Stored(block0, inode0, block2, inode2, i, off, src[..tot + m])
  {
    hide ByteAt, Backed;
    assert forall k :: 0 <= k < m ==> src[tot..][..m][k] == src[tot + k];
  }

  // Only the size of file i changed.
  lemma SizeOnly(sb: Super, block: seq<Block>, inode: seq<Inode>, owner: map<nat, Slot>, i: nat, sz: nat)
    requires i < |inode| && Owns(sb, block, inode, owner, {})
    ensures var inode' := inode[i := inode[i].(size := sz)];
      && Owns(sb, block, inode', owner, {})
      && (forall j: nat, k: nat :: Backed(block, inode', j, k) == Backed(block, inode, j, k))
      && forall j: nat, k: nat :: ByteAt(block, inode', j, k) == ByteAt(block, inode, j, k)
  {
    var inode' := inode[i := inode[i].(size := sz)];
    hide Bits;
    forall j: nat, p: nat ensures Addr(block, inode', j, p) == Addr(block, inode, j, p) { }
    hide Addr;
  }

  // Together the steps of writei splice the bytes in.
  lemma WriteDone(sb: Super, block0: seq<Block>, inode0: seq<Inode>, block: seq<Block>, inode1: seq<Inode>,
                  inode: seq<Inode>, owner: map<nat, Slot>, i: nat, off: nat, s: seq<byte>,
                  tot: nat)
    requires Stored(block0, inode0, block, inode1, i, off, s) && SameSizes(inode0, inode1) && i < |inode0|
    requires forall j: nat :: j < |inode0| ==> WholeFile(block0, inode0, j)
    requires off <= inode0[i].size && tot <= |s| && off + |s| <= MAXFILE * BSIZE && Owns(sb, block, inode1, owner, {})
    requires inode == if off + tot > inode0[i].size then inode1[i := inode1[i].(size := off + tot)] else inode1
    ensures Owns(sb, block, inode, owner, {}) && |inode| == |inode0|
    ensures forall j: nat :: j < |inode| ==> WholeFile(block, inode, j)
    ensures Contents(block, inode, i) == SplicedTo(Contents(block0, inode0, i), off, s, tot)
    ensures forall j: nat :: j < |inode| && j != i ==> Contents(block, inode, j) == Contents(block0, inode0, j)
  {
    hide ByteAt, Backed, Owns, Contents, SplicedTo, WholeFile, Stored;
    SizeOnly(sb, block, inode1, owner, i, off + tot);
    forall j: nat | j < |inode| && j != i
      ensures WholeFile(block, inode, j) && Contents(block, inode, j) == Contents(block0, inode0, j)
    {
      OtherFile(block0, inode0, block, inode1, inode, i, off, s, j);
    }
    ThisFile(block0, inode0, block, inode1, inode, i, off, s, tot);
  }

  lemma OtherFile(block0: seq<Block>, inode0: seq<Inode>, block: seq<Block>, inode1: seq<Inode>,
                  inode: seq<Inode>, i: nat, off: nat, s: seq<byte>, j: nat)
    requires Stored(block0, inode0, block, inode1, i, off, s) && j < |inode0| == |inode| && j != i
    requires inode[j].size == inode0[j].size && WholeFile(block0, inode0, j)
    requires forall k: nat :: Backed(block, inode, j, k) == Backed(block, inode1, j, k)
    requires forall k: nat :: ByteAt(block, inode, j, k) == ByteAt(block, inode1, j, k)
    ensures WholeFile(block, inode, j) && Contents(block, inode, j) == Contents(block0, inode0, j)
  {
    hide ByteAt, Backed;
    forall k: nat | k < inode0[j].size
      ensures Backed(block, inode, j, k) && ByteAt(block, inode, j, k) == ByteAt(block0, inode0, j, k)
    {
      assert Backed(block0, inode0, j, k);
    }
  }

  lemma ThisFile(block0: seq<Block>, inode0: seq<Inode>, block: seq<Block>, inode1: seq<Inode>,
                 inode: seq<Inode>, i: nat, off: nat, s: seq<byte>, tot: nat)
    requires Stored(block0, inode0, block, inode1, i, off, s) && i < |inode0| == |inode|
    requires off <= inode0[i].size && tot <= |s| && off + |s| <= MAXFILE * BSIZE && WholeFile(block0, inode0, i)
    requires inode[i].size == if off + tot > inode0[i].size then off + tot else inode0[i].size
    requires forall k: nat :: Backed(block, inode, i, k) == Backed(block, inode1, i, k)
    requires forall k: nat :: ByteAt(block, inode, i, k) == ByteAt(block, inode1, i, k)
    ensures WholeFile(block, inode, i)
    ensures Contents(block, inode, i) == SplicedTo(Contents(block0, inode0, i), off, s, tot)
  {
    hide ByteAt, Backed;
    forall k: nat | k < inode[i].size
      ensures Backed(block, inode, i, k)
      ensures ByteAt(block, inode, i, k) == if off <= k < off + |s| then s[k - off] else ByteAt(block0, inode0, i, k)
    {
      assert k < inode0[i].size ==> Backed(block0, inode0, i, k);
    }
  }

  function Spliced(c: seq<byte>, off: nat, s: seq<byte>): seq<byte>
    requires off <= |c|
  {
    if off + |s| < |c| then c[..off] + s + c[off + |s|..] else c[..off] + s
  }

  // A splice that makes the file grow only up to its first tot bytes.
  function SplicedTo(c: seq<byte>, off: nat, s: seq<byte>, tot: nat): seq<byte>
    requires off <= |c| && tot <= |s|
  {
    Spliced(c, off, s)[..if off + tot > |c| then off + tot else |c|]
  }

  // The file as an array of bytes.
  ghost function Contents(block: seq<Block>, inode: seq<Inode>, i: nat): seq<byte>
    requires i < |inode|
  {
    seq(inode[i].size, k requires 0 <= k => ByteAt(block, inode, i, k))
  }

  lemma BlockNo(off: nat)
    requires off < MAXFILE * BSIZE
    ensures off / BSIZE < MAXFILE && Pos(off / BSIZE) < SLOTS && Pos(off / BSIZE) != NDIRECT
  {
  }

  // An address in use names its slot, and is a data block.
  lemma SlotOf(sb: Super, block: seq<Block>, inode: seq<Inode>, owner: map<nat, Slot>, i: nat, p: nat)
    requires Owns(sb, block, inode, owner, {}) && Addr(block, inode, i, p) != 0
    ensures var a := Addr(block, inode, i, p);
      sb.nmeta <= a < sb.size == |block| && a in owner && owner[a] == Slot(i, p)
  {
    hide Addr;
  }

  lemma MappedIs(sb: Super, block: seq<Block>, inode: seq<Inode>, owner: map<nat, Slot>,
                 block': seq<Block>, inode': seq<Inode>, owner': map<nat, Slot>,
                 i: nat, p: nat, addr: nat)
    requires Mapped(sb, block, inode, owner, block', inode', owner', i, p, addr)
    ensures |block'| == |block| && SameSizes(inode, inode') && addr == Addr(block', inode', i, p)
    ensures addr == 0 ==> Full(sb, owner')
  {
    hide Addr, Full;
  }

  // bmap leaves every byte of every file as it was.
  lemma KeepsBytes(sb: Super, block: seq<Block>, inode: seq<Inode>, owner: map<nat, Slot>,
                   block': seq<Block>, inode': seq<Inode>, owner': map<nat, Slot>, i: nat, off: nat)
    requires Extends(block, inode, owner, block', inode', owner') && Referenced(sb, block, inode, owner)
    requires |block| == sb.size
    ensures Stored(block, inode, block', inode', i, off, [])
  {
    hide Addr;
    forall j: nat, k: nat | Backed(block, inode, j, k)
      ensures Backed(block', inode', j, k) && ByteAt(block', inode', j, k) == ByteAt(block, inode, j, k)
    {
      var a := Addr(block, inode, j, Pos(k / BSIZE));
      assert a in owner && owner[a] == Slot(j, Pos(k / BSIZE));
      assert Addr(block', inode', j, Pos(k / BSIZE)) == a;
    }
  }

  // Then the block that holds byte off of file i is overlaid.
  lemma StoredBy(sb: Super, block0: seq<Block>, inode0: seq<Inode>, block: seq<Block>, block': seq<Block>,
                 inode: seq<Inode>, owner: map<nat, Slot>, i: nat, off: nat, s: seq<byte>, addr: nat)
    requires Stored(block0, inode0, block, inode, i, off, []) && Owns(sb, block, inode, owner, {})
    requires addr == Addr(block, inode, i, Pos(off / BSIZE)) != 0 && addr < |block| && off % BSIZE + |s| <= BSIZE
    requires block' == block[addr := Overlay(block[addr], off % BSIZE, s)]
    requires forall j: nat, p: nat :: Addr(block', inode, j, p) == Addr(block, inode, j, p)
    ensures Stored(block0, inode0, block', inode, i, off, s)
  {
    hide Addr, Owns;
    forall k: nat | off <= k < off + |s|
      ensures Backed(block', inode, i, k) && ByteAt(block', inode, i, k) == s[k - off]
    {
      SameBlock(off, k, |s|);
    }
    forall j: nat, k: nat | Backed(block0, inode0, j, k)
      ensures Backed(block', inode, j, k)
      ensures !(j == i && off <= k < off + |s|) ==>
        ByteAt(block', inode, j, k) == ByteAt(block0, inode0, j, k)
    {
      assert Backed(block, inode, j, k) && ByteAt(block, inode, j, k) == ByteAt(block0, inode0, j, k);
      SlotOf(sb, block, inode, owner, j, Pos(k / BSIZE));
      SlotOf(sb, block, inode, owner, i, Pos(off / BSIZE));
      if Addr(block, inode, j, Pos(k / BSIZE)) == addr && !(off <= k < off + |s|) {
        OtherByte(off, k, |s|);
      }
    }
  }

  lemma SameBlock(off: nat, k: nat, n: nat)
    requires off <= k < off + n && off % BSIZE + n <= BSIZE
    ensures k / BSIZE == off / BSIZE && k % BSIZE == off % BSIZE + (k - off)
  {
  }

  lemma OtherByte(off: nat, k: nat, n: nat)
    requires Pos(k / BSIZE) == Pos(off / BSIZE) && !(off <= k < off + n)
    ensures !(off % BSIZE <= k % BSIZE < off % BSIZE + n)
  {
  }

  // data[o .. o + |s|) replaced by s.
  function Overlay(b: Block, o: nat, s: seq<byte>): Block
    requires o + |s| <= BSIZE
  {
    b[..o] + s + b[o + |s|..]
  }

  ghost function ByteAt(block: seq<Block>, inode: seq<Inode>, i: nat, k: nat): byte {
    var a := Addr(block, inode, i, Pos(k / BSIZE));
    if a != 0 && a < |block| then block[a][k % BSIZE] else 0
  }

  // Byte k of file i is in a block of its own.
  ghost predicate Backed(block: seq<Block>, inode: seq<Inode>, i: nat, k: nat) {
    Addr(block, inode, i, Pos(k / BSIZE)) != 0
  }

  // No holes below n.
  ghost predicate Whole(block: seq<Block>, inode: seq<Inode>, i: nat, n: nat) {
    forall k: nat :: k < n ==> Backed(block, inode, i, k)
  }

  ghost predicate WholeFile(block: seq<Block>, inode: seq<Inode>, i: nat)
    requires i < |inode|
  {
    inode[i].size <= MAXFILE * BSIZE && Whole(block, inode, i, inode[i].size)
  }

  ghost predicate SameSizes(inode: seq<Inode>, inode': seq<Inode>) {
    |inode'| == |inode| && forall j :: 0 <= j < |inode| ==> inode'[j].size == inode[j].size
  }

  // Every byte of every file that had a block keeps it and its value, but for bytes off .. of
  // file i, which are those of s now.
  ghost predicate Stored(block: seq<Block>, inode: seq<Inode>, block': seq<Block>, inode': seq<Inode>,
                         i: nat, off: nat, s: seq<byte>) {
    && (forall j: nat, k: nat :: Backed(block, inode, j, k) ==> Backed(block', inode', j, k))
    && (forall k: nat :: off <= k < off + |s| ==>
          Backed(block', inode', i, k) && ByteAt(block', inode', i, k) == s[k - off])
    && forall j: nat, k: nat :: Backed(block, inode, j, k) && !(j == i && off <= k < off + |s|) ==>
         ByteAt(block', inode', j, k) == ByteAt(block, inode, j, k)
  }

  /** What bmap promises about slot p of file i. */
  ghost predicate Mapped(sb: Super, block: seq<Block>, inode: seq<Inode>, owner: map<nat, Slot>,
                         block': seq<Block>, inode': seq<Inode>, owner': map<nat, Slot>,
                         i: nat, p: nat, addr: nat) {
    && Extends(block, inode, owner, block', inode', owner')
    && MapsOnly(block, inode, block', inode', i, p)
    && addr == Addr(block', inode', i, p) && (addr == 0 ==> Full(sb, owner'))
    && (Addr(block, inode, i, p) != 0 ==>
          addr == Addr(block, inode, i, p) && block' == block && inode' == inode && owner' == owner)
    && (Addr(block, inode, i, p) == 0 && addr != 0 ==>
          addr !in owner && sb.nmeta <= addr < |block'| && block'[addr] == ZeroBlock())
  }

  lemma PosIs(bn: nat)
    requires bn < MAXFILE
    ensures NDIRECT == 12 && NINDIRECT == 256 && MAXFILE == 268 && BSIZE == 1024 && BPB == 8192 && SLOTS == 269
    ensures bn < NDIRECT ==> Pos(bn) == bn <= NDIRECT
    ensures bn >= NDIRECT ==> Pos(bn) == bn - NDIRECT + 13 && NDIRECT < Pos(bn) < SLOTS && bn - 12 < NINDIRECT
  {
  }

  lemma MappedAt(sb: Super, block: seq<Block>, inode: seq<Inode>, owner: map<nat, Slot>,
                 block': seq<Block>, inode': seq<Inode>, owner': map<nat, Slot>, i: nat, bn: nat, addr: nat)
    requires Mapped(sb, block, inode, owner, block', inode', owner', i, Pos(bn), addr) && i < |inode| && bn < MAXFILE
    ensures |inode'| == |inode| && (bn < 12 ==> addr == inode'[i].addrs[bn])
    ensures bn >= 12 && addr != 0 ==>
      0 < inode'[i].addrs[12] < |block'| && addr == Word(block'[inode'[i].addrs[12]], bn - 12)
  {
    hide MapsOnly;
  }

  // The indirect block first, then the entry.
  lemma MapTwice(sb: Super, block: seq<Block>, inode: seq<Inode>, owner: map<nat, Slot>,
                 block1: seq<Block>, inode1: seq<Inode>, owner1: map<nat, Slot>,
                 block2: seq<Block>, inode2: seq<Inode>, owner2: map<nat, Slot>, i: nat, p: nat, a1: nat, addr: nat)
    requires p > NDIRECT && Mapped(sb, block, inode, owner, block1, inode1, owner1, i, NDIRECT, a1)
    requires Addr(block, inode, i, p) != 0 ==> Addr(block, inode, i, NDIRECT) != 0
    requires a1 == 0 || Addr(block1, inode1, i, p) != 0 ==>
      block2 == block1 && inode2 == inode1 && owner2 == owner1 && addr == Addr(block1, inode1, i, p)
    requires a1 != 0 && Addr(block1, inode1, i, p) == 0 ==>
      && Extends(block1, inode1, owner1, block2, inode2, owner2) && OnlyAt(block1, inode1, block2, inode2, i, p, addr)
      && (addr == 0 ==> Full(sb, owner2))
      && (addr != 0 ==> sb.nmeta <= addr < |block2| && block2[addr] == ZeroBlock() && addr !in owner1)
    ensures Mapped(sb, block, inode, owner, block2, inode2, owner2, i, p, addr)
  {
    hide Addr, Full;
    if a1 != 0 && Addr(block1, inode1, i, p) == 0 {
      ExtendsTrans(block, inode, owner, block1, inode1, owner1, block2, inode2, owner2);
    }
  }

  lemma AddrDirect(block: seq<Block>, inode: seq<Inode>, i: nat, p: nat)
    requires i < |inode| && p <= NDIRECT
    ensures Addr(block, inode, i, p) == inode[i].addrs[p] && (p < NDIRECT ==> Pos(p) == p)
  {
  }

  function Entries(p: nat): nat
    requires NDIRECT < p < SLOTS
  {
    p - 13
  }

  lemma AddrEntry(block: seq<Block>, inode: seq<Inode>, i: nat, p: nat)
    requires i < |inode| && NDIRECT < p < SLOTS
    ensures Addr(block, inode, i, NDIRECT) == inode[i].addrs[NDIRECT] && Entries(p) < NINDIRECT
    ensures var a := inode[i].addrs[NDIRECT];
      Addr(block, inode, i, p) == if a == 0 || a >= |block| then 0 else Entry(block[a], Entries(p))
  {
  }

  lemma OwnsAt(sb: Super, block: seq<Block>, inode: seq<Inode>, owner: map<nat, Slot>, i: nat)
    requires Owns(sb, block, inode, owner, {}) && i < |inode| && Addr(block, inode, i, NDIRECT) != 0
    ensures Addr(block, inode, i, NDIRECT) < |block|
  {
    hide Addr;
  }

  // Of all addresses only that of slot p of file i, and of its indirect block, can be new.
  ghost predicate MapsOnly(block: seq<Block>, inode: seq<Inode>, block': seq<Block>, inode': seq<Inode>,
                           i: nat, p: nat) {
    forall i2: nat, p2: nat :: !(i2 == i && (p2 == p || p2 == NDIRECT)) ==>
      Addr(block', inode', i2, p2) == Addr(block, inode, i2, p2)
  }

  lemma ExtendsSelf(block: seq<Block>, inode: seq<Inode>, owner: map<nat, Slot>)
    ensures Extends(block, inode, owner, block, inode, owner)
  {
  }

  lemma ExtendsTrans(block: seq<Block>, inode: seq<Inode>, owner: map<nat, Slot>,
                     block1: seq<Block>, inode1: seq<Inode>, owner1: map<nat, Slot>,
                     block2: seq<Block>, inode2: seq<Inode>, owner2: map<nat, Slot>)
    requires Extends(block, inode, owner, block1, inode1, owner1)
    requires Extends(block1, inode1, owner1, block2, inode2, owner2)
    ensures Extends(block, inode, owner, block2, inode2, owner2)
  {
    hide Addr;
  }

  ghost predicate Full(sb: Super, owner: map<nat, Slot>) {
    forall b: nat :: sb.nmeta <= b < sb.size ==> b in owner
  }

  // Every reference is still there, and every data block has the bytes it had.
  ghost predicate Extends(block: seq<Block>, inode: seq<Inode>, owner: map<nat, Slot>,
                          block': seq<Block>, inode': seq<Inode>, owner': map<nat, Slot>) {
    && |block'| == |block| && SameSizes(inode, inode')
    && (forall i: nat, p: nat :: Addr(block, inode, i, p) != 0 ==>
          Addr(block', inode', i, p) == Addr(block, inode, i, p))
    && (forall b :: b in owner ==> b in owner' && owner'[b] == owner[b])
    && forall b :: b in owner && b < |block| && owner[b].p != NDIRECT ==> block'[b] == block[b]
  }

  // No address but the one named has changed, and that one is d unless d is 0.
  ghost predicate OnlyAt(block: seq<Block>, inode: seq<Inode>, block': seq<Block>, inode': seq<Inode>,
                         i: nat, p: nat, d: nat) {
    forall i2: nat, p2: nat :: Addr(block', inode', i2, p2) ==
      if i2 == i && p2 == p && d != 0 then d else Addr(block, inode, i2, p2)
  }

  lemma ExtendsBy(block: seq<Block>, inode: seq<Inode>, owner: map<nat, Slot>,
                  block': seq<Block>, inode': seq<Inode>, owner': map<nat, Slot>, i: nat, p: nat, d: nat)
    requires |block'| == |block| && SameSizes(inode, inode') && OnlyAt(block, inode, block', inode', i, p, d)
    requires d != 0 ==> Addr(block, inode, i, p) == 0 && d !in owner
    requires owner' == if d == 0 then owner else owner[d := Slot(i, p)]
    requires forall b :: b in owner && b < |block| && owner[b].p != NDIRECT ==> block'[b] == block[b]
    ensures Extends(block, inode, owner, block', inode', owner')
  {
    hide Addr;
  }

  lemma OwnsIs(sb: Super, block: seq<Block>, inode: seq<Inode>, owner: map<nat, Slot>, extra: set<nat>)
    requires Owns(sb, block, inode, owner, extra)
    ensures Layout(sb) && |block| == sb.size && Referenced(sb, block, inode, owner)
    ensures forall b :: b in owner ==> sb.nmeta <= b < sb.size
    ensures extra !! owner.Keys && forall b :: b in extra ==> sb.nmeta <= b < sb.size
  {
  }

  lemma AddrEmpty(block: seq<Block>, inode: seq<Inode>, i: nat, p: nat)
    requires i < |inode| && p <= NDIRECT && inode[i].addrs[p] == 0
    ensures Addr(block, inode, i, p) == 0
  {
  }

  lemma Index(b: nat, bi: nat)
    requires b % BPB == 0 && bi < BPB
    ensures (b + bi) / BPB == b / BPB && (b + bi) % BPB == bi
  {
  }

  lemma NotUsed(sb: Super, block: seq<Block>, inode: seq<Inode>, owner: map<nat, Slot>, d: nat)
    requires Owns(sb, block, inode, owner, {}) && d < sb.size
    ensures d / BPB + sb.bmapstart < |block|
    ensures !Used(sb, block, d) ==> sb.nmeta <= d && d !in owner
  {
    UsedInMeta(sb, d);
    hide BitAt, Referenced;
  }
}
