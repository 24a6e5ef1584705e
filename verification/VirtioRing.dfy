/**
 The descriptor ring of kernel/virtio_disk.c, with the requests in flight as ghost state.  The
 parts of virtio_disk_rw between its sleeps, the interrupt handler and the two steps of the
 device are methods; every one of them keeps Inv, so that every interleaving does.
*/
module VirtioRing {

  const NUM := 8
  const WRAP := 65536  // avail->idx, used->idx and used_idx are uint16

  // What a descriptor's addr points at: a command header, a buffer's data, a status byte.
  datatype Addr = NoAddr | OpsAt(i: nat) | DataOf(b: nat) | StatusAt(i: nat)

  // flags as its two bits VRING_DESC_F_NEXT and VRING_DESC_F_WRITE
  datatype Desc = Desc(addr: Addr, len: nat, more: bool, devWrites: bool, next: nat)

  const NODESC := Desc(NoAddr, 0, false, false, 0)

  // A command header; its type is 0 to read the disk and 1 to write it.
  datatype Op = Op(kind: nat, reserved: nat, sector: nat)

  // b == 0 stands for the null pointer.
  datatype Info = Info(b: nat, status: nat)

  datatype Phase = Queued | Taken | Completed | Done

  datatype Req = Req(mid: nat, tail: nat, buf: nat, write: bool, blockno: nat, phase: Phase) {
    function Chain(h: nat): seq<nat> { [h, mid, tail] }
  }

  datatype Ring = Ring(free: seq<bool>, desc: seq<Desc>, info: seq<Info>, ops: seq<Op>)

  predicate Sized(r: Ring) { |r.free| == |r.desc| == |r.info| == |r.ops| == NUM }

  /** Section 5.2.6 of VIRTIO 1.1: a request is a 16-byte header with type and sector, the data,
      which the device writes when the disk is read, and a status byte that the device writes. */
  predicate Formatted(r: Ring, h: nat, q: Req)
    requires Sized(r)
  {
    && h < NUM && q.mid < NUM && q.tail < NUM && h != q.mid && h != q.tail && q.mid != q.tail
    && r.ops[h] == Op(if q.write then 1 else 0, 0, q.blockno * 2)
    && r.desc[h] == Desc(OpsAt(h), 16, true, false, q.mid)
    && r.desc[q.mid] == Desc(DataOf(q.buf), 1024, true, !q.write, q.tail)
    && r.desc[q.tail] == Desc(StatusAt(h), 1, false, true, 0)
    && r.info[h].b == q.buf && q.buf != 0
    && (q.phase == Completed || q.phase == Done ==> r.info[h].status == 0)
  }

  // ---------- what the device does with a chain ----------

  type byte = x: nat | x < 256
  type Sector = s: seq<byte> | |s| == 512 witness seq(512, i => 0)
  type Data = s: seq<byte> | |s| == 1024 witness seq(1024, i => 0)

  // A disk of 512-byte sectors, and the data of the buffers; what was never written is zero.
  datatype Store = Store(sectors: map<nat, Sector>, data: map<nat, Data>) {
    function SectorAt(i: nat): Sector { if i in sectors then sectors[i] else seq(512, j => 0) }
    function Buf(b: nat): Data { if b in data then data[b] else seq(1024, j => 0) }
    function ByteAt(k: nat): byte { SectorAt(k / 512)[k % 512] }
  }

  // Whole sectors from i on.
  function FromDisk(st: Store, i: nat, n: nat): (s: seq<byte>)
    ensures |s| == n * 512
    decreases n
  {
    if n == 0 then [] else st.SectorAt(i) + FromDisk(st, i + 1, n - 1)
  }

  function ToDisk(st: Store, i: nat, s: seq<byte>): Store
    decreases |s|
  {
    if |s| < 512 then st else ToDisk(st.(sectors := st.sectors[i := s[..512]]), i + 1, s[512..])
  }

  /** Section 5.2.6 of VIRTIO 1.1, from the ring alone: the head's descriptor leads to a header, the
      next to the data and the last to a status byte.  Type 1 writes the device's readable data to
      the disk from the header's sector on, and type 0 reads the disk into its writable data. */
  function Serve(r: Ring, h: nat, st: Store): Store
    requires Sized(r) && h < NUM
  {
    var d0 := r.desc[h];
    if !(d0.addr.OpsAt? && d0.addr.i < NUM && d0.len == 16 && d0.more && !d0.devWrites && d0.next < NUM) then st
    else
      var op, d1 := r.ops[d0.addr.i], r.desc[d0.next];
      if !(d1.addr.DataOf? && d1.len % 512 == 0 && d1.len <= 1024 && d1.more && d1.next < NUM) then st
      else
        var d2, b := r.desc[d1.next], d1.addr.b;
        if !(d2.addr.StatusAt? && d2.len == 1 && !d2.more && d2.devWrites) then st
        else if op.kind == 1 && !d1.devWrites then ToDisk(st, op.sector, st.Buf(b)[..d1.len])
        else if op.kind == 0 && d1.devWrites then
          st.(data := st.data[b := FromDisk(st, op.sector, d1.len / 512) + st.Buf(b)[d1.len..]])
        else st
  }

  lemma {:induction false} ToDiskBytes(st: Store, i: nat, s: seq<byte>, k: nat)
    requires |s| % 512 == 0
    ensures ToDisk(st, i, s).data == st.data
    ensures ToDisk(st, i, s).ByteAt(k) == if i * 512 <= k < i * 512 + |s| then s[k - i * 512] else st.ByteAt(k)
    decreases |s|
  {
    if |s| >= 512 { ToDiskBytes(st.(sectors := st.sectors[i := s[..512]]), i + 1, s[512..], k); }
  }

  lemma {:induction false} FromDiskBytes(st: Store, i: nat, n: nat, k: nat)
    requires k < n * 512
    ensures FromDisk(st, i, n)[k] == st.ByteAt(i * 512 + k)
    decreases n
  {
    if k >= 512 {
      FromDiskBytes(st, i + 1, n - 1, k - 512);
      assert FromDisk(st, i, n)[k] == FromDisk(st, i + 1, n - 1)[k - 512];
    } else {
      assert (i * 512 + k) / 512 == i && (i * 512 + k) % 512 == k;
    }
  }

  /** Block n of the disk is its bytes from 1024 n on.  A write makes it what the buffer holds and
      changes no other byte of the disk; a read makes the buffer what the block holds. */
  ghost predicate Moves(write: bool, n: nat, b: nat, st: Store, st': Store) {
    if write then
      && st'.data == st.data
      && forall k: nat :: st'.ByteAt(k) ==
           if n * 1024 <= k < n * 1024 + 1024 then st.Buf(b)[k - n * 1024] else st.ByteAt(k)
    else
      && st'.sectors == st.sectors
      && (forall k: nat :: k < 1024 ==> st'.Buf(b)[k] == st.ByteAt(n * 1024 + k))
      && forall c: nat :: c != b ==> st'.Buf(c) == st.Buf(c)
  }

  /** What a request asks for is what the device makes of its chain. */
  lemma ServeMoves(r: Ring, h: nat, q: Req, st: Store)
    requires Sized(r) && Formatted(r, h, q)
    ensures h < NUM && Moves(q.write, q.blockno, q.buf, st, Serve(r, h, st))
  {
    hide ToDisk, FromDisk, Store.ByteAt;
    if q.write {
      assert st.Buf(q.buf)[..1024] == st.Buf(q.buf);
      forall k: nat ensures Serve(r, h, st).ByteAt(k) ==
        if q.blockno * 1024 <= k < q.blockno * 1024 + 1024 then st.Buf(q.buf)[k - q.blockno * 1024] else st.ByteAt(k)
      {
        ToDiskBytes(st, q.blockno * 2, st.Buf(q.buf), k);
      }
      ToDiskBytes(st, q.blockno * 2, st.Buf(q.buf), 0);
    } else {
      forall k: nat | k < 1024 ensures Serve(r, h, st).Buf(q.buf)[k] == st.ByteAt(q.blockno * 1024 + k) {
        FromDiskBytes(st, q.blockno * 2, 2, k);
      }
    }
  }

  // own names the request that each busy descriptor belongs to.
  ghost predicate HeadOk(r: Ring, live: map<nat, Req>, own: map<nat, nat>, h: nat)
    requires Sized(r)
  {
    h in live ==>
      && Formatted(r, h, live[h]) && h in own && own[h] == h
      && live[h].mid in own && own[live[h].mid] == h && live[h].tail in own && own[live[h].tail] == h
  }

  ghost predicate DescOk(r: Ring, live: map<nat, Req>, own: map<nat, nat>, d: nat)
    requires Sized(r) && d < NUM
  {
    && (r.free[d] <==> d !in own)
    && (d in own ==> own[d] in live && (d == own[d] || d == live[own[d]].mid || d == live[own[d]].tail))
  }

  /** The busy descriptors are exactly the disjoint union of the chains of the live requests. */
  ghost predicate Chains(r: Ring, live: map<nat, Req>, own: map<nat, nat>) {
    && Sized(r) && (forall h :: h in live ==> h < NUM) && (forall d :: d in own ==> d < NUM)
    && (forall h: nat :: h < NUM ==> HeadOk(r, live, own, h))
    && forall d: nat :: d < NUM ==> DescOk(r, live, own, d)
  }

  // The buffers of the requests are distinct, and b->disk is set until the interrupt.
  ghost predicate Buffers(live: map<nat, Req>, busy: set<nat>) {
    && (forall h, g :: h in live && g in live && h != g ==> live[h].buf != live[g].buf)
    && (forall h :: h in live ==> (live[h].buf in busy <==> live[h].phase != Done))
  }

  ghost predicate Distinct(s: seq<nat>) { forall i, j :: 0 <= i < j < |s| ==> s[i] != s[j] }

  function Low16(n: nat): nat { n % WRAP }

  function Slot(n: nat): (i: nat)
    ensures i < NUM
  {
    n % NUM
  }

  lemma IndexIs(n: nat)
    ensures Slot(n) == n % 8 && Low16(n + 1) == (n + 1) % 65536
  {
  }

  // The queue of heads between two ring positions.
  ghost predicate Queue(ring: seq<nat>, base: nat, pend: seq<nat>, live: map<nat, Req>, ph: Phase) {
    && |ring| == NUM && Distinct(pend)
    && (forall h :: h in pend <==> h in live && live[h].phase == ph)
    && forall k :: 0 <= k < |pend| ==> ring[Slot(base + k)] == pend[k]
  }

  // ---------- at most two requests are in flight ----------

  lemma SubsetCount(a: set<nat>, b: set<nat>)
    requires a <= b
    ensures |a| <= |b|
  {
    assert b == a + (b - a);
    assert |a + (b - a)| + |a * (b - a)| == |a| + |b - a|;
    assert a * (b - a) == {};
  }

  lemma ThreeElements(x: nat, y: nat, z: nat)
    requires x != y && x != z && y != z
    ensures |{x, y, z}| == 3
  {
    assert |{x} + {y}| == 2;
    assert |{x} + {y} + {z}| == 3;
    assert {x, y, z} == {x} + {y} + {z};
  }

  lemma MembersOf(r: Ring, live: map<nat, Req>, own: map<nat, nat>, h: nat)
    requires Chains(r, live, own) && h in live
    ensures var q := live[h]; h < NUM && q.mid < NUM && q.tail < NUM && h != q.mid && h != q.tail && q.mid != q.tail
    ensures var q := live[h];
      h in own && own[h] == h && q.mid in own && own[q.mid] == h && q.tail in own && own[q.tail] == h
    ensures var q := live[h]; Sized(r) && !r.free[h] && !r.free[q.mid] && !r.free[q.tail] && Formatted(r, h, q)
  {
    var q := live[h];
    assert HeadOk(r, live, own, h);
    assert DescOk(r, live, own, h) && DescOk(r, live, own, q.mid) && DescOk(r, live, own, q.tail);
  }

  lemma Union(a: set<nat>, b: set<nat>)
    requires a !! b
    ensures |a + b| == |a| + |b|
  {
    assert |a + b| + |a * b| == |a| + |b|;
    assert a * b == {};
  }

  lemma Fit(a: set<nat>, b: set<nat>, c: set<nat>)
    requires a !! b && (a + b) !! c && forall d :: d in a + b + c ==> d < NUM
    ensures |a| + |b| + |c| <= 8
  {
    Union(a, b);
    Union(a + b, c);
    assert |{0, 1, 2, 3, 4, 5, 6, 7}| == 8;
    SubsetCount(a + b + c, {0, 1, 2, 3, 4, 5, 6, 7});
  }

  /** Of heads in flight there are at most two, so no ring of eight entries is ever overrun. */
  lemma AtMostTwo(r: Ring, live: map<nat, Req>, own: map<nat, nat>, pend: seq<nat>)
    requires Chains(r, live, own) && Distinct(pend) && forall h :: h in pend ==> h in live
    ensures |pend| <= 2
  {
    if |pend| > 2 {
      var x, y, z := pend[0], pend[1], pend[2];
      assert x in pend && y in pend && z in pend && x != y && x != z && y != z;
      ThreeRequests(r, live, own, x, y, z);
    }
  }

  // Three requests need nine descriptors.
  lemma ThreeRequests(r: Ring, live: map<nat, Req>, own: map<nat, nat>, x: nat, y: nat, z: nat)
    requires Chains(r, live, own) && x in live && y in live && z in live && x != y && x != z
    ensures y == z
  {
    hide *;
    if y != z {
      var a := Members(r, live, own, x);
      var b := Members(r, live, own, y);
      var c := Members(r, live, own, z);
      Fit(a, b, c);
    }
  }

  // The descriptors of a request, three of them and its own.
  lemma Members(r: Ring, live: map<nat, Req>, own: map<nat, nat>, h: nat) returns (c: set<nat>)
    requires Chains(r, live, own) && h in live
    ensures |c| == 3 && forall d :: d in c ==> d in own && own[d] == h && d < NUM
  {
    hide Chains;
    MembersOf(r, live, own, h);
    c := {h, live[h].mid, live[h].tail};
    ThreeElements(h, live[h].mid, live[h].tail);
  }

  // ---------- how a step changes requests and queues ----------

  // Descriptors that are free may hold anything.
  lemma ChainsSame(r: Ring, r': Ring, live: map<nat, Req>, own: map<nat, nat>)
    requires Chains(r, live, own) && Sized(r') && r'.free == r.free && r'.info == r.info && r'.ops == r.ops
    requires forall d :: 0 <= d < NUM && !r.free[d] ==> r'.desc[d] == r.desc[d]
    ensures Chains(r', live, own)
  {
    forall h: nat | h < NUM ensures HeadOk(r', live, own, h) {
      assert HeadOk(r, live, own, h);
      if h in live { MembersOf(r, live, own, h); }
    }
    forall d: nat | d < NUM ensures DescOk(r', live, own, d) {
      assert DescOk(r, live, own, d);
    }
  }

  lemma ChainsSized(r: Ring, live: map<nat, Req>, own: map<nat, nat>)
    requires Chains(r, live, own)
    ensures Sized(r)
  {
  }

  lemma ThreeOf(idx: seq<nat>)
    requires |idx| == 3 && Distinct(idx)
    ensures idx[0] != idx[1] && idx[0] != idx[2] && idx[1] != idx[2]
    ensures idx[0] in idx && idx[1] in idx && idx[2] in idx
    ensures forall d :: d in idx <==> d == idx[0] || d == idx[1] || d == idx[2]
  {
  }

  lemma ChainsAdd(r: Ring, r': Ring, live: map<nat, Req>, own: map<nat, nat>, h: nat, q: Req)
    requires Chains(r, live, own) && Sized(r') && Formatted(r', h, q)
    requires r.free[h] && r.free[q.mid] && r.free[q.tail]
    requires forall d :: 0 <= d < NUM ==> (r'.free[d] <==> r.free[d] && d != h && d != q.mid && d != q.tail)
    requires forall d :: 0 <= d < NUM && !r.free[d] ==>
      r'.desc[d] == r.desc[d] && r'.info[d] == r.info[d] && r'.ops[d] == r.ops[d]
    ensures h !in live && Chains(r', live[h := q], own[h := h][q.mid := h][q.tail := h])
  {
    var live', own' := live[h := q], own[h := h][q.mid := h][q.tail := h];
    assert DescOk(r, live, own, h) && HeadOk(r, live, own, h);
    forall g: nat | g < NUM ensures HeadOk(r', live', own', g) {
      assert HeadOk(r, live, own, g);
      if g in live { MembersOf(r, live, own, g); }
    }
    forall d: nat | d < NUM ensures DescOk(r', live', own', d) {
      assert DescOk(r, live, own, d);
      hide Formatted;
    }
  }

  lemma ChainsDrop(r: Ring, r': Ring, live: map<nat, Req>, own: map<nat, nat>, h: nat)
    requires Chains(r, live, own) && h in live && Sized(r') && r'.ops == r.ops
    requires var q := live[h];
      && (forall d :: 0 <= d < NUM ==> (r'.free[d] <==> r.free[d] || d in q.Chain(h)))
      && (forall d :: 0 <= d < NUM && d !in q.Chain(h) ==> r'.desc[d] == r.desc[d] && r'.info[d] == r.info[d])
    ensures Chains(r', live - {h}, own - {h, live[h].mid, live[h].tail})
  {
    var live', own' := live - {h}, own - {h, live[h].mid, live[h].tail};
    MembersOf(r, live, own, h);
    forall g: nat | g < NUM ensures HeadOk(r', live', own', g) {
      assert HeadOk(r, live, own, g);
      if g in live { MembersOf(r, live, own, g); }
    }
    forall d: nat | d < NUM ensures DescOk(r', live', own', d) {
      assert DescOk(r, live, own, d);
      hide Formatted;
    }
  }

  // A request moves on to its next phase; its status may have been set.
  lemma ChainsPhase(r: Ring, r': Ring, live: map<nat, Req>, own: map<nat, nat>, h: nat, ph: Phase)
    requires Chains(r, live, own) && h in live && h < NUM
    requires r' == r || r' == r.(info := r.info[h := r.info[h].(status := 0)])
    requires ph == Completed || ph == Done ==> r'.info[h].status == 0
    ensures Chains(r', live[h := live[h].(phase := ph)], own)
  {
    var live' := live[h := live[h].(phase := ph)];
    forall g: nat | g < NUM ensures HeadOk(r', live', own, g) {
      assert HeadOk(r, live, own, g);
    }
    forall d: nat | d < NUM ensures DescOk(r', live', own, d) {
      assert DescOk(r, live, own, d);
      hide Formatted;
    }
  }

  // Nothing about a queue depends on requests in other phases.
  lemma QueueSame(ring: seq<nat>, base: nat, pend: seq<nat>, live: map<nat, Req>, live': map<nat, Req>, ph: Phase)
    requires Queue(ring, base, pend, live, ph)
    requires forall h: nat :: (h in live && live[h].phase == ph) <==> (h in live' && live'[h].phase == ph)
    ensures Queue(ring, base, pend, live', ph)
  {
  }

  lemma QueueHead(ring: seq<nat>, base: nat, pend: seq<nat>, live: map<nat, Req>, ph: Phase)
    requires Queue(ring, base, pend, live, ph) && pend != []
    ensures pend[0] in live && live[pend[0]].phase == ph && Distinct(pend)
  {
    assert pend[0] in pend;
  }

  lemma QueueIs(ring: seq<nat>, base: nat, pend: seq<nat>, live: map<nat, Req>, ph: Phase)
    requires Queue(ring, base, pend, live, ph)
    ensures |ring| == NUM && Distinct(pend) && forall h :: h in pend <==> h in live && live[h].phase == ph
    ensures forall h :: h in pend ==> h in live
  {
  }

  lemma BuffersAdd(live: map<nat, Req>, busy: set<nat>, h: nat, q: Req)
    requires Buffers(live, busy) && h !in live && q.phase == Queued && forall g :: g in live ==> live[g].buf != q.buf
    ensures Buffers(live[h := q], busy + {q.buf})
  {
  }

  lemma BuffersDrop(live: map<nat, Req>, busy: set<nat>, h: nat)
    requires Buffers(live, busy) && h in live
    ensures Buffers(live - {h}, busy) && (live[h].buf !in busy <==> live[h].phase == Done)
  {
  }

  lemma BuffersPhase(live: map<nat, Req>, busy: set<nat>, h: nat, ph: Phase)
    requires Buffers(live, busy) && h in live && live[h].phase != Done
    ensures Buffers(live[h := live[h].(phase := ph)], if ph == Done then busy - {live[h].buf} else busy)
  {
  }

  lemma Modular(base: nat, k: nat, n: nat)
    requires k < n < NUM
    ensures Slot(base + k) != Slot(base + n)
  {
  }

  // The low bits of a 16-bit index are those of the unbounded count.
  lemma Wrapped(n: nat)
    ensures Slot(Low16(n)) == Slot(n) && Low16(n + 1) == Low16(Low16(n) + 1)
  {
    assert n == n / WRAP * WRAP + n % WRAP;
  }

  lemma NotFull(base: nat, n: nat)
    requires n <= 2
    ensures Low16(base + n) == Low16(base) <==> n == 0
  {
  }

  lemma QueuePush(ring: seq<nat>, base: nat, pend: seq<nat>, live: map<nat, Req>, live': map<nat, Req>, ph: Phase,
                  h: nat)
    requires Queue(ring, base, pend, live, ph) && |pend| < NUM && h !in pend
    requires forall g: nat :: (g in live' && live'[g].phase == ph) <==> g == h || (g in live && live[g].phase == ph)
    ensures Queue(ring[Slot(base + |pend|) := h], base, pend + [h], live', ph)
  {
    forall k | 0 <= k < |pend| ensures ring[Slot(base + |pend|) := h][Slot(base + k)] == pend[k] {
      Modular(base, k, |pend|);
    }
  }

  lemma QueuePop(ring: seq<nat>, base: nat, pend: seq<nat>, live: map<nat, Req>, live': map<nat, Req>, ph: Phase)
    requires Queue(ring, base, pend, live, ph) && pend != []
    requires forall g: nat :: (g in live' && live'[g].phase == ph) <==> g != pend[0] && g in live && live[g].phase == ph
    ensures ring[Slot(base)] == pend[0] && pend[0] in live && live[pend[0]].phase == ph
    ensures Queue(ring, base + 1, pend[1..], live', ph)
  {
    assert ring[Slot(base + 0)] == pend[0] && pend[0] in pend;
    forall k | 0 <= k < |pend[1..]| ensures ring[Slot(base + 1 + k)] == pend[1..][k] {
      assert ring[Slot(base + (k + 1))] == pend[k + 1];
    }
    forall g ensures g in pend[1..] <==> g in pend && g != pend[0] {
      if g in pend[1..] { var k :| 0 <= k < |pend[1..]| && pend[1..][k] == g; assert pend[k + 1] == g; }
      if g in pend && g != pend[0] { var k :| 0 <= k < |pend| && pend[k] == g; assert pend[1..][k - 1] == g; }
    }
  }

  // Fewer than three are free.
  ghost predicate FewFree(free: seq<bool>) {
    forall x, y, z :: 0 <= x < y < z < |free| ==> !(free[x] && free[y] && free[z])
  }

  lemma TwoAtMost(free: seq<bool>, idx: seq<nat>)
    requires |free| == NUM && |idx| <= 2 && forall d :: 0 <= d < NUM && free[d] ==> d in idx
    ensures FewFree(free)
  {
  }

  class Disk {
    var ring: Ring
    var availRing: seq<nat>
    var availIdx: nat
    var devIdx: nat            // how far the device has read the avail ring
    var usedRing: seq<nat>
    var usedIdx: nat           // the device's
    var usedSeen: nat          // disk.used_idx
    var busy: set<nat>         // the buffers with b->disk == 1
    var store: Store           // the disk, and the buffers in memory
    ghost var live: map<nat, Req>
    ghost var own: map<nat, nat>
    ghost var pendA: seq<nat>  // heads offered and not yet taken by the device
    ghost var pendU: seq<nat>  // heads completed and not yet seen by the driver
    ghost var taken: nat       // how many heads the device has taken, ever
    ghost var seen: nat        // how many completions the driver has seen, ever

    ghost predicate Inv()
      reads this
    {
      && Chains(ring, live, own) && Buffers(live, busy)
      && Queue(availRing, taken, pendA, live, Queued) && availIdx == Low16(taken + |pendA|)
      && Queue(usedRing, seen, pendU, live, Completed) && usedIdx == Low16(seen + |pendU|)
      && usedSeen == Low16(seen) && devIdx == Low16(taken)
    }

    lemma InvIs()
      ensures Inv() <==>
        && Chains(ring, live, own) && Buffers(live, busy)
        && Queue(availRing, taken, pendA, live, Queued) && availIdx == Low16(taken + |pendA|)
        && Queue(usedRing, seen, pendU, live, Completed) && usedIdx == Low16(seen + |pendU|)
        && usedSeen == Low16(seen) && devIdx == Low16(taken)
    {
      hide Queue, Chains, Buffers, Low16;
    }

    constructor ()
      ensures Inv() && live == map[] && busy == {} && forall d :: 0 <= d < NUM ==> ring.free[d]
    {
      ring := Ring(seq(NUM, i => true), seq(NUM, i => NODESC), seq(NUM, i => Info(0, 0)), seq(NUM, i => Op(0, 0, 0)));
      availRing, usedRing := seq(NUM, i => 0), seq(NUM, i => 0);
      availIdx, devIdx, usedIdx, usedSeen, busy := 0, 0, 0, 0, {};
      store := Store(map[], map[]);
      live, own, pendA, pendU, taken, seen := map[], map[], [], [], 0, 0;
    }

    method AllocDesc() returns (i: int)
      requires Sized(ring)
      modifies `ring
      ensures i == -1 ==> ring == old(ring) && forall d :: 0 <= d < NUM ==> !ring.free[d]
      ensures i != -1 ==> 0 <= i < NUM && old(ring).free[i] && ring == old(ring).(free := old(ring).free[i := false])
    {
      i := 0;
      while i < NUM
        invariant 0 <= i <= NUM && ring == old(ring) && forall d :: 0 <= d < i ==> !ring.free[d]
      {
        if ring.free[i] {
          ring := ring.(free := ring.free[i := false]);
          return;
        }
        i := i + 1;
      }
      i := -1;
    }

    method FreeDesc(i: nat)
      requires Sized(ring) && i < NUM && !ring.free[i]
      modifies `ring
      ensures ring == old(ring).(free := old(ring).free[i := true], desc := old(ring).desc[i := NODESC])
    {
      ring := ring.(desc := ring.desc[i := NODESC], free := ring.free[i := true]);
    }

    /** alloc3_desc: three free descriptors are taken, or none: then fewer than three were free, and
        no other descriptor has changed. */
    method Alloc3() returns (ok: bool, idx: seq<nat>)
      requires Sized(ring)
      modifies `ring
      ensures Sized(ring) && ring.info == old(ring).info && ring.ops == old(ring).ops
      ensures forall d :: 0 <= d < NUM && !old(ring).free[d] ==> ring.desc[d] == old(ring).desc[d]
      ensures ok ==> |idx| == 3 && Distinct(idx) && forall d :: d in idx ==> d < NUM && old(ring).free[d]
      ensures ok ==> forall d :: 0 <= d < NUM ==> (ring.free[d] <==> old(ring).free[d] && d !in idx)
      ensures !ok ==> ring.free == old(ring).free && FewFree(ring.free)
    {
      idx := [];
      while |idx| < 3
        invariant |idx| <= 3 && Distinct(idx) && ring == old(ring).(free := ring.free) && |ring.free| == NUM
        invariant forall d :: d in idx ==> d < NUM && old(ring).free[d]
        invariant forall d :: 0 <= d < NUM ==> (ring.free[d] <==> old(ring).free[d] && d !in idx)
        decreases 3 - |idx|
      {
        var i := AllocDesc();
        if i == -1 {
          TwoAtMost(old(ring).free, idx);
          GiveBack(idx);
          return false, idx;
        }
        idx := idx + [i];
      }
      ok := true;
    }

    // The loop that backs out of a failed alloc3_desc.
    method GiveBack(idx: seq<nat>)
      requires Sized(ring) && Distinct(idx) && forall d :: d in idx ==> d < NUM && !ring.free[d]
      modifies `ring
      ensures Sized(ring) && ring.info == old(ring).info && ring.ops == old(ring).ops
      ensures forall d :: 0 <= d < NUM ==> ring.free[d] == (old(ring).free[d] || d in idx)
      ensures forall d :: 0 <= d < NUM && d !in idx ==> ring.desc[d] == old(ring).desc[d]
    {
      var j := 0;
      while j < |idx|
        invariant 0 <= j <= |idx| && Sized(ring) && ring.info == old(ring).info && ring.ops == old(ring).ops
        invariant forall d :: 0 <= d < NUM ==> ring.free[d] == (old(ring).free[d] || d in idx[..j])
        invariant forall d :: 0 <= d < NUM && d !in idx ==> ring.desc[d] == old(ring).desc[d]
      {
        assert idx[j] in idx && idx[j] !in idx[..j];
        FreeDesc(idx[j]);
        assert idx[..j + 1] == idx[..j] + [idx[j]];
        j := j + 1;
      }
      assert idx[..j] == idx;
    }

    /** free_chain: exactly the descriptors of the chain become free, and are cleared.  The panic
        "free_desc 2" cannot happen. */
    method FreeChain(i: nat, ghost c: seq<nat>)
      requires Sized(ring) && |c| > 0 && c[0] == i && Distinct(c) && forall d :: d in c ==> d < NUM && !ring.free[d]
      requires forall k :: 0 <= k < |c| ==> LinkAt(ring.desc, c, k)
      modifies `ring
      ensures Sized(ring) && ring.info == old(ring).info && ring.ops == old(ring).ops
      ensures forall d :: 0 <= d < NUM ==> ring.free[d] == (old(ring).free[d] || d in c)
      ensures forall d :: 0 <= d < NUM ==> ring.desc[d] == if d in c then NODESC else old(ring).desc[d]
    {
      var at := i;
      ghost var k := 0;
      while true
        invariant 0 <= k < |c| && at == c[k] && Sized(ring) && ring.info == old(ring).info && ring.ops == old(ring).ops
        invariant forall d :: 0 <= d < NUM ==> ring.free[d] == (old(ring).free[d] || d in c[..k])
        invariant forall d :: 0 <= d < NUM ==> ring.desc[d] == if d in c[..k] then NODESC else old(ring).desc[d]
        decreases |c| - k
      {
        assert c[k] in c && c[k] !in c[..k] && LinkAt(old(ring).desc, c, k);
        var more, nxt := ring.desc[at].more, ring.desc[at].next;
        FreeDesc(at);
        assert c[..k + 1] == c[..k] + [c[k]];
        if !more {
          assert c[..k + 1] == c;
          break;
        }
        at := nxt;
        k := k + 1;
      }
    }

    /** One turn of virtio_disk_rw up to its sleep: three descriptors are formatted as a request for
        b and its head is offered to the device, in a ring entry that the device has already
        consumed; or fewer than three descriptors are free and nothing changes. */
    method Submit(b: nat, blockno: nat, write: bool) returns (ok: bool, h: nat)
      requires Inv() && b != 0 && b !in busy && forall g :: g in live ==> live[g].buf != b
      modifies `ring, `busy, `live, `own, `availRing, `availIdx, `pendA
      ensures Inv()
      ensures !ok ==> live == old(live) && busy == old(busy) && pendA == old(pendA) && ring.free == old(ring).free
      ensures !ok ==> FewFree(ring.free)
      ensures ok ==> h !in old(live) && live.Keys == old(live).Keys + {h} && busy == old(busy) + {b}
      ensures ok ==> forall g :: g in old(live) ==> live[g] == old(live)[g]
      ensures ok ==> live[h].buf == b && live[h].write == write && live[h].blockno == blockno && live[h].phase == Queued
      ensures ok ==> pendA == old(pendA) + [h] && taken == old(taken)
      ensures pendU == old(pendU) && seen == old(seen)
      ensures ok ==> |availRing| == NUM && availRing[old(availIdx) % 8] == h && availIdx == (old(availIdx) + 1) % 65536
    {
      hide Queue, Chains, Formatted, Buffers, Distinct, Low16, Slot, FewFree;
      h := 0;
      ghost var ring0, live0, own0, busy0 := ring, live, own, busy;
      QueueIs(availRing, taken, pendA, live, Queued);
      AtMostTwo(ring, live, own, pendA);
      ChainsSized(ring, live, own);
      var idx;
      ok, idx := Alloc3();
      if !ok {
        ChainsSame(ring0, ring, live, own);
        return;
      }
      h := Issue(idx, b, blockno, write, ring0);
    }

    // The request goes into the three descriptors just taken, and its head to the device.
    method Issue(idx: seq<nat>, b: nat, blockno: nat, write: bool, ghost ring0: Ring) returns (h: nat)
      requires Chains(ring0, live, own) && Buffers(live, busy) && Sized(ring)
      requires Queue(availRing, taken, pendA, live, Queued) && availIdx == Low16(taken + |pendA|) && |pendA| <= 2
      requires Queue(usedRing, seen, pendU, live, Completed) && usedIdx == Low16(seen + |pendU|)
      requires usedSeen == Low16(seen) && devIdx == Low16(taken)
      requires b != 0 && (forall g :: g in live ==> live[g].buf != b)
      requires ring.info == ring0.info && ring.ops == ring0.ops
      requires |idx| == 3 && Distinct(idx) && forall d :: d in idx ==> d < NUM && ring0.free[d]
      requires forall d :: 0 <= d < NUM ==> (ring.free[d] <==> ring0.free[d] && d !in idx)
      requires forall d :: 0 <= d < NUM && !ring0.free[d] ==> ring.desc[d] == ring0.desc[d]
      modifies `ring, `busy, `live, `own, `availRing, `availIdx, `pendA
      ensures Inv() && h !in old(live) && busy == old(busy) + {b} && pendA == old(pendA) + [h]
      ensures h in live && live == old(live)[h := live[h]]
      ensures live[h].buf == b && live[h].write == write && live[h].blockno == blockno && live[h].phase == Queued
      ensures pendU == old(pendU) && seen == old(seen) && taken == old(taken)
      ensures |availRing| == NUM && availRing[old(availIdx) % 8] == h && availIdx == (old(availIdx) + 1) % 65536
    {
      hide *;
      ghost var live0, busy0 := live, busy;
      h := idx[0];
      ghost var q := Req(idx[1], idx[2], b, write, blockno, Queued);
      WriteRequest(idx, b, blockno, write, ring0);
      busy := busy + {b};
      live, own := live[h := q], own[h := h][idx[1] := h][idx[2] := h];
      BuffersAdd(live0, busy0, h, q);
      QueueSame(usedRing, seen, pendU, live0, live, Completed);
      Offer(h, live0);
      InvIs();
    }

    method WriteRequest(idx: seq<nat>, b: nat, blockno: nat, write: bool, ghost ring0: Ring)
      requires Chains(ring0, live, own) && Sized(ring) && b != 0 && ring.info == ring0.info && ring.ops == ring0.ops
      requires |idx| == 3 && Distinct(idx) && forall d :: d in idx ==> d < NUM && ring0.free[d]
      requires forall d :: 0 <= d < NUM ==> (ring.free[d] <==> ring0.free[d] && d !in idx)
      requires forall d :: 0 <= d < NUM && !ring0.free[d] ==> ring.desc[d] == ring0.desc[d]
      modifies `ring
      ensures idx[0] !in live
      ensures Chains(ring, live[idx[0] := Req(idx[1], idx[2], b, write, blockno, Queued)],
                     own[idx[0] := idx[0]][idx[1] := idx[0]][idx[2] := idx[0]])
    {
      hide Chains, Formatted, Distinct;
      ThreeOf(idx);
      Format(idx, b, blockno, write);
      ChainsAdd(ring0, ring, live, own, idx[0], Req(idx[1], idx[2], b, write, blockno, Queued));
    }

    // Filling in the command header, the three descriptors and info.
    method Format(idx: seq<nat>, b: nat, blockno: nat, write: bool)
      requires Sized(ring) && |idx| == 3 && idx[0] < NUM && idx[1] < NUM && idx[2] < NUM && b != 0
      requires idx[0] != idx[1] && idx[0] != idx[2] && idx[1] != idx[2]
      modifies `ring
      ensures Sized(ring) && Formatted(ring, idx[0], Req(idx[1], idx[2], b, write, blockno, Queued))
      ensures ring.info[idx[0]].status == 0xff  // the device writes 0
      ensures ring.free == old(ring).free
      ensures forall d :: 0 <= d < NUM && d !in idx ==>
        ring.desc[d] == old(ring).desc[d] && ring.info[d] == old(ring).info[d] && ring.ops[d] == old(ring).ops[d]
    {
      var i0, i1, i2 := idx[0], idx[1], idx[2];
      var sector := blockno * (1024 / 512);
      ring := ring.(ops := ring.ops[i0 := Op(if write then 1 else 0, 0, sector)]);
      ring := ring.(desc := ring.desc[i0 := Desc(OpsAt(i0), 16, true, false, i1)]);
      ring := ring.(desc := ring.desc[i1 := Desc(DataOf(b), 1024, true, !write, i2)]);
      ring := ring.(info := ring.info[i0 := ring.info[i0].(status := 0xff)]);
      ring := ring.(desc := ring.desc[i2 := Desc(StatusAt(i0), 1, false, true, 0)]);
      ring := ring.(info := ring.info[i0 := ring.info[i0].(b := b)]);
    }

    // The head goes into the avail ring, and then avail->idx moves.
    method Offer(h: nat, ghost live0: map<nat, Req>)
      requires Queue(availRing, taken, pendA, live0, Queued) && availIdx == Low16(taken + |pendA|) && |pendA| <= 2
      requires h !in live0 && h in live && live == live0[h := live[h]] && live[h].phase == Queued
      modifies `availRing, `availIdx, `pendA
      ensures Queue(availRing, taken, pendA, live, Queued) && availIdx == Low16(taken + |pendA|)
      ensures pendA == old(pendA) + [h]
      ensures |availRing| == NUM && availRing[old(availIdx) % 8] == h && availIdx == (old(availIdx) + 1) % 65536
    {
      Wrapped(taken + |pendA|);
      IndexIs(availIdx);
      QueueIs(availRing, taken, pendA, live0, Queued);
      assert h !in pendA;
      QueuePush(availRing, taken, pendA, live0, live, Queued, h);
      availRing := availRing[Slot(availIdx) := h];
      availIdx := Low16(availIdx + 1);
      pendA := pendA + [h];
    }

    /** The rest of virtio_disk_rw, once b->disk is clear: its chain, and no other descriptor, becomes
        free. */
    method Finish(h: nat)
      requires Inv() && h in live && live[h].buf !in busy
      modifies `ring, `live, `own
      ensures Inv() && live == old(live) - {h} && busy == old(busy)
      ensures forall d :: 0 <= d < NUM ==>
        (ring.free[d] <==> old(ring).free[d] || d in old(live)[h].Chain(h))
      ensures |ring.info| == NUM && h < NUM && ring.info[h].b == 0
      ensures forall d :: 0 <= d < NUM && d in old(live)[h].Chain(h) ==>
        ring.desc[d] == Desc(NoAddr, 0, false, false, 0)
    {
      hide Queue, Chains, Formatted, Buffers, Distinct, Low16, Slot, FewFree;
      ghost var ring0, live0, own0, q := ring, live, own, live[h];
      MembersOf(ring, live, own, h);
      ChainLinks(ring, h, q);
      ring := ring.(info := ring.info[h := ring.info[h].(b := 0)]);
      FreeChain(h, q.Chain(h));
      ChainsDrop(ring0, ring, live0, own0, h);
      BuffersDrop(live, busy, h);
      live := live - {h};
      own := own - {h, q.mid, q.tail};
      QueueSame(availRing, taken, pendA, live0, live, Queued);
      QueueSame(usedRing, seen, pendU, live0, live, Completed);
    }

    /** virtio_disk_intr, while the device goes on: moves[i] is what it does in turn i.  The loop ends,
        no completion is left unseen, and exactly the buffers of the requests that have become Done
        are released; their status is 0, so its panic cannot happen. */
    method Intr(moves: seq<seq<Move>>, flight: set<nat>) returns (flight': set<nat>)
      requires Inv() && flight == InFlight(live)
      modifies this
      ensures Inv() && flight' == InFlight(live) && pendU == [] && Later(old(live), live)
      ensures forall h :: h in live ==> live[h].phase != Completed
      ensures busy == set b | b in old(busy) && !Released(old(live), live, b)
      ensures ring.free == old(ring).free && ring.desc == old(ring).desc && ring.ops == old(ring).ops
      ensures moves == [] ==> live == Seen(old(live)) && ring == old(ring)
    {
      hide Queue, Chains, Formatted, Buffers, Distinct, Low16, Slot, FewFree, Released;
      flight' := flight;
      var turn := 0;
      LaterNone(live, busy);
      while usedSeen != usedIdx
        invariant Inv() && flight' == InFlight(live)
        invariant Later(old(live), live) && busy == StillBusy(old(live), live, old(busy))
        invariant ring.free == old(ring).free && ring.desc == old(ring).desc && ring.ops == old(ring).ops
        invariant moves == [] ==> ring == old(ring) && CompletedOnly(old(live), live)
        decreases |Undone(live)|
      {
        ghost var live0, busy0, h := live, busy, 0;
        QueueIs(usedRing, seen, pendU, live, Completed);
        AtMostTwo(ring, live, own, pendU);
        NotFull(seen, |pendU|);
        h := pendU[0];
        SeeOne();
        SeenOne(old(live), live0, live, old(busy), busy0, busy, h);
        ghost var live1 := live;
        flight' := DeviceRun(if turn < |moves| then moves[turn] else [], flight');
        DeviceRan(old(live), live1, live, old(busy), busy);
        turn := turn + 1;
      }
      QueueIs(usedRing, seen, pendU, live, Completed);
      AtMostTwo(ring, live, own, pendU);
      NotFull(seen, |pendU|);
      assert pendU == [];
      forall h | h in live ensures live[h].phase != Completed { assert h !in pendU; }
    }

    // The device takes heads and completes them in any order; what it cannot do it does not.
    method DeviceRun(moves: seq<Move>, flight: set<nat>) returns (flight': set<nat>)
      requires Inv() && flight == InFlight(live)
      modifies this
      ensures Inv() && flight' == InFlight(live) && busy == old(busy)
      ensures Later(old(live), live) && Undone(live) == Undone(old(live))
      ensures ring.free == old(ring).free && ring.desc == old(ring).desc && ring.ops == old(ring).ops
      ensures moves == [] ==> live == old(live) && ring == old(ring)
    {
      hide *;
      flight' := flight;
      LaterNone(live, busy);
      for i := 0 to |moves|
        invariant Inv() && flight' == InFlight(live) && busy == old(busy)
        invariant Later(old(live), live) && Undone(live) == Undone(old(live))
        invariant ring.free == old(ring).free && ring.desc == old(ring).desc && ring.ops == old(ring).ops
        invariant i == 0 ==> live == old(live) && ring == old(ring)
      {
        ghost var live1 := live;
        flight' := DeviceMove(moves[i], flight');
        LaterTrans(old(live), live1, live);
      }
    }

    method DeviceMove(move: Move, flight: set<nat>) returns (flight': set<nat>)
      requires Inv() && flight == InFlight(live)
      modifies this
      ensures Inv() && flight' == InFlight(live) && busy == old(busy)
      ensures Later(old(live), live) && Undone(live) == Undone(old(live))
      ensures ring.free == old(ring).free && ring.desc == old(ring).desc && ring.ops == old(ring).ops
    {
      hide Queue, Chains, Formatted, Buffers, Distinct, Low16, Slot, FewFree;
      flight' := flight;
      LaterNone(live, busy);
      match move
      case Take =>
        if devIdx != availIdx {
          var h := DeviceTake();
          flight' := flight' + {h};
          Stepped(old(live), h, Taken);
        }
      case Complete(h) =>
        if h in flight' {
          DeviceComplete(h);
          flight' := flight' - {h};
          Stepped(old(live), h, Completed);
        }
    }

    // One turn of virtio_disk_intr's loop.
    method SeeOne()
      requires Inv() && pendU != []
      modifies `busy, `usedSeen, `live, `pendU, `seen
      ensures Inv() && ring == old(ring) && pendA == old(pendA) && |pendU| == |old(pendU)| - 1
      ensures var h := old(pendU)[0];
        && h in old(live) && old(live)[h].phase == Completed
        && live == old(live)[h := old(live)[h].(phase := Done)] && busy == old(busy) - {old(live)[h].buf}
        && |usedRing| == NUM && h == usedRing[old(usedSeen) % 8] && usedSeen == (old(usedSeen) + 1) % 65536
    {
      hide *;
      InvIs();
      ghost var live0 := live;
      Wrapped(seen);
      IndexIs(usedSeen);
      QueueHead(usedRing, seen, pendU, live, Completed);
      QueueIs(usedRing, seen, pendU, live, Completed);
      ghost var live1 := live[pendU[0] := live[pendU[0]].(phase := Done)];
      QueuePop(usedRing, seen, pendU, live0, live1, Completed);
      var id := usedRing[Slot(usedSeen)];
      MembersOf(ring, live, own, id);
      FormattedInfo(ring, id, live[id]);
      BuffersPhase(live, busy, id, Done);
      if ring.info[id].status != 0 {
        assert false;  // panic("virtio_disk_intr status")
      }
      var b := ring.info[id].b;
      busy := busy - {b};
      usedSeen := Low16(usedSeen + 1);
      ChainsPhase(ring, ring, live0, own, id, Done);
      live := live1;
      QueueSame(availRing, taken, pendA, live0, live, Queued);
      pendU := pendU[1..];
      seen := seen + 1;
      InvIs();
    }

    // The device takes the next head that was offered.
    method DeviceTake() returns (h: nat)
      requires Inv() && devIdx != availIdx
      modifies `devIdx, `live, `pendA, `taken
      ensures Inv() && h in old(live) && old(live)[h].phase == Queued && [h] + pendA == old(pendA)
      ensures live == old(live)[h := old(live)[h].(phase := Taken)] && busy == old(busy) && ring == old(ring)
      ensures |availRing| == NUM && h == availRing[old(devIdx) % 8] && devIdx == (old(devIdx) + 1) % 65536
    {
      hide *;
      InvIs();
      ghost var live0 := live;
      QueueIs(availRing, taken, pendA, live, Queued);
      AtMostTwo(ring, live, own, pendA);
      NotFull(taken, |pendA|);
      QueueHead(availRing, taken, pendA, live, Queued);
      ghost var g := pendA[0];
      ghost var live1 := live[g := live[g].(phase := Taken)];
      QueuePop(availRing, taken, pendA, live0, live1, Queued);
      Wrapped(taken);
      IndexIs(devIdx);
      h := availRing[Slot(devIdx)];
      devIdx := Low16(devIdx + 1);
      MembersOf(ring, live, own, h);
      ChainsPhase(ring, ring, live0, own, h, Taken);
      BuffersPhase(live0, busy, h, Taken);
      live := live1;
      QueueSame(usedRing, seen, pendU, live0, live, Completed);
      pendA := pendA[1..];
      taken := taken + 1;
      InvIs();
    }

    // By what the ring says of the chain at h: the data moves, and the status byte becomes 0.
    method Perform(h: nat, ghost q: Req)
      requires Sized(ring) && Formatted(ring, h, q)
      modifies `store, `ring
      ensures Moves(q.write, q.blockno, q.buf, old(store), store)
      ensures ring == old(ring).(info := old(ring).info[h := old(ring).info[h].(status := 0)])
    {
      ServeMoves(ring, h, q, store);
      hide Moves, Serve;
      store := Serve(ring, h, store);
      var mid := ring.desc[h].next;
      var last := ring.desc[ring.desc[mid].next].addr;
      ring := ring.(info := ring.info[last.i := ring.info[last.i].(status := 0)]);
    }

    // The device serves a chain it has taken, in any order, and completes it with status 0: a block
    // has moved between the disk and the buffer, and nothing else has.
    method DeviceComplete(h: nat)
      requires Inv() && h in live && live[h].phase == Taken
      modifies this
      ensures Inv() && live == old(live)[h := old(live)[h].(phase := Completed)] && busy == old(busy)
      ensures pendU == old(pendU) + [h]
      ensures usedRing[old(usedIdx) % 8] == h && usedIdx == (old(usedIdx) + 1) % 65536
      ensures ring.free == old(ring).free && ring.desc == old(ring).desc && ring.ops == old(ring).ops
      ensures Moves(old(live)[h].write, old(live)[h].blockno, old(live)[h].buf, old(store), store)
    {
      hide *;
      InvIs();
      ghost var live0, ring0 := live, ring;
      MembersOf(ring, live, own, h);
      QueueIs(usedRing, seen, pendU, live, Completed);
      AtMostTwo(ring, live, own, pendU);
      FormattedHead(ring, live, own, h);
      Perform(h, live[h]);
      ChainsPhase(ring0, ring, live0, own, h, Completed);
      BuffersPhase(live0, busy, h, Completed);
      live := live[h := live[h].(phase := Completed)];
      QueueSame(availRing, taken, pendA, live0, live, Queued);
      PostUsed(h, live0);
      InvIs();
    }

    // The head goes into the used ring, and then used->idx moves.
    method PostUsed(h: nat, ghost live0: map<nat, Req>)
      requires Queue(usedRing, seen, pendU, live0, Completed) && usedIdx == Low16(seen + |pendU|) && |pendU| <= 2
      requires h in live0 && live0[h].phase == Taken && live == live0[h := live0[h].(phase := Completed)]
      modifies `usedRing, `usedIdx, `pendU
      ensures Queue(usedRing, seen, pendU, live, Completed) && usedIdx == Low16(seen + |pendU|)
      ensures pendU == old(pendU) + [h]
      ensures |usedRing| == NUM && usedRing[old(usedIdx) % 8] == h && usedIdx == (old(usedIdx) + 1) % 65536
    {
      QueueIs(usedRing, seen, pendU, live0, Completed);
      Wrapped(seen + |pendU|);
      IndexIs(usedIdx);
      hide Queue, Low16, Slot;
      assert h !in pendU;
      QueuePush(usedRing, seen, pendU, live0, live, Completed, h);
      usedRing := usedRing[Slot(usedIdx) := h];
      usedIdx := Low16(usedIdx + 1);
      pendU := pendU + [h];
      QueueIs(usedRing, seen, pendU, live, Completed);
    }
  }

  // What the device may do: take the next head, or complete one that it has taken.
  datatype Move = Take | Complete(h: nat)

  ghost function InFlight(live: map<nat, Req>): set<nat> { set h | h in live && live[h].phase == Taken }

  ghost function Undone(live: map<nat, Req>): set<nat> { set h | h in live && live[h].phase != Done }

  lemma FormattedHead(r: Ring, live: map<nat, Req>, own: map<nat, nat>, h: nat)
    requires Chains(r, live, own) && h in live
    ensures Sized(r) && h < NUM && Formatted(r, h, live[h])
  {
    assert HeadOk(r, live, own, h);
  }

  // Every completed request has been seen.
  ghost function Seen(live: map<nat, Req>): map<nat, Req> {
    map h | h in live :: if live[h].phase == Completed then live[h].(phase := Done) else live[h]
  }

  function Rank(ph: Phase): nat {
    match ph case Queued => 0 case Taken => 1 case Completed => 2 case Done => 3
  }

  // The same requests, each as far on as it was or further.
  ghost predicate Later(live: map<nat, Req>, live': map<nat, Req>) {
    && live'.Keys == live.Keys
    && forall h :: h in live ==>
         Rank(live[h].phase) <= Rank(live'[h].phase) && live'[h] == live[h].(phase := live'[h].phase)
  }

  // b's request has become Done.
  ghost predicate Released(live: map<nat, Req>, live': map<nat, Req>, b: nat) {
    exists h :: h in live && h in live' && live[h].buf == b && live[h].phase != Done && live'[h].phase == Done
  }

  ghost function StillBusy(live: map<nat, Req>, live': map<nat, Req>, busy: set<nat>): set<nat> {
    set b | b in busy && !Released(live, live', b)
  }

  ghost predicate CompletedOnly(live: map<nat, Req>, live': map<nat, Req>) {
    forall h :: h in live && h in live' && live[h].phase != Completed ==> live'[h] == live[h]
  }

  lemma LaterNone(live: map<nat, Req>, busy: set<nat>)
    ensures Later(live, live) && CompletedOnly(live, live) && StillBusy(live, live, busy) == busy
  {
  }

  lemma SeenOne(live: map<nat, Req>, live1: map<nat, Req>, live2: map<nat, Req>,
                busy: set<nat>, busy1: set<nat>, busy2: set<nat>, h: nat)
    requires Later(live, live1) && busy1 == StillBusy(live, live1, busy)
    requires h in live1 && live1[h].phase == Completed && live2 == live1[h := live1[h].(phase := Done)]
    requires busy2 == busy1 - {live1[h].buf}
    ensures Later(live, live2) && busy2 == StillBusy(live, live2, busy)
    ensures |Undone(live2)| < |Undone(live1)| && InFlight(live2) == InFlight(live1)
    ensures CompletedOnly(live, live1) ==> CompletedOnly(live, live2)
  {
    assert Undone(live2) == Undone(live1) - {h};
    forall b ensures Released(live, live2, b) <==> Released(live, live1, b) || b == live1[h].buf {
      ReleasedOne(live, live1, live2, h, b);
    }
    hide Released;
  }

  lemma ReleasedOne(live: map<nat, Req>, live1: map<nat, Req>, live2: map<nat, Req>, h: nat, b: nat)
    requires Later(live, live1) && h in live1 && live1[h].phase == Completed
    requires live2 == live1[h := live1[h].(phase := Done)]
    ensures Released(live, live2, b) <==> Released(live, live1, b) || b == live1[h].buf
  {
    assert live[h].buf == live1[h].buf && live[h].phase != Done && live2[h].phase == Done;
    if g :| g in live && g in live1 && live[g].buf == b && live[g].phase != Done && live1[g].phase == Done {
      assert live2[g] == live1[g];
    }
  }

  lemma LaterTrans(live: map<nat, Req>, live1: map<nat, Req>, live2: map<nat, Req>)
    requires Later(live, live1) && Later(live1, live2)
    ensures Later(live, live2)
  {
  }

  // One step of the device.
  lemma Stepped(live: map<nat, Req>, h: nat, ph: Phase)
    requires h in live && Rank(live[h].phase) + 1 == Rank(ph) < 3
    ensures var live' := live[h := live[h].(phase := ph)];
      && Later(live, live') && Undone(live') == Undone(live)
      && InFlight(live') == if ph == Taken then InFlight(live) + {h} else InFlight(live) - {h}
  {
  }

  lemma DeviceRan(live: map<nat, Req>, live1: map<nat, Req>, live2: map<nat, Req>, busy: set<nat>, busy2: set<nat>)
    requires Later(live, live1) && busy2 == StillBusy(live, live1, busy)
    requires Later(live1, live2) && Undone(live2) == Undone(live1)
    ensures Later(live, live2) && busy2 == StillBusy(live, live2, busy)
  {
    forall h | h in live1 ensures live2[h].phase == Done <==> live1[h].phase == Done {
      assert h in Undone(live2) <==> h in Undone(live1);
    }
  }

  lemma ChainLinks(r: Ring, h: nat, q: Req)
    requires Sized(r) && Formatted(r, h, q)
    ensures forall k :: 0 <= k < 3 ==> LinkAt(r.desc, q.Chain(h), k)
    ensures Distinct(q.Chain(h)) && forall d :: d in q.Chain(h) <==> d == h || d == q.mid || d == q.tail
  {
  }

  lemma FormattedInfo(r: Ring, h: nat, q: Req)
    requires Sized(r) && Formatted(r, h, q)
    ensures h < NUM && r.info[h].b == q.buf && (q.phase == Completed || q.phase == Done ==> r.info[h].status == 0)
  {
  }

  // The k-th descriptor of chain c leads to the next, and the last one to none.
  predicate LinkAt(desc: seq<Desc>, c: seq<nat>, k: nat)
    requires k < |c|
  {
    c[k] < |desc| && desc[c[k]].more == (k + 1 < |c|) && (k + 1 < |c| ==> desc[c[k]].next == c[k + 1])
  }
}
