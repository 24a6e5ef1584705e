/**
 copyout, copyin and copyinstr of kernel/vm.c, byte by byte over the translations of one page
 table.  Tables, free list and user pages share one memory; what these functions promise is about
 the bytes a user program sees, and that nothing else is written.
*/
module UserCopy {
  import opened Sv39
  import opened UserMemory
  import opened ProcMemory
  import opened FrameBytes

  // ---------- what a user program sees ----------

  // A valid bottom entry: its frame and two of its rights.
  datatype Mapping = Mapping(ppn: nat, w: bool, u: bool)

  datatype View = View(leaf: map<nat, Mapping>, frame: map<nat, Data>) {
    // User pages are in distinct frames of memory.
    ghost predicate Valid() {
      && (forall x :: x in leaf ==> x < MAXVPN)
      && (forall x :: x in leaf && leaf[x].u ==> leaf[x].ppn in frame && leaf[x].ppn != 0)
      && forall x, y :: x in leaf && y in leaf && leaf[x].u && leaf[y].u && x != y ==> leaf[x].ppn != leaf[y].ppn
    }
    ghost predicate Readable(va: nat) { va / PGSIZE in leaf && leaf[va / PGSIZE].u }
    ghost predicate Writable(va: nat) { Readable(va) && leaf[va / PGSIZE].w }
    ghost function At(va: nat): byte {
      if va / PGSIZE in leaf && leaf[va / PGSIZE].ppn in frame then frame[leaf[va / PGSIZE].ppn][va % PGSIZE] else 0
    }
  }

  ghost function ViewOf(mem: Mem, t: Tables): View
    requires Inside(mem, t)
  {
    View(map x: nat | x < MAXVPN && Entry(mem, t, x).f.v :: MappingOf(Entry(mem, t, x)),
         map f | f in mem :: DataOf(mem[f]))
  }

  ghost function MappingOf(e: Word): Mapping { Mapping(e.ppn, e.f.w, e.f.u) }

  // Bytes va .. of the view hold s; every other byte the user can read is as before.
  ghost predicate Wrote(p: View, p': View, va: nat, s: seq<byte>) {
    && p'.leaf == p.leaf && p'.frame.Keys == p.frame.Keys && p.Valid()
    && (forall k: nat :: va <= k < va + |s| ==> p.Writable(k) && p'.At(k) == s[k - va])
    && forall k: nat :: p.Readable(k) && !(va <= k < va + |s|) ==> p'.At(k) == p.At(k)
  }

  // Frame f is the translation of a writable one of the n addresses from va on.
  ghost predicate Under(p: View, va: nat, n: nat, f: nat) {
    exists k: nat :: va <= k < va + n && p.Writable(k) && p.leaf[k / PGSIZE].ppn == f
  }

  // Nothing but those bytes has changed: no translation, and no frame that is not under them.
  ghost predicate Copied(mem: Mem, t: Tables, mem': Mem, va: nat, s: seq<byte>) {
    && Inside(mem, t) && SameEntries(mem, t, mem', t) && mem'.Keys == mem.Keys
    && Wrote(ViewOf(mem, t), ViewOf(mem', t), va, s)
    && forall f :: f in mem && mem'[f] != mem[f] ==> Under(ViewOf(mem, t), va, |s|, f)
  }

  // The pages a user can write are neither free nor part of the table.
  ghost predicate UserOk(mem: Mem, fs: set<nat>, t: Tables) {
    && Inside(mem, t) && ViewOf(mem, t).Valid()
    && forall x: nat :: x < MAXVPN && UserWritable(Entry(mem, t, x).f) ==>
         Entry(mem, t, x).ppn !in fs && Entry(mem, t, x).ppn !in t.Frames()
  }

  predicate UserWritable(f: Flags) { f.v && f.u && f.w }

  lemma ViewAt(mem: Mem, t: Tables, va: nat)
    requires Inside(mem, t)
    ensures var p, e := ViewOf(mem, t), Entry(mem, t, va / PGSIZE);
      && (p.Readable(va) <==> va / PGSIZE < MAXVPN && e.f.v && e.f.u)
      && (p.Writable(va) <==> va / PGSIZE < MAXVPN && UserWritable(e.f))
      && (p.Readable(va) ==> p.leaf[va / PGSIZE].ppn == e.ppn)
      && (p.Readable(va) && e.ppn in mem ==> p.At(va) == DataOf(mem[e.ppn])[va % PGSIZE])
  {
    hide Entry, DataOf;
  }

  // ---------- storing ----------

  lemma SamePage(va: nat, n: nat, k: nat)
    requires va % PGSIZE + n <= PGSIZE
    ensures va <= k < va + n <==> k / PGSIZE == va / PGSIZE && va % PGSIZE <= k % PGSIZE < va % PGSIZE + n
    ensures va <= k < va + n ==> k % PGSIZE == va % PGSIZE + (k - va)
  {
  }

  // One page's part of copyout.
  lemma WrotePage(p: View, va: nat, s: seq<byte>)
    requires p.Valid() && p.Writable(va) && va % PGSIZE + |s| <= PGSIZE
    ensures var f := p.leaf[va / PGSIZE].ppn;
      f in p.frame && Wrote(p, p.(frame := p.frame[f := Put(p.frame[f], va % PGSIZE, s)]), va, s)
  {
    var f := p.leaf[va / PGSIZE].ppn;
    var p' := p.(frame := p.frame[f := Put(p.frame[f], va % PGSIZE, s)]);
    forall k: nat | p.Readable(k)
      ensures p'.At(k) == if va <= k < va + |s| then s[k - va] else p.At(k)
    {
      SamePage(va, |s|, k);
      PutAt(p.frame[f], va % PGSIZE, s, k % PGSIZE);
    }
    forall k: nat | va <= k < va + |s| ensures p.Writable(k) { SamePage(va, |s|, k); }
  }

  lemma WroteMore(p0: View, p1: View, p2: View, va: nat, s: seq<byte>, t: seq<byte>)
    requires Wrote(p0, p1, va, s) && Wrote(p1, p2, va + |s|, t)
    ensures Wrote(p0, p2, va, s + t)
  {
    forall k: nat | va <= k < va + |s + t| ensures p0.Writable(k) && p2.At(k) == (s + t)[k - va] {
      if k < va + |s| {
        assert p0.Writable(k) && p1.At(k) == s[k - va];
      } else {
        assert p1.Writable(k);
      }
    }
  }

  lemma ViewStore(mem: Mem, t: Tables, mem': Mem, f: nat, d: Data)
    requires SameEntries(mem, t, mem', t) && f in mem && mem' == mem[f := FrameOf(d)] && Inside(mem, t)
    ensures Inside(mem', t)
    ensures ViewOf(mem', t) == ViewOf(mem, t).(frame := ViewOf(mem, t).frame[f := d])
  {
    FrameHasData(d);
    hide DataOf, FrameOf, Entry;
    assert ViewOf(mem', t).leaf == ViewOf(mem, t).leaf;
    assert ViewOf(mem', t).frame == ViewOf(mem, t).frame[f := d];
  }

  lemma CopiedPage(mem: Mem, fs: set<nat>, t: Tables, mem': Mem, va: nat, s: seq<byte>)
    requires UserOk(mem, fs, t) && Inside(mem, t) && ViewOf(mem, t).Writable(va) && va % PGSIZE + |s| <= PGSIZE
    requires |s| > 0 && SameEntries(mem, t, mem', t)
    requires var f := Entry(mem, t, va / PGSIZE).ppn;
      f in mem && mem' == mem[f := FrameOf(Put(DataOf(mem[f]), va % PGSIZE, s))]
    ensures Copied(mem, t, mem', va, s)
  {
    var f, p := Entry(mem, t, va / PGSIZE).ppn, ViewOf(mem, t);
    ViewAt(mem, t, va);
    WrotePage(p, va, s);
    ViewStore(mem, t, mem', f, Put(DataOf(mem[f]), va % PGSIZE, s));
    assert p.frame[f] == DataOf(mem[f]);
    assert Under(p, va, |s|, f) by { assert va <= va < va + |s|; }
    hide Wrote, Under, View.Valid, View.Writable, FrameOf, Put, DataOf, ViewOf, Entry;
  }

  lemma CopiedMore(mem0: Mem, t: Tables, mem1: Mem, mem2: Mem, va: nat, s: seq<byte>, r: seq<byte>)
    requires Copied(mem0, t, mem1, va, s) && Copied(mem1, t, mem2, va + |s|, r)
    ensures Copied(mem0, t, mem2, va, s + r)
  {
    var p0, p1 := ViewOf(mem0, t), ViewOf(mem1, t);
    WroteMore(p0, p1, ViewOf(mem2, t), va, s, r);
    assert p1.leaf == p0.leaf;
    hide ViewOf, Entry, Wrote;
    forall f | f in mem0 && mem2[f] != mem0[f] ensures Under(p0, va, |s + r|, f) {
      if mem1[f] != mem0[f] {
        var k: nat :| va <= k < va + |s| && p0.Writable(k) && p0.leaf[k / PGSIZE].ppn == f;
        assert va <= k < va + |s + r|;
      } else {
        var k: nat :| va + |s| <= k < va + |s| + |r| && p1.Writable(k) && p1.leaf[k / PGSIZE].ppn == f;
        assert va <= k < va + |s + r| && p0.Writable(k);
      }
    }
  }

  lemma CopiedNone(mem: Mem, fs: set<nat>, t: Tables, va: nat)
    requires UserOk(mem, fs, t)
    ensures Copied(mem, t, mem, va, [])
  {
    hide View.Readable, View.Writable;
  }

  // Stored bytes change neither the rights nor where pages are.
  lemma CopiedOk(mem: Mem, fs: set<nat>, t: Tables, mem': Mem, va: nat, s: seq<byte>)
    requires UserOk(mem, fs, t) && Copied(mem, t, mem', va, s)
    ensures UserOk(mem', fs, t) && ViewOf(mem', t).leaf == ViewOf(mem, t).leaf
    ensures forall k: nat :: ViewOf(mem', t).Writable(k) <==> ViewOf(mem, t).Writable(k)
    ensures forall k: nat :: ViewOf(mem', t).Readable(k) <==> ViewOf(mem, t).Readable(k)
  {
    assert ViewOf(mem', t).frame.Keys == ViewOf(mem, t).frame.Keys;
    hide ViewOf, Entry, Tables.Frames;
  }

  lemma CopiedAll(mem: Mem, t: Tables, mem': Mem, va: nat, s: seq<byte>)
    requires Copied(mem, t, mem', va, s)
    ensures Inside(mem, t) && forall k: nat :: va <= k < va + |s| ==> ViewOf(mem, t).Writable(k)
  {
    hide View.Writable;
  }

  function PageNo(va: nat): nat { va / PGSIZE }

  function RoundDown(va: nat): nat { va / PGSIZE * PGSIZE }  // PGROUNDDOWN(va)

  lemma PageStart(va: nat)
    ensures var va0 := RoundDown(va);
      && PageNo(va0) == va / PGSIZE && va0 <= va && va - va0 == va % PGSIZE < PGSIZE == 4096
      && (va0 >= MAXVPN * PGSIZE <==> va / PGSIZE >= MAXVPN)
  {
  }

  // memmove into the page of va.
  method StorePart(m: PhysMem, va: nat, f: nat, s: seq<byte>, ghost t: Tables)
    requires m.Valid() && m.Holds(t) && UserOk(m.mem, m.FreeSet(), t) && |s| > 0 && va % PGSIZE + |s| <= PGSIZE
    requires Inside(m.mem, t) && ViewOf(m.mem, t).Writable(va) && f == Entry(m.mem, t, va / PGSIZE).ppn
    modifies m
    ensures m.Valid() && m.Holds(t) && m.free == old(m.free) && m.FreeSet() == old(m.FreeSet())
    ensures Copied(old(m.mem), t, m.mem, va, s)
  {
    WritableAt(m.mem, m.FreeSet(), t, va);
    hide *;
    ghost var mem0 := m.mem;
    StorePage(m, f, FrameOf(Put(DataOf(m.mem[f]), va % PGSIZE, s)));
    HoldsFrame(mem0, m, t, f);
    CopiedPage(mem0, m.FreeSet(), t, m.mem, va, s);
  }

  lemma WritableAt(mem: Mem, fs: set<nat>, t: Tables, va: nat)
    requires UserOk(mem, fs, t) && Inside(mem, t) && ViewOf(mem, t).Writable(va)
    ensures var f := Entry(mem, t, va / PGSIZE).ppn; f in mem && f !in fs && f !in t.Frames()
  {
    ViewAt(mem, t, va);
    hide Entry, Tables.Frames;
  }

  // A store outside the table leaves it as it was.
  lemma HoldsFrame(mem: Mem, m: PhysMem, t: Tables, f: nat)
    requires Wf(mem, t) && SameOutside(mem, m.mem, {f}) && f !in t.Frames() && t.Frames() !! m.FreeSet()
    ensures m.Holds(t) && SameEntries(mem, t, m.mem, t)
  {
    Framing(mem, m.mem, t);
    hide Wf, Tables.Frames;
  }

  /** copyout: exactly the bytes of src that come before the first address that user code could not
      write are stored, each at its own translation; it succeeds exactly when that is all of them.
      No translation changes, and no frame outside the user's writable pages. */
  method Copyout(m: PhysMem, root: nat, dstva: nat, src: seq<byte>, ghost t: Tables)
    returns (ok: bool, ghost done: nat)
    requires m.Valid() && m.Holds(t) && root == t.root && UserOk(m.mem, m.FreeSet(), t)
    requires dstva < 0x1_0000_0000_0000_0000 && Inside(m.mem, t)
    modifies m
    ensures m.Valid() && m.Holds(t) && m.free == old(m.free) && m.FreeSet() == old(m.FreeSet())
    ensures UserOk(m.mem, m.FreeSet(), t)
    ensures done <= |src| && Copied(old(m.mem), t, m.mem, dstva, src[..done])
    ensures ok <==> done == |src|
    ensures !ok ==> !ViewOf(old(m.mem), t).Writable(dstva + done)
    ensures ok <==> forall k: nat :: dstva <= k < dstva + |src| ==> ViewOf(old(m.mem), t).Writable(k)
  {
    hide *;
    ghost var mem0, fs0 := m.mem, m.FreeSet();
    CopiedNone(mem0, fs0, t, dstva);
    var va, rest := dstva, src;
    done := 0;
    while |rest| > 0
      invariant done <= |src| && rest == src[done..] && (rest != [] ==> va == dstva + done)
      invariant m.Valid() && m.Holds(t) && m.free == old(m.free) && m.FreeSet() == fs0
      invariant Copied(mem0, t, m.mem, dstva, src[..done])
      decreases |rest|
    {
      var va0 := RoundDown(va);
      PageStart(va);
      CopiedOk(mem0, fs0, t, m.mem, dstva, src[..done]);
      UserOkIn(m.mem, fs0, t);
      ViewAt(m.mem, t, va);
      if va0 >= MAXVPN * PGSIZE {
        return false, done;
      }
      ghost var mem1 := m.mem;
      var found, pte := Load(m, root, PageNo(va0), t);
      WritableIs(pte);
      if !found || !pte.f.v || !pte.f.u || !pte.f.w {
        return false, done;
      }
      var n := Min(PGSIZE - (va - va0), |rest|);
      MinIs(PGSIZE - (va - va0), |rest|);
      StorePart(m, va, pte.ppn, rest[..n], t);
      CopiedMore(mem0, t, mem1, m.mem, dstva, src[..done], rest[..n]);
      assert src[..done] + rest[..n] == src[..done + n];
      done := done + n;
      rest := rest[n..];
      va := va0 + PGSIZE;
    }
    assert src[..done] == src;
    CopiedOk(mem0, fs0, t, m.mem, dstva, src);
    CopiedAll(mem0, t, m.mem, dstva, src);
    ok := true;
  }

  lemma WritableIs(e: Word)
    ensures UserWritable(e.f) <==> e.f.v && e.f.u && e.f.w
    ensures e == ZERO ==> !UserWritable(e.f)
  {
  }

  lemma UserOkIn(mem: Mem, fs: set<nat>, t: Tables)
    requires UserOk(mem, fs, t)
    ensures Inside(mem, t) && ViewOf(mem, t).Valid()
  {
  }

  // ---------- loading ----------

  // The n bytes from va on can be read by the user.
  ghost predicate Bytes(p: View, va: nat, n: nat) {
    p.Valid() && forall k: nat :: va <= k < va + n ==> p.Readable(k)
  }

  ghost function Read(p: View, va: nat, n: nat): (s: seq<byte>)
    ensures |s| == n && forall k: nat :: k < n ==> s[k] == p.At(va + k)
  {
    if n == 0 then [] else Read(p, va, n - 1) + [p.At(va + n - 1)]
  }

  lemma NothingRead(p: View, va: nat)
    requires p.Valid()
    ensures Bytes(p, va, 0) && Read(p, va, 0) == []
  {
  }

  // Reading on within one page.
  lemma {:induction false} ReadPage(p: View, va: nat, k: nat, n: nat)
    requires Bytes(p, va, k) && p.Readable(va + k) && (va + k) % PGSIZE + n <= PGSIZE
    ensures p.leaf[(va + k) / PGSIZE].ppn in p.frame && Bytes(p, va, k + n)
    ensures var o := (va + k) % PGSIZE;
      Read(p, va, k + n) == Read(p, va, k) + p.frame[p.leaf[(va + k) / PGSIZE].ppn][o..o + n]
  {
    if n > 0 {
      ReadPage(p, va, k, n - 1);
      var o, page := (va + k) % PGSIZE, p.frame[p.leaf[(va + k) / PGSIZE].ppn];
      SamePage(va + k, n, va + k + n - 1);
      assert p.At(va + k + n - 1) == page[o + n - 1] && p.Readable(va + k + n - 1);
      assert page[o..o + n] == page[o..o + n - 1] + [page[o + n - 1]];
      assert Read(p, va, k + n) == Read(p, va, k + n - 1) + [p.At(va + k + n - 1)];
    }
  }

  // walkaddr at the page of va, and what the view makes of its result.
  method PageOf(m: PhysMem, root: nat, va: nat, ghost t: Tables) returns (pa: nat)
    requires m.Valid() && m.Holds(t) && root == t.root && UserOk(m.mem, m.FreeSet(), t) && Inside(m.mem, t)
    modifies m
    ensures m.mem == old(m.mem) && m.free == old(m.free) && m.Valid() && m.FreeSet() == old(m.FreeSet())
    ensures m.Holds(t) && Inside(m.mem, t)
    ensures var p := ViewOf(m.mem, t);
      && (pa != 0 <==> p.Readable(va))
      && (pa != 0 ==> pa in m.mem && pa in p.frame && pa == p.leaf[va / PGSIZE].ppn && p.frame[pa] == DataOf(m.mem[pa]))
  {
    ReadableAt(m.mem, m.FreeSet(), t, va);
    hide *;
    pa := WalkAddr(m, root, va / PGSIZE, t);
  }

  lemma ReadableAt(mem: Mem, fs: set<nat>, t: Tables, va: nat)
    requires UserOk(mem, fs, t) && Inside(mem, t)
    ensures var p, e := ViewOf(mem, t), Entry(mem, t, va / PGSIZE);
      && (p.Readable(va) <==> va / PGSIZE < MAXVPN && e.f.v && e.f.u)
      && (p.Readable(va) ==> e.ppn in mem && e.ppn != 0 && e.ppn in p.frame && e.ppn == p.leaf[va / PGSIZE].ppn)
      && (p.Readable(va) ==> p.frame[e.ppn] == DataOf(mem[e.ppn]))
  {
    ViewAt(mem, t, va);
    hide Entry, DataOf, Tables.Frames;
  }

  /** copyin: the bytes at the translations, up to the first that is not mapped for the user; it
      succeeds exactly when there is none, and changes nothing. */
  method Copyin(m: PhysMem, root: nat, srcva: nat, len: nat, ghost t: Tables) returns (ok: bool, dst: seq<byte>)
    requires m.Valid() && m.Holds(t) && root == t.root && UserOk(m.mem, m.FreeSet(), t) && Inside(m.mem, t)
    requires srcva < 0x1_0000_0000_0000_0000
    modifies m
    ensures m.mem == old(m.mem) && m.free == old(m.free) && m.Valid() && Inside(m.mem, t)
    ensures |dst| <= len && Bytes(ViewOf(m.mem, t), srcva, |dst|) && dst == Read(ViewOf(m.mem, t), srcva, |dst|)
    ensures ok <==> |dst| == len
    ensures !ok ==> !ViewOf(m.mem, t).Readable(srcva + |dst|)
  {
    hide *;
    UserOkIn(m.mem, m.FreeSet(), t);
    ghost var p, fs0 := ViewOf(m.mem, t), m.FreeSet();
    var va, rest := srcva, len;
    dst := [];
    NothingRead(p, srcva);
    while rest > 0
      invariant 0 <= rest <= len && |dst| == len - rest && (rest > 0 ==> va == srcva + |dst|)
      invariant m.Valid() && m.Holds(t) && m.mem == old(m.mem) && m.free == old(m.free) && m.FreeSet() == fs0
      invariant Bytes(p, srcva, |dst|) && dst == Read(p, srcva, |dst|)
      decreases rest
    {
      var va0 := RoundDown(va);
      PageStart(va);
      var pa0 := PageOf(m, root, va, t);
      if pa0 == 0 {
        return false, dst;
      }
      var n := Min(PGSIZE - (va - va0), rest);
      MinIs(PGSIZE - (va - va0), rest);
      ReadPage(p, srcva, |dst|, n);
      dst := dst + DataOf(m.mem[pa0])[va - va0..va - va0 + n];
      rest := rest - n;
      va := va0 + PGSIZE;
    }
    ok := true;
  }

  // A NUL-terminated string of n characters starts at va.
  ghost predicate StringAt(p: View, va: nat, n: nat) {
    Bytes(p, va, n + 1) && p.At(va + n) == 0 && 0 !in Read(p, va, n)
  }

  /** copyinstr: succeeds exactly when the first NUL among the first max bytes is reached through
      mapped user pages, with the string up to and including it. */
  method Copyinstr(m: PhysMem, root: nat, srcva: nat, max: nat, ghost t: Tables) returns (ok: bool, dst: seq<byte>)
    requires m.Valid() && m.Holds(t) && root == t.root && UserOk(m.mem, m.FreeSet(), t) && Inside(m.mem, t)
    requires srcva < 0x1_0000_0000_0000_0000
    modifies m
    ensures m.mem == old(m.mem) && m.free == old(m.free) && m.Valid() && Inside(m.mem, t)
    ensures |dst| <= max && Bytes(ViewOf(m.mem, t), srcva, |dst|) && dst == Read(ViewOf(m.mem, t), srcva, |dst|)
    ensures ok <==> exists n: nat :: n < max && StringAt(ViewOf(m.mem, t), srcva, n)
    ensures ok ==> |dst| > 0 && StringAt(ViewOf(m.mem, t), srcva, |dst| - 1)
  {
    hide *;
    UserOkIn(m.mem, m.FreeSet(), t);
    ghost var p, fs0 := ViewOf(m.mem, t), m.FreeSet();
    var va, left := srcva, max;
    dst := [];
    NothingRead(p, srcva);
    while left > 0
      invariant 0 <= left <= max && |dst| == max - left && (left > 0 ==> va == srcva + |dst|)
      invariant m.Valid() && m.Holds(t) && m.mem == old(m.mem) && m.free == old(m.free) && m.FreeSet() == fs0
      invariant Bytes(p, srcva, |dst|) && dst == Read(p, srcva, |dst|) && 0 !in dst
      decreases left
    {
      var va0 := RoundDown(va);
      PageStart(va);
      var pa0 := PageOf(m, root, va, t);
      if pa0 == 0 {
        NoString(p, srcva, |dst|, max);
        return false, dst;
      }
      var n := Min(PGSIZE - (va - va0), left);
      MinIs(PGSIZE - (va - va0), left);
      var found, s := ScanPage(DataOf(m.mem[pa0])[va - va0..va - va0 + n]);
      ReadPage(p, srcva, |dst|, |s|);
      if found {
        StringEnds(p, srcva, |dst|, s);
        return true, dst + s;
      }
      dst := dst + s;
      left := left - n;
      va := va0 + PGSIZE;
    }
    NoString(p, srcva, |dst|, max);
    ok := false;
  }

  // The inner loop of copyinstr: up to the first NUL.
  method ScanPage(p: seq<byte>) returns (found: bool, s: seq<byte>)
    ensures |s| <= |p| && s == p[..|s|]
    ensures if found then |s| > 0 && s[|s| - 1] == 0 && 0 !in s[..|s| - 1] else |s| == |p| && 0 !in s
  {
    s := [];
    while |s| < |p|
      invariant |s| <= |p| && s == p[..|s|] && 0 !in s
      decreases |p| - |s|
    {
      s := s + [p[|s|]];
      if s[|s| - 1] == 0 {
        return true, s;
      }
    }
    found := false;
  }

  // k bytes without a NUL, and then a byte that cannot be read or the end.
  lemma NoString(p: View, va: nat, k: nat, max: nat)
    requires 0 !in Read(p, va, k) && k <= max && (k < max ==> !p.Readable(va + k))
    ensures !exists n: nat :: n < max && StringAt(p, va, n)
  {
    hide View.At, View.Readable;
    forall n: nat | n < max ensures !StringAt(p, va, n) {
      if n < k {
        assert Read(p, va, k)[n] == p.At(va + n) != 0;
      }
    }
  }

  // s is what follows the first k bytes, with its only NUL at the end.
  lemma StringEnds(p: View, va: nat, k: nat, s: seq<byte>)
    requires Bytes(p, va, k + |s|) && Read(p, va, k + |s|) == Read(p, va, k) + s && 0 !in Read(p, va, k)
    requires |s| > 0 && s[|s| - 1] == 0 && 0 !in s[..|s| - 1]
    ensures StringAt(p, va, k + |s| - 1)
  {
    hide View.At, View.Readable;
    var r := Read(p, va, k + |s|);
    assert r[k + |s| - 1] == s[|s| - 1];
    assert Read(p, va, k + |s| - 1) == r[..k + |s| - 1] == Read(p, va, k) + s[..|s| - 1];
  }

  /** What copyout stored is what copyin returns. */
  lemma CopyBack(mem: Mem, fs: set<nat>, t: Tables, mem': Mem, va: nat, s: seq<byte>)
    requires UserOk(mem, fs, t) && Copied(mem, t, mem', va, s)
    ensures Inside(mem', t) && Bytes(ViewOf(mem', t), va, |s|) && Read(ViewOf(mem', t), va, |s|) == s
  {
    CopiedOk(mem, fs, t, mem', va, s);
    var p, p' := ViewOf(mem, t), ViewOf(mem', t);
    hide ViewOf, Entry, Tables.Frames;
    forall k: nat | va <= k < va + |s| ensures p'.Readable(k) { assert p.Writable(k); }
    forall k: nat | k < |s| ensures Read(p', va, |s|)[k] == s[k] { assert p.Writable(va + k); }
  }

  // ---------- a process's address space ----------

  // In a process's layout the user can write the user pages at most, and the usyscall page is the
  // only other one it can read.
  lemma SpaceUserOk(mem: Mem, fs: set<nat>, t: Tables, top: Top, n: nat)
    requires Space(mem, t, top, n) && SpaceFrames(mem, t, n) !! fs
    requires top.usyscall in mem && top.usyscall != 0 && top.usyscall !in SpaceFrames(mem, t, n)
    ensures UserOk(mem, fs, t)
    ensures forall x: nat :: x < MAXVPN && UserWritable(Entry(mem, t, x).f) ==>
      x < n && Entry(mem, t, x).ppn in LeafFrames(mem, t, 0, n)
  {
    SpaceIs(mem, t, top, n);
    FreeableApart(mem, t, 0, n);
    forall x: nat | x < n
      ensures Entry(mem, t, x).ppn in LeafFrames(mem, t, 0, n) && Entry(mem, t, x).ppn in mem
      ensures Entry(mem, t, x).ppn != 0
    {
      LeafRangeIn(mem, t, 0, n, x);
    }
    forall x: nat | n <= x < MAXVPN && Entry(mem, t, x).f.v && Entry(mem, t, x).f.u
      ensures x == USYSCALL && Entry(mem, t, x).ppn == top.usyscall && !Entry(mem, t, x).f.w
    {
    }
    hide Space, Wf, Tables.Frames, LeafFrames, SpaceFrames, Entry, DataOf;
  }

  // copyout keeps the layout and changes the user pages alone.
  lemma CopiedSpace(mem: Mem, fs: set<nat>, t: Tables, top: Top, n: nat, mem': Mem, va: nat, s: seq<byte>)
    requires Space(mem, t, top, n) && SpaceFrames(mem, t, n) !! fs
    requires top.usyscall in mem && top.usyscall != 0 && top.usyscall !in SpaceFrames(mem, t, n)
    requires Copied(mem, t, mem', va, s) && Wf(mem', t)
    ensures Space(mem', t, top, n) && SpaceFrames(mem', t, n) == SpaceFrames(mem, t, n)
    ensures Inside(mem, t) && SameOutside(mem, mem', LeafFrames(mem, t, 0, n))
    ensures LeafFrames(mem, t, 0, n) <= SpaceFrames(mem, t, n)
  {
    SpaceUserOk(mem, fs, t, top, n);
    SpaceIs(mem, t, top, n);
    LeafSame(mem, t, mem', t, 0, n);
    forall f | f in mem && mem'[f] != mem[f] ensures f in LeafFrames(mem, t, 0, n) {
      var k: nat :| va <= k < va + |s| && ViewOf(mem, t).Writable(k) && ViewOf(mem, t).leaf[k / PGSIZE].ppn == f;
      ViewAt(mem, t, k);
    }
    hide Wf, Tables.Frames, LeafFrames, Entry, ViewOf, UserOk;
  }

  /** copyout to a process: ownership of every frame stands, no other process is touched, and of
      this one nothing but the bytes stored. */
  method CopyoutTo(pt: ProcTable, i: nat, dstva: nat, src: seq<byte>) returns (ok: bool, ghost done: nat)
    requires pt.Inv() && i < NPROC && |pt.proc| == |pt.tab| == NPROC && !pt.proc[i].state.Unused?
    requires dstva < 0x1_0000_0000_0000_0000
    modifies pt.m
    ensures pt.Inv() && pt.Since(Snap(old(pt.m.mem), pt.proc, pt.tab), i) && pt.m.free == old(pt.m.free)
    ensures done <= |src| && Copied(old(pt.m.mem), pt.tab[i], pt.m.mem, dstva, src[..done])
    ensures ok <==> done == |src|
    ensures !ok ==> !ViewOf(old(pt.m.mem), pt.tab[i]).Writable(dstva + done)
  {
    hide *;
    ghost var s0, fs0, t := Snap(pt.m.mem, pt.proc, pt.tab), pt.m.FreeSet(), pt.tab[i];
    pt.InvIs();
    pt.OwnedAt(i);
    var p := pt.proc[i];
    ghost var top := TopOf(pt.trampoline, p);
    FitSpace(s0.mem, p, t, pt.trampoline);
    SpaceHolds(pt.m, p, t, top);
    UsyscallApart(s0.mem, p, t, pt.trampoline);
    SpaceUserOk(s0.mem, fs0, t, top, Pages(p.sz));
    ok, done := Copyout(pt.m, p.pagetable, dstva, src, t);
    HoldsWf(pt.m, t);
    CopiedSpace(s0.mem, fs0, t, top, Pages(p.sz), pt.m.mem, dstva, src[..done]);
    CopyoutFits(s0.mem, fs0, p, t, pt.trampoline, pt.m.mem);
    assert s0.proc[i := p] == s0.proc && s0.tab[i := t] == s0.tab;
    pt.Install(s0, fs0, i);
  }

  lemma UsyscallApart(mem: Mem, p: Proc, t: Tables, tramp: nat)
    requires Fit(mem, p, t, tramp) && p.pagetable != 0
    ensures var top := TopOf(tramp, p);
      top.usyscall in mem && top.usyscall != 0 && top.usyscall !in SpaceFrames(mem, t, Pages(p.sz))
  {
    FitSpace(mem, p, t, tramp);
  }

  lemma CopyoutFits(mem: Mem, fs: set<nat>, p: Proc, t: Tables, tramp: nat, mem': Mem)
    requires Fit(mem, p, t, tramp) && p.pagetable != 0 && Held(mem, p, t) !! fs
    requires Space(mem', t, TopOf(tramp, p), Pages(p.sz)) && Inside(mem, t)
    requires SpaceFrames(mem', t, Pages(p.sz)) == SpaceFrames(mem, t, Pages(p.sz))
    requires SameOutside(mem, mem', LeafFrames(mem, t, 0, Pages(p.sz)))
    ensures Fit(mem', p, t, tramp) && Held(mem', p, t) == Held(mem, p, t) && Held(mem', p, t) !! fs
    ensures SameOutside(mem, mem', Held(mem, p, t) + fs) && (Settled(mem, p) ==> Settled(mem', p))
  {
    FitSpace(mem, p, t, tramp);
    hide Space, Tables.Frames, LeafFrames;
  }
}
