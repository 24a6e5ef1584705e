/**
 bio.c: the buffer cache.  Buffers live in one array whose last element is the list head;
 prev and next are indices into it.  The ghost field `order` lists the buffers from the
 most recently released to the least.
*/
module BufferCache {
  import opened LogProtocol

  const NBUF := 30
  const HEAD := NBUF

  datatype Buf = Buf(valid: bool, dev: nat, blockno: nat, refcnt: nat,
                     prev: nat, next: nat, data: Block)

  datatype Found = Found(b: nat) | NoBuffers

  // ---------- the circular list ----------

  function Cycle(order: seq<nat>): seq<nat> { [HEAD] + order + [HEAD] }

  ghost predicate Order(order: seq<nat>) {
    Distinct(order) && forall i :: 0 <= i < |order| ==> order[i] < NBUF
  }

  ghost predicate Joined(buf: seq<Buf>, x: nat, y: nat) {
    x < |buf| && y < |buf| && buf[x].next == y && buf[y].prev == x
  }

  // next and prev lead round one cycle: the head and then the listed buffers, each once.
  ghost predicate Linked(buf: seq<Buf>, order: seq<nat>) {
    && |buf| == NBUF + 1 && Order(order)
    && (forall i :: 0 <= i <= |order| ==> Joined(buf, Cycle(order)[i], Cycle(order)[i + 1]))
  }

  function Without(order: seq<nat>, k: nat): seq<nat>
    requires k < |order|
  {
    order[..k] + order[k + 1..]
  }

  // b->next->prev = b->prev; b->prev->next = b->next
  function Unlink(buf: seq<Buf>, b: nat): (r: seq<Buf>)
    requires |buf| == NBUF + 1 && b < |buf| && buf[b].next <= NBUF && buf[b].prev <= NBUF
    ensures |r| == |buf|
  {
    var buf1 := buf[buf[b].next := buf[buf[b].next].(prev := buf[b].prev)];
    buf1[buf1[b].prev := buf1[buf1[b].prev].(next := buf1[b].next)]
  }

  // b->next = head.next; b->prev = &head; head.next->prev = b; head.next = b
  function LinkFront(buf: seq<Buf>, b: nat): (r: seq<Buf>)
    requires |buf| == NBUF + 1 && b < NBUF && buf[HEAD].next <= NBUF
    ensures |r| == |buf|
  {
    var first := buf[HEAD].next;
    var buf1 := buf[b := buf[b].(next := first, prev := HEAD)];
    var buf2 := buf1[first := buf1[first].(prev := b)];
    buf2[HEAD := buf2[HEAD].(next := b)]
  }

  // The list fields are the only thing relinking changes.
  ghost predicate SameBuffers(a: seq<Buf>, b: seq<Buf>) {
    |a| == |b| && forall i :: 0 <= i < |a| ==> a[i].(prev := 0, next := 0) == b[i].(prev := 0, next := 0)
  }

  lemma CycleDistinct(order: seq<nat>, i: nat, j: nat)
    requires Order(order) && i < j <= |order| + 1 && (i > 0 || j <= |order|)
    ensures Cycle(order)[i] != Cycle(order)[j]
  {
    var c := Cycle(order);
    assert 0 < i ==> c[i] == order[i - 1];
    assert j <= |order| ==> c[j] == order[j - 1];
  }

  lemma UnlinkJoins(buf: seq<Buf>, order: seq<nat>, k: nat, i: nat)
    requires Linked(buf, order) && k < |order| && i < |order|
    requires buf[order[k]].next <= NBUF && buf[order[k]].prev <= NBUF
    ensures var d := Cycle(Without(order, k));
      Joined(Unlink(buf, order[k]), d[i], d[i + 1])
  {
    var c, d := Cycle(order), Cycle(Without(order, k));
    assert Joined(buf, c[k], c[k + 1]) && Joined(buf, c[k + 1], c[k + 2]);
    assert d[i] == c[if i <= k then i else i + 1];
    assert d[i + 1] == c[if i < k then i + 1 else i + 2];
    CycleDistinct(order, k, k + 1);
    CycleDistinct(order, k + 1, k + 2);
    if i < k {
      assert Joined(buf, c[i], c[i + 1]);
      CycleDistinct(order, i, k);
      CycleDistinct(order, i + 1, k + 2);
    } else if i > k {
      assert Joined(buf, c[i + 1], c[i + 2]);
      CycleDistinct(order, k, i + 1);
      CycleDistinct(order, k + 2, i + 2);
    }
  }

  lemma UnlinkKeeps(buf: seq<Buf>, order: seq<nat>, k: nat)
    requires Linked(buf, order) && k < |order|
    ensures buf[order[k]].next <= NBUF && buf[order[k]].prev <= NBUF
    ensures Linked(Unlink(buf, order[k]), Without(order, k))
    ensures SameBuffers(buf, Unlink(buf, order[k]))
  {
    var c, b := Cycle(order), order[k];
    assert c[k + 1] == b;
    assert Joined(buf, c[k], c[k + 1]) && Joined(buf, c[k + 1], c[k + 2]);
    forall i | 0 <= i <= |order| - 1
      ensures Joined(Unlink(buf, b), Cycle(Without(order, k))[i], Cycle(Without(order, k))[i + 1])
    {
      UnlinkJoins(buf, order, k, i);
    }
    hide Cycle, Joined;
  }

  lemma LinkFrontKeeps(buf: seq<Buf>, order: seq<nat>, b: nat)
    requires Linked(buf, order) && b < NBUF && b !in order
    ensures buf[HEAD].next <= NBUF && Linked(LinkFront(buf, b), [b] + order)
    ensures SameBuffers(buf, LinkFront(buf, b))
  {
    var c := Cycle(order);
    assert Joined(buf, c[0], c[1]);
    var buf', d := LinkFront(buf, b), Cycle([b] + order);
    forall i | 0 <= i <= |order| + 1 ensures Joined(buf', d[i], d[i + 1]) {
      assert 1 < i ==> d[i] == c[i - 1];
      assert 0 < i ==> d[i + 1] == c[i];
      if i > 1 {
        assert Joined(buf, c[i - 1], c[i]);
        CycleDistinct(order, 0, i - 1);
        CycleDistinct(order, 1, i);
      }
    }
  }

  // ---------- what the cache says a disk holds ----------

  type Key = (nat, nat)  // device, block number
  type Store = map<Key, Block>

  predicate Holds(b: Buf, key: Key) { b.dev == key.0 && b.blockno == key.1 }

  function KeyOf(b: Buf): Key { (b.dev, b.blockno) }

  // Device 0 marks a buffer that has never been used.
  ghost predicate OneBufferEach(buf: seq<Buf>) {
    forall i, j :: 0 <= i < j < |buf| - 1 && buf[i].dev != 0 ==> !Holds(buf[j], KeyOf(buf[i]))
  }

  ghost predicate CleanBuf(b: Buf, disk: Store) {
    b.valid && b.dev != 0 ==> KeyOf(b) in disk && disk[KeyOf(b)] == b.data
  }

  // Only a referenced buffer may differ from its disk block.
  ghost predicate Clean(buf: seq<Buf>, disk: Store) {
    forall i :: 0 <= i < |buf| - 1 && buf[i].refcnt == 0 ==> CleanBuf(buf[i], disk)
  }

  ghost predicate Cached(buf: seq<Buf>, key: Key) {
    exists i :: 0 <= i < |buf| - 1 && Holds(buf[i], key)
  }

  // The value v is what bread would return for key.
  ghost predicate Logical(buf: seq<Buf>, disk: Store, key: Key, v: Block) {
    if exists i :: 0 <= i < |buf| - 1 && Holds(buf[i], key) && buf[i].valid
    then exists i :: 0 <= i < |buf| - 1 && Holds(buf[i], key) && buf[i].valid && buf[i].data == v
    else key in disk && disk[key] == v
  }

  ghost predicate SameLogical(buf: seq<Buf>, disk: Store, buf': seq<Buf>, disk': Store) {
    forall key: Key, v :: key.0 != 0 ==>
      (Logical(buf, disk, key, v) <==> Logical(buf', disk', key, v))
  }

  ghost predicate Sound(buf: seq<Buf>, disk: Store) {
    |buf| == NBUF + 1 && OneBufferEach(buf) && Clean(buf, disk)
  }

  // Relinking alone changes nothing that matters here.
  lemma RelinkSound(buf: seq<Buf>, disk: Store, buf': seq<Buf>)
    requires |buf| == NBUF + 1 && OneBufferEach(buf) && SameBuffers(buf, buf')
    ensures OneBufferEach(buf') && SameLogical(buf, disk, buf', disk) && (Sound(buf', disk) <==> Sound(buf, disk))
  {
    forall i | 0 <= i < |buf| ensures
      buf[i].valid == buf'[i].valid && buf[i].dev == buf'[i].dev && buf[i].blockno == buf'[i].blockno
      && buf[i].refcnt == buf'[i].refcnt && buf[i].data == buf'[i].data
    {
      assert buf[i].(prev := 0, next := 0) == buf'[i].(prev := 0, next := 0);
    }
    hide Linked, Distinct;
  }

  // Counting a reference changes nothing that bread can see; only dropping the last one on a buffer
  // that differs from disk leaves something that recycling would lose.
  lemma RefcntSound(buf: seq<Buf>, disk: Store, b: nat, n: nat)
    requires Sound(buf, disk) && b < NBUF
    ensures var buf' := buf[b := buf[b].(refcnt := n)];
      && OneBufferEach(buf') && SameLogical(buf, disk, buf', disk)
      && (Sound(buf', disk) <==> n > 0 || CleanBuf(buf[b], disk))
  {
    var buf' := buf[b := buf[b].(refcnt := n)];
    forall i | 0 <= i < |buf| ensures buf'[i] == buf[i].(refcnt := buf'[i].refcnt) {}
    forall key: Key, v | key.0 != 0
      ensures Logical(buf, disk, key, v) <==> Logical(buf', disk, key, v)
    {
      forall i | 0 <= i < NBUF
        ensures Holds(buf[i], key) == Holds(buf'[i], key) && buf[i].valid == buf'[i].valid
          && buf[i].data == buf'[i].data {}
    }
  }

  // A referenced buffer may take any data; only its own block is affected.
  lemma FillSound(buf: seq<Buf>, disk: Store, b: nat, v: Block)
    requires Sound(buf, disk) && b < NBUF && buf[b].refcnt > 0 && buf[b].dev != 0
    ensures var buf' := buf[b := buf[b].(valid := true, data := v)];
      && Sound(buf', disk)
      && (forall w :: Logical(buf', disk, KeyOf(buf[b]), w) <==> w == v)
      && (forall key: Key, w :: key.0 != 0 && key != KeyOf(buf[b]) ==>
          (Logical(buf, disk, key, w) <==> Logical(buf', disk, key, w)))
  {
    var buf' := buf[b := buf[b].(valid := true, data := v)];
    forall i | 0 <= i < NBUF && i != b ensures buf'[i] == buf[i] && !Holds(buf[i], KeyOf(buf[b])) {}
    assert Holds(buf'[b], KeyOf(buf[b]));
    forall key: Key, w | key.0 != 0 && key != KeyOf(buf[b])
      ensures Logical(buf, disk, key, w) <==> Logical(buf', disk, key, w)
    {
      forall i | 0 <= i < NBUF
        ensures Holds(buf[i], key) == Holds(buf'[i], key)
          && (Holds(buf[i], key) ==> buf'[i] == buf[i]) {}
    }
  }

  // Recycling: an unreferenced buffer's block reads back from the disk unchanged.
  lemma RecycleSound(buf: seq<Buf>, disk: Store, b: nat, key: Key)
    requires Sound(buf, disk) && b < NBUF && buf[b].refcnt == 0 && !Cached(buf, key) && key.0 != 0
    ensures var buf' := buf[b := buf[b].(dev := key.0, blockno := key.1, valid := false, refcnt := 1)];
      Sound(buf', disk) && SameLogical(buf, disk, buf', disk)
  {
    var buf' := buf[b := buf[b].(dev := key.0, blockno := key.1, valid := false, refcnt := 1)];
    forall i | 0 <= i < NBUF && i != b ensures buf'[i] == buf[i] {}
    forall k: Key, v | k.0 != 0 ensures Logical(buf, disk, k, v) <==> Logical(buf', disk, k, v) {
      if Holds(buf[b], k) && buf[b].valid {
        assert disk[k] == buf[b].data;
      } else {
        forall i | 0 <= i < NBUF ensures
          (Holds(buf[i], k) && buf[i].valid) == (Holds(buf'[i], k) && buf'[i].valid) {}
      }
    }
  }

  lemma WriteBackSound(buf: seq<Buf>, disk: Store, b: nat)
    requires Sound(buf, disk) && b < NBUF && buf[b].valid && buf[b].dev != 0
    ensures var disk' := disk[KeyOf(buf[b]) := buf[b].data];
      Sound(buf, disk') && CleanBuf(buf[b], disk') && SameLogical(buf, disk, buf, disk')
  {
    var disk' := disk[KeyOf(buf[b]) := buf[b].data];
    forall i | 0 <= i < NBUF && i != b && buf[i].dev != 0 ensures KeyOf(buf[i]) != KeyOf(buf[b]) {
      assert i < b ==> !Holds(buf[b], KeyOf(buf[i]));
    }
    assert Holds(buf[b], KeyOf(buf[b]));
  }

  class Cache {
    var buf: array<Buf>
    var disk: Store
    ghost var order: seq<nat>

    // The list is one cycle through all buffers, and no two stand for one block.
    ghost predicate Listed()
      reads this, buf
    {
      && buf.Length == NBUF + 1
      && Linked(buf[..], order) && |order| == NBUF && (forall b :: 0 <= b < NBUF ==> b in order)
      && OneBufferEach(buf[..])
    }

    ghost predicate Valid()
      reads this, buf
    {
      Listed() && Sound(buf[..], disk)
    }

    // binit: buffers are zero-filled and linked one by one behind the head.
    constructor (disk: Store, zero: Block)
      ensures Valid() && this.disk == disk && fresh(buf)
      ensures forall b :: 0 <= b < NBUF ==> buf[b].refcnt == 0 && !buf[b].valid
    {
      var a := new Buf[NBUF + 1](i => Buf(false, 0, 0, 0, HEAD, HEAD, zero));
      ghost var o: seq<nat> := [];
      var b := 0;
      while b < NBUF
        invariant b <= NBUF && a.Length == NBUF + 1 && Linked(a[..], o)
        invariant |o| == b && forall x :: 0 <= x < b <==> x in o
        invariant forall i :: 0 <= i <= NBUF ==>
          a[i].dev == 0 && a[i].refcnt == 0 && !a[i].valid
      {
        LinkFrontKeeps(a[..], o, b);
        ghost var was := a[..];
        var first := a[HEAD].next;
        a[b] := a[b].(next := first, prev := HEAD);
        a[first] := a[first].(prev := b);
        a[HEAD] := a[HEAD].(next := b);
        assert a[..] == LinkFront(was, b);
        o := [b] + o;
        b := b + 1;
      }
      this.buf, this.disk, this.order := a, disk, o;
    }

    // First loop of bget: most recently used first.
    method FindCached(dev: nat, blockno: nat) returns (b: nat)
      requires Valid()
      ensures b == HEAD <==> !Cached(buf[..], (dev, blockno))
      ensures b != HEAD ==> b < NBUF && Holds(buf[b], (dev, blockno))
    {
      hide Sound;
      var key := (dev, blockno);
      ghost var c := Cycle(order);
      assert Joined(buf[..], c[0], c[1]);
      b := buf[HEAD].next;
      ghost var i := 0;
      while b != HEAD
        invariant 0 <= i <= NBUF && b == c[i + 1]
        invariant forall j :: 0 <= j < i ==> !Holds(buf[order[j]], key)
        decreases NBUF - i
      {
        assert b == order[i];
        if buf[b].dev == dev && buf[b].blockno == blockno {
          assert Holds(buf[..][b], key);
          return;
        }
        assert Joined(buf[..], c[i + 1], c[i + 2]);
        b := buf[b].next;
        i := i + 1;
      }
      assert i == NBUF;
      forall x | 0 <= x < NBUF ensures !Holds(buf[x], key) {
        assert x in order;
      }
    }

    // Second loop of bget: least recently used first.
    method FindUnused() returns (b: nat)
      requires Valid()
      ensures b == HEAD <==> forall x :: 0 <= x < NBUF ==> buf[x].refcnt > 0
      ensures b != HEAD ==> b < NBUF && buf[b].refcnt == 0 && LeastRecent(buf[..], order, b)
    {
      hide Sound;
      ghost var c := Cycle(order);
      assert Joined(buf[..], c[NBUF], c[NBUF + 1]);
      b := buf[HEAD].prev;
      ghost var i := NBUF;
      while b != HEAD
        invariant 0 <= i <= NBUF && b == c[i]
        invariant forall j :: i <= j < NBUF ==> buf[order[j]].refcnt > 0
        decreases i
      {
        assert b == order[i - 1];
        if buf[b].refcnt == 0 {
          return;
        }
        assert Joined(buf[..], c[i - 1], c[i]);
        b := buf[b].prev;
        i := i - 1;
      }
      assert i == 0;
      forall x | 0 <= x < NBUF ensures buf[x].refcnt > 0 {
        assert x in order;
      }
    }

    /** bget: the buffer that holds the block, with one more reference; or else the least
        recently used unreferenced buffer, now standing for the block and invalid; or else the
        panic, exactly when every buffer is referenced. */
    method Bget(dev: nat, blockno: nat) returns (r: Found)
      requires Valid() && dev != 0
      modifies buf
      ensures Valid() && SameLogical(old(buf[..]), disk, buf[..], disk)
      ensures r.Found? ==> r.b < NBUF && Holds(buf[r.b], (dev, blockno))
      ensures r.Found? ==> buf[r.b].refcnt == old(buf[r.b]).refcnt + 1
      ensures r.Found? ==> forall x :: 0 <= x < buf.Length && x != r.b ==> buf[x] == old(buf[x])
      ensures r.Found? && old(Cached(buf[..], (dev, blockno))) ==>
        Holds(old(buf[r.b]), (dev, blockno)) && buf[..] == Referenced(old(buf[..]), r.b)
      ensures r.Found? && !old(Cached(buf[..], (dev, blockno))) ==>
        old(buf[r.b]).refcnt == 0 && LeastRecent(old(buf[..]), order, r.b)
        && buf[..] == Recycled(old(buf[..]), r.b, dev, blockno)
      ensures r.Found? && !old(Cached(buf[..], (dev, blockno))) ==>
        exists k :: 0 <= k < |order| && order[k] == r.b
          && forall j :: k < j < |order| ==> order[j] < buf.Length && old(buf[..])[order[j]].refcnt > 0
      ensures r.NoBuffers? ==> buf[..] == old(buf[..])
      ensures r.NoBuffers? <==>
        !old(Cached(buf[..], (dev, blockno))) && forall x :: 0 <= x < NBUF ==> old(buf[x]).refcnt > 0
    {
      ghost var was := buf[..];
      var b := FindCached(dev, blockno);
      if b != HEAD {
        RefcntSound(was, disk, b, buf[b].refcnt + 1);
        buf[b] := buf[b].(refcnt := buf[b].refcnt + 1);
        assert buf[..] == Referenced(was, b);
        KeepLinks(was, buf[..], order);
        return Found.Found(b);
      }
      b := FindUnused();
      if b != HEAD {
        RecycleSound(was, disk, b, (dev, blockno));
        buf[b] := buf[b].(dev := dev, blockno := blockno, valid := false, refcnt := 1);
        assert buf[..] == Recycled(was, b, dev, blockno);
        KeepLinks(was, buf[..], order);
        return Found.Found(b);
      }
      r := NoBuffers;
    }

    /** bread: a referenced, valid buffer with the block's logical value. */
    method Bread(dev: nat, blockno: nat) returns (r: Found)
      requires Valid() && dev != 0 && (dev, blockno) in disk
      modifies buf
      ensures Valid() && SameLogical(old(buf[..]), disk, buf[..], disk)
      ensures r.Found? ==> r.b < NBUF && buf[r.b].valid && buf[r.b].refcnt == old(buf[r.b]).refcnt + 1
      ensures r.Found? ==> forall x :: 0 <= x < buf.Length && x != r.b ==> buf[x] == old(buf[x])
      ensures r.Found? ==> Holds(buf[r.b], (dev, blockno))
      ensures r.Found? ==> Logical(old(buf[..]), disk, (dev, blockno), buf[r.b].data)
    {
      r := Bget(dev, blockno);
      if r.Found? {
        var b := r.b;
        ghost var was := buf[..];
        if !buf[b].valid {
          InvalidReadsDisk(was, disk, b);
          FillSound(was, disk, b, disk[(dev, blockno)]);
          buf[b] := buf[b].(valid := true, data := disk[(dev, blockno)]);
          assert buf[..] == was[b := was[b].(valid := true, data := disk[(dev, blockno)])];
          KeepLinks(was, buf[..], order);
        } else {
          assert Logical(was, disk, (dev, blockno), was[b].data);
        }
      }
    }

    /** bwrite: the disk takes the buffer's data, and every block still reads as before. */
    method Bwrite(b: nat)
      requires Valid() && b < NBUF && buf[b].refcnt > 0 && buf[b].valid && buf[b].dev != 0
      modifies `disk
      ensures Valid() && disk == old(disk)[KeyOf(buf[b]) := buf[b].data]
      ensures CleanBuf(buf[b], disk) && SameLogical(buf[..], old(disk), buf[..], disk)
    {
      WriteBackSound(buf[..], disk, b);
      disk := disk[(buf[b].dev, buf[b].blockno) := buf[b].data];
    }

    // The holder of a buffer changes its data.
    method Store(b: nat, v: Block)
      requires Valid() && b < NBUF && buf[b].refcnt > 0 && buf[b].valid && buf[b].dev != 0
      modifies buf
      ensures Valid() && buf[..] == old(buf[..])[b := old(buf[b]).(data := v)]
      ensures forall w :: Logical(buf[..], disk, KeyOf(buf[b]), w) <==> w == v
      ensures forall key: Key, w :: key.0 != 0 && key != KeyOf(buf[b]) ==>
        (Logical(old(buf[..]), disk, key, w) <==> Logical(buf[..], disk, key, w))
    {
      ghost var was := buf[..];
      FillSound(was, disk, b, v);
      buf[b] := buf[b].(data := v);
      assert buf[..] == was[b := was[b].(valid := true, data := v)];
      KeepLinks(was, buf[..], order);
    }

    /** brelse: one reference less.  The last one moves the buffer to the front of the list,
        so the list stays in order of release.  The cache stays sound exactly when that one leaves
        a buffer that agrees with the disk. */
    method Brelse(b: nat)
      requires Valid() && b < NBUF && buf[b].refcnt > 0
      modifies buf, `order
      ensures Listed() && SameLogical(old(buf[..]), disk, buf[..], disk)
      ensures Valid() <==> old(buf[b]).refcnt > 1 || CleanBuf(old(buf[b]), disk)
      ensures SameBuffers(old(buf[..])[b := old(buf[b]).(refcnt := old(buf[b]).refcnt - 1)], buf[..])
      ensures old(buf[b]).refcnt > 1 ==> order == old(order)
      ensures old(buf[b]).refcnt == 1 ==>
        exists k :: 0 <= k < NBUF && old(order)[k] == b && order == [b] + Without(old(order), k)
    {
      ghost var was := buf[..];
      RefcntSound(was, disk, b, buf[b].refcnt - 1);
      buf[b] := buf[b].(refcnt := buf[b].refcnt - 1);
      ghost var mid := buf[..];
      assert mid == was[b := was[b].(refcnt := was[b].refcnt - 1)];
      KeepLinks(was, mid, order);
      if buf[b].refcnt == 0 {
        MoveToFront(b);
        RelinkSound(mid, disk, buf[..]);
      }
    }

    // The relinking statements of brelse.
    method MoveToFront(b: nat)
      requires buf.Length == NBUF + 1 && Linked(buf[..], order) && |order| == NBUF && b < NBUF
      requires forall x :: 0 <= x < NBUF ==> x in order
      modifies buf, `order
      ensures Linked(buf[..], order) && SameBuffers(old(buf[..]), buf[..]) && |order| == NBUF
      ensures forall x :: 0 <= x < NBUF ==> x in order
      ensures exists k :: 0 <= k < NBUF && old(order)[k] == b && order == [b] + Without(old(order), k)
    {
      ghost var was := buf[..];
      assert b in order;
      ghost var k :| 0 <= k < |order| && order[k] == b;
      UnlinkKeeps(was, order, k);
      hide Linked, Without;
      buf[buf[b].next] := buf[buf[b].next].(prev := buf[b].prev);
      buf[buf[b].prev] := buf[buf[b].prev].(next := buf[b].next);
      ghost var mid := buf[..];
      assert mid == Unlink(was, b);
      ghost var o := Without(order, k);
      FrontCovers(order, k);
      LinkFrontKeeps(mid, o, b);
      var first := buf[HEAD].next;
      buf[b] := buf[b].(next := first, prev := HEAD);
      buf[first] := buf[first].(prev := b);
      buf[HEAD] := buf[HEAD].(next := b);
      assert buf[..] == LinkFront(mid, b);
      SameTrans(was, mid, buf[..]);
      order := [b] + o;
    }

    method Bpin(b: nat)
      requires Valid() && b < NBUF
      modifies buf
      ensures Valid() && SameLogical(old(buf[..]), disk, buf[..], disk)
      ensures buf[..] == Referenced(old(buf[..]), b)
      ensures buf[b].refcnt == old(buf[b]).refcnt + 1
    {
      ghost var was := buf[..];
      RefcntSound(was, disk, b, buf[b].refcnt + 1);
      buf[b] := buf[b].(refcnt := buf[b].refcnt + 1);
      assert buf[..] == Referenced(was, b);
      KeepLinks(was, buf[..], order);
    }

    // bunpin does not touch the list, even when it drops the last reference.
    method Bunpin(b: nat)
      requires Valid() && b < NBUF && buf[b].refcnt > 0
      modifies buf
      ensures Listed() && SameLogical(old(buf[..]), disk, buf[..], disk)
      ensures Valid() <==> old(buf[b]).refcnt > 1 || CleanBuf(old(buf[b]), disk)
      ensures old(buf[..]) == Referenced(buf[..], b)
    {
      ghost var was := buf[..];
      RefcntSound(was, disk, b, buf[b].refcnt - 1);
      buf[b] := buf[b].(refcnt := buf[b].refcnt - 1);
      assert buf[..] == was[b := was[b].(refcnt := was[b].refcnt - 1)];
      KeepLinks(was, buf[..], order);
    }
  }

  function Referenced(buf: seq<Buf>, b: nat): seq<Buf>
    requires b < |buf|
  {
    buf[b := buf[b].(refcnt := buf[b].refcnt + 1)]
  }

  function Recycled(buf: seq<Buf>, b: nat, dev: nat, blockno: nat): seq<Buf>
    requires b < |buf|
  {
    buf[b := buf[b].(dev := dev, blockno := blockno, valid := false, refcnt := 1)]
  }

  // Every buffer behind b in the list, that is released earlier, is in use.
  ghost predicate LeastRecent(buf: seq<Buf>, order: seq<nat>, b: nat) {
    exists k :: 0 <= k < |order| && order[k] == b
      && forall j :: k < j < |order| ==> order[j] < |buf| && buf[order[j]].refcnt > 0
  }

  lemma FrontCovers(order: seq<nat>, k: nat)
    requires k < |order| && Distinct(order)
    ensures forall x :: x in order ==> x in [order[k]] + Without(order, k)
    ensures order[k] !in Without(order, k)
  {
    var o := Without(order, k);
    forall j | 0 <= j < |order| ensures order[j] in [order[k]] + o {
      if j < k { assert o[j] == order[j]; } else if j > k { assert o[j - 1] == order[j]; }
    }
  }

  lemma SameTrans(a: seq<Buf>, b: seq<Buf>, c: seq<Buf>)
    requires SameBuffers(a, b) && SameBuffers(b, c)
    ensures SameBuffers(a, c)
  {
  }

  lemma InvalidReadsDisk(buf: seq<Buf>, disk: Store, b: nat)
    requires Sound(buf, disk) && b < NBUF && !buf[b].valid && buf[b].dev != 0
    requires KeyOf(buf[b]) in disk
    ensures Logical(buf, disk, KeyOf(buf[b]), disk[KeyOf(buf[b])])
  {
    forall i | 0 <= i < NBUF && i != b ensures !Holds(buf[i], KeyOf(buf[b])) {
      assert i < b && buf[i].dev != 0 ==> !Holds(buf[b], KeyOf(buf[i]));
    }
  }

  lemma KeepLinks(a: seq<Buf>, b: seq<Buf>, order: seq<nat>)
    requires Linked(a, order) && |a| == |b|
    requires forall i :: 0 <= i < |a| ==> a[i].next == b[i].next && a[i].prev == b[i].prev
    ensures Linked(b, order)
  {
    forall i | 0 <= i <= |order| ensures Joined(b, Cycle(order)[i], Cycle(order)[i + 1]) {
      assert Joined(a, Cycle(order)[i], Cycle(order)[i + 1]);
    }
  }
}
