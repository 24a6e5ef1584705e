/** The bytes of a frame: each of its 512 words with the least significant byte first. */
module FrameBytes {
  import opened Sv39

  type byte = x: nat | x < 256
  type Data = s: seq<byte> | |s| == 4096 witness seq(4096, i => 0)

  function ByteOf(n: nat, j: nat): byte {
    if j == 0 then n % 256 else ByteOf(n / 256, j - 1)
  }

  function Number(s: seq<byte>): nat {
    if s == [] then 0 else s[0] + 256 * Number(s[1..])
  }

  lemma {:induction false} NumberByte(s: seq<byte>, j: nat)
    requires j < |s|
    ensures ByteOf(Number(s), j) == s[j]
  {
    assert Number(s) == s[0] + 256 * Number(s[1..]);
    assert Number(s) / 256 == Number(s[1..]) && Number(s) % 256 == s[0];
    if j > 0 { NumberByte(s[1..], j - 1); }
  }

  lemma ByteOfZero(j: nat)
    ensures ByteOf(0, j) == 0
  {
  }

  function DataAt(f: Frame, k: nat): byte
    requires k < 4096
  {
    ByteOf(Pte(f[k / 8]), k % 8)
  }

  function DataOf(f: Frame): Data { seq(4096, k requires 0 <= k < 4096 => DataAt(f, k)) }

  function WordAt(d: Data, i: nat): Word
    requires i < 512
  {
    OfPte(Number(d[8 * i..8 * i + 8]))
  }

  function FrameOf(d: Data): Frame { seq(512, i requires 0 <= i < 512 => WordAt(d, i)) }

  lemma WordNumber(d: Data, i: nat)
    requires i < 512
    ensures Pte(WordAt(d, i)) == Number(d[8 * i..8 * i + 8])
  {
    PteToWord(Number(d[8 * i..8 * i + 8]));
    hide Pte, OfPte, Number;
  }

  lemma WordByte(d: Data, i: nat, j: nat)
    requires i < 512 && j < 8
    ensures ByteOf(Pte(WordAt(d, i)), j) == d[8 * i + j]
  {
    WordNumber(d, i);
    NumberByte(d[8 * i..8 * i + 8], j);
    hide Pte, WordAt, Number, ByteOf;
  }

  /** A frame made of given bytes has those bytes. */
  lemma FrameHasData(d: Data)
    ensures DataOf(FrameOf(d)) == d
  {
    hide Pte, WordAt, ByteOf;
    forall k: nat | k < 4096 ensures DataAt(FrameOf(d), k) == d[k] {
      WordByte(d, k / 8, k % 8);
    }
  }

  const NODATA: Data := seq(4096, i => 0)

  lemma ZeroPte()
    ensures Pte(ZERO) == 0
  {
  }

  lemma ZeroData()
    ensures DataOf(Zeros()) == NODATA
  {
    ZeroPte();
    hide Pte, ByteOf;
    forall k: nat | k < 4096 ensures DataAt(Zeros(), k) == 0 {
      ByteOfZero(k % 8);
    }
  }

  /** What kalloc and kfree fill a frame with: the same byte everywhere. */
  lemma FillBytes(b: byte, k: nat)
    requires k < 4096
    ensures DataOf(Fill(b))[k] == b
  {
    var w: nat := b * 0x0101_0101_0101_0101;
    PteToWord(w);
    SameBytes(b, k % 8);
    hide Pte, OfPte, ByteOf;
    assert Pte(Fill(b)[k / 8]) == w;
  }

  lemma SameBytes(b: byte, j: nat)
    requires j < 8
    ensures ByteOf(b * 0x0101_0101_0101_0101, j) == b
  {
    var n: nat := b;
    NextByte(n, 0x0101_0101_0101_01, j);
    NextByte(n, 0x0101_0101_0101, j - 1);
    NextByte(n, 0x0101_0101_01, j - 2);
    NextByte(n, 0x0101_0101, j - 3);
    NextByte(n, 0x0101_01, j - 4);
    NextByte(n, 0x0101, j - 5);
    NextByte(n, 0x01, j - 6);
    NextByte(n, 0, j - 7);
  }

  // b repeated below a number.
  lemma NextByte(b: nat, a: nat, j: int)
    requires b < 256
    ensures j == 0 ==> ByteOf(b * (a * 256 + 1), 0) == b
    ensures j > 0 ==> ByteOf(b * (a * 256 + 1), j) == ByteOf(b * a, j - 1)
  {
    assert b * (a * 256 + 1) == b * a * 256 + b;
    assert (b * a * 256 + b) % 256 == b && (b * a * 256 + b) / 256 == b * a;
  }

  // d[o .. o + |s|) replaced by s.
  function Put(d: Data, o: nat, s: seq<byte>): Data
    requires o + |s| <= 4096
  {
    d[..o] + s + d[o + |s|..]
  }

  lemma PutAt(d: Data, o: nat, s: seq<byte>, k: nat)
    requires o + |s| <= 4096 && k < 4096
    ensures Put(d, o, s)[k] == if o <= k < o + |s| then s[k - o] else d[k]
  {
  }
}
