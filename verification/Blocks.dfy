/**
 What the kernel keeps inside a 512-byte block: 4096 bits of the free-block map, or 128 32-bit
 little-endian numbers, as in the log header, an indirect block or a block of inodes.
 */
module Blocks {
  import opened Numbers

  const BSIZE: nat := 512
  const BPB: nat := 4096
  const NINDIRECT: nat := 128
  const MAXOPBLOCKS: nat := 10

  type Block = b: seq<bv8> | |b| == BSIZE witness seq(BSIZE, _ => 0)
  type Disk = seq<Block>

  function Zeroes(): (b: Block) {
    seq(BSIZE, _ => 0)
  }

  // ----- bits -----

  /** `1 << k`. */
  function Mask(k: nat): (m: bv8)
    requires k < 8
  {
    if k == 0 then 1 else if k == 1 then 2 else if k == 2 then 4 else if k == 3 then 8
    else if k == 4 then 16 else if k == 5 then 32 else if k == 6 then 64 else 128
  }

  ghost predicate OneBit(m: bv8) {
    m == 1 || m == 2 || m == 4 || m == 8 || m == 16 || m == 32 || m == 64 || m == 128
  }

  lemma MaskApart(j: nat, k: nat)
    requires j < 8 && k < 8
    ensures OneBit(Mask(k)) && (Mask(j) == Mask(k) <==> j == k)
  {
  }

  lemma OrBit(x: bv8, m: bv8, w: bv8)
    requires OneBit(m) && OneBit(w)
    ensures (x | m) & w != 0 <==> m == w || x & w != 0
  {
  }

  lemma AndNotBit(x: bv8, m: bv8, w: bv8)
    requires OneBit(m) && OneBit(w)
    ensures (x & !m) & w != 0 <==> m != w && x & w != 0
  {
  }

  /** Bit `k` of a block of the free-block map. */
  predicate HasBit(b: Block, k: nat)
    requires k < BPB
  {
    b[k / 8] & Mask(k % 8) != 0
  }

  function WithBit(b: Block, k: nat): (r: Block)
    requires k < BPB
  {
    b[k / 8 := b[k / 8] | Mask(k % 8)]
  }

  function WithoutBit(b: Block, k: nat): (r: Block)
    requires k < BPB
  {
    b[k / 8 := b[k / 8] & !Mask(k % 8)]
  }

  lemma WithBitAt(b: Block, k: nat, j: nat)
    requires k < BPB && j < BPB
    ensures HasBit(WithBit(b, k), j) <==> j == k || HasBit(b, j)
  {
    MaskApart(k % 8, j % 8);
    MaskApart(j % 8, k % 8);
    OrBit(b[k / 8], Mask(k % 8), Mask(j % 8));
  }

  lemma WithoutBitAt(b: Block, k: nat, j: nat)
    requires k < BPB && j < BPB
    ensures HasBit(WithoutBit(b, k), j) <==> j != k && HasBit(b, j)
  {
    MaskApart(k % 8, j % 8);
    MaskApart(j % 8, k % 8);
    AndNotBit(b[k / 8], Mask(k % 8), Mask(j % 8));
  }

  // ----- words -----

  type Word = w: int | 0 <= w < U32

  function ByteOf(v: nat): (b: bv8) {
    (v % 256) as bv8
  }

  function Value(b: bv8): (v: nat)
    ensures v < 256
  {
    b as nat
  }

  lemma ByteBack(x: nat)
    requires x < 256
    ensures Value(x as bv8) == x
  {
  }

  lemma ByteOfBack(v: nat)
    ensures Value(ByteOf(v)) == v % 256
  {
    ByteBack(v % 256);
  }

  /** The number a little-endian machine reads from four bytes. */
  function WordOf(b0: bv8, b1: bv8, b2: bv8, b3: bv8): (w: Word) {
    Value(b0) + 256 * (Value(b1) + 256 * (Value(b2) + 256 * Value(b3)))
  }

  /** The `j`-th 32-bit number of a block. */
  function GetWord(b: Block, j: nat): (w: Word)
    requires j < NINDIRECT
  {
    WordOf(b[4 * j], b[4 * j + 1], b[4 * j + 2], b[4 * j + 3])
  }

  function PutWord(b: Block, j: nat, w: Word): (r: Block)
    requires j < NINDIRECT
  {
    b[4 * j := ByteOf(w)][4 * j + 1 := ByteOf(w / 256)]
     [4 * j + 2 := ByteOf(w / 256 / 256)][4 * j + 3 := ByteOf(w / 256 / 256 / 256)]
  }

  lemma Digits(w: Word, w1: nat, w2: nat, w3: nat)
    requires w1 == w / 256 && w2 == w1 / 256 && w3 == w2 / 256
    ensures w % 256 + 256 * (w1 % 256 + 256 * (w2 % 256 + 256 * (w3 % 256))) == w
  {
    assert w3 % 256 == w3;
    assert w2 % 256 + 256 * w3 == w2;
    assert w1 % 256 + 256 * w2 == w1;
  }

  lemma WordOfBytes(w: Word, w1: nat, w2: nat, w3: nat)
    requires w1 == w / 256 && w2 == w1 / 256 && w3 == w2 / 256
    ensures WordOf(ByteOf(w), ByteOf(w1), ByteOf(w2), ByteOf(w3)) == w
  {
    ByteOfBack(w);
    ByteOfBack(w1);
    ByteOfBack(w2);
    ByteOfBack(w3);
    Digits(w, w1, w2, w3);
  }

  lemma PutWordAt(b: Block, j: nat, w: Word, k: nat)
    requires j < NINDIRECT && k < NINDIRECT
    ensures GetWord(PutWord(b, j, w), k) == if k == j then w else GetWord(b, k)
  {
    WordOfBytes(w, w / 256, w / 256 / 256, w / 256 / 256 / 256);
  }

  lemma ZeroesAt(j: nat)
    requires j < NINDIRECT
    ensures GetWord(Zeroes(), j) == 0
  {
  }

  // ----- runs of words -----

  function FirstWords(b: Block, n: nat): (ws: seq<Word>)
    requires n <= NINDIRECT
    ensures |ws| == n
  {
    if n == 0 then [] else FirstWords(b, n - 1) + [GetWord(b, n - 1)]
  }

  /** The block as 128 numbers. */
  function Words(b: Block): (ws: seq<Word>)
    ensures |ws| == NINDIRECT
  {
    FirstWords(b, NINDIRECT)
  }

  lemma {:induction false} FirstWordsAt(b: Block, n: nat, k: nat)
    requires k < n <= NINDIRECT
    ensures FirstWords(b, n)[k] == GetWord(b, k)
  {
    if k < n - 1 {
      FirstWordsAt(b, n - 1, k);
    }
  }

  lemma WordsAt(b: Block, k: nat)
    requires k < NINDIRECT
    ensures Words(b)[k] == GetWord(b, k)
  {
    FirstWordsAt(b, NINDIRECT, k);
  }

  lemma WordsPutWord(b: Block, j: nat, w: Word)
    requires j < NINDIRECT
    ensures Words(PutWord(b, j, w)) == Words(b)[j := w]
  {
    var x, y := Words(PutWord(b, j, w)), Words(b)[j := w];
    forall k: nat | k < NINDIRECT ensures x[k] == y[k] {
      WordsAt(PutWord(b, j, w), k);
      WordsAt(b, k);
      PutWordAt(b, j, w, k);
    }
  }

  /** Store the words `ws` from word `at` on. */
  function PutWords(b: Block, at: nat, ws: seq<Word>): (r: Block)
    requires at + |ws| <= NINDIRECT
    decreases |ws|
  {
    if ws == [] then b
    else PutWord(PutWords(b, at, ws[..|ws| - 1]), at + |ws| - 1, ws[|ws| - 1])
  }

  /** Words stored read back, and the others are unchanged. */
  lemma {:induction false} WordsPut(b: Block, at: nat, ws: seq<Word>)
    requires at + |ws| <= NINDIRECT
    ensures Words(PutWords(b, at, ws)) == Words(b)[..at] + ws + Words(b)[at + |ws|..]
    decreases |ws|
  {
    if ws != [] {
      var n := |ws| - 1;
      WordsPut(b, at, ws[..n]);
      WordsPutWord(PutWords(b, at, ws[..n]), at + n, ws[n]);
    }
  }
}
