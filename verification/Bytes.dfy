/** Disk blocks as 512 bytes, and the little-endian words and bits the kernel reads out of them. */
module Bytes {
  const BSIZE: nat := 512
  const WORDS: nat := 128 // 32-bit words in a block, NINDIRECT in fs.h
  const W32: nat := 0x1_0000_0000

  type byte = x: int | 0 <= x < 256
  type Block = b: seq<byte> | |b| == BSIZE witness seq(BSIZE, _ => 0)

  type Disk = seq<Block>

  function ZeroBlock(): (b: Block)
    ensures forall i :: 0 <= i < BSIZE ==> b[i] == 0
  {
    seq(BSIZE, _ => 0)
  }

  // ---- 32-bit words ----

  function WordBytes(x: nat): (r: seq<byte>)
    requires x < W32
    ensures |r| == 4
  {
    [x % 256, x / 256 % 256, x / 65536 % 256, x / 16777216]
  }

  function WordOf(b: seq<byte>): (r: nat)
    requires |b| == 4
    ensures r < W32
  {
    var b0: int, b1: int, b2: int, b3: int := b[0], b[1], b[2], b[3];
    b0 + 256 * b1 + 65536 * b2 + 16777216 * b3
  }

  /** The i-th unsigned word of a block, as `((uint*)bp->data)[i]`. */
  function Word(b: Block, i: nat): (r: nat)
    requires i < WORDS
    ensures r < W32
  {
    WordOf(b[4 * i..4 * i + 4])
  }

  /** The block after `((uint*)bp->data)[i] = x`. */
  function SetWord(b: Block, i: nat, x: nat): (r: Block)
    requires i < WORDS && x < W32
  {
    b[..4 * i] + WordBytes(x) + b[4 * i + 4..]
  }

  lemma WordRoundTrip(x: nat)
    requires x < W32
    ensures WordOf(WordBytes(x)) == x
  {
    var q := x / 256;
    var p := q / 256;
    assert x / 65536 == p && x / 16777216 == p / 256;
  }

  lemma SetWordGet(b: Block, i: nat, x: nat, j: nat)
    requires i < WORDS && j < WORDS && x < W32
    ensures Word(SetWord(b, i, x), j) == if i == j then x else Word(b, j)
  {
    var r := SetWord(b, i, x);
    if i == j {
      assert r[4 * i..4 * i + 4] == WordBytes(x);
      WordRoundTrip(x);
    } else {
      assert r[4 * j..4 * j + 4] == b[4 * j..4 * j + 4];
    }
  }

  lemma ZeroWord(i: nat)
    requires i < WORDS
    ensures Word(ZeroBlock(), i) == 0
  {}

  /** The block after words base, base+1, ... were stored one after the other. */
  function PutWords(b: Block, base: nat, ws: seq<nat>): (r: Block)
    requires base + |ws| <= WORDS && forall i :: 0 <= i < |ws| ==> ws[i] < W32
  {
    var n := |ws|;
    if n == 0 then b else SetWord(PutWords(b, base, ws[..n - 1]), base + n - 1, ws[n - 1])
  }

  lemma {:induction false} PutWordsGet(b: Block, base: nat, ws: seq<nat>, j: nat)
    requires base + |ws| <= WORDS && j < WORDS && forall i :: 0 <= i < |ws| ==> ws[i] < W32
    ensures Word(PutWords(b, base, ws), j) == if base <= j < base + |ws| then ws[j - base] else Word(b, j)
  {
    hide Word, SetWord;
    var n := |ws|;
    if n > 0 {
      PutWordsGet(b, base, ws[..n - 1], j);
      SetWordGet(PutWords(b, base, ws[..n - 1]), base + n - 1, ws[n - 1], j);
    }
  }

  // ---- bits of a byte: with m = 1 << k, the kernel's x & m, x | m and x & ~m ----

  function Exp2(n: nat): (r: nat)
    ensures r > 0
  {
    if n == 0 then 1 else 2 * Exp2(n - 1)
  }

  predicate TestBit(x: nat, k: nat) {
    if k == 0 then x % 2 == 1 else TestBit(x / 2, k - 1)
  }

  /** The n-bit number x with bit k made equal to v. */
  function WithBit(x: nat, k: nat, v: bool, n: nat): (r: nat)
    requires k < n && x < Exp2(n)
    ensures r < Exp2(n)
  {
    if k == 0 then x - x % 2 + (if v then 1 else 0) else 2 * WithBit(x / 2, k - 1, v, n - 1) + x % 2
  }

  function SetBit(x: byte, k: nat): byte
    requires k < 8
  {
    assert Exp2(8) == 256;
    WithBit(x, k, true, 8)
  }

  function ClearBit(x: byte, k: nat): byte
    requires k < 8
  {
    assert Exp2(8) == 256;
    WithBit(x, k, false, 8)
  }

  lemma {:induction false} WithBitTest(x: nat, k: nat, v: bool, n: nat, j: nat)
    requires k < n && x < Exp2(n)
    ensures TestBit(WithBit(x, k, v, n), j) == if j == k then v else TestBit(x, j)
  {
    if k > 0 && j > 0 {
      WithBitTest(x / 2, k - 1, v, n - 1, j - 1);
    }
  }

  lemma BitLaws(x: byte, k: nat, j: nat)
    requires k < 8
    ensures TestBit(SetBit(x, k), j) == (j == k || TestBit(x, j))
    ensures TestBit(ClearBit(x, k), j) == (j != k && TestBit(x, j))
  {
    assert Exp2(8) == 256;
    WithBitTest(x, k, true, 8, j);
    WithBitTest(x, k, false, 8, j);
  }
}
