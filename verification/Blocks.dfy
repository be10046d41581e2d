/** Disk blocks as bytes, and the two other ways kernel/fs.c reads them: as 256 little-endian words (an
    indirect block) and as 8192 bits (a bitmap block). */
module Blocks {
  import opened Prelude

  const BSIZE: nat := 1024
  const NINDIRECT: nat := 256
  const BPB: nat := 8192

  type Block = b: seq<Byte> | |b| == BSIZE witness Zero()

  function Zero(): seq<Byte> { seq(BSIZE, _ => 0) }

  // ----- Words -----

  function Word(b: Block, i: nat): nat
    requires i < NINDIRECT
  {
    (b[4 * i] as nat) + 256 * (b[4 * i + 1] as nat) + 65536 * (b[4 * i + 2] as nat) + 16777216 * (b[4 * i + 3] as nat)
  }

  function PutWord(b: Block, i: nat, v: nat): Block
    requires i < NINDIRECT && v < 0x1_0000_0000
  {
    b[4 * i := v % 256][4 * i + 1 := v / 256 % 256][4 * i + 2 := v / 65536 % 256][4 * i + 3 := v / 16777216]
  }

  lemma WordOfPut(b: Block, i: nat, v: nat, j: nat)
    requires i < NINDIRECT && j < NINDIRECT && v < 0x1_0000_0000
    ensures Word(PutWord(b, i, v), j) == if i == j then v else Word(b, j)
  {
  }

  lemma WordOfZero(i: nat)
    requires i < NINDIRECT
    ensures Word(Zero(), i) == 0
  {
  }

  // ----- Bits -----

  /** (x & 1 << k) != 0, on the binary digits of x. */
  predicate Has(x: nat, k: nat) {
    if k == 0 then x % 2 == 1 else Has(x / 2, k - 1)
  }

  /** x | 1 << k */
  function With(x: nat, k: nat): nat {
    if k == 0 then x / 2 * 2 + 1 else With(x / 2, k - 1) * 2 + x % 2
  }

  /** x & ~(1 << k) */
  function Without(x: nat, k: nat): nat {
    if k == 0 then x / 2 * 2 else Without(x / 2, k - 1) * 2 + x % 2
  }

  lemma {:induction false} HasWith(x: nat, k: nat, j: nat)
    ensures Has(With(x, k), j) <==> j == k || Has(x, j)
  {
    if k > 0 && j > 0 {
      HasWith(x / 2, k - 1, j - 1);
    }
  }

  lemma {:induction false} HasWithout(x: nat, k: nat, j: nat)
    ensures Has(Without(x, k), j) <==> j != k && Has(x, j)
  {
    if k > 0 && j > 0 {
      HasWithout(x / 2, k - 1, j - 1);
    }
  }

  function Power2(k: nat): nat { if k == 0 then 1 else 2 * Power2(k - 1) }

  lemma {:induction false} WithFits(x: nat, k: nat, n: nat)
    requires k < n && x < Power2(n)
    ensures With(x, k) < Power2(n) && Without(x, k) < Power2(n)
    decreases n
  {
    if k > 0 {
      WithFits(x / 2, k - 1, n - 1);
    }
  }

  lemma ByteFits(x: Byte, k: nat)
    requires k < 8
    ensures With(x, k) < 256 && Without(x, k) < 256
  {
    assert Power2(8) == 256 by {
      assert Power2(4) == 16;
    }
    WithFits(x, k, 8);
  }

  predicate Bit(b: Block, i: nat)
    requires i < BPB
  {
    Has(b[i / 8] as nat, i % 8)
  }

  function SetBit(b: Block, i: nat): Block
    requires i < BPB
  {
    ByteFits(b[i / 8], i % 8);
    b[i / 8 := With(b[i / 8] as nat, i % 8)]
  }

  function ClearBit(b: Block, i: nat): Block
    requires i < BPB
  {
    ByteFits(b[i / 8], i % 8);
    b[i / 8 := Without(b[i / 8] as nat, i % 8)]
  }

  lemma BitOfSet(b: Block, i: nat, j: nat)
    requires i < BPB && j < BPB
    ensures Bit(SetBit(b, i), j) <==> j == i || Bit(b, j)
  {
    HasWith(b[i / 8] as nat, i % 8, j % 8);
  }

  lemma BitOfClear(b: Block, i: nat, j: nat)
    requires i < BPB && j < BPB
    ensures Bit(ClearBit(b, i), j) <==> j != i && Bit(b, j)
  {
    HasWithout(b[i / 8] as nat, i % 8, j % 8);
  }
}
