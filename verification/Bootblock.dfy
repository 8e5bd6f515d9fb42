/** The boot-block checksum (internal/adf/adf.go): a one's-complement sum of 256 words. */
module Bootblock {
  import opened Bytes

  const BOOT_BLOCK_SIZE := 1024
  const CHECKSUM_WORD := 1
  const ALL_ONES := 0xFFFF_FFFF

  /** `^sum` */
  function Complement(w: U32): U32 {
    ALL_ONES - w
  }

  /** `sum += word; if sum < old { sum++ }` on 32 bits. */
  function AddWithCarry(sum: U32, word: U32): U32 {
    if sum + word < 0x1_0000_0000 then sum + word else sum + word - ALL_ONES
  }

  function CarrySum(ws: seq<U32>): U32 {
    if ws == [] then 0 else AddWithCarry(CarrySum(ws[..|ws| - 1]), ws[|ws| - 1])
  }

  /** The boot block's words with the checksum field read as zero. */
  function Summed(boot: seq<Byte>): (ws: seq<U32>)
    requires |boot| >= BOOT_BLOCK_SIZE
    ensures |ws| == 256
  {
    Words(boot[..BOOT_BLOCK_SIZE])[CHECKSUM_WORD := 0]
  }

  function Checksum(ws: seq<U32>): U32
    requires |ws| == 256
  {
    Complement(CarrySum(ws[CHECKSUM_WORD := 0]))
  }

  lemma {:induction false} CarrySumSnoc(ws: seq<U32>, i: nat)
    requires i < |ws|
    ensures CarrySum(ws[..i + 1]) == AddWithCarry(CarrySum(ws[..i]), ws[i])
  {
    hide AddWithCarry;
    assert ws[..i + 1][..i] == ws[..i];
  }

  lemma {:induction false} SummedAt(boot: seq<Byte>, i: nat)
    requires |boot| >= BOOT_BLOCK_SIZE && i < 256
    ensures Summed(boot)[i] == if i == CHECKSUM_WORD then 0 else Word(boot[4 * i..4 * i + 4], 0)
  {
    assert Word(boot[..BOOT_BLOCK_SIZE], i) == Word(boot[4 * i..4 * i + 4], 0);
  }

  lemma {:induction false} NothingSummed(ws: seq<U32>)
    ensures CarrySum(ws[..0]) == 0
  {
  }

  method CalculateBootblockChecksum(boot: seq<Byte>) returns (c: U32)
    ensures c == if |boot| < BOOT_BLOCK_SIZE then 0 else Complement(CarrySum(Summed(boot)))
  {
    hide CarrySum, Summed, Complement;
    if |boot| < BOOT_BLOCK_SIZE {
      return 0;
    }
    var sum := SumWords(boot);
    c := Complement(sum);
  }

  /** The loop of the checksum. */
  method SumWords(boot: seq<Byte>) returns (sum: U32)
    requires |boot| >= BOOT_BLOCK_SIZE
    ensures sum == CarrySum(Summed(boot))
  {
    hide CarrySum, Summed, AddWithCarry;
    ghost var ws := Summed(boot);
    ghost var k := 0;
    NothingSummed(ws);
    sum := 0;
    var off := 0;
    while off < BOOT_BLOCK_SIZE
      invariant off == 4 * k && k <= 256
      invariant sum == CarrySum(ws[..k])
      decreases 256 - k
    {
      var word := WordToAdd(boot, off, k);
      CarrySumSnoc(ws, k);
      sum := AddWrapping(sum, word);
      off, k := off + 4, k + 1;
    }
    assert ws[..k] == ws;
  }

  /** The word at a byte offset; the checksum field counts as zero. */
  method WordToAdd(boot: seq<Byte>, off: nat, ghost k: nat) returns (word: U32)
    requires |boot| >= BOOT_BLOCK_SIZE && off == 4 * k && k < 256
    ensures word == Summed(boot)[k]
  {
    hide Summed, Word;
    word := 0;
    if off != 4 {
      word := Word(boot[off..off + 4], 0);
    }
    SummedAt(boot, k);
  }

  /** One addition of the loop: wrap at 32 bits, then add the carry. */
  method AddWrapping(before: U32, word: U32) returns (sum: U32)
    ensures sum == AddWithCarry(before, word)
  {
    sum := (before + word) % 0x1_0000_0000;
    if sum < before {
      sum := sum + 1;
    }
  }

  // ------------------------------------------------ the sum as arithmetic

  function Total(ws: seq<U32>): nat {
    if ws == [] then 0 else Total(ws[..|ws| - 1]) + ws[|ws| - 1]
  }

  /** Zero is kept apart; every other number is taken modulo 2^32 - 1 into 1 .. 2^32 - 1. */
  function Fold(n: nat): (w: U32)
    ensures w == 0 <==> n == 0
  {
    if n == 0 then 0 else 1 + (n - 1) % ALL_ONES
  }

  lemma {:induction false} FoldUnique(n: nat, w: U32, k: nat)
    requires n == w + k * ALL_ONES && w > 0
    ensures Fold(n) == w
  {
    ModUnique(n - 1, w - 1, k);
  }

  lemma {:induction false} ModUnique(a: nat, r: nat, k: nat)
    requires a == r + k * ALL_ONES && r < ALL_ONES
    ensures a % ALL_ONES == r
    decreases k
  {
    if k > 0 {
      ModUnique(a - ALL_ONES, r, k - 1);
    }
  }

  lemma {:induction false} FoldAdds(n: nat, w: U32)
    ensures AddWithCarry(Fold(n), w) == Fold(n + w)
  {
    if n > 0 {
      var k := (n - 1) / ALL_ONES;
      assert n == Fold(n) + k * ALL_ONES;
      if Fold(n) + w <= ALL_ONES {
        FoldUnique(n + w, Fold(n) + w, k);
      } else {
        FoldUnique(n + w, Fold(n) + w - ALL_ONES, k + 1);
      }
    } else if w > 0 {
      FoldUnique(w, w, 0);
    }
  }

  /** The carry loop computes the plain sum, folded: so it is commutative and associative. */
  lemma {:induction false} CarrySumIsFoldedTotal(ws: seq<U32>)
    ensures CarrySum(ws) == Fold(Total(ws))
  {
    if ws != [] {
      CarrySumIsFoldedTotal(ws[..|ws| - 1]);
      FoldAdds(Total(ws[..|ws| - 1]), ws[|ws| - 1]);
    }
  }

  lemma {:induction false} TotalUpdate(ws: seq<U32>, i: nat, w: U32)
    requires i < |ws|
    ensures Total(ws[i := w]) == Total(ws) - ws[i] + w
  {
    var n := |ws| - 1;
    if i == n {
      assert ws[i := w][..n] == ws[..n];
    } else {
      assert ws[i := w][..n] == ws[..n][i := w];
      TotalUpdate(ws[..n], i, w);
    }
  }

  lemma {:induction false} TotalAtLeast(ws: seq<U32>, i: nat)
    requires i < |ws|
    ensures Total(ws) >= ws[i]
  {
    if i < |ws| - 1 {
      TotalAtLeast(ws[..|ws| - 1], i);
    }
  }

  lemma {:induction false} TotalRemove(ws: seq<U32>, i: nat)
    requires i < |ws|
    ensures Total(ws[..i] + ws[i + 1..]) == Total(ws) - ws[i]
  {
    var n := |ws| - 1;
    var rest := ws[..i] + ws[i + 1..];
    if i == n {
      assert rest == ws[..n];
    } else {
      assert rest[..n - 1] == ws[..n][..i] + ws[..n][i + 1..];
      TotalRemove(ws[..n], i);
    }
  }

  lemma {:induction false} WithoutOne(ws: seq<U32>, i: nat)
    requires i < |ws|
    ensures multiset(ws[..i] + ws[i + 1..]) == multiset(ws) - multiset{ws[i]}
  {
    assert ws == ws[..i] + [ws[i]] + ws[i + 1..];
  }

  lemma {:induction false} TotalIsOrderFree(ws: seq<U32>, vs: seq<U32>)
    requires multiset(ws) == multiset(vs)
    ensures Total(ws) == Total(vs)
    decreases |ws|
  {
    assert |multiset(ws)| == |ws| && |multiset(vs)| == |vs|;
    if ws != [] {
      var n := |ws| - 1;
      assert ws[n] in multiset(vs);
      var i :| 0 <= i < |vs| && vs[i] == ws[n];
      WithoutOne(ws, n);
      WithoutOne(vs, i);
      assert ws[..n] + ws[n + 1..] == ws[..n];
      TotalRemove(vs, i);
      TotalIsOrderFree(ws[..n], vs[..i] + vs[i + 1..]);
    }
  }

  // ------------------------------------------------ what the checksum guarantees

  /** The words of a boot block with its checksum stored add up to all ones, and the stored value is then valid. */
  lemma {:induction false} StoredChecksumSumsToAllOnes(ws: seq<U32>)
    requires |ws| == 256
    ensures var stored := ws[1 := Checksum(ws)];
            CarrySum(stored) == 0xFFFF_FFFF && Checksum(stored) == stored[1]
  {
    var zeroed := ws[1 := 0];
    var stored := ws[1 := Checksum(ws)];
    assert stored[1 := 0] == zeroed;
    assert stored == zeroed[1 := Checksum(ws)];
    CarrySumIsFoldedTotal(zeroed);
    CarrySumIsFoldedTotal(stored);
    TotalUpdate(zeroed, 1, Checksum(ws));
    FoldAdds(Total(zeroed), Checksum(ws));
  }

  /**
   A stored checksum is valid exactly when all 256 words add up to all ones; the one exception is a
   stored value of all ones over words that themselves add up to all ones.
   */
  lemma {:induction false} ValidExactlyWhenSumIsAllOnes(ws: seq<U32>)
    requires |ws| == 256
    ensures ws[1] == Checksum(ws)
            <==> CarrySum(ws) == 0xFFFF_FFFF && !(ws[1] == 0xFFFF_FFFF && CarrySum(ws[1 := 0]) == 0xFFFF_FFFF)
  {
    var zeroed := ws[1 := 0];
    var s := ws[1];
    assert ws == zeroed[1 := s];
    CarrySumIsFoldedTotal(zeroed);
    CarrySumIsFoldedTotal(ws);
    TotalUpdate(zeroed, 1, s);
    FoldAdds(Total(zeroed), s);
  }

  function Zeros(): (ws: seq<U32>)
    ensures |ws| == 256 && forall i :: 0 <= i < 256 ==> ws[i] == 0
  {
    seq(256, i => 0)
  }

  /** A bootblock that starts with `DOS`, with an all-ones checksum over words that add up to all ones. */
  function OddBlock(): seq<U32> {
    Zeros()[0 := 0x444F5300][3 := 0xBBB0ACFF][1 := 0xFFFF_FFFF]
  }

  lemma {:induction false} NoTotal(n: nat)
    requires n <= 256
    ensures Total(Zeros()[..n]) == 0
  {
    if n > 0 {
      assert Zeros()[..n][..n - 1] == Zeros()[..n - 1];
      NoTotal(n - 1);
    }
  }

  /** The exception: its words add up to all ones, and its checksum is not the calculated one. */
  lemma {:induction false} OddBlockIsInvalid()
    ensures |OddBlock()| == 256 && CarrySum(OddBlock()) == 0xFFFF_FFFF && Checksum(OddBlock()) == 0 != OddBlock()[1]
  {
    NoTotal(256);
    assert Zeros()[..256] == Zeros();
    TotalUpdate(Zeros(), 0, 0x444F5300);
    TotalUpdate(Zeros()[0 := 0x444F5300], 3, 0xBBB0ACFF);
    var ws := Zeros()[0 := 0x444F5300][3 := 0xBBB0ACFF];
    TotalUpdate(ws, 1, 0xFFFF_FFFF);
    assert OddBlock()[1 := 0] == ws;
    CarrySumIsFoldedTotal(ws);
    CarrySumIsFoldedTotal(OddBlock());
  }

  /** Reordering the words around the checksum field changes nothing. */
  lemma {:induction false} ReorderingIsInvisible(ws: seq<U32>, vs: seq<U32>)
    requires |ws| == |vs| == 256
    requires multiset(ws[1 := 0]) == multiset(vs[1 := 0])
    ensures Checksum(ws) == Checksum(vs)
  {
    CarrySumIsFoldedTotal(ws[1 := 0]);
    CarrySumIsFoldedTotal(vs[1 := 0]);
    TotalIsOrderFree(ws[1 := 0], vs[1 := 0]);
  }

  lemma {:induction false} FoldDetects(rest: nat, a: U32, b: U32)
    ensures Fold(rest + a) == Fold(rest + b)
            <==> a == b || (rest > 0 && ((a == 0 && b == 0xFFFF_FFFF) || (a == 0xFFFF_FFFF && b == 0)))
  {
    FoldAdds(rest, a);
    FoldAdds(rest, b);
  }

  /** One changed word is noticed, except zero for all ones among words that are not all zero. */
  lemma {:induction false} SingleChangeDetected(ws: seq<U32>, i: nat, v: U32)
    requires |ws| == 256 && i < 256 && i != 1
    ensures Checksum(ws[i := v]) == Checksum(ws)
            <==> v == ws[i]
                 || (Total(ws[1 := 0][i := 0]) > 0
                     && ((ws[i] == 0 && v == 0xFFFF_FFFF) || (ws[i] == 0xFFFF_FFFF && v == 0)))
  {
    var zeroed := ws[1 := 0];
    assert ws[i := v][1 := 0] == zeroed[i := v];
    CarrySumIsFoldedTotal(zeroed);
    CarrySumIsFoldedTotal(zeroed[i := v]);
    TotalUpdate(zeroed, i, v);
    TotalUpdate(zeroed, i, 0);
    TotalAtLeast(zeroed, i);
    FoldDetects(Total(zeroed) - ws[i], ws[i], v);
  }

  // ------------------------------------------------ from the bytes

  /** Big-endian word i of a bootblock, with the checksum in bytes 4 to 7 left out. */
  function Counted(boot: seq<Byte>, i: nat): nat
    requires 4 * i + 4 <= |boot|
  {
    var b0: nat, b1: nat, b2: nat, b3: nat := boot[4 * i], boot[4 * i + 1], boot[4 * i + 2], boot[4 * i + 3];
    if i == 1 then 0 else ((b0 * 256 + b1) * 256 + b2) * 256 + b3
  }

  /** The plain sum of the first n words. */
  function SumOf(boot: seq<Byte>, n: nat): nat
    requires 4 * n <= |boot|
  {
    if n == 0 then 0 else SumOf(boot, n - 1) + Counted(boot, n - 1)
  }

  lemma {:induction false} TotalIsSum(boot: seq<Byte>, n: nat)
    requires |boot| >= 1024 && n <= 256
    ensures Total(Summed(boot)[..n]) == SumOf(boot, n)
  {
    hide Summed;
    if n > 0 {
      TotalIsSum(boot, n - 1);
      assert Summed(boot)[..n][..n - 1] == Summed(boot)[..n - 1];
      SummedIsCounted(boot, n - 1);
    }
  }

  lemma {:induction false} SummedIsCounted(boot: seq<Byte>, i: nat)
    requires |boot| >= 1024 && i < 256
    ensures Summed(boot)[i] == Counted(boot, i)
  {
    SummedAt(boot, i);
    assert boot[4 * i..4 * i + 4][0] == boot[4 * i];
  }

  /** The checksum the source calculates, as arithmetic on the bytes: what is missing from the sum to a multiple of 2^32 - 1. */
  lemma {:induction false} ChecksumOfBytes(boot: seq<Byte>)
    requires |boot| >= 1024
    ensures var sum := SumOf(boot, 256);
            Complement(CarrySum(Summed(boot))) == if sum == 0 then 0xFFFF_FFFF else 0xFFFF_FFFE - (sum - 1) % 0xFFFF_FFFF
  {
    hide Summed, CarrySum, Total;
    TotalIsSum(boot, 256);
    assert Summed(boot)[..256] == Summed(boot);
    CarrySumIsFoldedTotal(Summed(boot));
  }
}
