/** What a torrent reports as verified (`describe` and `bitCounts`,
    src/disk/web/torrent-window.js): a bitfield is counted byte by byte through a
    table, and the short last piece is put right afterwards. */
module Progress {
  import opened StartupRanges

  type Bits = seq<bv8>

  // Bits are numbered from the most significant one.
  predicate Bit(b: bv8, k: nat)
    requires k < 8
  {
    match k
    case 0 => b & 0x80 != 0
    case 1 => b & 0x40 != 0
    case 2 => b & 0x20 != 0
    case 3 => b & 0x10 != 0
    case 4 => b & 0x08 != 0
    case 5 => b & 0x04 != 0
    case 6 => b & 0x02 != 0
    case _ => b & 0x01 != 0
  }

  // How many of the first `n` bits are set.
  function Ones(b: bv8, n: nat): (r: nat)
    requires n <= 8
    ensures r <= n
  {
    if n == 0 then 0 else Ones(b, n - 1) + if Bit(b, n - 1) then 1 else 0
  }

  lemma OnesAll(b: bv8)
    ensures Ones(b, 8) ==
      (if b & 0x80 != 0 then 1 else 0) + (if b & 0x40 != 0 then 1 else 0) + (if b & 0x20 != 0 then 1 else 0) +
      (if b & 0x10 != 0 then 1 else 0) + (if b & 0x08 != 0 then 1 else 0) + (if b & 0x04 != 0 then 1 else 0) +
      (if b & 0x02 != 0 then 1 else 0) + (if b & 0x01 != 0 then 1 else 0)
  {
    assert Ones(b, 8) == Ones(b, 7) + if Bit(b, 7) then 1 else 0;
    assert Ones(b, 7) == Ones(b, 6) + if Bit(b, 6) then 1 else 0;
    assert Ones(b, 6) == Ones(b, 5) + if Bit(b, 5) then 1 else 0;
    assert Ones(b, 5) == Ones(b, 4) + if Bit(b, 4) then 1 else 0;
    assert Ones(b, 4) == Ones(b, 3) + if Bit(b, 3) then 1 else 0;
    assert Ones(b, 3) == Ones(b, 2) + if Bit(b, 2) then 1 else 0;
    assert Ones(b, 2) == Ones(b, 1) + if Bit(b, 1) then 1 else 0;
  }

  lemma ClearLowest(v: bv8)
    requires v != 0
    ensures Ones(v & (v - 1), 8) == Ones(v, 8) - 1
  {
    OnesAll(v);
    OnesAll(v & (v - 1));
  }

  // The table: one count for every byte.

  method Popcount(value: bv8) returns (count: nat)
    ensures count == Ones(value, 8)
  {
    var v := value;
    count := 0;
    while v != 0
      invariant count + Ones(v, 8) == Ones(value, 8)
      decreases Ones(v, 8)
    {
      ClearLowest(v);
      v := v & (v - 1);
      count := count + 1;
    }
    OnesAll(0);
  }

  method BitCounts() returns (table: seq<nat>)
    ensures |table| == 256 && forall b: bv8 :: table[b as nat] == Ones(b, 8)
  {
    table := [];
    for value := 0 to 256
      invariant |table| == value
      invariant forall b: bv8 :: b as nat < value ==> table[b as nat] == Ones(b, 8)
    {
      var count := Popcount(value as bv8);
      table := table + [count];
    }
  }

  // The bitfield as its users see it: nothing is set beyond its bytes.
  predicate Has(bits: Bits, piece: nat) { piece / 8 < |bits| && Bit(bits[piece / 8], piece % 8) }

  function CountTo(bits: Bits, n: nat): (r: nat)
    ensures r <= n
  {
    if n == 0 then 0 else CountTo(bits, n - 1) + if Has(bits, n - 1) then 1 else 0
  }

  /** The bytes of the verified pieces, one by one, the last piece at its own size. */
  function VerifiedBytes(bits: Bits, size: nat, n: nat): int {
    if n == 0 then 0 else VerifiedBytes(bits, size, n - 1) + if Has(bits, n - 1) then Bytes(size, n - 1) else 0
  }

  function PieceCount(size: nat): (n: nat)
    ensures size <= n * PIECE < size + PIECE
  {
    (size + PIECE - 1) / PIECE
  }

  function Mask(pieces: nat, index: nat): bv8 {
    if index == (pieces + 7) / 8 - 1 && pieces % 8 != 0 then 0xFF << (8 - pieces % 8) else 0xFF
  }

  // 255 << (8 - used), in a byte.
  function Spare(used: nat): bv8
    requires 0 < used < 8
  {
    match used
    case 1 => 0x80
    case 2 => 0xC0
    case 3 => 0xE0
    case 4 => 0xF0
    case 5 => 0xF8
    case 6 => 0xFC
    case _ => 0xFE
  }

  lemma SpareShift(used: nat)
    requires 0 < used < 8
    ensures Spare(used) == 0xFF << (8 - used)
  {
  }

  lemma MaskBit(b: bv8, used: nat, k: nat)
    requires 0 < used < 8 && k < 8
    ensures Bit(b & Spare(used), k) <==> k < used && Bit(b, k)
  {
  }

  lemma {:induction false} MaskOnes(b: bv8, m: bv8, used: nat, n: nat)
    requires 0 < used < 8 && n <= 8 && m == b & Spare(used)
    ensures Ones(m, n) == Ones(b, if n < used then n else used)
  {
    if n > 0 {
      MaskOnes(b, m, used, n - 1);
      MaskBit(b, used, n - 1);
    }
  }

  lemma FullMask(b: bv8)
    ensures b & 0xFF == b
  {
  }

  function Byte(bits: Bits, index: nat): bv8 { if index < |bits| then bits[index] else 0 }

  lemma ZeroOnes(n: nat)
    requires n <= 8
    ensures Ones(0, n) == 0
  {
    if n > 0 {
      ZeroOnes(n - 1);
    }
  }

  lemma HasInByte(bits: Bits, index: nat, k: nat)
    requires k < 8
    ensures Has(bits, 8 * index + k) <==> Bit(Byte(bits, index), k)
  {
    Place(index, k);
    ZeroOnes(k + 1);
  }

  lemma Place(index: nat, k: nat)
    requires k < 8
    ensures (8 * index + k) / 8 == index && (8 * index + k) % 8 == k
  {
  }

  lemma {:induction false} CountByte(bits: Bits, index: nat, n: nat)
    requires n <= 8
    ensures CountTo(bits, 8 * index + n) == CountTo(bits, 8 * index) + Ones(Byte(bits, index), n)
  {
    if n > 0 {
      CountByte(bits, index, n - 1);
      HasInByte(bits, index, n - 1);
    }
  }

  // The number of pieces the bytes before `index` stand for.
  function Before(pieces: nat, index: nat): nat { if 8 * index < pieces then 8 * index else pieces }

  /** Counting the masked byte counts exactly the pieces it stands for; spare bits at
      the end of the bitfield do not matter. */
  lemma MaskedCount(bits: Bits, pieces: nat, index: nat)
    requires 8 * index < pieces
    ensures CountTo(bits, Before(pieces, index + 1)) ==
      CountTo(bits, 8 * index) + Ones(Byte(bits, index) & Mask(pieces, index), 8)
  {
    MaskIs(pieces, index);
    if 8 * index + 8 <= pieces {
      CountByte(bits, index, 8);
      FullMask(Byte(bits, index));
    } else {
      SpareCount(bits, index, pieces - 8 * index);
    }
  }

  lemma SpareCount(bits: Bits, index: nat, used: nat)
    requires 0 < used < 8
    ensures CountTo(bits, 8 * index + used) == CountTo(bits, 8 * index) + Ones(Byte(bits, index) & Spare(used), 8)
  {
    var b := Byte(bits, index);
    CountByte(bits, index, used);
    MaskOnes(b, b & Spare(used), used, 8);
  }

  lemma MaskIs(pieces: nat, index: nat)
    requires 8 * index < pieces
    ensures 8 * index + 8 <= pieces ==> Mask(pieces, index) == 0xFF && Before(pieces, index + 1) == 8 * index + 8
    ensures 8 * index + 8 > pieces ==> 0 < pieces % 8 == pieces - 8 * index && Mask(pieces, index) == Spare(pieces % 8)
  {
    if 8 * index + 8 > pieces {
      SpareShift(pieces % 8);
    }
  }

  /** Counting whole pieces and correcting for the last one gives the verified bytes. */
  lemma {:induction false} Corrected(bits: Bits, size: nat, n: nat)
    requires n * PIECE <= size + PIECE - 1
    ensures VerifiedBytes(bits, size, n) ==
      CountTo(bits, n) * PIECE - (if n > 0 && Has(bits, n - 1) && n * PIECE > size then n * PIECE - size else 0)
  {
    if n > 0 {
      Corrected(bits, size, n - 1);
    }
  }

  lemma {:induction false} CompleteIff(bits: Bits, size: nat, n: nat)
    requires n * PIECE <= size + PIECE - 1
    ensures VerifiedBytes(bits, size, n) <= Min(size, n * PIECE)
    ensures VerifiedBytes(bits, size, n) == Min(size, n * PIECE) <==> forall i :: 0 <= i < n ==> Has(bits, i)
  {
    if n > 0 {
      CompleteIff(bits, size, n - 1);
      assert Bytes(size, n - 1) > 0;
    }
  }

  /** The reported progress of a file: the sum of the true sizes of its verified
      pieces, complete exactly when every piece is verified. */
  method Describe(bits: Bits, size: nat, pieces: nat) returns (covered: int, complete: bool)
    requires size > 0 && pieces == PieceCount(size)
    ensures covered == VerifiedBytes(bits, size, pieces)
    ensures complete <==> forall i :: 0 <= i < pieces ==> Has(bits, i)
  {
    var table := BitCounts();
    var verified := 0;
    var index := 0;
    while index < (pieces + 7) / 8
      invariant index <= (pieces + 7) / 8
      invariant verified == CountTo(bits, Before(pieces, index))
    {
      MaskedCount(bits, pieces, index);
      verified := verified + table[(Byte(bits, index) & Mask(pieces, index)) as nat];
      index := index + 1;
    }
    covered := verified * PIECE - (if Has(bits, pieces - 1) then pieces * PIECE - size else 0);
    complete := covered == size;
    Corrected(bits, size, pieces);
    CompleteIff(bits, size, pieces);
  }
}
