/** The page bitmaps: arrays of 32-bit words seen as sequences of bits, searched first-fit. */
module Bitmap {

  function BitOf(w: bv32, j: bv6): bool
    requires j < 32
  {
    (w >> j) & 1 == 1
  }

  function SetBit(w: bv32, k: bv6): bv32
    requires k < 32
  {
    w | ((1 as bv32) << k)
  }

  function ClearBit(w: bv32, k: bv6): bv32
    requires k < 32
  {
    w & !((1 as bv32) << k)
  }

  /** Bit k is the one with the value 2 to the k. */
  lemma BitOfPower(k: bv6, j: bv6)
    requires k < 32 && j < 32
    ensures BitOf((1 as bv32) << k, j) <==> j == k
  {
  }

  lemma SetBitAt(w: bv32, k: bv6, j: bv6)
    requires k < 32 && j < 32
    ensures BitOf(SetBit(w, k), j) == (j == k || BitOf(w, j))
  {
  }

  lemma ClearBitAt(w: bv32, k: bv6, j: bv6)
    requires k < 32 && j < 32
    ensures BitOf(ClearBit(w, k), j) == (j != k && BitOf(w, j))
  {
  }

  lemma FullWord(w: bv32)
    requires forall j: bv6 :: j < 32 ==> BitOf(w, j)
    ensures w == 0xFFFF_FFFF
  {
    assert BitOf(w, 0) && BitOf(w, 1) && BitOf(w, 2) && BitOf(w, 3) && BitOf(w, 4) && BitOf(w, 5) && BitOf(w, 6) && BitOf(w, 7);
    assert BitOf(w, 8) && BitOf(w, 9) && BitOf(w, 10) && BitOf(w, 11) && BitOf(w, 12) && BitOf(w, 13) && BitOf(w, 14) && BitOf(w, 15);
    assert BitOf(w, 16) && BitOf(w, 17) && BitOf(w, 18) && BitOf(w, 19) && BitOf(w, 20) && BitOf(w, 21) && BitOf(w, 22) && BitOf(w, 23);
    assert BitOf(w, 24) && BitOf(w, 25) && BitOf(w, 26) && BitOf(w, 27) && BitOf(w, 28) && BitOf(w, 29) && BitOf(w, 30) && BitOf(w, 31);
  }

  lemma FullWordBits(j: bv6)
    requires j < 32
    ensures BitOf(0xFFFF_FFFF, j)
  {
  }

  /** Bit number j of a word, j given as a number. */
  function Index(j: nat): (b: bv6)
    requires j < 32
    ensures b < 32
  {
    j as bv6
  }

  lemma IndexBack(j: nat)
    requires j < 32
    ensures Index(j) as int == j
  {
  }

  lemma IndexOnto(b: bv6)
    requires b < 32
    ensures 0 <= b as int < 32 && Index(b as int) == b
  {
  }

  /** The words as one sequence of bits. */
  function Bits(ws: seq<bv32>): (bits: seq<bool>)
    ensures |bits| == 32 * |ws|
    ensures forall i :: 0 <= i < |bits| ==> bits[i] == BitOf(ws[i / 32], Index(i % 32))
  {
    seq(32 * |ws|, i requires 0 <= i < 32 * |ws| => BitOf(ws[i / 32], Index(i % 32)))
  }

  /** The least clear bit, -1 if every bit is set. */
  function FirstClear(bits: seq<bool>, i: nat): (r: int)
    requires i <= |bits|
    ensures r == -1 <==> forall j :: i <= j < |bits| ==> bits[j]
    ensures r != -1 ==> i <= r < |bits| && !bits[r] && forall j :: i <= j < r ==> bits[j]
    decreases |bits| - i
  {
    if i == |bits| then -1 else if !bits[i] then i else FirstClear(bits, i + 1)
  }

  lemma FirstClearIs(bits: seq<bool>, r: int)
    requires -1 <= r < |bits|
    requires if r == -1 then forall j :: 0 <= j < |bits| ==> bits[j] else !bits[r] && forall j :: 0 <= j < r ==> bits[j]
    ensures FirstClear(bits, 0) == r
  {
  }

  /** find_first_page: skip full words, then look through the bits of the first word that is not. */
  method FindFirstPage(bitmap: array<bv32>) returns (index: int)
    ensures index == FirstClear(Bits(bitmap[..]), 0)
  {
    hide BitOf, Index;
    ghost var bits := Bits(bitmap[..]);
    for i := 0 to bitmap.Length
      invariant forall j :: 0 <= j < 32 * i ==> bits[j]
    {
      var word := bitmap[i];
      if word != 0xFFFF_FFFF {
        for j := 0 to 32
          invariant forall k :: 0 <= k < 32 * i + j ==> bits[k]
        {
          assert (32 * i + j) / 32 == i && (32 * i + j) % 32 == j;
          if !BitOf(word, Index(j)) {
            FirstClearIs(bits, 32 * i + j);
            return 32 * i + j;
          }
        }
        forall b: bv6 | b < 32 ensures BitOf(word, b) {
          IndexOnto(b);
          assert bits[32 * i + b as int];
        }
        FullWord(word);
        assert false;
      }
      forall k | 32 * i <= k < 32 * i + 32 ensures bits[k] {
        assert k / 32 == i;
        FullWordBits(Index(k % 32));
      }
    }
    FirstClearIs(bits, -1);
    index := -1;
  }

  lemma BitsUpdate(ws: seq<bv32>, i: nat, w: bv32, value: bool)
    requires i < 32 * |ws|
    requires forall j: bv6 :: j < 32 ==> BitOf(w, j) == if j == Index(i % 32) then value else BitOf(ws[i / 32], j)
    ensures Bits(ws[i / 32 := w]) == Bits(ws)[i := value]
  {
    hide BitOf, Index;
    var a, b := Bits(ws[i / 32 := w]), Bits(ws)[i := value];
    forall k | 0 <= k < 32 * |ws| ensures a[k] == b[k] {
      IndexBack(i % 32);
      IndexBack(k % 32);
    }
  }

  method BitmapSet(bitmap: array<bv32>, pageIndex: nat)
    requires pageIndex < 32 * bitmap.Length
    modifies bitmap
    ensures Bits(bitmap[..]) == Bits(old(bitmap[..]))[pageIndex := true]
  {
    hide Bits, BitOf, SetBit;
    var i, offset := pageIndex / 32, Index(pageIndex % 32);
    ghost var ws := bitmap[..];
    bitmap[i] := SetBit(bitmap[i], offset);
    forall j: bv6 | j < 32 ensures BitOf(bitmap[i], j) == (j == offset || BitOf(ws[i], j)) {
      SetBitAt(ws[i], offset, j);
    }
    BitsUpdate(ws, pageIndex, bitmap[i], true);
    assert bitmap[..] == ws[i := bitmap[i]];
  }

  method BitmapClear(bitmap: array<bv32>, pageIndex: nat)
    requires pageIndex < 32 * bitmap.Length
    modifies bitmap
    ensures Bits(bitmap[..]) == Bits(old(bitmap[..]))[pageIndex := false]
  {
    hide Bits, BitOf, ClearBit;
    var i, offset := pageIndex / 32, Index(pageIndex % 32);
    ghost var ws := bitmap[..];
    bitmap[i] := ClearBit(bitmap[i], offset);
    forall j: bv6 | j < 32 ensures BitOf(bitmap[i], j) == (j != offset && BitOf(ws[i], j)) {
      ClearBitAt(ws[i], offset, j);
    }
    BitsUpdate(ws, pageIndex, bitmap[i], false);
    assert bitmap[..] == ws[i := bitmap[i]];
  }
}
