/** Bitmaps in arrays of words: setting and clearing ranges, and finding free areas. */
module Bitmap {
  import opened Arithmetic
  import opened Bitops

  // ---------------------------------------------------------------------------
  // Ranges

  /** BITMAP_FIRST_WORD_MASK */
  function FirstWordMask(start: nat): Word { Shl(Ones(), start % BITS_PER_LONG) }

  /** BITMAP_LAST_WORD_MASK */
  function LastWordMask(nbits: int): Word { Shr(Ones(), (-nbits) % BITS_PER_LONG) }

  /** Bits lo..hi of a word. */
  predicate IsSpan(m: Word, lo: int, hi: int) {
    forall j | 0 <= j < BITS_PER_LONG :: m[j] == (lo <= j < hi)
  }

  /** The words below p are done: their bits from start on have the value v. */
  ghost predicate DoneBelow(w: seq<Word>, w0: seq<Word>, start: nat, p: nat, v: bool) {
    && |w| == |w0|
    && (forall q | p <= q < |w| :: w[q] == w0[q])
    && forall q, j | 0 <= q < p && q < |w| && 0 <= j < BITS_PER_LONG ::
         w[q][j] == (if BITS_PER_LONG * q + j >= start then v else w0[q][j])
  }

  /** The bits from start up to end have the value v and all others are as before. */
  ghost predicate RangeIs(w: seq<Word>, w0: seq<Word>, start: nat, end: nat, v: bool) {
    |w| == |w0| && forall q, j | 0 <= q < |w| && 0 <= j < BITS_PER_LONG ::
      w[q][j] == (if start <= BITS_PER_LONG * q + j < end then v else w0[q][j])
  }

  lemma RangeIsBits(w: seq<Word>, w0: seq<Word>, start: nat, end: nat, v: bool)
    requires RangeIs(w, w0, start, end, v)
    ensures forall i: nat | i < BITS_PER_LONG * |w| :: Bit(w, i) == (if start <= i < end then v else Bit(w0, i))
  {
    forall i: nat | i < BITS_PER_LONG * |w| ensures Bit(w, i) == (if start <= i < end then v else Bit(w0, i)) {
      var q, j := i / BITS_PER_LONG, i % BITS_PER_LONG;
      assert w[q][j] == (if start <= BITS_PER_LONG * q + j < end then v else w0[q][j]);
    }
  }

  function Apply(x: Word, m: Word, v: bool): Word { if v then Or(x, m) else And(x, Not(m)) }

  lemma ApplyBits(x: Word, m: Word, v: bool)
    ensures forall j | 0 <= j < BITS_PER_LONG :: Apply(x, m, v)[j] == (if m[j] then v else x[j])
  {}

  function Low(start: nat, p: nat): int { if start <= BITS_PER_LONG * p then 0 else start - BITS_PER_LONG * p }

  lemma WordDone(w: seq<Word>, w0: seq<Word>, start: nat, p: nat, mask: Word, v: bool)
    requires p < |w| && DoneBelow(w, w0, start, p, v) && IsSpan(mask, Low(start, p), BITS_PER_LONG)
    ensures DoneBelow(w[p := Apply(w[p], mask, v)], w0, start, p + 1, v)
  {
    ApplyBits(w[p], mask, v);
  }

  lemma RangeDone(w: seq<Word>, w0: seq<Word>, start: nat, p: nat, mask: Word, end: nat, v: bool)
    requires p < |w| && DoneBelow(w, w0, start, p, v) && BITS_PER_LONG * p <= end <= BITS_PER_LONG * (p + 1)
    requires IsSpan(mask, Low(start, p), end - BITS_PER_LONG * p)
    ensures RangeIs(w[p := Apply(w[p], mask, v)], w0, start, end, v)
  {
    ApplyBits(w[p], mask, v);
  }

  /** The two masks together: the part of the last word that is in the range. */
  lemma LastSpan(mask: Word, start: nat, p: nat, end: nat)
    requires IsSpan(mask, Low(start, p), BITS_PER_LONG) && BITS_PER_LONG * p < end < BITS_PER_LONG * (p + 1)
    ensures IsSpan(And(mask, LastWordMask(end)), Low(start, p), end - BITS_PER_LONG * p)
  {
    var gap: int := BITS_PER_LONG * (p + 1) - end;
    var neg: int := 0 - end;
    assert neg == BITS_PER_LONG * (0 - p - 1) + gap;
    assert neg % BITS_PER_LONG == gap;
  }

  lemma NothingLeft(w: seq<Word>, w0: seq<Word>, start: nat, p: nat, end: nat, v: bool)
    requires DoneBelow(w, w0, start, p, v) && p <= |w|
    requires end == BITS_PER_LONG * p || (end == start && BITS_PER_LONG * p <= start)
    ensures RangeIs(w, w0, start, end, v)
  {}

  /** bitmap_set (v) and bitmap_clear (!v): whole words while the range reaches the end of one,
      then the last word's mask. */
  method Assign(a: array<Word>, start: nat, nr: nat, v: bool)
    requires start + nr <= BITS_PER_LONG * a.Length
    modifies a
    ensures RangeIs(a[..], old(a[..]), start, start + nr, v)
  {
    ghost var w0 := a[..];
    var size := start + nr;
    var p: nat := start / BITS_PER_LONG;
    var left: int := nr;
    var bits := BITS_PER_LONG - start % BITS_PER_LONG;
    var mask := FirstWordMask(start);
    while left - bits >= 0
      invariant left >= 0 && 0 < bits <= BITS_PER_LONG && left - bits == size - BITS_PER_LONG * (p + 1)
      invariant DoneBelow(a[..], w0, start, p, v) && IsSpan(mask, Low(start, p), BITS_PER_LONG)
      invariant start < BITS_PER_LONG * (p + 1) && p <= a.Length
      invariant bits == BITS_PER_LONG || (left == nr && BITS_PER_LONG * p <= start)
      decreases left
    {
      WordDone(a[..], w0, start, p, mask, v);
      a[p] := Apply(a[p], mask, v);
      left := left - bits;
      bits := BITS_PER_LONG;
      mask := Ones();
      p := p + 1;
    }
    if left != 0 {
      LastSpan(mask, start, p, size);
      mask := And(mask, LastWordMask(size));
      RangeDone(a[..], w0, start, p, mask, size, v);
      a[p] := Apply(a[p], mask, v);
    } else {
      NothingLeft(a[..], w0, start, p, size, v);
    }
  }

  // ---------------------------------------------------------------------------
  // Free areas

  /** ALIGN_MASK with the mask 2^k - 1: clearing the k low bits takes the remainder away. */
  function AlignUp(x: nat, k: nat): int {
    var y := x + Pow2(k) - 1;
    y - y % Pow2(k)
  }

  lemma MultiplesApart(a: nat, j: nat, m: nat)
    requires a >= 1 && j % a == 0 && m % a == 0
    ensures j < m ==> j + a <= m
  {
    var p, q := j / a, m / a;
    assert j == a * p && m == a * q;
    MulMonotone(a, p + 1, q);
    MulMonotone(a, q, p);
    assert a * (p + 1) == a * p + a;
  }

  /** The least aligned position from x on. */
  lemma AlignUpIsLeast(x: nat, k: nat)
    ensures x <= AlignUp(x, k) && AlignUp(x, k) % Pow2(k) == 0
    ensures forall j | x <= j < AlignUp(x, k) :: j % Pow2(k) != 0
  {
    var a := Pow2(k);
    var y := x + a - 1;
    var m := AlignUp(x, k);
    assert y == a * (y / a) + y % a;
    assert m == a * (y / a);
    QuotientIs(m, a, y / a, 0);
    forall j | x <= j < m ensures j % a != 0 {
      if j % a == 0 { MultiplesApart(a, j, m); }
    }
  }

  /** An aligned run of nr clear bits that ends within size. */
  ghost predicate Area(w: seq<Word>, size: nat, nr: nat, k: nat, j: nat) {
    j % Pow2(k) == 0 && j + nr <= size && All(w, j, j + nr, false)
  }

  lemma NotFree(w: seq<Word>, size: nat, nr: nat, k: nat, j: nat, i: nat)
    requires j <= i < j + nr && Bit(w, i)
    ensures !Area(w, size, nr, k, j)
  {}

  /** bitmap_find_next_zero_area: the least area at or after start, or a value above size when
      there is none. */
  method FindNextZeroArea(w: seq<Word>, size: nat, start: nat, nr: nat, k: nat) returns (r: nat)
    requires size <= BITS_PER_LONG * |w| && nr >= 1
    ensures r <= size ==> start <= r && Area(w, size, nr, k, r) && forall j | start <= j < r :: !Area(w, size, nr, k, j)
    ensures r > size ==> forall j | start <= j :: !Area(w, size, nr, k, j)
  {
    var from := start;
    while true
      invariant start <= from && forall j | start <= j < from :: !Area(w, size, nr, k, j)
      decreases size - from
    {
      var zero := FindNextZeroBit(w, size, from);
      AlignUpIsLeast(zero, k);
      var index: nat := AlignUp(zero, k);
      forall j | from <= j < index ensures !Area(w, size, nr, k, j) {
        if j < zero { assert Bit(w, j); NotFree(w, size, nr, k, j, j); }
      }
      var end := index + nr;
      if end > size { return end; }
      var i := FindNextBit(w, end, index);
      if i >= end { return index; }
      forall j | index <= j <= i ensures !Area(w, size, nr, k, j) { NotFree(w, size, nr, k, j, i); }
      from := i + 1;
    }
  }
}
