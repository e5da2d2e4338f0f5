/** Copying a bitmap from an offset or to an offset. */
module BitmapCopy {
  import opened Bitops

  // ---------------------------------------------------------------------------
  // What a copy achieves, word by word and bit by bit

  /** Bits lo..hi of w are bits of src, the first of them bit at of src. */
  ghost predicate CopiedBits(w: seq<Word>, lo: nat, hi: nat, src: seq<Word>, at: nat) {
    forall i: nat | lo <= i < hi :: Bit(w, i) == Bit(src, i - lo + at)
  }

  /** The low hi bits of word x are bits of src from at on. */
  ghost predicate WordCopied(x: Word, hi: nat, src: seq<Word>, at: nat) {
    forall j | 0 <= j < hi && j < BITS_PER_LONG :: x[j] == Bit(src, at + j)
  }

  lemma ExtendCopy(w: seq<Word>, q: nat, hi: nat, src: seq<Word>, at: nat)
    requires q < |w| && hi <= BITS_PER_LONG && CopiedBits(w, 0, BITS_PER_LONG * q, src, at)
    requires WordCopied(w[q], hi, src, at + BITS_PER_LONG * q)
    ensures CopiedBits(w, 0, BITS_PER_LONG * q + hi, src, at)
  {
    forall i: nat | i < BITS_PER_LONG * q + hi ensures Bit(w, i) == Bit(src, i + at) {
      if i >= BITS_PER_LONG * q {
        BitAt(w, q, i - BITS_PER_LONG * q);
      }
    }
  }

  lemma FrameCopy(w: seq<Word>, w': seq<Word>, q: nat, src: seq<Word>, at: nat)
    requires |w| == |w'| && (forall k | 0 <= k < q && k < |w| :: w'[k] == w[k])
    requires CopiedBits(w, 0, BITS_PER_LONG * q, src, at)
    ensures CopiedBits(w', 0, BITS_PER_LONG * q, src, at)
  {
    forall i: nat | i < BITS_PER_LONG * q ensures Bit(w', i) == Bit(src, i + at) {
      assert Bit(w, i) == Bit(src, i + at);
    }
  }

  lemma CopyNext(w: seq<Word>, q: nat, x: Word, hi: nat, src: seq<Word>, at: nat)
    requires q < |w| && hi <= BITS_PER_LONG && CopiedBits(w, 0, BITS_PER_LONG * q, src, at)
    requires WordCopied(x, hi, src, at + BITS_PER_LONG * q)
    ensures CopiedBits(w[q := x], 0, BITS_PER_LONG * q + hi, src, at)
  {
    FrameCopy(w, w[q := x], q, src, at);
    ExtendCopy(w[q := x], q, hi, src, at);
  }

  // ---------------------------------------------------------------------------
  // From an offset

  /** The word that starts s bits into x and goes on in y. */
  function Joined(x: Word, y: Word, s: nat): Word
    requires 0 < s < BITS_PER_LONG
  {
    Or(Shr(And(x, Not(LowMask(s))), s), Shl(And(y, LowMask(s)), BITS_PER_LONG - s))
  }

  lemma JoinedBits(src: seq<Word>, x: nat, s: nat, at: nat)
    requires at == BITS_PER_LONG * x + s && 0 < s < BITS_PER_LONG && x + 1 < |src|
    ensures WordCopied(Joined(src[x], src[x + 1], s), BITS_PER_LONG, src, at)
  {
    var w := Joined(src[x], src[x + 1], s);
    forall j | 0 <= j < BITS_PER_LONG ensures w[j] == Bit(src, at + j) {
      if s + j < BITS_PER_LONG {
        BitAt(src, x, s + j);
      } else {
        BitAt(src, x + 1, s + j - BITS_PER_LONG);
        assert BITS_PER_LONG * (x + 1) + (s + j - BITS_PER_LONG) == at + j;
      }
    }
  }

  /** The last word when its bits come from two words. */
  function JoinedLast(x: Word, y: Word, s: nat, n: nat): Word
    requires 0 < s < BITS_PER_LONG
  {
    Or(Shr(And(x, Not(LowMask(s))), s), Shl(And(y, LowMask(n)), BITS_PER_LONG - s))
  }

  lemma JoinedLastBits(src: seq<Word>, x: nat, s: nat, left: nat, at: nat)
    requires at == BITS_PER_LONG * x + s && 0 < s < BITS_PER_LONG && x + 1 < |src|
    requires BITS_PER_LONG - s < left < BITS_PER_LONG
    ensures WordCopied(JoinedLast(src[x], src[x + 1], s, left - (BITS_PER_LONG - s)), left, src, at)
  {
    var w := JoinedLast(src[x], src[x + 1], s, left - (BITS_PER_LONG - s));
    forall j | 0 <= j < left ensures w[j] == Bit(src, at + j) {
      if s + j < BITS_PER_LONG {
        BitAt(src, x, s + j);
      } else {
        BitAt(src, x + 1, s + j - BITS_PER_LONG);
        assert BITS_PER_LONG * (x + 1) + (s + j - BITS_PER_LONG) == at + j;
      }
    }
  }

  lemma ShortBits(src: seq<Word>, x: nat, s: nat, left: nat, at: nat)
    requires at == BITS_PER_LONG * x + s && 0 < s < BITS_PER_LONG && x < |src| && left <= BITS_PER_LONG - s
    ensures WordCopied(And(Shr(src[x], s), LowMask(left)), left, src, at)
  {
    forall j | 0 <= j < left ensures And(Shr(src[x], s), LowMask(left))[j] == Bit(src, at + j) {
      BitAt(src, x, s + j);
    }
  }

  /** How many words bitmap_copy copies: at least one. */
  function WordsFor(nbits: nat): (n: nat)
    ensures nbits <= BITS_PER_LONG * n && n >= 1
  {
    if nbits <= BITS_PER_LONG then 1 else (nbits + BITS_PER_LONG - 1) / BITS_PER_LONG
  }

  /** bitmap_copy from word p of src to word t of dst. */
  method CopyWords(dst: array<Word>, t: nat, src: array<Word>, p: nat, nbits: nat)
    requires dst != src && t + WordsFor(nbits) <= dst.Length && p + WordsFor(nbits) <= src.Length
    modifies dst
    ensures dst[..t] == old(dst[..t]) && dst[t..t + WordsFor(nbits)] == src[p..p + WordsFor(nbits)]
  {
    if nbits <= BITS_PER_LONG {
      dst[t] := src[p];
      return;
    }
    var n := (nbits + BITS_PER_LONG - 1) / BITS_PER_LONG;
    for k := 0 to n
      invariant dst[..t] == old(dst[..t]) && dst[t..t + k] == src[p..p + k]
    {
      dst[t + k] := src[p + k];
    }
  }

  /** The bits lie within n words; with none to copy, the word the offset is in is still touched
      when the offset is a multiple of the word size. */
  predicate InBounds(shift: nat, nbits: nat, n: nat) {
    shift + nbits <= BITS_PER_LONG * n && (nbits == 0 && shift % BITS_PER_LONG == 0 ==> shift < BITS_PER_LONG * n)
  }

  /** bitmap_copy_with_src_offset */
  method CopyFromOffset(dst: array<Word>, src: array<Word>, shift: nat, nbits: nat)
    requires dst != src && dst.Length > 0 && nbits <= BITS_PER_LONG * dst.Length
    requires InBounds(shift, nbits, src.Length)
    modifies dst
    ensures CopiedBits(dst[..], 0, nbits, src[..], shift)
  {
    var p: nat, s: nat := shift / BITS_PER_LONG, shift % BITS_PER_LONG;
    if s == 0 {
      CopyWords(dst, 0, src, p, nbits);
      AlignedCopy(dst[..], src[..], p, nbits);
    } else {
      CopyShifted(dst, src, p, s, nbits);
    }
  }

  method CopyShifted(dst: array<Word>, src: array<Word>, p: nat, s: nat, nbits: nat)
    requires dst != src && nbits <= BITS_PER_LONG * dst.Length && 0 < s < BITS_PER_LONG
    requires BITS_PER_LONG * p + s + nbits <= BITS_PER_LONG * src.Length
    modifies dst
    ensures CopiedBits(dst[..], 0, nbits, src[..], BITS_PER_LONG * p + s)
  {
    ghost var w, at := src[..], BITS_PER_LONG * p + s;
    var q: nat, left: nat := 0, nbits;
    while left >= BITS_PER_LONG
      invariant left + BITS_PER_LONG * q == nbits && CopiedBits(dst[..], 0, BITS_PER_LONG * q, w, at)
    {
      ghost var before := dst[..];
      dst[q] := Shr(And(src[p + q], Not(LowMask(s))), s);
      dst[q] := Or(dst[q], Shl(And(src[p + q + 1], LowMask(s)), BITS_PER_LONG - s));
      JoinedBits(w, p + q, s, at + BITS_PER_LONG * q);
      assert dst[..] == before[q := dst[q]];
      CopyNext(before, q, dst[q], BITS_PER_LONG, w, at);
      q, left := q + 1, left - BITS_PER_LONG;
    }
    if left > 0 { CopyTail(dst, src, p, s, q, left); }
  }

  /** The bits of the last, partial word. */
  method CopyTail(dst: array<Word>, src: array<Word>, p: nat, s: nat, q: nat, left: nat)
    requires dst != src && q < dst.Length && 0 < s < BITS_PER_LONG && 0 < left < BITS_PER_LONG
    requires BITS_PER_LONG * (p + q) + s + left <= BITS_PER_LONG * src.Length
    requires CopiedBits(dst[..], 0, BITS_PER_LONG * q, src[..], BITS_PER_LONG * p + s)
    modifies dst
    ensures CopiedBits(dst[..], 0, BITS_PER_LONG * q + left, src[..], BITS_PER_LONG * p + s)
  {
    ghost var before, w := dst[..], src[..];
    if left > BITS_PER_LONG - s {
      dst[q] := Shr(And(src[p + q], Not(LowMask(s))), s);
      dst[q] := Or(dst[q], Shl(And(src[p + q + 1], LowMask(left - (BITS_PER_LONG - s))), BITS_PER_LONG - s));
    } else {
      dst[q] := And(Shr(src[p + q], s), LowMask(left));
    }
    assert dst[..] == before[q := LastWord(w, p + q, s, left)];
    LastWordBits(w, p + q, s, left, BITS_PER_LONG * p + s + BITS_PER_LONG * q);
    CopyNext(before, q, LastWord(w, p + q, s, left), left, w, BITS_PER_LONG * p + s);
  }

  /** The last word, from one word of src or from two. */
  function LastWord(src: seq<Word>, x: nat, s: nat, left: nat): Word
    requires 0 < s < BITS_PER_LONG && x < |src| && (left > BITS_PER_LONG - s ==> x + 1 < |src|)
  {
    if left > BITS_PER_LONG - s then JoinedLast(src[x], src[x + 1], s, left - (BITS_PER_LONG - s))
    else And(Shr(src[x], s), LowMask(left))
  }

  lemma LastWordBits(src: seq<Word>, x: nat, s: nat, left: nat, at: nat)
    requires 0 < s < BITS_PER_LONG && 0 < left < BITS_PER_LONG && at == BITS_PER_LONG * x + s
    requires x < |src| && (left > BITS_PER_LONG - s ==> x + 1 < |src|)
    ensures WordCopied(LastWord(src, x, s, left), left, src, at)
  {
    if left > BITS_PER_LONG - s { JoinedLastBits(src, x, s, left, at); } else { ShortBits(src, x, s, left, at); }
  }

  lemma AlignedCopy(w: seq<Word>, src: seq<Word>, p: nat, nbits: nat)
    requires WordsFor(nbits) <= |w| && p + WordsFor(nbits) <= |src|
    requires w[..WordsFor(nbits)] == src[p..p + WordsFor(nbits)]
    ensures CopiedBits(w, 0, nbits, src, BITS_PER_LONG * p)
  {
    forall i: nat | i < nbits ensures Bit(w, i) == Bit(src, i + BITS_PER_LONG * p) {
      var k, j := i / BITS_PER_LONG, i % BITS_PER_LONG;
      assert w[..WordsFor(nbits)][k] == src[p..p + WordsFor(nbits)][k];
      BitAt(w, k, j);
      BitAt(src, p + k, j);
      assert BITS_PER_LONG * (p + k) + j == i + BITS_PER_LONG * p;
    }
  }

  // ---------------------------------------------------------------------------
  // To an offset

  /** The first n bits of src are in w from shift on, and what was below shift is still there. */
  ghost predicate CopiedTo(w: seq<Word>, w0: seq<Word>, shift: nat, src: seq<Word>, n: nat) {
    && |w| == |w0|
    && (forall i: nat | i < shift :: Bit(w, i) == Bit(w0, i))
    && CopiedBits(w, shift, shift + n, src, 0)
  }

  /** Bit j of word k should be: what was there below the offset, a bit of src from it on. */
  predicate Want(w0: seq<Word>, src: seq<Word>, p: nat, s: nat, k: nat, j: nat)
    requires p <= k && p < |w0| && s < BITS_PER_LONG && j < BITS_PER_LONG
  {
    if k == p && j < s then w0[p][j] else Bit(src, BITS_PER_LONG * (k - p) + j - s)
  }

  /** The low hi bits of word k are as wanted. */
  ghost predicate WordWanted(x: Word, hi: nat, w0: seq<Word>, src: seq<Word>, p: nat, s: nat, k: nat)
    requires p <= k && p < |w0| && s < BITS_PER_LONG
  {
    forall j | 0 <= j < hi && j < BITS_PER_LONG :: x[j] == Want(w0, src, p, s, k, j)
  }

  predicate ClearFrom(x: Word, lo: nat) { forall j | lo <= j < BITS_PER_LONG :: !x[j] }

  /** Words p..k are as wanted, word k only in its low hi bits, and nothing below p changed. */
  ghost predicate Placed(w: seq<Word>, w0: seq<Word>, src: seq<Word>, p: nat, s: nat, k: nat, hi: nat)
    requires p < |w0| && s < BITS_PER_LONG
  {
    && |w| == |w0| && p <= k < |w|
    && (forall i | 0 <= i < p :: w[i] == w0[i])
    && (forall i | p <= i < k :: WordWanted(w[i], BITS_PER_LONG, w0, src, p, s, i))
    && WordWanted(w[k], hi, w0, src, p, s, k)
  }

  lemma PlacedIsCopied(w: seq<Word>, w0: seq<Word>, src: seq<Word>, p: nat, s: nat, k: nat, hi: nat, n: nat)
    requires p < |w0| && s < BITS_PER_LONG && Placed(w, w0, src, p, s, k, hi) && hi <= BITS_PER_LONG
    requires s + n == BITS_PER_LONG * (k - p) + hi
    ensures CopiedTo(w, w0, BITS_PER_LONG * p + s, src, n)
  {
    var shift := BITS_PER_LONG * p + s;
    forall i: nat | i < shift + n
      ensures if i < shift then Bit(w, i) == Bit(w0, i) else Bit(w, i) == Bit(src, i - shift)
    {
      var c, j := i / BITS_PER_LONG, i % BITS_PER_LONG;
      BitAt(w, c, j);
      if c < p {
        BitAt(w0, c, j);
      } else {
        assert w[c][j] == Want(w0, src, p, s, c, j);
        if i < shift { BitAt(w0, c, j); }
      }
    }
  }

  /** The low part of src[q] above what word k already has. */
  lemma LowPart(x: Word, w0: seq<Word>, src: seq<Word>, p: nat, s: nat, q: nat, n: nat)
    requires p < |w0| && 0 < s < BITS_PER_LONG && q < |src| && n <= BITS_PER_LONG - s
    requires WordWanted(x, s, w0, src, p, s, p + q) && ClearFrom(x, s)
    ensures WordWanted(Or(x, Shl(And(src[q], LowMask(n)), s)), s + n, w0, src, p, s, p + q)
  {
    var y := Or(x, Shl(And(src[q], LowMask(n)), s));
    forall j | 0 <= j < s + n ensures y[j] == Want(w0, src, p, s, p + q, j) {
      if j >= s { BitAt(src, q, j - s); }
    }
  }

  /** The high part of src[q] at the start of the next word. */
  lemma HighPart(w0: seq<Word>, src: seq<Word>, p: nat, s: nat, q: nat, y: Word, n: nat)
    requires p < |w0| && 0 < s < BITS_PER_LONG && q < |src| && n <= s
    requires forall j | 0 <= j < n :: y[j] == src[q][j + BITS_PER_LONG - s]
    ensures WordWanted(y, n, w0, src, p, s, p + q + 1)
  {
    forall j | 0 <= j < n ensures y[j] == Want(w0, src, p, s, p + q + 1, j) {
      BitAt(src, q, j + BITS_PER_LONG - s);
      assert BITS_PER_LONG * (q + 1) + j - s == BITS_PER_LONG * q + (j + BITS_PER_LONG - s);
    }
  }

  lemma PlaceTwo(w: seq<Word>, w0: seq<Word>, src: seq<Word>, p: nat, s: nat, k: nat, x: Word, y: Word, hi: nat, n: nat)
    requires p < |w0| && s < BITS_PER_LONG && Placed(w, w0, src, p, s, k, hi) && k + 1 < |w|
    requires WordWanted(x, BITS_PER_LONG, w0, src, p, s, k) && WordWanted(y, n, w0, src, p, s, k + 1)
    ensures Placed(w[k := x][k + 1 := y], w0, src, p, s, k + 1, n)
  {}

  lemma PlaceOne(w: seq<Word>, w0: seq<Word>, src: seq<Word>, p: nat, s: nat, k: nat, x: Word, hi: nat, n: nat)
    requires p < |w0| && s < BITS_PER_LONG && Placed(w, w0, src, p, s, k, hi) && WordWanted(x, n, w0, src, p, s, k)
    ensures Placed(w[k := x], w0, src, p, s, k, n)
  {}

  /** bitmap_copy_with_dst_offset for an offset that is not a multiple of the word size. */
  method PlaceShifted(dst: array<Word>, src: array<Word>, p: nat, s: nat, nbits: nat)
    requires dst != src && 0 < s < BITS_PER_LONG && nbits <= BITS_PER_LONG * src.Length
    requires BITS_PER_LONG * p + s + nbits <= BITS_PER_LONG * dst.Length
    modifies dst
    ensures CopiedTo(dst[..], old(dst[..]), BITS_PER_LONG * p + s, src[..], nbits)
  {
    ghost var w0, w := dst[..], src[..];
    var right := LowMask(BITS_PER_LONG - s);
    dst[p] := And(dst[p], LowMask(s));
    var q: nat, left: nat := 0, nbits;
    while left >= BITS_PER_LONG
      invariant left + BITS_PER_LONG * q == nbits && p + q < dst.Length
      invariant Placed(dst[..], w0, w, p, s, p + q, s) && ClearFrom(dst[p + q], s)
    {
      ghost var before := dst[..];
      dst[p + q] := Or(dst[p + q], Shl(And(src[q], right), s));
      dst[p + q + 1] := Shr(And(src[q], Not(right)), BITS_PER_LONG - s);
      LowPart(before[p + q], w0, w, p, s, q, BITS_PER_LONG - s);
      HighPart(w0, w, p, s, q, dst[p + q + 1], s);
      assert dst[..] == before[p + q := dst[p + q]][p + q + 1 := dst[p + q + 1]];
      PlaceTwo(before, w0, w, p, s, p + q, dst[p + q], dst[p + q + 1], s, s);
      q, left := q + 1, left - BITS_PER_LONG;
    }
    PlaceTail(dst, src, p, s, q, left, w0);
    PlacedIsCopied(dst[..], w0, w, p, s, if left > BITS_PER_LONG - s then p + q + 1 else p + q,
                   if left > BITS_PER_LONG - s then left - (BITS_PER_LONG - s) else s + left, nbits);
  }

  method PlaceTail(dst: array<Word>, src: array<Word>, p: nat, s: nat, q: nat, left: nat, ghost w0: seq<Word>)
    requires dst != src && 0 < s < BITS_PER_LONG && left < BITS_PER_LONG && p < |w0|
    requires BITS_PER_LONG * q + left <= BITS_PER_LONG * src.Length
    requires BITS_PER_LONG * (p + q) + s + left <= BITS_PER_LONG * dst.Length
    requires Placed(dst[..], w0, src[..], p, s, p + q, s) && ClearFrom(dst[p + q], s)
    modifies dst
    ensures if left > BITS_PER_LONG - s then Placed(dst[..], w0, src[..], p, s, p + q + 1, left - (BITS_PER_LONG - s))
            else Placed(dst[..], w0, src[..], p, s, p + q, s + left)
  {
    ghost var before, w := dst[..], src[..];
    if left > BITS_PER_LONG - s {
      var n := left - (BITS_PER_LONG - s);
      dst[p + q] := Or(dst[p + q], Shl(And(src[q], LowMask(BITS_PER_LONG - s)), s));
      dst[p + q + 1] := Shr(And(src[q], Shl(LowMask(n), BITS_PER_LONG - s)), BITS_PER_LONG - s);
      LowPart(before[p + q], w0, w, p, s, q, BITS_PER_LONG - s);
      HighPart(w0, w, p, s, q, dst[p + q + 1], n);
      assert dst[..] == before[p + q := dst[p + q]][p + q + 1 := dst[p + q + 1]];
      PlaceTwo(before, w0, w, p, s, p + q, dst[p + q], dst[p + q + 1], s, n);
    } else if left > 0 {
      dst[p + q] := Or(dst[p + q], Shl(And(src[q], LowMask(left)), s));
      LowPart(before[p + q], w0, w, p, s, q, left);
      assert dst[..] == before[p + q := dst[p + q]];
      PlaceOne(before, w0, w, p, s, p + q, dst[p + q], s, s + left);
    }
  }

  /** bitmap_copy_with_dst_offset */
  method CopyToOffset(dst: array<Word>, src: array<Word>, shift: nat, nbits: nat)
    requires dst != src && src.Length > 0 && nbits <= BITS_PER_LONG * src.Length
    requires InBounds(shift, nbits, dst.Length)
    modifies dst
    ensures CopiedTo(dst[..], old(dst[..]), shift, src[..], nbits)
  {
    var p: nat, s: nat := shift / BITS_PER_LONG, shift % BITS_PER_LONG;
    if s == 0 {
      CopyWords(dst, p, src, 0, nbits);
      AlignedPlace(dst[..], old(dst[..]), src[..], p, nbits);
    } else {
      PlaceShifted(dst, src, p, s, nbits);
    }
  }

  lemma AlignedPlace(w: seq<Word>, w0: seq<Word>, src: seq<Word>, p: nat, nbits: nat)
    requires |w| == |w0| && p + WordsFor(nbits) <= |w| && WordsFor(nbits) <= |src|
    requires w[..p] == w0[..p] && w[p..p + WordsFor(nbits)] == src[0..WordsFor(nbits)]
    ensures CopiedTo(w, w0, BITS_PER_LONG * p, src, nbits)
  {
    forall i: nat | i < BITS_PER_LONG * p ensures Bit(w, i) == Bit(w0, i) {
      var k := i / BITS_PER_LONG;
      assert w[..p][k] == w0[..p][k];
    }
    var shift := BITS_PER_LONG * p;
    forall i: nat | shift <= i < shift + nbits ensures Bit(w, i) == Bit(src, i - shift) {
      var k, j := (i - shift) / BITS_PER_LONG, (i - shift) % BITS_PER_LONG;
      assert w[p..p + WordsFor(nbits)][k] == src[0..WordsFor(nbits)][k];
      BitAt(w, p + k, j);
      BitAt(src, k, j);
    }
  }

  // ---------------------------------------------------------------------------
  // There and back

  /** Copying a bitmap out to an offset and back from it gives the original bits, for every
      offset and length, and keeps what lies below the offset. */
  method ThereAndBack(src: array<Word>, mid: array<Word>, back: array<Word>, shift: nat, nbits: nat)
    requires src != mid && mid != back && src != back && src.Length > 0 && back.Length > 0
    requires nbits <= BITS_PER_LONG * src.Length && nbits <= BITS_PER_LONG * back.Length
    requires InBounds(shift, nbits, mid.Length)
    modifies mid, back
    ensures forall i: nat | i < nbits :: Bit(back[..], i) == Bit(src[..], i)
    ensures forall i: nat | i < shift :: Bit(mid[..], i) == Bit(old(mid[..]), i)
  {
    CopyToOffset(mid, src, shift, nbits);
    CopyFromOffset(back, mid, shift, nbits);
    forall i: nat | i < nbits ensures Bit(back[..], i) == Bit(src[..], i) {
      assert Bit(mid[..], shift + i) == Bit(src[..], shift + i - shift + 0);
      assert Bit(back[..], i) == Bit(mid[..], i - 0 + shift);
    }
  }
}
