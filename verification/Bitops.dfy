/** 64-bit words as their bits, lowest first, and the searches over arrays of them. */
module Bitops {
  import opened Arithmetic

  const BITS_PER_LONG: int := 64

  type Word = w: seq<bool> | |w| == BITS_PER_LONG witness seq(BITS_PER_LONG, i => false)

  // ---------------------------------------------------------------------------
  // Words

  function Zero(): Word { seq(BITS_PER_LONG, i => false) }

  /** ~0UL */
  function Ones(): Word { seq(BITS_PER_LONG, i => true) }

  function And(x: Word, y: Word): Word { seq(BITS_PER_LONG, i requires 0 <= i < BITS_PER_LONG => x[i] && y[i]) }

  function Or(x: Word, y: Word): Word { seq(BITS_PER_LONG, i requires 0 <= i < BITS_PER_LONG => x[i] || y[i]) }

  function Not(x: Word): Word { seq(BITS_PER_LONG, i requires 0 <= i < BITS_PER_LONG => !x[i]) }

  function Shl(x: Word, k: nat): Word {
    seq(BITS_PER_LONG, i requires 0 <= i < BITS_PER_LONG => i >= k && x[i - k])
  }

  function Shr(x: Word, k: nat): Word {
    seq(BITS_PER_LONG, i requires 0 <= i < BITS_PER_LONG => i + k < BITS_PER_LONG && x[i + k])
  }

  /** (1ul << k) - 1 */
  function LowMask(k: nat): Word { seq(BITS_PER_LONG, i => i < k) }

  /** The number the bits stand for. */
  function Value(x: seq<bool>): nat {
    if x == [] then 0 else (if x[0] then 1 else 0) + 2 * Value(x[1..])
  }

  lemma {:induction false} LowBitsValue(x: seq<bool>, k: nat)
    requires k <= |x| && forall i | 0 <= i < |x| :: x[i] == (i < k)
    ensures Value(x) == Pow2(k) - 1
  {
    if x != [] { LowBitsValue(x[1..], if k == 0 then 0 else k - 1); }
  }

  lemma LowMaskValue(k: nat)
    requires k <= BITS_PER_LONG
    ensures Value(LowMask(k)) == Pow2(k) - 1
  {
    LowBitsValue(LowMask(k), k);
  }

  /** Count of trailing zeros of a word that is not zero: its lowest set bit. */
  method Ctz(x: Word) returns (n: nat)
    requires x != Zero()
    ensures n < BITS_PER_LONG && x[n] && forall i | 0 <= i < n :: !x[i]
  {
    SomeBit(x);
    n := 0;
    while !x[n]
      invariant n < BITS_PER_LONG && forall i | 0 <= i < n :: !x[i]
      invariant exists i :: n <= i < BITS_PER_LONG && x[i]
      decreases BITS_PER_LONG - n
    {
      n := n + 1;
    }
  }

  /** Highest set bit: BITS_PER_LONG - 1 - clzl(x). */
  method HighestBit(x: Word) returns (n: nat)
    requires x != Zero()
    ensures n < BITS_PER_LONG && x[n] && forall i | n < i < BITS_PER_LONG :: !x[i]
  {
    SomeBit(x);
    n := BITS_PER_LONG - 1;
    while !x[n]
      invariant n < BITS_PER_LONG && forall i | n < i < BITS_PER_LONG :: !x[i]
      invariant exists i :: 0 <= i <= n && x[i]
      decreases n
    {
      n := n - 1;
    }
  }

  lemma SomeBit(x: Word)
    ensures x != Zero() <==> exists i :: 0 <= i < BITS_PER_LONG && x[i]
  {
    if forall i | 0 <= i < BITS_PER_LONG :: !x[i] {
      assert x == Zero();
    }
  }

  // ---------------------------------------------------------------------------
  // Bitmaps

  predicate Bit(w: seq<Word>, i: nat) {
    i / BITS_PER_LONG < |w| && w[i / BITS_PER_LONG][i % BITS_PER_LONG]
  }

  /** All bits from lo up to hi have the value v. */
  predicate All(w: seq<Word>, lo: nat, hi: nat, v: bool) {
    forall i | lo <= i < hi :: Bit(w, i) == v
  }

  lemma BitAt(w: seq<Word>, p: nat, j: nat)
    requires p < |w| && j < BITS_PER_LONG
    ensures Bit(w, BITS_PER_LONG * p + j) == w[p][j]
  {
    assert (BITS_PER_LONG * p + j) / BITS_PER_LONG == p && (BITS_PER_LONG * p + j) % BITS_PER_LONG == j;
  }

  /** Bits lo..hi of word p. */
  lemma WordSpan(w: seq<Word>, p: nat, lo: nat, hi: nat, v: bool)
    requires p < |w| && lo <= hi <= BITS_PER_LONG
    ensures All(w, BITS_PER_LONG * p + lo, BITS_PER_LONG * p + hi, v) <==> forall j | lo <= j < hi :: w[p][j] == v
  {
    var base := BITS_PER_LONG * p;
    if All(w, base + lo, base + hi, v) {
      forall j | lo <= j < hi ensures w[p][j] == v { BitAt(w, p, j); assert Bit(w, base + j) == v; }
    }
    if forall j | lo <= j < hi :: w[p][j] == v {
      forall i | base + lo <= i < base + hi ensures Bit(w, i) == v {
        BitAt(w, p, i - base);
      }
    }
  }

  lemma JoinSpans(w: seq<Word>, lo: nat, mid: nat, hi: nat, v: bool)
    requires All(w, lo, mid, v) && All(w, mid, hi, v)
    ensures All(w, lo, hi, v)
  {}

  // ---------------------------------------------------------------------------
  // Searching for a set bit

  /** The least index from offset on with the value v, or size if there is none below it. */
  ghost predicate IsNext(w: seq<Word>, size: nat, offset: nat, v: bool, r: nat) {
    if offset >= size then r == size
    else offset <= r <= size && All(w, offset, r, !v) && (r < size ==> Bit(w, r) == v)
  }

  /** A set bit j of word p, with the bits of interest below it clear, is the next one. */
  lemma FoundIn(w: seq<Word>, size: nat, offset: nat, p: nat, lo: nat, j: nat, v: bool)
    requires p < |w| && lo <= j < BITS_PER_LONG && offset < size && BITS_PER_LONG * p + j < size
    requires All(w, offset, BITS_PER_LONG * p + lo, !v) && offset <= BITS_PER_LONG * p + lo
    requires w[p][j] == v && forall i | lo <= i < j :: w[p][i] == !v
    ensures IsNext(w, size, offset, v, BITS_PER_LONG * p + j)
  {
    BitAt(w, p, j);
    WordSpan(w, p, lo, j, !v);
    JoinSpans(w, offset, BITS_PER_LONG * p + lo, BITS_PER_LONG * p + j, !v);
  }

  /** Everything up to bit hi of word p has the other value. */
  lemma NothingIn(w: seq<Word>, offset: nat, p: nat, lo: nat, hi: nat, v: bool)
    requires p < |w| && lo <= hi <= BITS_PER_LONG
    requires All(w, offset, BITS_PER_LONG * p + lo, !v) && forall i | lo <= i < hi :: w[p][i] == !v
    ensures All(w, offset, BITS_PER_LONG * p + hi, !v)
  {
    WordSpan(w, p, lo, hi, !v);
    JoinSpans(w, offset, BITS_PER_LONG * p + lo, BITS_PER_LONG * p + hi, !v);
  }

  /** The last, partial word: found_first and found_middle.  tmp is word p without the bits
      below lo. */
  method FinishSet(w: seq<Word>, size: nat, offset: nat, p: nat, lo: nat, tmp: Word) returns (r: nat)
    requires p < |w| && offset < size && BITS_PER_LONG * p + lo < size < BITS_PER_LONG * (p + 1)
    requires offset <= BITS_PER_LONG * p + lo && All(w, offset, BITS_PER_LONG * p + lo, false)
    requires tmp == And(w[p], Shl(Ones(), lo))
    ensures IsNext(w, size, offset, true, r)
  {
    var rest := size - BITS_PER_LONG * p;
    var last := And(tmp, Shr(Ones(), BITS_PER_LONG - rest));
    SomeBit(last);
    if last == Zero() {
      forall i | lo <= i < rest ensures !w[p][i] { assert !last[i]; }
      NothingIn(w, offset, p, lo, rest, true);
      return size;
    }
    var n := Ctz(last);
    forall i | lo <= i < n ensures !w[p][i] { assert !last[i]; }
    FoundIn(w, size, offset, p, lo, n, true);
    r := BITS_PER_LONG * p + n;
  }

  /** A word that lies within the size and is not zero: found_middle. */
  method FinishMiddle(w: seq<Word>, size: nat, offset: nat, p: nat, lo: nat, tmp: Word) returns (r: nat)
    requires p < |w| && offset < size && BITS_PER_LONG * (p + 1) <= size && lo < BITS_PER_LONG
    requires offset <= BITS_PER_LONG * p + lo && All(w, offset, BITS_PER_LONG * p + lo, false)
    requires tmp == And(w[p], Shl(Ones(), lo)) && tmp != Zero()
    ensures IsNext(w, size, offset, true, r)
  {
    var n := Ctz(tmp);
    forall i | lo <= i < n ensures !w[p][i] { assert !tmp[i]; }
    FoundIn(w, size, offset, p, lo, n, true);
    r := BITS_PER_LONG * p + n;
  }

  lemma ClearWord(w: seq<Word>, offset: nat, p: nat)
    requires p < |w| && w[p] == Zero() && All(w, offset, BITS_PER_LONG * p, false)
    ensures All(w, offset, BITS_PER_LONG * (p + 1), false)
  {
    NothingIn(w, offset, p, 0, BITS_PER_LONG, true);
  }

  lemma WholeWord(x: Word)
    ensures And(x, Shl(Ones(), 0)) == x
  {}

  /** find_next_bit */
  method FindNextBit(w: seq<Word>, size: nat, offset: nat) returns (r: nat)
    requires size <= BITS_PER_LONG * |w|
    ensures IsNext(w, size, offset, true, r)
  {
    if offset >= size { return size; }
    var p: nat := offset / BITS_PER_LONG;
    var lo: nat := offset % BITS_PER_LONG;
    if lo != 0 {
      var tmp := And(w[p], Shl(Ones(), lo));
      if size - BITS_PER_LONG * p < BITS_PER_LONG {
        r := FinishSet(w, size, offset, p, lo, tmp);
        return;
      }
      if tmp != Zero() {
        r := FinishMiddle(w, size, offset, p, lo, tmp);
        return;
      }
      forall i | lo <= i < BITS_PER_LONG ensures !w[p][i] { assert !tmp[i]; }
      NothingIn(w, offset, p, lo, BITS_PER_LONG, true);
      p := p + 1;
    }
    r := FindFromWord(w, size, offset, p);
  }

  /** The two loops over whole words, four at a time and then singly, and the last word. */
  method FindFromWord(w: seq<Word>, size: nat, offset: nat, first: nat) returns (r: nat)
    requires size <= BITS_PER_LONG * |w| && offset < size && BITS_PER_LONG * first <= size
    requires offset <= BITS_PER_LONG * first && All(w, offset, BITS_PER_LONG * first, false)
    ensures IsNext(w, size, offset, true, r)
  {
    var p := first;
    while size - BITS_PER_LONG * p >= 4 * BITS_PER_LONG
      invariant first <= p && BITS_PER_LONG * p <= size && All(w, offset, BITS_PER_LONG * p, false)
      decreases size - BITS_PER_LONG * p
    {
      WholeWord(w[p]);
      if w[p] != Zero() {
        r := FinishMiddle(w, size, offset, p, 0, w[p]);
        return;
      }
      var any := Or(Or(w[p + 1], w[p + 2]), w[p + 3]);
      if any != Zero() { break; }
      AllThreeClear(w[p + 1], w[p + 2], w[p + 3]);
      ClearWord(w, offset, p);
      ClearWord(w, offset, p + 1);
      ClearWord(w, offset, p + 2);
      ClearWord(w, offset, p + 3);
      p := p + 4;
    }
    while size - BITS_PER_LONG * p >= BITS_PER_LONG
      invariant first <= p && BITS_PER_LONG * p <= size && All(w, offset, BITS_PER_LONG * p, false)
      decreases size - BITS_PER_LONG * p
    {
      WholeWord(w[p]);
      if w[p] != Zero() {
        r := FinishMiddle(w, size, offset, p, 0, w[p]);
        return;
      }
      ClearWord(w, offset, p);
      p := p + 1;
    }
    if size == BITS_PER_LONG * p { return size; }
    WholeWord(w[p]);
    r := FinishSet(w, size, offset, p, 0, w[p]);
  }

  lemma AllThreeClear(x: Word, y: Word, z: Word)
    requires Or(Or(x, y), z) == Zero()
    ensures x == Zero() && y == Zero() && z == Zero()
  {
    forall i | 0 <= i < BITS_PER_LONG ensures !x[i] && !y[i] && !z[i] {
      assert Or(Or(x, y), z)[i] == Zero()[i];
    }
  }

  // ---------------------------------------------------------------------------
  // Searching for a clear bit

  lemma NotAllOnes(x: Word)
    ensures x != Ones() ==> Not(x) != Zero()
  {
    if forall i | 0 <= i < BITS_PER_LONG :: x[i] {
      assert x == Ones();
    } else {
      var i :| 0 <= i < BITS_PER_LONG && !x[i];
      assert Not(x)[i];
    }
  }

  /** found_first and found_middle of the search for a clear bit; tmp is word p with the bits
      below lo set. */
  method FinishClear(w: seq<Word>, size: nat, offset: nat, p: nat, lo: nat, tmp: Word) returns (r: nat)
    requires p < |w| && offset < size && BITS_PER_LONG * p + lo < size < BITS_PER_LONG * (p + 1)
    requires offset <= BITS_PER_LONG * p + lo && All(w, offset, BITS_PER_LONG * p + lo, true)
    requires tmp == Or(w[p], LowMask(lo))
    ensures IsNext(w, size, offset, false, r)
  {
    var rest := size - BITS_PER_LONG * p;
    var last := Or(tmp, Shl(Ones(), rest));
    SomeBit(Not(last));
    if last == Ones() {
      forall i | lo <= i < rest ensures w[p][i] { assert last[i]; }
      NothingIn(w, offset, p, lo, rest, false);
      return size;
    }
    NotAllOnes(last);
    var n := Ctz(Not(last));
    assert !last[n];
    forall i | lo <= i < n ensures w[p][i] { assert !Not(last)[i]; }
    FoundIn(w, size, offset, p, lo, n, false);
    r := BITS_PER_LONG * p + n;
  }

  method FinishMiddleClear(w: seq<Word>, size: nat, offset: nat, p: nat, lo: nat, tmp: Word) returns (r: nat)
    requires p < |w| && offset < size && BITS_PER_LONG * (p + 1) <= size && lo < BITS_PER_LONG
    requires offset <= BITS_PER_LONG * p + lo && All(w, offset, BITS_PER_LONG * p + lo, true)
    requires tmp == Or(w[p], LowMask(lo)) && Not(tmp) != Zero()
    ensures IsNext(w, size, offset, false, r)
  {
    var n := Ctz(Not(tmp));
    assert !tmp[n];
    forall i | lo <= i < n ensures w[p][i] { assert !Not(tmp)[i]; }
    FoundIn(w, size, offset, p, lo, n, false);
    r := BITS_PER_LONG * p + n;
  }

  lemma FullWord(w: seq<Word>, offset: nat, p: nat, lo: nat)
    requires p < |w| && lo < BITS_PER_LONG && Not(Or(w[p], LowMask(lo))) == Zero()
    requires All(w, offset, BITS_PER_LONG * p + lo, true)
    ensures All(w, offset, BITS_PER_LONG * (p + 1), true)
  {
    forall i | lo <= i < BITS_PER_LONG ensures w[p][i] { assert !Not(Or(w[p], LowMask(lo)))[i]; }
    NothingIn(w, offset, p, lo, BITS_PER_LONG, false);
  }

  lemma NoLowBits(x: Word)
    ensures Or(x, LowMask(0)) == x
  {}

  /** ~0UL >> (BITS_PER_LONG - k) */
  lemma LowMaskIsShifted(k: nat)
    requires k <= BITS_PER_LONG
    ensures LowMask(k) == Shr(Ones(), BITS_PER_LONG - k)
  {}

  /** find_next_zero_bit */
  method FindNextZeroBit(w: seq<Word>, size: nat, offset: nat) returns (r: nat)
    requires size <= BITS_PER_LONG * |w|
    ensures IsNext(w, size, offset, false, r)
  {
    if offset >= size { return size; }
    var p: nat := offset / BITS_PER_LONG;
    var lo: nat := offset % BITS_PER_LONG;
    if lo != 0 {
      LowMaskIsShifted(lo);
      var tmp := Or(w[p], Shr(Ones(), BITS_PER_LONG - lo));
      if size - BITS_PER_LONG * p < BITS_PER_LONG {
        r := FinishClear(w, size, offset, p, lo, tmp);
        return;
      }
      if Not(tmp) != Zero() {
        r := FinishMiddleClear(w, size, offset, p, lo, tmp);
        return;
      }
      FullWord(w, offset, p, lo);
      p := p + 1;
    }
    while size - BITS_PER_LONG * p >= BITS_PER_LONG
      invariant offset <= BITS_PER_LONG * p <= size && All(w, offset, BITS_PER_LONG * p, true)
      decreases size - BITS_PER_LONG * p
    {
      NoLowBits(w[p]);
      if Not(w[p]) != Zero() {
        r := FinishMiddleClear(w, size, offset, p, 0, w[p]);
        return;
      }
      FullWord(w, offset, p, 0);
      p := p + 1;
    }
    if size == BITS_PER_LONG * p { return size; }
    NoLowBits(w[p]);
    r := FinishClear(w, size, offset, p, 0, w[p]);
  }

  // ---------------------------------------------------------------------------
  // Searching from the end

  /** The greatest set bit below size, or size if there is none. */
  ghost predicate IsLast(w: seq<Word>, size: nat, r: nat) {
    if r == size then All(w, 0, size, false) else r < size && Bit(w, r) && All(w, r + 1, size, false)
  }

  lemma LastIn(w: seq<Word>, size: nat, p: nat, n: nat, hi: nat)
    requires p < |w| && n < hi <= BITS_PER_LONG && BITS_PER_LONG * p + hi <= size
    requires w[p][n] && (forall i | n < i < hi :: !w[p][i]) && All(w, BITS_PER_LONG * p + hi, size, false)
    ensures IsLast(w, size, BITS_PER_LONG * p + n)
  {
    BitAt(w, p, n);
    WordSpan(w, p, n + 1, hi, false);
    JoinSpans(w, BITS_PER_LONG * p + n + 1, BITS_PER_LONG * p + hi, size, false);
  }

  lemma NothingAbove(w: seq<Word>, size: nat, p: nat, hi: nat)
    requires p < |w| && hi <= BITS_PER_LONG && (forall i | 0 <= i < hi :: !w[p][i])
    requires All(w, BITS_PER_LONG * p + hi, size, false) && BITS_PER_LONG * p + hi <= size
    ensures All(w, BITS_PER_LONG * p, size, false)
  {
    WordSpan(w, p, 0, hi, false);
    JoinSpans(w, BITS_PER_LONG * p, BITS_PER_LONG * p + hi, size, false);
  }

  /** find_last_bit */
  method FindLastBit(w: seq<Word>, size: nat) returns (r: nat)
    requires size <= BITS_PER_LONG * |w|
    ensures IsLast(w, size, r)
  {
    var words: nat := size / BITS_PER_LONG;
    var part := size % BITS_PER_LONG;
    if part != 0 {
      var tmp := And(w[words], Shr(Ones(), BITS_PER_LONG - part));
      if tmp != Zero() {
        var n := HighestBit(tmp);
        forall i | n < i < part ensures !w[words][i] { assert !tmp[i]; }
        LastIn(w, size, words, n, part);
        return BITS_PER_LONG * words + n;
      }
      forall i | 0 <= i < part ensures !w[words][i] { assert !tmp[i]; }
      NothingAbove(w, size, words, part);
    }
    while words > 0
      invariant BITS_PER_LONG * words <= size && All(w, BITS_PER_LONG * words, size, false)
    {
      words := words - 1;
      if w[words] != Zero() {
        var n := HighestBit(w[words]);
        LastIn(w, size, words, n, BITS_PER_LONG);
        return BITS_PER_LONG * words + n;
      }
      NothingAbove(w, size, words, BITS_PER_LONG);
    }
    r := size;
  }
}
