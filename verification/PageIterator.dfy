/** Iterating a tier's pages from the hottest level down, oldest page first, while the
    caller is free to unlink every page it is handed. */
module PageIterator {
  import opened PageList

  /** Hotness levels 0 to 11 plus the spare list the array has at index 12. */
  const NUM_LISTS: nat := 13

  function Reversed(s: seq<Page>): (r: seq<Page>)
    ensures |r| == |s|
  {
    if s == [] then [] else [s[|s| - 1]] + Reversed(s[..|s| - 1])
  }

  /** The order of visit: levels from `level` down to `min`, each oldest first. */
  ghost function VisitOrder(c: seq<seq<Page>>, level: int, min: int): seq<Page>
    requires 0 <= min && level < |c|
    decreases level
  {
    if level < min then [] else Reversed(c[level]) + VisitOrder(c, level - 1, min)
  }

  /** No page is on two of the lists, or twice on one. */
  ghost predicate Distinct(c: seq<seq<Page>>) {
    forall l, i, m, j | 0 <= l < |c| && 0 <= i < |c[l]| && 0 <= m < |c| && 0 <= j < |c[m]| && c[l][i] == c[m][j] ::
      l == m && i == j
  }

  lemma {:induction false} ReversedMembers(s: seq<Page>, p: Page)
    ensures p in Reversed(s) <==> p in s
  {
    if s != [] {
      ReversedMembers(s[..|s| - 1], p);
      assert s == s[..|s| - 1] + [s[|s| - 1]];
    }
  }

  lemma {:induction false} ReversedAt(s: seq<Page>, i: nat)
    requires i < |s|
    ensures Reversed(s)[i] == s[|s| - 1 - i]
  {
    if i > 0 { ReversedAt(s[..|s| - 1], i - 1); }
  }

  /** Where a page of the order of visit comes from. */
  lemma {:induction false} VisitedFrom(c: seq<seq<Page>>, level: int, min: int, p: Page) returns (l: int, i: int)
    requires 0 <= min && level < |c| && p in VisitOrder(c, level, min)
    ensures min <= l <= level && 0 <= i < |c[l]| && c[l][i] == p
    decreases level
  {
    ReversedMembers(c[level], p);
    if p in c[level] {
      l := level;
      i :| 0 <= i < |c[l]| && c[l][i] == p;
    } else {
      l, i := VisitedFrom(c, level - 1, min, p);
    }
  }

  /** Every page of the levels is in the order of visit. */
  lemma {:induction false} AllVisited(c: seq<seq<Page>>, level: int, min: int, l: int, p: Page)
    requires 0 <= min <= l <= level < |c| && p in c[l]
    ensures p in VisitOrder(c, level, min)
    decreases level
  {
    if l == level {
      ReversedMembers(c[level], p);
    } else {
      AllVisited(c, level - 1, min, l, p);
    }
  }

  /** The order of visit is the specification: every page of the levels once, levels
      never rising, and within a level from the last (oldest) to the first. */
  lemma {:induction false} VisitOrderIsHottestOldestFirst(c: seq<seq<Page>>, level: int, min: int, a: nat, b: nat)
    returns (l: int, i: int, m: int, j: int)
    requires 0 <= min && level < |c| && Distinct(c)
    requires a < b < |VisitOrder(c, level, min)|
    ensures min <= l < |c| && 0 <= i < |c[l]| && c[l][i] == VisitOrder(c, level, min)[a]
    ensures min <= m < |c| && 0 <= j < |c[m]| && c[m][j] == VisitOrder(c, level, min)[b]
    ensures m < l || (m == l && j < i)
    decreases level
  {
    var n := |c[level]|;
    if b < n {
      ReversedAt(c[level], a);
      ReversedAt(c[level], b);
      return level, n - 1 - a, level, n - 1 - b;
    } else if a >= n {
      l, i, m, j := VisitOrderIsHottestOldestFirst(c, level - 1, min, a - n, b - n);
    } else {
      ReversedAt(c[level], a);
      l, i := level, n - 1 - a;
      var p := VisitOrder(c, level - 1, min)[b - n];
      assert p in VisitOrder(c, level - 1, min);
      m, j := VisitedFrom(c, level - 1, min, p);
    }
  }

  lemma {:induction false} OrderFrame(c: seq<seq<Page>>, c': seq<seq<Page>>, level: int, min: int)
    requires 0 <= min && level < |c| == |c'| && forall l | min <= l <= level :: c'[l] == c[l]
    ensures VisitOrder(c', level, min) == VisitOrder(c, level, min)
    decreases level
  {
    if level >= min { OrderFrame(c, c', level - 1, min); }
  }

  /** Unlinking a page outside the remaining order leaves that order alone. */
  lemma UnlinkKeepsOrder(c: seq<seq<Page>>, level: int, min: int, at: nat, k: nat)
    requires 0 <= min && level < |c| && at < |c| && k < |c[at]|
    requires c[at][k] !in VisitOrder(c, level, min)
    ensures VisitOrder(c[at := c[at][..k] + c[at][k + 1..]], level, min) == VisitOrder(c, level, min)
  {
    if min <= at <= level {
      AllVisited(c, level, min, at, c[at][k]);
    } else {
      OrderFrame(c, c[at := c[at][..k] + c[at][k + 1..]], level, min);
    }
  }

  // ---------------------------------------------------------------------------
  // The lists in the heap

  ghost function Contents(levels: seq<List>): (c: seq<seq<Page>>)
    reads levels
    ensures |c| == |levels|
    ensures forall i | 0 <= i < |levels| :: c[i] == levels[i].contents
  {
    seq(|levels|, i requires 0 <= i < |levels| reads levels => levels[i].contents)
  }

  /** `pages` is every page there is. */
  ghost predicate LevelsOk(levels: seq<List>, pages: set<Page>)
    reads levels, pages
  {
    && |levels| == NUM_LISTS
    && (forall i | 0 <= i < |levels| :: (forall p | p in levels[i].contents :: p in pages) && levels[i].Valid())
    && (forall i, j | 0 <= i < j < |levels| :: levels[i] != levels[j])
  }

  /** LevelsOk, folded. */
  ghost predicate LevelsFit(levels: seq<List>, pages: set<Page>, depth: nat := 3)
    reads levels, pages
  {
    if depth == 0 then LevelsOk(levels, pages) else LevelsFit(levels, pages, depth - 1)
  }

  lemma UnfoldLevels(levels: seq<List>, pages: set<Page>)
    ensures LevelsFit(levels, pages) <==> LevelsOk(levels, pages)
  {
    assert LevelsFit(levels, pages, 3) == LevelsFit(levels, pages, 2);
    assert LevelsFit(levels, pages, 1) == LevelsFit(levels, pages, 0);
  }

  /** A page knows its list, so valid distinct lists share no page. */
  lemma LevelsAreDistinct(levels: seq<List>, pages: set<Page>)
    requires LevelsOk(levels, pages)
    ensures Distinct(Contents(levels))
  {
    var c := Contents(levels);
    forall l, i, m, j | 0 <= l < |c| && 0 <= i < |c[l]| && 0 <= m < |c| && 0 <= j < |c[m]| && c[l][i] == c[m][j]
      ensures l == m && i == j
    {
      assert levels[l].Linked(i) && levels[m].Linked(j);
    }
  }

  /** Unlinking a page from one level leaves every level well formed. */
  method UnlinkFrom(levels: seq<List>, ghost pages: set<Page>, page: Page, ghost at: nat, ghost k: nat, list: List)
    requires LevelsOk(levels, pages) && at < |levels| && list == levels[at]
    requires k < |list.contents| && list.contents[k] == page
    modifies list, list.contents
    ensures LevelsOk(levels, pages)
    ensures list.contents == old(list.contents)[..k] + old(list.contents)[k + 1..]
    ensures forall i | 0 <= i < |levels| && i != at :: levels[i].contents == old(levels[i].contents)
  {
    ghost var c := Contents(levels);
    forall i, j | 0 <= i < |levels| && i != at && 0 <= j < |c[i]| ensures c[i][j] !in list.contents {
      assert levels[i].Linked(j);
      forall b | 0 <= b < |list.contents| ensures list.contents[b] != c[i][j] {
        assert list.Linked(b);
      }
    }
    list.Remove(page, k);
    forall i | 0 <= i < |levels| && i != at ensures levels[i].Valid() {
      assert old(levels[i].Valid());
      forall j | 0 <= j < |levels[i].contents| ensures levels[i].Linked(j) {
        assert levels[i].contents[j] == c[i][j];
        assert old(levels[i].Linked(j));
      }
    }
  }

  // ---------------------------------------------------------------------------
  // The iterator

  /** What is left to visit when page `pos` of `level` is next. */
  ghost function RestFrom(c: seq<seq<Page>>, level: int, pos: nat, min: int): seq<Page>
    requires 0 <= min <= level < |c| && pos < |c[level]|
  {
    Reversed(c[level][..pos + 1]) + VisitOrder(c, level - 1, min)
  }

  lemma RestUnfolds(c: seq<seq<Page>>, level: int, pos: nat, min: int)
    requires 0 <= min <= level < |c| && pos < |c[level]|
    ensures var rest := RestFrom(c, level, pos, min);
            && rest != [] && rest[0] == c[level][pos]
            && rest[1..] == Reversed(c[level][..pos]) + VisitOrder(c, level - 1, min)
            && (pos > 0 ==> rest[1..] == RestFrom(c, level, pos - 1, min))
            && (pos == 0 ==> rest[1..] == VisitOrder(c, level - 1, min))
  {
    assert c[level][..pos + 1][..pos] == c[level][..pos];
  }

  lemma LevelUnfolds(c: seq<seq<Page>>, level: int, min: int)
    requires 0 <= min <= level < |c|
    ensures c[level] == [] ==> VisitOrder(c, level, min) == VisitOrder(c, level - 1, min)
    ensures c[level] != [] ==> VisitOrder(c, level, min) == RestFrom(c, level, |c[level]| - 1, min)
  {
    assert c[level] != [] ==> c[level][..|c[level]|] == c[level];
  }

  lemma UnlinkKeepsRest(c: seq<seq<Page>>, level: int, pos: nat, min: int, at: nat, k: nat)
    requires 0 <= min <= level < |c| && pos < |c[level]| && at < |c| && k < |c[at]|
    requires c[at][k] !in RestFrom(c, level, pos, min)
    ensures var c' := c[at := c[at][..k] + c[at][k + 1..]];
            && pos < |c'[level]| && c'[level][pos] == c[level][pos]
            && RestFrom(c', level, pos, min) == RestFrom(c, level, pos, min)
  {
    var c' := c[at := c[at][..k] + c[at][k + 1..]];
    UnlinkKeepsOrder(c, level - 1, min, at, k);
    ReversedMembers(c[level][..pos + 1], c[at][k]);
    if at == level {
      assert forall j | 0 <= j <= pos :: c[level][j] == c[level][..pos + 1][j] && c[level][j] in c[level][..pos + 1];
    }
    assert c'[level][..pos + 1] == c[level][..pos + 1];
  }

  class RevIterator {
    const levels: seq<List>
    ghost const pages: set<Page>
    var next: Page?
    var currLevel: int
    var done: bool
    var maxLevel: int
    var minLevel: int
    ghost var pos: nat              // where `next` is in its list

    ghost predicate Ready(c: seq<seq<Page>>)
      reads this
    {
      && |c| == NUM_LISTS
      && 0 <= minLevel && maxLevel < NUM_LISTS
      && (done ==> next == null)
      && (next != null ==> (minLevel <= currLevel < NUM_LISTS && pos < |c[currLevel]| && c[currLevel][pos] == next))
    }

    /** The pages still to come. */
    ghost function Remaining(c: seq<seq<Page>>): seq<Page>
      requires Ready(c)
      reads this
    {
      if done then []
      else if next == null then VisitOrder(c, maxLevel, minLevel)
      else RestFrom(c, currLevel, pos, minLevel)
    }

    constructor (levels: seq<List>, ghost pages: set<Page>, maxLevel: int, minLevel: int)
      requires LevelsOk(levels, pages) && 0 <= minLevel && maxLevel < NUM_LISTS
      ensures this.levels == levels && this.pages == pages
      ensures this.maxLevel == maxLevel && this.minLevel == minLevel
      ensures Ready(Contents(levels))
      ensures Remaining(Contents(levels)) == VisitOrder(Contents(levels), maxLevel, minLevel)
    {
      this.levels, this.pages, this.maxLevel, this.minLevel := levels, pages, maxLevel, minLevel;
      next, currLevel, done, pos := null, 0, false, 0;
    }

    /** The oldest page of the hottest non-empty level from `from` down. */
    method FindFrom(ghost c: seq<seq<Page>>, from: int) returns (page: Page?, level: int)
      requires LevelsFit(levels, pages) && c == Contents(levels) && 0 <= minLevel && from < NUM_LISTS == |c|
      ensures if page == null then VisitOrder(c, from, minLevel) == []
              else && minLevel <= level <= from && c[level] != []
                   && page == c[level][|c[level]| - 1]
                   && VisitOrder(c, from, minLevel) == RestFrom(c, level, |c[level]| - 1, minLevel)
    {
      UnfoldLevels(levels, pages);
      page := null;
      level := from;
      while level >= minLevel
        invariant level <= from
        invariant VisitOrder(c, from, minLevel) == VisitOrder(c, level, minLevel)
        decreases level - minLevel
      {
        LevelUnfolds(c, level, minLevel);
        assert levels[level].Valid();
        if levels[level].last != null {
          page := levels[level].last;
          return;
        }
        level := level - 1;
      }
    }

    /** The page visited after page `k` of level `from`, and where it is. */
    method After(ghost c: seq<seq<Page>>, from: int, page: Page, ghost k: nat)
      returns (prev: Page?, level: int, ghost at: nat)
      requires LevelsFit(levels, pages) && c == Contents(levels) && 0 <= minLevel <= from < NUM_LISTS == |c|
      requires k < |c[from]| && c[from][k] == page
      ensures var rest := RestFrom(c, from, k, minLevel)[1..];
              if prev == null then rest == []
              else && minLevel <= level < NUM_LISTS && at < |c[level]| && c[level][at] == prev
                   && rest == RestFrom(c, level, at, minLevel)
    {
      RestUnfolds(c, from, k, minLevel);
      level, at := from, 0;
      prev := Before(c, from, page, k);
      if prev != null {
        at := k - 1;
        return;
      }
      prev, level := FindFrom(c, from - 1);
      if prev != null { at := |c[level]| - 1; }
    }

    /** The page before page `k` on its own list. */
    method Before(ghost c: seq<seq<Page>>, level: int, page: Page, ghost k: nat) returns (prev: Page?)
      requires LevelsFit(levels, pages) && c == Contents(levels) && 0 <= level < NUM_LISTS == |c|
      requires k < |c[level]| && c[level][k] == page
      ensures prev == if k == 0 then null else c[level][k - 1]
    {
      UnfoldLevels(levels, pages);
      assert levels[level].Valid() && levels[level].Linked(k);
      prev := levels[level].PrevPage(page, k);
    }

    /** The page to hand out: the one found last time, or the first of all. */
    method Current(ghost c: seq<seq<Page>>) returns (page: Page?, level: int, ghost k: nat)
      requires LevelsFit(levels, pages) && c == Contents(levels) && Ready(c) && !done
      ensures if page == null then Remaining(c) == []
              else && minLevel <= level < NUM_LISTS && k < |c[level]| && c[level][k] == page
                   && Remaining(c) == RestFrom(c, level, k, minLevel)
    {
      page, level, k := next, currLevel, pos;
      if page == null {
        page, level := FindFrom(c, maxLevel);
        if page != null { k := |c[level]| - 1; }
      }
    }

    /** The page after this one must be found before this one is handed out: the caller may unlink
        it. */
    method Advance(ghost c: seq<seq<Page>>, level: int, page: Page, ghost k: nat)
      requires LevelsFit(levels, pages) && c == Contents(levels) && 0 <= minLevel <= level < NUM_LISTS == |c|
      requires maxLevel < NUM_LISTS && k < |c[level]| && c[level][k] == page
      modifies this`next, this`currLevel, this`done, this`pos
      ensures Ready(c) && Remaining(c) == RestFrom(c, level, k, minLevel)[1..]
    {
      next, currLevel, pos := After(c, level, page, k);
      done := next == null;
    }

    /** Hand out the next page; null once every page has been handed out. */
    method Next(ghost c: seq<seq<Page>>) returns (page: Page?)
      requires LevelsFit(levels, pages) && c == Contents(levels) && Ready(c)
      modifies this`next, this`currLevel, this`done, this`pos
      ensures Ready(c)
      ensures var rest := old(Remaining(c));
              if rest == [] then page == null && Remaining(c) == []
              else page == rest[0] && Remaining(c) == rest[1..]
    {
      if done { return null; }
      var level;
      ghost var k;
      page, level, k := Current(c);
      if page == null {
        done := true;
        return;
      }
      RestUnfolds(c, level, k, minLevel);
      Advance(c, level, page, k);
    }
  }

  // ---------------------------------------------------------------------------
  // A caller that unlinks pages as it goes

  lemma {:induction false} UnlinkKeepsRemaining(it: RevIterator, c: seq<seq<Page>>, at: nat, k: nat)
    requires it.Ready(c) && at < |c| && k < |c[at]| && c[at][k] !in it.Remaining(c)
    ensures var c' := c[at := c[at][..k] + c[at][k + 1..]];
            it.Ready(c') && it.Remaining(c') == it.Remaining(c)
  {
    if it.next != null {
      UnlinkKeepsRest(c, it.currLevel, it.pos, it.minLevel, at, k);
    } else if !it.done {
      UnlinkKeepsOrder(c, it.maxLevel, it.minLevel, at, k);
    }
  }

  lemma OrderHasNoRepeats(c: seq<seq<Page>>, level: int, min: int)
    requires 0 <= min && level < |c| && Distinct(c)
    ensures NoRepeats(VisitOrder(c, level, min))
  {
    var v := VisitOrder(c, level, min);
    forall a, b | 0 <= a < b < |v| ensures v[a] != v[b] {
      var l, i, m, j := VisitOrderIsHottestOldestFirst(c, level, min, a, b);
    }
  }

  /** The next page to be handed out, and where it is linked. */
  lemma NextIsLinked(it: RevIterator, c: seq<seq<Page>>) returns (l: int, i: int)
    requires it.Ready(c) && it.Remaining(c) != []
    ensures 0 <= l < |c| && 0 <= i < |c[l]| && c[l][i] == it.Remaining(c)[0]
  {
    if it.next == null {
      l, i := VisitedFrom(c, it.maxLevel, it.minLevel, it.Remaining(c)[0]);
    } else {
      RestUnfolds(c, it.currLevel, it.pos, it.minLevel);
      l, i := it.currLevel, it.pos;
    }
  }

  ghost predicate NoRepeats(v: seq<Page>) {
    forall a, b | 0 <= a < b < |v| :: v[a] != v[b]
  }

  /** Take one page and perhaps unlink it. */
  method VisitOne(it: RevIterator, ghost c: seq<seq<Page>>, unlink: set<Page>)
    returns (page: Page?, ghost c': seq<seq<Page>>)
    requires LevelsFit(it.levels, it.pages) && c == Contents(it.levels) && it.Ready(c)
    requires NoRepeats(it.Remaining(c))
    modifies it, it.levels, it.pages
    ensures LevelsFit(it.levels, it.pages) && c' == Contents(it.levels) && it.Ready(c')
    ensures var rest := old(it.Remaining(c));
            if rest == [] then page == null && it.Remaining(c') == []
            else page == rest[0] && it.Remaining(c') == rest[1..]
  {
    ghost var at, k := 0, 0;
    if it.Remaining(c) != [] { at, k := NextIsLinked(it, c); }
    ghost var rest := it.Remaining(c);
    page := it.Next(c);
    c' := c;
    if page != null && page in unlink {
      FirstIsGone(rest);
      UnlinkKeepsRemaining(it, c, at, k);
      c' := UnlinkAt(it, c, page, at, k);
    }
  }

  lemma FirstIsGone(rest: seq<Page>)
    requires NoRepeats(rest) && rest != []
    ensures rest[0] !in rest[1..]
  {}

  method UnlinkAt(it: RevIterator, ghost c: seq<seq<Page>>, page: Page, ghost at: nat, ghost k: nat)
    returns (ghost c': seq<seq<Page>>)
    requires LevelsFit(it.levels, it.pages) && c == Contents(it.levels)
    requires at < |c| && k < |c[at]| && c[at][k] == page
    modifies it.levels, it.pages
    ensures LevelsFit(it.levels, it.pages) && c' == Contents(it.levels)
    ensures c' == c[at := c[at][..k] + c[at][k + 1..]]
  {
    UnfoldLevels(it.levels, it.pages);
    assert it.levels[at].Linked(k);
    UnlinkFrom(it.levels, it.pages, page, at, k, page.list);
    c' := c[at := c[at][..k] + c[at][k + 1..]];
    assert c' == Contents(it.levels);
    UnfoldLevels(it.levels, it.pages);
  }

  method VisitRest(it: RevIterator, ghost c: seq<seq<Page>>, ghost rest: seq<Page>, unlink: set<Page>)
    returns (visited: seq<Page>)
    requires LevelsFit(it.levels, it.pages) && c == Contents(it.levels) && it.Ready(c)
    requires rest == it.Remaining(c) && NoRepeats(rest)
    modifies it, it.levels, it.pages
    ensures LevelsFit(it.levels, it.pages) && visited == rest
    decreases |rest|
  {
    var page: Page?;
    ghost var c';
    page, c' := VisitOne(it, c, unlink);
    if page == null {
      visited := [];
    } else {
      var later := VisitRest(it, c', rest[1..], unlink);
      visited := [page] + later;
    }
  }

  /** A caller that unlinks any of the pages it is handed, as it is handed them, still
      sees every page of the levels, once, hottest level first and oldest page first. */
  method VisitAll(levels: seq<List>, ghost pages: set<Page>, maxLevel: int, minLevel: int, unlink: set<Page>)
    returns (visited: seq<Page>)
    requires LevelsOk(levels, pages) && 0 <= minLevel && maxLevel < NUM_LISTS
    modifies levels, pages
    ensures LevelsOk(levels, pages)
    ensures visited == VisitOrder(old(Contents(levels)), maxLevel, minLevel)
  {
    ghost var c := Contents(levels);
    LevelsAreDistinct(levels, pages);
    OrderHasNoRepeats(c, maxLevel, minLevel);
    var it := new RevIterator(levels, pages, maxLevel, minLevel);
    UnfoldLevels(levels, pages);
    visited := VisitRest(it, c, VisitOrder(c, maxLevel, minLevel), unlink);
    UnfoldLevels(levels, pages);
  }
}
