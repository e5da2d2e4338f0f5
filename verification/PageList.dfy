/** The doubly linked page lists. */
module PageList {

  class Page {
    var prev: Page?
    var next: Page?
    var list: List?

    constructor ()
      ensures prev == null && next == null && list == null
    {
      prev, next, list := null, null, null;
    }
  }

  /** `contents` is the list from first (newest) to last (oldest). */
  class List {
    var first: Page?
    var last: Page?
    var numentries: nat
    ghost var contents: seq<Page>

    /** The links of the i-th page are what its neighbours say they are. */
    ghost predicate Linked(i: int)
      requires 0 <= i < |contents|
      reads this, contents[i]
    {
      && contents[i].list == this
      && contents[i].prev == (if i == 0 then null else contents[i - 1])
      && contents[i].next == (if i + 1 == |contents| then null else contents[i + 1])
    }

    ghost predicate Valid()
      reads this, contents
    {
      && numentries == |contents|
      && first == (if contents == [] then null else contents[0])
      && last == (if contents == [] then null else contents[|contents| - 1])
      && (forall i | 0 <= i < |contents| :: Linked(i))
      && (forall i, j | 0 <= i < j < |contents| :: contents[i] != contents[j])
    }

    constructor ()
      ensures Valid() && contents == []
    {
      first, last, numentries, contents := null, null, 0, [];
    }

    method Enqueue(entry: Page)
      requires Valid() && entry.prev == null && entry.list == null
      modifies this, entry, contents
      ensures Valid() && contents == [entry] + old(contents)
    {
      ghost var was := contents;
      forall i | 0 <= i < |was| ensures was[i] != entry { assert Linked(i); }
      entry.next := first;
      if first != null {
        first.prev := entry;
      } else {
        last := entry;
      }
      first := entry;
      entry.list := this;
      numentries := numentries + 1;
      contents := [entry] + was;
      forall i | 0 <= i < |contents| ensures Linked(i) {
        if i > 0 { assert old(Linked(i - 1)); }
      }
      forall i, j | 0 <= i < j < |contents| ensures contents[i] != contents[j] {
        assert contents[j] == was[j - 1];
      }
    }

    /** Unlink the oldest page. */
    method Dequeue() returns (ret: Page?)
      requires Valid()
      modifies this, contents
      ensures Valid()
      ensures old(contents) == [] ==> ret == null && contents == []
      ensures old(contents) != [] ==>
                && ret == old(contents)[|old(contents)| - 1]
                && contents == old(contents)[..|old(contents)| - 1]
                && ret.prev == null && ret.next == null && ret.list == null
    {
      ret := last;
      if ret == null { return; }
      assert Linked(|contents| - 1);
      last := ret.prev;
      if last != null {
        last.next := null;
      } else {
        first := null;
      }
      ret.prev, ret.next, ret.list := null, null, null;
      numentries := numentries - 1;
      contents := contents[..|contents| - 1];
      forall i | 0 <= i < |contents| ensures Linked(i) {
        assert old(Linked(i));
      }
    }

    /** Unlink one page, wherever it is; an empty list is left alone. */
    method Remove(page: Page, ghost k: nat)
      requires Valid()
      requires contents != [] ==> k < |contents| && contents[k] == page
      modifies this, contents
      ensures Valid()
      ensures old(contents) == [] ==> contents == []
      ensures old(contents) != [] ==>
                && contents == old(contents)[..k] + old(contents)[k + 1..]
                && page.prev == null && page.next == null && page.list == null
    {
      if first == null { return; }
      ghost var was := contents;
      assert Linked(k);
      if first == page { first := page.next; }
      if last == page { last := page.prev; }
      if page.next != null { page.next.prev := page.prev; }
      if page.prev != null { page.prev.next := page.next; }
      numentries := numentries - 1;
      page.next, page.prev, page.list := null, null, null;
      contents := was[..k] + was[k + 1..];
      forall i | 0 <= i < |contents| ensures Linked(i) {
        assert old(Linked(if i < k then i else i + 1));
      }
    }

    /** The page after `page`, the first one for null, nothing for a page of another list. */
    method NextPage(page: Page?, ghost k: nat) returns (r: Page?)
      requires Valid()
      requires page != null && page.list == this ==> k < |contents| && contents[k] == page
      ensures page == null ==> r == first
      ensures page != null && page.list != this ==> r == null
      ensures page != null && page.list == this ==> r == if k + 1 == |contents| then null else contents[k + 1]
    {
      if page == null {
        r := first;
      } else if page.list != this {
        r := null;
      } else {
        assert Linked(k);
        r := page.next;
      }
    }

    /** The page before `page`, the last one for null, nothing for a page of another list. */
    method PrevPage(page: Page?, ghost k: nat) returns (r: Page?)
      requires Valid()
      requires page != null && page.list == this ==> k < |contents| && contents[k] == page
      ensures page == null ==> r == last
      ensures page != null && page.list != this ==> r == null
      ensures page != null && page.list == this ==> r == if k == 0 then null else contents[k - 1]
    {
      if page == null {
        r := last;
      } else if page.list != this {
        r := null;
      } else {
        assert Linked(k);
        r := page.prev;
      }
    }
  }
}
