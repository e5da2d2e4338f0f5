/** The linked lists of the manager represent the sequences of its specification. */
module UcmLists {
  import opened UcmState
  import PageList

  type Node = PageList.Page
  type Head = PageList.List

  /** The list links the descriptors with these numbers, newest first. */
  ghost predicate Names(page: seq<Node>, list: Head, ids: seq<PageId>)
    reads list, list.contents
  {
    && list.Valid() && |list.contents| == |ids|
    && (forall k | 0 <= k < |ids| :: ids[k] < |page| && list.contents[k] == page[ids[k]])
  }

  /** Names, folded. */
  ghost predicate Links(page: seq<Node>, list: Head, ids: seq<PageId>, depth: nat := 3)
    reads list, list.contents
  {
    if depth == 0 then Names(page, list, ids) else Links(page, list, ids, depth - 1)
  }

  lemma UnfoldLinks(page: seq<Node>, list: Head, ids: seq<PageId>)
    ensures Links(page, list, ids) <==> Names(page, list, ids)
  {
    assert Links(page, list, ids, 3) == Links(page, list, ids, 2);
    assert Links(page, list, ids, 1) == Links(page, list, ids, 0);
  }

  ghost predicate OnSome(heads: map<ListId, Head>, lists: map<ListId, seq<PageId>>, p: PageId) {
    exists id :: id in heads && p in At(lists, id)
  }

  ghost function Nodes(page: seq<Node>): set<Node> { set o | o in page }

  /** Every list links the descriptors its sequence names, and a descriptor on none is unlinked. */
  ghost predicate Represents(page: seq<Node>, heads: map<ListId, Head>, lists: map<ListId, seq<PageId>>)
    reads Nodes(page), heads.Values
  {
    && (forall i, j | 0 <= i < j < |page| :: page[i] != page[j])
    && (forall id, id' | id in heads && id' in heads && id != id' :: heads[id] != heads[id'])
    && (forall id, k | id in heads && 0 <= k < |heads[id].contents| :: heads[id].contents[k] in Nodes(page))
    && (forall id | id in heads :: Links(page, heads[id], At(lists, id)))
    && (forall p | 0 <= p < |page| && !OnSome(heads, lists, p) :: page[p].list == null && page[p].prev == null)
  }

  /** Empty lists and descriptors fresh from their constructors represent no entries at all. */
  lemma FreshRepresents(page: seq<Node>, heads: map<ListId, Head>)
    requires forall i, j | 0 <= i < j < |page| :: page[i] != page[j]
    requires forall id, id' | id in heads && id' in heads && id != id' :: heads[id] != heads[id']
    requires forall id | id in heads :: heads[id].Valid() && heads[id].contents == []
    requires forall p | 0 <= p < |page| :: page[p].list == null && page[p].prev == null
    ensures Represents(page, heads, map[])
  {
    forall id | id in heads ensures Links(page, heads[id], At(map[], id)) { UnfoldLinks(page, heads[id], []); }
  }

  /** A descriptor knows its list. */
  lemma KnowsItsList(page: seq<Node>, list: Head, ids: seq<PageId>)
    requires Links(page, list, ids)
    ensures forall k | 0 <= k < |list.contents| :: list.contents[k].list == list
  {
    UnfoldLinks(page, list, ids);
    forall k | 0 <= k < |list.contents| ensures list.contents[k].list == list { assert list.Linked(k); }
  }

  /** What is on another list, or on none, is not on this one. */
  lemma Apart(page: seq<Node>, heads: map<ListId, Head>, lists: map<ListId, seq<PageId>>, id: ListId)
    requires Represents(page, heads, lists) && id in heads
    ensures forall id', k | id' in heads && id' != id && 0 <= k < |heads[id'].contents| ::
      heads[id'].contents[k] !in heads[id].contents
    ensures forall id', k, q | id' in heads && 0 <= k < |heads[id'].contents| && 0 <= q < |page|
      && !OnSome(heads, lists, q) :: heads[id'].contents[k] != page[q]
  {
    forall id' | id' in heads
      ensures forall k | 0 <= k < |heads[id'].contents| :: heads[id'].contents[k].list == heads[id']
    {
      KnowsItsList(page, heads[id'], At(lists, id'));
    }
  }

  method Insert(page: seq<Node>, list: Head, ghost ids: seq<PageId>, p: PageId)
    requires Links(page, list, ids) && p < |page| && page[p].list == null && page[p].prev == null
    modifies list, page[p], list.contents
    ensures Links(page, list, [p] + ids) && list.contents == [page[p]] + old(list.contents)
  {
    UnfoldLinks(page, list, ids);
    list.Enqueue(page[p]);
    UnfoldLinks(page, list, [p] + ids);
  }

  /** enqueue_page, of a descriptor on no list. */
  method EnqueuePage(page: seq<Node>, heads: map<ListId, Head>, ghost lists: map<ListId, seq<PageId>>, id: ListId,
    p: PageId)
    requires Represents(page, heads, lists) && id in heads && p < |page| && !OnSome(heads, lists, p)
    modifies Nodes(page), heads[id]
    ensures Represents(page, heads, Enqueue(lists, id, p))
  {
    ghost var lists' := Enqueue(lists, id, p);
    Apart(page, heads, lists, id);
    Insert(page, heads[id], At(lists, id), p);
    forall id' | id' in heads ensures Links(page, heads[id'], At(lists', id')) {
      if id' != id { assert old(Links(page, heads[id'], At(lists, id'))); }
    }
    forall q | 0 <= q < |page| && !OnSome(heads, lists', q) ensures page[q].list == null && page[q].prev == null {
      EnqueuedOn(heads, lists, id, p, q);
    }
  }

  lemma EnqueuedOn(heads: map<ListId, Head>, lists: map<ListId, seq<PageId>>, id: ListId, p: PageId, q: PageId)
    requires id in heads
    ensures OnSome(heads, Enqueue(lists, id, p), q) <==> OnSome(heads, lists, q) || q == p
  {
    var lists' := Enqueue(lists, id, p);
    assert p in At(lists', id);
    if OnSome(heads, lists, q) {
      var id' :| id' in heads && q in At(lists, id');
      assert q in At(lists', id');
    }
    if OnSome(heads, lists', q) && q != p {
      var id' :| id' in heads && q in At(lists', id');
      assert q in At(lists, id');
    }
  }

  method TakeOut(page: seq<Node>, list: Head, ghost ids: seq<PageId>, p: PageId, ghost k: nat)
    requires Links(page, list, ids) && k < |ids| && ids[k] == p < |page|
    modifies list, list.contents
    ensures Links(page, list, ids[..k] + ids[k + 1..]) && page[p].list == null && page[p].prev == null
    ensures forall j | 0 <= j < |list.contents| :: list.contents[j] in old(list.contents)
  {
    UnfoldLinks(page, list, ids);
    list.Remove(page[p], k);
    UnfoldLinks(page, list, ids[..k] + ids[k + 1..]);
  }

  method TakeLast(page: seq<Node>, list: Head, ghost ids: seq<PageId>) returns (node: PageList.Page?)
    requires Links(page, list, ids)
    modifies list, list.contents
    ensures ids == [] ==> node == null && Links(page, list, ids) && list.contents == []
    ensures ids != [] ==>
      && ids[|ids| - 1] < |page| && node == page[ids[|ids| - 1]]
      && Links(page, list, ids[..|ids| - 1]) && node.list == null && node.prev == null
    ensures forall j | 0 <= j < |list.contents| :: list.contents[j] in old(list.contents)
  {
    UnfoldLinks(page, list, ids);
    node := list.Dequeue();
    UnfoldLinks(page, list, if ids == [] then ids else ids[..|ids| - 1]);
  }

  lemma OthersStay(ids: seq<PageId>, k: nat, q: PageId)
    requires k < |ids| && q in ids && q != ids[k]
    ensures q in ids[..k] + ids[k + 1..]
  {
    var j :| 0 <= j < |ids| && ids[j] == q;
    assert (ids[..k] + ids[k + 1..])[if j < k then j else j - 1] == q;
  }

  lemma UnlinkedOn(heads: map<ListId, Head>, lists: map<ListId, seq<PageId>>, id: ListId, k: nat, q: PageId)
    requires id in heads && k < |At(lists, id)| && q != At(lists, id)[k]
    ensures OnSome(heads, lists, q) ==> OnSome(heads, Unlink(lists, id, k), q)
  {
    if OnSome(heads, lists, q) {
      var id' :| id' in heads && q in At(lists, id');
      if id' == id { OthersStay(At(lists, id), k, q); }
      assert q in At(Unlink(lists, id, k), id');
    }
  }

  /** A list names no descriptor twice. */
  lemma NamedOnce(page: seq<Node>, list: Head, ids: seq<PageId>, k: nat)
    requires Links(page, list, ids) && k < |ids|
    ensures ids[k] !in ids[..k] + ids[k + 1..]
  {
    UnfoldLinks(page, list, ids);
    forall j | 0 <= j < |ids| && j != k ensures ids[j] != ids[k] {
      assert list.contents[j] != list.contents[k];
    }
  }

  /** Nor do two lists name the same one. */
  lemma NamedByOne(page: seq<Node>, heads: map<ListId, Head>, lists: map<ListId, seq<PageId>>, id: ListId,
    id': ListId, p: PageId)
    requires Represents(page, heads, lists) && id in heads && id' in heads && p in At(lists, id) && p in At(lists, id')
    ensures id == id'
  {
    UnfoldLinks(page, heads[id], At(lists, id));
    UnfoldLinks(page, heads[id'], At(lists, id'));
    KnowsItsList(page, heads[id], At(lists, id));
    KnowsItsList(page, heads[id'], At(lists, id'));
  }

  /** So a descriptor that has been unlinked is on no list. */
  lemma UnlinkedIsFree(page: seq<Node>, heads: map<ListId, Head>, lists: map<ListId, seq<PageId>>, id: ListId, k: nat)
    requires Represents(page, heads, lists) && id in heads && k < |At(lists, id)|
    ensures !OnSome(heads, Unlink(lists, id, k), At(lists, id)[k])
  {
    var ids, p, lists' := At(lists, id), At(lists, id)[k], Unlink(lists, id, k);
    if OnSome(heads, lists', p) {
      var id' :| id' in heads && p in At(lists', id');
      NamedOnce(page, heads[id], ids, k);
      NamedByOne(page, heads, lists, id, id', p);
    }
  }

  /** page_list_remove: descriptor p, which is on list id. */
  method RemovePage(page: seq<Node>, heads: map<ListId, Head>, ghost lists: map<ListId, seq<PageId>>, id: ListId,
    p: PageId, ghost k: nat)
    requires Represents(page, heads, lists) && id in heads && k < |At(lists, id)| && At(lists, id)[k] == p < |page|
    modifies Nodes(page), heads[id]
    ensures Represents(page, heads, Unlink(lists, id, k)) && !OnSome(heads, Unlink(lists, id, k), p)
  {
    ghost var lists' := Unlink(lists, id, k);
    UnlinkedIsFree(page, heads, lists, id, k);
    Apart(page, heads, lists, id);
    TakeOut(page, heads[id], At(lists, id), p, k);
    forall id' | id' in heads ensures Links(page, heads[id'], At(lists', id')) {
      if id' != id { assert old(Links(page, heads[id'], At(lists, id'))); }
    }
    forall q | 0 <= q < |page| && !OnSome(heads, lists', q) ensures page[q].list == null && page[q].prev == null {
      if q != p { UnlinkedOn(heads, lists, id, k, q); }
    }
  }

  /** The lists without the oldest entry of list id. */
  function Shortened(lists: map<ListId, seq<PageId>>, id: ListId): map<ListId, seq<PageId>> {
    if At(lists, id) == [] then lists else Unlink(lists, id, |At(lists, id)| - 1)
  }

  lemma ShortenedIs(heads: map<ListId, Head>, lists: map<ListId, seq<PageId>>, id: ListId)
    requires id in heads
    ensures var ids := At(lists, id);
      && At(Shortened(lists, id), id) == (if ids == [] then ids else ids[..|ids| - 1])
      && (forall id' | id' != id :: At(Shortened(lists, id), id') == At(lists, id'))
      && (forall q | !OnSome(heads, Shortened(lists, id), q) ::
            !OnSome(heads, lists, q) || (ids != [] && q == ids[|ids| - 1]))
  {
    var ids := At(lists, id);
    forall q | !OnSome(heads, Shortened(lists, id), q) && OnSome(heads, lists, q)
      ensures ids != [] && q == ids[|ids| - 1]
    {
      if ids != [] && q != ids[|ids| - 1] { UnlinkedOn(heads, lists, id, |ids| - 1, q); }
    }
  }

  /** dequeue_page: the oldest descriptor of list id, if there is one. */
  method DequeuePage(page: seq<Node>, heads: map<ListId, Head>, ghost lists: map<ListId, seq<PageId>>, id: ListId)
    returns (node: PageList.Page?)
    requires Represents(page, heads, lists) && id in heads
    modifies Nodes(page), heads[id]
    ensures Represents(page, heads, Shortened(lists, id))
    ensures var ids := At(lists, id);
      if ids == [] then node == null
      else
        && ids[|ids| - 1] < |page| && node == page[ids[|ids| - 1]]
        && !OnSome(heads, Shortened(lists, id), ids[|ids| - 1])
  {
    ghost var lists' := Shortened(lists, id);
    Apart(page, heads, lists, id);
    ShortenedIs(heads, lists, id);
    if At(lists, id) != [] { UnlinkedIsFree(page, heads, lists, id, |At(lists, id)| - 1); }
    node := TakeLast(page, heads[id], At(lists, id));
    forall id' | id' in heads ensures Links(page, heads[id'], At(lists', id')) {
      if id' != id { assert old(Links(page, heads[id'], At(lists, id'))); }
    }
  }

  /** A descriptor from one list to the front of another, as a page that changes its level, its
      tier or its owner is moved. */
  method MovePage(page: seq<Node>, heads: map<ListId, Head>, ghost lists: map<ListId, seq<PageId>>, from: ListId,
    to: ListId, p: PageId, ghost k: nat)
    requires Represents(page, heads, lists) && from in heads && to in heads
    requires k < |At(lists, from)| && At(lists, from)[k] == p < |page|
    modifies Nodes(page), heads[from], heads[to]
    ensures Represents(page, heads, Enqueue(Unlink(lists, from, k), to, p))
  {
    RemovePage(page, heads, lists, from, p, k);
    EnqueuePage(page, heads, Unlink(lists, from, k), to, p);
  }
}
