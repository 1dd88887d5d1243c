/** The item service's booking-aware operations: owner-only partial update, the
    single-item view (last/next booking for the owner only), the owner's item list
    built from pre-fetched bookings and comments, text search and comment posting.
    The item store keeps item `i` at position `i`, the comment store likewise. */
module Items {
  import opened Domain
  import opened Seqs
  import opened Paging
  import opened ItemBookings

  /** An update request: an absent field is left as it is. */
  datatype ItemPatch = ItemPatch(id: int, name: Option<string>, description: Option<string>,
                                 available: Option<bool>)

  /** An item as shown to a caller, with its last and next booking and its comments. */
  datatype ItemView = ItemView(item: Item, lastBooking: Option<Booking>, nextBooking: Option<Booking>,
                               comments: seq<Comment>)

  /** The item with the patch's present fields written over it. */
  function Patched(it: Item, p: ItemPatch): (r: Item)
    ensures r.name == (if p.name.Some? then p.name.value else it.name)
    ensures r.description == (if p.description.Some? then p.description.value else it.description)
    ensures r.available == (if p.available.Some? then p.available.value else it.available)
    ensures r.id == it.id && r.ownerId == it.ownerId && r.requestId == it.requestId
  {
    var a := if p.name.Some? then it.(name := p.name.value) else it;
    var b := if p.description.Some? then a.(description := p.description.value) else a;
    if p.available.Some? then b.(available := p.available.value) else b
  }

  /** Applying the same patch twice changes nothing more than applying it once. */
  lemma PatchedIdempotent(it: Item, p: ItemPatch)
    ensures Patched(Patched(it, p), p) == Patched(it, p)
  {
  }

  function CommentOf(itemId: int): Comment -> bool { (c: Comment) => c.itemId == itemId }
  function CommentInItems(ids: seq<int>): Comment -> bool { (c: Comment) => c.itemId in ids }
  function BookingInItems(ids: seq<int>): Booking -> bool { (b: Booking) => b.itemId in ids }
  function OwnedBy(ownerId: int): Item -> bool { (it: Item) => it.ownerId == ownerId }
  function Matching(text: string, matches: (string, Item) -> bool): Item -> bool {
    (it: Item) => matches(text, it)
  }

  function Ids(items: seq<Item>): (ids: seq<int>)
    ensures |ids| == |items|
    ensures forall i :: 0 <= i < |items| ==> ids[i] == items[i].id
  {
    if items == [] then [] else [items[0].id] + Ids(items[1..])
  }

  /** Identifiers strictly increase along the sequence. */
  predicate IdsIncrease(s: seq<Item>) {
    forall i, j :: 0 <= i < j < |s| ==> s[i].id < s[j].id
  }

  /** Dropping items keeps the remaining ones in identifier order. */
  lemma {:induction false} FilterKeepsIdOrder(s: seq<Item>, p: Item -> bool)
    requires IdsIncrease(s)
    ensures IdsIncrease(Filter(s, p))
  {
    if s != [] {
      assert IdsIncrease(s[1..]);
      FilterKeepsIdOrder(s[1..], p);
      var rest := Filter(s[1..], p);
      forall x | x in rest ensures s[0].id < x.id {
        var k :| 0 <= k < |s[1..]| && s[1..][k] == x;
        assert s[k + 1] == x;
      }
    }
  }

  /** A booking made by the user for the item, finished before `now`, APPROVED. */
  predicate Entitles(b: Booking, itemId: int, userId: int, now: int) {
    b.itemId == itemId && b.bookerId == userId && b.end < now && b.status == Approved
  }

  /** `existsByItem_IdAndBooker_IdAndEndIsBeforeAndStatus`. */
  function CanComment(bookings: seq<Booking>, itemId: int, userId: int, now: int): (ok: bool)
    ensures ok <==> exists b :: b in bookings && Entitles(b, itemId, userId, now)
  {
    if bookings == [] then false
    else Entitles(bookings[0], itemId, userId, now) || CanComment(bookings[1..], itemId, userId, now)
  }

  /** The entry of the owner's list for one item: last and next booking (list-based)
      among the given bookings of that item, and the given comments of that item. */
  function OwnerEntry(it: Item, bookings: seq<Booking>, comments: seq<Comment>, now: int): ItemView {
    var own := Filter(bookings, OfItem(it.id));
    ItemView(it, ListLast(own, now), ListNext(own, now), Filter(comments, CommentOf(it.id)))
  }

  class ItemService {
    var items: seq<Item>
    var comments: seq<Comment>

    ghost predicate Valid()
      reads this
    {
      (forall i :: 0 <= i < |items| ==> items[i].id == i) &&
      (forall i :: 0 <= i < |comments| ==> comments[i].id == i)
    }

    constructor (items0: seq<Item>)
      requires forall i :: 0 <= i < |items0| ==> items0[i].id == i
      ensures Valid() && items == items0 && comments == []
    {
      items := items0;
      comments := [];
    }

    /** `update`: unknown item, then owner check; on success only the present fields
        of the patch are written. */
    method Update(p: ItemPatch, ownerId: int) returns (r: Result<Item>)
      requires Valid()
      modifies this
      ensures Valid() && comments == old(comments)
      ensures !(0 <= p.id < |old(items)|) ==> r == Err(NotFound(ItemEntity)) && items == old(items)
      ensures 0 <= p.id < |old(items)| && old(items)[p.id].ownerId != ownerId ==>
                r == Err(AccessDenied) && items == old(items)
      ensures 0 <= p.id < |old(items)| && old(items)[p.id].ownerId == ownerId ==>
                r == Ok(Patched(old(items)[p.id], p)) && items == old(items)[p.id := r.value]
    {
      if !(0 <= p.id < |items|) {
        return Err(NotFound(ItemEntity));
      }
      var existing := items[p.id];
      if existing.ownerId != ownerId {
        return Err(AccessDenied);
      }
      if p.name.Some? {
        existing := existing.(name := p.name.value);
      }
      if p.description.Some? {
        existing := existing.(description := p.description.value);
      }
      if p.available.Some? {
        existing := existing.(available := p.available.value);
      }
      items := items[p.id := existing];
      r := Ok(existing);
    }

    /** `getById`: the last/next booking (store-backed) are filled in only for the owner. */
    function GetById(bookings: seq<Booking>, itemId: int, userId: int, now: int): (r: Result<ItemView>)
      reads this
      ensures !(0 <= itemId < |items|) ==> r == Err(NotFound(ItemEntity))
      ensures 0 <= itemId < |items| ==> r.Ok? && r.value.item == items[itemId]
      ensures r.Ok? ==> r.value.comments == Filter(comments, CommentOf(itemId))
      ensures r.Ok? && userId == items[itemId].ownerId ==>
                r.value.lastBooking == StoreLast(bookings, itemId, now) &&
                r.value.nextBooking == StoreNext(bookings, itemId, now)
      ensures r.Ok? && userId != items[itemId].ownerId ==>
                r.value.lastBooking == None && r.value.nextBooking == None
    {
      if !(0 <= itemId < |items|) then Err(NotFound(ItemEntity))
      else
        var it := items[itemId];
        var own := Filter(comments, CommentOf(itemId));
        if userId == it.ownerId then
          Ok(ItemView(it, StoreLast(bookings, itemId, now), StoreNext(bookings, itemId, now), own))
        else Ok(ItemView(it, None, None, own))
    }

    /** The owner's items on the requested page, in identifier order. */
    function OwnerPage(ownerId: int, from: int, size: int): (page: seq<Item>)
      reads this
      requires Valid() && from >= 0 && size > 0
      ensures page == Page(Filter(items, OwnedBy(ownerId)), from, size)
      ensures |page| <= size
      ensures forall it :: it in page ==> it in items && it.ownerId == ownerId
      ensures IdsIncrease(page)
    {
      var owned := Filter(items, OwnedBy(ownerId));
      var page := Page(owned, from, size);
      assert forall k :: 0 <= k < |page| ==> page[k] in owned by {
        forall k | 0 <= k < |page| ensures page[k] in owned {
          assert page[k] == owned[PageStart(from, size) + k];
        }
      }
      assert IdsIncrease(items);
      FilterKeepsIdOrder(items, OwnedBy(ownerId));
      assert IdsIncrease(page) by {
        forall i, j | 0 <= i < j < |page| ensures page[i].id < page[j].id {
          assert page[i] == owned[PageStart(from, size) + i];
          assert page[j] == owned[PageStart(from, size) + j];
        }
      }
      page
    }

    /** `getAllByOwner`: one entry per item of the page, in page order, each built from
        the bookings and comments pre-fetched for the whole page. */
    method GetAllByOwner(bookings: seq<Booking>, ownerId: int, from: int, size: int, now: int)
      returns (r: Result<seq<ItemView>>)
      requires Valid()
      ensures (from < 0 || size < 0) <==> r == Err(Validation(NegativePagination))
      ensures from >= 0 && size == 0 ==> r == Err(DivisionByZero)
      ensures from >= 0 && size > 0 ==> r.Ok? && |r.value| == |OwnerPage(ownerId, from, size)|
      ensures from >= 0 && size > 0 ==> forall k :: 0 <= k < |r.value| ==>
                r.value[k] == OwnerEntry(OwnerPage(ownerId, from, size)[k], bookings, comments, now)
    {
      if from < 0 || size < 0 {
        return Err(Validation(NegativePagination));
      }
      if size == 0 {
        return Err(DivisionByZero);
      }
      var page := OwnerPage(ownerId, from, size);
      var ids := Ids(page);
      var allBookings := Filter(bookings, BookingInItems(ids));
      var allComments := Filter(comments, CommentInItems(ids));
      var result := OwnerEntries(page, allBookings, allComments, now);
      PrefetchPage(page, bookings, comments, now);
      r := Ok(result);
    }

    /** `search`: empty text yields an empty list before pagination is checked. The
        repository's text query is the parameter `matches`. */
    function Search(text: string, from: int, size: int, matches: (string, Item) -> bool): (r: Result<seq<Item>>)
      reads this
      ensures text == [] ==> r == Ok([])
      ensures text != [] && (from < 0 || size < 0) ==> r == Err(Validation(NegativePagination))
      ensures text != [] && from >= 0 && size == 0 ==> r == Err(DivisionByZero)
      ensures text != [] && from >= 0 && size > 0 ==> r.Ok?
      ensures r.Ok? ==> |r.value| <= size || text == []
      ensures r.Ok? ==> forall it :: it in r.value ==> it in items && matches(text, it)
    {
      if text == [] then Ok([])
      else if from < 0 || size < 0 then Err(Validation(NegativePagination))
      else if size == 0 then Err(DivisionByZero)
      else
        var found := Filter(items, Matching(text, matches));
        var page := Page(found, from, size);
        assert forall k :: 0 <= k < |page| ==> page[k] in found by {
          forall k | 0 <= k < |page| ensures page[k] in found {
            assert page[k] == found[PageStart(from, size) + k];
          }
        }
        Ok(page)
    }

    /** `addComment`: unknown item, unknown user, then the eligibility check; the
        comment is stored only when the user has a finished APPROVED booking of it. */
    method AddComment(bookings: seq<Booking>, users: set<int>, itemId: int, userId: int, text: string,
                      now: int) returns (r: Result<Comment>)
      requires Valid()
      modifies this
      ensures Valid() && items == old(items)
      ensures !(0 <= itemId < |items|) ==> r == Err(NotFound(ItemEntity))
      ensures 0 <= itemId < |items| && userId !in users ==> r == Err(NotFound(UserEntity))
      ensures 0 <= itemId < |items| && userId in users ==>
                (r.Ok? <==> CanComment(bookings, itemId, userId, now))
      ensures 0 <= itemId < |items| && userId in users && !CanComment(bookings, itemId, userId, now) ==>
                r == Err(IllegalState)
      ensures r.Ok? ==> r.value == Comment(|old(comments)|, text, itemId, userId, now) &&
                        comments == old(comments) + [r.value]
      ensures r.Err? ==> comments == old(comments)
    {
      if !(0 <= itemId < |items|) {
        return Err(NotFound(ItemEntity));
      }
      if userId !in users {
        return Err(NotFound(UserEntity));
      }
      if CanComment(bookings, itemId, userId, now) {
        var c := Comment(|comments|, text, items[itemId].id, userId, now);
        comments := comments + [c];
        r := Ok(c);
      } else {
        r := Err(IllegalState);
      }
    }
  }

  /** The loop of `getAllByOwner`: one entry per item of the page, each taken out of
      the bookings and comments fetched for the whole page. */
  method OwnerEntries(page: seq<Item>, fetched: seq<Booking>, fetchedComments: seq<Comment>, now: int)
    returns (result: seq<ItemView>)
    ensures |result| == |page|
    ensures forall k :: 0 <= k < |page| ==> result[k] == OwnerEntry(page[k], fetched, fetchedComments, now)
  {
    result := [];
    var k := 0;
    while k < |page|
      invariant 0 <= k <= |page|
      invariant |result| == k
      invariant forall j :: 0 <= j < k ==> result[j] == OwnerEntry(page[j], fetched, fetchedComments, now)
    {
      var it := page[k];
      var itemBookings := Filter(fetched, OfItem(it.id));
      var itemComments := Filter(fetchedComments, CommentOf(it.id));
      var entry := ItemView(it, ListLast(itemBookings, now), ListNext(itemBookings, now), itemComments);
      result := result + [entry];
      k := k + 1;
    }
  }

  /** Over a whole page, the entries built from the pre-fetched bookings and comments
      are the entries built from all of them. */
  lemma PrefetchPage(page: seq<Item>, bookings: seq<Booking>, comments: seq<Comment>, now: int)
    ensures forall k :: 0 <= k < |page| ==>
              OwnerEntry(page[k], Filter(bookings, BookingInItems(Ids(page))),
                         Filter(comments, CommentInItems(Ids(page))), now)
              == OwnerEntry(page[k], bookings, comments, now)
  {
    var ids := Ids(page);
    forall k | 0 <= k < |page|
      ensures OwnerEntry(page[k], Filter(bookings, BookingInItems(ids)), Filter(comments, CommentInItems(ids)), now)
              == OwnerEntry(page[k], bookings, comments, now)
    {
      assert page[k].id == ids[k];
      PrefetchEntry(bookings, comments, ids, page[k], now);
    }
  }

  /** Partitioning the bookings and comments pre-fetched for a page of items by item
      gives each item of the page exactly what a per-item query would. */
  lemma PrefetchEntry(bookings: seq<Booking>, comments: seq<Comment>, ids: seq<int>, it: Item, now: int)
    requires it.id in ids
    ensures OwnerEntry(it, Filter(bookings, BookingInItems(ids)), Filter(comments, CommentInItems(ids)), now)
            == OwnerEntry(it, bookings, comments, now)
  {
    FilterFilter(bookings, BookingInItems(ids), OfItem(it.id), OfItem(it.id));
    FilterFilter(comments, CommentInItems(ids), CommentOf(it.id), CommentOf(it.id));
  }

  /** With both queries seeing the store order, what the owner sees for an item in
      the list is what the single-item view shows, except when the latest past (or
      earliest future) booking is CANCELED or REJECTED: the list then reports the
      nearest admitted one, the view none. */
  lemma ListEntryVersusView(bookings: seq<Booking>, it: Item, comments: seq<Comment>, now: int)
    ensures StoreLast(bookings, it.id, now).Some? ==>
              OwnerEntry(it, bookings, comments, now).lastBooking == StoreLast(bookings, it.id, now)
    ensures StoreNext(bookings, it.id, now).Some? ==>
              OwnerEntry(it, bookings, comments, now).nextBooking == StoreNext(bookings, it.id, now)
  {
    LastVariantsAgree(bookings, it.id, now);
    NextVariantsAgree(bookings, it.id, now);
  }
}
