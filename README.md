# ShareIt booking lifecycle and availability — a Dafny model

ShareIt lets users lend items and book them for a time interval. This project models
its core: the booking lifecycle and the availability logic built on it.

- **Booking service.** Creating a booking runs an ordered chain of checks and stores a WAITING booking. The owner approves or rejects it, which is the only status change. A booking can be viewed by its booker and its item's owner. Listings of a booker's or an owner's bookings filter by state (ALL, CURRENT, PAST, FUTURE, WAITING, REJECTED), order by start and paginate.
- **Item service.** It selects an item's last and next booking in two variants: a store-backed one and one over a pre-fetched list. It also covers comment eligibility, the owner-only partial update, the owner's item list built from pre-fetched bookings and comments, and the empty-text shortcut of search.
- **Gateway checks.** The static pagination and interval checks.

Modelling choices:

- Time is an integer. The current instant `now` is a parameter of every operation that reads the clock.
- A store is a sequence whose row `i` holds the entity with identifier `i`. The booking store is the field `rows` of the class `Bookings.BookingService`. The item and comment stores are fields of `Items.ItemService`. The user directory is a set of identifiers.
- Each exception becomes an `Err` of `Domain.Error`: `NotFound`, `Validation` (with a reason), `AccessDenied`, `UnknownState`, `IllegalState`. An `ArithmeticException` from `from / size` with `size == 0` becomes `DivisionByZero`.
- A repository query with `OrderByStart…` is a filter followed by a stable sort on `start` (`Ordering.Sort`). The database fixes no order among equal starts, nor for a query without an ordering (the CURRENT listings, an item's comments). The model fixes one: store order, kept among equal starts. Every contract that depends on order holds for that fixed order. `BookingQueries.StoreOrderIsBucket` shows it is the only possible order for the sorted states when all starts differ.
- A page is the slice `[from / size * size, from / size * size + size)` of the query's result (`Paging.Page`).
- A booking records the owner of its item as it was at creation (`ownerId`). An item's owner is never changed by the modelled operations.

Three behaviours of the code worth noting:

- Only an APPROVED booking refuses a second decision. A REJECTED or CANCELED booking can be decided again (`Bookings.ApproveOutcome`).
- The "already approved" check comes before the owner check. A non-owner asking to decide an APPROVED booking therefore gets a validation error, not access denied.
- The CURRENT listings carry no ordering. The model returns them in store order, which is only one of the orders the database may use.

## Model

| member | source | states |
|---|---|---|
| Checks.PageParams | gateway/src/main/java/ru/practicum/shareit/Checks.java:8-12 | fails exactly when `from < 0` or `size < 0`, with the gateway validation error; `from = size = 0` passes |
| Checks.DateTime | gateway/src/main/java/ru/practicum/shareit/Checks.java:14-18 | passes exactly when `start < end`; fails both when the end is before the start and when it equals it |
| Bookings.IntervalCheck | server/src/main/java/ru/practicum/shareit/booking/service/BookingServiceImpl.java:47-52 | no error iff `start < end`; `start > end` gives "end before start", `start == end` gives "end equals start" |
| Bookings.BackdateCheck | server/src/main/java/ru/practicum/shareit/booking/service/BookingServiceImpl.java:53-58 | no error iff neither start nor end lies before `now`; otherwise the backdating error |
| Bookings.AddOutcome | server/src/main/java/ru/practicum/shareit/booking/service/BookingServiceImpl.java:41-74 | success iff booker known, item known, `start < end`, not backdated, item available and booker not its owner; each failure gets its own error in the source's check order (interval before `now`, availability before ownership); a success is a WAITING booking with the next identifier, the caller as booker, the requested item and that item's owner |
| Bookings.BookingService.Add | server/src/main/java/ru/practicum/shareit/booking/service/BookingServiceImpl.java:41-74 | returns `AddOutcome` of the old store; a success appends exactly that one booking, and a failure leaves the store unchanged; the store stays well formed |
| Bookings.GatewayIntervalMatchesServer | gateway/src/main/java/ru/practicum/shareit/Checks.java:14-18 | the gateway interval check passes exactly the intervals that pass the server's first two `add` checks, and each refused interval gets the matching server error |
| Bookings.GatewayPageParamsMatchServer | gateway/src/main/java/ru/practicum/shareit/Checks.java:8-12 | the gateway pagination check refuses exactly what the server's listings refuse as negative pagination |
| Bookings.Decided | server/src/main/java/ru/practicum/shareit/booking/service/BookingServiceImpl.java:87-92 | the status becomes APPROVED for `true` and REJECTED for `false`; every other field is unchanged |
| Bookings.ApproveOutcome | server/src/main/java/ru/practicum/shareit/booking/service/BookingServiceImpl.java:78-100 | success iff the booking exists, is not APPROVED and the caller is its item's owner; unknown id gives not-found, APPROVED gives the validation error whoever asks, a non-owner gets access denied; a success is the decided booking |
| Bookings.BookingService.Approve | server/src/main/java/ru/practicum/shareit/booking/service/BookingServiceImpl.java:78-100 | returns `ApproveOutcome` of the old store; a success replaces only that row, and a failure leaves the store unchanged; the store stays well formed |
| Bookings.GetById | server/src/main/java/ru/practicum/shareit/booking/service/BookingServiceImpl.java:103-115 | returns the stored booking iff it exists and the caller is its owner or booker; not-found for an unknown id, access denied for anyone else |
| Bookings.ReplayOnlyChangesStatuses | server/src/main/java/ru/practicum/shareit/booking/service/BookingServiceImpl.java:66-99 | over any sequence of add/approve calls, each add seeing the user and item directories as they stand at that call, no booking is removed and only statuses change (identifier, item, owner, booker and interval stay as created); well-formedness (`id == index`, `start < end`) is preserved |
| Bookings.ApprovedStaysApproved | server/src/main/java/ru/practicum/shareit/booking/service/BookingServiceImpl.java:81-83 | once APPROVED, a booking is never changed by any later sequence of calls, whatever the user and item directories at each call |
| Bookings.NeverCanceled | server/src/main/java/ru/practicum/shareit/booking/service/BookingServiceImpl.java:66-92 | the service never writes CANCELED: a store without CANCELED bookings keeps none |
| Bookings.CreateThenApprove | server/src/test/java/ru/practicum/shareit/booking/BookingServiceIntegrationTests.java:113-123 | a created booking approved by the owner reads APPROVED, and a second decision on it fails with the validation error, whoever asks and whatever the flag |
| BookingQueries.ParseState | server/src/main/java/ru/practicum/shareit/booking/service/BookingServiceImpl.java:128-150 | a token parses exactly when it is the (case-sensitive) name of a state, and then to that state |
| BookingQueries.ParseStateName | server/src/main/java/ru/practicum/shareit/booking/service/BookingServiceImpl.java:128-147 | every state's name parses back to that state |
| BookingQueries.Bucket | server/src/main/java/ru/practicum/shareit/booking/service/BookingServiceImpl.java:128-147 | holds exactly the subject's bookings that the state admits (CURRENT `start < now < end` strictly, PAST `end < now`, FUTURE `start > now`, WAITING/REJECTED by status), as often as each occurs in the store; sorted by start descending except CURRENT, which the model keeps in store order |
| BookingQueries.Listing | server/src/main/java/ru/practicum/shareit/booking/service/BookingServiceImpl.java:118-154 | error order: negative pagination, then division by zero for `size == 0`, then unknown user, then unknown state; otherwise the page `from / size` of the bucket, at most `size` bookings, all of the subject and admitted by the state, sorted descending except CURRENT |
| BookingQueries.GetByUser | server/src/main/java/ru/practicum/shareit/booking/service/BookingServiceImpl.java:118-154 | the listing for the booker role; every returned booking was made by the user |
| BookingQueries.GetByOwner | server/src/main/java/ru/practicum/shareit/booking/service/BookingServiceImpl.java:157-192 | the listing for the owner role; every returned booking is of an item the user owns |
| BookingQueries.PagesCoverBucket | server/src/main/java/ru/practicum/shareit/booking/service/BookingServiceImpl.java:122-123 | under the model's fixed order, every matching booking appears on the page of some offset |
| BookingQueries.OffsetWithinPage | server/src/main/java/ru/practicum/shareit/booking/service/BookingServiceImpl.java:122-123 | offsets within the same page give the same listing: `from` is truncated to a multiple of `size` |
| BookingQueries.StoreOrderIsBucket | server/src/main/java/ru/practicum/shareit/booking/service/BookingServiceImpl.java:128-147 | for a sorted state whose bookings all have distinct starts, every result a store sorting by start descending may return is the model's bucket |
| Paging.PageStart | server/src/main/java/ru/practicum/shareit/booking/service/BookingServiceImpl.java:122-123 | the first row of page `from / size` is the largest multiple of `size` not above `from` |
| Paging.Page | server/src/main/java/ru/practicum/shareit/booking/service/BookingServiceImpl.java:122-123 | at most `size` rows, exactly the rows from the page start on, in order; a full page when enough rows follow |
| Paging.OffsetTruncated | server/src/main/java/ru/practicum/shareit/booking/service/BookingServiceImpl.java:122-123 | the page for `from` equals the page for its truncated offset |
| Paging.RowOnItsPage | server/src/main/java/ru/practicum/shareit/booking/service/BookingServiceImpl.java:122-123 | row `j` is found on the page for offset `j`, at position `j % size` |
| Ordering.Sort | src/main/java/ru/practicum/shareit/item/service/ItemServiceImpl.java:244 | the result is sorted in the requested direction of `start` and is a permutation of the input |
| Ordering.SortedUnique | src/main/java/ru/practicum/shareit/item/service/ItemServiceImpl.java:244 | two sorted permutations of the same bookings are equal when their starts are pairwise distinct |
| ItemBookings.Head | src/main/java/ru/practicum/shareit/item/service/ItemServiceImpl.java:207-214 | the first booking of a query result, present iff the result is non-empty and that booking is neither CANCELED nor REJECTED |
| ItemBookings.FirstAdmitted | src/main/java/ru/practicum/shareit/item/service/ItemServiceImpl.java:246-247 | the admitted booking at the first position whose predecessors are all CANCELED or REJECTED (the first admitted one by position); none iff every booking is excluded |
| ItemBookings.PastStartsOf | src/main/java/ru/practicum/shareit/item/service/ItemServiceImpl.java:205 | a permutation (multiplicities included) of the item's bookings with `start < now`, ordered by start descending |
| ItemBookings.FutureStartsOf | src/main/java/ru/practicum/shareit/item/service/ItemServiceImpl.java:221 | a permutation (multiplicities included) of the item's bookings with `start > now`, ordered by start ascending |
| ItemBookings.StoreLast | src/main/java/ru/practicum/shareit/item/service/ItemServiceImpl.java:204-218 | a result is the item's booking with the latest `start < now` and is neither CANCELED nor REJECTED; if there are candidates but none is returned, the latest one is excluded (no fall-back) |
| ItemBookings.StoreNext | src/main/java/ru/practicum/shareit/item/service/ItemServiceImpl.java:220-233 | a result is the item's booking with the earliest `start > now` and is not excluded; if there are candidates but none is returned, the earliest one is excluded |
| ItemBookings.ListLast | src/main/java/ru/practicum/shareit/item/service/ItemServiceImpl.java:241-249 | the latest non-excluded booking with `start < now`; none iff every such booking is CANCELED or REJECTED |
| ItemBookings.ListNext | src/main/java/ru/practicum/shareit/item/service/ItemServiceImpl.java:251-259 | the earliest non-excluded booking with `start > now`; none iff every such booking is CANCELED or REJECTED |
| ItemBookings.SameLastCandidates | src/main/java/ru/practicum/shareit/item/service/ItemServiceImpl.java:241-249 | with both queries in store order, the list helper applied to an item's bookings sorts the same sequence the store query returns |
| ItemBookings.SameNextCandidates | src/main/java/ru/practicum/shareit/item/service/ItemServiceImpl.java:251-259 | the same for the next-booking query |
| ItemBookings.LastVariantsAgree | src/main/java/ru/practicum/shareit/item/service/ItemServiceImpl.java:204-249 | with both variants in store order: when the store variant returns a booking the list variant returns the same; the two differ exactly when the latest candidate is excluded and some other candidate is not |
| ItemBookings.NextVariantsAgree | src/main/java/ru/practicum/shareit/item/service/ItemServiceImpl.java:220-259 | the same for the next booking, with the earliest candidate |
| ItemBookings.LastVariantsAgreeAnyOrder | src/main/java/ru/practicum/shareit/item/service/ItemServiceImpl.java:204-249 | for any start-descending order the store query may return and any order of the pre-fetched list, if the item's started bookings have pairwise distinct starts: the store variant gives the model's `StoreLast`, the list variant the model's `ListLast`, a store result is also the list result, and the two differ exactly when the first candidate is excluded and some other is not |
| ItemBookings.NextVariantsAgreeAnyOrder | src/main/java/ru/practicum/shareit/item/service/ItemServiceImpl.java:220-259 | the same for the next booking, with a start-ascending store query and distinct starts among the future bookings |
| ItemBookings.LatestExcludedHidesLast | src/main/java/ru/practicum/shareit/item/service/ItemServiceImpl.java:207-214 | when the item's latest started booking is CANCELED or REJECTED, the store variant reports nothing, whatever earlier bookings there are |
| ItemBookings.OnlyAdmittedIsLast | src/main/java/ru/practicum/shareit/item/service/ItemServiceImpl.java:241-249 | when exactly one started booking is neither CANCELED nor REJECTED, the list variant reports that one |
| ItemBookings.RejectedLatestHidesLast | src/main/java/ru/practicum/shareit/item/service/ItemServiceImpl.java:204-218 | with an APPROVED booking followed by a REJECTED one, both started, the store variant reports no last booking while the list variant reports the APPROVED one |
| Items.Patched | src/main/java/ru/practicum/shareit/item/service/ItemServiceImpl.java:74-82 | name, description and availability are taken from the patch where present and kept otherwise; identifier, owner and request never change |
| Items.PatchedIdempotent | src/main/java/ru/practicum/shareit/item/service/ItemServiceImpl.java:74-82 | applying the same update twice equals applying it once |
| Items.CanComment | src/main/java/ru/practicum/shareit/item/service/ItemServiceImpl.java:189 | true iff some booking of the item by the user ended before `now` and is APPROVED |
| Items.ItemService.Update | src/main/java/ru/practicum/shareit/item/service/ItemServiceImpl.java:64-85 | unknown item gives not-found, a non-owner gets access denied, and in both cases nothing changes; the owner's update replaces only that item with the patched one |
| Items.ItemService.GetById | src/main/java/ru/practicum/shareit/item/service/ItemServiceImpl.java:88-116 | not-found for an unknown item; the owner sees the store-backed last and next booking, anyone else sees neither; the item's comments in store order |
| Items.ItemService.OwnerPage | src/main/java/ru/practicum/shareit/item/service/ItemServiceImpl.java:123-126 | the page `from / size` of the owner's items in store order (the slice at `from / size * size`, at most `size` items), all the owner's, in increasing identifier order (the store keeps item `i` at position `i`) |
| Items.ItemService.GetAllByOwner | src/main/java/ru/practicum/shareit/item/service/ItemServiceImpl.java:119-163 | negative pagination and `size == 0` are errors; otherwise one entry per item of the page, in page order, each carrying that item's list-based last/next booking and comments |
| Items.OwnerEntries | src/main/java/ru/practicum/shareit/item/service/ItemServiceImpl.java:133-160 | the loop yields one entry per item of the page, in page order, each with the last/next booking and the comments of that item among the fetched ones |
| Items.PrefetchEntry | src/main/java/ru/practicum/shareit/item/service/ItemServiceImpl.java:130-152 | for one item of the page, the entry built from the bookings and comments fetched for the page equals the entry built from all bookings and comments |
| Items.PrefetchPage | src/main/java/ru/practicum/shareit/item/service/ItemServiceImpl.java:127-152 | the same for every item of the page at once: fetching only the page's bookings and comments loses nothing any entry needs |
| Items.ListEntryVersusView | src/main/java/ru/practicum/shareit/item/service/ItemServiceImpl.java:143-144 | with both queries in store order, whenever the single-item view shows a last (next) booking, the owner's list shows the same one |
| Items.ItemService.Search | src/main/java/ru/practicum/shareit/item/service/ItemServiceImpl.java:166-179 | empty text gives an empty list before pagination is checked; otherwise negative pagination and `size == 0` are errors, and a success holds at most `size` stored items accepted by the text query |
| Items.ItemService.AddComment | src/main/java/ru/practicum/shareit/item/service/ItemServiceImpl.java:183-202 | unknown item, then unknown user, give not-found; otherwise a comment is stored iff the user is eligible, with the next identifier, the text, item, author and `now`; an ineligible user gets the illegal-state error and nothing is stored |

## Left out

- Item creation (`add`, lines 46-60 of `ItemServiceImpl.java`) and `getAllByRequestId` are not modelled. They are store pass-throughs outside the booking logic.
- The request service is not part of this model.
- Mapping entities to DTOs is not modelled. The mappers' generated code is not visible, so they are taken as the identity on the fields used. Setting the author name on comments and the booker id on booking DTOs is therefore left out.
- `BookingServiceImpl.add` looks the item up through the item service's `getById`. The model reads the item directly: only not-found and the item's own fields matter there.
- The clock, transactions and concurrent calls are not modelled. `now` is a parameter and every call is atomic.
- The `(int)` cast of the page number and `size.intValue()` are not modelled: integers are unbounded, so sizes and offsets beyond 32 bits do not wrap.
- Items.ItemService.Search: the repository's text query is not visible. It is the parameter `matches`, and the order of its results is not stated, only membership and the page bound.
- Ordering.Sort: the database gives bookings with equal start in no fixed order. The model keeps store order for them (a stable sort), which is one of the orders the database may use.
- BookingQueries.Listing: the page-request object is modelled only as the slice it selects; page metadata is not modelled.
- BookingQueries.PagesCoverBucket and BookingQueries.Listing: the exact page is stated for the model's fixed order. In the program each page is a separate query. For a CURRENT listing, or when equal starts straddle a page boundary, two queries may order the rows differently, so pages may skip or repeat a row. Only for the sorted states with pairwise distinct starts is the page the program's (`BookingQueries.StoreOrderIsBucket`).
- ItemBookings.LastVariantsAgree, ItemBookings.NextVariantsAgree and Items.ListEntryVersusView: these give both variants the one store order. In the program the store query orders by start only and the pre-fetch `findAllByItem_IdIn` (line 129 of `ItemServiceImpl.java`) has no ordering, so bookings with equal starts may come out in different orders and the two variants may then pick different bookings. Agreement is proved for any database order only when the candidates' starts are pairwise distinct (`ItemBookings.LastVariantsAgreeAnyOrder`, `ItemBookings.NextVariantsAgreeAnyOrder`). The store variant also sets the booker id on its result (lines 212 and 227) and the list variant does not; with DTOs left out, "the same booking" means the same stored booking, not the same DTO.
- Items.ItemService.GetById: an item's comments come from a query without an ordering. The model lists them in store order.
