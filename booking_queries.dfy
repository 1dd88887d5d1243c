/** The state-filtered, paginated booking listings of a booker (`getByUser`) and of
    an item owner (`getByOwner`), as functions of the booking store's rows. */
module BookingQueries {
  import opened Domain
  import opened Seqs
  import opened Ordering
  import opened Paging

  /** The state tokens a listing accepts. */
  datatype State = AllState | CurrentState | PastState | FutureState | WaitingState | RejectedState

  function StateName(s: State): string {
    match s
    case AllState => "ALL"
    case CurrentState => "CURRENT"
    case PastState => "PAST"
    case FutureState => "FUTURE"
    case WaitingState => "WAITING"
    case RejectedState => "REJECTED"
  }

  /** Enum lookup by exact (case-sensitive) name. */
  function ParseState(token: string): (r: Option<State>)
    ensures r.Some? ==> StateName(r.value) == token
    ensures r.None? ==> forall s :: StateName(s) != token
  {
    if token == "ALL" then Some(AllState)
    else if token == "CURRENT" then Some(CurrentState)
    else if token == "PAST" then Some(PastState)
    else if token == "FUTURE" then Some(FutureState)
    else if token == "WAITING" then Some(WaitingState)
    else if token == "REJECTED" then Some(RejectedState)
    else None
  }

  /** Every state name parses back to its state. */
  lemma ParseStateName(s: State)
    ensures ParseState(StateName(s)) == Some(s)
  {
  }

  /** Whose bookings are listed: those made by a booker, or those of an owner's items. */
  datatype Role = AsBooker | AsOwner

  predicate OfSubject(role: Role, subjectId: int, b: Booking) {
    match role
    case AsBooker => b.bookerId == subjectId
    case AsOwner => b.ownerId == subjectId
  }

  /** The repository condition of each state, evaluated at `now`. */
  predicate Admits(state: State, b: Booking, now: int) {
    match state
    case AllState => true
    case CurrentState => b.start < now && now < b.end
    case PastState => b.end < now
    case FutureState => b.start > now
    case WaitingState => b.status == Waiting
    case RejectedState => b.status == Rejected
  }

  function Matches(role: Role, subjectId: int, state: State, now: int): Booking -> bool {
    b => OfSubject(role, subjectId, b) && Admits(state, b, now)
  }

  /** All rows of the subject in the state: by start descending, except CURRENT,
      whose query carries no ordering and so yields the store order. */
  function Bucket(rows: seq<Booking>, role: Role, subjectId: int, state: State, now: int): (q: seq<Booking>)
    ensures multiset(q) == multiset(Filter(rows, Matches(role, subjectId, state, now)))
    ensures forall b :: b in q <==> b in rows && OfSubject(role, subjectId, b) && Admits(state, b, now)
    ensures state != CurrentState ==> SortedBy(Descending, q)
    ensures state == CurrentState ==> q == Filter(rows, Matches(role, subjectId, state, now))
  {
    var matching := Filter(rows, Matches(role, subjectId, state, now));
    if state == CurrentState then matching
    else
      var sorted := Sort(Descending, matching);
      assert forall b :: b in sorted <==> b in multiset(matching);
      sorted
  }

  /** The listing: pagination check, page computation (`from / size`), subject
      lookup, state parse, then one page of the state's bucket. */
  function Listing(rows: seq<Booking>, users: set<int>, from: int, size: int, token: string,
                   role: Role, subjectId: int, now: int): (r: Result<seq<Booking>>)
    ensures (from < 0 || size < 0) <==> r == Err(Validation(NegativePagination))
    ensures from >= 0 && size == 0 ==> r == Err(DivisionByZero)
    ensures from >= 0 && size > 0 && subjectId !in users ==> r == Err(NotFound(UserEntity))
    ensures from >= 0 && size > 0 && subjectId in users && ParseState(token).None? ==>
              r == Err(UnknownState(token))
    ensures r.Ok? <==> from >= 0 && size > 0 && subjectId in users && ParseState(token).Some?
    ensures r.Ok? ==> r.value == Page(Bucket(rows, role, subjectId, ParseState(token).value, now), from, size)
    ensures r.Ok? ==> |r.value| <= size
    ensures r.Ok? ==> forall b :: b in r.value ==>
              b in rows && OfSubject(role, subjectId, b) && Admits(ParseState(token).value, b, now)
    ensures r.Ok? && ParseState(token) != Some(CurrentState) ==> SortedBy(Descending, r.value)
  {
    if from < 0 || size < 0 then Err(Validation(NegativePagination))
    else if size == 0 then Err(DivisionByZero)
    else if subjectId !in users then Err(NotFound(UserEntity))
    else match ParseState(token)
      case None => Err(UnknownState(token))
      case Some(state) =>
        var q := Bucket(rows, role, subjectId, state, now);
        var page := Page(q, from, size);
        assert forall b :: b in page ==> b in q by {
          forall b | b in page ensures b in q {
            var i :| 0 <= i < |page| && page[i] == b;
            assert q[PageStart(from, size) + i] == b;
          }
        }
        assert state != CurrentState ==> SortedBy(Descending, page) by {
          if state != CurrentState {
            forall i, j | 0 <= i < j < |page| ensures InOrder(Descending, page[i], page[j]) {
              assert page[i] == q[PageStart(from, size) + i];
              assert page[j] == q[PageStart(from, size) + j];
            }
          }
        }
        Ok(page)
  }

  /** `getByUser`: the bookings the user made. */
  function GetByUser(rows: seq<Booking>, users: set<int>, from: int, size: int, token: string,
                     userId: int, now: int): (r: Result<seq<Booking>>)
    ensures r == Listing(rows, users, from, size, token, AsBooker, userId, now)
    ensures r.Ok? ==> forall b :: b in r.value ==> b in rows && b.bookerId == userId
  {
    Listing(rows, users, from, size, token, AsBooker, userId, now)
  }

  /** `getByOwner`: the bookings of the owner's items. */
  function GetByOwner(rows: seq<Booking>, users: set<int>, from: int, size: int, token: string,
                      ownerId: int, now: int): (r: Result<seq<Booking>>)
    ensures r == Listing(rows, users, from, size, token, AsOwner, ownerId, now)
    ensures r.Ok? ==> forall b :: b in r.value ==> b in rows && b.ownerId == ownerId
  {
    Listing(rows, users, from, size, token, AsOwner, ownerId, now)
  }

  /** For a sorted state whose bookings have pairwise distinct starts, any result a
      store sorting by start descending may return is the model's bucket; only then
      does each separately fetched page cut the same sequence. */
  lemma StoreOrderIsBucket(rows: seq<Booking>, role: Role, subjectId: int, state: State, now: int,
                           q: seq<Booking>)
    requires state != CurrentState
    requires multiset(q) == multiset(Filter(rows, Matches(role, subjectId, state, now)))
    requires SortedBy(Descending, q) && DistinctStarts(q)
    ensures q == Bucket(rows, role, subjectId, state, now)
  {
    SortedUnique(Descending, q, Bucket(rows, role, subjectId, state, now));
  }

  /** No matching booking is lost by pagination: each one is on the page that
      the offset of its position in the bucket selects. */
  lemma PagesCoverBucket(rows: seq<Booking>, users: set<int>, size: int, token: string,
                         role: Role, subjectId: int, now: int, b: Booking)
    requires size > 0 && subjectId in users && ParseState(token).Some?
    requires b in rows && OfSubject(role, subjectId, b) && Admits(ParseState(token).value, b, now)
    ensures exists from :: from >= 0 && Listing(rows, users, from, size, token, role, subjectId, now).Ok?
                           && b in Listing(rows, users, from, size, token, role, subjectId, now).value
  {
    var q := Bucket(rows, role, subjectId, ParseState(token).value, now);
    var j :| 0 <= j < |q| && q[j] == b;
    RowOnItsPage(q, j, size);
    assert b in Listing(rows, users, j, size, token, role, subjectId, now).value;
  }

  /** The same bucket listed from two offsets in one page gives the same page. */
  lemma OffsetWithinPage(rows: seq<Booking>, users: set<int>, from: int, size: int, token: string,
                         role: Role, subjectId: int, now: int)
    requires from >= 0 && size > 0
    ensures Listing(rows, users, from, size, token, role, subjectId, now)
         == Listing(rows, users, from / size * size, size, token, role, subjectId, now)
  {
    if subjectId in users && ParseState(token).Some? {
      OffsetTruncated(Bucket(rows, role, subjectId, ParseState(token).value, now), from, size);
    }
  }
}
