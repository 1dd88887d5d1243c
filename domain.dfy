/** Entities, statuses and error kinds shared by the booking and item services.
    Instants are integers; identifiers are integers (the store assigns them). */
module Domain {

  datatype Option<+T> = None | Some(value: T)

  /** Booking status. CANCELED is never produced by the services but may be read. */
  datatype Status = Waiting | Approved | Rejected | Canceled

  /** A stored booking. `ownerId` is the owner of the booked item, resolved when the
      booking is created (no operation here ever changes an item's owner). */
  datatype Booking = Booking(
    id: int,
    itemId: int,
    ownerId: int,
    bookerId: int,
    start: int,
    end: int,
    status: Status)

  datatype Item = Item(
    id: int,
    name: string,
    description: string,
    ownerId: int,
    available: bool,
    requestId: Option<int>)

  datatype Comment = Comment(id: int, text: string, itemId: int, authorId: int, created: int)

  datatype Entity = UserEntity | ItemEntity | BookingEntity

  /** The distinct validation messages of the services and of the gateway. */
  datatype Reason =
    | EndBeforeStart      // "the end must be after the start"
    | EndEqualsStart      // "the end must not equal the start"
    | Backdated           // start or end lies in the past
    | ItemUnavailable
    | AlreadyApproved
    | NegativePagination  // server: from or size negative
    | GatewayPageParams   // gateway: from or size negative
    | GatewayDateTime     // gateway: end not after start

  /** One constructor per exception kind the services raise. */
  datatype Error =
    | NotFound(entity: Entity)       // NoSuchElementException
    | Validation(reason: Reason)     // ValidationException
    | AccessDenied                   // AccessDeniedException
    | UnknownState(token: string)    // IllegalArgumentException "Unknown state: " + token
    | DivisionByZero                 // ArithmeticException of `from / size` with size 0
    | IllegalState                   // IllegalStateException (comment not allowed)

  datatype Result<+T> = Ok(value: T) | Err(error: Error)

  /** Statuses that the last/next booking helpers refuse to report. */
  predicate Excluded(s: Status) {
    s == Canceled || s == Rejected
  }
}
