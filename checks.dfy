/** The gateway's static argument checks: each either passes or raises a
    validation error. */
module Checks {
  import opened Domain

  datatype Outcome = Pass | Fail(error: Error)

  /** Pagination parameters: only negative values are refused, so 0/0 passes. */
  function PageParams(from: int, size: int): (o: Outcome)
    ensures o.Fail? <==> from < 0 || size < 0
    ensures o.Fail? ==> o.error == Validation(GatewayPageParams)
  {
    if from < 0 || size < 0 then Fail(Validation(GatewayPageParams)) else Pass
  }

  /** Booking interval: refused when the end is before or equal to the start. */
  function DateTime(start: int, end: int): (o: Outcome)
    ensures o.Pass? <==> start < end
    ensures end < start ==> o == Fail(Validation(GatewayDateTime))
    ensures end == start ==> o == Fail(Validation(GatewayDateTime))
  {
    if end < start || end == start then Fail(Validation(GatewayDateTime)) else Pass
  }
}
