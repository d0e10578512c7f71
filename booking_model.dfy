/** The Booking document: its fields, the status enumeration with its
    default, and the required paths Mongoose checks on save. Dates are
    milliseconds since the epoch and prices whole numbers. */
module BookingModel {
  import opened Common

  datatype Status = PENDING | CONFIRMED | CANCELLED

  datatype Booking = Booking(
    id: Id,
    userId: Id,
    roomId: Id,
    startDate: int,
    endDate: int,
    totalPrice: int,
    status: Status,
    guestCount: int,
    specialRequests: Option<string>)

  /** The fields a caller may supply when a booking is built; `None` is a
      field left out of the input object. */
  datatype BookingInput = BookingInput(
    userId: Option<Id>,
    roomId: Option<Id>,
    startDate: Option<int>,
    endDate: Option<int>,
    totalPrice: Option<int>,
    status: Option<Status>,
    guestCount: Option<int>,
    specialRequests: Option<string>)

  /** Every path the schema marks `required` is present. */
  predicate BookingRequired(input: BookingInput) {
    && input.userId.Some?
    && input.roomId.Some?
    && input.startDate.Some?
    && input.endDate.Some?
    && input.totalPrice.Some?
    && input.guestCount.Some?
  }

  /** `new Booking(input).save()`: the saved document, or a validation error
      when a required path is missing. */
  function NewBooking(id: Id, input: BookingInput): (r: Result<Booking>)
    ensures r.Ok? <==> BookingRequired(input)
    ensures r.Err? ==> r.error == ValidationFailed
    ensures r.Ok? ==> && r.value.id == id
                      && Some(r.value.userId) == input.userId
                      && Some(r.value.roomId) == input.roomId
                      && Some(r.value.startDate) == input.startDate
                      && Some(r.value.endDate) == input.endDate
                      && Some(r.value.totalPrice) == input.totalPrice
                      && Some(r.value.guestCount) == input.guestCount
                      && r.value.specialRequests == input.specialRequests
    ensures r.Ok? && input.status.Some? ==> r.value.status == input.status.value
    ensures r.Ok? && input.status.None? ==> r.value.status == PENDING
  {
    if !BookingRequired(input) then Err(ValidationFailed)
    else Ok(Booking(id, input.userId.value, input.roomId.value, input.startDate.value,
                    input.endDate.value, input.totalPrice.value,
                    input.status.GetOr(PENDING), input.guestCount.value,
                    input.specialRequests))
  }

  /** The fields an update may set; `None` leaves the stored value alone. */
  datatype BookingPatch = BookingPatch(
    userId: Option<Id>,
    roomId: Option<Id>,
    startDate: Option<int>,
    endDate: Option<int>,
    totalPrice: Option<int>,
    status: Option<Status>,
    guestCount: Option<int>,
    specialRequests: Option<string>)

  /** `findByIdAndUpdate(id, patch, { new: true })` on one document: every
      field the patch supplies replaces the stored one, the rest stay. */
  function PatchBooking(b: Booking, p: BookingPatch): (r: Booking)
    ensures r.id == b.id
    ensures r.userId == p.userId.GetOr(b.userId)
    ensures r.roomId == p.roomId.GetOr(b.roomId)
    ensures r.startDate == p.startDate.GetOr(b.startDate)
    ensures r.endDate == p.endDate.GetOr(b.endDate)
    ensures r.totalPrice == p.totalPrice.GetOr(b.totalPrice)
    ensures r.status == p.status.GetOr(b.status)
    ensures r.guestCount == p.guestCount.GetOr(b.guestCount)
    ensures r.specialRequests == (if p.specialRequests.Some? then p.specialRequests else b.specialRequests)
  {
    b.(userId := p.userId.GetOr(b.userId),
       roomId := p.roomId.GetOr(b.roomId),
       startDate := p.startDate.GetOr(b.startDate),
       endDate := p.endDate.GetOr(b.endDate),
       totalPrice := p.totalPrice.GetOr(b.totalPrice),
       status := p.status.GetOr(b.status),
       guestCount := p.guestCount.GetOr(b.guestCount),
       specialRequests := if p.specialRequests.Some? then p.specialRequests else b.specialRequests)
  }

  /** A patch that carries only a status. */
  function StatusPatch(s: Status): BookingPatch {
    BookingPatch(None, None, None, None, None, Some(s), None, None)
  }

  /** Applying the same patch twice is applying it once. */
  lemma PatchBookingIdempotent(b: Booking, p: BookingPatch)
    ensures PatchBooking(PatchBooking(b, p), p) == PatchBooking(b, p)
  {
  }

  /** Status transitions are unrestricted: any status can be patched into
      any other, and only the status changes. */
  lemma AnyStatusTransition(b: Booking, s: Status)
    ensures PatchBooking(b, StatusPatch(s)) == b.(status := s)
  {
  }
}
