/** The booking form's Yup schema. Dates are instants in milliseconds
    (absent while the date picker is empty); the guest count is the whole
    number in the guests field, absent when the field is empty. */
module BookingSchema {
  import opened Common

  datatype BookingValues = BookingValues(
    startDate: Option<int>,
    endDate: Option<int>,
    guestCount: Option<int>,
    specialRequests: string)

  const MinGuests := 1
  const MaxGuests := 10

  /** `endDate: date().required().min(ref('startDate'))`: a check-out date
      that is not before the check-in date. */
  predicate EndDateOk(v: BookingValues) {
    v.endDate.Some? && v.startDate.Some? && v.startDate.value <= v.endDate.value
  }

  /** `guestCount: number().min(1).max(10).required()`. */
  predicate GuestCountOk(v: BookingValues) {
    v.guestCount.Some? && MinGuests <= v.guestCount.value <= MaxGuests
  }

  /** Whether the form passes the schema; `specialRequests` is an optional
      string and never fails. */
  function Validate(v: BookingValues): (ok: bool)
    ensures ok <==> && v.startDate.Some? && v.endDate.Some?
                    && v.startDate.value <= v.endDate.value
                    && v.guestCount.Some? && 1 <= v.guestCount.value <= 10
  {
    v.startDate.Some? && EndDateOk(v) && GuestCountOk(v)
  }

  /** The special requests never decide whether the form is accepted. */
  lemma SpecialRequestsNeverMatter(v: BookingValues, text: string)
    ensures Validate(v.(specialRequests := text)) == Validate(v)
  {
  }
}
