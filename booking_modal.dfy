/** The booking dialog: the price shown and sent for a stay, and the
    `createBooking` input built when the form is submitted. Dates are
    milliseconds; `new Date(d)` of a picked date is that instant. */
module BookingModal {
  import opened Common
  import opened JsText
  import opened BookingSchema
  import opened BookingModel
  import RoomModel

  const MsPerDay := 1000 * 60 * 60 * 24

  /** `Math.ceil(ms / MsPerDay)`: the number of nights a stay of `ms`
      milliseconds is charged, a started day counting as a whole one. */
  function Nights(ms: int): (n: int)
    ensures (n - 1) * MsPerDay < ms <= n * MsPerDay
  {
    -((-ms) / MsPerDay)
  }

  /** The ceiling is the only whole number with that property. */
  lemma NightsUnique(ms: int, n: int)
    requires (n - 1) * MsPerDay < ms <= n * MsPerDay
    ensures Nights(ms) == n
  {
    var m := Nights(ms);
    assert (m - 1) * MsPerDay < n * MsPerDay;
    assert (n - 1) * MsPerDay < m * MsPerDay;
  }

  /** `calculateTotalPrice(startDate, endDate)` for a room of price `roomPrice`. */
  function CalculateTotalPrice(startDate: Option<int>, endDate: Option<int>, roomPrice: int): (total: int)
    ensures startDate.None? || endDate.None? ==> total == 0
  {
    if startDate.None? || endDate.None? then 0
    else Nights(endDate.value - startDate.value) * roomPrice
  }

  /** A stay of more than `k` and at most `k + 1` days costs `k + 1` nights. */
  lemma {:induction false} StayPrice(start: int, end: int, roomPrice: int, k: int)
    requires k * MsPerDay < end - start <= (k + 1) * MsPerDay
    ensures CalculateTotalPrice(Some(start), Some(end), roomPrice) == (k + 1) * roomPrice
  {
    NightsUnique(end - start, k + 1);
  }

  /** Checking out at the check-in instant costs nothing. */
  lemma SameInstantCostsNothing(start: int, roomPrice: int)
    ensures CalculateTotalPrice(Some(start), Some(start), roomPrice) == 0
  {
    NightsUnique(0, 0);
  }

  /** Any part of a day is charged as a whole night. */
  lemma PartialDayIsOneNight(start: int, end: int, roomPrice: int)
    requires start < end <= start + MsPerDay
    ensures CalculateTotalPrice(Some(start), Some(end), roomPrice) == roomPrice
  {
    StayPrice(start, end, roomPrice, 0);
  }

  /** `k` whole days cost `k` nights. */
  lemma WholeDays(start: int, k: int, roomPrice: int)
    ensures CalculateTotalPrice(Some(start), Some(start + k * MsPerDay), roomPrice) == k * roomPrice
  {
    StayPrice(start, start + k * MsPerDay, roomPrice, k - 1);
  }

  /** Nothing stops a check-out a day or more before the check-in: the
      night count goes negative and so does the total. */
  lemma EndBeforeStartIsNegative(start: int, end: int, roomPrice: int)
    requires end <= start - MsPerDay && roomPrice > 0
    ensures CalculateTotalPrice(Some(start), Some(end), roomPrice) < 0
  {
    var n := Nights(end - start);
    assert n <= -1;
    assert n * roomPrice <= -roomPrice;
  }

  /** Once the form passes its schema, the price is never negative. */
  lemma ValidFormTotalNonNegative(values: BookingValues, roomPrice: int)
    requires Validate(values) && roomPrice >= 0
    ensures CalculateTotalPrice(values.startDate, values.endDate, roomPrice) >= 0
  {
    var n := Nights(values.endDate.value - values.startDate.value);
    assert n >= 0;
    assert n * roomPrice >= 0;
  }

  /** The input object `onSubmit` sends to `createBooking`. */
  datatype BookingPayload = BookingPayload(
    roomId: Id,
    startDate: Option<int>,
    endDate: Option<int>,
    guestCount: Option<int>,
    specialRequests: string,
    totalPrice: int)

  /** `String(values.guestCount)`: the empty field stays the empty string. */
  function GuestCountText(g: Option<int>): string {
    match g
    case None => ""
    case Some(n) => ShowInt(n)
  }

  /** `parseInt` reads back the count in the field, and NaN for an empty one. */
  lemma GuestCountReadBack(g: Option<int>)
    ensures ParseInt(GuestCountText(g)) == g
  {
    if g.Some? {
      ParseIntShowInt(g.value, "");
      assert ShowInt(g.value) + "" == ShowInt(g.value);
    }
  }

  /** `onSubmit(values)` for the room the dialog was opened on. The guest
      count goes through `parseInt`, which gives back the number in the field. */
  function OnSubmitPayload(values: BookingValues, room: RoomModel.Room): (p: BookingPayload)
    ensures p.roomId == room.id
    ensures p.startDate == values.startDate && p.endDate == values.endDate
    ensures p.guestCount == values.guestCount
    ensures p.specialRequests == values.specialRequests
    ensures p.totalPrice == CalculateTotalPrice(values.startDate, values.endDate, room.price)
  {
    GuestCountReadBack(values.guestCount);
    BookingPayload(room.id, values.startDate, values.endDate, ParseInt(GuestCountText(values.guestCount)),
                   values.specialRequests, CalculateTotalPrice(values.startDate, values.endDate, room.price))
  }

  /** The payload as the server's `BookingInput`: no user (the server stamps
      the caller) and no status. */
  function PayloadInput(p: BookingPayload): (input: BookingInput)
    ensures input.userId.None? && input.status.None?
    ensures input.roomId == Some(p.roomId) && input.totalPrice == Some(p.totalPrice)
    ensures input.startDate == p.startDate && input.endDate == p.endDate
    ensures input.guestCount == p.guestCount && input.specialRequests == Some(p.specialRequests)
  {
    BookingInput(None, Some(p.roomId), p.startDate, p.endDate, Some(p.totalPrice), None,
                 p.guestCount, Some(p.specialRequests))
  }

  /** A form that passes its schema, submitted by a signed-in user, is a
      booking the server saves: pending, for that room and user, with the
      dialog's price and a guest count between 1 and 10. */
  lemma ValidFormIsSaved(values: BookingValues, room: RoomModel.Room, userId: Id, id: Id)
    requires Validate(values) && room.price >= 0
    ensures var r := NewBooking(id, PayloadInput(OnSubmitPayload(values, room)).(userId := Some(userId)));
            && r.Ok? && r.value.status == PENDING && r.value.roomId == room.id && r.value.userId == userId
            && r.value.startDate <= r.value.endDate && 1 <= r.value.guestCount <= 10
            && r.value.totalPrice == CalculateTotalPrice(values.startDate, values.endDate, room.price)
            && r.value.totalPrice >= 0
  {
    ValidFormTotalNonNegative(values, room.price);
  }
}
