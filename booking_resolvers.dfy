/** The booking queries, mutations and field resolvers. Creating a booking
    needs only an authenticated caller, whose id always becomes the owner;
    updating one needs only an authenticated caller, with no ownership or
    role check. */
module BookingResolvers {
  import opened Common
  import opened BookingModel
  import opened HotelModel
  import opened RoomModel
  import opened Db
  import opened Gate

  /** Query `booking(id)`. */
  function QueryBooking(db: Store, id: Id): (r: Option<Booking>)
    reads db
    ensures r.Some? <==> id in db.bookings
    ensures r.Some? ==> r.value == db.bookings[id]
  {
    FindById(db.bookings, id)
  }

  /** The bookings made by one user (`Booking.find({ userId })`). */
  function BookingsOf(bookings: map<Id, Booking>, userId: Id): (r: map<Id, Booking>)
    ensures forall k :: k in r <==> k in bookings && bookings[k].userId == userId
    ensures forall k :: k in r ==> r[k] == bookings[k]
  {
    map k | k in bookings && bookings[k].userId == userId :: bookings[k]
  }

  /** Query `bookings(userId)`. */
  function QueryBookings(db: Store, userId: Id): (r: map<Id, Booking>)
    reads db
    ensures forall k :: k in r <==> k in db.bookings && db.bookings[k].userId == userId
    ensures forall k :: k in r ==> r[k] == db.bookings[k]
  {
    BookingsOf(db.bookings, userId)
  }

  /** Mutation `createBooking(input)`. */
  method CreateBooking(db: Store, input: BookingInput, user: Option<User>) returns (r: Result<Booking>)
    requires db.Valid()
    modifies db
    ensures db.Valid()
    ensures db.users == old(db.users) && db.hotels == old(db.hotels) && db.rooms == old(db.rooms)
    ensures user.None? ==> r == Err(NotAuthenticated)
    ensures user.Some? ==> r == NewBooking(old(db.nextId), input.(userId := Some(user.value.id)))
    ensures r.Ok? ==> user.Some? && r.value.userId == user.value.id
    ensures r.Ok? ==> && r.value.id !in old(db.bookings)
                      && db.bookings == old(db.bookings)[r.value.id := r.value]
                      && db.nextId == old(db.nextId) + 1
    ensures r.Ok? ==> QueryBooking(db, r.value.id) == Some(r.value)
    ensures r.Ok? && user.Some? ==> QueryBookings(db, user.value.id) == old(QueryBookings(db, user.value.id))[r.value.id := r.value]
    ensures r.Err? ==> db.bookings == old(db.bookings) && db.nextId == old(db.nextId)
  {
    var denied := RequireUser(user);
    if denied.Some? {
      return Err(denied.value);
    }
    var built := NewBooking(db.nextId, input.(userId := Some(user.value.id)));
    if built.Err? {
      return built;
    }
    var id := db.NewId();
    db.bookings := db.bookings[id := built.value];
    r := built;
  }

  /** Mutation `updateBooking(id, input)`: the updated booking, or null when
      no booking has that id. */
  method UpdateBooking(db: Store, id: Id, patch: BookingPatch, user: Option<User>)
    returns (r: Result<Option<Booking>>)
    requires db.Valid()
    modifies db
    ensures db.Valid()
    ensures db.users == old(db.users) && db.hotels == old(db.hotels) && db.rooms == old(db.rooms)
    ensures db.nextId == old(db.nextId)
    ensures user.None? ==> r == Err(NotAuthenticated) && db.bookings == old(db.bookings)
    ensures user.Some? && id !in old(db.bookings) ==> r == Ok(None) && db.bookings == old(db.bookings)
    ensures user.Some? && id in old(db.bookings) ==>
              && r == Ok(Some(PatchBooking(old(db.bookings)[id], patch)))
              && db.bookings == old(db.bookings)[id := r.value.value]
  {
    var denied := RequireUser(user);
    if denied.Some? {
      return Err(denied.value);
    }
    if id !in db.bookings {
      return Ok(None);
    }
    var updated := PatchBooking(db.bookings[id], patch);
    db.bookings := db.bookings[id := updated];
    r := Ok(Some(updated));
  }

  /** Field `Booking.user`: strict, a missing user is an error. */
  function BookingUser(db: Store, b: Booking): (r: Result<User>)
    reads db
    ensures r.Err? <==> b.userId !in db.users
    ensures r.Err? ==> r.error == UserNotFound
    ensures r.Ok? ==> r.value == db.users[b.userId]
  {
    match FindById(db.users, b.userId)
    case None => Err(UserNotFound)
    case Some(u) => Ok(u)
  }

  /** Field `Booking.room`: lenient, a missing room is null. */
  function BookingRoom(db: Store, b: Booking): (r: Option<Room>)
    reads db
    ensures r.Some? <==> b.roomId in db.rooms
    ensures r.Some? ==> r.value == db.rooms[b.roomId]
  {
    FindById(db.rooms, b.roomId)
  }

  /** Field `Booking.hotel`: the hotel of the booking's room. The room is
      dereferenced without a null check, so a missing room is a TypeError. */
  function BookingHotel(db: Store, b: Booking): (r: Result<Option<Hotel>>)
    reads db
    ensures r.Err? <==> b.roomId !in db.rooms
    ensures r.Err? ==> r.error == NullReference
    ensures r.Ok? ==> r.value == FindById(db.hotels, db.rooms[b.roomId].hotelId)
  {
    match BookingRoom(db, b)
    case None => Err(NullReference)
    case Some(room) => Ok(FindById(db.hotels, room.hotelId))
  }

  /** The two relationship resolvers treat a dangling reference differently:
      when both the user and the room are gone, `user` fails and `room` is
      silently null. */
  lemma DanglingReferences(db: Store, b: Booking)
    requires b.userId !in db.users && b.roomId !in db.rooms
    ensures BookingUser(db, b) == Err(UserNotFound)
    ensures BookingRoom(db, b) == None
    ensures BookingHotel(db, b) == Err(NullReference)
  {
  }
}
