/** The hotel queries, the admin-only hotel mutations and the Hotel field
    resolvers, including the two-step join that finds a hotel's bookings
    through its rooms. */
module HotelResolvers {
  import opened Common
  import opened BookingModel
  import opened HotelModel
  import opened RoomModel
  import opened Db
  import opened Gate
  import BookingResolvers
  import RoomResolvers

  /** Query `hotel(id)`. */
  function QueryHotel(db: Store, id: Id): (r: Option<Hotel>)
    reads db
    ensures r.Some? <==> id in db.hotels
    ensures r.Some? ==> r.value == db.hotels[id]
  {
    FindById(db.hotels, id)
  }

  /** Query `hotels`: every stored hotel, including those flagged `isDeleted`. */
  function QueryHotels(db: Store): (r: map<Id, Hotel>)
    reads db
    ensures r.Keys == db.hotels.Keys
    ensures forall k :: k in r ==> r[k] == db.hotels[k]
  {
    db.hotels
  }

  /** Mutation `createHotel(input)`: the owner is always the caller. */
  method CreateHotel(db: Store, input: HotelInput, user: Option<User>) returns (r: Result<Hotel>)
    requires db.Valid()
    modifies db
    ensures db.Valid()
    ensures db.users == old(db.users) && db.rooms == old(db.rooms) && db.bookings == old(db.bookings)
    ensures RequireAdmin(user).Some? ==> r == Err(RequireAdmin(user).value)
    ensures RequireAdmin(user).None? ==> r == NewHotel(old(db.nextId), input.(userId := Some(user.value.id)))
    ensures r.Ok? ==> user.Some? && IsAdmin(user.value) && r.value.userId == user.value.id
    ensures r.Ok? ==> && r.value.id !in old(db.hotels)
                      && db.hotels == old(db.hotels)[r.value.id := r.value]
                      && db.nextId == old(db.nextId) + 1
    ensures r.Err? ==> db.hotels == old(db.hotels) && db.nextId == old(db.nextId)
  {
    var denied := RequireAdmin(user);
    if denied.Some? {
      return Err(denied.value);
    }
    var built := NewHotel(db.nextId, input.(userId := Some(user.value.id)));
    if built.Err? {
      return built;
    }
    var id := db.NewId();
    db.hotels := db.hotels[id := built.value];
    r := built;
  }

  /** Mutation `updateHotel(id, input)`: the updated hotel, or null. */
  method UpdateHotel(db: Store, id: Id, patch: HotelPatch, user: Option<User>)
    returns (r: Result<Option<Hotel>>)
    requires db.Valid()
    modifies db
    ensures db.Valid()
    ensures db.users == old(db.users) && db.rooms == old(db.rooms) && db.bookings == old(db.bookings)
    ensures db.nextId == old(db.nextId)
    ensures RequireAdmin(user).Some? ==> r == Err(RequireAdmin(user).value) && db.hotels == old(db.hotels)
    ensures RequireAdmin(user).None? && id !in old(db.hotels) ==> r == Ok(None) && db.hotels == old(db.hotels)
    ensures RequireAdmin(user).None? && id in old(db.hotels) ==>
              && r == Ok(Some(PatchHotel(old(db.hotels)[id], patch)))
              && db.hotels == old(db.hotels)[id := r.value.value]
  {
    var denied := RequireAdmin(user);
    if denied.Some? {
      return Err(denied.value);
    }
    if id !in db.hotels {
      return Ok(None);
    }
    var updated := PatchHotel(db.hotels[id], patch);
    db.hotels := db.hotels[id := updated];
    r := Ok(Some(updated));
  }

  /** Mutation `deleteHotel(id)`: a hard delete that returns the removed hotel
      (or null) and cascades to nothing; the hotel's rooms and their bookings
      stay, and their `hotel` fields now resolve to null. */
  method DeleteHotel(db: Store, id: Id, user: Option<User>) returns (r: Result<Option<Hotel>>)
    requires db.Valid()
    modifies db
    ensures db.Valid()
    ensures db.users == old(db.users) && db.rooms == old(db.rooms) && db.bookings == old(db.bookings)
    ensures db.nextId == old(db.nextId)
    ensures RequireAdmin(user).Some? ==> r == Err(RequireAdmin(user).value) && db.hotels == old(db.hotels)
    ensures RequireAdmin(user).None? ==>
              && r == Ok(FindById(old(db.hotels), id))
              && db.hotels == old(db.hotels) - {id}
              && QueryHotel(db, id) == None
              && (forall k :: k in db.rooms && db.rooms[k].hotelId == id ==>
                    RoomResolvers.RoomHotel(db, db.rooms[k]) == None)
  {
    var denied := RequireAdmin(user);
    if denied.Some? {
      return Err(denied.value);
    }
    r := Ok(FindById(db.hotels, id));
    db.hotels := db.hotels - {id};
  }

  /** Field `Hotel.user`: the owner, or null. */
  function HotelUser(db: Store, h: Hotel): (r: Option<User>)
    reads db
    ensures r.Some? <==> h.userId in db.users
    ensures r.Some? ==> r.value == db.users[h.userId]
  {
    FindById(db.users, h.userId)
  }

  /** The rooms whose `hotelId` is the given one (`Room.find({ hotelId })`). */
  function RoomsOf(rooms: map<Id, Room>, hotelId: Id): (r: map<Id, Room>)
    ensures forall k :: k in r <==> k in rooms && rooms[k].hotelId == hotelId
    ensures forall k :: k in r ==> r[k] == rooms[k]
  {
    map k | k in rooms && rooms[k].hotelId == hotelId :: rooms[k]
  }

  /** Field `Hotel.rooms`. */
  function HotelRooms(db: Store, h: Hotel): (r: map<Id, Room>)
    reads db
    ensures forall k :: k in r <==> k in db.rooms && db.rooms[k].hotelId == h.id
    ensures forall k :: k in r ==> r[k] == db.rooms[k]
  {
    RoomsOf(db.rooms, h.id)
  }

  /** Field `Hotel.bookings`, computed as the source does: first the ids of
      the hotel's rooms, then the bookings whose `roomId` is among them. */
  function HotelBookings(db: Store, h: Hotel): (r: map<Id, Booking>)
    reads db
  {
    var rooms := RoomsOf(db.rooms, h.id);
    var roomIds := set k | k in rooms :: rooms[k].id;
    map k | k in db.bookings && db.bookings[k].roomId in roomIds :: db.bookings[k]
  }

  /** The join finds exactly the bookings whose room is stored and belongs to
      the hotel, and returns them unchanged. */
  lemma HotelBookingsExact(db: Store, h: Hotel)
    requires db.Valid()
    ensures forall k :: k in HotelBookings(db, h) <==>
              k in db.bookings && db.bookings[k].roomId in db.rooms
              && db.rooms[db.bookings[k].roomId].hotelId == h.id
    ensures forall k :: k in HotelBookings(db, h) ==> HotelBookings(db, h)[k] == db.bookings[k]
  {
    var rooms := RoomsOf(db.rooms, h.id);
    var roomIds := set k | k in rooms :: rooms[k].id;
    forall k | k in db.bookings
      ensures db.bookings[k].roomId in roomIds <==>
              db.bookings[k].roomId in db.rooms && db.rooms[db.bookings[k].roomId].hotelId == h.id
    {
      var rid := db.bookings[k].roomId;
      if rid in db.rooms && db.rooms[rid].hotelId == h.id {
        assert rooms[rid].id == rid;
      }
    }
  }

  /** `Hotel.bookings` and `Booking.hotel` agree: a booking is listed under a
      stored hotel exactly when its own `hotel` field resolves to that hotel,
      and then its room is among the hotel's rooms. */
  lemma HotelBookingsMatchBookingHotel(db: Store, h: Hotel, b: Booking)
    requires db.Valid()
    requires h.id in db.hotels && db.hotels[h.id] == h
    requires b.id in db.bookings && db.bookings[b.id] == b
    ensures b.id in HotelBookings(db, h) <==> BookingResolvers.BookingHotel(db, b) == Ok(Some(h))
    ensures b.id in HotelBookings(db, h) ==> b.roomId in HotelRooms(db, h)
  {
    HotelBookingsExact(db, h);
    if BookingResolvers.BookingHotel(db, b) == Ok(Some(h)) {
      assert db.hotels[db.rooms[b.roomId].hotelId] == h;
      assert db.rooms[b.roomId].hotelId == h.id;
    }
  }
}
