/** The room queries, the admin-only room mutations and `Room.hotel`.
    `createRoom` turns every failure inside its try block into
    `Internal server error`. */
module RoomResolvers {
  import opened Common
  import opened HotelModel
  import opened RoomModel
  import opened Db
  import opened Gate

  /** Query `rooms`: every stored room. */
  function QueryRooms(db: Store): (r: map<Id, Room>)
    reads db
    ensures r.Keys == db.rooms.Keys
    ensures forall k :: k in r ==> r[k] == db.rooms[k]
  {
    db.rooms
  }

  /** Query `room(id)`. */
  function QueryRoom(db: Store, id: Id): (r: Option<Room>)
    reads db
    ensures r.Some? <==> id in db.rooms
    ensures r.Some? ==> r.value == db.rooms[id]
  {
    FindById(db.rooms, id)
  }

  /** Mutation `createRoom(input)`. The input is stored as given, whether or
      not its `hotelId` names a stored hotel; a failed save is reported as an
      internal server error. */
  method CreateRoom(db: Store, input: RoomInput, user: Option<User>) returns (r: Result<Room>)
    requires db.Valid()
    modifies db
    ensures db.Valid()
    ensures db.users == old(db.users) && db.hotels == old(db.hotels) && db.bookings == old(db.bookings)
    ensures RequireAdmin(user).Some? ==> r == Err(RequireAdmin(user).value)
    ensures RequireAdmin(user).None? && !RoomRequired(input) ==> r == Err(InternalServerError)
    ensures RequireAdmin(user).None? && RoomRequired(input) ==>
              r == NewRoom(old(db.nextId), input)
    ensures r.Ok? ==> && r.value.id !in old(db.rooms)
                      && db.rooms == old(db.rooms)[r.value.id := r.value]
                      && db.nextId == old(db.nextId) + 1
                      && QueryRoom(db, r.value.id) == Some(r.value)
    ensures r.Err? ==> db.rooms == old(db.rooms) && db.nextId == old(db.nextId)
  {
    var denied := RequireAdmin(user);
    if denied.Some? {
      return Err(denied.value);
    }
    // The try block: building and saving the room.
    var saved := NewRoom(db.nextId, input);
    if saved.Err? {
      // Caught and rethrown as a generic error.
      return Err(InternalServerError);
    }
    var id := db.NewId();
    db.rooms := db.rooms[id := saved.value];
    r := saved;
  }

  /** Mutation `updateRoom(id, input)`: the updated room, or null. */
  method UpdateRoom(db: Store, id: Id, patch: RoomPatch, user: Option<User>)
    returns (r: Result<Option<Room>>)
    requires db.Valid()
    modifies db
    ensures db.Valid()
    ensures db.users == old(db.users) && db.hotels == old(db.hotels) && db.bookings == old(db.bookings)
    ensures db.nextId == old(db.nextId)
    ensures RequireAdmin(user).Some? ==> r == Err(RequireAdmin(user).value) && db.rooms == old(db.rooms)
    ensures RequireAdmin(user).None? && id !in old(db.rooms) ==> r == Ok(None) && db.rooms == old(db.rooms)
    ensures RequireAdmin(user).None? && id in old(db.rooms) ==>
              && r == Ok(Some(PatchRoom(old(db.rooms)[id], patch)))
              && db.rooms == old(db.rooms)[id := r.value.value]
  {
    var denied := RequireAdmin(user);
    if denied.Some? {
      return Err(denied.value);
    }
    if id !in db.rooms {
      return Ok(None);
    }
    var updated := PatchRoom(db.rooms[id], patch);
    db.rooms := db.rooms[id := updated];
    r := Ok(Some(updated));
  }

  /** Field `Room.hotel`: the hotel the room points at, or null once it is gone. */
  function RoomHotel(db: Store, room: Room): (r: Option<Hotel>)
    reads db
    ensures r.Some? <==> room.hotelId in db.hotels
    ensures r.Some? ==> r.value == db.hotels[room.hotelId]
  {
    FindById(db.hotels, room.hotelId)
  }
}
