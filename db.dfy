/** The document store the resolvers read and write: one collection per
    model, keyed by id, and the generator of fresh ids. It stands in for the
    MongoDB collections behind the Mongoose models. */
module Db {
  import opened Common
  import opened BookingModel
  import opened HotelModel
  import opened RoomModel

  /** The User document as the resolvers use it (server/src/models/User.js
      is not part of this model): `password` holds the bcrypt hash. */
  datatype User = User(id: Id, name: string, email: string, password: string, role: string)

  predicate IsAdmin(u: User) {
    u.role == "admin"
  }

  class Store {
    var users: map<Id, User>
    var hotels: map<Id, Hotel>
    var rooms: map<Id, Room>
    var bookings: map<Id, Booking>
    /** The next id to hand out; every stored id is below it. */
    var nextId: Id

    ghost predicate Valid()
      reads this
    {
      && (forall k :: k in users ==> k < nextId && users[k].id == k)
      && (forall k :: k in hotels ==> k < nextId && hotels[k].id == k)
      && (forall k :: k in rooms ==> k < nextId && rooms[k].id == k)
      && (forall k :: k in bookings ==> k < nextId && bookings[k].id == k)
      && EmailsUnique(users)
    }

    /** An empty database. */
    constructor ()
      ensures Valid()
      ensures users == map[] && hotels == map[] && rooms == map[] && bookings == map[]
    {
      users, hotels, rooms, bookings := map[], map[], map[], map[];
      nextId := 0;
    }

    /** A fresh document id (what `new Model(...)` assigns to `_id`). */
    method NewId() returns (id: Id)
      requires Valid()
      modifies this`nextId
      ensures Valid()
      ensures id == old(nextId) && nextId == id + 1
      ensures id !in users && id !in hotels && id !in rooms && id !in bookings
    {
      id := nextId;
      nextId := nextId + 1;
    }
  }

  /** No two users share an email address. */
  ghost predicate EmailsUnique(users: map<Id, User>) {
    forall a, b :: a in users && b in users && users[a].email == users[b].email ==> a == b
  }

  /** `Model.findById(id)`: the document or null. */
  function FindById<T>(m: map<Id, T>, id: Id): (r: Option<T>)
    ensures r.Some? <==> id in m
    ensures r.Some? ==> r.value == m[id]
  {
    if id in m then Some(m[id]) else None
  }

  /** A user with this email address, if there is one (`User.findOne({ email })`). */
  predicate EmailTaken(users: map<Id, User>, email: string) {
    exists k :: k in users && users[k].email == email
  }
}
