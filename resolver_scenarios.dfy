/** The server's integration scenarios, run against the model of the
    resolvers: each method starts from an empty store and its postcondition
    is what the corresponding test expects. They only use the resolvers'
    contracts, so they also show that those contracts are strong enough. */
module ResolverScenarios {
  import opened Common
  import opened BookingModel
  import opened HotelModel
  import opened RoomModel
  import opened Db
  import BookingResolvers
  import HotelResolvers
  import RoomResolvers
  import UserResolvers

  const Admin := User(1000, "Admin User", "admin@example.com", "hash", "admin")
  const Guest := User(1001, "User", "user@example.com", "hash", "user")
  const OtherGuest := User(1002, "Other", "other@example.com", "hash", "user")

  function TestHotelInput(): HotelInput {
    HotelInput(Some("Test Hotel"), Some("123 Test St"), Some(1223), None, None, None,
               None, None, None, None, Some(12))
  }

  /** An admin creates a hotel and a room, a user books the room without
      giving a status, and a different user confirms the booking. */
  method BookingLifecycle() returns (owner: Id, created: Status, confirmed: Status, cancelled: Status)
    ensures owner == Guest.id
    ensures created == PENDING && confirmed == CONFIRMED && cancelled == CANCELLED
  {
    var db := new Store();
    var h := HotelResolvers.CreateHotel(db, TestHotelInput(), Some(Admin));
    var rm := RoomResolvers.CreateRoom(db, RoomInput(Some(h.value.id), Some("Deluxe"), Some(200),
                                                     Some(["WiFi", "TV"]), None), Some(Admin));
    var b := BookingResolvers.CreateBooking(db, BookingInput(Some(OtherGuest.id), Some(rm.value.id),
                                                             Some(1701388800000), Some(1702166400000),
                                                             Some(2000), None, Some(2), None), Some(Guest));
    owner, created := b.value.userId, b.value.status;
    var c := BookingResolvers.UpdateBooking(db, b.value.id, StatusPatch(CONFIRMED), Some(OtherGuest));
    confirmed := c.value.value.status;
    var x := BookingResolvers.UpdateBooking(db, b.value.id, StatusPatch(CANCELLED), Some(Guest));
    cancelled := x.value.value.status;
  }

  /** A status given at creation is kept. */
  method BookingWithStatus() returns (status: Status)
    ensures status == CONFIRMED
  {
    var db := new Store();
    var b := BookingResolvers.CreateBooking(db, BookingInput(None, Some(7), Some(1701388800000),
                                                             Some(1702166400000), Some(2000),
                                                             Some(CONFIRMED), Some(2), None), Some(Guest));
    status := b.value.status;
  }

  /** Create, rename and delete a hotel; afterwards `hotel(id)` is null,
      while the room created under it is still stored. */
  method HotelLifecycle() returns (created: Hotel, renamed: Hotel, deleted: Option<Hotel>,
                                   after: Option<Hotel>, orphan: Option<Room>)
    ensures created.name == "Test Hotel" && created.totalRooms == 0 && created.userId == Admin.id
    ensures renamed.name == "Updated Test Hotel" && renamed.id == created.id
    ensures deleted == Some(renamed)
    ensures after == None
    ensures orphan.Some? && orphan.value.hotelId == created.id
  {
    var db := new Store();
    var h := HotelResolvers.CreateHotel(db, TestHotelInput(), Some(Admin));
    created := h.value;
    var rm := RoomResolvers.CreateRoom(db, RoomInput(Some(created.id), Some("Deluxe"), Some(200), None, None),
                                       Some(Admin));
    var u := HotelResolvers.UpdateHotel(db, created.id, NamePatch("Updated Test Hotel"), Some(Admin));
    renamed := u.value.value;
    var d := HotelResolvers.DeleteHotel(db, created.id, Some(Admin));
    deleted := d.value;
    after := HotelResolvers.QueryHotel(db, created.id);
    orphan := RoomResolvers.QueryRoom(db, rm.value.id);
  }

  /** A room's features read back in the order they were given. */
  method RoomFeaturesRoundTrip() returns (features: seq<string>)
    ensures features == ["WiFi", "TV"]
  {
    var db := new Store();
    var rm := RoomResolvers.CreateRoom(db, RoomInput(Some(3), Some("Deluxe"), Some(200),
                                                     Some(["WiFi", "TV"]), None), Some(Admin));
    var back := RoomResolvers.QueryRoom(db, rm.value.id);
    features := back.value.features;
  }

  /** A non-admin cannot create a hotel, and the store keeps no hotel. */
  method NonAdminCreatesNoHotel() returns (r: Result<Hotel>, hotels: map<Id, Hotel>)
    ensures r == Err(NotAuthorized) && hotels == map[]
  {
    var db := new Store();
    r := HotelResolvers.CreateHotel(db, TestHotelInput(), Some(Guest));
    hotels := HotelResolvers.QueryHotels(db);
  }

  /** Sign up, log in with the right password, then with a wrong password
      and with an unknown email: both failures are the same error. */
  method SignupThenLogin(ext: Externals, salt: string)
    returns (signedUp: string, loggedIn: string, wrongPassword: Result<UserResolvers.AuthPayload>,
             unknownEmail: Result<UserResolvers.AuthPayload>, again: Result<UserResolvers.AuthPayload>)
    requires HashSound(ext)
    requires ext.createUserSchemaOk("test@example.com", "Password123", "Test User", "user")
    requires ext.loginSchemaOk("test@example.com", "Password123")
    requires ext.loginSchemaOk("test@example.com", "WrongPassword")
    requires ext.loginSchemaOk("nobody@example.com", "Password123")
    requires !ext.compare("WrongPassword", ext.hash("Password123", salt))
    ensures signedUp == "test@example.com" && loggedIn == "test@example.com"
    ensures wrongPassword == Err(InvalidCredentials) && unknownEmail == wrongPassword
    ensures again == Err(UserAlreadyExists)
  {
    var db := new Store();
    var s := UserResolvers.Signup(db, UserResolvers.SignupInput("test@example.com", "Password123", "Test User", "user"),
                                  salt, ext);
    signedUp := s.value.user.email;
    assert EmailsUnique(db.users);
    var l := UserResolvers.Login(db, UserResolvers.LoginInput("test@example.com", "Password123"), ext);
    loggedIn := l.value.user.email;
    wrongPassword := UserResolvers.Login(db, UserResolvers.LoginInput("test@example.com", "WrongPassword"), ext);
    unknownEmail := UserResolvers.Login(db, UserResolvers.LoginInput("nobody@example.com", "Password123"), ext);
    again := UserResolvers.Signup(db, UserResolvers.SignupInput("test@example.com", "Password123", "Test User", "user"),
                                  salt, ext);
  }
}
