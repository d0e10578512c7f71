# Hotel booking: a Dafny model of the booking domain

The hotel-booking application is a GraphQL server (Apollo over Express and
Mongoose) with a React client. Guests sign up, log in and book rooms.
Administrators create, edit and delete hotels and their rooms.

This project models that core:

- **Server resolvers.** Every query, mutation and field resolver of the
  booking, hotel, room and user resolvers. They run against `Db.Store`, a
  class whose four map fields stand for the MongoDB collections, plus an id
  counter.
  - Mutations are methods that state the whole new store.
  - Queries and field resolvers are functions over the store.
  - Each resolver returns a value or one of the GraphQL errors in
    `Common.Error`.
- **Authentication middleware.** It turns a `Bearer` header into the
  request's user.
- **Mongoose models.** Booking, Hotel and Room, with their required paths,
  enumeration, defaults and strict mode.
- **Client logic**, as pure functions except where the page itself loops:
  - the three Yup form schemas;
  - the booking dialog's price and submit payload;
  - the image-list checks and merge on the hotel editor page;
  - the editor's split of room rows into update and create requests;
  - the route guard.

`bcrypt`, `jsonwebtoken` and the server's Zod schemas are function-typed
fields of `Common.Externals`. Their only stated laws are `HashSound` (a
password matches its own hash) and `JwtSound` (a signed token verifies to
its claims). The Cloudinary upload is the parameter `upload`, and Yup's
email pattern is the parameter `isEmail`.

A few JavaScript behaviours the client relies on are written out:
- `parseInt`, with `String(n)` read back;
- the `\s` whitespace set;
- `Math.ceil` of a millisecond difference;
- truthiness and `===` in the route guard.

`ResolverScenarios` replays the server's integration tests against the
resolvers' contracts.

## Model

| member | source | states |
|---|---|---|
| Common.Message | server/src/resolvers/userResolvers.js:24-104 | The texts `Not authenticated`, `Not authorized`, `Invalid credentials`, `User already exists`, `Invalid input`, `User not found` and `Internal server error` each belong to exactly one error. |
| Common.Code | server/src/resolvers/userResolvers.js:77-80 | Only a schema failure (`Invalid input`) carries an extension code, and that code is `BAD_USER_INPUT`. |
| Db.FindById | server/src/resolvers/bookingResolvers.js:19-21 | `findById` yields the stored document exactly when the id is stored, and null otherwise. |
| Gate.RequireUser | server/src/resolvers/bookingResolvers.js:45 | A request passes exactly when a user is attached. Otherwise the error is `Not authenticated`. |
| Gate.RequireAdmin | server/src/resolvers/hotelResolvers.js:48-50 | A request passes exactly when an admin is attached. `Not authenticated` exactly when no one is attached; `Not authorized` exactly when a non-admin is. |
| BookingModel.NewBooking | server/src/models/Booking.js:3-14 | Saving succeeds iff userId, roomId, both dates, totalPrice and guestCount are present. Every field is copied. `specialRequests` stays optional. The status is the one supplied and defaults to PENDING. A missing path is a validation error. |
| BookingModel.PatchBooking | server/src/resolvers/bookingResolvers.js:62 | Each field the update supplies replaces the stored one. Every other field and the id are kept. |
| BookingModel.PatchBookingIdempotent | server/src/resolvers/bookingResolvers.js:62 | Applying the same update twice gives the same booking as applying it once. |
| BookingModel.AnyStatusTransition | server/src/resolvers/bookingResolvers.js:60-63 | A status-only update moves any status to any other and changes nothing else. |
| HotelModel.NewHotel | server/src/models/Hotel.js:3-16 | Saving succeeds iff the name is non-empty and price and owner are present. `isDeleted` defaults to false and `totalRooms` to 0. The string lists default to empty. Description, address and phone are optional. |
| HotelModel.AvailableRoomsDropped | server/src/models/Hotel.js:3-16 | The `availableRooms` the client sends is not a schema path, so it never changes the saved hotel. |
| HotelModel.PatchHotel | server/src/resolvers/hotelResolvers.js:69 | For each of the ten fields: a supplied value replaces the stored one, and an omitted one keeps it. The id is kept. |
| HotelModel.EmptyHotelPatchIdentity | server/src/resolvers/hotelResolvers.js:69 | An update that supplies nothing leaves the hotel unchanged. |
| HotelModel.NamePatchChangesOnlyName | server/tests/hotelResolver.test.js:69-86 | Renaming a hotel changes its name and nothing else. |
| RoomModel.NewRoom | server/src/models/Room.js:3-11 | Saving succeeds iff hotelId, a non-empty roomType and price are present. The hotel reference is stored unchecked. Features default to empty and `isAvailable` to true. |
| RoomModel.PatchRoom | server/src/resolvers/roomResolvers.js:34 | For each of hotelId, roomType, price, features and isAvailable: a supplied value replaces the stored one, and an omitted one keeps it. The id is kept. |
| RoomModel.PatchRoomIdempotent | server/src/resolvers/roomResolvers.js:34 | Applying the same update twice gives the same room as applying it once. |
| BookingResolvers.QueryBooking | server/src/resolvers/bookingResolvers.js:19-21 | The stored booking with that id, or null. |
| BookingResolvers.QueryBookings | server/src/resolvers/bookingResolvers.js:29-31 | Exactly the stored bookings whose userId matches, unchanged. |
| BookingResolvers.CreateBooking | server/src/resolvers/bookingResolvers.js:44-48 | Without a user: `Not authenticated` and no change. Otherwise the saved booking is built from the input with userId replaced by the caller's id, under a fresh id. The caller's bookings grow by exactly that booking. The other collections are untouched. |
| BookingResolvers.UpdateBooking | server/src/resolvers/bookingResolvers.js:60-63 | Any attached user may update. An absent id gives null and no change. Otherwise the stored booking becomes the patched one and is returned. No other booking changes. |
| BookingResolvers.BookingUser | server/src/resolvers/bookingResolvers.js:78-82 | The booking's user, or the error `User not found` exactly when that user is missing. |
| BookingResolvers.BookingRoom | server/src/resolvers/bookingResolvers.js:88-90 | The booking's room, or null exactly when it is missing. |
| BookingResolvers.BookingHotel | server/src/resolvers/bookingResolvers.js:96-99 | A missing room is a null dereference (error). Otherwise the result is the hotel named by the room's hotelId, or null. |
| BookingResolvers.DanglingReferences | server/src/resolvers/bookingResolvers.js:78-99 | With both user and room gone: `user` fails, `room` is null, and `hotel` fails on the null room. |
| HotelResolvers.QueryHotel | server/src/resolvers/hotelResolvers.js:22-24 | The stored hotel with that id, or null. |
| HotelResolvers.QueryHotels | server/src/resolvers/hotelResolvers.js:29-31 | Every stored hotel, with no `isDeleted` filter. |
| HotelResolvers.CreateHotel | server/src/resolvers/hotelResolvers.js:47-54 | The authentication check comes before the admin check, and a failure changes nothing. The saved hotel is the input with the caller as owner, under a fresh id. |
| HotelResolvers.UpdateHotel | server/src/resolvers/hotelResolvers.js:66-70 | Admin only. An absent id gives null. Otherwise the stored hotel becomes the patched one. Only that entry changes. |
| HotelResolvers.DeleteHotel | server/src/resolvers/hotelResolvers.js:81-85 | Admin only. The removed hotel (or null) is returned, and exactly that key leaves the hotels. Users, rooms and bookings stay. Afterwards `hotel(id)` is null, and so is `Room.hotel` for every room left under it. |
| HotelResolvers.HotelUser | server/src/resolvers/hotelResolvers.js:96-98 | The owner, or null when the owner is missing. |
| HotelResolvers.HotelRooms | server/src/resolvers/hotelResolvers.js:104-106 | Exactly the stored rooms whose hotelId is the hotel's id. |
| HotelResolvers.HotelBookingsExact | server/src/resolvers/hotelResolvers.js:112-116 | The two-step join (room ids, then matching bookings) yields exactly the bookings whose room is stored under the hotel, unchanged. |
| HotelResolvers.HotelBookingsMatchBookingHotel | server/src/resolvers/hotelResolvers.js:112-116 | A booking is listed under a stored hotel iff its own `hotel` field resolves to that hotel, and then its room is among the hotel's rooms. |
| RoomResolvers.QueryRooms | server/src/resolvers/roomResolvers.js:8-10 | Every stored room. |
| RoomResolvers.QueryRoom | server/src/resolvers/roomResolvers.js:11-13 | The stored room with that id, or null. |
| RoomResolvers.CreateRoom | server/src/resolvers/roomResolvers.js:16-30 | Authentication is checked, then the admin role, each failure leaving the store as it was. A room that fails validation is reported as `Internal server error`. Otherwise the input is stored as given under a fresh id, whether or not its hotel exists. |
| RoomResolvers.UpdateRoom | server/src/resolvers/roomResolvers.js:31-35 | Authentication is checked, then the admin role. An absent id gives null. Otherwise the stored room becomes the patched one. Only that entry changes. |
| RoomResolvers.RoomHotel | server/src/resolvers/roomResolvers.js:38-40 | The room's hotel, or null once it is gone. |
| UserResolvers.Me | server/src/resolvers/userResolvers.js:23-26 | Without a user: `Not authenticated`. Otherwise the stored user with the caller's id, or null. |
| UserResolvers.QueryUser | server/src/resolvers/userResolvers.js:34-36 | The stored user with that id, or null. |
| UserResolvers.QueryUsers | server/src/resolvers/userResolvers.js:41-43 | Every stored user. |
| UserResolvers.Signup | server/src/resolvers/userResolvers.js:54-83 | Schema failure gives `Invalid input`/`BAD_USER_INPUT`, checked before the email lookup. A taken email gives `User already exists`. A failure stores nothing. Success iff neither happens. The stored user carries `hash(password, salt)` and the input's role verbatim, under a fresh id. Emails stay unique. The token names the new user, and with sound signing it authenticates that user. |
| UserResolvers.Login | server/src/resolvers/userResolvers.js:92-110 | Schema failure gives `Invalid input`. An unknown email and a wrong password both give `Invalid credentials`. Otherwise the registered user and a token for it. |
| UserResolvers.UserBookings | server/src/resolvers/userResolvers.js:118-120 | Exactly the bookings whose userId is the user's. They are the same as `bookings(userId)`. |
| AuthMiddleware.ExtractToken | server/src/middleware/auth.js:5-6 | The header is `Bearer ` followed by the token iff it starts with `Bearer `. Otherwise the token is empty. |
| AuthMiddleware.ExtractTokenRoundTrip | server/src/middleware/auth.js:6 | The token a client writes after `Bearer ` is the token extracted. |
| AuthMiddleware.ResolveUser | server/src/middleware/auth.js:8-22 | A user is attached iff the token is non-empty, verifies, and names a stored user; it is that user. |
| AuthMiddleware.NoHeaderNoUser | server/src/middleware/auth.js:5 | A missing header counts as empty, so no one is attached. |
| AuthMiddleware.IssuedTokenAuthenticates | server/src/middleware/auth.js:10-18 | With sound signing, a token issued for a stored user attaches that user. |
| AuthMiddleware.Authenticate | server/src/middleware/auth.js:4-24 | `req.user` is set to the resolved user when there is one, and left alone on every failure. `next()` is called exactly once. |
| ResolverScenarios.BookingLifecycle | server/src/resolvers/bookingResolvers.js:44-62 | Booking for another user's id still makes the caller the owner. A booking with no status is PENDING. Since `updateBooking` checks only that someone is signed in, another user can confirm it; the owner can then cancel it. The test covers only the owner cancelling. |
| ResolverScenarios.BookingWithStatus | server/tests/bookingResolver.test.js:83-100 | A status given at creation (CONFIRMED) is kept. |
| ResolverScenarios.HotelLifecycle | server/tests/hotelResolver.test.js:43-129 | Create, rename and delete: the name reads back, totalRooms is 0, delete returns the renamed hotel, `hotel(id)` is then null, and the room under it survives. |
| ResolverScenarios.RoomFeaturesRoundTrip | server/src/models/Room.js:7 | A room's features read back as given, in order. |
| ResolverScenarios.NonAdminCreatesNoHotel | server/src/resolvers/hotelResolvers.js:50 | A non-admin gets `Not authorized` and no hotel is stored. |
| ResolverScenarios.SignupThenLogin | server/tests/auth.test.js:10-77 | Signup then login returns the user. A wrong password and an unknown email fail identically. A second signup with the same email fails. |
| JsText.ParseIntShowInt | client/src/components/hotels/modals/BookingModal.jsx:42 | `parseInt` reads back `String(n)` for every integer, also when a non-digit follows. |
| BookingSchema.Validate | client/src/validationSchemas/bookingschema.js:3-8 | Accepted iff both dates are given with the check-out not before the check-in, and a guest count between 1 and 10 is given. |
| BookingSchema.SpecialRequestsNeverMatter | client/src/validationSchemas/bookingschema.js:7 | The special requests never decide acceptance. |
| RegisterSchema.Validate | client/src/validationSchemas/registerSchema.js:4-16 | Accepted iff the name is non-empty, the email is non-empty and well formed, the password has at least 6 characters, and the confirmation equals the password. |
| RegisterSchema.ConfirmationOnlyMatchMatters | client/src/validationSchemas/registerSchema.js:13-15 | Given the other rules, the confirmation's own `required` adds nothing to "equals the password". |
| HotelSchema.ScanPhoneChars | client/src/validationSchemas/hotelSchema.js:18 | The scan succeeds iff every character is a digit, a `\s` whitespace character or `-`. |
| HotelSchema.PhoneMatchesPattern | client/src/validationSchemas/hotelSchema.js:17-19 | The matcher accepts exactly the strings the pattern describes: one or more class characters, optionally after one leading `+`. |
| HotelSchema.PhonePlusOnlyFirst | client/src/validationSchemas/hotelSchema.js:18 | In an accepted phone number a `+` can only come first. |
| HotelSchema.Validate | client/src/validationSchemas/hotelSchema.js:4-29 | Accepted iff all of these hold: the name and address are non-empty; the price is positive; availableRooms is a whole number of at least 1; the phone number is non-empty and matches the pattern; every room has a type and a positive price. |
| HotelSchema.OptionalFieldsNeverMatter | client/src/validationSchemas/hotelSchema.js:6-15 | Description, amenities and images never decide acceptance. |
| BookingModal.Nights | client/src/components/hotels/modals/BookingModal.jsx:59 | The night count n is the ceiling of the stay in days: (n-1) days < stay <= n days. |
| BookingModal.NightsUnique | client/src/components/hotels/modals/BookingModal.jsx:59 | That ceiling is the only whole number with this property. |
| BookingModal.CalculateTotalPrice | client/src/components/hotels/modals/BookingModal.jsx:55-61 | The total is 0 when either date is missing. |
| BookingModal.StayPrice | client/src/components/hotels/modals/BookingModal.jsx:59-60 | A stay of more than k and at most k+1 days costs (k+1) times the room price. |
| BookingModal.SameInstantCostsNothing | client/src/components/hotels/modals/BookingModal.jsx:59-60 | Equal start and end cost 0. |
| BookingModal.PartialDayIsOneNight | client/src/components/hotels/modals/BookingModal.jsx:59 | Any part of a day costs one night. |
| BookingModal.WholeDays | client/src/components/hotels/modals/BookingModal.jsx:59-60 | k whole days cost k nights. |
| BookingModal.EndBeforeStartIsNegative | client/src/components/hotels/modals/BookingModal.jsx:57-60 | A check-out a day or more before the check-in gives a negative total. |
| BookingModal.ValidFormTotalNonNegative | client/src/components/hotels/modals/BookingModal.jsx:55-61 | Once the form passes its schema, the total for a non-negative price is not negative. |
| BookingModal.GuestCountReadBack | client/src/components/hotels/modals/BookingModal.jsx:42 | `parseInt(String(count))` is the count, and NaN for the empty field. |
| BookingModal.OnSubmitPayload | client/src/components/hotels/modals/BookingModal.jsx:32-46 | The payload carries the room's id, the form's dates, special requests and guest count, and the dialog's total price. |
| BookingModal.PayloadInput | client/src/components/hotels/modals/BookingModal.jsx:38-45 | As server input the payload supplies no user and no status. |
| BookingModal.ValidFormIsSaved | client/src/components/hotels/modals/BookingModal.jsx:32-48 | A form that passes its schema, submitted by a signed-in user, is saved by the server. The booking is PENDING, for that room and user, with ordered dates, one to ten guests and the dialog's non-negative price. |
| PrivateRoute.Not | client/src/components/common/PrivateRoute.jsx:15 | `!v` is always a boolean. |
| PrivateRoute.StrictEquals | client/src/components/common/PrivateRoute.jsx:15 | Values of different types are never `===`. Two strings are `===` iff they are equal. |
| PrivateRoute.AdminCheckNeverFires | client/src/components/common/PrivateRoute.jsx:15 | `!user.role === 'admin'` is false for every user. |
| PrivateRoute.GuardAsWritten | client/src/components/common/PrivateRoute.jsx:5-22 | Loading renders nothing, and no user goes to `/login`. The children are rendered iff not loading and a user is signed in, admin-only or not. |
| PrivateRoute.Guard | client/src/components/common/PrivateRoute.jsx:15-17 | The intended guard renders the children iff not loading, signed in, and an admin where the route is admin-only. Signed-in non-admins on such a route go to `/`. |
| PrivateRoute.GuardsAgreeOutsideAdminCheck | client/src/components/common/PrivateRoute.jsx:5-22 | On routes that are not admin-only, and for admins, the two guards agree. |
| PrivateRoute.GuestReachesAdminRoute | client/src/components/common/PrivateRoute.jsx:15-17 | A signed-in guest on an admin-only route sees the page as written, and is sent home by the intended guard. |
| AddHotel.FileProblem | client/src/pages/AddHotel.jsx:84-99 | Stored URLs pass unchecked. A picked file passes iff it is at most 10 MiB and its type starts with `image/`. Otherwise the toast names the file and the failed check, size first. |
| AddHotel.FirstProblem | client/src/pages/AddHotel.jsx:84-101 | None iff every entry passes. Otherwise it is the toast of an entry that fails with every earlier entry passing. |
| AddHotel.FirstProblemAt | client/src/pages/AddHotel.jsx:84-99 | The first failing entry determines the toast. |
| AddHotel.ValidateFiles | client/src/pages/AddHotel.jsx:75-102 | True iff there are at most 12 entries in all and every entry passes (exactly 12 is allowed). Too many entries shows no toast; otherwise the toast is the first failing file's. |
| AddHotel.RemoveIndex | client/src/pages/AddHotel.jsx:109-111 | Deleting index i leaves the entries before and after it in order. An index outside the list removes nothing. |
| AddHotel.UploadSlots | client/src/pages/AddHotel.jsx:167-169 | Upload results hold no null. Together with the stored URLs there is one image per entry. |
| AddHotel.DropNullsOfResults | client/src/pages/AddHotel.jsx:169 | Filtering out the nulls of the callback results leaves exactly the picked files' results, in order. |
| AddHotel.MergeImagesAsWritten | client/src/pages/AddHotel.jsx:126-181 | As written: a failed request aborts. Otherwise the images are the stored URLs in order followed by the picked files' results, where a non-ok response is `undefined`. |
| AddHotel.RejectedUploadLeavesUndefined | client/src/pages/AddHotel.jsx:156-161 | A picked file whose response is not ok leaves `undefined` in the saved list. |
| AddHotel.OneRejectedImage | client/src/pages/AddHotel.jsx:156-169 | One refused image: the submit goes on and the list is `[undefined]`. |
| AddHotel.UploadedUrls | client/src/pages/AddHotel.jsx:163-164 | None iff some picked file was not uploaded; otherwise the uploaded URLs in order. |
| AddHotel.SubmittedImages | client/src/pages/AddHotel.jsx:181 | Intended: no list iff some upload fails. Otherwise one image per entry, the stored URLs first and in their order. |
| AddHotel.CorrectedAgreesWhenAllUploaded | client/src/pages/AddHotel.jsx:167-181 | When every upload succeeds, the intended list is the list as written, with no `undefined` in it. |
| AddHotel.RoomRequests | client/src/pages/AddHotel.jsx:203-229 | One request per row. When editing, a row with an id updates that room with the row's type, price and features, without touching its hotel or availability. Every other row creates a room with those three values under the hotel's id. Each request is the row's `RequestFor`, so `RoomRequestEffect` applies to it. |
| AddHotel.RoomRequestEffect | client/src/pages/AddHotel.jsx:206-228 | A row that passes the schema is either created by the server under the hotel, available, with the row's type, price and features; or an update that keeps the room's hotel and availability. |
| AddHotel.HandleSubmit | client/src/pages/AddHotel.jsx:113-262 | Nothing is sent when the image checks or an upload fail; otherwise the intended images and the room requests for the edited or new hotel. A checked problem always has a toast. |

## Left out

- `populate('userId')` in `hotel`/`hotels`: the model returns the stored owner id. The owner itself is what `Hotel.user` resolves.
- `createdAt`/`updatedAt` default to the clock, which the model does not have.
- ObjectIds are naturals from a counter. A malformed id string (a Mongoose cast error) is not modelled.
- server/src/models/User.js is not part of this model. `Db.User` carries the fields the resolvers read and write.
- The GraphQL type definitions are not part of this model. Input coercion is reduced to the datatypes' field types.
- The `Booking.status` field resolver returns the stored status unchanged.
- `genSaltSync` is the `salt` parameter of `Signup`.
- Token expiry (`expiresIn: '1h'`) belongs to the `verify` parameter, since an expired token simply does not verify.
- The `if (!savedRoom)` branch of `createRoom` cannot be reached, because `save()` resolves to the document or throws. Either way the caller sees `Internal server error`.
- Common.Message: the texts of `ValidationFailed` and `NullReference` are stand-ins. Mongoose's message names the model and the failing paths (`Booking validation failed: …`), and V8's names the property read (`Cannot read properties of null (reading 'hotelId')`).
- Collections are maps keyed by id, so the order in which `find()` lists documents is not modelled.
- Concurrent requests, `await` interleavings and double booking are not modelled; the server has no locking or overlap check.
- Logging, toasts other than those of `validateFiles`, `setIsLoading`/`setSubmitting` and `navigate` are UI side effects.
- Cloudinary `fetch`/`FormData` is the `upload` parameter. `Promise.all` runs the callbacks concurrently; the model keeps only the order of the results and of the stored URLs, which the source also keeps.
- An ok Cloudinary response without `secure_url` counts as an upload with that URL.
- The `createHotel`/`updateHotel` inputs `handleSubmit` sends are not modelled, and neither is a failure of those requests. In create mode the new hotel's id is the parameter `createdId`.
- `handleFileUpload`, the simulated progress timer and the form's initial-values effect are UI state.
- Numbers:
  - server prices and dates are integers (milliseconds);
  - the hotel form's numbers are reals;
  - there is no NaN, Infinity or floating-point rounding;
  - dates are never parsed from strings.
- The guest count field holds a whole number or nothing. Fractional counts are not modelled.
- The `.email()` pattern is the `isEmail` parameter.
- String lengths count characters, not UTF-16 code units.
- The schemas are modelled as acceptance only, without the per-field messages Yup produces.
- JsText.ParseInt: only what the booking dialog needs is proved about it (reading back `String(n)`); digits beyond what a double holds exactly are not rounded.
- HotelResolvers.HotelBookings: its meaning is stated by the lemmas `HotelBookingsExact` and `HotelBookingsMatchBookingHotel` rather than by its own contract.

## Findings

| source | as written | input that shows it | evidently intended | confidence | as-written member | corrected member |
|---|---|---|---|---|---|---|
| client/src/components/common/PrivateRoute.jsx:15 | `!user.role === 'admin'` compares a boolean with a string under `===`, so it is always false and `adminOnly` never redirects | a signed-in user with role `user` on an `adminOnly` route is shown the page | redirect a signed-in non-admin to `/` when `adminOnly` is set | not executed; high | PrivateRoute.GuardAsWritten, PrivateRoute.GuestReachesAdminRoute | PrivateRoute.Guard |
| client/src/pages/AddHotel.jsx:156-161 | a non-ok upload response makes the callback return `undefined`, which `filter(url => url !== null)` keeps, and the submit goes on to save the hotel | one picked image whose upload response is not ok: the hotel is saved with the image list `[undefined]` | stop the submit when any upload fails, as it does for a failed request | not executed; medium | AddHotel.MergeImagesAsWritten, AddHotel.OneRejectedImage | AddHotel.SubmittedImages, AddHotel.HandleSubmit |
