/** The Hotel document: required name, price and owner, the `isDeleted`
    and `totalRooms` defaults, and Mongoose's strict mode, which drops
    input fields the schema does not declare. */
module HotelModel {
  import opened Common

  datatype Hotel = Hotel(
    id: Id,
    name: string,
    description: Option<string>,
    price: int,
    isDeleted: bool,
    amenities: seq<string>,
    images: seq<string>,
    userId: Id,
    address: Option<string>,
    phoneNumber: Option<string>,
    totalRooms: int)

  /** The hotel input object. `availableRooms` is what the client sends and
      the GraphQL input accepts, but the schema has no such path. */
  datatype HotelInput = HotelInput(
    name: Option<string>,
    description: Option<string>,
    price: Option<int>,
    isDeleted: Option<bool>,
    amenities: Option<seq<string>>,
    images: Option<seq<string>>,
    userId: Option<Id>,
    address: Option<string>,
    phoneNumber: Option<string>,
    totalRooms: Option<int>,
    availableRooms: Option<int>)

  /** Mongoose's `required` on a String path also rejects the empty string. */
  predicate RequiredString(s: Option<string>) {
    s.Some? && |s.value| > 0
  }

  predicate HotelRequired(input: HotelInput) {
    RequiredString(input.name) && input.price.Some? && input.userId.Some?
  }

  /** `new Hotel(input).save()`. */
  function NewHotel(id: Id, input: HotelInput): (r: Result<Hotel>)
    ensures r.Ok? <==> HotelRequired(input)
    ensures r.Err? ==> r.error == ValidationFailed
    ensures r.Ok? ==> && r.value.id == id
                      && Some(r.value.name) == input.name && r.value.name != ""
                      && Some(r.value.price) == input.price
                      && Some(r.value.userId) == input.userId
                      && r.value.description == input.description
                      && r.value.address == input.address
                      && r.value.phoneNumber == input.phoneNumber
                      && r.value.amenities == input.amenities.GetOr([])
                      && r.value.images == input.images.GetOr([])
    ensures r.Ok? ==> r.value.isDeleted == (input.isDeleted == Some(true))
    ensures r.Ok? ==> r.value.totalRooms == (if input.totalRooms.Some? then input.totalRooms.value else 0)
  {
    if !HotelRequired(input) then Err(ValidationFailed)
    else Ok(Hotel(id, input.name.value, input.description, input.price.value,
                  input.isDeleted.GetOr(false), input.amenities.GetOr([]),
                  input.images.GetOr([]), input.userId.value, input.address,
                  input.phoneNumber, input.totalRooms.GetOr(0)))
  }

  /** The number of rooms a client asks for never reaches the document:
      two inputs that differ only in `availableRooms` build the same hotel. */
  lemma AvailableRoomsDropped(id: Id, input: HotelInput, n: Option<int>)
    ensures NewHotel(id, input.(availableRooms := n)) == NewHotel(id, input)
  {
  }

  datatype HotelPatch = HotelPatch(
    name: Option<string>,
    description: Option<string>,
    price: Option<int>,
    isDeleted: Option<bool>,
    amenities: Option<seq<string>>,
    images: Option<seq<string>>,
    userId: Option<Id>,
    address: Option<string>,
    phoneNumber: Option<string>,
    totalRooms: Option<int>)

  /** `findByIdAndUpdate` on one hotel: supplied fields replace stored ones. */
  function PatchHotel(h: Hotel, p: HotelPatch): (r: Hotel)
    ensures r.id == h.id
    ensures p.name.Some? ==> r.name == p.name.value
    ensures p.name.None? ==> r.name == h.name
    ensures p.price.Some? ==> r.price == p.price.value
    ensures p.price.None? ==> r.price == h.price
    ensures p.description.Some? ==> r.description == p.description
    ensures p.description.None? ==> r.description == h.description
    ensures p.isDeleted.Some? ==> r.isDeleted == p.isDeleted.value
    ensures p.isDeleted.None? ==> r.isDeleted == h.isDeleted
    ensures p.amenities.Some? ==> r.amenities == p.amenities.value
    ensures p.amenities.None? ==> r.amenities == h.amenities
    ensures p.images.Some? ==> r.images == p.images.value
    ensures p.images.None? ==> r.images == h.images
    ensures p.userId.Some? ==> r.userId == p.userId.value
    ensures p.userId.None? ==> r.userId == h.userId
    ensures p.address.Some? ==> r.address == p.address
    ensures p.address.None? ==> r.address == h.address
    ensures p.phoneNumber.Some? ==> r.phoneNumber == p.phoneNumber
    ensures p.phoneNumber.None? ==> r.phoneNumber == h.phoneNumber
    ensures p.totalRooms.Some? ==> r.totalRooms == p.totalRooms.value
    ensures p.totalRooms.None? ==> r.totalRooms == h.totalRooms
  {
    Hotel(h.id, p.name.GetOr(h.name), p.description.OrElse(h.description), p.price.GetOr(h.price),
          p.isDeleted.GetOr(h.isDeleted), p.amenities.GetOr(h.amenities), p.images.GetOr(h.images),
          p.userId.GetOr(h.userId), p.address.OrElse(h.address), p.phoneNumber.OrElse(h.phoneNumber),
          p.totalRooms.GetOr(h.totalRooms))
  }

  function NamePatch(name: string): HotelPatch {
    HotelPatch(Some(name), None, None, None, None, None, None, None, None, None)
  }

  const EmptyHotelPatch := HotelPatch(None, None, None, None, None, None, None, None, None, None)

  /** An empty patch leaves the hotel as it was. */
  lemma EmptyHotelPatchIdentity(h: Hotel)
    ensures PatchHotel(h, EmptyHotelPatch) == h
  {
  }

  /** A name-only update changes the name and nothing else. */
  lemma NamePatchChangesOnlyName(h: Hotel, name: string)
    ensures PatchHotel(h, NamePatch(name)) == h.(name := name)
  {
  }
}
