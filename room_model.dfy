/** The Room document: required hotel reference, type and price, the
    `features` list and the `isAvailable` default. */
module RoomModel {
  import opened Common

  datatype Room = Room(
    id: Id,
    hotelId: Id,
    roomType: string,
    price: int,
    features: seq<string>,
    isAvailable: bool)

  datatype RoomInput = RoomInput(
    hotelId: Option<Id>,
    roomType: Option<string>,
    price: Option<int>,
    features: Option<seq<string>>,
    isAvailable: Option<bool>)

  predicate RoomRequired(input: RoomInput) {
    input.hotelId.Some? && input.roomType.Some? && |input.roomType.value| > 0 && input.price.Some?
  }

  /** `new Room(input).save()`. The hotel reference is stored as given;
      Mongoose does not check that it names a hotel. */
  function NewRoom(id: Id, input: RoomInput): (r: Result<Room>)
    ensures r.Ok? <==> RoomRequired(input)
    ensures r.Err? ==> r.error == ValidationFailed
    ensures r.Ok? ==> && r.value.id == id
                      && Some(r.value.hotelId) == input.hotelId
                      && Some(r.value.roomType) == input.roomType
                      && Some(r.value.price) == input.price
                      && r.value.features == input.features.GetOr([])
    ensures r.Ok? ==> r.value.isAvailable == (input.isAvailable != Some(false))
  {
    if !RoomRequired(input) then Err(ValidationFailed)
    else Ok(Room(id, input.hotelId.value, input.roomType.value, input.price.value,
                 input.features.GetOr([]), input.isAvailable.GetOr(true)))
  }

  datatype RoomPatch = RoomPatch(
    hotelId: Option<Id>,
    roomType: Option<string>,
    price: Option<int>,
    features: Option<seq<string>>,
    isAvailable: Option<bool>)

  /** `findByIdAndUpdate` on one room: supplied fields replace stored ones. */
  function PatchRoom(rm: Room, p: RoomPatch): (r: Room)
    ensures r.id == rm.id
    ensures p.hotelId.Some? ==> r.hotelId == p.hotelId.value
    ensures p.hotelId.None? ==> r.hotelId == rm.hotelId
    ensures p.roomType.Some? ==> r.roomType == p.roomType.value
    ensures p.roomType.None? ==> r.roomType == rm.roomType
    ensures p.features.Some? ==> r.features == p.features.value
    ensures p.features.None? ==> r.features == rm.features
    ensures p.price.Some? ==> r.price == p.price.value
    ensures p.price.None? ==> r.price == rm.price
    ensures p.isAvailable.Some? ==> r.isAvailable == p.isAvailable.value
    ensures p.isAvailable.None? ==> r.isAvailable == rm.isAvailable
  {
    rm.(hotelId := p.hotelId.GetOr(rm.hotelId),
        roomType := p.roomType.GetOr(rm.roomType),
        price := p.price.GetOr(rm.price),
        features := p.features.GetOr(rm.features),
        isAvailable := p.isAvailable.GetOr(rm.isAvailable))
  }

  /** Applying the same patch twice is applying it once. */
  lemma PatchRoomIdempotent(rm: Room, p: RoomPatch)
    ensures PatchRoom(PatchRoom(rm, p), p) == PatchRoom(rm, p)
  {
  }
}
