/** The hotel form's Yup schema, rooms included. Form numbers are reals
    so that `integer()` has something to reject; an empty number field is
    `None`. */
module HotelSchema {
  import opened Common
  import opened JsText

  datatype RoomValues = RoomValues(roomType: string, price: Option<real>, features: seq<string>)

  datatype HotelValues = HotelValues(
    name: string,
    description: string,
    price: Option<real>,
    availableRooms: Option<real>,
    amenities: seq<string>,
    images: seq<string>,
    address: string,
    phoneNumber: string,
    rooms: seq<RoomValues>)

  /** `number().required().positive()`. */
  predicate PositiveNumber(x: Option<real>) {
    x.Some? && x.value > 0.0
  }

  /** `Number.isInteger`. */
  predicate IsInteger(x: real) {
    x.Floor as real == x
  }

  /** A character of the class `[\d\s-]`. */
  predicate IsPhoneChar(c: char) {
    IsDecimalDigit(c) || IsWhitespace(c) || c == '-'
  }

  predicate AllPhoneChars(s: string) {
    forall i :: 0 <= i < |s| ==> IsPhoneChar(s[i])
  }

  /** Scans a run of `[\d\s-]` characters to the end of the string. */
  function ScanPhoneChars(s: string): (ok: bool)
    ensures ok <==> AllPhoneChars(s)
  {
    if s == [] then true
    else IsPhoneChar(s[0]) && ScanPhoneChars(s[1..])
  }

  /** `/^\+?[\d\s-]+$/.test(s)`, run as the engine does: take the `+` if
      there is one, then at least one class character up to the end. Giving
      the `+` back cannot help, since `+` is not in the class. */
  function PhoneMatches(s: string): bool {
    var body := if s != [] && s[0] == '+' then s[1..] else s;
    body != [] && ScanPhoneChars(body)
  }

  /** The matcher accepts exactly the strings the pattern describes: one or
      more class characters, with or without a single leading `+`. */
  lemma {:induction false} PhoneMatchesPattern(s: string)
    ensures PhoneMatches(s) <==> || (s != [] && AllPhoneChars(s))
                                 || (|s| >= 2 && s[0] == '+' && AllPhoneChars(s[1..]))
  {
    if s != [] && s[0] == '+' {
      assert !IsPhoneChar(s[0]);
      assert ScanPhoneChars(s[1..]) <==> AllPhoneChars(s[1..]);
    } else {
      assert ScanPhoneChars(s) <==> AllPhoneChars(s);
    }
  }

  /** A `+` can only be the first character of an accepted phone number. */
  lemma PhonePlusOnlyFirst(s: string, i: int)
    requires PhoneMatches(s) && 0 < i < |s|
    ensures s[i] != '+'
  {
    var body := if s[0] == '+' then s[1..] else s;
    var j := if s[0] == '+' then i - 1 else i;
    assert body[j] == s[i];
    assert IsPhoneChar(body[j]);
  }

  /** Each room needs a type and a positive price; its features are optional. */
  predicate RoomOk(r: RoomValues) {
    r.roomType != "" && PositiveNumber(r.price)
  }

  /** Whether the form passes the schema. */
  function Validate(v: HotelValues): (ok: bool)
    ensures ok <==> && v.name != "" && v.address != ""
                    && v.price.Some? && v.price.value > 0.0
                    && v.availableRooms.Some? && v.availableRooms.value.Floor as real == v.availableRooms.value
                    && v.availableRooms.value >= 1.0
                    && v.phoneNumber != "" && PhoneMatches(v.phoneNumber)
                    && forall i :: 0 <= i < |v.rooms| ==> v.rooms[i].roomType != "" && PositiveNumber(v.rooms[i].price)
  {
    assert (forall r :: r in v.rooms ==> RoomOk(r)) <==> forall i :: 0 <= i < |v.rooms| ==> RoomOk(v.rooms[i]);
    && v.name != ""
    && PositiveNumber(v.price)
    && v.availableRooms.Some? && IsInteger(v.availableRooms.value) && v.availableRooms.value >= 1.0
    && v.address != ""
    && PhoneMatches(v.phoneNumber) && v.phoneNumber != ""
    && forall r :: r in v.rooms ==> RoomOk(r)
  }

  /** The description, amenities and images never decide acceptance. */
  lemma OptionalFieldsNeverMatter(v: HotelValues, description: string, amenities: seq<string>,
                                  images: seq<string>)
    ensures Validate(v.(description := description, amenities := amenities, images := images)) == Validate(v)
  {
  }
}
