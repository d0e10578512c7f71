/** The logic of the hotel editor page: the checks on the image list
    before a submit, removing an image from the list, merging stored
    image URLs with freshly uploaded ones, and turning the room rows into
    `updateRoom`/`createRoom` requests. The Cloudinary upload is the
    parameter `upload`, one outcome per picked file. */
module AddHotel {
  import opened Common
  import opened RoomModel
  import HotelSchema

  const MaxFileSize := 10 * 1024 * 1024
  const MaxFiles := 12

  /** An entry of the image list: a URL the hotel already has, or a file
      picked in the browser with its size in bytes and its MIME type. */
  datatype FileEntry = ExistingUrl(url: string) | NewFile(name: string, size: nat, mimeType: string)

  /** The toast a file earns in `validateFiles`, if it fails a check. Stored
      URLs are not checked. */
  function FileProblem(f: FileEntry): (toast: Option<string>)
    ensures toast.None? <==> f.ExistingUrl? || (f.size <= MaxFileSize && StartsWith(f.mimeType, "image/"))
    ensures f.NewFile? && f.size > MaxFileSize ==> toast == Some("File \"" + f.name + "\" is too large")
    ensures f.NewFile? && f.size <= MaxFileSize && !StartsWith(f.mimeType, "image/") ==>
              toast == Some("File \"" + f.name + "\" is not an image")
  {
    match f
    case ExistingUrl(_) => None
    case NewFile(name, size, mimeType) =>
      if size > MaxFileSize then Some("File \"" + name + "\" is too large")
      else if !StartsWith(mimeType, "image/") then Some("File \"" + name + "\" is not an image")
      else None
  }

  /** The toast of the first entry that fails a check. */
  function FirstProblem(files: seq<FileEntry>): (toast: Option<string>)
    ensures toast.None? <==> forall i :: 0 <= i < |files| ==> FileProblem(files[i]).None?
    ensures toast.Some? ==> exists i :: && 0 <= i < |files| && toast == FileProblem(files[i])
                                        && forall j :: 0 <= j < i ==> FileProblem(files[j]).None?
  {
    if files == [] then None
    else if FileProblem(files[0]).Some? then FileProblem(files[0])
    else
      var rest := FirstProblem(files[1..]);
      assert rest.Some? ==> exists i :: && 0 <= i < |files| && rest == FileProblem(files[i])
                                        && forall j :: 0 <= j < i ==> FileProblem(files[j]).None?
      by {
        if rest.Some? {
          var k :| && 0 <= k < |files[1..]| && rest == FileProblem(files[1..][k])
                   && forall j :: 0 <= j < k ==> FileProblem(files[1..][j]).None?;
          assert rest == FileProblem(files[k + 1]);
          assert forall j :: 0 <= j < k + 1 ==> FileProblem(files[j]).None? by {
            forall j | 0 <= j < k + 1 ensures FileProblem(files[j]).None? {
              if j > 0 {
                assert files[j] == files[1..][j - 1];
              }
            }
          }
        }
      }
      rest
  }

  /** The first failing entry determines the toast. */
  lemma FirstProblemAt(files: seq<FileEntry>, i: int)
    requires 0 <= i < |files| && FileProblem(files[i]).Some?
    requires forall j :: 0 <= j < i ==> FileProblem(files[j]).None?
    ensures FirstProblem(files) == FileProblem(files[i])
  {
    var k :| && 0 <= k < |files| && FirstProblem(files) == FileProblem(files[k])
             && forall j :: 0 <= j < k ==> FileProblem(files[j]).None?;
    if k < i {
      assert FileProblem(files[k]).None?;
    }
  }

  /** `validateFiles(files, existingFiles)`: at most 12 entries in all, and
      every picked file an image of at most 10 MiB. The countdown failure
      shows no toast; otherwise the toast names the first failing file. */
  method ValidateFiles(files: seq<FileEntry>, existing: seq<FileEntry>) returns (ok: bool, toast: Option<string>)
    ensures ok <==> |files| + |existing| <= MaxFiles && forall i :: 0 <= i < |files| ==> FileProblem(files[i]).None?
    ensures |files| + |existing| > MaxFiles ==> toast == None
    ensures |files| + |existing| <= MaxFiles ==> toast == FirstProblem(files)
  {
    if |files| + |existing| > MaxFiles {
      return false, None;
    }
    for i := 0 to |files|
      invariant forall j :: 0 <= j < i ==> FileProblem(files[j]).None?
    {
      var file := files[i];
      if file.ExistingUrl? {
        continue;
      }
      if file.size > MaxFileSize {
        FirstProblemAt(files, i);
        return false, Some("File \"" + file.name + "\" is too large");
      }
      if !StartsWith(file.mimeType, "image/") {
        FirstProblemAt(files, i);
        return false, Some("File \"" + file.name + "\" is not an image");
      }
    }
    return true, None;
  }

  /** `handleDeleteFile(i)`: the list without the entry at index `i`. */
  function RemoveIndex<T>(s: seq<T>, i: int): (r: seq<T>)
    ensures 0 <= i < |s| ==> r == s[..i] + s[i + 1..]
    ensures !(0 <= i < |s|) ==> r == s
  {
    if s == [] then []
    else
      var last := |s| - 1;
      var kept := RemoveIndex(s[..last], i);
      assert 0 <= i < last ==> s[..last][..i] == s[..i] && s[..last][i + 1..] + [s[last]] == s[i + 1..];
      assert s[..last] + [s[last]] == s;
      kept + (if i == last then [] else [s[last]])
  }

  /** What a picked file's upload ends in: a `secure_url`, a response that
      is not ok, or a failed request (the promise rejects). */
  datatype UploadOutcome = Uploaded(secureUrl: string) | Rejected | Threw

  /** An element of the array `Promise.all` yields. */
  datatype Slot = Null | Undefined | Url(url: string)

  /** The stored URLs of the list, in order. */
  function ExistingUrls(files: seq<FileEntry>): (urls: seq<string>)
    ensures |urls| <= |files|
  {
    if files == [] then []
    else
      var init := ExistingUrls(files[..|files| - 1]);
      match files[|files| - 1]
      case ExistingUrl(url) => init + [url]
      case NewFile(_, _, _) => init
  }

  /** What the upload callback returns for a picked file: its URL, or
      `undefined` when the response is not ok. */
  function SlotOf(o: UploadOutcome): Slot {
    match o
    case Uploaded(url) => Url(url)
    case _ => Undefined
  }

  /** The array the upload callbacks resolve to: `null` for a stored URL. */
  function ResultSlots(files: seq<FileEntry>, upload: FileEntry -> UploadOutcome): (slots: seq<Slot>)
    ensures |slots| == |files|
  {
    if files == [] then []
    else
      var f := files[|files| - 1];
      ResultSlots(files[..|files| - 1], upload) + [if f.ExistingUrl? then Null else SlotOf(upload(f))]
  }

  /** The slots of the picked files alone, in order. */
  function UploadSlots(files: seq<FileEntry>, upload: FileEntry -> UploadOutcome): (slots: seq<Slot>)
    ensures forall k :: 0 <= k < |slots| ==> slots[k] != Null
    ensures |ExistingUrls(files)| + |slots| == |files|
  {
    if files == [] then []
    else
      var f := files[|files| - 1];
      UploadSlots(files[..|files| - 1], upload) + (if f.ExistingUrl? then [] else [SlotOf(upload(f))])
  }

  /** `results.filter(url => url !== null)`. */
  function DropNulls(slots: seq<Slot>): (kept: seq<Slot>)
    ensures forall k :: 0 <= k < |kept| ==> kept[k] != Null
  {
    if slots == [] then []
    else
      var last := slots[|slots| - 1];
      DropNulls(slots[..|slots| - 1]) + (if last == Null then [] else [last])
  }

  lemma {:induction false} DropNullsOfResults(files: seq<FileEntry>, upload: FileEntry -> UploadOutcome)
    ensures DropNulls(ResultSlots(files, upload)) == UploadSlots(files, upload)
  {
    if files != [] {
      var slots := ResultSlots(files, upload);
      assert slots[..|slots| - 1] == ResultSlots(files[..|files| - 1], upload);
      DropNullsOfResults(files[..|files| - 1], upload);
    }
  }

  /** Stored URLs as array elements. */
  function Wrap(urls: seq<string>): (slots: seq<Slot>)
    ensures |slots| == |urls| && forall k :: 0 <= k < |urls| ==> slots[k] == Url(urls[k])
  {
    seq(|urls|, k requires 0 <= k < |urls| => Url(urls[k]))
  }

  lemma WrapAppend(a: seq<string>, b: seq<string>)
    ensures Wrap(a + b) == Wrap(a) + Wrap(b)
  {
    assert forall k :: 0 <= k < |a + b| ==> Wrap(a + b)[k] == (Wrap(a) + Wrap(b))[k];
  }

  /** Some picked file's upload request fails outright. */
  predicate SomeUploadThrows(files: seq<FileEntry>, upload: FileEntry -> UploadOutcome) {
    exists i :: 0 <= i < |files| && files[i].NewFile? && upload(files[i]).Threw?
  }

  /** The image list `handleSubmit` builds, as written: the stored URLs
      collected while the callbacks run, then the callback results without
      the nulls. A failed request aborts the submit (`None`); a response
      that is not ok leaves `undefined` in the list and the submit goes on. */
  method MergeImagesAsWritten(files: seq<FileEntry>, upload: FileEntry -> UploadOutcome)
    returns (images: Option<seq<Slot>>)
    ensures images.None? <==> SomeUploadThrows(files, upload)
    ensures images.Some? ==> images.value == Wrap(ExistingUrls(files)) + UploadSlots(files, upload)
  {
    var fromCloudinary: seq<string> := [];
    var results: seq<Slot> := [];
    var threw := false;
    for i := 0 to |files|
      invariant fromCloudinary == ExistingUrls(files[..i])
      invariant results == ResultSlots(files[..i], upload)
      invariant threw <==> exists j :: 0 <= j < i && files[j].NewFile? && upload(files[j]).Threw?
    {
      assert files[..i + 1][..i] == files[..i];
      var file := files[i];
      if file.ExistingUrl? {
        fromCloudinary := fromCloudinary + [file.url];
        results := results + [Null];
      } else {
        var outcome := upload(file);
        if outcome.Threw? {
          threw := true;
        }
        results := results + [SlotOf(outcome)];
      }
    }
    assert files[..|files|] == files;
    if threw {
      return None;
    }
    DropNullsOfResults(files, upload);
    images := Some(Wrap(fromCloudinary) + DropNulls(results));
  }

  /** A picked file whose upload response is not ok ends up as `undefined`
      in the list the hotel is saved with. */
  lemma {:induction false} RejectedUploadLeavesUndefined(files: seq<FileEntry>, upload: FileEntry -> UploadOutcome, i: int)
    requires 0 <= i < |files| && files[i].NewFile? && upload(files[i]).Rejected?
    ensures Undefined in UploadSlots(files, upload)
  {
    var init := files[..|files| - 1];
    if i < |files| - 1 {
      assert init[i] == files[i];
      RejectedUploadLeavesUndefined(init, upload, i);
    }
  }

  /** The concrete case: one picked image whose upload is refused is saved
      as a list holding one `undefined`. */
  lemma OneRejectedImage()
    ensures var files := [NewFile("pool.jpg", 1000, "image/jpeg")];
            var upload := (f: FileEntry) => Rejected;
            && !SomeUploadThrows(files, upload)
            && Wrap(ExistingUrls(files)) + UploadSlots(files, upload) == [Undefined]
  {
    var files := [NewFile("pool.jpg", 1000, "image/jpeg")];
    assert files[..0] == [];
  }

  /** The URLs of the uploaded files in order, or `None` when any picked
      file was not uploaded. */
  function UploadedUrls(files: seq<FileEntry>, upload: FileEntry -> UploadOutcome): (urls: Option<seq<string>>)
    ensures urls.None? <==> exists i :: 0 <= i < |files| && files[i].NewFile? && !upload(files[i]).Uploaded?
    ensures urls.Some? ==> Wrap(urls.value) == UploadSlots(files, upload)
  {
    if files == [] then Some([])
    else
      var init := files[..|files| - 1];
      var f := files[|files| - 1];
      var prefix := UploadedUrls(init, upload);
      assert forall i :: 0 <= i < |init| ==> init[i] == files[i];
      if prefix.None? then None
      else if f.ExistingUrl? then prefix
      else if upload(f).Uploaded? then
        assert Wrap(prefix.value + [upload(f).secureUrl]) == Wrap(prefix.value) + [Url(upload(f).secureUrl)];
        Some(prefix.value + [upload(f).secureUrl])
      else None
  }

  /** The image list the submit is meant to save: the stored URLs, then the
      uploaded ones, or nothing at all (the submit stops) when an upload
      fails in either way. */
  function SubmittedImages(files: seq<FileEntry>, upload: FileEntry -> UploadOutcome): (images: Option<seq<string>>)
    ensures images.None? <==> exists i :: 0 <= i < |files| && files[i].NewFile? && !upload(files[i]).Uploaded?
    ensures images.Some? ==> |images.value| == |files|
    ensures images.Some? ==> images.value[..|ExistingUrls(files)|] == ExistingUrls(files)
  {
    match UploadedUrls(files, upload)
    case None => None
    case Some(urls) =>
      assert (ExistingUrls(files) + urls)[..|ExistingUrls(files)|] == ExistingUrls(files);
      Some(ExistingUrls(files) + urls)
  }

  /** When every upload succeeds, the intended list is the list as written,
      which then holds no `undefined`. */
  lemma CorrectedAgreesWhenAllUploaded(files: seq<FileEntry>, upload: FileEntry -> UploadOutcome)
    requires forall i :: 0 <= i < |files| && files[i].NewFile? ==> upload(files[i]).Uploaded?
    ensures !SomeUploadThrows(files, upload)
    ensures SubmittedImages(files, upload).Some?
    ensures Wrap(SubmittedImages(files, upload).value) == Wrap(ExistingUrls(files)) + UploadSlots(files, upload)
    ensures Undefined !in Wrap(ExistingUrls(files)) + UploadSlots(files, upload)
  {
    AllUploadedSubmits(files, upload);
    AllUploadedNoUndefined(files, upload);
  }

  lemma AllUploadedSubmits(files: seq<FileEntry>, upload: FileEntry -> UploadOutcome)
    requires forall i :: 0 <= i < |files| && files[i].NewFile? ==> upload(files[i]).Uploaded?
    ensures SubmittedImages(files, upload).Some?
    ensures Wrap(SubmittedImages(files, upload).value) == Wrap(ExistingUrls(files)) + UploadSlots(files, upload)
  {
    WrapAppend(ExistingUrls(files), UploadedUrls(files, upload).value);
  }

  lemma AllUploadedNoUndefined(files: seq<FileEntry>, upload: FileEntry -> UploadOutcome)
    requires forall i :: 0 <= i < |files| && files[i].NewFile? ==> upload(files[i]).Uploaded?
    ensures Undefined !in Wrap(ExistingUrls(files)) + UploadSlots(files, upload)
  {
    var urls := UploadedUrls(files, upload).value;
    WrapHasNoUndefined(ExistingUrls(files));
    WrapHasNoUndefined(urls);
  }

  lemma WrapHasNoUndefined(urls: seq<string>)
    ensures Undefined !in Wrap(urls)
  {
    var slots := Wrap(urls);
    assert forall k :: 0 <= k < |slots| ==> slots[k].Url?;
  }

  /** A room row of the form; rows of a stored room carry its id. */
  datatype RoomForm = RoomForm(id: Option<Id>, roomType: string, price: int, features: seq<string>)

  datatype RoomRequest = UpdateRoomRequest(id: Id, patch: RoomPatch) | CreateRoomRequest(input: RoomInput)

  function RequestFor(room: RoomForm, hotelId: Id, editing: bool): RoomRequest {
    if editing && room.id.Some? then
      UpdateRoomRequest(room.id.value, RoomPatch(None, Some(room.roomType), Some(room.price), Some(room.features), None))
    else
      CreateRoomRequest(RoomInput(Some(hotelId), Some(room.roomType), Some(room.price), Some(room.features), None))
  }

  /** The room requests of a submit: when editing, a row with an id updates
      that room and any other row creates a room under the edited hotel;
      for a new hotel every row creates a room under the hotel just made. */
  function RoomRequests(rooms: seq<RoomForm>, hotelId: Id, editing: bool): (reqs: seq<RoomRequest>)
    ensures |reqs| == |rooms|
    ensures forall i :: 0 <= i < |rooms| ==> (reqs[i].UpdateRoomRequest? <==> editing && rooms[i].id.Some?)
    ensures forall i :: 0 <= i < |rooms| && reqs[i].UpdateRoomRequest? ==>
              && reqs[i].id == rooms[i].id.value
              && reqs[i].patch == RoomPatch(None, Some(rooms[i].roomType), Some(rooms[i].price),
                                            Some(rooms[i].features), None)
    ensures forall i :: 0 <= i < |rooms| && reqs[i].CreateRoomRequest? ==>
              reqs[i].input == RoomInput(Some(hotelId), Some(rooms[i].roomType), Some(rooms[i].price),
                                         Some(rooms[i].features), None)
    ensures forall i :: 0 <= i < |rooms| ==> reqs[i] == RequestFor(rooms[i], hotelId, editing)
  {
    seq(|rooms|, i requires 0 <= i < |rooms| => RequestFor(rooms[i], hotelId, editing))
  }

  /** A row that passes the hotel schema becomes a room the server saves
      under the hotel, available, with the row's type, price and features;
      an update keeps the stored room's hotel and availability. */
  lemma RoomRequestEffect(room: RoomForm, hotelId: Id, editing: bool, id: Id, stored: Room)
    requires HotelSchema.RoomOk(HotelSchema.RoomValues(room.roomType, Some(room.price as real), room.features))
    ensures match RequestFor(room, hotelId, editing)
      case CreateRoomRequest(input) =>
        NewRoom(id, input) == Ok(Room(id, hotelId, room.roomType, room.price, room.features, true))
      case UpdateRoomRequest(_, patch) =>
        PatchRoom(stored, patch) == stored.(roomType := room.roomType, price := room.price, features := room.features)
  {
  }

  datatype Submission = Submission(images: seq<string>, rooms: seq<RoomRequest>)

  /** `handleSubmit` with the intended image merge: nothing is sent when the
      image list fails its checks or an upload fails; otherwise the images
      and the room requests for the edited hotel, or for the hotel the
      submit creates (`createdId`). */
  method HandleSubmit(files: seq<FileEntry>, upload: FileEntry -> UploadOutcome, rooms: seq<RoomForm>,
                      hotelId: Option<Id>, createdId: Id)
    returns (r: Option<Submission>, toast: Option<string>)
    ensures r.None? <==> || !(|files| <= MaxFiles && FirstProblem(files).None?)
                         || SubmittedImages(files, upload).None?
    ensures r.Some? ==> && r.value.images == SubmittedImages(files, upload).value
                        && r.value.rooms == RoomRequests(rooms, hotelId.GetOr(createdId), hotelId.Some?)
    ensures |files| <= MaxFiles ==> (FirstProblem(files).Some? <==> toast.Some? && r.None?)
  {
    var ok;
    ok, toast := ValidateFiles(files, []);
    if !ok {
      return None, toast;
    }
    var images := SubmittedImages(files, upload);
    if images.None? {
      return None, None;
    }
    r := Some(Submission(images.value, RoomRequests(rooms, hotelId.GetOr(createdId), hotelId.Some?)));
  }
}
