/**
 * The decisions of the cabin service (`src/services/apiCabins.js`): where a
 * cabin's image is stored, when a new image is uploaded, when a failed upload
 * rolls the row back, when an old image is deleted, and what a cabin lookup
 * returns. The database table and the image bucket are the fields of a
 * `CabinStore`; their failures are parameters of the operations.
 */
module ApiCabins {
  import opened Wrappers
  import opened Text
  import BookingStatus
  import CreateBookingForm
  import opened CreateCabinForm

  /** A row of the cabins table. */
  datatype CabinRow = CabinRow(
    name: string,
    maxCapacity: int,
    regularPrice: int,
    discount: int,
    description: string,
    image: string,
    isDuplicated: bool)

  /** A row of the bookings table, as far as a cabin lookup selects it. */
  datatype BookingRow = BookingRow(cabinId: int, startDate: int, endDate: int, status: string)

  /** `getCabin`: `[]` for a missing id, otherwise the cabin with its bookings that are not checked out. */
  datatype CabinLookup = NoCabin | Found(cabin: CabinRow, bookings: seq<BookingRow>)

  /** The errors the cabin service throws. */
  datatype CabinError = CouldNotBeCreated | ImageNotUploaded | CouldNotBeDeleted | CouldNotBeLoaded

  /** The message each error is thrown with. */
  function Message(e: CabinError): string {
    match e
    case CouldNotBeCreated => "Cabin could not be created"
    case ImageNotUploaded => "Image could not be uploaded so cabin was not created"
    case CouldNotBeDeleted => "Cabin could not be deleted"
    case CouldNotBeLoaded => "Cabin could not be loaded"
  }

  /** JavaScript truthiness of an id. */
  predicate Truthy(id: Option<int>) {
    id.Some? && id.value != 0
  }

  /**
   * The name a new image is stored under: the random number, a dash and the
   * file name, with every '/' removed.
   */
  function ImageName(random: nat, fileName: string): (name: string)
    ensures '/' !in name
  {
    RemoveAll(NatToDecimal(random) + "-" + fileName, '/')
  }

  /** The public folder of the image bucket. */
  function BucketUrl(supabaseUrl: string): string {
    supabaseUrl + "/storage/v1/object/public/cabin-images"
  }

  /** `newCabin.image.name`: a stored path has no name, which prints as "undefined". */
  function FileName(image: SubmittedImage): string {
    match image
    case NewFile(file) => file.name
    case ExistingPath(_) => "undefined"
  }

  /**
   * The path written to the row: a stored path unchanged, a new file under
   * the bucket's public folder (`BucketUrl` of the project URL).
   */
  function ImagePath(bucketUrl: string, image: SubmittedImage, imageName: string): (path: string)
    ensures image.ExistingPath? ==> path == image.path
    ensures image.NewFile? ==> path == bucketUrl + "/" + imageName
  {
    match image
    case ExistingPath(p) => p
    case NewFile(_) => bucketUrl + "/" + imageName
  }

  /** `deleteCabinImage` removes the last '/'-segment of a path: for a path built above that is the image name. */
  lemma ImagePathRoundTrip(bucketUrl: string, file: File, random: nat)
    ensures var name := ImageName(random, file.name);
      LastSegment(ImagePath(bucketUrl, NewFile(file), name)) == name
  {
    var name := ImageName(random, file.name);
    LastSegmentOfJoin(bucketUrl, name);
  }

  /** The old image goes only when editing a cabin that was not duplicated and a new file was uploaded. */
  predicate DeletesOldImage(wasDuplicated: bool, id: Option<int>, hasImagePath: bool) {
    !wasDuplicated && Truthy(id) && !hasImagePath
  }

  /** The row written for a cabin: the built path, and a duplicate given a new file is no longer a duplicate. */
  function RowOf(newCabin: CabinPayload, imagePath: string): (row: CabinRow)
    ensures row.isDuplicated <==> newCabin.isDuplicated && newCabin.image.ExistingPath?
  {
    CabinRow(
      newCabin.name, newCabin.maxCapacity, newCabin.regularPrice, newCabin.discount, newCabin.description,
      imagePath, newCabin.isDuplicated && newCabin.image.ExistingPath?)
  }

  /** The name a new file of the cabin is uploaded under. */
  function UploadName(newCabin: CabinPayload, random: nat): string {
    ImageName(random, FileName(newCabin.image))
  }

  /** The row `createUpdateCabin` writes, given the bucket's public folder. */
  function WrittenRow(bucketUrl: string, newCabin: CabinPayload, random: nat): CabinRow {
    RowOf(newCabin, ImagePath(bucketUrl, newCabin.image, UploadName(newCabin, random)))
  }

  /** The bookings of a cabin that count for new bookings: those not checked out, in table order. */
  function OpenBookings(bookings: seq<BookingRow>, cabinId: int): (r: seq<BookingRow>)
    ensures forall b :: b in r <==> b in bookings && b.cabinId == cabinId && b.status != BookingStatus.CheckedOut
  {
    if bookings == [] then []
    else
      (if bookings[0].cabinId == cabinId && bookings[0].status != BookingStatus.CheckedOut then [bookings[0]] else [])
      + OpenBookings(bookings[1..], cabinId)
  }

  /** The cabin snapshot the booking form checks a draft against. */
  function Snapshot(row: CabinRow, bookings: seq<BookingRow>): (c: CreateBookingForm.Cabin)
    ensures |c.bookings| == |bookings|
    ensures forall i :: 0 <= i < |bookings| ==>
      c.bookings[i] == CreateBookingForm.Stay(bookings[i].startDate, bookings[i].endDate)
  {
    CreateBookingForm.Cabin(
      row.regularPrice, row.discount, row.maxCapacity,
      seq(|bookings|, i requires 0 <= i < |bookings| => CreateBookingForm.Stay(bookings[i].startDate, bookings[i].endDate)))
  }

  /** The stored state the cabin operations change: the cabins table, the image bucket and the next id. */
  datatype Storage = Storage(table: map<int, CabinRow>, images: set<string>, nextId: int)

  /** Ids are positive and below the next id to hand out. */
  predicate ValidStorage(st: Storage) {
    st.nextId >= 1 && forall id :: id in st.table ==> 1 <= id < st.nextId
  }

  /**
   * What `createUpdateCabin` returns and leaves behind: write the row (insert
   * for a falsy id, update by id otherwise), upload a new file and roll the
   * row back when that fails, then delete the old image when editing a
   * cabin that was not duplicated with a new file.
   */
  function CreateUpdate(
    st: Storage, bucketUrl: string, newCabin: CabinPayload, id: Option<int>, currentImage: Option<string>,
    random: nat, writeFails: bool, uploadFails: bool): (res: (Result<(int, CabinRow), CabinError>, Storage))
    ensures res.0.Success? ==> res.0.value.0 in res.1.table && res.1.table[res.0.value.0] == res.0.value.1
    ensures res.0.Failure? ==> res.1.images == st.images
    ensures res.1.nextId == st.nextId || res.1.nextId == st.nextId + 1
  {
    var row := WrittenRow(bucketUrl, newCabin, random);
    if writeFails || (Truthy(id) && id.value !in st.table) then (Failure(CouldNotBeCreated), st)
    else
      var rowId := if Truthy(id) then id.value else st.nextId;
      var next := if Truthy(id) then st.nextId else st.nextId + 1;
      var written := st.table[rowId := row];
      var name := UploadName(newCabin, random);
      if newCabin.image.NewFile? && (uploadFails || name in st.images) then
        (Failure(ImageNotUploaded), Storage(written - {rowId}, st.images, next))
      else
        var uploaded := if newCabin.image.NewFile? then st.images + {name} else st.images;
        var images :=
          if DeletesOldImage(newCabin.isDuplicated, id, newCabin.image.ExistingPath?) && currentImage.Some?
          then uploaded - {LastSegment(currentImage.value)}
          else uploaded;
        (Success((rowId, row)), Storage(written, images, next))
  }

  /**
   * What `deleteCabin` returns and leaves behind: the row goes unless the
   * delete fails, the image goes unless the cabin is a duplicate, whether or
   * not the row delete failed.
   */
  function Delete(st: Storage, id: int, imagePath: string, isDuplicated: bool, deleteFails: bool): (res: (Result<(), CabinError>, Storage))
    ensures res.0.Failure? <==> deleteFails
    ensures res.0.Success? ==> id !in res.1.table
    ensures res.1.table.Keys <= st.table.Keys && res.1.images <= st.images && res.1.nextId == st.nextId
    ensures !isDuplicated ==> LastSegment(imagePath) !in res.1.images
    ensures forall k :: k in st.table && k != id ==> k in res.1.table && res.1.table[k] == st.table[k]
    ensures deleteFails ==> res.1.table == st.table
    ensures st.images - res.1.images <= {LastSegment(imagePath)}
  {
    var table := if deleteFails then st.table else st.table - {id};
    var images := if isDuplicated then st.images else st.images - {LastSegment(imagePath)};
    (if deleteFails then Failure(CouldNotBeDeleted) else Success(()), Storage(table, images, st.nextId))
  }

  class CabinStore {
    /** The cabins table, by id. */
    var table: map<int, CabinRow>
    /** The names of the files in the cabin-images bucket. */
    var images: set<string>
    /** The bookings table. */
    var bookings: seq<BookingRow>
    /** The id the next inserted row receives. */
    var nextId: int
    /** The public folder of the image bucket, `BucketUrl` of the project URL. */
    const bucketUrl: string

    function State(): Storage
      reads this
    {
      Storage(table, images, nextId)
    }

    predicate Valid()
      reads this
    {
      ValidStorage(State())
    }

    /** An empty cabins table and bucket, next to the bookings table the other screens fill. */
    constructor(url: string, bookingRows: seq<BookingRow>)
      ensures Valid()
      ensures table == map[] && images == {} && bookings == bookingRows && nextId == 1 && bucketUrl == BucketUrl(url)
    {
      table := map[];
      images := {};
      bookings := bookingRows;
      nextId := 1;
      bucketUrl := BucketUrl(url);
    }

    /**
     * `getCabin(id)`: nothing for a falsy id, an error for an unknown one,
     * otherwise the row with its bookings that are not checked out.
     */
    function GetCabin(id: Option<int>): (r: Result<CabinLookup, CabinError>)
      reads this
      ensures !Truthy(id) ==> r == Success(NoCabin)
      ensures Truthy(id) ==> (r.Failure? <==> id.value !in table)
      ensures r.Success? && r.value.Found? ==>
        Truthy(id) && r.value.cabin == table[id.value] &&
        forall b :: b in r.value.bookings <==>
          b in bookings && b.cabinId == id.value && b.status != BookingStatus.CheckedOut
    {
      if !Truthy(id) then Success(NoCabin)
      else if id.value !in table then Failure(CouldNotBeLoaded)
      else Success(Found(table[id.value], OpenBookings(bookings, id.value)))
    }

    /** `deleteCabinImage(imagePath)`: the file named by the path's last segment leaves the bucket. */
    method DeleteCabinImage(imagePath: string)
      requires Valid()
      modifies this
      ensures Valid()
      ensures images == old(images) - {LastSegment(imagePath)}
      ensures table == old(table) && bookings == old(bookings) && nextId == old(nextId)
    {
      images := images - {LastSegment(imagePath)};
    }

    /**
     * `createUpdateCabin(newCabin, id, image)`. `random` stands for the random
     * number of the image name, `writeFails` for a failed insert or update
     * (an update of an unknown id fails as well), `uploadFails` for a failed
     * upload (uploading a name the bucket already holds fails as well).
     */
    method CreateUpdateCabin(
      newCabin: CabinPayload, id: Option<int>, currentImage: Option<string>,
      random: nat, writeFails: bool, uploadFails: bool)
      returns (r: Result<(int, CabinRow), CabinError>)
      requires Valid()
      modifies this
      ensures Valid()
      ensures (r, State()) == CreateUpdate(old(State()), bucketUrl, newCabin, id, currentImage, random, writeFails, uploadFails)
      ensures bookings == old(bookings)
    {
      ghost var before := State();
      CreateUpdateKeepsValid(before, bucketUrl, newCabin, id, currentImage, random, writeFails, uploadFails);
      var duplicatedCabin := newCabin.isDuplicated;
      var hasImagePath := newCabin.image.ExistingPath?;
      var imageName := UploadName(newCabin, random);
      var row := WrittenRow(bucketUrl, newCabin, random);

      if writeFails || (Truthy(id) && id.value !in table) {
        return Failure(CouldNotBeCreated);
      }
      var rowId: int;
      if !Truthy(id) {
        rowId := nextId;
        nextId := nextId + 1;
      } else {
        rowId := id.value;
      }
      table := table[rowId := row];

      if !hasImagePath {
        var storageError := uploadFails || imageName in images;
        if storageError {
          table := table - {rowId};
          return Failure(ImageNotUploaded);
        }
        images := images + {imageName};
      }

      if DeletesOldImage(duplicatedCabin, id, hasImagePath) && currentImage.Some? {
        DeleteCabinImage(currentImage.value);
      }
      r := Success((rowId, row));
    }

    /**
     * `deleteCabin(id, imagePath, isDuplicated)`; `deleteFails` stands for a
     * failed row delete.
     */
    method DeleteCabin(id: int, imagePath: string, isDuplicated: bool, deleteFails: bool)
      returns (r: Result<(), CabinError>)
      requires Valid()
      modifies this
      ensures Valid()
      ensures (r, State()) == Delete(old(State()), id, imagePath, isDuplicated, deleteFails)
      ensures bookings == old(bookings)
    {
      ghost var before := State();
      DeleteKeepsValid(before, id, imagePath, isDuplicated, deleteFails);
      if !deleteFails {
        table := table - {id};
      }
      if !isDuplicated {
        DeleteCabinImage(imagePath);
      }
      if deleteFails {
        return Failure(CouldNotBeDeleted);
      }
      r := Success(());
    }
  }

  // ---------------------------------------------------------------- properties of createUpdateCabin and deleteCabin

  /** Writing a fresh key and removing it again leaves the map as it was. */
  lemma WriteThenRemove(m: map<int, CabinRow>, k: int, v: CabinRow)
    requires k !in m
    ensures m[k := v] - {k} == m
  {
    assert forall j :: j in m[k := v] - {k} <==> j in m;
  }

  /** `createUpdateCabin` keeps ids positive and below the next id. */
  lemma {:induction false} CreateUpdateKeepsValid(
    st: Storage, bucketUrl: string, newCabin: CabinPayload, id: Option<int>, currentImage: Option<string>,
    random: nat, writeFails: bool, uploadFails: bool)
    requires ValidStorage(st)
    ensures ValidStorage(CreateUpdate(st, bucketUrl, newCabin, id, currentImage, random, writeFails, uploadFails).1)
  {
  }

  /** `deleteCabin` keeps ids positive and below the next id. */
  lemma {:induction false} DeleteKeepsValid(st: Storage, id: int, imagePath: string, isDuplicated: bool, deleteFails: bool)
    requires ValidStorage(st)
    ensures ValidStorage(Delete(st, id, imagePath, isDuplicated, deleteFails).1)
  {
  }

  /**
   * When `createUpdateCabin` fails: a failed write, an update of an unknown
   * id, or a failed upload of a new file, each thrown with its own message.
   * A failure never changes the bucket, and a failed creation leaves the
   * table as it was.
   */
  lemma {:induction false} CreateUpdateFailure(
    st: Storage, bucketUrl: string, newCabin: CabinPayload, id: Option<int>, currentImage: Option<string>,
    random: nat, writeFails: bool, uploadFails: bool)
    requires ValidStorage(st)
    ensures var (r, after) := CreateUpdate(st, bucketUrl, newCabin, id, currentImage, random, writeFails, uploadFails);
      (r.Failure? <==>
        writeFails || (Truthy(id) && id.value !in st.table) ||
        (newCabin.image.NewFile? && (uploadFails || UploadName(newCabin, random) in st.images))) &&
      (r.Failure? ==> after.images == st.images) &&
      (r.Failure? && !Truthy(id) ==> after.table == st.table) &&
      (r.Failure? ==>
        Message(r.error) == (if writeFails || (Truthy(id) && id.value !in st.table) then "Cabin could not be created"
                             else "Image could not be uploaded so cabin was not created"))
  {
    if !writeFails && !Truthy(id) {
      assert st.nextId !in st.table;
      WriteThenRemove(st.table, st.nextId, WrittenRow(bucketUrl, newCabin, random));
    }
  }

  /**
   * What a successful call does to the bucket. A new file's name is added
   * and no other name is; the added name stays unless the old image being
   * deleted has that very name: the delete comes after the upload, so then
   * it removes the fresh file. A creation removes nothing. The only name that
   * can leave is the old image's, and it leaves whenever the old image is
   * deleted.
   */
  lemma {:induction false} CreateUpdateImages(
    st: Storage, bucketUrl: string, newCabin: CabinPayload, id: Option<int>, currentImage: Option<string>,
    random: nat, writeFails: bool, uploadFails: bool)
    requires CreateUpdate(st, bucketUrl, newCabin, id, currentImage, random, writeFails, uploadFails).0.Success?
    ensures var after := CreateUpdate(st, bucketUrl, newCabin, id, currentImage, random, writeFails, uploadFails).1;
      var deletes := DeletesOldImage(newCabin.isDuplicated, id, newCabin.image.ExistingPath?) && currentImage.Some?;
      (newCabin.image.NewFile? && !(deletes && LastSegment(currentImage.value) == UploadName(newCabin, random)) ==>
        UploadName(newCabin, random) in after.images) &&
      (!Truthy(id) ==> st.images <= after.images) &&
      (st.images - after.images <= if currentImage.Some? then {LastSegment(currentImage.value)} else {}) &&
      (deletes ==> LastSegment(currentImage.value) !in after.images) &&
      (after.images <= st.images + if newCabin.image.NewFile? then {UploadName(newCabin, random)} else {})
  {
  }

  /**
   * A failed upload while editing deletes the edited cabin itself: the
   * rollback removes the row by its id, which is the id being updated.
   */
  lemma FailedUploadOnEditDeletesCabin(
    st: Storage, bucketUrl: string, newCabin: CabinPayload, id: Option<int>, currentImage: Option<string>,
    random: nat)
    requires Truthy(id) && id.value in st.table && newCabin.image.NewFile?
    ensures var (r, after) := CreateUpdate(st, bucketUrl, newCabin, id, currentImage, random, false, true);
      r.Failure? && id.value !in after.table && after.table == st.table - {id.value}
  {
  }

  /**
   * A successful call writes the row under a fresh id (create) or the given
   * id (update), and nothing else in the table changes.
   */
  lemma {:induction false} CreateUpdateWritesRow(
    st: Storage, bucketUrl: string, newCabin: CabinPayload, id: Option<int>, currentImage: Option<string>,
    random: nat, writeFails: bool, uploadFails: bool)
    requires ValidStorage(st)
    requires CreateUpdate(st, bucketUrl, newCabin, id, currentImage, random, writeFails, uploadFails).0.Success?
    ensures var (r, after) := CreateUpdate(st, bucketUrl, newCabin, id, currentImage, random, writeFails, uploadFails);
      r.value.1 == WrittenRow(bucketUrl, newCabin, random) &&
      after.table == st.table[r.value.0 := r.value.1] &&
      (Truthy(id) ==> r.value.0 == id.value && id.value in st.table) &&
      (!Truthy(id) ==> r.value.0 !in st.table)
  {
    if !Truthy(id) {
      assert st.nextId !in st.table;
    }
  }

  /** The image of a duplicated cabin is shared, so no call about a duplicate removes anything from the bucket. */
  lemma DuplicateImageIsKept(
    st: Storage, bucketUrl: string, newCabin: CabinPayload, id: Option<int>, currentImage: Option<string>,
    random: nat, writeFails: bool, uploadFails: bool, deleteId: int, imagePath: string, deleteFails: bool)
    requires newCabin.isDuplicated
    ensures st.images <= CreateUpdate(st, bucketUrl, newCabin, id, currentImage, random, writeFails, uploadFails).1.images
    ensures Delete(st, deleteId, imagePath, true, deleteFails).1.images == st.images
  {
  }

  /** A cabin that keeps its stored path uploads nothing and deletes nothing, and the row keeps the path. */
  lemma KeptPathTouchesNoImage(
    st: Storage, bucketUrl: string, newCabin: CabinPayload, id: Option<int>, currentImage: Option<string>,
    random: nat, writeFails: bool, uploadFails: bool)
    requires newCabin.image.ExistingPath?
    ensures var (r, after) := CreateUpdate(st, bucketUrl, newCabin, id, currentImage, random, writeFails, uploadFails);
      after.images == st.images && (r.Success? ==> r.value.1.image == newCabin.image.path)
  {
  }

  /**
   * Round trip: creating a cabin with a new file and then deleting that
   * cabin by the returned id and the stored path brings the table and the
   * bucket back to what they were, because the delete removes exactly the
   * uploaded name.
   */
  lemma {:induction false} CreateThenDeleteRoundTrip(
    st: Storage, bucketUrl: string, newCabin: CabinPayload, random: nat, uploadFails: bool)
    requires ValidStorage(st)
    requires newCabin.image.NewFile?
    requires CreateUpdate(st, bucketUrl, newCabin, None, None, random, false, uploadFails).0.Success?
    ensures var (r, created) := CreateUpdate(st, bucketUrl, newCabin, None, None, random, false, uploadFails);
      var (_, deleted) := Delete(created, r.value.0, r.value.1.image, r.value.1.isDuplicated, false);
      deleted.table == st.table && deleted.images == st.images
  {
    var name := UploadName(newCabin, random);
    ImagePathRoundTrip(bucketUrl, newCabin.image.file, random);
    assert st.nextId !in st.table;
    WriteThenRemove(st.table, st.nextId, WrittenRow(bucketUrl, newCabin, random));
    assert name !in st.images;
    assert (st.images + {name}) - {name} == st.images;
  }

  /** The snapshot of a looked-up cabin holds only stays of bookings that are not checked out. */
  lemma {:induction false} SnapshotExcludesCheckedOut(bookings: seq<BookingRow>, cabinId: int, row: CabinRow)
    ensures var open := OpenBookings(bookings, cabinId);
      forall i :: 0 <= i < |open| ==>
        open[i].status != BookingStatus.CheckedOut && open[i].cabinId == cabinId &&
        Snapshot(row, open).bookings[i] == CreateBookingForm.Stay(open[i].startDate, open[i].endDate)
  {
    var open := OpenBookings(bookings, cabinId);
    forall i | 0 <= i < |open|
      ensures open[i].status != BookingStatus.CheckedOut && open[i].cabinId == cabinId
    {
      assert open[i] in open;
    }
  }
}
