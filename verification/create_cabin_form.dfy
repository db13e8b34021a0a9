/**
 * The cabin form (`src/features/cabins/CreateCabinForm.jsx`): the field rules
 * react-hook-form checks before submitting, the detection of an edit session,
 * and the create-or-update request `onSubmit` builds.
 */
module CreateCabinForm {
  import opened Wrappers

  /** A file chosen in the file input, known by its name. */
  datatype File = File(name: string)

  /** The image field: a list of chosen files, or the stored path an edited cabin starts with. */
  datatype ImageValue = Files(files: seq<File>) | Path(path: string)

  /** `value.length` of the image field. */
  function ImageLength(v: ImageValue): nat {
    match v
    case Files(files) => |files|
    case Path(path) => |path|
  }

  /**
   * The form values. A number field is `None` when its input is empty;
   * `isDuplicated` is not a field of the form but travels with the values of
   * an edited cabin (false when creating).
   */
  datatype CabinValues = CabinValues(
    name: string,
    maxCapacity: Option<int>,
    regularPrice: Option<int>,
    discount: Option<int>,
    description: string,
    image: ImageValue,
    isDuplicated: bool)

  datatype Field = Name | MaxCapacity | RegularPrice | Discount | Description | Image

  /** The image handed on: the first chosen file, or the stored path unchanged. */
  datatype SubmittedImage = NewFile(file: File) | ExistingPath(path: string)

  datatype CabinPayload = CabinPayload(
    name: string,
    maxCapacity: int,
    regularPrice: int,
    discount: int,
    description: string,
    image: SubmittedImage,
    isDuplicated: bool)

  /** What `onSubmit` asks for: a new cabin, or an update of cabin `id` whose stored image was `currentImage`. */
  datatype Mutation =
    | CreateCabin(cabin: CabinPayload)
    | UpdateCabin(cabin: CabinPayload, id: int, currentImage: Option<string>)

  /** `Boolean(updateId)`: an edit session needs an id that is present and not zero. */
  predicate IsUpdateSession(updateId: Option<int>) {
    updateId.Some? && updateId.value != 0
  }

  // ---------------------------------------------------------------- field rules

  function NameRule(v: CabinValues): (err: Option<string>)
    ensures err.Some? <==> v.name == ""
  {
    if v.name == "" then Some("Cabin name is required") else None
  }

  function MaxCapacityRule(v: CabinValues): (err: Option<string>)
    ensures err.None? <==> v.maxCapacity.Some? && v.maxCapacity.value >= 1
  {
    if v.maxCapacity.None? then Some("Max capacity is required")
    else if v.maxCapacity.value < 1 then Some("Max capacity should be at least 1")
    else None
  }

  function RegularPriceRule(v: CabinValues): (err: Option<string>)
    ensures err.None? <==> v.regularPrice.Some? && v.regularPrice.value >= 1
  {
    if v.regularPrice.None? then Some("Regular price is required")
    else if v.regularPrice.value < 1 then Some("Regular price should be at least 1")
    else None
  }

  /** `+value`: an empty number input reads as 0. */
  function NumberOf(field: Option<int>): int {
    field.GetOr(0)
  }

  /** The discount is compared with the regular price as numbers; an empty price reads as 0. */
  function DiscountRule(v: CabinValues): (err: Option<string>)
    ensures err.None? <==> v.discount.Some? && v.discount.value <= NumberOf(v.regularPrice)
  {
    if v.discount.None? then Some("Discount is required")
    else if v.discount.value > NumberOf(v.regularPrice) then Some("Discount cannot be more than regular price")
    else None
  }

  function DescriptionRule(v: CabinValues): (err: Option<string>)
    ensures err.Some? <==> v.description == ""
  {
    if v.description == "" then Some("Description is required") else None
  }

  /**
   * The image is `required` only when creating, but its `validate` rejects an
   * empty value in both modes, with the same message.
   */
  function ImageRule(isUpdate: bool, v: CabinValues): (err: Option<string>)
    ensures err.Some? <==> ImageLength(v.image) == 0
    ensures err.Some? ==> err.value == "Image is required"
  {
    if !isUpdate && ImageLength(v.image) == 0 then Some("Image is required")
    else if ImageLength(v.image) > 0 then None
    else Some("Image is required")
  }

  const AllFields: set<Field> := {Name, MaxCapacity, RegularPrice, Discount, Description, Image}

  function Rule(isUpdate: bool, v: CabinValues, f: Field): Option<string> {
    match f
    case Name => NameRule(v)
    case MaxCapacity => MaxCapacityRule(v)
    case RegularPrice => RegularPriceRule(v)
    case Discount => DiscountRule(v)
    case Description => DescriptionRule(v)
    case Image => ImageRule(isUpdate, v)
  }

  /** The form's `errors`: every field whose rule is broken, with its message. */
  function Errors(isUpdate: bool, v: CabinValues): (errors: map<Field, string>)
    ensures forall f :: f in errors <==> Rule(isUpdate, v, f).Some?
    ensures forall f :: f in errors ==> errors[f] == Rule(isUpdate, v, f).value
  {
    map f | f in AllFields && Rule(isUpdate, v, f).Some? :: Rule(isUpdate, v, f).value
  }

  // ---------------------------------------------------------------- onSubmit

  /** `typeof data.image === 'object' ? data.image[0] : data.image`. */
  function ChosenImage(image: ImageValue): (s: SubmittedImage)
    requires ImageLength(image) > 0
    ensures image.Files? <==> s.NewFile?
    ensures image.Files? ==> s.file == image.files[0]
    ensures image.Path? ==> s.path == image.path
  {
    match image
    case Files(files) => NewFile(files[0])
    case Path(path) => ExistingPath(path)
  }

  /**
   * Submitting the form: the errors when a rule is broken, otherwise the
   * update of cabin `updateId` in an edit session and a creation elsewhere.
   */
  function Submit(updateId: Option<int>, currentImage: Option<string>, v: CabinValues): (r: Result<Mutation, map<Field, string>>)
    ensures r.Failure? <==> exists f :: Rule(IsUpdateSession(updateId), v, f).Some?
    ensures r.Failure? ==> r.error == Errors(IsUpdateSession(updateId), v)
    ensures r.Success? ==> (r.value.UpdateCabin? <==> IsUpdateSession(updateId))
    ensures r.Success? && r.value.UpdateCabin? ==>
      r.value.id == updateId.value && r.value.currentImage == currentImage
    ensures r.Success? ==> ImageLength(v.image) > 0
    ensures r.Success? ==>
      var c := r.value.cabin;
      c.name == v.name && c.description == v.description && c.isDuplicated == v.isDuplicated &&
      Some(c.maxCapacity) == v.maxCapacity && Some(c.regularPrice) == v.regularPrice &&
      Some(c.discount) == v.discount && c.image == ChosenImage(v.image)
  {
    var isUpdate := IsUpdateSession(updateId);
    if exists f :: Rule(isUpdate, v, f).Some? then Failure(Errors(isUpdate, v))
    else
      assert Rule(isUpdate, v, MaxCapacity).None? && Rule(isUpdate, v, RegularPrice).None?;
      assert Rule(isUpdate, v, Discount).None? && Rule(isUpdate, v, Image).None?;
      var cabin := CabinPayload(
        v.name, v.maxCapacity.value, v.regularPrice.value, v.discount.value, v.description,
        ChosenImage(v.image), v.isDuplicated);
      if isUpdate then Success(UpdateCabin(cabin, updateId.value, currentImage))
      else Success(CreateCabin(cabin))
  }

  // ---------------------------------------------------------------- properties

  /** The image rule does not depend on the mode: an empty image is refused with the same message either way. */
  lemma ImageRuleSameInBothModes(v: CabinValues)
    ensures ImageRule(true, v) == ImageRule(false, v)
    ensures ImageRule(true, v).Some? <==> ImageLength(v.image) == 0
  {
  }

  /** A submitted cabin has room for a guest, a positive price and a discount no larger than its price. */
  lemma {:induction false} AdmittedCabin(updateId: Option<int>, currentImage: Option<string>, v: CabinValues)
    requires Submit(updateId, currentImage, v).Success?
    ensures var c := Submit(updateId, currentImage, v).value.cabin;
      c.maxCapacity >= 1 && c.regularPrice >= 1 && c.discount <= c.regularPrice &&
      c.regularPrice - c.discount >= 0 && c.name != "" && c.description != ""
  {
    var isUpdate := IsUpdateSession(updateId);
    assert Rule(isUpdate, v, Name).None? && Rule(isUpdate, v, Description).None?;
    assert Rule(isUpdate, v, MaxCapacity).None? && Rule(isUpdate, v, RegularPrice).None?;
    assert Rule(isUpdate, v, Discount).None?;
  }
}
