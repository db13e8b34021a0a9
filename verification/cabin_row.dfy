/**
 * One row of the cabins table (`src/features/cabins/CabinRow.jsx`): the
 * record its "Duplicate" action sends to be created, and how its discount
 * column reads.
 */
module CabinRow {
  import opened Wrappers
  import ApiCabins
  import CreateCabinForm

  /**
   * `handleDuplicateCabin`: a new cabin named "Copy of" the original, with
   * the same capacity, prices, image and description, marked as a duplicate.
   * The original's id is not part of it, so the record is created, not
   * updated.
   */
  function Duplicate(cabin: ApiCabins.CabinRow): (copy: CreateCabinForm.CabinPayload)
    ensures copy.name == "Copy of " + cabin.name
    ensures copy.maxCapacity == cabin.maxCapacity && copy.regularPrice == cabin.regularPrice
    ensures copy.discount == cabin.discount && copy.description == cabin.description
    ensures copy.image == CreateCabinForm.ExistingPath(cabin.image)
    ensures copy.isDuplicated
  {
    CreateCabinForm.CabinPayload(
      "Copy of " + cabin.name, cabin.maxCapacity, cabin.regularPrice, cabin.discount, cabin.description,
      CreateCabinForm.ExistingPath(cabin.image), true)
  }

  /**
   * Creating the duplicate inserts a new row that shares the original's
   * image path, uploads nothing, stays marked as a duplicate, and leaves the
   * original row and the bucket untouched.
   */
  lemma {:induction false} DuplicateSharesImage(
    st: ApiCabins.Storage, bucketUrl: string, id: int, random: nat, uploadFails: bool)
    requires ApiCabins.ValidStorage(st) && id in st.table
    requires ApiCabins.CreateUpdate(st, bucketUrl, Duplicate(st.table[id]), None, None, random, false, uploadFails).0.Success?
    ensures var (r, after) := ApiCabins.CreateUpdate(st, bucketUrl, Duplicate(st.table[id]), None, None, random, false, uploadFails);
      r.value.0 != id && after.table[id] == st.table[id] &&
      r.value.1.image == st.table[id].image && r.value.1.isDuplicated &&
      after.images == st.images
  {
    var copy := Duplicate(st.table[id]);
    ApiCabins.CreateUpdateWritesRow(st, bucketUrl, copy, None, None, random, false, uploadFails);
    ApiCabins.KeptPathTouchesNoImage(st, bucketUrl, copy, None, None, random, false, uploadFails);
  }

  /** What the discount column shows: a dash, or the amount. */
  datatype DiscountCell = Dash | Amount(value: int)

  /** A zero discount reads as a dash; any other discount shows its amount. */
  function DiscountShown(discount: int): (cell: DiscountCell)
    ensures cell == Dash <==> discount == 0
    ensures cell.Amount? ==> cell.value == discount
  {
    if discount != 0 then Amount(discount) else Dash
  }
}
