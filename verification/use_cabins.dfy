/**
 * The cabin list (`src/features/cabins/useCabins.js`): the fetched cabins
 * filtered by the `discount` search parameter and sorted in place by the
 * field and direction of the `sortBy` parameter.
 */
module UseCabins {
  import opened Wrappers
  import opened Text
  import ApiCabins

  /** A fetched cabin: its id and its row. */
  datatype Cabin = Cabin(id: int, row: ApiCabins.CabinRow)

  /** `searchParams.get('discount') || 'all'`. */
  function FilterValue(param: Option<string>): (v: string)
    ensures param.Some? && param.value != "" ==> v == param.value
    ensures param.None? || param.value == "" ==> v == "all"
  {
    if param.Some? && param.value != "" then param.value else "all"
  }

  /** Keeps the cabins whose discount is 0 (`wanted` false) or positive (`wanted` true), in order. */
  function WithDiscount(cabins: seq<Cabin>, wanted: bool): (r: seq<Cabin>)
    ensures |r| <= |cabins|
    ensures forall c :: c in r <==> c in cabins && (if wanted then c.row.discount > 0 else c.row.discount == 0)
  {
    if cabins == [] then []
    else
      var c := cabins[0];
      (if (if wanted then c.row.discount > 0 else c.row.discount == 0) then [c] else []) + WithDiscount(cabins[1..], wanted)
  }

  /** The filtered list: all cabins, those without or with a discount, and none for any other value. */
  function Filtered(cabins: seq<Cabin>, filterValue: string): (r: seq<Cabin>)
    ensures |r| <= |cabins| && forall c :: c in r ==> c in cabins
    ensures filterValue == "all" ==> r == cabins
    ensures filterValue == "no-discount" ==> forall c :: c in r <==> c in cabins && c.row.discount == 0
    ensures filterValue == "with-discount" ==> forall c :: c in r <==> c in cabins && c.row.discount > 0
    ensures filterValue !in {"all", "no-discount", "with-discount"} ==> r == []
  {
    if filterValue == "all" then cabins
    else if filterValue == "no-discount" then WithDiscount(cabins, false)
    else if filterValue == "with-discount" then WithDiscount(cabins, true)
    else []
  }

  /** No cabin is both without and with a discount, and every cabin is one or the other when none is negative. */
  lemma {:induction false} DiscountFiltersPartition(cabins: seq<Cabin>)
    ensures forall c :: !(c in Filtered(cabins, "no-discount") && c in Filtered(cabins, "with-discount"))
    ensures forall c :: c in cabins && c.row.discount >= 0 ==>
      c in Filtered(cabins, "no-discount") || c in Filtered(cabins, "with-discount")
  {
    assert Filtered(cabins, "no-discount") == WithDiscount(cabins, false);
    assert Filtered(cabins, "with-discount") == WithDiscount(cabins, true);
  }

  /** `sortBy` split at '-': the field, and the direction when there is one. */
  function SortKey(param: Option<string>): (key: (string, Option<string>))
  {
    var sortBy := if param.Some? && param.value != "" then param.value else "name-asc";
    var parts := Split(sortBy, '-');
    (parts[0], if |parts| >= 2 then Some(parts[1]) else None)
  }

  /** `direction === 'asc' ? 1 : -1`. */
  function Modifier(direction: Option<string>): (m: int)
    ensures m == 1 <==> direction == Some("asc")
    ensures m == 1 || m == -1
  {
    if direction == Some("asc") then 1 else -1
  }

  /** The default order is by name, ascending. */
  lemma DefaultSortIsNameAscending()
    ensures SortKey(None) == ("name", Some("asc"))
    ensures Modifier(SortKey(None).1) == 1
  {
    SplitAtSeparator("name", '-', "asc");
    SplitNoSeparator("name", '-');
    SplitNoSeparator("asc", '-');
    assert "name-asc" == "name" + ['-'] + "asc";
  }

  predicate IsTextField(field: string) {
    field == "name" || field == "description" || field == "image"
  }

  predicate IsNumberField(field: string) {
    field == "id" || field == "maxCapacity" || field == "regularPrice" || field == "discount" || field == "isDuplicated"
  }

  function TextField(c: Cabin, field: string): string
    requires IsTextField(field)
  {
    if field == "name" then c.row.name else if field == "description" then c.row.description else c.row.image
  }

  /** A number field; a boolean subtracts as 0 or 1. */
  function NumberField(c: Cabin, field: string): int
    requires IsNumberField(field)
  {
    if field == "id" then c.id
    else if field == "maxCapacity" then c.row.maxCapacity
    else if field == "regularPrice" then c.row.regularPrice
    else if field == "discount" then c.row.discount
    else if c.row.isDuplicated then 1 else 0
  }

  /**
   * The comparator before the modifier: text fields by `Compare`, number
   * fields by difference; an unknown field subtracts two undefined values,
   * whose NaN the sort reads as "equal".
   */
  function Order(field: string, a: Cabin, b: Cabin): (r: int)
    ensures a == b ==> r == 0
  {
    if IsTextField(field) then Compare(TextField(a, field), TextField(b, field))
    else if IsNumberField(field) then NumberField(a, field) - NumberField(b, field)
    else 0
  }

  /** `a` may come before `b`: the comparator times the modifier is not positive. */
  predicate Before(field: string, modifier: int, a: Cabin, b: Cabin) {
    Order(field, a, b) * modifier <= 0
  }

  predicate SortedBy(s: seq<Cabin>, field: string, modifier: int) {
    forall i, j :: 0 <= i < j < |s| ==> Before(field, modifier, s[i], s[j])
  }

  /** Swapping the arguments negates the comparator. */
  lemma OrderAntisymmetric(field: string, a: Cabin, b: Cabin)
    ensures Order(field, b, a) == -Order(field, a, b)
  {
    if IsTextField(field) {
      CompareAntisymmetric(TextField(a, field), TextField(b, field));
    }
  }

  /** Any two cabins can be ordered one way or the other. */
  lemma BeforeTotal(field: string, modifier: int, a: Cabin, b: Cabin)
    requires modifier == 1 || modifier == -1
    ensures Before(field, modifier, a, b) || Before(field, modifier, b, a)
  {
    OrderAntisymmetric(field, a, b);
  }

  /** The order is transitive, in either direction. */
  lemma BeforeTransitive(field: string, modifier: int, a: Cabin, b: Cabin, c: Cabin)
    requires modifier == 1 || modifier == -1
    requires Before(field, modifier, a, b) && Before(field, modifier, b, c)
    ensures Before(field, modifier, a, c)
  {
    if IsTextField(field) {
      var x, y, z := TextField(a, field), TextField(b, field), TextField(c, field);
      if modifier == 1 {
        CompareTransitive(x, y, z);
      } else {
        CompareAntisymmetric(x, y);
        CompareAntisymmetric(y, z);
        CompareAntisymmetric(x, z);
        CompareTransitive(z, y, x);
      }
    }
  }

  /** Exchanges two cells of the array. */
  method Swap(a: array<Cabin>, i: int, j: int)
    requires 0 <= i < a.Length && 0 <= j < a.Length
    modifies a
    ensures a[..] == old(a[..])[i := old(a[j])][j := old(a[i])]
    ensures multiset(a[..]) == multiset(old(a[..]))
  {
    a[i], a[j] := a[j], a[i];
  }

  /** Moves `a[i]` left past the cells it must follow, so that `a[..i + 1]` is sorted. */
  method Insert(a: array<Cabin>, i: int, field: string, modifier: int)
    requires modifier == 1 || modifier == -1
    requires 0 <= i < a.Length
    requires SortedBy(a[..i], field, modifier)
    modifies a
    ensures SortedBy(a[..i + 1], field, modifier)
    ensures multiset(a[..]) == multiset(old(a[..]))
  {
    var j := i;
    while j > 0 && !Before(field, modifier, a[j - 1], a[j])
      invariant 0 <= j <= i
      invariant multiset(a[..]) == multiset(old(a[..]))
      invariant forall p, q :: 0 <= p < q <= i && p != j && q != j ==> Before(field, modifier, a[p], a[q])
      invariant forall q :: j < q <= i ==> Before(field, modifier, a[j], a[q])
    {
      BeforeTotal(field, modifier, a[j - 1], a[j]);
      ghost var b := a[..];
      Swap(a, j - 1, j);
      assert a[j - 1] == b[j] && a[j] == b[j - 1];
      assert forall k :: 0 <= k < a.Length && k != j - 1 && k != j ==> a[k] == b[k];
      j := j - 1;
    }
    forall p | 0 <= p < j
      ensures Before(field, modifier, a[p], a[j])
    {
      if p < j - 1 {
        BeforeTransitive(field, modifier, a[p], a[j - 1], a[j]);
      }
    }
  }

  /**
   * `Array.prototype.sort` with the cabin comparator: the array ends up a
   * permutation of what it held, ordered by the field times the modifier.
   */
  method SortCabins(a: array<Cabin>, field: string, modifier: int)
    requires modifier == 1 || modifier == -1
    modifies a
    ensures SortedBy(a[..], field, modifier)
    ensures multiset(a[..]) == multiset(old(a[..]))
  {
    var i := 0;
    while i < a.Length
      invariant 0 <= i <= a.Length
      invariant SortedBy(a[..i], field, modifier)
      invariant multiset(a[..]) == multiset(old(a[..]))
    {
      Insert(a, i, field, modifier);
      i := i + 1;
    }
    assert a[..a.Length] == a[..];
  }

  /** A fresh array holding the list. */
  method ToArray(s: seq<Cabin>) returns (a: array<Cabin>)
    ensures fresh(a) && a[..] == s
  {
    a := new Cabin[|s|](i requires 0 <= i < |s| => s[i]);
  }

  /**
   * `useCabins` once the cabins are fetched (`raw` is null while they are
   * not): filter, then sort in place. With the filter 'all' the list is the
   * fetched array itself, which the sort reorders; any other filter works on
   * a fresh array and leaves the fetched one as it was.
   */
  method UseCabinList(raw: array?<Cabin>, discountParam: Option<string>, sortByParam: Option<string>)
    returns (cabins: array?<Cabin>)
    modifies raw
    ensures FilterValue(discountParam) == "all" ==> cabins == raw
    ensures FilterValue(discountParam) != "all" && raw != null ==> raw[..] == old(raw[..])
    ensures raw == null ==>
      (cabins == null <==> FilterValue(discountParam) in {"all", "no-discount", "with-discount"})
    ensures cabins != null && cabins != raw ==> fresh(cabins)
    ensures cabins != null ==>
      var (field, direction) := SortKey(sortByParam);
      SortedBy(cabins[..], field, Modifier(direction)) &&
      multiset(cabins[..]) == multiset(if raw == null then [] else Filtered(old(raw[..]), FilterValue(discountParam)))
  {
    var filterValue := FilterValue(discountParam);
    var (field, direction) := SortKey(sortByParam);
    var modifier := Modifier(direction);
    if filterValue == "all" {
      cabins := raw;
    } else if filterValue == "no-discount" || filterValue == "with-discount" {
      if raw == null {
        cabins := null;
      } else {
        cabins := ToArray(Filtered(raw[..], filterValue));
      }
    } else {
      cabins := ToArray([]);
    }
    if cabins != null {
      SortCabins(cabins, field, modifier);
    }
  }
}
