/**
 * The stay-duration summary of the dashboard
 * (`src/features/dashboard/DurationChart.jsx`): each confirmed stay is
 * counted in every bucket whose label's range contains its number of nights,
 * and the buckets that counted nothing are dropped.
 */
module DurationChart {
  import opened Text

  /** One slice of the chart: its label, its count and its colour. */
  datatype Bucket = Bucket(duration: string, value: int, color: string)

  const StartDataLight: seq<Bucket> := [
    Bucket("1 night", 0, "#ef4444"),
    Bucket("2 nights", 0, "#f97316"),
    Bucket("3 nights", 0, "#eab308"),
    Bucket("4-5 nights", 0, "#84cc16"),
    Bucket("6-7 nights", 0, "#22c55e"),
    Bucket("8-14 nights", 0, "#14b8a6"),
    Bucket("15-21 nights", 0, "#3b82f6"),
    Bucket("21+ nights", 0, "#a855f7")]

  const StartDataDark: seq<Bucket> := [
    Bucket("1 night", 0, "#b91c1c"),
    Bucket("2 nights", 0, "#c2410c"),
    Bucket("3 nights", 0, "#a16207"),
    Bucket("4-5 nights", 0, "#4d7c0f"),
    Bucket("6-7 nights", 0, "#15803d"),
    Bucket("8-14 nights", 0, "#0f766e"),
    Bucket("15-21 nights", 0, "#1d4ed8"),
    Bucket("21+ nights", 0, "#7e22ce")]

  /** The table for the current colour mode: the two tables share their labels and start at zero. */
  function StartData(isDarkMode: bool): (d: seq<Bucket>)
    ensures |d| == 8
    ensures forall i :: 0 <= i < 8 ==> d[i].value == 0 && d[i].duration == StartDataLight[i].duration
  {
    if isDarkMode then StartDataDark else StartDataLight
  }

  predicate IsDigitOrDash(c: char) { IsDigit(c) || c == '-' }

  /**
   * The label's range: drop everything but digits and dashes, split at '-',
   * and read the first two pieces as numbers (`[from, to = from]`); a piece
   * with no digits reads as 0, as JavaScript's comparison does.
   */
  function ParseRange(duration: string): (range: (nat, nat))
  {
    var kept := Keep(duration, IsDigitOrDash);
    var parts := Split(kept, '-');
    SplitPiecesHaveNoSeparator(kept, '-');
    SplitPiecesFromString(kept, '-');
    assert forall i :: 0 <= i < |parts| ==> AllDigits(parts[i]) by {
      forall i, j | 0 <= i < |parts| && 0 <= j < |parts[i]| ensures IsDigit(parts[i][j]) {
        assert parts[i][j] in kept && parts[i][j] != '-';
      }
    }
    var from := DecimalValue(parts[0]);
    var to := if |parts| >= 2 then DecimalValue(parts[1]) else from;
    (from, to)
  }

  /** `checkIsInRange(from, to, nights)`: both ends included. */
  predicate InRange(duration: string, nights: int) {
    var (from, to) := ParseRange(duration);
    from <= nights && to >= nights
  }

  /** `incArrayValue(arr, nights)`: a new table in which every bucket containing `nights` counts one more. */
  function IncArrayValue(arr: seq<Bucket>, nights: int): (r: seq<Bucket>)
    ensures |r| == |arr|
    ensures forall i :: 0 <= i < |arr| ==>
      r[i] == arr[i].(value := arr[i].value + if InRange(arr[i].duration, nights) then 1 else 0)
  {
    seq(|arr|, i requires 0 <= i < |arr| =>
      if InRange(arr[i].duration, nights) then arr[i].(value := arr[i].value + 1) else arr[i])
  }

  /** `stays.reduce(incArrayValue, startData)`: the stays applied one after the other, first stay first. */
  function Tally(arr: seq<Bucket>, stays: seq<int>): (r: seq<Bucket>)
    decreases |stays|
  {
    if stays == [] then arr else Tally(IncArrayValue(arr, stays[0]), stays[1..])
  }

  /** The number of stays whose nights fall in the label's range. */
  function CountInRange(duration: string, stays: seq<int>): nat
  {
    if stays == [] then 0
    else (if InRange(duration, stays[0]) then 1 else 0) + CountInRange(duration, stays[1..])
  }

  /** `.filter(obj => obj.value > 0)`, keeping the order. */
  function NonEmpty(arr: seq<Bucket>): (r: seq<Bucket>)
    ensures |r| <= |arr|
  {
    if arr == [] then []
    else (if arr[0].value > 0 then [arr[0]] else []) + NonEmpty(arr[1..])
  }

  /** `prepareData(startData, stays)`. */
  function PrepareData(startData: seq<Bucket>, stays: seq<int>): (r: seq<Bucket>)
    ensures |r| <= |startData|
    ensures forall b :: b in r ==> b.value > 0
  {
    TallyCounts(startData, stays);
    NonEmptyKeepsPositive(Tally(startData, stays));
    NonEmpty(Tally(startData, stays))
  }

  /**
   * Counting: after all stays, each bucket keeps its label, colour and
   * position and has gained exactly the number of stays in its range.
   */
  lemma {:induction false} TallyCounts(arr: seq<Bucket>, stays: seq<int>)
    ensures |Tally(arr, stays)| == |arr|
    ensures forall i :: 0 <= i < |arr| ==>
      Tally(arr, stays)[i] == arr[i].(value := arr[i].value + CountInRange(arr[i].duration, stays))
    decreases |stays|
  {
    if stays != [] {
      var next := IncArrayValue(arr, stays[0]);
      TallyCounts(next, stays[1..]);
    }
  }

  /** The output holds exactly the buckets that counted something. */
  lemma {:induction false} NonEmptyKeepsPositive(arr: seq<Bucket>)
    ensures forall b :: b in NonEmpty(arr) <==> b in arr && b.value > 0
  {
    if arr != [] {
      NonEmptyKeepsPositive(arr[1..]);
      assert arr == [arr[0]] + arr[1..];
    }
  }

  /** The filter keeps the original order: it distributes over concatenation. */
  lemma {:induction false} NonEmptyAppend(a: seq<Bucket>, b: seq<Bucket>)
    ensures NonEmpty(a + b) == NonEmpty(a) + NonEmpty(b)
  {
    if a != [] {
      NonEmptyAppend(a[1..], b);
      assert (a + b)[0] == a[0];
      assert (a + b)[1..] == a[1..] + b;
      var head := if a[0].value > 0 then [a[0]] else [];
      calc {
        NonEmpty(a + b);
        head + NonEmpty(a[1..] + b);
        head + (NonEmpty(a[1..]) + NonEmpty(b));
        (head + NonEmpty(a[1..])) + NonEmpty(b);
      }
    } else {
      assert a + b == b;
    }
  }

  /** A label with no digit and no dash before its text: one number, read as both ends of the range. */
  lemma SingleNumberLabel(n: nat, text: string)
    requires forall i :: 0 <= i < |text| ==> !IsDigitOrDash(text[i])
    ensures ParseRange(NatToDecimal(n) + text) == (n, n)
  {
    var digits := NatToDecimal(n);
    KeepAppend(digits, text, IsDigitOrDash);
    KeepAll(digits, IsDigitOrDash);
    KeepNone(text);
    assert Keep(digits + text, IsDigitOrDash) == digits;
    SplitNoSeparator(digits, '-');
    DecimalRoundTrip(n);
  }

  /** A label "a-b ..." reads as the range from a to b. */
  lemma TwoNumberLabel(a: nat, b: nat, text: string)
    requires forall i :: 0 <= i < |text| ==> !IsDigitOrDash(text[i])
    ensures ParseRange(NatToDecimal(a) + "-" + NatToDecimal(b) + text) == (a, b)
  {
    var da, db := NatToDecimal(a), NatToDecimal(b);
    KeepAppend(da + "-" + db, text, IsDigitOrDash);
    KeepAppend(da + "-", db, IsDigitOrDash);
    KeepAppend(da, "-", IsDigitOrDash);
    KeepAll(da, IsDigitOrDash);
    KeepAll(db, IsDigitOrDash);
    KeepAll("-", IsDigitOrDash);
    KeepNone(text);
    assert Keep(da + "-" + db + text, IsDigitOrDash) == da + ['-'] + db;
    SplitAtSeparator(da, '-', db);
    SplitNoSeparator(da, '-');
    SplitNoSeparator(db, '-');
    DecimalRoundTrip(a);
    DecimalRoundTrip(b);
  }

  lemma KeepNone(text: string)
    requires forall i :: 0 <= i < |text| ==> !IsDigitOrDash(text[i])
    ensures Keep(text, IsDigitOrDash) == ""
    decreases |text|
  {
    if text != [] {
      KeepNone(text[1..]);
    }
  }

  /** "1 night", "2 nights" and "3 nights" read as one number each. */
  lemma SingleNightLabels()
    ensures ParseRange("1 night") == (1, 1)
    ensures ParseRange("2 nights") == (2, 2)
    ensures ParseRange("3 nights") == (3, 3)
  {
    SingleNumberLabel(1, " night");
    assert NatToDecimal(1) + " night" == "1 night";
    SingleNumberLabel(2, " nights");
    assert NatToDecimal(2) + " nights" == "2 nights";
    SingleNumberLabel(3, " nights");
    assert NatToDecimal(3) + " nights" == "3 nights";
  }

  /** "4-5 nights" and "6-7 nights" read as their two ends. */
  lemma ShortRangeLabels()
    ensures ParseRange("4-5 nights") == (4, 5)
    ensures ParseRange("6-7 nights") == (6, 7)
  {
    TwoNumberLabel(4, 5, " nights");
    assert NatToDecimal(4) + "-" + NatToDecimal(5) + " nights" == "4-5 nights";
    TwoNumberLabel(6, 7, " nights");
    assert NatToDecimal(6) + "-" + NatToDecimal(7) + " nights" == "6-7 nights";
  }

  /** "8-14 nights" and "15-21 nights" read as their two ends. */
  lemma LongRangeLabels()
    ensures ParseRange("8-14 nights") == (8, 14)
    ensures ParseRange("15-21 nights") == (15, 21)
  {
    TwoNumberLabel(8, 14, " nights");
    assert NatToDecimal(14) == "14";
    assert NatToDecimal(8) + "-" + NatToDecimal(14) + " nights" == "8-14 nights";
    TwoNumberLabel(15, 21, " nights");
    assert NatToDecimal(15) == "15" && NatToDecimal(21) == "21";
    assert NatToDecimal(15) + "-" + NatToDecimal(21) + " nights" == "15-21 nights";
  }

  /** "21+ nights" reads as 21 alone: longer stays fall in no bucket. */
  lemma OpenEndedLabel()
    ensures ParseRange("21+ nights") == (21, 21)
  {
    SingleNumberLabel(21, "+ nights");
    assert NatToDecimal(21) == "21";
    assert NatToDecimal(21) + "+ nights" == "21+ nights";
  }

  /** The ranges the labels of the start tables read as, in table order. */
  const StartRanges: seq<(nat, nat)> := [(1, 1), (2, 2), (3, 3), (4, 5), (6, 7), (8, 14), (15, 21), (21, 21)]

  lemma StartRange(i: int)
    requires 0 <= i < |StartDataLight|
    ensures ParseRange(StartDataLight[i].duration) == StartRanges[i]
  {
    var d := StartDataLight[i].duration;
    if i == 0 { assert d == "1 night"; SingleNightLabels(); }
    else if i == 1 { assert d == "2 nights"; SingleNightLabels(); }
    else if i == 2 { assert d == "3 nights"; SingleNightLabels(); }
    else if i == 3 { assert d == "4-5 nights"; ShortRangeLabels(); }
    else if i == 4 { assert d == "6-7 nights"; ShortRangeLabels(); }
    else if i == 5 { assert d == "8-14 nights"; LongRangeLabels(); }
    else if i == 6 { assert d == "15-21 nights"; LongRangeLabels(); }
    else { assert d == "21+ nights"; OpenEndedLabel(); }
  }

  /** A stay of more than 21 nights falls in no bucket, so the chart does not show it. */
  lemma LongStayUncounted(nights: int)
    requires nights > 21
    ensures forall i :: 0 <= i < |StartDataLight| ==> !InRange(StartDataLight[i].duration, nights)
  {
    forall i | 0 <= i < |StartDataLight| ensures !InRange(StartDataLight[i].duration, nights) {
      StartRange(i);
    }
  }

  /** A stay of exactly 21 nights is counted twice, in "15-21 nights" and in "21+ nights". */
  lemma TwentyOneNightsCountedTwice()
    ensures InRange(StartDataLight[6].duration, 21) && InRange(StartDataLight[7].duration, 21)
  {
    StartRange(6);
    StartRange(7);
  }

  /** Up to the last label, each range ends before the next one begins. */
  lemma StartRangesOrdered()
    ensures forall i, j :: 0 <= i < j < 7 ==> StartRanges[i].1 < StartRanges[j].0
  {
    forall i, j | 0 <= i < j < 7 ensures StartRanges[i].1 < StartRanges[j].0 {
      assert StartRanges[i].1 < StartRanges[i + 1].0;
      assert forall k :: i + 1 <= k < 7 ==> StartRanges[i + 1].0 <= StartRanges[k].0;
    }
  }

  /** Every stay of one to twenty nights falls in exactly one bucket. */
  lemma ShortStayCountedOnce(nights: int)
    requires 1 <= nights <= 20
    ensures exists i :: 0 <= i < |StartDataLight| && InRange(StartDataLight[i].duration, nights)
    ensures forall i, j :: 0 <= i < j < |StartDataLight| && InRange(StartDataLight[i].duration, nights) ==>
      !InRange(StartDataLight[j].duration, nights)
  {
    var k := if nights <= 3 then nights - 1 else if nights <= 5 then 3 else if nights <= 7 then 4
      else if nights <= 14 then 5 else 6;
    StartRange(k);
    assert InRange(StartDataLight[k].duration, nights);
    StartRangesOrdered();
    forall i, j | 0 <= i < j < |StartDataLight| && InRange(StartDataLight[i].duration, nights)
      ensures !InRange(StartDataLight[j].duration, nights)
    {
      StartRange(i);
      StartRange(j);
      assert j < 7 ==> StartRanges[i].1 < StartRanges[j].0;
    }
  }

  /** Bucket `i` of the start table after counting the stays. */
  function Counted(startData: seq<Bucket>, stays: seq<int>, i: int): Bucket
    requires 0 <= i < |startData|
  {
    startData[i].(value := startData[i].value + CountInRange(startData[i].duration, stays))
  }

  /**
   * What the chart shows: each bucket of the start table with the number of
   * stays in its range added, when that total is positive, and nothing else.
   */
  lemma PrepareDataContents(startData: seq<Bucket>, stays: seq<int>)
    ensures forall b :: b in PrepareData(startData, stays) <==>
      (b.value > 0 && exists i :: 0 <= i < |startData| && b == Counted(startData, stays, i))
  {
    var tally := Tally(startData, stays);
    TallyCounts(startData, stays);
    NonEmptyKeepsPositive(tally);
    forall b: Bucket | b in PrepareData(startData, stays)
      ensures exists i :: 0 <= i < |startData| && b == Counted(startData, stays, i)
    {
      var i :| 0 <= i < |tally| && tally[i] == b;
      assert b == Counted(startData, stays, i);
    }
    forall b: Bucket, i | b.value > 0 && 0 <= i < |startData| && b == Counted(startData, stays, i)
      ensures b in PrepareData(startData, stays)
    {
      assert tally[i] == b;
    }
  }
}
