/**
 * The guest form (`src/features/guests/CreateGuestForm.jsx`): the field rules
 * (email and national ID patterns), the flag URL built from the chosen
 * country and read back when a guest is edited, and the create-or-update
 * request `onSubmit` sends.
 */
module CreateGuestForm {
  import opened Wrappers
  import opened Text

  // ---------------------------------------------------------------- patterns

  predicate IsAlphanumeric(c: char) { IsAsciiLetter(c) || IsDigit(c) }

  /** A character of `[a-zA-Z0-9._-]`, the part before '@'. */
  predicate IsLocalChar(c: char) { IsAlphanumeric(c) || c == '.' || c == '_' || c == '-' }

  /** A character of `[a-zA-Z0-9.-]`, the domain before the last dot. */
  predicate IsDomainChar(c: char) { IsAlphanumeric(c) || c == '.' || c == '-' }

  predicate AllLocal(s: string) { forall i :: 0 <= i < |s| ==> IsLocalChar(s[i]) }
  predicate AllDomain(s: string) { forall i :: 0 <= i < |s| ==> IsDomainChar(s[i]) }
  predicate AllLetters(s: string) { forall i :: 0 <= i < |s| ==> IsAsciiLetter(s[i]) }
  predicate AllAlphanumeric(s: string) { forall i :: 0 <= i < |s| ==> IsAlphanumeric(s[i]) }

  /**
   * `s` splits as local part, '@' at `at`, domain, '.' at `dot`, and a
   * top-level domain of 2 to 6 letters reaching the end.
   */
  predicate EmailSplit(s: string, at: int, dot: int) {
    0 < at && at + 1 < dot < |s| && s[at] == '@' && s[dot] == '.' &&
    AllLocal(s[..at]) && AllDomain(s[at + 1..dot]) &&
    2 <= |s| - dot - 1 <= 6 && AllLetters(s[dot + 1..])
  }

  /** `/^[a-zA-Z0-9._-]+@[a-zA-Z0-9.-]+\.[a-zA-Z]{2,6}$/.test(s)`. */
  predicate MatchesEmailPattern(s: string) {
    exists at, dot :: 0 <= at < |s| && 0 <= dot < |s| && EmailSplit(s, at, dot)
  }

  /** The first index of `c` in `s`. */
  function IndexOf(s: string, c: char): (r: Option<nat>)
    ensures r.None? <==> c !in s
    ensures r.Some? ==> r.value < |s| && s[r.value] == c && c !in s[..r.value]
  {
    if s == [] then None
    else if s[0] == c then Some(0)
    else
      var rest := IndexOf(s[1..], c);
      if rest.None? then None
      else
        assert s[..rest.value + 1] == [s[0]] + s[1..][..rest.value];
        Some(rest.value + 1)
  }

  /** The last index of `c` in `s`. */
  function LastIndexOf(s: string, c: char): (r: Option<nat>)
    ensures r.None? <==> c !in s
    ensures r.Some? ==> r.value < |s| && s[r.value] == c && c !in s[r.value + 1..]
  {
    if s == [] then None
    else if s[|s| - 1] == c then Some(|s| - 1)
    else
      var rest := LastIndexOf(s[..|s| - 1], c);
      if rest.None? then None
      else
        assert s[rest.value + 1..] == s[..|s| - 1][rest.value + 1..] + [s[|s| - 1]];
        Some(rest.value)
  }

  /** An occurrence of `c` with none before it is the one IndexOf finds. */
  lemma IndexOfIsFirst(s: string, c: char, k: nat)
    requires k < |s| && s[k] == c && forall i :: 0 <= i < k ==> s[i] != c
    ensures IndexOf(s, c) == Some(k)
  {
    var first := IndexOf(s, c);
    assert forall i :: 0 <= i < first.value ==> s[i] != c by {
      forall i | 0 <= i < first.value ensures s[i] != c { assert s[..first.value][i] == s[i]; }
    }
  }

  /** An occurrence of `c` with none after it is the one LastIndexOf finds. */
  lemma LastIndexOfIsLast(s: string, c: char, k: nat)
    requires k < |s| && s[k] == c && forall i :: k < i < |s| ==> s[i] != c
    ensures LastIndexOf(s, c) == Some(k)
  {
    var last := LastIndexOf(s, c);
    assert forall i :: last.value < i < |s| ==> s[i] != c by {
      forall i | last.value < i < |s| ensures s[i] != c { assert s[last.value + 1..][i - last.value - 1] == s[i]; }
    }
  }

  /**
   * Any split of an email is at the first '@' (the local part holds none)
   * and at the last dot (the letters after it hold none).
   */
  lemma EmailSplitIsUnique(s: string, at: int, dot: int)
    requires 0 <= at < |s| && 0 <= dot < |s| && EmailSplit(s, at, dot)
    ensures IndexOf(s, '@') == Some(at) && LastIndexOf(s, '.') == Some(dot)
  {
    forall i | 0 <= i < at ensures s[i] != '@' { assert IsLocalChar(s[..at][i]); }
    IndexOfIsFirst(s, '@', at);
    forall i | dot < i < |s| ensures s[i] != '.' { assert IsAsciiLetter(s[dot + 1..][i - dot - 1]); }
    LastIndexOfIsLast(s, '.', dot);
  }

  /** The email check as a scan: split at the first '@' and the last dot. */
  function IsValidEmail(s: string): (ok: bool)
    ensures ok <==> MatchesEmailPattern(s)
  {
    var at := IndexOf(s, '@');
    var dot := LastIndexOf(s, '.');
    assert MatchesEmailPattern(s) ==> at.Some? && dot.Some? && EmailSplit(s, at.value, dot.value) by {
      if MatchesEmailPattern(s) {
        var a, d :| 0 <= a < |s| && 0 <= d < |s| && EmailSplit(s, a, d);
        EmailSplitIsUnique(s, a, d);
      }
    }
    at.Some? && dot.Some? && EmailSplit(s, at.value, dot.value)
  }

  /** `/^[A-Za-z0-9]{9,16}$/.test(s)`. */
  predicate MatchesNationalIdPattern(s: string) {
    9 <= |s| <= 16 && AllAlphanumeric(s)
  }

  // ---------------------------------------------------------------- flag URL

  const FlagPrefix: string := "https://flagcdn.com/"

  /** `https://flagcdn.com/${countryCode?.toLowerCase()}.svg`: a missing code prints as "undefined". */
  function FlagUrl(countryCode: Option<string>): (url: string)
    ensures countryCode.Some? ==> url == FlagPrefix + ToLower(countryCode.value) + ".svg"
    ensures countryCode.None? ==> url == FlagPrefix + "undefined" + ".svg"
  {
    FlagPrefix + (if countryCode.Some? then ToLower(countryCode.value) else "undefined") + ".svg"
  }

  /** `countryFlag.slice(-6, -4).toUpperCase()`: the two characters before the 4-character extension. */
  function CodeOfFlag(countryFlag: string): (code: string)
    ensures |countryFlag| >= 6 ==> |code| == 2
    ensures forall i :: 0 <= i < |code| ==> !IsAsciiLower(code[i])
  {
    ToUpper(Slice(countryFlag, -6, -4))
  }

  /** The two characters before a four-character suffix are what `slice(-6, -4)` returns. */
  lemma SliceBeforeSuffix(prefix: string, x: string, suffix: string)
    requires |x| == 2 && |suffix| == 4
    ensures Slice(prefix + x + suffix, -6, -4) == x
  {
    var s := prefix + x + suffix;
    assert s[|s| - 6..|s| - 4] == x;
  }

  /** Round trip: the code read back from a built flag URL is the two-letter uppercase code it was built from. */
  lemma {:induction false} FlagRoundTrip(code: string)
    requires |code| == 2 && IsAsciiUpper(code[0]) && IsAsciiUpper(code[1])
    ensures CodeOfFlag(FlagUrl(Some(code))) == code
  {
    SliceBeforeSuffix(FlagPrefix, ToLower(code), ".svg");
    UpperOfLower(code);
  }

  // ---------------------------------------------------------------- form

  /** An option of the country select: its `label` (the country's name) and its `value` (the two-letter code). */
  datatype CountryOption = CountryOption(name: string, code: string)

  /** `guestData.id ? true : false`. */
  predicate IsEditSession(id: Option<int>) {
    id.Some? && id.value != 0
  }

  /**
   * The select's starting value: the stored nationality with the code read
   * from the stored flag URL, or nothing for a guest without a nationality.
   */
  function DefaultNationality(nationality: Option<string>, countryFlag: string): (r: Option<CountryOption>)
    ensures r.Some? <==> nationality.Some? && nationality.value != ""
    ensures r.Some? ==> r.value == CountryOption(nationality.value, CodeOfFlag(countryFlag))
  {
    if nationality.Some? && nationality.value != "" then Some(CountryOption(nationality.value, CodeOfFlag(countryFlag)))
    else None
  }

  /** Editing a guest whose flag was built from its code starts the select on that country and code. */
  lemma {:induction false} EditStartsOnStoredCountry(name: string, code: string)
    requires name != ""
    requires |code| == 2 && IsAsciiUpper(code[0]) && IsAsciiUpper(code[1])
    ensures DefaultNationality(Some(name), FlagUrl(Some(code))) == Some(CountryOption(name, code))
  {
    FlagRoundTrip(code);
  }

  datatype GuestValues = GuestValues(
    fullName: string, email: string, nationality: Option<CountryOption>, nationalID: string)

  datatype Field = FullName | Email | Nationality | NationalID

  function FullNameRule(v: GuestValues): (err: Option<string>)
    ensures err.Some? <==> v.fullName == ""
  {
    if v.fullName == "" then Some("This field is required") else None
  }

  function EmailRule(v: GuestValues): (err: Option<string>)
    ensures err.None? <==> v.email != "" && MatchesEmailPattern(v.email)
  {
    if v.email == "" then Some("This field is required")
    else if !IsValidEmail(v.email) then Some("Invalid email address")
    else None
  }

  function NationalityRule(v: GuestValues): (err: Option<string>)
    ensures err.Some? <==> v.nationality.None?
  {
    if v.nationality.None? then Some("This field is required") else None
  }

  function NationalIdRule(v: GuestValues): (err: Option<string>)
    ensures err.None? <==> MatchesNationalIdPattern(v.nationalID)
  {
    if v.nationalID == "" then Some("This field is required")
    else if !MatchesNationalIdPattern(v.nationalID) then Some("Invalid National ID")
    else None
  }

  function Rule(v: GuestValues, f: Field): Option<string> {
    match f
    case FullName => FullNameRule(v)
    case Email => EmailRule(v)
    case Nationality => NationalityRule(v)
    case NationalID => NationalIdRule(v)
  }

  /** The form's `errors`: `onSubmit` runs only when it is empty. */
  function Errors(v: GuestValues): (errors: map<Field, string>)
    ensures forall f :: f in errors <==> Rule(v, f).Some?
    ensures forall f :: f in errors ==> errors[f] == Rule(v, f).value
  {
    map f | f in {FullName, Email, Nationality, NationalID} && Rule(v, f).Some? :: Rule(v, f).value
  }

  /** A value of the submitted form data. */
  datatype JsValue = Str(s: string) | Num(n: int) | Null | Compound

  /** The request `onSubmit` sends. */
  datatype GuestMutation = CreateGuest(guest: map<string, JsValue>) | UpdateGuest(guest: map<string, JsValue>)

  /** `watch('nationality')?.label || null`. */
  function NationalityOf(selected: Option<CountryOption>): (v: JsValue)
    ensures v == Null <==> selected.None? || selected.value.name == ""
  {
    if selected.Some? && selected.value.name != "" then Str(selected.value.name) else Null
  }

  /** `watch('nationality')?.value || null`. */
  function CountryCodeOf(selected: Option<CountryOption>): (code: Option<string>)
    ensures code.Some? <==> selected.Some? && selected.value.code != ""
  {
    if selected.Some? && selected.value.code != "" then Some(selected.value.code) else None
  }

  /** The form data react-hook-form hands to `onSubmit`, which edits it in place. */
  class FormData {
    var fields: map<string, JsValue>

    constructor(initial: map<string, JsValue>)
      ensures fields == initial
    {
      fields := initial;
    }

    /** `delete data?.bookings`. */
    method DeleteBookings()
      modifies this
      ensures fields == old(fields) - {"bookings"}
    {
      fields := fields - {"bookings"};
    }
  }

  /**
   * `onSubmit(data)`: drop the guest's bookings from the data, then send the
   * rest with the chosen nationality and its flag URL, as an update when
   * editing and a creation otherwise.
   */
  method OnSubmit(guestId: Option<int>, data: FormData, selected: Option<CountryOption>) returns (m: GuestMutation)
    modifies data
    ensures data.fields == old(data.fields) - {"bookings"}
    ensures m.UpdateGuest? <==> IsEditSession(guestId)
    ensures m.guest == data.fields["nationality" := NationalityOf(selected)]["countryFlag" := Str(FlagUrl(CountryCodeOf(selected)))]
  {
    data.DeleteBookings();
    var guest := data.fields["nationality" := NationalityOf(selected)]["countryFlag" := Str(FlagUrl(CountryCodeOf(selected)))];
    if IsEditSession(guestId) {
      m := UpdateGuest(guest);
    } else {
      m := CreateGuest(guest);
    }
  }

  /** The request never carries the guest's bookings, and always carries the two nationality fields. */
  lemma PayloadHasNoBookings(fields: map<string, JsValue>, selected: Option<CountryOption>)
    ensures var guest := (fields - {"bookings"})["nationality" := NationalityOf(selected)]["countryFlag" := Str(FlagUrl(CountryCodeOf(selected)))];
      "bookings" !in guest && "nationality" in guest && "countryFlag" in guest
  {
  }
}
