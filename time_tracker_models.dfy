/** models/time_tracker_models.py: an indirect-hours record -- its three
    statuses, the limits on its hours, its `clean` and its `__str__`.

    Hours are a `Decimal` with two decimal places, kept here as integer
    hundredths, so a value with more than two decimal places cannot be
    written down at all. */
module TimeTrackerModels {
  import opened Wrappers
  import opened Text
  import opened UserModels

  /** IndirectHours.PENDING_FOR_APPROVAL, REJECTED and APPROVED. */
  datatype HoursStatus = HoursPending | HoursRejected | HoursApproved

  /** The integer stored in the `status` column. */
  function HoursCode(s: HoursStatus): (n: nat)
    ensures 1 <= n <= 3
    ensures n == 1 <==> s == HoursPending
  {
    match s
    case HoursPending => 1
    case HoursRejected => 2
    case HoursApproved => 3
  }

  /** The status a column value names, if any (`choices=STATUSES`). */
  function HoursStatusOf(n: int): (r: Option<HoursStatus>)
    ensures r.Some? <==> 1 <= n <= 3
  {
    if n == 1 then Some(HoursPending)
    else if n == 2 then Some(HoursRejected)
    else if n == 3 then Some(HoursApproved)
    else None
  }

  /** The column values and the statuses are in one-to-one correspondence. */
  lemma HoursCodeRoundTrip(s: HoursStatus, n: int)
    ensures HoursStatusOf(HoursCode(s)) == Some(s)
    ensures HoursStatusOf(n).Some? ==> HoursCode(HoursStatusOf(n).value) == n
  {
  }

  /** A record the request does not give a status to is pending. */
  const DefaultStatus: HoursStatus := HoursPending

  /** The largest value the `DecimalField(max_digits=5, decimal_places=2)`
      holds, in hundredths: five digits in all. */
  const MaxStoredHundredths: int := 99999

  /** The `MaxValueValidator(Decimal('24'))` bound, in hundredths. */
  const MaxHundredths: int := 2400

  /** The default messages of Django's validators for this field. */
  const MaxValueMessage := "Ensure this value is less than or equal to 24."
  const MaxDigitsMessage := "Ensure that there are no more than 5 digits in total."

  /** The number of decimal digits of `n`, as Python writes it. */
  function DigitCount(n: nat): (r: nat)
    ensures r >= 1
  {
    if n < 10 then 1 else DigitCount(n / 10) + 1
  }

  /** The field limits on `hours`, in hundredths: at most 24, and at most
      five digits in all once written with its two decimal places. Django
      runs every validator of the field, `MaxValueValidator` first and the
      field's `DecimalValidator` after it, and reports all their messages
      on `hours`. */
  function CheckHours(h: int): (r: Outcome)
  {
    var errors :=
      (if h > MaxHundredths then [("hours", MaxValueMessage)] else [])
      + (if h > MaxStoredHundredths || h < -MaxStoredHundredths then [("hours", MaxDigitsMessage)] else []);
    if errors == [] then Pass else Fail(InvalidFields(errors))
  }

  lemma {:induction false} DigitCountBound(n: nat, k: nat)
    ensures DigitCount(n) <= k + 1 <==> n < Pow10(k + 1)
  {
    if n >= 10 {
      if k > 0 {
        DigitCountBound(n / 10, k - 1);
      } else {
        assert DigitCount(n / 10) >= 1;
      }
    }
  }

  function Pow10(k: nat): (r: nat)
    ensures r >= 1
  {
    if k == 0 then 1 else 10 * Pow10(k - 1)
  }

  /** The size of a number of hundredths, without its sign. */
  function Magnitude(h: int): nat
  {
    if h < 0 then -h else h
  }

  /** The accepted values are exactly those of at most 24 hours whose
      hundredths have at most five digits; a refusal lists the message of
      each failing validator on `hours`, the maximum first. */
  lemma CheckHoursAccepts(h: int)
    ensures CheckHours(h).Pass? <==> h <= MaxHundredths && DigitCount(Magnitude(h)) <= 5
    ensures h > MaxHundredths && DigitCount(Magnitude(h)) <= 5 ==>
      CheckHours(h) == Fail(InvalidFields([("hours", MaxValueMessage)]))
    ensures h > MaxHundredths && DigitCount(Magnitude(h)) > 5 ==>
      CheckHours(h) == Fail(InvalidFields([("hours", MaxValueMessage), ("hours", MaxDigitsMessage)]))
    ensures h <= MaxHundredths && DigitCount(Magnitude(h)) > 5 ==>
      CheckHours(h) == Fail(InvalidFields([("hours", MaxDigitsMessage)]))
  {
    DigitCountBound(Magnitude(h), 4);
    assert Pow10(5) == 100000;
    var tooMuch: seq<(string, string)> := [("hours", MaxValueMessage)];
    var tooLong: seq<(string, string)> := [("hours", MaxDigitsMessage)];
    assert tooMuch + [] == tooMuch;
    assert [] + tooLong == tooLong;
    assert tooMuch + tooLong == [("hours", MaxValueMessage), ("hours", MaxDigitsMessage)];
  }

  const HoursCreateDenied := "You cannot create a Indirect Hours with this status."

  /** The refusal passes `{'status': ...}` through `mark_safe`, which turns
      the dict into its text; Django then reports that text as a single
      message that belongs to no field. */
  const HoursCreateDeniedText := "{'status': '" + HoursCreateDenied + "'}"

  /** IndirectHours.clean: a record not yet stored may only be created
      pending; a stored record is never refused on its status. */
  function Clean(pk: Option<nat>, status: HoursStatus): (r: Outcome)
  {
    if pk.None? && status != HoursPending then Fail(Invalid(NonField, HoursCreateDeniedText))
    else Pass
  }

  /** Creation passes exactly for the pending status, a stored record
      passes whatever its status, and a refusal is the non-field message
      holding the text of the dict that names `status`. */
  lemma CleanFacts(pk: Option<nat>, status: HoursStatus)
    ensures Clean(None, status).Pass? <==> HoursCode(status) == HoursCode(DefaultStatus)
    ensures pk.Some? ==> Clean(pk, status) == Pass
    ensures Clean(pk, status).Fail? ==> Clean(pk, status).error == Invalid(NonField, HoursCreateDeniedText)
    ensures Clean(pk, status).Fail? ==> Clean(pk, status).error.field != "status"
  {
  }

  /** The names of the mechanics, each as its `__str__`, the full name. */
  function MechanicNames(ms: seq<User>): (r: seq<string>)
    ensures |r| == |ms|
    ensures forall i :: 0 <= i < |ms| ==> r[i] == FullName(ms[i])
  {
    if ms == [] then [] else [FullName(ms[0])] + MechanicNames(ms[1..])
  }

  const StrPrefix := "Hours of "
  const StrSeparator := "  "

  /** IndirectHours.__str__ */
  function HoursStr(ms: seq<User>): string
  {
    StrPrefix + Join(MechanicNames(ms), StrSeparator)
  }

  /** The length of the names joined by a separator. */
  function JoinedLength(parts: seq<string>, sepLength: nat): nat
  {
    if parts == [] then 0
    else if |parts| == 1 then |parts[0]|
    else |parts[0]| + sepLength + JoinedLength(parts[1..], sepLength)
  }

  lemma {:induction false} JoinLength(parts: seq<string>, sep: string)
    ensures |Join(parts, sep)| == JoinedLength(parts, |sep|)
  {
    if |parts| > 1 {
      JoinLength(parts[1..], sep);
    }
  }

  /** The text starts with "Hours of ", then the first mechanic's full name,
      then -- when there is a second -- two spaces; and it is as long as
      the prefix, every name and one two-space separator between each pair
      of neighbours. */
  lemma HoursStrShape(ms: seq<User>)
    ensures StartsWith(HoursStr(ms), StrPrefix)
    ensures |HoursStr(ms)| == |StrPrefix| + JoinedLength(MechanicNames(ms), 2)
    ensures ms == [] ==> HoursStr(ms) == StrPrefix
    ensures |ms| >= 1 ==> StartsWith(HoursStr(ms)[|StrPrefix|..], FullName(ms[0]))
    ensures |ms| >= 2 ==> HoursStr(ms)[|StrPrefix| + |FullName(ms[0])|..][..2] == StrSeparator
  {
    var s := HoursStr(ms);
    assert s[..|StrPrefix|] == StrPrefix;
    JoinLength(MechanicNames(ms), StrSeparator);
    var names := MechanicNames(ms);
    if |ms| >= 1 {
      assert s[|StrPrefix|..] == Join(names, StrSeparator);
      if |ms| >= 2 {
        assert Join(names, StrSeparator) == names[0] + StrSeparator + Join(names[1..], StrSeparator);
        assert s[|StrPrefix|..][..|names[0]|] == names[0];
      }
    }
  }
}
