/**
 * Director ages and the count of active directors aged 50 or over
 * (`CompaniesHouseClient.calculate_age` and the officer loop of `process_companies`).
 */
module Officers {
  import opened Wrappers

  /** The `date_of_birth` object of an officer; each key may be missing. */
  datatype DateOfBirth = DateOfBirth(year: Option<int>, month: Option<int>)

  /** The year and month of "now"; the day is never used. */
  datatype Today = Today(year: int, month: int)

  /** One item of the officers response. */
  datatype Officer = Officer(role: Option<string>, resignedOn: Option<string>, dateOfBirth: Option<DateOfBirth>)

  const MinDirectorAge: int := 50

  /** The bounds `datetime(year, month, 1)` enforces before it raises ValueError. */
  const MinYear: int := 1
  const MaxYear: int := 9999

  /** `date_of_birth.get('month', 1)`. */
  function BirthMonth(dob: DateOfBirth): int {
    if dob.month.Some? then dob.month.value else 1
  }

  /** `datetime(year, month, 1)` succeeds. */
  predicate ValidBirth(dob: Option<DateOfBirth>) {
    dob.Some? && dob.value.year.Some?
    && MinYear <= dob.value.year.value <= MaxYear
    && 1 <= BirthMonth(dob.value) <= 12
  }

  /** Month `m` of year `y` is on or before the current month. */
  predicate OnOrBefore(y: int, m: int, today: Today) {
    y < today.year || (y == today.year && m <= today.month)
  }

  /**
   * `calculate_age`: None for a missing date, a missing year, or a date
   * `datetime` rejects; otherwise the whole years elapsed, counting each
   * birthday as reached on the first of its month.
   */
  function CalculateAge(dob: Option<DateOfBirth>, today: Today): (age: Option<int>)
    ensures age.Some? <==> ValidBirth(dob)
    ensures age.Some? ==> today.year - dob.value.year.value - 1 <= age.value <= today.year - dob.value.year.value
    ensures age.Some? ==> OnOrBefore(dob.value.year.value + age.value, BirthMonth(dob.value), today)
    ensures age.Some? ==> !OnOrBefore(dob.value.year.value + age.value + 1, BirthMonth(dob.value), today)
  {
    if dob.None? || dob.value.year.None? then None
    else
      var year, month := dob.value.year.value, BirthMonth(dob.value);
      if !(MinYear <= year <= MaxYear && 1 <= month <= 12) then None
      else
        var age := today.year - year;
        if today.month < month then Some(age - 1) else Some(age)
  }

  /** Born in the current month fifty years ago means aged exactly fifty. */
  lemma FiftiethBirthday(today: Today, month: int)
    requires MinYear <= today.year - 50 <= MaxYear && 1 <= month <= 12 && month == today.month
    ensures CalculateAge(Some(DateOfBirth(Some(today.year - 50), Some(month))), today) == Some(50)
  {
  }

  /** `officer_role == 'director'` (case-sensitive) and `resigned_on` falsy (missing or empty). */
  predicate IsActiveDirector(o: Officer) {
    o.role == Some("director") && (o.resignedOn.None? || o.resignedOn.value == "")
  }

  /** The condition under which the loop increments its counter: `age and age >= 50`. */
  predicate CountsAsOver50(o: Officer, today: Today) {
    IsActiveDirector(o)
    && var age := CalculateAge(o.dateOfBirth, today);
       age.Some? && age.value != 0 && age.value >= MinDirectorAge
  }

  /** The number of officers that count, as the loop accumulates it. */
  function CountOver50(officers: seq<Officer>, today: Today): nat {
    if officers == [] then 0
    else CountOver50(officers[..|officers| - 1], today)
         + (if CountsAsOver50(officers[|officers| - 1], today) then 1 else 0)
  }

  /** The officers that count, in input order. */
  function QualifyingDirectors(officers: seq<Officer>, today: Today): (ds: seq<Officer>)
    ensures forall o :: o in ds <==> o in officers && CountsAsOver50(o, today)
  {
    if officers == [] then []
    else
      var init := QualifyingDirectors(officers[..|officers| - 1], today);
      var last := officers[|officers| - 1];
      assert officers == officers[..|officers| - 1] + [last];
      if CountsAsOver50(last, today) then init + [last] else init
  }

  /** The counter equals the number of qualifying officers. */
  lemma {:induction false} CountIsNumberOfQualifying(officers: seq<Officer>, today: Today)
    ensures CountOver50(officers, today) == |QualifyingDirectors(officers, today)|
  {
    if officers != [] {
      CountIsNumberOfQualifying(officers[..|officers| - 1], today);
    }
  }

  /** `CountsAsOver50` as a test on one officer. */
  function Qualifies(today: Today): Officer -> bool {
    (o: Officer) => CountsAsOver50(o, today)
  }

  /** The counter is the number of positions in the response whose officer counts. */
  lemma {:induction false} CountIsNumberOfPositions(officers: seq<Officer>, today: Today)
    ensures CountOver50(officers, today) == |IndicesWhere(officers, Qualifies(today))|
  {
    if officers != [] {
      CountIsNumberOfPositions(officers[..|officers| - 1], today);
      IndicesWhereSnoc(officers, Qualifies(today));
    }
  }

  /** The count is zero exactly when no officer is an active director of known age 50 or over. */
  lemma {:induction false} CountZeroIff(officers: seq<Officer>, today: Today)
    ensures CountOver50(officers, today) == 0 <==> forall k :: 0 <= k < |officers| ==> !CountsAsOver50(officers[k], today)
  {
    if officers != [] {
      var init := officers[..|officers| - 1];
      CountZeroIff(init, today);
      assert forall k :: 0 <= k < |init| ==> init[k] == officers[k];
    }
  }

  /**
   * The officer loop of `process_companies`: zero when the response is
   * missing or has no `items`, otherwise one increment per qualifying officer.
   */
  method CountActiveQualifyingDirectors(response: Option<seq<Officer>>, today: Today) returns (count: nat)
    ensures response.None? ==> count == 0
    ensures response.Some? ==> count == CountOver50(response.value, today)
  {
    count := 0;
    if response.Some? {
      var items := response.value;
      for i := 0 to |items|
        invariant count == CountOver50(items[..i], today)
      {
        assert items[..i + 1][..i] == items[..i];
        var officer := items[i];
        if officer.role == Some("director") && (officer.resignedOn.None? || officer.resignedOn.value == "") {
          var age := CalculateAge(officer.dateOfBirth, today);
          if age.Some? && age.value != 0 && age.value >= MinDirectorAge {
            count := count + 1;
          }
        }
      }
      assert items[..|items|] == items;
    }
  }
}
