/** The birth-date form: its submit handler checks the raw field texts in a fixed order and
    either reports the first failure or builds the user's profile. */
module BirthDateForm {
  import opened Wrappers
  import opened Text
  import opened Api

  /** The texts held by the form's fields; an unselected choice is the empty string. */
  datatype FormFields = FormFields(
    month: string,
    day: string,
    year: string,
    hour: string,
    minute: string,
    gender: string,
    birthPlace: string,
    relationshipStatus: string)

  const MONTH_ERROR: string := "Invalid Month (1-12)"
  const DAY_ERROR: string := "Invalid Day (1-31)"
  const HOUR_ERROR: string := "Invalid Hour (0-23)"
  const MINUTE_ERROR: string := "Invalid Minute (0-59)"
  /** The earliest birth year the form accepts. */
  const MIN_YEAR: int := 1900

  /** The year error names the accepted range, up to the current year. */
  function YearError(currentYear: int): string {
    "Invalid Year (1900-" + IntToString(currentYear) + ")"
  }

  /** A parsed number that is not `NaN` and lies in `lo..hi`. */
  predicate InRange(v: Option<int>, lo: int, hi: int) {
    v.Some? && lo <= v.value <= hi
  }

  /** `s || undefined`: the empty string becomes absent. */
  function OrUndefined(s: string): Option<string> {
    if s == "" then None else Some(s)
  }

  /** The birth time is checked and kept only when both of its fields are filled in. */
  predicate TimeEntered(f: FormFields) {
    f.hour != "" && f.minute != ""
  }

  /** `handleSubmit`: the error it sets, or the profile it passes to `onSubmit`; `currentYear` is
      the clock's year. */
  function HandleSubmit(f: FormFields, currentYear: int): Result<UserProfile, string> {
    Decide(ParseInt(f.month), ParseInt(f.day), ParseInt(f.year), ParseInt(f.hour), ParseInt(f.minute),
           TimeEntered(f), f.gender, Trim(f.birthPlace), f.relationshipStatus, currentYear)
  }

  /** The checks of `handleSubmit` and the profile it builds, on what the fields parse to: the
      five numbers, whether both time fields are filled in, and the texts of the optional fields
      (the place already trimmed). */
  function Decide(monthNum: Option<int>, dayNum: Option<int>, yearNum: Option<int>,
                  hourNum: Option<int>, minuteNum: Option<int>, timeEntered: bool,
                  gender: string, place: string, status: string, currentYear: int): Result<UserProfile, string> {
    if !InRange(monthNum, 1, 12) then Failure(MONTH_ERROR)
    else if !InRange(dayNum, 1, 31) then Failure(DAY_ERROR)
    else if !InRange(yearNum, MIN_YEAR, currentYear) then Failure(YearError(currentYear))
    else if timeEntered && !InRange(hourNum, 0, 23) then Failure(HOUR_ERROR)
    else if timeEntered && !InRange(minuteNum, 0, 59) then Failure(MINUTE_ERROR)
    else
      var birthTime := if timeEntered then Some(BirthTime(hourNum.value, minuteNum.value)) else None;
      Success(UserProfile(
        yearNum.value, monthNum.value, dayNum.value, birthTime,
        OrUndefined(gender), OrUndefined(place), OrUndefined(status)))
  }

  /** Every check the fields fail, in the order the handler makes them: an independent list of
      all violations, of which the handler reports the first. */
  function Violations(f: FormFields, currentYear: int): seq<string> {
    CheckViolations(ParseInt(f.month), ParseInt(f.day), ParseInt(f.year), ParseInt(f.hour), ParseInt(f.minute),
                    TimeEntered(f), currentYear)
  }

  /** The failing checks on what the fields parse to. */
  function CheckViolations(monthNum: Option<int>, dayNum: Option<int>, yearNum: Option<int>,
                           hourNum: Option<int>, minuteNum: Option<int>, timeEntered: bool,
                           currentYear: int): seq<string> {
    (if InRange(monthNum, 1, 12) then [] else [MONTH_ERROR])
    + (if InRange(dayNum, 1, 31) then [] else [DAY_ERROR])
    + (if InRange(yearNum, MIN_YEAR, currentYear) then [] else [YearError(currentYear)])
    + (if !timeEntered || InRange(hourNum, 0, 23) then [] else [HOUR_ERROR])
    + (if !timeEntered || InRange(minuteNum, 0, 59) then [] else [MINUTE_ERROR])
  }

  /** The handler fails exactly when some check fails, and then with the first failing check's
      error; it succeeds exactly when none fails. */
  lemma FirstViolationReported(f: FormFields, currentYear: int)
    ensures HandleSubmit(f, currentYear).Failure? <==> Violations(f, currentYear) != []
    ensures HandleSubmit(f, currentYear).Failure? ==>
      HandleSubmit(f, currentYear).error == Violations(f, currentYear)[0]
  {
    DecideReportsFirst(ParseInt(f.month), ParseInt(f.day), ParseInt(f.year), ParseInt(f.hour), ParseInt(f.minute),
                       TimeEntered(f), f.gender, Trim(f.birthPlace), f.relationshipStatus, currentYear);
  }

  /** `FirstViolationReported` on what the fields parse to. */
  lemma DecideReportsFirst(monthNum: Option<int>, dayNum: Option<int>, yearNum: Option<int>,
                           hourNum: Option<int>, minuteNum: Option<int>, timeEntered: bool,
                           gender: string, place: string, status: string, currentYear: int)
    ensures var r := Decide(monthNum, dayNum, yearNum, hourNum, minuteNum, timeEntered, gender, place, status, currentYear);
      var v := CheckViolations(monthNum, dayNum, yearNum, hourNum, minuteNum, timeEntered, currentYear);
      && (r.Failure? <==> v != [])
      && (r.Failure? ==> r.error == v[0])
  {
  }

  /** Acceptance, field by field: month 1..12, day 1..31 whatever the month, year
      `1900..currentYear`, and an hour 0..23 and minute 0..59 only when both are filled in;
      gender, place and relationship status never block a submission. */
  lemma AcceptedIff(f: FormFields, currentYear: int)
    ensures HandleSubmit(f, currentYear).Success? <==>
      && InRange(ParseInt(f.month), 1, 12)
      && InRange(ParseInt(f.day), 1, 31)
      && InRange(ParseInt(f.year), MIN_YEAR, currentYear)
      && (TimeEntered(f) ==> InRange(ParseInt(f.hour), 0, 23) && InRange(ParseInt(f.minute), 0, 59))
    ensures forall g, p, s :: HandleSubmit(f, currentYear).Success? ==>
      HandleSubmit(f.(gender := g, birthPlace := p, relationshipStatus := s), currentYear).Success?
  {
  }

  /** The profile carries exactly the parsed month, day and year, a birth time exactly when both
      time fields were filled in, the trimmed place, and absent optional fields for empty ones. */
  lemma ProfileContents(f: FormFields, currentYear: int)
    requires HandleSubmit(f, currentYear).Success?
    ensures var p := HandleSubmit(f, currentYear).value;
      && ParseInt(f.month) == Some(p.birthMonth) && 1 <= p.birthMonth <= 12
      && ParseInt(f.day) == Some(p.birthDay) && 1 <= p.birthDay <= 31
      && ParseInt(f.year) == Some(p.birthYear) && MIN_YEAR <= p.birthYear <= currentYear
      && (p.birthTime.Some? <==> TimeEntered(f))
      && (p.birthTime.Some? ==>
            ParseInt(f.hour) == Some(p.birthTime.value.hour) && 0 <= p.birthTime.value.hour <= 23
            && ParseInt(f.minute) == Some(p.birthTime.value.minute) && 0 <= p.birthTime.value.minute <= 59)
      && (p.birthPlace.None? <==> AllWhitespace(f.birthPlace))
      && (p.birthPlace.Some? ==> p.birthPlace.value == Trim(f.birthPlace))
      && (p.gender.None? <==> f.gender == "")
      && (p.relationshipStatus.None? <==> f.relationshipStatus == "")
      && p.gender == OrUndefined(f.gender)
      && p.birthPlace == OrUndefined(Trim(f.birthPlace))
      && p.relationshipStatus == OrUndefined(f.relationshipStatus)
  {
    DecideProfile(ParseInt(f.month), ParseInt(f.day), ParseInt(f.year), ParseInt(f.hour), ParseInt(f.minute),
                  TimeEntered(f), f.gender, Trim(f.birthPlace), f.relationshipStatus, currentYear);
    TrimEmptyIff(f.birthPlace);
  }

  /** `ProfileContents` on what the fields parse to. */
  lemma DecideProfile(monthNum: Option<int>, dayNum: Option<int>, yearNum: Option<int>,
                      hourNum: Option<int>, minuteNum: Option<int>, timeEntered: bool,
                      gender: string, place: string, status: string, currentYear: int)
    requires Decide(monthNum, dayNum, yearNum, hourNum, minuteNum, timeEntered, gender, place, status, currentYear).Success?
    ensures var p := Decide(monthNum, dayNum, yearNum, hourNum, minuteNum, timeEntered, gender, place, status, currentYear).value;
      && monthNum == Some(p.birthMonth) && 1 <= p.birthMonth <= 12
      && dayNum == Some(p.birthDay) && 1 <= p.birthDay <= 31
      && yearNum == Some(p.birthYear) && MIN_YEAR <= p.birthYear <= currentYear
      && (p.birthTime.Some? <==> timeEntered)
      && (p.birthTime.Some? ==>
            hourNum == Some(p.birthTime.value.hour) && 0 <= p.birthTime.value.hour <= 23
            && minuteNum == Some(p.birthTime.value.minute) && 0 <= p.birthTime.value.minute <= 59)
      && p.gender == OrUndefined(gender) && p.birthPlace == OrUndefined(place)
      && p.relationshipStatus == OrUndefined(status)
  {
  }

  /** 31 February passes: the day is checked against 1..31 whatever the month. */
  lemma ThirtyFirstFebruaryAccepted(f: FormFields, currentYear: int)
    requires ParseInt(f.month) == Some(2) && ParseInt(f.day) == Some(31)
    requires InRange(ParseInt(f.year), MIN_YEAR, currentYear) && !TimeEntered(f)
    ensures HandleSubmit(f, currentYear).Success?
    ensures HandleSubmit(f, currentYear).value.birthMonth == 2
    ensures HandleSubmit(f, currentYear).value.birthDay == 31
  {
  }

  /** The texts "2" and "31" typed into the month and day fields parse to 2 and 31. */
  lemma FebruaryTexts()
    ensures ParseInt("2") == Some(2) && ParseInt("31") == Some(31)
  {
    ParseIntOfDigits("2");
    ParseIntOfDigits("31");
    assert DigitsValue("2") == 2;
    assert DigitsValue("31") == 31;
  }

  /** A time with only one of its two fields filled in is dropped without an error, even when the
      filled-in field is out of range. */
  lemma HalfTimeIgnored(f: FormFields, currentYear: int)
    requires (f.hour == "") != (f.minute == "")
    ensures HandleSubmit(f, currentYear).Success? ==> HandleSubmit(f, currentYear).value.birthTime.None?
    ensures HandleSubmit(f, currentYear) == HandleSubmit(f.(hour := "", minute := ""), currentYear)
  {
    var g := f.(hour := "", minute := "");
    DecideIgnoresTime(ParseInt(f.month), ParseInt(f.day), ParseInt(f.year), ParseInt(f.hour), ParseInt(f.minute),
                      ParseInt(g.hour), ParseInt(g.minute), f.gender, Trim(f.birthPlace), f.relationshipStatus, currentYear);
  }

  /** When the time is not entered, its parses are not looked at. */
  lemma DecideIgnoresTime(monthNum: Option<int>, dayNum: Option<int>, yearNum: Option<int>,
                          hourNum: Option<int>, minuteNum: Option<int>, hourNum': Option<int>, minuteNum': Option<int>,
                          gender: string, place: string, status: string, currentYear: int)
    ensures var r := Decide(monthNum, dayNum, yearNum, hourNum, minuteNum, false, gender, place, status, currentYear);
      && r == Decide(monthNum, dayNum, yearNum, hourNum', minuteNum', false, gender, place, status, currentYear)
      && (r.Success? ==> r.value.birthTime.None?)
  {
  }

  /** `n.toString().padStart(2, '0')`: the decimal rendering, with a `0` in front when it is a
      single character. */
  function PadStart2(n: int): string {
    var s := IntToString(n);
    if |s| < 2 then "0" + s else s
  }

  /** The hour and minute texts the form shows read back as their numbers. */
  lemma ParseIntOfPadStart2(n: int)
    ensures ParseInt(PadStart2(n)) == Some(n)
  {
    var s := IntToString(n);
    if |s| < 2 {
      assert 0 <= n < 10 && s == [DigitChar(n)];
      var t := "0" + s;
      ParseIntOfDigits(t);
      assert t[..1] == ['0'] && DigitsValue(['0']) == 0;
    } else {
      ParseIntOfIntToString(n);
    }
  }

  /** The fields the form starts with for a stored profile: the numbers in decimal, the time
      padded to two characters, and an empty text for each absent field. */
  function InitialFields(p: UserProfile): FormFields {
    FormFields(
      IntToString(p.birthMonth), IntToString(p.birthDay), IntToString(p.birthYear),
      if p.birthTime.Some? then PadStart2(p.birthTime.value.hour) else "",
      if p.birthTime.Some? then PadStart2(p.birthTime.value.minute) else "",
      p.gender.GetOr(""), p.birthPlace.GetOr(""), p.relationshipStatus.GetOr(""))
  }

  /** A profile the form could have produced: numbers in range, and optional texts that are
      non-empty when present, the place already trimmed. */
  predicate SubmittableProfile(p: UserProfile, currentYear: int) {
    && ProfileInRange(p, currentYear)
    && (p.gender.Some? ==> p.gender.value != "")
    && (p.birthPlace.Some? ==> p.birthPlace.value != "" && IsTrimmed(p.birthPlace.value))
    && (p.relationshipStatus.Some? ==> p.relationshipStatus.value != "")
  }

  /** The numbers of a profile lie in the ranges the form checks. */
  predicate ProfileInRange(p: UserProfile, currentYear: int) {
    && 1 <= p.birthMonth <= 12 && 1 <= p.birthDay <= 31 && MIN_YEAR <= p.birthYear <= currentYear
    && (p.birthTime.Some? ==> 0 <= p.birthTime.value.hour <= 23 && 0 <= p.birthTime.value.minute <= 59)
  }

  /** The numeric fields of the initial form parse back to the profile's numbers. */
  lemma InitialFieldsParse(p: UserProfile)
    ensures var f := InitialFields(p);
      && ParseInt(f.month) == Some(p.birthMonth)
      && ParseInt(f.day) == Some(p.birthDay)
      && ParseInt(f.year) == Some(p.birthYear)
      && (TimeEntered(f) <==> p.birthTime.Some?)
      && (p.birthTime.Some? ==>
            ParseInt(f.hour) == Some(p.birthTime.value.hour) && ParseInt(f.minute) == Some(p.birthTime.value.minute))
  {
    ParseIntOfIntToString(p.birthMonth);
    ParseIntOfIntToString(p.birthDay);
    ParseIntOfIntToString(p.birthYear);
    if p.birthTime.Some? {
      ParseIntOfPadStart2(p.birthTime.value.hour);
      ParseIntOfPadStart2(p.birthTime.value.minute);
    }
  }

  /** The optional fields of the initial form give back the profile's optional fields. */
  lemma InitialFieldsOptional(p: UserProfile, currentYear: int)
    requires SubmittableProfile(p, currentYear)
    ensures var f := InitialFields(p);
      && OrUndefined(f.gender) == p.gender
      && OrUndefined(Trim(f.birthPlace)) == p.birthPlace
      && OrUndefined(f.relationshipStatus) == p.relationshipStatus
  {
    if p.birthPlace.Some? {
      TrimOfTrimmed(p.birthPlace.value);
    }
  }

  /** Opening the form on a stored profile and submitting it unchanged gives back that profile. */
  lemma SubmitInitialFields(p: UserProfile, currentYear: int)
    requires SubmittableProfile(p, currentYear)
    ensures HandleSubmit(InitialFields(p), currentYear) == Success(p)
  {
    InitialFieldsParse(p);
    InitialFieldsOptional(p, currentYear);
    SubmitParsed(InitialFields(p), p, currentYear);
  }

  /** The handler looks at the fields only through what they parse to: fields that parse to a
      profile the form could have produced submit that profile. */
  lemma SubmitParsed(f: FormFields, p: UserProfile, currentYear: int)
    requires ProfileInRange(p, currentYear)
    requires ParseInt(f.month) == Some(p.birthMonth) && ParseInt(f.day) == Some(p.birthDay)
    requires ParseInt(f.year) == Some(p.birthYear)
    requires TimeEntered(f) <==> p.birthTime.Some?
    requires p.birthTime.Some? ==>
      ParseInt(f.hour) == Some(p.birthTime.value.hour) && ParseInt(f.minute) == Some(p.birthTime.value.minute)
    requires OrUndefined(f.gender) == p.gender && OrUndefined(Trim(f.birthPlace)) == p.birthPlace
    requires OrUndefined(f.relationshipStatus) == p.relationshipStatus
    ensures HandleSubmit(f, currentYear) == Success(p)
  {
    DecideBuildsProfile(ParseInt(f.month), ParseInt(f.day), ParseInt(f.year), ParseInt(f.hour), ParseInt(f.minute),
                        TimeEntered(f), f.gender, Trim(f.birthPlace), f.relationshipStatus, p, currentYear);
  }

  /** The checks pass on the numbers of a profile in range and build that profile back. */
  lemma DecideBuildsProfile(monthNum: Option<int>, dayNum: Option<int>, yearNum: Option<int>,
                            hourNum: Option<int>, minuteNum: Option<int>, timeEntered: bool,
                            gender: string, place: string, status: string, p: UserProfile, currentYear: int)
    requires ProfileInRange(p, currentYear)
    requires monthNum == Some(p.birthMonth) && dayNum == Some(p.birthDay) && yearNum == Some(p.birthYear)
    requires timeEntered <==> p.birthTime.Some?
    requires p.birthTime.Some? ==>
      hourNum == Some(p.birthTime.value.hour) && minuteNum == Some(p.birthTime.value.minute)
    requires OrUndefined(gender) == p.gender && OrUndefined(place) == p.birthPlace
    requires OrUndefined(status) == p.relationshipStatus
    ensures Decide(monthNum, dayNum, yearNum, hourNum, minuteNum, timeEntered, gender, place, status, currentYear)
      == Success(p)
  {
  }

  /** Every profile the handler submits is one the form could have produced. */
  lemma SubmittedIsSubmittable(f: FormFields, currentYear: int)
    requires HandleSubmit(f, currentYear).Success?
    ensures SubmittableProfile(HandleSubmit(f, currentYear).value, currentYear)
  {
    ProfileContents(f, currentYear);
    var place := Trim(f.birthPlace);
    TrimIsTrimmed(f.birthPlace);
    assert OrUndefined(place).Some? ==> IsTrimmed(OrUndefined(place).value);
  }

  /** Opening the form on a submitted profile and submitting again gives the same profile. */
  lemma ResubmitIsStable(f: FormFields, currentYear: int)
    requires HandleSubmit(f, currentYear).Success?
    ensures var p := HandleSubmit(f, currentYear).value;
      HandleSubmit(InitialFields(p), currentYear) == Success(p)
  {
    SubmittedIsSubmittable(f, currentYear);
    SubmitInitialFields(HandleSubmit(f, currentYear).value, currentYear);
  }
}
