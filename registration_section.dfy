/** The registration section of the user-data aggregation: the worker's
    personal details with the validity window and the schemes they are eligible
    for, the family split into dependents and nominees, and the registration
    and renewal status summary. */
module RegistrationSection {
  import opened Common
  import opened ApiInputs
  import opened SchemesSection

  // ---------------------------------------------------------------------
  // Validity window
  // ---------------------------------------------------------------------

  const StatusUnknown: string := "Unknown"
  const StatusActive: string := "Active"
  const StatusBuffer: string := "Active (Buffer Period)"
  const StatusWaiting: string := "Inactive (Waiting Period)"
  const StatusExpired: string := "Expired (Re-registration Required)"

  /** One year after `validity_to`, the end of the buffer period. */
  const BufferLength: int := 365 * SecondsPerDay

  /** Ninety more days, the end of the waiting period. */
  const WaitingLength: int := 90 * SecondsPerDay

  /** `validity_status`, `is_active` and `is_buffer`. */
  datatype ValidityCheck = ValidityCheck(status: string, isActive: bool, isBuffer: bool)

  /** The validity window of a registration, judged at `clock.now`. */
  function ValidityOf(cal: Calendar, clock: Clock, validityTo: Option<string>): ValidityCheck {
    if TruthyText(validityTo) then
      match ParseIso(cal, validityTo.value)
      case None => ValidityCheck(StatusUnknown, false, false)
      case Some(to) =>
        if OutOfRange(to) then ValidityCheck(StatusUnknown, false, false)
        else if clock.now <= to.instant then ValidityCheck(StatusActive, true, false)
        else if clock.now <= to.instant + BufferLength then ValidityCheck(StatusBuffer, false, true)
        else if clock.now <= to.instant + BufferLength + WaitingLength then ValidityCheck(StatusWaiting, false, false)
        else ValidityCheck(StatusExpired, false, false)
    else ValidityCheck(StatusUnknown, false, false)
  }

  /** `val_to_dt + timedelta(days=365)` or the 90 days after it pass
      `datetime.max`, so the validity block raises before any comparison. */
  predicate OutOfRange(to: DateTime) {
    AddOverflows(Wall(to), BufferLength + WaitingLength)
  }

  /** With a parsed `validity_to`, the status falls in exactly one window, or is
      "Unknown" with neither flag when the window's end passes `datetime.max`. */
  lemma ValidityWindows(cal: Calendar, clock: Clock, validityTo: Option<string>, to: DateTime)
    requires TruthyText(validityTo) && ParseIso(cal, validityTo.value) == Some(to)
    ensures OutOfRange(to) <==> Wall(to) + 455 * SecondsPerDay > MaxWall
    ensures OutOfRange(to) ==> ValidityOf(cal, clock, validityTo) == ValidityCheck(StatusUnknown, false, false)
    ensures ValidityOf(cal, clock, validityTo).status == StatusActive <==>
      !OutOfRange(to) && clock.now <= to.instant
    ensures ValidityOf(cal, clock, validityTo).status == StatusBuffer <==>
      !OutOfRange(to) && to.instant < clock.now <= to.instant + 365 * SecondsPerDay
    ensures ValidityOf(cal, clock, validityTo).status == StatusWaiting <==>
      !OutOfRange(to) && to.instant + 365 * SecondsPerDay < clock.now <= to.instant + 455 * SecondsPerDay
    ensures ValidityOf(cal, clock, validityTo).status == StatusExpired <==>
      !OutOfRange(to) && to.instant + 455 * SecondsPerDay < clock.now
  {
  }

  /** The status is "Unknown" exactly when `validity_to` is missing, empty, does
      not parse, or lies within 455 days of `datetime.max`. */
  lemma ValidityUnknownExactly(cal: Calendar, clock: Clock, validityTo: Option<string>)
    ensures ValidityOf(cal, clock, validityTo).status == StatusUnknown <==>
      || !TruthyText(validityTo)
      || ParseIso(cal, validityTo.value).None?
      || OutOfRange(ParseIso(cal, validityTo.value).value)
  {
  }

  /** A "valid forever" date on the last day `datetime` can hold is "Unknown":
      the buffer period after it cannot be computed. */
  lemma LastDayIsUnknown(cal: Calendar, clock: Clock, validityTo: Option<string>, to: DateTime)
    requires TruthyText(validityTo) && ParseIso(cal, validityTo.value) == Some(to)
    requires MaxWall - SecondsPerDay < Wall(to) <= MaxWall
    ensures ValidityOf(cal, clock, validityTo) == ValidityCheck(StatusUnknown, false, false)
  {
    assert OutOfRange(to);
  }

  /** `is_active` and `is_buffer` follow the status and are never both set. */
  lemma ValidityFlags(cal: Calendar, clock: Clock, validityTo: Option<string>)
    ensures !(ValidityOf(cal, clock, validityTo).isActive && ValidityOf(cal, clock, validityTo).isBuffer)
    ensures ValidityOf(cal, clock, validityTo).isActive <==> ValidityOf(cal, clock, validityTo).status == StatusActive
    ensures ValidityOf(cal, clock, validityTo).isBuffer <==> ValidityOf(cal, clock, validityTo).status == StatusBuffer
  {
  }

  // ---------------------------------------------------------------------
  // Date of birth and age
  // ---------------------------------------------------------------------

  /** `dob` (as `%Y-%m-%d`) and `age`, both `None` when the date of birth is
      missing, empty or does not parse. */
  datatype Birth = Birth(dateOfBirth: Option<string>, age: Option<int>)

  /** The age is the whole number of 365-day years in the whole days lived. */
  function BirthOf(cal: Calendar, clock: Clock, dob: Option<string>): (r: Birth)
    ensures r.dateOfBirth.Some? <==> r.age.Some?
  {
    if TruthyText(dob) then
      match ParseIso(cal, dob.value)
      case Some(d) => Birth(Some(d.ymd), Some(((clock.now - d.instant) / SecondsPerDay) / 365))
      case None => Birth(None, None)
    else Birth(None, None)
  }

  lemma MulLe(a: int, b: int, c: int)
    requires a <= b && 0 <= c
    ensures a * c <= b * c
  {
  }

  /** The age brackets the time lived: at least `age` and less than `age + 1`
      years of 365 days. */
  lemma AgeBounds(cal: Calendar, clock: Clock, dob: Option<string>, d: DateTime)
    requires TruthyText(dob) && ParseIso(cal, dob.value) == Some(d)
    ensures BirthOf(cal, clock, dob).age.Some?
    ensures var age := BirthOf(cal, clock, dob).age.value;
      age * 365 * SecondsPerDay <= clock.now - d.instant < (age + 1) * 365 * SecondsPerDay
  {
    var lived := clock.now - d.instant;
    var days := lived / SecondsPerDay;
    var age := days / 365;
    assert BirthOf(cal, clock, dob) == Birth(Some(d.ymd), Some(age));
    assert days * SecondsPerDay <= lived < (days + 1) * SecondsPerDay;
    assert age * 365 <= days < (age + 1) * 365;
    MulLe(age * 365, days, SecondsPerDay);
    MulLe(days + 1, (age + 1) * 365, SecondsPerDay);
  }

  /** The pension threshold: an age of at least 60 means at least 60 years of
      365 days lived. */
  lemma SixtyYears(cal: Calendar, clock: Clock, dob: Option<string>, d: DateTime)
    requires TruthyText(dob) && ParseIso(cal, dob.value) == Some(d)
    ensures BirthOf(cal, clock, dob).age.Some?
    ensures BirthOf(cal, clock, dob).age.value >= 60 <==> clock.now - d.instant >= 60 * 365 * SecondsPerDay
  {
    AgeBounds(cal, clock, dob, d);
    var age := BirthOf(cal, clock, dob).age.value;
    if age >= 60 {
      MulLe(60 * 365, age * 365, SecondsPerDay);
    } else {
      MulLe((age + 1) * 365, 60 * 365, SecondsPerDay);
    }
  }

  // ---------------------------------------------------------------------
  // What the schemes section showed: approved pension and disability schemes
  // ---------------------------------------------------------------------

  /** The blocks the schemes section left, or none. */
  function PriorInfos(v: SchemesValue): seq<SchemeInfo> {
    if v.SchemeData? then v.infos else []
  }

  /** `s.get("Status Details", "").lower()`. */
  function DetailsOf(info: SchemeInfo): string {
    if info.Fetched? then Lower(info.statusDetails) else ""
  }

  /** `s.get("Applied Date", "")`. */
  function DayOf(info: SchemeInfo): string {
    if info.Fetched? then info.appliedDate else ""
  }

  /** `s.get("Scheme Name", "")` of a block with a name. A block whose name is
      `null` makes `.lower()` raise, so the value given it here is never read. */
  function NameOf(info: SchemeInfo): string {
    if info.name.Some? then info.name.value else ""
  }

  /** No block has a `null` name, so the scan runs to its end. */
  predicate AllNamed(infos: seq<SchemeInfo>) {
    forall i :: 0 <= i < |infos| ==> infos[i].name.Some?
  }

  predicate ApprovedPension(info: SchemeInfo) {
    Contains(DetailsOf(info), "approved") && Contains(Lower(NameOf(info)), "pension")
  }

  predicate ApprovedDisability(info: SchemeInfo) {
    Contains(DetailsOf(info), "approved") && Contains(Lower(NameOf(info)), "disability")
  }

  /** `pension_approved`, `disability_approved` and `disability_applied_date`. */
  datatype Prior = Prior(pensionApproved: bool, disabilityApproved: bool, disabilityDate: Option<int>)

  /** One iteration of the loop over the earlier scheme blocks: an approved
      disability scheme whose day parses becomes the disability date. */
  function PriorStep(cal: Calendar, p: Prior, info: SchemeInfo): Prior {
    Prior(
      p.pensionApproved || ApprovedPension(info),
      p.disabilityApproved || ApprovedDisability(info),
      if ApprovedDisability(info) && DayOf(info) != "" && cal.fromYmd(DayOf(info)).Some?
      then Some(cal.fromYmd(DayOf(info)).value.instant)
      else p.disabilityDate)
  }

  function PriorOf(cal: Calendar, infos: seq<SchemeInfo>): Prior {
    if infos == [] then Prior(false, false, None)
    else PriorStep(cal, PriorOf(cal, infos[..|infos| - 1]), infos[|infos| - 1])
  }

  /** The loop over the earlier scheme blocks. It stops, reporting `named`
      false, at the first block whose name is `null`, where `.lower()` raises. */
  method ScanPriorSchemes(cal: Calendar, infos: seq<SchemeInfo>) returns (p: Prior, named: bool)
    ensures named == AllNamed(infos)
    ensures named ==> p == PriorOf(cal, infos)
  {
    p := Prior(false, false, None);
    var k := 0;
    while k < |infos|
      invariant 0 <= k <= |infos|
      invariant AllNamed(infos[..k])
      invariant p == PriorOf(cal, infos[..k])
    {
      var info := infos[k];
      if info.name.None? {
        assert !AllNamed(infos) by { assert infos[k].name.None?; }
        return p, false;
      }
      PriorOfNext(cal, infos, k);
      p := ScanBlock(cal, p, info);
      NamedNext(infos, k);
      k := k + 1;
    }
    assert infos[..k] == infos;
    named := true;
  }

  /** The scan over one more block is one more step. */
  lemma PriorOfNext(cal: Calendar, infos: seq<SchemeInfo>, k: nat)
    requires k < |infos|
    ensures PriorOf(cal, infos[..k + 1]) == PriorStep(cal, PriorOf(cal, infos[..k]), infos[k])
  {
    assert infos[..k + 1][..k] == infos[..k];
  }

  /** One more named block keeps the prefix named. */
  lemma NamedNext(infos: seq<SchemeInfo>, k: nat)
    requires k < |infos| && AllNamed(infos[..k]) && infos[k].name.Some?
    ensures AllNamed(infos[..k + 1])
  {
    assert forall i :: 0 <= i < k + 1 ==> infos[..k + 1][i] == infos[i];
  }

  /** The body of the scan for one block with a name. */
  method ScanBlock(cal: Calendar, p: Prior, info: SchemeInfo) returns (q: Prior)
    requires info.name.Some?
    ensures q == PriorStep(cal, p, info)
  {
    q := p;
    var name := Lower(info.name.value);
    var s := DetailsOf(info);
    if Contains(s, "approved") {
      if Contains(name, "pension") {
        q := q.(pensionApproved := true);
      }
      if Contains(name, "disability") {
        q := q.(disabilityApproved := true);
        var day := DayOf(info);
        if day != "" {
          var parsed := cal.fromYmd(day);
          if parsed.Some? {
            q := q.(disabilityDate := Some(parsed.value.instant));
          }
        }
      }
    }
  }

  /** The two flags are `any` over the earlier blocks. */
  lemma {:induction false} FlagsAreAny(cal: Calendar, infos: seq<SchemeInfo>)
    ensures PriorOf(cal, infos).pensionApproved == Any(ApprovedPension, infos)
    ensures PriorOf(cal, infos).disabilityApproved == Any(ApprovedDisability, infos)
  {
    if infos != [] {
      FlagsAreAny(cal, infos[..|infos| - 1]);
    }
  }

  /** The pension flag records whether some earlier block is an approved pension scheme. */
  lemma PensionFlag(cal: Calendar, infos: seq<SchemeInfo>)
    ensures PriorOf(cal, infos).pensionApproved <==> exists i :: 0 <= i < |infos| && ApprovedPension(infos[i])
  {
    FlagsAreAny(cal, infos);
    AnyExists(ApprovedPension, infos);
  }

  /** The disability flag records whether some earlier block is an approved disability scheme. */
  lemma DisabilityFlag(cal: Calendar, infos: seq<SchemeInfo>)
    ensures PriorOf(cal, infos).disabilityApproved <==> exists i :: 0 <= i < |infos| && ApprovedDisability(infos[i])
  {
    FlagsAreAny(cal, infos);
    AnyExists(ApprovedDisability, infos);
  }

  /** An earlier approved disability block whose day parses to this instant. */
  predicate DatedDisability(cal: Calendar, info: SchemeInfo, instant: int) {
    && ApprovedDisability(info) && DayOf(info) != ""
    && cal.fromYmd(DayOf(info)).Some? && cal.fromYmd(DayOf(info)).value.instant == instant
  }

  /** A disability date is taken from an approved disability block whose day parses. */
  lemma {:induction false} DisabilityDateFrom(cal: Calendar, infos: seq<SchemeInfo>)
    ensures PriorOf(cal, infos).disabilityDate.Some? ==>
      exists i :: 0 <= i < |infos| && DatedDisability(cal, infos[i], PriorOf(cal, infos).disabilityDate.value)
  {
    if infos != [] {
      var front := infos[..|infos| - 1];
      var last := infos[|infos| - 1];
      DisabilityDateFrom(cal, front);
      var d := PriorOf(cal, infos).disabilityDate;
      if d.Some? {
        if DatedDisability(cal, last, d.value) {
          assert infos[|infos| - 1] == last;
        } else {
          assert d == PriorOf(cal, front).disabilityDate;
          var i :| 0 <= i < |front| && DatedDisability(cal, front[i], d.value);
          assert infos[i] == front[i];
        }
      }
    }
  }

  // ---------------------------------------------------------------------
  // Scheme eligibility
  // ---------------------------------------------------------------------

  /** The schemes the eligibility rules can list. */
  datatype Benefit =
    | AccidentCompensation | FuneralAssistance | MedicalAssistance | MajorAilments
    | MarriageAssistance | MaternityAssistance | ThayiMagu | PensionScheme
    | ContinuationOfPension | DisabilityPension | ContinuationOfDisability

  /** The name a scheme is listed under. */
  function Title(s: Benefit): string {
    match s
    case AccidentCompensation => "Accident Compensation"
    case FuneralAssistance => "Funeral Assistance"
    case MedicalAssistance => "Medical Assistance"
    case MajorAilments => "Major Ailments Assistance"
    case MarriageAssistance => "Marriage Assistance"
    case MaternityAssistance => "Maternity Assistance (Delivery)"
    case ThayiMagu => "Thayi Magu Assistance"
    case PensionScheme => "Pension Scheme"
    case ContinuationOfPension => "Continuation of Pension"
    case DisabilityPension => "Disability Pension"
    case ContinuationOfDisability => "Continuation of Disability Pension"
  }

  /** Every scheme the rules can list, in the order they are listed. */
  const Catalogue: seq<Benefit> := [
    AccidentCompensation, FuneralAssistance, MedicalAssistance, MajorAilments,
    MarriageAssistance, MaternityAssistance, ThayiMagu, PensionScheme,
    ContinuationOfPension, DisabilityPension, ContinuationOfDisability]

  /** The `validity_from` year used when it is missing or does not parse. */
  const NoValidFromYear: int := 9999

  /** Everything the eligibility rules read, and whether the last rule raises. */
  datatype Facts = Facts(
    isActive: bool, isBuffer: bool, currentYear: int, validFromYear: int, female: bool,
    age: Option<int>, pensionApproved: bool, disabilityDue: bool, disabilityOverflows: bool)

  /** `disability_applied_date + timedelta(days=365)` passes `datetime.max`.
      `strptime` gives a naive datetime, whose instant is its wall-clock reading,
      and `replace(tzinfo=...)` leaves that reading alone. */
  predicate DisabilityOverflows(p: Prior) {
    p.disabilityApproved && p.disabilityDate.Some? && AddOverflows(p.disabilityDate.value, 365 * SecondsPerDay)
  }

  /** A disability pension is due for continuation a year after the approved
      disability application. */
  predicate DisabilityDue(clock: Clock, p: Prior) {
    && p.disabilityApproved && p.disabilityDate.Some? && !DisabilityOverflows(p)
    && clock.now > p.disabilityDate.value + 365 * SecondsPerDay
  }

  function ValidFromYear(cal: Calendar, validityFrom: Option<string>): (y: int)
    ensures !TruthyText(validityFrom) ==> y == NoValidFromYear
  {
    if TruthyText(validityFrom) then
      match ParseIso(cal, validityFrom.value)
      case Some(d) => d.year
      case None => NoValidFromYear
    else NoValidFromYear
  }

  /** The facts for a worker: the validity flags, the current and
      `validity_from` years, the gender, the age and what the schemes section
      showed; a disability pension is due for continuation a year after the
      approved disability application. */
  function FactsOf(cal: Calendar, clock: Clock, p: PersonalRecord, prior: seq<SchemeInfo>): (r: Facts)
    ensures r.disabilityOverflows ==> !r.disabilityDue
    ensures r.disabilityOverflows ==> exists i :: 0 <= i < |prior| && ApprovedDisability(prior[i])
  {
    var validity := ValidityOf(cal, clock, p.validityTo);
    var earlier := PriorOf(cal, prior);
    DisabilityFlag(cal, prior);
    Facts(
      validity.isActive, validity.isBuffer, clock.year, ValidFromYear(cal, p.validityFrom),
      p.gender.Given? && Lower(p.gender.value) == "female",
      BirthOf(cal, clock, p.dateOfBirth).age, earlier.pensionApproved,
      DisabilityDue(clock, earlier), DisabilityOverflows(earlier))
  }

  /** The rule for one scheme of the catalogue. */
  predicate Qualifies(f: Facts, s: Benefit) {
    match s
    case AccidentCompensation => f.isActive || f.isBuffer
    case FuneralAssistance => f.isActive || f.isBuffer
    case MedicalAssistance => f.isActive
    case MajorAilments => f.isActive
    case MarriageAssistance => f.currentYear > f.validFromYear
    case MaternityAssistance => f.currentYear > f.validFromYear && f.female
    case ThayiMagu => f.currentYear > f.validFromYear && f.female
    case PensionScheme => f.age.Some? && f.age.value >= 60
    case ContinuationOfPension => f.age.Some? && f.age.value > 60 && f.pensionApproved
    case DisabilityPension => true
    case ContinuationOfDisability => f.disabilityDue
  }

  function QualifiesFor(f: Facts): Benefit -> bool {
    (s: Benefit) => Qualifies(f, s)
  }

  /** `if rule: eligible.extend(block)`. */
  function AppendIf(eligible: seq<Benefit>, rule: bool, block: seq<Benefit>): seq<Benefit> {
    if rule then eligible + block else eligible
  }

  /** The eligible schemes as the code lists them: each block of schemes is
      appended when its rule holds. */
  function EligibleSchemes(f: Facts): seq<Benefit> {
    var e := [];
    var e := AppendIf(e, f.isActive || f.isBuffer, [AccidentCompensation, FuneralAssistance]);
    var e := AppendIf(e, f.isActive, [MedicalAssistance, MajorAilments]);
    var e := AppendIf(e, f.currentYear > f.validFromYear, [MarriageAssistance]);
    var e := AppendIf(e, f.currentYear > f.validFromYear && f.female, [MaternityAssistance, ThayiMagu]);
    var e := AppendIf(e, f.age.Some? && f.age.value >= 60, [PensionScheme]);
    var e := AppendIf(e, f.age.Some? && f.age.value > 60 && f.pensionApproved, [ContinuationOfPension]);
    var e := AppendIf(e, true, [DisabilityPension]);
    var e := AppendIf(e, f.disabilityDue, [ContinuationOfDisability]);
    e
  }

  /** The rules as the code applies them, appending in turn. */
  method BuildEligibleSchemes(f: Facts) returns (eligible: seq<Benefit>)
    ensures eligible == EligibleSchemes(f)
  {
    eligible := [];
    eligible := Extend(eligible, f.isActive || f.isBuffer, [AccidentCompensation, FuneralAssistance]);
    eligible := Extend(eligible, f.isActive, [MedicalAssistance, MajorAilments]);
    eligible := Extend(eligible, f.currentYear > f.validFromYear, [MarriageAssistance]);
    eligible := Extend(eligible, f.currentYear > f.validFromYear && f.female, [MaternityAssistance, ThayiMagu]);
    eligible := Extend(eligible, f.age.Some? && f.age.value >= 60, [PensionScheme]);
    eligible := Extend(eligible, f.age.Some? && f.age.value > 60 && f.pensionApproved, [ContinuationOfPension]);
    eligible := eligible + [DisabilityPension];
    eligible := Extend(eligible, f.disabilityDue, [ContinuationOfDisability]);
  }

  /** `if rule: eligible.extend(block)`, as a statement. */
  method Extend(eligible: seq<Benefit>, rule: bool, block: seq<Benefit>) returns (r: seq<Benefit>)
    ensures r == AppendIf(eligible, rule, block)
  {
    r := eligible;
    if rule {
      r := r + block;
    }
  }

  const EligibilityError: string := "Error calculating schemes"

  /** The first two blocks, which the code appends before it reads the gender. */
  function EarlyBlocks(f: Facts): seq<Benefit> {
    AppendIf(AppendIf([], f.isActive || f.isBuffer, [AccidentCompensation, FuneralAssistance]),
             f.isActive, [MedicalAssistance, MajorAilments])
  }

  /** `eligible_schemes` as the personal details carry it: the titles of the
      eligible schemes or, when the eligibility block raises, the titles it had
      appended followed by "Error calculating schemes". A block with a `null`
      name raises in the scan, before any rule (`named` false); a `null` gender
      raises at `.lower()`, after the first two blocks; a disability date too
      late to add a year to raises at the last rule, after all the others. */
  function EligibilityTitles(f: Facts, named: bool, genderNull: bool): seq<string> {
    if !named then [EligibilityError]
    else if genderNull then Map(Title, EarlyBlocks(f)) + [EligibilityError]
    else if f.disabilityOverflows then Map(Title, EligibleSchemes(f)) + [EligibilityError]
    else Map(Title, EligibleSchemes(f))
  }

  /** The eligibility block as the code runs it, given what the scan reported. */
  method ListEligibility(f: Facts, named: bool, genderNull: bool) returns (titles: seq<string>)
    ensures titles == EligibilityTitles(f, named, genderNull)
  {
    if !named {
      titles := [EligibilityError];
    } else if genderNull {
      var early := Extend([], f.isActive || f.isBuffer, [AccidentCompensation, FuneralAssistance]);
      early := Extend(early, f.isActive, [MedicalAssistance, MajorAilments]);
      titles := Map(Title, early) + [EligibilityError];
    } else {
      var eligible := BuildEligibleSchemes(f);
      titles := Map(Title, eligible);
      if f.disabilityOverflows {
        titles := titles + [EligibilityError];
      }
    }
  }

  /** The error mark is no scheme's title. */
  lemma ErrorIsNoTitle(xs: seq<Benefit>)
    ensures EligibilityError !in Map(Title, xs)
  {
    forall k | 0 <= k < |xs|
      ensures Map(Title, xs)[k] != EligibilityError
    {
      MapIndex(Title, xs, k);
    }
  }

  /** The list holds the error mark exactly when a scheme block has a `null`
      name, the gender is `null` or the disability date overflows; a `null` name
      leaves the mark alone, an overflow follows all the eligible schemes with
      it, and otherwise the list is the titles of the eligible schemes. */
  lemma EligibilityErrorExactly(f: Facts, named: bool, genderNull: bool)
    ensures EligibilityError in EligibilityTitles(f, named, genderNull) <==>
      !named || genderNull || f.disabilityOverflows
    ensures !named ==> EligibilityTitles(f, named, genderNull) == [EligibilityError]
    ensures named && !genderNull && f.disabilityOverflows ==>
      EligibilityTitles(f, named, genderNull) == Map(Title, EligibleSchemes(f)) + [EligibilityError]
    ensures named && !genderNull && !f.disabilityOverflows ==>
      EligibilityTitles(f, named, genderNull) == Map(Title, EligibleSchemes(f))
  {
    ErrorIsNoTitle(EligibleSchemes(f));
    ErrorIsNoTitle(EarlyBlocks(f));
    var t := EligibilityTitles(f, named, genderNull);
    if named && (genderNull || f.disabilityOverflows) {
      assert t[|t| - 1] == EligibilityError;
    }
  }

  /** What a `null` gender leaves: the schemes of the first four catalogue
      entries whose rule holds, which is where the full list starts too. */
  lemma EarlyBlocksPrefix(f: Facts)
    ensures forall s :: s in EarlyBlocks(f) <==> CatalogueIndex(s) < 4 && Qualifies(f, s)
    ensures |EarlyBlocks(f)| <= |EligibleSchemes(f)| && EligibleSchemes(f)[..|EarlyBlocks(f)|] == EarlyBlocks(f)
  {
    var first := Catalogue[..4];
    EarlyIsJudged(f);
    JudgedIsFilter(f, first);
    FirstFour();
    EligibleIsJudged(f);
    assert Catalogue == first + Catalogue[4..];
    JudgedAppend(f, first, Catalogue[4..]);
  }

  /** The first two blocks, judged. */
  lemma EarlyIsJudged(f: Facts)
    ensures EarlyBlocks(f) == Judged(f, Catalogue[..4])
  {
    var e: seq<Benefit> := AppendIf([], f.isActive || f.isBuffer, [AccidentCompensation, FuneralAssistance]);
    AppendStep(f, [], [AccidentCompensation, FuneralAssistance], [], f.isActive || f.isBuffer);
    assert [] + [AccidentCompensation, FuneralAssistance] == [AccidentCompensation, FuneralAssistance];
    AppendStep(f, [AccidentCompensation, FuneralAssistance], [MedicalAssistance, MajorAilments], e, f.isActive);
    assert [AccidentCompensation, FuneralAssistance] + [MedicalAssistance, MajorAilments] == Catalogue[..4];
  }

  /** The first four catalogue entries are the schemes of index below four. */
  lemma FirstFour()
    ensures forall s :: s in Catalogue[..4] <==> CatalogueIndex(s) < 4
  {
    forall s ensures s in Catalogue[..4] <==> CatalogueIndex(s) < 4 {
      CatalogueComplete();
      if CatalogueIndex(s) < 4 {
        assert Catalogue[..4][CatalogueIndex(s)] == s;
      }
    }
  }

  /** The eligible schemes are the catalogue entries whose rule holds, in
      catalogue order. */
  lemma EligibleIsCatalogueFilter(f: Facts)
    ensures EligibleSchemes(f) == Filter(QualifiesFor(f), Catalogue)
  {
    EligibleIsJudged(f);
    JudgedIsFilter(f, Catalogue);
  }

  lemma EligibleIsJudged(f: Facts)
    ensures EligibleSchemes(f) == Judged(f, Catalogue)
  {
    ValidityAndYearBlocks(f);
    AgeAndDisabilityBlocks(f, AppendIf(AppendIf(AppendIf(AppendIf([], f.isActive || f.isBuffer, [AccidentCompensation, FuneralAssistance]), f.isActive, [MedicalAssistance, MajorAilments]), f.currentYear > f.validFromYear, [MarriageAssistance]), f.currentYear > f.validFromYear && f.female, [MaternityAssistance, ThayiMagu]), [] + [AccidentCompensation, FuneralAssistance] + [MedicalAssistance, MajorAilments] + [MarriageAssistance] + [MaternityAssistance, ThayiMagu]);
    CatalogueBlocks();
  }

  /** The first four blocks, judged. */
  lemma ValidityAndYearBlocks(f: Facts)
    ensures AppendIf(AppendIf(AppendIf(AppendIf([], f.isActive || f.isBuffer, [AccidentCompensation, FuneralAssistance]), f.isActive, [MedicalAssistance, MajorAilments]), f.currentYear > f.validFromYear, [MarriageAssistance]), f.currentYear > f.validFromYear && f.female, [MaternityAssistance, ThayiMagu])
      == Judged(f, [] + [AccidentCompensation, FuneralAssistance] + [MedicalAssistance, MajorAilments] + [MarriageAssistance] + [MaternityAssistance, ThayiMagu])
  {
    var e: seq<Benefit> := [];
    var done: seq<Benefit> := [];
    AppendStep(f, done, [AccidentCompensation, FuneralAssistance], e, f.isActive || f.isBuffer);
    e, done := AppendIf(e, f.isActive || f.isBuffer, [AccidentCompensation, FuneralAssistance]), done + [AccidentCompensation, FuneralAssistance];
    AppendStep(f, done, [MedicalAssistance, MajorAilments], e, f.isActive);
    e, done := AppendIf(e, f.isActive, [MedicalAssistance, MajorAilments]), done + [MedicalAssistance, MajorAilments];
    AppendStep(f, done, [MarriageAssistance], e, f.currentYear > f.validFromYear);
    e, done := AppendIf(e, f.currentYear > f.validFromYear, [MarriageAssistance]), done + [MarriageAssistance];
    AppendStep(f, done, [MaternityAssistance, ThayiMagu], e, f.currentYear > f.validFromYear && f.female);
    e, done := AppendIf(e, f.currentYear > f.validFromYear && f.female, [MaternityAssistance, ThayiMagu]), done + [MaternityAssistance, ThayiMagu];
  }

  /** The last four blocks, judged after any prefix of the catalogue. */
  lemma AgeAndDisabilityBlocks(f: Facts, e0: seq<Benefit>, done0: seq<Benefit>)
    requires e0 == Judged(f, done0)
    ensures AppendIf(AppendIf(AppendIf(AppendIf(e0, f.age.Some? && f.age.value >= 60, [PensionScheme]), f.age.Some? && f.age.value > 60 && f.pensionApproved, [ContinuationOfPension]), true, [DisabilityPension]), f.disabilityDue, [ContinuationOfDisability])
      == Judged(f, done0 + [PensionScheme] + [ContinuationOfPension] + [DisabilityPension] + [ContinuationOfDisability])
  {
    var e := e0;
    var done := done0;
    AppendStep(f, done, [PensionScheme], e, f.age.Some? && f.age.value >= 60);
    e, done := AppendIf(e, f.age.Some? && f.age.value >= 60, [PensionScheme]), done + [PensionScheme];
    AppendStep(f, done, [ContinuationOfPension], e, f.age.Some? && f.age.value > 60 && f.pensionApproved);
    e, done := AppendIf(e, f.age.Some? && f.age.value > 60 && f.pensionApproved, [ContinuationOfPension]), done + [ContinuationOfPension];
    AppendStep(f, done, [DisabilityPension], e, true);
    e, done := AppendIf(e, true, [DisabilityPension]), done + [DisabilityPension];
    AppendStep(f, done, [ContinuationOfDisability], e, f.disabilityDue);
    e, done := AppendIf(e, f.disabilityDue, [ContinuationOfDisability]), done + [ContinuationOfDisability];
  }

  /** The catalogue entries of `s` whose rule holds, judged one at a time: the
      filter without its membership facts, which make the block-by-block
      proof above costly. */
  function Judged(f: Facts, s: seq<Benefit>): seq<Benefit> {
    if s == [] then [] else (if Qualifies(f, s[0]) then [s[0]] else []) + Judged(f, s[1..])
  }

  lemma {:induction false} JudgedIsFilter(f: Facts, s: seq<Benefit>)
    ensures Judged(f, s) == Filter(QualifiesFor(f), s)
  {
    if s != [] {
      JudgedIsFilter(f, s[1..]);
    }
  }

  lemma {:induction false} JudgedAppend(f: Facts, s: seq<Benefit>, t: seq<Benefit>)
    ensures Judged(f, s + t) == Judged(f, s) + Judged(f, t)
  {
    if s == [] {
      assert s + t == t;
    } else {
      assert (s + t)[1..] == s[1..] + t;
      JudgedAppend(f, s[1..], t);
      ConcatAssoc3(if Qualifies(f, s[0]) then [s[0]] else [], Judged(f, s[1..]), Judged(f, t));
    }
  }

  /** The blocks the code appends make up the catalogue. */
  lemma CatalogueBlocks()
    ensures (((((((([] + [AccidentCompensation, FuneralAssistance]) + [MedicalAssistance, MajorAilments]) + [MarriageAssistance]) + [MaternityAssistance, ThayiMagu]) + [PensionScheme]) + [ContinuationOfPension]) + [DisabilityPension]) + [ContinuationOfDisability]) == Catalogue
  {
  }

  /** One more block of the catalogue has been judged: the code appended the
      block exactly when its rule, shared by the whole block, holds. */
  lemma AppendStep(f: Facts, done: seq<Benefit>, block: seq<Benefit>, before: seq<Benefit>, rule: bool)
    requires 1 <= |block| <= 2
    requires before == Judged(f, done)
    requires Qualifies(f, block[0]) == rule && Qualifies(f, block[|block| - 1]) == rule
    ensures AppendIf(before, rule, block) == Judged(f, done + block)
  {
    JudgedAppend(f, done, block);
    JudgedUniform(f, block);
  }

  /** A block of one or two schemes sharing a verdict is kept whole or dropped whole. */
  lemma JudgedUniform(f: Facts, block: seq<Benefit>)
    requires 1 <= |block| <= 2
    requires Qualifies(f, block[0]) == Qualifies(f, block[|block| - 1])
    ensures Judged(f, block) == if Qualifies(f, block[0]) then block else []
  {
    var rest := block[1..];
    assert Judged(f, block) == (if Qualifies(f, block[0]) then [block[0]] else []) + Judged(f, rest);
    if |block| == 1 {
      assert rest == [];
    } else {
      assert rest[0] == block[1] && rest[1..] == [];
      assert Judged(f, rest) == if Qualifies(f, block[1]) then [block[1]] else [];
      assert block == [block[0]] + [block[1]];
    }
  }

  /** Every scheme is in the catalogue, at its index. */
  lemma CatalogueComplete()
    ensures forall s :: CatalogueIndex(s) < |Catalogue| && Catalogue[CatalogueIndex(s)] == s
  {
  }

  /** A scheme is listed exactly when its rule holds. */
  lemma EligibleExactly(f: Facts)
    ensures forall s :: s in EligibleSchemes(f) <==> Qualifies(f, s)
  {
    EligibleIsCatalogueFilter(f);
    CatalogueFilter(QualifiesFor(f));
  }

  /** Filtering the catalogue keeps exactly the schemes the test accepts. */
  lemma CatalogueFilter(g: Benefit -> bool)
    ensures forall s :: s in Filter(g, Catalogue) <==> g(s)
  {
    forall s ensures s in Catalogue {
      CatalogueComplete();
      assert Catalogue[CatalogueIndex(s)] == s;
    }
  }

  /** Where a scheme stands in the catalogue. */
  function CatalogueIndex(s: Benefit): nat {
    match s
    case AccidentCompensation => 0
    case FuneralAssistance => 1
    case MedicalAssistance => 2
    case MajorAilments => 3
    case MarriageAssistance => 4
    case MaternityAssistance => 5
    case ThayiMagu => 6
    case PensionScheme => 7
    case ContinuationOfPension => 8
    case DisabilityPension => 9
    case ContinuationOfDisability => 10
  }

  /** The eligible schemes come in the fixed catalogue order, each once. */
  lemma EligibilityOrder(f: Facts)
    ensures forall i, j :: 0 <= i < j < |EligibleSchemes(f)| ==>
      CatalogueIndex(EligibleSchemes(f)[i]) < CatalogueIndex(EligibleSchemes(f)[j])
  {
    EligibleIsCatalogueFilter(f);
    CatalogueFilterOrdered(QualifiesFor(f));
  }

  /** Filtering the catalogue keeps its order. */
  lemma CatalogueFilterOrdered(g: Benefit -> bool)
    ensures forall i, j :: 0 <= i < j < |Filter(g, Catalogue)| ==>
      CatalogueIndex(Filter(g, Catalogue)[i]) < CatalogueIndex(Filter(g, Catalogue)[j])
  {
    assert forall k :: 0 <= k < |Catalogue| ==> CatalogueIndex(Catalogue[k]) == k;
    FilterPairwise(g, Catalogue, (a: Benefit, b: Benefit) => CatalogueIndex(a) < CatalogueIndex(b));
  }

  /** Different schemes are listed under different names. */
  lemma TitlesDistinct(s: Benefit, t: Benefit)
    requires s != t
    ensures Title(s) != Title(t)
  {
  }

  /** Without a parseable `validity_from`, marriage and maternity schemes are
      not listed in any year up to 9999. */
  lemma NoValidFromNoMarriage(cal: Calendar, clock: Clock, p: PersonalRecord, prior: seq<SchemeInfo>)
    requires !TruthyText(p.validityFrom) || ParseIso(cal, p.validityFrom.value).None?
    requires clock.year <= 9999
    ensures MarriageAssistance !in EligibleSchemes(FactsOf(cal, clock, p, prior))
    ensures MaternityAssistance !in EligibleSchemes(FactsOf(cal, clock, p, prior))
  {
    var f := FactsOf(cal, clock, p, prior);
    assert f.currentYear == clock.year && f.validFromYear == ValidFromYear(cal, p.validityFrom);
    NoLaterYearNoMarriage(f);
  }

  /** A current year not after the `validity_from` year lists neither scheme. */
  lemma NoLaterYearNoMarriage(f: Facts)
    requires f.currentYear <= f.validFromYear
    ensures MarriageAssistance !in EligibleSchemes(f)
    ensures MaternityAssistance !in EligibleSchemes(f)
  {
    EligibleExactly(f);
  }

  // ---------------------------------------------------------------------
  // Family: dependents and nominees
  // ---------------------------------------------------------------------

  /** A `member_info` block. */
  datatype MemberInfo = MemberInfo(relation: Option<string>, firstName: Option<string>, lastName: Option<string>)

  function MemberInfoOf(m: FamilyMember): MemberInfo {
    MemberInfo(m.relation, m.firstName, m.lastName)
  }

  predicate IsNominee(m: FamilyMember) {
    Truthy(m.isNominee)
  }

  function Dependents(family: seq<FamilyMember>): seq<MemberInfo> {
    Map(MemberInfoOf, family)
  }

  function Nominees(family: seq<FamilyMember>): seq<MemberInfo> {
    Map(MemberInfoOf, Filter(IsNominee, family))
  }

  /** The loop over the family members. */
  method SplitFamily(family: seq<FamilyMember>) returns (dependents: seq<MemberInfo>, nominees: seq<MemberInfo>)
    ensures dependents == Dependents(family) && nominees == Nominees(family)
  {
    dependents := [];
    nominees := [];
    var k := 0;
    while k < |family|
      invariant 0 <= k <= |family|
      invariant dependents == Dependents(family[..k]) && nominees == Nominees(family[..k])
    {
      var member := family[k];
      assert family[..k + 1] == family[..k] + [member];
      NomineesSnoc(family[..k], member);
      MapSnoc(MemberInfoOf, family[..k], member);
      var info := MemberInfoOf(member);
      dependents := dependents + [info];
      if IsNominee(member) {
        nominees := nominees + [info];
      }
      k := k + 1;
    }
    assert family[..k] == family;
  }

  lemma NomineesSnoc(family: seq<FamilyMember>, m: FamilyMember)
    ensures Nominees(family + [m]) == Nominees(family) + if IsNominee(m) then [MemberInfoOf(m)] else []
  {
    FilterAppend(IsNominee, family, [m]);
    assert [m][1..] == [];
    MapAppend(MemberInfoOf, Filter(IsNominee, family), Filter(IsNominee, [m]));
    if IsNominee(m) {
      assert Map(MemberInfoOf, [m]) == [MemberInfoOf(m)] by {
        assert [m][..0] == [];
      }
    }
  }

  /** The positions of the nominated members, in order. */
  function NomineePositions(family: seq<FamilyMember>): (r: seq<nat>)
    ensures forall k :: 0 <= k < |r| ==> r[k] < |family|
  {
    if family == [] then []
    else NomineePositions(family[..|family| - 1]) + if IsNominee(family[|family| - 1]) then [|family| - 1] else []
  }

  /** There is one dependent per member, in input order, and the nominees are
      the dependents at the positions of the members with a truthy
      `is_nominee`, in the same order. */
  lemma NomineesAreDependents(family: seq<FamilyMember>)
    ensures |Dependents(family)| == |family|
    ensures forall i :: 0 <= i < |family| ==> Dependents(family)[i] == MemberInfoOf(family[i])
    ensures |Nominees(family)| == |NomineePositions(family)|
    ensures forall k :: 0 <= k < |NomineePositions(family)| ==>
      Nominees(family)[k] == Dependents(family)[NomineePositions(family)[k]]
    ensures forall a, b :: 0 <= a < b < |NomineePositions(family)| ==> NomineePositions(family)[a] < NomineePositions(family)[b]
    ensures forall i :: 0 <= i < |family| ==> (i in NomineePositions(family) <==> IsNominee(family[i]))
  {
    forall i | 0 <= i < |family|
      ensures Dependents(family)[i] == MemberInfoOf(family[i])
    {
      MapIndex(MemberInfoOf, family, i);
    }
    NomineePositionsExactly(family);
    NomineesAtPositions(family);
  }

  /** The nominee positions increase and are exactly those of the nominated members. */
  lemma {:induction false} NomineePositionsExactly(family: seq<FamilyMember>)
    ensures forall a, b :: 0 <= a < b < |NomineePositions(family)| ==> NomineePositions(family)[a] < NomineePositions(family)[b]
    ensures forall i :: 0 <= i < |family| ==> (i in NomineePositions(family) <==> IsNominee(family[i]))
  {
    if family != [] {
      var front := family[..|family| - 1];
      NomineePositionsExactly(front);
      assert forall i :: 0 <= i < |front| ==> front[i] == family[i];
    }
  }

  /** The `k`-th nominee is the member at the `k`-th nominee position. */
  lemma {:induction false} NomineesAtPositions(family: seq<FamilyMember>)
    ensures |Nominees(family)| == |NomineePositions(family)|
    ensures forall k :: 0 <= k < |NomineePositions(family)| ==>
      Nominees(family)[k] == MemberInfoOf(family[NomineePositions(family)[k]])
  {
    if family != [] {
      var front := family[..|family| - 1];
      var m := family[|family| - 1];
      assert family == front + [m];
      NomineesAtPositions(front);
      NomineesSnoc(front, m);
      var positions := NomineePositions(front);
      assert forall k :: 0 <= k < |positions| ==> family[positions[k]] == front[positions[k]];
    }
  }

  // ---------------------------------------------------------------------
  // Registration and renewal summary
  // ---------------------------------------------------------------------

  const NotFound: string := "Registration details not found."
  const VerificationFailed: string := " (verification failed)"

  function StatusLine(status: Option<string>): string {
    "Registration Status: " + Show(status) + "."
  }

  function RenewalLine(status: Option<string>): string {
    " Renewal Status: " + Show(status) + "."
  }

  /** " (Reason: a; b)", or nothing when there are no reasons. */
  function ReasonSuffix(reasons: seq<string>): string {
    if reasons == [] then "" else " (Reason: " + Join(reasons, "; ") + ")"
  }

  /** Reply data, when the reply decoded, reported success and carried data. */
  function DataOf(call: Call<LabourStatusBody>): Option<LabourStatus> {
    if call.Answered? && call.body.Ok? && call.body.value.success then call.body.value.data else None
  }

  /** The status call raised, or its reply did not decode. */
  predicate Failed<T>(call: Call<T>) {
    call.Raised? || call.body.Err?
  }

  /** The summary for registration code `code`. */
  function SummaryOf(b: Backend, code: Option<string>): string {
    if !TruthyText(code) then NotFound
    else
      var register := b.labourStatus("register", code.value);
      if Failed(register) then NotFound + VerificationFailed
      else if DataOf(register).None? then NotFound
      else StatusLine(DataOf(register).value.status) + StatusTail(b, code.value, DataOf(register).value)
  }

  /** What follows the registration status line. */
  function StatusTail(b: Backend, code: string, d: LabourStatus): string {
    if d.status == Some("Approved") then RenewalTail(b, code, d)
    else if d.status == Some("Rejected") then ReasonSuffix(FetchedReasons(b.registrationReasons(d.labourUserId, d.certificateId)))
    else ""
  }

  /** What follows the status line of an approved registration. */
  function RenewalTail(b: Backend, code: string, d: LabourStatus): string {
    var renewal := b.labourStatus("renewal", code);
    if Failed(renewal) then VerificationFailed
    else if DataOf(renewal).None? then ""
    else
      var r := DataOf(renewal).value;
      RenewalLine(r.status)
        + if r.status == Some("Rejected")
          then ReasonSuffix(FetchedReasons(b.registrationReasons(d.labourUserId, r.certificateId)))
          else ""
  }

  /** The `_fetch_rejection_reasons` call. */
  method FetchRejectionReasons(b: Backend, labourUserId: Json, certificateId: Json) returns (reasons: seq<string>)
    ensures reasons == FetchedReasons(b.registrationReasons(labourUserId, certificateId))
  {
    reasons := [];
    var call := b.registrationReasons(labourUserId, certificateId);
    if call.Answered? && call.body.Ok? && call.body.value.success {
      reasons := CollectReasons(call.body.value.data);
    }
  }

  /** The summary as the code builds it, by appending to the status line. */
  method BuildSummary(b: Backend, code: Option<string>) returns (summary: string)
    ensures summary == SummaryOf(b, code)
  {
    summary := NotFound;
    if TruthyText(code) {
      var register := b.labourStatus("register", code.value);
      if Failed(register) {
        summary := summary + VerificationFailed;
      } else if DataOf(register).Some? {
        var d := DataOf(register).value;
        summary := StatusLine(d.status);
        summary := AppendStatusTail(summary, b, code.value, d);
      }
    }
  }

  /** What the code appends after the registration status line. */
  method AppendStatusTail(summary: string, b: Backend, code: string, d: LabourStatus) returns (r: string)
    ensures r == summary + StatusTail(b, code, d)
  {
    r := summary;
    if d.status == Some("Approved") {
      r := AppendRenewal(r, b, code, d);
    } else if d.status == Some("Rejected") {
      var reasons := FetchRejectionReasons(b, d.labourUserId, d.certificateId);
      r := AppendReasons(r, reasons);
    } else {
      assert summary + StatusTail(b, code, d) == summary;
    }
  }

  /** What the code appends after the status line of an approved registration. */
  method AppendRenewal(summary: string, b: Backend, code: string, d: LabourStatus) returns (r: string)
    ensures r == summary + RenewalTail(b, code, d)
  {
    r := summary;
    var renewal := b.labourStatus("renewal", code);
    if Failed(renewal) {
      r := r + VerificationFailed;
    } else if DataOf(renewal).Some? {
      var rd := DataOf(renewal).value;
      r := r + RenewalLine(rd.status);
      if rd.status == Some("Rejected") {
        var reasons := FetchRejectionReasons(b, d.labourUserId, rd.certificateId);
        r := AppendReasons(r, reasons);
        ConcatAssoc3(summary, RenewalLine(rd.status), ReasonSuffix(reasons));
      } else {
        assert RenewalLine(rd.status) + "" == RenewalLine(rd.status);
      }
    } else {
      assert summary + "" == summary;
    }
  }

  /** The code's `if reasons:` append of the reasons to the summary so far. */
  method AppendReasons(summary: string, reasons: seq<string>) returns (r: string)
    ensures r == summary + ReasonSuffix(reasons)
  {
    r := summary;
    if reasons != [] {
      ConcatAssoc3(summary, " (Reason: " + Join(reasons, "; "), ")");
      r := r + " (Reason: " + Join(reasons, "; ") + ")";
    } else {
      assert summary + "" == summary;
    }
  }

  /** Without a registration code there is nothing to check. */
  lemma SummaryWithoutCode(b: Backend, code: Option<string>)
    requires !TruthyText(code)
    ensures SummaryOf(b, code) == NotFound
  {
  }

  /** With registration data, the summary opens with its status line. */
  lemma SummaryOpensWithStatus(b: Backend, code: Option<string>)
    requires TruthyText(code) && DataOf(b.labourStatus("register", code.value)).Some?
    ensures StartsWith(SummaryOf(b, code), StatusLine(DataOf(b.labourStatus("register", code.value)).value.status))
  {
    var d := DataOf(b.labourStatus("register", code.value)).value;
    var line := StatusLine(d.status);
    assert SummaryOf(b, code) == line + StatusTail(b, code.value, d);
    assert (line + StatusTail(b, code.value, d))[..|line|] == line;
  }

  /** A status call that raises marks the summary as unverified. */
  lemma SummaryMarksFailure(b: Backend, code: Option<string>)
    requires TruthyText(code)
    requires || Failed(b.labourStatus("register", code.value))
             || (&& DataOf(b.labourStatus("register", code.value)).Some?
                 && DataOf(b.labourStatus("register", code.value)).value.status == Some("Approved")
                 && Failed(b.labourStatus("renewal", code.value)))
    ensures EndsWith(SummaryOf(b, code), VerificationFailed)
  {
    var r := SummaryOf(b, code);
    var pre := r[..|r| - |VerificationFailed|];
    assert r == pre + VerificationFailed;
  }

  /** The renewal status is consulted only after an approved registration:
      otherwise the renewal reply makes no difference to the summary. */
  lemma RenewalOnlyAfterApproval(b: Backend, b': Backend, code: Option<string>)
    requires TruthyText(code)
    requires b.labourStatus("register", code.value) == b'.labourStatus("register", code.value)
    requires forall u, c :: b.registrationReasons(u, c) == b'.registrationReasons(u, c)
    requires DataOf(b.labourStatus("register", code.value)).None?
      || DataOf(b.labourStatus("register", code.value)).value.status != Some("Approved")
    ensures SummaryOf(b, code) == SummaryOf(b', code)
  {
    var register := b.labourStatus("register", code.value);
    if !Failed(register) && DataOf(register).Some? {
      var d := DataOf(register).value;
      assert b.registrationReasons(d.labourUserId, d.certificateId) == b'.registrationReasons(d.labourUserId, d.certificateId);
      assert StatusTail(b, code.value, d) == StatusTail(b', code.value, d);
    }
  }

  /** Rejection reasons are consulted only for a rejected registration or a
      rejected renewal of an approved one: otherwise the reasons service makes no
      difference to the summary. */
  lemma ReasonsOnlyForRejection(b: Backend, b': Backend, code: Option<string>)
    requires TruthyText(code)
    requires forall kind, number :: b.labourStatus(kind, number) == b'.labourStatus(kind, number)
    requires var d := DataOf(b.labourStatus("register", code.value));
      || d.None?
      || (d.value.status != Some("Rejected") && d.value.status != Some("Approved"))
      || (&& d.value.status == Some("Approved")
          && (DataOf(b.labourStatus("renewal", code.value)).None?
              || DataOf(b.labourStatus("renewal", code.value)).value.status != Some("Rejected")))
    ensures SummaryOf(b, code) == SummaryOf(b', code)
  {
  }

  /** A rejected registration lists its reasons after the status line. */
  lemma RejectedRegistrationReasons(b: Backend, code: Option<string>)
    requires TruthyText(code) && !Failed(b.labourStatus("register", code.value))
    requires DataOf(b.labourStatus("register", code.value)).Some?
    requires DataOf(b.labourStatus("register", code.value)).value.status == Some("Rejected")
    ensures var d := DataOf(b.labourStatus("register", code.value)).value;
      var reasons := FetchedReasons(b.registrationReasons(d.labourUserId, d.certificateId));
      SummaryOf(b, code) == StatusLine(d.status) + (if reasons == [] then "" else " (Reason: " + Join(reasons, "; ") + ")")
  {
  }

  // ---------------------------------------------------------------------
  // The section
  // ---------------------------------------------------------------------

  const LabourWork: string := "Labour Work"

  /** `extracted_personal`: the record's own fields pass through, except the
      date of birth, which is reformatted; `nature_of_work` defaults to
      "Labour Work" only when it is missing. */
  datatype PersonalDetails = PersonalDetails(
    source: PersonalRecord, dateOfBirth: Option<string>, age: Option<int>,
    natureOfWork: Option<string>, calculatedStatus: string, eligibleSchemes: seq<string>)

  /** `full_registration_data`. */
  datatype FullRegistration = FullRegistration(
    personal: PersonalDetails, district: Option<string>, dependents: seq<MemberInfo>, nominees: seq<MemberInfo>)

  /** `registration_details`: the summary, and the extracted data when the reply
      held personal details. */
  datatype RegistrationDetails = RegistrationDetails(summary: string, full: Option<FullRegistration>)

  /** The registration value and the `registration_details_error` key. */
  datatype RegistrationOutcome = RegistrationOutcome(details: Option<RegistrationDetails>, error: Option<string>)

  /** The first personal record of a successful reply with a data block. */
  function PersonalOf(reg: RegistrationBody): Option<PersonalRecord> {
    if reg.success && reg.data.Some? && reg.data.value.personal != [] then Some(reg.data.value.personal[0]) else None
  }

  function PersonalDetailsOf(cal: Calendar, clock: Clock, p: PersonalRecord, prior: seq<SchemeInfo>): PersonalDetails {
    var birth := BirthOf(cal, clock, p.dateOfBirth);
    PersonalDetails(
      p, birth.dateOfBirth, birth.age,
      GetOr(p.natureOfWork, LabourWork),
      ValidityOf(cal, clock, p.validityTo).status,
      EligibilityTitles(FactsOf(cal, clock, p, prior), AllNamed(prior), p.gender.Null?))
  }

  /** `data_block.get("family_details", [])` of a block whose family is not `null`. */
  function FamilyOf(block: DataBlock): seq<FamilyMember> {
    if block.family.Given? then block.family.value else []
  }

  /** The extraction, which raises (leaving `full_registration_data` empty) when
      `family_details` is `null`: iterating over `None` fails. */
  predicate ExtractionRaises(block: DataBlock) {
    block.family.Null?
  }

  function FullRegistrationOf(cal: Calendar, clock: Clock, block: DataBlock, p: PersonalRecord, prior: seq<SchemeInfo>): FullRegistration {
    FullRegistration(
      PersonalDetailsOf(cal, clock, p, prior),
      if block.address != [] then block.address[0].district else None,
      Dependents(FamilyOf(block)), Nominees(FamilyOf(block)))
  }

  /** The registration section, reading the schemes the first section left. */
  function RegistrationSectionOf(b: Backend, cal: Calendar, clock: Clock, schemes: SchemesValue): RegistrationOutcome {
    match b.registration
    case Raised(message) => RegistrationOutcome(None, Some(message))
    case Answered(code, text, body) =>
      if code != 200 then RegistrationOutcome(None, Some(text))
      else match body
        case Err(message) => RegistrationOutcome(None, Some(message))
        case Ok(reg) =>
          var personal := PersonalOf(reg);
          var regCode := if personal.Some? then personal.value.registrationCode else None;
          var full := if personal.Some? && !ExtractionRaises(reg.data.value)
            then Some(FullRegistrationOf(cal, clock, reg.data.value, personal.value, PriorInfos(schemes)))
            else None;
          RegistrationOutcome(Some(RegistrationDetails(SummaryOf(b, regCode), full)), None)
  }

  /** The personal details as the code extracts them. */
  method ExtractPersonal(cal: Calendar, clock: Clock, p: PersonalRecord, prior: seq<SchemeInfo>) returns (details: PersonalDetails)
    ensures details == PersonalDetailsOf(cal, clock, p, prior)
  {
    var birth := BirthOf(cal, clock, p.dateOfBirth);
    var validity := ValidityOf(cal, clock, p.validityTo);
    var facts, named := GatherFacts(cal, clock, p, prior);
    var eligible := ListEligibility(facts, named, p.gender.Null?);
    details := PersonalDetails(
      p, birth.dateOfBirth, birth.age, GetOr(p.natureOfWork, LabourWork), validity.status, eligible);
  }

  /** The values the eligibility rules read, as the code computes them. */
  method GatherFacts(cal: Calendar, clock: Clock, p: PersonalRecord, prior: seq<SchemeInfo>)
    returns (facts: Facts, named: bool)
    ensures named == AllNamed(prior)
    ensures named ==> facts == FactsOf(cal, clock, p, prior)
  {
    var birth := BirthOf(cal, clock, p.dateOfBirth);
    var validity := ValidityOf(cal, clock, p.validityTo);
    var earlier;
    earlier, named := ScanPriorSchemes(cal, prior);
    facts := Facts(
      validity.isActive, validity.isBuffer, clock.year, ValidFromYear(cal, p.validityFrom),
      p.gender.Given? && Lower(p.gender.value) == "female",
      birth.age, earlier.pensionApproved, DisabilityDue(clock, earlier), DisabilityOverflows(earlier));
  }

  /** The registration section as the code runs it. */
  method FetchRegistration(b: Backend, cal: Calendar, clock: Clock, schemes: SchemesValue) returns (outcome: RegistrationOutcome)
    ensures outcome == RegistrationSectionOf(b, cal, clock, schemes)
  {
    match b.registration
    case Raised(message) =>
      outcome := RegistrationOutcome(None, Some(message));
    case Answered(code, text, body) =>
      if code != 200 {
        outcome := RegistrationOutcome(None, Some(text));
      } else if body.Err? {
        outcome := RegistrationOutcome(None, Some(body.error));
      } else {
        var reg := body.value;
        var regCode: Option<string> := None;
        var full: Option<FullRegistration> := None;
        if reg.success && reg.data.Some? && reg.data.value.personal != [] {
          var block := reg.data.value;
          var p := block.personal[0];
          regCode := p.registrationCode;
          var personal := ExtractPersonal(cal, clock, p, PriorInfos(schemes));
          var district := if block.address != [] then block.address[0].district else None;
          if !block.family.Null? {
            var dependents, nominees := SplitFamily(FamilyOf(block));
            full := Some(FullRegistration(personal, district, dependents, nominees));
          }
        }
        var summary := BuildSummary(b, regCode);
        outcome := RegistrationOutcome(Some(RegistrationDetails(summary, full)), None);
      }
  }

  /** The section sets its error key exactly when it leaves no details, and the
      details (always carrying a summary) are present exactly when the reply was
      a 200 that decoded. */
  lemma RegistrationErrorExclusive(b: Backend, cal: Calendar, clock: Clock, schemes: SchemesValue)
    ensures RegistrationSectionOf(b, cal, clock, schemes).error.Some? <==> RegistrationSectionOf(b, cal, clock, schemes).details.None?
    ensures RegistrationSectionOf(b, cal, clock, schemes).details.Some? <==>
      b.registration.Answered? && b.registration.code == 200 && b.registration.body.Ok?
  {
  }

  /** Extracted data is present exactly when the reply reported success with a
      non-empty list of personal details and a family list that is not `null`. */
  lemma FullDataExactly(b: Backend, cal: Calendar, clock: Clock, schemes: SchemesValue)
    requires RegistrationSectionOf(b, cal, clock, schemes).details.Some?
    ensures RegistrationSectionOf(b, cal, clock, schemes).details.value.full.Some? <==>
      PersonalOf(b.registration.body.value).Some? && !b.registration.body.value.data.value.family.Null?
  {
  }
}
