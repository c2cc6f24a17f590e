/** What the user-data aggregation receives from the outside world: the
    backend's reply to each request, the date parser and the clock. Every HTTP
    call is an input value. A record field that the reply leaves out or sets
    to `null` is `None`, except where the code tells the two apart: those
    fields are a `Field`. */
module ApiInputs {
  import opened Common

  const SecondsPerDay: int := 86400

  /** `datetime.min`, in seconds from 1970-01-01. */
  const MinInstant: int := -62135596800

  /** The outcome of one HTTP call: it raised (network failure, timeout), or it
      answered with a status code, a text, and a body that `json()` either decodes
      or refuses with an error message. */
  datatype Call<T> =
    | Raised(message: string)
    | Answered(code: int, text: string, body: Result<T, string>)

  /** `datetime.max`, 9999-12-31T23:59:59, in wall-clock seconds from 1970-01-01. */
  const MaxWall: int := 253402300799

  /** A parsed `datetime`: an instant in seconds (wall-clock seconds for a naive
      one), its UTC offset in seconds (0 for a naive one), whether it carries a
      time zone, its calendar year and its `%Y-%m-%d` rendering. */
  datatype DateTime = DateTime(instant: int, offset: int, aware: bool, year: int, ymd: string)

  /** The wall-clock reading of a datetime, which is what `datetime` arithmetic
      works on. */
  function Wall(d: DateTime): int {
    d.instant + d.offset
  }

  /** Adding `delta` seconds to a datetime whose wall clock reads `wall` raises
      OverflowError: the result would pass `datetime.max`. (Only whole seconds
      are modelled; as the deltas are whole days the fraction cannot decide it.) */
  predicate AddOverflows(wall: int, delta: int) {
    wall + delta > MaxWall
  }

  /** The date parsers the code calls: `datetime.fromisoformat` and
      `datetime.strptime(_, "%Y-%m-%d")`; `None` where they raise. */
  datatype Calendar = Calendar(fromIso: string -> Option<DateTime>, fromYmd: string -> Option<DateTime>)

  /** `datetime.now()`: the current instant and year. */
  datatype Clock = Clock(now: int, year: int)

  /** One entry of the `get_schemes_by_labor` reply. */
  datatype SchemeRecord = SchemeRecord(
    schemeId: Json, appliedDate: Field<string>, applicationCode: Json, schemeName: Field<string>)

  /** The first item of a scheme-status reply. */
  datatype StatusItem = StatusItem(applicationStatus: Option<string>, status: Option<string>, id: Json)

  /** A scheme-status reply: its `success` flag (as truthiness) and its `data` list. */
  datatype StatusBody = StatusBody(success: bool, items: seq<StatusItem>)

  /** One entry of a rejection-reason reply. */
  datatype ReasonRecord = ReasonRecord(rejectionReason: Option<string>)

  datatype ReasonsBody = ReasonsBody(success: bool, data: seq<ReasonRecord>)

  /** The `data` of a registration or renewal status reply. */
  datatype LabourStatus = LabourStatus(status: Option<string>, labourUserId: Json, certificateId: Json)

  /** A registration or renewal status reply; `data` is `None` when absent or empty. */
  datatype LabourStatusBody = LabourStatusBody(success: bool, data: Option<LabourStatus>)

  datatype PersonalRecord = PersonalRecord(
    registrationCode: Option<string>, firstName: Option<string>, lastName: Option<string>,
    mobileNo: Option<string>, maritalStatus: Option<string>, dateOfBirth: Option<string>,
    natureOfWork: Field<string>, gender: Field<string>, isApproved: Json,
    approvedDate: Option<string>, validityFrom: Option<string>, validityTo: Option<string>)

  datatype AddressRecord = AddressRecord(district: Option<string>)

  datatype FamilyMember = FamilyMember(
    relation: Option<string>, firstName: Option<string>, lastName: Option<string>, isNominee: Json)

  /** The `data` block of the registration-details reply; `None` when absent or empty. */
  datatype DataBlock = DataBlock(personal: seq<PersonalRecord>, address: seq<AddressRecord>, family: Field<seq<FamilyMember>>)

  datatype RegistrationBody = RegistrationBody(success: bool, data: Option<DataBlock>)

  /** The backend's reply to every request the aggregation can make for one user:
      the schemes list (already reduced to its `data` list, empty when the reply is
      not an object), the status of a scheme application by (scheme id,
      application code), the rejection reasons of a scheme application by its
      avail id, the renewal date, the registration details, the registration or
      renewal status by ("register" or "renewal", application number), and the
      registration rejection reasons by (labour user id, certificate id). */
  datatype Backend = Backend(
    schemes: Call<seq<SchemeRecord>>,
    schemeStatus: (Json, Json) -> Call<StatusBody>,
    schemeReasons: Json -> Call<ReasonsBody>,
    renewal: Call<Json>,
    registration: Call<RegistrationBody>,
    labourStatus: (string, string) -> Call<LabourStatusBody>,
    registrationReasons: (Json, Json) -> Call<ReasonsBody>)

  /** `s.replace("Z", "+00:00")`, applied before every `fromisoformat`. */
  function ReplaceZ(s: string): (r: string)
    ensures 'Z' !in r
    ensures 'Z' !in s ==> r == s
  {
    if s == [] then []
    else (if s[0] == 'Z' then "+00:00" else [s[0]]) + ReplaceZ(s[1..])
  }

  /** `datetime.fromisoformat(s.replace("Z", "+00:00"))`. */
  function ParseIso(cal: Calendar, s: string): Option<DateTime> {
    cal.fromIso(ReplaceZ(s))
  }
}
