/** `fetch_user_data`: the three sections (schemes, renewal date, registration
    details) run one after the other over the backend's replies and fill one
    aggregated record, whose fetch status ends "completed" whatever failed. */
module ExternalApi {
  import opened Common
  import opened ApiInputs
  import opened SchemesSection
  import opened RegistrationSection

  // ---------------------------------------------------------------------
  // Request headers
  // ---------------------------------------------------------------------

  const BrowserAgent: string :=
    "Mozilla/5.0 (Macintosh; Intel Mac OS X 10_15_7) AppleWebKit/537.36 (KHTML, like Gecko) Chrome/143.0.0.0 Safari/537.36"

  /** The headers the client sends. */
  datatype HeaderName = Accept | Authorization | ContentType | Origin | Referer | UserAgent

  function NameText(n: HeaderName): string {
    match n
    case Accept => "Accept"
    case Authorization => "Authorization"
    case ContentType => "Content-Type"
    case Origin => "Origin"
    case Referer => "Referer"
    case UserAgent => "User-Agent"
  }

  datatype Header = Header(name: HeaderName, value: string)

  /** The origin of the configured backend URL, `scheme://netloc`. */
  function BaseOrigin(scheme: string, netloc: string): (r: string)
    ensures StartsWith(r, scheme) && EndsWith(r, netloc)
  {
    assert (scheme + "://" + netloc)[..|scheme|] == scheme;
    assert (scheme + "://" + netloc)[|scheme + "://"|..] == netloc;
    scheme + "://" + netloc
  }

  /** `_build_headers`, in the dictionary's order. */
  function BuildHeaders(token: string, origin: string): seq<Header> {
    [ Header(Accept, "application/json, text/plain, */*"),
      Header(Authorization, "Bearer " + token),
      Header(ContentType, "application/json"),
      Header(Origin, origin),
      Header(Referer, origin + "/u/home"),
      Header(UserAgent, BrowserAgent) ]
  }

  /** The value of the first header with this name. */
  function Lookup(headers: seq<Header>, name: HeaderName): Option<string> {
    if headers == [] then None
    else if headers[0].name == name then Some(headers[0].value)
    else Lookup(headers[1..], name)
  }

  /** Every header is sent. */
  lemma HeadersComplete(token: string, origin: string)
    ensures forall n :: Lookup(BuildHeaders(token, origin), n).Some?
  {
    var h := BuildHeaders(token, origin);
    forall n ensures Lookup(h, n).Some? {
      assert h[HeaderIndex(n)].name == n;
      LookupFirst(h, HeaderIndex(n));
    }
  }

  /** The bearer token is the authorization, the origin is sent as such, and
      the referer is the origin's home page. */
  lemma HeadersCarryToken(token: string, origin: string)
    ensures Lookup(BuildHeaders(token, origin), Authorization) == Some("Bearer " + token)
    ensures Lookup(BuildHeaders(token, origin), Origin) == Some(origin)
    ensures Lookup(BuildHeaders(token, origin), Referer) == Some(origin + "/u/home")
    ensures Lookup(BuildHeaders(token, origin), ContentType) == Some("application/json")
  {
    var h := BuildHeaders(token, origin);
    LookupFirst(h, 1);
    LookupFirst(h, 2);
    LookupFirst(h, 3);
    LookupFirst(h, 4);
  }

  /** A header no earlier header shares a name with is the one found. */
  lemma {:induction false} LookupFirst(headers: seq<Header>, i: nat)
    requires i < |headers|
    requires forall j :: 0 <= j < i ==> headers[j].name != headers[i].name
    ensures Lookup(headers, headers[i].name) == Some(headers[i].value)
  {
    if i > 0 {
      assert forall j :: 0 <= j < i - 1 ==> headers[1..][j] == headers[j + 1];
      LookupFirst(headers[1..], i - 1);
    }
  }

  /** Where each header stands in the dictionary. */
  function HeaderIndex(n: HeaderName): nat {
    match n
    case Accept => 0
    case Authorization => 1
    case ContentType => 2
    case Origin => 3
    case Referer => 4
    case UserAgent => 5
  }

  /** Different headers are sent under different names. */
  lemma HeaderNamesDistinct(n: HeaderName, m: HeaderName)
    requires n != m
    ensures NameText(n) != NameText(m)
  {
  }

  /** Only the authorization header depends on the token. */
  lemma HeadersIndependentOfToken(t: string, t': string, origin: string, n: HeaderName)
    requires n != Authorization
    ensures Lookup(BuildHeaders(t, origin), n) == Lookup(BuildHeaders(t', origin), n)
  {
    var h, h' := BuildHeaders(t, origin), BuildHeaders(t', origin);
    assert h[1..] == [h[1]] + h[2..] && h'[1..] == [h'[1]] + h'[2..];
    assert h[2..] == h'[2..];
  }

  // ---------------------------------------------------------------------
  // The renewal-date section
  // ---------------------------------------------------------------------

  /** The `renewal_date` value and the `renewal_date_error` key. */
  datatype RenewalOutcome = RenewalOutcome(value: Option<Json>, error: Option<string>)

  function RenewalSectionOf(b: Backend): (r: RenewalOutcome)
    ensures r.error.Some? <==> r.value.None?
    ensures r.value.Some? <==> b.renewal.Answered? && b.renewal.code == 200 && b.renewal.body.Ok?
    ensures r.value.Some? ==> r.value.value == b.renewal.body.value
  {
    match b.renewal
    case Raised(message) => RenewalOutcome(None, Some(message))
    case Answered(code, text, body) =>
      if code != 200 then RenewalOutcome(None, Some(text))
      else match body
        case Ok(j) => RenewalOutcome(Some(j), None)
        case Err(message) => RenewalOutcome(None, Some(message))
  }

  // ---------------------------------------------------------------------
  // The aggregated record
  // ---------------------------------------------------------------------

  const Partial: string := "partial"
  const Completed: string := "completed"

  /** `aggregated_data`; an error key that was never set is `None`. */
  datatype UserData = UserData(
    userId: string,
    schemes: SchemesValue, schemesError: Option<string>,
    renewalDate: Option<Json>, renewalDateError: Option<string>,
    registrationDetails: Option<RegistrationDetails>, registrationDetailsError: Option<string>,
    fetchStatus: string)

  /** The record the aggregation returns. The registration section reads the
      schemes the first section left. */
  function UserDataOf(b: Backend, cal: Calendar, clock: Clock, userId: string): UserData {
    var schemes := SchemesSectionOf(b, cal);
    var renewal := RenewalSectionOf(b);
    var registration := RegistrationSectionOf(b, cal, clock, schemes.value);
    UserData(
      userId, schemes.value, schemes.error, renewal.value, renewal.error,
      registration.details, registration.error, Completed)
  }

  /** The renewal-date section as the code runs it. */
  method FetchRenewalDate(b: Backend) returns (outcome: RenewalOutcome)
    ensures outcome == RenewalSectionOf(b)
  {
    outcome := RenewalOutcome(None, None);
    match b.renewal
    case Raised(message) =>
      outcome := outcome.(error := Some(message));
    case Answered(code, text, body) =>
      if code == 200 {
        if body.Ok? {
          outcome := outcome.(value := Some(body.value));
        } else {
          outcome := outcome.(error := Some(body.error));
        }
      } else {
        outcome := outcome.(error := Some(text));
      }
  }

  /** `fetch_user_data`: the record starts partial with every value unset, each
      section fills its keys, and the status is set to completed at the end. */
  method FetchUserData(b: Backend, cal: Calendar, clock: Clock, userId: string) returns (data: UserData)
    ensures data == UserDataOf(b, cal, clock, userId)
  {
    data := UserData(userId, NoSchemes, None, None, None, None, None, Partial);
    var schemes := FetchSchemes(b, cal);
    data := data.(schemes := schemes.value, schemesError := schemes.error);
    var renewal := FetchRenewalDate(b);
    data := data.(renewalDate := renewal.value, renewalDateError := renewal.error);
    var registration := FetchRegistration(b, cal, clock, data.schemes);
    data := data.(registrationDetails := registration.details, registrationDetailsError := registration.error);
    data := data.(fetchStatus := Completed);
  }

  // ---------------------------------------------------------------------
  // Properties of the aggregation
  // ---------------------------------------------------------------------

  /** Each section either leaves its value or sets its error key, never both,
      and the record always ends completed for the requested user. */
  lemma SectionsReportExclusively(b: Backend, cal: Calendar, clock: Clock, userId: string)
    ensures UserDataOf(b, cal, clock, userId).fetchStatus == Completed
    ensures UserDataOf(b, cal, clock, userId).userId == userId
    ensures UserDataOf(b, cal, clock, userId).schemesError.Some? <==> UserDataOf(b, cal, clock, userId).schemes == NoSchemes
    ensures UserDataOf(b, cal, clock, userId).renewalDateError.Some? <==> UserDataOf(b, cal, clock, userId).renewalDate.None?
    ensures UserDataOf(b, cal, clock, userId).registrationDetailsError.Some? <==>
      UserDataOf(b, cal, clock, userId).registrationDetails.None?
  {
    SchemesErrorExclusive(b, cal);
    RegistrationErrorExclusive(b, cal, clock, SchemesSectionOf(b, cal).value);
  }

  /** The registration details are present exactly when that reply was a 200
      that decoded, and then they carry the status summary for the registration
      code of the first personal record. */
  lemma RegistrationDetailsExactly(b: Backend, cal: Calendar, clock: Clock, userId: string)
    ensures UserDataOf(b, cal, clock, userId).registrationDetails.Some? <==>
      b.registration.Answered? && b.registration.code == 200 && b.registration.body.Ok?
    ensures UserDataOf(b, cal, clock, userId).registrationDetails.Some? ==>
      var p := PersonalOf(b.registration.body.value);
      UserDataOf(b, cal, clock, userId).registrationDetails.value.summary
        == SummaryOf(b, if p.Some? then p.value.registrationCode else None)
  {
    RegistrationErrorExclusive(b, cal, clock, SchemesSectionOf(b, cal).value);
  }

  /** The registration section sees the schemes section only through the scheme
      blocks it produced. */
  lemma RegistrationReadsOnlySchemeBlocks(b: Backend, cal: Calendar, clock: Clock, v: SchemesValue, v': SchemesValue)
    requires PriorInfos(v) == PriorInfos(v')
    ensures RegistrationSectionOf(b, cal, clock, v) == RegistrationSectionOf(b, cal, clock, v')
  {
  }

  /** A failed schemes section leaves the registration exactly as if the user
      had applied for no scheme. */
  lemma FailedSchemesLikeNoneApplied(b: Backend, cal: Calendar, clock: Clock, userId: string)
    requires UserDataOf(b, cal, clock, userId).schemesError.Some?
    ensures UserDataOf(b, cal, clock, userId).registrationDetails
      == RegistrationSectionOf(b, cal, clock, NoneApplied).details
  {
    SchemesErrorExclusive(b, cal);
    RegistrationReadsOnlySchemeBlocks(b, cal, clock, SchemesSectionOf(b, cal).value, NoneApplied);
  }

  /** The schemes section reads only the schemes, status and reasons replies;
      the renewal section only the renewal reply. */
  lemma SectionsIndependent(b: Backend, b': Backend, cal: Calendar, clock: Clock, userId: string)
    requires b.schemes == b'.schemes && b.schemeStatus == b'.schemeStatus && b.schemeReasons == b'.schemeReasons
    ensures UserDataOf(b, cal, clock, userId).schemes == UserDataOf(b', cal, clock, userId).schemes
    ensures UserDataOf(b, cal, clock, userId).schemesError == UserDataOf(b', cal, clock, userId).schemesError
    ensures b.renewal == b'.renewal ==>
      UserDataOf(b, cal, clock, userId).renewalDate == UserDataOf(b', cal, clock, userId).renewalDate
  {
    if b.schemes.Answered? && b.schemes.code == 200 && b.schemes.body.Ok? && b.schemes.body.value != [] {
      var d := Dedup(cal, b.schemes.body.value);
      if d.Ok? {
        MapPointwise(InfoFor(b), InfoFor(b'), d.value);
      }
    }
  }
}
