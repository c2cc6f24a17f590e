# devstral24b core, modelled in Dafny

This project models the sequential core of a chat backend for a labour-welfare
board. The core has six parts:

- **User-data aggregation** (`app/external_api.py`). It fetches a worker's applied
  schemes, renewal date and registration details from the board's backend and
  folds them into one record. Within that record it:
  - deduplicates the applied schemes by id, keeping the latest application;
  - collects each scheme's current status and its rejection reasons;
  - classifies the registration's validity window;
  - decides which welfare schemes the worker is eligible for;
  - splits the family into dependents and nominees;
  - builds the registration/renewal summary line.
- **Conversation store** (`app/database.py`). It has three tables:
  - threads;
  - messages, listed by `(created_at, rowid)`;
  - a user-data cache with one entry per thread and user.

  It also runs a retention sweep.
- **Request validation** (`app/schemas.py`). Message length and blankness, field
  lengths, and normalisation of the language code against its whitelist.
- **Chunk formatting** (`app/chunker.py`). Each header-splitter document is
  prefixed with the headers it sits under.
- **Result analysis** (`analyze_results.py`). A result file is cut at dash rules,
  each bracketed block is judged against the status it expects, and per-file
  and overall counts are kept.
- **Result writer** (`tests/helpers.py`). The append-only line buffer the test
  scripts fill with fixed-format blocks and save.

Modules and files:

| file | module | models |
|---|---|---|
| `common.dfy` | `Common` | Option/Result/Json; the Python string built-ins the core uses (`strip`, `lower`, `split`, `join`, `in`, `startswith`, `str(int)`, `int(str)`); generic `Map`/`Filter`/`Any` |
| `api_inputs.dfy` | `ApiInputs` | the backend's replies, the date parsers and the clock, as input values |
| `schemes_section.dfy` | `SchemesSection` | section 1 of `fetch_user_data`: dedup, status and reasons per scheme |
| `registration_section.dfy` | `RegistrationSection` | section 3: validity, age, prior-scheme scan, eligibility, family, summary |
| `external_api.dfy` | `ExternalApi` | `_build_headers`, section 2 (renewal date), the aggregated record |
| `database.dfy` | `Database` | the `ConversationStore` class and the query functions it is specified by |
| `schemas.dfy` | `Schemas` | `MessageRequest` validation |
| `chunker.dfy` | `Chunker` | `chunk_markdown`'s formatting loop |
| `analyze_results.dfy` | `AnalyzeResults` | `analyze_file` and `main`'s totals |
| `test_helpers.dfy` | `TestHelpers` | the `ResultWriter` class |

The code's loops, and the methods that change state, are Dafny methods. Each is
proved equal to a specification function, and the properties are lemmas about
those functions:

- the dedup loop, the scheme-status loop, the prior-scheme scan and the eligibility appends;
- the family split and the summary `+=` chain;
- the chunk loop;
- the analyzer's section, line and file loops;
- the writer's methods;
- the store's mutating operations.

The model has these conventions:

- Every HTTP call is an input: it raised, or it answered with a status code, a
  text and a body that decoded or not.
- Dates are instants in whole seconds. The two parsers the code uses are
  `Calendar` functions, and `datetime.now()` is a `Clock`.
- In the store, "now" and fresh ids are parameters.

## Model

| member | source | states |
|---|---|---|
| ExternalApi.BuildHeaders | app/external_api.py:22-34 | the six headers in the dictionary's order; `HeadersComplete`, `HeadersCarryToken`, `HeaderNamesDistinct` and `HeadersIndependentOfToken` state its properties (a specification function with no contract of its own) |
| ExternalApi.UserDataOf | app/external_api.py:47-519 | the aggregated record: the three sections, the user id and "completed", with the registration section reading the schemes section's value; `FetchUserData`, `SectionsReportExclusively` and `SectionsIndependent` state its properties (a specification function with no contract of its own) |
| ExternalApi.BaseOrigin | app/external_api.py:18-19 | the origin starts with the URL's scheme and ends with its host |
| ExternalApi.HeadersComplete | app/external_api.py:22-34 | every one of the six headers is sent |
| ExternalApi.HeadersCarryToken | app/external_api.py:22-34 | Authorization is "Bearer " + token, Origin is the base origin, Referer is origin + "/u/home", Content-Type is JSON |
| ExternalApi.HeaderNamesDistinct | app/external_api.py:22-34 | different headers go out under different names |
| ExternalApi.HeadersIndependentOfToken | app/external_api.py:22-34 | only the Authorization header depends on the token |
| ExternalApi.RenewalSectionOf | app/external_api.py:189-206 | either the renewal date or its error key is set, never both; the date is set exactly for a 200 reply whose body decoded, and it is that body |
| ExternalApi.FetchRenewalDate | app/external_api.py:189-206 | the renewal section as the code runs it equals `RenewalSectionOf` |
| ExternalApi.FetchUserData | app/external_api.py:47-53 | the record built step by step (partial, the three sections, then completed) equals `UserDataOf` |
| ExternalApi.SectionsReportExclusively | app/external_api.py:47-519 | each section sets its value or its error key, never both; `fetch_status` always ends "completed" and `user_id` is the requested one |
| ExternalApi.RegistrationDetailsExactly | app/external_api.py:224-517 | registration details exist exactly for a 200 reply that decoded, and their summary is the summary for the first personal record's registration code |
| ExternalApi.RegistrationReadsOnlySchemeBlocks | app/external_api.py:289-293 | the registration section depends on the schemes section only through the scheme blocks it produced |
| ExternalApi.FailedSchemesLikeNoneApplied | app/external_api.py:289-293 | a failed schemes section leaves the registration details as if no scheme had been applied for |
| ExternalApi.SectionsIndependent | app/external_api.py:61-206 | the schemes section reads only the schemes, status and reason replies; the renewal date reads only its own reply |
| SchemesSection.Dedup | app/external_api.py:83-103 | the processed list, or the loop's error; `DedupOnePerId`, `DedupKeepsEveryId`, `DedupInFirstOccurrenceOrder`, `DedupKeepsLatest` and `DedupSucceedsExactly` state its properties (a specification function with no contract of its own) |
| SchemesSection.RejectionReasons | app/external_api.py:153-156 | the truthy `rejection_reason` values in record order; `RejectionReasonsExact` states its property (a specification function with no contract of its own) |
| SchemesSection.SchemeInfoOf | app/external_api.py:107-174 | one scheme's block from its status and reason replies; `UnfetchedExactly`, `StatusDetailsCases` and `ReasonsOnlyWhenRejected` state its properties (a specification function with no contract of its own) |
| SchemesSection.SchemesSectionOf | app/external_api.py:61-184 | the schemes value and error key: an error for a raised call, a non-200 code, an undecodable body or a failed dedup, "No schemes applied." for an empty list, else one block per processed scheme; `SchemesErrorExclusive` and `SchemesOneBlockPerId` state its properties (a specification function with no contract of its own) |
| SchemesSection.StampOf | app/external_api.py:86-96 | a missing, empty or unparseable applied date counts as `datetime.min` |
| SchemesSection.DedupPrefix | app/external_api.py:83-101 | every key in the table's insertion order has an entry |
| SchemesSection.DedupWellFormed | app/external_api.py:83-101 | the dict's key order has no repeats and holds exactly its keys |
| SchemesSection.StepWellFormed | app/external_api.py:84-101 | one loop iteration keeps the dict well formed |
| SchemesSection.Values | app/external_api.py:103 | `processed_list` has one scheme per key, in key order, each the kept scheme for that key |
| SchemesSection.DedupStep | app/external_api.py:84-101 | one iteration as the code runs it (skip a falsy id, insert a new id, replace on a strictly later date, fail on an unhashable id or a naive/aware comparison) gives the table after one more scheme |
| SchemesSection.DedupSchemes | app/external_api.py:83-103 | the dedup loop as the code runs it equals `Dedup`, including its errors |
| SchemesSection.DedupPrefixStep | app/external_api.py:84-101 | the table after k+1 schemes is one step after the table after k |
| SchemesSection.ErrorPersists | app/external_api.py:84-101 | once the loop raises, the section fails with that error |
| SchemesSection.DedupKeys | app/external_api.py:85-99 | a key is in the table exactly when some scheme so far has that truthy id |
| SchemesSection.StepKeys | app/external_api.py:87-101 | a step adds at most the current scheme's id to the keys |
| SchemesSection.OccursStep | app/external_api.py:85-88 | an id has occurred in k schemes exactly when it occurred in k-1 or is the k-th scheme's id |
| SchemesSection.DedupKeepsBest | app/external_api.py:98-101 | every kept entry is a scheme with that id whose date no other scheme with that id beats, the earliest such on ties |
| SchemesSection.BestEntryStep | app/external_api.py:98-101 | after one more scheme every entry is still the best for its id |
| SchemesSection.KeptBestExtends | app/external_api.py:98-101 | a scheme with another id does not change which one is best |
| SchemesSection.KeptBestOnTie | app/external_api.py:100 | an equal or earlier date keeps the earlier scheme (strict `>`) |
| SchemesSection.KeptBestReplaced | app/external_api.py:100-101 | a strictly later date makes the new scheme the best |
| SchemesSection.KeptBestFirst | app/external_api.py:98-99 | the first scheme with an id is the best so far |
| SchemesSection.StepShape | app/external_api.py:98-101 | a step leaves the key order alone or appends the new id |
| SchemesSection.FirstOccurrenceSameKeys | app/external_api.py:98-101 | the key order stays in first-occurrence order when no new id arrives |
| SchemesSection.FirstOccurrenceAppend | app/external_api.py:98-99 | a new id appended at the end keeps first-occurrence order |
| SchemesSection.DedupOrder | app/external_api.py:98-103 | the key order is the order in which the ids first occur |
| SchemesSection.DedupValueAt | app/external_api.py:103 | the k-th processed scheme has the k-th key as its id and is the best scheme for it |
| SchemesSection.DedupOnePerId | app/external_api.py:83-103 | every processed scheme has a truthy id and comes from the input; no two share an id |
| SchemesSection.DedupKeepsEveryId | app/external_api.py:83-103 | every truthy id of the input has a processed scheme |
| SchemesSection.DedupInFirstOccurrenceOrder | app/external_api.py:83-103 | processed schemes are listed in the order their ids first occur |
| SchemesSection.DedupKeepsLatest | app/external_api.py:90-103 | each processed scheme is the latest-dated one with its id, the earliest on ties |
| SchemesSection.DedupSucceedsExactly | app/external_api.py:83-101 | the loop succeeds exactly when all ids are hashable and same-id dates are all naive or all aware |
| SchemesSection.DedupSucceedsPrefix | app/external_api.py:83-101 | the same, after any number of schemes |
| SchemesSection.ComparablePrefix | app/external_api.py:83-101 | a comparable prefix stays comparable when shortened |
| SchemesSection.StepKeepsComparable | app/external_api.py:84-101 | a step that succeeds keeps the prefix comparable |
| SchemesSection.StepKeepsHashable | app/external_api.py:85-98 | a step that succeeds had a hashable (or falsy) id |
| SchemesSection.StepKeepsKinds | app/external_api.py:90-100 | a step that succeeds compared dates of one kind |
| SchemesSection.SameKindAsLast | app/external_api.py:100 | any earlier scheme with the same id has a date of the same kind as the new one |
| SchemesSection.StepBreaksComparable | app/external_api.py:98-101 | a step that raises makes the prefix not comparable |
| SchemesSection.CollectReasons | app/external_api.py:153-156 | the reasons loop as the code runs it equals `RejectionReasons` |
| SchemesSection.RejectionReasonsExact | app/external_api.py:153-156 | the reasons are exactly the truthy `rejection_reason` values of the records, never more than the records |
| SchemesSection.FetchedReasons | app/external_api.py:150-158 | a reply that raised, failed to decode or lacks `success` gives no reasons |
| SchemesSection.AppliedDay | app/external_api.py:162 | the applied day is the part of the date before the first "T" |
| SchemesSection.BuildSchemeInfos | app/external_api.py:107-176 | the status loop as the code runs it gives one block per processed scheme, in order |
| SchemesSection.UnfetchedExactly | app/external_api.py:107-174 | a block is "Could not fetch real-time status." exactly when the status call raised, its body did not decode or `applied_date` is `null` (`.split` raises); the name is the scheme's, "Unknown Scheme" when the key is missing and None when it is `null`; a missing date gives an empty applied day |
| SchemesSection.StatusDetailsCases | app/external_api.py:130-142 | the status text is "Status check failed" exactly when the reply lacks success or items, and otherwise reads the first item |
| SchemesSection.ReasonsOnlyWhenRejected | app/external_api.py:144-166 | "Rejection Reasons" appears only for a Rejected first item with a truthy id and non-empty reasons, joined by "; " |
| SchemesSection.FetchSchemes | app/external_api.py:61-184 | the schemes section as the code runs it equals `SchemesSectionOf` |
| SchemesSection.SchemesErrorExclusive | app/external_api.py:72-184 | the schemes error key is set exactly when no schemes value is |
| SchemesSection.SchemesOneBlockPerId | app/external_api.py:76-176 | with schemes present, the section fails exactly when dedup is not comparable, and there is one block per deduplicated scheme |
| RegistrationSection.ValidityOf | app/external_api.py:255-284 | the validity status and flags, "Unknown" with neither flag when a year and 90 days after `validity_to` pass `datetime.max` (the `+ timedelta` raises); `ValidityWindows`, `ValidityUnknownExactly`, `LastDayIsUnknown` and `ValidityFlags` state its properties (a specification function with no contract of its own) |
| RegistrationSection.PriorOf | app/external_api.py:298-322 | the pension and disability flags and the disability date after the scan; `FlagsAreAny`, `PensionFlag`, `DisabilityFlag` and `DisabilityDateFrom` state its properties (a specification function with no contract of its own) |
| RegistrationSection.FactsOf | app/external_api.py:241-361 | the facts the rules read: validity flags, years, gender, age, the pension flag, whether a disability continuation is due, and whether adding its year to the disability date overflows; an overflow is never due and needs an approved disability block |
| RegistrationSection.Qualifies | app/external_api.py:324-366 | the rule of each catalogue scheme; `EligibleExactly` states what each rule admits (a specification function with no contract of its own) |
| RegistrationSection.EligibleSchemes | app/external_api.py:324-366 | the eight conditional appends in order; `EligibleIsCatalogueFilter`, `EligibleExactly` and `EligibilityOrder` state its properties (a specification function with no contract of its own) |
| RegistrationSection.PersonalDetailsOf | app/external_api.py:372-390 | the extracted personal record, its status from `ValidityOf` and its list from `EligibilityTitles`, date overflows included; `ExtractPersonal` is proved equal to it (a specification function with no contract of its own) |
| RegistrationSection.SummaryOf | app/external_api.py:434-501 | the registration summary line; `SummaryWithoutCode`, `SummaryOpensWithStatus`, `SummaryMarksFailure`, `RenewalOnlyAfterApproval`, `ReasonsOnlyForRejection` and `RejectedRegistrationReasons` state its properties (a specification function with no contract of its own) |
| RegistrationSection.RegistrationSectionOf | app/external_api.py:211-517 | the registration value and error key; `RegistrationErrorExclusive` and `FullDataExactly` state its properties (a specification function with no contract of its own) |
| RegistrationSection.ValidityWindows | app/external_api.py:263-282 | with a parsed `validity_to`: when its wall clock + 455 days passes `datetime.max` the status is "Unknown" with no flags; otherwise Active iff now ≤ to; Buffer iff to < now ≤ to+365d; Waiting iff to+365d < now ≤ to+455d; Expired iff now > to+455d |
| RegistrationSection.LastDayIsUnknown | app/external_api.py:263-283 | a `validity_to` on the last day `datetime` holds ("9999-12-31") gives "Unknown" with neither flag |
| RegistrationSection.ValidityUnknownExactly | app/external_api.py:255-284 | the status is "Unknown" exactly when `validity_to` is missing, empty, unparseable, or within 455 days of `datetime.max` |
| RegistrationSection.ValidityFlags | app/external_api.py:259-278 | `is_active` and `is_buffer` are never both set, and each matches its status |
| RegistrationSection.BirthOf | app/external_api.py:241-253 | the date of birth is rendered exactly when the age is computed |
| RegistrationSection.AgeBounds | app/external_api.py:246-251 | the age is the number of whole 365-day years in the time lived |
| RegistrationSection.SixtyYears | app/external_api.py:246-353 | age ≥ 60 exactly when at least 60×365 days have been lived |
| RegistrationSection.DisabilityOverflows | app/external_api.py:360-362 | an approved disability date + 365 days passes `datetime.max` (a specification predicate with no contract of its own) |
| RegistrationSection.DisabilityDue | app/external_api.py:360-366 | approved, dated, within range and over a year ago (a specification predicate with no contract of its own) |
| RegistrationSection.ScanPriorSchemes | app/external_api.py:299-322 | the scan over earlier scheme blocks stops exactly when some block's name is `null` (`.lower()` raises), and otherwise equals `PriorOf` |
| RegistrationSection.ScanBlock | app/external_api.py:301-322 | one iteration of the scan over a block with a name equals `PriorStep` |
| RegistrationSection.PriorOfNext | app/external_api.py:300-322 | the scan over one more block is one more step |
| RegistrationSection.NamedNext | app/external_api.py:300-301 | one more block with a name keeps the scanned prefix free of `null` names |
| RegistrationSection.FlagsAreAny | app/external_api.py:305-309 | the two flags are "some block is approved with pension / disability in its name" |
| RegistrationSection.PensionFlag | app/external_api.py:305-307 | `pension_approved` iff some block has "approved" in its lower-cased status and "pension" in its lower-cased name |
| RegistrationSection.DisabilityFlag | app/external_api.py:305-309 | `disability_approved` iff some block has "approved" in its status and "disability" in its name |
| RegistrationSection.DisabilityDateFrom | app/external_api.py:308-322 | a disability date comes from an approved disability block whose day parses |
| RegistrationSection.ValidFromYear | app/external_api.py:333-341 | a missing or empty `validity_from` leaves the year at 9999 |
| RegistrationSection.GatherFacts | app/external_api.py:241-361 | the facts as the code gathers them, date overflows included, equal `FactsOf` whenever no earlier block's name is `null`, and the flag it returns says exactly that |
| RegistrationSection.BuildEligibleSchemes | app/external_api.py:324-366 | the appends as the code runs them equal `EligibleSchemes` |
| RegistrationSection.Extend | app/external_api.py:325-366 | one conditional append |
| RegistrationSection.ListEligibility | app/external_api.py:287-370 | the eligibility block as the code runs it, with its handler for a `null` name or gender and for the disability date's overflow, equals `EligibilityTitles` |
| RegistrationSection.ErrorIsNoTitle | app/external_api.py:326-370 | "Error calculating schemes" is not the title of any scheme |
| RegistrationSection.EligibilityErrorExactly | app/external_api.py:298-370 | "Error calculating schemes" is listed exactly when an earlier block's name or the gender is `null` or the approved disability date + 365 days passes `datetime.max`; a `null` name makes it the only entry; an overflow follows the titles of `EligibleSchemes`; otherwise the list is those titles |
| RegistrationSection.EarlyBlocksPrefix | app/external_api.py:324-344 | the blocks appended before the gender is read are exactly the first four catalogue entries whose rules hold, and they open the full eligible list |
| RegistrationSection.EarlyIsJudged | app/external_api.py:324-330 | the first two blocks are the first four catalogue entries judged in turn |
| RegistrationSection.FirstFour | app/external_api.py:324-330 | the first four catalogue entries are the accident, funeral, medical and major-ailments schemes |
| RegistrationSection.EligibleIsCatalogueFilter | app/external_api.py:324-366 | the eligible list is the fixed catalogue filtered by the rules, in catalogue order |
| RegistrationSection.EligibleIsJudged | app/external_api.py:324-366 | the eligible list is the catalogue with each entry judged in turn |
| RegistrationSection.ValidityAndYearBlocks | app/external_api.py:325-351 | the first four blocks append what their rules admit |
| RegistrationSection.AgeAndDisabilityBlocks | app/external_api.py:353-366 | the last four blocks append what their rules admit |
| RegistrationSection.JudgedIsFilter | app/external_api.py:324-366 | judging entries one at a time is filtering by the rules |
| RegistrationSection.JudgedAppend | app/external_api.py:324-366 | judging distributes over concatenation |
| RegistrationSection.CatalogueBlocks | app/external_api.py:325-366 | the eight blocks together are the catalogue |
| RegistrationSection.AppendStep | app/external_api.py:325-366 | a block whose rule is shared by its entries is appended exactly as judging them would |
| RegistrationSection.JudgedUniform | app/external_api.py:325-351 | a block sharing one verdict is kept whole or dropped whole |
| RegistrationSection.CatalogueComplete | app/external_api.py:324-366 | every scheme has its place in the catalogue |
| RegistrationSection.EligibleExactly | app/external_api.py:325-366 | a scheme is listed iff its rule holds: accident/funeral iff active or buffer; medical/ailments iff active; marriage iff current year > validity-from year; maternity/Thayi Magu additionally female; pension iff age ≥ 60; continuation of pension iff age > 60 and pension approved; disability pension always; continuation of disability iff approved, dated, over a year ago and a year after it still within `datetime.max` |
| RegistrationSection.CatalogueFilter | app/external_api.py:324-366 | filtering the catalogue keeps exactly the schemes the rule admits |
| RegistrationSection.EligibilityOrder | app/external_api.py:324-366 | the eligible schemes are listed in the fixed catalogue order |
| RegistrationSection.CatalogueFilterOrdered | app/external_api.py:324-366 | a filtered catalogue is in catalogue order |
| RegistrationSection.TitlesDistinct | app/external_api.py:326-366 | different schemes are listed under different names |
| RegistrationSection.NoValidFromNoMarriage | app/external_api.py:333-351 | without a parseable `validity_from` neither marriage nor maternity assistance is listed (for years up to 9999) |
| RegistrationSection.NoLaterYearNoMarriage | app/external_api.py:346-351 | a current year not after the `validity_from` year lists neither marriage nor maternity assistance |
| RegistrationSection.SplitFamily | app/external_api.py:405-417 | the family loop as the code runs it gives `Dependents` and `Nominees` |
| RegistrationSection.NomineesSnoc | app/external_api.py:409-417 | one more member adds to the nominees exactly when `is_nominee` is truthy |
| RegistrationSection.NomineePositions | app/external_api.py:416-417 | nominee positions index the family |
| RegistrationSection.NomineesAreDependents | app/external_api.py:405-417 | one dependent per member in input order; the nominees are the dependents at the positions of truthy `is_nominee`, in increasing order |
| RegistrationSection.NomineePositionsExactly | app/external_api.py:416-417 | a position is a nominee position iff that member's `is_nominee` is truthy, and positions increase |
| RegistrationSection.NomineesAtPositions | app/external_api.py:405-417 | the k-th nominee is the member at the k-th nominee position |
| RegistrationSection.FetchRejectionReasons | app/external_api.py:525-551 | `_fetch_rejection_reasons` as the code runs it equals `FetchedReasons` on its reply |
| RegistrationSection.BuildSummary | app/external_api.py:434-499 | the `+=` chain as the code runs it equals `SummaryOf` |
| RegistrationSection.AppendStatusTail | app/external_api.py:452-499 | the parts appended after "Registration Status: S." |
| RegistrationSection.AppendRenewal | app/external_api.py:460-486 | the renewal part appended for an approved registration |
| RegistrationSection.AppendReasons | app/external_api.py:485-495 | " (Reason: a; b)" appended exactly when there are reasons |
| RegistrationSection.SummaryWithoutCode | app/external_api.py:434-501 | without a registration code the summary is "Registration details not found." |
| RegistrationSection.SummaryOpensWithStatus | app/external_api.py:452-458 | with status data the summary starts with "Registration Status: S." |
| RegistrationSection.SummaryMarksFailure | app/external_api.py:446-499 | a status or renewal call that raises ends the summary with " (verification failed)" |
| RegistrationSection.RenewalOnlyAfterApproval | app/external_api.py:460-477 | unless the registration is Approved, the renewal reply cannot change the summary |
| RegistrationSection.ReasonsOnlyForRejection | app/external_api.py:479-495 | unless the registration or its renewal is Rejected, the reason replies cannot change the summary |
| RegistrationSection.RejectedRegistrationReasons | app/external_api.py:488-495 | a Rejected registration's summary is the status line plus " (Reason: …)" exactly when reasons were found |
| RegistrationSection.ExtractPersonal | app/external_api.py:241-390 | the personal extraction as the code runs it equals `PersonalDetailsOf`: `nature_of_work` is "Labour Work" when missing and None when `null`; the status and the eligible list include the overflow cases |
| RegistrationSection.FetchRegistration | app/external_api.py:211-517 | the registration section as the code runs it, including the extraction that raises on a `null` family, equals `RegistrationSectionOf` |
| RegistrationSection.RegistrationErrorExclusive | app/external_api.py:224-517 | the error key is set exactly when no details are; details exist exactly for a 200 reply that decoded |
| RegistrationSection.FullDataExactly | app/external_api.py:229-507 | the extracted data is merged into the details exactly when the reply held a personal record and its `family_details` is not `null` (iterating over `None` raises and the handler leaves the data empty) |
| Database.ThreadListing | app/database.py:122-144 | a thread's messages ordered by `(created_at, rowid)`; `ListingExact` states its properties (a specification function with no contract of its own) |
| Database.PaginatedThreadMessages | app/database.py:147-181 | the page and the thread's total; `PaginationWindow` states its properties (a specification function with no contract of its own) |
| Database.RecentThreadMessages | app/database.py:184-212 | the newest `limit` messages re-sorted oldest first; `RecentIsSuffix` states its property (a specification function with no contract of its own) |
| Database.CachedUserData | app/database.py:218-242 | the decoded cached data; `CachedNoneCases` states its property (a specification function with no contract of its own) |
| Database.ReplaceEntry | app/database.py:252-256 | `INSERT OR REPLACE`: clashing rows deleted, the new one appended; `ReplaceKeepsCacheValid` and `LookupLast` state its properties (a specification function with no contract of its own) |
| Database.Cutoff | app/database.py:283-290 | the cutoff instant now − days, NULL for a negative day count; `CleanupKeeps` states its use (a specification function with no contract of its own) |
| Database.ConversationStore.ThreadExists | app/database.py:85-94 | a thread exists exactly when its id is a key of the threads table (a specification function with no contract of its own) |
| Database.ConversationStore.GetThreadMessages | app/database.py:122-144 | `ThreadListing` of the store's messages, as views (a specification function with no contract of its own) |
| Database.ConversationStore.GetPaginatedThreadMessages | app/database.py:147-181 | `PaginatedThreadMessages` of the store's messages (a specification function with no contract of its own) |
| Database.ConversationStore.GetRecentThreadMessages | app/database.py:184-212 | `RecentThreadMessages` of the store's messages (a specification function with no contract of its own) |
| Database.ConversationStore.GetCachedUserData | app/database.py:218-242 | `CachedUserData` of the store's cache; `SaveThenGet` states its property (a specification function with no contract of its own) |
| Database.NextRowid | app/database.py:38-47 | a new rowid is positive and above every existing one |
| Database.Sort | app/database.py:128 | the ordering is a permutation of the rows |
| Database.InsertSorted | app/database.py:128 | inserting into a sorted listing keeps it sorted |
| Database.SortSorted | app/database.py:128 | the listing is sorted by `(created_at, rowid)`, ascending or descending |
| Database.SortedUnique | app/database.py:128 | with distinct rowids there is only one sorted order of a set of rows |
| Database.ReverseSorted | app/database.py:193-194 | reversing a descending listing gives the ascending one |
| Database.Limit | app/database.py:193 | `LIMIT n` keeps the first min(n, len) rows; a negative limit keeps all |
| Database.Window | app/database.py:161-163 | `LIMIT ? OFFSET ?` is the slice from offset of length min(limit, rest), empty past the end |
| Database.CacheLookup | app/database.py:223-229 | a found entry is in the cache with that thread and user; none found means none exists |
| Database.ConversationStore.constructor | app/database.py:31-62 | the store starts with empty tables |
| Database.ConversationStore.CreateThread | app/database.py:73-82 | a fresh id is added with its creation time; a duplicate fails and changes nothing; other tables are untouched |
| Database.ConversationStore.AddMessage | app/database.py:97-119 | exactly one row is appended with the next rowid, iff the role is allowed, the id is fresh and the thread exists; rows already there are unchanged |
| Database.ConversationStore.SaveUserData | app/database.py:245-265 | the entry replaces any with the same id or the same thread and user; an unknown thread fails |
| Database.ConversationStore.CleanupOldData | app/database.py:271-300 | exactly the rows older than each cutoff go, and the two counts are the rows removed |
| Database.FilterKeepsMessagesValid | app/database.py:283-286 | deleting messages keeps the table's constraints |
| Database.FilterKeepsCacheValid | app/database.py:287-290 | deleting cache entries keeps the cache's constraints |
| Database.ReplaceKeepsCacheValid | app/database.py:252-256 | `INSERT OR REPLACE` keeps at most one entry per (thread, user) |
| Database.ListingExact | app/database.py:122-144 | a thread's listing holds exactly that thread's messages, sorted ascending, one view per message |
| Database.PaginationWindow | app/database.py:147-181 | `total` is the thread's message count whatever the limit and offset; the page is the slice [offset, offset+limit) of the listing, empty when offset ≥ total |
| Database.WindowOfViews | app/database.py:171-180 | taking the page commutes with mapping rows to views |
| Database.ReverseOfNewestFirst | app/database.py:190-194 | the newest-first order reversed is the chronological order |
| Database.ResortPrefix | app/database.py:190-194 | re-sorting the newest n rows ascending reverses them |
| Database.ReversePrefix | app/database.py:190-194 | the reversal of the newest n rows is the last n rows of the full reversal |
| Database.RecentIsSuffix | app/database.py:184-212 | the recent messages are the last min(limit, n) messages of the chronological listing |
| Database.RecentSteps | app/database.py:190-194 | the inner `DESC LIMIT` then outer `ASC` is a suffix of the ascending order |
| Database.OtherThreadUnchanged | app/database.py:97-144 | a message added to one thread leaves every other thread's listing unchanged |
| Database.NewestComesLast | app/database.py:97-144 | a message added at the latest time comes last in its thread's listing |
| Database.SortAfter | app/database.py:128 | a row after every other row is sorted last |
| Database.LookupLast | app/database.py:223-229 | the entry just saved is the one found for its thread and user |
| Database.SaveThenGet | app/database.py:218-265 | after saving, reading the thread and user's cache gives the saved data back |
| Database.SaveLeavesOthers | app/database.py:245-265 | saving for one (thread, user) leaves the others' lookups unchanged |
| Database.LookupFiltered | app/database.py:223-229 | removing entries of other keys does not change a lookup |
| Database.LookupSkipsLast | app/database.py:223-229 | an appended entry of another key does not change a lookup |
| Database.CachedNoneCases | app/database.py:218-242 | the cached data is None exactly when the query fails, no entry exists, or the stored JSON is corrupt |
| Database.CleanupKeeps | app/database.py:271-300 | the messages kept are exactly those not older than now − days; with the modifier unparseable (negative days) all are kept; kept plus removed is all |
| Schemas.ValidateMessage | app/schemas.py:8-18 | a message is accepted iff 1 ≤ length ≤ 10000 and not all whitespace, and is returned unchanged |
| Schemas.ValidateLanguage | app/schemas.py:4-28 | an accepted language is lower(strip(v)) and a whitelisted code; it is refused iff over 10 characters or non-empty with a normalised form outside the whitelist |
| Schemas.ValidateBounded | app/schemas.py:9-10 | a field with a maximum length is accepted iff within it, unchanged |
| Schemas.ValidateRequest | app/schemas.py:7-28 | a request is accepted iff every field is, with defaults "" and the language normalised; a refusal reports at least one field |
| Schemas.LowerCharKeepsSpace | app/schemas.py:28 | lower-casing a character keeps it whitespace or not |
| Schemas.LowerTrimLeft | app/schemas.py:28 | lower-casing commutes with stripping on the left |
| Schemas.LowerTrimRight | app/schemas.py:28 | lower-casing commutes with stripping on the right |
| Schemas.LowerStripCommute | app/schemas.py:23-28 | lower then strip equals strip then lower |
| Schemas.LowerIdempotent | app/schemas.py:28 | lower-casing twice is lower-casing once |
| Schemas.LanguageIdempotent | app/schemas.py:20-28 | re-validating an accepted language returns it unchanged |
| Schemas.BlankLanguageAccepted | app/schemas.py:23-28 | a whitespace-only language within the length limit is accepted as "" |
| Schemas.UnknownLanguageRefused | app/schemas.py:23-27 | "zz" is refused as unsupported |
| Schemas.InjectedLanguageRefused | app/schemas.py:11 | an instruction text in the language field is refused by its length |
| Schemas.PaddedLanguageNormalised | app/schemas.py:28 | " EN " is accepted as "en" |
| Chunker.ContextParts | app/chunker.py:19-25 | the Section, Scheme and Subsection lines; `ContextPartsCount` and `ContextPartsOrder` state its properties (a specification function with no contract of its own) |
| Chunker.FormatChunk | app/chunker.py:27-31 | the context lines joined by "\n", a blank line and the content, or the content alone; `ChunkWithoutHeadings`, `ChunkWithHeadings` and `ContentIsSuffix` state its properties (a specification function with no contract of its own) |
| Chunker.HeaderLine | app/chunker.py:20-25 | a context line exists exactly when its key does, and reads "Caption: value" |
| Chunker.BuildContextParts | app/chunker.py:19-25 | the conditional appends as the code runs them equal `ContextParts` |
| Chunker.FormatDocument | app/chunker.py:15-31 | one document's chunk as the code builds it equals `FormatChunk` |
| Chunker.ChunkDocuments | app/chunker.py:11-35 | exactly one chunk per document, in order, each `FormatChunk` of it |
| Chunker.ContextPartsCount | app/chunker.py:19-27 | one context line per key present, so none exactly when no key is |
| Chunker.ChunkWithoutHeadings | app/chunker.py:27-31 | with no header key the chunk is the page content |
| Chunker.ContentIsSuffix | app/chunker.py:27-31 | the page content always ends the chunk |
| Chunker.ChunkWithHeadings | app/chunker.py:27-29 | with a key present the chunk opens with the lines joined by "\n" and then "\n\n" |
| Chunker.JoinStartsWithFirst | app/chunker.py:29 | a join starts with its first part |
| Chunker.ContextPartsOrder | app/chunker.py:19-25 | Section, then Scheme, then Subsection, each exactly when its key is present |
| Chunker.ContextBlockReadsBack | app/chunker.py:29 | when no header value spans lines, splitting the context block on newlines gives the lines back |
| Chunker.NoNewlineInLine | app/chunker.py:20-25 | a context line has no newline when its value has none |
| AnalyzeResults.Run | analyze_results.py:18 | the run measured is maximal: all its characters match and the next does not |
| AnalyzeResults.FindRule | analyze_results.py:18 | the first position at or after k where 60 dashes start |
| AnalyzeResults.SplitOnRules | analyze_results.py:18 | `re.split` gives at least one piece |
| AnalyzeResults.PiecesHoldNoRule | analyze_results.py:18 | no piece contains a run of 60 dashes |
| AnalyzeResults.RuleInPrefix | analyze_results.py:18 | a rule in a prefix is a rule of the whole text |
| AnalyzeResults.LaterPiecesStartOffDash | analyze_results.py:18 | every piece after the first that is not empty starts with a character other than '-' (the rule is greedy) |
| AnalyzeResults.RuleRuns | analyze_results.py:18 | the runs the split removes, each at least 60 dashes long |
| AnalyzeResults.SplitRebuilds | analyze_results.py:18 | there is one more piece than removed runs, and putting each run back between its two pieces gives the text again |
| AnalyzeResults.DashesRestored | analyze_results.py:18 | putting back as many dashes as a dash run held restores the text |
| AnalyzeResults.RejoinCons | analyze_results.py:18 | rejoining a piece and a run in front of the rest |
| AnalyzeResults.EarlierPiecesEndOffDash | analyze_results.py:18 | every piece before the last that is not empty ends with a character other than '-' (the leftmost rule starts the run) |
| AnalyzeResults.FindExpect | analyze_results.py:42 | the first position where "expect", whitespace and a digit occur, case-insensitively |
| AnalyzeResults.ExpectOverride | analyze_results.py:42-44 | an override exists exactly when "expect N" occurs |
| AnalyzeResults.DefaultStatus | analyze_results.py:37-39 | 200 iff the header contains GET, Health or STREAM, else 201 |
| AnalyzeResults.ExpectedStatusOutsideLogin | analyze_results.py:37-50 | outside login tests an "expect N" overrides the default, which is 200 iff GET/Health/STREAM |
| AnalyzeResults.ExpectedStatus | analyze_results.py:37-50 | the expected status; `ExpectedStatusOutsideLogin` states its property (a specification function with no contract of its own) |
| AnalyzeResults.StatusOfLine | analyze_results.py:55-60 | the number after the first ':' of a stripped "Status :" line, None when it does not parse (a specification function with no contract of its own) |
| AnalyzeResults.LastReport | analyze_results.py:55-60 | no status exactly when no line reports one |
| AnalyzeResults.LastReportSnoc | analyze_results.py:55-60 | a later status line overwrites the earlier one |
| AnalyzeResults.LastReportWins | analyze_results.py:55-60 | the status found is the one on the last line that reports a status |
| AnalyzeResults.ExtractStatus | analyze_results.py:53-60 | the inner line loop as the code runs it equals `LastStatus` |
| AnalyzeResults.Judge | analyze_results.py:24-86 | one piece's verdict; `JudgeCounts`, `LoginVerdict` and `PlainVerdict` state its properties (a specification function with no contract of its own) |
| AnalyzeResults.JudgeCounts | analyze_results.py:24-69 | a section is counted iff it is not blank after strip, its first line is bracketed and it reports a status |
| AnalyzeResults.LoginVerdict | analyze_results.py:72-80 | a login test passes iff its status is 201 and the section contains "<<LOGIN_MODAL_REQUIRED>>" |
| AnalyzeResults.PlainVerdict | analyze_results.py:81-86 | any other test passes iff its status is the expected one |
| AnalyzeResults.Tally | analyze_results.py:69-86 | passed + failed == total, and at most one count per section |
| AnalyzeResults.TallySnoc | analyze_results.py:69-86 | one more verdict adds to exactly the counts it names |
| AnalyzeResults.FileTally | analyze_results.py:6-88 | passed + failed == total for every file |
| AnalyzeResults.JudgeSection | analyze_results.py:25-86 | one section judged as the code runs it equals `Judge` |
| AnalyzeResults.JudgeAt | analyze_results.py:24-86 | the verdict of the k-th section |
| AnalyzeResults.TallyStep | analyze_results.py:69-86 | the counts after k+1 sections are the counts after k plus the k-th verdict |
| AnalyzeResults.AnalyzeFile | analyze_results.py:18-88 | the section loop as the code runs it equals `FileTally`, so passed + failed == total |
| AnalyzeResults.Record | analyze_results.py:69-86 | the counter increments for one verdict |
| AnalyzeResults.FileCounts | analyze_results.py:91 | a directory entry not ending ".txt" adds nothing |
| AnalyzeResults.SumSnoc | analyze_results.py:101-103 | one more file adds its counts to the totals |
| AnalyzeResults.SumAppend | analyze_results.py:99-103 | the totals of two lists together are the sums of their totals |
| AnalyzeResults.SumBalanced | analyze_results.py:99-103 | summing balanced counts gives balanced totals |
| AnalyzeResults.GrandTallyBalanced | analyze_results.py:99-103 | overall, passed + failed == total |
| AnalyzeResults.GrandTallyAppend | analyze_results.py:99-103 | the grand totals of two listings are the sums of their grand totals |
| AnalyzeResults.CountFile | analyze_results.py:91-100 | what one directory entry adds, as the code computes it |
| AnalyzeResults.GrandTallyStep | analyze_results.py:99-103 | the totals after k+1 files are the totals after k plus the k-th file's |
| AnalyzeResults.GrandTotals | analyze_results.py:93-103 | `main`'s accumulation equals the sum of the per-file counts, with passed + failed == total |
| TestHelpers.ResultWriter.constructor | tests/helpers.py:52-54 | a new writer holds no lines |
| TestHelpers.ResultWriter.W | tests/helpers.py:57-58 | exactly one line is appended and earlier lines are untouched |
| TestHelpers.ResultWriter.Sep | tests/helpers.py:60-61 | one line of `char` repeated `width` times is appended, "=" and 80 by default |
| TestHelpers.ResultWriter.Header | tests/helpers.py:63-68 | the five header lines are appended |
| TestHelpers.ResultWriter.WriteIndented | tests/helpers.py:86-91 | one "    "-indented line per line of the text is appended |
| TestHelpers.ResultWriter.LogCall | tests/helpers.py:70-93 | the call block is appended |
| TestHelpers.ResultWriter.WriteOpening | tests/helpers.py:80-83 | the rule, caption, method and URL lines are appended |
| TestHelpers.ResultWriter.WritePayload | tests/helpers.py:84-87 | the payload block is appended exactly when there is a payload |
| TestHelpers.ResultWriter.WriteResponse | tests/helpers.py:88-93 | the status, response, turnaround and blank lines are appended |
| TestHelpers.ResultWriter.Save | tests/helpers.py:95-98 | the content saved is the lines joined by "\n" |
| TestHelpers.HeaderBlock | tests/helpers.py:63-68 | the five lines of a header; `HeaderShape` states them (a specification function with no contract of its own) |
| TestHelpers.CallBlock | tests/helpers.py:70-93 | the lines of one call; `CallBlockOpening`, `PayloadBlockShape` and `CallBlockClosing` state them (a specification function with no contract of its own) |
| TestHelpers.HeaderShape | tests/helpers.py:63-68 | "", 80 '=', "  " + title, 80 '=', "" |
| TestHelpers.NonPositiveWidthRule | tests/helpers.py:60-61 | a non-positive width gives an empty line |
| TestHelpers.CallBlockOpening | tests/helpers.py:80-83 | a call block starts with 60 '-', "[label]", the Method line and the URL line |
| TestHelpers.PayloadBlockShape | tests/helpers.py:84-87 | the payload block is present iff there is a payload: "  Payload:" and one line per payload line |
| TestHelpers.CallBlockClosing | tests/helpers.py:84-93 | after the payload block: the Status line, "  Response:", the response lines, the turnaround line and a final blank line |
| TestHelpers.SavedContentReadsBack | tests/helpers.py:95-98 | lines without newlines are read back from the saved content by splitting on "\n" |
| TestHelpers.IndentedLinesHaveNoNewline | tests/helpers.py:86-91 | indented lines hold no newline |
| Common.Get | app/external_api.py:86 | `d.get(k)` gives a value exactly when the key is present and not `null` |
| Common.GetOr | app/external_api.py:111 | `d.get(k, default)` gives None exactly for `null`, and the default for a missing key |
| Common.IsSpace | app/schemas.py:16 | Python 3's `str.isspace` for one character (a specification function with no contract of its own) |
| Common.StartsWith | analyze_results.py:56 | `s.startswith(p)` (a specification function with no contract of its own) |
| Common.Contains | analyze_results.py:38 | Python's `in` on strings; `ContainsOccurs` states its meaning (a specification function with no contract of its own) |
| Common.Join | tests/helpers.py:96 | `sep.join(parts)`; `JoinSplit` and `SplitJoin` state its properties (a specification function with no contract of its own) |
| Common.ParseInt | analyze_results.py:58 | `int(s)` on stripped decimal text with an optional sign and single underscores between digits, None where Python raises; `IntStringRoundTrip` states its property (a specification function with no contract of its own) |
| Common.Strip | app/schemas.py:16 | the stripped text is empty exactly when the text is all whitespace, and otherwise starts and ends with non-whitespace |
| Common.StripIdempotent | app/schemas.py:28 | stripping twice is stripping once |
| Common.Lower | app/schemas.py:28 | lower-casing maps every character and keeps the length |
| Common.ContainsOccurs | analyze_results.py:38 | Python's `in` on strings holds exactly when the pattern occurs at some position |
| Common.Split | analyze_results.py:29 | a split gives at least one piece and no piece holds the separator |
| Common.JoinSplit | tests/helpers.py:96 | joining the pieces of a split gives the text back |
| Common.SplitJoin | tests/helpers.py:96 | splitting a join of separator-free pieces gives the pieces back |
| Common.IntToString | analyze_results.py:58 | `str(i)` is non-empty, ends in a digit and holds only digits and '-' |
| Common.NumeralIsStripped | analyze_results.py:58 | a numeral has no whitespace around it, so `strip` leaves it unchanged |
| Common.IntStringRoundTrip | analyze_results.py:58 | `int()` reads back any status written with `str()` |
| Common.Repeat | tests/helpers.py:61 | `char * width` has width copies of the character, none for width ≤ 0 |

## Left out

- HTTP I/O: requests, payloads, timeouts and URLs are not modelled. Every reply
  is an input value. The `int(user_id)` conversion in the schemes payload is
  not modelled: for an id whose characters `isdigit` accepts but `int` refuses
  (a superscript digit such as "²") it raises ValueError, and the code then
  sets the schemes error key, where `SchemesSectionOf` reads the schemes reply
  as given.
- Dates and times: parsing and `strftime` are inputs (`Calendar`), and every
  parsed instant is compared as whole seconds since one epoch, so the local
  zone of a naive datetime is taken as UTC. The current time is one `Clock`
  reading: its `now` serves every `datetime.now()` and `datetime.now(tz)`
  call, naive or aware, and `current_dt.year` is its `year`. The
  `timedelta` additions that can pass `datetime.max` are modelled on the wall
  clock (`Wall`, `AddOverflows`); `datetime.min` is never approached, as only
  whole days are added. Moving the zone
  onto the disability date with `replace(tzinfo=...)`
  (`app/external_api.py:315-320`) is not modelled; the date is compared as it
  parsed.
- JSON `null`s are told apart from missing keys (`Field`) only where the code
  behaves differently for them:
  - a `null` `applied_date`, where `.split` raises and the block is "Could not fetch real-time status.";
  - a `null` `scheme_name`, which becomes the name None, after which `.lower()` in the eligibility block raises;
  - a `null` `gender`, where `.lower()` raises after the first two rule blocks;
  - a `null` `nature_of_work`, which is kept as None;
  - a `null` `family_details`, where the family loop raises and `full_registration_data` stays empty.

  Everywhere else a `null` behaves exactly as a missing key and is modelled as
  one.
- Values of the wrong JSON type are not modelled, in any section: each record
  field holds the type the code expects (a string where it calls `.lower()`,
  `.split` or `"; ".join`, a list where it iterates). So the exceptions such a
  value raises are left out. Examples are a truthy non-string
  `rejection_reason`, which makes `"; ".join` raise at
  `app/external_api.py:166`, `486` or `495`, and a non-string gender or
  scheme name in the eligibility block.
- Numbers in JSON are integers only (`Json` has no float). So a float
  `scheme_id` such as 1.0, which Python hashes as the key 1, and a falsy 0.0
  `is_nominee` are not modelled.
- Digits are ASCII only: `IsDigit`, so `ParseInt` and the "expect N" search,
  accept '0'-'9' alone, where Python's `\d` and `int()` also accept other
  Unicode decimal digits.
- Error texts the code builds with `str(e)` are fixed placeholders:
  `CompareError` and `UnhashableError` stand for Python's messages, which also
  name the offending type (for example "unhashable type: 'list'").
- `get_schemes_by_labor`: its reply is reduced to its `data` list. `urlparse`
  is not modelled; `BaseOrigin` takes the scheme and host directly.
- Printing and logging, the rate limiter, the thread locks and the intent
  classifier are not modelled. The older root `external_api.py` is also left out.
- Store set-up: the SQLite PRAGMAs, schema migration, uuid generation,
  `datetime('now')` and JSON encoding are left out. Fresh ids, "now" and
  encode/decode functions are parameters.
- `cleanup_old_data`: `app/config.py` declares no retention settings, so calling
  it without both day counts is the `MissingSetting` error.
- Timestamps are whole seconds, compared as numbers, not as SQLite text.
- Lower-casing is ASCII-only.
- `pretty_json`: its output is taken as given text.
- The elapsed-time float formatting is taken as given text.
- The header splitter is not modelled; its documents are the input.
- Reading the result directory is not modelled, and neither is `sorted`:
  `GrandTotals` takes the listing in the order it is given.
  `GrandTallyAppend` shows the totals add up over any split of the listing.
- The eligibility rules are stated once, as `EligibleExactly` with the
  `Qualifies` table, instead of one lemma per rule.
