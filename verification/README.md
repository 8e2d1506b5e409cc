# Job board core, modelled in Dafny

A Next.js job board keeps two MongoDB collections, government jobs and private jobs. It also keeps a user collection for administrators. This project models the parts of the board that decide what data is accepted, stored, found and shown:

- **Search.** The home page's client-side logic: the free-text and location search, the IT-job list, the job-type toggle and the "View" lookup by identifier (`Search`).
- **Validation.**
  - The request schemas each route applies: government, private and administrator sign-up (`Schemas`, `SignupSchema`).
  - The stored collections' own rules: required keys, array defaults, the URL and e-mail validators, trimming and the update validators (`StoredModels`).
- **Routes.**
  - The job routes: create, list, delete-all and update, with their status codes and messages (`JobStore`, `GovernmentRoutes`, `PrivateRoutes`). A failing database call is not modelled (see below).
  - The administrator sign-up route (`AdminSignup`).
- **The AI helper.** The route's request gating, the lazy `({.*?})` extraction of a JSON object from generated text, and its outcomes (`GeminiHelper`).
- **Forms.**
  - The insertion panel that sends rough text to that route and hands the result to a job form (`Insertion`).
  - The two job forms: defaults, the vacancy input filter, the values a job is loaded as, and submitting through the routes (`JobForms`).

The shared vocabulary is in `Wrappers` (`Option`), `Text`, `Jobs` and `Collections`:

- `Text` covers JavaScript truthiness, ASCII lower-casing, `includes`, `trim` and decimal digits.
- `Jobs` holds one record with an optional value per key and two date forms:
  - raw JSON text;
  - a `Date` object, which may be invalid.
- `Collections` holds an order-preserving filter.

A store is a sequence of documents. Each document has an identifier, the record, and its creation and update times.

### What the model takes as parameters

These come from code outside the model. Each is a parameter so that the contracts hold for every possible behaviour:

- the time and the identifier the database assigns;
- whether a text is an ObjectId;
- zod's `.url()` and `.email()` checks;
- `JSON.parse` and `JSON.stringify`;
- the generated text;
- bcrypt;
- whether a session exists.

### Behaviours worth knowing

- The government `PUT` converts dates with a `reduce` whose "invalid date" branch returns a response object as the accumulator. An invalid date therefore reaches the schema unconverted and gives 400 "Details are not as per format". It never gives the per-field message. `GovernmentRoutes.UpdateValidatesLikeCreate` proves that the update's verdict equals the create handler's.
- The private `POST` does not remove `_id` from the body. The form always sends one (the empty text by default), so the model keeps it: a body identifier that is not an ObjectId, or that is already in use, ends in 500.

## Model

| member | source | states |
|---|---|---|
| Text.Lower | src/app/page.tsx:253-254 | lower-casing keeps the length and maps each ASCII capital to its small letter, leaving no capital |
| Text.LowerIdempotent | src/app/page.tsx:253-254 | lower-casing twice is lower-casing once |
| Text.Includes | src/app/page.tsx:261-268 | `includes` is true exactly when the needle occurs at some position |
| Text.IncludesEmpty | src/app/page.tsx:261-268 | every text includes the empty text |
| Text.IndexOf | src/app/api/geminiHelper/route.ts:20 | the first position at or after `from` holding the character, or none when no such position exists |
| Text.Trim | src/models/userModel.ts:30-43 | the result is a slice of the input with only white space cut from each end, and it starts and ends with non-space |
| Text.TrimIdempotent | src/models/userModel.ts:30-43 | trimming a trimmed text changes nothing |
| Text.TrimKeepsTrimmed | src/models/userModel.ts:40-43 | a text with no space at either end is its own trim |
| Text.ShowNat | src/app/api/jobs/govtJobs/route.ts:182 | a count prints as a non-empty digit string without a leading zero |
| Text.DigitsValueOfShowNat | src/app/api/jobs/govtJobs/route.ts:182 | reading back a printed count gives the count |
| Jobs.SetDate | src/app/api/jobs/govtJobs/route.ts:31-51 | setting one date key changes that key only |
| Jobs.DatesDetermine | src/app/api/jobs/govtJobs/route.ts:258 | two records equal outside the dates and on every date are equal |
| Jobs.ToInstant | src/app/api/jobs/govtJobs/route.ts:31-51 | `new Date(text)` is a date object that is valid exactly when the text parses |
| Jobs.ConvertIfTruthy | src/app/api/jobs/govtJobs/route.ts:31-51 | a truthy date is converted; a falsy one is left as it is |
| Jobs.ConvertOrDrop | src/app/api/jobs/privateJobs/route.ts:160-164 | a truthy date is converted; a falsy one becomes absent |
| Jobs.Overlay | src/app/api/jobs/govtJobs/route.ts:271-274 | an update sets exactly the keys it carries and keeps every other stored key |
| Jobs.OverlayEmpty | src/app/api/jobs/govtJobs/route.ts:271-274 | an update carrying no key changes nothing |
| Jobs.OverlayIdempotent | src/app/api/jobs/govtJobs/route.ts:271-274 | applying the same update twice is applying it once |
| Jobs.OverlayKeys | src/app/api/jobs/privateJobs/route.ts:189-192 | the title and the location are replaced when the update carries them and kept otherwise, and an update without an identifier keeps the stored one |
| Jobs.OverlayDates | src/app/api/jobs/govtJobs/route.ts:271-274 | each of the seven date keys is the update's when it carries one and the stored one otherwise |
| Collections.Select | src/app/page.tsx:251-279 | filtering keeps exactly the elements that satisfy the predicate |
| Collections.SelectCount | src/app/page.tsx:251-279 | filtering keeps every copy of a satisfying element and no copy of another |
| Collections.SelectAppend | src/app/page.tsx:250 | filtering a concatenation is concatenating the filtered parts |
| Search.HandleSearch | src/app/page.tsx:249-282 | the results are the private, then government, then IT postings that match, in order; a posting is shown iff it is in a list and matches |
| Search.TitleMatchSuffices | src/app/page.tsx:253-270 | a query found in the title, ignoring case, matches when no location is given |
| Search.GovernmentMatchIgnoresPrivateKeys | src/app/page.tsx:256-270 | without a company name, industry, job type and skills are never consulted |
| Search.PrivateMatchIgnoresGovernmentKeys | src/app/page.tsx:256-266 | with a company name, department and experience are never consulted |
| Search.LocationNeedsEqualElement | src/app/page.tsx:273-275 | a non-empty location is matched only by a location equal to it after lower-casing |
| Search.EmptyQueryMatchesEveryPrivateJob | src/app/page.tsx:259-266 | the empty query matches every posting with a company name |
| Search.EmptyQueryGovernmentMatch | src/app/page.tsx:267-270 | the empty query matches a non-private posting iff it has a department, a title or a non-empty eligibility or experience list |
| Search.QueryIsNotTrimmed | src/app/page.tsx:253 | a leading blank in the query makes an exact title miss |
| Search.ItJobsOf | src/app/page.tsx:35-44 | the IT list is exactly the private postings whose industry or department is "it" in any case |
| Search.MatchingItJobAppearsTwice | src/app/page.tsx:250 | a matching IT posting appears at least twice in the results |
| Search.OnPrivateJobsFetched | src/app/page.tsx:33-44 | fetching stores the postings and derives the IT list from them, touching nothing else |
| Search.SearchEffect | src/app/page.tsx:109-116 | an empty query clears the results; otherwise they are exactly the matching postings |
| Search.EmptyQueryWouldReturnPrivateJobs | src/app/page.tsx:109-116 | the clearing is a rule of its own: the search itself would return private postings for an empty query |
| Search.HandleButtonClick | src/app/page.tsx:127-129 | clicking the active type deactivates it; clicking another activates that one |
| Search.DoubleClickRestores | src/app/page.tsx:127-129 | two clicks on one button restore the state iff no other type was active |
| Search.FindById | src/app/page.tsx:228-241 | the first posting with the identifier, or none iff no posting has it |
| Search.HandleViewJob | src/app/page.tsx:226-247 | the private list is searched only for the exact category "Private"; a hit selects it, a miss changes nothing |
| Search.LowerCasePrivateCategoryMissesPrivateList | src/app/page.tsx:228-247 | a posting with category "private" is looked up among government postings and is not found |
| GeminiHelper.ExtractSpan | src/app/api/geminiHelper/route.ts:16-26 | a match exists iff some `{` precedes some `}`; it is the leftmost-start, nearest-end span that the regular expression selects |
| GeminiHelper.LazyMatchUnique | src/app/api/geminiHelper/route.ts:20 | the regular expression's match is unique |
| GeminiHelper.NestedObjectIsTruncated | src/app/api/geminiHelper/route.ts:20 | an object with a nested object is cut at the inner closing brace |
| GeminiHelper.ExtractsObjectFromProse | src/app/api/geminiHelper/route.ts:20-22 | an object surrounded by prose is extracted exactly |
| GeminiHelper.GeminiPost | src/app/api/geminiHelper/route.ts:4-41 | no body gives 500; missing data or category gives its 402; for a complete request, empty generated text gives the generator 402, text whose first brace pair parses gives 200 with the parsed object, and 500 "Server Error" happens iff neither (a thrown call, no brace pair, or a parse failure) |
| GeminiHelper.NoBracePairIsServerError | src/app/api/geminiHelper/route.ts:20-24 | generated text without a brace pair always ends in 500 "Server Error" |
| Schemas.ParseGovernment | src/inputValidations/governmentJobValidation.ts:4-36 | parsing succeeds iff every required key is a non-empty text (the age limit may be empty), the count is at least 1, every date is valid and the formats hold; the result agrees with the input on `_id` and every government key, and carries no private-only key |
| Schemas.ParsePrivate | src/inputValidations/privateJobValidation.ts:3-26 | parsing succeeds iff the private required keys are non-empty, the dates are valid and the formats hold; the result agrees with the input on `_id` and every private key, and carries no government-only key |
| Schemas.ParseGovernmentIdempotent | src/inputValidations/governmentJobValidation.ts:4-36 | a parsed government record parses to itself |
| Schemas.ParsePrivateIdempotent | src/inputValidations/privateJobValidation.ts:3-26 | a parsed private record parses to itself |
| Schemas.GovernmentAgeLimitMayBeEmpty | src/inputValidations/governmentJobValidation.ts:15 | the age limit may be the empty text but may not be absent |
| Schemas.VacancyCountBounds | src/inputValidations/governmentJobValidation.ts:8 | a government count below 1 is refused; a private count may be anything or absent |
| Schemas.GovernmentOptionalKeys | src/inputValidations/governmentJobValidation.ts:12-29 | location, group and the list keys may all be absent |
| Schemas.GovernmentDatesMustBeValidDates | src/inputValidations/governmentJobValidation.ts:10-31 | a date key holding raw text or an invalid date fails the schema |
| SignupSchema.LookaheadIsContains | src/inputValidations/signupAdminSchema.ts:10 | without line terminators each look-ahead just asks for one character of its class |
| SignupSchema.Issues | src/inputValidations/signupAdminSchema.ts:3-20 | the e-mail, password and confirmation are each reported iff their rule fails, including the mismatch on the confirmation |
| SignupSchema.ParseSignup | src/inputValidations/signupAdminSchema.ts:3-20 | parsing succeeds iff no issue is reported; the user type defaults to "A" |
| SignupSchema.AcceptedPasswordsAtMostTen | src/inputValidations/signupAdminSchema.ts:7-12 | the pattern caps passwords at ten characters despite the limit of fifteen |
| SignupSchema.ElevenCharacterPasswordRefused | src/inputValidations/signupAdminSchema.ts:7-12 | an eleven-character password that is otherwise strong is refused |
| SignupSchema.PatternAcceptsSample | src/inputValidations/signupAdminSchema.ts:10 | a seven-character password with every class passes the pattern |
| SignupSchema.MismatchReportedOnConfirmation | src/inputValidations/signupAdminSchema.ts:17-20 | differing passwords are reported on the confirmation and refuse the form |
| StoredModels.CheckContactEmail | src/models/privateJobModal.ts:59-66 | the store's e-mail check accepts exactly the `\S+@\S+\.\S+` shape |
| StoredModels.ContactEmailIsUserEmail | src/models/userModel.ts:38 | every contact e-mail the private collection accepts also passes the user collection's pattern |
| StoredModels.UserEmailAcceptsBlank | src/models/userModel.ts:38 | the user pattern accepts an inner blank that the contact pattern refuses |
| StoredModels.GovernmentArrayDefaults | src/models/governmentJobModel.ts:43-58 | the six government list keys are present, a given list is kept and an absent one is empty; no other key changes |
| StoredModels.PrivateArrayDefaults | src/models/privateJobModal.ts:37-42 | the four private list keys are present, a given list is kept and an absent one is empty; no other key changes |
| StoredModels.PrivateLocationAlwaysPresent | src/models/privateJobModal.ts:42 | the required location never fails: absent is stored as the empty list |
| StoredModels.PrivateFormatRules | src/models/privateJobModal.ts:43-66 | absent links and e-mail pass; a link without an http(s) scheme or a malformed e-mail fails |
| StoredModels.CreateValidImpliesUpdateValid | src/models/governmentJobModel.ts:36-66 | a document valid on creation passes the update validators |
| StoredModels.NewUser | src/models/userModel.ts:27-44 | a stored user's fields are the trimmed inputs |
| StoredModels.StoredUserIsTrimmed | src/models/userModel.ts:27-44 | a stored user's fields have no white space at either end |
| JobStore.SortByRecency | src/app/api/jobs/govtJobs/route.ts:207-212 | the result is a permutation ordered by update time, then creation time, newest first |
| JobStore.List | src/app/api/jobs/govtJobs/route.ts:197-220 | 200 with the documents at a truthy location (all documents otherwise), newest first |
| JobStore.ListWithoutLocationIsPermutation | src/app/api/jobs/privateJobs/route.ts:118-142 | without a location, or with an empty one, the listing is a permutation of the collection |
| JobStore.ListAtLocationCounts | src/app/api/jobs/govtJobs/route.ts:206-208 | with a location every document there is listed as often as stored, others never |
| JobStore.ListPutsLaterUpdatesFirst | src/app/api/jobs/govtJobs/route.ts:208 | a later update time always lists earlier |
| JobStore.NewestListedFirst | src/app/api/jobs/govtJobs/route.ts:211-212 | the most recently updated document is listed first |
| JobStore.DeleteAll | src/app/api/jobs/govtJobs/route.ts:161-193 | without a session 401 and nothing changes; with one everything is deleted and the count reported |
| JobStore.DeleteReportsCount | src/app/api/jobs/privateJobs/route.ts:87-116 | the message's number reads back as the number of documents deleted |
| JobStore.DeleteTwice | src/app/api/jobs/govtJobs/route.ts:179-183 | a second deletion reports a count of 0 |
| JobStore.IndexOfId | src/app/api/jobs/govtJobs/route.ts:271 | the first document with the identifier, or none iff the identifier is unused |
| GovernmentRoutes.ConvertDates | src/app/api/jobs/govtJobs/route.ts:31-51 | each truthy date key is converted and nothing else changes |
| GovernmentRoutes.Create | src/app/api/jobs/govtJobs/route.ts:13-157 | 400 iff the converted body fails the schema; 409 iff valid and the same department, title and count exist; 500 iff the body is missing or the collection refuses a new valid posting; 201 otherwise, appending one document that agrees with the converted body on every government key, lists defaulted, under the fresh identifier and times |
| GovernmentRoutes.CreateTwiceConflicts | src/app/api/jobs/govtJobs/route.ts:98-109 | creating the same posting twice gives 409 the second time |
| GovernmentRoutes.MissingGroupIsServerError | src/models/governmentJobModel.ts:60 | a posting valid for the schema but without a group fails in the store with 500 |
| GovernmentRoutes.EmptyAgeLimitIsServerError | src/models/governmentJobModel.ts:46 | an empty age limit passes the schema but fails in the store with 500 |
| GovernmentRoutes.ReduceStep | src/app/api/jobs/govtJobs/route.ts:240-255 | a valid date is recorded, an invalid one replaces the accumulator by an empty one, and a falsy one is skipped |
| GovernmentRoutes.ReduceNeverAdds | src/app/api/jobs/govtJobs/route.ts:240-255 | the reduce never records a key it is not asked about |
| GovernmentRoutes.ReduceDropsInvalid | src/app/api/jobs/govtJobs/route.ts:243-251 | a key holding an invalid date is never recorded |
| GovernmentRoutes.ReduceAllValid | src/app/api/jobs/govtJobs/route.ts:240-255 | when no date is invalid the reduce records exactly the truthy dates, converted |
| GovernmentRoutes.MergeDates | src/app/api/jobs/govtJobs/route.ts:258 | recorded dates override the body's and nothing else changes |
| GovernmentRoutes.UpdatedBodyAllValid | src/app/api/jobs/govtJobs/route.ts:240-258 | without invalid dates the merged body is the create handler's converted body |
| GovernmentRoutes.UpdatedBodyInvalid | src/app/api/jobs/govtJobs/route.ts:247-258 | an invalid date reaches the schema unconverted and is refused by it |
| GovernmentRoutes.UpdateValidatesLikeCreate | src/app/api/jobs/govtJobs/route.ts:240-268 | the update's schema verdict and parsed data equal those of the create handler's conversion |
| GovernmentRoutes.Update | src/app/api/jobs/govtJobs/route.ts:223-292 | 400 iff the body without `_id` fails the schema; with a valid body that passes the update validators, 404 iff the identifier is missing or an ObjectId not stored, and 200 iff it is a stored ObjectId; 200 overlays the parsed keys on the stored document, keeps its creation time and sets its update time |
| GovernmentRoutes.UpdateUnknownIdNotFound | src/app/api/jobs/govtJobs/route.ts:271-278 | a valid update for a missing or unused identifier gives 404 |
| GovernmentRoutes.InvalidUpdateDateIsFormatError | src/app/api/jobs/govtJobs/route.ts:240-268 | an invalid date gives 400 "Details are not as per format", never the per-field message |
| GovernmentRoutes.UpdatedDocumentListedFirst | src/app/api/jobs/govtJobs/route.ts:208-212 | after an update the updated document lists first |
| GovernmentRoutes.ReplacedByNewestListedFirst | src/app/api/jobs/govtJobs/route.ts:208-212 | a document put in place of another and stamped later than every stored one lists first |
| PrivateRoutes.SchemaInput | src/app/api/jobs/privateJobs/route.ts:160-179 | the schema sees the body without `_id`, with the application dates converted or dropped, and nothing else changed |
| PrivateRoutes.SchemaInputDatesAccepted | src/app/api/jobs/privateJobs/route.ts:163-172 | dates that pass the handler's own check pass the schema's date rule |
| PrivateRoutes.Create | src/app/api/jobs/privateJobs/route.ts:15-85 | 400 with the date message for an unparsable date, 400 iff the schema refuses, 409 iff the posting exists, 500 iff the body is missing or the store refuses the document or the body's `_id`; 201 otherwise, appending one document that agrees with the schema's input on every private key, lists defaulted, under the body's `_id` or a fresh one |
| PrivateRoutes.CreateTwiceConflicts | src/app/api/jobs/privateJobs/route.ts:51-65 | creating the same posting twice gives 409 the second time |
| PrivateRoutes.ReusedIdIsServerError | src/app/api/jobs/privateJobs/route.ts:68-84 | a body identifier that is not an ObjectId or is in use gives 500 |
| PrivateRoutes.NonHttpLinkIsServerError | src/models/privateJobModal.ts:43-50 | an application link without an http(s) scheme passes the schema's URL check but fails in the store with 500 |
| PrivateRoutes.Update | src/app/api/jobs/privateJobs/route.ts:147-209 | the date message for an unparsable date, 400 iff the schema refuses; with a valid body that passes the update validators, 404 iff the identifier is missing or an ObjectId not stored, and 200 iff it is a stored ObjectId; 200 overlays the parsed keys |
| PrivateRoutes.UpdateKeepsUnsentKeys | src/app/api/jobs/privateJobs/route.ts:175-192 | an update keeps the identifier, an unsent location and a falsy end date's stored value |
| AdminSignup.Register | src/app/api/admin-signup/route.ts:11-37 | 400 iff the trimmed e-mail is registered; otherwise 500 iff the trimmed hash is empty or the trimmed e-mail lacks the `@`/`.` shape, and 200 iff neither, appending the user with the hashed password and type "A" |
| AdminSignup.RegisterKeepsEmailsUnique | src/models/userModel.ts:33-39 | registering keeps the e-mails unique |
| AdminSignup.SecondRegistrationRefused | src/app/api/admin-signup/route.ts:16-19 | registering the same trimmed e-mail twice is refused the second time |
| AdminSignup.WeakPasswordStillRegistered | src/app/api/admin-signup/route.ts:13-30 | the route applies no password rule: a one-letter password registers |
| Insertion.HandleClosure | src/app/components/jobInsertion.tsx:52-56 | closing hides the panel, clears the text and restores the default values |
| Insertion.HandleClosureIdempotent | src/app/components/jobInsertion.tsx:52-56 | closing twice is closing once |
| Insertion.TargetOf | src/app/components/jobInsertion.tsx:59-69 | the text goes to the private form iff it contains "Private" |
| Insertion.InsertTextToForm | src/app/components/jobInsertion.tsx:58-70 | the formatted text is handed over to its target form and the panel is closed |
| Insertion.LabelNamesTarget | src/app/components/jobInsertion.tsx:154 | the button's label names the form the text goes to |
| Insertion.LowerCasePrivateGoesToGovernment | src/app/components/jobInsertion.tsx:59-69 | text with only "private" goes to the government form |
| Insertion.OnSubmit | src/app/components/jobInsertion.tsx:72-94 | invalid values change nothing; a 2xx success with a truthy message, object or text, ends the wait and shows the message's JSON text; any other 2xx reply leaves the panel waiting; a failed request or non-2xx reply ends the wait and keeps the text |
| Insertion.PanelNeverStuck | src/app/components/jobInsertion.tsx:72-94 | against the helper route the panel always stops waiting |
| Insertion.DefaultsRefusedByRoute | src/app/components/jobInsertion.tsx:46-49 | the default values pass the panel's schema but are refused by the route with "jobData Not Found" |
| Insertion.ShortCategoryNamesRefused | src/inputValidations/insertionDataValidation.ts:5 | only the exact names "Government" and "Private" are accepted |
| JobForms.VacancyFilter | src/app/components/governmentJobForm.tsx:363-369 | the trimmed input is taken iff it is all digits; empty stays text, otherwise its decimal value |
| JobForms.VacancyOfShowNat | src/app/components/privateJobForm.tsx:279-285 | typing a count's decimal text gives that count |
| JobForms.VacancyIgnoresSignAndPoint | src/app/components/governmentJobForm.tsx:366-367 | a sign or a decimal point leaves the field unchanged |
| JobForms.GovernmentFormValuesIdempotent | src/app/components/governmentJobForm.tsx:113-158 | loading loaded values changes nothing |
| JobForms.PrivateFormValuesIdempotent | src/app/components/privateJobForm.tsx:113-140 | loading loaded values changes nothing |
| JobForms.GovernmentFormValuesKeep | src/app/components/governmentJobForm.tsx:175-222 | loading keeps non-empty texts, lists, valid dates and the age limit, and defaults the category to "Government" |
| JobForms.PrivateFormValuesKeep | src/app/components/privateJobForm.tsx:69-96 | loading keeps non-empty texts and lists, and drops falsy dates and government keys |
| JobForms.MissingLinkBlocksSubmit | src/app/components/governmentJobForm.tsx:204-217 | a job without an application link or e-mail loads them empty, which the schema refuses |
| JobForms.MissingWebsiteBlocksPrivateSubmit | src/app/components/privateJobForm.tsx:133 | a private job without a website cannot be submitted as loaded |
| JobForms.DefaultsNeedInput | src/app/components/governmentJobForm.tsx:48-80 | neither form's defaults are submittable, and the two government categories differ in case |
| JobForms.Load | src/app/components/privateJobForm.tsx:69 | loading values also makes them the defaults |
| JobForms.FormClose | src/app/components/governmentJobForm.tsx:259-263 | closing resets the form's internal values to its defaults, ends editing and hides the form |
| JobForms.OnVacancyInput | src/app/components/governmentJobForm.tsx:363-369 | a refused keystroke changes nothing; an accepted number sets the count |
| JobForms.TypingCountSetsIt | src/app/components/privateJobForm.tsx:279-285 | typing a count's text sets the count |
| JobForms.StartGovernmentEdit | src/app/components/governmentJobForm.tsx:111-161 | choosing a job opens the form on it with its loaded values as values and defaults, keeping a non-empty identifier, the list and the submitting flag |
| JobForms.StartPrivateEdit | src/app/components/privateJobForm.tsx:67-98 | choosing a job opens the form on it with its loaded values as values and defaults, keeping a non-empty identifier, the list and the submitting flag |
| JobForms.EditThenCloseRestoresJob | src/app/components/governmentJobForm.tsx:111-161 | closing after choosing a job resets the form's internal values to that job's loaded values and ends the edit; the form is then hidden |
| JobForms.GovernmentEditTargetsJob | src/app/components/governmentJobForm.tsx:114 | submitting an edit sends the chosen job's own identifier |
| JobForms.PrivateEditTargetsJob | src/app/components/privateJobForm.tsx:70 | submitting an edit sends the chosen job's own identifier |
| JobForms.ReceiveInsertion | src/app/components/governmentJobForm.tsx:162-223 | empty or unparsable text changes nothing; otherwise the parsed job is loaded |
| JobForms.InsertedValuesSurviveClose | src/app/components/privateJobForm.tsx:100-148 | closing after an insertion resets the form's internal values to the inserted ones, not the initial ones; the form is then hidden |
| JobForms.Serialize | src/app/components/governmentJobForm.tsx:87-99 | sending turns each date into its text and changes nothing else |
| JobForms.AcceptedDateSurvivesTransport | src/app/api/jobs/govtJobs/route.ts:31-51 | a date the form accepts converts back to an accepted date on the server |
| JobForms.GovernmentClientValidIsServerValid | src/app/components/governmentJobForm.tsx:83-99 | values the government form accepts pass the route's schema after transport |
| JobForms.PrivateClientValidIsServerValid | src/app/components/privateJobForm.tsx:175-191 | values the private form accepts pass the route's date check and schema after transport |
| JobForms.ReplaceById | src/app/components/governmentJobForm.tsx:91-93 | each listed job with the updated job's identifier is replaced and the others kept |
| JobForms.ReplaceByIdIdempotent | src/app/components/privateJobForm.tsx:183-185 | replacing twice is replacing once |
| JobForms.ReplaceByIdShowsUpdate | src/app/components/privateJobForm.tsx:183-185 | the updated job appears and jobs with other identifiers are untouched |
| JobForms.SubmitGovernment | src/app/components/governmentJobForm.tsx:83-109 | invalid values change nothing; otherwise an edit goes to the update route, anything else to the create route, the list takes an accepted update, and the form closes |
| JobForms.SubmitPrivate | src/app/components/privateJobForm.tsx:175-201 | invalid values change nothing; otherwise an edit goes to the update route, anything else to the create route, the list takes an accepted update, and the form closes |
| JobForms.GovernmentBodyRoundTrip | src/app/api/jobs/govtJobs/route.ts:31-51 | a valid government posting sent as JSON is, after the handler's date conversion, the posting itself |
| JobForms.PrivateBodyRoundTrip | src/app/api/jobs/privateJobs/route.ts:24-41 | a valid private posting sent as JSON passes the date check and reaches the schema as itself, `_id` aside |
| JobForms.NewGovernmentPostingStored | src/app/components/governmentJobForm.tsx:83-109 | submitting a new, valid, unlisted posting the collection accepts stores exactly one more document carrying the form's values under a fresh identifier |
| JobForms.NewPrivatePostingStored | src/app/components/privateJobForm.tsx:175-201 | the same for a private posting whose `_id` is an unused ObjectId, stored under that identifier |
| JobForms.PrivateFormAddNeverCreates | src/app/components/privateJobForm.tsx:41-42 | a new private job sent with the form's default empty `_id` never creates a document: it ends in 409 or 500 |

## Left out

- Lower-casing, `trim` and `\S` use the characters listed in `Text`. Unicode case mapping beyond ASCII and UTF-16 code-unit lengths are not modelled.
- Dates are abstract: a value records its text and whether it parses. Calendar arithmetic and time zones are not modelled.
- JobForms.Serialize: relies on `DatesPrintable`, the assumption that a valid date object's ISO text is non-empty. `JSON.stringify` of an invalid date gives `null`, which the form's own validation already refuses.
- The vacancy count is an unbounded integer. `+input` rounding of very long digit strings to floating point is not modelled.
- The ObjectId format is a parameter (`isObjectId`). A failed cast is modelled as the 500 it causes.
- `findByIdAndUpdate` with no `_id` is modelled as "not found" (404).
- JobStore.SortByRecency: documents that tie on both times keep their stored order. MongoDB gives no order for ties.
- Request bodies that are not JSON objects are modelled as a missing body (500). Values of the wrong JSON type are not modelled.
- AdminSignup.Register: takes the e-mail and password as texts. A missing field, and bcrypt hashing `undefined`, are not modelled.
- `JSON.parse` returning a non-object in the form effects is not modelled. The parser is a parameter returning a job or nothing.
- A failing database call is not modelled: the store is a sequence and its operations always succeed. So `JobStore.List` never gives the 500 "Failed to retrieve jobs", `JobStore.DeleteAll` never gives the 500 "Failed to delete jobs", and the create and update routes give 500 only for the causes the model names: validation, an unusable `_id`, a missing body.
- The page unmounts a closed job form and mounts a fresh one, on its initial defaults, for the next "Add". The model keeps one `FormState` across closing. So its `values` after `FormClose` are the form's internal state just before it is discarded, not what the next opened form shows.
- The database connection, toasts, loading spinners, navigation, the clipboard copy button and all rendering are left out: they do not affect the data.
- Authentication is a boolean: whether a session exists. The session provider is not part of this model.
- The AI generator, zod's URL and e-mail checks, `JSON.parse`/`JSON.stringify` and bcrypt are parameters. Their internals are not part of this model.
- Concurrency between requests is not modelled: each route call is one atomic step on the store.
