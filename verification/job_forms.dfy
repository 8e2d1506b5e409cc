/**
 * The government and private job forms: their default values, the vacancy
 * input's filter, the values a stored or AI-formatted job is loaded as,
 * and what submitting does — validate with the route's own schema, send
 * the request, update the shown list after an edit, and close the form
 * whatever the reply. Loading values also makes them the form's defaults
 * (react-hook-form's `reset(values)`), so the `reset()` in closing sets the
 * form's internal values back to the last values loaded, not the initial
 * ones; the form is then hidden.
 */
module JobForms {
  import opened Wrappers
  import opened Text
  import opened Jobs
  import opened Schemas
  import opened JobStore
  import StoredModels
  import GovernmentRoutes
  import PrivateRoutes

  // ---------------------------------------------------------------------
  // Vacancy input
  // ---------------------------------------------------------------------

  /** What the vacancy field may hold: the empty text, or a number. */
  datatype VacancyEntry = EmptyText | Number(n: nat)

  /**
   * The vacancy input's change handler: the trimmed text is taken when it
   * is all digits (possibly none), converted unless empty; anything else
   * leaves the field as it was (`None`).
   */
  function VacancyFilter(raw: string): (r: Option<VacancyEntry>)
    ensures r.Some? <==> AllDigits(Trim(raw))
    ensures r == Some(EmptyText) <==> Trim(raw) == ""
    ensures r.Some? && r.value.Number? ==> r.value.n == DigitsValue(Trim(raw))
  {
    var input := Trim(raw);
    if !AllDigits(input) then None
    else if input == "" then Some(EmptyText)
    else Some(Number(DigitsValue(input)))
  }

  /** The decimal text of a count is taken back as that count. */
  lemma VacancyOfShowNat(n: nat)
    ensures VacancyFilter(ShowNat(n)) == Some(Number(n))
  {
    var s := ShowNat(n);
    assert !IsSpace(s[0]) && !IsSpace(s[|s| - 1]);
    TrimKeepsTrimmed(s);
    DigitsValueOfShowNat(n);
  }

  /** A sign or a decimal point makes the input ignored. */
  lemma VacancyIgnoresSignAndPoint()
    ensures VacancyFilter("-1") == None
    ensures VacancyFilter("1.5") == None
  {
    TrimKeepsTrimmed("-1");
    TrimKeepsTrimmed("1.5");
    assert !IsDigit("-1"[0]);
    assert !IsDigit("1.5"[1]);
  }

  // ---------------------------------------------------------------------
  // Loading values
  // ---------------------------------------------------------------------

  /** `value || fallback` for a text key. */
  function TextOr(o: Option<string>, fallback: string): (r: Option<string>)
    ensures r.Some?
    ensures Truthy(o) ==> r == o
    ensures !Truthy(o) ==> r == Some(fallback)
  {
    if Truthy(o) then o else Some(fallback)
  }

  /** `value || []` for a list key: every list, even an empty one, is truthy. */
  function ListOr(o: Option<seq<string>>): (r: Option<seq<string>>)
    ensures r.Some? && (o.Some? ==> r == o)
  {
    Some(o.GetOr([]))
  }

  /** `value || 0` for a number key. */
  function CountOr(o: Option<int>): (r: Option<int>)
    ensures r.Some? && (TruthyNumber(o) ==> r == o) && (!TruthyNumber(o) ==> r == Some(0))
  {
    if TruthyNumber(o) then o else Some(0)
  }

  /** The values the government form loads for a job being edited or inserted. */
  function GovernmentFormValues(src: Job): Job {
    Job(
      id := TextOr(src.id, ""),
      companyName := None, departmentName := None, skillsRequired := None, companyWebsite := None, industry := None,
      nameOfDepartment := TextOr(src.nameOfDepartment, ""),
      ageLimit := src.ageLimit,
      reservationCategory := ListOr(src.reservationCategory),
      applicationFee := ListOr(src.applicationFee),
      selectionProcess := ListOr(src.selectionProcess),
      examDate := ConvertOrDrop(src.examDate),
      getAdmitCardDate := ConvertOrDrop(src.getAdmitCardDate),
      getAdmitCardLastDate := ConvertOrDrop(src.getAdmitCardLastDate),
      resultDate := ConvertOrDrop(src.resultDate),
      interviewDate := ConvertOrDrop(src.interviewDate),
      governmentType := TextOr(src.governmentType, ""),
      payGradeRange := TextOr(src.payGradeRange, ""),
      address := TextOr(src.address, ""),
      group := TextOr(src.group, ""),
      jobTitle := TextOr(src.jobTitle, ""),
      vacancyCount := CountOr(src.vacancyCount),
      jobType := TextOr(src.jobType, ""),
      applicationStartingDate := ConvertOrDrop(src.applicationStartingDate),
      applicationEndDate := ConvertOrDrop(src.applicationEndDate),
      eligibility := ListOr(src.eligibility),
      education := TextOr(src.education, ""),
      experience := ListOr(src.experience),
      salaryRange := TextOr(src.salaryRange, ""),
      jobLocation := ListOr(src.jobLocation),
      applicationLink := TextOr(src.applicationLink, ""),
      contactEmail := TextOr(src.contactEmail, ""),
      contactPhone := TextOr(src.contactPhone, ""),
      source := TextOr(src.source, ""),
      informationLink := TextOr(src.informationLink, ""),
      jobCategory := TextOr(src.jobCategory, "Government"))
  }

  /** The values the private form loads for a job being edited or inserted. */
  function PrivateFormValues(src: Job): Job {
    Job(
      id := TextOr(src.id, ""),
      companyName := TextOr(src.companyName, ""),
      departmentName := TextOr(src.departmentName, ""),
      skillsRequired := ListOr(src.skillsRequired),
      companyWebsite := TextOr(src.companyWebsite, ""),
      industry := TextOr(src.industry, ""),
      nameOfDepartment := None, ageLimit := None, reservationCategory := None, applicationFee := None,
      selectionProcess := None, examDate := None, getAdmitCardDate := None, getAdmitCardLastDate := None,
      resultDate := None, interviewDate := None, governmentType := None, payGradeRange := None,
      address := None, group := None,
      jobTitle := TextOr(src.jobTitle, ""),
      vacancyCount := CountOr(src.vacancyCount),
      jobType := TextOr(src.jobType, ""),
      applicationStartingDate := ConvertOrDrop(src.applicationStartingDate),
      applicationEndDate := ConvertOrDrop(src.applicationEndDate),
      eligibility := ListOr(src.eligibility),
      education := TextOr(src.education, ""),
      experience := ListOr(src.experience),
      salaryRange := TextOr(src.salaryRange, ""),
      jobLocation := ListOr(src.jobLocation),
      applicationLink := TextOr(src.applicationLink, ""),
      contactEmail := TextOr(src.contactEmail, ""),
      contactPhone := TextOr(src.contactPhone, ""),
      source := TextOr(src.source, ""),
      informationLink := TextOr(src.informationLink, ""),
      jobCategory := TextOr(src.jobCategory, "Private"))
  }

  /** Loading is stable: values loaded from loaded values are the same values. */
  lemma GovernmentFormValuesIdempotent(src: Job)
    ensures GovernmentFormValues(GovernmentFormValues(src)) == GovernmentFormValues(src)
  {
  }

  lemma PrivateFormValuesIdempotent(src: Job)
    ensures PrivateFormValues(PrivateFormValues(src)) == PrivateFormValues(src)
  {
  }

  /**
   * What loading keeps: every non-empty text and every list of the job's
   * own kind, its valid dates, and the age limit as it is; the other
   * kind's keys are dropped and a missing category gets the form's kind.
   */
  lemma GovernmentFormValuesKeep(src: Job)
    ensures var v := GovernmentFormValues(src);
      && (Truthy(src.nameOfDepartment) ==> v.nameOfDepartment == src.nameOfDepartment)
      && (Truthy(src.jobTitle) ==> v.jobTitle == src.jobTitle)
      && (Truthy(src.informationLink) ==> v.informationLink == src.informationLink)
      && (src.jobLocation.Some? ==> v.jobLocation == src.jobLocation)
      && v.ageLimit == src.ageLimit
      && v.companyName.None? && v.industry.None?
      && (Truthy(src.jobCategory) ==> v.jobCategory == src.jobCategory)
      && (!Truthy(src.jobCategory) ==> v.jobCategory == Some("Government"))
      && forall f :: GetDate(v, f) == ConvertOrDrop(GetDate(src, f))
  {
  }

  lemma PrivateFormValuesKeep(src: Job)
    ensures var v := PrivateFormValues(src);
      && (Truthy(src.companyName) ==> v.companyName == src.companyName)
      && (Truthy(src.jobTitle) ==> v.jobTitle == src.jobTitle)
      && (Truthy(src.informationLink) ==> v.informationLink == src.informationLink)
      && (src.skillsRequired.Some? ==> v.skillsRequired == src.skillsRequired)
      && v.nameOfDepartment.None? && v.group.None? && v.examDate.None?
      && v.applicationStartingDate == ConvertOrDrop(src.applicationStartingDate)
      && v.applicationEndDate == ConvertOrDrop(src.applicationEndDate)
  {
  }

  /** zod's format checks refuse the empty text, as `.url()` and `.email()` do. */
  predicate RefusesEmpty(fc: FormatChecks) {
    !fc.isUrl("") && !fc.isEmail("")
  }

  /**
   * A job without an application link or contact e-mail loads them as the
   * empty text, which the form's schema refuses: such a job cannot be
   * submitted until both are filled in.
   */
  lemma MissingLinkBlocksSubmit(src: Job, fc: FormatChecks)
    requires RefusesEmpty(fc)
    requires !Truthy(src.applicationLink) || !Truthy(src.contactEmail)
    ensures !GovernmentJobValid(GovernmentFormValues(src), fc)
    ensures !PrivateJobValid(PrivateFormValues(src), fc)
  {
  }

  /** The private form also needs a company website for the same reason. */
  lemma MissingWebsiteBlocksPrivateSubmit(src: Job, fc: FormatChecks)
    requires RefusesEmpty(fc) && !Truthy(src.companyWebsite)
    ensures !PrivateJobValid(PrivateFormValues(src), fc)
  {
  }

  /** The initial values of the government form; `today` is `new Date()`. */
  function GovernmentDefaults(today: DateValue): Job {
    Job(
      id := Some(""),
      companyName := None, departmentName := None, skillsRequired := None, companyWebsite := None, industry := None,
      nameOfDepartment := Some(""), ageLimit := Some(""),
      reservationCategory := Some([""]), applicationFee := Some([""]), selectionProcess := Some([""]),
      examDate := Some(today), getAdmitCardDate := Some(today), getAdmitCardLastDate := Some(today),
      resultDate := Some(today), interviewDate := Some(today),
      governmentType := Some(""), payGradeRange := Some(""), address := Some(""), group := Some(""),
      jobTitle := Some(""), vacancyCount := Some(1), jobType := Some(""),
      applicationStartingDate := Some(today), applicationEndDate := Some(today),
      eligibility := Some([""]), education := Some(""), experience := Some([""]), salaryRange := Some(""),
      jobLocation := Some([""]), applicationLink := Some(""), contactEmail := Some(""), contactPhone := Some(""),
      source := Some(""), informationLink := Some(""), jobCategory := Some("government"))
  }

  /** The initial values of the private form. */
  function PrivateDefaults(today: DateValue): Job {
    Job(
      id := Some(""), companyName := Some(""), departmentName := Some(""), skillsRequired := Some([]),
      companyWebsite := Some(""), industry := Some(""),
      nameOfDepartment := None, ageLimit := None, reservationCategory := None, applicationFee := None,
      selectionProcess := None, examDate := None, getAdmitCardDate := None, getAdmitCardLastDate := None,
      resultDate := None, interviewDate := None, governmentType := None, payGradeRange := None,
      address := None, group := None,
      jobTitle := Some(""), vacancyCount := Some(0), jobType := Some(""),
      applicationStartingDate := Some(today), applicationEndDate := Some(today),
      eligibility := Some([]), education := Some(""), experience := Some([]), salaryRange := Some(""),
      jobLocation := Some([]), applicationLink := Some(""), contactEmail := Some(""), contactPhone := Some(""),
      source := Some(""), informationLink := Some(""), jobCategory := Some("Private"))
  }

  /** The initial values are never submittable as they stand, and the two categories differ in case. */
  lemma DefaultsNeedInput(today: DateValue, fc: FormatChecks)
    ensures !GovernmentJobValid(GovernmentDefaults(today), fc)
    ensures !PrivateJobValid(PrivateDefaults(today), fc)
    ensures GovernmentDefaults(today).jobCategory != GovernmentFormValues(EmptyJob).jobCategory
  {
  }

  // ---------------------------------------------------------------------
  // Form state
  // ---------------------------------------------------------------------

  /**
   * A job form: its values and defaults, whether the vacancy field holds
   * the empty text, the job being edited, whether the form is shown, the
   * submitting flag, and the page's list of jobs of this kind.
   */
  datatype FormState = FormState(
    values: Job, defaults: Job, vacancyText: bool, editing: Option<Job>,
    open: bool, submitting: bool, list: seq<Job>)

  /** `reset(values)`: load the values and make them the defaults. */
  function Load(s: FormState, v: Job): (r: FormState)
    ensures r.values == v && r.defaults == v && !r.vacancyText
    ensures r.editing == s.editing && r.list == s.list && r.open == s.open
  {
    s.(values := v, defaults := v, vacancyText := false)
  }

  /** `formClose`: restore the defaults, stop editing, hide the form. */
  function FormClose(s: FormState): (r: FormState)
    ensures r.values == s.defaults && r.defaults == s.defaults && !r.vacancyText
    ensures r.editing.None? && !r.open && r.list == s.list
  {
    s.(values := s.defaults, vacancyText := false, editing := None, open := false)
  }

  /** A keystroke in the vacancy field. */
  function OnVacancyInput(s: FormState, raw: string): (r: FormState)
    ensures VacancyFilter(raw).None? ==> r == s
    ensures VacancyFilter(raw) == Some(EmptyText) ==> r == s.(vacancyText := true)
    ensures VacancyFilter(raw).Some? && VacancyFilter(raw).value.Number? ==>
              r == s.(vacancyText := false, values := s.values.(vacancyCount := Some(VacancyFilter(raw).value.n)))
  {
    match VacancyFilter(raw)
    case None => s
    case Some(EmptyText) => s.(vacancyText := true)
    case Some(Number(n)) => s.(vacancyText := false, values := s.values.(vacancyCount := Some(n)))
  }

  /** Typing a count's decimal text sets that count. */
  lemma TypingCountSetsIt(s: FormState, n: nat)
    ensures OnVacancyInput(s, ShowNat(n)).values.vacancyCount == Some(n)
  {
    VacancyOfShowNat(n);
  }

  /**
   * Choosing a job to edit in the government form: the form opens on it and
   * loads its values, which become the values a close restores. A job's
   * own identifier is kept, so the form stays tied to it.
   */
  function StartGovernmentEdit(s: FormState, job: Job): (r: FormState)
    ensures r.values == GovernmentFormValues(job) && r.defaults == r.values && !r.vacancyText
    ensures r.editing == Some(job) && r.open
    ensures r.list == s.list && r.submitting == s.submitting
    ensures Truthy(job.id) ==> r.values.id == job.id
  {
    Load(s.(editing := Some(job), open := true), GovernmentFormValues(job))
  }

  function StartPrivateEdit(s: FormState, job: Job): (r: FormState)
    ensures r.values == PrivateFormValues(job) && r.defaults == r.values && !r.vacancyText
    ensures r.editing == Some(job) && r.open
    ensures r.list == s.list && r.submitting == s.submitting
    ensures Truthy(job.id) ==> r.values.id == job.id
  {
    Load(s.(editing := Some(job), open := true), PrivateFormValues(job))
  }

  /**
   * Closing the form after choosing a job resets its internal values to
   * that job's loaded values and ends the edit; the form is then hidden.
   */
  lemma EditThenCloseRestoresJob(s: FormState, job: Job)
    ensures FormClose(StartGovernmentEdit(s, job)).values == GovernmentFormValues(job)
    ensures FormClose(StartPrivateEdit(s, job)).values == PrivateFormValues(job)
    ensures FormClose(StartGovernmentEdit(s, job)).editing.None? && FormClose(StartPrivateEdit(s, job)).editing.None?
  {
  }

  /**
   * Receiving AI-formatted text: empty text or text `parse` cannot read
   * leaves the form as it is; otherwise the parsed job is loaded.
   */
  function ReceiveInsertion(s: FormState, text: string, parse: string -> Option<Job>, government: bool): (r: FormState)
    ensures text == "" || parse(text).None? ==> r == s
    ensures text != "" && parse(text).Some? ==>
              r == Load(s, if government then GovernmentFormValues(parse(text).value) else PrivateFormValues(parse(text).value))
  {
    if text == "" then s
    else match parse(text)
      case None => s
      case Some(job) => Load(s, if government then GovernmentFormValues(job) else PrivateFormValues(job))
  }

  /**
   * Closing after an insertion resets the form's internal values to the
   * inserted ones, not the initial ones; the form is then hidden.
   */
  lemma InsertedValuesSurviveClose(s: FormState, text: string, parse: string -> Option<Job>, government: bool, typed: Job)
    requires text != "" && parse(text).Some?
    ensures var loaded := ReceiveInsertion(s, text, parse, government);
      FormClose(loaded.(values := typed)).values == loaded.values
  {
  }

  // ---------------------------------------------------------------------
  // Submitting
  // ---------------------------------------------------------------------

  /** A `Date` as the request carries it: its text. */
  function JsonDate(o: Option<DateValue>): (r: Option<DateValue>)
    ensures o.None? ==> r.None?
    ensures o.Some? ==> r.Some? && r.value.Raw? && r.value.text == o.value.text
    ensures o.Some? && o.value.Instant? ==> r.value.parses == o.value.valid
  {
    match o
    case None => None
    case Some(Raw(_, _)) => o
    case Some(Instant(t, v)) => Some(Raw(t, v))
  }

  /** The JSON body of a submitted job: dates travel as text, all else as it is. */
  function Serialize(j: Job): (r: Job)
    ensures forall f :: GetDate(r, f) == JsonDate(GetDate(j, f))
    ensures ClearDates(r) == ClearDates(j)
  {
    j.(applicationStartingDate := JsonDate(j.applicationStartingDate),
       applicationEndDate := JsonDate(j.applicationEndDate),
       examDate := JsonDate(j.examDate),
       getAdmitCardDate := JsonDate(j.getAdmitCardDate),
       getAdmitCardLastDate := JsonDate(j.getAdmitCardLastDate),
       resultDate := JsonDate(j.resultDate),
       interviewDate := JsonDate(j.interviewDate))
  }

  /** A `Date`'s text is never empty (it is its ISO form). */
  predicate DatePrintable(o: Option<DateValue>) {
    o.Some? && o.value.Instant? ==> o.value.text != ""
  }

  predicate DatesPrintable(j: Job) {
    forall f :: DatePrintable(GetDate(j, f))
  }

  /** A date the form accepts reaches the route as text that converts back to an accepted date. */
  lemma AcceptedDateSurvivesTransport(o: Option<DateValue>)
    requires DateAccepted(o) && DatePrintable(o)
    ensures DateAccepted(ConvertIfTruthy(JsonDate(o)))
    ensures DateAccepted(ConvertOrDrop(JsonDate(o)))
    ensures !PrivateRoutes.InvalidInstant(ConvertOrDrop(JsonDate(o)))
  {
  }

  /** A government posting sent by the form is, once the handler converts its dates, the posting itself. */
  lemma GovernmentBodyRoundTrip(v: Job)
    requires DatesAccepted(v) && DatesPrintable(v)
    ensures GovernmentRoutes.ConvertDates(Serialize(v)) == v
  {
    var c := GovernmentRoutes.ConvertDates(Serialize(v));
    forall f ensures GetDate(c, f) == GetDate(v, f) {
      GovernmentDateFieldsComplete(f);
      assert DatePrintable(GetDate(v, f));
    }
    DatesDetermine(c, v);
  }

  /** A private posting sent by the form is, as the create handler hands it to the schema, the posting itself. */
  lemma PrivateBodyRoundTrip(v: Job)
    requires DateAccepted(v.applicationStartingDate) && DateAccepted(v.applicationEndDate) && DatesPrintable(v)
    requires GovernmentOnlyKeysAbsent(v)
    ensures PrivateRoutes.ApplicationDatesParse(Serialize(v))
    ensures PrivateRoutes.SchemaInput(Serialize(v)).(id := v.id) == v
  {
    assert DatePrintable(GetDate(v, ApplicationStartingDate));
    assert DatePrintable(GetDate(v, ApplicationEndDate));
  }

  /** What the government form accepts, the government routes accept too. */
  lemma GovernmentClientValidIsServerValid(values: Job, fc: FormatChecks)
    requires GovernmentJobValid(values, fc) && DatesPrintable(values)
    ensures GovernmentJobValid(GovernmentRoutes.ConvertDates(Serialize(values)), fc)
    ensures GovernmentJobValid(GovernmentRoutes.ConvertDates(Serialize(values).(id := None)), fc)
  {
    var c := GovernmentRoutes.ConvertDates(Serialize(values));
    forall f | f in GovernmentDateFields ensures DateAccepted(GetDate(c, f)) {
      AcceptedDateSurvivesTransport(GetDate(values, f));
    }
    var c2 := GovernmentRoutes.ConvertDates(Serialize(values).(id := None));
    assert forall f :: GetDate(c2, f) == GetDate(c, f);
  }

  /** What the private form accepts, the private routes accept too. */
  lemma PrivateClientValidIsServerValid(values: Job, fc: FormatChecks)
    requires PrivateJobValid(values, fc) && DatesPrintable(values)
    ensures PrivateRoutes.ApplicationDatesParse(Serialize(values))
    ensures PrivateJobValid(PrivateRoutes.SchemaInput(Serialize(values)), fc)
  {
    assert DatePrintable(GetDate(values, ApplicationStartingDate));
    assert DatePrintable(GetDate(values, ApplicationEndDate));
    AcceptedDateSurvivesTransport(values.applicationStartingDate);
    AcceptedDateSurvivesTransport(values.applicationEndDate);
  }

  /** `job._id === updated._id ? updated : job` over the shown list. */
  function ReplaceById(list: seq<Job>, updated: Job): (r: seq<Job>)
    ensures |r| == |list|
    ensures forall k | 0 <= k < |list| :: r[k] == if list[k].id == updated.id then updated else list[k]
  {
    if list == [] then []
    else [if list[0].id == updated.id then updated else list[0]] + ReplaceById(list[1..], updated)
  }

  /** Replacing twice with the same job is replacing once. */
  lemma ReplaceByIdIdempotent(list: seq<Job>, updated: Job)
    ensures ReplaceById(ReplaceById(list, updated), updated) == ReplaceById(list, updated)
  {
  }

  /** The updated job is shown wherever its identifier was, and nothing else moves. */
  lemma ReplaceByIdShowsUpdate(list: seq<Job>, updated: Job, k: nat)
    requires k < |list| && list[k].id == updated.id
    ensures updated in ReplaceById(list, updated)
    ensures forall m | 0 <= m < |list| && list[m].id != updated.id :: ReplaceById(list, updated)[m] == list[m]
  {
    assert ReplaceById(list, updated)[k] == updated;
  }

  /** The form's own check before anything is sent: the route's schema, and no text in the vacancy field. */
  predicate GovernmentSubmittable(s: FormState, fc: FormatChecks) {
    !s.vacancyText && GovernmentJobValid(s.values, fc)
  }

  predicate PrivateSubmittable(s: FormState, fc: FormatChecks) {
    !s.vacancyText && PrivateJobValid(s.values, fc)
  }

  /** A form after submitting and the collection after the request. */
  datatype Submitted = Submitted(form: FormState, store: seq<Doc>)

  /**
   * Submitting the government form: an edit is sent as an update, anything
   * else as a new posting. After an accepted update the shown list takes
   * the updated document; then, whatever the reply, the form is closed.
   */
  function SubmitGovernment(s: FormState, store: seq<Doc>, freshId: string, now: int,
                            fc: FormatChecks, isObjectId: string -> bool): (r: Submitted)
    requires FreshId(store, freshId)
    ensures !GovernmentSubmittable(s, fc) ==> r == Submitted(s, store)
    ensures GovernmentSubmittable(s, fc) ==>
              && r.form.values == s.defaults && r.form.editing.None? && !r.form.open && !r.form.submitting
    ensures GovernmentSubmittable(s, fc) && s.editing.None? ==>
              r.store == GovernmentRoutes.Create(store, Some(Serialize(ParseGovernment(s.values, fc).value)), freshId, now, fc).store
              && r.form.list == s.list
    ensures GovernmentSubmittable(s, fc) && s.editing.Some? ==>
              var o := GovernmentRoutes.Update(store, Some(Serialize(ParseGovernment(s.values, fc).value)), now, fc, isObjectId);
              && r.store == o.store
              && r.form.list == (if o.reply.status == 200 then ReplaceById(s.list, o.reply.payload.doc.job) else s.list)
  {
    if !GovernmentSubmittable(s, fc) then Submitted(s, store)
    else
      var body := Serialize(ParseGovernment(s.values, fc).value);
      if s.editing.None? then
        var o := GovernmentRoutes.Create(store, Some(body), freshId, now, fc);
        Submitted(FormClose(s.(submitting := false)), o.store)
      else
        var o := GovernmentRoutes.Update(store, Some(body), now, fc, isObjectId);
        var list := if o.reply.status == 200 then ReplaceById(s.list, o.reply.payload.doc.job) else s.list;
        Submitted(FormClose(s.(submitting := false, list := list)), o.store)
  }

  /** Submitting the private form. */
  function SubmitPrivate(s: FormState, store: seq<Doc>, freshId: string, now: int,
                         fc: FormatChecks, isObjectId: string -> bool): (r: Submitted)
    requires FreshId(store, freshId)
    ensures !PrivateSubmittable(s, fc) ==> r == Submitted(s, store)
    ensures PrivateSubmittable(s, fc) ==>
              && r.form.values == s.defaults && r.form.editing.None? && !r.form.open && !r.form.submitting
    ensures PrivateSubmittable(s, fc) && s.editing.None? ==>
              r.store == PrivateRoutes.Create(store, Some(Serialize(ParsePrivate(s.values, fc).value)), freshId, now, fc, isObjectId).store
              && r.form.list == s.list
    ensures PrivateSubmittable(s, fc) && s.editing.Some? ==>
              var o := PrivateRoutes.Update(store, Some(Serialize(ParsePrivate(s.values, fc).value)), now, fc, isObjectId);
              && r.store == o.store
              && r.form.list == (if o.reply.status == 200 then ReplaceById(s.list, o.reply.payload.doc.job) else s.list)
  {
    if !PrivateSubmittable(s, fc) then Submitted(s, store)
    else
      var body := Serialize(ParsePrivate(s.values, fc).value);
      if s.editing.None? then
        var o := PrivateRoutes.Create(store, Some(body), freshId, now, fc, isObjectId);
        Submitted(FormClose(s.(submitting := false)), o.store)
      else
        var o := PrivateRoutes.Update(store, Some(body), now, fc, isObjectId);
        var list := if o.reply.status == 200 then ReplaceById(s.list, o.reply.payload.doc.job) else s.list;
        Submitted(FormClose(s.(submitting := false, list := list)), o.store)
  }

  /**
   * Submitting an edit of a stored job sends the update for that job: the
   * body's `_id` is the job's own identifier.
   */
  lemma GovernmentEditTargetsJob(s: FormState, job: Job, fc: FormatChecks)
    requires Truthy(job.id)
    requires GovernmentSubmittable(StartGovernmentEdit(s, job), fc)
    ensures Serialize(ParseGovernment(StartGovernmentEdit(s, job).values, fc).value).id == job.id
  {
  }

  lemma PrivateEditTargetsJob(s: FormState, job: Job, fc: FormatChecks)
    requires Truthy(job.id)
    requires PrivateSubmittable(StartPrivateEdit(s, job), fc)
    ensures Serialize(ParsePrivate(StartPrivateEdit(s, job).values, fc).value).id == job.id
  {
  }

  /**
   * A new government posting the form accepts, that is not yet listed and
   * that the collection's own validation takes, is stored: exactly one more
   * document, holding the form's values under a fresh identifier, with the
   * collection's empty lists filled in.
   */
  lemma NewGovernmentPostingStored(s: FormState, store: seq<Doc>, freshId: string, now: int,
                                   fc: FormatChecks, isObjectId: string -> bool)
    requires FreshId(store, freshId)
    requires GovernmentSubmittable(s, fc) && s.editing.None? && DatesPrintable(s.values)
    requires !GovernmentRoutes.PostingExists(store, s.values) && StoredModels.GovernmentDocumentValid(s.values)
    ensures var r := SubmitGovernment(s, store, freshId, now, fc, isObjectId);
      && |r.store| == |store| + 1 && r.store[..|store|] == store
      && GovernmentKeysAgree(r.store[|store|].job, StoredModels.GovernmentArrayDefaults(s.values).(id := Some(freshId)))
      && PrivateOnlyKeysAbsent(r.store[|store|].job)
      && r.store[|store|].createdAt == now && r.store[|store|].updatedAt == now
  {
    var v := ParseGovernment(s.values, fc).value;
    assert forall f :: GetDate(v, f) == GetDate(s.values, f);
    GovernmentBodyRoundTrip(v);
    ParseGovernmentIdempotent(s.values, fc);
  }

  /**
   * The same for a new private posting whose `_id` is an ObjectId not yet
   * in use: the document is stored under that identifier.
   */
  lemma NewPrivatePostingStored(s: FormState, store: seq<Doc>, freshId: string, now: int,
                                fc: FormatChecks, isObjectId: string -> bool)
    requires FreshId(store, freshId)
    requires PrivateSubmittable(s, fc) && s.editing.None? && DatesPrintable(s.values)
    requires s.values.id.Some? && isObjectId(s.values.id.value) && FreshId(store, s.values.id.value)
    requires !PrivateRoutes.PostingExists(store, s.values) && StoredModels.PrivateDocumentValid(s.values)
    ensures var r := SubmitPrivate(s, store, freshId, now, fc, isObjectId);
      && |r.store| == |store| + 1 && r.store[..|store|] == store
      && PrivateKeysAgree(r.store[|store|].job, StoredModels.PrivateArrayDefaults(s.values))
      && GovernmentOnlyKeysAbsent(r.store[|store|].job)
      && r.store[|store|].createdAt == now && r.store[|store|].updatedAt == now
  {
    var v := ParsePrivate(s.values, fc).value;
    assert forall f :: GetDate(v, f) == GetDate(s.values, f) || GetDate(v, f).None?;
    PrivateBodyRoundTrip(v);
    ParsePrivateIdempotent(s.values, fc);
  }

  /**
   * The private form always carries an `_id` (the empty text unless a job
   * was loaded), and the create route keeps it: when that text is not an
   * ObjectId, adding a new private job from the form never creates it.
   */
  lemma PrivateFormAddNeverCreates(s: FormState, store: seq<Doc>, freshId: string, now: int,
                                   fc: FormatChecks, isObjectId: string -> bool)
    requires FreshId(store, freshId)
    requires PrivateSubmittable(s, fc) && DatesPrintable(s.values)
    requires s.values.id == Some("") && !isObjectId("")
    ensures PrivateRoutes.Create(store, Some(Serialize(ParsePrivate(s.values, fc).value)), freshId, now, fc, isObjectId).reply.status in {409, 500}
  {
    var data := ParsePrivate(s.values, fc).value;
    ParsePrivateIdempotent(s.values, fc);
    assert forall f :: GetDate(data, f) == GetDate(s.values, f) || GetDate(data, f).None?;
    assert DatesPrintable(data);
    PrivateClientValidIsServerValid(data, fc);
  }
}
