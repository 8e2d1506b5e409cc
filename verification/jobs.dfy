/**
 * The job record as it travels through the application: a JSON document
 * whose keys may each be absent. Private and government postings share
 * this one shape; which kind a record is follows from which keys it
 * carries, exactly as the client code decides it.
 */
module Jobs {
  import opened Wrappers
  import opened Text

  /**
   * A date-valued key. A JSON body can only carry text (`Raw`), with
   * `parses` the verdict `new Date(text)` would give; `Instant` is a
   * `Date` object already built from `text`, `valid` unless it is the
   * invalid date.
   */
  datatype DateValue = Raw(text: string, parses: bool) | Instant(text: string, valid: bool)

  /** The seven date keys of a government posting, in the order the update route lists them. */
  datatype DateField =
    | ApplicationStartingDate | ApplicationEndDate | ExamDate | GetAdmitCardDate
    | GetAdmitCardLastDate | ResultDate | InterviewDate

  const GovernmentDateFields: seq<DateField> := [
    ApplicationStartingDate, ApplicationEndDate, ExamDate, GetAdmitCardDate,
    GetAdmitCardLastDate, ResultDate, InterviewDate
  ]

  /** The government schema lists every date key. */
  lemma GovernmentDateFieldsComplete(f: DateField)
    ensures f in GovernmentDateFields
  {
  }

  /** A job posting; the union of the private and the government key sets. */
  datatype Job = Job(
    id: Option<string>,
    // private postings
    companyName: Option<string>,
    departmentName: Option<string>,
    skillsRequired: Option<seq<string>>,
    companyWebsite: Option<string>,
    industry: Option<string>,
    // government postings
    nameOfDepartment: Option<string>,
    ageLimit: Option<string>,
    reservationCategory: Option<seq<string>>,
    applicationFee: Option<seq<string>>,
    selectionProcess: Option<seq<string>>,
    examDate: Option<DateValue>,
    getAdmitCardDate: Option<DateValue>,
    getAdmitCardLastDate: Option<DateValue>,
    resultDate: Option<DateValue>,
    interviewDate: Option<DateValue>,
    governmentType: Option<string>,
    payGradeRange: Option<string>,
    address: Option<string>,
    group: Option<string>,
    // both kinds
    jobTitle: Option<string>,
    vacancyCount: Option<int>,
    jobType: Option<string>,
    applicationStartingDate: Option<DateValue>,
    applicationEndDate: Option<DateValue>,
    eligibility: Option<seq<string>>,
    education: Option<string>,
    experience: Option<seq<string>>,
    salaryRange: Option<string>,
    jobLocation: Option<seq<string>>,
    applicationLink: Option<string>,
    contactEmail: Option<string>,
    contactPhone: Option<string>,
    source: Option<string>,
    informationLink: Option<string>,
    jobCategory: Option<string>
  )

  /** The document with no keys at all (`{}`). */
  const EmptyJob: Job := Job(
    None, None, None, None, None, None, None, None, None, None, None, None,
    None, None, None, None, None, None, None, None, None, None, None, None,
    None, None, None, None, None, None, None, None, None, None, None, None)

  function GetDate(j: Job, f: DateField): Option<DateValue> {
    match f
    case ApplicationStartingDate => j.applicationStartingDate
    case ApplicationEndDate => j.applicationEndDate
    case ExamDate => j.examDate
    case GetAdmitCardDate => j.getAdmitCardDate
    case GetAdmitCardLastDate => j.getAdmitCardLastDate
    case ResultDate => j.resultDate
    case InterviewDate => j.interviewDate
  }

  /** The record with every date key removed: what a date-only change leaves alone. */
  function ClearDates(j: Job): Job {
    j.(applicationStartingDate := None, applicationEndDate := None, examDate := None, getAdmitCardDate := None,
       getAdmitCardLastDate := None, resultDate := None, interviewDate := None)
  }

  function SetDate(j: Job, f: DateField, d: Option<DateValue>): (r: Job)
    ensures GetDate(r, f) == d
    ensures forall g :: g != f ==> GetDate(r, g) == GetDate(j, g)
    ensures ClearDates(r) == ClearDates(j)
  {
    match f
    case ApplicationStartingDate => j.(applicationStartingDate := d)
    case ApplicationEndDate => j.(applicationEndDate := d)
    case ExamDate => j.(examDate := d)
    case GetAdmitCardDate => j.(getAdmitCardDate := d)
    case GetAdmitCardLastDate => j.(getAdmitCardLastDate := d)
    case ResultDate => j.(resultDate := d)
    case InterviewDate => j.(interviewDate := d)
  }

  /** A record is determined by its date keys and everything else. */
  lemma DatesDetermine(a: Job, b: Job)
    requires ClearDates(a) == ClearDates(b)
    requires forall f :: GetDate(a, f) == GetDate(b, f)
    ensures a == b
  {
    assert GetDate(a, ApplicationStartingDate) == GetDate(b, ApplicationStartingDate);
    assert GetDate(a, ApplicationEndDate) == GetDate(b, ApplicationEndDate);
    assert GetDate(a, ExamDate) == GetDate(b, ExamDate);
    assert GetDate(a, GetAdmitCardDate) == GetDate(b, GetAdmitCardDate);
    assert GetDate(a, GetAdmitCardLastDate) == GetDate(b, GetAdmitCardLastDate);
    assert GetDate(a, ResultDate) == GetDate(b, ResultDate);
    assert GetDate(a, InterviewDate) == GetDate(b, InterviewDate);
  }

  // ---------------------------------------------------------------------
  // The key sets of the two kinds of posting
  // ---------------------------------------------------------------------

  /** Agreement on `_id` and on the keys both kinds of posting have. */
  predicate SharedKeysAgree(a: Job, b: Job) {
    && a.id == b.id && a.jobTitle == b.jobTitle && a.vacancyCount == b.vacancyCount && a.jobType == b.jobType
    && a.applicationStartingDate == b.applicationStartingDate && a.applicationEndDate == b.applicationEndDate
    && a.eligibility == b.eligibility && a.education == b.education && a.experience == b.experience
    && a.salaryRange == b.salaryRange && a.jobLocation == b.jobLocation && a.applicationLink == b.applicationLink
    && a.contactEmail == b.contactEmail && a.contactPhone == b.contactPhone && a.source == b.source
    && a.informationLink == b.informationLink && a.jobCategory == b.jobCategory
  }

  /** Agreement on every key of a government posting. */
  predicate GovernmentKeysAgree(a: Job, b: Job) {
    && SharedKeysAgree(a, b)
    && a.nameOfDepartment == b.nameOfDepartment && a.ageLimit == b.ageLimit
    && a.reservationCategory == b.reservationCategory && a.applicationFee == b.applicationFee
    && a.selectionProcess == b.selectionProcess && a.examDate == b.examDate
    && a.getAdmitCardDate == b.getAdmitCardDate && a.getAdmitCardLastDate == b.getAdmitCardLastDate
    && a.resultDate == b.resultDate && a.interviewDate == b.interviewDate
    && a.governmentType == b.governmentType && a.payGradeRange == b.payGradeRange
    && a.address == b.address && a.group == b.group
  }

  /** Agreement on every key of a private posting. */
  predicate PrivateKeysAgree(a: Job, b: Job) {
    && SharedKeysAgree(a, b)
    && a.companyName == b.companyName && a.departmentName == b.departmentName
    && a.skillsRequired == b.skillsRequired && a.companyWebsite == b.companyWebsite && a.industry == b.industry
  }

  /** None of the keys only a private posting has. */
  predicate PrivateOnlyKeysAbsent(j: Job) {
    j.companyName.None? && j.departmentName.None? && j.skillsRequired.None? && j.companyWebsite.None? && j.industry.None?
  }

  /** None of the keys only a government posting has. */
  predicate GovernmentOnlyKeysAbsent(j: Job) {
    && j.nameOfDepartment.None? && j.ageLimit.None? && j.reservationCategory.None? && j.applicationFee.None?
    && j.selectionProcess.None? && j.examDate.None? && j.getAdmitCardDate.None? && j.getAdmitCardLastDate.None?
    && j.resultDate.None? && j.interviewDate.None? && j.governmentType.None? && j.payGradeRange.None?
    && j.address.None? && j.group.None?
  }

  /** A government posting is determined by its own keys; a private one likewise. */
  lemma KeySetsDetermine(a: Job, b: Job)
    ensures GovernmentKeysAgree(a, b) && PrivateOnlyKeysAbsent(a) && PrivateOnlyKeysAbsent(b) ==> a == b
    ensures PrivateKeysAgree(a, b) && GovernmentOnlyKeysAbsent(a) && GovernmentOnlyKeysAbsent(b) ==> a == b
  {
  }

  // ---------------------------------------------------------------------
  // JavaScript truthiness of the key kinds
  // ---------------------------------------------------------------------

  /** A present, non-zero number. */
  predicate TruthyNumber(o: Option<int>) {
    o.Some? && o.value != 0
  }

  /** A date key is falsy only when absent or holding the empty text; objects are truthy. */
  predicate TruthyDate(o: Option<DateValue>) {
    o.Some? && (o.value.Instant? || o.value.text != "")
  }

  /** `new Date(value)` applied to a raw text; a `Date` is copied as it is. */
  function ToInstant(d: DateValue): (r: DateValue)
    ensures r.Instant? && r.text == d.text
    ensures d.Raw? ==> r.valid == d.parses
  {
    match d
    case Raw(t, p) => Instant(t, p)
    case Instant(_, _) => d
  }

  /** `value ? new Date(value) : value`, the conversion applied to a date key. */
  function ConvertIfTruthy(o: Option<DateValue>): (r: Option<DateValue>)
    ensures TruthyDate(o) ==> r == Some(ToInstant(o.value))
    ensures !TruthyDate(o) ==> r == o
  {
    if TruthyDate(o) then Some(ToInstant(o.value)) else o
  }

  /** `value ? new Date(value) : undefined`: a falsy date is dropped, not kept. */
  function ConvertOrDrop(o: Option<DateValue>): (r: Option<DateValue>)
    ensures TruthyDate(o) <==> r.Some?
    ensures r.Some? ==> r.value == ToInstant(o.value)
  {
    if TruthyDate(o) then Some(ToInstant(o.value)) else None
  }

  /** An acceptable `z.date().optional()` value: absent, or a valid `Date`. */
  predicate DateAccepted(o: Option<DateValue>) {
    o.None? || (o.value.Instant? && o.value.valid)
  }

  // ---------------------------------------------------------------------
  // Partial updates
  // ---------------------------------------------------------------------

  /** The update's value for a key when it carries one, else the stored value. */
  function Pick<T>(u: Option<T>, b: Option<T>): (r: Option<T>)
    ensures u.Some? ==> r == u
    ensures u.None? ==> r == b
  {
    if u.Some? then u else b
  }

  /** One key after a `$set`: the update's value when it carries the key, the stored value otherwise. */
  predicate CarriedOrKept<T(==)>(r: Option<T>, update: Option<T>, base: Option<T>) {
    (update.Some? ==> r == update) && (update.None? ==> r == base)
  }

  /** Every key of `r` is carried by `update` or kept from `base`. */
  predicate OverlaidOn(r: Job, update: Job, base: Job) {
    && CarriedOrKept(r.id, update.id, base.id) && CarriedOrKept(r.companyName, update.companyName, base.companyName)
    && CarriedOrKept(r.departmentName, update.departmentName, base.departmentName) && CarriedOrKept(r.skillsRequired, update.skillsRequired, base.skillsRequired)
    && CarriedOrKept(r.companyWebsite, update.companyWebsite, base.companyWebsite) && CarriedOrKept(r.industry, update.industry, base.industry)
    && CarriedOrKept(r.nameOfDepartment, update.nameOfDepartment, base.nameOfDepartment) && CarriedOrKept(r.ageLimit, update.ageLimit, base.ageLimit)
    && CarriedOrKept(r.reservationCategory, update.reservationCategory, base.reservationCategory) && CarriedOrKept(r.applicationFee, update.applicationFee, base.applicationFee)
    && CarriedOrKept(r.selectionProcess, update.selectionProcess, base.selectionProcess) && CarriedOrKept(r.examDate, update.examDate, base.examDate)
    && CarriedOrKept(r.getAdmitCardDate, update.getAdmitCardDate, base.getAdmitCardDate) && CarriedOrKept(r.getAdmitCardLastDate, update.getAdmitCardLastDate, base.getAdmitCardLastDate)
    && CarriedOrKept(r.resultDate, update.resultDate, base.resultDate) && CarriedOrKept(r.interviewDate, update.interviewDate, base.interviewDate)
    && CarriedOrKept(r.governmentType, update.governmentType, base.governmentType) && CarriedOrKept(r.payGradeRange, update.payGradeRange, base.payGradeRange)
    && CarriedOrKept(r.address, update.address, base.address) && CarriedOrKept(r.group, update.group, base.group)
    && CarriedOrKept(r.jobTitle, update.jobTitle, base.jobTitle) && CarriedOrKept(r.vacancyCount, update.vacancyCount, base.vacancyCount)
    && CarriedOrKept(r.jobType, update.jobType, base.jobType) && CarriedOrKept(r.applicationStartingDate, update.applicationStartingDate, base.applicationStartingDate)
    && CarriedOrKept(r.applicationEndDate, update.applicationEndDate, base.applicationEndDate) && CarriedOrKept(r.eligibility, update.eligibility, base.eligibility)
    && CarriedOrKept(r.education, update.education, base.education) && CarriedOrKept(r.experience, update.experience, base.experience)
    && CarriedOrKept(r.salaryRange, update.salaryRange, base.salaryRange) && CarriedOrKept(r.jobLocation, update.jobLocation, base.jobLocation)
    && CarriedOrKept(r.applicationLink, update.applicationLink, base.applicationLink) && CarriedOrKept(r.contactEmail, update.contactEmail, base.contactEmail)
    && CarriedOrKept(r.contactPhone, update.contactPhone, base.contactPhone) && CarriedOrKept(r.source, update.source, base.source)
    && CarriedOrKept(r.informationLink, update.informationLink, base.informationLink) && CarriedOrKept(r.jobCategory, update.jobCategory, base.jobCategory)
  }

  /**
   * A `$set` of the keys `update` carries onto `base`: keys the update
   * leaves out keep their stored value.
   */
  function Overlay(base: Job, update: Job): (r: Job)
    ensures OverlaidOn(r, update, base)
  {
    Job(Pick(update.id, base.id),
       Pick(update.companyName, base.companyName),
       Pick(update.departmentName, base.departmentName),
       Pick(update.skillsRequired, base.skillsRequired),
       Pick(update.companyWebsite, base.companyWebsite),
       Pick(update.industry, base.industry),
       Pick(update.nameOfDepartment, base.nameOfDepartment),
       Pick(update.ageLimit, base.ageLimit),
       Pick(update.reservationCategory, base.reservationCategory),
       Pick(update.applicationFee, base.applicationFee),
       Pick(update.selectionProcess, base.selectionProcess),
       Pick(update.examDate, base.examDate),
       Pick(update.getAdmitCardDate, base.getAdmitCardDate),
       Pick(update.getAdmitCardLastDate, base.getAdmitCardLastDate),
       Pick(update.resultDate, base.resultDate),
       Pick(update.interviewDate, base.interviewDate),
       Pick(update.governmentType, base.governmentType),
       Pick(update.payGradeRange, base.payGradeRange),
       Pick(update.address, base.address),
       Pick(update.group, base.group),
       Pick(update.jobTitle, base.jobTitle),
       Pick(update.vacancyCount, base.vacancyCount),
       Pick(update.jobType, base.jobType),
       Pick(update.applicationStartingDate, base.applicationStartingDate),
       Pick(update.applicationEndDate, base.applicationEndDate),
       Pick(update.eligibility, base.eligibility),
       Pick(update.education, base.education),
       Pick(update.experience, base.experience),
       Pick(update.salaryRange, base.salaryRange),
       Pick(update.jobLocation, base.jobLocation),
       Pick(update.applicationLink, base.applicationLink),
       Pick(update.contactEmail, base.contactEmail),
       Pick(update.contactPhone, base.contactPhone),
       Pick(update.source, base.source),
       Pick(update.informationLink, base.informationLink),
       Pick(update.jobCategory, base.jobCategory))
  }

  /** The date keys in particular: each is carried by the update or kept. */
  lemma OverlayDates(base: Job, update: Job)
    ensures forall f :: GetDate(Overlay(base, update), f) == Pick(GetDate(update, f), GetDate(base, f))
  {
    var r := Overlay(base, update);
    forall f ensures GetDate(r, f) == Pick(GetDate(update, f), GetDate(base, f)) {
      match f
      case ApplicationStartingDate =>
      case ApplicationEndDate =>
      case ExamDate =>
      case GetAdmitCardDate =>
      case GetAdmitCardLastDate =>
      case ResultDate =>
      case InterviewDate =>
    }
  }

  /** An update with no keys changes nothing. */
  lemma OverlayEmpty(base: Job)
    ensures Overlay(base, EmptyJob) == base
  {
  }

  /** Applying the same update twice is applying it once. */
  lemma OverlayIdempotent(base: Job, update: Job)
    ensures Overlay(Overlay(base, update), update) == Overlay(base, update)
  {
  }

  /** Every key the update carries is stored as given; every other key keeps its old value. */
  lemma OverlayKeys(base: Job, update: Job)
    ensures var r := Overlay(base, update);
      && (update.jobTitle.Some? ==> r.jobTitle == update.jobTitle)
      && (update.jobTitle.None? ==> r.jobTitle == base.jobTitle)
      && (update.id.None? ==> r.id == base.id)
      && (update.jobLocation.Some? ==> r.jobLocation == update.jobLocation)
      && (update.jobLocation.None? ==> r.jobLocation == base.jobLocation)
  {
  }
}
