/**
 * The zod schemas for job postings: which documents the government and
 * private schemas accept, and the document `safeParse` hands back (only
 * the schema's own keys survive). zod's `.url()` and `.email()` checks are
 * parameters.
 */
module Schemas {
  import opened Wrappers
  import opened Text
  import opened Jobs

  /** zod's URL and e-mail format checks, which the model does not restate. */
  datatype FormatChecks = FormatChecks(isUrl: string -> bool, isEmail: string -> bool)

  predicate OptionalUrl(o: Option<string>, fc: FormatChecks) {
    o.None? || fc.isUrl(o.value)
  }

  predicate OptionalEmail(o: Option<string>, fc: FormatChecks) {
    o.None? || fc.isEmail(o.value)
  }

  /** Every government date key is absent or a valid `Date`. */
  predicate DatesAccepted(j: Job) {
    forall f | f in GovernmentDateFields :: DateAccepted(GetDate(j, f))
  }

  /** `governmentJobValidation`: `min(1)` texts are `Truthy`; lists, location and group may be absent. */
  predicate GovernmentJobValid(j: Job, fc: FormatChecks) {
    && Truthy(j.nameOfDepartment)
    && Truthy(j.jobTitle)
    && j.vacancyCount.Some? && j.vacancyCount.value >= 1
    && Truthy(j.jobType)
    && DatesAccepted(j)
    && Truthy(j.education)
    && j.ageLimit.Some?
    && j.informationLink.Some? && fc.isUrl(j.informationLink.value)
    && OptionalUrl(j.applicationLink, fc)
    && Truthy(j.governmentType)
    && OptionalEmail(j.contactEmail, fc)
    && Truthy(j.jobCategory)
  }

  /** `privateJobValidation`: vacancy count, location and the descriptive keys may be absent. */
  predicate PrivateJobValid(j: Job, fc: FormatChecks) {
    && Truthy(j.companyName)
    && Truthy(j.jobTitle)
    && Truthy(j.jobType)
    && DateAccepted(j.applicationStartingDate)
    && DateAccepted(j.applicationEndDate)
    && Truthy(j.education)
    && OptionalUrl(j.applicationLink, fc)
    && OptionalUrl(j.companyWebsite, fc)
    && OptionalEmail(j.contactEmail, fc)
    && j.informationLink.Some? && fc.isUrl(j.informationLink.value) && |j.informationLink.value| >= 1
    && Truthy(j.jobCategory)
  }

  /** The keys of the government schema only. */
  function StripToGovernment(j: Job): Job {
    j.(companyName := None, departmentName := None, skillsRequired := None, companyWebsite := None, industry := None)
  }

  /** The keys of the private schema only. */
  function StripToPrivate(j: Job): Job {
    j.(nameOfDepartment := None, ageLimit := None, reservationCategory := None, applicationFee := None,
       selectionProcess := None, examDate := None, getAdmitCardDate := None, getAdmitCardLastDate := None,
       resultDate := None, interviewDate := None, governmentType := None, payGradeRange := None,
       address := None, group := None)
  }

  /** `governmentJobValidation.safeParse`. */
  function ParseGovernment(j: Job, fc: FormatChecks): (r: Option<Job>)
    ensures r.Some? <==> GovernmentJobValid(j, fc)
    ensures r.Some? ==> GovernmentKeysAgree(r.value, j) && PrivateOnlyKeysAbsent(r.value)
  {
    if GovernmentJobValid(j, fc) then Some(StripToGovernment(j)) else None
  }

  /** `privateJobValidation.safeParse`. */
  function ParsePrivate(j: Job, fc: FormatChecks): (r: Option<Job>)
    ensures r.Some? <==> PrivateJobValid(j, fc)
    ensures r.Some? ==> PrivateKeysAgree(r.value, j) && GovernmentOnlyKeysAbsent(r.value)
  {
    if PrivateJobValid(j, fc) then Some(StripToPrivate(j)) else None
  }

  /** What the government schema hands back it accepts again, unchanged. */
  lemma ParseGovernmentIdempotent(j: Job, fc: FormatChecks)
    requires ParseGovernment(j, fc).Some?
    ensures ParseGovernment(ParseGovernment(j, fc).value, fc) == ParseGovernment(j, fc)
  {
    var r := StripToGovernment(j);
    assert forall f :: GetDate(r, f) == GetDate(j, f);
  }

  /** What the private schema hands back it accepts again, unchanged. */
  lemma ParsePrivateIdempotent(j: Job, fc: FormatChecks)
    requires ParsePrivate(j, fc).Some?
    ensures ParsePrivate(ParsePrivate(j, fc).value, fc) == ParsePrivate(j, fc)
  {
  }

  /** The age limit must be present but may be empty: emptying it keeps a valid posting valid. */
  lemma GovernmentAgeLimitMayBeEmpty(j: Job, fc: FormatChecks)
    requires GovernmentJobValid(j, fc)
    ensures GovernmentJobValid(j.(ageLimit := Some("")), fc)
    ensures !GovernmentJobValid(j.(ageLimit := None), fc)
  {
    var e := j.(ageLimit := Some(""));
    assert forall f :: GetDate(e, f) == GetDate(j, f);
  }

  /** The government vacancy count must be at least one; the private one is unconstrained. */
  lemma VacancyCountBounds(j: Job, fc: FormatChecks, n: int)
    ensures n < 1 ==> !GovernmentJobValid(j.(vacancyCount := Some(n)), fc)
    ensures PrivateJobValid(j, fc) ==> PrivateJobValid(j.(vacancyCount := Some(n)), fc)
    ensures PrivateJobValid(j, fc) ==> PrivateJobValid(j.(vacancyCount := None), fc)
  {
  }

  /** Location, group and every list may be dropped from a valid government posting. */
  lemma GovernmentOptionalKeys(j: Job, fc: FormatChecks)
    requires GovernmentJobValid(j, fc)
    ensures GovernmentJobValid(j.(jobLocation := None, group := None, eligibility := None, experience := None,
                                  reservationCategory := None, applicationFee := None, selectionProcess := None), fc)
  {
    var e := j.(jobLocation := None, group := None, eligibility := None, experience := None,
                reservationCategory := None, applicationFee := None, selectionProcess := None);
    assert forall f :: GetDate(e, f) == GetDate(j, f);
  }

  /** A date given as text, or as an invalid date, is refused; absence is not. */
  lemma GovernmentDatesMustBeValidDates(j: Job, fc: FormatChecks, f: DateField, d: DateValue)
    requires !(d.Instant? && d.valid)
    ensures !GovernmentJobValid(SetDate(j, f, Some(d)), fc)
  {
    GovernmentDateFieldsComplete(f);
  }
}
