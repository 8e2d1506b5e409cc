/**
 * The document-store schemas: the keys each collection requires, the
 * validators of the private collection's links and e-mail, and the user
 * collection's trimmed, e-mail-matched fields.
 */
module StoredModels {
  import opened Wrappers
  import opened Text
  import opened Jobs

  // ---------------------------------------------------------------------
  // Validators
  // ---------------------------------------------------------------------

  /** `/^https?:\/\//`. */
  predicate HttpUrlPrefix(s: string) {
    StartsWith(s, "http://") || StartsWith(s, "https://")
  }

  /**
   * `/^\S+@\S+\.\S+$/`: no white space anywhere, an `@` after at least one
   * character, then a `.` with at least one character on each side.
   */
  ghost predicate ContactEmailShape(s: string) {
    && NoSpace(s)
    && exists i, j :: 0 < i && i + 1 < j < |s| - 1 && s[i] == '@' && s[j] == '.'
  }

  /** The check the store runs for the shape above: the first usable `@`, then any `.` far enough past it. */
  function CheckContactEmail(s: string): (r: bool)
    ensures r <==> ContactEmailShape(s)
  {
    if |s| < 5 || !NoSpace(s) then
      false
    else
      match IndexOf(s, '@', 1)
      case None => false
      case Some(i) =>
        var r := IndexOf(s[..|s| - 1], '.', i + 2).Some?;
        assert r ==> ContactEmailShape(s) by {
          if r {
            var j := IndexOf(s[..|s| - 1], '.', i + 2).value;
            assert s[j] == '.';
          }
        }
        assert ContactEmailShape(s) ==> r by {
          if ContactEmailShape(s) {
            var a, b :| 0 < a && a + 1 < b < |s| - 1 && s[a] == '@' && s[b] == '.';
            assert i <= a;
            assert s[..|s| - 1][b] == '.';
          }
        }
        r
  }

  /**
   * `/.+\@.+\..+/`, unanchored: somewhere a run without line terminators
   * holding a character, `@`, a character or more, `.`, and a character.
   */
  predicate UserEmailShape(s: string) {
    exists i, j :: 0 < i < |s| && 0 < j < |s| - 1 && i + 1 < j && s[i] == '@' && s[j] == '.'
                   && NoLineTerminator(s[i - 1..j + 2])
  }

  /** The private collection's e-mail shape is the stricter of the two. */
  lemma ContactEmailIsUserEmail(s: string)
    requires ContactEmailShape(s)
    ensures UserEmailShape(s)
  {
    var i, j :| 0 < i && i + 1 < j < |s| - 1 && s[i] == '@' && s[j] == '.';
    var w := s[i - 1..j + 2];
    assert forall k | 0 <= k < |w| :: w[k] == s[i - 1 + k];
  }

  /** The user collection accepts white space the private collection refuses. */
  lemma UserEmailAcceptsBlank()
    ensures UserEmailShape("a b@c.d") && !ContactEmailShape("a b@c.d")
  {
    var s := "a b@c.d";
    assert s[3] == '@' && s[5] == '.';
    assert NoLineTerminator(s[2..7]);
    assert IsSpace(s[1]);
  }

  // ---------------------------------------------------------------------
  // Job collections
  // ---------------------------------------------------------------------

  /** A `[String]` key of a new document: a given list is kept, an absent one becomes the empty list. */
  predicate ListDefaulted(before: Option<seq<string>>, after: Option<seq<string>>) {
    after.Some? && (before.Some? ==> after == before) && (before.None? ==> after.value == [])
  }

  /** The government collection's list keys, defaulted; no other key changes. */
  function GovernmentArrayDefaults(j: Job): (r: Job)
    ensures ListDefaulted(j.eligibility, r.eligibility) && ListDefaulted(j.experience, r.experience)
    ensures ListDefaulted(j.reservationCategory, r.reservationCategory) && ListDefaulted(j.applicationFee, r.applicationFee)
    ensures ListDefaulted(j.selectionProcess, r.selectionProcess) && ListDefaulted(j.jobLocation, r.jobLocation)
    ensures r.(eligibility := j.eligibility, experience := j.experience, reservationCategory := j.reservationCategory,
               applicationFee := j.applicationFee, selectionProcess := j.selectionProcess, jobLocation := j.jobLocation) == j
  {
    j.(eligibility := Some(j.eligibility.GetOr([])),
       experience := Some(j.experience.GetOr([])),
       reservationCategory := Some(j.reservationCategory.GetOr([])),
       applicationFee := Some(j.applicationFee.GetOr([])),
       selectionProcess := Some(j.selectionProcess.GetOr([])),
       jobLocation := Some(j.jobLocation.GetOr([])))
  }

  /** The private collection's list keys, defaulted; no other key changes. */
  function PrivateArrayDefaults(j: Job): (r: Job)
    ensures ListDefaulted(j.eligibility, r.eligibility) && ListDefaulted(j.experience, r.experience)
    ensures ListDefaulted(j.skillsRequired, r.skillsRequired) && ListDefaulted(j.jobLocation, r.jobLocation)
    ensures r.(eligibility := j.eligibility, experience := j.experience, skillsRequired := j.skillsRequired,
               jobLocation := j.jobLocation) == j
  {
    j.(eligibility := Some(j.eligibility.GetOr([])),
       experience := Some(j.experience.GetOr([])),
       skillsRequired := Some(j.skillsRequired.GetOr([])),
       jobLocation := Some(j.jobLocation.GetOr([])))
  }

  /** The format validators of the private collection; each runs only on a present value. */
  predicate PrivateFormatsValid(j: Job) {
    && (j.applicationLink.None? || HttpUrlPrefix(j.applicationLink.value))
    && (j.companyWebsite.None? || HttpUrlPrefix(j.companyWebsite.value))
    && (j.contactEmail.None? || CheckContactEmail(j.contactEmail.value))
  }

  /** The required keys of the private collection (a required text must be non-empty). */
  predicate PrivateRequiredPresent(j: Job) {
    && Truthy(j.companyName) && Truthy(j.jobTitle) && Truthy(j.jobType) && Truthy(j.education)
    && j.jobLocation.Some? && Truthy(j.informationLink) && Truthy(j.jobCategory)
  }

  /** The government collection requires the group and the age limit; it checks no formats. */
  predicate GovernmentRequiredPresent(j: Job) {
    && Truthy(j.nameOfDepartment) && Truthy(j.jobTitle) && j.vacancyCount.Some? && Truthy(j.jobType)
    && Truthy(j.education) && Truthy(j.ageLimit) && Truthy(j.informationLink) && Truthy(j.governmentType)
    && Truthy(j.group) && Truthy(j.jobCategory)
  }

  /** Validation of a new private document, defaults applied. */
  predicate PrivateDocumentValid(j: Job) {
    var d := PrivateArrayDefaults(j);
    PrivateRequiredPresent(d) && PrivateFormatsValid(d)
  }

  /** Validation of a new government document, defaults applied. */
  predicate GovernmentDocumentValid(j: Job) {
    GovernmentRequiredPresent(GovernmentArrayDefaults(j))
  }

  /** The required location never fails: an absent location is stored as the empty list. */
  lemma PrivateLocationAlwaysPresent(j: Job)
    ensures PrivateDocumentValid(j.(jobLocation := None)) <==> PrivateDocumentValid(j.(jobLocation := Some([])))
    ensures PrivateArrayDefaults(j.(jobLocation := None)).jobLocation == Some([])
  {
  }

  /** Absent optional links and e-mail never fail the store; present ones must have the right shape. */
  lemma PrivateFormatRules(j: Job, link: string)
    ensures PrivateFormatsValid(j) ==> PrivateFormatsValid(j.(applicationLink := None, companyWebsite := None, contactEmail := None))
    ensures !HttpUrlPrefix(link) ==> !PrivateFormatsValid(j.(applicationLink := Some(link)))
    ensures !HttpUrlPrefix(link) ==> !PrivateFormatsValid(j.(companyWebsite := Some(link)))
    ensures !ContactEmailShape(link) ==> !PrivateFormatsValid(j.(contactEmail := Some(link)))
  {
  }

  /** Update validators: a required text the update sets must be non-empty. */
  predicate RequiredIfSet(o: Option<string>) {
    o.None? || o.value != ""
  }

  /** The government collection's validators on the keys an update sets. */
  predicate GovernmentUpdateValid(u: Job) {
    && RequiredIfSet(u.nameOfDepartment) && RequiredIfSet(u.jobTitle) && RequiredIfSet(u.jobType)
    && RequiredIfSet(u.education) && RequiredIfSet(u.ageLimit) && RequiredIfSet(u.informationLink)
    && RequiredIfSet(u.governmentType) && RequiredIfSet(u.group) && RequiredIfSet(u.jobCategory)
  }

  /** The private collection's validators on the keys an update sets. */
  predicate PrivateUpdateValid(u: Job) {
    && RequiredIfSet(u.companyName) && RequiredIfSet(u.jobTitle) && RequiredIfSet(u.jobType)
    && RequiredIfSet(u.education) && RequiredIfSet(u.informationLink) && RequiredIfSet(u.jobCategory)
    && PrivateFormatsValid(u)
  }

  /** A new document that passes validation passes the update validators too: creating is the stricter check. */
  lemma CreateValidImpliesUpdateValid(j: Job)
    ensures GovernmentDocumentValid(j) ==> GovernmentUpdateValid(j)
    ensures PrivateDocumentValid(j) ==> PrivateUpdateValid(j)
  {
  }

  // ---------------------------------------------------------------------
  // User collection
  // ---------------------------------------------------------------------

  datatype User = User(email: string, password: string, userType: string)

  /** A user document as stored: every field trimmed on the way in. */
  function NewUser(email: string, password: string, userType: string): (u: User)
    ensures u.email == Trim(email) && u.password == Trim(password) && u.userType == Trim(userType)
  {
    User(Trim(email), Trim(password), Trim(userType))
  }

  /** The user schema's required fields and e-mail match. */
  predicate UserDocumentValid(u: User) {
    u.password != "" && u.email != "" && UserEmailShape(u.email) && u.userType != ""
  }

  /** The e-mail is unique across the user collection. */
  predicate UniqueEmails(users: seq<User>) {
    forall a, b :: 0 <= a < b < |users| ==> users[a].email != users[b].email
  }

  /** A stored user's fields have no white space at either end. */
  lemma StoredUserIsTrimmed(email: string, password: string, userType: string)
    ensures var u := NewUser(email, password, userType);
      Trim(u.email) == u.email && Trim(u.password) == u.password && Trim(u.userType) == u.userType
  {
    TrimIdempotent(email);
    TrimIdempotent(password);
    TrimIdempotent(userType);
  }
}
