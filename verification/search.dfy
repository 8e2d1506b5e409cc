/**
 * The home page's client-side logic: the free-text and location search
 * over the fetched postings, the IT-job list, the job-type toggle and the
 * "View" lookup by identifier.
 */
module Search {
  import opened Wrappers
  import opened Text
  import opened Jobs
  import opened Collections

  /** The three job-type buttons. */
  datatype JobType = PrivateJobs | GovernmentJobs | ItJobs

  /** The page's state that the modelled handlers read or write. */
  datatype Page = Page(
    activeJobType: Option<JobType>,
    job: Option<Job>,
    privateJobs: seq<Job>,
    governmentJobs: seq<Job>,
    itJobs: seq<Job>,
    searchInput: string,
    searchLocation: string,
    searchedJobsResult: seq<Job>
  )

  /** A record is treated as private exactly when it carries a company name. */
  predicate IsPrivateJob(j: Job) {
    j.companyName.Some?
  }

  /** A record is treated as government exactly when it carries a department name. */
  predicate IsGovernmentJob(j: Job) {
    j.nameOfDepartment.Some?
  }

  // ---------------------------------------------------------------------
  // The match predicate
  // ---------------------------------------------------------------------

  /** `field?.toLowerCase().includes(q)`; an absent key never matches. */
  predicate FieldIncludes(f: Option<string>, q: string) {
    f.Some? && Includes(Lower(f.value), q)
  }

  /** `list?.some(item => item.toLowerCase().includes(q))`. */
  predicate AnyIncludes(l: Option<seq<string>>, q: string) {
    l.Some? && exists k :: 0 <= k < |l.value| && Includes(Lower(l.value[k]), q)
  }

  /** The text half of the filter: the query is lower-cased, never trimmed. */
  predicate MatchesSearchInput(j: Job, searchInput: string) {
    var q := Lower(searchInput);
    if IsPrivateJob(j) then
      || FieldIncludes(j.companyName, q)
      || FieldIncludes(j.industry, q)
      || FieldIncludes(j.jobTitle, q)
      || FieldIncludes(j.jobType, q)
      || AnyIncludes(j.eligibility, q)
      || AnyIncludes(j.skillsRequired, q)
    else
      || FieldIncludes(j.nameOfDepartment, q)
      || AnyIncludes(j.eligibility, q)
      || FieldIncludes(j.jobTitle, q)
      || AnyIncludes(j.experience, q)
  }

  /** The location half: an empty location matches, otherwise some location must equal it after lower-casing. */
  predicate MatchesLocation(j: Job, searchLocation: string) {
    || searchLocation == ""
    || (&& j.jobLocation.Some?
        && exists k :: 0 <= k < |j.jobLocation.value| && Lower(j.jobLocation.value[k]) == Lower(searchLocation))
  }

  predicate Keep(j: Job, searchInput: string, searchLocation: string) {
    MatchesSearchInput(j, searchInput) && MatchesLocation(j, searchLocation)
  }

  /** The substring relation the search is about, stated without the scanning function. */
  ghost predicate LowerOccurs(q: string, field: string) {
    exists i :: OccursAt(Lower(field), Lower(q), i)
  }

  /** A query found in the title of a record, ignoring case, always matches when no location is given. */
  lemma TitleMatchSuffices(j: Job, q: string)
    requires j.jobTitle.Some? && LowerOccurs(q, j.jobTitle.value)
    ensures Keep(j, q, "")
  {
  }

  /** For a record without a company name only the department, title, eligibility and experience are consulted. */
  lemma GovernmentMatchIgnoresPrivateKeys(j: Job, q: string, industry: Option<string>, jobType: Option<string>, skills: Option<seq<string>>)
    requires !IsPrivateJob(j)
    ensures MatchesSearchInput(j, q)
        <==> MatchesSearchInput(j.(industry := industry, jobType := jobType, skillsRequired := skills), q)
  {
  }

  /** For a record with a company name the department name and experience are never consulted. */
  lemma PrivateMatchIgnoresGovernmentKeys(j: Job, q: string, dept: Option<string>, experience: Option<seq<string>>)
    requires IsPrivateJob(j)
    ensures MatchesSearchInput(j, q)
        <==> MatchesSearchInput(j.(nameOfDepartment := dept, experience := experience), q)
  {
  }

  /** A non-empty location is matched only by an element equal to it after lower-casing. */
  lemma LocationNeedsEqualElement(j: Job, q: string, loc: string)
    requires loc != ""
    ensures Keep(j, q, loc) ==>
      j.jobLocation.Some? && exists e :: e in j.jobLocation.value && Lower(e) == Lower(loc)
  {
    if Keep(j, q, loc) {
      var k :| 0 <= k < |j.jobLocation.value| && Lower(j.jobLocation.value[k]) == Lower(loc);
      assert j.jobLocation.value[k] in j.jobLocation.value;
    }
  }

  /** With an empty query every record with a company name passes the text test. */
  lemma EmptyQueryMatchesEveryPrivateJob(j: Job)
    requires IsPrivateJob(j)
    ensures MatchesSearchInput(j, "")
  {
    IncludesEmpty(Lower(j.companyName.value));
  }

  /**
   * With an empty query a record without a company name passes the text
   * test exactly when it has a department name or title, or a non-empty
   * eligibility or experience list.
   */
  lemma EmptyQueryGovernmentMatch(j: Job)
    requires !IsPrivateJob(j)
    ensures MatchesSearchInput(j, "") <==>
      || j.nameOfDepartment.Some? || j.jobTitle.Some?
      || (j.eligibility.Some? && |j.eligibility.value| > 0)
      || (j.experience.Some? && |j.experience.value| > 0)
  {
    assert Lower("") == "";
    if j.nameOfDepartment.Some? { IncludesEmpty(Lower(j.nameOfDepartment.value)); }
    if j.jobTitle.Some? { IncludesEmpty(Lower(j.jobTitle.value)); }
    if j.eligibility.Some? && |j.eligibility.value| > 0 { IncludesEmpty(Lower(j.eligibility.value[0])); }
    if j.experience.Some? && |j.experience.value| > 0 { IncludesEmpty(Lower(j.experience.value[0])); }
  }

  /** The query is not trimmed: a leading blank makes an exact title miss. */
  lemma QueryIsNotTrimmed()
    ensures !Keep(EmptyJob.(companyName := Some("Acme"), jobTitle := Some("Engineer")), " engineer", "")
  {
    var j := EmptyJob.(companyName := Some("Acme"), jobTitle := Some("Engineer"));
    var q := Lower(" engineer");
    assert |q| == 9;
    assert !Includes(Lower("Acme"), q) && !Includes(Lower("Engineer"), q);
  }

  // ---------------------------------------------------------------------
  // The search
  // ---------------------------------------------------------------------

  /** `handleSearch`: filter private, then government, then IT postings. */
  function HandleSearch(privateJobs: seq<Job>, governmentJobs: seq<Job>, itJobs: seq<Job>,
                        searchInput: string, searchLocation: string): (r: seq<Job>)
    ensures var keep := (j: Job) => Keep(j, searchInput, searchLocation);
      r == Select(privateJobs, keep) + Select(governmentJobs, keep) + Select(itJobs, keep)
    ensures forall j :: j in r <==> (j in privateJobs || j in governmentJobs || j in itJobs) && Keep(j, searchInput, searchLocation)
  {
    var keep := (j: Job) => Keep(j, searchInput, searchLocation);
    SelectAppend(privateJobs + governmentJobs, itJobs, keep);
    SelectAppend(privateJobs, governmentJobs, keep);
    Select(privateJobs + governmentJobs + itJobs, keep)
  }

  /** An IT posting is a private posting whose industry or department name is "it" in any case. */
  predicate IsItJob(j: Job) {
    || (j.industry.Some? && Lower(j.industry.value) == Lower("IT"))
    || (j.departmentName.Some? && Lower(j.departmentName.value) == Lower("IT"))
  }

  /** The IT list derived when the private postings arrive. */
  function ItJobsOf(privateJobs: seq<Job>): (r: seq<Job>)
    ensures forall j :: j in r <==> j in privateJobs && IsItJob(j)
    ensures r == Select(privateJobs, IsItJob)
  {
    Select(privateJobs, IsItJob)
  }

  /**
   * A matching IT posting is counted twice in the results: once as a
   * private posting and once as an IT posting.
   */
  lemma MatchingItJobAppearsTwice(privateJobs: seq<Job>, governmentJobs: seq<Job>, j: Job, q: string, loc: string)
    requires j in privateJobs && IsItJob(j) && Keep(j, q, loc)
    ensures multiset(HandleSearch(privateJobs, governmentJobs, ItJobsOf(privateJobs), q, loc))[j] >= 2
  {
    var keep := (x: Job) => Keep(x, q, loc);
    var it := ItJobsOf(privateJobs);
    SelectCount(privateJobs, keep, j);
    SelectCount(it, keep, j);
    assert j in it;
    var a, b, c := Select(privateJobs, keep), Select(governmentJobs, keep), Select(it, keep);
    assert multiset(a + b + c) == multiset(a) + multiset(b) + multiset(c);
  }

  /** The fetch of the private postings stores them and derives the IT list from them. */
  function OnPrivateJobsFetched(p: Page, jobs: seq<Job>): (r: Page)
    ensures r.privateJobs == jobs
    ensures forall j :: j in r.itJobs <==> j in jobs && IsItJob(j)
    ensures r.(privateJobs := p.privateJobs, itJobs := p.itJobs) == p
  {
    p.(privateJobs := jobs, itJobs := ItJobsOf(jobs))
  }

  /** The effect run whenever the query or the location changes. */
  function SearchEffect(p: Page): (r: Page)
    ensures p.searchInput == "" ==> r.searchedJobsResult == []
    ensures p.searchInput != "" ==>
      forall j :: j in r.searchedJobsResult <==>
        (j in p.privateJobs || j in p.governmentJobs || j in p.itJobs) && Keep(j, p.searchInput, p.searchLocation)
    ensures r.(searchedJobsResult := p.searchedJobsResult) == p
  {
    if p.searchInput != "" then
      p.(searchedJobsResult := HandleSearch(p.privateJobs, p.governmentJobs, p.itJobs, p.searchInput, p.searchLocation))
    else
      p.(searchedJobsResult := [])
  }

  /**
   * The clearing is not a consequence of the match rule: were the search
   * run on an empty query it would return every private posting that
   * satisfies the location.
   */
  lemma EmptyQueryWouldReturnPrivateJobs(p: Page, j: Job)
    requires j in p.privateJobs && IsPrivateJob(j) && MatchesLocation(j, p.searchLocation)
    ensures j in HandleSearch(p.privateJobs, p.governmentJobs, p.itJobs, "", p.searchLocation)
    ensures SearchEffect(p.(searchInput := "")).searchedJobsResult == []
  {
    EmptyQueryMatchesEveryPrivateJob(j);
  }

  /** `handleButtonClick`: clicking the active type hides it, any other shows that one. */
  function HandleButtonClick(p: Page, t: JobType): (r: Page)
    ensures r.activeJobType == Some(t) <==> p.activeJobType != Some(t)
    ensures r.activeJobType.None? <==> p.activeJobType == Some(t)
    ensures r.(activeJobType := p.activeJobType) == p
  {
    p.(activeJobType := if p.activeJobType == Some(t) then None else Some(t))
  }

  /** A second click on the same button restores the state exactly when no other type was active. */
  lemma DoubleClickRestores(p: Page, t: JobType)
    ensures HandleButtonClick(HandleButtonClick(p, t), t) == p
        <==> (p.activeJobType.None? || p.activeJobType == Some(t))
  {
  }

  /** `Array.prototype.find` on the identifier, with `===` on possibly absent identifiers. */
  function FindById(xs: seq<Job>, id: Option<string>): (r: Option<Job>)
    ensures r.Some? ==> r.value in xs && r.value.id == id
    ensures r.None? <==> forall x :: x in xs ==> x.id != id
    ensures r.Some? ==> exists k :: 0 <= k < |xs| && xs[k] == r.value && forall i :: 0 <= i < k ==> xs[i].id != id
  {
    if xs == [] then None
    else if xs[0].id == id then Some(xs[0])
    else
      var r := FindById(xs[1..], id);
      assert forall x :: x in xs ==> x == xs[0] || x in xs[1..];
      assert r.Some? ==> exists k :: 0 <= k < |xs| && xs[k] == r.value && forall i :: 0 <= i < k ==> xs[i].id != id by {
        if r.Some? {
          var k :| 0 <= k < |xs[1..]| && xs[1..][k] == r.value && forall i :: 0 <= i < k ==> xs[1..][i].id != id;
          assert xs[k + 1] == r.value;
          assert forall i :: 0 <= i < k + 1 ==> xs[i].id != id by {
            forall i | 0 <= i < k + 1 ensures xs[i].id != id {
              if i > 0 { assert xs[i] == xs[1..][i - 1]; }
            }
          }
        }
      }
      r
  }

  /**
   * `handleViewJob`: the private list is searched exactly when the clicked
   * record's category is the exact text "Private", the government list
   * otherwise (also for no record at all); a miss keeps the selection.
   */
  function HandleViewJob(p: Page, clicked: Option<Job>): (r: Page)
    ensures var list := if clicked.Some? && clicked.value.jobCategory == Some("Private")
                        then p.privateJobs else p.governmentJobs;
            var id := if clicked.Some? then clicked.value.id else None;
            && (r.job != p.job ==> r.job.Some? && r.job.value in list && r.job.value.id == id)
            && ((forall x :: x in list ==> x.id != id) ==> r == p)
            && ((exists x :: x in list && x.id == id) ==> r.job.Some? && r.job.value in list && r.job.value.id == id)
    ensures r.(job := p.job) == p
  {
    if clicked.Some? && clicked.value.jobCategory == Some("Private") then
      match FindById(p.privateJobs, clicked.value.id)
      case Some(j) => p.(job := Some(j))
      case None => p
    else
      match FindById(p.governmentJobs, if clicked.Some? then clicked.value.id else None)
      case Some(j) => p.(job := Some(j))
      case None => p
  }

  /** A lower-case "private" category is looked up among the government postings. */
  lemma LowerCasePrivateCategoryMissesPrivateList(p: Page, c: Job)
    requires c.jobCategory == Some("private")
    requires c in p.privateJobs
    requires forall g :: g in p.governmentJobs ==> g.id != c.id
    ensures HandleViewJob(p, Some(c)) == p
  {
  }
}
