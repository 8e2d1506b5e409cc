/**
 * The government-jobs collection's create and update handlers. Listing
 * and deleting are the shared handlers of `JobStore`.
 */
module GovernmentRoutes {
  import opened Wrappers
  import opened Text
  import opened Jobs
  import opened Schemas
  import opened StoredModels
  import opened JobStore

  // ---------------------------------------------------------------------
  // Create
  // ---------------------------------------------------------------------

  /** Every truthy date key turned into a `Date`; falsy ones left as they came. */
  function ConvertDates(j: Job): (r: Job)
    ensures forall f :: GetDate(r, f) == ConvertIfTruthy(GetDate(j, f))
    ensures ClearDates(r) == ClearDates(j)
  {
    j.(applicationStartingDate := ConvertIfTruthy(j.applicationStartingDate),
       applicationEndDate := ConvertIfTruthy(j.applicationEndDate),
       examDate := ConvertIfTruthy(j.examDate),
       getAdmitCardDate := ConvertIfTruthy(j.getAdmitCardDate),
       getAdmitCardLastDate := ConvertIfTruthy(j.getAdmitCardLastDate),
       resultDate := ConvertIfTruthy(j.resultDate),
       interviewDate := ConvertIfTruthy(j.interviewDate))
  }

  /** The duplicate check: department, title and vacancy count all equal. */
  predicate SamePosting(a: Job, b: Job) {
    a.nameOfDepartment == b.nameOfDepartment && a.jobTitle == b.jobTitle && a.vacancyCount == b.vacancyCount
  }

  predicate PostingExists(store: seq<Doc>, j: Job) {
    exists d | d in store :: SamePosting(d.job, j)
  }

  /**
   * `POST`. `body` is `None` when the request is not a JSON object;
   * `freshId` and `now` are the identifier and the time the store assigns.
   */
  function Create(store: seq<Doc>, body: Option<Job>, freshId: string, now: int, fc: FormatChecks): (o: Outcome)
    requires FreshId(store, freshId)
    ensures o.reply.status in {201, 400, 409, 500}
    ensures o.reply.status != 201 ==> o.store == store && !o.reply.success
    ensures body.None? ==> o.reply.status == 500
    ensures body.Some? ==> (o.reply.status == 400 <==> !GovernmentJobValid(ConvertDates(body.value), fc))
    ensures o.reply.status == 409 <==> (body.Some? && GovernmentJobValid(ConvertDates(body.value), fc)
                                        && PostingExists(store, body.value))
    ensures o.reply.status == 500 <==> body.None? || (GovernmentJobValid(ConvertDates(body.value), fc)
                                                      && !PostingExists(store, body.value)
                                                      && !GovernmentDocumentValid(ConvertDates(body.value)))
    ensures o.reply.status == 201 <==> body.Some? && GovernmentJobValid(ConvertDates(body.value), fc)
                                       && !PostingExists(store, body.value)
                                       && GovernmentDocumentValid(ConvertDates(body.value))
    ensures o.reply.status == 201 ==>
              && body.Some?
              && |o.store| == |store| + 1 && o.store[..|store|] == store
              && o.reply.payload == Created(o.store[|store|])
              && var d := o.store[|store|];
                 && d.job.id == Some(freshId) && d.createdAt == now && d.updatedAt == now
                 && GovernmentKeysAgree(d.job, GovernmentArrayDefaults(ConvertDates(body.value)).(id := Some(freshId)))
                 && PrivateOnlyKeysAbsent(d.job)
                 && SamePosting(d.job, body.value)
                 && GovernmentDocumentValid(d.job)
  {
    if body.None? then Outcome(Fail(500, "Failed to create job"), store)
    else
      match ParseGovernment(ConvertDates(body.value), fc)
      case None => Outcome(Fail(400, "Details are not in the correct format"), store)
      case Some(data) =>
        if PostingExists(store, data) then Outcome(Fail(409, "Job already exists"), store)
        else
          // the handler passes every schema key except `_id` on to the store
          var fields := data.(id := None);
          if !GovernmentDocumentValid(fields) then Outcome(Fail(500, "Failed to create job"), store)
          else
            var doc := Doc(GovernmentArrayDefaults(fields).(id := Some(freshId)), now, now);
            Outcome(Reply(201, true, "Job created successfully", Created(doc)), store + [doc])
  }

  /** Once a posting is created, sending the same body again is a conflict. */
  lemma CreateTwiceConflicts(store: seq<Doc>, body: Job, id1: string, id2: string, now1: int, now2: int, fc: FormatChecks)
    requires FreshId(store, id1)
    requires Create(store, Some(body), id1, now1, fc).reply.status == 201
    requires FreshId(Create(store, Some(body), id1, now1, fc).store, id2)
    ensures Create(Create(store, Some(body), id1, now1, fc).store, Some(body), id2, now2, fc).reply.status == 409
  {
    var s1 := Create(store, Some(body), id1, now1, fc).store;
    assert s1[|store|] in s1;
  }

  /** The schema lets the group be left out, the collection requires it: such a posting fails with 500. */
  lemma MissingGroupIsServerError(store: seq<Doc>, body: Job, freshId: string, now: int, fc: FormatChecks)
    requires FreshId(store, freshId)
    requires GovernmentJobValid(ConvertDates(body), fc) && !PostingExists(store, body)
    requires body.group.None?
    ensures Create(store, Some(body), freshId, now, fc).reply.status == 500
  {
  }

  /** The schema accepts an empty age limit, the collection does not: 500 as well. */
  lemma EmptyAgeLimitIsServerError(store: seq<Doc>, body: Job, freshId: string, now: int, fc: FormatChecks)
    requires FreshId(store, freshId)
    requires GovernmentJobValid(ConvertDates(body), fc) && !PostingExists(store, body)
    requires body.ageLimit == Some("")
    ensures Create(store, Some(body), freshId, now, fc).reply.status == 500
  {
  }

  // ---------------------------------------------------------------------
  // Update
  // ---------------------------------------------------------------------

  /**
   * One step of the update handler's `reduce` over the date keys. A valid
   * date is recorded in the accumulator; an invalid one makes the callback
   * return an error reply, which merely becomes the next accumulator, so
   * every date recorded so far is dropped.
   */
  function ReduceStep(rest: Job, acc: map<DateField, DateValue>, f: DateField): (r: map<DateField, DateValue>)
    ensures TruthyDate(GetDate(rest, f)) && ToInstant(GetDate(rest, f).value).valid ==> r == acc[f := ToInstant(GetDate(rest, f).value)]
    ensures TruthyDate(GetDate(rest, f)) && !ToInstant(GetDate(rest, f).value).valid ==> r == map[]
    ensures !TruthyDate(GetDate(rest, f)) ==> r == acc
  {
    var v := GetDate(rest, f);
    if TruthyDate(v) then
      var d := ToInstant(v.value);
      if d.valid then acc[f := d] else map[]
    else acc
  }

  /** The `reduce` itself, over the keys in order. */
  function ReduceDates(rest: Job, fields: seq<DateField>, acc: map<DateField, DateValue>): (r: map<DateField, DateValue>)
    decreases |fields|
  {
    if fields == [] then acc else ReduceDates(rest, fields[1..], ReduceStep(rest, acc, fields[0]))
  }

  /** `{ ...rest, ...convertedDates }`. */
  function MergeDates(rest: Job, converted: map<DateField, DateValue>): (r: Job)
    ensures forall f :: GetDate(r, f) == if f in converted then Some(converted[f]) else GetDate(rest, f)
    ensures ClearDates(r) == ClearDates(rest)
  {
    rest.(applicationStartingDate := Merged(rest, converted, ApplicationStartingDate),
          applicationEndDate := Merged(rest, converted, ApplicationEndDate),
          examDate := Merged(rest, converted, ExamDate),
          getAdmitCardDate := Merged(rest, converted, GetAdmitCardDate),
          getAdmitCardLastDate := Merged(rest, converted, GetAdmitCardLastDate),
          resultDate := Merged(rest, converted, ResultDate),
          interviewDate := Merged(rest, converted, InterviewDate))
  }

  function Merged(rest: Job, converted: map<DateField, DateValue>, f: DateField): Option<DateValue> {
    if f in converted then Some(converted[f]) else GetDate(rest, f)
  }

  /** The body the update handler validates. */
  function UpdatedBody(rest: Job): Job {
    MergeDates(rest, ReduceDates(rest, GovernmentDateFields, map[]))
  }

  predicate Distinct(fields: seq<DateField>) {
    forall a, b :: 0 <= a < b < |fields| ==> fields[a] != fields[b]
  }

  /** A key outside the remaining list is never added by the reduce. */
  lemma {:induction false} ReduceNeverAdds(rest: Job, fields: seq<DateField>, acc: map<DateField, DateValue>, f: DateField)
    requires f !in fields && f !in acc
    ensures f !in ReduceDates(rest, fields, acc)
  {
    if fields != [] {
      ReduceNeverAdds(rest, fields[1..], ReduceStep(rest, acc, fields[0]), f);
    }
  }

  /** An invalid truthy date never survives the reduce, whatever came before it. */
  lemma {:induction false} ReduceDropsInvalid(rest: Job, fields: seq<DateField>, acc: map<DateField, DateValue>, f: DateField)
    requires Distinct(fields) && f in fields
    requires TruthyDate(GetDate(rest, f)) && !ToInstant(GetDate(rest, f).value).valid
    ensures f !in ReduceDates(rest, fields, acc)
  {
    var next := ReduceStep(rest, acc, fields[0]);
    if fields[0] == f {
      ReduceNeverAdds(rest, fields[1..], next, f);
    } else {
      assert f in fields[1..];
      ReduceDropsInvalid(rest, fields[1..], next, f);
    }
  }

  /** When every truthy date is valid, the reduce keeps what it has and converts exactly the truthy keys. */
  lemma {:induction false} ReduceAllValid(rest: Job, fields: seq<DateField>, acc: map<DateField, DateValue>)
    requires forall g | g in fields :: TruthyDate(GetDate(rest, g)) ==> ToInstant(GetDate(rest, g).value).valid
    ensures var r := ReduceDates(rest, fields, acc);
      && (forall g | g !in fields :: g in r <==> g in acc)
      && (forall g | g in acc && g !in fields :: r[g] == acc[g])
      && (forall g | g in fields :: g in r <==> TruthyDate(GetDate(rest, g)) || g in acc)
      && (forall g | g in fields && TruthyDate(GetDate(rest, g)) :: r[g] == ToInstant(GetDate(rest, g).value))
  {
    if fields != [] {
      var next := ReduceStep(rest, acc, fields[0]);
      ReduceAllValid(rest, fields[1..], next);
      var r := ReduceDates(rest, fields[1..], next);
      assert ReduceDates(rest, fields, acc) == r;
      forall g | g in fields
        ensures g in r <==> TruthyDate(GetDate(rest, g)) || g in acc
        ensures TruthyDate(GetDate(rest, g)) ==> r[g] == ToInstant(GetDate(rest, g).value)
      {
        if g !in fields[1..] {
          assert g == fields[0];
        }
      }
    }
  }

  /**
   * The update handler's `reduce` never produces its own error reply, and
   * its verdict is the create handler's: the schema accepts the merged body
   * exactly when it accepts the body with every truthy date converted, and
   * then hands back the same record.
   */
  lemma UpdateValidatesLikeCreate(rest: Job, fc: FormatChecks)
    ensures GovernmentJobValid(UpdatedBody(rest), fc) <==> GovernmentJobValid(ConvertDates(rest), fc)
    ensures ParseGovernment(UpdatedBody(rest), fc) == ParseGovernment(ConvertDates(rest), fc)
  {
    if forall g | g in GovernmentDateFields :: TruthyDate(GetDate(rest, g)) ==> ToInstant(GetDate(rest, g).value).valid {
      UpdatedBodyAllValid(rest);
    } else {
      var f :| f in GovernmentDateFields && TruthyDate(GetDate(rest, f)) && !ToInstant(GetDate(rest, f).value).valid;
      UpdatedBodyInvalid(rest, f);
      assert !DatesAccepted(UpdatedBody(rest));
      assert !DatesAccepted(ConvertDates(rest));
    }
  }

  /** With every truthy date valid, the update body is the create handler's converted body. */
  lemma UpdatedBodyAllValid(rest: Job)
    requires forall g | g in GovernmentDateFields :: TruthyDate(GetDate(rest, g)) ==> ToInstant(GetDate(rest, g).value).valid
    ensures UpdatedBody(rest) == ConvertDates(rest)
  {
    var u := UpdatedBody(rest);
    var c := ConvertDates(rest);
    ReduceAllValid(rest, GovernmentDateFields, map[]);
    forall f ensures GetDate(u, f) == GetDate(c, f) {
      GovernmentDateFieldsComplete(f);
    }
    DatesDetermine(u, c);
  }

  /** An invalid truthy date reaches the schema as it came, which refuses it. */
  lemma UpdatedBodyInvalid(rest: Job, f: DateField)
    requires TruthyDate(GetDate(rest, f)) && !ToInstant(GetDate(rest, f).value).valid
    ensures GetDate(UpdatedBody(rest), f) == GetDate(rest, f)
    ensures !DateAccepted(GetDate(UpdatedBody(rest), f))
  {
    GovernmentDateFieldsComplete(f);
    ReduceDropsInvalid(rest, GovernmentDateFields, map[], f);
  }

  /**
   * `PUT`: the body's `_id` names the document; the other keys, dates
   * converted by the reduce, are validated and `$set` on it with the
   * collection's update validators. An `_id` that is not an ObjectId
   * (`isObjectId`) makes the store throw.
   */
  function Update(store: seq<Doc>, body: Option<Job>, now: int, fc: FormatChecks, isObjectId: string -> bool): (o: Outcome)
    ensures o.reply.status in {200, 400, 404, 500}
    ensures o.reply.status != 200 ==> o.store == store && !o.reply.success
    ensures body.None? ==> o.reply.status == 500
    ensures body.Some? ==>
              (o.reply.status == 400 <==> !GovernmentJobValid(ConvertDates(body.value.(id := None)), fc))
    ensures o.reply.status == 400 ==> o.reply.msg == "Details are not as per format"
    ensures body.Some? && body.value.id.Some? && !isObjectId(body.value.id.value) ==> o.reply.status != 200 && o.reply.status != 404
    ensures o.reply.status == 404 <==> body.Some? && GovernmentJobValid(ConvertDates(body.value.(id := None)), fc)
                                       && GovernmentUpdateValid(ConvertDates(body.value.(id := None)))
                                       && (body.value.id.None? || (isObjectId(body.value.id.value)
                                                                   && IndexOfId(store, body.value.id.value).None?))
    ensures o.reply.status == 200 <==> body.Some? && GovernmentJobValid(ConvertDates(body.value.(id := None)), fc)
                                       && GovernmentUpdateValid(ConvertDates(body.value.(id := None)))
                                       && body.value.id.Some? && isObjectId(body.value.id.value)
                                       && IndexOfId(store, body.value.id.value).Some?
    ensures o.reply.status == 200 ==>
              && body.Some? && body.value.id.Some? && IndexOfId(store, body.value.id.value).Some?
              && o.reply.payload.Updated? && |o.store| == |store|
              && var k := IndexOfId(store, body.value.id.value).value;
                 && o.store == store[k := o.reply.payload.doc]
                 && o.reply.payload == Updated(o.store[k])
                 && o.store[k].job == Overlay(store[k].job, ParseGovernment(ConvertDates(body.value.(id := None)), fc).value)
                 && o.store[k].createdAt == store[k].createdAt && o.store[k].updatedAt == now
                 && o.store[k].job.id == store[k].job.id
  {
    if body.None? then Outcome(Fail(500, "Failed to update job"), store)
    else
      var id := body.value.id;
      var rest := body.value.(id := None);
      UpdateValidatesLikeCreate(rest, fc);
      match ParseGovernment(UpdatedBody(rest), fc)
      case None => Outcome(Fail(400, "Details are not as per format"), store)
      case Some(data) =>
        if id.Some? && !isObjectId(id.value) then Outcome(Fail(500, "Failed to update job"), store)
        else if !GovernmentUpdateValid(data) then Outcome(Fail(500, "Failed to update job"), store)
        else if id.None? || IndexOfId(store, id.value).None? then Outcome(Fail(404, "Job not found"), store)
        else
          var k := IndexOfId(store, id.value).value;
          var doc := Doc(Overlay(store[k].job, data), store[k].createdAt, now);
          Outcome(Reply(200, true, "Job updated successfully", Updated(doc)), store[k := doc])
  }

  /** A body without an `_id`, or naming no stored document, is not found (once it validates). */
  lemma UpdateUnknownIdNotFound(store: seq<Doc>, body: Job, now: int, fc: FormatChecks, isObjectId: string -> bool)
    requires body.id.None? || (FreshId(store, body.id.value) && isObjectId(body.id.value))
    requires GovernmentJobValid(ConvertDates(body.(id := None)), fc)
    requires GovernmentUpdateValid(ParseGovernment(ConvertDates(body.(id := None)), fc).value)
    ensures Update(store, Some(body), now, fc, isObjectId).reply.status == 404
  {
    UpdateValidatesLikeCreate(body.(id := None), fc);
  }

  /** An invalid date in an update is reported as a format error, not as the handler's date message. */
  lemma InvalidUpdateDateIsFormatError(store: seq<Doc>, body: Job, now: int, fc: FormatChecks, isObjectId: string -> bool, f: DateField)
    requires TruthyDate(GetDate(body, f)) && !ToInstant(GetDate(body, f).value).valid
    ensures Update(store, Some(body), now, fc, isObjectId).reply == Fail(400, "Details are not as per format")
  {
    var rest := body.(id := None);
    assert GetDate(rest, f) == GetDate(body, f);
    GovernmentDateFieldsComplete(f);
    assert !DateAccepted(GetDate(ConvertDates(rest), f));
  }

  /** An updated document is the newest one: listed first when its time is later than every stored update. */
  lemma UpdatedDocumentListedFirst(store: seq<Doc>, body: Job, now: int, fc: FormatChecks, isObjectId: string -> bool)
    requires forall d | d in store :: d.updatedAt < now
    requires Update(store, Some(body), now, fc, isObjectId).reply.status == 200
    ensures var o := Update(store, Some(body), now, fc, isObjectId);
      var js := List(o.store, None).payload.jobs;
      |js| > 0 && js[0] == o.reply.payload.doc
  {
    var o := Update(store, Some(body), now, fc, isObjectId);
    var k := IndexOfId(store, body.id.value).value;
    ReplacedByNewestListedFirst(store, k, o.reply.payload.doc, now);
  }

  /** A document stamped later than every other one lists first. */
  lemma ReplacedByNewestListedFirst(store: seq<Doc>, k: nat, doc: Doc, now: int)
    requires k < |store| && doc.updatedAt == now
    requires forall d | d in store :: d.updatedAt < now
    ensures var js := List(store[k := doc], None).payload.jobs;
      |js| > 0 && js[0] == doc
  {
    var s := store[k := doc];
    forall m | 0 <= m < |s| && m != k ensures s[m].updatedAt < s[k].updatedAt {
      assert s[m] == store[m] && store[m] in store;
    }
    NewestListedFirst(s, k);
  }
}
