/**
 * The private-jobs collection's create and update handlers. Listing and
 * deleting are the shared handlers of `JobStore`.
 */
module PrivateRoutes {
  import opened Wrappers
  import opened Text
  import opened Jobs
  import opened Schemas
  import opened StoredModels
  import opened JobStore

  /** A converted date that is the invalid date. */
  predicate InvalidInstant(o: Option<DateValue>) {
    o.Some? && o.value.Instant? && !o.value.valid
  }

  /** The two application dates are each absent, falsy, or text that parses. */
  predicate ApplicationDatesParse(j: Job) {
    !InvalidInstant(ConvertOrDrop(j.applicationStartingDate)) && !InvalidInstant(ConvertOrDrop(j.applicationEndDate))
  }

  /** The object the handlers give the schema: the body without `_id`, application dates converted. */
  function SchemaInput(body: Job): (r: Job)
    ensures r.id.None?
    ensures r.applicationStartingDate == ConvertOrDrop(body.applicationStartingDate)
    ensures r.applicationEndDate == ConvertOrDrop(body.applicationEndDate)
    ensures r.(id := body.id, applicationStartingDate := body.applicationStartingDate,
               applicationEndDate := body.applicationEndDate) == body
  {
    body.(id := None,
          applicationStartingDate := ConvertOrDrop(body.applicationStartingDate),
          applicationEndDate := ConvertOrDrop(body.applicationEndDate))
  }

  /** With the dates parsing, the schema sees them as valid `Date`s or not at all. */
  lemma SchemaInputDatesAccepted(body: Job)
    requires ApplicationDatesParse(body)
    ensures DateAccepted(SchemaInput(body).applicationStartingDate)
    ensures DateAccepted(SchemaInput(body).applicationEndDate)
  {
  }

  // ---------------------------------------------------------------------
  // Create
  // ---------------------------------------------------------------------

  /** The duplicate check: company, title and vacancy count all equal (an absent count matches an absent one). */
  predicate SamePosting(a: Job, b: Job) {
    a.companyName == b.companyName && a.jobTitle == b.jobTitle && a.vacancyCount == b.vacancyCount
  }

  predicate PostingExists(store: seq<Doc>, j: Job) {
    exists d | d in store :: SamePosting(d.job, j)
  }

  /** A body's own `_id` the store can take: none, or an ObjectId not yet in use. */
  predicate OwnIdUsable(store: seq<Doc>, id: Option<string>, isObjectId: string -> bool) {
    id.None? || (isObjectId(id.value) && FreshId(store, id.value))
  }

  /**
   * `POST`. The create handler does not remove `_id` from the body, so a
   * body's own identifier becomes the document's; one already in use
   * breaks the store's unique index, and one that is not an ObjectId
   * (`isObjectId`) cannot be cast.
   */
  function Create(store: seq<Doc>, body: Option<Job>, freshId: string, now: int, fc: FormatChecks, isObjectId: string -> bool): (o: Outcome)
    requires FreshId(store, freshId)
    ensures o.reply.status in {201, 400, 409, 500}
    ensures o.reply.status != 201 ==> o.store == store && !o.reply.success
    ensures body.None? ==> o.reply.status == 500
    ensures body.Some? && !ApplicationDatesParse(body.value) ==>
              o.reply == Fail(400, "Invalid date format for application dates.")
    ensures body.Some? && ApplicationDatesParse(body.value) ==>
              (o.reply.status == 400 <==> !PrivateJobValid(SchemaInput(body.value), fc))
    ensures o.reply.status == 409 <==> (body.Some? && ApplicationDatesParse(body.value)
                                        && PrivateJobValid(SchemaInput(body.value), fc)
                                        && PostingExists(store, body.value))
    ensures o.reply.status == 500 <==> body.None? || (ApplicationDatesParse(body.value)
                                                      && PrivateJobValid(SchemaInput(body.value), fc)
                                                      && !PostingExists(store, body.value)
                                                      && (!PrivateDocumentValid(SchemaInput(body.value))
                                                          || !OwnIdUsable(store, body.value.id, isObjectId)))
    ensures o.reply.status == 201 <==> body.Some? && ApplicationDatesParse(body.value)
                                       && PrivateJobValid(SchemaInput(body.value), fc)
                                       && !PostingExists(store, body.value)
                                       && PrivateDocumentValid(SchemaInput(body.value))
                                       && OwnIdUsable(store, body.value.id, isObjectId)
    ensures o.reply.status == 201 ==>
              && body.Some? && o.reply.payload == NoData
              && |o.store| == |store| + 1 && o.store[..|store|] == store
              && var d := o.store[|store|];
                 && PrivateKeysAgree(d.job, PrivateArrayDefaults(SchemaInput(body.value)).(id := Some(body.value.id.GetOr(freshId))))
                 && GovernmentOnlyKeysAbsent(d.job)
                 && d.job.id == Some(body.value.id.GetOr(freshId))
                 && (body.value.id.Some? ==> isObjectId(body.value.id.value))
                 && d.createdAt == now && d.updatedAt == now
                 && SamePosting(d.job, body.value)
                 && PrivateDocumentValid(d.job)
  {
    if body.None? then Outcome(Fail(500, "Failed to create job"), store)
    else if !ApplicationDatesParse(body.value) then
      Outcome(Fail(400, "Invalid date format for application dates."), store)
    else
      // `_id` is part of the schema, so the parsed data keeps the body's identifier
      match ParsePrivate(SchemaInput(body.value).(id := body.value.id), fc)
      case None => Outcome(Fail(400, "Details are not as per format"), store)
      case Some(data) =>
        if PostingExists(store, data) then Outcome(Fail(409, "Job already exists"), store)
        else if !PrivateDocumentValid(data) then Outcome(Fail(500, "Failed to create job"), store)
        else if data.id.Some? && (!isObjectId(data.id.value) || !FreshId(store, data.id.value)) then
          Outcome(Fail(500, "Failed to create job"), store)
        else
          var id := data.id.GetOr(freshId);
          var doc := Doc(PrivateArrayDefaults(data).(id := Some(id)), now, now);
          Outcome(Reply(201, true, "Job created successfully", NoData), store + [doc])
  }

  /** Once a posting is created, sending the same body again is a conflict. */
  lemma CreateTwiceConflicts(store: seq<Doc>, body: Job, id1: string, id2: string, now1: int, now2: int, fc: FormatChecks, isObjectId: string -> bool)
    requires FreshId(store, id1)
    requires Create(store, Some(body), id1, now1, fc, isObjectId).reply.status == 201
    requires FreshId(Create(store, Some(body), id1, now1, fc, isObjectId).store, id2)
    ensures Create(Create(store, Some(body), id1, now1, fc, isObjectId).store, Some(body), id2, now2, fc, isObjectId).reply.status == 409
  {
    var s1 := Create(store, Some(body), id1, now1, fc, isObjectId).store;
    assert s1[|store|] in s1;
  }

  /** A body naming an identifier already stored is refused by the store, not by the handler's own checks. */
  lemma ReusedIdIsServerError(store: seq<Doc>, body: Job, freshId: string, now: int, fc: FormatChecks, isObjectId: string -> bool)
    requires FreshId(store, freshId)
    requires ApplicationDatesParse(body) && PrivateJobValid(SchemaInput(body), fc)
    requires !PostingExists(store, body) && PrivateDocumentValid(SchemaInput(body))
    requires body.id.Some? && (!isObjectId(body.id.value) || !FreshId(store, body.id.value))
    ensures Create(store, Some(body), freshId, now, fc, isObjectId).reply.status == 500
  {
    var input := SchemaInput(body).(id := body.id);
    assert GetDate(input, ApplicationStartingDate) == GetDate(SchemaInput(body), ApplicationStartingDate);
  }

  /** A link the schema accepts as a URL but without an `http` scheme is refused by the store with 500. */
  lemma NonHttpLinkIsServerError(store: seq<Doc>, body: Job, freshId: string, now: int, fc: FormatChecks, isObjectId: string -> bool)
    requires FreshId(store, freshId)
    requires ApplicationDatesParse(body) && PrivateJobValid(SchemaInput(body), fc)
    requires !PostingExists(store, body)
    requires body.applicationLink.Some? && !HttpUrlPrefix(body.applicationLink.value)
    ensures Create(store, Some(body), freshId, now, fc, isObjectId).reply.status == 500
  {
  }

  // ---------------------------------------------------------------------
  // Update
  // ---------------------------------------------------------------------

  /**
   * `PUT`: the body's `_id` names the document; the other keys, dates
   * converted, are validated and `$set` on it with the collection's update
   * validators.
   */
  function Update(store: seq<Doc>, body: Option<Job>, now: int, fc: FormatChecks, isObjectId: string -> bool): (o: Outcome)
    ensures o.reply.status in {200, 400, 404, 500}
    ensures o.reply.status != 200 ==> o.store == store && !o.reply.success
    ensures body.None? ==> o.reply.status == 500
    ensures body.Some? && !ApplicationDatesParse(body.value) ==>
              o.reply == Fail(400, "Invalid date format for application dates.")
    ensures body.Some? && ApplicationDatesParse(body.value) ==>
              (o.reply.status == 400 <==> !PrivateJobValid(SchemaInput(body.value), fc))
    ensures body.Some? && body.value.id.Some? && !isObjectId(body.value.id.value) ==> o.reply.status != 200 && o.reply.status != 404
    ensures o.reply.status == 404 <==> body.Some? && ApplicationDatesParse(body.value)
                                       && PrivateJobValid(SchemaInput(body.value), fc)
                                       && PrivateUpdateValid(SchemaInput(body.value))
                                       && (body.value.id.None? || (isObjectId(body.value.id.value)
                                                                   && IndexOfId(store, body.value.id.value).None?))
    ensures o.reply.status == 200 <==> body.Some? && ApplicationDatesParse(body.value)
                                       && PrivateJobValid(SchemaInput(body.value), fc)
                                       && PrivateUpdateValid(SchemaInput(body.value))
                                       && body.value.id.Some? && isObjectId(body.value.id.value)
                                       && IndexOfId(store, body.value.id.value).Some?
    ensures o.reply.status == 200 ==>
              && body.Some? && body.value.id.Some? && IndexOfId(store, body.value.id.value).Some?
              && o.reply.payload.Updated? && |o.store| == |store|
              && var k := IndexOfId(store, body.value.id.value).value;
                 && o.store == store[k := o.reply.payload.doc]
                 && o.store[k].job == Overlay(store[k].job, ParsePrivate(SchemaInput(body.value), fc).value)
                 && o.store[k].createdAt == store[k].createdAt && o.store[k].updatedAt == now
  {
    if body.None? then Outcome(Fail(500, "Failed to update job"), store)
    else if !ApplicationDatesParse(body.value) then
      Outcome(Fail(400, "Invalid date format for application dates."), store)
    else
      var id := body.value.id;
      match ParsePrivate(SchemaInput(body.value), fc)
      case None => Outcome(Fail(400, "Details are not as per format"), store)
      case Some(data) =>
        if id.Some? && !isObjectId(id.value) then Outcome(Fail(500, "Failed to update job"), store)
        else if !PrivateUpdateValid(data) then Outcome(Fail(500, "Failed to update job"), store)
        else if id.None? || IndexOfId(store, id.value).None? then Outcome(Fail(404, "Job not found"), store)
        else
          var k := IndexOfId(store, id.value).value;
          var doc := Doc(Overlay(store[k].job, data), store[k].createdAt, now);
          Outcome(Reply(200, true, "Job updated successfully", Updated(doc)), store[k := doc])
  }

  /** An update leaves the document's identifier and every key it does not send as they were. */
  lemma UpdateKeepsUnsentKeys(store: seq<Doc>, body: Job, now: int, fc: FormatChecks, isObjectId: string -> bool)
    requires Update(store, Some(body), now, fc, isObjectId).reply.status == 200
    ensures var o := Update(store, Some(body), now, fc, isObjectId);
      var k := IndexOfId(store, body.id.value).value;
      && o.store[k].job.id == store[k].job.id
      && (body.jobLocation.None? ==> o.store[k].job.jobLocation == store[k].job.jobLocation)
      && (!TruthyDate(body.applicationEndDate) ==> o.store[k].job.applicationEndDate == store[k].job.applicationEndDate)
  {
    var data := ParsePrivate(SchemaInput(body), fc).value;
    var k := IndexOfId(store, body.id.value).value;
    OverlayKeys(store[k].job, data);
    assert GetDate(Overlay(store[k].job, data), ApplicationEndDate)
        == Pick(GetDate(data, ApplicationEndDate), GetDate(store[k].job, ApplicationEndDate));
  }
}
