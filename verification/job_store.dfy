/**
 * A job collection as the route handlers see it: documents with their
 * store-assigned timestamps, the replies the handlers send, and the two
 * handlers both collections share — listing (optionally by location,
 * newest first) and deleting everything.
 */
module JobStore {
  import opened Wrappers
  import opened Text
  import opened Jobs
  import opened Collections

  /** A stored document: the record (its `id` is the `_id`) and the `timestamps` the store keeps. */
  datatype Doc = Doc(job: Job, createdAt: int, updatedAt: int)

  /** What a handler sends back besides its status and message. */
  datatype Payload = NoData | Created(doc: Doc) | Listed(jobs: seq<Doc>) | Updated(doc: Doc)

  datatype Reply = Reply(status: int, success: bool, msg: string, payload: Payload)

  /** A reply together with the collection after the request. */
  datatype Outcome = Outcome(reply: Reply, store: seq<Doc>)

  function Fail(status: int, msg: string): Reply {
    Reply(status, false, msg, NoData)
  }

  /** No document of the collection already carries `id`. */
  predicate FreshId(store: seq<Doc>, id: string) {
    forall d | d in store :: d.job.id != Some(id)
  }

  // ---------------------------------------------------------------------
  // Listing
  // ---------------------------------------------------------------------

  /** `find({ jobLocation: location })`: the location is one of the document's locations. */
  predicate AtLocation(d: Doc, location: string) {
    d.job.jobLocation.Some? && location in d.job.jobLocation.value
  }

  /** `sort({ updatedAt: -1, createdAt: -1 })`: `a` may come before `b`. */
  predicate NewerOrSame(a: Doc, b: Doc) {
    a.updatedAt > b.updatedAt || (a.updatedAt == b.updatedAt && a.createdAt >= b.createdAt)
  }

  predicate NewestFirst(xs: seq<Doc>) {
    forall i, j :: 0 <= i < j < |xs| ==> NewerOrSame(xs[i], xs[j])
  }

  /** Places `d` before the first document it is newer than or tied with. */
  function InsertByRecency(d: Doc, xs: seq<Doc>): (r: seq<Doc>)
    requires NewestFirst(xs)
    ensures NewestFirst(r)
    ensures multiset(r) == multiset(xs) + multiset{d}
    ensures |r| == |xs| + 1
  {
    if xs == [] then [d]
    else if NewerOrSame(d, xs[0]) then
      assert forall j | 0 <= j < |xs| :: NewerOrSame(xs[0], xs[j]);
      [d] + xs
    else
      var rest := InsertByRecency(d, xs[1..]);
      assert xs == [xs[0]] + xs[1..];
      assert forall y | y in multiset(rest) :: NewerOrSame(xs[0], y) by {
        forall y | y in multiset(rest) ensures NewerOrSame(xs[0], y) {
          if y != d {
            assert y in multiset(xs[1..]);
            var k :| 0 <= k < |xs[1..]| && xs[1..][k] == y;
            assert xs[k + 1] == y;
          }
        }
      }
      assert forall j | 0 <= j < |rest| :: rest[j] in multiset(rest);
      [xs[0]] + rest
  }

  /** The documents newest first, by last update and then by creation. */
  function SortByRecency(xs: seq<Doc>): (r: seq<Doc>)
    ensures NewestFirst(r)
    ensures multiset(r) == multiset(xs)
  {
    if xs == [] then []
    else
      assert xs == [xs[0]] + xs[1..];
      InsertByRecency(xs[0], SortByRecency(xs[1..]))
  }

  /** `GET`: every document at the location (all of them when it is falsy), newest first. */
  function List(store: seq<Doc>, location: Option<string>): (r: Reply)
    ensures r.status == 200 && r.success && r.payload.Listed?
    ensures NewestFirst(r.payload.jobs)
    ensures forall d :: d in r.payload.jobs <==> d in store && (Truthy(location) ==> AtLocation(d, location.value))
  {
    var matching := if Truthy(location) then Select(store, d => AtLocation(d, location.value)) else store;
    var sorted := SortByRecency(matching);
    SameElements(sorted, matching);
    Reply(200, true, "", Listed(sorted))
  }

  lemma SameElements(a: seq<Doc>, b: seq<Doc>)
    requires multiset(a) == multiset(b)
    ensures forall d :: d in a <==> d in b
  {
    forall d ensures d in a <==> d in b {
      assert d in a <==> d in multiset(a);
      assert d in b <==> d in multiset(b);
    }
  }

  /** Without a location, the listing is the whole collection: every document, each as often as stored. */
  lemma ListWithoutLocationIsPermutation(store: seq<Doc>)
    ensures multiset(List(store, None).payload.jobs) == multiset(store)
    ensures multiset(List(store, Some("")).payload.jobs) == multiset(store)
  {
  }

  /** With a location, each matching document appears exactly as often as it is stored. */
  lemma ListAtLocationCounts(store: seq<Doc>, location: string, d: Doc)
    requires location != ""
    ensures multiset(List(store, Some(location)).payload.jobs)[d] == if AtLocation(d, location) then multiset(store)[d] else 0
  {
    SelectCount(store, d => AtLocation(d, location), d);
  }

  /** A document updated later is listed before one updated earlier. */
  lemma ListPutsLaterUpdatesFirst(store: seq<Doc>, location: Option<string>, i: nat, j: nat)
    requires var js := List(store, location).payload.jobs; i < |js| && j < |js| && js[i].updatedAt > js[j].updatedAt
    ensures i < j
  {
  }

  /** A document updated strictly later than every other is listed first. */
  lemma NewestListedFirst(store: seq<Doc>, k: nat)
    requires k < |store|
    requires forall m | 0 <= m < |store| && m != k :: store[m].updatedAt < store[k].updatedAt
    ensures var js := List(store, None).payload.jobs;
      |js| > 0 && js[0] == store[k]
  {
    var js := List(store, None).payload.jobs;
    assert store[k] in js;
    var i :| 0 <= i < |js| && js[i] == store[k];
    assert js[0] in store;
    var m :| 0 <= m < |store| && store[m] == js[0];
    assert i == 0 || NewerOrSame(js[0], js[i]);
    assert store[m].updatedAt >= store[k].updatedAt;
  }

  // ---------------------------------------------------------------------
  // Deleting
  // ---------------------------------------------------------------------

  /** `DELETE`: refused without a session; otherwise the collection is emptied and the count reported. */
  function DeleteAll(store: seq<Doc>, signedIn: bool): (o: Outcome)
    ensures !signedIn ==> o.reply.status == 401 && !o.reply.success && o.store == store
    ensures signedIn ==> o.reply.status == 200 && o.reply.success && o.store == []
    ensures signedIn ==> o.reply.msg == "All jobs deleted successfully. Deleted count: " + ShowNat(|store|)
  {
    if !signedIn then Outcome(Fail(401, "Not Authorized"), store)
    else Outcome(Reply(200, true, "All jobs deleted successfully. Deleted count: " + ShowNat(|store|), NoData), [])
  }

  /** The count in the message is the number of documents removed. */
  lemma DeleteReportsCount(store: seq<Doc>)
    ensures var m := DeleteAll(store, true).reply.msg;
      var prefix := "All jobs deleted successfully. Deleted count: ";
      |m| > |prefix| && AllDigits(m[|prefix|..]) && DigitsValue(m[|prefix|..]) == |store|
  {
    var prefix := "All jobs deleted successfully. Deleted count: ";
    var m := DeleteAll(store, true).reply.msg;
    assert m[|prefix|..] == ShowNat(|store|);
    DigitsValueOfShowNat(|store|);
  }

  /** Deleting twice: the second request finds nothing left and reports zero. */
  lemma DeleteTwice(store: seq<Doc>)
    ensures var o := DeleteAll(DeleteAll(store, true).store, true);
      o.store == [] && o.reply.msg == "All jobs deleted successfully. Deleted count: 0"
  {
  }

  // ---------------------------------------------------------------------
  // Locating a document
  // ---------------------------------------------------------------------

  /** `findById`: the position of the document with `_id` equal to `id`. */
  function IndexOfId(store: seq<Doc>, id: string): (r: Option<nat>)
    ensures r.Some? ==> r.value < |store| && store[r.value].job.id == Some(id)
    ensures r.Some? ==> forall k | 0 <= k < r.value :: store[k].job.id != Some(id)
    ensures r.None? <==> FreshId(store, id)
  {
    if store == [] then None
    else if store[0].job.id == Some(id) then Some(0)
    else
      match IndexOfId(store[1..], id)
      case None =>
        assert store == [store[0]] + store[1..];
        None
      case Some(k) => Some(k + 1)
  }
}
