/**
 * The AI insertion panel: the rough-text form and its schema, the request
 * to the formatting route, the formatted text it shows, and the hand-off of
 * that text to the private or the government form.
 */
module Insertion {
  import opened Wrappers
  import opened Text
  import opened GeminiHelper

  /** The panel's form values. */
  datatype InsertData = InsertData(roughJobData: string, jobCategoryType: string)

  /** The form's default values. */
  const DefaultInsertData: InsertData := InsertData("", "Private")

  /** `insertDataValidation`: any text, and a category that is exactly one of the two choices. */
  predicate InsertDataValid(v: InsertData) {
    v.jobCategoryType == "Government" || v.jobCategoryType == "Private"
  }

  /** The panel's state; `open` is the parent's flag for showing it. */
  datatype Panel = Panel(open: bool, submitting: bool, formattedData: string, values: InsertData)

  /** Which job form receives the formatted text. */
  datatype Target = ToPrivate | ToGovernment

  /** Closing: hide the panel, clear the formatted text, restore the default values. */
  function HandleClosure(p: Panel): (r: Panel)
    ensures !r.open && r.formattedData == "" && r.values == DefaultInsertData
    ensures r.submitting == p.submitting
  {
    p.(open := false, formattedData := "", values := DefaultInsertData)
  }

  /** Closing twice is closing once. */
  lemma HandleClosureIdempotent(p: Panel)
    ensures HandleClosure(HandleClosure(p)) == HandleClosure(p)
  {
  }

  /** The form the text goes to: the private one exactly when it mentions "Private". */
  function TargetOf(formattedData: string): (t: Target)
    ensures t == ToPrivate <==> exists i :: OccursAt(formattedData, "Private", i)
  {
    if Includes(formattedData, "Private") then ToPrivate else ToGovernment
  }

  /** The insert button's label. */
  function InsertLabel(formattedData: string): string {
    if Includes(formattedData, "Private") then "Insert Job Data To Private Form"
    else "Insert Job Data To Government Form"
  }

  /** `disabled={!Object.keys(formattedData).length}`: a string has one key per character. */
  predicate InsertEnabled(formattedData: string) {
    |formattedData| != 0
  }

  /** The result of inserting: the text handed over, the form it goes to, and the closed panel. */
  datatype Handoff = Handoff(text: string, target: Target, panel: Panel)

  /** `insertTextToForm`. */
  function InsertTextToForm(p: Panel): (h: Handoff)
    ensures h.text == p.formattedData
    ensures h.target == TargetOf(p.formattedData)
    ensures h.panel == HandleClosure(p)
  {
    if Includes(p.formattedData, "Private") then Handoff(p.formattedData, ToPrivate, HandleClosure(p))
    else Handoff(p.formattedData, ToGovernment, HandleClosure(p))
  }

  /** The label names the form the button actually fills. */
  lemma LabelNamesTarget(p: Panel)
    ensures InsertTextToForm(p).target == ToPrivate <==> InsertLabel(p.formattedData) == "Insert Job Data To Private Form"
  {
  }

  /** The routing is case-sensitive: a text mentioning only "private" goes to the government form. */
  lemma LowerCasePrivateGoesToGovernment()
    ensures TargetOf("private") == ToGovernment
  {
    assert !OccursAt("private", "Private", 0) by {
      assert "private"[0] != "Private"[0];
    }
    assert forall i :: OccursAt("private", "Private", i) ==> i == 0;
  }

  /** JavaScript truthiness of the reply's `msg`. */
  predicate MsgTruthy(m: Msg) {
    match m
    case Text(t) => t != ""
    case Object(v) => JsonTruthy(v)
  }

  /** The reply's `msg` as a JSON value, the argument `JSON.stringify` receives. */
  function MsgJson(m: Msg): Json {
    match m
    case Text(t) => JString(t)
    case Object(v) => v
  }

  /**
   * `onSubmit` with the formatting route's reply (`None` when the request
   * itself fails). A reply outside 2xx is thrown by the client and ends the
   * wait; a 2xx reply that is not a success with a message leaves the
   * panel waiting. `stringify` is `JSON.stringify(msg, null, 2)`.
   */
  function OnSubmit(p: Panel, reply: Option<GeminiResponse>, stringify: Json -> string): (r: Panel)
    ensures !InsertDataValid(p.values) ==> r == p
    ensures InsertDataValid(p.values) ==> r.values == p.values && r.open == p.open
    ensures InsertDataValid(p.values) && reply.Some? && reply.value.status == 200 && reply.value.success
            && reply.value.msg.Object? && MsgTruthy(reply.value.msg)
            ==> !r.submitting && r.formattedData == stringify(reply.value.msg.value)
    ensures InsertDataValid(p.values) && (reply.None? || !(200 <= reply.value.status < 300))
            ==> !r.submitting && r.formattedData == p.formattedData
    ensures InsertDataValid(p.values) && reply.Some? && 200 <= reply.value.status < 300
            && reply.value.success && MsgTruthy(reply.value.msg)
            ==> r == p.(submitting := false, formattedData := stringify(MsgJson(reply.value.msg)))
    ensures InsertDataValid(p.values) && reply.Some? && 200 <= reply.value.status < 300
            && !(reply.value.success && MsgTruthy(reply.value.msg))
            ==> r == p.(submitting := true)
  {
    if !InsertDataValid(p.values) then p
    else
      match reply
      case None => p.(submitting := false)
      case Some(res) =>
        if !(200 <= res.status < 300) then p.(submitting := false)
        else if res.success && MsgTruthy(res.msg) then p.(submitting := false, formattedData := stringify(MsgJson(res.msg)))
        else p.(submitting := true)
  }

  /** The request the panel sends for its values. */
  function RequestOf(v: InsertData): GeminiRequest {
    GeminiRequest(Some(v.roughJobData), Some(v.jobCategoryType))
  }

  /** `JSON.parse` of a text that opens with `{` can only give an object. */
  ghost predicate ParsesBracesToObjects(parse: string -> Option<Json>) {
    forall s :: |s| > 0 && s[0] == '{' && parse(s).Some? ==> parse(s).value.JObject?
  }

  /**
   * Against the formatting route the panel never stays waiting: each reply
   * is an error or a success carrying an object.
   */
  lemma PanelNeverStuck(p: Panel, generated: Option<string>, parse: string -> Option<Json>, stringify: Json -> string)
    requires InsertDataValid(p.values)
    requires ParsesBracesToObjects(parse)
    ensures !OnSubmit(p, Some(GeminiPost(Some(RequestOf(p.values)), generated, parse)), stringify).submitting
  {
    var res := GeminiPost(Some(RequestOf(p.values)), generated, parse);
    if res.status == 200 {
      var span := ExtractSpan(generated.value).value;
      assert span[0] == '{';
    }
  }

  /**
   * The default values pass the panel's schema, yet the route refuses the
   * empty rough text: submitting them leaves the shown text unchanged.
   */
  lemma DefaultsRefusedByRoute(p: Panel, generated: Option<string>, parse: string -> Option<Json>, stringify: Json -> string)
    requires p.values == DefaultInsertData
    ensures InsertDataValid(p.values)
    ensures GeminiPost(Some(RequestOf(p.values)), generated, parse) == GeminiResponse(402, false, Text("jobData Not Found"))
    ensures OnSubmit(p, Some(GeminiPost(Some(RequestOf(p.values)), generated, parse)), stringify).formattedData == p.formattedData
  {
  }

  /** The two category names the server's own comment mentions are both refused. */
  lemma ShortCategoryNamesRefused(rough: string)
    ensures !InsertDataValid(InsertData(rough, "private"))
    ensures !InsertDataValid(InsertData(rough, "govt"))
  {
  }
}
