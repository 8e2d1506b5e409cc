/**
 * The AI helper route: request gating, the lazy `({.*?})` extraction of a
 * JSON object from the generated text, and the status code of each
 * outcome. The generator call and `JSON.parse` are outside the model: the
 * generated text (or its failure) and the parser are parameters.
 */
module GeminiHelper {
  import opened Wrappers
  import opened Text

  /** A JSON value. */
  datatype Json =
    | JNull
    | JBool(b: bool)
    | JNumber(n: int)
    | JString(s: string)
    | JArray(items: seq<Json>)
    | JObject(members: seq<(string, Json)>)

  /** JavaScript truthiness of a parsed JSON value. */
  predicate JsonTruthy(v: Json) {
    match v
    case JNull => false
    case JBool(b) => b
    case JNumber(n) => n != 0
    case JString(s) => s != ""
    case _ => true
  }

  /** The body the route reads: `{jobData, jobCategoryType}`. */
  datatype GeminiRequest = GeminiRequest(jobData: Option<string>, jobCategoryType: Option<string>)

  datatype Msg = Text(text: string) | Object(value: Json)

  datatype GeminiResponse = GeminiResponse(status: int, success: bool, msg: Msg)

  // ---------------------------------------------------------------------
  // Extraction
  // ---------------------------------------------------------------------

  /** Some `{` is followed, somewhere later, by a `}`. */
  predicate HasBracePair(s: string) {
    exists i, j :: 0 <= i < j < |s| && s[i] == '{' && s[j] == '}'
  }

  /**
   * The match of `({.*?})` with the `s` flag: the leftmost start from
   * which a match exists (a `{` with some `}` after it), extended lazily to
   * the nearest `}`.
   */
  ghost predicate LazyMatch(s: string, i: int, j: int) {
    && 0 <= i < j < |s| && s[i] == '{' && s[j] == '}'
    && (forall k :: 0 <= k < i && s[k] == '{' ==> forall m :: k < m < |s| ==> s[m] != '}')
    && (forall k :: i < k < j ==> s[k] != '}')
  }

  /** `extractJsonObject`'s search: the text of the match, or none. */
  function ExtractSpan(s: string): (r: Option<string>)
    ensures r.Some? <==> HasBracePair(s)
    ensures r.Some? ==> exists i, j :: LazyMatch(s, i, j) && r.value == s[i..j + 1]
    ensures r.Some? ==> |r.value| >= 2 && r.value[0] == '{' && r.value[|r.value| - 1] == '}'
    ensures r.Some? ==> forall k :: 0 <= k < |r.value| - 1 ==> r.value[k] != '}'
  {
    match IndexOf(s, '{', 0)
    case None => None
    case Some(i) =>
      match IndexOf(s, '}', i + 1)
      case None =>
        assert !HasBracePair(s) by {
          forall a, b | 0 <= a < b < |s| && s[a] == '{'
            ensures s[b] != '}'
          {
            assert i <= a;
          }
        }
        None
      case Some(j) =>
        assert LazyMatch(s, i, j);
        var span := s[i..j + 1];
        assert forall k :: 0 <= k < |span| - 1 ==> span[k] == s[i + k];
        Some(span)
  }

  /** The match is unique: any two pairs that satisfy the regular expression's rule coincide. */
  lemma LazyMatchUnique(s: string, i: int, j: int, i': int, j': int)
    requires LazyMatch(s, i, j) && LazyMatch(s, i', j')
    ensures i == i' && j == j'
  {
  }

  /**
   * An object with a nested object is cut at the inner closing brace: the
   * span is a proper prefix and lacks the final brace.
   */
  lemma NestedObjectIsTruncated(s: string, k: int)
    requires |s| >= 2 && s[0] == '{' && s[|s| - 1] == '}'
    requires 0 < k < |s| - 1 && s[k] == '}'
    ensures ExtractSpan(s).Some?
    ensures |ExtractSpan(s).value| <= k + 1 < |s|
    ensures ExtractSpan(s).value == s[..|ExtractSpan(s).value|]
  {
    assert HasBracePair(s) by { assert s[0] == '{' && s[k] == '}'; }
    var r := ExtractSpan(s);
    assert r.Some?;
    assert exists i, j :: LazyMatch(s, i, j) && r.value == s[i..j + 1];
    var i, j :| LazyMatch(s, i, j) && r.value == s[i..j + 1];
    assert i == 0;
  }

  /** An object surrounded by prose is cut out exactly. */
  lemma ExtractsObjectFromProse()
    ensures ExtractSpan("blah {\"a\":1} blah") == Some("{\"a\":1}")
  {
    var s := "blah {\"a\":1} blah";
    assert LazyMatch(s, 5, 11);
    assert HasBracePair(s) by { assert s[5] == '{' && s[11] == '}'; }
    var r := ExtractSpan(s);
    assert r.Some?;
    assert exists i, j :: LazyMatch(s, i, j) && r.value == s[i..j + 1];
    var i, j :| LazyMatch(s, i, j) && r.value == s[i..j + 1];
    LazyMatchUnique(s, i, j, 5, 11);
    assert s[5..12] == "{\"a\":1}";
  }

  // ---------------------------------------------------------------------
  // The route
  // ---------------------------------------------------------------------

  /** A request that names both the rough text and the category. */
  predicate RequestComplete(body: Option<GeminiRequest>) {
    body.Some? && Truthy(body.value.jobData) && Truthy(body.value.jobCategoryType)
  }

  /** Generated text whose first brace pair parses. */
  predicate GeneratedParses(generated: Option<string>, parse: string -> Option<Json>) {
    Truthy(generated) && ExtractSpan(generated.value).Some? && parse(ExtractSpan(generated.value).value).Some?
  }

  /**
   * `POST` of the helper route. `body` is none when the request body is not
   * JSON; `generated` is none when the generator call throws.
   */
  function GeminiPost(body: Option<GeminiRequest>, generated: Option<string>, parse: string -> Option<Json>): (r: GeminiResponse)
    ensures r.success <==> r.status == 200
    ensures r.status in {200, 402, 500}
    ensures body.Some? && !Truthy(body.value.jobData) ==> r == GeminiResponse(402, false, Text("jobData Not Found"))
    ensures body.Some? && Truthy(body.value.jobData) && !Truthy(body.value.jobCategoryType)
      ==> r == GeminiResponse(402, false, Text("Job Category Not Found"))
    ensures r.status == 402 && r.msg != Text("jobData Not Found") && r.msg != Text("Job Category Not Found")
      ==> generated == Some("")
    ensures r.status == 500 ==> r.msg == Text("Server Error")
    ensures r.status == 500 && body.Some? && Truthy(body.value.jobData) && Truthy(body.value.jobCategoryType)
      ==> generated.None? || ExtractSpan(generated.value).None? || parse(ExtractSpan(generated.value).value).None?
    ensures body.None? ==> r == GeminiResponse(500, false, Text("Server Error"))
    ensures RequestComplete(body) && generated == Some("")
      ==> r == GeminiResponse(402, false, Text("Not able to generate the job from gemini"))
    ensures RequestComplete(body) && GeneratedParses(generated, parse)
      ==> r == GeminiResponse(200, true, Object(parse(ExtractSpan(generated.value).value).value))
    ensures r.status == 500 <==> body.None? || (RequestComplete(body) && generated != Some("") && !GeneratedParses(generated, parse))
    ensures r.status == 200 <==> RequestComplete(body) && GeneratedParses(generated, parse)
    ensures r.status == 200 ==>
      && body.Some? && Truthy(body.value.jobData) && Truthy(body.value.jobCategoryType)
      && Truthy(generated)
      && ExtractSpan(generated.value).Some?
      && parse(ExtractSpan(generated.value).value).Some?
      && r.msg == Object(parse(ExtractSpan(generated.value).value).value)
  {
    match body
    case None => GeminiResponse(500, false, Text("Server Error"))
    case Some(req) =>
      if !Truthy(req.jobData) then GeminiResponse(402, false, Text("jobData Not Found"))
      else if !Truthy(req.jobCategoryType) then GeminiResponse(402, false, Text("Job Category Not Found"))
      else
        match generated
        case None => GeminiResponse(500, false, Text("Server Error"))
        case Some(text) =>
          if text == "" then
            GeminiResponse(402, false, Text("Not able to generate the job from gemini"))
          else
            match ExtractSpan(text)
            case None => GeminiResponse(500, false, Text("Server Error"))
            case Some(span) =>
              match parse(span)
              case None => GeminiResponse(500, false, Text("Server Error"))
              case Some(v) => GeminiResponse(200, true, Object(v))
  }

  /** Generated text without a `{` followed by a `}` always ends in the server error. */
  lemma NoBracePairIsServerError(req: GeminiRequest, text: string, parse: string -> Option<Json>)
    requires Truthy(req.jobData) && Truthy(req.jobCategoryType)
    requires text != "" && !HasBracePair(text)
    ensures GeminiPost(Some(req), Some(text), parse) == GeminiResponse(500, false, Text("Server Error"))
  {
  }
}
