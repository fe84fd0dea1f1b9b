/**
 * The two question routes (`/image-upload`, `/image-url`) and the upload
 * configuration they share: the image-only file filter, the size limit and
 * the name a stored upload gets.  The service behind them is
 * `Gateway.ProcessImageQuestion`, with the world (API keys, the file system,
 * the chat API) passed in as parameters.
 */
module Routes {
  import opened JsBuiltins
  import opened QATypes
  import Gateway

  // ---------------------------------------------------------------------------
  // Requests and responses

  /** What multer hands to `fileFilter` and `filename` about an incoming file part. */
  datatype IncomingFile = IncomingFile(fieldname: string, originalname: string, mimetype: string)

  /** `req.file` once multer has stored the upload: only its path is used. */
  datatype StoredFile = StoredFile(path: string)

  /** The fields of `req.body` the handlers read; absent fields are `None`. */
  datatype RequestBody = RequestBody(question: Option<string>, imageUrl: Option<string>)

  /** `{success: true, data}` or `{success: false, message}`. */
  datatype JsonBody = SuccessBody(data: QAResponse) | ErrorBody(message: string)

  datatype HttpResponse = HttpResponse(status: nat, body: JsonBody)

  const MaxFileSize: nat := 10 * 1024 * 1024
  const ImageOnlyMessage := "Only image files are allowed!"
  const MissingImageMessage := "Please provide either an image file or an image URL"
  const MissingQuestionMessage := "Please provide a question about the image"
  const MissingUrlMessage := "Please provide an image URL"
  const DefaultErrorMessage := "Error processing your request"

  // ---------------------------------------------------------------------------
  // Upload configuration

  /** `fileFilter`: accept a part whose mimetype starts with `image/`, otherwise fail with an error. */
  function FileFilter(file: IncomingFile): (r: Gateway.Thrown<bool>)
    ensures r.Returned? <==> StartsWith(file.mimetype, "image/")
    ensures r.Returned? ==> r.value
    ensures r.Threw? ==> r.message == ImageOnlyMessage
  {
    if StartsWith(file.mimetype, "image/") then Gateway.Returned(true)
    else Gateway.Threw(ImageOnlyMessage)
  }

  /** `limits.fileSize`: a file of at most ten mebibytes is accepted. */
  predicate WithinSizeLimit(size: nat)
  {
    size <= MaxFileSize
  }

  /** The limit is exactly ten mebibytes, inclusive. */
  lemma SizeLimitBoundary()
    ensures WithinSizeLimit(10485760) && !WithinSizeLimit(10485761)
  {
  }

  /**
   * `filename`: the field name, the millisecond timestamp, the rounded random
   * number and the original extension, dash-separated.  The clock and the
   * random source are parameters.
   */
  function Filename(file: IncomingFile, timestamp: nat, random: nat): (name: string)
  {
    file.fieldname + "-" + DecimalString(timestamp) + "-" + DecimalString(random) + ExtName(file.originalname)
  }

  /** Splitting at the first dash: a dash-free head is recovered from `head + "-" + tail`. */
  lemma {:induction false} SplitAtFirstDash(a: string, b: string, c: string, d: string)
    requires '-' !in a && '-' !in c
    requires a + "-" + b == c + "-" + d
    ensures a == c && b == d
  {
    var s := a + "-" + b;
    assert s[|a|] == '-' && s[|c|] == '-';
    assert forall k :: 0 <= k < |a| ==> s[k] == a[k];
    assert forall k :: 0 <= k < |c| ==> s[k] == c[k];
    assert |a| == |c|;
    assert a == s[..|a|] == c;
    assert b == s[|a| + 1..] == d;
  }

  /** Digits contain no dash. */
  lemma DecimalStringHasNoDash(n: nat)
    ensures '-' !in DecimalString(n)
  {
  }

  /** Names of the `filename` shape that agree, with the same head and tail, agree on the two middle parts. */
  lemma {:induction false} DashedNameParts(field: string, a1: string, b1: string, a2: string, b2: string, ext: string)
    requires '-' !in a1 && '-' !in a2
    requires field + "-" + a1 + "-" + b1 + ext == field + "-" + a2 + "-" + b2 + ext
    ensures a1 == a2 && b1 == b2
  {
    var head := field + "-";
    var s1 := a1 + "-" + b1;
    var s2 := a2 + "-" + b2;
    var n1 := field + "-" + a1 + "-" + b1 + ext;
    var n2 := field + "-" + a2 + "-" + b2 + ext;
    assert n1 == head + s1 + ext;
    assert n2 == head + s2 + ext;
    assert |s1| == |s2|;
    assert s1 == n1[|head|..|head| + |s1|];
    assert s2 == n2[|head|..|head| + |s2|];
    SplitAtFirstDash(a1, b1, a2, b2);
  }

  /**
   * Two uploads of the same part get the same name only when they share the
   * timestamp and the random number: the name determines both.
   */
  lemma {:induction false} FilenameInjective(file: IncomingFile, t1: nat, r1: nat, t2: nat, r2: nat)
    requires Filename(file, t1, r1) == Filename(file, t2, r2)
    ensures t1 == t2 && r1 == r2
  {
    var ext := ExtName(file.originalname);
    var a1, b1, a2, b2 := DecimalString(t1), DecimalString(r1), DecimalString(t2), DecimalString(r2);
    DecimalStringHasNoDash(t1);
    DecimalStringHasNoDash(t2);
    DashedNameParts(file.fieldname, a1, b1, a2, b2, ext);
    DecimalStringInjective(t1, t2);
    DecimalStringInjective(r1, r2);
  }

  /** An original name with an extension keeps it: `photo.png` is stored as `<field>-<t>-<r>.png`. */
  lemma FilenameKeepsExtension(file: IncomingFile, timestamp: nat, random: nat, stem: string, ext: string)
    requires file.originalname == stem + "." + ext
    requires stem != [] && '/' !in stem && '/' !in ext && '.' !in ext
    requires stem != "." || ext != []
    ensures Filename(file, timestamp, random)
            == file.fieldname + "-" + DecimalString(timestamp) + "-" + DecimalString(random) + "." + ext
  {
    ExtNameOf(stem, ext);
    var d := file.fieldname + "-" + DecimalString(timestamp) + "-" + DecimalString(random);
    assert d + ExtName(file.originalname) == d + ("." + ext);
  }

  // ---------------------------------------------------------------------------
  // Handlers

  /** The `catch` and the success return shared by both routes. */
  function Respond(outcome: Gateway.Thrown<QAResponse>): (r: HttpResponse)
    ensures r.status == 200 <==> outcome.Returned?
    ensures r.status == 200 ==> r.body == SuccessBody(outcome.value)
    ensures r.status != 200 ==> r.status == 500 && r.body.ErrorBody? && r.body.message != []
    ensures outcome.Threw? && outcome.message != [] ==> r.body == ErrorBody(outcome.message)
    ensures outcome.Threw? && outcome.message == [] ==> r.body == ErrorBody(DefaultErrorMessage)
  {
    match outcome
    case Returned(result) => HttpResponse(200, SuccessBody(result))
    case Threw(message) => HttpResponse(500, ErrorBody(if message != [] then message else DefaultErrorMessage))
  }

  /** `imageFile ? imageFile.path : null` */
  function PathOf(file: Option<StoredFile>): Option<string>
  {
    if file.Some? then Some(file.value.path) else None
  }

  /** `req.body.imageUrl || null` */
  function UrlOrNull(imageUrl: Option<string>): (r: Option<string>)
    ensures Truthy(r) <==> Truthy(imageUrl)
    ensures r.Some? ==> r == imageUrl
  {
    if Truthy(imageUrl) then imageUrl else None
  }

  /**
   * `POST /image-upload`: an image (file or URL) is required first, then a
   * non-empty question; a valid request goes to the service with the stored
   * path (or null) and the URL (or null).
   */
  function ImageUpload(file: Option<StoredFile>, body: RequestBody, keys: Gateway.ApiKeys,
                       readFile: string -> Gateway.FileRead, api: Gateway.ChatRequest -> Gateway.CallOutcome): (r: HttpResponse)
    ensures r.status in {200, 400, 500}
    ensures file.None? && !Truthy(body.imageUrl) ==> r == HttpResponse(400, ErrorBody(MissingImageMessage))
    ensures (file.Some? || Truthy(body.imageUrl)) && !Truthy(body.question) ==>
              r == HttpResponse(400, ErrorBody(MissingQuestionMessage))
    ensures (file.Some? || Truthy(body.imageUrl)) && Truthy(body.question) ==>
              r == Respond(Gateway.ProcessImageQuestion(keys, PathOf(file), UrlOrNull(body.imageUrl),
                                                        body.question.value, readFile, api).outcome)
  {
    if file.None? && !Truthy(body.imageUrl) then HttpResponse(400, ErrorBody(MissingImageMessage))
    else if !Truthy(body.question) then HttpResponse(400, ErrorBody(MissingQuestionMessage))
    else
      var run := Gateway.ProcessImageQuestion(keys, PathOf(file), UrlOrNull(body.imageUrl), body.question.value, readFile, api);
      Respond(run.outcome)
  }

  /**
   * `POST /image-url`: a URL is required first, then a non-empty question;
   * the service never receives a file.
   */
  function ImageUrl(body: RequestBody, keys: Gateway.ApiKeys,
                    readFile: string -> Gateway.FileRead, api: Gateway.ChatRequest -> Gateway.CallOutcome): (r: HttpResponse)
    ensures r.status in {200, 400, 500}
    ensures !Truthy(body.imageUrl) ==> r == HttpResponse(400, ErrorBody(MissingUrlMessage))
    ensures Truthy(body.imageUrl) && !Truthy(body.question) ==>
              r == HttpResponse(400, ErrorBody(MissingQuestionMessage))
    ensures Truthy(body.imageUrl) && Truthy(body.question) ==>
              r == Respond(Gateway.ProcessImageQuestion(keys, None, body.imageUrl,
                                                        body.question.value, readFile, api).outcome)
  {
    if !Truthy(body.imageUrl) then HttpResponse(400, ErrorBody(MissingUrlMessage))
    else if !Truthy(body.question) then HttpResponse(400, ErrorBody(MissingQuestionMessage))
    else
      var run := Gateway.ProcessImageQuestion(keys, None, body.imageUrl, body.question.value, readFile, api);
      Respond(run.outcome)
  }

  // ---------------------------------------------------------------------------
  // Properties of the routes

  /** A 400 answers exactly the requests that fail validation; the service is consulted for all others. */
  lemma ValidationIsExactlyTheBadRequests(file: Option<StoredFile>, body: RequestBody, keys: Gateway.ApiKeys,
                                          readFile: string -> Gateway.FileRead, api: Gateway.ChatRequest -> Gateway.CallOutcome)
    ensures ImageUpload(file, body, keys, readFile, api).status == 400
            <==> (file.None? && !Truthy(body.imageUrl)) || !Truthy(body.question)
    ensures ImageUrl(body, keys, readFile, api).status == 400
            <==> !Truthy(body.imageUrl) || !Truthy(body.question)
  {
    var up := ImageUpload(file, body, keys, readFile, api);
    var url := ImageUrl(body, keys, readFile, api);
    if (file.Some? || Truthy(body.imageUrl)) && Truthy(body.question) {
      assert up.status != 400;
    }
    if Truthy(body.imageUrl) && Truthy(body.question) {
      assert url.status != 400;
    }
  }

  /** A question of blanks is not falsy: it passes validation and reaches the service. */
  lemma BlankQuestionPasses(path: string, keys: Gateway.ApiKeys,
                            readFile: string -> Gateway.FileRead, api: Gateway.ChatRequest -> Gateway.CallOutcome)
    ensures ImageUpload(Some(StoredFile(path)), RequestBody(Some("  "), None), keys, readFile, api)
            == Respond(Gateway.ProcessImageQuestion(keys, Some(path), None, "  ", readFile, api).outcome)
  {
  }

  /** An empty URL in an upload request is passed on as null, not as the empty string. */
  lemma EmptyUrlBecomesNull(path: string, question: string, keys: Gateway.ApiKeys,
                            readFile: string -> Gateway.FileRead, api: Gateway.ChatRequest -> Gateway.CallOutcome)
    requires question != []
    ensures ImageUpload(Some(StoredFile(path)), RequestBody(Some(question), Some("")), keys, readFile, api)
            == Respond(Gateway.ProcessImageQuestion(keys, Some(path), None, question, readFile, api).outcome)
  {
  }

  /**
   * Whatever the request, a 200 carries a response whose boxes all have four
   * coordinates in [0, 1], and a 500 carries a non-empty message.
   */
  lemma SuccessfulResponsesHaveNormalisedBoxes(file: Option<StoredFile>, body: RequestBody, keys: Gateway.ApiKeys,
                                               readFile: string -> Gateway.FileRead, api: Gateway.ChatRequest -> Gateway.CallOutcome)
    ensures var r := ImageUpload(file, body, keys, readFile, api);
            r.status == 200 ==> r.body.SuccessBody? && forall k :: 0 <= k < |r.body.data.boundingBoxes| ==> NormalisedBox(r.body.data.boundingBoxes[k])
    ensures var r := ImageUrl(body, keys, readFile, api);
            r.status == 200 ==> r.body.SuccessBody? && forall k :: 0 <= k < |r.body.data.boundingBoxes| ==> NormalisedBox(r.body.data.boundingBoxes[k])
  {
    if (file.Some? || Truthy(body.imageUrl)) && Truthy(body.question) {
      Gateway.ResponseShape(keys, PathOf(file), UrlOrNull(body.imageUrl), body.question.value, readFile, api);
    }
    if Truthy(body.imageUrl) && Truthy(body.question) {
      Gateway.ResponseShape(keys, None, body.imageUrl, body.question.value, readFile, api);
    }
  }

  /**
   * Without an OpenAI key a valid `/image-url` request is a 500 naming the
   * first configured provider (or saying that none is), and no model is called.
   */
  lemma UrlRouteWithoutOpenAIKey(body: RequestBody, keys: Gateway.ApiKeys,
                                 readFile: string -> Gateway.FileRead, api: Gateway.ChatRequest -> Gateway.CallOutcome)
    requires Truthy(body.imageUrl) && Truthy(body.question) && !Truthy(keys.openAI)
    ensures ImageUrl(body, keys, readFile, api)
            == HttpResponse(500, ErrorBody(if Truthy(keys.google) then Gateway.GeminiMessage
                                           else if Truthy(keys.anthropic) then Gateway.ClaudeMessage
                                           else Gateway.NoKeysMessage))
  {
    Gateway.WithoutOpenAIKey(keys, None, body.imageUrl, body.question.value, readFile, api);
  }
}
