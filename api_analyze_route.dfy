/** api/routes/analyze.js: the serverless variant of the analysis endpoint. It shares the reply
    cleaning and the request handling of routes/analyze.js, but keeps the parsed record as it is, makes a
    single call without retries, and falls back on an empty mock analysis that never throws. */
module ApiAnalyzeRoute {
  import opened Wrappers
  import opened Text
  import opened Analysis
  import opened AnalyzeRoute

  /** The upload directory when `UPLOAD_PATH` is not set. */
  const ApiUploadDefault: string := "/tmp/uploads"

  /** `generateMockAnalysis(imagePath)`: no violations, both counts 0 and a score of 100, whatever the
      path (which it never reads, so a null path is harmless). */
  function ApiMock(): (r: Report)
    ensures r.violations == Some([]) && r.summary.Some?
    ensures r.summary.value.severeCount == Some(0) && r.summary.value.normalCount == Some(0)
    ensures r.summary.value.totalScore == Some(100)
  {
    Report(None, None, None, None, Some([]),
           Some(Summary(Some(0), Some(0), Some(100), Some("使用模拟分析"), Some([]))))
  }

  /** The empty mock is already what normalisation would make of it. */
  lemma ApiMockIsNormal()
    ensures Normal(ApiMock()) && Normalised(ApiMock()) == ApiMock()
  {
    NormalIsFixed(ApiMock());
  }

  /** `parseAIResponse(aiText)`: the trimmed text is cleaned of fences and its object text parsed
      (`parse` stands for `JSON.parse`; None: it throws); the parsed record is returned as it is, and
      the mock when there is no object text or it does not parse. */
  function ApiReply(aiText: string, parse: string -> Option<Report>): (r: Report)
    ensures ObjectText(Clean(Trim(aiText))).None? ==> r == ApiMock()
    ensures ObjectText(Clean(Trim(aiText))).Some? ==>
              r == parse(ObjectText(Clean(Trim(aiText))).value).GetOr(ApiMock())
  {
    match ObjectText(Clean(Trim(aiText)))
    case None => ApiMock()
    case Some(json) =>
      match parse(json)
      case None => ApiMock()
      case Some(p) => p
  }

  /** Wherever the reply parses, normalising this variant's record gives the record of routes/analyze.js:
      the two differ only in that this one skips the fix-ups. */
  lemma ApiReplyNormalisedIsReply(aiText: string, parse: string -> Option<Report>)
    requires ObjectText(Clean(Trim(aiText))).Some? && parse(ObjectText(Clean(Trim(aiText))).value).Some?
    ensures Normalised(ApiReply(aiText, parse)) == Reply(aiText, parse)
  {
  }

  /** `analyzeWithAI(imageUrl, imagePath)`: without a key the mock; otherwise one call, whose non-empty
      reply content is parsed; a timeout, a missing or empty content and every other failure give the
      mock. `attempt` is how that one call ends. */
  function ApiAnalyzeWithAI(hasKey: bool, attempt: Attempt, parse: string -> Option<Report>): (r: Report)
    ensures !(hasKey && attempt.Answered? && attempt.content != "") ==> r == ApiMock()
    ensures hasKey && attempt.Answered? && attempt.content != "" ==> r == ApiReply(attempt.content, parse)
  {
    if !hasKey then ApiMock()
    else
      match attempt
      case Answered(content) => if content == "" then ApiMock() else ApiReply(content, parse)
      case _ => ApiMock()
  }

  /** Unlike routes/analyze.js, a timeout is not retried: it gives the mock at once. */
  lemma TimeoutNotRetried(parse: string -> Option<Report>)
    ensures ApiAnalyzeWithAI(true, TimedOut, parse) == ApiMock()
    ensures ApiMock().summary.value.totalScore == Some(100)
  {
  }

  /** The handler of POST /: the request handling of routes/analyze.js with `/tmp/uploads` as the
      default upload directory and an analysis that cannot throw. `call(url, path)` is how the AI call
      about that image ends. */
  function ApiAnalyzeImage(imageUrl: Option<string>, imagePath: Option<string>, env: Option<string>,
                           fileExists: string -> bool, hasKey: bool,
                           call: (Option<string>, Option<string>) -> Attempt,
                           parse: string -> Option<Report>): (r: Response)
    ensures r.status == 200 || r.status == 400
    ensures r.status == 400 <==>
              (!Truthy(imageUrl) && !Truthy(imagePath))
              || (TargetPath(imageUrl, imagePath, env, ApiUploadDefault).Some?
                  && !fileExists(TargetPath(imageUrl, imagePath, env, ApiUploadDefault).value))
    ensures !Truthy(imageUrl) && !Truthy(imagePath) ==> r == Response(400, false, "请提供图片URL或图片路径", None)
    ensures (Truthy(imageUrl) || Truthy(imagePath)) && TargetPath(imageUrl, imagePath, env, ApiUploadDefault).Some?
            && !fileExists(TargetPath(imageUrl, imagePath, env, ApiUploadDefault).value) ==>
              r == Response(400, false, "指定的图片文件不存在", None)
    ensures r.status == 200 ==>
              r.success && r.analysis ==
              Some(ApiAnalyzeWithAI(hasKey, call(imageUrl, TargetPath(imageUrl, imagePath, env, ApiUploadDefault)), parse))
  {
    AnalyzeImage(imageUrl, imagePath, env, ApiUploadDefault, fileExists,
                 (u, p) => Ok(ApiAnalyzeWithAI(hasKey, call(u, p), parse)))
  }
}
