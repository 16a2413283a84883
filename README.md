# Construction-site safety analysis: a Dafny model

This project models the logic behind a construction-site safety checker. A user uploads a photo of a
building site. The server asks an AI vision model for the safety violations it shows, normalises the
reply into an analysis record, and can render that record as a Word or PDF report. The web client
shows the result, grades the score and keeps a short history.

The modules follow the program's files:

- `UploadRoute` (routes/upload.js) covers uploads:
  - the MIME allow-list;
  - Base64 data-URL parsing;
  - the type check and the type-to-extension mapping;
  - file naming and the size limit;
  - the resolution and compression decisions for an uploaded image;
  - the error-mapping middleware.
- `ApiUploadRoute` (api/routes/upload.js) is the serverless copy of the same logic. Its only
  difference is the default upload directory, `/tmp/uploads`.
- `AnalyzeRoute` (routes/analyze.js) covers analysis:
  - cleaning the AI reply of code fences and extracting its object text;
  - normalising the parsed record: defaults, recomputed counts, the fallback score;
  - the mock analysis;
  - the timeout-retry policy of the AI call;
  - image-path resolution;
  - the single and batch endpoints;
  - the dispatch of report generation.
- `ApiAnalyzeRoute` (api/routes/analyze.js) is the serverless copy. It returns the parsed object
  unchanged, has no retries and has its own empty mock.
- `ReportGenerator` (report_generator.py) and `SimpleReport` (simple_report.py) are two independent
  report builders. Word and PDF are each built twice:
  - as a function to a sequence of `Document.Block`s;
  - as a method with the source's append loops, proved equal to that function.

  The central lemma of each file is that the PDF story reads exactly like the Word document.
  `SimpleReport` also models the probing of Chinese font candidates.
- `AppState` (client/src/App.tsx) is the page state as a class. Its handler methods each raise a
  notice. The history holds the ten newest analyses, newest first.
- `StatisticsCard` (client/src/components/StatisticsCard.tsx) holds the safety level, the colours,
  the two violation shares and the safety recommendations.
- `ApiClient` (client/src/services/api.ts) holds `withRetry` with exponential back-off. It also holds
  `CancelTokenManager`, a map from request keys to abort controllers.
- Shared library modules:
  - `Text` models JavaScript and Python string built-ins: trim, lower-casing, number formatting,
    `includes`.
  - `Paths` models Node's `path.basename`, `path.join`, `path.parse(...).name` and `path.extname`,
    and Python's `os.path.join`. It includes the case "/..", where `parse` gives the name "." but
    `extname` gives no extension.
  - `Analysis` holds the analysis record shared by all parts.
  - `Wrappers` holds `Option` and `Result`.

Several things outside the program become parameters of the model:

- the clock and the random suffixes;
- `JSON.parse`;
- the AI service;
- the file system;
- `sharp`'s image metadata;
- the rendering libraries.

Each of these is an explicit argument: a value, an oracle function, or a flag saying whether a step
succeeds.

## Model

| member | source | states |
|---|---|---|
| Analysis.CountType | routes/analyze.js:225-226 | The number of violations whose type is exactly the given one. It is 0 iff no violation has that type, and the list length iff all have it. |
| Analysis.CountTypesDisjoint | routes/analyze.js:225-229 | The severe and ordinary counts never add up to more than the violations, so a violation of any other type counts in neither. |
| Analysis.CountTypeAppend | routes/analyze.js:225-226 | Counting over a concatenation is the sum of the counts of the parts. |
| Analysis.UploadRoot | routes/analyze.js:404 | `UPLOAD_PATH` when it is set and non-empty, otherwise the default directory. |
| Text.NatToString | routes/analyze.js:528 | Decimal rendering of a number: digits only, with no leading zero. |
| Text.NatToStringRoundTrip | routes/analyze.js:528 | Reading the rendered digits back gives the number. |
| Text.IntToString | report_generator.py:57 | Python `str`/`f"{}"` of an integer: a leading '-' exactly for negatives, followed by the digits of the magnitude. |
| Text.Contains | routes/analyze.js:401 | `includes`: true iff the pattern occurs at some position. |
| Text.LowerAscii | report_generator.py:252 | Lower-cases each letter A-Z and keeps every other character, with the length unchanged. |
| Text.LowerAsciiIdempotent | report_generator.py:252-256 | Lower-casing twice is lower-casing once. |
| Text.ReplaceChar | routes/analyze.js:598 | `replace(/:/g, '-')`: each occurrence of the character is replaced, nothing else changes. |
| Text.Trim | routes/analyze.js:204 | `trim()`: the slice of the input that starts where the leading white space ends. Everything dropped before and after it is JavaScript white space, and the slice neither starts nor ends with white space. |
| Text.TrimStart | routes/analyze.js:204 | The dropped prefix is all white space and the result is a suffix of the input. |
| Text.TrimEnd | routes/analyze.js:204 | The dropped suffix is all white space and the result is a prefix of the input. |
| Text.FirstIndexOf | routes/analyze.js:208 | The first position of a character, or -1 when it is absent. |
| Text.LastIndexOf | routes/analyze.js:208 | The last position of a character, or -1 when it is absent. |
| Paths.Basename | routes/analyze.js:403 | `path.basename`: with the trailing slashes dropped, the tail after the last '/' (or the whole path when there is none). It contains no '/'. |
| Paths.ParseName | routes/upload.js:197 | `path.parse(p).name` is a prefix of the base name, and the name followed by `path.extname(p)` is the base name. The one exception is "/.." (with any trailing slashes): there `parse` scans no further than the root slash, takes the second dot for an extension and gives the name ".", while `extname` gives "". |
| Paths.Extname | routes/upload.js:37 | `path.extname` is empty exactly when the base name is ".." or has no '.' after its first character. Otherwise it is the tail of the base name from its last '.' on, which is not the whole name. |
| Paths.ExtOf | routes/upload.js:37 | The extension of a base name: empty exactly for ".." or a name with no '.' after its first character, else the tail from the last '.'. |
| Paths.NameOf | routes/upload.js:197 | The name without its extension, followed by that extension, is the base name. |
| Paths.BasenameOfRootDotDot | routes/upload.js:197 | The base name of "/..", with or without trailing slashes, is "..". |
| Paths.Normalize | routes/analyze.js:404 | `path.normalize` never gives the empty string, and an absolute path stays absolute. |
| Paths.NodeJoin | routes/analyze.js:404 | `path.join(a, b)` is never empty: "." when both parts are empty, and absolute when its first non-empty part is. |
| Paths.PyJoin | report_generator.py:253 | `os.path.join(d, f)`: an absolute `f` replaces `d`. Otherwise the result starts with `d` and ends with `f`, with one '/' inserted between them exactly when `d` is non-empty and does not already end with one. |
| Document.ReadCells | report_generator.py:63-74 | The rows of a table whose cells were assigned in place, read back row by row with every cell in its place. |
| Document.SectionsReadAlike | report_generator.py:85-95 | A titled list of Word bullets and the same list as PDF "• " paragraphs read the same. |
| AnalyzeRoute.RemoveAll | routes/analyze.js:205 | The global fence removal never lengthens the text. |
| AnalyzeRoute.RemoveAllKeepsOther | routes/analyze.js:205 | A text without the pattern's first character is left unchanged. |
| AnalyzeRoute.RemoveAllPlainPrefix | routes/analyze.js:205 | Text before the first possible start of the pattern is kept, and the rest is cleaned on its own. |
| AnalyzeRoute.RemoveAllDropsOccurrence | routes/analyze.js:205 | The first occurrence of the pattern is removed together with one newline right after it. The text before it is kept. |
| AnalyzeRoute.RemoveAllKeepsShort | routes/analyze.js:205 | A text shorter than the pattern is left unchanged. |
| AnalyzeRoute.NoFenceLeft | routes/analyze.js:205 | After removing "```" (with an optional newline) no three backticks are left in a row, even where removal joins backticks. |
| AnalyzeRoute.Clean | routes/analyze.js:205 | The cleaned text contains no "```". |
| AnalyzeRoute.CleanKeepsPlainText | routes/analyze.js:204-205 | A reply without backticks passes the cleaning unchanged. |
| AnalyzeRoute.JsonPassOfFencedReply | routes/analyze.js:205 | On a fenced reply, the "```json" pass removes only the opening fence and its newline. |
| AnalyzeRoute.JsonPassKeepsBody | routes/analyze.js:205 | The closing "```" is too short to match "```json", so that pass keeps it. |
| AnalyzeRoute.FencePassOfFencedReply | routes/analyze.js:205 | The "```" pass removes the closing fence. |
| AnalyzeRoute.CleanFencedReply | routes/analyze.js:204-205 | A reply "```json\n<t>\n```" with no backtick in `t` is cleaned to `t` followed by its newline: the content survives exactly. |
| AnalyzeRoute.ObjectSpan | routes/analyze.js:208 | `/\{[\s\S]*\}/` spans from the first '{' to the last '}' after it. There is no match iff no '}' follows any '{'. |
| AnalyzeRoute.ObjectText | routes/analyze.js:208 | The matched text starts with '{' and ends with '}'. It is missing exactly when there is no span. |
| AnalyzeRoute.FallbackScore | routes/analyze.js:232-234 | `max(0, 100 - 20*severe - 10*normal)` lies in [0, 100]. It is 0 exactly when the violations weigh 100 points or more. |
| AnalyzeRoute.FallbackScoreMonotone | routes/analyze.js:232-234 | More violations of either kind never raise the fallback score. |
| AnalyzeRoute.Normalised | routes/analyze.js:213-234 | The fixed-up record has a violation list (the record's own, or empty) and a summary whose counts are recomputed from the types. Every other field is unchanged. |
| AnalyzeRoute.NormalisedSummary | routes/analyze.js:213-234 | A missing or zero score becomes the fallback of the recomputed counts; any other score is kept. The assessment and the actions are the record's own or the defaults. |
| AnalyzeRoute.DefaultSummary | routes/analyze.js:214-222 | The summary put in place of a missing one: counts 0, score 100, "未能生成评估报告", no actions. Its consequence is stated by `MissingSummaryScores100`. |
| AnalyzeRoute.ScoreFalsy | routes/analyze.js:232 | A missing or zero score: the falsy test of line 232. `NormalisedSummary` states that exactly such a score is replaced by the fallback. |
| AnalyzeRoute.MissingSummaryScores100 | routes/analyze.js:214-222 | Without a summary the record scores 100 with "未能生成评估报告", whatever its violations. |
| AnalyzeRoute.NormalisedCountsBounded | routes/analyze.js:225-229 | The recomputed counts add up to at most the number of violations. |
| AnalyzeRoute.NormalisedIdempotent | routes/analyze.js:213-234 | Normalising twice is normalising once. |
| AnalyzeRoute.NormalIsFixed | routes/analyze.js:213-234 | A record that is already consistent and has a non-zero score passes unchanged. |
| AnalyzeRoute.MockSevere | routes/analyze.js:90-125 | The mock's first two violations are of the severe type. |
| AnalyzeRoute.MockOrdinary | routes/analyze.js:126-180 | The mock's other three violations are of the ordinary type. |
| AnalyzeRoute.MockCounts | routes/analyze.js:89-180 | The mock has 2 severe and 3 ordinary violations. |
| AnalyzeRoute.MockAnalysis | routes/analyze.js:81-198 | The mock has the five listed violations and a summary of 2 severe, 3 ordinary and score 45. |
| AnalyzeRoute.MockIsNormal | routes/analyze.js:81-198 | The mock's summary (2, 3, score 45) agrees with its violations, so normalising it changes nothing. |
| AnalyzeRoute.GenerateMockAsWritten | routes/analyze.js:81-86 | `generateMockAnalysis` succeeds exactly when it is given a path, because `path.basename(null)` throws. |
| AnalyzeRoute.ParseTextResponseAsWritten | routes/analyze.js:251-257 | As written, the text fallback throws for every text. |
| AnalyzeRoute.ParseTextResponse | routes/analyze.js:251-257 | The intended fallback: the mock analysis, already consistent. |
| AnalyzeRoute.Reply | routes/analyze.js:201-248 | Every reply comes out consistent. When the cleaned text has an object text that parses, the reply is that record normalised; otherwise it is the mock. |
| AnalyzeRoute.ReplyAsWritten | routes/analyze.js:201-257 | As written, parsing succeeds exactly when the object text parses, and then it gives the corrected reply. When it throws, the corrected reply is the mock. |
| AnalyzeRoute.EmptyReplyHasNoObject | routes/analyze.js:204-208 | An empty reply has no object text. |
| AnalyzeRoute.ReplyAsWrittenDiffers | routes/analyze.js:241-257 | On the empty reply the as-written parsing throws, while the corrected one gives the mock. |
| AnalyzeRoute.ParseAIResponse | routes/analyze.js:201-248 | The method that patches the parsed record in place computes the reply function. |
| AnalyzeRoute.Patch | routes/analyze.js:213-238 | The in-place field updates of `parseAIResponse` give the normalised record. |
| AnalyzeRoute.AnsweringCall | routes/analyze.js:260-379 | The call whose reply is parsed: an answering call reached through timeouts only, retried at most twice. Conversely, every such call is the one chosen, so it is the first answer. There is none without a key. |
| AnalyzeRoute.AnalyzeWithAI | routes/analyze.js:259-379 | With the mock as intended, `analyzeWithAI` always gives a consistent record: the reply of the answering call, or the mock when there is none. |
| AnalyzeRoute.AnalyzeWithAIAsWritten | routes/analyze.js:259-379 | As written, every fallback is `generateMockAnalysis(imagePath)`. With a path it always succeeds. Without one it succeeds exactly when an answer arrives and parses. When it succeeds, it agrees with the intended analysis. |
| AnalyzeRoute.CallsMade | routes/analyze.js:266-358 | At most three requests are made, and none without an API key. When a call answers, the requests made are exactly those up to that call. |
| AnalyzeRoute.OnlyThreeCallsMatter | routes/analyze.js:354-358 | Only the outcomes of the first three calls decide the result. |
| AnalyzeRoute.MockWithoutAnswer | routes/analyze.js:261-264 | Without a key, or when the first call fails other than by a timeout, the mock is returned. |
| AnalyzeRoute.TargetPath | routes/analyze.js:397-406 | An explicit image path wins. Otherwise there is a local path exactly when the URL contains "/uploads/", and it is the URL's base name joined onto the upload directory. |
| AnalyzeRoute.TargetPathUsesBaseName | routes/analyze.js:401-404 | Two upload URLs with the same base name resolve to the same local file. |
| AnalyzeRoute.AnalyzeImage | routes/analyze.js:382-451 | 400 exactly when neither URL nor path is given ("请提供图片URL或图片路径") or the resolved file does not exist ("指定的图片文件不存在"). Past those checks, 200 exactly when the analysis of the URL and resolved path succeeds. Otherwise 500 with the error's message, or "图片分析失败" when it is empty. Success iff 200. |
| AnalyzeRoute.AnalyzeImageCarriesResult | routes/analyze.js:419-440 | A 200 response carries the analysis of the resolved image. |
| AnalyzeRoute.EmptyAnswerFailsAsWritten | routes/analyze.js:259-379 | When every call answers with an empty reply and there is no path, the analysis as written throws, while the intended one gives the mock. |
| AnalyzeRoute.UrlRequestFailsAsWritten | routes/analyze.js:382-451 | For a URL outside /uploads/ answered with an empty reply, the code as written ends in 500, while with the mock as intended it answers 200. |
| AnalyzeRoute.UnresolvedUrlAnswer | routes/analyze.js:382-451 | For a URL that resolves to no local file, the analysis alone decides 200 or 500. |
| AnalyzeRoute.BatchEntry | routes/analyze.js:476-514 | Entry i records the index, the URL and the analysis of the image's URL and resolved path. A success records the resolved path, a failure the image's own path field. |
| AnalyzeRoute.BatchEntries | routes/analyze.js:476-515 | One entry per image. |
| AnalyzeRoute.BatchEntriesInOrder | routes/analyze.js:476-515 | Entry i has index i and succeeds exactly when the analysis of image i does. |
| AnalyzeRoute.SuccessCount | routes/analyze.js:518 | The successes are at most the entries. |
| AnalyzeRoute.TotalViolationsOfFailures | routes/analyze.js:518-524 | A batch of failures has no successes and no violations. |
| AnalyzeRoute.TotalViolations | routes/analyze.js:519-524 | The violations of the successful results summed; zero exactly when no successful result has a violation. |
| AnalyzeRoute.BatchMessage | routes/analyze.js:540 | "批量分析完成，成功分析 <success>/<total> 张图片". What it tells is stated by `BatchMessageReadsBack`. |
| AnalyzeRoute.BatchMessageReadsBack | routes/analyze.js:540 | The message determines both counts: equal messages have equal success counts and equal totals. |
| AnalyzeRoute.AnalyzeBatch | routes/analyze.js:454-550 | A missing or empty list and a list over 10 images are refused, each with its message. Otherwise it returns the entries in order, successes plus failures equal the images, and the total is taken over the successful entries. |
| AnalyzeRoute.FileStamp | routes/analyze.js:598 | The ISO timestamp cut to 19 characters with every ':' replaced by '-'. |
| AnalyzeRoute.GenerateReport | routes/analyze.js:566-624 | No data gives 400. A file is sent exactly for the formats "word" and "pdf" (default "pdf") when rendering succeeds, with the matching MIME type and the file name "Building_Safety_Report_<stamp>.docx/.pdf". A render error for an accepted format gives 500 "Word报告生成失败: <error>" or "PDF报告生成失败: <error>". |
| AnalyzeRoute.UnknownFormatRefused | routes/analyze.js:568-595 | Any other format is refused with 400. A missing format is handled as "pdf". |
| ApiAnalyzeRoute.ApiMock | api/routes/analyze.js:22-33 | The serverless mock: no violations, counts 0, score 100. |
| ApiAnalyzeRoute.ApiMockIsNormal | api/routes/analyze.js:22-33 | That mock is already consistent. |
| ApiAnalyzeRoute.ApiReply | api/routes/analyze.js:35-43 | The parsed object is returned as it is. With no object text, or when it does not parse, the mock is returned. |
| ApiAnalyzeRoute.ApiReplyNormalisedIsReply | api/routes/analyze.js:35-43 | The only difference between the variants on parsed replies is the normalisation: normalising the serverless reply gives the main one. |
| ApiAnalyzeRoute.ApiAnalyzeWithAI | api/routes/analyze.js:45-86 | Only a non-empty answer with a key is parsed. No key, an empty answer and every error give the mock. |
| ApiAnalyzeRoute.TimeoutNotRetried | api/routes/analyze.js:82-85 | A timeout is not retried: it gives the mock with score 100. |
| ApiAnalyzeRoute.ApiAnalyzeImage | api/routes/analyze.js:88-108 | 400 exactly when no image is given ("请提供图片URL或图片路径") or the resolved file under `/tmp/uploads` is missing ("指定的图片文件不存在"). Otherwise 200 with the AI analysis. |
| ApiClient.Backoff | client/src/services/api.ts:238 | The wait after failed attempt i is `delay * 2^i`. |
| ApiClient.BackoffTotal | client/src/services/api.ts:237-239 | The waits after n failures add up to `delay * (2^n - 1)`. |
| ApiClient.WithRetry | client/src/services/api.ts:222-244 | Up to `retries` attempts; the first success is returned, and after the last failure that failure is rethrown. The waits follow the back-off. With no attempts allowed, "重试次数已用完" is thrown and `fn` is never called. |
| ApiClient.CancelTokenManager.constructor | client/src/services/api.ts:250 | The map starts empty. |
| ApiClient.CancelTokenManager.Cancel | client/src/services/api.ts:262-268 | The key's controller is aborted and removed. Other keys are untouched, and an absent key changes nothing. |
| ApiClient.CancelTokenManager.Create | client/src/services/api.ts:252-260 | The previous controller of the key is aborted. A fresh, live one takes its place, and other keys are untouched. |
| ApiClient.CancelTokenManager.CancelAll | client/src/services/api.ts:270-275 | Every live controller is aborted and the map is emptied. |
| ApiClient.ReplaceAbortsPrevious | client/src/services/api.ts:252-260 | Creating twice for one key leaves the first signal aborted and the second live. |
| ApiUploadRoute.ApiBase64Upload | api/routes/upload.js:70-96 | A 200 response carries data only for a valid data URL, stored under `/tmp/uploads` unless `UPLOAD_PATH` is set, with the generated name. Missing data, a string that is not a data URL and a refused type give the same 400 responses as the main route. |
| ApiUploadRoute.ConfiguredVariantsAgree | api/routes/upload.js:83 | With `UPLOAD_PATH` set, both variants answer every Base64 upload alike. |
| ApiUploadRoute.MkdirFailureNamesTmp | api/routes/upload.js:83-84 | Failing to create the default directory gives 500 naming `/tmp/uploads`. |
| AppState.Pushed | client/src/App.tsx:41 | The new analysis goes in front of at most nine earlier ones, in their order. |
| AppState.NewestFirst | client/src/App.tsx:41 | The reference history holds the ten newest analyses, newest first. |
| AppState.HistoryKeepsNewest | client/src/App.tsx:41 | After any run of completed analyses, the history is exactly the ten newest in reverse order of completion. |
| AppState.CompletionNotice | client/src/App.tsx:43-53 | A warning with both counts iff there is a severe violation. Otherwise information iff there is an ordinary one, and success when there are none. |
| AppState.UntypedViolationsReportedClean | client/src/App.tsx:43-53 | Violations of other types are reported as no violations. |
| AppState.FooterCount | client/src/App.tsx:128-132 | The footer counter is shown iff the history is non-empty. |
| AppState.FooterStopsAtTen | client/src/App.tsx:128-132 | However many analyses completed, the footer shows at most 10. |
| AppState.App.constructor | client/src/App.tsx:14-17 | The page starts with no file, no analysis, not analysing and an empty history. |
| AppState.App.HasData | client/src/App.tsx:89 | The header's clear button shows iff there is a file or an analysis. |
| AppState.App.FileUploaded | client/src/App.tsx:29-33 | Sets the file and drops the analysis. The flag and the history are unchanged. |
| AppState.App.AnalysisComplete | client/src/App.tsx:36-54 | Shows the analysis, ends the run, pushes the analysis onto the history and gives the completion notice. |
| AppState.App.AnalysisStart | client/src/App.tsx:57-60 | Marks the page as analysing; nothing else changes. |
| AppState.App.AnalysisError | client/src/App.tsx:63-67 | Ends the run and replaces the messages on screen with the error; nothing else changes. |
| AppState.App.ReAnalyze | client/src/App.tsx:70-74 | Drops the analysis only when a file is present. |
| AppState.App.Clear | client/src/App.tsx:77-83 | Resets the file, the analysis and the flag but keeps the history, leaving nothing to clear. |
| AppState.Session | client/src/App.tsx:29-83 | Upload, two analyses and a clear leave both analyses in the history, newest first, and an empty page. |
| ReportGenerator.StatsRows | report_generator.py:63-74 | The header row followed by one row per violation, in input order. |
| ReportGenerator.RegulationLines | report_generator.py:88-89 | One "code 第article条：content" line per regulation, in order. |
| ReportGenerator.ViolationReadsAlike | report_generator.py:81-221 | A violation's PDF blocks read exactly like its Word blocks. |
| ReportGenerator.DetailsReadAlike | report_generator.py:81-221 | The detailed violation sections read alike in both formats. |
| ReportGenerator.ViolationPartReadsAlike | report_generator.py:62-224 | The statistics-and-details part reads alike in both formats, with or without violations. |
| ReportGenerator.WordDocument | report_generator.py:24-103 | The Word document opens with the title and the three opening sections, up to the "违规统计" heading. It closes with the "整体安全评估" heading and the assessment. |
| ReportGenerator.PdfStory | report_generator.py:113-233 | The PDF story closes with the "整体安全评估" heading, a Spacer and the assessment. |
| ReportGenerator.PdfMatchesWord | report_generator.py:24-241 | The PDF story shows the same texts and tables, in the same order, as the Word document. |
| ReportGenerator.EmitRegulations | report_generator.py:85-89 | The regulations loop emits the titled bullet list. |
| ReportGenerator.EmitSuggestions | report_generator.py:91-95 | The suggestions loop emits the titled bullet list. |
| ReportGenerator.EmitWordViolation | report_generator.py:82-95 | The blocks of one violation in the Word document. |
| ReportGenerator.FillInfoTable | report_generator.py:43-52 | The info-table loop fills exactly the four key/value rows. |
| ReportGenerator.FillStatsTable | report_generator.py:63-74 | The cell-by-cell fill of the statistics table gives the statistics rows. |
| ReportGenerator.EmitWordDetails | report_generator.py:79-95 | The loop over violations emits the detailed section. |
| ReportGenerator.GenerateWordReport | report_generator.py:24-111 | Saves the Word document exactly when python-docx imports and saving succeeds; returns True iff it saved. |
| ReportGenerator.AppendPdfRegulations | report_generator.py:209-213 | The PDF regulations loop appends the titled list of lines. |
| ReportGenerator.AppendPdfSuggestions | report_generator.py:215-219 | The PDF suggestions loop appends the titled list of lines. |
| ReportGenerator.AppendPdfViolation | report_generator.py:205-221 | One violation's PDF blocks, ending with a spacer. |
| ReportGenerator.AppendPdfDetails | report_generator.py:205-221 | The PDF loop over violations. |
| ReportGenerator.BuildStatsData | report_generator.py:180-187 | The PDF statistics data: the header and one row per violation. |
| ReportGenerator.AppendPdfViolationPart | report_generator.py:178-224 | The PDF statistics-and-details part, or the no-violations paragraph. |
| ReportGenerator.GeneratePdfReport | report_generator.py:113-241 | Builds the PDF story exactly when reportlab imports and building succeeds; returns True iff it built. |
| ReportGenerator.GenerateReport | report_generator.py:243-264 | Creates the directory first. Then "word"/"pdf" (any case) become "建筑安全报告_<ts>.docx/.pdf" in that directory. Any other format or a failed renderer gives "". |
| ReportGenerator.ReportFileName | report_generator.py:249-259 | A name exists exactly when the lower-cased format is "word" or "pdf". It starts with "建筑安全报告_<timestamp>" and ends in ".docx" for Word, ".pdf" otherwise. |
| ReportGenerator.FormatCaseInsensitive | report_generator.py:252-256 | The format is matched case-insensitively. |
| ReportGenerator.InfoTable | report_generator.py:43-52 | 4 rows of 2 cells in both formats, with the defaults "未知", "AI系统" and "AI-"+time. |
| ReportGenerator.ScoreParagraph | report_generator.py:56-57 | "整体安全评分：<score>/100", with 0 when the summary or the score is missing. |
| ReportGenerator.StatsRowDescribes | report_generator.py:70-74 | A statistics row holds the 1-based index in decimal and the type, severity and risk, each defaulting to "未知". |
| ReportGenerator.StatsRowsDescribe | report_generator.py:180-187 | Data row i+1 describes violation i. |
| ReportGenerator.StatsTablePosition | report_generator.py:59-64 | With violations, the statistics table follows the "违规统计" heading in both formats. |
| ReportGenerator.StatsTable | report_generator.py:59-74 | That table has len+1 rows: the header 序号/违规类型/严重程度/风险等级, then row i+1 describing violation i. |
| ReportGenerator.ViolationFrame | report_generator.py:82-83 | The heading "违规 <i+1>: <category or 未知类别>" and the text "违规行为：<description or 无描述>". |
| ReportGenerator.ViolationRegulations | report_generator.py:85-89 | The regulation block appears iff there are regulations, with one bullet per regulation. |
| ReportGenerator.ViolationSuggestions | report_generator.py:91-95 | The suggestion block appears iff there are suggestions, with one bullet per suggestion, in order. |
| ReportGenerator.ViolationBullets | report_generator.py:85-95 | A violation has as many bullets as regulations plus suggestions. |
| ReportGenerator.DetailsBullets | report_generator.py:79-95 | The detailed section has one bullet per listed regulation and suggestion. |
| ReportGenerator.ViolationPartBullets | report_generator.py:61-95 | So does the whole violation part. |
| ReportGenerator.DocumentBullets | report_generator.py:24-104 | The bullets of the Word document are exactly the regulations and suggestions of its violations. |
| ReportGenerator.OpeningNoBullets | report_generator.py:35-60 | The opening before the statistics has no bullets. |
| ReportGenerator.NoViolationsDocument | report_generator.py:75-79 | Without violations: "未发现明显违规行为", no statistics table and no detailed section. |
| ReportGenerator.ClosingBlocks | report_generator.py:97-100 | Both formats end with "整体安全评估" and the assessment, which defaults to "无评估". |
| SimpleReport.RegulationLines | simple_report.py:96-97 | One "code article: content" line per regulation, in order. |
| SimpleReport.ViolationReadsAlike | simple_report.py:84-284 | A violation's PDF blocks read exactly like its Word blocks. |
| SimpleReport.DetailsReadAlike | simple_report.py:84-284 | The violation details read alike in both formats. |
| SimpleReport.DetailPartsReadAlike | simple_report.py:80-284 | The details part reads alike, present or absent. |
| SimpleReport.ActionsReadAlike | simple_report.py:70-246 | The priority actions read alike. |
| SimpleReport.WordDocument | simple_report.py:7-116 | The document `generate_word_report` saves opens with the title and the time line. It ends with a Spacer when there are no violations, and otherwise with the "违规详情" section. |
| SimpleReport.PdfStory | simple_report.py:126-287 | The story `generate_pdf_report` builds opens with the title, a Spacer and the time line. It has the same ending as the Word document. |
| SimpleReport.PdfMatchesWord | simple_report.py:7-296 | The PDF story shows the same texts and tables, in the same order, as the Word document. |
| SimpleReport.BuildOverviewTable | simple_report.py:40-60 | The row-adding loop builds the header row and the four overview rows. |
| SimpleReport.EmitActions | simple_report.py:70-75 | One bullet per action, or "暂无优先整改事项". |
| SimpleReport.AppendPdfActions | simple_report.py:240-246 | The same for the PDF story. |
| SimpleReport.EmitSection | simple_report.py:93-105 | A titled bullet list, or nothing for an empty list. |
| SimpleReport.AppendSection | simple_report.py:265-277 | A titled list of lines, or nothing for an empty list. |
| SimpleReport.FormatRegulations | simple_report.py:96-97 | The loop formats each regulation. |
| SimpleReport.EmitWordViolation | simple_report.py:84-112 | The Word blocks of one violation. |
| SimpleReport.AppendPdfViolation | simple_report.py:255-284 | The PDF blocks of one violation. |
| SimpleReport.EmitWordDetails | simple_report.py:80-112 | The Word loop over violations. |
| SimpleReport.AppendPdfDetails | simple_report.py:251-284 | The PDF loop over violations. |
| SimpleReport.GenerateWordReport | simple_report.py:7-124 | Saves the Word document exactly when python-docx imports and saving succeeds. |
| SimpleReport.FirstUsable | simple_report.py:154-163 | The first candidate that exists and registers. With -1, none does. |
| SimpleReport.Existing | simple_report.py:154-155 | The existing candidates, which are the ones a registration is tried for. |
| SimpleReport.ResolveFont | simple_report.py:139-167 | The probing loop stops at the first usable font ("ChineseFont"), having tried the existing candidates up to it; otherwise the font stays "Helvetica". |
| SimpleReport.ProbeSucceedsIff | simple_report.py:145-167 | The Chinese font is used iff some of the four candidates is usable, and the last registration tried is that one. |
| SimpleReport.AppendOverview | simple_report.py:205-230 | The PDF overview: its heading and the table. |
| SimpleReport.GeneratePdfReport | simple_report.py:126-296 | Builds the PDF story exactly when reportlab imports and building succeeds, using the probed font. |
| SimpleReport.ReportFileName | simple_report.py:304-313 | A name exists only for exactly "word" or "pdf", and it starts with "Building_Safety_Report_<ts>". |
| SimpleReport.GenerateReport | simple_report.py:298-316 | Creates the directory first. Then "word"/"pdf" save "Building_Safety_Report_<ts>.docx/.pdf"; any other format returns False without rendering. |
| SimpleReport.FormatIsCaseSensitive | simple_report.py:306-316 | A format with an upper-case letter is refused. |
| SimpleReport.WordFrontBlocks | simple_report.py:24-69 | The Word document opens: title, time, spacer, overview, spacer, assessment, actions heading. |
| SimpleReport.PdfFrontBlocks | simple_report.py:196-240 | The PDF story opens the same way, with its own spacers. |
| SimpleReport.OverviewTable | simple_report.py:40-60 | The overview table stands at its place in both formats. |
| SimpleReport.OverviewRowsShape | simple_report.py:49-55 | 5 rows of 2 cells, with header 项目/数值; 总违规数 is severe_count + normal_count, with defaults 0. |
| SimpleReport.TotalIgnoresViolationList | simple_report.py:54 | The total never depends on the violation list: without a summary it is 0 even with one violation listed. |
| SimpleReport.AssessmentParagraph | simple_report.py:65-66 | The assessment follows "整体评估" in both formats, defaulting to "未能生成评估报告". |
| SimpleReport.ActionBlocks | simple_report.py:69-75 | "优先整改事项" is followed by one bullet per action, or by "暂无优先整改事项". |
| SimpleReport.DetailSection | simple_report.py:80-84 | The "违规详情" section exists iff there are violations, and then carries the details. |
| SimpleReport.ViolationFrame | simple_report.py:86-90 | Heading "<i>. <type or 违规> - <category or 建筑安全违规">, 1-based, then "违规描述: <description or 无描述>"; the last block is a spacer. |
| SimpleReport.ViolationRegulations | simple_report.py:93-98 | Regulation bullets "• code article: content" appear iff there are regulations. |
| SimpleReport.ViolationSuggestionsAndRisk | simple_report.py:101-110 | Suggestion bullets appear iff there are suggestions, and the risk line iff the risk level is a non-empty string. |
| SimpleReport.ViolationBullets | simple_report.py:93-105 | A violation has as many bullets as regulations plus suggestions. |
| StatisticsCard.SafetyLevel | client/src/components/StatisticsCard.tsx:19-24 | 优秀 iff ≥ 90, 良好 iff 80-89, 合格 iff 60-79, 不合格 iff < 60. |
| StatisticsCard.SafetyLevelMonotone | client/src/components/StatisticsCard.tsx:19-24 | A higher score never gets a lower level. |
| StatisticsCard.ProgressColor | client/src/components/StatisticsCard.tsx:30-34 | Green iff ≥ 80, amber iff 60-79, red iff < 60. |
| StatisticsCard.ProgressColorFollowsLevel | client/src/components/StatisticsCard.tsx:19-34 | Green iff the level is one of the two best, amber iff passing, red iff failing. The bar has the level card's colour for the two lower levels. |
| StatisticsCard.FallbackScoreLevel | client/src/components/StatisticsCard.tsx:19-24 | A fallback score with a severe violation is never excellent. Violations weighing 50 points fail. |
| StatisticsCard.TotalColor | client/src/components/StatisticsCard.tsx:142 | The total is red iff there are violations, otherwise green. |
| StatisticsCard.HighRisk | client/src/components/StatisticsCard.tsx:93-97 | The "高风险项目" badge shows iff `severe_count > 0`. `FallbackScoreLevel` states that a record with a severe violation and a fallback score is then never rated excellent. |
| StatisticsCard.ShareTenths | client/src/components/StatisticsCard.tsx:148 | The share in tenths of a percent, rounded to the nearest tenth. With no violations it is 0, with no division by zero. |
| StatisticsCard.ShareBounded | client/src/components/StatisticsCard.tsx:148-157 | A share of a part lies in 0-100 %. |
| StatisticsCard.SharesOfCounts | client/src/components/StatisticsCard.tsx:145-161 | Both shares of a normalised record's counts lie in 0-100 %. |
| StatisticsCard.Recommendations | client/src/components/StatisticsCard.tsx:176-199 | Shown iff there is a violation of either kind. The severe line appears iff severe > 0 and the ordinary line iff normal > 0; the two general lines always close the block. |
| UploadRoute.FileFilter | routes/upload.js:43-58 | Accepts exactly the five image MIME types. Any other type is rejected with the format message. |
| UploadRoute.FilterAcceptsOnlyImages | routes/upload.js:45-53 | An accepted type starts with "image/". |
| UploadRoute.MaxSize | routes/upload.js:209 | `parseInt(MAX_FILE_SIZE) \|\| 20 MiB`: the default when the value is missing, NaN or 0. |
| UploadRoute.RoundedMiB | routes/upload.js:213 | `Math.round(maxSize / 1024 / 1024)`: the nearest whole MiB. |
| UploadRoute.RoundedMiBDefault | routes/upload.js:209-213 | The default limit is reported as 20 MB. |
| UploadRoute.ParseDataUrl | routes/upload.js:173 | A match gives a non-empty letters-only type and a non-empty single-line payload. |
| UploadRoute.ParseDataUrlSound | routes/upload.js:173-182 | A matched string is exactly "data:image/<type>;base64,<payload>". |
| UploadRoute.ParseDataUrlComplete | routes/upload.js:173-182 | Every such string matches, and gives back its type and payload. |
| UploadRoute.Extension | routes/upload.js:195 | "jpg" exactly for "jpeg" and "jpg". Every other type is kept verbatim, so "JPEG" stays "JPEG". |
| UploadRoute.ExtensionAllowed | routes/upload.js:185-195 | The extension of an allowed type is itself allowed. |
| UploadRoute.TypeAllowed | routes/upload.js:185-186 | `allowedTypes.includes(imageType.toLowerCase())`. Its use is stated by the 400 ensures of `Base64Upload`, and its letter case by `TypeAllowedIgnoresCase`. |
| UploadRoute.TypeAllowedIgnoresCase | routes/upload.js:185-186 | A type is allowed exactly when its lower-case spelling is, so "PNG" and "png" are treated alike. |
| UploadRoute.FileName | routes/upload.js:196-198 | "<name>_<suffix>.<ext>" when a filename is given, else "construction_<now>_<suffix>.<ext>": the result starts with the head, ends with the tail and is exactly as long as both, so it is their concatenation. |
| UploadRoute.StoredName | routes/upload.js:34-39 | The multer name is "construction_<now>_<suffix>" followed by the original extension, and nothing else. |
| UploadRoute.CompressedPath | routes/upload.js:82 | "_compressed" goes before the last extension. Without one, the path is unchanged. |
| UploadRoute.CompressedPathOfExtension | routes/upload.js:82 | "stem.ext" becomes "stem_compressed.ext". |
| UploadRoute.ProcessImage | routes/upload.js:71-109 | Below 480x360 the image is refused. Above 2048 on either side it is compressed to the rewritten path. Metadata errors pass through. |
| UploadRoute.RefusalBeforeCompression | routes/upload.js:76-81 | A narrow, tall image is refused, never compressed. |
| UploadRoute.Base64Upload | routes/upload.js:161-248 | Success iff status 200 iff data is present, and there is always a message. Missing data, a string that is not a data URL and a type that is not allowed each give 400 with their own message. |
| UploadRoute.Base64UploadAccepted | routes/upload.js:161-237 | 200 exactly when the data URL is valid, the type is allowed, the directory exists, the size is within the limit and the image passes processing. |
| UploadRoute.Base64UploadData | routes/upload.js:225-237 | The data of a 200 response: the generated name, its joined path and URL, the original name (or the generated one), the decoded size, which is within the limit, and the metadata read from the stored file. |
| UploadRoute.Base64SizeLimit | routes/upload.js:208-215 | A valid upload is refused for size exactly when it is strictly longer than the limit, with the rounded-MB message. |
| UploadRoute.TooLarge | routes/upload.js:210 | `buffer.length > maxSize`, strict. `Base64SizeLimit` states that exactly such uploads get the 400. |
| UploadRoute.SizeMessage | routes/upload.js:213 | "文件大小超过限制 (<n>MB)" with `Math.round` of the limit in MiB, as `RoundedMiB` states. `Base64SizeLimit` states that it is the message of the 400. |
| UploadRoute.Base64ProcessFailure | routes/upload.js:212-246 | Past the directory and size checks, an image that `processImage` refuses or cannot read gives 500 with the error's message, or "Base64图片上传失败" when it is empty. |
| UploadRoute.Base64MkdirFailure | routes/upload.js:200-210 | A directory failure gives 500 "无法创建上传目录: <dir>, <err>", before the size is checked. |
| UploadRoute.SingleUpload | routes/upload.js:112-158 | No file gives 400 "请选择要上传的图片文件". A processing error gives 400 with its message, or "图片上传处理失败" when it is empty. Otherwise 200 with the stored file's name, original name, path, URL and size, and the metadata read from it. |
| UploadRoute.ErrorResponse | routes/upload.js:251-271 | LIMIT_FILE_SIZE and LIMIT_FILE_COUNT get their own messages. Every other error gets 400 with its own message or "文件上传失败". |
| UploadRoute.FilterErrorAnswered | routes/upload.js:53-57 | A rejected MIME type reaches the client as the filter's format message. |

## Left out

- File system, `sharp`, `multer`, axios and `child_process`. Directory creation, file writes, unlinks and renames, image decoding and resizing, and the Python subprocesses of /generate-report are all I/O. They become oracle parameters: metadata, decoded length, a mkdir error, a render result and a file-exists test.
- `JSON.parse`, and every field of the AI reply beyond the typed record. The parse is an oracle `string -> Option<Report>`, where None means it throws. A parsed value that is not an object, or has wrongly typed fields, is not modelled. This includes fields that are present but `null`. The JavaScript code treats such a field as missing. The Python report builders do not: their `.get(key, default)` returns `None` for a present `null`, so `"category": null` prints as "None", and `"summary": null` raises an AttributeError, which makes the renderer return False. The model has no `null` distinct from a missing field.
- The AI request itself: prompt, proxy settings, headers, the model configuration and the `setTimeout` waits between retries. Each call's outcome is a parameter: answered, timed out or failed.
- `Date.now()`, `new Date().toISOString()`, `datetime.now()` and `crypto.randomBytes` are parameters. `parseInt(process.env.MAX_FILE_SIZE)` is given already parsed, as `Option<int>`.
- Logging (`console.*`, `print`), the `error.stack` field in development mode and the processing-time record.
- python-docx and reportlab styling: heading levels, fonts, sizes, colours, margins, column widths, alignment and table styles. A heading is one block kind whatever its level, and only the font name chosen by the probe is modelled.
- React rendering, the antd components, `message.config` and the back-to-top button. Notices are returned values; `message.destroy()` is the `clearsOthers` flag.
- GET /history returns an empty stub, and the other client calls in client/src/services/api.ts are plain HTTP wrappers.
- StatisticsCard.ShareTenths: `toFixed(1)` on a binary float is not modelled. The share is rounded exactly, halves up, so a float that lies just below a tie may print differently.
- ApiClient.CancelTokenManager: the source keeps one static map for the whole client; the model has one instance. Controllers are numbered and their `abort()` is recorded in a set.
- UploadRoute.ProcessImage: the cleanup when processing fails, and a failure of `sharp` when the compressed path equals the original (a path without an extension), are not modelled.
- UploadRoute.Base64Upload: `Buffer.from(..., 'base64')` is the oracle `decodedLength`, and the validity of the Base64 payload is not checked, as in the source.
- AnalyzeRoute.RemoveAll: its own contract only bounds the length. What survives is stated by lemmas: RemoveAllKeepsOther for text without the pattern's first character, RemoveAllPlainPrefix for the text before it, RemoveAllDropsOccurrence for a complete occurrence and RemoveAllKeepsShort for text shorter than the pattern. No lemma covers a partial prefix of the pattern that does not complete it.
- Paths.NodeJoin and Paths.Normalize: the contracts say that the result is never empty and that absolute paths stay absolute. The segment resolution of `normalize` (dropping "." and "", resolving "..") is in the body but is not stated as a contract.
- AnalyzeRoute.AnalyzeBatch: its first two ensures give the response for a refused batch, but they do not prove that the two refusal messages differ.
- AnalyzeRoute.GenerateReport: `format.toUpperCase()` in the log line throws for a non-string format; formats are strings here.
- ReportGenerator.GenerateReport and SimpleReport.GenerateReport: the default arguments of `generate_report` (`format_type="word"`, `output_dir="./reports"` in report_generator.py; `format_type='pdf'`, `output_dir='./temp'` in simple_report.py) are not modelled. The format and the directory are always passed.
- ApiClient.WithRetry: the default arguments `retries = 3` and `delay = 1000` are not modelled; both are parameters, and no call in the client relies on the defaults.
- SimpleReport.ResolveFont: the four candidate Windows paths are a parameter of the loop (`FontPaths` for the real list). Whether a path exists or registers is an oracle.

## Findings

| source | as written | input that shows it | evidently intended | confidence | as-written member | corrected member |
|---|---|---|---|---|---|---|
| routes/analyze.js:251-257 | `parseTextResponse` calls `generateMockAnalysis(null)`, whose `path.basename(null)` (line 85) throws a TypeError. So a reply with no `{...}` or with invalid JSON makes `parseAIResponse` throw instead of returning the mock. | the AI reply `""` (no object text) | the fallback returns the mock analysis | not executed | AnalyzeRoute.ReplyAsWrittenDiffers | AnalyzeRoute.Reply |
| routes/analyze.js:361-377 | Once the key is set, a failed parse inside `analyzeWithAI` is caught and the handler returns `generateMockAnalysis(imagePath)`. For a URL-only request, `imagePath` is null, so that call throws again and the request ends in 500. `AnalyzeWithAIAsWritten` models this code. | an empty AI answer for an image given by a URL outside /uploads/ | the mock analysis is returned | not executed | AnalyzeRoute.UrlRequestFailsAsWritten | AnalyzeRoute.AnalyzeWithAI |
