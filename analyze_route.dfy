/** routes/analyze.js: normalising the AI service's reply into an analysis record, the mock analysis
    that stands in for it, the retry policy around the AI call, and the request handling of the single,
    batch and report-generation endpoints. */
module AnalyzeRoute {
  import opened Wrappers
  import opened Text
  import opened Paths
  import opened Analysis

  // ---------------------------------------------------------------------------------------------
  // Cleaning the reply text

  const Fence: string := "```"
  const JsonFence: string := "```json"

  /** JavaScript `s.replace(/<pat>\n?/g, '')` for a literal pattern: the occurrences are found left to
      right without overlapping, and each is removed together with one newline right after it. */
  function RemoveAll(s: string, pat: string): (r: string)
    requires pat != []
    ensures |r| <= |s|
    decreases |s|
  {
    if |pat| <= |s| && s[..|pat|] == pat then
      var rest := s[|pat|..];
      RemoveAll(if rest != [] && rest[0] == '\n' then rest[1..] else rest, pat)
    else if s == [] then []
    else [s[0]] + RemoveAll(s[1..], pat)
  }

  /** Text in which the pattern's first character never occurs comes through unchanged. */
  lemma {:induction false} RemoveAllKeepsOther(s: string, pat: string)
    requires pat != []
    requires forall i :: 0 <= i < |s| ==> s[i] != pat[0]
    ensures RemoveAll(s, pat) == s
    decreases |s|
  {
    if s != [] {
      if |pat| <= |s| {
        assert s[..|pat|][0] == s[0];
      }
      RemoveAllKeepsOther(s[1..], pat);
    }
  }

  /** Text before the first possible start of the pattern is copied, and the rest is handled on its own. */
  lemma {:induction false} RemoveAllPlainPrefix(a: string, b: string, pat: string)
    requires pat != []
    requires forall i :: 0 <= i < |a| ==> a[i] != pat[0]
    ensures RemoveAll(a + b, pat) == a + RemoveAll(b, pat)
    decreases |a|
  {
    if a != [] {
      var s := a + b;
      if |pat| <= |s| {
        assert s[..|pat|][0] == a[0];
      }
      assert !(|pat| <= |s| && s[..|pat|] == pat);
      assert RemoveAll(s, pat) == [a[0]] + RemoveAll(s[1..], pat);
      assert s[1..] == a[1..] + b;
      RemoveAllPlainPrefix(a[1..], b, pat);
      assert [a[0]] + (a[1..] + RemoveAll(b, pat)) == ([a[0]] + a[1..]) + RemoveAll(b, pat);
      assert a == [a[0]] + a[1..];
    } else {
      assert a + b == b;
    }
  }

  /** The first occurrence of the pattern is dropped, with one newline right after it, and the text
      before it is kept. */
  lemma RemoveAllDropsOccurrence(a: string, pat: string, b: string)
    requires pat != []
    requires forall i :: 0 <= i < |a| ==> a[i] != pat[0]
    ensures RemoveAll(a + pat + b, pat) == a + RemoveAll(if b != [] && b[0] == '\n' then b[1..] else b, pat)
  {
    assert a + pat + b == a + (pat + b);
    RemoveAllPlainPrefix(a, pat + b, pat);
    var s := pat + b;
    assert s[..|pat|] == pat && s[|pat|..] == b;
  }

  /** No three backticks in a row. */
  predicate NoTriple(t: string) {
    forall i :: 0 <= i < |t| - 2 ==> !(t[i] == '`' && t[i + 1] == '`' && t[i + 2] == '`')
  }

  /** What remains of a text after removing fences starts with a backtick only if the text did. */
  lemma FenceHead(x: string)
    ensures RemoveAll(x, Fence) != [] && RemoveAll(x, Fence)[0] == '`' ==> x != [] && x[0] == '`'
  {
    if |x| >= 3 && x[..3] == Fence {
      assert x[0] == x[..3][0];
    }
  }

  /** A backtick-free head character is copied and the rest is cleaned on its own. */
  lemma RemoveAllCopies(s: string)
    requires s != [] && !(|s| >= 3 && s[..3] == Fence)
    ensures RemoveAll(s, Fence) == [s[0]] + RemoveAll(s[1..], Fence)
  {
  }

  /** A character put in front of a text without "```" makes none unless it and the next two are all
      backticks. */
  lemma NoTripleCons(c: char, t: string)
    requires NoTriple(t)
    requires !(c == '`' && |t| >= 2 && t[0] == '`' && t[1] == '`')
    ensures NoTriple([c] + t)
  {
    var r := [c] + t;
    forall i | 0 <= i < |r| - 2
      ensures !(r[i] == '`' && r[i + 1] == '`' && r[i + 2] == '`')
    {
      if i > 0 {
        assert r[i] == t[i - 1] && r[i + 1] == t[i] && r[i + 2] == t[i + 1];
      }
    }
  }

  /** When a text does not start with "```", cleaning its tail cannot give two backticks right after
      a leading backtick. */
  lemma NoFenceAfterBacktick(s: string)
    requires s != [] && !(|s| >= 3 && s[..3] == Fence)
    ensures var t := RemoveAll(s[1..], Fence);
      !(s[0] == '`' && |t| >= 2 && t[0] == '`' && t[1] == '`')
  {
    var s1 := s[1..];
    var t := RemoveAll(s1, Fence);
    if s[0] == '`' && |t| >= 2 && t[0] == '`' && t[1] == '`' {
      FenceHead(s1);
      if |s| == 2 {
        RemoveAllCopies(s1);
      } else {
        assert s[2] != '`';
        RemoveAllCopies(s1);
        FenceHead(s1[1..]);
        assert false;
      }
    }
  }

  /** After every "```" has been removed, no "```" is left, even where removing one brought backticks
      together. */
  lemma {:induction false} NoFenceLeft(s: string)
    ensures NoTriple(RemoveAll(s, Fence))
    decreases |s|
  {
    if |s| >= 3 && s[..3] == Fence {
      var rest := s[3..];
      NoFenceLeft(if rest != [] && rest[0] == '\n' then rest[1..] else rest);
    } else if s != [] {
      NoFenceLeft(s[1..]);
      RemoveAllCopies(s);
      NoFenceAfterBacktick(s);
      NoTripleCons(s[0], RemoveAll(s[1..], Fence));
    }
  }

  lemma NoTripleNoFence(t: string)
    requires NoTriple(t)
    ensures !Contains(t, Fence)
  {
    forall i | 0 <= i <= |t| - 3
      ensures !OccursAt(t, Fence, i)
    {
      assert t[i..i + 3] == [t[i], t[i + 1], t[i + 2]];
    }
  }

  /** The markdown cleaning: every "```json" and then every "```" is removed, each with one following
      newline. No "```" survives it. */
  function Clean(text: string): (r: string)
    ensures !Contains(r, Fence)
  {
    var r := RemoveAll(RemoveAll(text, JsonFence), Fence);
    NoFenceLeft(RemoveAll(text, JsonFence));
    NoTripleNoFence(r);
    r
  }

  /** A reply without backticks is left as it is. */
  lemma CleanKeepsPlainText(text: string)
    requires forall i :: 0 <= i < |text| ==> text[i] != '`'
    ensures Clean(text) == text
  {
    RemoveAllKeepsOther(text, JsonFence);
    RemoveAllKeepsOther(text, Fence);
  }

  /** Text shorter than the pattern contains no occurrence and is kept. */
  lemma {:induction false} RemoveAllKeepsShort(s: string, pat: string)
    requires pat != [] && |s| < |pat|
    ensures RemoveAll(s, pat) == s
    decreases |s|
  {
    if s != [] {
      RemoveAllKeepsShort(s[1..], pat);
    }
  }

  /** The first pass over a fenced reply removes only the opening "```json" and its newline. */
  lemma JsonPassOfFencedReply(tn: string)
    requires forall i :: 0 <= i < |tn| ==> tn[i] != '`'
    ensures RemoveAll(JsonFence + "\n" + tn + Fence, JsonFence) == tn + Fence
  {
    FencedReplySplit(tn);
    JsonPassDropsOpening(tn);
    JsonPassKeepsBody(tn);
  }

  lemma FencedReplySplit(tn: string)
    ensures JsonFence + "\n" + tn + Fence == [] + JsonFence + ("\n" + (tn + Fence))
  {
  }

  lemma JsonPassDropsOpening(tn: string)
    ensures RemoveAll(JsonFence + ("\n" + (tn + Fence)), JsonFence) == RemoveAll(tn + Fence, JsonFence)
  {
    var rest := tn + Fence;
    RemoveAllDropsOccurrence([], JsonFence, "\n" + rest);
    assert ("\n" + rest)[1..] == rest;
  }

  /** A closing "```" is too short to be taken for "```json". */
  lemma JsonPassKeepsBody(tn: string)
    requires forall i :: 0 <= i < |tn| ==> tn[i] != '`'
    ensures RemoveAll(tn + Fence, JsonFence) == tn + Fence
  {
    RemoveAllPlainPrefix(tn, Fence, JsonFence);
    RemoveAllKeepsShort(Fence, JsonFence);
  }

  /** The second pass removes the closing "```". */
  lemma FencePassOfFencedReply(tn: string)
    requires forall i :: 0 <= i < |tn| ==> tn[i] != '`'
    ensures RemoveAll(tn + Fence, Fence) == tn
  {
    RemoveAllDropsOccurrence(tn, Fence, []);
    assert tn + Fence + [] == tn + Fence;
    assert RemoveAll([], Fence) == [];
  }

  /** A reply fenced as a markdown JSON block loses its fences and keeps its content, followed by the
      newline that preceded the closing fence. */
  lemma CleanFencedReply(t: string)
    requires forall i :: 0 <= i < |t| ==> t[i] != '`'
    ensures Clean(JsonFence + "\n" + t + "\n" + Fence) == t + "\n"
  {
    var tn := t + "\n";
    forall i | 0 <= i < |tn|
      ensures tn[i] != '`'
    {
      if i < |t| {
        assert tn[i] == t[i];
      }
    }
    assert JsonFence + "\n" + t + "\n" + Fence == JsonFence + "\n" + tn + Fence;
    JsonPassOfFencedReply(tn);
    FencePassOfFencedReply(tn);
  }

  /** The match of `/\{[\s\S]*\}/`: from the first '{' to the last '}' after it, both included, given as
      the index of each; none when no '{' comes before a '}'. */
  function ObjectSpan(s: string): (r: Option<(int, int)>)
    ensures r.Some? ==>
              0 <= r.value.0 < r.value.1 < |s| && s[r.value.0] == '{' && s[r.value.1] == '}'
              && (forall k :: 0 <= k < r.value.0 ==> s[k] != '{')
              && (forall k :: r.value.1 < k < |s| ==> s[k] != '}')
    ensures r.None? ==> forall i, j :: 0 <= i < j < |s| && s[i] == '{' ==> s[j] != '}'
  {
    var i := FirstIndexOf(s, '{');
    var j := LastIndexOf(s, '}');
    if 0 <= i < j then Some((i, j)) else None
  }

  /** The matched text, which opens with '{' and closes with '}'. */
  function ObjectText(s: string): (r: Option<string>)
    ensures r.Some? ==> |r.value| >= 2 && r.value[0] == '{' && r.value[|r.value| - 1] == '}'
    ensures r.None? <==> ObjectSpan(s).None?
  {
    match ObjectSpan(s)
    case None => None
    case Some((i, j)) => Some(s[i..j + 1])
  }

  // ---------------------------------------------------------------------------------------------
  // Normalising the parsed record

  /** The summary put in place of a missing one. */
  function DefaultSummary(): Summary {
    Summary(Some(0), Some(0), Some(100), Some("未能生成评估报告"), Some([]))
  }

  /** `Math.max(0, 100 - severe * 20 - normal * 10)`. */
  function FallbackScore(severe: nat, normal: nat): (r: int)
    ensures 0 <= r <= 100
    ensures r == 0 <==> 20 * severe + 10 * normal >= 100
  {
    var x := 100 - 20 * severe - 10 * normal;
    if x > 0 then x else 0
  }

  /** More violations of either kind never raise the score. */
  lemma FallbackScoreMonotone(s1: nat, n1: nat, s2: nat, n2: nat)
    requires s1 <= s2 && n1 <= n2
    ensures FallbackScore(s2, n2) <= FallbackScore(s1, n1)
  {
  }

  /** `!total_score || total_score === 0`: the score is missing or zero. */
  predicate ScoreFalsy(score: Option<int>) {
    score.None? || score == Some(0)
  }

  /** A record as the normalisation leaves it: both parts present, the two counts recomputed from the
      violation types, and a score present. */
  predicate Normal(q: Report) {
    q.violations.Some? && q.summary.Some?
    && q.summary.value.severeCount == Some(CountType(q.violations.value, SevereType))
    && q.summary.value.normalCount == Some(CountType(q.violations.value, NormalType))
    && q.summary.value.totalScore.Some?
  }

  /** The fix-ups on a parsed record: a missing violation list becomes empty, a missing summary becomes
      the default one, the two counts are recomputed, and a missing or zero score is replaced by the
      fallback score. Nothing else changes. */
  function Normalised(p: Report): (q: Report)
    ensures Normal(q)
    ensures q.violations == Some(p.violations.GetOr([]))
    ensures q.(violations := p.violations, summary := p.summary) == p
  {
    var vs := p.violations.GetOr([]);
    var s0 := if p.summary.Some? then p.summary.value else DefaultSummary();
    var severe := CountType(vs, SevereType);
    var normal := CountType(vs, NormalType);
    var score := if ScoreFalsy(s0.totalScore) then Some(FallbackScore(severe, normal)) else s0.totalScore;
    p.(violations := Some(vs),
       summary := Some(s0.(severeCount := Some(severe), normalCount := Some(normal), totalScore := score)))
  }

  /** The score after normalisation: kept when the record had a non-zero one, otherwise the fallback
      computed from the recomputed counts, which lies in [0, 100]. The assessment and the priority
      actions are the record's own, or the defaults when the summary was missing. */
  lemma NormalisedSummary(p: Report)
    ensures var q := Normalised(p);
      var s0 := if p.summary.Some? then p.summary.value else DefaultSummary();
      var s := q.summary.value;
      (ScoreFalsy(s0.totalScore) ==>
         s.totalScore == Some(FallbackScore(s.severeCount.value, s.normalCount.value)))
      && (!ScoreFalsy(s0.totalScore) ==> s.totalScore == s0.totalScore)
      && s.overallAssessment == s0.overallAssessment && s.priorityActions == s0.priorityActions
  {
  }

  /** Without a summary the score is 100 whatever the violations: the default score is not zero, so the
      fallback is not applied, while the counts are still recomputed. */
  lemma MissingSummaryScores100(p: Report)
    requires p.summary.None?
    ensures Normalised(p).summary.value.totalScore == Some(100)
    ensures Normalised(p).summary.value.overallAssessment == Some("未能生成评估报告")
  {
  }

  /** The two counts never add up to more than the number of violations. */
  lemma NormalisedCountsBounded(p: Report)
    ensures var q := Normalised(p);
      q.summary.value.severeCount.value + q.summary.value.normalCount.value <= |q.violations.value|
  {
    CountTypesDisjoint(p.violations.GetOr([]), SevereType, NormalType);
  }

  /** Normalising twice is normalising once: a fallback score of 0 is replaced by the same 0. */
  lemma NormalisedIdempotent(p: Report)
    ensures Normalised(Normalised(p)) == Normalised(p)
  {
  }

  /** A record that is already normal, with a non-zero score, is left exactly as it is. */
  lemma NormalIsFixed(p: Report)
    requires Normal(p) && p.summary.value.totalScore != Some(0)
    ensures Normalised(p) == p
  {
  }

  // ---------------------------------------------------------------------------------------------
  // The mock analysis

  function MockRegulation(article: string, content: string): Regulation {
    Regulation(Some("JGJ59-2011"), Some(article), Some(content))
  }

  const PitCategory: string := "基坑支护安全"
  const SiteCategory: string := "现场管理"
  const StackingRule: string := "施工现场材料应分类堆放整齐，保持通道畅通"
  const MediumRisk: string := "中等风险（可能导致轻微伤害）"

  /** The five violations of the mock analysis: two severe ones about the excavation, then three ordinary
      ones about site management. */
  function MockViolations(): seq<Violation> {
    MockSevere() + MockOrdinary()
  }

  function MockSevere(): (vs: seq<Violation>)
    ensures |vs| == 2 && forall i :: 0 <= i < |vs| ==> vs[i].vtype == Some(SevereType)
  {
    [Violation(Some(SevereType), Some(PitCategory),
               Some("沟槽深度超过1.5m，两侧边缘未设置标准防护栏杆，工人直接在沟槽内作业存在严重安全隐患"),
               Some([100, 100, 300, 220]),
               Some([MockRegulation("4.1.3", "基坑深度超过1.5m时，必须设置安全防护栏杆，高度不低于1.2米")]),
               Some(["立即在基坑边缘设置安全防护栏杆", "设置明显的安全警示标识", "加强现场安全巡查"]),
               Some("high"), Some("极高风险（可能导致人员伤亡）")),
     Violation(Some(SevereType), Some(PitCategory),
               Some("沟槽侧壁垂直开挖，未采取放坡或支护措施，存在坍塌风险，且沟槽内积水未及时排除"),
               Some([60, 120, 340, 260]),
               Some([MockRegulation("4.1.4", "基坑开挖应采取放坡或支护措施，严禁垂直开挖")]),
               Some(["立即停止垂直开挖作业", "采取放坡或支护措施", "进行安全技术交底"]),
               Some("high"), Some("极高风险（可能导致坍塌事故）"))]
  }

  function MockOrdinary(): (vs: seq<Violation>)
    ensures |vs| == 3 && forall i :: 0 <= i < |vs| ==> vs[i].vtype == Some(NormalType)
  {
    [Violation(Some(NormalType), Some(SiteCategory),
               Some("VC管材、木质板材、金属盖板等材料未分类堆放"),
               Some([80, 280, 200, 350]),
               Some([MockRegulation("4.1.2", StackingRule)]),
               Some(["立即整理材料，按类型分类堆放", "设置明显的材料标识", "定期清理现场杂物"]),
               Some("medium"), Some(MediumRisk)),
     Violation(Some(NormalType), Some(SiteCategory),
               Some("通道上放置手推车、铁锹等工具，通道宽度不足"),
               Some([250, 300, 380, 370]),
               Some([MockRegulation("4.1.2", StackingRule)]),
               Some(["清理通道上的工具和材料", "确保通道宽度符合安全要求", "设置专门的工具存放区域"]),
               Some("medium"), Some(MediumRisk)),
     Violation(Some(NormalType), Some(SiteCategory),
               Some("基坑边缘、材料堆放区等危险部位未设置安全警示标识"),
               Some([400, 200, 520, 280]),
               Some([MockRegulation("4.1.2", StackingRule)]),
               Some(["在危险部位设置明显的安全警示标识", "整理基坑边缘的材料堆放", "加强现场安全管理"]),
               Some("medium"), Some(MediumRisk))]
  }

  function MockSummary(): Summary {
    Summary(Some(2), Some(3), Some(45),
            Some("现场存在多项安全风险，需要立即整改，特别是高空作业和基坑支护安全问题"),
            Some(["立即处理高空作业安全问题", "设置基坑安全防护栏杆", "规范材料堆放和临时用电管理"]))
  }

  /** The mock analysis, for any image: five violations, two of them severe, and a score of 45. */
  function MockAnalysis(): (r: Report)
    ensures r.violations == Some(MockViolations()) && |r.violations.value| == 5
    ensures r.summary.Some? && r.summary.value.severeCount == Some(2) && r.summary.value.normalCount == Some(3)
    ensures r.summary.value.totalScore == Some(45)
  {
    Report(None, None, None, None, Some(MockViolations()), Some(MockSummary()))
  }

  /** The mock's violations: two of the severe type and three of the ordinary type. */
  lemma MockCounts()
    ensures CountType(MockViolations(), SevereType) == 2
    ensures CountType(MockViolations(), NormalType) == 3
  {
    CountTypeAppend(MockSevere(), MockOrdinary(), SevereType);
    CountTypeAppend(MockSevere(), MockOrdinary(), NormalType);
  }

  /** The mock's summary agrees with its violations, so normalising the mock leaves it as it is. */
  lemma MockIsNormal()
    ensures Normal(MockAnalysis()) && MockAnalysis().summary.value.totalScore == Some(45)
    ensures Normalised(MockAnalysis()) == MockAnalysis()
  {
    MockCounts();
    NormalIsFixed(MockAnalysis());
  }

  /** `generateMockAnalysis(imagePath)` as written: it takes `path.basename(imagePath)` (and never uses
      it), which throws a TypeError when the path is null. */
  function GenerateMockAsWritten(imagePath: Option<string>): (r: Result<Report>)
    ensures r.Ok? <==> imagePath.Some?
    ensures r.Ok? ==> r.value == MockAnalysis()
  {
    if imagePath.None? then Err("The \"path\" argument must be of type string. Received null")
    else Ok(MockAnalysis())
  }

  /** `parseTextResponse(text)` as written: it calls `generateMockAnalysis(null)`, so whatever the text
      it throws instead of handing back the mock analysis. */
  function ParseTextResponseAsWritten(text: string): (r: Result<Report>)
    ensures r.Err?
  {
    GenerateMockAsWritten(None)
  }

  /** The fallback as intended: the mock analysis, whose counts agree with its violations. */
  function ParseTextResponse(text: string): (r: Report)
    ensures Normal(r) && r.violations == Some(MockViolations())
  {
    MockIsNormal();
    MockAnalysis()
  }

  // ---------------------------------------------------------------------------------------------
  // Parsing the reply

  /** Whether the text, trimmed and cleaned of fences, holds an object text that parses. */
  predicate Parses(aiText: string, parse: string -> Option<Report>) {
    var json := ObjectText(Clean(Trim(aiText)));
    json.Some? && parse(json.value).Some?
  }

  /** The record `parseAIResponse(aiText)` returns; `parse` stands for `JSON.parse` (None: it throws).
      The text is trimmed, cleaned of fences, and its object text parsed and normalised; when there is no
      object text or it does not parse, the fallback is taken. Either way the record comes out normal. */
  function Reply(aiText: string, parse: string -> Option<Report>): (r: Report)
    ensures Normal(r)
    ensures Parses(aiText, parse) ==> r == Normalised(parse(ObjectText(Clean(Trim(aiText))).value).value)
    ensures !Parses(aiText, parse) ==> r == MockAnalysis()
  {
    MockIsNormal();
    match ObjectText(Clean(Trim(aiText)))
    case None => ParseTextResponse(aiText)
    case Some(json) =>
      match parse(json)
      case None => ParseTextResponse(aiText)
      case Some(p) => Normalised(p)
  }

  /** The reply as written, with the fallback that throws. It fails exactly when the fallback is taken,
      and otherwise agrees with the corrected reply. */
  function ReplyAsWritten(aiText: string, parse: string -> Option<Report>): (r: Result<Report>)
    ensures r.Ok? <==> Parses(aiText, parse)
    ensures r.Ok? ==> r.value == Reply(aiText, parse)
    ensures r.Err? ==> Reply(aiText, parse) == MockAnalysis()
  {
    match ObjectText(Clean(Trim(aiText)))
    case None => ParseTextResponseAsWritten(aiText)
    case Some(json) =>
      match parse(json)
      case None => ParseTextResponseAsWritten(aiText)
      case Some(p) => Ok(Normalised(p))
  }

  /** An empty reply has no object text. */
  lemma EmptyReplyHasNoObject()
    ensures ObjectText(Clean(Trim(""))) == None
  {
    assert |Trim("")| == 0;
    CleanKeepsPlainText("");
    assert ObjectSpan("").None?;
  }

  lemma ReplyAsWrittenDiffers(parse: string -> Option<Report>)
    ensures ReplyAsWritten("", parse).Err?
    ensures Reply("", parse) == MockAnalysis()
  {
    EmptyReplyHasNoObject();
  }

  /** `parseAIResponse`: the missing lists and summary are filled in, the counts recomputed and a falsy
      score replaced, one field at a time as the source mutates `parsed`. */
  method ParseAIResponse(aiText: string, parse: string -> Option<Report>) returns (r: Report)
    ensures r == Reply(aiText, parse)
  {
    var cleanText := Clean(Trim(aiText));
    var jsonMatch := ObjectText(cleanText);
    if jsonMatch.None? {
      return ParseTextResponse(aiText);
    }
    var parsedOrNone := parse(jsonMatch.value);
    if parsedOrNone.None? {
      return ParseTextResponse(aiText);
    }
    r := Patch(parsedOrNone.value);
  }

  /** The patching of the parsed record in `parseAIResponse`. */
  method Patch(parsed: Report) returns (r: Report)
    ensures r == Normalised(parsed)
  {
    var violations := if parsed.violations.None? then [] else parsed.violations.value;
    var summary := if parsed.summary.None? then DefaultSummary() else parsed.summary.value;
    var severeCount := CountType(violations, SevereType);
    var normalCount := CountType(violations, NormalType);
    summary := summary.(severeCount := Some(severeCount));
    summary := summary.(normalCount := Some(normalCount));
    if ScoreFalsy(summary.totalScore) {
      summary := summary.(totalScore := Some(FallbackScore(severeCount, normalCount)));
    }
    return parsed.(violations := Some(violations), summary := Some(summary));
  }

  // ---------------------------------------------------------------------------------------------
  // The AI call and its retries

  /** What one call to the AI service ends in: a reply's content, a reply without choices, a timeout
      (code ECONNABORTED or a message mentioning "timeout"), an error response from the service, or any
      other failure (the image cannot be read or fetched, the connection fails). */
  datatype Attempt = Answered(content: string) | NoChoices | TimedOut | ErrorResponse | Failed

  const MaxRetries: nat := 2

  /** The call of `analyzeWithAI(…, retryCount)` whose reply is used: the first one that answers,
      provided only timeouts came before it, each retried while `retryCount < 2`; none without a key, or
      when a call fails otherwise or the last retry times out. `attempt(k)` is how call `k` ends. */
  function AnsweringCall(hasKey: bool, attempt: nat -> Attempt, retryCount: nat): (k: Option<nat>)
    ensures k.Some? ==>
              retryCount <= k.value && (k.value == retryCount || k.value <= MaxRetries)
              && attempt(k.value).Answered?
              && forall j :: retryCount <= j < k.value ==> attempt(j).TimedOut?
    ensures hasKey && attempt(retryCount).Answered? ==> k == Some(retryCount)
    ensures forall m ::
              (hasKey && retryCount <= m && (m == retryCount || m <= MaxRetries)
               && (forall j :: retryCount <= j < m ==> attempt(j).TimedOut?) && attempt(m).Answered?)
              ==> k == Some(m)
    ensures !hasKey ==> k.None?
    decreases if retryCount < MaxRetries then MaxRetries - retryCount else 0
  {
    if !hasKey then None
    else
      match attempt(retryCount)
      case Answered(_) => Some(retryCount)
      case TimedOut => if retryCount < MaxRetries then AnsweringCall(hasKey, attempt, retryCount + 1) else None
      case _ => None
  }

  /** The record `analyzeWithAI` settles on, with the mock as intended: the reply of the answering call,
      or the mock analysis when there is none. It never throws, and the record is always normal. */
  function AnalyzeWithAI(hasKey: bool, attempt: nat -> Attempt, parse: string -> Option<Report>): (r: Report)
    ensures Normal(r)
    ensures AnsweringCall(hasKey, attempt, 0).None? ==> r == MockAnalysis()
    ensures AnsweringCall(hasKey, attempt, 0).Some? ==>
              r == Reply(attempt(AnsweringCall(hasKey, attempt, 0).value).content, parse)
  {
    MockIsNormal();
    match AnsweringCall(hasKey, attempt, 0)
    case Some(k) => Reply(attempt(k).content, parse)
    case None => MockAnalysis()
  }

  /** `analyzeWithAI(imageUrl, imagePath)` as written: every fallback, including the one taken when the
      reply's own fallback throws, is `generateMockAnalysis(imagePath)`, which throws without a path. With
      a path it is the corrected analysis; without one it succeeds only when the answer parses. */
  function AnalyzeWithAIAsWritten(hasKey: bool, attempt: nat -> Attempt, parse: string -> Option<Report>,
                                  imagePath: Option<string>): (r: Result<Report>)
    ensures r.Ok? ==> r.value == AnalyzeWithAI(hasKey, attempt, parse)
    ensures imagePath.Some? ==> r.Ok?
    ensures imagePath.None? ==>
              (r.Ok? <==> AnsweringCall(hasKey, attempt, 0).Some?
                          && Parses(attempt(AnsweringCall(hasKey, attempt, 0).value).content, parse))
  {
    match AnsweringCall(hasKey, attempt, 0)
    case Some(k) =>
      (match ReplyAsWritten(attempt(k).content, parse)
       case Ok(a) => Ok(a)
       case Err(_) => GenerateMockAsWritten(imagePath))
    case None => GenerateMockAsWritten(imagePath)
  }

  /** The number of calls `analyzeWithAI` makes from `retryCount` on: none without a key, one more after
      each timeout that may still be retried; never more than three from the first. */
  function CallsMade(hasKey: bool, attempt: nat -> Attempt, retryCount: nat): (n: nat)
    ensures retryCount <= MaxRetries ==> n <= MaxRetries + 1 - retryCount
    ensures hasKey <==> n >= 1
    ensures AnsweringCall(hasKey, attempt, retryCount).Some? ==>
              n == AnsweringCall(hasKey, attempt, retryCount).value - retryCount + 1
    decreases if retryCount < MaxRetries then MaxRetries - retryCount else 0
  {
    if !hasKey then 0
    else if attempt(retryCount).TimedOut? && retryCount < MaxRetries then 1 + CallsMade(hasKey, attempt, retryCount + 1)
    else 1
  }

  /** Only the first three calls matter: two call histories that agree on them settle on the same call. */
  lemma {:induction false} OnlyThreeCallsMatter(hasKey: bool, a: nat -> Attempt, b: nat -> Attempt, retryCount: nat)
    requires retryCount <= MaxRetries
    requires forall k :: retryCount <= k <= MaxRetries ==> a(k) == b(k)
    ensures AnsweringCall(hasKey, a, retryCount) == AnsweringCall(hasKey, b, retryCount)
    ensures CallsMade(hasKey, a, retryCount) == CallsMade(hasKey, b, retryCount)
    decreases MaxRetries - retryCount
  {
    if retryCount < MaxRetries {
      OnlyThreeCallsMatter(hasKey, a, b, retryCount + 1);
    }
  }

  /** Without a key, or when the first call fails other than by timing out, the mock is returned. */
  lemma MockWithoutAnswer(hasKey: bool, attempt: nat -> Attempt, parse: string -> Option<Report>)
    requires !hasKey || !(attempt(0).Answered? || attempt(0).TimedOut?)
    ensures AnalyzeWithAI(hasKey, attempt, parse) == MockAnalysis()
  {
  }

  // ---------------------------------------------------------------------------------------------
  // POST /

  /** A JSON response: its status, `success`, `message` and the analysis it carries. */
  datatype Response = Response(status: int, success: bool, message: string, analysis: Option<Report>)

  /** The local file to analyse: an explicit path wins; otherwise a URL containing "/uploads/" names the
      file of the same base name under the upload directory; otherwise there is none. */
  function TargetPath(imageUrl: Option<string>, imagePath: Option<string>, env: Option<string>,
                      defaultRoot: string): (r: Option<string>)
    ensures r.Some? <==> Truthy(imagePath) || (Truthy(imageUrl) && Contains(imageUrl.value, "/uploads/"))
    ensures Truthy(imagePath) ==> r == imagePath
    ensures !Truthy(imagePath) && Truthy(imageUrl) && Contains(imageUrl.value, "/uploads/") ==>
              r == Some(NodeJoin(UploadRoot(env, defaultRoot), Basename(imageUrl.value)))
  {
    if Truthy(imagePath) then imagePath
    else if Truthy(imageUrl) && Contains(imageUrl.value, "/uploads/") then
      Some(NodeJoin(UploadRoot(env, defaultRoot), Basename(imageUrl.value)))
    else None
  }

  /** With no explicit path, the target depends on the URL only through its base name. */
  lemma TargetPathUsesBaseName(u1: string, u2: string, env: Option<string>, defaultRoot: string)
    requires Contains(u1, "/uploads/") && Contains(u2, "/uploads/") && Basename(u1) == Basename(u2)
    ensures TargetPath(Some(u1), None, env, defaultRoot) == TargetPath(Some(u2), None, env, defaultRoot)
  {
  }

  /** The handler of POST / beneath the routing: `exists` is `fs.existsSync` and `analyse` the AI
      analysis, which may throw. */
  function AnalyzeImage(imageUrl: Option<string>, imagePath: Option<string>, env: Option<string>,
                        defaultRoot: string, fileExists: string -> bool,
                        analyse: (Option<string>, Option<string>) -> Result<Report>): (r: Response)
    ensures r.status == 400 <==>
              (!Truthy(imageUrl) && !Truthy(imagePath))
              || (TargetPath(imageUrl, imagePath, env, defaultRoot).Some?
                  && !fileExists(TargetPath(imageUrl, imagePath, env, defaultRoot).value))
    ensures r.success <==> r.status == 200
    ensures !Truthy(imageUrl) && !Truthy(imagePath) ==> r == Response(400, false, "请提供图片URL或图片路径", None)
    ensures (Truthy(imageUrl) || Truthy(imagePath)) && TargetPath(imageUrl, imagePath, env, defaultRoot).Some?
            && !fileExists(TargetPath(imageUrl, imagePath, env, defaultRoot).value) ==>
              r == Response(400, false, "指定的图片文件不存在", None)
    ensures r.status == 500 ==> r.message != ""
    ensures r.status != 400 ==>
              (r.status == 200 <==> analyse(imageUrl, TargetPath(imageUrl, imagePath, env, defaultRoot)).Ok?)
    ensures r.status != 400 && analyse(imageUrl, TargetPath(imageUrl, imagePath, env, defaultRoot)).Err? ==>
              var m := analyse(imageUrl, TargetPath(imageUrl, imagePath, env, defaultRoot)).message;
              r.status == 500 && r.message == (if m != "" then m else "图片分析失败")
  {
    if !Truthy(imageUrl) && !Truthy(imagePath) then Response(400, false, "请提供图片URL或图片路径", None)
    else
      var target := TargetPath(imageUrl, imagePath, env, defaultRoot);
      if target.Some? && !fileExists(target.value) then Response(400, false, "指定的图片文件不存在", None)
      else
        match analyse(imageUrl, target)
        case Ok(result) => Response(200, true, "分析完成", Some(result))
        case Err(m) => Response(500, false, if m != "" then m else "图片分析失败", None)
  }

  /** The analysis the response carries is the analyser's, asked about the URL and the resolved path. */
  lemma AnalyzeImageCarriesResult(imageUrl: Option<string>, imagePath: Option<string>, env: Option<string>,
                                  defaultRoot: string, fileExists: string -> bool,
                                  analyse: (Option<string>, Option<string>) -> Result<Report>)
    ensures var r := AnalyzeImage(imageUrl, imagePath, env, defaultRoot, fileExists, analyse);
      r.status == 200 ==>
        analyse(imageUrl, TargetPath(imageUrl, imagePath, env, defaultRoot)) == Ok(r.analysis.value)
  {
  }

  /** A service that answers every call with an empty reply. */
  function EmptyAnswer(k: nat): Attempt {
    Answered("")
  }

  /** Answered with an empty reply and asked without a path, the analysis as written throws, while the
      intended one gives the mock. */
  lemma EmptyAnswerFailsAsWritten(parse: string -> Option<Report>)
    ensures AnalyzeWithAIAsWritten(true, EmptyAnswer, parse, None).Err?
    ensures AnalyzeWithAI(true, EmptyAnswer, parse) == MockAnalysis()
  {
    assert AnsweringCall(true, EmptyAnswer, 0) == Some(0);
    EmptyReplyHasNoObject();
    assert !Parses("", parse);
  }

  /** An image given only by a URL outside /uploads/, for which the service answers with an empty
      reply: as written the request ends in 500, because both fallbacks throw without a path; with the
      mock as intended it succeeds. */
  lemma UrlRequestFailsAsWritten(url: string, env: Option<string>, defaultRoot: string,
                                 fileExists: string -> bool, parse: string -> Option<Report>)
    requires url != "" && !Contains(url, "/uploads/")
    ensures AnalyzeImage(Some(url), None, env, defaultRoot, fileExists,
                         (u, t) => AnalyzeWithAIAsWritten(true, EmptyAnswer, parse, t)).status == 500
    ensures AnalyzeImage(Some(url), None, env, defaultRoot, fileExists,
                         (u, t) => Ok(AnalyzeWithAI(true, EmptyAnswer, parse))).status == 200
  {
    EmptyAnswerFailsAsWritten(parse);
    assert TargetPath(Some(url), None, env, defaultRoot) == None;
    UnresolvedUrlAnswer(url, env, defaultRoot, fileExists,
                        (u, t) => AnalyzeWithAIAsWritten(true, EmptyAnswer, parse, t));
    UnresolvedUrlAnswer(url, env, defaultRoot, fileExists, (u, t) => Ok(AnalyzeWithAI(true, EmptyAnswer, parse)));
  }

  /** For a URL that resolves to no local file, the response is decided by the analysis alone. */
  lemma UnresolvedUrlAnswer(url: string, env: Option<string>, defaultRoot: string, fileExists: string -> bool,
                            analyse: (Option<string>, Option<string>) -> Result<Report>)
    requires url != "" && !Contains(url, "/uploads/")
    ensures var r := AnalyzeImage(Some(url), None, env, defaultRoot, fileExists, analyse);
      (analyse(Some(url), None).Err? ==> r.status == 500) && (analyse(Some(url), None).Ok? ==> r.status == 200)
  {
    assert TargetPath(Some(url), None, env, defaultRoot) == None;
  }

  // ---------------------------------------------------------------------------------------------
  // POST /batch

  datatype Image = Image(url: Option<string>, path: Option<string>)

  /** One result of the batch. A success records the resolved path; a failure records the image's own
      path field and the error message. */
  datatype Entry = Entry(index: nat, imageUrl: Option<string>, imagePath: Option<string>, outcome: Result<Report>)

  datatype BatchSummary = BatchSummary(totalImages: nat, successCount: nat, failedCount: nat, totalViolations: nat)

  datatype BatchResponse = BatchRejected(message: string) | BatchDone(message: string, results: seq<Entry>, summary: BatchSummary)

  const MaxBatch: nat := 10

  /** The entry for image `i`: its outcome is the analysis of the image's URL and resolved path. */
  function BatchEntry(i: nat, image: Image, env: Option<string>,
                      analyse: (Option<string>, Option<string>) -> Result<Report>): (r: Entry)
    ensures r.index == i && r.imageUrl == image.url
    ensures r.outcome == analyse(image.url, TargetPath(image.url, image.path, env, "./uploads"))
    ensures r.outcome.Ok? ==> r.imagePath == TargetPath(image.url, image.path, env, "./uploads")
    ensures r.outcome.Err? ==> r.imagePath == image.path
  {
    var target := TargetPath(image.url, image.path, env, "./uploads");
    match analyse(image.url, target)
    case Ok(a) => Entry(i, image.url, target, Ok(a))
    case Err(m) => Entry(i, image.url, image.path, Err(m))
  }

  /** The results of the batch, one per image in order. */
  function BatchEntries(images: seq<Image>, env: Option<string>,
                        analyse: (Option<string>, Option<string>) -> Result<Report>): (r: seq<Entry>)
    ensures |r| == |images|
  {
    if images == [] then []
    else BatchEntries(images[..|images| - 1], env, analyse)
         + [BatchEntry(|images| - 1, images[|images| - 1], env, analyse)]
  }

  /** Result `i` belongs to image `i`: its index is `i` and its outcome is the analysis of that image. */
  lemma {:induction false} BatchEntriesInOrder(images: seq<Image>, env: Option<string>,
                                               analyse: (Option<string>, Option<string>) -> Result<Report>)
    ensures forall i :: 0 <= i < |images| ==>
              BatchEntries(images, env, analyse)[i].index == i
              && BatchEntries(images, env, analyse)[i].outcome.Ok?
                 == analyse(images[i].url, TargetPath(images[i].url, images[i].path, env, "./uploads")).Ok?
    decreases |images|
  {
    if images != [] {
      BatchEntriesInOrder(images[..|images| - 1], env, analyse);
    }
  }

  /** `results.filter(r => r.success).length`. */
  function SuccessCount(results: seq<Entry>): (n: nat)
    ensures n <= |results|
  {
    if results == [] then 0
    else SuccessCount(results[..|results| - 1]) + (if results[|results| - 1].outcome.Ok? then 1 else 0)
  }

  /** The sum of the violation counts of the successful results: zero exactly when no successful
      result has a violation. */
  function TotalViolations(results: seq<Entry>): (n: nat)
    ensures n == 0 <==>
              forall i :: 0 <= i < |results| && results[i].outcome.Ok? ==> results[i].outcome.value.violations.GetOr([]) == []
  {
    if results == [] then 0
    else
      var e := results[|results| - 1];
      TotalViolations(results[..|results| - 1])
      + (if e.outcome.Ok? then |e.outcome.value.violations.GetOr([])| else 0)
  }

  /** A failed result adds no violations: the total is a sum over the successes only. */
  lemma {:induction false} TotalViolationsOfFailures(results: seq<Entry>)
    requires forall i :: 0 <= i < |results| ==> results[i].outcome.Err?
    ensures TotalViolations(results) == 0 && SuccessCount(results) == 0
    decreases |results|
  {
    if results != [] {
      TotalViolationsOfFailures(results[..|results| - 1]);
    }
  }

  function BatchMessage(success: nat, total: nat): string {
    "批量分析完成，成功分析 " + NatToString(success) + "/" + NatToString(total) + " 张图片"
  }

  /** The summary message tells both counts: two batches with the same message succeeded on as many
      images out of as many. */
  lemma BatchMessageReadsBack(s1: nat, t1: nat, s2: nat, t2: nat)
    requires BatchMessage(s1, t1) == BatchMessage(s2, t2)
    ensures s1 == s2 && t1 == t2
  {
    var head := "批量分析完成，成功分析 ";
    var tail := " 张图片";
    var a, b, c, e := NatToString(s1), NatToString(t1), NatToString(s2), NatToString(t2);
    assert BatchMessage(s1, t1) == head + (a + "/" + b + tail);
    assert BatchMessage(s2, t2) == head + (c + "/" + e + tail);
    assert a + "/" + b + tail == c + "/" + e + tail by {
      var m := BatchMessage(s1, t1);
      assert m[|head|..] == a + "/" + b + tail;
      assert m[|head|..] == c + "/" + e + tail;
    }
    DigitsAroundSlash(a, b, c, e, tail);
    NatToStringRoundTrip(s1);
    NatToStringRoundTrip(s2);
    NatToStringRoundTrip(t1);
    NatToStringRoundTrip(t2);
  }

  /** The first '/' after a digit string is the one that ends it. */
  lemma FirstSlash(a: string, rest: string)
    requires forall i :: 0 <= i < |a| ==> IsDigit(a[i])
    ensures FirstIndexOf(a + "/" + rest, '/') == |a|
  {
    var s := a + "/" + rest;
    assert s[|a|] == '/';
    assert forall j :: 0 <= j < |a| ==> s[j] == a[j];
  }

  /** A '/' between two digit strings, followed by a common tail, splits the text in one way only. */
  lemma DigitsAroundSlash(a: string, b: string, c: string, e: string, tail: string)
    requires forall i :: 0 <= i < |a| ==> IsDigit(a[i])
    requires forall i :: 0 <= i < |c| ==> IsDigit(c[i])
    requires a + "/" + b + tail == c + "/" + e + tail
    ensures a == c && b == e
  {
    var x := a + "/" + b + tail;
    FirstSlash(a, b + tail);
    FirstSlash(c, e + tail);
    assert a + "/" + (b + tail) == x == c + "/" + (e + tail);
    assert a == x[..|a|] == c;
    assert b + tail == x[|a| + 1..] == e + tail;
    assert b == (b + tail)[..|b|];
    assert e == (e + tail)[..|e|];
  }

  /** POST /batch: a missing or empty list and more than ten images are refused; otherwise each image
      is analysed in turn, a thrown error becoming a failed result, and the summary counts them. */
  method AnalyzeBatch(images: Option<seq<Image>>, env: Option<string>,
                      analyse: (Option<string>, Option<string>) -> Result<Report>) returns (resp: BatchResponse)
    ensures images.None? || images.value == [] ==> resp == BatchRejected("请提供要分析的图片列表")
    ensures images.Some? && |images.value| > MaxBatch ==> resp == BatchRejected("批量分析一次最多支持10张图片")
    ensures resp.BatchDone? <==> images.Some? && 1 <= |images.value| <= MaxBatch
    ensures resp.BatchDone? ==>
              var s := resp.summary;
              resp.results == BatchEntries(images.value, env, analyse)
              && s.totalImages == |images.value|
              && s.successCount == SuccessCount(resp.results)
              && s.successCount + s.failedCount == s.totalImages
              && s.totalViolations == TotalViolations(resp.results)
              && resp.message == BatchMessage(s.successCount, s.totalImages)
  {
    if images.None? || images.value == [] {
      return BatchRejected("请提供要分析的图片列表");
    }
    var imgs := images.value;
    if |imgs| > MaxBatch {
      return BatchRejected("批量分析一次最多支持10张图片");
    }
    var results: seq<Entry> := [];
    var i := 0;
    while i < |imgs|
      invariant 0 <= i <= |imgs|
      invariant results == BatchEntries(imgs[..i], env, analyse)
    {
      var image := imgs[i];
      var target := TargetPath(image.url, image.path, env, "./uploads");
      var outcome := analyse(image.url, target);
      var entry: Entry;
      if outcome.Ok? {
        entry := Entry(i, image.url, target, outcome);
      } else {
        entry := Entry(i, image.url, image.path, outcome);
      }
      assert entry == BatchEntry(i, image, env, analyse);
      assert imgs[..i + 1][..i] == imgs[..i];
      assert BatchEntries(imgs[..i + 1], env, analyse) == BatchEntries(imgs[..i], env, analyse) + [entry];
      results := results + [entry];
      i := i + 1;
    }
    assert imgs[..i] == imgs;
    var successCount := SuccessCount(results);
    var summary := BatchSummary(|imgs|, successCount, |imgs| - successCount, TotalViolations(results));
    return BatchDone(BatchMessage(successCount, |imgs|), results, summary);
  }

  // ---------------------------------------------------------------------------------------------
  // POST /generate-report

  datatype ReportResponse = ReportRejected(status: int, message: string)
                          | ReportSent(path: string, mimeType: string, fileName: string)

  const WordMime: string := "application/vnd.openxmlformats-officedocument.wordprocessingml.document"
  const PdfMime: string := "application/pdf"

  /** `new Date().toISOString().slice(0, 19).replace(/:/g, '-')`. */
  function FileStamp(iso: string): (r: string)
    ensures |r| == (if |iso| < 19 then |iso| else 19)
    ensures forall k :: 0 <= k < |r| ==> r[k] != ':'
    ensures forall k :: 0 <= k < |r| ==> (iso[k] == ':' ==> r[k] == '-') && (iso[k] != ':' ==> r[k] == iso[k])
  {
    ReplaceChar(iso[..if |iso| < 19 then |iso| else 19], ':', '-')
  }

  /** The handler of POST /generate-report; `render(format)` runs the report script and gives the path
      of the file it wrote, or the error it threw. The format is compared exactly: "WORD" is refused. */
  function GenerateReport(analysisData: Option<Report>, format: Option<string>, iso: string,
                          render: string -> Result<string>): (r: ReportResponse)
    ensures analysisData.None? ==> r == ReportRejected(400, "请提供分析数据")
    ensures r.ReportSent? <==>
              analysisData.Some? && (format.GetOr("pdf") == "word" || format.GetOr("pdf") == "pdf")
              && render(format.GetOr("pdf")).Ok?
    ensures r.ReportSent? ==>
              r.path == render(format.GetOr("pdf")).value
              && (format.GetOr("pdf") == "word" <==> r.mimeType == WordMime)
              && r.fileName == "Building_Safety_Report_" + FileStamp(iso)
                               + (if format.GetOr("pdf") == "word" then ".docx" else ".pdf")
    ensures analysisData.Some? && (format.GetOr("pdf") == "word" || format.GetOr("pdf") == "pdf")
            && render(format.GetOr("pdf")).Err? ==>
              r == ReportRejected(500, (if format.GetOr("pdf") == "word" then "Word" else "PDF") + "报告生成失败: "
                                       + render(format.GetOr("pdf")).message)
  {
    var f := format.GetOr("pdf");
    if analysisData.None? then ReportRejected(400, "请提供分析数据")
    else if f != "word" && f != "pdf" then ReportRejected(400, "不支持的格式，仅支持pdf和word")
    else
      var kind := if f == "word" then "Word" else "PDF";
      match render(f)
      case Err(m) => ReportRejected(500, kind + "报告生成失败: " + m)
      case Ok(p) =>
        ReportSent(p, if f == "word" then WordMime else PdfMime,
                   "Building_Safety_Report_" + FileStamp(iso) + "." + (if f == "word" then "docx" else "pdf"))
  }

  /** A missing format means "pdf", and any other spelling than exactly "word" or "pdf" gets a 400
      without the renderer being consulted. */
  lemma UnknownFormatRefused(analysisData: Report, format: string, iso: string, render: string -> Result<string>)
    requires format != "word" && format != "pdf"
    ensures GenerateReport(Some(analysisData), Some(format), iso, render)
         == ReportRejected(400, "不支持的格式，仅支持pdf和word")
    ensures GenerateReport(Some(analysisData), None, iso, render)
         == GenerateReport(Some(analysisData), Some("pdf"), iso, render)
  {
  }
}
