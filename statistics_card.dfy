/** client/src/components/StatisticsCard.tsx: how the summary of an analysis is graded and shown — the
    safety level and the progress colour of the score, the high-risk badge, the two shares of the
    violations, and the safety recommendations. */
module StatisticsCard {
  import opened Text
  import opened Analysis
  import AnalyzeRoute

  /** The four safety levels, best first. */
  datatype Level = Excellent | Good | Pass | Fail {

    function Name(): string {
      match this
      case Excellent => "优秀"
      case Good => "良好"
      case Pass => "合格"
      case Fail => "不合格"
    }

    /** The colour of the level card. */
    function Color(): string {
      match this
      case Excellent => "#52c41a"
      case Good => "#1890ff"
      case Pass => "#faad14"
      case Fail => "#ff4d4f"
    }

    /** 3 for the best level down to 0 for the worst. */
    function Rank(): nat {
      match this
      case Excellent => 3
      case Good => 2
      case Pass => 1
      case Fail => 0
    }
  }

  /** `getSafetyLevel(score)`: 90 and above is excellent, 80 good, 60 passing, anything lower failing. */
  function SafetyLevel(score: int): (l: Level)
    ensures l == Excellent <==> score >= 90
    ensures l == Good <==> 80 <= score < 90
    ensures l == Pass <==> 60 <= score < 80
    ensures l == Fail <==> score < 60
  {
    if score >= 90 then Excellent
    else if score >= 80 then Good
    else if score >= 60 then Pass
    else Fail
  }

  /** A higher score never gets a lower level. */
  lemma SafetyLevelMonotone(s1: int, s2: int)
    requires s1 <= s2
    ensures SafetyLevel(s1).Rank() <= SafetyLevel(s2).Rank()
  {
  }

  const Green: string := "#52c41a"
  const Amber: string := "#faad14"
  const Red: string := "#ff4d4f"

  /** `getProgressColor(score)`, also the colour of the compliance rate. */
  function ProgressColor(score: int): (c: string)
    ensures c == Green <==> score >= 80
    ensures c == Amber <==> 60 <= score < 80
    ensures c == Red <==> score < 60
  {
    if score >= 80 then Green else if score >= 60 then Amber else Red
  }

  /** The bar's colour follows the level: green for the two best levels, amber for passing and red for
      failing, where it is also the level card's colour. */
  lemma ProgressColorFollowsLevel(score: int)
    ensures ProgressColor(score) == Green <==> SafetyLevel(score).Rank() >= 2
    ensures ProgressColor(score) == Amber <==> SafetyLevel(score) == Pass
    ensures ProgressColor(score) == Red <==> SafetyLevel(score) == Fail
    ensures SafetyLevel(score).Rank() <= 1 ==> ProgressColor(score) == SafetyLevel(score).Color()
  {
  }

  /** A fallback score (the one the server computes when the reply has none) is never excellent once
      there is a severe violation, and fails once the violations weigh 50 points or more. */
  lemma FallbackScoreLevel(severe: nat, normal: nat)
    ensures severe >= 1 ==> SafetyLevel(AnalyzeRoute.FallbackScore(severe, normal)) != Excellent
    ensures 20 * severe + 10 * normal >= 50 ==> SafetyLevel(AnalyzeRoute.FallbackScore(severe, normal)) == Fail
  {
  }

  /** The "高风险项目" badge on the severe card. */
  predicate HighRisk(severeCount: int) {
    severeCount > 0
  }

  /** The colour of the total: red when there are violations, green otherwise. */
  function TotalColor(totalViolations: nat): (c: string)
    ensures c == Red <==> totalViolations > 0
    ensures c == Green <==> totalViolations == 0
  {
    if totalViolations > 0 then Red else Green
  }

  /** The share of `count` among `total` violations in tenths of a percent, as shown with one decimal:
      0 when there are no violations. The rounding is to the nearest tenth, halves up, computed exactly. */
  function ShareTenths(count: int, total: nat): (r: int)
    ensures total == 0 ==> r == 0
    ensures total > 0 ==> 2 * total * r - total <= 2000 * count < 2 * total * r + total
  {
    if total > 0 then
      var q := (2000 * count + total) / (2 * total);
      assert 2 * total * q <= 2000 * count + total < 2 * total * q + 2 * total;
      q
    else 0
  }

  /** A positive factor can be cancelled from both sides of `<=`. */
  lemma CancelFactor(t: int, x: int, y: int)
    requires t > 0 && t * x <= t * y
    ensures x <= y
  {
    assert t * (y - x) >= 0;
  }

  /** A share of a part is between 0 % and 100 %. */
  lemma ShareBounded(count: int, total: nat)
    requires 0 <= count <= total
    ensures 0 <= ShareTenths(count, total) <= 1000
  {
    if total > 0 {
      var r := ShareTenths(count, total);
      var t := total as int;
      assert t * 0 <= t * (2 * r + 1) by {
        assert t * (2 * r + 1) == 2 * t * r + t;
      }
      CancelFactor(t, 0, 2 * r + 1);
      assert t * (2 * r - 1) <= t * 2000 by {
        assert t * (2 * r - 1) == 2 * t * r - t;
        assert 2000 * count <= 2000 * t;
      }
      CancelFactor(t, 2 * r - 1, 2000);
    }
  }

  /** For the counts a normalised record carries, both shares lie between 0 % and 100 % of its
      violations. */
  lemma SharesOfCounts(vs: seq<Violation>)
    ensures 0 <= ShareTenths(CountType(vs, SevereType), |vs|) <= 1000
    ensures 0 <= ShareTenths(CountType(vs, NormalType), |vs|) <= 1000
  {
    ShareBounded(CountType(vs, SevereType), |vs|);
    ShareBounded(CountType(vs, NormalType), |vs|);
  }

  const TrainingAdvice: string := "• 加强安全培训，提高施工人员安全意识"
  const InspectionAdvice: string := "• 定期进行安全检查，建立长效安全管理机制"

  /** The safety recommendations: shown only when there is a violation of either kind; a line for the
      severe ones, a line for the ordinary ones, then the two general lines. */
  function Recommendations(severeCount: int, normalCount: int): (r: seq<string>)
    ensures r == [] <==> severeCount <= 0 && normalCount <= 0
    ensures r != [] ==> |r| >= 2 && r[|r| - 2..] == [TrainingAdvice, InspectionAdvice]
    ensures r != [] ==> |r| == 2 + (if severeCount > 0 then 1 else 0) + (if normalCount > 0 then 1 else 0)
    ensures severeCount > 0 ==> r[0] == "• 立即停止相关作业，优先处理 " + IntToString(severeCount) + " 个严重安全违规"
    ensures severeCount <= 0 && normalCount > 0 ==> r[0] == "• 制定整改计划，逐步解决 " + IntToString(normalCount) + " 个一般安全违规"
  {
    if severeCount <= 0 && normalCount <= 0 then []
    else
      (if severeCount > 0 then ["• 立即停止相关作业，优先处理 " + IntToString(severeCount) + " 个严重安全违规"] else [])
      + (if normalCount > 0 then ["• 制定整改计划，逐步解决 " + IntToString(normalCount) + " 个一般安全违规"] else [])
      + [TrainingAdvice, InspectionAdvice]
  }
}
