/** The analysis record the AI service returns and the report generators read: a JSON object whose keys
    may each be absent. The types follow `client/src/types/index.ts`; an absent key is `None`. */
module Analysis {
  import opened Wrappers

  /** A building regulation a violation breaks. */
  datatype Regulation = Regulation(code: Option<string>, article: Option<string>, content: Option<string>)

  /** One violation found in the image. `vtype` is the JSON key `type`; `coordinates` is [x1, y1, x2, y2]. */
  datatype Violation = Violation(
    vtype: Option<string>,
    category: Option<string>,
    description: Option<string>,
    coordinates: Option<seq<int>>,
    regulations: Option<seq<Regulation>>,
    suggestions: Option<seq<string>>,
    severity: Option<string>,
    riskLevel: Option<string>)

  /** The summary part: counts, score, assessment and priority actions. */
  datatype Summary = Summary(
    severeCount: Option<int>,
    normalCount: Option<int>,
    totalScore: Option<int>,
    overallAssessment: Option<string>,
    priorityActions: Option<seq<string>>)

  /** An analysis result. The report generators also read the optional inspection details
      (`timestamp`, `location`, `inspector`, `report_id`) when a caller supplies them. */
  datatype Report = Report(
    timestamp: Option<string>,
    location: Option<string>,
    inspector: Option<string>,
    reportId: Option<string>,
    violations: Option<seq<Violation>>,
    summary: Option<Summary>)

  const SevereType: string := "严重违规"
  const NormalType: string := "一般违规"

  /** A JavaScript or Python string value that is truthy: present and not empty. */
  predicate Truthy(o: Option<string>) {
    o.Some? && o.value != ""
  }

  /** `process.env.UPLOAD_PATH || defaultRoot`: the upload directory both routers use. */
  function UploadRoot(env: Option<string>, defaultRoot: string): (r: string)
    ensures Truthy(env) ==> r == env.value
    ensures !Truthy(env) ==> r == defaultRoot
  {
    if Truthy(env) then env.value else defaultRoot
  }

  /** The number of violations whose `type` is exactly `t` (`vs.filter(v => v.type === t).length`). */
  function CountType(vs: seq<Violation>, t: string): (n: nat)
    ensures n <= |vs|
    ensures n == 0 <==> forall i :: 0 <= i < |vs| ==> vs[i].vtype != Some(t)
    ensures n == |vs| <==> forall i :: 0 <= i < |vs| ==> vs[i].vtype == Some(t)
  {
    if vs == [] then 0
    else CountType(vs[..|vs| - 1], t) + (if vs[|vs| - 1].vtype == Some(t) then 1 else 0)
  }

  lemma {:induction false} CountTypeAppend(a: seq<Violation>, b: seq<Violation>, t: string)
    ensures CountType(a + b, t) == CountType(a, t) + CountType(b, t)
    decreases |b|
  {
    if b == [] {
      assert a + b == a;
    } else {
      assert (a + b)[..|a + b| - 1] == a + b[..|b| - 1];
      CountTypeAppend(a, b[..|b| - 1], t);
    }
  }

  /** A violation is counted under at most one of two different types, so the two counts together never
      exceed the number of violations. */
  lemma {:induction false} CountTypesDisjoint(vs: seq<Violation>, s: string, t: string)
    requires s != t
    ensures CountType(vs, s) + CountType(vs, t) <= |vs|
    decreases |vs|
  {
    if vs != [] {
      CountTypesDisjoint(vs[..|vs| - 1], s, t);
    }
  }
}
