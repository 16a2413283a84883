/** client/src/App.tsx: the page's state (the uploaded file, the analysis shown, whether an analysis is
    running, and the history of analyses) and the handlers that update it, each with the notice it
    shows. The history keeps the ten newest analyses, newest first. */
module AppState {
  import opened Wrappers
  import opened Text
  import opened Analysis

  /** The uploaded file as the client holds it. */
  datatype UploadedFile = UploadedFile(filename: string, originalName: string, url: string, path: string,
                                       size: int, uploadTime: string)

  /** An analysis as the client holds it: the image, the violations found and when. */
  datatype AnalysisData = AnalysisData(imageUrl: string, violations: seq<Violation>, timestamp: string)

  datatype NoticeKind = Success | Info | Warning | Loading | Failure

  /** A message shown to the user; `clearsOthers` when the handler first removes the messages on screen
      (`message.destroy()`). */
  datatype Notice = Notice(kind: NoticeKind, text: string, clearsOthers: bool)

  const MaxHistory: nat := 10

  function Min(a: int, b: int): int {
    if a <= b then a else b
  }

  /** `[data, ...prev.slice(0, 9)]`: the new analysis in front of the nine newest earlier ones. */
  function Pushed(history: seq<AnalysisData>, data: AnalysisData): (r: seq<AnalysisData>)
    ensures |r| == Min(|history| + 1, MaxHistory)
    ensures r[0] == data
    ensures forall i :: 1 <= i < |r| ==> r[i] == history[i - 1]
  {
    [data] + history[..Min(9, |history|)]
  }

  /** The history after the analyses `ds` completed, in that order, on top of `history`. */
  function HistoryAfter(history: seq<AnalysisData>, ds: seq<AnalysisData>): seq<AnalysisData>
    decreases |ds|
  {
    if ds == [] then history else Pushed(HistoryAfter(history, ds[..|ds| - 1]), ds[|ds| - 1])
  }

  /** The ten newest of `ds`, newest first. */
  function NewestFirst(ds: seq<AnalysisData>): (r: seq<AnalysisData>)
    ensures |r| == Min(|ds|, MaxHistory)
  {
    seq(Min(|ds|, MaxHistory), i requires 0 <= i < Min(|ds|, MaxHistory) => ds[|ds| - 1 - i])
  }

  /** Starting from an empty history, the history holds exactly the ten newest analyses, newest first:
      older ones are dropped and the order is never disturbed. */
  lemma {:induction false} HistoryKeepsNewest(ds: seq<AnalysisData>)
    ensures HistoryAfter([], ds) == NewestFirst(ds)
    decreases |ds|
  {
    if ds != [] {
      var init := ds[..|ds| - 1];
      HistoryKeepsNewest(init);
      var h := HistoryAfter([], ds);
      assert h == Pushed(NewestFirst(init), ds[|ds| - 1]);
      forall i | 0 <= i < |h|
        ensures h[i] == NewestFirst(ds)[i]
      {
        if i > 0 {
          assert h[i] == NewestFirst(init)[i - 1] == init[|init| - 1 - (i - 1)];
        }
      }
    }
  }

  /** The notice at the end of an analysis: a warning when there are severe violations (with both
      counts), information when there are only ordinary ones, success when there are none. */
  function CompletionNotice(violations: seq<Violation>): (n: Notice)
    ensures n.kind == Warning <==> CountType(violations, SevereType) > 0
    ensures n.kind == Info <==> CountType(violations, SevereType) == 0 && CountType(violations, NormalType) > 0
    ensures n.kind == Success <==> CountType(violations, SevereType) == 0 && CountType(violations, NormalType) == 0
    ensures n.kind == Warning ==>
              n.text == "分析完成！发现 " + NatToString(CountType(violations, SevereType)) + " 个严重违规和 "
                        + NatToString(CountType(violations, NormalType)) + " 个一般违规"
    ensures n.kind == Info ==> n.text == "分析完成！发现 " + NatToString(CountType(violations, NormalType)) + " 个一般违规"
    ensures n.kind == Success ==> n.text == "分析完成！未发现明显的安全违规行为"
    ensures !n.clearsOthers
  {
    var severe := CountType(violations, SevereType);
    var normal := CountType(violations, NormalType);
    if severe > 0 then
      Notice(Warning, "分析完成！发现 " + NatToString(severe) + " 个严重违规和 " + NatToString(normal) + " 个一般违规", false)
    else if normal > 0 then Notice(Info, "分析完成！发现 " + NatToString(normal) + " 个一般违规", false)
    else Notice(Success, "分析完成！未发现明显的安全违规行为", false)
  }

  /** An analysis whose violations are all of other types is reported as clean. */
  lemma UntypedViolationsReportedClean(violations: seq<Violation>)
    requires forall i :: 0 <= i < |violations| ==> violations[i].vtype != Some(SevereType) && violations[i].vtype != Some(NormalType)
    ensures CompletionNotice(violations).kind == Success
  {
  }

  /** The footer's "已完成 N 次安全分析", shown once there is a history; N is the history's length. */
  function FooterCount(history: seq<AnalysisData>): (r: Option<string>)
    ensures r.Some? <==> |history| > 0
  {
    if |history| > 0 then Some("已完成 " + NatToString(|history|) + " 次安全分析") else None
  }

  /** Since the history is bounded, the footer stops counting at ten however many analyses completed. */
  lemma FooterStopsAtTen(ds: seq<AnalysisData>)
    requires |ds| >= MaxHistory
    ensures FooterCount(HistoryAfter([], ds)) == Some("已完成 " + NatToString(MaxHistory) + " 次安全分析")
  {
    HistoryKeepsNewest(ds);
  }

  /** The state of the page. */
  class App {
    var uploadedFile: Option<UploadedFile>
    var analysisData: Option<AnalysisData>
    var isAnalyzing: bool
    var history: seq<AnalysisData>

    ghost predicate Valid()
      reads this
    {
      |history| <= MaxHistory
    }

    /** The page starts empty. */
    constructor()
      ensures Valid()
      ensures uploadedFile.None? && analysisData.None? && !isAnalyzing && history == []
    {
      uploadedFile := None;
      analysisData := None;
      isAnalyzing := false;
      history := [];
    }

    /** `!!(uploadedFile || analysisData)`: the header offers to clear the page. */
    function HasData(): (b: bool)
      reads this
      ensures b <==> uploadedFile.Some? || analysisData.Some?
    {
      uploadedFile.Some? || analysisData.Some?
    }

    /** `handleFileUploaded`: the new file replaces the old one and the analysis shown is dropped. */
    method FileUploaded(file: UploadedFile) returns (n: Notice)
      requires Valid()
      modifies this
      ensures Valid()
      ensures uploadedFile == Some(file) && analysisData.None?
      ensures isAnalyzing == old(isAnalyzing) && history == old(history)
      ensures n == Notice(Success, "图片上传成功，可以开始分析了！", false)
    {
      uploadedFile := Some(file);
      analysisData := None;
      n := Notice(Success, "图片上传成功，可以开始分析了！", false);
    }

    /** `handleAnalysisComplete`: the analysis is shown, the run is over, and it enters the history. */
    method AnalysisComplete(data: AnalysisData) returns (n: Notice)
      requires Valid()
      modifies this
      ensures Valid()
      ensures analysisData == Some(data) && !isAnalyzing
      ensures history == Pushed(old(history), data)
      ensures uploadedFile == old(uploadedFile)
      ensures n == CompletionNotice(data.violations)
    {
      analysisData := Some(data);
      isAnalyzing := false;
      history := [data] + history[..Min(9, |history|)];
      var severeCount := CountType(data.violations, SevereType);
      var normalCount := CountType(data.violations, NormalType);
      if severeCount > 0 {
        n := Notice(Warning, "分析完成！发现 " + NatToString(severeCount) + " 个严重违规和 " + NatToString(normalCount) + " 个一般违规", false);
      } else if normalCount > 0 {
        n := Notice(Info, "分析完成！发现 " + NatToString(normalCount) + " 个一般违规", false);
      } else {
        n := Notice(Success, "分析完成！未发现明显的安全违规行为", false);
      }
    }

    /** `handleAnalysisStart`: a run begins, with a loading notice that stays until removed. */
    method AnalysisStart() returns (n: Notice)
      requires Valid()
      modifies this
      ensures Valid()
      ensures isAnalyzing
      ensures uploadedFile == old(uploadedFile) && analysisData == old(analysisData) && history == old(history)
      ensures n == Notice(Loading, "正在使用AI分析图片，请稍候...", false)
    {
      isAnalyzing := true;
      n := Notice(Loading, "正在使用AI分析图片，请稍候...", false);
    }

    /** `handleAnalysisError`: the run is over; the messages on screen are replaced by the error. */
    method AnalysisError(error: string) returns (n: Notice)
      requires Valid()
      modifies this
      ensures Valid()
      ensures !isAnalyzing
      ensures uploadedFile == old(uploadedFile) && analysisData == old(analysisData) && history == old(history)
      ensures n == Notice(Failure, "分析失败：" + error, true)
    {
      isAnalyzing := false;
      n := Notice(Failure, "分析失败：" + error, true);
    }

    /** `handleReAnalyze`: with a file present the analysis shown is dropped; otherwise nothing changes. */
    method ReAnalyze()
      requires Valid()
      modifies this
      ensures Valid()
      ensures analysisData == (if old(uploadedFile).Some? then None else old(analysisData))
      ensures uploadedFile == old(uploadedFile) && isAnalyzing == old(isAnalyzing) && history == old(history)
    {
      if uploadedFile.Some? {
        analysisData := None;
      }
    }

    /** `handleClear`: file, analysis and run are reset; the history is kept. */
    method Clear() returns (n: Notice)
      requires Valid()
      modifies this
      ensures Valid()
      ensures uploadedFile.None? && analysisData.None? && !isAnalyzing
      ensures history == old(history)
      ensures !HasData()
      ensures n == Notice(Info, "已清除所有数据", true)
    {
      uploadedFile := None;
      analysisData := None;
      isAnalyzing := false;
      n := Notice(Info, "已清除所有数据", true);
    }
  }

  /** A session: uploading, analysing twice, then clearing, leaves both analyses in the history, newest
      first, and nothing on the page. */
  method Session(file: UploadedFile, first: AnalysisData, second: AnalysisData) returns (app: App)
    ensures fresh(app) && app.Valid()
    ensures app.history == [second, first]
    ensures !app.HasData() && !app.isAnalyzing
  {
    app := new App();
    var _ := app.FileUploaded(file);
    var _ := app.AnalysisStart();
    var _ := app.AnalysisComplete(first);
    var _ := app.AnalysisStart();
    var _ := app.AnalysisComplete(second);
    var _ := app.Clear();
  }
}
