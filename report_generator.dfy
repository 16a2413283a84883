/** `ReportGenerator` of report_generator.py: the "建筑安全与质量检测报告" document built from an analysis
    record, once with python-docx (Word) and once as a reportlab story (PDF), and the dispatch that names
    the file. */
module ReportGenerator {
  import opened Wrappers
  import opened Text
  import opened Paths
  import opened Analysis
  import opened Document

  const Title: string := "建筑安全与质量检测报告"
  const NoViolations: string := "未发现明显违规行为"
  const StatsHeader: seq<string> := ["序号", "违规类型", "严重程度", "风险等级"]

  /** The readings of `datetime.now()` the generator formats: `display` as "%Y-%m-%d %H:%M:%S",
      `compact` as "%Y%m%d%H%M%S" and `fileStamp` as "%Y%m%d_%H%M%S". */
  datatype Clock = Clock(display: string, compact: string, fileStamp: string)

  /** The rows of the basic-information table: a key and a value each, missing values defaulted. */
  function InfoData(d: Report, c: Clock): seq<seq<string>> {
    [["检测时间", d.timestamp.GetOr(c.display)],
     ["检测地点", d.location.GetOr("未知")],
     ["检测人员", d.inspector.GetOr("AI系统")],
     ["报告编号", d.reportId.GetOr("AI-" + c.compact)]]
  }

  /** `analysis_data.get("summary", {}).get("total_score", 0)`. */
  function Score(d: Report): int {
    match d.summary
    case None => 0
    case Some(s) => s.totalScore.GetOr(0)
  }

  function ScoreLine(d: Report): string {
    "整体安全评分：" + IntToString(Score(d)) + "/100"
  }

  /** `analysis_data.get("summary", {}).get("overall_assessment", "无评估")`. */
  function Assessment(d: Report): string {
    match d.summary
    case None => "无评估"
    case Some(s) => s.overallAssessment.GetOr("无评估")
  }

  function StatsRow(i: nat, v: Violation): seq<string> {
    [NatToString(i + 1), v.vtype.GetOr("未知"), v.severity.GetOr("未知"), v.riskLevel.GetOr("未知")]
  }

  /** The statistics table: the header, then one row per violation in input order. */
  function StatsRows(vs: seq<Violation>): (rows: seq<seq<string>>)
    ensures |rows| == |vs| + 1 && rows[0] == StatsHeader
    ensures forall i :: 0 <= i < |vs| ==> rows[i + 1] == StatsRow(i, vs[i])
  {
    if vs == [] then [StatsHeader] else StatsRows(vs[..|vs| - 1]) + [StatsRow(|vs| - 1, vs[|vs| - 1])]
  }

  function RegulationLine(r: Regulation): string {
    r.code.GetOr("") + " 第" + r.article.GetOr("") + "条：" + r.content.GetOr("")
  }

  function RegulationLines(regs: seq<Regulation>): (r: seq<string>)
    ensures |r| == |regs| && forall i :: 0 <= i < |regs| ==> r[i] == RegulationLine(regs[i])
  {
    if regs == [] then [] else RegulationLines(regs[..|regs| - 1]) + [RegulationLine(regs[|regs| - 1])]
  }

  function ViolationTitle(i: nat, v: Violation): string {
    "违规 " + NatToString(i + 1) + ": " + v.category.GetOr("未知类别")
  }

  function ViolationText(v: Violation): string {
    "违规行为：" + v.description.GetOr("无描述")
  }

  /** The Word blocks of the violation at index `i` of the list. */
  function WordViolation(i: nat, v: Violation): seq<Block> {
    [Heading(ViolationTitle(i, v)), Para(ViolationText(v))]
    + BulletSection("违反规范：", RegulationLines(v.regulations.GetOr([])))
    + BulletSection("整改建议：", v.suggestions.GetOr([]))
  }

  function WordDetails(vs: seq<Violation>): seq<Block> {
    if vs == [] then [] else WordDetails(vs[..|vs| - 1]) + WordViolation(|vs| - 1, vs[|vs| - 1])
  }

  /** The title and the first three sections, up to the "违规统计" heading; both paths open with these. */
  function OpeningBlocks(d: Report, c: Clock): seq<Block> {
    [Heading(Title), Heading("基本信息"), Table(InfoData(d, c)), Heading("安全评分"), Para(ScoreLine(d)),
     Heading("违规统计")]
  }

  /** The Word document `generate_word_report` writes, block by block: the title and the three opening
      sections, then the violation part, and last the overall assessment under its heading. */
  function WordDocument(d: Report, c: Clock): (r: seq<Block>)
    ensures |r| >= 9 && r[0] == Heading(Title) && r[5] == Heading("违规统计")
    ensures r[|r| - 2] == Heading("整体安全评估") && r[|r| - 1] == Para(Assessment(d))
  {
    OpeningBlocks(d, c) + WordViolationPart(d.violations.GetOr([]))
    + [Heading("整体安全评估"), Para(Assessment(d))]
  }

  /** The statistics table and the detailed section, or the no-violation paragraph alone. */
  function WordViolationPart(vs: seq<Violation>): seq<Block> {
    if vs != [] then [Table(StatsRows(vs)), Heading("详细违规信息")] + WordDetails(vs) else [Para(NoViolations)]
  }

  /** The PDF flowables of one violation; a Spacer closes the violation. */
  function PdfViolation(i: nat, v: Violation): seq<Block> {
    [Heading(ViolationTitle(i, v)), Para(ViolationText(v))]
    + LineSection("违反规范：", RegulationLines(v.regulations.GetOr([])))
    + LineSection("整改建议：", v.suggestions.GetOr([]))
    + [Spacer]
  }

  function PdfDetails(vs: seq<Violation>): seq<Block> {
    if vs == [] then [] else PdfDetails(vs[..|vs| - 1]) + PdfViolation(|vs| - 1, vs[|vs| - 1])
  }

  /** The story `generate_pdf_report` hands to `doc.build`: every block but the last is followed by a
      Spacer, so the story closes with the assessment heading, a Spacer and the assessment. */
  function PdfStory(d: Report, c: Clock): (r: seq<Block>)
    ensures |r| >= 17
    ensures r[|r| - 3] == Heading("整体安全评估") && r[|r| - 2] == Spacer && r[|r| - 1] == Para(Assessment(d))
  {
    Spaced(OpeningBlocks(d, c))
    + PdfViolationPart(d.violations.GetOr([]))
    + Spaced([Heading("整体安全评估")]) + [Para(Assessment(d))]
  }

  function PdfViolationPart(vs: seq<Violation>): seq<Block> {
    if vs != [] then Spaced([Table(StatsRows(vs)), Heading("详细违规信息")]) + PdfDetails(vs)
    else Spaced([Para(NoViolations)])
  }

  // ---------------------------------------------------------------------------------------------
  // The two renderings read the same

  lemma ViolationReadsAlike(i: nat, v: Violation)
    ensures Content(PdfViolation(i, v)) == Content(WordViolation(i, v))
  {
    var head := [Heading(ViolationTitle(i, v)), Para(ViolationText(v))];
    var lines := RegulationLines(v.regulations.GetOr([]));
    var sugs := v.suggestions.GetOr([]);
    var wr, pr := BulletSection("违反规范：", lines), LineSection("违反规范：", lines);
    var ws, ps := BulletSection("整改建议：", sugs), LineSection("整改建议：", sugs);
    SectionsReadAlike("违反规范：", lines);
    SectionsReadAlike("整改建议：", sugs);
    ContentAppend(head + wr, ws);
    ContentAppend(head, wr);
    ContentAppend(head + pr + ps, [Spacer]);
    ContentAppend(head + pr, ps);
    ContentAppend(head, pr);
    ContentSpacer();
  }

  lemma {:induction false} DetailsReadAlike(vs: seq<Violation>)
    ensures Content(PdfDetails(vs)) == Content(WordDetails(vs))
    decreases |vs|
  {
    if vs != [] {
      var init := vs[..|vs| - 1];
      var i := |vs| - 1;
      DetailsReadAlike(init);
      ViolationReadsAlike(i, vs[i]);
      ContentAppend(PdfDetails(init), PdfViolation(i, vs[i]));
      ContentAppend(WordDetails(init), WordViolation(i, vs[i]));
    }
  }

  lemma ViolationPartReadsAlike(vs: seq<Violation>)
    ensures Content(PdfViolationPart(vs)) == Content(WordViolationPart(vs))
  {
    if vs != [] {
      var front := [Table(StatsRows(vs)), Heading("详细违规信息")];
      DetailsReadAlike(vs);
      ContentSpaced(front);
      ContentAppend(Spaced(front), PdfDetails(vs));
      ContentOfPlain(front);
      ContentAppend(front, WordDetails(vs));
    } else {
      ContentSpaced([Para(NoViolations)]);
      ContentOfPlain([Para(NoViolations)]);
    }
  }

  /** Spacing a plain head and tail around two middles that read alike gives two sequences that read
      alike. */
  lemma FramesReadAlike(head: seq<Block>, pMid: seq<Block>, wMid: seq<Block>, last: Block, fin: Block)
    requires forall i :: 0 <= i < |head| ==> Plain(head[i])
    requires Plain(last) && Plain(fin)
    requires Content(pMid) == Content(wMid)
    ensures Content(Spaced(head) + pMid + Spaced([last]) + [fin]) == Content(head + wMid + [last, fin])
  {
    var a := Spaced(head) + pMid;
    ContentSpacedFront(head, pMid, wMid);
    ContentSpacedBack(a, last, fin);
    ContentPlainFrame(head, wMid, last, fin);
  }

  lemma OpeningIsPlain(d: Report, c: Clock)
    ensures forall i :: 0 <= i < |OpeningBlocks(d, c)| ==> Plain(OpeningBlocks(d, c)[i])
  {
  }

  /** The PDF story shows the same texts and tables as the Word document, in the same order. */
  lemma PdfMatchesWord(d: Report, c: Clock)
    ensures Content(PdfStory(d, c)) == Content(WordDocument(d, c))
  {
    var vs := d.violations.GetOr([]);
    var head := OpeningBlocks(d, c);
    var last: Block := Heading("整体安全评估");
    var fin: Block := Para(Assessment(d));
    var pdf := Spaced(head) + PdfViolationPart(vs) + Spaced([last]) + [fin];
    var word := head + WordViolationPart(vs) + [last, fin];
    assert PdfStory(d, c) == pdf;
    assert WordDocument(d, c) == word;
    OpeningIsPlain(d, c);
    ViolationPartReadsAlike(vs);
    FramesReadAlike(head, PdfViolationPart(vs), WordViolationPart(vs), last, fin);
    assert Content(pdf) == Content(word);
  }

  // ---------------------------------------------------------------------------------------------
  // The builders, call by call

  /** The "违反规范：" paragraph and one bullet per regulation, appended in order. */
  method EmitRegulations(regs: seq<Regulation>) returns (blocks: seq<Block>)
    ensures blocks == BulletSection("违反规范：", RegulationLines(regs))
  {
    blocks := [];
    if regs != [] {
      blocks := [Para("违反规范：")];
      for k := 0 to |regs|
        invariant blocks == [Para("违反规范：")] + Bullets(RegulationLines(regs[..k]))
      {
        assert regs[..k + 1][..k] == regs[..k];
        BulletsSnoc(RegulationLines(regs[..k]), RegulationLine(regs[k]));
        blocks := blocks + [Bullet("• " + RegulationLine(regs[k]))];
      }
      assert regs[..|regs|] == regs;
    }
  }

  /** The "整改建议：" paragraph and one bullet per suggestion, appended in order. */
  method EmitSuggestions(sugs: seq<string>) returns (blocks: seq<Block>)
    ensures blocks == BulletSection("整改建议：", sugs)
  {
    blocks := [];
    if sugs != [] {
      blocks := [Para("整改建议：")];
      for k := 0 to |sugs|
        invariant blocks == [Para("整改建议：")] + Bullets(sugs[..k])
      {
        BulletsSnoc(sugs[..k], sugs[k]);
        assert sugs[..k + 1] == sugs[..k] + [sugs[k]];
        blocks := blocks + [Bullet("• " + sugs[k])];
      }
      assert sugs[..|sugs|] == sugs;
    }
  }

  /** The Word blocks of one violation, appended one call at a time. */
  method EmitWordViolation(i: nat, v: Violation) returns (blocks: seq<Block>)
    ensures blocks == WordViolation(i, v)
  {
    blocks := [Heading(ViolationTitle(i, v))];
    blocks := blocks + [Para(ViolationText(v))];
    var regBlocks := EmitRegulations(v.regulations.GetOr([]));
    blocks := blocks + regBlocks;
    var sugBlocks := EmitSuggestions(v.suggestions.GetOr([]));
    blocks := blocks + sugBlocks;
  }

  /** The basic-information table: a 4 x 2 grid whose cells are assigned one by one from the key/value
      pairs. */
  method FillInfoTable(d: Report, c: Clock) returns (rows: seq<seq<string>>)
    ensures rows == InfoData(d, c)
  {
    var info := new string[4, 2]((i, j) => "");
    var infoData := InfoData(d, c);
    for i := 0 to 4
      invariant forall r, k :: 0 <= r < i && 0 <= k < 2 ==> info[r, k] == infoData[r][k]
    {
      info[i, 0] := infoData[i][0];
      info[i, 1] := infoData[i][1];
    }
    rows := ReadCells(info);
    forall r | 0 <= r < 4
      ensures rows[r] == infoData[r]
    {
      assert |rows[r]| == 2 == |infoData[r]|;
    }
  }

  /** The statistics table: a (|vs| + 1) x 4 grid, the header cells first, then row i + 1 from violation i. */
  method FillStatsTable(vs: seq<Violation>) returns (rows: seq<seq<string>>)
    ensures rows == StatsRows(vs)
  {
    var stats := new string[|vs| + 1, 4]((i, j) => "");
    for k := 0 to 4
      invariant forall j :: 0 <= j < k ==> stats[0, j] == StatsHeader[j]
    {
      stats[0, k] := StatsHeader[k];
    }
    for i := 0 to |vs|
      invariant forall j :: 0 <= j < 4 ==> stats[0, j] == StatsHeader[j]
      invariant forall r, j :: 0 <= r < i && 0 <= j < 4 ==> stats[r + 1, j] == StatsRow(r, vs[r])[j]
    {
      stats[i + 1, 0] := NatToString(i + 1);
      stats[i + 1, 1] := vs[i].vtype.GetOr("未知");
      stats[i + 1, 2] := vs[i].severity.GetOr("未知");
      stats[i + 1, 3] := vs[i].riskLevel.GetOr("未知");
    }
    rows := ReadCells(stats);
    var spec := StatsRows(vs);
    forall r | 0 <= r < |rows|
      ensures rows[r] == spec[r]
    {
      if r == 0 {
        assert |rows[0]| == 4;
      } else {
        assert spec[r] == StatsRow(r - 1, vs[r - 1]);
        assert |rows[r]| == 4;
      }
    }
  }

  /** The detailed section: the blocks of each violation in turn. */
  method EmitWordDetails(vs: seq<Violation>) returns (blocks: seq<Block>)
    ensures blocks == WordDetails(vs)
  {
    blocks := [];
    for i := 0 to |vs|
      invariant blocks == WordDetails(vs[..i])
    {
      var vb := EmitWordViolation(i, vs[i]);
      assert vs[..i + 1][..i] == vs[..i];
      blocks := blocks + vb;
    }
    assert vs[..|vs|] == vs;
  }

  /** `generate_word_report`: the document is built call by call and then saved. The result says
      whether a document was saved, and which. */
  method GenerateWordReport(d: Report, c: Clock, lib: Renderer) returns (ok: bool, saved: Option<seq<Block>>)
    ensures saved == (if lib.importable && lib.saves then Some(WordDocument(d, c)) else None)
    ensures ok <==> saved.Some?
  {
    if !lib.importable {
      return false, None;
    }
    var infoRows := FillInfoTable(d, c);
    var doc := [Heading(Title), Heading("基本信息"), Table(infoRows), Heading("安全评分"), Para(ScoreLine(d)),
                Heading("违规统计")];
    var vs := d.violations.GetOr([]);
    var part: seq<Block>;
    if vs != [] {
      var rows := FillStatsTable(vs);
      var details := EmitWordDetails(vs);
      part := [Table(rows), Heading("详细违规信息")] + details;
    } else {
      part := [Para(NoViolations)];
    }
    doc := doc + part;
    doc := doc + [Heading("整体安全评估"), Para(Assessment(d))];
    if !lib.saves {
      return false, None;
    }
    return true, Some(doc);
  }

  /** Each of six blocks followed by a Spacer, written out. */
  lemma SpacedSix(a: Block, b: Block, c: Block, d: Block, e: Block, f: Block)
    ensures Spaced([a, b, c, d, e, f])
         == [a, Spacer, b, Spacer, c, Spacer, d, Spacer, e, Spacer, f, Spacer]
  {
    var s := [a, b, c, d, e, f];
    var r := [a, Spacer, b, Spacer, c, Spacer, d, Spacer, e, Spacer, f, Spacer];
    SpacedAt(s);
    assert s[0] == a && s[1] == b && s[2] == c && s[3] == d && s[4] == e && s[5] == f;
    assert |Spaced(s)| == |r|;
  }

  /** The PDF regulation lines: a "违反规范：" paragraph and one "• " paragraph per regulation. */
  method AppendPdfRegulations(regs: seq<Regulation>) returns (story: seq<Block>)
    ensures story == LineSection("违反规范：", RegulationLines(regs))
  {
    story := [];
    if regs != [] {
      story := [Para("违反规范：")];
      for k := 0 to |regs|
        invariant story == [Para("违反规范：")] + BulletParas(RegulationLines(regs[..k]))
      {
        assert regs[..k + 1][..k] == regs[..k];
        BulletParasSnoc(RegulationLines(regs[..k]), RegulationLine(regs[k]));
        story := story + [Para("• " + RegulationLine(regs[k]))];
      }
      assert regs[..|regs|] == regs;
    }
  }

  method AppendPdfSuggestions(sugs: seq<string>) returns (story: seq<Block>)
    ensures story == LineSection("整改建议：", sugs)
  {
    story := [];
    if sugs != [] {
      story := [Para("整改建议：")];
      for k := 0 to |sugs|
        invariant story == [Para("整改建议：")] + BulletParas(sugs[..k])
      {
        assert sugs[..k + 1] == sugs[..k] + [sugs[k]];
        BulletParasSnoc(sugs[..k], sugs[k]);
        story := story + [Para("• " + sugs[k])];
      }
      assert sugs[..|sugs|] == sugs;
    }
  }

  method AppendPdfViolation(i: nat, v: Violation) returns (story: seq<Block>)
    ensures story == PdfViolation(i, v)
  {
    story := [Heading(ViolationTitle(i, v)), Para(ViolationText(v))];
    var regLines := AppendPdfRegulations(v.regulations.GetOr([]));
    story := story + regLines;
    var sugLines := AppendPdfSuggestions(v.suggestions.GetOr([]));
    story := story + sugLines;
    story := story + [Spacer];
  }

  method AppendPdfDetails(vs: seq<Violation>) returns (story: seq<Block>)
    ensures story == PdfDetails(vs)
  {
    story := [];
    for i := 0 to |vs|
      invariant story == PdfDetails(vs[..i])
    {
      var vb := AppendPdfViolation(i, vs[i]);
      assert vs[..i + 1][..i] == vs[..i];
      story := story + vb;
    }
    assert vs[..|vs|] == vs;
  }

  /** `stats_data`: the header row, then one row appended per violation. */
  method BuildStatsData(vs: seq<Violation>) returns (data: seq<seq<string>>)
    ensures data == StatsRows(vs)
  {
    data := [StatsHeader];
    for i := 0 to |vs|
      invariant data == StatsRows(vs[..i])
    {
      assert vs[..i + 1][..i] == vs[..i];
      data := data + [StatsRow(i, vs[i])];
    }
    assert vs[..|vs|] == vs;
  }

  /** The statistics table and the detailed section, or the no-violation paragraph, with their Spacers. */
  method AppendPdfViolationPart(vs: seq<Violation>) returns (part: seq<Block>)
    ensures part == PdfViolationPart(vs)
  {
    if vs != [] {
      var statsData := BuildStatsData(vs);
      var details := AppendPdfDetails(vs);
      part := [Table(statsData), Spacer, Heading("详细违规信息"), Spacer] + details;
      SpacedSnoc([], Table(statsData));
      SpacedSnoc([Table(statsData)], Heading("详细违规信息"));
      assert [] + [Table(statsData)] == [Table(statsData)];
      assert [Table(statsData)] + [Heading("详细违规信息")] == [Table(statsData), Heading("详细违规信息")];
      assert Spaced([Table(statsData), Heading("详细违规信息")])
          == [Table(statsData), Spacer, Heading("详细违规信息"), Spacer];
    } else {
      part := [Para(NoViolations), Spacer];
      SpacedSnoc([], Para(NoViolations));
    }
  }

  /** `generate_pdf_report`: the story is appended flowable by flowable and then built. The result says
      whether a PDF was built, and from which story. */
  method GeneratePdfReport(d: Report, c: Clock, lib: Renderer) returns (ok: bool, built: Option<seq<Block>>)
    ensures built == (if lib.importable && lib.saves then Some(PdfStory(d, c)) else None)
    ensures ok <==> built.Some?
  {
    if !lib.importable {
      return false, None;
    }
    var info, score := Table(InfoData(d, c)), Para(ScoreLine(d));
    var story := [Heading(Title), Spacer, Heading("基本信息"), Spacer, info, Spacer,
                  Heading("安全评分"), Spacer, score, Spacer, Heading("违规统计"), Spacer];
    SpacedSix(Heading(Title), Heading("基本信息"), info, Heading("安全评分"), score, Heading("违规统计"));
    assert story == Spaced(OpeningBlocks(d, c));
    ghost var opening := story;
    var part := AppendPdfViolationPart(d.violations.GetOr([]));
    story := story + part;
    SpacedSnoc([], Heading("整体安全评估"));
    assert [] + [Heading("整体安全评估")] == [Heading("整体安全评估")];
    var closing := [Heading("整体安全评估"), Spacer, Para(Assessment(d))];
    assert closing == Spaced([Heading("整体安全评估")]) + [Para(Assessment(d))];
    story := story + closing;
    assert story == opening + part + Spaced([Heading("整体安全评估")]) + [Para(Assessment(d))];
    assert story == PdfStory(d, c);
    if !lib.saves {
      return false, None;
    }
    return true, Some(story);
  }

  // ---------------------------------------------------------------------------------------------
  // Format dispatch and file name

  /** The file `generate_report` writes into the output directory: the format is compared with "word"
      and "pdf" after lower-casing; any other format has no file. */
  function ReportFileName(format: string, stamp: string): (r: Option<string>)
    ensures r.Some? <==> LowerAscii(format) == "word" || LowerAscii(format) == "pdf"
    ensures r.Some? ==> StartsWith(r.value, "建筑安全报告_" + stamp)
    ensures r.Some? ==> EndsWith(r.value, if LowerAscii(format) == "word" then ".docx" else ".pdf")
  {
    var f := LowerAscii(format);
    if f == "word" then Some("建筑安全报告_" + stamp + ".docx")
    else if f == "pdf" then Some("建筑安全报告_" + stamp + ".pdf")
    else None
  }

  /** `generate_report`: creates the output directory, names the file after the clock, and hands the
      record to the renderer the format selects. It returns the path on success and "" otherwise. */
  method GenerateReport(d: Report, format: string, outputDir: string, c: Clock, word: Renderer, pdf: Renderer)
    returns (path: string, effects: seq<Effect>)
    ensures |effects| >= 1 && effects[0] == MakeDirs(outputDir)
    ensures LowerAscii(format) == "word" && word.importable && word.saves ==>
              path == PyJoin(outputDir, "建筑安全报告_" + c.fileStamp + ".docx")
              && effects == [MakeDirs(outputDir), Save(path, WordDocument(d, c))]
    ensures LowerAscii(format) == "pdf" && pdf.importable && pdf.saves ==>
              path == PyJoin(outputDir, "建筑安全报告_" + c.fileStamp + ".pdf")
              && effects == [MakeDirs(outputDir), Save(path, PdfStory(d, c))]
    ensures path == "" <==> !((LowerAscii(format) == "word" && word.importable && word.saves)
                              || (LowerAscii(format) == "pdf" && pdf.importable && pdf.saves))
    ensures path == "" ==> effects == [MakeDirs(outputDir)]
  {
    effects := [MakeDirs(outputDir)];
    var name := ReportFileName(format, c.fileStamp);
    path := "";
    if LowerAscii(format) == "word" {
      assert name.value == "建筑安全报告_" + c.fileStamp + ".docx";
      var outputPath := PyJoin(outputDir, name.value);
      var ok, saved := GenerateWordReport(d, c, word);
      if ok {
        path := outputPath;
        effects := effects + [Save(outputPath, saved.value)];
      }
    } else if LowerAscii(format) == "pdf" {
      assert name.value == "建筑安全报告_" + c.fileStamp + ".pdf";
      var outputPath := PyJoin(outputDir, name.value);
      var ok, built := GeneratePdfReport(d, c, pdf);
      if ok {
        path := outputPath;
        effects := effects + [Save(outputPath, built.value)];
      }
    }
  }

  /** Only the letters of the format matter: "Word", "WORD" and "word" name the same file. */
  lemma FormatCaseInsensitive(format: string, stamp: string)
    ensures ReportFileName(format, stamp) == ReportFileName(LowerAscii(format), stamp)
  {
    LowerAsciiIdempotent(format);
  }

  // ---------------------------------------------------------------------------------------------
  // What the document contains

  /** The basic-information table is the third block: four rows of a key and a value, in a fixed order,
      each missing value replaced by its default. The PDF story carries the same table. */
  lemma InfoTable(d: Report, c: Clock)
    ensures var rows := InfoData(d, c);
      WordDocument(d, c)[2] == Table(rows) && PdfStory(d, c)[4] == Table(rows)
      && |rows| == 4 && (forall i :: 0 <= i < 4 ==> |rows[i]| == 2)
      && rows[0][0] == "检测时间" && rows[1][0] == "检测地点" && rows[2][0] == "检测人员" && rows[3][0] == "报告编号"
      && rows[0][1] == (if d.timestamp.Some? then d.timestamp.value else c.display)
      && rows[1][1] == (if d.location.Some? then d.location.value else "未知")
      && rows[2][1] == (if d.inspector.Some? then d.inspector.value else "AI系统")
      && rows[3][1] == (if d.reportId.Some? then d.reportId.value else "AI-" + c.compact)
  {
    var o := OpeningBlocks(d, c);
    SpacedSix(o[0], o[1], o[2], o[3], o[4], o[5]);
    assert o == [o[0], o[1], o[2], o[3], o[4], o[5]];
  }

  /** The score paragraph is the fifth block, "整体安全评分：<score>/100", with score 0 when the summary or
      its total_score is missing. */
  lemma ScoreParagraph(d: Report, c: Clock)
    ensures WordDocument(d, c)[4] == Para("整体安全评分：" + IntToString(Score(d)) + "/100")
    ensures d.summary.Some? && d.summary.value.totalScore.Some? ==> Score(d) == d.summary.value.totalScore.value
    ensures d.summary.None? || d.summary.value.totalScore.None? ==>
              WordDocument(d, c)[4] == Para("整体安全评分：0/100")
  {
    assert NatToString(0) == "0";
  }

  /** A statistics row for the violation at index `i`: four cells, the first the decimal number i + 1,
      the others its type, severity and risk level or "未知". */
  predicate DescribesViolation(row: seq<string>, i: nat, v: Violation) {
    |row| == 4
    && (forall k :: 0 <= k < |row[0]| ==> IsDigit(row[0][k]))
    && DigitsValue(row[0]) == i + 1
    && row[1] == v.vtype.GetOr("未知")
    && row[2] == v.severity.GetOr("未知")
    && row[3] == v.riskLevel.GetOr("未知")
  }

  lemma StatsRowDescribes(i: nat, v: Violation)
    ensures DescribesViolation(StatsRow(i, v), i, v)
  {
    NatToStringRoundTrip(i + 1);
  }

  lemma StatsRowsDescribe(vs: seq<Violation>)
    ensures forall i :: 0 <= i < |vs| ==> DescribesViolation(StatsRows(vs)[i + 1], i, vs[i])
  {
    var rows := StatsRows(vs);
    forall i | 0 <= i < |vs|
      ensures DescribesViolation(rows[i + 1], i, vs[i])
    {
      assert rows[i + 1] == StatsRow(i, vs[i]);
      StatsRowDescribes(i, vs[i]);
    }
  }

  lemma StatsTablePosition(d: Report, c: Clock)
    requires d.violations.Some? && d.violations.value != []
    ensures WordDocument(d, c)[6] == Table(StatsRows(d.violations.value))
    ensures PdfStory(d, c)[12] == Table(StatsRows(d.violations.value))
  {
    var vs := d.violations.value;
    var t := Table(StatsRows(vs));
    var o := OpeningBlocks(d, c);
    BlockAtJoin(o, WordViolationPart(vs), [Heading("整体安全评估"), Para(Assessment(d))]);
    SpacedOne(t);
    SpacedSnoc([t], Heading("详细违规信息"));
    assert [t] + [Heading("详细违规信息")] == [t, Heading("详细违规信息")];
    var part := PdfViolationPart(vs);
    assert part[0] == t;
    BlockAtJoin(Spaced(o), part, Spaced([Heading("整体安全评估")]) + [Para(Assessment(d))]);
  }

  /** The first block of a middle part sits right after the part before it. */
  lemma BlockAtJoin(a: seq<Block>, b: seq<Block>, c: seq<Block>)
    requires b != []
    ensures (a + b + c)[|a|] == b[0]
  {
  }

  /** With violations, the seventh block is the statistics table: a header and one row of four cells
      per violation in input order, numbered from 1, missing cells "未知". The PDF story has the same
      table. */
  lemma StatsTable(d: Report, c: Clock)
    requires d.violations.Some? && d.violations.value != []
    ensures var vs := d.violations.value; var rows := StatsRows(vs);
      WordDocument(d, c)[6] == Table(rows) && PdfStory(d, c)[12] == Table(rows)
      && |rows| == |vs| + 1 && rows[0] == ["序号", "违规类型", "严重程度", "风险等级"]
      && forall i :: 0 <= i < |vs| ==> DescribesViolation(rows[i + 1], i, vs[i])
  {
    StatsTablePosition(d, c);
    StatsRowsDescribe(d.violations.value);
  }

  /** A violation opens with the heading "违规 <i + 1>: <category>" (default "未知类别") and the
      paragraph "违规行为：<description>" (default "无描述"), followed by its two lists. */
  lemma ViolationFrame(i: nat, v: Violation)
    ensures var b := WordViolation(i, v);
      var rb := BulletSection("违反规范：", RegulationLines(v.regulations.GetOr([])));
      var sb := BulletSection("整改建议：", v.suggestions.GetOr([]));
      |b| == 2 + |rb| + |sb|
      && b[0] == Heading("违规 " + NatToString(i + 1) + ": "
                         + (if v.category.Some? then v.category.value else "未知类别"))
      && b[1] == Para("违规行为：" + (if v.description.Some? then v.description.value else "无描述"))
  {
  }

  /** The "违反规范：" paragraph and one bullet per regulation follow, exactly when there are
      regulations; a regulation whose code, article and content are all missing still gets its bullet. */
  lemma ViolationRegulations(i: nat, v: Violation)
    ensures var b := WordViolation(i, v);
      var regs := v.regulations.GetOr([]);
      var rb := BulletSection("违反规范：", RegulationLines(regs));
      b[2..2 + |rb|] == rb
      && (regs == [] <==> rb == [])
      && (regs != [] ==>
            rb[0] == Para("违反规范：")
            && forall k :: 0 <= k < |regs| ==> rb[1 + k] == Bullet("• " + RegulationLine(regs[k])))
  {
    var lines := RegulationLines(v.regulations.GetOr([]));
    var head: seq<Block> := [Heading(ViolationTitle(i, v)), Para(ViolationText(v))];
    var rb := BulletSection("违反规范：", lines);
    ThreeParts(head, rb, BulletSection("整改建议：", v.suggestions.GetOr([])));
    SectionShape("违反规范：", lines);
  }

  /** Then the "整改建议：" paragraph and one bullet per suggestion in order, exactly when there are
      suggestions; nothing follows them. */
  lemma ViolationSuggestions(i: nat, v: Violation)
    ensures var b := WordViolation(i, v);
      var rb := BulletSection("违反规范：", RegulationLines(v.regulations.GetOr([])));
      var sugs := v.suggestions.GetOr([]);
      var sb := BulletSection("整改建议：", sugs);
      b[2 + |rb|..] == sb
      && (sugs == [] <==> sb == [])
      && (sugs != [] ==> sb[0] == Para("整改建议：") && forall k :: 0 <= k < |sugs| ==> sb[1 + k] == Bullet("• " + sugs[k]))
  {
    var sugs := v.suggestions.GetOr([]);
    var head: seq<Block> := [Heading(ViolationTitle(i, v)), Para(ViolationText(v))];
    var rb := BulletSection("违反规范：", RegulationLines(v.regulations.GetOr([])));
    ThreeParts(head, rb, BulletSection("整改建议：", sugs));
    SectionShape("整改建议：", sugs);
  }

  /** A violation holds one bullet per regulation and one per suggestion. */
  lemma ViolationBullets(i: nat, v: Violation)
    ensures BulletCount(WordViolation(i, v)) == |v.regulations.GetOr([])| + |v.suggestions.GetOr([])|
  {
    var regs := v.regulations.GetOr([]);
    var sugs := v.suggestions.GetOr([]);
    var head: seq<Block> := [Heading(ViolationTitle(i, v)), Para(ViolationText(v))];
    var rb := BulletSection("违反规范：", RegulationLines(regs));
    var sb := BulletSection("整改建议：", sugs);
    SectionBullets("违反规范：", RegulationLines(regs));
    SectionBullets("整改建议：", sugs);
    BulletCountNone(head);
    BulletCountAppend(head, rb);
    BulletCountAppend(head + rb, sb);
  }

  /** The number of bullets in the Word document: one per regulation and one per suggestion, over all
      violations. */
  function ListedItems(vs: seq<Violation>): nat {
    if vs == [] then 0
    else
      var v := vs[|vs| - 1];
      ListedItems(vs[..|vs| - 1]) + |v.regulations.GetOr([])| + |v.suggestions.GetOr([])|
  }

  lemma {:induction false} DetailsBullets(vs: seq<Violation>)
    ensures BulletCount(WordDetails(vs)) == ListedItems(vs)
    decreases |vs|
  {
    if vs != [] {
      var init := vs[..|vs| - 1];
      DetailsBullets(init);
      ViolationBullets(|vs| - 1, vs[|vs| - 1]);
      BulletCountAppend(WordDetails(init), WordViolation(|vs| - 1, vs[|vs| - 1]));
    }
  }

  lemma ViolationPartBullets(vs: seq<Violation>)
    ensures BulletCount(WordViolationPart(vs)) == ListedItems(vs)
  {
    if vs != [] {
      var front: seq<Block> := [Table(StatsRows(vs)), Heading("详细违规信息")];
      BulletCountNone(front);
      BulletCountAppend(front, WordDetails(vs));
      DetailsBullets(vs);
    } else {
      BulletCountNone([Para(NoViolations)]);
    }
  }

  /** The whole Word document holds exactly one bullet per regulation and per suggestion. */
  lemma DocumentBullets(d: Report, c: Clock)
    ensures BulletCount(WordDocument(d, c)) == ListedItems(d.violations.GetOr([]))
  {
    var vs := d.violations.GetOr([]);
    ViolationPartBullets(vs);
    OpeningNoBullets(d, c);
    BulletCountNone([Heading("整体安全评估"), Para(Assessment(d))]);
    BulletCountFramed(OpeningBlocks(d, c), WordViolationPart(vs), [Heading("整体安全评估"), Para(Assessment(d))]);
  }


  /** The opening blocks hold no bullet. */
  lemma OpeningNoBullets(d: Report, c: Clock)
    ensures BulletCount(OpeningBlocks(d, c)) == 0
  {
    BulletCountNone(OpeningBlocks(d, c));
  }

  /** Without violations the document is the opening, the "未发现明显违规行为" paragraph and the closing
      assessment: no statistics table and no detailed section. */
  lemma NoViolationsDocument(d: Report, c: Clock)
    requires d.violations.None? || d.violations.value == []
    ensures WordDocument(d, c)
         == OpeningBlocks(d, c) + [Para("未发现明显违规行为"), Heading("整体安全评估"), Para(Assessment(d))]
    ensures forall i :: 6 <= i < |WordDocument(d, c)| ==> !WordDocument(d, c)[i].Table?
    ensures Heading("详细违规信息") !in WordDocument(d, c)
  {
    var doc := WordDocument(d, c);
    assert |doc| == 9;
    assert doc[..6] == OpeningBlocks(d, c);
  }

  /** Both renderings end with the "整体安全评估" heading and the assessment, "无评估" when missing. */
  lemma ClosingBlocks(d: Report, c: Clock)
    ensures var doc := WordDocument(d, c);
      |doc| >= 2 && doc[|doc| - 2] == Heading("整体安全评估") && doc[|doc| - 1] == Para(Assessment(d))
    ensures var story := PdfStory(d, c);
      |story| >= 3 && story[|story| - 3] == Heading("整体安全评估") && story[|story| - 1] == Para(Assessment(d))
    ensures d.summary.None? || d.summary.value.overallAssessment.None? ==> Assessment(d) == "无评估"
  {
    SpacedSnoc([], Heading("整体安全评估"));
  }
}
