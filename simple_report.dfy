/** simple_report.py: the "建筑安全分析报告" document built from an analysis record, once with python-docx
    (Word) and once as a reportlab story (PDF), the probe for a Chinese font, and the dispatch that
    names the file. Its labels, defaults and sections differ from report_generator.py. */
module SimpleReport {
  import opened Wrappers
  import opened Text
  import opened Paths
  import opened Analysis
  import opened Document

  const Title: string := "建筑安全分析报告"
  const NoActions: string := "暂无优先整改事项"

  /** The font files probed in order for a Chinese font. */
  const FontPaths: seq<string> :=
    ["C:/Windows/Fonts/simsun.ttc", "C:/Windows/Fonts/msyh.ttc", "C:/Windows/Fonts/simhei.ttf",
     "C:/Windows/Fonts/simsun.ttf"]

  // ---------------------------------------------------------------------------------------------
  // The document, as functions of the record

  /** `summary.get(key, 0)` for the three numbers of the summary. */
  function TotalScore(d: Report): int {
    if d.summary.Some? then d.summary.value.totalScore.GetOr(0) else 0
  }

  function SevereCount(d: Report): int {
    if d.summary.Some? then d.summary.value.severeCount.GetOr(0) else 0
  }

  function NormalCount(d: Report): int {
    if d.summary.Some? then d.summary.value.normalCount.GetOr(0) else 0
  }

  /** The overview table: a header row and four rows of an item and its value. */
  function OverviewRows(d: Report): seq<seq<string>> {
    [["项目", "数值"],
     ["安全评分", IntToString(TotalScore(d))],
     ["严重违规", IntToString(SevereCount(d))],
     ["一般违规", IntToString(NormalCount(d))],
     ["总违规数", IntToString(SevereCount(d) + NormalCount(d))]]
  }

  function Assessment(d: Report): string {
    if d.summary.Some? then d.summary.value.overallAssessment.GetOr("未能生成评估报告") else "未能生成评估报告"
  }

  function Actions(d: Report): seq<string> {
    if d.summary.Some? then d.summary.value.priorityActions.GetOr([]) else []
  }

  function TimeLine(now: string): string {
    "生成时间: " + now
  }

  function ViolationTitle(i: nat, v: Violation): string {
    NatToString(i + 1) + ". " + v.vtype.GetOr("违规") + " - " + v.category.GetOr("建筑安全违规")
  }

  function Description(v: Violation): string {
    "违规描述: " + v.description.GetOr("无描述")
  }

  function RegulationLine(r: Regulation): string {
    r.code.GetOr("") + " " + r.article.GetOr("") + ": " + r.content.GetOr("")
  }

  function RegulationLines(regs: seq<Regulation>): (r: seq<string>)
    ensures |r| == |regs| && forall i :: 0 <= i < |regs| ==> r[i] == RegulationLine(regs[i])
  {
    if regs == [] then [] else RegulationLines(regs[..|regs| - 1]) + [RegulationLine(regs[|regs| - 1])]
  }

  /** The risk-level paragraph, present only for a non-empty risk level. */
  function RiskBlocks(v: Violation): seq<Block> {
    if Truthy(v.riskLevel) then [Para("风险等级: " + v.riskLevel.value)] else []
  }

  function Overview(d: Report): seq<Block> {
    [Heading("分析概览"), Table(OverviewRows(d))]
  }

  function Evaluation(d: Report): seq<Block> {
    [Heading("整体评估"), Para(Assessment(d))]
  }

  /** The priority actions: one bullet each, or the "暂无优先整改事项" paragraph. */
  function WordActions(d: Report): seq<Block> {
    if Actions(d) != [] then Bullets(Actions(d)) else [Para(NoActions)]
  }

  function PdfActions(d: Report): seq<Block> {
    if Actions(d) != [] then BulletParas(Actions(d)) else [Para(NoActions)]
  }

  /** The Word blocks of the violation at index `i`, closed by an empty paragraph. */
  function WordViolation(i: nat, v: Violation): seq<Block> {
    [Heading(ViolationTitle(i, v)), Para(Description(v))]
    + BulletSection("相关条例:", RegulationLines(v.regulations.GetOr([])))
    + BulletSection("整改建议:", v.suggestions.GetOr([]))
    + RiskBlocks(v)
    + [Spacer]
  }

  function PdfViolation(i: nat, v: Violation): seq<Block> {
    [Heading(ViolationTitle(i, v)), Para(Description(v))]
    + LineSection("相关条例:", RegulationLines(v.regulations.GetOr([])))
    + LineSection("整改建议:", v.suggestions.GetOr([]))
    + RiskBlocks(v)
    + [Spacer]
  }

  function WordDetails(vs: seq<Violation>): seq<Block> {
    if vs == [] then [] else WordDetails(vs[..|vs| - 1]) + WordViolation(|vs| - 1, vs[|vs| - 1])
  }

  function PdfDetails(vs: seq<Violation>): seq<Block> {
    if vs == [] then [] else PdfDetails(vs[..|vs| - 1]) + PdfViolation(|vs| - 1, vs[|vs| - 1])
  }

  /** The "违规详情" section, present only when there are violations. */
  function WordDetailPart(vs: seq<Violation>): seq<Block> {
    if vs != [] then [Heading("违规详情")] + WordDetails(vs) else []
  }

  function PdfDetailPart(vs: seq<Violation>): seq<Block> {
    if vs != [] then [Heading("违规详情")] + PdfDetails(vs) else []
  }

  /** The Word blocks up to the "优先整改事项" heading (`now` is the formatted clock). */
  function WordFront(d: Report, now: string): seq<Block> {
    [Heading(Title)] + [Para(TimeLine(now))] + [Spacer] + Overview(d) + [Spacer] + Evaluation(d)
    + [Heading("优先整改事项")]
  }

  /** The PDF flowables up to the "优先整改事项" heading: a Spacer follows the title and the assessment
      here, unlike on the Word path. */
  function PdfFront(d: Report, now: string): seq<Block> {
    [Heading(Title)] + [Spacer] + [Para(TimeLine(now))] + [Spacer] + Overview(d) + [Spacer] + Evaluation(d)
    + [Spacer] + [Heading("优先整改事项")]
  }

  /** The Word document `generate_word_report` writes, block by block: the title and the time line
      first, and last a Spacer when there are no violations, otherwise the "违规详情" section. */
  function WordDocument(d: Report, now: string): (r: seq<Block>)
    ensures |r| >= 2 && r[0] == Heading(Title) && r[1] == Para(TimeLine(now))
    ensures d.violations.GetOr([]) == [] ==> r[|r| - 1] == Spacer
    ensures d.violations.GetOr([]) != [] ==>
              var k := |WordDetailPart(d.violations.GetOr([]))|;
              0 < k <= |r| && r[|r| - k] == Heading("违规详情")
  {
    var front := WordFront(d, now);
    assert front[0] == Heading(Title) && front[1] == Para(TimeLine(now));
    LayoutEnds(front, WordActions(d), WordDetailPart(d.violations.GetOr([])));
    front + WordActions(d) + [Spacer] + WordDetailPart(d.violations.GetOr([]))
  }

  /** The story `generate_pdf_report` builds: the title, a Spacer and the time line first, and the
      same ending as the Word document. */
  function PdfStory(d: Report, now: string): (r: seq<Block>)
    ensures |r| >= 3 && r[0] == Heading(Title) && r[1] == Spacer && r[2] == Para(TimeLine(now))
    ensures d.violations.GetOr([]) == [] ==> r[|r| - 1] == Spacer
    ensures d.violations.GetOr([]) != [] ==>
              var k := |PdfDetailPart(d.violations.GetOr([]))|;
              0 < k <= |r| && r[|r| - k] == Heading("违规详情")
  {
    var front := PdfFront(d, now);
    assert front[0] == Heading(Title) && front[1] == Spacer && front[2] == Para(TimeLine(now));
    LayoutEnds(front, PdfActions(d), PdfDetailPart(d.violations.GetOr([])));
    front + PdfActions(d) + [Spacer] + PdfDetailPart(d.violations.GetOr([]))
  }

  /** Both layouts put the front first and a Spacer before the detail part, which comes last. */
  lemma LayoutEnds(front: seq<Block>, actions: seq<Block>, details: seq<Block>)
    ensures var r := front + actions + [Spacer] + details;
      (forall i :: 0 <= i < |front| ==> r[i] == front[i])
      && (details == [] ==> r[|r| - 1] == Spacer)
      && (details != [] ==> r[|r| - |details|] == details[0])
  {
  }

  // ---------------------------------------------------------------------------------------------
  // The two renderings read the same

  lemma ViolationReadsAlike(i: nat, v: Violation)
    ensures Content(PdfViolation(i, v)) == Content(WordViolation(i, v))
  {
    var head := [Heading(ViolationTitle(i, v)), Para(Description(v))];
    var lines := RegulationLines(v.regulations.GetOr([]));
    var sugs := v.suggestions.GetOr([]);
    var wr, pr := BulletSection("相关条例:", lines), LineSection("相关条例:", lines);
    var ws, ps := BulletSection("整改建议:", sugs), LineSection("整改建议:", sugs);
    var risk := RiskBlocks(v);
    SectionsReadAlike("相关条例:", lines);
    SectionsReadAlike("整改建议:", sugs);
    ContentAppend(head + wr + ws + risk, [Spacer]);
    ContentAppend(head + wr + ws, risk);
    ContentAppend(head + wr, ws);
    ContentAppend(head, wr);
    ContentAppend(head + pr + ps + risk, [Spacer]);
    ContentAppend(head + pr + ps, risk);
    ContentAppend(head + pr, ps);
    ContentAppend(head, pr);
  }

  lemma {:induction false} DetailsReadAlike(vs: seq<Violation>)
    ensures Content(PdfDetails(vs)) == Content(WordDetails(vs))
    decreases |vs|
  {
    if vs != [] {
      var init := vs[..|vs| - 1];
      var i := |vs| - 1;
      DetailsReadAlike(init);
      ViolationReadsAlike(i, vs[i]);
      ContentAppend(PdfDetails(init), PdfViolation(i, vs[i]));
      ContentAppend(WordDetails(init), WordViolation(i, vs[i]));
    }
  }

  lemma DetailPartsReadAlike(vs: seq<Violation>)
    ensures Content(PdfDetailPart(vs)) == Content(WordDetailPart(vs))
  {
    if vs != [] {
      DetailsReadAlike(vs);
      ContentAppend([Heading("违规详情")], PdfDetails(vs));
      ContentAppend([Heading("违规详情")], WordDetails(vs));
    }
  }

  lemma ActionsReadAlike(d: Report)
    ensures Content(PdfActions(d)) == Content(WordActions(d))
  {
    if Actions(d) != [] {
      BulletsReadAsParas(Actions(d));
    }
  }

  /** Appending a part adds what it shows; appending a Spacer adds nothing. */
  lemma ContentStep(a: seq<Block>, b: seq<Block>, shown: seq<Block>)
    requires Content(a) == shown
    ensures Content(a + b) == shown + Content(b)
    ensures Content(a + [Spacer]) == shown
  {
    ContentAppend(a, b);
    ContentAppend(a, [Spacer]);
    ContentSpacer();
  }

  /** Five parts of the PDF layout with the Spacers between them. */
  lemma PdfLayoutContent(g1: seq<Block>, g2: seq<Block>, g3: seq<Block>, g4: seq<Block>, g5: seq<Block>,
                         m: seq<Block>, e: seq<Block>)
    ensures Content(g1 + [Spacer] + g2 + [Spacer] + g3 + [Spacer] + g4 + [Spacer] + g5 + m + [Spacer] + e)
         == Content(g1) + Content(g2) + Content(g3) + Content(g4) + Content(g5) + Content(m) + Content(e)
  {
    var s: seq<Block> := [Spacer];
    var c := Content(g1);
    ContentStep(g1, g2, c);
    var p := g1 + s + g2;
    ContentStep(g1 + s, g2, c);
    c := c + Content(g2);
    ContentStep(p, g3, c);
    ContentStep(p + s, g3, c);
    p := p + s + g3;
    c := c + Content(g3);
    ContentStep(p, g4, c);
    ContentStep(p + s, g4, c);
    p := p + s + g4;
    c := c + Content(g4);
    ContentStep(p, g5, c);
    ContentStep(p + s, g5, c);
    p := p + s + g5;
    c := c + Content(g5);
    ContentStep(p, m, c);
    p := p + m;
    c := c + Content(m);
    ContentStep(p, e, c);
    ContentStep(p + s, e, c);
  }

  /** The Word layout of the same parts: no Spacer after the title or after the assessment. */
  lemma WordLayoutContent(g1: seq<Block>, g2: seq<Block>, g3: seq<Block>, g4: seq<Block>, g5: seq<Block>,
                          m: seq<Block>, e: seq<Block>)
    ensures Content(g1 + g2 + [Spacer] + g3 + [Spacer] + g4 + g5 + m + [Spacer] + e)
         == Content(g1) + Content(g2) + Content(g3) + Content(g4) + Content(g5) + Content(m) + Content(e)
  {
    var s: seq<Block> := [Spacer];
    var c := Content(g1);
    ContentStep(g1, g2, c);
    var p := g1 + g2;
    c := c + Content(g2);
    ContentStep(p, g3, c);
    ContentStep(p + s, g3, c);
    p := p + s + g3;
    c := c + Content(g3);
    ContentStep(p, g4, c);
    ContentStep(p + s, g4, c);
    p := p + s + g4;
    c := c + Content(g4);
    ContentStep(p, g5, c);
    p := p + g5;
    c := c + Content(g5);
    ContentStep(p, m, c);
    p := p + m;
    c := c + Content(m);
    ContentStep(p, e, c);
    ContentStep(p + s, e, c);
  }

  /** The PDF story shows the same texts and tables as the Word document, in the same order. */
  lemma PdfMatchesWord(d: Report, now: string)
    ensures Content(PdfStory(d, now)) == Content(WordDocument(d, now))
  {
    var vs := d.violations.GetOr([]);
    ActionsReadAlike(d);
    DetailPartsReadAlike(vs);
    var g1, g2, g5 := [Heading(Title)], [Para(TimeLine(now))], [Heading("优先整改事项")];
    PdfLayoutContent(g1, g2, Overview(d), Evaluation(d), g5, PdfActions(d), PdfDetailPart(vs));
    WordLayoutContent(g1, g2, Overview(d), Evaluation(d), g5, WordActions(d), WordDetailPart(vs));
  }

  // ---------------------------------------------------------------------------------------------
  // The builders, call by call

  /** The overview table: the header row, then one `add_row` per item of `table_data`. */
  method BuildOverviewTable(d: Report) returns (rows: seq<seq<string>>)
    ensures rows == OverviewRows(d)
  {
    var tableData := OverviewRows(d)[1..];
    rows := [["项目", "数值"]];
    for k := 0 to |tableData|
      invariant rows == OverviewRows(d)[..k + 1]
    {
      rows := rows + [[tableData[k][0], tableData[k][1]]];
    }
  }

  /** One bullet per priority action, or the "暂无优先整改事项" paragraph. */
  method EmitActions(d: Report) returns (blocks: seq<Block>)
    ensures blocks == WordActions(d)
  {
    var acts := Actions(d);
    if acts != [] {
      blocks := [];
      for k := 0 to |acts|
        invariant blocks == Bullets(acts[..k])
      {
        BulletsSnoc(acts[..k], acts[k]);
        assert acts[..k + 1] == acts[..k] + [acts[k]];
        blocks := blocks + [Bullet("• " + acts[k])];
      }
      assert acts[..|acts|] == acts;
    } else {
      blocks := [Para(NoActions)];
    }
  }

  method AppendPdfActions(d: Report) returns (story: seq<Block>)
    ensures story == PdfActions(d)
  {
    var acts := Actions(d);
    if acts != [] {
      story := [];
      for k := 0 to |acts|
        invariant story == BulletParas(acts[..k])
      {
        BulletParasSnoc(acts[..k], acts[k]);
        assert acts[..k + 1] == acts[..k] + [acts[k]];
        story := story + [Para("• " + acts[k])];
      }
      assert acts[..|acts|] == acts;
    } else {
      story := [Para(NoActions)];
    }
  }

  /** A titled list on the Word path: the title paragraph, then one bullet per item in order. */
  method EmitSection(title: string, items: seq<string>) returns (blocks: seq<Block>)
    ensures blocks == BulletSection(title, items)
  {
    blocks := [];
    if items != [] {
      blocks := [Para(title)];
      for k := 0 to |items|
        invariant blocks == [Para(title)] + Bullets(items[..k])
      {
        BulletsSnoc(items[..k], items[k]);
        assert items[..k + 1] == items[..k] + [items[k]];
        blocks := blocks + [Bullet("• " + items[k])];
      }
      assert items[..|items|] == items;
    }
  }

  /** The same list on the PDF path, as "• " paragraphs. */
  method AppendSection(title: string, items: seq<string>) returns (story: seq<Block>)
    ensures story == LineSection(title, items)
  {
    story := [];
    if items != [] {
      story := [Para(title)];
      for k := 0 to |items|
        invariant story == [Para(title)] + BulletParas(items[..k])
      {
        BulletParasSnoc(items[..k], items[k]);
        assert items[..k + 1] == items[..k] + [items[k]];
        story := story + [Para("• " + items[k])];
      }
      assert items[..|items|] == items;
    }
  }

  /** The regulation lines, formatted one by one. */
  method FormatRegulations(regs: seq<Regulation>) returns (lines: seq<string>)
    ensures lines == RegulationLines(regs)
  {
    lines := [];
    for k := 0 to |regs|
      invariant lines == RegulationLines(regs[..k])
    {
      assert regs[..k + 1][..k] == regs[..k];
      lines := lines + [RegulationLine(regs[k])];
    }
    assert regs[..|regs|] == regs;
  }

  method EmitWordViolation(i: nat, v: Violation) returns (blocks: seq<Block>)
    ensures blocks == WordViolation(i, v)
  {
    blocks := [Heading(ViolationTitle(i, v)), Para(Description(v))];
    var lines := FormatRegulations(v.regulations.GetOr([]));
    var regBlocks := EmitSection("相关条例:", lines);
    blocks := blocks + regBlocks;
    var sugBlocks := EmitSection("整改建议:", v.suggestions.GetOr([]));
    blocks := blocks + sugBlocks;
    if Truthy(v.riskLevel) {
      blocks := blocks + [Para("风险等级: " + v.riskLevel.value)];
    }
    blocks := blocks + [Spacer];
  }

  method AppendPdfViolation(i: nat, v: Violation) returns (story: seq<Block>)
    ensures story == PdfViolation(i, v)
  {
    story := [Heading(ViolationTitle(i, v)), Para(Description(v))];
    var lines := FormatRegulations(v.regulations.GetOr([]));
    var regLines := AppendSection("相关条例:", lines);
    story := story + regLines;
    var sugLines := AppendSection("整改建议:", v.suggestions.GetOr([]));
    story := story + sugLines;
    if Truthy(v.riskLevel) {
      story := story + [Para("风险等级: " + v.riskLevel.value)];
    }
    story := story + [Spacer];
  }

  method EmitWordDetails(vs: seq<Violation>) returns (blocks: seq<Block>)
    ensures blocks == WordDetails(vs)
  {
    blocks := [];
    for i := 0 to |vs|
      invariant blocks == WordDetails(vs[..i])
    {
      var vb := EmitWordViolation(i, vs[i]);
      assert vs[..i + 1][..i] == vs[..i];
      blocks := blocks + vb;
    }
    assert vs[..|vs|] == vs;
  }

  method AppendPdfDetails(vs: seq<Violation>) returns (story: seq<Block>)
    ensures story == PdfDetails(vs)
  {
    story := [];
    for i := 0 to |vs|
      invariant story == PdfDetails(vs[..i])
    {
      var vb := AppendPdfViolation(i, vs[i]);
      assert vs[..i + 1][..i] == vs[..i];
      story := story + vb;
    }
    assert vs[..|vs|] == vs;
  }

  /** `generate_word_report`: the document is built call by call and then saved. */
  method GenerateWordReport(d: Report, now: string, lib: Renderer) returns (ok: bool, saved: Option<seq<Block>>)
    ensures saved == (if lib.importable && lib.saves then Some(WordDocument(d, now)) else None)
    ensures ok <==> saved.Some?
  {
    if !lib.importable {
      return false, None;
    }
    var doc := [Heading(Title)] + [Para(TimeLine(now))] + [Spacer];
    var rows := BuildOverviewTable(d);
    doc := doc + [Heading("分析概览"), Table(rows)] + [Spacer];
    doc := doc + [Heading("整体评估"), Para(Assessment(d))];
    doc := doc + [Heading("优先整改事项")];
    var acts := EmitActions(d);
    doc := doc + acts + [Spacer];
    var vs := d.violations.GetOr([]);
    var part: seq<Block> := [];
    if vs != [] {
      var details := EmitWordDetails(vs);
      part := [Heading("违规详情")] + details;
    }
    doc := doc + part;
    assert doc == WordDocument(d, now);
    if !lib.saves {
      return false, None;
    }
    return true, Some(doc);
  }

  // ---------------------------------------------------------------------------------------------
  // The Chinese font

  /** The font machinery of the machine: whether `reportlab.pdfbase` imports, which files exist
      (`os.path.exists`) and which of them `registerFont` accepts. */
  datatype FontSystem = FontSystem(importable: bool, present: string -> bool, registers: string -> bool)

  predicate Usable(fs: FontSystem, p: string) {
    fs.present(p) && fs.registers(p)
  }

  /** The index of the first candidate that exists and registers, or -1. */
  function FirstUsable(fs: FontSystem, paths: seq<string>): (k: int)
    ensures -1 <= k < |paths|
    ensures k >= 0 ==> Usable(fs, paths[k]) && forall j :: 0 <= j < k ==> !Usable(fs, paths[j])
    ensures k == -1 ==> forall j :: 0 <= j < |paths| ==> !Usable(fs, paths[j])
  {
    if paths == [] then -1
    else if Usable(fs, paths[0]) then 0
    else
      var k := FirstUsable(fs, paths[1..]);
      if k == -1 then -1 else k + 1
  }

  /** The candidates among `paths` that exist, in order: those handed to `registerFont`. */
  function Existing(fs: FontSystem, paths: seq<string>): (r: seq<string>)
    ensures |r| <= |paths|
    ensures forall i :: 0 <= i < |r| ==> fs.present(r[i])
  {
    if paths == [] then []
    else Existing(fs, paths[..|paths| - 1]) + (if fs.present(paths[|paths| - 1]) then [paths[|paths| - 1]] else [])
  }

  /** The font probe: the candidates are tried in order, a missing file is skipped, a file that fails to
      register is skipped too, and the first that registers ends the search. Returns the font name the
      styles use and the files `registerFont` was called with; `paths` is the candidate list, `FontPaths`
      in the report. */
  method ResolveFont(fs: FontSystem, paths: seq<string>) returns (font: string, attempts: seq<string>)
    ensures var k := FirstUsable(fs, paths);
      if fs.importable && k >= 0 then font == "ChineseFont" && attempts == Existing(fs, paths[..k + 1])
      else font == "Helvetica" && attempts == (if fs.importable then Existing(fs, paths) else [])
  {
    font := "Helvetica";
    attempts := [];
    if !fs.importable {
      return;
    }
    for i := 0 to |paths|
      invariant font == "Helvetica"
      invariant attempts == Existing(fs, paths[..i])
      invariant forall j :: 0 <= j < i ==> !Usable(fs, paths[j])
    {
      var path := paths[i];
      assert paths[..i + 1][..i] == paths[..i];
      if fs.present(path) {
        attempts := attempts + [path];
        if fs.registers(path) {
          font := "ChineseFont";
          break;
        }
      }
    }
    assert paths[..|paths|] == paths;
  }

  /** The probe succeeds exactly when some candidate exists and registers, and the last file handed to
      `registerFont` is then the one in use. */
  lemma ProbeSucceedsIff(fs: FontSystem)
    requires fs.importable
    ensures FirstUsable(fs, FontPaths) >= 0 <==> exists j :: 0 <= j < |FontPaths| && Usable(fs, FontPaths[j])
    ensures var k := FirstUsable(fs, FontPaths);
      k >= 0 ==> var a := Existing(fs, FontPaths[..k + 1]); |a| > 0 && a[|a| - 1] == FontPaths[k]
  {
    var k := FirstUsable(fs, FontPaths);
    if k >= 0 {
      assert FontPaths[..k + 1][..k] == FontPaths[..k];
    }
  }

  // ---------------------------------------------------------------------------------------------
  // The PDF builder

  method AppendOverview(d: Report) returns (story: seq<Block>)
    ensures story == Overview(d)
  {
    story := [Heading("分析概览")];
    var tableData := OverviewRows(d);
    story := story + [Table(tableData)];
  }

  /** `generate_pdf_report`: the font is probed, the story appended flowable by flowable, then built.
      The result says whether a PDF was built and from which story, and which font its styles use. */
  method GeneratePdfReport(d: Report, now: string, lib: Renderer, fs: FontSystem)
    returns (ok: bool, built: Option<seq<Block>>, font: string)
    ensures built == (if lib.importable && lib.saves then Some(PdfStory(d, now)) else None)
    ensures ok <==> built.Some?
    ensures lib.importable ==>
              font == (if fs.importable && FirstUsable(fs, FontPaths) >= 0 then "ChineseFont" else "Helvetica")
  {
    font := "Helvetica";
    if !lib.importable {
      return false, None, font;
    }
    var attempts;
    font, attempts := ResolveFont(fs, FontPaths);
    var story := [Heading(Title)] + [Spacer] + [Para(TimeLine(now))] + [Spacer];
    var overview := AppendOverview(d);
    story := story + overview + [Spacer];
    story := story + [Heading("整体评估"), Para(Assessment(d))] + [Spacer];
    story := story + [Heading("优先整改事项")];
    var acts := AppendPdfActions(d);
    story := story + acts + [Spacer];
    var vs := d.violations.GetOr([]);
    var part: seq<Block> := [];
    if vs != [] {
      var details := AppendPdfDetails(vs);
      part := [Heading("违规详情")] + details;
    }
    story := story + part;
    assert story == PdfStory(d, now);
    if !lib.saves {
      return false, None, font;
    }
    return true, Some(story), font;
  }

  // ---------------------------------------------------------------------------------------------
  // Format dispatch and file name

  /** The file name for a format: only the exact strings "word" and "pdf" have one. */
  function ReportFileName(format: string, stamp: string): (r: Option<string>)
    ensures r.Some? <==> format == "word" || format == "pdf"
    ensures r.Some? ==> StartsWith(r.value, "Building_Safety_Report_" + stamp)
  {
    if format == "word" then Some("Building_Safety_Report_" + stamp + ".docx")
    else if format == "pdf" then Some("Building_Safety_Report_" + stamp + ".pdf")
    else None
  }

  /** `generate_report`: creates the output directory first, then hands the record to the renderer the
      format names. Any other format returns false without rendering anything. */
  method GenerateReport(d: Report, format: string, outputDir: string, stamp: string, now: string,
                        word: Renderer, pdf: Renderer, fs: FontSystem)
    returns (ok: bool, effects: seq<Effect>)
    ensures |effects| >= 1 && effects[0] == MakeDirs(outputDir)
    ensures ok <==> (format == "word" && word.importable && word.saves)
                    || (format == "pdf" && pdf.importable && pdf.saves)
    ensures format == "word" && ok ==>
              effects == [MakeDirs(outputDir),
                          Save(PyJoin(outputDir, "Building_Safety_Report_" + stamp + ".docx"), WordDocument(d, now))]
    ensures format == "pdf" && ok ==>
              effects == [MakeDirs(outputDir),
                          Save(PyJoin(outputDir, "Building_Safety_Report_" + stamp + ".pdf"), PdfStory(d, now))]
    ensures !ok ==> effects == [MakeDirs(outputDir)]
  {
    effects := [MakeDirs(outputDir)];
    ok := false;
    if format == "word" {
      var outputPath := PyJoin(outputDir, "Building_Safety_Report_" + stamp + ".docx");
      var saved;
      ok, saved := GenerateWordReport(d, now, word);
      if ok {
        effects := effects + [Save(outputPath, saved.value)];
      }
    } else if format == "pdf" {
      var outputPath := PyJoin(outputDir, "Building_Safety_Report_" + stamp + ".pdf");
      var built, font;
      ok, built, font := GeneratePdfReport(d, now, pdf, fs);
      if ok {
        effects := effects + [Save(outputPath, built.value)];
      }
    }
  }

  /** Unlike report_generator.py, the format is not lower-cased: "Word" or "PDF" has no file. */
  lemma FormatIsCaseSensitive(format: string, stamp: string)
    requires LowerAscii(format) != format
    ensures ReportFileName(format, stamp).None?
  {
  }

  // ---------------------------------------------------------------------------------------------
  // What the document contains

  lemma WordFrontBlocks(d: Report, now: string)
    ensures WordFront(d, now)
         == [Heading(Title), Para(TimeLine(now)), Spacer, Heading("分析概览"), Table(OverviewRows(d)), Spacer,
             Heading("整体评估"), Para(Assessment(d)), Heading("优先整改事项")]
  {
  }

  lemma PdfFrontBlocks(d: Report, now: string)
    ensures PdfFront(d, now)
         == [Heading(Title), Spacer, Para(TimeLine(now)), Spacer, Heading("分析概览"), Table(OverviewRows(d)),
             Spacer, Heading("整体评估"), Para(Assessment(d)), Spacer, Heading("优先整改事项")]
  {
  }

  /** The blocks of a document made of a front, a middle, a Spacer and a last part, by position. */
  lemma FourParts(front: seq<Block>, mid: seq<Block>, last: seq<Block>)
    ensures var doc := front + mid + [Spacer] + last;
      |doc| == |front| + |mid| + 1 + |last|
      && doc[..|front|] == front
      && doc[|front|..|front| + |mid|] == mid
      && doc[|front| + |mid|] == Spacer
      && doc[|front| + |mid| + 1..] == last
  {
  }

  lemma WordAt(d: Report, now: string, k: nat)
    requires k < 9
    ensures WordDocument(d, now)[k] == WordFront(d, now)[k]
  {
    var doc := WordFront(d, now) + WordActions(d) + [Spacer] + WordDetailPart(d.violations.GetOr([]));
    assert doc[k] == WordFront(d, now)[k];
  }

  lemma PdfAt(d: Report, now: string, k: nat)
    requires k < 11
    ensures PdfStory(d, now)[k] == PdfFront(d, now)[k]
  {
    var story := PdfFront(d, now) + PdfActions(d) + [Spacer] + PdfDetailPart(d.violations.GetOr([]));
    assert story[k] == PdfFront(d, now)[k];
  }

  lemma WordOverviewAt(d: Report, now: string)
    ensures WordDocument(d, now)[4] == Table(OverviewRows(d))
  {
    WordAt(d, now, 4);
  }

  lemma PdfOverviewAt(d: Report, now: string)
    ensures PdfStory(d, now)[5] == Table(OverviewRows(d))
  {
    PdfAt(d, now, 5);
  }

  /** The overview table is the fifth Word block and the sixth PDF flowable. */
  lemma OverviewTable(d: Report, now: string)
    ensures WordDocument(d, now)[4] == Table(OverviewRows(d)) && PdfStory(d, now)[5] == Table(OverviewRows(d))
  {
    WordOverviewAt(d, now);
    PdfOverviewAt(d, now);
  }

  /** The overview holds the header 项目/数值 and four rows, the last being the total 总违规数 =
      severe_count + normal_count; missing numbers are 0. */
  lemma OverviewRowsShape(d: Report)
    ensures var rows := OverviewRows(d);
      |rows| == 5 && rows[0] == ["项目", "数值"]
      && (forall i :: 0 <= i < 5 ==> |rows[i]| == 2)
      && rows[1][0] == "安全评分" && rows[2][0] == "严重违规" && rows[3][0] == "一般违规" && rows[4][0] == "总违规数"
      && rows[4][1] == IntToString(SevereCount(d) + NormalCount(d))
    ensures d.summary.None? ==> OverviewRows(d)[4][1] == "0" && OverviewRows(d)[1][1] == "0"
  {
    assert NatToString(0) == "0";
  }

  /** The total in the overview comes from the summary alone: replacing the list of violations changes
      nothing in the table, so the total need not equal the number of violations listed. */
  lemma TotalIgnoresViolationList(d: Report, vs: Option<seq<Violation>>)
    ensures OverviewRows(d.(violations := vs)) == OverviewRows(d)
    ensures d.summary.None? && vs == Some([Violation(None, None, None, None, None, None, None, None)]) ==>
              OverviewRows(d.(violations := vs))[4][1] == "0" && |vs.value| == 1
  {
    assert NatToString(0) == "0";
  }

  /** The assessment paragraph follows the "整体评估" heading; it is "未能生成评估报告" when missing. */
  lemma AssessmentParagraph(d: Report, now: string)
    ensures WordDocument(d, now)[6] == Heading("整体评估") && WordDocument(d, now)[7] == Para(Assessment(d))
    ensures PdfStory(d, now)[7] == Heading("整体评估") && PdfStory(d, now)[8] == Para(Assessment(d))
    ensures d.summary.None? || d.summary.value.overallAssessment.None? ==> Assessment(d) == "未能生成评估报告"
  {
    WordAssessmentAt(d, now);
    PdfAssessmentAt(d, now);
  }

  lemma WordAssessmentAt(d: Report, now: string)
    ensures WordDocument(d, now)[6] == Heading("整体评估") && WordDocument(d, now)[7] == Para(Assessment(d))
  {
    WordAt(d, now, 6);
    WordAt(d, now, 7);
  }

  lemma PdfAssessmentAt(d: Report, now: string)
    ensures PdfStory(d, now)[7] == Heading("整体评估") && PdfStory(d, now)[8] == Para(Assessment(d))
  {
    PdfAt(d, now, 7);
    PdfAt(d, now, 8);
  }

  /** After the "优先整改事项" heading come one bullet per priority action in order, or exactly the
      paragraph "暂无优先整改事项" when there is none. */
  lemma ActionBlocks(d: Report, now: string)
    ensures var doc := WordDocument(d, now); var wa := WordActions(d);
      doc[8] == Heading("优先整改事项") && doc[9..9 + |wa|] == wa
    ensures var story := PdfStory(d, now); var pa := PdfActions(d);
      story[10] == Heading("优先整改事项") && story[11..11 + |pa|] == pa
    ensures Actions(d) == [] ==> WordActions(d) == [Para("暂无优先整改事项")] && PdfActions(d) == [Para("暂无优先整改事项")]
    ensures var acts := Actions(d);
      acts != [] ==> |WordActions(d)| == |acts| && forall k :: 0 <= k < |acts| ==> WordActions(d)[k] == Bullet("• " + acts[k])
  {
    var vs := d.violations.GetOr([]);
    BulletsElements(Actions(d));
    WordAt(d, now, 8);
    FourParts(WordFront(d, now), WordActions(d), WordDetailPart(vs));
    PdfAt(d, now, 10);
    FourParts(PdfFront(d, now), PdfActions(d), PdfDetailPart(vs));
  }

  /** The "违规详情" section follows the actions and their empty paragraph exactly when there are
      violations; without violations the document ends there. */
  lemma DetailSection(d: Report, now: string)
    ensures var doc := WordDocument(d, now); var n := 10 + |WordActions(d)|;
      var vs := d.violations.GetOr([]);
      |doc| >= n && doc[n - 1] == Spacer
      && (vs == [] <==> |doc| == n)
      && (vs != [] ==> doc[n] == Heading("违规详情") && doc[n + 1..] == WordDetails(vs))
  {
    WordFrontLength(d, now);
    DetailsAfter(WordFront(d, now), WordActions(d), d.violations.GetOr([]));
  }

  /** The shape of the end of the Word document, for any front of nine blocks and any actions. */
  lemma DetailsAfter(front: seq<Block>, mid: seq<Block>, vs: seq<Violation>)
    requires |front| == 9
    ensures var doc := front + mid + [Spacer] + WordDetailPart(vs); var n := 10 + |mid|;
      |doc| >= n && doc[n - 1] == Spacer
      && (vs == [] <==> |doc| == n)
      && (vs != [] ==> doc[n] == Heading("违规详情") && doc[n + 1..] == WordDetails(vs))
  {
    var last := WordDetailPart(vs);
    var doc := front + mid + [Spacer] + last;
    FourParts(front, mid, last);
    var n := 10 + |mid|;
    assert doc[n..] == last;
    if vs != [] {
      assert last[0] == Heading("违规详情") && last[1..] == WordDetails(vs);
      assert doc[n + 1..] == doc[n..][1..];
    }
  }

  lemma WordFrontLength(d: Report, now: string)
    ensures |WordFront(d, now)| == 9
  {
  }

  /** A violation opens with the heading "<i + 1>. <type> - <category>" (defaults "违规" and
      "建筑安全违规") and the description (default "无描述"), and closes with an empty paragraph. */
  lemma ViolationFrame(i: nat, v: Violation)
    ensures var b := WordViolation(i, v);
      |b| >= 3
      && b[0] == Heading(NatToString(i + 1) + ". " + (if v.vtype.Some? then v.vtype.value else "违规") + " - "
                         + (if v.category.Some? then v.category.value else "建筑安全违规"))
      && b[1] == Para("违规描述: " + (if v.description.Some? then v.description.value else "无描述"))
      && b[|b| - 1] == Spacer
  {
  }

  /** Where the five parts of a violation lie. */
  lemma FiveParts(a: seq<Block>, b: seq<Block>, c: seq<Block>, e: seq<Block>, f: seq<Block>)
    ensures var s := a + b + c + e + f;
      |s| == |a| + |b| + |c| + |e| + |f|
      && s[|a|..|a| + |b|] == b
      && s[|a| + |b|..|a| + |b| + |c|] == c
      && (|e| == 1 ==> s[|a| + |b| + |c|] == e[0])
  {
    var s := a + b + c + e + f;
    assert s == (a + b) + (c + (e + f));
    assert (a + b)[|a|..] == b;
  }

  /** The "相关条例:" paragraph and one bullet per regulation follow, exactly when there are regulations;
      a regulation whose fields are all missing still gets its bullet " : ". */
  lemma ViolationRegulations(i: nat, v: Violation)
    ensures var b := WordViolation(i, v);
      var regs := v.regulations.GetOr([]);
      var rb := BulletSection("相关条例:", RegulationLines(regs));
      b[2..2 + |rb|] == rb
      && (regs == [] <==> rb == [])
      && (regs != [] ==>
            rb[0] == Para("相关条例:")
            && forall j :: 0 <= j < |regs| ==> rb[1 + j] == Bullet("• " + RegulationLine(regs[j])))
  {
    var lines := RegulationLines(v.regulations.GetOr([]));
    var head: seq<Block> := [Heading(ViolationTitle(i, v)), Para(Description(v))];
    var rb := BulletSection("相关条例:", lines);
    FiveParts(head, rb, BulletSection("整改建议:", v.suggestions.GetOr([])), RiskBlocks(v), [Spacer]);
    SectionShape("相关条例:", lines);
  }

  /** Then the "整改建议:" paragraph and one bullet per suggestion in order, exactly when there are
      suggestions, and the "风险等级: " line exactly when the risk level is a non-empty string. */
  lemma ViolationSuggestionsAndRisk(i: nat, v: Violation)
    ensures var b := WordViolation(i, v);
      var rb := BulletSection("相关条例:", RegulationLines(v.regulations.GetOr([])));
      var sugs := v.suggestions.GetOr([]);
      var sb := BulletSection("整改建议:", sugs);
      var n := 2 + |rb| + |sb|;
      b[2 + |rb|..n] == sb
      && (sugs == [] <==> sb == [])
      && (sugs != [] ==> sb[0] == Para("整改建议:") && forall j :: 0 <= j < |sugs| ==> sb[1 + j] == Bullet("• " + sugs[j]))
      && (Truthy(v.riskLevel) <==> |b| == n + 2)
      && (Truthy(v.riskLevel) ==> b[n] == Para("风险等级: " + v.riskLevel.value))
  {
    var sugs := v.suggestions.GetOr([]);
    var head: seq<Block> := [Heading(ViolationTitle(i, v)), Para(Description(v))];
    var rb := BulletSection("相关条例:", RegulationLines(v.regulations.GetOr([])));
    SuffixParts(head, rb, BulletSection("整改建议:", sugs), RiskBlocks(v));
    SectionShape("整改建议:", sugs);
    RiskShape(v);
  }

  /** Where the suggestions and the risk line sit in a violation, for any parts. */
  lemma SuffixParts(head: seq<Block>, rb: seq<Block>, sb: seq<Block>, risk: seq<Block>)
    requires |head| == 2
    ensures var b := head + rb + sb + risk + [Spacer]; var n := 2 + |rb| + |sb|;
      b[2 + |rb|..n] == sb && |b| == n + |risk| + 1 && (|risk| == 1 ==> b[n] == risk[0])
  {
    FiveParts(head, rb, sb, risk, [Spacer]);
  }

  lemma RiskShape(v: Violation)
    ensures |RiskBlocks(v)| == (if Truthy(v.riskLevel) then 1 else 0)
    ensures Truthy(v.riskLevel) ==> RiskBlocks(v)[0] == Para("风险等级: " + v.riskLevel.value)
  {
  }

  /** A violation holds one bullet per regulation and one per suggestion, whatever their fields. */
  lemma ViolationBullets(i: nat, v: Violation)
    ensures BulletCount(WordViolation(i, v)) == |v.regulations.GetOr([])| + |v.suggestions.GetOr([])|
  {
    var regs := v.regulations.GetOr([]);
    var sugs := v.suggestions.GetOr([]);
    var head: seq<Block> := [Heading(ViolationTitle(i, v)), Para(Description(v))];
    var rb := BulletSection("相关条例:", RegulationLines(regs));
    var sb := BulletSection("整改建议:", sugs);
    var risk := RiskBlocks(v);
    SectionBullets("相关条例:", RegulationLines(regs));
    SectionBullets("整改建议:", sugs);
    BulletCountNone(head);
    BulletCountNone(risk);
    BulletCountNone([Spacer]);
    BulletCountAppend(head, rb);
    BulletCountAppend(head + rb, sb);
    BulletCountAppend(head + rb + sb, risk);
    BulletCountAppend(head + rb + sb + risk, [Spacer]);
  }
}
