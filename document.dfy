/** The content a report renderer receives, independent of the rendering library: python-docx calls
    (`add_heading`, `add_paragraph`, `add_table`) on the Word path and reportlab flowables
    (`Paragraph`, `Table`, `Spacer`) on the PDF path. */
module Document {

  /** One block of a report. `Bullet` is a Word paragraph in the 'List Bullet' style; `Spacer` is vertical
      space: a reportlab `Spacer` or an empty Word paragraph (`doc.add_paragraph()` with no text). */
  datatype Block =
    | Heading(text: string)
    | Para(text: string)
    | Bullet(text: string)
    | Table(rows: seq<seq<string>>)
    | Spacer

  /** A file-system step of a report generator: creating the output directory, or writing a document
      with the given blocks to a path. */
  datatype Effect = MakeDirs(dir: string) | Save(path: string, blocks: seq<Block>)

  /** A rendering library (python-docx or reportlab): whether its import succeeds and whether writing
      the file succeeds. */
  datatype Renderer = Renderer(importable: bool, saves: bool)

  /** What one block shows a reader once vertical space and list styling are set aside. */
  function Visible(b: Block): (r: seq<Block>)
    ensures b.Spacer? <==> r == []
    ensures r != [] ==> |r| == 1 && !r[0].Spacer? && !r[0].Bullet?
  {
    match b
    case Spacer => []
    case Bullet(t) => [Para(t)]
    case _ => [b]
  }

  /** The texts and tables of a report in reading order, without Spacers and with bullets read as
      paragraphs. Two renderings with equal `Content` show the same texts in the same order. */
  function Content(bs: seq<Block>): seq<Block> {
    if bs == [] then [] else Content(bs[..|bs| - 1]) + Visible(bs[|bs| - 1])
  }

  lemma {:induction false} ContentAppend(a: seq<Block>, b: seq<Block>)
    ensures Content(a + b) == Content(a) + Content(b)
    decreases |b|
  {
    if b == [] {
      assert a + b == a;
    } else {
      assert (a + b)[..|a + b| - 1] == a + b[..|b| - 1];
      ContentAppend(a, b[..|b| - 1]);
    }
  }

  lemma ContentSnoc(a: seq<Block>, b: Block)
    ensures Content(a + [b]) == Content(a) + Visible(b)
  {
    assert (a + [b])[..|a|] == a;
  }

  lemma ContentSpacer()
    ensures Content([Spacer]) == []
  {
    assert [Spacer][..0] == [];
  }

  /** A block that is neither vertical space nor a bullet reads as itself. */
  predicate Plain(b: Block) {
    !b.Spacer? && !b.Bullet?
  }

  /** A block followed by a Spacer reads as the block alone. */
  lemma ContentThenSpacer(b: Block)
    requires Plain(b)
    ensures Content([b, Spacer]) == [b]
  {
    ContentSnoc([], b);
    assert [] + [b] == [b];
    ContentSnoc([b], Spacer);
    assert [b] + [Spacer] == [b, Spacer];
    VisiblePlain(b);
  }

  /** Appending a block and a Spacer adds the block alone. */
  lemma ContentAddSpaced(a: seq<Block>, b: Block)
    requires Plain(b)
    ensures Content(a + [b, Spacer]) == Content(a) + [b]
  {
    ContentThenSpacer(b);
    ContentAppend(a, [b, Spacer]);
  }

  /** Each block followed by a Spacer. */
  function Spaced(bs: seq<Block>): (r: seq<Block>)
    ensures |r| == 2 * |bs|
  {
    if bs == [] then [] else Spaced(bs[..|bs| - 1]) + [bs[|bs| - 1], Spacer]
  }

  lemma SpacedSnoc(bs: seq<Block>, b: Block)
    ensures Spaced(bs + [b]) == Spaced(bs) + [b, Spacer]
  {
    assert (bs + [b])[..|bs|] == bs;
  }

  /** Block `i` sits at position `2 i`, followed by its Spacer. */
  lemma {:induction false} SpacedAt(bs: seq<Block>)
    ensures forall i :: 0 <= i < |bs| ==> Spaced(bs)[2 * i] == bs[i] && Spaced(bs)[2 * i + 1] == Spacer
    decreases |bs|
  {
    if bs != [] {
      var init := bs[..|bs| - 1];
      SpacedAt(init);
      assert Spaced(bs) == Spaced(init) + [bs[|bs| - 1], Spacer];
      forall i | 0 <= i < |bs|
        ensures Spaced(bs)[2 * i] == bs[i] && Spaced(bs)[2 * i + 1] == Spacer
      {
        if i < |init| {
          assert bs[i] == init[i];
        }
      }
    }
  }

  lemma SpacedOne(b: Block)
    ensures Spaced([b]) == [b, Spacer]
  {
    SpacedSnoc([], b);
    assert [] + [b] == [b];
  }

  lemma {:induction false} ContentSpaced(bs: seq<Block>)
    requires forall i :: 0 <= i < |bs| ==> Plain(bs[i])
    ensures Content(Spaced(bs)) == bs
    decreases |bs|
  {
    if bs != [] {
      var init := bs[..|bs| - 1];
      ContentSpaced(init);
      ContentAddSpaced(Spaced(init), bs[|bs| - 1]);
    }
  }

  /** Plain blocks each followed by a Spacer, then a part that reads like `wMid`. */
  lemma ContentSpacedFront(head: seq<Block>, pMid: seq<Block>, wMid: seq<Block>)
    requires forall i :: 0 <= i < |head| ==> Plain(head[i])
    requires Content(pMid) == Content(wMid)
    ensures Content(Spaced(head) + pMid) == head + Content(wMid)
  {
    ContentSpaced(head);
    ContentAppend(Spaced(head), pMid);
  }

  /** A part, a plain block and its Spacer, then one more plain block. */
  lemma ContentSpacedBack(a: seq<Block>, last: Block, fin: Block)
    requires Plain(last) && Plain(fin)
    ensures Content(a + Spaced([last]) + [fin]) == Content(a) + [last, fin]
  {
    SpacedOne(last);
    var x := a + [last, Spacer];
    assert a + Spaced([last]) + [fin] == x + [fin];
    assert (x + [fin])[..|x|] == x;
    ContentAddSpaced(a, last);
  }

  /** Plain blocks around a middle part: a plain head, then two plain blocks. */
  lemma ContentPlainFrame(head: seq<Block>, mid: seq<Block>, last: Block, fin: Block)
    requires forall i :: 0 <= i < |head| ==> Plain(head[i])
    requires Plain(last) && Plain(fin)
    ensures Content(head + mid + [last, fin]) == head + Content(mid) + [last, fin]
  {
    ContentOfPlain(head);
    ContentPlainPair(last, fin);
    ContentAppend(head + mid, [last, fin]);
    ContentAppend(head, mid);
  }

  lemma ContentPlainPair(last: Block, fin: Block)
    requires Plain(last) && Plain(fin)
    ensures Content([last, fin]) == [last, fin]
  {
    ContentOfPlain([last, fin]);
  }

  lemma {:induction false} ContentOfPlain(bs: seq<Block>)
    requires forall i :: 0 <= i < |bs| ==> Plain(bs[i])
    ensures Content(bs) == bs
    decreases |bs|
  {
    if bs != [] {
      var init, last := bs[..|bs| - 1], bs[|bs| - 1];
      ContentOfPlain(init);
      VisiblePlain(last);
      assert init + [last] == bs;
    }
  }

  lemma VisiblePlain(b: Block)
    requires Plain(b)
    ensures Visible(b) == [b]
  {
  }

  lemma ContentSingle(b: Block)
    ensures Content([b]) == Visible(b)
  {
    assert [b][..0] == [];
  }

  /** One 'List Bullet' paragraph per item, each text being "• " and the item. */
  function Bullets(items: seq<string>): (r: seq<Block>)
    ensures |r| == |items|
  {
    if items == [] then [] else Bullets(items[..|items| - 1]) + [Bullet("• " + items[|items| - 1])]
  }

  /** One plain paragraph per item, each text being "• " and the item (how the PDF path lists items). */
  function BulletParas(items: seq<string>): (r: seq<Block>)
    ensures |r| == |items|
  {
    if items == [] then [] else BulletParas(items[..|items| - 1]) + [Para("• " + items[|items| - 1])]
  }

  /** Bullet `i` carries item `i`. */
  lemma {:induction false} BulletsElements(items: seq<string>)
    ensures forall i :: 0 <= i < |items| ==> Bullets(items)[i] == Bullet("• " + items[i])
    decreases |items|
  {
    if items != [] {
      BulletsElements(items[..|items| - 1]);
    }
  }

  lemma {:induction false} BulletParasElements(items: seq<string>)
    ensures forall i :: 0 <= i < |items| ==> BulletParas(items)[i] == Para("• " + items[i])
    decreases |items|
  {
    if items != [] {
      BulletParasElements(items[..|items| - 1]);
    }
  }

  lemma BulletsSnoc(items: seq<string>, x: string)
    ensures Bullets(items + [x]) == Bullets(items) + [Bullet("• " + x)]
  {
    assert (items + [x])[..|items|] == items;
  }

  lemma BulletParasSnoc(items: seq<string>, x: string)
    ensures BulletParas(items + [x]) == BulletParas(items) + [Para("• " + x)]
  {
    assert (items + [x])[..|items|] == items;
  }

  /** A titled list as Word paragraphs: the title paragraph and one bullet per item, or nothing at all
      for an empty list. */
  function BulletSection(title: string, items: seq<string>): seq<Block> {
    if items != [] then [Para(title)] + Bullets(items) else []
  }

  /** The same titled list as PDF paragraphs: the item lines are plain paragraphs starting with "• ". */
  function LineSection(title: string, items: seq<string>): seq<Block> {
    if items != [] then [Para(title)] + BulletParas(items) else []
  }

  lemma SectionsReadAlike(title: string, items: seq<string>)
    ensures Content(LineSection(title, items)) == Content(BulletSection(title, items))
  {
    if items != [] {
      ContentAppend([Para(title)], Bullets(items));
      ContentAppend([Para(title)], BulletParas(items));
      BulletsReadAsParas(items);
    }
  }

  /** The number of 'List Bullet' paragraphs in a block sequence. */
  function BulletCount(bs: seq<Block>): (n: nat)
    ensures n <= |bs|
  {
    if bs == [] then 0 else BulletCount(bs[..|bs| - 1]) + (if bs[|bs| - 1].Bullet? then 1 else 0)
  }

  lemma {:induction false} BulletCountAppend(a: seq<Block>, b: seq<Block>)
    ensures BulletCount(a + b) == BulletCount(a) + BulletCount(b)
    decreases |b|
  {
    if b == [] {
      assert a + b == a;
    } else {
      assert (a + b)[..|a + b| - 1] == a + b[..|b| - 1];
      BulletCountAppend(a, b[..|b| - 1]);
    }
  }

  lemma {:induction false} BulletCountNone(bs: seq<Block>)
    requires forall i :: 0 <= i < |bs| ==> !bs[i].Bullet?
    ensures BulletCount(bs) == 0
    decreases |bs|
  {
    if bs != [] {
      BulletCountNone(bs[..|bs| - 1]);
    }
  }

  /** A part between two bullet-free parts carries all the bullets. */
  lemma BulletCountFramed(a: seq<Block>, b: seq<Block>, c: seq<Block>)
    requires BulletCount(a) == 0 && BulletCount(c) == 0
    ensures BulletCount(a + b + c) == BulletCount(b)
  {
    BulletCountAppend(a, b);
    BulletCountAppend(a + b, c);
  }

  /** A list of bullets holds one bullet per item. */
  lemma {:induction false} BulletCountBullets(items: seq<string>)
    ensures BulletCount(Bullets(items)) == |items|
    decreases |items|
  {
    if items != [] {
      BulletCountBullets(items[..|items| - 1]);
      assert Bullets(items)[..|items| - 1] == Bullets(items[..|items| - 1]);
    }
  }

  /** Where the parts of a three-part sequence lie. */
  lemma ThreeParts(a: seq<Block>, b: seq<Block>, c: seq<Block>)
    ensures var s := a + b + c;
      |s| == |a| + |b| + |c| && s[|a|..|a| + |b|] == b && s[|a| + |b|..] == c
  {
    var s := a + b + c;
    assert (a + b)[|a|..] == b;
  }

  lemma SectionShape(title: string, items: seq<string>)
    ensures BulletSection(title, items) == [] <==> items == []
    ensures items != [] ==>
              |BulletSection(title, items)| == 1 + |items| && BulletSection(title, items)[0] == Para(title)
              && forall j :: 0 <= j < |items| ==> BulletSection(title, items)[1 + j] == Bullet("• " + items[j])
  {
    BulletsElements(items);
  }

  /** A titled Word list holds one bullet per item and takes one block more than its items, or none. */
  lemma {:induction false} SectionBullets(title: string, items: seq<string>)
    ensures BulletCount(BulletSection(title, items)) == |items|
    ensures |BulletSection(title, items)| == (if items == [] then 0 else 1 + |items|)
  {
    if items != [] {
      BulletCountBullets(items);
      BulletCountAppend([Para(title)], Bullets(items));
      assert [Para(title)][..0] == [];
    }
  }

  /** The rows of a table whose cells were assigned in place, read row by row. */
  method ReadCells(cells: array2<string>) returns (rows: seq<seq<string>>)
    ensures |rows| == cells.Length0
    ensures forall i :: 0 <= i < |rows| ==> |rows[i]| == cells.Length1
    ensures forall i, j :: 0 <= i < |rows| && 0 <= j < cells.Length1 ==> rows[i][j] == cells[i, j]
  {
    rows := [];
    for i := 0 to cells.Length0
      invariant |rows| == i
      invariant forall r :: 0 <= r < i ==> |rows[r]| == cells.Length1
      invariant forall r, j :: 0 <= r < i && 0 <= j < cells.Length1 ==> rows[r][j] == cells[r, j]
    {
      var row: seq<string> := [];
      for j := 0 to cells.Length1
        invariant |row| == j
        invariant forall k :: 0 <= k < j ==> row[k] == cells[i, k]
      {
        row := row + [cells[i, j]];
      }
      rows := rows + [row];
    }
  }

  /** A bulleted list and the same lines as plain paragraphs read the same. */
  lemma {:induction false} BulletsReadAsParas(items: seq<string>)
    ensures Content(Bullets(items)) == Content(BulletParas(items))
    decreases |items|
  {
    if items != [] {
      var init := items[..|items| - 1];
      var t := "• " + items[|items| - 1];
      BulletsReadAsParas(init);
      ContentAppend(Bullets(init), [Bullet(t)]);
      ContentAppend(BulletParas(init), [Para(t)]);
      ContentSingle(Bullet(t));
      ContentSingle(Para(t));
    }
  }
}
