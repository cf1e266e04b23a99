/**
 The document of the repository's unit test for `parse_docx`, replayed on
 the model: one heading, a description, the four single-line fields, a
 two-item checklist, one attachment and an image line read as the one
 card the test expects.
 */
module ParseExamples {
  import opened Wrappers
  import opened Text
  import opened Cards
  import opened Parser
  import opened SampleLayout

  /** The card the test expects, key by key. */
  const TestCard: Card := Card(
    "Test Card Title",
    "This is a test description.",
    ["TestLabel1", "TestLabel2"],
    Some("2023-12-31T23:59:00"),
    ["testuser1", "testuser2"],
    Some("Test List"),
    ["Item 1", "Item 2"],
    ["https://example.com/file.pdf"],
    Some("https://example.com/image.png"))

  /** The paragraphs the test writes, in order, with their styles. Each
      field line is spelled as its prefix, one space and its value, the
      shape `SampleLayout.FieldText` gives, so that the lemmas below match
      it piece by piece instead of comparing whole literals. */
  function TestDocument(): seq<Paragraph> {
    [Paragraph(HeadingStyle, "Test Card Title"),
     Paragraph(NormalStyle, "This is a test description."),
     Paragraph(NormalStyle, "Labels: " + "TestLabel1" + ", " + "TestLabel2"),
     Paragraph(NormalStyle, "Due Date: " + "2023-12-31T23:59:00"),
     Paragraph(NormalStyle, "Members: " + "testuser1" + ", " + "testuser2"),
     Paragraph(NormalStyle, "List: " + "Test List"),
     Paragraph(NormalStyle, "Checklist:"),
     Paragraph(BulletStyle, "Item 1"),
     Paragraph(BulletStyle, "Item 2"),
     Paragraph(NormalStyle, "Attachments:"),
     Paragraph(NormalStyle, "https://example.com/file.pdf"),
     Paragraph(NormalStyle, "Image: " + "https://example.com/image.png")]
  }

  lemma LabelsText()
    ensures HeadText(Labels(TestCard.labels)) == "Labels: " + "TestLabel1" + ", " + "TestLabel2"
  {
  }

  lemma MembersText()
    ensures HeadText(Members(TestCard.members)) == "Members: " + "testuser1" + ", " + "testuser2"
  {
  }

  lemma DueDateText()
    ensures HeadText(DueDate(TestCard.dueDate.value)) == "Due Date: " + "2023-12-31T23:59:00"
  {
  }

  lemma ListNameText()
    ensures HeadText(ListName(TestCard.listName.value)) == "List: " + "Test List"
  {
  }

  lemma ImageText()
    ensures HeadText(Image(TestCard.image.value)) == "Image: " + "https://example.com/image.png"
  {
  }

  /** The test's document is the expected card in the template's layout. */
  lemma TestRendered()
    ensures Render(TestCard) == TestDocument()
  {
    var d, fs := TestDocument(), FieldsOf(TestCard);
    ListBlocks(d, fs);
    LineBlocks(d, fs);
    WrittenSplit(d, TestCard.title, TestCard.description, fs);
  }

  /** Heading, description and the fields' blocks make up a written card. */
  lemma WrittenSplit(d: seq<Paragraph>, title: string, description: string, fs: seq<Field>)
    requires |d| >= 2 && d[0] == Paragraph(HeadingStyle, title)
    requires d[1] == Paragraph(NormalStyle, description) && d[2..] == Blocks(fs)
    ensures d == Written(title, description, fs)
  {
    assert d == d[..2] + d[2..];
  }

  /** Its last six paragraphs are the blocks of the checklist, the
      attachments and the image. */
  lemma ListBlocks(d: seq<Paragraph>, fs: seq<Field>)
    requires d == TestDocument() && fs == FieldsOf(TestCard)
    ensures d[6..] == Blocks(fs[4..])
  {
    ImageText();
    BlocksCons(fs[6..], d, 11, 12);
    assert fs[5..][1..] == fs[6..];
    BlocksCons(fs[5..], d, 9, 11);
    assert fs[4..][1..] == fs[5..];
    BlocksCons(fs[4..], d, 6, 9);
  }

  /** Past heading and description, its paragraphs are the blocks of all
      seven fields. */
  lemma LineBlocks(d: seq<Paragraph>, fs: seq<Field>)
    requires d == TestDocument() && fs == FieldsOf(TestCard)
    requires d[6..] == Blocks(fs[4..])
    ensures d[2..] == Blocks(fs)
  {
    ListNameText();
    assert fs[3..][1..] == fs[4..];
    BlocksCons(fs[3..], d, 5, 6);
    MembersText();
    assert fs[2..][1..] == fs[3..];
    BlocksCons(fs[2..], d, 4, 5);
    DueDateText();
    assert fs[1..][1..] == fs[2..];
    BlocksCons(fs[1..], d, 3, 4);
    LabelsText();
    BlocksCons(fs, d, 2, 3);
  }

  /** A field's block followed by the blocks of the fields after it. */
  lemma BlocksCons(fs: seq<Field>, d: seq<Paragraph>, i: nat, j: nat)
    requires fs != [] && i <= j <= |d|
    requires d[i..j] == Block(fs[0]) && d[j..] == Blocks(fs[1..])
    ensures d[i..] == Blocks(fs)
  {
    SliceJoin(d, i, j);
  }

  lemma SliceJoin(d: seq<Paragraph>, i: nat, j: nat)
    requires i <= j <= |d|
    ensures d[i..] == d[i..j] + d[j..]
  {
  }

  /** The expected card is one the layout reads back. */
  lemma TestRenderable()
    ensures Renderable(TestCard)
  {
    TitleTrimmed();
    DescriptionTrimmed();
    NotFieldLine(TestCard.description);
    NamesClean();
    ValuesTrimmed();
    ListsRead();
  }

  lemma TitleTrimmed()
    ensures IsTrimmed(TestCard.title)
  {
  }

  lemma DescriptionTrimmed()
    ensures IsTrimmed(TestCard.description)
  {
  }

  lemma NamesClean()
    ensures IsNameList(TestCard.labels) && IsNameList(TestCard.members)
  {
    assert CleanName(TestCard.labels[0]) && CleanName(TestCard.labels[1]);
    assert CleanName(TestCard.members[0]) && CleanName(TestCard.members[1]);
  }

  lemma ValuesTrimmed()
    ensures IsValue(TestCard.dueDate.value) && IsValue(TestCard.listName.value)
    ensures IsValue(TestCard.image.value)
  {
  }

  lemma ListsRead()
    ensures AllTrimmed(TestCard.checklist) && AllAttachments(TestCard.attachments)
  {
    assert AllTrimmed(TestCard.checklist[1..][1..]);
    PrefixMiss(TestCard.attachments[0], "Image:", 0);
    assert AllAttachments(TestCard.attachments[1..]);
  }

  /** A text that starts with none of the first letters of the seven
      prefixes is not a field line. */
  lemma NotFieldLine(t: string)
    requires t != [] && t[0] != 'L' && t[0] != 'D' && t[0] != 'M' && t[0] != 'C'
             && t[0] != 'A' && t[0] != 'I'
    ensures !IsFieldLine(t)
  {
    StartsWithAnyIff(t, FieldPrefixes);
    forall k | 0 <= k < |FieldPrefixes|
      ensures !StartsWith(t, FieldPrefixes[k])
    {
      PrefixMiss(t, FieldPrefixes[k], 0);
    }
  }

  /** `parse_docx` on the test's document yields exactly the card the
      test expects. */
  lemma TestParseDocx()
    ensures Parse(TestDocument()) == [TestCard]
  {
    var doc, cs := TestDocument(), [TestCard];
    TestRendered();
    TestRenderable();
    OneRendered(TestCard, doc);
    RoundTrip(cs);
  }

  /** One card written alone is the whole document. */
  lemma OneRendered(c: Card, doc: seq<Paragraph>)
    requires Renderable(c) && Render(c) == doc
    ensures RenderAll([c]) == doc && AllRenderable([c])
  {
    assert [c][1..] == [];
    assert Render(c) + [] == Render(c);
  }
}
