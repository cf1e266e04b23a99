/**
 Which headings start cards. Only the "Attachments:" list can run past a
 "Heading 1" paragraph: it takes every non-blank paragraph that does not
 start with "Image:", whatever its style. Without such a list every
 heading starts exactly one card; with one, any heading the list reaches
 (one whose text is not blank and does not start with "Image:") is read as
 an attachment. A blank heading is never taken, so it always starts a card.
 */
module HeadingProperties {
  import opened Wrappers
  import opened Text
  import opened Cards
  import opened Parser
  import opened ParseProperties
  import opened CardProperties

  /** No paragraph's stripped text starts with "Attachments:". */
  predicate NoAttachmentLists(paras: seq<Paragraph>) {
    forall m :: 0 <= m < |paras| ==> !StartsWith(Strip(paras[m].text), "Attachments:")
  }

  /** Checklist items and the blank paragraphs a checklist steps over are
      not headings. */
  lemma ListStylesDiffer(p: Paragraph)
    requires IsListItem(p) || IsBlankNormal(p)
    ensures !IsHeading(p)
  {
    assert HeadingStyle[0] == 'H';
    assert BulletStyle[0] == 'L' && NumberStyle[0] == 'L' && NormalStyle[0] == 'N';
  }

  /** Without an attachment list, a card body outside one runs up to the
      first heading and no further. */
  lemma {:induction false} BodyStopsAtFirstHeading(paras: seq<Paragraph>, i: nat, p: Phase)
    requires i <= |paras| && p != Attaching && NoAttachmentLists(paras)
    ensures forall m :: i <= m < BodyEnd(paras, i, p) ==> !IsHeading(paras[m])
    decreases |paras| - i, PhaseRank(p)
  {
    match p
    case Describing =>
      if i < |paras| && DescriptionLine(paras, i) {
        BodyStopsAtFirstHeading(paras, i + 1, Describing);
      } else {
        BodyStopsAtFirstHeading(paras, i, Scanning);
      }
    case Scanning =>
      if i < |paras| && !IsHeading(paras[i]) {
        assert !StartsWith(Strip(paras[i].text), "Attachments:");
        if StartsWith(Strip(paras[i].text), "Checklist:") {
          BodyStopsAtFirstHeading(paras, i + 1, Listing);
        } else {
          BodyStopsAtFirstHeading(paras, i + 1, Scanning);
        }
      }
    case Listing =>
      if i < |paras| && ChecklistGoesOn(paras, i) {
        ListStylesDiffer(paras[i]);
        BodyStopsAtFirstHeading(paras, i + 1, Listing);
      } else {
        BodyStopsAtFirstHeading(paras, i, Scanning);
      }
  }

  /** Skipping paragraphs that are not headings skips no heading. */
  lemma {:induction false} CountSkips(paras: seq<Paragraph>, a: nat, b: nat)
    requires a <= b <= |paras|
    requires forall m :: a <= m < b ==> !IsHeading(paras[m])
    ensures CountHeadings(paras[a..]) == CountHeadings(paras[b..])
    decreases b - a
  {
    if a < b {
      assert paras[a..][1..] == paras[a + 1..];
      CountSkips(paras, a + 1, b);
    }
  }

  /** Without an attachment list, every heading from `i` on starts a card. */
  lemma {:induction false} EveryHeadingStarts(paras: seq<Paragraph>, i: nat)
    requires i <= |paras| && NoAttachmentLists(paras)
    ensures |CardStarts(paras, i)| == CountHeadings(paras[i..])
    decreases |paras| - i
  {
    if i < |paras| {
      assert paras[i..][1..] == paras[i + 1..];
      if IsHeading(paras[i]) {
        var j := BodyEnd(paras, i + 1, Describing);
        BodyStopsAtFirstHeading(paras, i + 1, Describing);
        CountSkips(paras, i + 1, j);
        EveryHeadingStarts(paras, j);
      } else {
        EveryHeadingStarts(paras, i + 1);
      }
    }
  }

  /** A document without an "Attachments:" line yields one card per
      "Heading 1" paragraph. */
  lemma CardPerHeading(paras: seq<Paragraph>)
    requires NoAttachmentLists(paras)
    ensures |Parse(paras)| == CountHeadings(paras)
  {
    StartsCount(paras, 0);
    EveryHeadingStarts(paras, 0);
    assert paras[0..] == paras;
  }

  /** No phase of a card body runs past a blank heading: the description
      and the field scan stop at any heading, a checklist never takes one,
      and the attachment list stops at blank text. */
  lemma {:induction false} BodyStopsAtBlankHeading(paras: seq<Paragraph>, i: nat, p: Phase, h: nat)
    requires i <= h < |paras| && IsHeading(paras[h]) && AllSpace(paras[h].text)
    ensures BodyEnd(paras, i, p) <= h
    decreases |paras| - i, PhaseRank(p)
  {
    match p
    case Describing =>
      if DescriptionLine(paras, i) {
        BodyStopsAtBlankHeading(paras, i + 1, Describing, h);
      } else {
        BodyStopsAtBlankHeading(paras, i, Scanning, h);
      }
    case Scanning =>
      if !IsHeading(paras[i]) {
        if StartsWith(Strip(paras[i].text), "Checklist:") {
          BodyStopsAtBlankHeading(paras, i + 1, Listing, h);
        } else if StartsWith(Strip(paras[i].text), "Attachments:") {
          BodyStopsAtBlankHeading(paras, i + 1, Attaching, h);
        } else {
          BodyStopsAtBlankHeading(paras, i + 1, Scanning, h);
        }
      }
    case Listing =>
      if ChecklistGoesOn(paras, i) {
        ListStylesDiffer(paras[i]);
        BodyStopsAtBlankHeading(paras, i + 1, Listing, h);
      } else {
        BodyStopsAtBlankHeading(paras, i, Scanning, h);
      }
    case Attaching =>
      if AttachmentLine(paras, i) {
        BodyStopsAtBlankHeading(paras, i + 1, Attaching, h);
      } else {
        BodyStopsAtBlankHeading(paras, i, Scanning, h);
      }
  }

  /** Every blank heading from `i` on starts a card. */
  lemma {:induction false} BlankHeadingStarts(paras: seq<Paragraph>, i: nat, h: nat)
    requires i <= h < |paras| && IsHeading(paras[h]) && AllSpace(paras[h].text)
    ensures h in CardStarts(paras, i)
    decreases |paras| - i
  {
    if i < h {
      if IsHeading(paras[i]) {
        var j := BodyEnd(paras, i + 1, Describing);
        BodyStopsAtBlankHeading(paras, i + 1, Describing, h);
        BlankHeadingStarts(paras, j, h);
      } else {
        BlankHeadingStarts(paras, i + 1, h);
      }
    }
  }

  /** A "Heading 1" paragraph with blank text, anywhere in a document,
      still starts a card of its own, whose title is the empty string. */
  lemma BlankHeadingCard(paras: seq<Paragraph>, h: nat)
    requires h < |paras| && IsHeading(paras[h]) && AllSpace(paras[h].text)
    ensures exists k :: 0 <= k < |Parse(paras)| && Parse(paras)[k] == ParseCard(paras, h).0
    ensures ParseCard(paras, h).0.title == ""
  {
    BlankHeadingStarts(paras, 0, h);
    var k :| 0 <= k < |CardStarts(paras, 0)| && CardStarts(paras, 0)[k] == h;
    CardAtStart(paras, 0, k);
    assert Parse(paras)[k] == ParseCard(paras, h).0;
    CardSpec(paras, h);
  }

  /** The smallest case: a document of one blank heading holds one card,
      with the empty title. */
  lemma LoneBlankHeading(t: string)
    requires AllSpace(t)
    ensures var paras := [Paragraph(HeadingStyle, t)];
            |Parse(paras)| == 1 && Parse(paras)[0].title == ""
  {
    var paras := [Paragraph(HeadingStyle, t)];
    NoCardsIffNoHeading(paras);
    CardSpec(paras, 0);
    CardCount(paras);
    assert CountHeadings(paras) == 1 + CountHeadings([]);
  }

  /** A text starting with "Attachments:" is a field line. */
  lemma AttachmentsIsField(t: string)
    requires StartsWith(t, "Attachments:")
    ensures IsFieldLine(t)
  {
    StartsWithAnyIff(t, FieldPrefixes);
    assert FieldPrefixes[5] == "Attachments:";
  }

  /** The three-paragraph document of `HeadingSwallowed`. */
  predicate SwallowShape(paras: seq<Paragraph>) {
    && |paras| == 3 && IsHeading(paras[0]) && !IsHeading(paras[1]) && IsHeading(paras[2])
    && StartsWith(Strip(paras[1].text), "Attachments:")
    && AttachmentLine(paras, 2)
  }

  lemma SwallowedDescription(paras: seq<Paragraph>)
    requires SwallowShape(paras)
    ensures ReadDescription(paras, 1).1 == 1
  {
    AttachmentsIsField(Strip(paras[1].text));
  }

  lemma SwallowedField(paras: seq<Paragraph>)
    requires SwallowShape(paras)
    ensures ReadField(paras, 1) == (Attachments([Strip(paras[2].text)]), 3)
  {
    ListPrefixesFirst(Strip(paras[1].text));
    SwallowedAttachments(paras);
  }

  lemma SwallowedAttachments(paras: seq<Paragraph>)
    requires SwallowShape(paras)
    ensures ReadAttachments(paras, 2) == ([Strip(paras[2].text)], 3)
  {
    assert ReadAttachments(paras, 3) == ([], 3);
    assert [Strip(paras[2].text)] + [] == [Strip(paras[2].text)];
  }

  lemma SwallowedFields(paras: seq<Paragraph>)
    requires SwallowShape(paras)
    ensures ReadFields(paras, 1) == ([Attachments([Strip(paras[2].text)])], 3)
  {
    SwallowedField(paras);
    assert ReadFields(paras, 3) == ([], 3);
    assert [Attachments([Strip(paras[2].text)])] + [] == [Attachments([Strip(paras[2].text)])];
  }

  /** Only one card starts in that document: at its first paragraph. */
  lemma SwallowedStarts(paras: seq<Paragraph>)
    requires SwallowShape(paras)
    ensures CardStarts(paras, 0) == [0]
  {
    SwallowedDescription(paras);
    SwallowedFields(paras);
    DescriptionEnd(paras, 1);
    FieldsEnd(paras, 1);
    assert BodyEnd(paras, 1, Describing) == 3;
    assert CardStarts(paras, 3) == [];
  }

  /** The smallest case of a heading the attachment list reaches: right
      after an "Attachments:" line, a heading whose text is not blank and
      does not start with "Image:" is read as an attachment of the card
      before it, and the document holds one card, not two. Any later
      heading the list reaches is taken the same way (`AttachmentsSpec`). */
  lemma HeadingSwallowed(first: string, list: string, second: string)
    requires StartsWith(Strip(list), "Attachments:")
    requires Strip(second) != "" && !StartsWith(Strip(second), "Image:")
    ensures var paras := [Paragraph(HeadingStyle, first), Paragraph(NormalStyle, list),
                          Paragraph(HeadingStyle, second)];
            |Parse(paras)| == 1 && Parse(paras)[0].attachments == [Strip(second)]
  {
    var paras := [Paragraph(HeadingStyle, first), Paragraph(NormalStyle, list),
                  Paragraph(HeadingStyle, second)];
    assert NormalStyle[0] != HeadingStyle[0];
    assert SwallowShape(paras);
    SwallowedParse(paras);
    SwallowedCard(paras);
  }

  /** That document parses to the one card read at its first paragraph. */
  lemma SwallowedParse(paras: seq<Paragraph>)
    requires SwallowShape(paras)
    ensures |Parse(paras)| == 1 && Parse(paras)[0] == ParseCard(paras, 0).0
  {
    SwallowedStarts(paras);
    StartsCount(paras, 0);
    CardAtStart(paras, 0, 0);
  }

  /** The card read at the first paragraph has the second heading's text
      as its only attachment. */
  lemma SwallowedCard(paras: seq<Paragraph>)
    requires SwallowShape(paras)
    ensures ParseCard(paras, 0).0.attachments == [Strip(paras[2].text)]
  {
    var t := Strip(paras[2].text);
    SwallowedBody(paras, t);
    var c0 := NewCard(Strip(paras[0].text), Strip(ReadDescription(paras, 1).0));
    OneAttachment(c0, t);
  }

  /** Its body: no description, then the one "Attachments:" field. */
  lemma SwallowedBody(paras: seq<Paragraph>, t: string)
    requires SwallowShape(paras) && t == Strip(paras[2].text)
    ensures ReadDescription(paras, 1).1 == 1 && ReadFields(paras, 1).0 == [Attachments([t])]
  {
    SwallowedDescription(paras);
    SwallowedFields(paras);
  }

  /** A lone "Attachments:" field with one item, applied to a fresh card,
      leaves that item as the card's only attachment. */
  lemma OneAttachment(c: Card, t: string)
    requires c.attachments == []
    ensures Apply(c, [Attachments([t])]).attachments == [t]
  {
    assert Apply(c, [Attachments([t])]) == ApplyField(Apply(c, []), Attachments([t]));
  }
}
