/**
 The document layout of the sample template (`generate_sample_docx`): a
 "Heading 1" title, one description paragraph, one line per field written
 as its prefix, a space and the value, checklist items as "List Bullet"
 paragraphs under "Checklist:", attachments one per paragraph under
 "Attachments:", and the "Image:" line last. Rendering a fully populated
 card in this layout and parsing the result gives the card back.
 */
module SampleLayout {
  import opened Wrappers
  import opened Text
  import opened Cards
  import opened Parser
  import opened CardProperties

  /** A field line as the template writes it: prefix, one space, value. */
  function FieldText(prefix: string, value: string): string {
    prefix + " " + value
  }

  /** A field line with a non-blank trimmed value is already stripped,
      starts with its prefix, and what follows the prefix strips to the
      value. */
  lemma FieldTextReads(prefix: string, v: string)
    requires prefix != [] && !IsSpace(prefix[0])
    requires v != [] && IsTrimmed(v)
    ensures Strip(FieldText(prefix, v)) == FieldText(prefix, v)
    ensures StartsWith(FieldText(prefix, v), prefix)
    ensures FieldText(prefix, v)[|prefix|..] == " " + v
    ensures Strip(" " + v) == v
  {
    var t := FieldText(prefix, v);
    assert t[0] == prefix[0] && t[|t| - 1] == v[|v| - 1];
    StripTrimmed(t);
    assert t[..|prefix|] == prefix;
    assert t[|prefix|..] == " " + v;
    assert AllSpace(" ") && AllSpace("");
    StripUnique(" ", v, "");
    assert " " + v + "" == " " + v;
  }

  /** A value the template writes after a prefix. */
  predicate IsValue(v: string) {
    v != [] && IsTrimmed(v)
  }

  /** A non-empty list of clean names. */
  predicate IsNameList(ns: seq<string>) {
    ns != [] && forall k :: 0 <= k < |ns| ==> CleanName(ns[k])
  }

  lemma LabelsLine(paras: seq<Paragraph>, i: nat, ns: seq<string>)
    requires i < |paras| && paras[i].text == FieldText("Labels:", JoinNames(ns))
    requires IsNameList(ns)
    ensures ReadField(paras, i) == (Labels(ns), i + 1)
  {
    var j := JoinNames(ns);
    JoinNamesTrimmed(ns);
    FieldTextReads("Labels:", j);
    StripTrimmed(j);
    NamesRoundTrip(ns);
  }

  lemma DueDateLine(paras: seq<Paragraph>, i: nat, v: string)
    requires i < |paras| && paras[i].text == FieldText("Due Date:", v) && IsValue(v)
    ensures ReadField(paras, i) == (DueDate(v), i + 1)
  {
    FieldTextReads("Due Date:", v);
    PrefixMiss(FieldText("Due Date:", v), "Labels:", 0);
  }

  lemma MembersLine(paras: seq<Paragraph>, i: nat, ns: seq<string>)
    requires i < |paras| && paras[i].text == FieldText("Members:", JoinNames(ns))
    requires IsNameList(ns)
    ensures ReadField(paras, i) == (Members(ns), i + 1)
  {
    var j := JoinNames(ns);
    var t := FieldText("Members:", j);
    JoinNamesTrimmed(ns);
    FieldTextReads("Members:", j);
    PrefixMiss(t, "Labels:", 0);
    PrefixMiss(t, "Due Date:", 0);
    StripTrimmed(j);
    NamesRoundTrip(ns);
  }

  lemma ListNameLine(paras: seq<Paragraph>, i: nat, v: string)
    requires i < |paras| && paras[i].text == FieldText("List:", v) && IsValue(v)
    ensures ReadField(paras, i) == (ListName(v), i + 1)
  {
    var t := FieldText("List:", v);
    FieldTextReads("List:", v);
    PrefixMiss(t, "Labels:", 1);
    PrefixMiss(t, "Due Date:", 0);
    PrefixMiss(t, "Members:", 0);
  }

  lemma ImageLine(paras: seq<Paragraph>, i: nat, v: string)
    requires i < |paras| && paras[i].text == FieldText("Image:", v) && IsValue(v)
    ensures ReadField(paras, i) == (Image(v), i + 1)
  {
    var t := FieldText("Image:", v);
    FieldTextReads("Image:", v);
    PrefixMiss(t, "Labels:", 0);
    PrefixMiss(t, "Due Date:", 0);
    PrefixMiss(t, "Members:", 0);
    PrefixMiss(t, "List:", 0);
    PrefixMiss(t, "Checklist:", 0);
    PrefixMiss(t, "Attachments:", 0);
  }

  /** Consecutive "List Bullet" paragraphs holding trimmed items, up to a
      paragraph `j` the checklist stops at, read back as those items. */
  lemma {:induction false} BulletsRead(paras: seq<Paragraph>, i: nat, items: seq<string>, j: nat)
    requires LinesAt(paras, i, Bullets(items)) && AllTrimmed(items)
    requires j == i + |items| && (j == |paras| || !ChecklistGoesOn(paras, j))
    ensures ReadChecklist(paras, i) == (items, j)
    decreases |items|
  {
    if items != [] {
      var item, rest := items[0], items[1..];
      assert Bullets(items)[1..] == Bullets(rest);
      BulletsRead(paras, i + 1, rest, j);
      BulletHead(paras, i, item, rest, j);
      assert [item] + rest == items;
    }
  }

  /** One bullet in front of the items read after it. */
  lemma BulletHead(paras: seq<Paragraph>, i: nat, item: string, rest: seq<string>, j: nat)
    requires i < |paras| && paras[i] == Paragraph(BulletStyle, item) && IsTrimmed(item)
    requires ReadChecklist(paras, i + 1) == (rest, j)
    ensures ReadChecklist(paras, i) == ([item] + rest, j)
  {
    StripTrimmed(item);
  }

  /** Consecutive paragraphs holding trimmed attachments, up to a
      paragraph `j` the attachment list stops at, read back as those
      attachments. */
  lemma {:induction false} AttachmentLinesRead(paras: seq<Paragraph>, i: nat, items: seq<string>, j: nat)
    requires LinesAt(paras, i, Plain(items)) && AllAttachments(items)
    requires j == i + |items| && (j == |paras| || !AttachmentLine(paras, j))
    ensures ReadAttachments(paras, i) == (items, j)
    decreases |items|
  {
    if items != [] {
      var item, rest := items[0], items[1..];
      assert Plain(items)[1..] == Plain(rest);
      AttachmentLinesRead(paras, i + 1, rest, j);
      AttachmentHead(paras, i, item, rest, j);
      assert [item] + rest == items;
    }
  }

  /** One attachment in front of the attachments read after it. */
  lemma AttachmentHead(paras: seq<Paragraph>, i: nat, item: string, rest: seq<string>, j: nat)
    requires i < |paras| && paras[i].text == item && IsAttachment(item) && IsTrimmed(item)
    requires ReadAttachments(paras, i + 1) == (rest, j)
    ensures ReadAttachments(paras, i) == ([item] + rest, j)
  {
    StripTrimmed(item);
  }

  function Bullets(items: seq<string>): seq<Paragraph> {
    seq(|items|, k requires 0 <= k < |items| => Paragraph(BulletStyle, items[k]))
  }

  function Plain(items: seq<string>): seq<Paragraph> {
    seq(|items|, k requires 0 <= k < |items| => Paragraph(NormalStyle, items[k]))
  }

  /** The line the template writes for a field: its prefix, and for the
      single-valued fields and the name lists a space and the value. */
  function HeadText(f: Field): string {
    match f
    case Labels(ns) => FieldText("Labels:", JoinNames(ns))
    case DueDate(v) => FieldText("Due Date:", v)
    case Members(ns) => FieldText("Members:", JoinNames(ns))
    case ListName(v) => FieldText("List:", v)
    case Checklist(_) => "Checklist:"
    case Attachments(_) => "Attachments:"
    case Image(v) => FieldText("Image:", v)
    case Skip => ""
  }

  /** The lines under a field line: "List Bullet" items under
      "Checklist:", one plain line per attachment under "Attachments:". */
  function Below(f: Field): seq<Paragraph> {
    match f
    case Checklist(items) => Bullets(items)
    case Attachments(items) => Plain(items)
    case _ => []
  }

  /** How many lines a field's block has below its field line. */
  function Width(f: Field): nat {
    match f
    case Checklist(items) => |items|
    case Attachments(items) => |items|
    case _ => 0
  }

  /** The lines the template writes for one field. */
  function Block(f: Field): seq<Paragraph> {
    [Paragraph(NormalStyle, HeadText(f))] + Below(f)
  }

  /** The fields' blocks one after the other. */
  function Blocks(fs: seq<Field>): seq<Paragraph>
    decreases |fs|
  {
    if fs == [] then [] else Block(fs[0]) + Blocks(fs[1..])
  }

  /** Every item is trimmed, as the checklist loop leaves them. */
  predicate AllTrimmed(items: seq<string>)
    decreases |items|
  {
    items == [] || (IsTrimmed(items[0]) && AllTrimmed(items[1..]))
  }

  /** Every item is a trimmed line the attachment loop takes. */
  predicate AllAttachments(items: seq<string>)
    decreases |items|
  {
    items == [] || (IsAttachment(items[0]) && IsTrimmed(items[0]) && AllAttachments(items[1..]))
  }

  /** A field the template can write so that it reads back: names and
      values as the parser leaves them, and no skipped line. */
  predicate WritableField(f: Field) {
    match f
    case Labels(ns) => IsNameList(ns)
    case DueDate(v) => IsValue(v)
    case Members(ns) => IsNameList(ns)
    case ListName(v) => IsValue(v)
    case Checklist(items) => AllTrimmed(items)
    case Attachments(items) => AllAttachments(items)
    case Image(v) => IsValue(v)
    case Skip => false
  }

  /** Writable fields in which every attachment list is closed by an image
      line (the attachment loop takes any other line, headings included). */
  predicate Writable(fs: seq<Field>)
    decreases |fs|
  {
    fs == []
    || (WritableField(fs[0]) && (fs[0].Attachments? ==> |fs| > 1 && fs[1].Image?) && Writable(fs[1..]))
  }

  /** A card written with the given title, description and fields: the
      title heading, one description paragraph, the fields' blocks. */
  function Written(title: string, description: string, fs: seq<Field>): seq<Paragraph> {
    [Paragraph(HeadingStyle, title), Paragraph(NormalStyle, description)] + Blocks(fs)
  }

  /** `doc` holds the paragraphs `ps` from index `i` on. */
  predicate LinesAt(doc: seq<Paragraph>, i: nat, ps: seq<Paragraph>)
    decreases |ps|
  {
    i + |ps| <= |doc| && (ps == [] || (doc[i] == ps[0] && LinesAt(doc, i + 1, ps[1..])))
  }

  /** Where a card's field scan stops: the end of the document or a
      heading. */
  predicate Boundary(doc: seq<Paragraph>, e: nat) {
    e == |doc| || (e < |doc| && IsHeading(doc[e]))
  }

  /** Holding `ps` from `i` on is having `ps` as the slice there. */
  lemma {:induction false} LinesAtSlice(doc: seq<Paragraph>, i: nat, ps: seq<Paragraph>)
    requires i + |ps| <= |doc|
    ensures LinesAt(doc, i, ps) <==> doc[i..i + |ps|] == ps
    decreases |ps|
  {
    if ps != [] {
      LinesAtSlice(doc, i + 1, ps[1..]);
      var w := doc[i..i + |ps|];
      assert w[0] == doc[i];
      assert w[1..] == doc[i + 1..i + 1 + |ps[1..]|];
      assert w == [w[0]] + w[1..];
      assert ps == [ps[0]] + ps[1..];
    }
  }

  /** Holding `a + b` is holding `a` and then `b`. */
  lemma LinesAtAppend(doc: seq<Paragraph>, i: nat, a: seq<Paragraph>, b: seq<Paragraph>)
    requires LinesAt(doc, i, a + b)
    ensures LinesAt(doc, i, a) && LinesAt(doc, i + |a|, b)
  {
    LinesAtSlice(doc, i, a + b);
    assert doc[i..i + |a|] == (a + b)[..|a|] == a;
    assert doc[i + |a|..i + |a| + |b|] == (a + b)[|a|..] == b;
    LinesAtSlice(doc, i, a);
    LinesAtSlice(doc, i + |a|, b);
  }

  /** Holding `ps` gives each of its paragraphs at its place. */
  lemma LinesAtIndex(doc: seq<Paragraph>, i: nat, ps: seq<Paragraph>, k: nat)
    requires LinesAt(doc, i, ps) && k < |ps|
    ensures i + k < |doc| && doc[i + k] == ps[k]
  {
    LinesAtSlice(doc, i, ps);
    assert doc[i..i + |ps|][k] == doc[i + k];
  }

  /** `doc` holds the blocks of `fs` one after the other from `i` to `e`. */
  predicate BlocksAt(doc: seq<Paragraph>, i: nat, fs: seq<Field>, e: nat)
    decreases |fs|
  {
    if fs == [] then i == e && e <= |doc|
    else
      && i < |doc|
      && doc[i] == Paragraph(NormalStyle, HeadText(fs[0]))
      && LinesAt(doc, i + 1, Below(fs[0]))
      && BlocksAt(doc, i + 1 + Width(fs[0]), fs[1..], e)
  }

  /** Holding the blocks' concatenation is holding the blocks one by one. */
  lemma {:induction false} HeldBlocks(doc: seq<Paragraph>, i: nat, fs: seq<Field>)
    requires LinesAt(doc, i, Blocks(fs))
    ensures BlocksAt(doc, i, fs, i + |Blocks(fs)|)
    decreases |fs|
  {
    if fs != [] {
      var j := i + 1 + Width(fs[0]);
      var rest := fs[1..];
      HeldFirst(doc, i, fs, j, rest);
      HeldBlocks(doc, j, rest);
      BlocksAtCons(doc, i, fs, j, j + |Blocks(rest)|);
    }
  }

  /** Holding the blocks is holding the first block and, after it, the
      rest. */
  lemma {:induction false} HeldFirst(doc: seq<Paragraph>, i: nat, fs: seq<Field>, j: nat, rest: seq<Field>)
    requires fs != [] && LinesAt(doc, i, Blocks(fs))
    requires j == i + 1 + Width(fs[0]) && rest == fs[1..]
    ensures i < |doc| && doc[i] == Paragraph(NormalStyle, HeadText(fs[0]))
    ensures LinesAt(doc, i + 1, Below(fs[0]))
    ensures LinesAt(doc, j, Blocks(rest)) && j + |Blocks(rest)| == i + |Blocks(fs)|
  {
    var f := fs[0];
    assert Blocks(fs) == Block(f) + Blocks(rest);
    LinesAtAppend(doc, i, Block(f), Blocks(rest));
    BlockSplit(doc, i, f);
  }

  /** A block held at `i` in front of blocks held from its end on. */
  lemma BlocksAtCons(doc: seq<Paragraph>, i: nat, fs: seq<Field>, j: nat, e: nat)
    requires fs != [] && i < |doc| && doc[i] == Paragraph(NormalStyle, HeadText(fs[0]))
    requires LinesAt(doc, i + 1, Below(fs[0])) && j == i + 1 + Width(fs[0])
    requires BlocksAt(doc, j, fs[1..], e)
    ensures BlocksAt(doc, i, fs, e)
  {
  }

  /** A card written at `s`: its title heading, its description paragraph
      and its field blocks up to `e`. */
  predicate WrittenAt(doc: seq<Paragraph>, s: nat, title: string, d: string, fs: seq<Field>, e: nat) {
    && s + 2 <= |doc|
    && doc[s] == Paragraph(HeadingStyle, title)
    && doc[s + 1] == Paragraph(NormalStyle, d)
    && BlocksAt(doc, s + 2, fs, e)
  }

  /** Holding a written card is holding its parts. */
  lemma WrittenHeld(doc: seq<Paragraph>, s: nat, title: string, d: string, fs: seq<Field>, e: nat)
    requires LinesAt(doc, s, Written(title, d, fs)) && e == s + |Written(title, d, fs)|
    ensures WrittenAt(doc, s, title, d, fs, e)
  {
    var top := [Paragraph(HeadingStyle, title), Paragraph(NormalStyle, d)];
    LinesAtAppend(doc, s, top, Blocks(fs));
    LinesAtIndex(doc, s, top, 0);
    LinesAtIndex(doc, s, top, 1);
    HeldBlocks(doc, s + 2, fs);
  }

  /** A "Checklist:" line reads the checklist that follows it. */
  lemma ChecklistLine(paras: seq<Paragraph>, i: nat, items: seq<string>, j: nat)
    requires i < |paras| && paras[i].text == "Checklist:"
    requires ReadChecklist(paras, i + 1) == (items, j)
    ensures ReadField(paras, i) == (Checklist(items), j)
  {
    var t := paras[i].text;
    assert IsTrimmed(t);
    StripTrimmed(t);
    PrefixMiss(t, "Labels:", 0);
    PrefixMiss(t, "Due Date:", 0);
    PrefixMiss(t, "Members:", 0);
    PrefixMiss(t, "List:", 0);
    assert t[..|"Checklist:"|] == t;
  }

  /** An "Attachments:" line reads the attachments that follow it. */
  lemma AttachmentsLine(paras: seq<Paragraph>, i: nat, items: seq<string>, j: nat)
    requires i < |paras| && paras[i].text == "Attachments:"
    requires ReadAttachments(paras, i + 1) == (items, j)
    ensures ReadField(paras, i) == (Attachments(items), j)
  {
    var t := paras[i].text;
    assert IsTrimmed(t);
    StripTrimmed(t);
    PrefixMiss(t, "Labels:", 0);
    PrefixMiss(t, "Due Date:", 0);
    PrefixMiss(t, "Members:", 0);
    PrefixMiss(t, "List:", 0);
    PrefixMiss(t, "Checklist:", 0);
    assert t[..|"Attachments:"|] == t;
  }

  /** Holding a block is holding its field line and the lines below it. */
  lemma BlockSplit(doc: seq<Paragraph>, i: nat, f: Field)
    requires LinesAt(doc, i, Block(f))
    ensures i < |doc| && doc[i] == Paragraph(NormalStyle, HeadText(f))
    ensures LinesAt(doc, i + 1, Below(f)) && |Below(f)| == Width(f)
    ensures |Block(f)| == 1 + Width(f)
  {
    assert Block(f)[1..] == Below(f);
  }

  /** A label or member line reads back as its names. */
  lemma NamesBlockRead(doc: seq<Paragraph>, i: nat, f: Field, j: nat)
    requires i < |doc| && doc[i].text == HeadText(f) && WritableField(f)
    requires (f.Labels? || f.Members?) && j == i + 1
    ensures ReadField(doc, i) == (f, j)
  {
    if f.Labels? {
      LabelsLine(doc, i, f.names);
    } else {
      MembersLine(doc, i, f.names);
    }
  }

  /** A due date, list or image line reads back as its value. */
  lemma ValueBlockRead(doc: seq<Paragraph>, i: nat, f: Field, j: nat)
    requires i < |doc| && doc[i].text == HeadText(f) && WritableField(f)
    requires (f.DueDate? || f.ListName? || f.Image?) && j == i + 1
    ensures ReadField(doc, i) == (f, j)
  {
    match f
    case DueDate(v) => DueDateLine(doc, i, v);
    case ListName(v) => ListNameLine(doc, i, v);
    case Image(v) => ImageLine(doc, i, v);
  }

  /** A checklist block reads back as its items, provided the checklist
      loop stops right after it. */
  lemma ChecklistBlockRead(doc: seq<Paragraph>, i: nat, items: seq<string>, j: nat)
    requires i < |doc| && doc[i].text == "Checklist:"
    requires LinesAt(doc, i + 1, Bullets(items))
    requires AllTrimmed(items)
    requires j == i + 1 + |items| && (j == |doc| || !ChecklistGoesOn(doc, j))
    ensures ReadField(doc, i) == (Checklist(items), j)
  {
    BulletsRead(doc, i + 1, items, j);
    ChecklistLine(doc, i, items, j);
  }

  /** An attachments block reads back as its attachments, provided the
      attachment loop stops right after it. */
  lemma AttachmentsBlockRead(doc: seq<Paragraph>, i: nat, items: seq<string>, j: nat)
    requires i < |doc| && doc[i].text == "Attachments:"
    requires LinesAt(doc, i + 1, Plain(items))
    requires AllAttachments(items)
    requires j == i + 1 + |items| && (j == |doc| || !AttachmentLine(doc, j))
    ensures ReadField(doc, i) == (Attachments(items), j)
  {
    AttachmentLinesRead(doc, i + 1, items, j);
    AttachmentsLine(doc, i, items, j);
  }

  /** What the line after a block must be for the block's loop to stop
      there: a checklist stops at the end or at a line that is not a list
      item, an attachment list at the end or at a line that is not an
      attachment. */
  predicate StopsAfter(doc: seq<Paragraph>, f: Field, j: nat) {
    match f
    case Checklist(_) => j == |doc| || (j < |doc| && !ChecklistGoesOn(doc, j))
    case Attachments(_) => j == |doc| || (j < |doc| && !AttachmentLine(doc, j))
    case _ => true
  }

  /** A writable field's line followed by the lines below it reads back as
      the field, provided its loop stops after them. */
  lemma FieldBlockRead(doc: seq<Paragraph>, i: nat, f: Field, j: nat)
    requires i < |doc| && doc[i].text == HeadText(f) && LinesAt(doc, i + 1, Below(f))
    requires WritableField(f) && j == i + 1 + Width(f) && StopsAfter(doc, f, j)
    ensures ReadField(doc, i) == (f, j)
  {
    match f
    case Checklist(items) => ChecklistBlockRead(doc, i, items, j);
    case Attachments(items) => AttachmentsBlockRead(doc, i, items, j);
    case Labels(_) => NamesBlockRead(doc, i, f, j);
    case Members(_) => NamesBlockRead(doc, i, f, j);
    case _ => ValueBlockRead(doc, i, f, j);
  }

  /** A text starting with one of the seven prefixes is a field line. */
  lemma PrefixedLine(t: string, k: nat)
    requires k < |FieldPrefixes| && StartsWith(t, FieldPrefixes[k])
    ensures IsFieldLine(t)
  {
    StartsWithAnyIff(t, FieldPrefixes);
  }

  /** A bare prefix is a stripped field line. */
  lemma BarePrefix(k: nat)
    requires k < |FieldPrefixes|
    ensures Strip(FieldPrefixes[k]) == FieldPrefixes[k] && IsFieldLine(FieldPrefixes[k])
  {
    var t := FieldPrefixes[k];
    assert t[0] != ' ' && t[|t| - 1] == ':';
    StripTrimmed(t);
    assert t[..|t|] == t;
    PrefixedLine(t, k);
  }

  /** A prefix, a space and a trimmed value make a stripped field line. */
  lemma ValueLine(k: nat, v: string)
    requires k < |FieldPrefixes| && IsValue(v)
    ensures var t := FieldText(FieldPrefixes[k], v); Strip(t) == t && IsFieldLine(t)
  {
    assert FieldPrefixes[k][0] != ' ';
    FieldTextReads(FieldPrefixes[k], v);
    PrefixedLine(FieldText(FieldPrefixes[k], v), k);
  }

  /** The line a writable field is written with is a stripped field line;
      an image line ends an attachment list. */
  lemma HeadStarts(f: Field)
    requires WritableField(f)
    ensures Strip(HeadText(f)) == HeadText(f) && IsFieldLine(HeadText(f))
    ensures f.Image? ==> !IsAttachment(HeadText(f))
  {
    match f
    case Labels(ns) =>
      JoinNamesTrimmed(ns);
      ValueLine(0, JoinNames(ns));
    case DueDate(v) => ValueLine(1, v);
    case Members(ns) =>
      JoinNamesTrimmed(ns);
      ValueLine(2, JoinNames(ns));
    case ListName(v) => ValueLine(3, v);
    case Checklist(_) => BarePrefix(4);
    case Attachments(_) => BarePrefix(5);
    case Image(v) =>
      ValueLine(6, v);
      FieldTextReads("Image:", v);
  }

  /** What follows a block: the next block's field line, or the boundary.
      Either ends a checklist and a description; an image line also ends
      an attachment list. */
  lemma NextStops(doc: seq<Paragraph>, j: nat, gs: seq<Field>, e: nat)
    requires BlocksAt(doc, j, gs, e) && Writable(gs) && Boundary(doc, e)
    ensures j == |doc| || !ChecklistGoesOn(doc, j)
    ensures j == |doc| || !DescriptionLine(doc, j)
    ensures gs != [] && gs[0].Image? ==> j < |doc| && !AttachmentLine(doc, j)
  {
    if gs == [] {
      assert HeadingStyle[0] != BulletStyle[0] && HeadingStyle[0] != NumberStyle[0];
      assert HeadingStyle[0] != NormalStyle[0];
    } else {
      assert NormalStyle[0] != BulletStyle[0] && NormalStyle[0] != NumberStyle[0];
      assert NormalStyle[0] != HeadingStyle[0];
      HeadStarts(gs[0]);
    }
  }

  /** Writable fields laid out as their blocks from `i` up to a boundary
      at `e`. */
  predicate Laid(doc: seq<Paragraph>, i: nat, fs: seq<Field>, e: nat) {
    Writable(fs) && BlocksAt(doc, i, fs, e) && Boundary(doc, e)
  }

  /** The first of laid-out blocks: its field line is not a heading, the
      field's loop stops after it, and the rest are laid out after it. */
  lemma LaidHead(doc: seq<Paragraph>, i: nat, fs: seq<Field>, e: nat, j: nat)
    requires fs != [] && Laid(doc, i, fs, e) && j == i + 1 + Width(fs[0])
    ensures i < |doc| && !IsHeading(doc[i])
    ensures doc[i].text == HeadText(fs[0]) && LinesAt(doc, i + 1, Below(fs[0]))
    ensures WritableField(fs[0]) && StopsAfter(doc, fs[0], j)
    ensures Laid(doc, j, fs[1..], e)
  {
    assert NormalStyle[0] != HeadingStyle[0];
    NextStops(doc, j, fs[1..], e);
  }

  /** Writable fields laid out as their blocks, up to a heading or the
      end, read back as exactly those fields. */
  lemma {:induction false} BlocksRead(doc: seq<Paragraph>, i: nat, fs: seq<Field>, e: nat)
    requires Laid(doc, i, fs, e)
    ensures ReadFields(doc, i) == (fs, e)
    decreases |fs|
  {
    if fs != [] {
      var f, rest, j := fs[0], fs[1..], i + 1 + Width(fs[0]);
      LaidHead(doc, i, fs, e, j);
      FieldBlockRead(doc, i, f, j);
      BlocksRead(doc, j, rest, e);
      ConsFields(doc, i, f, j, rest, e, fs);
    }
  }

  /** One field in front of what the scan reads after it. */
  lemma ConsFields(doc: seq<Paragraph>, i: nat, f: Field, j: nat, fs: seq<Field>, e: nat, all: seq<Field>)
    requires i < |doc| && !IsHeading(doc[i]) && ReadField(doc, i) == (f, j)
    requires ReadFields(doc, j) == (fs, e) && all == [f] + fs
    ensures ReadFields(doc, i) == (all, e)
  {
  }

  /** The description paragraph of a written card, ended by its first
      field line or the boundary, reads as its text and a newline. */
  lemma DescriptionRead(doc: seq<Paragraph>, s: nat, title: string, d: string, fs: seq<Field>, e: nat)
    requires WrittenAt(doc, s, title, d, fs, e) && Writable(fs) && Boundary(doc, e)
    requires IsTrimmed(d) && !IsFieldLine(d)
    ensures ReadDescription(doc, s + 1) == (d + "\n", s + 2)
  {
    NextStops(doc, s + 2, fs, e);
    assert NormalStyle[0] != HeadingStyle[0];
    StripTrimmed(d);
    assert ReadDescription(doc, s + 2) == ("", s + 2);
    assert d + "\n" + "" == d + "\n";
  }

  /** A trimmed description followed by a newline strips back to itself. */
  lemma DescriptionStrips(d: string)
    requires IsTrimmed(d)
    ensures Strip(d + "\n") == d
  {
    assert AllSpace([]) && AllSpace("\n");
    StripUnique([], d, "\n");
    assert [] + d + "\n" == d + "\n";
  }

  /** A written card parses as the fold of its fields into a card with its
      title and description, and the scan stops where its blocks end. */
  lemma WrittenRead(doc: seq<Paragraph>, s: nat, title: string, d: string, fs: seq<Field>, e: nat)
    requires WrittenAt(doc, s, title, d, fs, e) && Writable(fs) && Boundary(doc, e)
    requires IsTrimmed(title) && IsTrimmed(d) && !IsFieldLine(d)
    ensures s < |doc| && IsHeading(doc[s])
    ensures ParseCard(doc, s) == (Apply(NewCard(title, d), fs), e)
  {
    DescriptionRead(doc, s, title, d, fs, e);
    DescriptionStrips(d);
    StripTrimmed(title);
    BlocksRead(doc, s + 2, fs, e);
  }

  /** The fields a fully populated card is written with, in the sample
      template's order. */
  function FieldsOf(c: Card): seq<Field> {
    [Labels(c.labels), DueDate(c.dueDate.GetOr("")), Members(c.members),
     ListName(c.listName.GetOr("")), Checklist(c.checklist), Attachments(c.attachments),
     Image(c.image.GetOr(""))]
  }

  /** The cards the template writes in full: trimmed title and
      description, a description that is not a field line, non-empty clean
      label and member lists, every single-valued field set to a non-blank
      trimmed value, trimmed checklist items and trimmed attachments. */
  predicate Renderable(c: Card) {
    && IsTrimmed(c.title)
    && IsTrimmed(c.description) && !IsFieldLine(c.description)
    && IsNameList(c.labels) && IsNameList(c.members)
    && c.dueDate.Some? && IsValue(c.dueDate.value)
    && c.listName.Some? && IsValue(c.listName.value)
    && c.image.Some? && IsValue(c.image.value)
    && AllTrimmed(c.checklist)
    && AllAttachments(c.attachments)
  }

  /** A card in the sample template's layout. */
  function Render(c: Card): seq<Paragraph> {
    Written(c.title, c.description, FieldsOf(c))
  }

  /** Cards written one after the other. */
  function RenderAll(cs: seq<Card>): seq<Paragraph>
    decreases |cs|
  {
    if cs == [] then [] else Render(cs[0]) + RenderAll(cs[1..])
  }

  /** A fully populated card's fields can be written. */
  lemma RenderableWritable(c: Card)
    requires Renderable(c)
    ensures Writable(FieldsOf(c))
  {
    var s7: seq<Field> := [];
    var s6 := [Image(c.image.value)] + s7;
    WritableCons(Image(c.image.value), s7);
    var s5 := [Attachments(c.attachments)] + s6;
    WritableCons(Attachments(c.attachments), s6);
    var s4 := [Checklist(c.checklist)] + s5;
    WritableCons(Checklist(c.checklist), s5);
    var s3 := [ListName(c.listName.value)] + s4;
    WritableCons(ListName(c.listName.value), s4);
    var s2 := [Members(c.members)] + s3;
    WritableCons(Members(c.members), s3);
    var s1 := [DueDate(c.dueDate.value)] + s2;
    WritableCons(DueDate(c.dueDate.value), s2);
    var fs := [Labels(c.labels)] + s1;
    WritableCons(Labels(c.labels), s1);
    assert fs == FieldsOf(c);
  }

  /** A writable field in front of writable fields, an attachment list
      only in front of an image line. */
  lemma WritableCons(f: Field, fs: seq<Field>)
    requires WritableField(f) && Writable(fs)
    requires f.Attachments? ==> fs != [] && fs[0].Image?
    ensures Writable([f] + fs)
  {
    assert ([f] + fs)[1..] == fs;
  }

  /** Folding one more field into the card the earlier ones made. */
  lemma ApplySnoc(c: Card, fs: seq<Field>, f: Field)
    ensures Apply(c, fs + [f]) == ApplyField(Apply(c, fs), f)
  {
    assert (fs + [f])[..|fs|] == fs;
  }

  /** Folding a rendered card's fields into a card with its title and
      description gives the card back. */
  lemma ApplyRendered(c: Card)
    requires Renderable(c)
    ensures Apply(NewCard(c.title, c.description), FieldsOf(c)) == c
  {
    var c0 := NewCard(c.title, c.description);
    var p0: seq<Field> := [];
    var p1 := p0 + [Labels(c.labels)];
    ApplySnoc(c0, p0, Labels(c.labels));
    var p2 := p1 + [DueDate(c.dueDate.value)];
    ApplySnoc(c0, p1, DueDate(c.dueDate.value));
    var p3 := p2 + [Members(c.members)];
    ApplySnoc(c0, p2, Members(c.members));
    var p4 := p3 + [ListName(c.listName.value)];
    ApplySnoc(c0, p3, ListName(c.listName.value));
    var p5 := p4 + [Checklist(c.checklist)];
    ApplySnoc(c0, p4, Checklist(c.checklist));
    var p6 := p5 + [Attachments(c.attachments)];
    ApplySnoc(c0, p5, Attachments(c.attachments));
    var p7 := p6 + [Image(c.image.value)];
    ApplySnoc(c0, p6, Image(c.image.value));
    assert p7 == FieldsOf(c);
    assert [] + c.checklist == c.checklist && [] + c.attachments == c.attachments;
  }

  /** A fully populated card held at `s`, followed by a heading or the end,
      is read back whole, and the scan stops right after it. */
  lemma CardRead(doc: seq<Paragraph>, s: nat, c: Card, e: nat)
    requires LinesAt(doc, s, Render(c)) && Renderable(c)
    requires e == s + |Render(c)| && Boundary(doc, e)
    ensures s < |doc| && IsHeading(doc[s])
    ensures ParseCard(doc, s) == (c, e)
  {
    var fs := FieldsOf(c);
    RenderableWritable(c);
    ApplyRendered(c);
    WrittenHeld(doc, s, c.title, c.description, fs, e);
    WrittenRead(doc, s, c.title, c.description, fs, e);
  }

  /** `doc` holds the cards `cs` one after the other from index `i` to its
      end. */
  predicate AllHeld(doc: seq<Paragraph>, i: nat, cs: seq<Card>)
    decreases |cs|
  {
    if cs == [] then i == |doc|
    else LinesAt(doc, i, Render(cs[0])) && AllHeld(doc, i + |Render(cs[0])|, cs[1..])
  }

  /** Where held cards go on after the first one, a heading follows it
      (or the document ends). */
  lemma NextBoundary(doc: seq<Paragraph>, i: nat, cs: seq<Card>, j: nat)
    requires cs != [] && AllHeld(doc, i, cs) && j == i + |Render(cs[0])|
    ensures Boundary(doc, j)
  {
    if cs[1..] != [] {
      assert cs[1..][0] == cs[1];
      LinesAtIndex(doc, j, Render(cs[1]), 0);
    }
  }

  /** The first held card is read back whole. */
  lemma FirstHeldRead(doc: seq<Paragraph>, i: nat, cs: seq<Card>, j: nat)
    requires cs != [] && AllHeld(doc, i, cs) && Renderable(cs[0])
    requires j == i + |Render(cs[0])|
    ensures i < |doc| && IsHeading(doc[i])
    ensures ParseCard(doc, i).0 == cs[0] && ParseCard(doc, i).1 == j
  {
    NextBoundary(doc, i, cs, j);
    CardRead(doc, i, cs[0], j);
  }

  /** From `i` on, `doc` reads as the cards `cs`: each starts at a heading
      and the next starts where its scan stopped; the last one ends the
      document. */
  predicate ReadsAs(doc: seq<Paragraph>, i: nat, cs: seq<Card>)
    decreases |cs|
  {
    if cs == [] then i == |doc|
    else i < |doc| && IsHeading(doc[i]) && ParseCard(doc, i).0 == cs[0]
         && ReadsAs(doc, ParseCard(doc, i).1, cs[1..])
  }

  /** The outer loop follows such a chain of cards. */
  lemma {:induction false} ChainParses(doc: seq<Paragraph>, i: nat, cs: seq<Card>)
    requires i <= |doc| && ReadsAs(doc, i, cs)
    ensures ParseFrom(doc, i) == cs
    decreases |cs|
  {
    if cs != [] {
      ChainParses(doc, ParseCard(doc, i).1, cs[1..]);
      assert [cs[0]] + cs[1..] == cs;
    }
  }

  /** Every card of `cs` is fully populated. */
  predicate AllRenderable(cs: seq<Card>)
    decreases |cs|
  {
    cs == [] || (Renderable(cs[0]) && AllRenderable(cs[1..]))
  }

  lemma {:induction false} AllRenderableIff(cs: seq<Card>)
    ensures AllRenderable(cs) <==> forall k :: 0 <= k < |cs| ==> Renderable(cs[k])
    decreases |cs|
  {
    if cs != [] {
      AllRenderableIff(cs[1..]);
      assert forall k :: 1 <= k < |cs| ==> cs[k] == cs[1..][k - 1];
    }
  }

  /** Fully populated cards held one after the other from `i` on read as
      a chain of exactly those cards. */
  lemma {:induction false} HeldChain(doc: seq<Paragraph>, i: nat, cs: seq<Card>)
    requires AllHeld(doc, i, cs) && AllRenderable(cs)
    ensures ReadsAs(doc, i, cs)
    decreases |cs|
  {
    if cs != [] {
      var j := i + |Render(cs[0])|;
      HeldChain(doc, j, cs[1..]);
      FirstHeldRead(doc, i, cs, j);
    }
  }

  /** The paragraphs `ps` placed right after `pre` are held there. */
  lemma PlacedLines(pre: seq<Paragraph>, ps: seq<Paragraph>, post: seq<Paragraph>)
    ensures LinesAt(pre + ps + post, |pre|, ps)
  {
    var doc := pre + ps + post;
    assert doc[|pre|..|pre| + |ps|] == ps;
    LinesAtSlice(doc, |pre|, ps);
  }

  /** Rendered cards after `pre` are held there, one after the other. */
  lemma {:induction false} RenderAllHeld(pre: seq<Paragraph>, cs: seq<Card>)
    ensures AllHeld(pre + RenderAll(cs), |pre|, cs)
    decreases |cs|
  {
    var doc := pre + RenderAll(cs);
    if cs == [] {
      assert doc == pre;
    } else {
      var r := Render(cs[0]);
      var more := RenderAll(cs[1..]);
      assert doc == pre + r + more;
      PlacedLines(pre, r, more);
      assert doc == (pre + r) + more;
      RenderAllHeld(pre + r, cs[1..]);
    }
  }

  /** Rendered cards are held in the document they make up. */
  lemma RenderedHeld(cs: seq<Card>)
    ensures AllHeld(RenderAll(cs), 0, cs)
  {
    assert [] + RenderAll(cs) == RenderAll(cs);
    RenderAllHeld([], cs);
  }

  /** A document holding fully populated cards one after the other parses
      as exactly those cards. */
  lemma HeldParse(doc: seq<Paragraph>, cs: seq<Card>)
    requires AllHeld(doc, 0, cs) && AllRenderable(cs)
    ensures Parse(doc) == cs
  {
    HeldChain(doc, 0, cs);
    ChainParses(doc, 0, cs);
  }

  /** Fully populated cards written in the template's layout parse back
      as exactly those cards, in order. */
  lemma RoundTrip(cs: seq<Card>)
    requires AllRenderable(cs)
    ensures Parse(RenderAll(cs)) == cs
  {
    RenderedHeld(cs);
    HeldParse(RenderAll(cs), cs);
  }
}
