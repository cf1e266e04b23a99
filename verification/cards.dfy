/**
 The parser's data: a document paragraph (style name and text), the card
 record `parse_docx` builds, and the field events met in a card body.
 A card is built by folding its field events into a fresh card in document
 order, exactly as the source mutates its card dictionary line by line.
 */
module Cards {
  import opened Wrappers

  /** One paragraph of the document: only its style name and text matter. */
  datatype Paragraph = Paragraph(style: string, text: string)

  /** The card dictionary of the source with its nine keys. */
  datatype Card = Card(
    title: string,
    description: string,
    labels: seq<string>,
    dueDate: Option<string>,
    members: seq<string>,
    listName: Option<string>,
    checklist: seq<string>,
    attachments: seq<string>,
    image: Option<string>)

  /** A card as it stands once title and description are known: every
      optional field unset, every list empty. */
  function NewCard(title: string, description: string): Card {
    Card(title, description, [], None, [], None, [], [], None)
  }

  /** What one field line (with the paragraphs it consumes) contributes. */
  datatype Field =
    | Labels(names: seq<string>)
    | DueDate(value: string)
    | Members(names: seq<string>)
    | ListName(value: string)
    | Checklist(items: seq<string>)
    | Attachments(items: seq<string>)
    | Image(value: string)
    | Skip

  /** The effect of one field on the card: single-valued fields and the
      label and member lists are replaced, checklist items and attachments
      are appended. */
  function ApplyField(c: Card, f: Field): Card {
    match f
    case Labels(ns) => c.(labels := ns)
    case DueDate(v) => c.(dueDate := Some(v))
    case Members(ns) => c.(members := ns)
    case ListName(v) => c.(listName := Some(v))
    case Checklist(items) => c.(checklist := c.checklist + items)
    case Attachments(items) => c.(attachments := c.attachments + items)
    case Image(v) => c.(image := Some(v))
    case Skip => c
  }

  /** The fields applied one after the other, first to last: the last
      field is applied to the card the earlier ones made. */
  function Apply(c: Card, fs: seq<Field>): Card
    decreases |fs|
  {
    if fs == [] then c else ApplyField(Apply(c, fs[..|fs| - 1]), fs[|fs| - 1])
  }

  function LabelsOf(f: Field): Option<seq<string>> {
    if f.Labels? then Some(f.names) else None
  }

  function MembersOf(f: Field): Option<seq<string>> {
    if f.Members? then Some(f.names) else None
  }

  function DueDateOf(f: Field): Option<string> {
    if f.DueDate? then Some(f.value) else None
  }

  function ListNameOf(f: Field): Option<string> {
    if f.ListName? then Some(f.value) else None
  }

  function ImageOf(f: Field): Option<string> {
    if f.Image? then Some(f.value) else None
  }

  function ChecklistOf(f: Field): seq<string> {
    if f.Checklist? then f.items else []
  }

  function AttachmentsOf(f: Field): seq<string> {
    if f.Attachments? then f.items else []
  }

  /** The value `pick` finds in the last field of `fs` it finds one in. */
  function LastValue<T>(fs: seq<Field>, pick: Field -> Option<T>): Option<T>
    decreases |fs|
  {
    if fs == [] then None
    else pick(fs[|fs| - 1]).Or(LastValue(fs[..|fs| - 1], pick))
  }

  /** `LastValue` finds the last field that carries a value, and finds
      nothing exactly when no field carries one. */
  lemma {:induction false} LastValueIsLast<T>(fs: seq<Field>, pick: Field -> Option<T>)
    ensures LastValue(fs, pick).Some? ==>
              exists k :: 0 <= k < |fs| && pick(fs[k]) == LastValue(fs, pick)
                          && forall m :: k < m < |fs| ==> pick(fs[m]).None?
    ensures LastValue(fs, pick).None? <==> forall k :: 0 <= k < |fs| ==> pick(fs[k]).None?
    decreases |fs|
  {
    if fs != [] {
      var init := fs[..|fs| - 1];
      LastValueIsLast(init, pick);
      assert forall k :: 0 <= k < |init| ==> init[k] == fs[k];
      if pick(fs[|fs| - 1]).None? && LastValue(init, pick).Some? {
        var k :| 0 <= k < |init| && pick(init[k]) == LastValue(init, pick)
                 && forall m :: k < m < |init| ==> pick(init[m]).None?;
        assert pick(fs[k]) == LastValue(fs, pick);
      }
    }
  }

  /** Everything `pick` finds in `fs`, in order. */
  function Gather(fs: seq<Field>, pick: Field -> seq<string>): seq<string>
    decreases |fs|
  {
    if fs == [] then [] else Gather(fs[..|fs| - 1], pick) + pick(fs[|fs| - 1])
  }

  /** One field in the same terms: it replaces what it names, appends what
      it lists, and leaves the rest of the card alone. */
  lemma ApplyFieldEffect(c: Card, f: Field)
    ensures ApplyField(c, f) == Card(
      c.title,
      c.description,
      LabelsOf(f).GetOr(c.labels),
      DueDateOf(f).Or(c.dueDate),
      MembersOf(f).GetOr(c.members),
      ListNameOf(f).Or(c.listName),
      c.checklist + ChecklistOf(f),
      c.attachments + AttachmentsOf(f),
      ImageOf(f).Or(c.image))
  {
    assert c.checklist + [] == c.checklist;
    assert c.attachments + [] == c.attachments;
  }

  /** Folding the fields into a card: the last label, member, due-date,
      list and image line wins (the card's own value stays when there is
      none), checklist items and attachments accumulate in order, and title
      and description are left alone. */
  lemma {:induction false} ApplyFields(c: Card, fs: seq<Field>)
    ensures Apply(c, fs).title == c.title
    ensures Apply(c, fs).description == c.description
    ensures Apply(c, fs).labels == LastValue(fs, LabelsOf).GetOr(c.labels)
    ensures Apply(c, fs).dueDate == LastValue(fs, DueDateOf).Or(c.dueDate)
    ensures Apply(c, fs).members == LastValue(fs, MembersOf).GetOr(c.members)
    ensures Apply(c, fs).listName == LastValue(fs, ListNameOf).Or(c.listName)
    ensures Apply(c, fs).checklist == c.checklist + Gather(fs, ChecklistOf)
    ensures Apply(c, fs).attachments == c.attachments + Gather(fs, AttachmentsOf)
    ensures Apply(c, fs).image == LastValue(fs, ImageOf).Or(c.image)
    decreases |fs|
  {
    if fs == [] {
      assert c.checklist + [] == c.checklist;
      assert c.attachments + [] == c.attachments;
    } else {
      var init := fs[..|fs| - 1];
      var f := fs[|fs| - 1];
      ApplyFields(c, init);
      ApplyFieldEffect(Apply(c, init), f);
      assert c.checklist + Gather(init, ChecklistOf) + ChecklistOf(f)
          == c.checklist + Gather(fs, ChecklistOf);
      assert c.attachments + Gather(init, AttachmentsOf) + AttachmentsOf(f)
          == c.attachments + Gather(fs, AttachmentsOf);
    }
  }

  /** Every item gathered from `fs` was contributed by one of its fields. */
  lemma {:induction false} GatherFrom(fs: seq<Field>, pick: Field -> seq<string>, x: string)
    requires x in Gather(fs, pick)
    ensures exists k :: 0 <= k < |fs| && x in pick(fs[k])
    decreases |fs|
  {
    var init := fs[..|fs| - 1];
    if x in Gather(init, pick) {
      GatherFrom(init, pick, x);
      var k :| 0 <= k < |init| && x in pick(init[k]);
      assert init[k] == fs[k];
    } else {
      assert x in pick(fs[|fs| - 1]);
    }
  }
}
