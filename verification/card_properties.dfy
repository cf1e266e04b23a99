/**
 What a parsed card holds: each field in terms of the paragraphs of its
 body, the cleanliness of every name and attachment, and the round trip of
 a comma-separated name list.
 */
module CardProperties {
  import opened Wrappers
  import opened Text
  import opened Cards
  import opened Parser
  import opened ParseProperties

  /** Accumulating `text + "\n"` per line gives the newline-joined lines
      followed by one more newline. */
  lemma {:induction false} LinesJoin(ts: seq<string>)
    requires ts != []
    ensures Lines(ts) == JoinLines(ts) + "\n"
    decreases |ts|
  {
    if |ts| > 1 {
      LinesJoin(ts[1..]);
      assert Lines(ts) == ts[0] + "\n" + (JoinLines(ts[1..]) + "\n");
    } else {
      assert Lines(ts[1..]) == "";
    }
  }

  /** Stripping the accumulated description is stripping its lines joined
      with newlines: the trailing newline is whitespace. */
  lemma DescriptionIsJoined(ts: seq<string>)
    ensures Strip(Lines(ts)) == Strip(JoinLines(ts))
  {
    if ts != [] {
      LinesJoin(ts);
      assert AllSpace("\n");
      StripAppendSpace(JoinLines(ts), "\n");
    }
  }

  /** The card read at a heading: its title is the heading's stripped
      text, its description the stripped, newline-joined texts of the
      paragraphs before the first field line; every single-valued field
      holds the value of the last line that sets it (or stays unset), the
      label and member lists are those of the last such line (or empty),
      and checklist items and attachments are those of all such lines, in
      order. */
  lemma CardContents(paras: seq<Paragraph>, h: nat)
    requires h < |paras| && IsHeading(paras[h])
    ensures var j := ReadDescription(paras, h + 1).1;
            var fs := ReadFields(paras, j).0;
            var c := ParseCard(paras, h).0;
            && c.title == Strip(paras[h].text)
            && c.description == Strip(JoinLines(Texts(paras[h + 1..j])))
            && c.labels == LastValue(fs, LabelsOf).GetOr([])
            && c.dueDate == LastValue(fs, DueDateOf)
            && c.members == LastValue(fs, MembersOf).GetOr([])
            && c.listName == LastValue(fs, ListNameOf)
            && c.checklist == Gather(fs, ChecklistOf)
            && c.attachments == Gather(fs, AttachmentsOf)
            && c.image == LastValue(fs, ImageOf)
  {
    var (desc, j) := ReadDescription(paras, h + 1);
    var fs := ReadFields(paras, j).0;
    DescriptionSpec(paras, h + 1);
    DescriptionIsJoined(Texts(paras[h + 1..j]));
    ApplyFields(NewCard(Strip(paras[h].text), Strip(desc)), fs);
  }

  /** What every parsed card satisfies: title and description carry no
      surrounding whitespace, every label and member is a clean name, and
      every attachment is non-blank and does not start with "Image:". */
  predicate CleanCard(c: Card) {
    && IsTrimmed(c.title)
    && IsTrimmed(c.description)
    && (forall k :: 0 <= k < |c.labels| ==> CleanName(c.labels[k]))
    && (forall k :: 0 <= k < |c.members| ==> CleanName(c.members[k]))
    && (forall k :: 0 <= k < |c.attachments| ==> IsAttachment(c.attachments[k]))
  }

  /** The names of the last field `pick` finds a list in are clean. */
  lemma LastNamesClean(fs: seq<Field>, pick: Field -> Option<seq<string>>)
    requires forall k :: 0 <= k < |fs| ==> WellFormedField(fs[k])
    requires forall f :: pick(f).Some? ==> (f.Labels? || f.Members?) && pick(f).value == f.names
    ensures forall k :: 0 <= k < |LastValue(fs, pick).GetOr([])| ==> CleanName(LastValue(fs, pick).GetOr([])[k])
  {
    LastValueIsLast(fs, pick);
    if LastValue(fs, pick).Some? {
      var k :| 0 <= k < |fs| && pick(fs[k]) == LastValue(fs, pick)
               && forall m :: k < m < |fs| ==> pick(fs[m]).None?;
      assert WellFormedField(fs[k]);
    }
  }

  /** Every attachment gathered from well-formed fields is clean. */
  lemma GatheredAttachmentsClean(fs: seq<Field>)
    requires forall k :: 0 <= k < |fs| ==> WellFormedField(fs[k])
    ensures forall k :: 0 <= k < |Gather(fs, AttachmentsOf)| ==> IsAttachment(Gather(fs, AttachmentsOf)[k])
  {
    var all := Gather(fs, AttachmentsOf);
    forall k | 0 <= k < |all|
      ensures IsAttachment(all[k])
    {
      GatherFrom(fs, AttachmentsOf, all[k]);
      var m :| 0 <= m < |fs| && all[k] in AttachmentsOf(fs[m]);
      assert WellFormedField(fs[m]);
      var items := AttachmentsOf(fs[m]);
      var n :| 0 <= n < |items| && items[n] == all[k];
    }
  }

  /** The card read at any heading is clean. */
  lemma ParsedCardClean(paras: seq<Paragraph>, h: nat)
    requires h < |paras| && IsHeading(paras[h])
    ensures CleanCard(ParseCard(paras, h).0)
  {
    CardContents(paras, h);
    var j := ReadDescription(paras, h + 1).1;
    var fs := ReadFields(paras, j).0;
    FieldsSpec(paras, j);
    LastNamesClean(fs, LabelsOf);
    LastNamesClean(fs, MembersOf);
    GatheredAttachmentsClean(fs);
  }

  /** Every card of a document is clean. */
  lemma ParseClean(paras: seq<Paragraph>)
    ensures forall k :: 0 <= k < |Parse(paras)| ==> CleanCard(Parse(paras)[k])
  {
    CardsAtHeadings(paras);
    var st := CardStarts(paras, 0);
    forall k | 0 <= k < |Parse(paras)|
      ensures CleanCard(Parse(paras)[k])
    {
      ParsedCardClean(paras, st[k]);
    }
  }

  /** Names written back the way the source's sample document lists them:
      joined with ", ". */
  function JoinNames(ns: seq<string>): string
    decreases |ns|
  {
    if ns == [] then "" else if |ns| == 1 then ns[0] else ns[0] + ", " + JoinNames(ns[1..])
  }

  /** Clean names joined with ", " carry no surrounding whitespace. */
  lemma {:induction false} JoinNamesTrimmed(ns: seq<string>)
    requires forall k :: 0 <= k < |ns| ==> CleanName(ns[k])
    ensures IsTrimmed(JoinNames(ns))
    ensures ns != [] ==> JoinNames(ns) != ""
    decreases |ns|
  {
    if |ns| > 1 {
      JoinNamesTrimmed(ns[1..]);
      var rest := JoinNames(ns[1..]);
      var s := ns[0] + ", " + rest;
      assert s[0] == ns[0][0];
      assert s[|s| - 1] == rest[|rest| - 1];
    }
  }

  /** Splitting clean names joined with ", " (after any leading
      whitespace) and cleaning the pieces gives the names back. */
  lemma {:induction false} PiecesOfJoined(pre: string, ns: seq<string>)
    requires AllSpace(pre)
    requires forall k :: 0 <= k < |ns| ==> CleanName(ns[k])
    ensures CleanPieces(Split(pre + JoinNames(ns), ',')) == ns
    decreases |ns|
  {
    SpaceHasNoComma(pre);
    if ns == [] {
      assert pre + JoinNames(ns) == pre;
      SplitNoSep(pre, ',');
      assert Strip(pre) == "";
    } else if |ns| == 1 {
      assert pre + JoinNames(ns) == pre + ns[0] + "";
      SplitNoSep(pre + ns[0], ',');
      assert AllSpace("");
      StripUnique(pre, ns[0], "");
    } else {
      var tail := " " + JoinNames(ns[1..]);
      assert pre + JoinNames(ns) == (pre + ns[0]) + [','] + tail;
      SplitAfterPiece(pre + ns[0], tail, ',');
      assert AllSpace("") && AllSpace(" ");
      StripUnique(pre, ns[0], "");
      assert pre + ns[0] + "" == pre + ns[0];
      PiecesOfJoined(" ", ns[1..]);
      var ps := Split(pre + JoinNames(ns), ',');
      assert ps == [pre + ns[0]] + Split(tail, ',');
      assert ps[1..] == Split(tail, ',');
    }
  }

  /** A "Labels:" or "Members:" value written as clean names joined with
      ", " reads back as exactly those names. */
  lemma NamesRoundTrip(ns: seq<string>)
    requires forall k :: 0 <= k < |ns| ==> CleanName(ns[k])
    ensures Names(JoinNames(ns)) == ns
  {
    var joined := JoinNames(ns);
    JoinNamesTrimmed(ns);
    StripTrimmed(joined);
    PiecesOfJoined("", ns);
    assert "" + joined == joined;
  }
}
