/**
 `parse_docx` over an abstract paragraph sequence. The source walks the
 paragraphs with one index through four phases: skipping to a "Heading 1",
 reading the description, scanning field lines, and the two nested list
 modes of "Checklist:" and "Attachments:". Each phase is a function taking
 the current index and returning what it read together with the index where
 it stopped; every phase stops at an index no smaller than where it began.
 */
module Parser {
  import opened Wrappers
  import opened Text
  import opened Cards

  const HeadingStyle: string := "Heading 1"
  const BulletStyle: string := "List Bullet"
  const NumberStyle: string := "List Number"
  const NormalStyle: string := "Normal"

  predicate IsHeading(p: Paragraph) {
    p.style == HeadingStyle
  }

  /** The prefixes that end the description, in the order the field scan
      tests them. */
  const FieldPrefixes: seq<string> :=
    ["Labels:", "Due Date:", "Members:", "List:", "Checklist:", "Attachments:", "Image:"]

  /** `t.startswith(tuple(ps))`. */
  predicate StartsWithAny(t: string, ps: seq<string>)
    decreases |ps|
  {
    |ps| > 0 && (StartsWith(t, ps[0]) || StartsWithAny(t, ps[1..]))
  }

  /** A (stripped) text starting with one of the seven field prefixes. */
  predicate IsFieldLine(t: string) {
    StartsWithAny(t, FieldPrefixes)
  }

  lemma {:induction false} StartsWithAnyIff(t: string, ps: seq<string>)
    ensures StartsWithAny(t, ps) <==> exists k :: 0 <= k < |ps| && StartsWith(t, ps[k])
    decreases |ps|
  {
    if ps != [] {
      StartsWithAnyIff(t, ps[1..]);
      if StartsWithAny(t, ps[1..]) {
        var k :| 0 <= k < |ps[1..]| && StartsWith(t, ps[1..][k]);
        assert StartsWith(t, ps[k + 1]);
      }
      if exists k :: 0 <= k < |ps| && StartsWith(t, ps[k]) {
        var k :| 0 <= k < |ps| && StartsWith(t, ps[k]);
        if k > 0 { assert ps[1..][k - 1] == ps[k]; }
      }
    }
  }

  /** A paragraph the checklist takes as an item. */
  predicate IsListItem(p: Paragraph) {
    p.style == BulletStyle || p.style == NumberStyle
  }

  /** A paragraph the checklist steps over. */
  predicate IsBlankNormal(p: Paragraph) {
    p.style == NormalStyle && Strip(p.text) == ""
  }

  /** A (stripped) text the attachment list takes. */
  predicate IsAttachment(t: string) {
    t != "" && !StartsWith(t, "Image:")
  }

  /** The paragraph at `k` continues a description: it is neither a
      heading nor a field line. */
  predicate DescriptionLine(paras: seq<Paragraph>, k: nat)
    requires k < |paras|
  {
    !IsHeading(paras[k]) && !IsFieldLine(Strip(paras[k].text))
  }

  /** The checklist loop goes on past the paragraph at `k`. */
  predicate ChecklistGoesOn(paras: seq<Paragraph>, k: nat)
    requires k < |paras|
  {
    IsListItem(paras[k]) || IsBlankNormal(paras[k])
  }

  /** The attachment loop takes the paragraph at `k`. */
  predicate AttachmentLine(paras: seq<Paragraph>, k: nat)
    requires k < |paras|
  {
    IsAttachment(Strip(paras[k].text))
  }

  /** A label or member name as the comprehension keeps it: non-empty,
      with no surrounding whitespace, and (having been split on ",")
      without a comma. */
  predicate CleanName(n: string) {
    n != "" && IsTrimmed(n) && ',' !in n
  }

  /** What every field read from a document satisfies: names are
      non-empty, trimmed and free of commas; attachments are non-empty and
      do not start with "Image:". */
  predicate WellFormedField(f: Field) {
    match f
    case Labels(ns) => forall k :: 0 <= k < |ns| ==> CleanName(ns[k])
    case Members(ns) => forall k :: 0 <= k < |ns| ==> CleanName(ns[k])
    case Attachments(items) => forall k :: 0 <= k < |items| ==> IsAttachment(items[k])
    case _ => true
  }

  /** The stripped texts of `ps`. */
  function Texts(ps: seq<Paragraph>): seq<string>
    decreases |ps|
  {
    if ps == [] then [] else [Strip(ps[0].text)] + Texts(ps[1..])
  }

  /** Each text followed by a newline, concatenated: what the source's
      `description += text + "\n"` accumulates. */
  function Lines(ts: seq<string>): string
    decreases |ts|
  {
    if ts == [] then "" else ts[0] + "\n" + Lines(ts[1..])
  }

  /** `"\n".join(ts)`. */
  function JoinLines(ts: seq<string>): string
    decreases |ts|
  {
    if ts == [] then "" else if |ts| == 1 then ts[0] else ts[0] + "\n" + JoinLines(ts[1..])
  }

  /** The stripped texts of the list-styled paragraphs of `ps`, in order. */
  function ListItems(ps: seq<Paragraph>): seq<string>
    decreases |ps|
  {
    if ps == [] then []
    else (if IsListItem(ps[0]) then [Strip(ps[0].text)] else []) + ListItems(ps[1..])
  }

  function CountHeadings(ps: seq<Paragraph>): nat
    decreases |ps|
  {
    if ps == [] then 0 else (if IsHeading(ps[0]) then 1 else 0) + CountHeadings(ps[1..])
  }

  /** The list comprehension that reads "Labels:" and "Members:" values:
      split on ",", strip each piece, drop the empty ones. */
  function Names(s: string): (r: seq<string>)
    ensures forall k :: 0 <= k < |r| ==> CleanName(r[k])
  {
    CleanPieces(Split(Strip(s), ','))
  }

  function CleanPieces(ps: seq<string>): (r: seq<string>)
    requires forall k :: 0 <= k < |ps| ==> ',' !in ps[k]
    ensures forall k :: 0 <= k < |r| ==> CleanName(r[k])
    decreases |ps|
  {
    if ps == [] then []
    else
      var t := Strip(ps[0]);
      StripKeepsOut(ps[0], ',');
      (if t != "" then [t] else []) + CleanPieces(ps[1..])
  }

  /** Cleaning two runs of pieces is cleaning each. */
  lemma {:induction false} CleanPiecesConcat(ps: seq<string>, qs: seq<string>)
    requires forall k :: 0 <= k < |ps| ==> ',' !in ps[k]
    requires forall k :: 0 <= k < |qs| ==> ',' !in qs[k]
    ensures CleanPieces(ps + qs) == CleanPieces(ps) + CleanPieces(qs)
    decreases |ps|
  {
    if ps == [] {
      assert ps + qs == qs;
    } else {
      assert (ps + qs)[1..] == ps[1..] + qs;
      CleanPiecesConcat(ps[1..], qs);
    }
  }

  /** One piece is kept, stripped, unless it is blank. */
  lemma CleanPiece(x: string)
    requires ',' !in x
    ensures CleanPieces([x]) == if AllSpace(x) then [] else [Strip(x)]
  {
    assert [x][1..] == [];
  }

  /** Whitespace before the first piece is stripped away with it. */
  lemma CleanLead(a: string, t: string)
    requires AllSpace(a)
    ensures CleanPieces(Split(a + t, ',')) == CleanPieces(Split(t, ','))
  {
    var ps := Split(t, ',');
    SpaceHasNoComma(a);
    SplitPrepend(a, t, ',');
    var x, rest := ps[0], ps[1..];
    CleanPiecesConcat([a + x], rest);
    CleanPiecesConcat([x], rest);
    CleanPiece(a + x);
    CleanPiece(x);
    StripPrependSpace(a, x);
    FirstAndRest(ps);
  }

  /** Whitespace after the last piece is stripped away with it. */
  lemma CleanTrail(t: string, c: string)
    requires AllSpace(c)
    ensures CleanPieces(Split(t + c, ',')) == CleanPieces(Split(t, ','))
  {
    var ps := Split(t, ',');
    var n := |ps| - 1;
    SpaceHasNoComma(c);
    SplitAppend(t, c, ',', n);
    var init, x := ps[..n], ps[n];
    CleanPiecesConcat(init, [x + c]);
    CleanPiecesConcat(init, [x]);
    CleanPiece(x + c);
    CleanPiece(x);
    StripAppendSpace(x, c);
    InitAndLast(ps, n);
  }

  /** Stripping the whole value first changes nothing: the names are the
      cleaned pieces of the value as it stands. */
  lemma NamesOuter(s: string)
    ensures Names(s) == CleanPieces(Split(s, ','))
  {
    var a, c := StripSplit(s);
    var t := Strip(s);
    CleanLead(a, t);
    CleanTrail(a + t, c);
    assert s == (a + t) + c;
  }

  /** A value with no comma gives its stripped text as the one name, or no
      name when it is blank. */
  lemma NamesPiece(a: string)
    requires ',' !in a
    ensures Names(a) == if AllSpace(a) then [] else [Strip(a)]
  {
    NamesOuter(a);
    SplitNoSep(a, ',');
    CleanPiece(a);
  }

  /** Each comma separates the names before it from the names after it;
      together with `NamesPiece` this fixes `Names` on every value: blank
      pieces are dropped, the others kept stripped and in order. */
  lemma NamesConcat(a: string, b: string)
    ensures Names(a + "," + b) == Names(a) + Names(b)
  {
    NamesOuter(a + "," + b);
    NamesOuter(a);
    NamesOuter(b);
    assert a + "," + b == a + [','] + b;
    SplitConcat(a, b, ',');
    CleanPiecesConcat(Split(a, ','), Split(b, ','));
  }

  /** The description loop: from `i`, every paragraph up to the next
      heading or field line contributes its stripped text and a newline. */
  function ReadDescription(paras: seq<Paragraph>, i: nat): (r: (string, nat))
    requires i <= |paras|
    ensures i <= r.1 <= |paras|
    decreases |paras| - i
  {
    if i == |paras| || !DescriptionLine(paras, i) then
      ("", i)
    else
      var (rest, j) := ReadDescription(paras, i + 1);
      (Strip(paras[i].text) + "\n" + rest, j)
  }

  /** The description loop takes exactly the description lines from `i`
      on, up to the first paragraph that is not one, and accumulates their
      stripped texts, each followed by a newline. */
  lemma {:induction false} DescriptionSpec(paras: seq<Paragraph>, i: nat)
    requires i <= |paras|
    ensures var r := ReadDescription(paras, i);
      && (forall k :: i <= k < r.1 ==> DescriptionLine(paras, k))
      && (r.1 == |paras| || !DescriptionLine(paras, r.1))
      && r.0 == Lines(Texts(paras[i..r.1]))
    decreases |paras| - i
  {
    if i < |paras| && DescriptionLine(paras, i) {
      var r1 := ReadDescription(paras, i + 1);
      var j := r1.1;
      DescriptionSpec(paras, i + 1);
      assert ReadDescription(paras, i) == (Strip(paras[i].text) + "\n" + r1.0, j);
      assert paras[i..j][1..] == paras[i + 1..j];
      forall k | i <= k < j ensures DescriptionLine(paras, k) {
        if k > i { assert i + 1 <= k < r1.1; }
      }
    }
  }

  /** The "Checklist:" loop: list-styled paragraphs are items, blank
      "Normal" paragraphs are stepped over, anything else stops the list
      and is left for the field scan. */
  function ReadChecklist(paras: seq<Paragraph>, i: nat): (r: (seq<string>, nat))
    requires i <= |paras|
    ensures i <= r.1 <= |paras|
    decreases |paras| - i
  {
    if i < |paras| && IsListItem(paras[i]) then
      var (items, j) := ReadChecklist(paras, i + 1);
      ([Strip(paras[i].text)] + items, j)
    else if i < |paras| && IsBlankNormal(paras[i]) then
      var (items, j) := ReadChecklist(paras, i + 1);
      (items, j)
    else
      ([], i)
  }

  /** The checklist loop runs over list items and blank "Normal"
      paragraphs, stops at the first other paragraph without taking it,
      and keeps the stripped texts of the list items, in order. */
  lemma {:induction false} ChecklistSpec(paras: seq<Paragraph>, i: nat)
    requires i <= |paras|
    ensures var r := ReadChecklist(paras, i);
      && (forall k :: i <= k < r.1 ==> ChecklistGoesOn(paras, k))
      && (r.1 == |paras| || !ChecklistGoesOn(paras, r.1))
      && r.0 == ListItems(paras[i..r.1])
    decreases |paras| - i
  {
    if i < |paras| && ChecklistGoesOn(paras, i) {
      var r1 := ReadChecklist(paras, i + 1);
      var j := r1.1;
      ChecklistSpec(paras, i + 1);
      assert paras[i..j][1..] == paras[i + 1..j];
      forall k | i <= k < j ensures ChecklistGoesOn(paras, k) {
        if k > i { assert i + 1 <= k < r1.1; }
      }
    }
  }

  /** The "Attachments:" loop: every paragraph up to the first blank or
      "Image:" one (or the end) is an attachment, whatever its style. */
  function ReadAttachments(paras: seq<Paragraph>, i: nat): (r: (seq<string>, nat))
    requires i <= |paras|
    ensures i <= r.1 <= |paras|
    decreases |paras| - i
  {
    if i < |paras| && AttachmentLine(paras, i) then
      var (items, j) := ReadAttachments(paras, i + 1);
      ([Strip(paras[i].text)] + items, j)
    else
      ([], i)
  }

  /** The attachment loop takes the attachment lines from `i` on, stops
      at the first other paragraph (or the end), and keeps their stripped
      texts, in order. */
  lemma {:induction false} AttachmentsSpec(paras: seq<Paragraph>, i: nat)
    requires i <= |paras|
    ensures var r := ReadAttachments(paras, i);
      && r.0 == Texts(paras[i..r.1])
      && (forall k :: i <= k < r.1 ==> AttachmentLine(paras, k))
      && (r.1 == |paras| || !AttachmentLine(paras, r.1))
    decreases |paras| - i
  {
    if i < |paras| && AttachmentLine(paras, i) {
      var r1 := ReadAttachments(paras, i + 1);
      var j := r1.1;
      AttachmentsSpec(paras, i + 1);
      assert paras[i..j][1..] == paras[i + 1..j];
      forall k | i <= k < j ensures AttachmentLine(paras, k) {
        if k > i { assert i + 1 <= k < r1.1; }
      }
    }
  }

  /** One turn of the field-scan loop on the (non-heading) paragraph at
      `i`: the prefix decides the field, a line with no known prefix is
      skipped, and the scan resumes after everything the field consumed. */
  function ReadField(paras: seq<Paragraph>, i: nat): (r: (Field, nat))
    requires i < |paras|
    ensures i < r.1 <= |paras|
  {
    var text := Strip(paras[i].text);
    if StartsWith(text, "Labels:") then (Labels(Names(text[7..])), i + 1)
    else if StartsWith(text, "Due Date:") then (DueDate(Strip(text[9..])), i + 1)
    else if StartsWith(text, "Members:") then (Members(Names(text[8..])), i + 1)
    else if StartsWith(text, "List:") then (ListName(Strip(text[5..])), i + 1)
    else if StartsWith(text, "Checklist:") then
      var (items, j) := ReadChecklist(paras, i + 1);
      (Checklist(items), j)
    else if StartsWith(text, "Attachments:") then
      var (items, j) := ReadAttachments(paras, i + 1);
      (Attachments(items), j)
    else if StartsWith(text, "Image:") then (Image(Strip(text[6..])), i + 1)
    else (Skip, i + 1)
  }

  /** A line is skipped exactly when its stripped text starts with none of
      the seven prefixes; only the two list fields read past their own
      line; every field read is well formed. */
  lemma FieldSpec(paras: seq<Paragraph>, i: nat)
    requires i < |paras|
    ensures var r := ReadField(paras, i);
      && (r.0.Skip? <==> !IsFieldLine(Strip(paras[i].text)))
      && (!(r.0.Checklist? || r.0.Attachments?) ==> r.1 == i + 1)
      && WellFormedField(r.0)
  {
    var text := Strip(paras[i].text);
    StartsWithAnyIff(text, FieldPrefixes);
    if !IsFieldLine(text) {
      forall k | 0 <= k < |FieldPrefixes| ensures !StartsWith(text, FieldPrefixes[k]) { }
    }
    AttachmentsAreClean(paras, i + 1);
  }

  /** A "Labels:" line gives the names after exactly those seven
      characters. */
  lemma LabelsValue(paras: seq<Paragraph>, i: nat, rest: string)
    requires i < |paras| && Strip(paras[i].text) == "Labels:" + rest
    ensures ReadField(paras, i) == (Labels(Names(rest)), i + 1)
  {
    PrefixRest(Strip(paras[i].text), "Labels:", rest);
  }

  /** A "Due Date:" line gives the stripped text after exactly those nine
      characters. */
  lemma DueDateValue(paras: seq<Paragraph>, i: nat, rest: string)
    requires i < |paras| && Strip(paras[i].text) == "Due Date:" + rest
    ensures ReadField(paras, i) == (DueDate(Strip(rest)), i + 1)
  {
    var t := Strip(paras[i].text);
    PrefixRest(t, "Due Date:", rest);
    PrefixMiss(t, "Labels:", 0);
  }

  /** A "Members:" line gives the names after exactly those eight
      characters. */
  lemma MembersValue(paras: seq<Paragraph>, i: nat, rest: string)
    requires i < |paras| && Strip(paras[i].text) == "Members:" + rest
    ensures ReadField(paras, i) == (Members(Names(rest)), i + 1)
  {
    var t := Strip(paras[i].text);
    PrefixRest(t, "Members:", rest);
    PrefixMiss(t, "Labels:", 0);
    PrefixMiss(t, "Due Date:", 0);
  }

  /** A "List:" line gives the stripped text after exactly those five
      characters. */
  lemma ListNameValue(paras: seq<Paragraph>, i: nat, rest: string)
    requires i < |paras| && Strip(paras[i].text) == "List:" + rest
    ensures ReadField(paras, i) == (ListName(Strip(rest)), i + 1)
  {
    var t := Strip(paras[i].text);
    PrefixRest(t, "List:", rest);
    PrefixMiss(t, "Labels:", 1);
    PrefixMiss(t, "Due Date:", 0);
    PrefixMiss(t, "Members:", 0);
  }

  /** A "Checklist:" line, whatever follows it on the line, gives what the
      checklist loop reads from the next paragraph on. */
  lemma ChecklistValue(paras: seq<Paragraph>, i: nat, rest: string)
    requires i < |paras| && Strip(paras[i].text) == "Checklist:" + rest
    ensures ReadField(paras, i)
            == (Checklist(ReadChecklist(paras, i + 1).0), ReadChecklist(paras, i + 1).1)
  {
    var t := Strip(paras[i].text);
    PrefixRest(t, "Checklist:", rest);
    PrefixMiss(t, "Labels:", 0);
    PrefixMiss(t, "Due Date:", 0);
    PrefixMiss(t, "Members:", 0);
    PrefixMiss(t, "List:", 0);
  }

  /** An "Attachments:" line, whatever follows it on the line, gives what
      the attachment loop reads from the next paragraph on. */
  lemma AttachmentsValue(paras: seq<Paragraph>, i: nat, rest: string)
    requires i < |paras| && Strip(paras[i].text) == "Attachments:" + rest
    ensures ReadField(paras, i)
            == (Attachments(ReadAttachments(paras, i + 1).0), ReadAttachments(paras, i + 1).1)
  {
    var t := Strip(paras[i].text);
    PrefixRest(t, "Attachments:", rest);
    PrefixMiss(t, "Labels:", 0);
    PrefixMiss(t, "Due Date:", 0);
    PrefixMiss(t, "Members:", 0);
    PrefixMiss(t, "List:", 0);
    PrefixMiss(t, "Checklist:", 0);
  }

  /** An "Image:" line gives the stripped text after exactly those six
      characters. */
  lemma ImageValue(paras: seq<Paragraph>, i: nat, rest: string)
    requires i < |paras| && Strip(paras[i].text) == "Image:" + rest
    ensures ReadField(paras, i) == (Image(Strip(rest)), i + 1)
  {
    var t := Strip(paras[i].text);
    PrefixRest(t, "Image:", rest);
    PrefixMiss(t, "Labels:", 0);
    PrefixMiss(t, "Due Date:", 0);
    PrefixMiss(t, "Members:", 0);
    PrefixMiss(t, "List:", 0);
    PrefixMiss(t, "Checklist:", 0);
    PrefixMiss(t, "Attachments:", 0);
  }

  /** The field-scan loop: fields up to the next heading or the end. */
  function ReadFields(paras: seq<Paragraph>, i: nat): (r: (seq<Field>, nat))
    requires i <= |paras|
    ensures i <= r.1 <= |paras|
    decreases |paras| - i
  {
    if i == |paras| || IsHeading(paras[i]) then ([], i)
    else
      var (f, j) := ReadField(paras, i);
      var (fs, k) := ReadFields(paras, j);
      ([f] + fs, k)
  }

  /** The field scan stops at the next heading or the end, reading at most
      one field per paragraph, every one of them well formed. */
  lemma {:induction false} FieldsSpec(paras: seq<Paragraph>, i: nat)
    requires i <= |paras|
    ensures var r := ReadFields(paras, i);
      && (r.1 == |paras| || IsHeading(paras[r.1]))
      && |r.0| <= r.1 - i
      && (forall k :: 0 <= k < |r.0| ==> WellFormedField(r.0[k]))
    decreases |paras| - i
  {
    if i < |paras| && !IsHeading(paras[i]) {
      var (f, j) := ReadField(paras, i);
      FieldSpec(paras, i);
      FieldsSpec(paras, j);
      var fs := ReadFields(paras, j).0;
      var all := [f] + fs;
      forall k | 0 <= k < |all| ensures WellFormedField(all[k]) {
        if k > 0 { assert all[k] == fs[k - 1]; }
      }
    }
  }

  /** The card started by the heading at `h`, and the index after it: the
      next heading or the end of the document. */
  function ParseCard(paras: seq<Paragraph>, h: nat): (r: (Card, nat))
    requires h < |paras| && IsHeading(paras[h])
    ensures h < r.1 <= |paras|
  {
    var (desc, j) := ReadDescription(paras, h + 1);
    var (fs, k) := ReadFields(paras, j);
    var start := NewCard(Strip(paras[h].text), Strip(desc));
    (Apply(start, fs), k)
  }

  /** A card runs from its heading to the next heading or the end, and is
      titled with the heading's stripped text. */
  lemma CardSpec(paras: seq<Paragraph>, h: nat)
    requires h < |paras| && IsHeading(paras[h])
    ensures var r := ParseCard(paras, h);
      && (r.1 == |paras| || IsHeading(paras[r.1]))
      && r.0.title == Strip(paras[h].text)
  {
    var (desc, j) := ReadDescription(paras, h + 1);
    FieldsSpec(paras, j);
    ApplyFields(NewCard(Strip(paras[h].text), Strip(desc)), ReadFields(paras, j).0);
  }

  /** The outer loop from index `i`: non-heading paragraphs are skipped,
      each heading reached starts a card. */
  function ParseFrom(paras: seq<Paragraph>, i: nat): seq<Card>
    requires i <= |paras|
    decreases |paras| - i
  {
    if i == |paras| then []
    else if IsHeading(paras[i]) then
      var (card, j) := ParseCard(paras, i);
      [card] + ParseFrom(paras, j)
    else
      ParseFrom(paras, i + 1)
  }

  /** `parse_docx`: the cards of a document, in document order. */
  function Parse(paras: seq<Paragraph>): seq<Card> {
    ParseFrom(paras, 0)
  }

  /** The outer loop yields at most one card per heading ahead of it. */
  lemma {:induction false} ParseFromBound(paras: seq<Paragraph>, i: nat)
    requires i <= |paras|
    ensures |ParseFrom(paras, i)| <= CountHeadings(paras[i..])
    decreases |paras| - i
  {
    if i < |paras| {
      if IsHeading(paras[i]) {
        var j := ParseCard(paras, i).1;
        ParseFromBound(paras, j);
        CountHeadingsDrop(paras, i, j);
      } else {
        assert paras[i..][1..] == paras[i + 1..];
        ParseFromBound(paras, i + 1);
      }
    }
  }

  /** Past a heading at `i`, at least one heading fewer lies ahead. */
  lemma {:induction false} CountHeadingsDrop(paras: seq<Paragraph>, i: nat, j: nat)
    requires i < j <= |paras| && IsHeading(paras[i])
    ensures CountHeadings(paras[j..]) + 1 <= CountHeadings(paras[i..])
    decreases j - i
  {
    assert paras[i..][1..] == paras[i + 1..];
    CountHeadingsMono(paras, i + 1, j);
  }

  lemma {:induction false} CountHeadingsMono(paras: seq<Paragraph>, i: nat, j: nat)
    requires i <= j <= |paras|
    ensures CountHeadings(paras[j..]) <= CountHeadings(paras[i..])
    decreases j - i
  {
    if i < j {
      assert paras[i..][1..] == paras[i + 1..];
      CountHeadingsMono(paras, i + 1, j);
    }
  }

  /** Each stripped text sits at its paragraph's position. */
  lemma {:induction false} TextsAt(ps: seq<Paragraph>)
    ensures |Texts(ps)| == |ps|
    ensures forall k :: 0 <= k < |ps| ==> Texts(ps)[k] == Strip(ps[k].text)
    decreases |ps|
  {
    if ps != [] {
      TextsAt(ps[1..]);
    }
  }

  /** The attachment list holds only non-blank texts that do not start
      with "Image:". */
  lemma AttachmentsAreClean(paras: seq<Paragraph>, i: nat)
    requires i <= |paras|
    ensures forall k :: 0 <= k < |ReadAttachments(paras, i).0| ==> IsAttachment(ReadAttachments(paras, i).0[k])
  {
    var (items, j) := ReadAttachments(paras, i);
    AttachmentsSpec(paras, i);
    TextsAt(paras[i..j]);
    forall k | 0 <= k < |items|
      ensures IsAttachment(items[k])
    {
      assert items[k] == Strip(paras[i..j][k].text) == Strip(paras[i + k].text);
      assert AttachmentLine(paras, i + k);
    }
  }
}
