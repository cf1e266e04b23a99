/**
 Properties of the whole parse: where card bodies end, which heading
 starts each card, and the order of the cards.
 */
module ParseProperties {
  import opened Wrappers
  import opened Text
  import opened Cards
  import opened Parser

  /** Where the source's loop is within a card's body: reading the
      description, scanning field lines, or inside the list of a
      "Checklist:" or an "Attachments:" line. */
  datatype Phase = Describing | Scanning | Listing | Attaching

  function PhaseRank(p: Phase): nat {
    if p == Scanning then 0 else 1
  }

  /** The control flow of a card's body on its own: from index `i` in
      phase `p`, the index where the body ends. Only the style and the
      prefix of each paragraph decide; nothing is collected. */
  function BodyEnd(paras: seq<Paragraph>, i: nat, p: Phase): (r: nat)
    requires i <= |paras|
    ensures i <= r <= |paras|
    ensures r == |paras| || IsHeading(paras[r])
    decreases |paras| - i, PhaseRank(p)
  {
    match p
    case Describing =>
      if i < |paras| && DescriptionLine(paras, i) then BodyEnd(paras, i + 1, Describing)
      else BodyEnd(paras, i, Scanning)
    case Scanning =>
      if i == |paras| || IsHeading(paras[i]) then i
      else if StartsWith(Strip(paras[i].text), "Checklist:") then BodyEnd(paras, i + 1, Listing)
      else if StartsWith(Strip(paras[i].text), "Attachments:") then BodyEnd(paras, i + 1, Attaching)
      else BodyEnd(paras, i + 1, Scanning)
    case Listing =>
      if i < |paras| && ChecklistGoesOn(paras, i) then BodyEnd(paras, i + 1, Listing)
      else BodyEnd(paras, i, Scanning)
    case Attaching =>
      if i < |paras| && AttachmentLine(paras, i) then BodyEnd(paras, i + 1, Attaching)
      else BodyEnd(paras, i, Scanning)
  }

  /** The indexes of the headings that start the cards `ParseFrom` returns. */
  function CardStarts(paras: seq<Paragraph>, i: nat): seq<nat>
    requires i <= |paras|
    decreases |paras| - i
  {
    if i == |paras| then []
    else if IsHeading(paras[i]) then [i] + CardStarts(paras, BodyEnd(paras, i + 1, Describing))
    else CardStarts(paras, i + 1)
  }

  /** A "Checklist:" or "Attachments:" line starts with none of the
      prefixes the field scan tests before it. */
  lemma ListPrefixesFirst(t: string)
    ensures StartsWith(t, "Checklist:") || StartsWith(t, "Attachments:") ==>
      !StartsWith(t, "Labels:") && !StartsWith(t, "Due Date:")
      && !StartsWith(t, "Members:") && !StartsWith(t, "List:")
    ensures StartsWith(t, "Attachments:") ==> !StartsWith(t, "Checklist:")
  {
    if StartsWith(t, "Checklist:") {
      assert t[0] == "Checklist:"[0] == 'C';
    }
    if StartsWith(t, "Attachments:") {
      assert t[0] == "Attachments:"[0] == 'A';
    }
  }

  lemma {:induction false} DescriptionEnd(paras: seq<Paragraph>, i: nat)
    requires i <= |paras|
    ensures BodyEnd(paras, i, Describing) == BodyEnd(paras, ReadDescription(paras, i).1, Scanning)
    decreases |paras| - i
  {
    if i < |paras| && DescriptionLine(paras, i) {
      DescriptionEnd(paras, i + 1);
    }
  }

  lemma {:induction false} ChecklistEnd(paras: seq<Paragraph>, i: nat)
    requires i <= |paras|
    ensures BodyEnd(paras, i, Listing) == BodyEnd(paras, ReadChecklist(paras, i).1, Scanning)
    decreases |paras| - i
  {
    if i < |paras| && ChecklistGoesOn(paras, i) {
      ChecklistEnd(paras, i + 1);
    }
  }

  lemma {:induction false} AttachmentsEnd(paras: seq<Paragraph>, i: nat)
    requires i <= |paras|
    ensures BodyEnd(paras, i, Attaching) == BodyEnd(paras, ReadAttachments(paras, i).1, Scanning)
    decreases |paras| - i
  {
    if i < |paras| && AttachmentLine(paras, i) {
      AttachmentsEnd(paras, i + 1);
    }
  }

  lemma {:induction false} FieldsEnd(paras: seq<Paragraph>, i: nat)
    requires i <= |paras|
    ensures BodyEnd(paras, i, Scanning) == ReadFields(paras, i).1
    decreases |paras| - i
  {
    if i < |paras| && !IsHeading(paras[i]) {
      var t := Strip(paras[i].text);
      var j := ReadField(paras, i).1;
      ListPrefixesFirst(t);
      if StartsWith(t, "Checklist:") {
        assert j == ReadChecklist(paras, i + 1).1;
        ChecklistEnd(paras, i + 1);
      } else if StartsWith(t, "Attachments:") {
        assert j == ReadAttachments(paras, i + 1).1;
        AttachmentsEnd(paras, i + 1);
      } else {
        assert j == i + 1;
      }
      FieldsEnd(paras, j);
    }
  }

  /** The card read at a heading ends where the control flow alone says
      its body ends. */
  lemma CardEnd(paras: seq<Paragraph>, h: nat)
    requires h < |paras| && IsHeading(paras[h])
    ensures ParseCard(paras, h).1 == BodyEnd(paras, h + 1, Describing)
  {
    DescriptionEnd(paras, h + 1);
    FieldsEnd(paras, ReadDescription(paras, h + 1).1);
  }

  /** There are as many card starts as cards. */
  lemma {:induction false} StartsCount(paras: seq<Paragraph>, i: nat)
    requires i <= |paras|
    ensures |CardStarts(paras, i)| == |ParseFrom(paras, i)|
    decreases |paras| - i
  {
    if i < |paras| {
      if IsHeading(paras[i]) {
        CardEnd(paras, i);
        StartsCount(paras, ParseCard(paras, i).1);
      } else {
        StartsCount(paras, i + 1);
      }
    }
  }

  /** The card starts are headings at or after `i`. */
  lemma {:induction false} StartsAreHeadings(paras: seq<Paragraph>, i: nat)
    requires i <= |paras|
    ensures forall k :: 0 <= k < |CardStarts(paras, i)| ==>
              i <= CardStarts(paras, i)[k] < |paras| && IsHeading(paras[CardStarts(paras, i)[k]])
    decreases |paras| - i
  {
    if i < |paras| {
      if IsHeading(paras[i]) {
        var j := BodyEnd(paras, i + 1, Describing);
        StartsAreHeadings(paras, j);
        var st := CardStarts(paras, j);
        var all := CardStarts(paras, i);
        assert all == [i] + st;
        forall k | 1 <= k < |all|
          ensures i <= all[k] < |paras| && IsHeading(paras[all[k]])
        {
          assert all[k] == st[k - 1];
        }
      } else {
        StartsAreHeadings(paras, i + 1);
      }
    }
  }

  /** Each card starts after the one before it. */
  lemma {:induction false} StartsIncrease(paras: seq<Paragraph>, i: nat)
    requires i <= |paras|
    ensures forall k :: 0 <= k < |CardStarts(paras, i)| - 1 ==>
              CardStarts(paras, i)[k] < CardStarts(paras, i)[k + 1]
    decreases |paras| - i
  {
    if i < |paras| {
      if IsHeading(paras[i]) {
        var j := BodyEnd(paras, i + 1, Describing);
        StartsIncrease(paras, j);
        var st := CardStarts(paras, j);
        var all := CardStarts(paras, i);
        assert all == [i] + st;
        StartsAreHeadings(paras, j);
        forall k | 0 <= k < |all| - 1
          ensures all[k] < all[k + 1]
        {
          assert all[k + 1] == st[k];
          if k > 0 {
            assert all[k] == st[k - 1];
          }
        }
      } else {
        StartsIncrease(paras, i + 1);
      }
    }
  }

  /** A sequence that grows at each step grows overall. */
  lemma {:induction false} StepsIncrease(st: seq<nat>, k: nat, l: nat)
    requires forall m :: 0 <= m < |st| - 1 ==> st[m] < st[m + 1]
    requires k < l < |st|
    ensures st[k] < st[l]
    decreases l - k
  {
    if k + 1 < l {
      StepsIncrease(st, k + 1, l);
    }
  }

  /** The k-th card read from `i` on is the card parsed at the k-th start,
      which is a heading. */
  lemma CardAtStart(paras: seq<Paragraph>, i: nat, k: nat)
    requires i <= |paras| && k < |CardStarts(paras, i)|
    ensures CardStarts(paras, i)[k] < |paras| && IsHeading(paras[CardStarts(paras, i)[k]])
    ensures k < |ParseFrom(paras, i)|
    ensures ParseFrom(paras, i)[k] == ParseCard(paras, CardStarts(paras, i)[k]).0
  {
    StartsAreHeadings(paras, i);
    var h := CardStarts(paras, i)[k];
    ParsedAtStart(paras, i, k, h);
  }

  /** The k-th card read from `i` on is the card parsed at the k-th start
      `h`. */
  lemma {:induction false} ParsedAtStart(paras: seq<Paragraph>, i: nat, k: nat, h: nat)
    requires i <= |paras| && k < |CardStarts(paras, i)| && h == CardStarts(paras, i)[k]
    requires h < |paras| && IsHeading(paras[h])
    ensures k < |ParseFrom(paras, i)| && ParseFrom(paras, i)[k] == ParseCard(paras, h).0
    decreases |paras| - i
  {
    if IsHeading(paras[i]) {
      var j := BodyEnd(paras, i + 1, Describing);
      ParseFromHeading(paras, i, j);
      if k > 0 {
        var k1 := k - 1;
        StartAfterHeading(paras, i, j, k, k1, h);
        ParsedAtStart(paras, j, k1, h);
        ConsAt(ParseFrom(paras, i), ParseCard(paras, i).0, ParseFrom(paras, j), k, k1);
      }
    } else {
      ParsedAtStart(paras, i + 1, k, h);
    }
  }

  /** Past the head of `[x] + t`, index `k` of the whole is index `k - 1`
      of `t`. */
  lemma ConsAt<T>(s: seq<T>, x: T, t: seq<T>, k: nat, k1: nat)
    requires s == [x] + t && 0 < k < |s| && k1 == k - 1
    ensures k1 < |t| && s[k] == t[k1]
  {
  }

  /** Reading from a heading yields its card, then the cards read from the
      end of its body. */
  lemma ParseFromHeading(paras: seq<Paragraph>, i: nat, j: nat)
    requires i < |paras| && IsHeading(paras[i]) && j == BodyEnd(paras, i + 1, Describing)
    ensures ParseFrom(paras, i) == [ParseCard(paras, i).0] + ParseFrom(paras, j)
  {
    CardEnd(paras, i);
  }

  /** Past a heading, the k-th start is the (k-1)-th start after its body. */
  lemma StartAfterHeading(paras: seq<Paragraph>, i: nat, j: nat, k: nat, k1: nat, h: nat)
    requires i < |paras| && IsHeading(paras[i]) && j == BodyEnd(paras, i + 1, Describing)
    requires 0 < k < |CardStarts(paras, i)| && h == CardStarts(paras, i)[k] && k1 == k - 1
    ensures k1 < |CardStarts(paras, j)| && h == CardStarts(paras, j)[k1]
  {
    assert CardStarts(paras, i) == [i] + CardStarts(paras, j);
  }

  /** The body of the card at the k-th start ends where the next card
      starts, or at the end of the document when it is the last one. */
  lemma {:induction false} BodyEndsAtNext(paras: seq<Paragraph>, i: nat, k: nat)
    requires i <= |paras| && k < |CardStarts(paras, i)|
    ensures CardStarts(paras, i)[k] < |paras|
    ensures BodyEnd(paras, CardStarts(paras, i)[k] + 1, Describing)
            == if k + 1 < |CardStarts(paras, i)| then CardStarts(paras, i)[k + 1] else |paras|
    decreases |paras| - i
  {
    if IsHeading(paras[i]) {
      var j := BodyEnd(paras, i + 1, Describing);
      assert CardStarts(paras, i) == [i] + CardStarts(paras, j);
      if k > 0 {
        BodyEndsAtNext(paras, j, k - 1);
      } else {
        FirstStart(paras, j);
      }
    } else {
      BodyEndsAtNext(paras, i + 1, k);
    }
  }

  /** No heading is passed over before the first card, and there is no card
      exactly when no heading lies ahead. */
  lemma {:induction false} FirstStart(paras: seq<Paragraph>, i: nat)
    requires i <= |paras|
    ensures var st := CardStarts(paras, i);
      (st != [] ==> i <= st[0] < |paras| && forall m :: i <= m < st[0] ==> !IsHeading(paras[m]))
      && (st == [] <==> forall m :: i <= m < |paras| ==> !IsHeading(paras[m]))
    decreases |paras| - i
  {
    if i < |paras| && !IsHeading(paras[i]) {
      FirstStart(paras, i + 1);
    }
  }

  /** A document yields no card exactly when it has no "Heading 1"
      paragraph; otherwise the first card is the one at the first heading. */
  lemma NoCardsIffNoHeading(paras: seq<Paragraph>)
    ensures Parse(paras) == [] <==> forall m :: 0 <= m < |paras| ==> !IsHeading(paras[m])
    ensures forall h :: 0 <= h < |paras| && IsHeading(paras[h])
                        && (forall m :: 0 <= m < h ==> !IsHeading(paras[m])) ==>
              Parse(paras) != [] && Parse(paras)[0] == ParseCard(paras, h).0
  {
    StartsCount(paras, 0);
    FirstStart(paras, 0);
    var st := CardStarts(paras, 0);
    if st != [] {
      StartsAreHeadings(paras, 0);
      CardAtStart(paras, 0, 0);
      forall h | 0 <= h < |paras| && IsHeading(paras[h]) && (forall m :: 0 <= m < h ==> !IsHeading(paras[m]))
        ensures h == st[0]
      {
        assert IsHeading(paras[st[0]]);
      }
    }
  }

  /** Each card is the one parsed at its heading, so its title is that
      heading's stripped text, and cards come in the order of their
      headings. */
  lemma CardsAtHeadings(paras: seq<Paragraph>)
    ensures |CardStarts(paras, 0)| == |Parse(paras)|
    ensures forall k :: 0 <= k < |Parse(paras)| ==>
              CardStarts(paras, 0)[k] < |paras| && IsHeading(paras[CardStarts(paras, 0)[k]])
              && Parse(paras)[k] == ParseCard(paras, CardStarts(paras, 0)[k]).0
              && Parse(paras)[k].title == Strip(paras[CardStarts(paras, 0)[k]].text)
    ensures forall k, l :: 0 <= k < l < |Parse(paras)| ==>
              CardStarts(paras, 0)[k] < CardStarts(paras, 0)[l]
  {
    var st := CardStarts(paras, 0);
    StartsCount(paras, 0);
    StartsAreHeadings(paras, 0);
    StartsIncrease(paras, 0);
    forall k | 0 <= k < |Parse(paras)|
      ensures Parse(paras)[k] == ParseCard(paras, st[k]).0
      ensures Parse(paras)[k].title == Strip(paras[st[k]].text)
    {
      CardAtStart(paras, 0, k);
      CardSpec(paras, st[k]);
    }
    forall k, l | 0 <= k < l < |st| ensures st[k] < st[l] {
      StepsIncrease(st, k, l);
    }
  }

  /** There are never more cards than headings. */
  lemma CardCount(paras: seq<Paragraph>)
    ensures |Parse(paras)| <= CountHeadings(paras)
  {
    ParseFromBound(paras, 0);
    assert paras[0..] == paras;
  }
}
