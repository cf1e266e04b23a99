# Trello card creator: the document parser and the board-URL reader, in Dafny

The tool reads a Word document and creates one Trello card for each
"Heading 1" paragraph. This project models the two pieces of it that
compute something: `parse_docx` and `extract_board_id_from_url`.

`parse_docx` walks the document's paragraphs and turns them into card
records. Each card has a title, a description, labels, a due date, members,
a list name, checklist items, attachments and an image. Here it is a pure
function `Parser.Parse` over a sequence of paragraphs. Only each
paragraph's style name and text matter. `extract_board_id_from_url` applies
the regular expression `trello\.com/(b|board)/([\w\d]+)/?` to a URL. Here it
is `BoardUrl.ExtractBoardId`, which returns an `Option`.

Layout, one module per file:

| file | module | what it holds |
|---|---|---|
| wrappers.dfy | Wrappers | `Option` |
| text.dfy | Text | `str.isspace`, `str.strip`, `str.startswith`, `str.split(",")` and `join` |
| cards.dfy | Cards | paragraphs, the card record, field events and how they fold into a card |
| parser.dfy | Parser | the loops of `parse_docx`, each as a function with a lemma stating what it reads |
| parse_properties.dfy | ParseProperties | where cards start and end, and which card comes from which heading |
| card_properties.dfy | CardProperties | each key of a parsed card, and the cleanliness of what the parser keeps |
| heading_properties.dfy | HeadingProperties | headings versus cards, including the heading an attachment list swallows |
| sample_layout.dfy | SampleLayout | the sample template's layout, and the round trip from cards to a document and back |
| parse_examples.dfy | ParseExamples | the unit test of `parse_docx`, replayed |
| board_url.dfy | BoardUrl | the board-URL pattern, as a search and as a declarative match |
| examples_url.dfy | UrlExamples | the unit tests of `extract_board_id_from_url`, replayed |

The field scan works in two steps:

1. The scan reads the card body into a sequence of field events. `ReadField` is one turn of the loop, with the same branch order.
2. `Apply` folds the events into a fresh card.

This gives the same card as updating the card in place. The scan never reads the card, and each event changes only the keys it names.

Where the documented behaviour and the code differ, the model follows the
code:

- **Blank headings.** A card's title may be empty: a blank "Heading 1" anywhere in a document still starts a card of its own, titled with the empty string (`HeadingProperties.BlankHeadingCard`). Even an attachment list stops at it, because it stops at blank text.
- **Headings inside an attachment list.** Paragraphs up to the next heading do not always belong to the card. The attachment loop does not look at styles, so any heading the list reaches becomes an attachment of the card before it, as long as its text is not blank and does not start with "Image:" (`Parser.AttachmentsSpec`; `HeadingProperties.HeadingSwallowed` shows the smallest case).
- **Where an attachment list ends.** It ends at the first blank paragraph as well as at the first "Image:" line (`Parser.AttachmentsSpec`).

## Model

| member | source | states |
|---|---|---|
| BoardUrl.WordRun | trello_card_creator/trello_card_creator.py:151 | the greedy `[\w\d]+` run: a prefix of the text, all word characters, and not followed by another word character |
| BoardUrl.WordRunUnique | trello_card_creator/trello_card_creator.py:151 | a run of word characters followed by a non-word character (or the end) is exactly the greedy run |
| BoardUrl.MatchAt | trello_card_creator/trello_card_creator.py:151 | the pattern anchored at one position: a found group is a non-empty run of word characters; `MatchAtIff` states exactly when it matches and what group 2 is |
| BoardUrl.Search | trello_card_creator/trello_card_creator.py:152 | `re.search` from a position on: a found group is a non-empty run of word characters; `SearchNone` and `ExtractBoardIdLeftmost` state that it is the match at the leftmost matching position, and that it finds nothing exactly when no position matches |
| BoardUrl.MatchAtIff | trello_card_creator/trello_card_creator.py:151-155 | the pattern matches at a position with group 2 equal to `id` exactly when the URL reads `trello.com/b/` or `trello.com/board/` there, followed by `id`, a non-empty word run not followed by another word character |
| BoardUrl.SearchNone | trello_card_creator/trello_card_creator.py:152 | the search finds nothing exactly when the pattern matches at no position |
| BoardUrl.ExtractBoardIdLeftmost | trello_card_creator/trello_card_creator.py:149-160 | a returned id is group 2 of a match at some position, and no match starts earlier (the leftmost match wins); None exactly when the URL holds no match |
| BoardUrl.ExtractBoardId | trello_card_creator/trello_card_creator.py:149-160 | a returned board id is never empty and consists of word characters only |
| UrlExamples.ShortLink | trello_card_creator/trello_card_creator.py:151-155 | `https://trello.com/b/<id><tail>` yields `id` when `id` is a non-empty word run and `tail` does not continue it |
| UrlExamples.NoHostLink | trello_card_creator/trello_card_creator.py:152-160 | after `https://`, a URL without the letter `t` yields None |
| UrlExamples.ValidUrl | tests/test_create_trello_cards.py:22-26 | `https://trello.com/b/abcd1234/board-name` yields `abcd1234` |
| UrlExamples.EmptyIdUrl | tests/test_create_trello_cards.py:29-35 | `https://trello.com/b//board-name` yields None |
| UrlExamples.ForeignHostUrl | tests/test_create_trello_cards.py:37-40 | `https://example.com/b/abcd1234/board-name` yields None |
| Text.Strip | trello_card_creator/trello_card_creator.py:323 | `strip()` leaves no whitespace at either end, and gives the empty string exactly for blank text |
| Text.IsSpace | trello_card_creator/trello_card_creator.py:323 | the whitespace `strip()` removes, over ASCII and Latin-1; a plain definition, whose use is stated by `Text.Strip` and `Text.StripSplit` |
| Text.StartsWith | trello_card_creator/trello_card_creator.py:324-334 | `startswith`: a plain definition (the text begins with every character of the prefix, in order); `Text.PrefixRest` and `Parser.StartsWithAnyIff` state its use |
| Text.StripSplit | trello_card_creator/trello_card_creator.py:323 | `strip()` only removes whitespace before and after what it returns |
| Text.StripUnique | trello_card_creator/trello_card_creator.py:323 | any whitespace around trimmed text strips back to that text |
| Text.StripIdempotent | trello_card_creator/trello_card_creator.py:323 | stripping a stripped text changes nothing |
| Text.StripAppendSpace | trello_card_creator/trello_card_creator.py:337-339 | trailing whitespace, such as the description's last newline, does not change the strip |
| Text.Split | trello_card_creator/trello_card_creator.py:345 | `split(",")` gives at least one piece, no piece holds a comma, and joining the pieces with commas gives the text back |
| Text.SplitJoin | trello_card_creator/trello_card_creator.py:345 | splitting comma-joined pieces that hold no comma gives the pieces back |
| Text.SplitConcat | trello_card_creator/trello_card_creator.py:345 | `split(",")` of `a + "," + b` is the pieces of `a` followed by the pieces of `b` |
| Text.StripPrependSpace | trello_card_creator/trello_card_creator.py:323 | leading whitespace does not change the strip |
| Text.PrefixRest | trello_card_creator/trello_card_creator.py:345 | a text made of a prefix and a rest starts with the prefix, and slicing the prefix's length off (`text[7:]`) gives exactly the rest |
| Cards.ApplyFieldEffect | trello_card_creator/trello_card_creator.py:344-386 | one field line sets the key it names (labels, due date, members, list, image) or appends to it (checklist, attachments), and leaves every other key alone |
| Cards.ApplyField | trello_card_creator/trello_card_creator.py:344-386 | the update one field line makes to the card dictionary; a plain definition, whose effect on each key is stated by `Cards.ApplyFieldEffect` |
| Cards.Apply | trello_card_creator/trello_card_creator.py:342-388 | the field lines applied to the card one after the other, first to last; a plain definition, whose result key by key is stated by `Cards.ApplyFields` |
| Cards.ApplyFields | trello_card_creator/trello_card_creator.py:342-388 | after the field scan, each single-valued key holds its last value in the body (or stays unset); the checklist and the attachments are the concatenation of every list met, in order; title and description are untouched |
| Cards.LastValueIsLast | trello_card_creator/trello_card_creator.py:344-361 | the last value is that of a field after which no field of the same kind follows; there is none exactly when no field of that kind occurs |
| Cards.GatherFrom | trello_card_creator/trello_card_creator.py:362-383 | every gathered item comes from one of the fields |
| Parser.StartsWithAnyIff | trello_card_creator/trello_card_creator.py:324-334 | `startswith` on the tuple of seven prefixes holds exactly when the text starts with one of them |
| Parser.StartsWithAny | trello_card_creator/trello_card_creator.py:324-334 | `startswith` on a tuple of prefixes; a plain definition, which `Parser.StartsWithAnyIff` states holds exactly when one of the prefixes matches |
| Parser.Names | trello_card_creator/trello_card_creator.py:345-348 | every label or member kept is non-empty, trimmed and free of commas |
| Parser.CleanPieces | trello_card_creator/trello_card_creator.py:346-348 | the comprehension over the split pieces: every name kept is non-empty, trimmed and comma-free; `Parser.CleanPiecesConcat` states that it works piece by piece, and `Parser.NamesPiece` what it keeps of one piece |
| Parser.NamesOuter | trello_card_creator/trello_card_creator.py:345 | stripping the whole value before splitting it does not change the names |
| Parser.NamesPiece | trello_card_creator/trello_card_creator.py:345-348 | a value with no comma gives no name when it is blank, and otherwise its stripped text as the one name |
| Parser.NamesConcat | trello_card_creator/trello_card_creator.py:345-348 | the names of `a,b` are the names of `a` followed by the names of `b`; with `NamesPiece` this fixes the result for every value: blank pieces dropped, the others stripped and kept in order |
| Parser.ReadDescription | trello_card_creator/trello_card_creator.py:322-338 | the description loop moves forward and never past the end; `Parser.DescriptionSpec` states which paragraphs it takes and what it accumulates |
| Parser.ReadChecklist | trello_card_creator/trello_card_creator.py:362-372 | the checklist loop moves forward and never past the end; `Parser.ChecklistSpec` states which paragraphs it takes, where it stops and which items it keeps |
| Parser.ReadAttachments | trello_card_creator/trello_card_creator.py:373-383 | the attachment loop moves forward and never past the end; `Parser.AttachmentsSpec` states which paragraphs it takes, where it stops and which texts it keeps |
| Parser.DescriptionSpec | trello_card_creator/trello_card_creator.py:322-338 | the description loop takes exactly the paragraphs up to the first heading or field line, and accumulates their stripped texts, each followed by a newline |
| Parser.ChecklistSpec | trello_card_creator/trello_card_creator.py:362-372 | the checklist loop runs over "List Bullet"/"List Number" paragraphs and blank "Normal" ones, stops at the first other paragraph without taking it, and keeps the stripped texts of the list items, in order |
| Parser.AttachmentsSpec | trello_card_creator/trello_card_creator.py:373-383 | the attachment loop takes every paragraph, of any style, up to the first blank or "Image:" one (or the end), and keeps their stripped texts, in order |
| Parser.AttachmentsAreClean | trello_card_creator/trello_card_creator.py:377-380 | every attachment kept is non-blank and does not start with "Image:" |
| Parser.ReadField | trello_card_creator/trello_card_creator.py:342-388 | each turn of the field loop moves past at least the current paragraph, never past the end |
| Parser.FieldSpec | trello_card_creator/trello_card_creator.py:342-388 | a line is skipped exactly when its stripped text starts with none of the seven prefixes; only the checklist and attachment branches read past their own line; every field read is well formed |
| Parser.LabelsValue | trello_card_creator/trello_card_creator.py:344-349 | a paragraph whose stripped text is "Labels:" followed by any text gives the names read from exactly that text, and the scan moves one paragraph on |
| Parser.DueDateValue | trello_card_creator/trello_card_creator.py:350-352 | "Due Date:" followed by any text gives that text stripped as the due date (exactly the nine prefix characters are cut), and the scan moves one paragraph on |
| Parser.MembersValue | trello_card_creator/trello_card_creator.py:353-358 | "Members:" followed by any text gives the names read from exactly that text, and the scan moves one paragraph on |
| Parser.ListNameValue | trello_card_creator/trello_card_creator.py:359-361 | "List:" followed by any text gives that text stripped as the list name (exactly five characters cut), and the scan moves one paragraph on |
| Parser.ChecklistValue | trello_card_creator/trello_card_creator.py:362-372 | a "Checklist:" line, whatever follows on it, gives the items the checklist loop reads from the next paragraph on, and the scan resumes where that loop stopped |
| Parser.AttachmentsValue | trello_card_creator/trello_card_creator.py:373-383 | an "Attachments:" line, whatever follows on it, gives the items the attachment loop reads from the next paragraph on, and the scan resumes where that loop stopped |
| Parser.ImageValue | trello_card_creator/trello_card_creator.py:384-386 | "Image:" followed by any text gives that text stripped as the image (exactly six characters cut), and the scan moves one paragraph on |
| Parser.ReadFields | trello_card_creator/trello_card_creator.py:342-388 | the field loop moves forward and never past the end; `Parser.FieldsSpec` states where it stops and what it reads, and `ParseProperties.FieldsEnd` that it ends where the body's control flow ends |
| Parser.FieldsSpec | trello_card_creator/trello_card_creator.py:342-388 | the field loop stops at the next heading or the end, reads at most one field per paragraph, and every field it reads is well formed |
| Parser.ParseCard | trello_card_creator/trello_card_creator.py:304-390 | reading a card moves past its heading, never past the end |
| Parser.CardSpec | trello_card_creator/trello_card_creator.py:304-390 | a card's scan stops at the next heading or the end, and the card is titled with its heading's stripped text |
| Parser.ParseFrom | trello_card_creator/trello_card_creator.py:303-392 | the outer loop from an index: non-heading paragraphs skipped, a card read at each heading reached; a plain definition, whose results are stated by `Parser.ParseFromBound`, `ParseProperties.CardAtStart` and `ParseProperties.StartsCount` |
| Parser.Parse | trello_card_creator/trello_card_creator.py:298-394 | `parse_docx` itself, as the outer loop from the first paragraph; its result is stated by `ParseProperties.CardsAtHeadings`, `ParseProperties.NoCardsIffNoHeading`, `CardProperties.CardContents` and `CardProperties.ParseClean` |
| Parser.ParseFromBound | trello_card_creator/trello_card_creator.py:303-394 | the outer loop yields at most one card per heading ahead of it |
| ParseProperties.BodyEnd | trello_card_creator/trello_card_creator.py:319-388 | the paragraph-by-paragraph control flow of a card body ends at a heading or at the end |
| ParseProperties.CardEnd | trello_card_creator/trello_card_creator.py:304-390 | the card read at a heading ends exactly where that control flow ends |
| ParseProperties.StartsCount | trello_card_creator/trello_card_creator.py:303-392 | there are as many card starts as cards |
| ParseProperties.StartsAreHeadings | trello_card_creator/trello_card_creator.py:306 | every card start is a "Heading 1" paragraph |
| ParseProperties.StartsIncrease | trello_card_creator/trello_card_creator.py:303-392 | card starts strictly increase |
| ParseProperties.CardAtStart | trello_card_creator/trello_card_creator.py:304-390 | the k-th card is the card read at the k-th start, which is a heading |
| ParseProperties.BodyEndsAtNext | trello_card_creator/trello_card_creator.py:303-392 | each card's body ends exactly where the next card starts, and the last one ends at the end of the document |
| ParseProperties.FirstStart | trello_card_creator/trello_card_creator.py:304-392 | the first card start is the first heading: paragraphs before it are skipped, and there is no start exactly when no heading follows |
| ParseProperties.NoCardsIffNoHeading | trello_card_creator/trello_card_creator.py:298-394 | the card list is empty exactly when the document has no heading, and otherwise its first card is the one read at the first heading |
| ParseProperties.CardsAtHeadings | trello_card_creator/trello_card_creator.py:298-394 | every card is the one read at a heading and is titled with that heading's stripped text; cards come in the order of their headings |
| ParseProperties.CardCount | trello_card_creator/trello_card_creator.py:298-394 | there are never more cards than headings |
| CardProperties.LinesJoin | trello_card_creator/trello_card_creator.py:337 | the texts accumulated with a newline after each are the newline-joined texts plus one newline |
| CardProperties.DescriptionIsJoined | trello_card_creator/trello_card_creator.py:337-339 | the stripped description equals the stripped newline-joined texts |
| CardProperties.CardContents | trello_card_creator/trello_card_creator.py:308-388 | each key of a parsed card: title and description from the heading and the description lines, single-valued keys from the last field of their kind, lists gathered from every field of their kind |
| CardProperties.ParsedCardClean | trello_card_creator/trello_card_creator.py:308-388 | a parsed card has a trimmed title and description, clean labels and members, and only non-blank, non-"Image:" attachments |
| CardProperties.ParseClean | trello_card_creator/trello_card_creator.py:298-394 | every card of a document is clean in that sense |
| CardProperties.JoinNamesTrimmed | trello_card_creator/trello_card_creator.py:553 | clean names joined with ", " are trimmed, and non-empty when there is a name |
| CardProperties.NamesRoundTrip | trello_card_creator/trello_card_creator.py:345-348 | a list of clean names written comma-separated reads back as the same list |
| HeadingProperties.ListStylesDiffer | trello_card_creator/trello_card_creator.py:366-369 | a paragraph the checklist loop takes is not a heading |
| HeadingProperties.BodyStopsAtFirstHeading | trello_card_creator/trello_card_creator.py:322-372 | when no paragraph's stripped text starts with "Attachments:", a card body never runs past a heading |
| HeadingProperties.EveryHeadingStarts | trello_card_creator/trello_card_creator.py:303-392 | when no paragraph's stripped text starts with "Attachments:", there are as many card starts as headings |
| HeadingProperties.CardPerHeading | trello_card_creator/trello_card_creator.py:298-394 | when no paragraph's stripped text starts with "Attachments:", there are exactly as many cards as headings |
| HeadingProperties.BodyStopsAtBlankHeading | trello_card_creator/trello_card_creator.py:322-383 | no phase of a card body runs past a blank heading: the description and field loops stop at any heading, the checklist never takes one, and the attachment list stops at blank text |
| HeadingProperties.BlankHeadingStarts | trello_card_creator/trello_card_creator.py:303-392 | every blank heading at or after the outer loop's position is one of the card starts |
| HeadingProperties.BlankHeadingCard | trello_card_creator/trello_card_creator.py:303-309 | a blank heading anywhere in a document starts a card of its own, which is among the parsed cards and has the empty title |
| HeadingProperties.LoneBlankHeading | trello_card_creator/trello_card_creator.py:306-309 | the smallest case: a document of one blank heading holds exactly one card, with the empty title |
| HeadingProperties.HeadingSwallowed | trello_card_creator/trello_card_creator.py:373-383 | in a heading, an "Attachments:" line and a second heading whose text is not blank and does not start with "Image:", the second heading is read as an attachment: the document holds one card, not two, and its attachment is that heading's stripped text |
| SampleLayout.FieldTextReads | trello_card_creator/trello_card_creator.py:345-385 | a line written as prefix, space and trimmed value is already stripped, starts with the prefix, and its remainder strips to the value |
| SampleLayout.LabelsLine | trello_card_creator/trello_card_creator.py:344-349 | a "Labels:" line with clean names joined by ", " reads as exactly those labels |
| SampleLayout.DueDateLine | trello_card_creator/trello_card_creator.py:350-352 | a "Due Date:" line reads as its value |
| SampleLayout.MembersLine | trello_card_creator/trello_card_creator.py:353-358 | a "Members:" line with clean names joined by ", " reads as exactly those members |
| SampleLayout.ListNameLine | trello_card_creator/trello_card_creator.py:359-361 | a "List:" line reads as its value |
| SampleLayout.ImageLine | trello_card_creator/trello_card_creator.py:384-386 | an "Image:" line reads as its value |
| SampleLayout.BulletsRead | trello_card_creator/trello_card_creator.py:364-372 | trimmed items written as "List Bullet" paragraphs read back as those items, when the paragraph after them stops the checklist |
| SampleLayout.AttachmentLinesRead | trello_card_creator/trello_card_creator.py:375-383 | attachments written one per paragraph read back as those attachments, when the paragraph after them stops the list |
| SampleLayout.FieldBlockRead | trello_card_creator/trello_card_creator.py:342-388 | a field's line, with the lines below it, reads back as that field |
| SampleLayout.HeadStarts | trello_card_creator/trello_card_creator.py:324-334 | every field line the template writes is one the description loop stops at, and an image line is not an attachment |
| SampleLayout.Render | trello_card_creator/trello_card_creator.py:549-562 | the layout of the sample template: heading, description, then the field lines with a "Checklist:" line over "List Bullet" items and an "Attachments:" line over one paragraph per attachment; a plain definition, which `SampleLayout.CardRead` and `SampleLayout.RoundTrip` state reads back as the card |
| SampleLayout.BlocksRead | trello_card_creator/trello_card_creator.py:342-388 | field blocks laid out one after the other, up to a heading or the end, read back as exactly those fields |
| SampleLayout.DescriptionRead | trello_card_creator/trello_card_creator.py:322-338 | the one description paragraph of a written card is read as the description plus a newline, and the loop stops after it |
| SampleLayout.WrittenRead | trello_card_creator/trello_card_creator.py:304-390 | a written card reads as its fields applied to a card with its title and description |
| SampleLayout.ApplyRendered | trello_card_creator/trello_card_creator.py:308-388 | applying a fully populated card's fields to a fresh card with its title and description gives that card back |
| SampleLayout.CardRead | trello_card_creator/trello_card_creator.py:304-390 | a fully populated card in the template's layout, followed by a heading or the end, is read back as exactly that card |
| SampleLayout.ChainParses | trello_card_creator/trello_card_creator.py:303-394 | where each card read ends at the next card's heading, the outer loop returns exactly those cards |
| SampleLayout.HeldParse | trello_card_creator/trello_card_creator.py:298-394 | a document holding fully populated cards one after the other parses as exactly those cards |
| SampleLayout.RoundTrip | trello_card_creator/trello_card_creator.py:298-394 | fully populated cards written in the sample template's layout parse back as exactly those cards, in order |
| ParseExamples.TestRendered | tests/test_create_trello_cards.py:90-102 | the test's twelve paragraphs are the expected card in the sample template's layout |
| ParseExamples.TestRenderable | tests/test_create_trello_cards.py:114-124 | the expected card is one the layout reads back |
| ParseExamples.TestParseDocx | tests/test_create_trello_cards.py:84-124 | `parse_docx` on the test's document yields exactly the one card the test expects, key by key |

## Left out

- **Credentials.** Loading, storing and prompting for credentials and the board id (trello_card_creator.py:38-146) are left out. This is keyring, file and console I/O.
- **Trello HTTP calls.** The wrappers around the Trello API (163-296, 397-543) are left out, as is the board check. These are network calls.
- **The list cache.** The list-name-to-id cache (29) is left out. It is process state used only by the HTTP calls.
- **Date parsing.** The due date's `datetime.fromisoformat` check (437) is left out. It happens when cards are submitted, not when they are parsed; the parser keeps the date as text.
- **Attachment path check.** The `os.path.isfile` test on attachments (528) is left out. It is a file-system query.
- **`generate_sample_docx` and `main`.** These (546-643) are left out: they write files, prompt the user and exit. Only the layout of the sample template is modelled, as `SampleLayout.Render`.
- **Logging.** Calls to `logging` are left out, including the error logged when no board id is found (157-159).
- **The python-docx document model.** A document is the sequence of its paragraphs, and a paragraph is its style name and text. Opening and reading the file is left out.
- **Unicode whitespace.** `Text.IsSpace` covers the whitespace characters of ASCII and Latin-1. Other Unicode whitespace that Python's `str.strip()` also removes is not covered.
- **Unicode word characters.** `BoardUrl.IsWordChar` takes `\w` over ASCII (letters, digits and `_`). Python's Unicode word characters are not covered.
- SampleLayout.RoundTrip: covers only fully populated cards that the template can write back (`SampleLayout.Renderable`). That means trimmed texts, a description that is not itself a field line, non-empty clean label and member lists, non-blank due date, list and image values, and trimmed attachments that are non-blank and do not start with "Image:". Any other card loses information when written this way.
- SampleLayout.BlocksRead: requires that every attachment list be followed by an image line. The attachment loop takes any other non-blank paragraph, headings included (`HeadingProperties.HeadingSwallowed`).
