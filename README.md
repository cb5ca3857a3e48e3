# Drug safety report generator: a verified model of its core

The system fills a Drug Safety Report (DSR) Word template from an
Investigator Brochure (IB) PDF. This project models the four pieces of
deterministic logic it is built from and proves what they promise:

- **Mapping parser** (`mapping_parser.dfy`, with `placeholders.dfy`):
  - reads the rows of a markdown mapping table;
  - keeps the rows whose first cell holds an `[INSERT_…]` placeholder;
  - expands page lists such as `"34-36, 40"` into sorted, duplicate-free page numbers;
  - classifies each field as `direct_extract`, `synthesis_required` or `unavailable`, in that order of precedence reversed (unavailable beats synthesis, which beats direct).
- **IB indexer** (`pdf_indexer.dfy`, with `section_keys.dfy`):
  - finds numbered section headings in the page texts;
  - builds a flat section map: the first title wins, and each page is listed once;
  - nests it into top-level sections with their subsections, visiting the section numbers in numeric-tuple order;
  - joins a section's page texts;
  - scans the first five pages for metadata.
- **Content matcher** (`content_matcher.dfy`):
  - walks the mapping in order and dispatches each field on its strategy;
  - looks section numbers up in the nested index, falling back to the field's pages;
  - asks a completion service to synthesise text;
  - produces fixed marker texts for unresolved fields;
  - turns a failing field into an error text, so the batch goes on;
  - counts fields per strategy and validates extracted content.
- **Template populator** (`template_populator.dfy`):
  - finds the placeholders of the document;
  - replaces a placeholder in every paragraph in place, counting the paragraphs changed;
  - populates all fields, counting populated and skipped ones;
  - sorts every field into one of the four lists of the population report.

Shared modules give Python's own meaning to the primitives the code uses:
- `text.dfy`: `str.strip`, `lower`, `in`, `split`, `join`, `replace`, `int()` and `str()`;
- `ordered_map.dfy`: the insertion-ordered `dict`;
- `wrappers.dfy`: `Option`, and the `Result` that stands for a raised exception.

The state-changing classes are Dafny classes:
- `MappingParser.MappingParser` holds the mapping of the last parse;
- `PdfIndexer.IBIndexer` holds the extracted pages and the section map;
- `ContentMatcher.ContentMatcher` holds the index, the mapping and the completion gateway;
- `TemplatePopulator.TemplatePopulator` holds the paragraphs as an `array<string>`, updated in place, and the set of placeholders found.

Each method is proved equal to a specification function. The properties are proved about those functions.

Where the code and its written description disagree, the model follows the code:
- The keyword `and` in the section cell is a substring test, so it also matches words such as `standard`.
- The default notes `External data source required` apply only when the `notes` key is missing, not when it is empty.
- Parsing a file without table rows gives an empty mapping and does not raise.
- Page contents come from a stub that returns `[Content from page N]` for the first three listed pages. No stored page text is used.
- The heading examples in the docstring of `identify_sections` (`1.1 Scientific Rationale`, `5.5.1.2.4 Deaths`) are not matched by the heading pattern. After the first capital, the title class admits only capitals, whitespace and `,-()`, so a lower-case second letter ends the match. Only upper-case titles such as `1. SUMMARY` are found.

## Model

| member | source | states |
|---|---|---|
| Text.Strip | src/mapping_parser.py:49-52 | `str.strip()`: the result neither starts nor ends with a stripped character; it is empty exactly when every character is stripped; every other character survives |
| Text.Lower | src/mapping_parser.py:132-133 | `str.lower()` keeps the length and lowers each ASCII capital |
| Text.Split | src/mapping_parser.py:100 | `str.split(sep)` gives at least one piece, and no piece holds the separator |
| Text.SplitJoin | src/mapping_parser.py:100 | joining the pieces of a split with the separator gives back the string |
| Text.ReplaceAll | src/template_populator.py:145 | `str.replace` with a non-empty pattern that does not occur leaves the text as it is |
| Text.ReplaceLeftmost | src/template_populator.py:145 | `str.replace` scans left to right: when `pat` first occurs right after `a`, the result is `a`, then `rep`, then the replacement of the rest |
| Text.NatToString | src/content_matcher.py:304 | `str(n)` is a non-empty run of digits |
| Text.IntToString | src/content_matcher.py:304 | `str(i)` starts with `-` exactly when `i` is negative |
| Text.NatToStringRoundTrip | src/pdf_indexer.py:279 | `int(str(n)) == n` |
| Placeholders.MatchAt | src/template_populator.py:77 | a match of `\[INSERT_[A-Z0-9_]+\]` at an index is one whole placeholder token |
| Placeholders.MatchAtComplete | src/template_populator.py:77 | every placeholder token that occurs at an index is the one matched there |
| Placeholders.FirstFrom | src/mapping_parser.py:61 | the leftmost match at or after an index, with no match before it; none only when nothing matches |
| Placeholders.Search | src/mapping_parser.py:61 | `re.search`: a placeholder token that occurs, with no match further left; none exactly when no token occurs |
| Placeholders.ScanFrom | src/template_populator.py:77 | the tokens `re.findall` reports from an index are exactly the tokens occurring from there on |
| Placeholders.AllIn | src/template_populator.py:77 | `_extract_placeholders`: exactly the placeholder tokens that occur in the text |
| OrderedMaps.Put | src/mapping_parser.py:71 | a dict assignment keeps the keys distinct and listed exactly once |
| MappingParser.CellEnd | src/mapping_parser.py:44 | a cell ends at the next `\|`, or at the end of the line |
| MappingParser.CellEndNoBar | src/mapping_parser.py:44 | a cell holds no `\|` |
| MappingParser.MatchRow | src/mapping_parser.py:44-47 | `table_row_pattern.match`: a match means the line begins with four `\|`-delimited cells, the first three non-empty |
| MappingParser.MatchRowExact | src/mapping_parser.py:44-47 | the row pattern matches a line with given cells exactly when the line has that shape |
| MappingParser.MatchRowOfShape | src/mapping_parser.py:44-47 | a line of row shape is matched with those cells |
| MappingParser.MatchRowAt | src/mapping_parser.py:44-47 | where the cell scan ends the four cells, the match returns those cells |
| MappingParser.Range | src/mapping_parser.py:111 | `range(lo, hi)` holds exactly the numbers from `lo` up to `hi` exclusive |
| MappingParser.FirstDigit | src/mapping_parser.py:114 | the scan for `\d+` stops within the text |
| MappingParser.RangePiece | src/mapping_parser.py:106-111 | a piece beginning `digits \s* - \s* digits` contributes every page from start to end inclusive, and none when start > end |
| MappingParser.DashedNonRange | src/mapping_parser.py:106-111 | a piece with a dash that does not begin `digits \s* - \s* digits` (such as `a-3` or `3-x`) contributes nothing |
| MappingParser.RangeNumbersAt | src/mapping_parser.py:107-110 | `re.match(r'(\d+)\s*-\s*(\d+)')` captures the two digit runs around the dash |
| MappingParser.SinglePiece | src/mapping_parser.py:113-116 | a piece without a dash contributes only its first run of digits |
| MappingParser.NoDigitPiece | src/mapping_parser.py:113-116 | a piece without a dash and without digits contributes nothing |
| MappingParser.CollectStep | src/mapping_parser.py:102-116 | each stripped comma piece adds its pages after those of the earlier pieces |
| MappingParser.InsertSorted | src/mapping_parser.py:118 | inserting into a strictly ascending list keeps it strictly ascending, with exactly one more member |
| MappingParser.SortedDistinct | src/mapping_parser.py:118 | `sorted(set(xs))` is strictly ascending and has exactly the members of `xs` |
| MappingParser.PagesOfSpecialCases | src/mapping_parser.py:94-95 | the early return of `[]` for `""`, `"N/A"` and `"-"` agrees with the general path |
| MappingParser.ParsePages | src/mapping_parser.py:83-118 | `_parse_pages`: strictly ascending, exactly the pages the pieces contribute, `[]` for `""`, `"N/A"` and `"-"` |
| MappingParser.CollectPieces | src/mapping_parser.py:97-116 | the piece loop gathers every piece's pages in order |
| MappingParser.AnyIn | src/mapping_parser.py:146-148 | the keyword loop with early return is true exactly when some keyword occurs |
| MappingParser.Classify | src/mapping_parser.py:120-169 | `unavailable` exactly when an unavailable keyword occurs in either lowered cell; otherwise `synthesis_required` exactly when a synthesis keyword occurs in the notes, or the section has `+`, `,` or `and`; otherwise `direct_extract` |
| MappingParser.RowEntry | src/mapping_parser.py:46-77 | a line contributes only if it matches the row pattern, is no header or rule row, and its stripped first cell contains the placeholder stored |
| MappingParser.RowRecord | src/mapping_parser.py:66-77 | the record of a row: the description is the stripped first cell with the placeholder replaced by `""`, then stripped of ` `, `-` and `:`, so it has none of them at either end; the pages are `_parse_pages` of the stripped pages cell and ascend strictly; the section and notes are the stripped cells, and the strategy is their classification |
| MappingParser.RowEntrySkipped | src/mapping_parser.py:47-62 | a line is skipped exactly when it is no table row, is a header or rule row, or names no placeholder |
| MappingParser.Entries | src/mapping_parser.py:46 | one entry per line |
| MappingParser.EntriesAt | src/mapping_parser.py:46-77 | the entry for line `i` is what line `i` contributes |
| MappingParser.Absorb | src/mapping_parser.py:71-77 | one assignment keeps the mapping a well-formed ordered dict |
| MappingParser.Build | src/mapping_parser.py:41-77 | the assignments build a well-formed ordered dict |
| MappingParser.Parse | src/mapping_parser.py:41-81 | the mapping of a file's lines is a well-formed ordered dict (its content is stated by `BuildKeys` and `BuildLastWins`) |
| MappingParser.BuildKeys | src/mapping_parser.py:71 | the mapping holds exactly the placeholders some contributing line carries |
| MappingParser.BuildLastWins | src/mapping_parser.py:71-77 | a later row with the same placeholder overwrites the earlier record |
| MappingParser.ParseStep | src/mapping_parser.py:46-77 | parsing one more line applies that line's entry |
| MappingParser.KeysWithMembers | src/mapping_parser.py:202-210 | a field is in a strategy's list exactly when it is a mapping key with that strategy |
| MappingParser.KeysWithStep | src/mapping_parser.py:202-210 | one more field extends exactly the list of its own strategy |
| MappingParser.KeysWithPartition | src/mapping_parser.py:196-212 | the three lists together have as many entries as the mapping has keys |
| MappingParser.PartitionCovers | src/mapping_parser.py:196-212 | every field is in exactly the list of its strategy, and nothing else is in any list |
| MappingParser.PartitionByStrategy | src/mapping_parser.py:196-212 | the three lists are the keys of each strategy in insertion order, and their lengths sum to the number of keys |
| MappingParser.SynthesisFields | src/mapping_parser.py:224-230 | the AI fields are exactly the `synthesis_required` keys, in insertion order |
| MappingParser.LineEntry | src/mapping_parser.py:47-77 | the loop body for one line stores what `RowEntry` says |
| MappingParser.MappingParser.constructor | src/mapping_parser.py:14-25 | a parser starts with an empty mapping |
| MappingParser.MappingParser.ParseMappingFile | src/mapping_parser.py:27-81 | `parse_mapping_file` returns and stores the mapping of the file's lines |
| MappingParser.MappingParser.EnsureParsed | src/mapping_parser.py:193-194 | an empty mapping is parsed again; a non-empty one is kept |
| MappingParser.MappingParser.GetAllFieldsByPriority | src/mapping_parser.py:186-212 | `get_all_fields_by_priority` parses lazily, then returns the three strategy lists |
| MappingParser.MappingParser.GetFieldsRequiringAi | src/mapping_parser.py:214-230 | `get_fields_requiring_ai` parses lazily, then returns the synthesis list |
| SectionKeys.Numbers | src/pdf_indexer.py:279 | one integer per dotted component, each the `int()` of that component |
| SectionKeys.SortKey | src/pdf_indexer.py:279 | a sort key has at least one component |
| SectionKeys.TupleLessIrreflexive | src/pdf_indexer.py:279 | no key sorts before itself |
| SectionKeys.TupleLessTransitive | src/pdf_indexer.py:279 | the tuple order is transitive |
| SectionKeys.TupleLessTotal | src/pdf_indexer.py:279 | different tuples are ordered one way or the other |
| SectionKeys.PrefixFirst | src/pdf_indexer.py:279 | a proper prefix tuple sorts first |
| SectionKeys.FirstComponent | src/pdf_indexer.py:260 | the first component of `p.x…` is `p` when `p` has no dot |
| SectionKeys.SplitPieces | src/pdf_indexer.py:249-252 | a key splits into one piece exactly when it has no dot |
| SectionKeys.ParentHasNoDot | src/pdf_indexer.py:260 | a parent key has no dot |
| SectionKeys.ParentFirst | src/pdf_indexer.py:279 | a dotted key sorts after its first component |
| SectionKeys.ParentBeforeChild | src/pdf_indexer.py:279 | `p` sorts before every `p.x…` |
| SectionKeys.OrderExamples | src/pdf_indexer.py:279 | `"1.9"` < `"1.10"` < `"2"` |
| SectionKeys.InsertByKey | src/pdf_indexer.py:248 | one insertion step of the stable sort adds exactly that key |
| SectionKeys.SortByKey | src/pdf_indexer.py:248 | `sorted(…, key=_section_sort_key)` is a permutation of the keys |
| SectionKeys.InsertSorted | src/pdf_indexer.py:248 | an insertion step keeps the keys sorted |
| SectionKeys.SortByKeySorted | src/pdf_indexer.py:248 | the sort returns the keys in sort-key order |
| SectionKeys.InsertDistinct | src/pdf_indexer.py:248 | inserting a new key keeps the keys distinct |
| SectionKeys.SortByKeyDistinct | src/pdf_indexer.py:248 | sorting distinct keys keeps them distinct |
| PdfIndexer.TitleRun | src/pdf_indexer.py:80 | the title-character run stays within the text |
| PdfIndexer.DottedTail | src/pdf_indexer.py:80 | the greedy `(?:\.\d+)*` stays within the text |
| PdfIndexer.HeadingAt | src/pdf_indexer.py:80 | a heading match consumes text, its number starts with a digit, and its title starts with a capital and has at least two characters |
| PdfIndexer.MixedCaseNoHeading | src/pdf_indexer.py:58-80 | the docstring's example `1.1 Scientific Rationale` is no heading: a lower-case letter after the first capital ends the title class |
| PdfIndexer.DeepMixedCaseNoHeading | src/pdf_indexer.py:58-80 | the docstring's example `5.5.1.2.4 Deaths` is no heading, for the same reason |
| PdfIndexer.UpperCaseHeading | src/pdf_indexer.py:58-80 | the docstring's example `1. SUMMARY` is a heading with number `1.` and title `SUMMARY` |
| PdfIndexer.HeadingsFrom | src/pdf_indexer.py:80-83 | every heading `finditer` yields has a number starting with a digit |
| PdfIndexer.SectionKey | src/pdf_indexer.py:86 | `rstrip('.')` of a heading number gives a non-empty key that does not end in `.` |
| PdfIndexer.PageSightings | src/pdf_indexer.py:82-87 | each heading of a page is seen on that page, under a well-formed key |
| PdfIndexer.Sightings | src/pdf_indexer.py:82-87 | every sighting of the document has a well-formed key |
| PdfIndexer.AddSighting | src/pdf_indexer.py:94-103 | one heading keeps the section map a well-formed ordered dict (its effect on each key is stated by `AddSightingPages`) |
| PdfIndexer.Index | src/pdf_indexer.py:77-105 | the sightings build a well-formed ordered dict (its keys, titles and pages are stated by `IndexKeys`, `FirstTitleWins`, `IndexPageMembers` and `IndexPageOrder`) |
| PdfIndexer.AddSightingPages | src/pdf_indexer.py:94-103 | a key is known after a heading exactly when it was known or the heading counts for it; a known key keeps its title and its pages, and gains the heading's page at the end exactly when that page is new to it |
| PdfIndexer.IndexSnoc | src/pdf_indexer.py:82-103 | one more heading applies one step |
| PdfIndexer.IndexKeys | src/pdf_indexer.py:87-99 | a key is indexed exactly when it has a sighting whose stripped title has at least 3 characters |
| PdfIndexer.IndexKeysWellFormed | src/pdf_indexer.py:86-94 | every indexed key is non-empty and does not end in `.` |
| PdfIndexer.FirstTitleWins | src/pdf_indexer.py:94-99 | the stored title is the one of the first counting sighting; later sightings never change it |
| PdfIndexer.IndexPageMembers | src/pdf_indexer.py:86-103 | a section lists page `p` exactly when some counting heading for it was seen on `p` |
| PdfIndexer.IndexPageOrder | src/pdf_indexer.py:100-103 | a section lists its pages in the order of their first counting headings: for an earlier page, some counting heading on it comes before every counting heading on the later page |
| PdfIndexer.IndexPagesDistinct | src/pdf_indexer.py:100-103 | no section lists a page twice |
| PdfIndexer.AddSightingAscending | src/pdf_indexer.py:100-103 | a heading on a page no earlier than every listed one keeps page lists ascending |
| PdfIndexer.IndexPagesAscending | src/pdf_indexer.py:100-103 | pages visited in ascending order give each section a strictly ascending page list |
| PdfIndexer.Nest | src/pdf_indexer.py:249-265 | one nesting step keeps the hierarchy well-formed |
| PdfIndexer.Nested | src/pdf_indexer.py:248-265 | the nesting of the visited keys is well-formed |
| PdfIndexer.SortedInIndex | src/pdf_indexer.py:248 | the sorted keys are all keys of the section map |
| PdfIndexer.Hierarchy | src/pdf_indexer.py:239-267 | `_build_hierarchical_sections` gives a well-formed hierarchy |
| PdfIndexer.NestedTops | src/pdf_indexer.py:251-257 | the top-level entries are exactly the visited keys without a dot, each with its section's title and pages |
| PdfIndexer.NestedSubs | src/pdf_indexer.py:258-265 | a key joins the subsections of `t` exactly when its parent is `t` and `t` was visited before it |
| PdfIndexer.HierarchyTops | src/pdf_indexer.py:251-257 | the top-level keys are exactly the dot-free section keys, each with its section's title and pages |
| PdfIndexer.HierarchySubsections | src/pdf_indexer.py:248-265 | a dotted key is a subsection of its first component exactly when that component is a dot-free section key; otherwise it is dropped |
| PdfIndexer.SubsectionVisitedAfterParent | src/pdf_indexer.py:248 | in the sorted order a key's parent comes before it |
| PdfIndexer.FirstPage | src/pdf_indexer.py:131-134 | the inner search finds the first page with the number, or none |
| PdfIndexer.ListedTexts | src/pdf_indexer.py:128-134 | at most one text per listed page |
| PdfIndexer.ListedTextsAll | src/pdf_indexer.py:128-134 | when every listed page has a text, the texts follow the page list |
| PdfIndexer.WithText | src/pdf_indexer.py:131-134 | the listed numbers that have a page are exactly the listed numbers with a page |
| PdfIndexer.ListedTextsSkip | src/pdf_indexer.py:128-136 | one text per listed number that has a page, in list order, each from the first page with that number; numbers without a page are skipped |
| PdfIndexer.ROSearch | src/pdf_indexer.py:182 | `re.search(r'RO\d+')` gives `RO` followed by digits |
| PdfIndexer.FirstPages | src/pdf_indexer.py:180 | `extracted_text[:5]` |
| PdfIndexer.MetadataRO | src/pdf_indexer.py:180-184 | the RO number is the match of the first page that has one |
| PdfIndexer.MetadataNoRO | src/pdf_indexer.py:182-184 | the RO number stays empty exactly when no page has a match |
| PdfIndexer.MetadataDrug | src/pdf_indexer.py:187-188 | the drug name is `Pralsetinib` exactly when some page mentions it in any case |
| PdfIndexer.MetadataTrade | src/pdf_indexer.py:190-191 | the trade name is `GAVRETO` exactly when some page holds it |
| PdfIndexer.MetadataUnset | src/pdf_indexer.py:171-177 | version and date are never set |
| PdfIndexer.Numbered | src/pdf_indexer.py:45-49 | page `k` of the document is numbered `k + 1` |
| PdfIndexer.IBIndexer.constructor | src/pdf_indexer.py:17-30 | an indexer starts with no pages and no sections |
| PdfIndexer.IBIndexer.ExtractAllText | src/pdf_indexer.py:32-53 | every page with its 1-based number, stored; the sections are untouched |
| PdfIndexer.IBIndexer.IdentifySections | src/pdf_indexer.py:55-107 | the section map of the given pages (else the stored ones, else the whole document) replaces the stored one |
| PdfIndexer.IBIndexer.ExtractSectionContent | src/pdf_indexer.py:109-136 | indexes first when no section is known; `""` for an unknown number, else the `"\n"`-join of its pages' texts |
| PdfIndexer.IBIndexer.ExtractMetadata | src/pdf_indexer.py:164-193 | the metadata of the first five pages |
| PdfIndexer.IBIndexer.BuildHierarchicalSections | src/pdf_indexer.py:239-267 | the hierarchy of the stored section map |
| PdfIndexer.IndexPages | src/pdf_indexer.py:82-103 | the heading loop builds the index of all sightings |
| PdfIndexer.AddSightings | src/pdf_indexer.py:85-103 | one page's headings extend the index |
| PdfIndexer.JoinPageTexts | src/pdf_indexer.py:128-136 | the page loop returns the `"\n"`-join of the listed texts |
| PdfIndexer.FirstPageAt | src/pdf_indexer.py:131-134 | a search that stops at the first page with the number finds it |
| ContentMatcher.DotGroups | src/content_matcher.py:251 | the greedy `(?:\.\d+)*` stays in the text and its last group starts with a dot |
| ContentMatcher.NumberAt | src/content_matcher.py:251 | a match of `\b(\d+(?:\.\d+)*)\b` consumes text |
| ContentMatcher.NumberAtFacts | src/content_matcher.py:251 | a match is a dotted number between word boundaries; a plain number between boundaries always matches |
| ContentMatcher.NumbersFrom | src/content_matcher.py:251-252 | every match `re.findall` reports is a dotted number |
| ContentMatcher.SectionNumbers | src/content_matcher.py:238-256 | `_extract_section_numbers` returns dotted numbers only |
| ContentMatcher.PagesContent | src/content_matcher.py:292-304 | one stand-in per page for the first three listed pages only |
| ContentMatcher.LookupFirst | src/content_matcher.py:268-290 | `_get_section_content` returns the content of the first top-level entry, in order, that has some |
| ContentMatcher.LookupEmpty | src/content_matcher.py:268-290 | it returns `""` exactly when no entry, top-level or subsection, has content for the number |
| ContentMatcher.CollapseSpace | src/content_matcher.py:336 | `re.sub(r'\s+', ' ')` leaves no whitespace but plain spaces and no two spaces in a row; empty exactly for empty input |
| ContentMatcher.PageMarkAt | src/content_matcher.py:339 | a `Page \d+ of \d+` match stays within the text |
| ContentMatcher.CollapseAppend | src/content_matcher.py:336 | a tail that opens with no whitespace and has only single plain spaces passes through `re.sub(r'\s+', ' ')` unchanged, after the collapsed head |
| ContentMatcher.DropPageMarks | src/content_matcher.py:339 | deleting the page marks never lengthens the text and keeps it free of whitespace other than plain spaces (two spaces can meet where a mark was) |
| ContentMatcher.DropAppend | src/content_matcher.py:339 | a tail that opens with `[` and holds no `P` passes through the page-mark deletion unchanged, after the head with its marks deleted |
| ContentMatcher.CleanText | src/content_matcher.py:322-344 | `_clean_text`: `""` for `""`; no whitespace other than plain spaces, and none at either end |
| ContentMatcher.InfoOf | src/mapping_parser.py:71-77 | the entry the parser stores has every key, and its type is the strategy's name |
| ContentMatcher.SectionTexts | src/content_matcher.py:109-113 | only non-empty section contents are kept, at most one per number |
| ContentMatcher.DirectResult | src/content_matcher.py:89-124 | `direct_extract` raises exactly when `ib_section` or `ib_pages` is missing, and otherwise returns text with no whitespace other than plain spaces |
| ContentMatcher.DirectNotFound | src/content_matcher.py:109-124 | section contents when some; else the page stand-ins when pages are listed; else `[Content not found in IB]` |
| ContentMatcher.DirectNotFoundExactly | src/content_matcher.py:109-124 | `[Content not found in IB]` is returned exactly when no section gave content and no pages are listed: every other source ends in a page stand-in, whose closing digit and `]` survive the cleaning |
| ContentMatcher.SectionBlocks | src/content_matcher.py:150-153 | at most one `### Section` block per number |
| ContentMatcher.Truncated | src/content_matcher.py:166-168 | source up to 10000 characters is kept; a longer one becomes its first 10000 characters plus the truncation note |
| ContentMatcher.Prompt | src/content_matcher.py:216-236 | the source content sits in the prompt right after its head |
| ContentMatcher.AiResult | src/content_matcher.py:126-200 | `ai_extract` returns the skipped text without a client, before any lookup; it raises only with a client and a missing `ib_section` or `ib_pages` |
| ContentMatcher.Synthesis | src/content_matcher.py:160-200 | with a client it never raises: no source gives `[No source content found in IB for AI extraction]`; otherwise the prompt holds the joined, truncated sources, an answer is returned stripped, and a failure gives `[AI extraction failed: …]` with the first 500 characters of the sources |
| ContentMatcher.UnavailableHeadMarks | src/content_matcher.py:320 | the unavailable text starts with both markers the report looks for |
| ContentMatcher.UnavailableText | src/content_matcher.py:306-320 | `handle_unavailable_field` holds `NOT AVAILABLE IN IB` and `REQUIRES:`, followed by the notes when the key is present and by `External data source required` only when it is missing |
| ContentMatcher.UnavailableEmptyNotes | src/content_matcher.py:317-320 | empty notes are kept: the text is the head followed by `]`, without the default |
| ContentMatcher.Kind | src/content_matcher.py:60-71 | the direct branch exactly for `direct_extract`, the synthesis branch exactly for `synthesis_required`, every other type unavailable |
| ContentMatcher.KindOfName | src/content_matcher.py:63-71 | the parser's strategy names lead to the branch of that strategy |
| ContentMatcher.HandlerSucceeds | src/content_matcher.py:60-71 | no handler raises on an entry that has every key it reads |
| ContentMatcher.MatchFields | src/content_matcher.py:35-87 | the matched content is a well-formed ordered dict |
| ContentMatcher.MatchFieldsFails | src/content_matcher.py:60 | the call fails exactly when some entry has no `mapping_type` |
| ContentMatcher.MatchFieldsKeys | src/content_matcher.py:56-78 | one entry per mapping key, in mapping order |
| ContentMatcher.MatchFieldsLast | src/content_matcher.py:73-78 | the last field's text is stored over what the earlier fields left |
| ContentMatcher.MatchFieldsValue | src/content_matcher.py:56-78 | each field holds its handler's text, or `[ERROR EXTRACTING CONTENT: <msg>]` when it raised |
| ContentMatcher.MatchFieldsTally | src/content_matcher.py:49-71 | direct + ai + unavailable + failed fields = total |
| ContentMatcher.ParsedNeverFails | src/content_matcher.py:56-78 | on a mapping the parser built nothing raises, so the three counters sum to the total |
| ContentMatcher.MatchFieldsAbort | src/content_matcher.py:60 | once an entry without `mapping_type` is reached, later fields change nothing |
| ContentMatcher.MatchFieldsStops | src/content_matcher.py:60 | the first entry without `mapping_type` ends the call with that key error |
| ContentMatcher.MatchFieldsStep | src/content_matcher.py:56-78 | one more field stores its text and counts its branch when its handler returns |
| ContentMatcher.Warnings | src/content_matcher.py:363-377 | at most four warnings |
| ContentMatcher.WarnsEmpty | src/content_matcher.py:364-366 | `Content is empty` exactly when the stripped content is empty |
| ContentMatcher.WarnsFlagged | src/content_matcher.py:369-370 | flagged exactly when the content holds `[ERROR` or `[DATA NOT AVAILABLE` |
| ContentMatcher.WarnsLong | src/content_matcher.py:373-374 | reported long, with its length, exactly when over 20000 characters |
| ContentMatcher.WarnsShort | src/content_matcher.py:376-377 | reported short exactly when under 10 characters without a `[` |
| ContentMatcher.WarningsDistinct | src/content_matcher.py:366-377 | the four warnings differ |
| ContentMatcher.ContentMatcher.constructor | src/content_matcher.py:16-33 | a client exists exactly when a non-empty API key is given |
| ContentMatcher.ContentMatcher.MatchAllFields | src/content_matcher.py:35-87 | `match_all_fields` is `MatchFields` with this matcher's handlers |
| ContentMatcher.ContentMatcher.HandleField | src/content_matcher.py:62-71 | the `try` block runs the handler of the field's branch |
| ContentMatcher.ContentMatcher.GetSectionContent | src/content_matcher.py:258-290 | the search loop with early return gives the first hit |
| ContentMatcher.ContentMatcher.DirectExtract | src/content_matcher.py:89-124 | `direct_extract` is `DirectResult` |
| ContentMatcher.ContentMatcher.CollectSections | src/content_matcher.py:109-113 | the section loop keeps each non-empty content |
| ContentMatcher.ContentMatcher.CollectBlocks | src/content_matcher.py:150-153 | the section loop keeps each non-empty content under its heading |
| ContentMatcher.ContentMatcher.AiExtract | src/content_matcher.py:126-200 | `ai_extract` is `AiResult` |
| ContentMatcher.ContentMatcher.Synthesize | src/content_matcher.py:160-200 | the prompt, the call and its outcome are `Synthesis` |
| ContentMatcher.ContentMatcher.ValidateExtraction | src/content_matcher.py:346-379 | invalid exactly when the stripped content is empty; the warnings are `Warnings` |
| ContentMatcher.ContentMatcher.CollectWarnings | src/content_matcher.py:363-377 | the warning checks in order give `Warnings` |
| TemplatePopulator.PlaceholdersIn | src/template_populator.py:38-62 | the placeholders found are exactly the tokens that occur in some paragraph |
| TemplatePopulator.StrLessTransitive | src/template_populator.py:65 | Python's string order is transitive |
| TemplatePopulator.StrLessTotal | src/template_populator.py:65 | different strings are ordered one way or the other |
| TemplatePopulator.LeastExists | src/template_populator.py:65 | every non-empty set of strings has a least element |
| TemplatePopulator.SortedList | src/template_populator.py:65 | `sorted(set)` has exactly the set's members, strictly increasing |
| TemplatePopulator.Filled | src/template_populator.py:87-88 | empty content becomes `[NO CONTENT]`; other content is kept |
| TemplatePopulator.Substituted | src/template_populator.py:92-117 | each paragraph is replaced in exactly when it contains the placeholder |
| TemplatePopulator.CountContaining | src/template_populator.py:90-117 | the count is at most the number of paragraphs, and zero exactly when no paragraph contains the placeholder |
| TemplatePopulator.UntouchedWhenAbsent | src/template_populator.py:92-117 | a placeholder found nowhere leaves the document as it was |
| TemplatePopulator.ParagraphReplacesLeftmost | src/template_populator.py:143-145 | in a paragraph holding the placeholder, the text before its leftmost occurrence is kept, that occurrence becomes the content, and the rest is replaced in turn |
| TemplatePopulator.Populate | src/template_populator.py:199-223 | every entry counts once, as populated or skipped, and the document keeps its paragraph count |
| TemplatePopulator.EligibleKeys | src/template_populator.py:203-213 | the substituted entries are among the entries |
| TemplatePopulator.OnlyEligibleSubstituted | src/template_populator.py:203-213 | blank, `"N/A"` and not-found entries change nothing: the document and populated count are those of the other entries alone |
| TemplatePopulator.PopulateStep | src/template_populator.py:202-223 | each entry is skipped when blank or not found, populated when it changed a paragraph, skipped otherwise |
| TemplatePopulator.Classes | src/template_populator.py:259-267 | each entry's list is decided by its content |
| TemplatePopulator.ReportOf | src/template_populator.py:252-269 | the four lists hold as many entries as the input |
| TemplatePopulator.ReportSnoc | src/template_populator.py:259-267 | each entry is appended to the list of its content |
| TemplatePopulator.ReportMembership | src/template_populator.py:252-269 | a placeholder is in a list exactly when its content belongs there, so each is in exactly one list |
| TemplatePopulator.SelectSnoc | src/template_populator.py:259-267 | filtering one more entry appends it to its own list only |
| TemplatePopulator.ReportOrder | src/template_populator.py:252-269 | each list is the input filtered by the list's test, in input order |
| TemplatePopulator.MarkedNotInIb | src/template_populator.py:260-263 | non-blank content with `NOT AVAILABLE IN IB` or `REQUIRES:` goes to `not_in_ib`, even when it also holds `[ERROR` |
| TemplatePopulator.UnavailableNotInIb | src/template_populator.py:262-263 | the text of an unavailable field is reported under `not_in_ib` |
| TemplatePopulator.FailureFlagged | src/template_populator.py:262-265 | the text of a failed field is reported under `not_in_ib` or `errors`, never as populated or empty |
| TemplatePopulator.TemplatePopulator.constructor | src/template_populator.py:15-27 | a populator starts with the template's paragraphs and no placeholder found |
| TemplatePopulator.TemplatePopulator.FindAllPlaceholders | src/template_populator.py:29-65 | records exactly the placeholders of the paragraphs and returns them sorted |
| TemplatePopulator.TemplatePopulator.ReplaceInParagraph | src/template_populator.py:119-157 | 0 and no change when the paragraph lacks the text; otherwise 1 and the paragraph becomes its `str.replace` (see `ReplaceLeftmost`); other paragraphs untouched |
| TemplatePopulator.TemplatePopulator.ReplacePlaceholder | src/template_populator.py:79-117 | every paragraph replaced in (with `[NO CONTENT]` for empty content); returns the number of paragraphs that held the placeholder |
| TemplatePopulator.TemplatePopulator.PopulateAllFields | src/template_populator.py:184-227 | finds placeholders when none are known; document and counters are `Populate`; populated + skipped = number of entries |
| TemplatePopulator.TemplatePopulator.SubstituteEntries | src/template_populator.py:199-223 | the entry loop gives `Populate` |
| TemplatePopulator.TemplatePopulator.GenerateMappingReport | src/template_populator.py:242-269 | `generate_mapping_report` is `ReportOf` over each content's list |

## Left out

- File and library I/O are outside the model:
  - reading the mapping file, the PDF reader, table extraction (`extract_tables`) and `create_index`;
  - JSON index save and load, Word document loading and `save_document`;
  - the `main` functions and every `print`.
- The PDF's page texts, the mapping file's text and the template's paragraphs are constructor parameters. The constructors' file-existence checks are not modelled.
- The OpenAI call is a `Gateway` parameter that answers or fails. The fixed system message, the model name, the temperature and the `time.sleep(0.5)` are not modelled.
- The Word document is flattened into one sequence of paragraph strings: the body, then the table cells, then each section's header followed by that section's footer. Runs and formatting are not modelled. Each paragraph appears once, so the code's repeated visits to one paragraph are not modelled:
  - a header or footer shared by several sections is visited once per section;
  - python-docx repeats a merged table cell in `row.cells`, so its paragraphs are visited once per repeat.
  A repeated visit finds the placeholder already replaced, unless the new content itself contains the placeholder. In that case the code replaces it again and counts the paragraph once more.
- `populate_table_row` is not modelled: it writes table cells by position, and the flattened document has no table positions.
- `get_mapping_for_field` and `get_all_field_names` are not modelled: they are lazy-parse getters whose lazy parse `EnsureParsed` models.
- `print_report` is not modelled: it is console output.
- `\d`, `\w` and `str.lower()` are restricted to ASCII.
- `\s` and `str.strip()` use Python's whitespace set.
- The mapping's values are strings, page lists or absent. JSON `null` values and other value types are not modelled.
- `populate_all_fields` only prints its counters. The model returns them so that they can be stated.
- `match_all_fields` only prints its three counters. `MatchAllFields` returns them in `Matching.tally` so that they can be stated.
- ContentMatcher.SectionNumbers: states that every number returned is dotted. It does not state that every whole-word dotted number of the reference is returned.
- ContentMatcher.ContentMatcher.AiExtract: the service's answer is taken as given and only stripped, as the code does. What the service writes is not modelled.
