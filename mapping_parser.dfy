/**
 * The mapping table: rows of a markdown table that bind a report placeholder
 * to a source section reference, a page list and notes, each row classified
 * into one of three resolution strategies.
 */
module MappingParser {
  import opened Text
  import opened Wrappers
  import opened OrderedMaps
  import Placeholders

  /** The `mapping_type` of a field. */
  datatype Strategy = DirectExtract | SynthesisRequired | Unavailable

  /** The string the source stores for each strategy. */
  function StrategyName(st: Strategy): string {
    match st
    case DirectExtract => "direct_extract"
    case SynthesisRequired => "synthesis_required"
    case Unavailable => "unavailable"
  }

  /** One parsed row, keyed elsewhere by its placeholder. */
  datatype FieldMapping = FieldMapping(
    description: string,
    section: string,
    pages: seq<nat>,
    strategy: Strategy,
    notes: string)

  // ------------------------------------------------------------- the row pattern

  /** The four cells `\|([^|]+)\|([^|]+)\|([^|]+)\|([^|]*)\|` captures, unstripped. */
  datatype Row = Row(field: string, section: string, pages: string, notes: string)

  predicate NoBar(c: string) {
    forall k :: 0 <= k < |c| ==> c[k] != '|'
  }

  /**
   * `line` begins with the four cells of `row`, the first three non-empty:
   * `|field|section|pages|notes|` followed by anything.
   */
  predicate RowShape(line: string, row: Row) {
    var e1 := 1 + |row.field|;
    var e2 := e1 + 1 + |row.section|;
    var e3 := e2 + 1 + |row.pages|;
    var e4 := e3 + 1 + |row.notes|;
    && |row.field| > 0 && |row.section| > 0 && |row.pages| > 0
    && NoBar(row.field) && NoBar(row.section) && NoBar(row.pages) && NoBar(row.notes)
    && e4 < |line|
    && line[0] == '|' && line[e1] == '|' && line[e2] == '|' && line[e3] == '|' && line[e4] == '|'
    && line[1..e1] == row.field && line[e1 + 1..e2] == row.section
    && line[e2 + 1..e3] == row.pages && line[e3 + 1..e4] == row.notes
  }

  /** The index of the first `|` at or after `i`, or the length of `s`. */
  function CellEnd(s: string, i: nat): (e: nat)
    requires i <= |s|
    ensures i <= e <= |s| && (e == |s| || s[e] == '|')
    decreases |s| - i
  {
    if i == |s| || s[i] == '|' then i else CellEnd(s, i + 1)
  }

  /** The text the cell scan passes over holds no `|`. */
  lemma {:induction false} CellEndNoBar(s: string, i: nat)
    requires i <= |s|
    ensures NoBar(s[i..CellEnd(s, i)])
    decreases |s| - i
  {
    if i < |s| && s[i] != '|' {
      CellEndNoBar(s, i + 1);
      assert s[i..CellEnd(s, i)] == [s[i]] + s[i + 1..CellEnd(s, i + 1)];
    }
  }

  /** `table_row_pattern.match(line)`: the pattern anchored at the start of the line. */
  function MatchRow(line: string): (r: Option<Row>)
    ensures r.Some? ==> RowShape(line, r.value)
  {
    if |line| == 0 || line[0] != '|' then None
    else
      var e1 := CellEnd(line, 1);
      if e1 == 1 || e1 == |line| then None
      else
        var e2 := CellEnd(line, e1 + 1);
        if e2 == e1 + 1 || e2 == |line| then None
        else
          var e3 := CellEnd(line, e2 + 1);
          if e3 == e2 + 1 || e3 == |line| then None
          else
            var e4 := CellEnd(line, e3 + 1);
            if e4 == |line| then None
            else
              CellEndNoBar(line, 1);
              CellEndNoBar(line, e1 + 1);
              CellEndNoBar(line, e2 + 1);
              CellEndNoBar(line, e3 + 1);
              ShapeOfCells(line, e1, e2, e3, e4);
              Some(Row(line[1..e1], line[e1 + 1..e2], line[e2 + 1..e3], line[e3 + 1..e4]))
  }

  /** Four `|`-closed cells without `|`, the first three non-empty, give a row. */
  lemma ShapeOfCells(line: string, e1: nat, e2: nat, e3: nat, e4: nat)
    requires 1 < e1 && e1 + 1 < e2 && e2 + 1 < e3 && e3 < e4 < |line|
    requires line[0] == '|' && line[e1] == '|' && line[e2] == '|' && line[e3] == '|' && line[e4] == '|'
    requires NoBar(line[1..e1]) && NoBar(line[e1 + 1..e2]) && NoBar(line[e2 + 1..e3]) && NoBar(line[e3 + 1..e4])
    ensures RowShape(line, Row(line[1..e1], line[e1 + 1..e2], line[e2 + 1..e3], line[e3 + 1..e4]))
  {
  }

  lemma CellEndAt(s: string, i: nat, e: nat)
    requires i <= e < |s| && s[e] == '|'
    requires forall k :: i <= k < e ==> s[k] != '|'
    ensures CellEnd(s, i) == e
    decreases e - i
  {
    if i < e { CellEndAt(s, i + 1, e); }
  }

  /** A cell without `|` that a `|` closes ends where the cell scan says. */
  lemma CellEndOfCell(line: string, a: nat, b: nat)
    requires a <= b < |line| && line[b] == '|' && NoBar(line[a..b])
    ensures CellEnd(line, a) == b
  {
    forall k | a <= k < b ensures line[k] != '|' {
      assert line[k] == line[a..b][k - a];
    }
    CellEndAt(line, a, b);
  }

  /** The row pattern matches exactly the lines that begin with four cells. */
  lemma MatchRowExact(line: string, row: Row)
    ensures MatchRow(line) == Some(row) <==> RowShape(line, row)
  {
    if RowShape(line, row) {
      MatchRowOfShape(line, row);
    }
  }

  lemma MatchRowOfShape(line: string, row: Row)
    requires RowShape(line, row)
    ensures MatchRow(line) == Some(row)
  {
    var e1 := 1 + |row.field|;
    var e2 := e1 + 1 + |row.section|;
    var e3 := e2 + 1 + |row.pages|;
    var e4 := e3 + 1 + |row.notes|;
    CellEndOfCell(line, 1, e1);
    CellEndOfCell(line, e1 + 1, e2);
    CellEndOfCell(line, e2 + 1, e3);
    CellEndOfCell(line, e3 + 1, e4);
    MatchRowAt(line, e1, e2, e3, e4);
    assert row == Row(line[1..e1], line[e1 + 1..e2], line[e2 + 1..e3], line[e3 + 1..e4]);
  }

  /** Where the cell scan ends each of the four cells, the pattern matches those cells. */
  lemma MatchRowAt(line: string, e1: nat, e2: nat, e3: nat, e4: nat)
    requires 1 < e1 && e1 + 1 < e2 && e2 + 1 < e3 && e3 < e4 < |line| && line[0] == '|'
    requires CellEnd(line, 1) == e1 && CellEnd(line, e1 + 1) == e2
    requires CellEnd(line, e2 + 1) == e3 && CellEnd(line, e3 + 1) == e4
    ensures MatchRow(line) == Some(Row(line[1..e1], line[e1 + 1..e2], line[e2 + 1..e3], line[e3 + 1..e4]))
  {
  }

  // ------------------------------------------------------------------ page lists

  predicate StrictlyAscending(s: seq<nat>) {
    forall i, j :: 0 <= i < j < |s| ==> s[i] < s[j]
  }

  /** Python's `range(lo, hi)`. */
  function Range(lo: nat, hi: nat): (r: seq<nat>)
    ensures forall p :: p in r <==> lo <= p < hi
    decreases hi - lo
  {
    if hi <= lo then [] else [lo] + Range(lo + 1, hi)
  }

  /** The index of the first digit at or after `i`, or the length of `s`. */
  function FirstDigit(s: string, i: nat): (j: nat)
    requires i <= |s|
    ensures i <= j <= |s|
    decreases |s| - i
  {
    if i == |s| || IsDigit(s[i]) then i else FirstDigit(s, i + 1)
  }

  /**
   * The pages one stripped comma-separated piece contributes: a piece with a
   * dash contributes `range(start, end + 1)` when it begins `digits \s* - \s* digits`,
   * a piece without one contributes its first run of digits.
   */
  function PieceNumbers(part: string): seq<nat> {
    if '-' in part then RangeNumbers(part) else SingleNumbers(part)
  }

  /** `re.match(r'(\d+)\s*-\s*(\d+)', part)`: the start and end numbers of a range piece. */
  function RangeMatch(part: string): Option<(nat, nat)> {
    var a := DigitRun(part, 0);
    var dash := a + SpaceRun(part, a);
    if a == 0 || dash == |part| || part[dash] != '-' then None
    else
      var b0 := dash + 1 + SpaceRun(part, dash + 1);
      var b := DigitRun(part, b0);
      if b == 0 then None else Some((NatValue(part[..a]), NatValue(part[b0..b0 + b])))
  }

  /** A range piece contributes `range(start, end + 1)`; a dashed piece that is no range, nothing. */
  function RangeNumbers(part: string): seq<nat> {
    match RangeMatch(part)
    case None => []
    case Some((start, end)) => Range(start, end + 1)
  }

  /** `re.search(r'\d+', part)` as a one-page list, or nothing. */
  function SingleNumbers(part: string): seq<nat> {
    var j := FirstDigit(part, 0);
    if j == |part| then [] else [NatValue(part[j..j + DigitRun(part, j)])]
  }

  /**
   * A piece that begins `start \s* - \s* end` (digits at `[0, a)`, the dash at
   * `dash`, the end digits at `[b0, b0 + b)`) contributes every page from start
   * to end inclusive, which is nothing when start > end.
   */
  lemma RangePiece(part: string, a: nat, dash: nat, b0: nat, b: nat)
    requires 0 < a <= dash < b0 <= b0 + b <= |part| && b > 0 && '-' in part
    requires forall k :: 0 <= k < a ==> IsDigit(part[k])
    requires forall k :: a <= k < dash ==> IsSpace(part[k])
    requires part[dash] == '-'
    requires forall k :: dash < k < b0 ==> IsSpace(part[k])
    requires forall k :: b0 <= k < b0 + b ==> IsDigit(part[k])
    requires b0 + b == |part| || !IsDigit(part[b0 + b])
    ensures forall p :: p in PieceNumbers(part) <==> NatValue(part[..a]) <= p <= NatValue(part[b0..b0 + b])
  {
    DigitRunAt(part, 0, a);
    SpaceRunAt(part, a, dash - a);
    SpaceRunAt(part, dash + 1, b0 - dash - 1);
    DigitRunAt(part, b0, b);
    RangeNumbersAt(part, a, dash, b0, b);
  }

  /** `part` begins `\d+ \s* - \s* \d+`: digits at `[0, a)`, the dash at `dash`, digits at `[b0, b0 + b)`. */
  predicate RangeShape(part: string, a: nat, dash: nat, b0: nat, b: nat) {
    && 0 < a <= dash < b0 <= b0 + b <= |part| && b > 0
    && (forall k :: 0 <= k < a ==> IsDigit(part[k]))
    && (forall k :: a <= k < dash ==> IsSpace(part[k]))
    && part[dash] == '-'
    && (forall k :: dash < k < b0 ==> IsSpace(part[k]))
    && (forall k :: b0 <= k < b0 + b ==> IsDigit(part[k]))
  }

  /** A dashed piece that does not begin `\d+ \s* - \s* \d+` (such as `a-3` or `3-x`) contributes nothing. */
  lemma DashedNonRange(part: string)
    requires '-' in part
    requires forall a, dash, b0, b :: !RangeShape(part, a, dash, b0, b)
    ensures PieceNumbers(part) == []
  {
    if RangeMatch(part).Some? {
      RangeMatchShape(part);
    }
  }

  /** A match of the range pattern has the range shape. */
  lemma RangeMatchShape(part: string)
    requires RangeMatch(part).Some?
    ensures var a := DigitRun(part, 0);
      var dash := a + SpaceRun(part, a);
      var b0 := dash + 1 + SpaceRun(part, dash + 1);
      RangeShape(part, a, dash, b0, DigitRun(part, b0))
  {
    var a := DigitRun(part, 0);
    var dash := a + SpaceRun(part, a);
    assert a != 0 && dash < |part| && part[dash] == '-';
    var b0 := dash + 1 + SpaceRun(part, dash + 1);
    assert DigitRun(part, b0) != 0;
    DigitRunDigits(part, 0);
    SpaceRunSpaces(part, a);
    SpaceRunSpaces(part, dash + 1);
    DigitRunDigits(part, b0);
  }

  lemma RangeNumbersAt(part: string, a: nat, dash: nat, b0: nat, b: nat)
    requires 0 < a <= dash < b0 <= b0 + b <= |part| && b > 0 && part[dash] == '-'
    requires DigitRun(part, 0) == a && a + SpaceRun(part, a) == dash
    requires dash + 1 + SpaceRun(part, dash + 1) == b0 && DigitRun(part, b0) == b
    ensures RangeMatch(part) == Some((NatValue(part[..a]), NatValue(part[b0..b0 + b])))
  {
    assert !(a == 0 || dash == |part| || part[dash] != '-');
    assert b != 0;
  }

  /** A piece without a dash contributes its first run of digits (at `[j, j + n)`). */
  lemma SinglePiece(part: string, j: nat, n: nat)
    requires '-' !in part && 0 < n && j + n <= |part|
    requires forall k :: 0 <= k < j ==> !IsDigit(part[k])
    requires forall k :: j <= k < j + n ==> IsDigit(part[k])
    requires j + n == |part| || !IsDigit(part[j + n])
    ensures PieceNumbers(part) == [NatValue(part[j..j + n])]
  {
    FirstDigitAt(part, 0, j);
    DigitRunAt(part, j, n);
  }

  lemma FirstDigitAt(s: string, i: nat, j: nat)
    requires i <= j <= |s| && (j == |s| || IsDigit(s[j]))
    requires forall k :: i <= k < j ==> !IsDigit(s[k])
    ensures FirstDigit(s, i) == j
    decreases j - i
  {
    if i < j { FirstDigitAt(s, i + 1, j); }
  }

  /** A piece without a dash and without a digit contributes nothing. */
  lemma NoDigitPiece(part: string)
    requires '-' !in part && forall k :: 0 <= k < |part| ==> !IsDigit(part[k])
    ensures PieceNumbers(part) == []
  {
    FirstDigitAt(part, 0, |part|);
  }

  /** The pages every piece contributes, in piece order (duplicates kept). */
  function Collect(parts: seq<string>): seq<nat> {
    if parts == [] then []
    else Collect(parts[..|parts| - 1]) + PieceNumbers(Strip(parts[|parts| - 1], Whitespace))
  }

  lemma CollectStep(parts: seq<string>, i: nat)
    requires i < |parts|
    ensures Collect(parts[..i + 1]) == Collect(parts[..i]) + PieceNumbers(Strip(parts[i], Whitespace))
  {
    assert parts[..i + 1][..i] == parts[..i];
  }

  function InsertSorted(s: seq<nat>, x: nat): (r: seq<nat>)
    requires StrictlyAscending(s)
    ensures StrictlyAscending(r)
    ensures forall y :: y in r <==> y in s || y == x
  {
    if s == [] then [x]
    else
      AscendingHead(s);
      if x < s[0] then
        ConsAscending(x, s);
        [x] + s
      else if x == s[0] then s
      else
        var t := InsertSorted(s[1..], x);
        ConsAscending(s[0], t);
        [s[0]] + t
  }

  lemma AscendingHead(s: seq<nat>)
    requires s != [] && StrictlyAscending(s)
    ensures StrictlyAscending(s[1..])
    ensures forall y :: y in s <==> y == s[0] || y in s[1..]
    ensures forall y :: y in s[1..] ==> s[0] < y
  {
    forall y | y in s[1..] ensures s[0] < y {
      var j :| 0 <= j < |s[1..]| && s[1..][j] == y;
      assert s[j + 1] == y;
    }
  }

  lemma ConsAscending(h: nat, t: seq<nat>)
    requires StrictlyAscending(t)
    requires forall y :: y in t ==> h < y
    ensures StrictlyAscending([h] + t)
    ensures forall y :: y in [h] + t <==> y == h || y in t
  {
    var r := [h] + t;
    forall i, j | 0 <= i < j < |r| ensures r[i] < r[j] {
      assert r[j] == t[j - 1] && t[j - 1] in t;
      if i > 0 { assert r[i] == t[i - 1]; }
    }
  }

  /** Python's `sorted(set(xs))`. */
  function SortedDistinct(xs: seq<nat>): (r: seq<nat>)
    ensures StrictlyAscending(r)
    ensures forall y :: y in r <==> y in xs
  {
    if xs == [] then []
    else
      assert forall y :: y in xs <==> y in xs[..|xs| - 1] || y == xs[|xs| - 1];
      InsertSorted(SortedDistinct(xs[..|xs| - 1]), xs[|xs| - 1])
  }

  /** `_parse_pages` as a value. */
  function PagesOf(s: string): seq<nat> {
    if s == "" || s == "N/A" || s == "-" then [] else SortedDistinct(Collect(Split(s, ',')))
  }

  /** The early return for `""`, `"N/A"` and `"-"` agrees with what the general path would give. */
  lemma PagesOfSpecialCases(s: string)
    ensures PagesOf(s) == SortedDistinct(Collect(Split(s, ',')))
  {
    if s == "" || s == "N/A" || s == "-" {
      assert Split(s, ',') == [s];
      if s == "-" {
        assert !IsSpace(s[0]);
        assert RangeMatch(s) == None;
      } else if s == "N/A" {
        assert !IsSpace(s[0]) && !IsSpace(s[2]);
        NoDigitPiece(s);
      } else {
        NoDigitPiece(s);
      }
      StripKeeps(s, Whitespace);
      assert Collect([s]) == Collect([]) + PieceNumbers(Strip(s, Whitespace));
    }
  }

  /** `_parse_pages`: the loop that gathers every piece's pages, then sorted and deduplicated. */
  method ParsePages(pagesStr: string) returns (pages: seq<nat>)
    ensures pages == PagesOf(pagesStr)
    ensures StrictlyAscending(pages)
    ensures forall p :: p in pages <==> p in Collect(Split(pagesStr, ','))
    ensures pagesStr == "" || pagesStr == "N/A" || pagesStr == "-" ==> pages == []
  {
    PagesOfSpecialCases(pagesStr);
    if pagesStr == "" || pagesStr == "N/A" || pagesStr == "-" {
      return [];
    }
    var pageList := CollectPieces(Split(pagesStr, ','));
    pages := SortedDistinct(pageList);
  }

  /** The loop of `_parse_pages` over the comma-separated pieces. */
  method CollectPieces(parts: seq<string>) returns (pageList: seq<nat>)
    ensures pageList == Collect(parts)
  {
    pageList := [];
    var i := 0;
    while i < |parts|
      invariant 0 <= i <= |parts|
      invariant pageList == Collect(parts[..i])
    {
      var part := Strip(parts[i], Whitespace);
      pageList := pageList + PieceNumbers(part);
      CollectStep(parts, i);
      i := i + 1;
    }
    assert parts[..i] == parts;
  }

  // ------------------------------------------------------------- classification

  const UnavailableKeywords: seq<string> :=
    ["not in ib", "external source", "safety database", "case report", "requires query", "not available", "n/a"]

  const SynthesisKeywords: seq<string> :=
    ["synthesis", "combine", "summarize", "multiple sections", "rewrite", "adapt"]

  /** The keyword loop with its early return: some keyword of `kws` occurs in `text`. */
  function AnyIn(kws: seq<string>, text: string): (r: bool)
    ensures r <==> exists kw :: kw in kws && Contains(text, kw)
  {
    if kws == [] then false
    else Contains(text, kws[0]) || AnyIn(kws[1..], text)
  }

  /** Some unavailable keyword occurs, ignoring case, in the section cell or the notes cell. */
  ghost predicate UnavailableSignal(section: string, notes: string) {
    exists kw :: kw in UnavailableKeywords && (Contains(Lower(section), kw) || Contains(Lower(notes), kw))
  }

  /** A synthesis keyword in the notes, or a `+`, `,` or `and` in the section cell. */
  ghost predicate SynthesisSignal(section: string, notes: string) {
    || (exists kw :: kw in SynthesisKeywords && Contains(Lower(notes), kw))
    || '+' in section || ',' in section || Contains(Lower(section), "and")
  }

  /** `_determine_mapping_type`: unavailable beats synthesis, which beats direct extraction. */
  function Classify(section: string, notes: string): (r: Strategy)
    ensures r == Unavailable <==> UnavailableSignal(section, notes)
    ensures r == SynthesisRequired <==> !UnavailableSignal(section, notes) && SynthesisSignal(section, notes)
    ensures r == DirectExtract <==> !UnavailableSignal(section, notes) && !SynthesisSignal(section, notes)
  {
    var sectionLower := Lower(section);
    var notesLower := Lower(notes);
    if AnyIn(UnavailableKeywords, sectionLower) || AnyIn(UnavailableKeywords, notesLower) then Unavailable
    else if AnyIn(SynthesisKeywords, notesLower) then SynthesisRequired
    else if '+' in section || ',' in section || Contains(sectionLower, "and") then SynthesisRequired
    else DirectExtract
  }

  // ---------------------------------------------------------------- whole rows

  /** Header labels and rule rows, which are skipped. */
  predicate IsHeaderOrRule(field: string) {
    || field == "DSR Template Field" || field == "DSR Field" || field == "---" || field == ""
    || Contains(field, "---") || Contains(field, "===")
  }

  /** The characters stripped from a description: `' -:'`. */
  const DescriptionTrim := Chars({' ', '-', ':'})

  /** `field.replace(placeholder, '').strip(' -:')`. */
  function Description(field: string, placeholder: string): string
  {
    Strip(ReplaceAll(field, placeholder, ""), DescriptionTrim)
  }

  /** What one line contributes to the mapping: its placeholder and record, if any. */
  function RowEntry(line: string): (r: Option<(string, FieldMapping)>)
    ensures r.Some? ==> MatchRow(line).Some? && !IsHeaderOrRule(Strip(MatchRow(line).value.field, Whitespace))
    ensures r.Some? ==> Placeholders.IsPlaceholder(r.value.0) && Contains(Strip(MatchRow(line).value.field, Whitespace), r.value.0)
  {
    match MatchRow(line)
    case None => None
    case Some(row) =>
      var field := Strip(row.field, Whitespace);
      if IsHeaderOrRule(field) then None
      else
        match Placeholders.Search(field)
        case None => None
        case Some(ph) => Some((ph, Record(field, ph, row)))
  }

  /** The record a row stores under its placeholder: the cells stripped, the pages parsed, the row classified. */
  function Record(field: string, placeholder: string, row: Row): FieldMapping
  {
    var section := Strip(row.section, Whitespace);
    var notes := Strip(row.notes, Whitespace);
    FieldMapping(Description(field, placeholder), section, PagesOf(Strip(row.pages, Whitespace)), Classify(section, notes), notes)
  }

  /**
   * A stored record: the description is the stripped first cell without its
   * placeholder, stripped of ` `, `-` and `:`; the pages are the parse of the
   * stripped pages cell and ascend strictly; the strategy is the classification
   * of the stripped section and notes cells.
   */
  lemma RowRecord(line: string)
    requires RowEntry(line).Some?
    ensures var row := MatchRow(line).value;
      var fm := RowEntry(line).value.1;
      && fm.description == Strip(ReplaceAll(Strip(row.field, Whitespace), RowEntry(line).value.0, ""), DescriptionTrim)
      && (fm.description == [] || (fm.description[0] !in " -:" && fm.description[|fm.description| - 1] !in " -:"))
      && fm.pages == PagesOf(Strip(row.pages, Whitespace))
      && StrictlyAscending(fm.pages)
      && fm.section == Strip(row.section, Whitespace) && fm.notes == Strip(row.notes, Whitespace)
      && fm.strategy == Classify(fm.section, fm.notes)
  {
    var row := MatchRow(line).value;
    var field := Strip(row.field, Whitespace);
    var ph := Placeholders.Search(field).value;
    assert RowEntry(line) == Some((ph, Record(field, ph, row)));
    var d := Description(field, ph);
    assert d == [] || (!Drops(DescriptionTrim, d[0]) && !Drops(DescriptionTrim, d[|d| - 1]));
  }

  /** A line is skipped exactly when it is no table row, is a header or rule row, or names no placeholder. */
  lemma RowEntrySkipped(line: string)
    ensures RowEntry(line).None? <==>
      || MatchRow(line).None?
      || IsHeaderOrRule(Strip(MatchRow(line).value.field, Whitespace))
      || forall t :: Placeholders.IsPlaceholder(t) ==> !Contains(Strip(MatchRow(line).value.field, Whitespace), t)
  {
    if MatchRow(line).Some? {
      var field := Strip(MatchRow(line).value.field, Whitespace);
      if !IsHeaderOrRule(field) {
        var found := Placeholders.Search(field);
        if found.Some? {
          assert RowEntry(line) == Some((found.value, Record(field, found.value, MatchRow(line).value)));
        }
      }
    }
  }

  /** What a line contributes: a placeholder and its record, or nothing. */
  type Entry = Option<(string, FieldMapping)>

  /** The entry of every line, in line order. */
  function Entries(lines: seq<string>): (es: seq<Entry>)
    ensures |es| == |lines|
  {
    if lines == [] then [] else Entries(lines[..|lines| - 1]) + [RowEntry(lines[|lines| - 1])]
  }

  /** The entry at index `i` is the one line `i` contributes. */
  lemma {:induction false} EntriesAt(lines: seq<string>, i: nat)
    requires i < |lines|
    ensures Entries(lines)[i] == RowEntry(lines[i])
  {
    if i < |lines| - 1 {
      EntriesAt(lines[..|lines| - 1], i);
    }
  }

  /** One `mappings[placeholder] = {...}` assignment, when the line contributes. */
  function Absorb(m: OrderedMap<string, FieldMapping>, e: Entry): (r: OrderedMap<string, FieldMapping>)
    requires m.Valid()
    ensures r.Valid()
  {
    match e
    case None => m
    case Some((k, v)) => m.Put(k, v)
  }

  /** The mapping a run of entries builds, one assignment after another. */
  function Build(es: seq<Entry>): (m: OrderedMap<string, FieldMapping>)
    ensures m.Valid()
  {
    if es == [] then Empty() else Absorb(Build(es[..|es| - 1]), es[|es| - 1])
  }

  /**
   * The mapping the lines of the file build: `Build` over the lines' entries,
   * so `BuildKeys` and `BuildLastWins` describe it, with `EntriesAt` naming each entry.
   */
  function Parse(lines: seq<string>): (m: OrderedMap<string, FieldMapping>)
    ensures m.Valid()
  {
    Build(Entries(lines))
  }

  predicate EntryKey(e: Entry, k: string) {
    e.Some? && e.value.0 == k
  }

  /** The mapping holds exactly the placeholders some entry carries. */
  lemma {:induction false} BuildKeys(es: seq<Entry>, k: string)
    ensures k in Build(es).values <==> exists i :: 0 <= i < |es| && EntryKey(es[i], k)
  {
    if es != [] {
      var init := es[..|es| - 1];
      BuildKeys(init, k);
      forall i | 0 <= i < |init| && EntryKey(init[i], k) ensures EntryKey(es[i], k) { }
      forall i | 0 <= i < |es| - 1 && EntryKey(es[i], k) ensures EntryKey(init[i], k) { }
    }
  }

  /** The last entry for a placeholder decides its record: a later row overwrites an earlier one. */
  lemma {:induction false} BuildLastWins(es: seq<Entry>, i: nat, k: string, v: FieldMapping)
    requires i < |es| && es[i] == Some((k, v))
    requires forall j :: i < j < |es| ==> !EntryKey(es[j], k)
    ensures k in Build(es).values && Build(es).values[k] == v
  {
    var init := es[..|es| - 1];
    if i < |es| - 1 {
      BuildLastWins(init, i, k, v);
      assert !EntryKey(es[|es| - 1], k);
    }
  }

  /** Parsing one more line applies that line's entry. */
  lemma ParseStep(lines: seq<string>, i: nat)
    requires i < |lines|
    ensures Parse(lines[..i + 1]) == Absorb(Parse(lines[..i]), RowEntry(lines[i]))
  {
    assert lines[..i + 1][..i] == lines[..i];
  }

  // ---------------------------------------------------------------- priorities

  /** The listed keys whose record has strategy `st`, in list order. */
  function KeysWith(keys: seq<string>, values: map<string, FieldMapping>, st: Strategy): seq<string> {
    if keys == [] then []
    else
      var last := keys[|keys| - 1];
      KeysWith(keys[..|keys| - 1], values, st) + (if last in values && values[last].strategy == st then [last] else [])
  }

  /** A key is listed exactly when it is a key of the list whose record has strategy `st`. */
  lemma {:induction false} KeysWithMembers(keys: seq<string>, values: map<string, FieldMapping>, st: Strategy)
    ensures forall k :: k in KeysWith(keys, values, st) <==> k in keys && k in values && values[k].strategy == st
  {
    if keys != [] {
      assert forall k :: k in keys <==> k in keys[..|keys| - 1] || k == keys[|keys| - 1];
      KeysWithMembers(keys[..|keys| - 1], values, st);
    }
  }

  /** Taking one more key extends each list by at most that key. */
  lemma KeysWithStep(keys: seq<string>, values: map<string, FieldMapping>, i: nat, st: Strategy)
    requires i < |keys| && keys[i] in values
    ensures values[keys[i]].strategy == st ==> KeysWith(keys[..i + 1], values, st) == KeysWith(keys[..i], values, st) + [keys[i]]
    ensures values[keys[i]].strategy != st ==> KeysWith(keys[..i + 1], values, st) == KeysWith(keys[..i], values, st)
  {
    assert keys[..i + 1][..i] == keys[..i];
  }

  /** Every listed key of the mapping lands in exactly one of the three lists. */
  lemma {:induction false} KeysWithPartition(keys: seq<string>, values: map<string, FieldMapping>)
    requires forall k :: k in keys ==> k in values
    ensures |KeysWith(keys, values, DirectExtract)| + |KeysWith(keys, values, SynthesisRequired)|
          + |KeysWith(keys, values, Unavailable)| == |keys|
  {
    if keys != [] {
      assert forall k :: k in keys[..|keys| - 1] ==> k in keys;
      KeysWithPartition(keys[..|keys| - 1], values);
    }
  }

  /** Every field of a mapping is in one of the three priority lists, and in no other. */
  lemma PartitionCovers(m: OrderedMap<string, FieldMapping>, k: string)
    requires m.Valid()
    ensures k in m.values <==>
      k in KeysWith(m.keys, m.values, DirectExtract) || k in KeysWith(m.keys, m.values, SynthesisRequired)
      || k in KeysWith(m.keys, m.values, Unavailable)
    ensures k in m.values ==>
      (k in KeysWith(m.keys, m.values, DirectExtract) <==> m.values[k].strategy == DirectExtract)
      && (k in KeysWith(m.keys, m.values, SynthesisRequired) <==> m.values[k].strategy == SynthesisRequired)
      && (k in KeysWith(m.keys, m.values, Unavailable) <==> m.values[k].strategy == Unavailable)
  {
    KeysWithMembers(m.keys, m.values, DirectExtract);
    KeysWithMembers(m.keys, m.values, SynthesisRequired);
    KeysWithMembers(m.keys, m.values, Unavailable);
  }

  /** `get_all_fields_by_priority` over a given mapping. */
  method PartitionByStrategy(m: OrderedMap<string, FieldMapping>)
    returns (direct: seq<string>, synthesis: seq<string>, unavailable: seq<string>)
    requires m.Valid()
    ensures direct == KeysWith(m.keys, m.values, DirectExtract)
    ensures synthesis == KeysWith(m.keys, m.values, SynthesisRequired)
    ensures unavailable == KeysWith(m.keys, m.values, Unavailable)
    ensures |direct| + |synthesis| + |unavailable| == |m.keys|
  {
    direct, synthesis, unavailable := [], [], [];
    var i := 0;
    while i < |m.keys|
      invariant 0 <= i <= |m.keys|
      invariant direct == KeysWith(m.keys[..i], m.values, DirectExtract)
      invariant synthesis == KeysWith(m.keys[..i], m.values, SynthesisRequired)
      invariant unavailable == KeysWith(m.keys[..i], m.values, Unavailable)
    {
      var field := m.keys[i];
      assert field in m.values;
      KeysWithStep(m.keys, m.values, i, DirectExtract);
      KeysWithStep(m.keys, m.values, i, SynthesisRequired);
      KeysWithStep(m.keys, m.values, i, Unavailable);
      var strategy := m.values[field].strategy;
      if strategy == DirectExtract {
        direct := direct + [field];
      } else if strategy == SynthesisRequired {
        synthesis := synthesis + [field];
      } else {
        unavailable := unavailable + [field];
      }
      i := i + 1;
    }
    assert m.keys[..|m.keys|] == m.keys;
    KeysWithPartition(m.keys, m.values);
  }

  /** `get_fields_requiring_ai` over a given mapping. */
  method SynthesisFields(m: OrderedMap<string, FieldMapping>) returns (ai: seq<string>)
    requires m.Valid()
    ensures ai == KeysWith(m.keys, m.values, SynthesisRequired)
    ensures forall k :: k in ai <==> k in m.values && m.values[k].strategy == SynthesisRequired
  {
    ai := [];
    var i := 0;
    while i < |m.keys|
      invariant 0 <= i <= |m.keys|
      invariant ai == KeysWith(m.keys[..i], m.values, SynthesisRequired)
    {
      var field := m.keys[i];
      assert field in m.values;
      KeysWithStep(m.keys, m.values, i, SynthesisRequired);
      if m.values[field].strategy == SynthesisRequired {
        ai := ai + [field];
      }
      i := i + 1;
    }
    assert m.keys[..|m.keys|] == m.keys;
    KeysWithMembers(m.keys, m.values, SynthesisRequired);
  }

  /** The body of the parsing loop for one line: the placeholder and record it stores, if any. */
  method LineEntry(line: string) returns (entry: Entry)
    ensures entry == RowEntry(line)
  {
    entry := None;
    var row := MatchRow(line);
    if row.Some? {
      var field := Strip(row.value.field, Whitespace);
      if !IsHeaderOrRule(field) {
        var found := Placeholders.Search(field);
        if found.Some? {
          var placeholder := found.value;
          var section := Strip(row.value.section, Whitespace);
          var notes := Strip(row.value.notes, Whitespace);
          var pageList := ParsePages(Strip(row.value.pages, Whitespace));
          var mappingType := Classify(section, notes);
          var record := FieldMapping(Description(field, placeholder), section, pageList, mappingType, notes);
          assert record == Record(field, placeholder, row.value);
          entry := Some((placeholder, record));
        }
      }
    }
  }

  // ------------------------------------------------------------------ the parser

  class MappingParser {
    /** The text of the mapping file, which every parse reads afresh. */
    const content: string
    /** The mapping of the last parse, empty before the first. */
    var mappingDict: OrderedMap<string, FieldMapping>

    constructor(content: string)
      ensures this.content == content && mappingDict == Empty()
    {
      this.content := content;
      mappingDict := Empty();
    }

    /** `parse_mapping_file`: one pass over the lines, later rows overwriting earlier ones. */
    method ParseMappingFile() returns (mappings: OrderedMap<string, FieldMapping>)
      modifies this
      ensures mappings == mappingDict == Parse(Split(content, '\n'))
    {
      var lines := Split(content, '\n');
      mappings := Empty();
      var i := 0;
      while i < |lines|
        invariant 0 <= i <= |lines|
        invariant mappings == Parse(lines[..i])
      {
        ParseStep(lines, i);
        var entry := LineEntry(lines[i]);
        if entry.Some? {
          var (placeholder, record) := entry.value;
          mappings := mappings.Put(placeholder, record);
        }
        i := i + 1;
      }
      assert lines[..|lines|] == lines;
      mappingDict := mappings;
    }

    /** The lazy parse every getter starts with: an empty mapping is parsed again. */
    method EnsureParsed()
      modifies this
      ensures mappingDict.Valid() || old(mappingDict.keys) != []
      ensures old(mappingDict.keys) == [] ==> mappingDict == Parse(Split(content, '\n'))
      ensures old(mappingDict.keys) != [] ==> mappingDict == old(mappingDict)
    {
      if mappingDict.keys == [] {
        var _ := ParseMappingFile();
      }
    }

    /** `get_all_fields_by_priority`. */
    method GetAllFieldsByPriority()
      returns (direct: seq<string>, synthesis: seq<string>, unavailable: seq<string>)
      requires mappingDict.Valid()
      modifies this
      ensures mappingDict == if old(mappingDict.keys) == [] then Parse(Split(content, '\n')) else old(mappingDict)
      ensures direct == KeysWith(mappingDict.keys, mappingDict.values, DirectExtract)
      ensures synthesis == KeysWith(mappingDict.keys, mappingDict.values, SynthesisRequired)
      ensures unavailable == KeysWith(mappingDict.keys, mappingDict.values, Unavailable)
    {
      EnsureParsed();
      direct, synthesis, unavailable := PartitionByStrategy(mappingDict);
    }

    /** `get_fields_requiring_ai`. */
    method GetFieldsRequiringAi() returns (ai: seq<string>)
      requires mappingDict.Valid()
      modifies this
      ensures mappingDict == if old(mappingDict.keys) == [] then Parse(Split(content, '\n')) else old(mappingDict)
      ensures ai == KeysWith(mappingDict.keys, mappingDict.values, SynthesisRequired)
    {
      EnsureParsed();
      ai := SynthesisFields(mappingDict);
    }
  }
}
