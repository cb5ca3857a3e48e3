/**
 * The content matcher: for each field of the mapping, in mapping order, finds
 * its text in the nested section index (direct extraction), has it written by
 * a completion service from the same sources (synthesis), or states that the
 * source does not hold it; a failing field is reported in place and the batch
 * goes on.
 */
module ContentMatcher {
  import opened Text
  import opened Wrappers
  import opened OrderedMaps
  import PdfIndexer
  import MappingParser
  import SectionKeys

  // ------------------------------------------------------------ section numbers
  // `re.findall(r'\b(\d+(?:\.\d+)*)\b', ib_section)`.

  /** `t` is made of digits and dots and starts and ends with a digit, such as `5.5.1`. */
  predicate DottedNumber(t: string) {
    && |t| > 0 && IsDigit(t[0]) && IsDigit(t[|t| - 1])
    && forall k :: 0 <= k < |t| ==> IsDigit(t[k]) || t[k] == '.'
  }

  /** The characters of `s` from `a` to `b` are digits and dots. */
  predicate GroupsShape(s: string, a: nat, b: nat)
    requires a <= b <= |s|
  {
    forall k :: a <= k < b ==> IsDigit(s[k]) || s[k] == '.'
  }

  /** `\b` before a match that starts with a word character. */
  predicate StartsWord(s: string, p: nat)
    requires p <= |s|
  {
    p == 0 || !IsWordChar(s[p - 1])
  }

  /** `\b` after a match that ends with a word character. */
  predicate EndsWord(s: string, e: nat)
    requires e <= |s|
  {
    e == |s| || !IsWordChar(s[e])
  }

  /** `(?:\.\d+)*` from `i`, greedily: where its last repetition starts (`i` when there is none) and where it ends. */
  function DotGroups(s: string, i: nat): (r: (nat, nat))
    requires i <= |s|
    ensures i <= r.0 <= r.1 <= |s|
    ensures r.0 == r.1 ==> r.0 == i
    ensures r.0 < r.1 ==> s[r.0] == '.'
    decreases |s| - i
  {
    if i + 1 < |s| && s[i] == '.' && IsDigit(s[i + 1]) then
      var e := i + 1 + DigitRun(s, i + 1);
      var rest := DotGroups(s, e);
      if rest.1 == e then (i, e) else rest
    else (i, i)
  }

  /** After a digit, the groups extend the digits-and-dots shape, and both of their ends follow a digit. */
  lemma {:induction false} DotGroupsShape(s: string, a: nat, i: nat)
    requires a < i <= |s| && GroupsShape(s, a, i) && IsDigit(s[i - 1])
    ensures GroupsShape(s, a, DotGroups(s, i).1) && IsDigit(s[DotGroups(s, i).1 - 1])
    ensures GroupsShape(s, a, DotGroups(s, i).0) && IsDigit(s[DotGroups(s, i).0 - 1])
    decreases |s| - i
  {
    if i + 1 < |s| && s[i] == '.' && IsDigit(s[i + 1]) {
      var e := i + 1 + DigitRun(s, i + 1);
      DigitRunDigits(s, i + 1);
      GroupStep(s, a, i, e);
      DotGroupsShape(s, a, e);
    }
  }

  /** One more group `.digits` from `i` to `e` keeps the shape. */
  lemma GroupStep(s: string, a: nat, i: nat, e: nat)
    requires a < i && i + 1 < e <= |s| && GroupsShape(s, a, i) && IsDigit(s[i - 1]) && s[i] == '.'
    requires forall k :: i < k < e ==> IsDigit(s[k])
    ensures GroupsShape(s, a, e) && IsDigit(s[e - 1])
  {
  }

  /** A shape that starts and ends with a digit is a dotted number. */
  lemma ShapeIsDotted(s: string, p: nat, e: nat)
    requires p < e <= |s| && GroupsShape(s, p, e) && IsDigit(s[p]) && IsDigit(s[e - 1])
    ensures DottedNumber(s[p..e])
  {
    var t := s[p..e];
    forall k | 0 <= k < |t| ensures IsDigit(t[k]) || t[k] == '.' {
      assert t[k] == s[p + k];
    }
  }

  /**
   * The end of the match at `p`, if any: all the digit groups when a word
   * boundary follows them, else all but the last group (a dot always follows
   * those, which is a boundary).
   */
  function NumberAt(s: string, p: nat): (r: Option<nat>)
    requires p <= |s|
    ensures r.Some? ==> p < r.value <= |s|
  {
    if p < |s| && IsDigit(s[p]) && StartsWord(s, p) then
      var d := p + DigitRun(s, p);
      var g := DotGroups(s, d);
      if EndsWord(s, g.1) then Some(g.1)
      else if g.0 < g.1 then Some(g.0)
      else None
    else None
  }

  /** A match is a dotted number standing between word boundaries; a plain number between boundaries always matches. */
  lemma NumberAtFacts(s: string, p: nat)
    requires p <= |s|
    ensures var r := NumberAt(s, p);
      r.Some? ==> StartsWord(s, p) && EndsWord(s, r.value) && DottedNumber(s[p..r.value])
    ensures p < |s| && IsDigit(s[p]) && StartsWord(s, p) && EndsWord(s, p + DigitRun(s, p)) ==> NumberAt(s, p).Some?
  {
    if p < |s| && IsDigit(s[p]) && StartsWord(s, p) {
      var d := p + DigitRun(s, p);
      DigitRunDigits(s, p);
      var g := DotGroups(s, d);
      assert GroupsShape(s, p, d);
      DotGroupsShape(s, p, d);
      if EndsWord(s, g.1) {
        ShapeIsDotted(s, p, g.1);
      } else if g.0 < g.1 {
        ShapeIsDotted(s, p, g.0);
      }
    }
  }

  /** `re.findall` from index `p`, resuming after each match. */
  function NumbersFrom(s: string, p: nat): (r: seq<string>)
    requires p <= |s|
    ensures forall k :: 0 <= k < |r| ==> DottedNumber(r[k])
    decreases |s| - p
  {
    if p == |s| then []
    else
      NumberAtFacts(s, p);
      match NumberAt(s, p)
      case Some(e) => [s[p..e]] + NumbersFrom(s, e)
      case None => NumbersFrom(s, p + 1)
  }

  /** `_extract_section_numbers`: every dotted number of the reference that stands as a whole word. */
  function SectionNumbers(ibSection: string): (r: seq<string>)
    ensures forall k :: 0 <= k < |r| ==> DottedNumber(r[k])
  {
    NumbersFrom(ibSection, 0)
  }

  // ------------------------------------------------------------ section lookup

  /** The nested section index: top-level entries with their subsections. */
  type Hierarchy = OrderedMap<string, PdfIndexer.TopSection>

  /** The stand-in text for one page. */
  function PageStandIn(p: int): string {
    "[Content from page " + IntToString(p) + "]"
  }

  /** `_get_content_from_pages`: one stand-in text for each of the first three listed pages. */
  function PagesContent(pages: seq<int>): (r: seq<string>)
    ensures |r| == if |pages| < 3 then |pages| else 3
    ensures forall k :: 0 <= k < |r| ==> r[k] == PageStandIn(pages[k])
  {
    var shown := if |pages| < 3 then pages else pages[..3];
    seq(|shown|, k requires 0 <= k < |shown| => PageStandIn(shown[k]))
  }

  /** What `_get_section_content` returns for an entry whose pages give content. */
  function Titled(title: string, pages: seq<int>): string {
    title + "\n\n" + Join("\n\n", PagesContent(pages))
  }

  /**
   * What one top-level entry gives for `num`: its own content when it is that
   * section and has pages, else the content of its subsection `num` when that
   * has pages.
   */
  function EntryHit(key: string, top: PdfIndexer.TopSection, num: string): Option<string> {
    if key == num && top.pages != [] then Some(Titled(top.title, top.pages))
    else if num in top.subsections.values && top.subsections.values[num].pages != [] then
      Some(Titled(top.subsections.values[num].title, top.subsections.values[num].pages))
    else None
  }

  /** The top-level entry `key` has content for `num`. */
  predicate Hits(values: map<string, PdfIndexer.TopSection>, key: string, num: string) {
    key in values && EntryHit(key, values[key], num).Some?
  }

  /** The first hit among the top-level entries in order, or `""`. */
  function Lookup(keys: seq<string>, values: map<string, PdfIndexer.TopSection>, num: string): string {
    if keys == [] then ""
    else if Hits(values, keys[0], num) then EntryHit(keys[0], values[keys[0]], num).value
    else Lookup(keys[1..], values, num)
  }

  /** The lookup returns the content of the first entry that has some. */
  lemma {:induction false} LookupFirst(keys: seq<string>, values: map<string, PdfIndexer.TopSection>, num: string, i: nat)
    requires i < |keys| && Hits(values, keys[i], num)
    requires forall j :: 0 <= j < i ==> !Hits(values, keys[j], num)
    ensures Lookup(keys, values, num) == EntryHit(keys[i], values[keys[i]], num).value
  {
    if i > 0 {
      assert !Hits(values, keys[0], num);
      LookupFirst(keys[1..], values, num, i - 1);
    }
  }

  /** The lookup is empty exactly when no entry has content for the number. */
  lemma {:induction false} LookupEmpty(keys: seq<string>, values: map<string, PdfIndexer.TopSection>, num: string)
    ensures Lookup(keys, values, num) == "" <==> forall j :: 0 <= j < |keys| ==> !Hits(values, keys[j], num)
  {
    if keys != [] {
      LookupEmpty(keys[1..], values, num);
      if Hits(values, keys[0], num) {
        assert |EntryHit(keys[0], values[keys[0]], num).value| >= 2;
      } else {
        assert forall j :: 0 < j < |keys| ==> keys[j] == keys[1..][j - 1];
      }
    }
  }

  // -------------------------------------------------------------- cleaning text

  /** No whitespace but plain spaces. */
  predicate PlainSpacesOnly(s: string) {
    forall k :: 0 <= k < |s| ==> s[k] == ' ' || !IsSpace(s[k])
  }

  /** `re.sub(r'\s+', ' ', s)`: each run of whitespace becomes one space. */
  function CollapseSpace(s: string): (r: string)
    ensures PlainSpacesOnly(r)
    ensures r == [] <==> s == []
    ensures r != [] ==> (r[0] == ' ' <==> IsSpace(s[0]))
    ensures forall k :: 0 <= k < |r| - 1 ==> !(r[k] == ' ' && r[k + 1] == ' ')
    decreases |s|
  {
    if s == [] then []
    else if IsSpace(s[0]) then
      var n := SpaceRun(s, 0);
      SpaceRunEnd(s, 0);
      " " + CollapseSpace(s[n..])
    else [s[0]] + CollapseSpace(s[1..])
  }

  /** A run of whitespace stops at the end or before a character that is no whitespace. */
  lemma {:induction false} SpaceRunEnd(s: string, i: nat)
    requires i <= |s|
    ensures i + SpaceRun(s, i) == |s| || !IsSpace(s[i + SpaceRun(s, i)])
    decreases |s| - i
  {
    if i < |s| && IsSpace(s[i]) {
      SpaceRunEnd(s, i + 1);
    }
  }

  /** The length of a match of `Page \d+ of \d+` at index `i`, or 0. */
  function PageMarkAt(s: string, i: nat): (n: nat)
    requires i <= |s|
    ensures i + n <= |s|
  {
    if OccursAt(s, "Page ", i) then
      var a := DigitRun(s, i + 5);
      if a > 0 && OccursAt(s, " of ", i + 5 + a) then
        var b := DigitRun(s, i + 9 + a);
        if b > 0 then 9 + a + b else 0
      else 0
    else 0
  }

  /** `re.sub(r'Page \d+ of \d+', '', s)` from index `i`: each mark, left to right, is deleted. */
  function DropPageMarks(s: string, i: nat): (r: string)
    requires i <= |s|
    ensures |r| <= |s| - i
    ensures (forall k :: i <= k < |s| ==> s[k] == ' ' || !IsSpace(s[k])) ==> PlainSpacesOnly(r)
    decreases |s| - i
  {
    if i == |s| then []
    else
      var n := PageMarkAt(s, i);
      if n > 0 then DropPageMarks(s, i + n) else [s[i]] + DropPageMarks(s, i + 1)
  }

  /** Stripping keeps a piece of the input, so it keeps its only whitespace plain spaces. */
  lemma StripPlainSpacesOnly(s: string)
    requires PlainSpacesOnly(s)
    ensures PlainSpacesOnly(Strip(s, Whitespace))
  {
    var t := TrimStart(s, Whitespace);
    var r := TrimEnd(t, Whitespace);
    var a := |s| - |t|;
    assert r == s[a..a + |r|];
    forall k | 0 <= k < |r| ensures r[k] == ' ' || !IsSpace(r[k]) {
      assert r[k] == s[a + k];
    }
  }

  /**
   * `_clean_text`: each whitespace run becomes one space, the page marks go
   * (which can leave two spaces side by side), and the ends are stripped.
   */
  function CleanText(s: string): (r: string)
    ensures s == "" ==> r == ""
    ensures PlainSpacesOnly(r)
    ensures r == [] || (r[0] != ' ' && r[|r| - 1] != ' ')
  {
    if s == "" then ""
    else
      var t := DropPageMarks(CollapseSpace(s), 0);
      StripPlainSpacesOnly(t);
      Strip(t, Whitespace)
  }

  // ------------------------------------------------------------- mapping entries

  /** One entry of the mapping as the matcher reads it; a key may be missing. */
  datatype MappingInfo = MappingInfo(
    mappingType: Option<string>,
    ibSection: Option<string>,
    ibPages: Option<seq<int>>,
    notes: Option<string>,
    fieldDescription: Option<string>)

  /** The entry the mapping parser stores for a record: every key is present. */
  function InfoOf(fm: MappingParser.FieldMapping): (r: MappingInfo)
    ensures r.mappingType == Some(MappingParser.StrategyName(fm.strategy))
    ensures r.ibSection.Some? && r.ibPages.Some? && r.notes.Some? && r.fieldDescription.Some?
  {
    MappingInfo(Some(MappingParser.StrategyName(fm.strategy)), Some(fm.section), Some(fm.pages), Some(fm.notes), Some(fm.description))
  }

  /** `str(KeyError(key))`: the key in single quotes. */
  function KeyMessage(key: string): string {
    "'" + key + "'"
  }

  /** `d.get(key, default)` for an optional value. */
  function GetOr(v: Option<string>, default: string): string {
    if v.Some? then v.value else default
  }

  // -------------------------------------------------------------- direct extraction

  const NotFound := "[Content not found in IB]"

  /** The non-empty section contents of the numbers, in order. */
  function SectionTexts(index: Hierarchy, numbers: seq<string>): (r: seq<string>)
    ensures |r| <= |numbers|
    ensures forall k :: 0 <= k < |r| ==> r[k] != ""
  {
    if numbers == [] then []
    else
      var c := Lookup(index.keys, index.values, numbers[|numbers| - 1]);
      SectionTexts(index, numbers[..|numbers| - 1]) + (if c != "" then [c] else [])
  }

  /** The page stand-ins are used only when no section gave content and the entry lists pages. */
  function WithFallback(parts: seq<string>, pages: seq<int>): seq<string> {
    if parts == [] && pages != [] then PagesContent(pages) else parts
  }

  /**
   * `direct_extract`: the cleaned join of the section contents, else of the
   * page stand-ins, else the not-found text; a missing key is an error.
   */
  function DirectResult(index: Hierarchy, info: MappingInfo): (r: Result<string, string>)
    ensures r.Err? <==> info.ibSection.None? || info.ibPages.None?
    ensures r.Ok? ==> PlainSpacesOnly(r.value)
  {
    if info.ibSection.None? then Err(KeyMessage("ib_section"))
    else if info.ibPages.None? then Err(KeyMessage("ib_pages"))
    else
      var sources := WithFallback(SectionTexts(index, SectionNumbers(info.ibSection.value)), info.ibPages.value);
      if sources != [] then Ok(CleanText(Join("\n\n", sources))) else Ok(NotFound)
  }

  /** Nothing found in the sections and no pages listed: the not-found text; otherwise cleaned content. */
  lemma DirectNotFound(index: Hierarchy, info: MappingInfo)
    requires info.ibSection.Some? && info.ibPages.Some?
    ensures SectionTexts(index, SectionNumbers(info.ibSection.value)) == [] && info.ibPages.value == [] ==>
      DirectResult(index, info) == Ok(NotFound)
    ensures SectionTexts(index, SectionNumbers(info.ibSection.value)) != [] ==>
      DirectResult(index, info) == Ok(CleanText(Join("\n\n", SectionTexts(index, SectionNumbers(info.ibSection.value)))))
    ensures SectionTexts(index, SectionNumbers(info.ibSection.value)) == [] && info.ibPages.value != [] ==>
      DirectResult(index, info) == Ok(CleanText(Join("\n\n", PagesContent(info.ibPages.value))))
  {
  }

  /**
   * The not-found text comes out exactly when no section gave content and the
   * entry lists no pages: every other source ends in a page stand-in, whose
   * closing `<digit>]` survives the cleaning, while the not-found text ends in `B]`.
   */
  lemma DirectNotFoundExactly(index: Hierarchy, info: MappingInfo)
    requires info.ibSection.Some? && info.ibPages.Some?
    ensures DirectResult(index, info) == Ok(NotFound) <==>
      SectionTexts(index, SectionNumbers(info.ibSection.value)) == [] && info.ibPages.value == []
  {
    var texts := SectionTexts(index, SectionNumbers(info.ibSection.value));
    var sources := WithFallback(texts, info.ibPages.value);
    if sources != [] {
      SectionTextsEnd(index, SectionNumbers(info.ibSection.value));
      LastSourceEndsInStandIn(texts, info.ibPages.value);
      CleanJoinEndsInPageNumber(sources);
      assert NotFound[|NotFound| - 2] == 'B';
    }
  }

  /** Every source `direct_extract` may join ends in a page stand-in, when every section text does. */
  lemma LastSourceEndsInStandIn(texts: seq<string>, pages: seq<int>)
    requires forall k :: 0 <= k < |texts| ==> EndsInStandIn(texts[k])
    requires WithFallback(texts, pages) != []
    ensures EndsInStandIn(WithFallback(texts, pages)[|WithFallback(texts, pages)| - 1])
  {
    if texts != [] {
      assert WithFallback(texts, pages) == texts;
      assert EndsInStandIn(texts[|texts| - 1]);
    } else {
      var ps := PagesContent(pages);
      assert WithFallback(texts, pages) == ps;
      assert ps[|ps| - 1] == "" + PageStandIn(pages[|ps| - 1]);
    }
  }


  /** Joining sources whose last one ends in a page stand-in and cleaning the join leaves a closing digit and `]`. */
  lemma CleanJoinEndsInPageNumber(sources: seq<string>)
    requires sources != [] && EndsInStandIn(sources[|sources| - 1])
    ensures EndsInPageNumber(CleanText(Join("\n\n", sources)))
  {
    JoinEndsInStandIn("\n\n", sources);
    CleanEndsInStandIn(Join("\n\n", sources));
  }

  /** A join ends in a page stand-in when its last part does. */
  lemma JoinEndsInStandIn(sep: string, parts: seq<string>)
    requires parts != [] && EndsInStandIn(parts[|parts| - 1])
    ensures EndsInStandIn(Join(sep, parts))
  {
    var j := Join(sep, parts);
    var last := parts[|parts| - 1];
    JoinLast(sep, parts);
    var y, p :| last == y + PageStandIn(p);
    SuffixSplit(j, last, y, PageStandIn(p));
  }

  /** Cleaning a text that ends in a page stand-in leaves a closing digit and `]`. */
  lemma CleanEndsInStandIn(s: string)
    requires EndsInStandIn(s)
    ensures EndsInPageNumber(CleanText(s))
  {
    var x, p :| s == x + PageStandIn(p);
    CleanEndsInPageNumber(s, x, p);
  }

  /** A text ending in `y + tail` is what precedes that ending, then `y`, then `tail`. */
  lemma SuffixSplit(j: string, last: string, y: string, tail: string)
    requires |last| <= |j| && j[|j| - |last|..] == last && last == y + tail
    ensures j == (j[..|j| - |last|] + y) + tail
  {
    assert j == j[..|j| - |last|] + last;
  }

  /** The text closes with a digit and `]`, as a page stand-in does. */
  predicate EndsInPageNumber(s: string) {
    |s| >= 2 && s[|s| - 1] == ']' && IsDigit(s[|s| - 2])
  }

  /** No two spaces side by side. */
  predicate NoSpacePair(t: string) {
    forall k :: 0 <= k < |t| - 1 ==> !(t[k] == ' ' && t[k + 1] == ' ')
  }

  /** No `P`, so no page mark can start in the text. */
  predicate NoCapitalP(t: string) {
    forall k :: 0 <= k < |t| ==> t[k] != 'P'
  }

  /** The text ends in some page stand-in. */
  ghost predicate EndsInStandIn(s: string) {
    exists x, p :: s == x + PageStandIn(p)
  }

  /** A page stand-in opens with `[`, holds no `P` and no whitespace but single spaces, and ends in a digit and `]`. */
  lemma StandInShape(p: int)
    ensures var t := PageStandIn(p);
      t != [] && t[0] == '[' && NoCapitalP(t) && PlainSpacesOnly(t) && NoSpacePair(t) && EndsInPageNumber(t)
  {
    var d := IntToString(p);
    var m := NatToString(if p < 0 then -p else p);
    assert d == (if p < 0 then "-" + m else m);
    assert forall k :: 0 <= k < |d| ==> IsDigit(d[k]) || d[k] == '-';
    assert PageStandIn(p) == "[Content from page " + d + "]";
    assert IsDigit(d[|d| - 1]);
  }

  /** Collapsing whitespace leaves text with single plain spaces as it is. */
  lemma {:induction false} CollapseKeeps(t: string)
    requires PlainSpacesOnly(t) && NoSpacePair(t)
    ensures CollapseSpace(t) == t
    decreases |t|
  {
    if t != [] {
      if IsSpace(t[0]) {
        assert SpaceRun(t, 1) == 0 by {
          if 1 < |t| { assert !IsSpace(t[1]); }
        }
        assert SpaceRun(t, 0) == 1;
        CollapseKeeps(t[1..]);
        assert t == " " + t[1..];
      } else {
        CollapseKeeps(t[1..]);
        assert t == [t[0]] + t[1..];
      }
    }
  }

  lemma {:induction false} SpaceRunAppend(a: string, t: string, i: nat)
    requires i <= |a| && t != [] && !IsSpace(t[0])
    ensures SpaceRun(a + t, i) == SpaceRun(a, i)
    decreases |a| - i
  {
    if i < |a| && IsSpace(a[i]) {
      SpaceRunAppend(a, t, i + 1);
    }
  }

  /** A tail that starts with no whitespace and is already collapsed passes through `re.sub(r'\s+', ' ', …)`. */
  lemma {:induction false} CollapseAppend(a: string, t: string)
    requires t != [] && !IsSpace(t[0]) && PlainSpacesOnly(t) && NoSpacePair(t)
    ensures CollapseSpace(a + t) == CollapseSpace(a) + t
    decreases |a|
  {
    if a == [] {
      assert a + t == t;
      CollapseKeeps(t);
    } else if IsSpace(a[0]) {
      SpaceRunAppend(a, t, 0);
      var n := SpaceRun(a, 0);
      CollapseAppend(a[n..], t);
      CollapseRunStep(a, t, n);
    } else {
      CollapseAppend(a[1..], t);
      CollapseCharStep(a, t);
    }
  }

  /** One step of `re.sub(r'\s+', ' ', …)`: a leading run becomes one space, any other first character is kept. */
  lemma CollapseStep(s: string)
    requires s != []
    ensures IsSpace(s[0]) ==> CollapseSpace(s) == " " + CollapseSpace(s[SpaceRun(s, 0)..])
    ensures !IsSpace(s[0]) ==> CollapseSpace(s) == [s[0]] + CollapseSpace(s[1..])
  {
  }

  lemma PrefixAssoc(x: string, y: string, t: string)
    ensures (x + y) + t == x + (y + t)
  {
  }

  /** A leading run of whitespace becomes one space, whatever follows the text. */
  lemma CollapseRunStep(a: string, t: string, n: nat)
    requires a != [] && IsSpace(a[0]) && n == SpaceRun(a, 0) == SpaceRun(a + t, 0)
    requires CollapseSpace(a[n..] + t) == CollapseSpace(a[n..]) + t
    ensures CollapseSpace(a + t) == CollapseSpace(a) + t
  {
    var s := a + t;
    assert s[0] == a[0];
    assert s[n..] == a[n..] + t;
    CollapseStep(s);
    CollapseStep(a);
    PrefixAssoc(" ", CollapseSpace(a[n..]), t);
  }

  /** A leading character that is no whitespace is kept, whatever follows the text. */
  lemma CollapseCharStep(a: string, t: string)
    requires a != [] && !IsSpace(a[0])
    requires CollapseSpace(a[1..] + t) == CollapseSpace(a[1..]) + t
    ensures CollapseSpace(a + t) == CollapseSpace(a) + t
  {
    var s := a + t;
    assert s[0] == a[0];
    assert s[1..] == a[1..] + t;
    CollapseStep(s);
    CollapseStep(a);
    PrefixAssoc([a[0]], CollapseSpace(a[1..]), t);
  }

  lemma {:induction false} DigitRunAppend(a: string, t: string, i: nat)
    requires i <= |a| && t != [] && !IsDigit(t[0])
    ensures DigitRun(a + t, i) == DigitRun(a, i)
    decreases |a| - i
  {
    if i < |a| && IsDigit(a[i]) {
      DigitRunAppend(a, t, i + 1);
    }
  }

  /** A page mark that starts inside `a` cannot run into a tail opening with `[`. */
  lemma PageMarkAppend(a: string, t: string, i: nat)
    requires i <= |a| && t != [] && t[0] == '['
    ensures PageMarkAt(a + t, i) == PageMarkAt(a, i)
  {
    var s := a + t;
    if OccursAt(s, "Page ", i) {
      OccursInHead(a, t, "Page ", i);
      DigitRunAppend(a, t, i + 5);
      var q := i + 5 + DigitRun(a, i + 5);
      if OccursAt(s, " of ", q) {
        OccursInHead(a, t, " of ", q);
        DigitRunAppend(a, t, q + 4);
      }
    }
  }

  /** A pattern without `[` that occurs from inside `a` ends inside `a` when the tail opens with `[`. */
  lemma OccursInHead(a: string, t: string, sub: string, i: nat)
    requires i <= |a| && t != [] && t[0] == '[' && '[' !in sub
    requires OccursAt(a + t, sub, i)
    ensures OccursAt(a, sub, i)
  {
    var s := a + t;
    assert s[|a|] == '[';
    forall k | i <= k < i + |sub| ensures s[k] == sub[k - i] {
      assert s[i..i + |sub|][k - i] == s[k];
    }
    assert s[i..i + |sub|] == a[i..i + |sub|];
  }

  /** Text without a `P` holds no page mark to drop. */
  lemma {:induction false} DropNoMarks(s: string, j: nat)
    requires j <= |s| && NoCapitalP(s[j..])
    ensures DropPageMarks(s, j) == s[j..]
    decreases |s| - j
  {
    if j < |s| {
      assert s[j] == s[j..][0];
      assert PageMarkAt(s, j) == 0;
      assert s[j + 1..] == s[j..][1..];
      DropNoMarks(s, j + 1);
    }
  }

  /** A tail opening with `[` and holding no `P` passes through `re.sub(r'Page \d+ of \d+', '', …)`. */
  lemma {:induction false} DropAppend(a: string, t: string, i: nat)
    requires i <= |a| && t != [] && t[0] == '[' && NoCapitalP(t)
    ensures DropPageMarks(a + t, i) == DropPageMarks(a, i) + t
    decreases |a| - i
  {
    var s := a + t;
    if i == |a| {
      DropTail(a, t);
    } else {
      PageMarkAppend(a, t, i);
      var n := PageMarkAt(a, i);
      if n > 0 {
        assert i + n <= |a|;
        DropAppend(a, t, i + n);
        assert PageMarkAt(s, i) == n;
        assert DropPageMarks(s, i + n) == DropPageMarks(a, i + n) + t;
        DropSkip(s, a, t, i, n);
      } else {
        DropAppend(a, t, i + 1);
        assert s[i] == a[i];
        DropKeep(s, a, t, i);
      }
    }
  }

  /** One step of the left-to-right scan: skip a mark, or keep one character. */
  lemma DropStep(s: string, i: nat)
    requires i < |s|
    ensures PageMarkAt(s, i) > 0 ==> DropPageMarks(s, i) == DropPageMarks(s, i + PageMarkAt(s, i))
    ensures PageMarkAt(s, i) == 0 ==> DropPageMarks(s, i) == [s[i]] + DropPageMarks(s, i + 1)
  {
  }

  /** When `s` and `u` have the same mark at `i`, skipping it carries an appended tail along. */
  lemma DropSkip(s: string, u: string, t: string, i: nat, n: nat)
    requires i + n <= |u| && i + n <= |s| && n > 0
    requires PageMarkAt(s, i) == n && PageMarkAt(u, i) == n
    requires DropPageMarks(s, i + n) == DropPageMarks(u, i + n) + t
    ensures DropPageMarks(s, i) == DropPageMarks(u, i) + t
  {
    MarkSkipped(s, i, n);
    MarkSkipped(u, i, n);
  }

  /** A page mark of length `n` at `i` is dropped whole. */
  lemma MarkSkipped(s: string, i: nat, n: nat)
    requires i + n <= |s| && n > 0 && PageMarkAt(s, i) == n
    ensures DropPageMarks(s, i) == DropPageMarks(s, i + n)
  {
  }

  /** When neither `s` nor `u` has a mark at `i` and both hold the same character there, keeping it carries an appended tail along. */
  lemma DropKeep(s: string, u: string, t: string, i: nat)
    requires i < |u| && i < |s| && s[i] == u[i]
    requires PageMarkAt(s, i) == 0 && PageMarkAt(u, i) == 0
    requires DropPageMarks(s, i + 1) == DropPageMarks(u, i + 1) + t
    ensures DropPageMarks(s, i) == DropPageMarks(u, i) + t
  {
    DropStep(s, i);
    DropStep(u, i);
    PrefixAssoc([u[i]], DropPageMarks(u, i + 1), t);
  }

  lemma DropTail(a: string, t: string)
    requires NoCapitalP(t)
    ensures DropPageMarks(a + t, |a|) == DropPageMarks(a, |a|) + t
  {
    assert (a + t)[|a|..] == t;
    DropNoMarks(a + t, |a|);
  }

  /** Leading whitespace goes, but a closing digit and `]` stay. */
  lemma {:induction false} TrimStartKeepsPageNumber(s: string)
    requires EndsInPageNumber(s)
    ensures EndsInPageNumber(TrimStart(s, Whitespace))
    decreases |s|
  {
    if IsSpace(s[0]) {
      assert s[0] != ']' && !IsDigit(s[0]);
      TrimStartKeepsPageNumber(s[1..]);
    }
  }

  /** Stripping keeps a closing digit and `]`. */
  lemma StripKeepsPageNumber(s: string)
    requires EndsInPageNumber(s)
    ensures EndsInPageNumber(Strip(s, Whitespace))
  {
    TrimStartKeepsPageNumber(s);
    TrimEndKeeps(TrimStart(s, Whitespace));
  }

  /** Trailing whitespace goes, so a text ending in `]` keeps its end. */
  lemma TrimEndKeeps(r: string)
    requires r != [] && r[|r| - 1] == ']'
    ensures TrimEnd(r, Whitespace) == r
  {
  }

  /** A text ends in a digit and `]` when its tail does. */
  lemma EndsInPageNumberAppend(z: string, t: string)
    requires EndsInPageNumber(t)
    ensures EndsInPageNumber(z + t)
  {
    var s := z + t;
    assert s[|s| - 1] == t[|t| - 1] && s[|s| - 2] == t[|t| - 2];
  }


  /** Cleaning text that ends in a page stand-in leaves it ending in a digit and `]`. */
  lemma CleanEndsInPageNumber(s: string, x: string, p: int)
    requires s == x + PageStandIn(p)
    ensures EndsInPageNumber(CleanText(s))
  {
    var t := PageStandIn(p);
    StandInShape(p);
    CollapseAppend(x, t);
    DropAppend(CollapseSpace(x), t, 0);
    EndsInPageNumberAppend(DropPageMarks(CollapseSpace(x), 0), t);
    StripKeepsPageNumber(DropPageMarks(CollapseSpace(x), 0) + t);
  }

  lemma PagesEndInStandIn(pages: seq<int>)
    requires pages != []
    ensures EndsInStandIn(Join("\n\n", PagesContent(pages)))
  {
    var ps := PagesContent(pages);
    assert ps[|ps| - 1] == "" + PageStandIn(pages[|ps| - 1]);
    JoinEndsInStandIn("\n\n", ps);
  }

  lemma TitledEndsInStandIn(title: string, pages: seq<int>)
    requires pages != []
    ensures EndsInStandIn(Titled(title, pages))
  {
    PagesEndInStandIn(pages);
    StandInPrefix(title + "\n\n", Join("\n\n", PagesContent(pages)));
  }

  /** Text put before a page stand-in ending leaves it ending there. */
  lemma StandInPrefix(w: string, j: string)
    requires EndsInStandIn(j)
    ensures EndsInStandIn(w + j)
  {
    var x, p :| j == x + PageStandIn(p);
    PrefixAssoc(w, x, PageStandIn(p));
  }


  /** Whatever a section lookup finds ends in a page stand-in. */
  lemma {:induction false} LookupEndsInStandIn(keys: seq<string>, values: map<string, PdfIndexer.TopSection>, num: string)
    requires Lookup(keys, values, num) != ""
    ensures EndsInStandIn(Lookup(keys, values, num))
    decreases |keys|
  {
    if keys != [] {
      if Hits(values, keys[0], num) {
        var top := values[keys[0]];
        if keys[0] == num && top.pages != [] {
          TitledEndsInStandIn(top.title, top.pages);
        } else {
          TitledEndsInStandIn(top.subsections.values[num].title, top.subsections.values[num].pages);
        }
      } else {
        LookupEndsInStandIn(keys[1..], values, num);
      }
    }
  }

  lemma {:induction false} SectionTextsEnd(index: Hierarchy, numbers: seq<string>)
    ensures forall k :: 0 <= k < |SectionTexts(index, numbers)| ==> EndsInStandIn(SectionTexts(index, numbers)[k])
    decreases |numbers|
  {
    if numbers != [] {
      SectionTextsEnd(index, numbers[..|numbers| - 1]);
      var c := Lookup(index.keys, index.values, numbers[|numbers| - 1]);
      if c != "" {
        LookupEndsInStandIn(index.keys, index.values, numbers[|numbers| - 1]);
      }
    }
  }

  // ------------------------------------------------------------- synthesis

  /** The completion service: absent without an API key, else a call that answers or fails with a message. */
  datatype Gateway = NoClient | Client(complete: string -> Result<string, string>)

  const Skipped := "[AI extraction skipped - no API key provided]"
  const NoSource := "[No source content found in IB for AI extraction]"
  const SourceLimit := 10000
  const TruncationNote := "\n\n[Content truncated...]"
  const RawShown := 500

  /** The non-empty section contents of the numbers, each under a `### Section` heading, in order. */
  function SectionBlocks(index: Hierarchy, numbers: seq<string>): (r: seq<string>)
    ensures |r| <= |numbers|
  {
    if numbers == [] then []
    else
      var num := numbers[|numbers| - 1];
      var c := Lookup(index.keys, index.values, num);
      SectionBlocks(index, numbers[..|numbers| - 1]) + (if c != "" then ["### Section " + num + "\n" + c] else [])
  }

  /** The source text sent for synthesis: at most the first 10000 characters, with a note when cut. */
  function Truncated(s: string): (r: string)
    ensures |s| <= SourceLimit ==> r == s
    ensures |s| > SourceLimit ==> |r| == SourceLimit + |TruncationNote| && r[..SourceLimit] == s[..SourceLimit]
  {
    if |s| > SourceLimit then s[..SourceLimit] + TruncationNote else s
  }

  const PromptOpening :=
    "You are preparing a Drug Safety Report (DSR) for pralsetinib (GAVRETO, RO7499790).\n\n"
    + "Your task: Extract and synthesize content for the DSR field: "

  const PromptInstructions :=
    "Instructions:\n"
    + "1. Extract relevant information from the IB sections above\n"
    + "2. Synthesize into cohesive, well-written content appropriate for a DSR\n"
    + "3. Use formal medical/scientific writing style\n"
    + "4. Be concise but comprehensive\n"
    + "5. Do not include reference citations (we'll add those separately)\n"
    + "6. Do not use placeholder text or phrases like \"based on the IB\"\n"
    + "7. If the IB content is insufficient, note what specific information is missing\n"
    + "8. Present the information in a clear, professional manner suitable for regulatory submission\n\n"
    + "Output the extracted/synthesized content only, with no preamble or explanation."

  /** The text before the source content in a prompt. */
  function PromptHead(field: string, purpose: string, context: string): string {
    PromptOpening + field + "\nField purpose: " + purpose + "\n\nAdditional context: " + context
    + "\n\nSource content from Investigator Brochure:\n"
  }

  /** `b` occurs in `a + b + c` right after `a`. */
  lemma ConcatOccurs(a: string, b: string, c: string)
    ensures OccursAt(a + b + c, b, |a|)
  {
    assert (a + b + c)[|a|..|a| + |b|] == b;
  }

  /** An occurrence stays where it is when text is appended. */
  lemma OccursExtended(x: string, y: string, sub: string, i: nat)
    requires OccursAt(x, sub, i)
    ensures OccursAt(x + y, sub, i)
  {
    assert (x + y)[i..i + |sub|] == x[i..i + |sub|];
  }

  /** `_create_extraction_prompt`: the source content sits in the prompt right after its head. */
  function Prompt(field: string, purpose: string, content: string, context: string): (r: string)
    ensures OccursAt(r, content, |PromptHead(field, purpose, context)|)
  {
    var head := PromptHead(field, purpose, context);
    var tail := "\n\n" + PromptInstructions;
    ConcatOccurs(head, content, tail);
    head + content + tail
  }

  /** The text returned when the service fails: the message and the start of the source. */
  function FailureText(msg: string, source: string): string {
    "[AI extraction failed: " + msg + "]\n\nRaw content:\n" + source[..if |source| < RawShown then |source| else RawShown] + "..."
  }

  /**
   * `ai_extract`: without a client, the skipped text before any lookup; else
   * the stripped answer of the service for a prompt over the section blocks
   * (or the page stand-ins), or the failure text; with no source at all, the
   * no-source text.
   */
  function AiResult(gw: Gateway, index: Hierarchy, field: string, info: MappingInfo): (r: Result<string, string>)
    ensures gw.NoClient? ==> r == Ok(Skipped)
    ensures r.Err? <==> gw.Client? && (info.ibSection.None? || info.ibPages.None?)
  {
    if gw.NoClient? then Ok(Skipped)
    else if info.ibSection.None? then Err(KeyMessage("ib_section"))
    else if info.ibPages.None? then Err(KeyMessage("ib_pages"))
    else
      var sources := WithFallback(SectionBlocks(index, SectionNumbers(info.ibSection.value)), info.ibPages.value);
      Synthesis(gw, field, GetOr(info.fieldDescription, ""), sources, GetOr(info.notes, ""))
  }

  /** The service call on the gathered sources: a failure of the service is reported in the text, not raised. */
  function Synthesis(gw: Gateway, field: string, purpose: string, sources: seq<string>, notes: string): (r: Result<string, string>)
    requires gw.Client?
    ensures r.Ok?
    ensures sources == [] ==> r == Ok(NoSource)
    ensures sources != [] ==>
      var combined := Truncated(Join("\n\n", sources));
      match gw.complete(Prompt(field, purpose, combined, notes))
      case Ok(answer) => r == Ok(Strip(answer, Whitespace))
      case Err(msg) => r == Ok(FailureText(msg, combined))
  {
    if sources == [] then Ok(NoSource)
    else
      var combined := Truncated(Join("\n\n", sources));
      match gw.complete(Prompt(field, purpose, combined, notes))
      case Ok(answer) => Ok(Strip(answer, Whitespace))
      case Err(msg) => Ok(FailureText(msg, combined))
  }

  // ------------------------------------------------------------- unavailable fields

  const DefaultNotes := "External data source required"

  const UnavailableHead := "[DATA " + "NOT AVAILABLE IN IB" + " - " + "REQUIRES:" + " "

  /** The head of the unavailable text carries both markers the report looks for. */
  lemma UnavailableHeadMarks()
    ensures OccursAt(UnavailableHead, "NOT AVAILABLE IN IB", 6)
    ensures OccursAt(UnavailableHead, "REQUIRES:", 28)
  {
    var a, b, c, d, e := "[DATA ", "NOT AVAILABLE IN IB", " - ", "REQUIRES:", " ";
    ConcatOccurs(a, b, c);
    OccursExtended(a + b + c, d, b, 6);
    OccursExtended(a + b + c + d, e, b, 6);
    ConcatOccurs(a + b + c, d, e);
  }

  /** `handle_unavailable_field`: names what the field requires; the default applies only when `notes` is missing. */
  function UnavailableText(info: MappingInfo): (r: string)
    ensures OccursAt(r, "NOT AVAILABLE IN IB", 6) && OccursAt(r, "REQUIRES:", 28)
    ensures info.notes.Some? ==> r == UnavailableHead + info.notes.value + "]"
    ensures info.notes.None? ==> r == UnavailableHead + DefaultNotes + "]"
  {
    var r := UnavailableHead + GetOr(info.notes, DefaultNotes) + "]";
    UnavailableHeadMarks();
    assert r[..|UnavailableHead|] == UnavailableHead;
    r
  }

  /** Notes that are present but empty are kept: the default is not used, and the text requires nothing. */
  lemma UnavailableEmptyNotes(info: MappingInfo)
    requires info.notes == Some("")
    ensures UnavailableText(info) == UnavailableHead + "]"
  {
    assert UnavailableHead + "" == UnavailableHead;
  }

  // ------------------------------------------------------------------- the batch

  /** The branch `match_all_fields` takes for a `mapping_type`: any other value is handled as unavailable. */
  function Kind(mappingType: string): (k: MappingParser.Strategy)
    ensures k == MappingParser.DirectExtract <==> mappingType == "direct_extract"
    ensures k == MappingParser.SynthesisRequired <==> mappingType == "synthesis_required"
  {
    if mappingType == "direct_extract" then MappingParser.DirectExtract
    else if mappingType == "synthesis_required" then MappingParser.SynthesisRequired
    else MappingParser.Unavailable
  }

  /** The parser's strategy names lead to the branch of that strategy. */
  lemma KindOfName(st: MappingParser.Strategy)
    ensures Kind(MappingParser.StrategyName(st)) == st
  {
  }

  /** What one field yields: its text, or the message of the error its handler raised. */
  function FieldResult(gw: Gateway, index: Hierarchy, field: string, kind: MappingParser.Strategy, info: MappingInfo): Result<string, string> {
    match kind
    case DirectExtract => DirectResult(index, info)
    case SynthesisRequired => AiResult(gw, index, field, info)
    case Unavailable => Ok(UnavailableText(info))
  }

  /** A field's handler, given its name and its entry. */
  type Handle = (string, MappingInfo) -> Result<string, string>

  /** The handlers of this matcher: the branch of the field's `mapping_type` (an entry without one is never handled). */
  function Handler(gw: Gateway, index: Hierarchy): Handle {
    (field: string, info: MappingInfo) =>
      if info.mappingType.Some? then FieldResult(gw, index, field, Kind(info.mappingType.value), info)
      else Err(KeyMessage("mapping_type"))
  }

  /** Every handler succeeds on an entry that has every key it reads. */
  lemma HandlerSucceeds(gw: Gateway, index: Hierarchy, field: string, info: MappingInfo)
    requires AllKeys(info)
    ensures Handler(gw, index)(field, info).Ok?
  {
  }

  /** How the text stored for a failed field starts. */
  const ErrorMark := "[ERROR"

  /** The text stored for a field: its content, or the error text. */
  function FieldContent(r: Result<string, string>): string {
    match r
    case Ok(c) => c
    case Err(msg) => ErrorMark + " EXTRACTING CONTENT: " + msg + "]"
  }

  /** The counters of `match_all_fields`; a field whose handler raised counts in none. */
  datatype Tally = Tally(direct: nat, ai: nat, unavailable: nat)

  function Count(t: Tally, kind: MappingParser.Strategy, r: Result<string, string>): Tally {
    if r.Err? then t
    else
      match kind
      case DirectExtract => t.(direct := t.direct + 1)
      case SynthesisRequired => t.(ai := t.ai + 1)
      case Unavailable => t.(unavailable := t.unavailable + 1)
  }

  /** The matched content and the counters. */
  datatype Matching = Matching(content: OrderedMap<string, string>, tally: Tally)

  predicate Listed(keys: seq<string>, values: map<string, MappingInfo>) {
    forall i :: 0 <= i < |keys| ==> keys[i] in values
  }

  /**
   * `match_all_fields` over the listed fields: each field's text stored under
   * its name; an entry without `mapping_type` aborts the whole call.
   */
  function MatchFields(handle: Handle, keys: seq<string>, values: map<string, MappingInfo>): (r: Result<Matching, string>)
    requires Listed(keys, values)
    ensures r.Ok? ==> r.value.content.Valid()
  {
    if keys == [] then Ok(Matching(Empty(), Tally(0, 0, 0)))
    else
      var init := keys[..|keys| - 1];
      var field := keys[|keys| - 1];
      match MatchFields(handle, init, values)
      case Err(e) => Err(e)
      case Ok(m) =>
        var info := values[field];
        if info.mappingType.None? then Err(KeyMessage("mapping_type"))
        else
          var kind := Kind(info.mappingType.value);
          var r := handle(field, info);
          Ok(Matching(m.content.Put(field, FieldContent(r)), Count(m.tally, kind, r)))
  }

  /** The call fails exactly when some listed entry has no `mapping_type`. */
  lemma {:induction false} MatchFieldsFails(handle: Handle, keys: seq<string>, values: map<string, MappingInfo>)
    requires Listed(keys, values)
    ensures MatchFields(handle, keys, values).Err? <==>
      exists i :: 0 <= i < |keys| && values[keys[i]].mappingType.None?
  {
    if keys != [] {
      var init := keys[..|keys| - 1];
      MatchFieldsFails(handle, init, values);
      assert forall i :: 0 <= i < |init| ==> init[i] == keys[i];
      if exists i :: 0 <= i < |keys| && values[keys[i]].mappingType.None? {
        var i :| 0 <= i < |keys| && values[keys[i]].mappingType.None?;
        if i < |init| {
          assert init[i] == keys[i];
        }
      }
    }
  }

  /** The text stored for one field. */
  function StoredText(handle: Handle, field: string, info: MappingInfo): string {
    FieldContent(handle(field, info))
  }

  /** On success the result has one entry per field, in mapping order. */
  lemma {:induction false} MatchFieldsKeys(handle: Handle, keys: seq<string>, values: map<string, MappingInfo>)
    requires Listed(keys, values) && SectionKeys.Distinct(keys)
    requires MatchFields(handle, keys, values).Ok?
    ensures MatchFields(handle, keys, values).value.content.keys == keys
  {
    if keys != [] {
      var init := keys[..|keys| - 1];
      MatchFieldsKeys(handle, init, values);
      assert keys[|keys| - 1] !in init;
    }
  }

  /** On success the last field's text is stored over what the earlier fields left. */
  lemma MatchFieldsLast(handle: Handle, keys: seq<string>, values: map<string, MappingInfo>)
    requires Listed(keys, values) && keys != []
    requires MatchFields(handle, keys, values).Ok?
    ensures var init := keys[..|keys| - 1];
      var last := keys[|keys| - 1];
      && MatchFields(handle, init, values).Ok?
      && values[last].mappingType.Some?
      && MatchFields(handle, keys, values).value.content.values
         == MatchFields(handle, init, values).value.content.values[last := StoredText(handle, last, values[last])]
  {
  }

  /** On success each field holds its own text. */
  lemma {:induction false} MatchFieldsValue(handle: Handle, keys: seq<string>, values: map<string, MappingInfo>, i: nat)
    requires Listed(keys, values) && SectionKeys.Distinct(keys) && i < |keys|
    requires MatchFields(handle, keys, values).Ok?
    ensures values[keys[i]].mappingType.Some?
    ensures keys[i] in MatchFields(handle, keys, values).value.content.values
    ensures MatchFields(handle, keys, values).value.content.values[keys[i]] == StoredText(handle, keys[i], values[keys[i]])
  {
    var init := keys[..|keys| - 1];
    MatchFieldsLast(handle, keys, values);
    if i < |keys| - 1 {
      assert init[i] == keys[i];
      MatchFieldsValue(handle, init, values, i);
    }
  }

  /** The number of fields, among those with a `mapping_type`, whose handler raised. */
  function Failures(handle: Handle, keys: seq<string>, values: map<string, MappingInfo>): nat
    requires Listed(keys, values)
  {
    if keys == [] then 0
    else
      var field := keys[|keys| - 1];
      var info := values[field];
      Failures(handle, keys[..|keys| - 1], values)
      + (if info.mappingType.Some? && handle(field, info).Err? then 1 else 0)
  }

  /** Every field is counted once: by its strategy, or as a failure. */
  lemma {:induction false} MatchFieldsTally(handle: Handle, keys: seq<string>, values: map<string, MappingInfo>)
    requires Listed(keys, values)
    requires MatchFields(handle, keys, values).Ok?
    ensures var t := MatchFields(handle, keys, values).value.tally;
      t.direct + t.ai + t.unavailable + Failures(handle, keys, values) == |keys|
  {
    if keys != [] {
      MatchFieldsTally(handle, keys[..|keys| - 1], values);
    }
  }

  /** Fields of a mapping the parser built never raise: every entry has every key, and the counters add up to the total. */
  lemma {:induction false} ParsedNeverFails(gw: Gateway, index: Hierarchy, keys: seq<string>, values: map<string, MappingInfo>)
    requires Listed(keys, values)
    requires forall i :: 0 <= i < |keys| ==> AllKeys(values[keys[i]])
    ensures MatchFields(Handler(gw, index), keys, values).Ok?
    ensures Failures(Handler(gw, index), keys, values) == 0
  {
    if keys != [] {
      var init := keys[..|keys| - 1];
      var last := keys[|keys| - 1];
      assert forall i :: 0 <= i < |init| ==> init[i] == keys[i];
      ParsedNeverFails(gw, index, init, values);
      HandlerSucceeds(gw, index, last, values[last]);
    }
  }

  /** Every key a handler reads is present. */
  predicate AllKeys(info: MappingInfo) {
    info.mappingType.Some? && info.ibSection.Some? && info.ibPages.Some?
  }

  // ------------------------------------------------------------------ validation

  /** The result of `validate_extraction`. */
  datatype Validation = Validation(field: string, isValid: bool, warnings: seq<string>)

  const EmptyWarning := "Content is empty"
  const FlagWarning := "Contains error or unavailable message"
  const ShortWarning := "Content very short"

  function LongWarning(n: nat): string {
    "Content very long (" + NatToString(n) + " chars)"
  }

  /** Once an entry without `mapping_type` is reached, the call fails with that error. */
  lemma {:induction false} MatchFieldsAbort(handle: Handle, keys: seq<string>, values: map<string, MappingInfo>, j: nat)
    requires Listed(keys, values) && j <= |keys|
    requires MatchFields(handle, keys[..j], values).Err?
    ensures MatchFields(handle, keys, values) == MatchFields(handle, keys[..j], values)
    decreases |keys| - j
  {
    if j < |keys| {
      assert keys[..j + 1][..j] == keys[..j];
      MatchFieldsAbort(handle, keys, values, j + 1);
    } else {
      assert keys[..j] == keys;
    }
  }

  /** The first field without a `mapping_type` ends the call with the missing-key error. */
  lemma MatchFieldsStops(handle: Handle, keys: seq<string>, values: map<string, MappingInfo>, i: nat)
    requires Listed(keys, values) && i < |keys| && values[keys[i]].mappingType.None?
    requires Listed(keys[..i], values) && MatchFields(handle, keys[..i], values).Ok?
    ensures MatchFields(handle, keys, values) == Err(KeyMessage("mapping_type"))
  {
    assert keys[..i + 1][..i] == keys[..i];
    MatchFieldsAbort(handle, keys, values, i + 1);
  }

  /** One more field with a `mapping_type` extends a successful result by that field. */
  lemma MatchFieldsStep(handle: Handle, keys: seq<string>, values: map<string, MappingInfo>, i: nat,
                        content: OrderedMap<string, string>, tally: Tally)
    requires Listed(keys, values) && i < |keys| && values[keys[i]].mappingType.Some?
    requires MatchFields(handle, keys[..i], values) == Ok(Matching(content, tally))
    ensures content.Valid() && Listed(keys[..i + 1], values)
    ensures var info := values[keys[i]];
      var kind := Kind(info.mappingType.value);
      var res := handle(keys[i], info);
      MatchFields(handle, keys[..i + 1], values) == Ok(Matching(content.Put(keys[i], FieldContent(res)), Count(tally, kind, res)))
  {
    assert keys[..i + 1][..i] == keys[..i];
  }

  /** `[w]` when `c` holds, else nothing. */
  function Given(c: bool, w: string): seq<string> {
    if c then [w] else []
  }

  /** The warnings `validate_extraction` gives, in the order it checks for them. */
  function Warnings(content: string): (r: seq<string>)
    ensures |r| <= 4
  {
    Given(Strip(content, Whitespace) == "", EmptyWarning)
    + Given(Contains(content, "[ERROR") || Contains(content, "[DATA NOT AVAILABLE"), FlagWarning)
    + Given(|content| > 20000, LongWarning(|content|))
    + Given(|content| < 10 && '[' !in content, ShortWarning)
  }

  /** Content is reported empty exactly when nothing is left after stripping whitespace. */
  lemma WarnsEmpty(content: string)
    ensures EmptyWarning in Warnings(content) <==> Strip(content, Whitespace) == ""
  {
    WarningsDistinct(|content|);
  }

  /** Content is flagged exactly when it holds an error or unavailable marker. */
  lemma WarnsFlagged(content: string)
    ensures FlagWarning in Warnings(content) <==> Contains(content, "[ERROR") || Contains(content, "[DATA NOT AVAILABLE")
  {
    WarningsDistinct(|content|);
  }

  /** Content is reported long, with its length, exactly when it has more than 20000 characters. */
  lemma WarnsLong(content: string)
    ensures LongWarning(|content|) in Warnings(content) <==> |content| > 20000
  {
    WarningsDistinct(|content|);
  }

  /** Content is reported short exactly when it has fewer than 10 characters and no `[`. */
  lemma WarnsShort(content: string)
    ensures ShortWarning in Warnings(content) <==> |content| < 10 && '[' !in content
  {
    WarningsDistinct(|content|);
  }

  /** The warnings are told apart by their text. */
  lemma WarningsDistinct(n: nat)
    ensures EmptyWarning != FlagWarning && EmptyWarning != ShortWarning && FlagWarning != ShortWarning
    ensures LongWarning(n) != EmptyWarning && LongWarning(n) != FlagWarning && LongWarning(n) != ShortWarning
  {
    var w := LongWarning(n);
    assert w[|w| - 1] == ')';
    assert FlagWarning[|FlagWarning| - 1] == 'e';
  }

  // ------------------------------------------------------------------ the matcher

  /** `ContentMatcher`: the nested section index, the mapping and the completion service. */
  class ContentMatcher {
    const ibIndex: Hierarchy
    const mappingDict: OrderedMap<string, MappingInfo>
    const gateway: Gateway

    /** A client exists only when a non-empty API key is given; `service` stands for it. */
    constructor(ibIndex: Hierarchy, mappingDict: OrderedMap<string, MappingInfo>, apiKey: Option<string>,
                service: string -> Result<string, string>)
      ensures this.ibIndex == ibIndex && this.mappingDict == mappingDict
      ensures gateway == if apiKey.Some? && apiKey.value != "" then Client(service) else NoClient
    {
      this.ibIndex := ibIndex;
      this.mappingDict := mappingDict;
      gateway := if apiKey.Some? && apiKey.value != "" then Client(service) else NoClient;
    }

    /** `match_all_fields`: every field in mapping order, each handler's failure stored as an error text. */
    method MatchAllFields() returns (r: Result<Matching, string>)
      requires mappingDict.Valid()
      ensures r == MatchFields(Handler(gateway, ibIndex), mappingDict.keys, mappingDict.values)
    {
      var keys, values := mappingDict.keys, mappingDict.values;
      ghost var handle := Handler(gateway, ibIndex);
      assert Listed(keys, values);
      var content: OrderedMap<string, string> := Empty();
      var tally := Tally(0, 0, 0);
      for i := 0 to |keys|
        invariant Listed(keys[..i], values)
        invariant MatchFields(handle, keys[..i], values) == Ok(Matching(content, tally))
      {
        var field := keys[i];
        var info := values[field];
        if info.mappingType.None? {
          MatchFieldsStops(handle, keys, values, i);
          return Err(KeyMessage("mapping_type"));
        }
        var kind := Kind(info.mappingType.value);
        var res := HandleField(field, kind, info);
        assert res == handle(field, info);
        MatchFieldsStep(handle, keys, values, i, content, tally);
        content := content.Put(field, FieldContent(res));
        tally := Count(tally, kind, res);
      }
      assert keys[..|keys|] == keys;
      r := Ok(Matching(content, tally));
    }

    /** The `try` block of `match_all_fields` for one field: the handler of its branch. */
    method HandleField(field: string, kind: MappingParser.Strategy, info: MappingInfo) returns (res: Result<string, string>)
      ensures res == FieldResult(gateway, ibIndex, field, kind, info)
    {
      match kind {
        case DirectExtract => res := DirectExtract(info);
        case SynthesisRequired => res := AiExtract(field, info);
        case Unavailable => res := Ok(UnavailableText(info));
      }
    }

    /** `_get_section_content`: the first top-level entry, in order, with content for the number. */
    method GetSectionContent(num: string) returns (content: string)
      ensures content == Lookup(ibIndex.keys, ibIndex.values, num)
    {
      var keys := ibIndex.keys;
      for i := 0 to |keys|
        invariant Lookup(keys, ibIndex.values, num) == Lookup(keys[i..], ibIndex.values, num)
      {
        var key := keys[i];
        assert keys[i..][0] == key && keys[i..][1..] == keys[i + 1..];
        if key in ibIndex.values {
          var top := ibIndex.values[key];
          if key == num {
            var texts := PagesContent(top.pages);
            if texts != [] {
              return top.title + "\n\n" + Join("\n\n", texts);
            }
          }
          if num in top.subsections.values {
            var sub := top.subsections.values[num];
            var texts := PagesContent(sub.pages);
            if texts != [] {
              return sub.title + "\n\n" + Join("\n\n", texts);
            }
          }
        }
      }
      return "";
    }

    /** `direct_extract`. */
    method DirectExtract(info: MappingInfo) returns (r: Result<string, string>)
      ensures r == DirectResult(ibIndex, info)
    {
      if info.ibSection.None? {
        return Err(KeyMessage("ib_section"));
      }
      if info.ibPages.None? {
        return Err(KeyMessage("ib_pages"));
      }
      var pages := info.ibPages.value;
      var parts := CollectSections(SectionNumbers(info.ibSection.value));
      if parts == [] && pages != [] {
        parts := PagesContent(pages);
      }
      if parts != [] {
        return Ok(CleanText(Join("\n\n", parts)));
      }
      return Ok(NotFound);
    }

    /** The section loop of `direct_extract`: each number's content, when it has some. */
    method CollectSections(numbers: seq<string>) returns (parts: seq<string>)
      ensures parts == SectionTexts(ibIndex, numbers)
    {
      parts := [];
      for i := 0 to |numbers|
        invariant parts == SectionTexts(ibIndex, numbers[..i])
      {
        var c := GetSectionContent(numbers[i]);
        if c != "" {
          parts := parts + [c];
        }
        assert numbers[..i + 1][..i] == numbers[..i];
      }
      assert numbers[..|numbers|] == numbers;
    }

    /** The section loop of `ai_extract`: each number's content under its heading, when it has some. */
    method CollectBlocks(numbers: seq<string>) returns (sources: seq<string>)
      ensures sources == SectionBlocks(ibIndex, numbers)
    {
      sources := [];
      for i := 0 to |numbers|
        invariant sources == SectionBlocks(ibIndex, numbers[..i])
      {
        var c := GetSectionContent(numbers[i]);
        if c != "" {
          sources := sources + ["### Section " + numbers[i] + "\n" + c];
        }
        assert numbers[..i + 1][..i] == numbers[..i];
      }
      assert numbers[..|numbers|] == numbers;
    }

    /** `ai_extract`, the service call made through the gateway. */
    method AiExtract(field: string, info: MappingInfo) returns (r: Result<string, string>)
      ensures r == AiResult(gateway, ibIndex, field, info)
    {
      if gateway.NoClient? {
        return Ok(Skipped);
      }
      if info.ibSection.None? {
        return Err(KeyMessage("ib_section"));
      }
      if info.ibPages.None? {
        return Err(KeyMessage("ib_pages"));
      }
      var pages := info.ibPages.value;
      var notes := GetOr(info.notes, "");
      var purpose := GetOr(info.fieldDescription, "");
      var sources := CollectBlocks(SectionNumbers(info.ibSection.value));
      if sources == [] && pages != [] {
        sources := PagesContent(pages);
      }
      r := Synthesize(field, purpose, sources, notes);
    }

    /** The rest of `ai_extract` once the sources are gathered: the prompt, the call, and its outcome. */
    method Synthesize(field: string, purpose: string, sources: seq<string>, notes: string) returns (r: Result<string, string>)
      requires gateway.Client?
      ensures r == Synthesis(gateway, field, purpose, sources, notes)
    {
      if sources == [] {
        return Ok(NoSource);
      }
      var combined := Join("\n\n", sources);
      if |combined| > SourceLimit {
        combined := combined[..SourceLimit] + TruncationNote;
      }
      var reply := gateway.complete(Prompt(field, purpose, combined, notes));
      match reply {
        case Ok(answer) => r := Ok(Strip(answer, Whitespace));
        case Err(msg) => r := Ok(FailureText(msg, combined));
      }
    }

    /** `validate_extraction`: blank content is invalid; each warning is given exactly when its condition holds. */
    method ValidateExtraction(field: string, content: string) returns (v: Validation)
      ensures v == Validation(field, Strip(content, Whitespace) != "", Warnings(content))
    {
      var isValid := true;
      var empty := content == "" || |Strip(content, Whitespace)| == 0;
      if empty {
        isValid := false;
      }
      var warnings := CollectWarnings(content, empty);
      v := Validation(field, isValid, warnings);
    }

    /** The warning checks of `validate_extraction`, in order; `empty` is the outcome of its first test. */
    method CollectWarnings(content: string, empty: bool) returns (warnings: seq<string>)
      requires empty == (Strip(content, Whitespace) == "")
      ensures warnings == Warnings(content)
    {
      warnings := [];
      if empty {
        warnings := warnings + [EmptyWarning];
      }
      assert warnings == Given(empty, EmptyWarning);
      var flagged := Contains(content, "[ERROR") || Contains(content, "[DATA NOT AVAILABLE");
      if flagged {
        warnings := warnings + [FlagWarning];
      }
      assert warnings == Given(empty, EmptyWarning) + Given(flagged, FlagWarning);
      var long := |content| > 20000;
      if long {
        warnings := warnings + [LongWarning(|content|)];
      }
      assert warnings == Given(empty, EmptyWarning) + Given(flagged, FlagWarning) + Given(long, LongWarning(|content|));
      var short := |content| < 10 && '[' !in content;
      if short {
        warnings := warnings + [ShortWarning];
      }
    }
  }
}
