/**
 * The Investigator Brochure indexer. Section headings found in the page texts
 * build a flat section map (the first title seen for a number wins, pages are
 * listed once each); that map is then nested into top-level sections with
 * their subsections, visiting the numbers in numeric order.
 */
module PdfIndexer {
  import opened Text
  import opened Wrappers
  import opened OrderedMaps
  import opened SectionKeys

  /** One page of extracted text and its page number. */
  datatype Page = Page(num: int, text: string)

  // ------------------------------------------------------- the heading pattern
  // `^(\d+(?:\.\d+)*\.?)\s+([A-Z][A-Z\s,\-\(\)]+)` in multi-line mode.

  predicate IsTitleChar(c: char) {
    ('A' <= c <= 'Z') || IsSpace(c) || c == ',' || c == '-' || c == '(' || c == ')'
  }

  /** The length of the run of title characters that starts at index `i`. */
  function TitleRun(s: string, i: nat): (n: nat)
    requires i <= |s|
    ensures i + n <= |s|
    decreases |s| - i
  {
    if i < |s| && IsTitleChar(s[i]) then 1 + TitleRun(s, i + 1) else 0
  }

  /** Where `(?:\.\d+)*` matched greedily from `i` ends. */
  function DottedTail(s: string, i: nat): (e: nat)
    requires i <= |s|
    ensures i <= e <= |s|
    decreases |s| - i
  {
    if i + 1 < |s| && s[i] == '.' && IsDigit(s[i + 1]) then DottedTail(s, i + 1 + DigitRun(s, i + 1)) else i
  }

  /** One match of the heading pattern: group 1, group 2 and the index where the match ends. */
  datatype Heading = Heading(number: string, title: string, end: nat)

  /**
   * The match of the heading pattern at index `p`, if any. The number is the
   * whole run of digit groups (with one trailing dot when present), which must
   * be followed by whitespace; the title is the longest run of title
   * characters after it, starting with a capital and at least two long.
   */
  function HeadingAt(s: string, p: nat): (r: Option<Heading>)
    requires p <= |s|
    ensures r.Some? ==> p < r.value.end <= |s|
    ensures r.Some? ==> |r.value.number| > 0 && IsDigit(r.value.number[0])
    ensures r.Some? ==> |r.value.title| >= 2 && 'A' <= r.value.title[0] <= 'Z'
  {
    var d := DigitRun(s, p);
    if d == 0 then None
    else
      var t := DottedTail(s, p + d);
      var g := if t < |s| && s[t] == '.' then t + 1 else t;
      var w := SpaceRun(s, g);
      var c := g + w;
      if w == 0 || c == |s| || !('A' <= s[c] <= 'Z') then None
      else
        var n := TitleRun(s, c + 1);
        if n == 0 then None else Some(Heading(s[p..g], s[c..c + 1 + n], c + 1 + n))
  }

  /**
   * The title class admits only capitals, whitespace and `,-()`, so a title
   * whose second letter is lower case is no heading.
   */
  lemma MixedCaseNoHeading()
    ensures HeadingAt("1.1 Scientific Rationale", 0) == None
  {
    var a := "1.1 Scientific Rationale";
    assert DigitRun(a, 0) == 1 && DigitRun(a, 2) == 1;
    assert DottedTail(a, 3) == 3 && DottedTail(a, 1) == 3;
    assert SpaceRun(a, 4) == 0 && SpaceRun(a, 3) == 1;
    assert TitleRun(a, 5) == 0;
  }

  /** A deep section number with a mixed-case title is no heading either. */
  lemma DeepMixedCaseNoHeading()
    ensures HeadingAt("5.5.1.2.4 Deaths", 0) == None
  {
    var b := "5.5.1.2.4 Deaths";
    assert DigitRun(b, 0) == 1 && DigitRun(b, 2) == 1 && DigitRun(b, 4) == 1 && DigitRun(b, 6) == 1 && DigitRun(b, 8) == 1;
    assert DottedTail(b, 9) == 9 && DottedTail(b, 7) == 9 && DottedTail(b, 5) == 9;
    assert DottedTail(b, 3) == 9 && DottedTail(b, 1) == 9;
    assert SpaceRun(b, 10) == 0 && SpaceRun(b, 9) == 1;
    assert TitleRun(b, 11) == 0;
  }

  /** An upper-case title is a heading, and the number keeps its trailing dot until `rstrip`. */
  lemma UpperCaseHeading()
    ensures HeadingAt("1. SUMMARY", 0) == Some(Heading("1.", "SUMMARY", 10))
  {
    var c := "1. SUMMARY";
    assert DigitRun(c, 0) == 1 && DottedTail(c, 1) == 1 && SpaceRun(c, 2) == 1;
    assert TitleRun(c, 10) == 0 && TitleRun(c, 9) == 1 && TitleRun(c, 8) == 2;
    assert TitleRun(c, 7) == 3 && TitleRun(c, 6) == 4 && TitleRun(c, 5) == 5 && TitleRun(c, 4) == 6;
    assert c[0..2] == "1." && c[3..10] == "SUMMARY";
  }

  /** `^` in multi-line mode: the start of the text or of a line. */
  predicate AtLineStart(s: string, p: nat)
    requires p <= |s|
  {
    p == 0 || s[p - 1] == '\n'
  }

  /** `section_pattern.finditer(text)` from index `p`: each match, the search resuming where it ended. */
  function HeadingsFrom(s: string, p: nat): (r: seq<Heading>)
    requires p <= |s|
    ensures forall k :: 0 <= k < |r| ==> |r[k].number| > 0 && IsDigit(r[k].number[0])
    decreases |s| - p
  {
    if p == |s| then []
    else
      var h := if AtLineStart(s, p) then HeadingAt(s, p) else None;
      if h.Some? then [h.value] + HeadingsFrom(s, h.value.end) else HeadingsFrom(s, p + 1)
  }

  // ------------------------------------------------------------ the flat index

  /** A key as the index stores it: non-empty and without a trailing dot. */
  predicate WellFormedKey(key: string) {
    |key| > 0 && key[|key| - 1] != '.'
  }

  const Dots := Chars({'.'})

  /** `match.group(1).rstrip('.')`. */
  function SectionKey(number: string): (key: string)
    ensures |number| > 0 && number[0] != '.' ==> WellFormedKey(key)
  {
    TrimEnd(number, Dots)
  }

  /** One heading as the index sees it: its page, its key and its stripped title. */
  datatype Sighting = Sighting(page: int, key: string, title: string)

  /** The headings of one page, in text order. */
  function PageSightings(pg: Page): (r: seq<Sighting>)
    ensures forall k :: 0 <= k < |r| ==> r[k].page == pg.num && WellFormedKey(r[k].key)
  {
    var hs := HeadingsFrom(pg.text, 0);
    seq(|hs|, k requires 0 <= k < |hs| => Sighting(pg.num, SectionKey(hs[k].number), Strip(hs[k].title, Whitespace)))
  }

  /** The headings of all pages, page after page. */
  function Sightings(pages: seq<Page>): (r: seq<Sighting>)
    ensures forall k :: 0 <= k < |r| ==> WellFormedKey(r[k].key)
  {
    if pages == [] then [] else Sightings(pages[..|pages| - 1]) + PageSightings(pages[|pages| - 1])
  }

  /** What the index keeps of a section: its title and the pages it was seen on. */
  datatype Section = Section(title: string, pages: seq<int>)

  /** A sighting counts when its stripped title has at least three characters. */
  predicate Sights(x: Sighting, key: string) {
    |x.title| >= 3 && x.key == key
  }

  /** One step of `identify_sections`: a new key is stored, a known key only gains the page. */
  function AddSighting(m: OrderedMap<string, Section>, x: Sighting): (r: OrderedMap<string, Section>)
    requires m.Valid()
    ensures r.Valid()
  {
    if |x.title| < 3 then m
    else if x.key !in m.values then m.Put(x.key, Section(x.title, [x.page]))
    else if x.page in m.values[x.key].pages then m
    else m.Put(x.key, m.values[x.key].(pages := m.values[x.key].pages + [x.page]))
  }

  /** The flat section map the sightings build, one after another. */
  function Index(ss: seq<Sighting>): (m: OrderedMap<string, Section>)
    ensures m.Valid()
  {
    if ss == [] then Empty() else AddSighting(Index(ss[..|ss| - 1]), ss[|ss| - 1])
  }

  lemma IndexSnoc(ss: seq<Sighting>, x: Sighting)
    ensures Index(ss + [x]) == AddSighting(Index(ss), x)
  {
    assert (ss + [x])[..|ss|] == ss;
  }

  /** The index holds exactly the keys of the sightings that count. */
  lemma {:induction false} IndexKeys(ss: seq<Sighting>, key: string)
    ensures key in Index(ss).values <==> exists i :: 0 <= i < |ss| && Sights(ss[i], key)
  {
    if ss != [] {
      var init := ss[..|ss| - 1];
      IndexKeys(init, key);
      if exists i :: 0 <= i < |init| && Sights(init[i], key) {
        var i :| 0 <= i < |init| && Sights(init[i], key);
        assert Sights(ss[i], key);
      }
      if exists i :: 0 <= i < |ss| && Sights(ss[i], key) {
        var i :| 0 <= i < |ss| && Sights(ss[i], key);
        if i < |init| {
          assert Sights(init[i], key);
        }
      }
    }
  }

  /** Every key of the index is non-empty and does not end in a dot. */
  lemma IndexKeysWellFormed(pages: seq<Page>, key: string)
    requires key in Index(Sightings(pages)).values
    ensures WellFormedKey(key)
  {
    var ss := Sightings(pages);
    IndexKeys(ss, key);
    var i :| 0 <= i < |ss| && Sights(ss[i], key);
  }

  /** The title stored for a key is the one of its first sighting that counts; later ones never change it. */
  lemma {:induction false} FirstTitleWins(ss: seq<Sighting>, i: nat, key: string)
    requires i < |ss| && Sights(ss[i], key)
    requires forall j :: 0 <= j < i ==> !Sights(ss[j], key)
    ensures key in Index(ss).values && Index(ss).values[key].title == ss[i].title
  {
    var init := ss[..|ss| - 1];
    if i == |ss| - 1 {
      forall j | 0 <= j < |init| ensures !Sights(init[j], key) {
        assert init[j] == ss[j];
      }
      IndexKeys(init, key);
    } else {
      FirstTitleWins(init, i, key);
    }
  }

  /** A sighting that counts for `key`, on page `p`. */
  predicate SightsOn(x: Sighting, key: string, p: int) {
    Sights(x, key) && x.page == p
  }

  /**
   * One sighting: a key is known afterwards when it was known or the sighting
   * counts for it; a known key keeps its title and its pages, and gains the
   * sighting's page at the end when that page is new to it.
   */
  lemma AddSightingPages(m: OrderedMap<string, Section>, x: Sighting, key: string)
    requires m.Valid()
    ensures key in AddSighting(m, x).values <==> key in m.values || Sights(x, key)
    ensures key in m.values ==> AddSighting(m, x).values[key].title == m.values[key].title
    ensures key in AddSighting(m, x).values ==>
      AddSighting(m, x).values[key].pages ==
        (if key in m.values then m.values[key].pages else [])
        + (if Sights(x, key) && !(key in m.values && x.page in m.values[key].pages) then [x.page] else [])
  {
  }

  /** The pages listed for a key are exactly the pages of its counting sightings. */
  lemma {:induction false} IndexPageMembers(ss: seq<Sighting>, key: string, p: int)
    ensures (key in Index(ss).values && p in Index(ss).values[key].pages)
      <==> exists i :: 0 <= i < |ss| && SightsOn(ss[i], key, p)
  {
    if ss != [] {
      var init := ss[..|ss| - 1];
      var x := ss[|ss| - 1];
      IndexPageMembers(init, key, p);
      AddSightingPages(Index(init), x, key);
      if exists i :: 0 <= i < |init| && SightsOn(init[i], key, p) {
        var i :| 0 <= i < |init| && SightsOn(init[i], key, p);
        assert SightsOn(ss[i], key, p);
      }
      if exists i :: 0 <= i < |ss| && SightsOn(ss[i], key, p) {
        var i :| 0 <= i < |ss| && SightsOn(ss[i], key, p);
        if i < |init| {
          assert SightsOn(init[i], key, p);
        }
      }
    }
  }

  /** Some counting sighting of `key` on page `p` comes before every counting sighting of `key` on page `q`. */
  predicate SeenFirst(ss: seq<Sighting>, key: string, p: int, q: int) {
    exists i :: 0 <= i < |ss| && SightsOn(ss[i], key, p) && forall j :: 0 <= j <= i ==> !SightsOn(ss[j], key, q)
  }

  /** A section lists its pages in the order of their first counting sightings. */
  lemma {:induction false} IndexPageOrder(ss: seq<Sighting>, key: string, a: nat, b: nat)
    ensures key in Index(ss).values && a < b < |Index(ss).values[key].pages| ==>
      SeenFirst(ss, key, Index(ss).values[key].pages[a], Index(ss).values[key].pages[b])
  {
    if ss != [] && key in Index(ss).values && a < b < |Index(ss).values[key].pages| {
      var init := ss[..|ss| - 1];
      var x := ss[|ss| - 1];
      var m := Index(init);
      var ps := Index(ss).values[key].pages;
      AddSightingPages(m, x, key);
      assert key in m.values;
      var old_ps := m.values[key].pages;
      var p, q := ps[a], ps[b];
      if b < |old_ps| {
        assert p == old_ps[a] && q == old_ps[b];
        IndexPageOrder(init, key, a, b);
        var i :| 0 <= i < |init| && SightsOn(init[i], key, p) && forall j :: 0 <= j <= i ==> !SightsOn(init[j], key, q);
        assert SightsOn(ss[i], key, p);
        forall j | 0 <= j <= i ensures !SightsOn(ss[j], key, q) {
          assert ss[j] == init[j];
        }
      } else {
        assert p == old_ps[a] && q == x.page && q !in old_ps;
        IndexPageMembers(init, key, p);
        IndexPageMembers(init, key, q);
        var i :| 0 <= i < |init| && SightsOn(init[i], key, p);
        assert SightsOn(ss[i], key, p);
        forall j | 0 <= j <= i ensures !SightsOn(ss[j], key, q) {
          assert ss[j] == init[j];
        }
      }
    }
  }

  /** No page is listed twice for a section. */
  predicate PagesDistinct(m: OrderedMap<string, Section>) {
    forall k :: k in m.values ==> forall a, b :: 0 <= a < b < |m.values[k].pages| ==> m.values[k].pages[a] != m.values[k].pages[b]
  }

  lemma {:induction false} IndexPagesDistinct(ss: seq<Sighting>)
    ensures PagesDistinct(Index(ss))
  {
    if ss != [] {
      IndexPagesDistinct(ss[..|ss| - 1]);
    }
  }

  /** The page numbers never decrease from one sighting to the next. */
  predicate PagesInOrder(ss: seq<Sighting>) {
    forall i, j :: 0 <= i < j < |ss| ==> ss[i].page <= ss[j].page
  }

  /** Strictly ascending, and none above `bound`. */
  predicate AscendingTo(ps: seq<int>, bound: int) {
    && (forall a, b :: 0 <= a < b < |ps| ==> ps[a] < ps[b])
    && (forall a :: 0 <= a < |ps| ==> ps[a] <= bound)
  }

  /** Every section's page list ascends strictly, up to `bound`. */
  predicate SectionsAscending(m: OrderedMap<string, Section>, bound: int) {
    forall k :: k in m.values ==> AscendingTo(m.values[k].pages, bound)
  }

  /** A sighting on a page no earlier than every listed one keeps the page lists ascending. */
  lemma AddSightingAscending(m: OrderedMap<string, Section>, x: Sighting, bound: int)
    requires m.Valid() && SectionsAscending(m, x.page) && x.page <= bound
    ensures SectionsAscending(AddSighting(m, x), bound)
  {
    var r := AddSighting(m, x);
    forall k | k in r.values ensures AscendingTo(r.values[k].pages, bound) {
      if k != x.key {
        assert r.values[k] == m.values[k];
      } else if k in m.values {
        var ps := m.values[k].pages;
        assert AscendingTo(ps, x.page);
        if x.page !in ps && |x.title| >= 3 {
          assert forall a :: 0 <= a < |ps| ==> ps[a] < x.page;
          assert r.values[k].pages == ps + [x.page];
        }
      }
    }
  }

  /** Pages visited in ascending order give each section a strictly ascending page list. */
  lemma {:induction false} IndexPagesAscending(ss: seq<Sighting>, bound: int)
    requires PagesInOrder(ss)
    requires forall i :: 0 <= i < |ss| ==> ss[i].page <= bound
    ensures SectionsAscending(Index(ss), bound)
  {
    if ss != [] {
      var init := ss[..|ss| - 1];
      var last := ss[|ss| - 1];
      IndexPagesAscending(init, last.page);
      AddSightingAscending(Index(init), last, bound);
    }
  }

  // --------------------------------------------------------------- the hierarchy

  datatype SubSection = SubSection(title: string, pages: seq<int>)

  datatype TopSection = TopSection(title: string, pages: seq<int>, subsections: OrderedMap<string, SubSection>)

  ghost predicate HierValid(h: OrderedMap<string, TopSection>) {
    h.Valid() && forall t :: t in h.values ==> h.values[t].subsections.Valid()
  }

  /** `section_num.split('.')[0]`: the top-level section a key belongs to. */
  function Parent(key: string): string {
    Split(key, '.')[0]
  }

  /**
   * One step of `_build_hierarchical_sections`: a key without a dot (one
   * component) opens a top-level entry with no subsections; any other key
   * joins the subsections of its parent if the parent is already there, and is
   * dropped otherwise.
   */
  function Nest(h: OrderedMap<string, TopSection>, key: string, s: Section): (r: OrderedMap<string, TopSection>)
    requires HierValid(h)
    ensures HierValid(r)
  {
    if '.' !in key then h.Put(key, TopSection(s.title, s.pages, Empty()))
    else if Parent(key) in h.values then
      var top := h.values[Parent(key)];
      h.Put(Parent(key), top.(subsections := top.subsections.Put(key, SubSection(s.title, s.pages))))
    else h
  }

  predicate InIndex(m: OrderedMap<string, Section>, order: seq<string>) {
    forall i :: 0 <= i < |order| ==> order[i] in m.values
  }

  /** The nesting of the keys of `m` visited in the given order. */
  function Nested(m: OrderedMap<string, Section>, order: seq<string>): (h: OrderedMap<string, TopSection>)
    requires InIndex(m, order)
    ensures HierValid(h)
  {
    if order == [] then Empty()
    else
      var x := order[|order| - 1];
      Nest(Nested(m, order[..|order| - 1]), x, m.values[x])
  }

  lemma SortedInIndex(m: OrderedMap<string, Section>)
    requires m.Valid()
    ensures InIndex(m, SortByKey(m.keys))
  {
    var r := SortByKey(m.keys);
    forall i | 0 <= i < |r| ensures r[i] in m.values {
      assert r[i] in multiset(r);
    }
  }

  /** `_build_hierarchical_sections`: the flat map nested in section-number order. */
  function Hierarchy(m: OrderedMap<string, Section>): (h: OrderedMap<string, TopSection>)
    requires m.Valid()
    ensures HierValid(h)
  {
    SortedInIndex(m);
    Nested(m, SortByKey(m.keys))
  }

  /** The top-level entries are the visited keys without a dot, each with its section's title and pages. */
  lemma {:induction false} NestedTops(m: OrderedMap<string, Section>, order: seq<string>, t: string)
    requires InIndex(m, order)
    ensures t in Nested(m, order).values <==> t in order && '.' !in t
    ensures t in Nested(m, order).values ==>
      Nested(m, order).values[t].title == m.values[t].title && Nested(m, order).values[t].pages == m.values[t].pages
  {
    if order != [] {
      var init := order[..|order| - 1];
      NestedTops(m, init, t);
      assert order == init + [order[|order| - 1]];
      if '.' in order[|order| - 1] {
        ParentHasNoDot(order[|order| - 1]);
      }
    }
  }

  /** `t` occurs before `k` in `order`. */
  predicate Before(order: seq<string>, t: string, k: string) {
    exists a, b :: 0 <= a < b < |order| && order[a] == t && order[b] == k
  }

  lemma BeforeSnoc(order: seq<string>, t: string, k: string)
    requires |order| > 0
    ensures Before(order, t, k) <==>
      Before(order[..|order| - 1], t, k) || (k == order[|order| - 1] && t in order[..|order| - 1])
  {
    var init := order[..|order| - 1];
    if Before(order, t, k) {
      var a, b :| 0 <= a < b < |order| && order[a] == t && order[b] == k;
      if b < |order| - 1 {
        assert init[a] == t && init[b] == k;
      } else {
        assert init[a] == t;
      }
    }
    if Before(init, t, k) {
      var a, b :| 0 <= a < b < |init| && init[a] == t && init[b] == k;
      assert order[a] == t && order[b] == k;
    }
    if k == order[|order| - 1] && t in init {
      var a :| 0 <= a < |init| && init[a] == t;
      assert order[a] == t;
    }
  }

  /** What the subsections of a top-level entry hold after visiting `order`. */
  predicate SubsAfter(m: OrderedMap<string, Section>, order: seq<string>, h: OrderedMap<string, TopSection>, t: string, k: string)
    requires t in h.values
  {
    && (k in h.values[t].subsections.values <==> '.' in k && Parent(k) == t && Before(order, t, k))
    && (k in h.values[t].subsections.values && k in m.values ==>
          h.values[t].subsections.values[k] == SubSection(m.values[k].title, m.values[k].pages))
  }

  /** A key joins the subsections of `t` exactly when its parent is `t` and `t` was visited before it. */
  lemma {:induction false} NestedSubs(m: OrderedMap<string, Section>, order: seq<string>, t: string, k: string)
    requires InIndex(m, order) && Distinct(order)
    requires t in Nested(m, order).values
    ensures SubsAfter(m, order, Nested(m, order), t, k)
    decreases |order|, 1
  {
    if order != [] {
      var init := order[..|order| - 1];
      var x := order[|order| - 1];
      forall a | 0 <= a < |init| ensures init[a] != x {
        assert order[a] == init[a];
      }
      BeforeSnoc(order, t, k);
      NestedTops(m, init, t);
      NestedTops(m, init, x);
      if '.' !in x {
        NestedSubsTop(m, order, t, k);
      } else {
        NestedSubsChild(m, order, t, k);
      }
    }
  }

  /** The step for a key without a dot: a new, empty top-level entry. */
  lemma {:induction false} NestedSubsTop(m: OrderedMap<string, Section>, order: seq<string>, t: string, k: string)
    requires InIndex(m, order) && Distinct(order) && |order| > 0
    requires t in Nested(m, order).values
    requires '.' !in order[|order| - 1] && order[|order| - 1] !in order[..|order| - 1]
    requires t in Nested(m, order[..|order| - 1]).values <==> t in order[..|order| - 1] && '.' !in t
    requires Before(order, t, k) <==>
      Before(order[..|order| - 1], t, k) || (k == order[|order| - 1] && t in order[..|order| - 1])
    ensures SubsAfter(m, order, Nested(m, order), t, k)
    decreases |order|, 0
  {
    var init := order[..|order| - 1];
    var x := order[|order| - 1];
    if t == x {
      forall a, b | 0 <= a < b < |init| ensures !(init[a] == t && init[b] == k) {
      }
    } else {
      NestedSubs(m, init, t, k);
    }
  }

  /** The step for a key with a dot: it joins its parent's subsections when the parent is present. */
  lemma {:induction false} NestedSubsChild(m: OrderedMap<string, Section>, order: seq<string>, t: string, k: string)
    requires InIndex(m, order) && Distinct(order) && |order| > 0
    requires t in Nested(m, order).values
    requires '.' in order[|order| - 1] && order[|order| - 1] !in order[..|order| - 1]
    requires t in Nested(m, order[..|order| - 1]).values <==> t in order[..|order| - 1] && '.' !in t
    requires Before(order, t, k) <==>
      Before(order[..|order| - 1], t, k) || (k == order[|order| - 1] && t in order[..|order| - 1])
    ensures SubsAfter(m, order, Nested(m, order), t, k)
    decreases |order|, 0
  {
    var init := order[..|order| - 1];
    var x := order[|order| - 1];
    var p := Parent(x);
    NestedTops(m, init, p);
    NestedSubs(m, init, t, k);
    if k == x {
      forall a, b | 0 <= a < b < |init| ensures !(init[a] == t && init[b] == k) {
      }
    }
  }

  /**
   * The top-level entries of the hierarchy are exactly the section keys
   * without a dot, each carrying that section's title and pages.
   */
  lemma HierarchyTops(m: OrderedMap<string, Section>, t: string)
    requires m.Valid()
    ensures t in Hierarchy(m).values <==> t in m.values && '.' !in t
    ensures t in Hierarchy(m).values ==>
      Hierarchy(m).values[t].title == m.values[t].title && Hierarchy(m).values[t].pages == m.values[t].pages
  {
    SortedInIndex(m);
    var order := SortByKey(m.keys);
    NestedTops(m, order, t);
    assert t in order <==> t in multiset(order);
  }

  /**
   * A key with a dot is a subsection of the top-level entry of its first
   * component exactly when that component is itself a section key; otherwise
   * it is dropped. A subsection carries its section's title and pages, and
   * nothing else is ever a subsection.
   */
  lemma HierarchySubsections(m: OrderedMap<string, Section>, t: string, k: string)
    requires m.Valid()
    ensures (t in Hierarchy(m).values && k in Hierarchy(m).values[t].subsections.values) <==>
      (k in m.values && '.' in k && Parent(k) == t && t in m.values)
    ensures t in Hierarchy(m).values && k in Hierarchy(m).values[t].subsections.values ==>
      Hierarchy(m).values[t].subsections.values[k] == SubSection(m.values[k].title, m.values[k].pages)
  {
    SortedInIndex(m);
    var order := SortByKey(m.keys);
    var h := Hierarchy(m);
    SortByKeyDistinct(m.keys);
    SortByKeySorted(m.keys);
    NestedTops(m, order, t);
    assert t in order <==> t in multiset(order);
    assert k in order <==> k in multiset(order);
    if t in h.values {
      NestedSubs(m, order, t, k);
      if k in m.values && '.' in k && Parent(k) == t {
        SubsectionVisitedAfterParent(order, t, k);
      }
    } else if k in m.values && '.' in k && Parent(k) == t && t in m.values {
      ParentHasNoDot(k);
    }
  }

  /** In the sorted order a key's parent, when present, comes before it. */
  lemma SubsectionVisitedAfterParent(order: seq<string>, t: string, k: string)
    requires KeySorted(order)
    requires '.' in k && Parent(k) == t && t in order && k in order
    ensures Before(order, t, k)
  {
    var a :| 0 <= a < |order| && order[a] == t;
    var b :| 0 <= b < |order| && order[b] == k;
    ParentHasNoDot(k);
    ParentFirst(k);
    if b < a {
      assert false;
    }
    assert a != b;
  }

  // ------------------------------------------------------------ section content

  /** The position of the first page numbered `p`, or the number of pages when there is none. */
  function FirstPage(ext: seq<Page>, p: int): (i: nat)
    ensures i <= |ext|
    ensures i < |ext| ==> ext[i].num == p
    ensures forall j :: 0 <= j < i ==> ext[j].num != p
  {
    if ext == [] then 0 else if ext[0].num == p then 0 else 1 + FirstPage(ext[1..], p)
  }

  /** The texts of the listed pages in list order, each from the first page with that number; a number without a page adds nothing. */
  function ListedTexts(ext: seq<Page>, pages: seq<int>): (r: seq<string>)
    ensures |r| <= |pages|
  {
    if pages == [] then []
    else
      var i := FirstPage(ext, pages[|pages| - 1]);
      ListedTexts(ext, pages[..|pages| - 1]) + (if i < |ext| then [ext[i].text] else [])
  }

  /** When every listed page has a text, the `k`-th text is the one of the `k`-th listed page. */
  lemma {:induction false} ListedTextsAll(ext: seq<Page>, pages: seq<int>)
    requires forall k :: 0 <= k < |pages| ==> FirstPage(ext, pages[k]) < |ext|
    ensures |ListedTexts(ext, pages)| == |pages|
    ensures forall k :: 0 <= k < |pages| ==> ListedTexts(ext, pages)[k] == ext[FirstPage(ext, pages[k])].text
  {
    if pages != [] {
      var init := pages[..|pages| - 1];
      var last := pages[|pages| - 1];
      assert forall k :: 0 <= k < |init| ==> init[k] == pages[k];
      ListedTextsAll(ext, init);
      var i := FirstPage(ext, last);
      assert i < |ext|;
      assert ListedTexts(ext, pages) == ListedTexts(ext, init) + [ext[i].text];
    }
  }

  /** The listed page numbers that have a page, in list order. */
  function WithText(ext: seq<Page>, pages: seq<int>): (r: seq<int>)
    ensures |r| <= |pages|
    ensures forall k :: 0 <= k < |r| ==> FirstPage(ext, r[k]) < |ext|
    ensures forall p :: p in r <==> p in pages && FirstPage(ext, p) < |ext|
  {
    if pages == [] then []
    else
      var last := pages[|pages| - 1];
      assert forall p :: p in pages <==> p in pages[..|pages| - 1] || p == last;
      WithText(ext, pages[..|pages| - 1]) + (if FirstPage(ext, last) < |ext| then [last] else [])
  }

  /**
   * The texts follow the listed numbers that have a page, in list order, each
   * from the first page with that number; the numbers without one are skipped.
   */
  lemma {:induction false} ListedTextsSkip(ext: seq<Page>, pages: seq<int>)
    ensures |ListedTexts(ext, pages)| == |WithText(ext, pages)|
    ensures forall k :: 0 <= k < |WithText(ext, pages)| ==>
      ListedTexts(ext, pages)[k] == ext[FirstPage(ext, WithText(ext, pages)[k])].text
  {
    if pages != [] {
      var init := pages[..|pages| - 1];
      var i := FirstPage(ext, pages[|pages| - 1]);
      ListedTextsSkip(ext, init);
      if i < |ext| {
        assert ListedTexts(ext, pages) == ListedTexts(ext, init) + [ext[i].text];
        assert WithText(ext, pages) == WithText(ext, init) + [pages[|pages| - 1]];
      } else {
        assert ListedTexts(ext, pages) == ListedTexts(ext, init);
        assert WithText(ext, pages) == WithText(ext, init);
      }
    }
  }

  /** `extract_section_content` once the sections are known: empty for an unknown number. */
  function SectionContent(ext: seq<Page>, m: OrderedMap<string, Section>, num: string): string {
    if num !in m.values then "" else Join("\n", ListedTexts(ext, m.values[num].pages))
  }

  // ------------------------------------------------------------------- metadata

  datatype Metadata = Metadata(drugName: string, tradeName: string, roNumber: string, version: string, date: string)

  const NoMetadata := Metadata("", "", "", "", "")

  /** `re.search(r'RO\d+', s)` from index `i`: the leftmost `RO` followed by a digit, with all the digits. */
  function ROSearch(s: string, i: nat): (r: Option<string>)
    requires i <= |s|
    ensures r.Some? ==> |r.value| > 2 && r.value[..2] == "RO" && IsDigits(r.value[2..])
    decreases |s| - i
  {
    if i + 2 < |s| && s[i] == 'R' && s[i + 1] == 'O' && IsDigit(s[i + 2]) then
      DigitRunDigits(s, i + 2);
      var t := s[i..i + 2 + DigitRun(s, i + 2)];
      assert t[2..] == s[i + 2..i + 2 + DigitRun(s, i + 2)];
      Some(t)
    else if i == |s| then None
    else ROSearch(s, i + 1)
  }

  /** One page of `_extract_metadata`: a field is set only while it is still empty. */
  function MetaStep(md: Metadata, text: string): Metadata {
    var ro := ROSearch(text, 0);
    var md1 := if ro.Some? && md.roNumber == "" then md.(roNumber := ro.value) else md;
    var md2 := if MentionsDrug(text) && md1.drugName == "" then md1.(drugName := "Pralsetinib") else md1;
    if MentionsTrade(text) && md2.tradeName == "" then md2.(tradeName := "GAVRETO") else md2
  }

  function MetadataOf(pages: seq<Page>): Metadata {
    if pages == [] then NoMetadata else MetaStep(MetadataOf(pages[..|pages| - 1]), pages[|pages| - 1].text)
  }

  /** `extracted_text[:5]`. */
  function FirstPages(ext: seq<Page>): (r: seq<Page>)
    ensures |r| <= 5 && |r| <= |ext| && r == ext[..|r|] && (|ext| >= 5 ==> |r| == 5) && (|ext| < 5 ==> r == ext)
  {
    if |ext| <= 5 then ext else ext[..5]
  }

  /** The RO number is the match of the first page that has one. */
  lemma {:induction false} MetadataRO(pages: seq<Page>, i: nat)
    requires i < |pages| && ROSearch(pages[i].text, 0).Some?
    requires forall j :: 0 <= j < i ==> ROSearch(pages[j].text, 0).None?
    ensures MetadataOf(pages).roNumber == ROSearch(pages[i].text, 0).value
  {
    var init := pages[..|pages| - 1];
    if i < |pages| - 1 {
      MetadataRO(init, i);
    } else {
      MetadataNoRO(init);
    }
  }

  /** The RO number stays empty exactly when no page has a match. */
  lemma {:induction false} MetadataNoRO(pages: seq<Page>)
    ensures MetadataOf(pages).roNumber == "" <==> forall j :: 0 <= j < |pages| ==> ROSearch(pages[j].text, 0).None?
  {
    if pages != [] {
      var init := pages[..|pages| - 1];
      MetadataNoRO(init);
      assert forall j :: 0 <= j < |init| ==> init[j] == pages[j];
    }
  }

  predicate MentionsDrug(text: string) {
    Contains(Lower(text), "pralsetinib")
  }

  predicate MentionsTrade(text: string) {
    Contains(text, "GAVRETO")
  }

  /** The drug name is set exactly when some page mentions it, in any letter case. */
  lemma {:induction false} MetadataDrug(pages: seq<Page>)
    ensures MetadataOf(pages).drugName ==
      if exists j :: 0 <= j < |pages| && MentionsDrug(pages[j].text) then "Pralsetinib" else ""
  {
    if pages != [] {
      var init := pages[..|pages| - 1];
      MetadataDrug(init);
      DrugStep(MetadataOf(init), pages[|pages| - 1].text);
      assert forall j :: 0 <= j < |init| ==> init[j] == pages[j];
    }
  }

  /** One page sets the drug name only when none is set yet. */
  lemma DrugStep(md: Metadata, text: string)
    ensures MetaStep(md, text).drugName == if md.drugName == "" && MentionsDrug(text) then "Pralsetinib" else md.drugName
  {
  }

  /** The trade name is set exactly when some page mentions it in capitals. */
  lemma {:induction false} MetadataTrade(pages: seq<Page>)
    ensures MetadataOf(pages).tradeName ==
      if exists j :: 0 <= j < |pages| && MentionsTrade(pages[j].text) then "GAVRETO" else ""
  {
    if pages != [] {
      var init := pages[..|pages| - 1];
      var last := pages[|pages| - 1].text;
      MetadataTrade(init);
      TradeStep(MetadataOf(init), last);
      assert forall j :: 0 <= j < |init| ==> init[j] == pages[j];
    }
  }

  /** One page sets the trade name only when none is set yet. */
  lemma TradeStep(md: Metadata, text: string)
    ensures MetaStep(md, text).tradeName == if md.tradeName == "" && MentionsTrade(text) then "GAVRETO" else md.tradeName
  {
  }

  /** Nothing sets the version or the date. */
  lemma {:induction false} MetadataUnset(pages: seq<Page>)
    ensures MetadataOf(pages).version == "" && MetadataOf(pages).date == ""
  {
    if pages != [] {
      MetadataUnset(pages[..|pages| - 1]);
    }
  }

  // -------------------------------------------------------------- the indexer

  /** The pages of a document, numbered from 1 in reading order. */
  function Numbered(texts: seq<string>): (r: seq<Page>)
    ensures |r| == |texts|
    ensures forall k :: 0 <= k < |texts| ==> r[k] == Page(k + 1, texts[k])
  {
    if texts == [] then [] else Numbered(texts[..|texts| - 1]) + [Page(|texts|, texts[|texts| - 1])]
  }

  /** The pages `identify_sections` reads: the given ones, else the stored ones, and the whole document when those are empty. */
  function SourcePages(given: Option<seq<Page>>, stored: seq<Page>, texts: seq<string>): seq<Page> {
    var used := if given.Some? then given.value else stored;
    if used == [] then Numbered(texts) else used
  }

  /**
   * `IBIndexer`: the text of each page of the brochure, the pages extracted so
   * far and the flat section map.
   */
  class IBIndexer {
    /** The text the PDF reader gives for each page, in page order. */
    const pdfTexts: seq<string>
    var extractedText: seq<Page>
    var sections: OrderedMap<string, Section>

    ghost predicate Valid()
      reads this
    {
      sections.Valid()
    }

    constructor(pdfTexts: seq<string>)
      ensures Valid()
      ensures this.pdfTexts == pdfTexts && extractedText == [] && sections == Empty()
    {
      this.pdfTexts := pdfTexts;
      extractedText := [];
      sections := Empty();
    }

    /** `extract_all_text`: every page with its 1-based number; the result is also stored. */
    method ExtractAllText() returns (extracted: seq<Page>)
      modifies this
      ensures extracted == extractedText == Numbered(pdfTexts)
      ensures sections == old(sections)
    {
      extracted := [];
      for k := 0 to |pdfTexts|
        invariant extracted == Numbered(pdfTexts[..k])
      {
        extracted := extracted + [Page(k + 1, pdfTexts[k])];
        assert pdfTexts[..k + 1][..k] == pdfTexts[..k];
      }
      assert pdfTexts[..|pdfTexts|] == pdfTexts;
      extractedText := extracted;
    }

    /**
     * `identify_sections`: indexes the headings of the given pages (the stored
     * ones when none are given, the whole document when those are empty) and
     * replaces the section map by the result.
     */
    method IdentifySections(given: Option<seq<Page>>) returns (found: OrderedMap<string, Section>)
      modifies this
      ensures Valid()
      ensures var used := if given.Some? then given.value else old(extractedText);
        extractedText == (if used == [] then Numbered(pdfTexts) else old(extractedText))
      ensures found == sections == Index(Sightings(SourcePages(given, old(extractedText), pdfTexts)))
    {
      var source := if given.Some? then given.value else extractedText;
      if source == [] {
        source := ExtractAllText();
      }
      found := IndexPages(source);
      sections := found;
    }

    /**
     * `extract_section_content`: the texts of the section's pages joined by
     * newlines, after indexing the document if no section is known yet; empty
     * for an unknown section.
     */
    method ExtractSectionContent(num: string) returns (content: string)
      requires Valid()
      modifies this
      ensures Valid()
      ensures old(sections.keys) != [] ==> sections == old(sections) && extractedText == old(extractedText)
      ensures old(sections.keys) == [] ==>
        sections == Index(Sightings(SourcePages(None, old(extractedText), pdfTexts)))
        && extractedText == (if old(extractedText) == [] then Numbered(pdfTexts) else old(extractedText))
      ensures content == SectionContent(extractedText, sections, num)
    {
      if sections.keys == [] {
        var _ := IdentifySections(None);
      }
      if num !in sections.values {
        return "";
      }
      content := JoinPageTexts(extractedText, sections.values[num].pages);
    }

    /** `_extract_metadata`: reads the first five pages and changes nothing. */
    method ExtractMetadata() returns (md: Metadata)
      ensures md == MetadataOf(FirstPages(extractedText))
    {
      md := NoMetadata;
      var first := FirstPages(extractedText);
      for i := 0 to |first|
        invariant md == MetadataOf(first[..i])
      {
        var text := first[i].text;
        var ro := ROSearch(text, 0);
        if ro.Some? && md.roNumber == "" {
          md := md.(roNumber := ro.value);
        }
        if MentionsDrug(text) && md.drugName == "" {
          md := md.(drugName := "Pralsetinib");
        }
        if MentionsTrade(text) && md.tradeName == "" {
          md := md.(tradeName := "GAVRETO");
        }
        assert first[..i + 1][..i] == first[..i];
      }
      assert first[..|first|] == first;
    }

    /** `_build_hierarchical_sections`: the section map nested in section-number order; changes nothing. */
    method BuildHierarchicalSections() returns (h: OrderedMap<string, TopSection>)
      requires Valid()
      ensures h == Hierarchy(sections)
    {
      var order := SortByKey(sections.keys);
      SortedInIndex(sections);
      h := Empty();
      for i := 0 to |order|
        invariant h == Nested(sections, order[..i])
      {
        var key := order[i];
        var data := sections.values[key];
        assert order[..i + 1][..i] == order[..i];
        SplitPieces(key);
        if |Split(key, '.')| == 1 {
          h := h.Put(key, TopSection(data.title, data.pages, Empty()));
        } else {
          var parent := Split(key, '.')[0];
          if parent in h.values {
            var top := h.values[parent];
            h := h.Put(parent, top.(subsections := top.subsections.Put(key, SubSection(data.title, data.pages))));
          }
        }
      }
      assert order[..|order|] == order;
    }
  }

  /** The heading loop of `identify_sections`, page after page. */
  method IndexPages(source: seq<Page>) returns (found: OrderedMap<string, Section>)
    ensures found == Index(Sightings(source))
  {
    found := Empty();
    for i := 0 to |source|
      invariant found == Index(Sightings(source[..i]))
    {
      assert source[..i + 1][..i] == source[..i];
      found := AddSightings(found, Sightings(source[..i]), PageSightings(source[i]));
    }
    assert source[..|source|] == source;
  }

  /** The headings of one page added to the index built so far. */
  method AddSightings(m: OrderedMap<string, Section>, done: seq<Sighting>, hs: seq<Sighting>)
    returns (found: OrderedMap<string, Section>)
    requires m == Index(done)
    ensures found == Index(done + hs)
  {
    found := m;
    assert done + hs[..0] == done;
    for j := 0 to |hs|
      invariant found == Index(done + hs[..j])
    {
      var x := hs[j];
      IndexSnoc(done + hs[..j], x);
      assert done + hs[..j + 1] == done + hs[..j] + [x];
      if |x.title| >= 3 {
        if x.key !in found.values {
          found := found.Put(x.key, Section(x.title, [x.page]));
        } else if x.page !in found.values[x.key].pages {
          found := found.Put(x.key, found.values[x.key].(pages := found.values[x.key].pages + [x.page]));
        }
      }
    }
    assert hs[..|hs|] == hs;
  }

  /** The page loop of `extract_section_content`: each listed page's text, joined by newlines. */
  method JoinPageTexts(ext: seq<Page>, pages: seq<int>) returns (content: string)
    ensures content == Join("\n", ListedTexts(ext, pages))
  {
    var parts: seq<string> := [];
    for i := 0 to |pages|
      invariant parts == ListedTexts(ext, pages[..i])
    {
      var j := 0;
      while j < |ext| && ext[j].num != pages[i]
        invariant j <= |ext|
        invariant forall k :: 0 <= k < j ==> ext[k].num != pages[i]
      {
        j := j + 1;
      }
      FirstPageAt(ext, pages[i], j);
      assert pages[..i + 1][..i] == pages[..i];
      if j < |ext| {
        parts := parts + [ext[j].text];
      }
    }
    assert pages[..|pages|] == pages;
    content := Join("\n", parts);
  }

  /** A search that stops at the first page with the number finds `FirstPage`. */
  lemma {:induction false} FirstPageAt(ext: seq<Page>, p: int, j: nat)
    requires j <= |ext| && (j == |ext| || ext[j].num == p)
    requires forall k :: 0 <= k < j ==> ext[k].num != p
    ensures FirstPage(ext, p) == j
  {
    if j > 0 {
      FirstPageAt(ext[1..], p, j - 1);
    }
  }
}
