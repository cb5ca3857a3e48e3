/**
 * Stage 3: filling the report template. The Word document is reduced to its
 * paragraph texts, in the order the document is walked (body, table cells,
 * headers, footers); placeholders are found in them, replaced in place, and
 * the matched content is sorted into the four lists of the population report.
 */
module TemplatePopulator {
  import opened Text
  import opened Wrappers
  import opened Placeholders
  import OrderedMaps
  import ContentMatcher

  // ------------------------------------------------------------ placeholders

  /** The placeholders of every paragraph together, each as often as once. */
  function PlaceholdersIn(ps: seq<string>): (r: set<string>)
    ensures forall t :: t in r <==> IsPlaceholder(t) && exists k :: 0 <= k < |ps| && Contains(ps[k], t)
  {
    if ps == [] then {}
    else
      var init := ps[..|ps| - 1];
      var r := PlaceholdersIn(init) + AllIn(ps[|ps| - 1]);
      assert forall k :: 0 <= k < |init| ==> init[k] == ps[k];
      r
  }

  /** Python's `<` on strings: the first differing character decides, and a proper prefix comes first. */
  predicate StrLess(a: string, b: string)
    decreases |a|
  {
    |b| > 0 && (|a| == 0 || a[0] < b[0] || (a[0] == b[0] && StrLess(a[1..], b[1..])))
  }

  lemma {:induction false} StrLessTransitive(a: string, b: string, c: string)
    requires StrLess(a, b) && StrLess(b, c)
    ensures StrLess(a, c)
    decreases |a|
  {
    if |a| > 0 && a[0] == b[0] && b[0] == c[0] {
      StrLessTransitive(a[1..], b[1..], c[1..]);
    }
  }

  /** Two different strings are ordered one way or the other. */
  lemma {:induction false} StrLessTotal(a: string, b: string)
    requires a != b
    ensures StrLess(a, b) || StrLess(b, a)
    decreases |a|
  {
    if |a| > 0 && |b| > 0 && a[0] == b[0] {
      assert a == [a[0]] + a[1..] && b == [b[0]] + b[1..];
      StrLessTotal(a[1..], b[1..]);
    }
  }

  /** `m` is below every other element of `s`. */
  predicate Least(m: string, s: set<string>) {
    m in s && forall y :: y in s && y != m ==> StrLess(m, y)
  }

  /** Every non-empty set of strings has a least element. */
  lemma {:induction false} LeastExists(s: set<string>)
    requires s != {}
    ensures exists m :: Least(m, s)
    decreases |s|
  {
    var x :| x in s;
    var rest := s - {x};
    if rest == {} {
      assert s == {x};
      assert Least(x, s);
    } else {
      LeastExists(rest);
      var m :| Least(m, rest);
      LeastOfTwo(x, m, rest);
      assert s == rest + {x};
    }
  }

  /** The least of `rest` or a new element `x`, whichever is smaller, is the least of both. */
  lemma LeastOfTwo(x: string, m: string, rest: set<string>)
    requires Least(m, rest) && x !in rest
    ensures Least(x, rest + {x}) || Least(m, rest + {x})
  {
    StrLessTotal(x, m);
    if StrLess(x, m) {
      forall y | y in rest + {x} && y != x ensures StrLess(x, y) {
        if y != m { StrLessTransitive(x, m, y); }
      }
      assert Least(x, rest + {x});
    } else {
      assert Least(m, rest + {x});
    }
  }

  /** Each element is strictly less than the next: sorted, and without repeats. */
  predicate Increasing(r: seq<string>) {
    forall i, j :: 0 <= i < j < |r| ==> StrLess(r[i], r[j])
  }

  /** `sorted(s)` for a set of strings: its elements, in increasing order. */
  method SortedList(s: set<string>) returns (r: seq<string>)
    ensures forall t :: t in r <==> t in s
    ensures Increasing(r)
  {
    r := [];
    var rest := s;
    while rest != {}
      invariant forall t :: t in s <==> t in r || t in rest
      invariant Increasing(r)
      invariant forall x, y :: x in r && y in rest ==> StrLess(x, y)
      decreases |rest|
    {
      LeastExists(rest);
      var m :| Least(m, rest);
      r := r + [m];
      rest := rest - {m};
    }
  }

  // ---------------------------------------------------------- substitution

  const NoContent := "[NO CONTENT]"

  /** The text put in place of a placeholder: the content, or a marker when there is none. */
  function Filled(content: string): (r: string)
    ensures r != []
    ensures content != [] ==> r == content
  {
    if content == [] then NoContent else content
  }

  /** A paragraph after `_replace_in_paragraph`: changed only when it contains the old text. */
  function ParagraphAfter(s: string, pat: string, rep: string): string {
    if Contains(s, pat) then ReplaceAll(s, pat, rep) else s
  }

  /** Every paragraph after the replacement. */
  function Substituted(ps: seq<string>, pat: string, rep: string): (r: seq<string>)
    ensures |r| == |ps|
    ensures forall k :: 0 <= k < |ps| ==> r[k] == ParagraphAfter(ps[k], pat, rep)
  {
    seq(|ps|, k requires 0 <= k < |ps| => ParagraphAfter(ps[k], pat, rep))
  }

  /** How many paragraphs contain `pat`. */
  function CountContaining(ps: seq<string>, pat: string): (r: nat)
    ensures r <= |ps|
    ensures r == 0 <==> forall k :: 0 <= k < |ps| ==> !Contains(ps[k], pat)
  {
    if ps == [] then 0
    else
      var init := ps[..|ps| - 1];
      assert forall k :: 0 <= k < |init| ==> init[k] == ps[k];
      CountContaining(init, pat) + (if Contains(ps[|ps| - 1], pat) then 1 else 0)
  }

  /** A placeholder found in no paragraph leaves the document as it was. */
  lemma UntouchedWhenAbsent(ps: seq<string>, pat: string, rep: string)
    requires CountContaining(ps, pat) == 0
    ensures Substituted(ps, pat, rep) == ps
  {
  }

  /**
   * In a paragraph that holds the placeholder, its leftmost occurrence becomes
   * the content, the text before it is kept, and the rest is replaced in turn.
   */
  lemma ParagraphReplacesLeftmost(a: string, pat: string, b: string, rep: string)
    requires pat != []
    requires forall i :: 0 <= i < |a| ==> !OccursAt(a + pat + b, pat, i)
    ensures ParagraphAfter(a + pat + b, pat, rep) == a + rep + ReplaceAll(b, pat, rep)
  {
    assert OccursAt(a + pat + b, pat, |a|) by { assert (a + pat + b)[|a|..|a| + |pat|] == pat; }
    ReplaceLeftmost(a, pat, b, rep);
  }

  // ------------------------------------------------------------ population

  /** Every key has an entry. */
  predicate Listed<V>(keys: seq<string>, values: map<string, V>) {
    forall i :: 0 <= i < |keys| ==> keys[i] in values
  }

  /** The document and the two counters after `populate_all_fields`. */
  datatype Outcome = Outcome(doc: seq<string>, populated: nat, skipped: nat)

  /** Content that is never put into the template: empty, or `"N/A"`. */
  predicate Blank(content: string) {
    content == "" || content == "N/A"
  }

  predicate Eligible(found: set<string>, placeholder: string, content: string) {
    !Blank(content) && placeholder in found
  }

  /** The entries, in order, from the document `doc` on; a replacement that changes no paragraph is a skip. */
  function Populate(doc: seq<string>, found: set<string>, keys: seq<string>, values: map<string, string>): (r: Outcome)
    requires Listed(keys, values)
    ensures r.populated + r.skipped == |keys|
    ensures |r.doc| == |doc|
    decreases |keys|
  {
    if keys == [] then Outcome(doc, 0, 0)
    else
      var p := keys[0];
      var content := values[p];
      if !Eligible(found, p, content) then
        var rest := Populate(doc, found, keys[1..], values);
        rest.(skipped := rest.skipped + 1)
      else
        var rest := Populate(Substituted(doc, p, Filled(content)), found, keys[1..], values);
        if CountContaining(doc, p) > 0 then rest.(populated := rest.populated + 1)
        else rest.(skipped := rest.skipped + 1)
  }

  /** The entries that are substituted at all: not blank, and among the placeholders found. */
  function EligibleKeys(found: set<string>, keys: seq<string>, values: map<string, string>): (r: seq<string>)
    requires Listed(keys, values)
    ensures Listed(r, values)
    ensures |r| <= |keys|
  {
    if keys == [] then []
    else
      (if Eligible(found, keys[0], values[keys[0]]) then [keys[0]] else []) + EligibleKeys(found, keys[1..], values)
  }

  /** Skipped entries change nothing: the document and the populated count are those of the eligible entries alone. */
  lemma {:induction false} OnlyEligibleSubstituted(doc: seq<string>, found: set<string>, keys: seq<string>, values: map<string, string>)
    requires Listed(keys, values)
    ensures var e := EligibleKeys(found, keys, values);
      var r := Populate(doc, found, keys, values);
      && r.doc == Populate(doc, found, e, values).doc
      && r.populated == Populate(doc, found, e, values).populated
      && r.populated <= |e|
    decreases |keys|
  {
    if keys != [] {
      var p := keys[0];
      var e := EligibleKeys(found, keys, values);
      var e' := EligibleKeys(found, keys[1..], values);
      if Eligible(found, p, values[p]) {
        var doc' := Substituted(doc, p, Filled(values[p]));
        OnlyEligibleSubstituted(doc', found, keys[1..], values);
        assert e == [p] + e';
        assert e[1..] == e';
      } else {
        OnlyEligibleSubstituted(doc, found, keys[1..], values);
        assert e == e';
      }
    }
  }

  /** `r` with the counters of an earlier part of the loop added. */
  function Shifted(r: Outcome, populated: nat, skipped: nat): Outcome {
    Outcome(r.doc, r.populated + populated, r.skipped + skipped)
  }

  /** Entry `i` of the loop: the outcome from `i` on, by the outcome from `i + 1` on. */
  lemma PopulateStep(doc: seq<string>, found: set<string>, keys: seq<string>, values: map<string, string>, i: nat)
    requires Listed(keys, values) && i < |keys|
    ensures Listed(keys[i..], values) && Listed(keys[i + 1..], values)
    ensures var p := keys[i];
      var r := Populate(doc, found, keys[i..], values);
      var replaced := Substituted(doc, p, Filled(values[p]));
      if !Eligible(found, p, values[p]) then r == Shifted(Populate(doc, found, keys[i + 1..], values), 0, 1)
      else if CountContaining(doc, p) > 0 then r == Shifted(Populate(replaced, found, keys[i + 1..], values), 1, 0)
      else r == Shifted(Populate(replaced, found, keys[i + 1..], values), 0, 1)
  {
    assert keys[i..][0] == keys[i] && keys[i..][1..] == keys[i + 1..];
  }

  // ---------------------------------------------------------------- report

  /** The four lists of `generate_mapping_report`. */
  datatype Bucket = Populated | Empty | NotInIb | Errors

  /** The list a content is reported in; the first test that holds decides. */
  function BucketOf(content: string): Bucket {
    if content == "" || content == "N/A" || Strip(content, Whitespace) == "" then Empty
    else if Contains(content, "NOT AVAILABLE IN IB") || Contains(content, "REQUIRES:") then NotInIb
    else if Contains(content, ContentMatcher.ErrorMark) || Contains(Lower(content), "error") then Errors
    else Populated
  }

  datatype Report = Report(populated: seq<string>, empty: seq<string>, notInIb: seq<string>, errors: seq<string>) {
    function List(b: Bucket): seq<string> {
      match b
      case Populated => populated
      case Empty => empty
      case NotInIb => notInIb
      case Errors => errors
    }

    /** Appends `key` to the list `b`. */
    function File(b: Bucket, key: string): (r: Report)
      ensures forall c :: r.List(c) == List(c) + (if c == b then [key] else [])
    {
      match b
      case Populated => this.(populated := populated + [key])
      case Empty => this.(empty := empty + [key])
      case NotInIb => this.(notInIb := notInIb + [key])
      case Errors => this.(errors := errors + [key])
    }
  }

  /** The list each content belongs in. */
  function Classes(values: map<string, string>): (r: map<string, Bucket>)
    ensures forall k :: k in values ==> k in r && r[k] == BucketOf(values[k])
  {
    map k | k in values :: BucketOf(values[k])
  }

  /** The report after the entries `keys`, in order, given the list each belongs in. */
  function ReportOf(keys: seq<string>, classes: map<string, Bucket>): (r: Report)
    requires Listed(keys, classes)
    ensures |r.populated| + |r.empty| + |r.notInIb| + |r.errors| == |keys|
  {
    if keys == [] then Report([], [], [], [])
    else
      var last := keys[|keys| - 1];
      ReportOf(keys[..|keys| - 1], classes).File(classes[last], last)
  }

  /** Entry `i` of the loop is appended to the list of its content. */
  lemma ReportSnoc(keys: seq<string>, classes: map<string, Bucket>, i: nat)
    requires Listed(keys, classes) && i < |keys|
    ensures Listed(keys[..i], classes) && Listed(keys[..i + 1], classes)
    ensures ReportOf(keys[..i + 1], classes) == ReportOf(keys[..i], classes).File(classes[keys[i]], keys[i])
  {
    assert keys[..i + 1][..i] == keys[..i];
  }

  /** A key is in a list exactly when its content belongs there: every key is in exactly one list. */
  lemma {:induction false} ReportMembership(keys: seq<string>, classes: map<string, Bucket>, b: Bucket, x: string)
    requires Listed(keys, classes)
    ensures x in ReportOf(keys, classes).List(b) <==> x in keys && classes[x] == b
  {
    if keys != [] {
      var init := keys[..|keys| - 1];
      var last := keys[|keys| - 1];
      ReportMembership(init, classes, b, x);
      var prev := ReportOf(init, classes);
      assert ReportOf(keys, classes).List(b) == prev.List(b) + (if classes[last] == b then [last] else []);
      assert keys == init + [last];
      assert x in keys <==> x in init || x == last;
    }
  }

  /** The keys whose content belongs in list `b`, in their input order. */
  function Select(keys: seq<string>, classes: map<string, Bucket>, b: Bucket): (r: seq<string>)
    requires Listed(keys, classes)
  {
    if keys == [] then []
    else (if classes[keys[0]] == b then [keys[0]] else []) + Select(keys[1..], classes, b)
  }

  lemma {:induction false} SelectSnoc(keys: seq<string>, x: string, classes: map<string, Bucket>, b: Bucket)
    requires Listed(keys, classes)
    requires x in classes
    ensures Select(keys + [x], classes, b) == Select(keys, classes, b) + (if classes[x] == b then [x] else [])
    decreases |keys|
  {
    if keys != [] {
      assert (keys + [x])[1..] == keys[1..] + [x];
      SelectSnoc(keys[1..], x, classes, b);
    } else {
      assert [] + [x] == [x];
    }
  }

  /** Each list keeps the input order: it is the input filtered by the list's test. */
  lemma {:induction false} ReportOrder(keys: seq<string>, classes: map<string, Bucket>, b: Bucket)
    requires Listed(keys, classes)
    ensures ReportOf(keys, classes).List(b) == Select(keys, classes, b)
  {
    if keys != [] {
      var init := keys[..|keys| - 1];
      var last := keys[|keys| - 1];
      ReportOrder(init, classes, b);
      assert keys == init + [last];
      SelectSnoc(init, last, classes, b);
      var prev := ReportOf(init, classes);
      assert ReportOf(keys, classes).List(b) == prev.List(b) + (if classes[last] == b then [last] else []);
    }
  }

  /** Content that says it is not available goes to `not_in_ib`, even when it also holds an error mark. */
  lemma MarkedNotInIb(content: string)
    requires Contains(content, "NOT AVAILABLE IN IB") || Contains(content, "REQUIRES:")
    ensures BucketOf(content) == NotInIb
  {
    var pat := if Contains(content, "REQUIRES:") then "REQUIRES:" else "NOT AVAILABLE IN IB";
    var i :| 0 <= i <= |content| && OccursAt(content, pat, i);
    assert content[i] == content[i..i + |pat|][0] == pat[0];
    assert !IsSpace(pat[0]);
  }

  /** The text of an unavailable field is reported under `not_in_ib`. */
  lemma UnavailableNotInIb(info: ContentMatcher.MappingInfo)
    ensures BucketOf(ContentMatcher.UnavailableText(info)) == NotInIb
  {
    var r := ContentMatcher.UnavailableText(info);
    assert OccursAt(r, "REQUIRES:", 28);
    MarkedNotInIb(r);
  }

  /** The text stored for a failed field is never reported as populated or empty. */
  lemma FailureFlagged(msg: string)
    ensures BucketOf(ContentMatcher.FieldContent(Err(msg))) in {NotInIb, Errors}
  {
    var mark := ContentMatcher.ErrorMark;
    var r := ContentMatcher.FieldContent(Err(msg));
    assert r == mark + (" EXTRACTING CONTENT: " + msg + "]");
    assert OccursAt(r, mark, 0);
    assert r[0] == '[';
    assert !IsSpace(r[0]) && |r| > 3;
  }

  // ---------------------------------------------------------- the populator

  class TemplatePopulator {
    /** The paragraph texts of the template, in the order the document is walked. */
    const paragraphs: array<string>
    var placeholdersFound: set<string>

    /** Opens a template whose paragraphs read `doc`; no placeholder is known yet. */
    constructor(doc: seq<string>)
      ensures fresh(paragraphs) && paragraphs[..] == doc && placeholdersFound == {}
    {
      paragraphs := new string[|doc|](i requires 0 <= i < |doc| => doc[i]);
      placeholdersFound := {};
    }

    /** `find_all_placeholders`: records the placeholders of every paragraph and returns them sorted. */
    method FindAllPlaceholders() returns (sorted: seq<string>)
      modifies this
      ensures placeholdersFound == PlaceholdersIn(paragraphs[..])
      ensures forall t :: t in sorted <==> t in placeholdersFound
      ensures Increasing(sorted)
    {
      var found: set<string> := {};
      for i := 0 to paragraphs.Length
        invariant found == PlaceholdersIn(paragraphs[..i])
      {
        assert paragraphs[..i + 1][..i] == paragraphs[..i];
        found := found + AllIn(paragraphs[i]);
      }
      assert paragraphs[..paragraphs.Length] == paragraphs[..];
      placeholdersFound := found;
      sorted := SortedList(found);
    }

    /** `_replace_in_paragraph`: rewrites paragraph `i` when it contains `oldText`, and says whether it did. */
    method ReplaceInParagraph(i: nat, oldText: string, newText: string) returns (n: nat)
      requires i < paragraphs.Length
      modifies paragraphs
      ensures Contains(old(paragraphs[i]), oldText) ==> n == 1 && paragraphs[i] == ReplaceAll(old(paragraphs[i]), oldText, newText)
      ensures !Contains(old(paragraphs[i]), oldText) ==> n == 0 && paragraphs[i] == old(paragraphs[i])
      ensures forall j :: 0 <= j < paragraphs.Length && j != i ==> paragraphs[j] == old(paragraphs[j])
    {
      if !Contains(paragraphs[i], oldText) {
        return 0;
      }
      paragraphs[i] := ReplaceAll(paragraphs[i], oldText, newText);
      n := 1;
    }

    /** `replace_placeholder`: replaces the placeholder in every paragraph and counts the paragraphs that had it. */
    method ReplacePlaceholder(placeholder: string, newContent: string) returns (n: nat)
      modifies paragraphs
      ensures paragraphs[..] == Substituted(old(paragraphs[..]), placeholder, Filled(newContent))
      ensures n == CountContaining(old(paragraphs[..]), placeholder)
    {
      ghost var doc := paragraphs[..];
      var rep := Filled(newContent);
      n := 0;
      for i := 0 to paragraphs.Length
        invariant forall k :: 0 <= k < i ==> paragraphs[k] == ParagraphAfter(doc[k], placeholder, rep)
        invariant forall k :: i <= k < paragraphs.Length ==> paragraphs[k] == doc[k]
        invariant n == CountContaining(doc[..i], placeholder)
      {
        assert doc[..i + 1][..i] == doc[..i];
        if Contains(paragraphs[i], placeholder) {
          var k := ReplaceInParagraph(i, placeholder, rep);
          n := n + k;
        }
      }
      assert doc[..paragraphs.Length] == doc;
    }

    /**
     * `populate_all_fields`: finds the placeholders when none is known yet, then
     * substitutes each entry in order; the counters are those the summary line shows.
     */
    method PopulateAllFields(entries: OrderedMaps.OrderedMap<string, string>) returns (populated: nat, skipped: nat)
      requires entries.Valid()
      modifies this, paragraphs
      ensures placeholdersFound == if old(placeholdersFound) == {} then PlaceholdersIn(old(paragraphs[..])) else old(placeholdersFound)
      ensures Outcome(paragraphs[..], populated, skipped) == Populate(old(paragraphs[..]), placeholdersFound, entries.keys, entries.values)
      ensures populated + skipped == |entries.keys|
    {
      if placeholdersFound == {} {
        var sorted := FindAllPlaceholders();
      }
      assert Listed(entries.keys, entries.values);
      populated, skipped := SubstituteEntries(placeholdersFound, entries.keys, entries.values);
    }

    /** The loop of `populate_all_fields` over the entries, with the placeholders `found`. */
    method SubstituteEntries(found: set<string>, keys: seq<string>, values: map<string, string>) returns (populated: nat, skipped: nat)
      requires Listed(keys, values)
      modifies paragraphs
      ensures Outcome(paragraphs[..], populated, skipped) == Populate(old(paragraphs[..]), found, keys, values)
    {
      ghost var doc := paragraphs[..];
      populated, skipped := 0, 0;
      assert keys[0..] == keys;
      for i := 0 to |keys|
        invariant Listed(keys[i..], values)
        invariant Populate(doc, found, keys, values) == Shifted(Populate(paragraphs[..], found, keys[i..], values), populated, skipped)
      {
        var p := keys[i];
        var content := values[p];
        ghost var before := paragraphs[..];
        PopulateStep(before, found, keys, values, i);
        if Blank(content) || p !in found {
          assert Populate(before, found, keys[i..], values) == Shifted(Populate(before, found, keys[i + 1..], values), 0, 1);
          skipped := skipped + 1;
        } else {
          var n := ReplacePlaceholder(p, content);
          ghost var next := Populate(paragraphs[..], found, keys[i + 1..], values);
          if n > 0 {
            assert Populate(before, found, keys[i..], values) == Shifted(next, 1, 0);
            populated := populated + 1;
          } else {
            assert Populate(before, found, keys[i..], values) == Shifted(next, 0, 1);
            skipped := skipped + 1;
          }
        }
      }
    }

    /** `generate_mapping_report`: files every entry under the list its content belongs to. */
    method GenerateMappingReport(entries: OrderedMaps.OrderedMap<string, string>) returns (report: Report)
      requires entries.Valid()
      ensures report == ReportOf(entries.keys, Classes(entries.values))
    {
      var keys := entries.keys;
      ghost var classes := Classes(entries.values);
      assert Listed(keys, classes);
      report := Report([], [], [], []);
      for i := 0 to |keys|
        invariant report == ReportOf(keys[..i], classes)
      {
        var p := keys[i];
        ReportSnoc(keys, classes, i);
        report := report.File(BucketOf(entries.values[p]), p);
      }
      assert keys[..|keys|] == keys;
    }
  }
}
