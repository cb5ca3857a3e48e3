/**
 * Section numbers such as `5.5.1` and the order the index sorts them in: by
 * the tuple of integers between the dots, as Python compares tuples.
 */
module SectionKeys {
  import opened Text

  /** The integer value of each dot-separated component. */
  function Numbers(parts: seq<string>): (r: seq<nat>)
    ensures |r| == |parts|
    ensures forall i :: 0 <= i < |parts| ==> r[i] == NatValue(parts[i])
  {
    if parts == [] then [] else [NatValue(parts[0])] + Numbers(parts[1..])
  }

  /** `_section_sort_key`: `tuple(int(x) for x in key.split('.'))`. */
  function SortKey(key: string): (r: seq<nat>)
    ensures |r| >= 1
  {
    Numbers(Split(key, '.'))
  }

  /** Python's `<` on tuples of integers: the first difference decides, and a proper prefix comes first. */
  predicate TupleLess(a: seq<nat>, b: seq<nat>)
    decreases |a|
  {
    |b| > 0 && (|a| == 0 || a[0] < b[0] || (a[0] == b[0] && TupleLess(a[1..], b[1..])))
  }

  lemma {:induction false} TupleLessIrreflexive(a: seq<nat>)
    ensures !TupleLess(a, a)
    decreases |a|
  {
    if |a| > 0 { TupleLessIrreflexive(a[1..]); }
  }

  lemma {:induction false} TupleLessTransitive(a: seq<nat>, b: seq<nat>, c: seq<nat>)
    requires TupleLess(a, b) && TupleLess(b, c)
    ensures TupleLess(a, c)
    decreases |a|
  {
    if |a| > 0 && a[0] == b[0] && b[0] == c[0] {
      TupleLessTransitive(a[1..], b[1..], c[1..]);
    }
  }

  /** Two different tuples are ordered one way or the other. */
  lemma {:induction false} TupleLessTotal(a: seq<nat>, b: seq<nat>)
    requires a != b
    ensures TupleLess(a, b) || TupleLess(b, a)
    decreases |a|
  {
    if |a| > 0 && |b| > 0 && a[0] == b[0] {
      assert a == [a[0]] + a[1..] && b == [b[0]] + b[1..];
      TupleLessTotal(a[1..], b[1..]);
    }
  }

  /** A proper prefix sorts first. */
  lemma {:induction false} PrefixFirst(a: seq<nat>, b: seq<nat>)
    requires |a| < |b| && a == b[..|a|]
    ensures TupleLess(a, b)
    decreases |a|
  {
    if |a| > 0 {
      assert a[1..] == b[1..][..|a| - 1];
      PrefixFirst(a[1..], b[1..]);
    }
  }

  /** A key without a dot is the first component of every key it starts followed by a dot. */
  lemma FirstComponent(p: string, rest: string)
    requires '.' !in p
    ensures Split(p + "." + rest, '.')[0] == p
  {
    var s := p + "." + rest;
    assert s[|p|] == '.';
    var i := IndexOf(s, '.');
    assert s[..|p|] == p;
    assert i == |p|;
  }

  /** `Split(key, '.')` has more than one piece exactly when the key has a dot. */
  lemma SplitPieces(key: string)
    ensures |Split(key, '.')| == 1 <==> '.' !in key
  {
    if '.' in key {
      var i := IndexOf(key, '.');
      var rest := Split(key[i + 1..], '.');
      assert Split(key, '.') == [key[..i]] + rest;
      assert |rest| >= 1;
    }
  }

  /** The first component of a dotted key has no dot. */
  lemma ParentHasNoDot(key: string)
    ensures '.' !in Split(key, '.')[0]
  {
  }

  /** A section sorts before each of its subsections: `p` before `p.x`. */
  lemma ParentFirst(key: string)
    requires '.' in key
    ensures TupleLess(SortKey(Split(key, '.')[0]), SortKey(key))
  {
    var parts := Split(key, '.');
    var p := parts[0];
    SplitPieces(key);
    SplitPieces(p);
    assert Split(p, '.') == [p];
    var kp := SortKey(p);
    var kk := SortKey(key);
    assert kp == [NatValue(p)];
    assert kk[0] == NatValue(p);
    PrefixFirst(kp, kk);
  }

  /** `p` sorts before every `p.x…`. */
  lemma ParentBeforeChild(p: string, rest: string)
    requires '.' !in p
    ensures TupleLess(SortKey(p), SortKey(p + "." + rest))
  {
    FirstComponent(p, rest);
    assert (p + "." + rest)[|p|] == '.';
    ParentFirst(p + "." + rest);
  }

  /** `"1.9"` < `"1.10"` < `"2"`: the components compare as numbers, not as text. */
  lemma OrderExamples()
    ensures TupleLess(SortKey("1.9"), SortKey("1.10"))
    ensures TupleLess(SortKey("1.10"), SortKey("2"))
  {
    assert IndexOf("1.9", '.') == 1;
    assert "1.9"[..1] == "1" && "1.9"[2..] == "9";
    assert Split("1.9", '.') == ["1", "9"];
    assert IndexOf("1.10", '.') == 1;
    assert "1.10"[..1] == "1" && "1.10"[2..] == "10";
    assert Split("1.10", '.') == ["1", "10"];
    assert Split("2", '.') == ["2"];
    assert NatValue("10") == 10 by {
      assert "10"[..1] == "1";
      assert "1"[..0] == "";
    }
    assert NatValue("9") == 9 by { assert "9"[..0] == ""; }
    assert NatValue("1") == 1 by { assert "1"[..0] == ""; }
    assert NatValue("2") == 2 by { assert "2"[..0] == ""; }
    assert SortKey("1.9") == [1, 9];
    assert SortKey("1.10") == [1, 10];
    assert SortKey("2") == [2];
    assert TupleLess([9], [10]);
  }

  // --------------------------------------------------------- the stable sort

  /** No later key sorts strictly before an earlier one. */
  predicate KeySorted(s: seq<string>) {
    forall i, j :: 0 <= i < j < |s| ==> !TupleLess(SortKey(s[j]), SortKey(s[i]))
  }

  /** Puts `x` after every key that does not sort after it, as a stable sort does for a later element. */
  function InsertByKey(s: seq<string>, x: string): (r: seq<string>)
    ensures multiset(r) == multiset(s) + multiset{x}
    decreases |s|
  {
    if s == [] then [x]
    else if TupleLess(SortKey(x), SortKey(s[|s| - 1])) then
      assert s == s[..|s| - 1] + [s[|s| - 1]];
      InsertByKey(s[..|s| - 1], x) + [s[|s| - 1]]
    else s + [x]
  }

  /** `sorted(keys, key=_section_sort_key)`: Python's sort is stable. */
  function SortByKey(keys: seq<string>): (r: seq<string>)
    ensures multiset(r) == multiset(keys)
  {
    if keys == [] then []
    else
      assert keys == keys[..|keys| - 1] + [keys[|keys| - 1]];
      InsertByKey(SortByKey(keys[..|keys| - 1]), keys[|keys| - 1])
  }

  /** "Not after" is transitive, given that different tuples are ordered. */
  lemma NotAfterTransitive(a: string, b: string, c: string)
    requires !TupleLess(SortKey(b), SortKey(a)) && !TupleLess(SortKey(c), SortKey(b))
    ensures !TupleLess(SortKey(c), SortKey(a))
  {
    if TupleLess(SortKey(c), SortKey(a)) {
      if SortKey(a) == SortKey(b) {
      } else {
        TupleLessTotal(SortKey(a), SortKey(b));
        TupleLessTransitive(SortKey(c), SortKey(a), SortKey(b));
      }
    }
  }

  lemma {:induction false} InsertSorted(s: seq<string>, x: string)
    requires KeySorted(s)
    ensures KeySorted(InsertByKey(s, x))
    decreases |s|
  {
    if s != [] {
      var last := s[|s| - 1];
      var init := s[..|s| - 1];
      if TupleLess(SortKey(x), SortKey(last)) {
        InsertSorted(init, x);
        InsertedBelowLast(s, x);
        assert InsertByKey(s, x) == InsertByKey(init, x) + [last];
      } else {
        forall i | 0 <= i < |s| ensures !TupleLess(SortKey(x), SortKey(s[i])) {
          if i < |s| - 1 {
            NotAfterTransitive(s[i], last, x);
          }
        }
      }
    }
  }

  /** A key that sorts after none of a sorted sequence can follow it. */
  lemma SnocSorted(r: seq<string>, last: string)
    requires KeySorted(r)
    requires forall k :: 0 <= k < |r| ==> !TupleLess(SortKey(last), SortKey(r[k]))
    ensures KeySorted(r + [last])
  {
    var t := r + [last];
    forall i, j | 0 <= i < j < |t| ensures !TupleLess(SortKey(t[j]), SortKey(t[i])) {
      assert t[i] == r[i];
      if j < |r| { assert t[j] == r[j]; }
    }
  }

  /**
   * When `x` sorts before the last key, nothing it is inserted among sorts
   * after that last key, which can therefore stay last.
   */
  lemma InsertedBelowLast(s: seq<string>, x: string)
    requires KeySorted(s) && s != [] && TupleLess(SortKey(x), SortKey(s[|s| - 1]))
    requires KeySorted(InsertByKey(s[..|s| - 1], x))
    ensures KeySorted(InsertByKey(s[..|s| - 1], x) + [s[|s| - 1]])
  {
    var last := s[|s| - 1];
    var init := s[..|s| - 1];
    var r := InsertByKey(init, x);
    forall k | 0 <= k < |r| ensures !TupleLess(SortKey(last), SortKey(r[k])) {
      assert r[k] in multiset(init) + multiset{x} by { assert r[k] in multiset(r); }
      if r[k] == x {
        TupleLessIrreflexive(SortKey(x));
        if TupleLess(SortKey(last), SortKey(x)) {
          TupleLessTransitive(SortKey(x), SortKey(last), SortKey(x));
        }
      } else {
        assert r[k] in multiset(init);
        var m :| 0 <= m < |init| && init[m] == r[k];
        assert s[m] == r[k];
      }
    }
    SnocSorted(r, last);
  }

  /** The sort returns the keys ordered by their sort keys. */
  lemma {:induction false} SortByKeySorted(keys: seq<string>)
    ensures KeySorted(SortByKey(keys))
  {
    if keys != [] {
      SortByKeySorted(keys[..|keys| - 1]);
      InsertSorted(SortByKey(keys[..|keys| - 1]), keys[|keys| - 1]);
    }
  }

  predicate Distinct(s: seq<string>) {
    forall i, j :: 0 <= i < j < |s| ==> s[i] != s[j]
  }

  lemma {:induction false} InsertDistinct(s: seq<string>, x: string)
    requires Distinct(s) && x !in s
    ensures Distinct(InsertByKey(s, x))
    decreases |s|
  {
    if s != [] && TupleLess(SortKey(x), SortKey(s[|s| - 1])) {
      var init := s[..|s| - 1];
      var last := s[|s| - 1];
      InsertDistinct(init, x);
      var r := InsertByKey(init, x);
      assert last !in multiset(r) by {
        assert last !in init;
        assert multiset(r) == multiset(init) + multiset{x};
      }
      assert InsertByKey(s, x) == r + [last];
    }
  }

  /** Sorting distinct keys keeps them distinct. */
  lemma {:induction false} SortByKeyDistinct(keys: seq<string>)
    requires Distinct(keys)
    ensures Distinct(SortByKey(keys))
  {
    if keys != [] {
      var init := keys[..|keys| - 1];
      var x := keys[|keys| - 1];
      SortByKeyDistinct(init);
      assert x !in multiset(SortByKey(init)) by {
        assert x !in init;
      }
      InsertDistinct(SortByKey(init), x);
    }
  }
}
