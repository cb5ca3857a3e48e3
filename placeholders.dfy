/**
 * The placeholder token of the mapping table and of the report template: the
 * pattern `\[INSERT_[A-Z0-9_]+\]`, scanned character by character.
 */
module Placeholders {
  import opened Text
  import opened Wrappers

  const Opening := "[INSERT_"

  predicate IsNameChar(c: char) {
    ('A' <= c <= 'Z') || IsDigit(c) || c == '_'
  }

  /** `t` is one whole placeholder token. */
  predicate IsPlaceholder(t: string) {
    && |t| > |Opening| + 1
    && t[..|Opening|] == Opening
    && t[|t| - 1] == ']'
    && forall k :: |Opening| <= k < |t| - 1 ==> IsNameChar(t[k])
  }

  /** The length of the run of name characters that starts at index `i`. */
  function NameRun(s: string, i: nat): (n: nat)
    requires i <= |s|
    ensures i + n <= |s|
    ensures forall k :: i <= k < i + n ==> IsNameChar(s[k])
    ensures i + n == |s| || !IsNameChar(s[i + n])
    decreases |s| - i
  {
    if i < |s| && IsNameChar(s[i]) then 1 + NameRun(s, i + 1) else 0
  }

  /** The length of the token the pattern matches at index `i`, or 0 when it matches none there. */
  function MatchAt(s: string, i: nat): (n: nat)
    requires i <= |s|
    ensures n > 0 ==> i + n <= |s| && IsPlaceholder(s[i..i + n])
  {
    if OccursAt(s, Opening, i) then
      var run := NameRun(s, i + |Opening|);
      var close := i + |Opening| + run;
      if run > 0 && close < |s| && s[close] == ']' then
        assert s[i..close + 1][..|Opening|] == s[i..i + |Opening|];
        |Opening| + run + 1
      else 0
    else 0
  }

  /** The pattern matches at `i` every placeholder that occurs there, and only that one. */
  lemma MatchAtComplete(s: string, i: nat, t: string)
    requires i <= |s| && OccursAt(s, t, i) && IsPlaceholder(t)
    ensures MatchAt(s, i) == |t|
  {
    var o := |Opening|;
    assert s[i..i + o] == t[..o];
    var run := NameRun(s, i + o);
    forall p | i + o <= p < i + |t| - 1 ensures IsNameChar(s[p]) {
      assert s[p] == t[p - i];
    }
    assert s[i + |t| - 1] == t[|t| - 1] == ']';
    assert run == |t| - o - 1;
  }

  /** No match can begin strictly inside another: `[` occurs in a token only at its start. */
  lemma NoOpeningInside(s: string, i: nat, j: nat)
    requires i <= |s| && i < j < i + MatchAt(s, i)
    ensures s[j] != '['
  {
    var n := MatchAt(s, i);
    var t := s[i..i + n];
    assert s[j] == t[j - i];
    if j - i < |Opening| {
      assert t[..|Opening|][j - i] == Opening[j - i];
    }
  }

  /** The index of the leftmost match at or after `i`. */
  function FirstFrom(s: string, i: nat): (r: Option<nat>)
    requires i <= |s|
    ensures r.Some? ==> i <= r.value <= |s| && MatchAt(s, r.value) > 0
    ensures r.Some? ==> forall j :: i <= j < r.value ==> MatchAt(s, j) == 0
    ensures r.None? ==> forall j :: i <= j <= |s| ==> MatchAt(s, j) == 0
    decreases |s| - i
  {
    if MatchAt(s, i) > 0 then Some(i)
    else if i == |s| then None
    else FirstFrom(s, i + 1)
  }

  /** `re.search` for the pattern: the leftmost placeholder token in `s`, if any. */
  function Search(s: string): (r: Option<string>)
    ensures r.Some? ==> IsPlaceholder(r.value)
    ensures r.Some? ==> exists j :: 0 <= j <= |s| && OccursAt(s, r.value, j) && forall k :: 0 <= k < j ==> MatchAt(s, k) == 0
    ensures r.None? <==> forall j, t :: 0 <= j <= |s| && OccursAt(s, t, j) ==> !IsPlaceholder(t)
  {
    match FirstFrom(s, 0)
    case Some(j) =>
      var t := s[j..j + MatchAt(s, j)];
      assert OccursAt(s, t, j);
      Some(t)
    case None =>
      forall j, t | 0 <= j <= |s| && OccursAt(s, t, j) ensures !IsPlaceholder(t) {
        if IsPlaceholder(t) { MatchAtComplete(s, j, t); }
      }
      None
  }

  /** The tokens `re.findall` reports from index `i` on, as a set. */
  function ScanFrom(s: string, i: nat): (r: set<string>)
    requires i <= |s|
    ensures forall t :: t in r <==> IsPlaceholder(t) && exists j :: i <= j <= |s| && OccursAt(s, t, j)
    decreases |s| - i
  {
    if i == |s| then
      NothingAtEnd(s);
      {}
    else
      var n := MatchAt(s, i);
      var next := if n > 0 then i + n else i + 1;
      var rest := ScanFrom(s, next);
      ScanCharacterized(s, i, n, next, rest);
      if n > 0 then {s[i..i + n]} + rest else rest
  }

  /** One step of the scan keeps the set equal to the tokens that occur from the scan position on. */
  lemma ScanCharacterized(s: string, i: nat, n: nat, next: nat, rest: set<string>)
    requires i < |s| && n == MatchAt(s, i) && next == (if n > 0 then i + n else i + 1)
    requires forall t :: t in rest <==> IsPlaceholder(t) && exists j :: next <= j <= |s| && OccursAt(s, t, j)
    ensures forall t :: t in (if n > 0 then {s[i..i + n]} + rest else rest) <==>
      IsPlaceholder(t) && exists j :: i <= j <= |s| && OccursAt(s, t, j)
  {
    var r := if n > 0 then {s[i..i + n]} + rest else rest;
    ScanStep(s, i);
    forall t ensures t in r <==> IsPlaceholder(t) && exists j :: i <= j <= |s| && OccursAt(s, t, j) {
      if t in r {
        if n > 0 && t == s[i..i + n] {
          assert OccursAt(s, t, i);
        } else {
          var j :| next <= j <= |s| && OccursAt(s, t, j);
          assert i <= j;
        }
      }
      if IsPlaceholder(t) && exists j :: i <= j <= |s| && OccursAt(s, t, j) {
        var j :| i <= j <= |s| && OccursAt(s, t, j);
        if !(j == i && t == s[i..i + n] && n > 0) {
          assert next <= j;
          assert t in rest;
        }
      }
    }
  }

  lemma NothingAtEnd(s: string)
    ensures forall t :: IsPlaceholder(t) ==> !OccursAt(s, t, |s|)
  {
  }

  /** A token that occurs at or after `i` is the one matched at `i`, or occurs after that match. */
  lemma ScanStep(s: string, i: nat)
    requires i < |s|
    ensures var n := MatchAt(s, i);
      forall t, j :: IsPlaceholder(t) && i <= j <= |s| && OccursAt(s, t, j) ==>
        (j == i && t == s[i..i + n] && n > 0) || j >= i + (if n > 0 then n else 1)
  {
    var n := MatchAt(s, i);
    forall t, j | IsPlaceholder(t) && i <= j <= |s| && OccursAt(s, t, j)
      ensures (j == i && t == s[i..i + n] && n > 0) || j >= i + (if n > 0 then n else 1)
    {
      if j == i {
        MatchAtComplete(s, i, t);
      } else {
        assert t[..|Opening|][0] == Opening[0];
        assert s[j] == t[0] == '[';
        if j < i + n {
          NoOpeningInside(s, i, j);
        }
      }
    }
  }

  /** `set(re.findall(pattern, s))`: exactly the placeholder tokens that occur in `s`. */
  function AllIn(s: string): (r: set<string>)
    ensures forall t :: t in r <==> IsPlaceholder(t) && Contains(s, t)
  {
    ScanFrom(s, 0)
  }
}
