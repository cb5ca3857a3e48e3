/** Character and string primitives, each with the meaning Python gives it. */
module Text {

  /** Python's `str.isspace()`: the characters that `str.strip()` removes and `\s` matches. */
  predicate IsSpace(c: char) {
    || c == ' '
    || ('\t' <= c <= '\r')
    || ('\U{1C}' <= c <= '\U{1F}')
    || c == '\U{85}' || c == '\U{A0}' || c == '\U{1680}'
    || ('\U{2000}' <= c <= '\U{200A}')
    || c == '\U{2028}' || c == '\U{2029}' || c == '\U{202F}' || c == '\U{205F}' || c == '\U{3000}'
  }

  /** The ASCII digits (`\d` restricted to ASCII). */
  predicate IsDigit(c: char) {
    '0' <= c <= '9'
  }

  predicate IsDigits(s: string) {
    forall k :: 0 <= k < |s| ==> IsDigit(s[k])
  }

  /** `\w` restricted to ASCII: letters, digits and the underscore. */
  predicate IsWordChar(c: char) {
    ('a' <= c <= 'z') || ('A' <= c <= 'Z') || IsDigit(c) || c == '_'
  }

  // ---------------------------------------------------------------- strip

  /** What `str.strip` removes: whitespace (no argument) or the characters of its argument. */
  datatype StripSet = Whitespace | Chars(chars: set<char>)

  predicate Drops(cs: StripSet, c: char) {
    match cs
    case Whitespace => IsSpace(c)
    case Chars(chars) => c in chars
  }

  /** Drops the leading characters of the set. */
  function TrimStart(s: string, cs: StripSet): (r: string)
    ensures |r| <= |s| && r == s[|s| - |r|..]
    ensures forall k :: 0 <= k < |s| - |r| ==> Drops(cs, s[k])
    ensures r == [] || !Drops(cs, r[0])
  {
    if s != [] && Drops(cs, s[0]) then TrimStart(s[1..], cs) else s
  }

  /** Drops the trailing characters of the set. */
  function TrimEnd(s: string, cs: StripSet): (r: string)
    ensures |r| <= |s| && r == s[..|r|]
    ensures forall k :: |r| <= k < |s| ==> Drops(cs, s[k])
    ensures r == [] || !Drops(cs, r[|r| - 1])
  {
    if s != [] && Drops(cs, s[|s| - 1]) then TrimEnd(s[..|s| - 1], cs) else s
  }

  /** Python's `s.strip()` (for `Whitespace`) and `s.strip(chars)`. */
  function Strip(s: string, cs: StripSet): (r: string)
    ensures r == [] || (!Drops(cs, r[0]) && !Drops(cs, r[|r| - 1]))
    ensures r == [] <==> forall k :: 0 <= k < |s| ==> Drops(cs, s[k])
    ensures forall k :: 0 <= k < |s| && !Drops(cs, s[k]) ==> s[k] in r
  {
    StripFacts(s, cs);
    TrimEnd(TrimStart(s, cs), cs)
  }

  /**
   * Everything stripped is in the set, every kept character survives, and the
   * result is one contiguous piece of the input.
   */
  lemma StripFacts(s: string, cs: StripSet)
    ensures var r := TrimEnd(TrimStart(s, cs), cs);
      && (r == [] <==> forall k :: 0 <= k < |s| ==> Drops(cs, s[k]))
      && (forall k :: 0 <= k < |s| && !Drops(cs, s[k]) ==> s[k] in r)
      && (exists a :: 0 <= a <= |s| - |r| && r == s[a..][..|r|])
  {
    var t := TrimStart(s, cs);
    var a := |s| - |t|;
    assert TrimEnd(t, cs) == s[a..][..|TrimEnd(t, cs)|];
    if t != [] {
      assert !Drops(cs, t[0]);
      assert TrimEnd(t, cs) != [];
    }
    forall k | 0 <= k < |s| && !Drops(cs, s[k]) ensures s[k] in TrimEnd(t, cs) {
      KeptSurvives(s, cs, k);
    }
  }

  lemma KeptSurvives(s: string, cs: StripSet, k: nat)
    requires k < |s| && !Drops(cs, s[k])
    ensures s[k] in TrimEnd(TrimStart(s, cs), cs)
  {
    var t := TrimStart(s, cs);
    var r := TrimEnd(t, cs);
    var j := k - (|s| - |t|);
    assert 0 <= j;
    assert t[j] == s[k];
    assert j < |r|;
    assert r[j] == t[j];
  }

  /** Stripping a string whose ends are already kept changes nothing. */
  lemma StripKeeps(s: string, cs: StripSet)
    requires s == [] || (!Drops(cs, s[0]) && !Drops(cs, s[|s| - 1]))
    ensures Strip(s, cs) == s
  {
  }

  // ------------------------------------------------------------ lower case

  /** `str.lower()` on one character, for the ASCII letters. */
  function LowerChar(c: char): char {
    if 'A' <= c <= 'Z' then (c as int + 32) as char else c
  }

  function Lower(s: string): (r: string)
    ensures |r| == |s|
    ensures forall k :: 0 <= k < |s| ==> r[k] == LowerChar(s[k])
  {
    if s == [] then [] else [LowerChar(s[0])] + Lower(s[1..])
  }

  // ------------------------------------------------------------ substrings

  /** `sub` occurs in `s` starting at index `i`. */
  predicate OccursAt(s: string, sub: string, i: nat) {
    i + |sub| <= |s| && s[i..i + |sub|] == sub
  }

  /** Python's `sub in s`. */
  predicate Contains(s: string, sub: string) {
    exists i | 0 <= i <= |s| :: OccursAt(s, sub, i)
  }

  /** An occurrence in a suffix is an occurrence in the whole string. */
  lemma ContainsSuffix(s: string, sub: string, d: nat)
    requires d <= |s|
    ensures Contains(s[d..], sub) ==> Contains(s, sub)
  {
    if !Contains(s[d..], sub) { return; }
    var i :| 0 <= i <= |s[d..]| && OccursAt(s[d..], sub, i);
    assert s[i + d..i + d + |sub|] == s[d..][i..i + |sub|];
    assert OccursAt(s, sub, i + d);
  }

  /** The index of the first `c` in `s`. */
  function IndexOf(s: string, c: char): (r: nat)
    requires c in s
    ensures r < |s| && s[r] == c && c !in s[..r]
  {
    if s[0] == c then 0 else 1 + IndexOf(s[1..], c)
  }

  // ------------------------------------------------------- split and join

  /** Python's `sep.join(parts)`. */
  function Join(sep: string, parts: seq<string>): string {
    if |parts| == 0 then ""
    else if |parts| == 1 then parts[0]
    else parts[0] + sep + Join(sep, parts[1..])
  }

  /** Python's `s.split(sep)` for a one-character separator. */
  function Split(s: string, sep: char): (r: seq<string>)
    ensures |r| >= 1
    ensures forall k :: 0 <= k < |r| ==> sep !in r[k]
    decreases |s|
  {
    if sep !in s then [s]
    else
      var i := IndexOf(s, sep);
      [s[..i]] + Split(s[i + 1..], sep)
  }

  /** A join ends in its last part. */
  lemma {:induction false} JoinLast(sep: string, parts: seq<string>)
    requires parts != []
    ensures |parts[|parts| - 1]| <= |Join(sep, parts)|
    ensures Join(sep, parts)[|Join(sep, parts)| - |parts[|parts| - 1]|..] == parts[|parts| - 1]
    decreases |parts|
  {
    if |parts| > 1 {
      JoinLast(sep, parts[1..]);
      var rest := Join(sep, parts[1..]);
      var j := Join(sep, parts);
      assert j == (parts[0] + sep) + rest;
      assert j[|j| - |rest|..] == rest;
    }
  }

  /** Joining the pieces of a split with the separator gives back the string. */
  lemma {:induction false} SplitJoin(s: string, sep: char)
    ensures Join([sep], Split(s, sep)) == s
    decreases |s|
  {
    if sep in s {
      var i := IndexOf(s, sep);
      var rest := Split(s[i + 1..], sep);
      SplitJoin(s[i + 1..], sep);
      var parts := Split(s, sep);
      assert parts[0] == s[..i] && parts[1..] == rest && |parts| >= 2;
      assert Join([sep], parts) == s[..i] + [sep] + Join([sep], rest);
      assert s == s[..i] + [sep] + s[i + 1..];
    }
  }

  /**
   * Python's `s.replace(old, new)`: every non-overlapping occurrence, left to
   * right; an empty `old` puts `new` before every character and at the end.
   */
  function ReplaceAll(s: string, pat: string, rep: string): (r: string)
    ensures |pat| > 0 && !Contains(s, pat) ==> r == s
    decreases |s|
  {
    if |pat| == 0 then
      if s == [] then rep else rep + [s[0]] + ReplaceAll(s[1..], pat, rep)
    else if |s| < |pat| then s
    else if s[..|pat|] == pat then
      assert OccursAt(s, pat, 0);
      rep + ReplaceAll(s[|pat|..], pat, rep)
    else
      ContainsSuffix(s, pat, 1);
      assert s == [s[0]] + s[1..];
      [s[0]] + ReplaceAll(s[1..], pat, rep)
  }

  /** An occurrence at the start is replaced, and the scan resumes after it. */
  lemma ReplaceAtStart(s: string, pat: string, rep: string)
    requires |pat| > 0 && OccursAt(s, pat, 0)
    ensures ReplaceAll(s, pat, rep) == rep + ReplaceAll(s[|pat|..], pat, rep)
  {
    assert s[..|pat|] == pat;
  }

  /** A first character that starts no occurrence is kept. */
  lemma ReplaceSkip(s: string, pat: string, rep: string)
    requires |pat| > 0 && |pat| <= |s| && !OccursAt(s, pat, 0)
    ensures ReplaceAll(s, pat, rep) == [s[0]] + ReplaceAll(s[1..], pat, rep)
  {
    assert s[..|pat|] != pat;
  }

  /**
   * The leftmost occurrence is replaced and the scan resumes after it: when
   * `pat` occurs right after `a` and nowhere earlier, the text before it is
   * kept, the occurrence becomes `rep`, and the rest is replaced in turn.
   */
  lemma {:induction false} ReplaceLeftmost(a: string, pat: string, b: string, rep: string)
    requires |pat| > 0
    requires forall i :: 0 <= i < |a| ==> !OccursAt(a + pat + b, pat, i)
    ensures ReplaceAll(a + pat + b, pat, rep) == a + rep + ReplaceAll(b, pat, rep)
    decreases |a|
  {
    var s := a + pat + b;
    if a == [] {
      assert s == pat + b && s[..|pat|] == pat && s[|pat|..] == b;
      ReplaceAtStart(s, pat, rep);
    } else {
      var t := a[1..] + pat + b;
      var r := ReplaceAll(b, pat, rep);
      assert s[1..] == t && s[0] == a[0];
      ReplaceSkip(s, pat, rep);
      NoEarlierOccurrence(a, pat, b);
      ReplaceLeftmost(a[1..], pat, b, rep);
      ConsConcat(a, rep, r);
    }
  }

  lemma ConsConcat(a: string, u: string, v: string)
    requires a != []
    ensures [a[0]] + (a[1..] + u + v) == a + u + v
  {
    assert a == [a[0]] + a[1..];
  }

  /** Dropping the first character keeps the later occurrences where they were, one place earlier. */
  lemma NoEarlierOccurrence(a: string, pat: string, b: string)
    requires a != []
    requires forall i :: 0 <= i < |a| ==> !OccursAt(a + pat + b, pat, i)
    ensures forall i :: 0 <= i < |a| - 1 ==> !OccursAt(a[1..] + pat + b, pat, i)
  {
    var s := a + pat + b;
    var t := a[1..] + pat + b;
    assert s[1..] == t;
    forall i | 0 <= i < |a| - 1 ensures !OccursAt(t, pat, i) {
      assert !OccursAt(s, pat, i + 1);
      assert s[i + 1..i + 1 + |pat|] == t[i..i + |pat|];
    }
  }

  // --------------------------------------------------------------- numbers

  /** The length of the run of digits that starts at index `i`. */
  function DigitRun(s: string, i: nat): (n: nat)
    requires i <= |s|
    ensures i + n <= |s|
    decreases |s| - i
  {
    if i < |s| && IsDigit(s[i]) then 1 + DigitRun(s, i + 1) else 0
  }

  lemma DigitRunAt(s: string, i: nat, n: nat)
    requires i + n <= |s|
    requires forall k :: i <= k < i + n ==> IsDigit(s[k])
    requires i + n == |s| || !IsDigit(s[i + n])
    ensures DigitRun(s, i) == n
    decreases n
  {
    if n > 0 { DigitRunAt(s, i + 1, n - 1); }
  }

  /** The characters a digit run passes over are digits. */
  lemma {:induction false} DigitRunDigits(s: string, i: nat)
    requires i <= |s|
    ensures forall k :: i <= k < i + DigitRun(s, i) ==> IsDigit(s[k])
    decreases |s| - i
  {
    if i < |s| && IsDigit(s[i]) { DigitRunDigits(s, i + 1); }
  }

  lemma SpaceRunAt(s: string, i: nat, n: nat)
    requires i + n <= |s|
    requires forall k :: i <= k < i + n ==> IsSpace(s[k])
    requires i + n == |s| || !IsSpace(s[i + n])
    ensures SpaceRun(s, i) == n
    decreases n
  {
    if n > 0 { SpaceRunAt(s, i + 1, n - 1); }
  }

  /** The length of the run of whitespace that starts at index `i`. */
  function SpaceRun(s: string, i: nat): (n: nat)
    requires i <= |s|
    ensures i + n <= |s|
    decreases |s| - i
  {
    if i < |s| && IsSpace(s[i]) then 1 + SpaceRun(s, i + 1) else 0
  }

  /** The characters a whitespace run passes over are whitespace. */
  lemma {:induction false} SpaceRunSpaces(s: string, i: nat)
    requires i <= |s|
    ensures forall k :: i <= k < i + SpaceRun(s, i) ==> IsSpace(s[k])
    decreases |s| - i
  {
    if i < |s| && IsSpace(s[i]) { SpaceRunSpaces(s, i + 1); }
  }

  /** The value of one ASCII digit (the model applies it to digits only). */
  function DigitValue(c: char): nat {
    if IsDigit(c) then c as int - '0' as int else 0
  }

  /** Python's `int(d)` for a run of ASCII digits (leading zeros allowed). */
  function NatValue(d: string): nat {
    if d == [] then 0 else NatValue(d[..|d| - 1]) * 10 + DigitValue(d[|d| - 1])
  }

  function DigitChar(n: nat): (c: char)
    requires n < 10
    ensures IsDigit(c) && c as int - '0' as int == n
  {
    ('0' as int + n) as char
  }

  /** Python's `str(n)` for a natural number. */
  function NatToString(n: nat): (r: string)
    ensures |r| > 0 && IsDigits(r)
  {
    if n < 10 then [DigitChar(n)] else NatToString(n / 10) + [DigitChar(n % 10)]
  }

  /** Python's `str(i)` for an integer. */
  function IntToString(i: int): (r: string)
    ensures |r| > 0 && (i < 0 <==> r[0] == '-')
  {
    if i < 0 then "-" + NatToString(-i) else NatToString(i)
  }

  /** `int(str(n)) == n`. */
  lemma {:induction false} NatToStringRoundTrip(n: nat)
    ensures NatValue(NatToString(n)) == n
  {
    var r := NatToString(n);
    if n >= 10 {
      NatToStringRoundTrip(n / 10);
      assert r[..|r| - 1] == NatToString(n / 10);
    } else {
      assert r[..|r| - 1] == [];
    }
  }
}
