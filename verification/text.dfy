/** The Python string built-ins the services rely on: `str.isspace` (which is
    also the `\s` class of `re` on `str` patterns), `strip`, `re.sub(r'\s+', ' ', _)`,
    `lower`, the `in` operator on strings, `replace`, `split` and `join`. */
module Text {

  /** Python's `str.isspace()`: the characters whose bidirectional class is
      WS, B or S, or whose general category is Zs. */
  predicate IsSpace(c: char) {
    ('\U{9}' <= c <= '\U{D}') || ('\U{1C}' <= c <= '\U{20}')
    || c == '\U{85}' || c == '\U{A0}' || c == '\U{1680}'
    || ('\U{2000}' <= c <= '\U{200A}')
    || c == '\U{2028}' || c == '\U{2029}' || c == '\U{202F}' || c == '\U{205F}'
    || c == '\U{3000}'
  }

  /** `not s or not s.strip()`: empty or whitespace only. */
  predicate IsBlank(s: string) {
    forall i :: 0 <= i < |s| ==> IsSpace(s[i])
  }

  /** How many whitespace characters `s` starts with. */
  function LeadingSpaces(s: string): (n: nat)
    ensures n <= |s|
    ensures forall i :: 0 <= i < n ==> IsSpace(s[i])
    ensures n < |s| ==> !IsSpace(s[n])
  {
    if s != [] && IsSpace(s[0]) then 1 + LeadingSpaces(s[1..]) else 0
  }

  /** Where the whitespace that `s` ends with begins. */
  function TrailingStart(s: string): (n: nat)
    ensures n <= |s|
    ensures forall i :: n <= i < |s| ==> IsSpace(s[i])
    ensures 0 < n ==> !IsSpace(s[n - 1])
  {
    if s != [] && IsSpace(s[|s| - 1]) then TrailingStart(s[..|s| - 1]) else |s|
  }

  /** `s.lstrip()` */
  function TrimLeft(s: string): (r: string)
    ensures |r| <= |s| && r == s[|s| - |r|..]
    ensures IsBlank(s[..|s| - |r|])
    ensures r == [] || !IsSpace(r[0])
  {
    s[LeadingSpaces(s)..]
  }

  /** `s.rstrip()` */
  function TrimRight(s: string): (r: string)
    ensures |r| <= |s| && r == s[..|r|]
    ensures IsBlank(s[|r|..])
    ensures r == [] || !IsSpace(r[|r| - 1])
  {
    s[..TrailingStart(s)]
  }

  lemma BlankWithoutLeadingSpace(t: string)
    requires IsBlank(t)
    requires t == [] || !IsSpace(t[0])
    ensures t == []
  {
  }

  /** Where `s.strip()` starts in `s`. */
  function StripStart(s: string): (i: nat)
    ensures i <= |s|
  {
    |s| - |TrimLeft(s)|
  }

  /** `s.strip()`: the middle of `s` between two blank ends, which is empty
      exactly when `s` is blank. */
  function Strip(s: string): (r: string)
    ensures r == [] <==> IsBlank(s)
    ensures r == [] || (!IsSpace(r[0]) && !IsSpace(r[|r| - 1]))
    ensures StripStart(s) + |r| <= |s| && r == s[StripStart(s)..StripStart(s) + |r|]
    ensures IsBlank(s[..StripStart(s)]) && IsBlank(s[StripStart(s) + |r|..])
  {
    var t := TrimLeft(s);
    var r := TrimRight(t);
    var i := |s| - |t|;
    assert i == StripStart(s);
    assert t == s[i..];
    assert IsBlank(s[..i]);
    assert r == t[..|r|] && IsBlank(t[|r|..]);
    assert s[i..i + |r|] == t[..|r|];
    assert s[i + |r|..] == t[|r|..];
    assert r == [] <==> IsBlank(s) by {
      if r == [] {
        assert t == t[|r|..];
        BlankWithoutLeadingSpace(t);
        assert s == s[..i];
      }
      if IsBlank(s) {
        assert IsBlank(t);
        BlankWithoutLeadingSpace(t);
      }
    }
    r
  }

  /** `re.sub(r'\s+', ' ', s)`: every maximal run of whitespace becomes one blank. */
  function SquashSpaces(s: string): (r: string)
    ensures r == [] <==> s == []
    ensures r != [] ==> (IsSpace(r[0]) <==> IsSpace(s[0]))
    ensures r != [] ==> (IsSpace(r[|r| - 1]) <==> IsSpace(s[|s| - 1]))
    decreases |s|
  {
    if s == [] then []
    else if IsSpace(s[0]) then
      var t := TrimLeft(s);
      assert t == [] || |t| < |s|;
      assert t != [] ==> s[|s| - 1] == t[|t| - 1];
      " " + SquashSpaces(t)
    else [s[0]] + SquashSpaces(s[1..])
  }

  /** Whitespace only ever appears as a single blank between other characters
      or at the ends. */
  predicate Squashed(r: string) {
    forall i :: 0 <= i < |r| && IsSpace(r[i]) ==>
      r[i] == ' ' && (i + 1 < |r| ==> !IsSpace(r[i + 1]))
  }

  /** The characters of `s` that are not whitespace, in order. */
  function NonSpace(s: string): string {
    if s == [] then []
    else (if IsSpace(s[0]) then [] else [s[0]]) + NonSpace(s[1..])
  }

  lemma {:induction false} NonSpaceAppend(a: string, b: string)
    ensures NonSpace(a + b) == NonSpace(a) + NonSpace(b)
  {
    if a != [] {
      assert (a + b)[1..] == a[1..] + b;
      NonSpaceAppend(a[1..], b);
    } else {
      assert a + b == b;
    }
  }

  lemma NonSpaceOfBlank(s: string)
    requires IsBlank(s)
    ensures NonSpace(s) == []
  {
    if s != [] { NonSpaceOfBlank(s[1..]); }
  }

  lemma SquashedCons(c: char, q: string)
    requires Squashed(q)
    requires IsSpace(c) ==> c == ' ' && (q == [] || !IsSpace(q[0]))
    ensures Squashed([c] + q)
  {
    forall i | 0 <= i < |[c] + q| && IsSpace(([c] + q)[i])
      ensures ([c] + q)[i] == ' ' && (i + 1 < |[c] + q| ==> !IsSpace(([c] + q)[i + 1]))
    {
      if i > 0 { assert ([c] + q)[i] == q[i - 1]; }
      if i + 1 < |[c] + q| { assert ([c] + q)[i + 1] == q[i]; }
    }
  }

  /** The whitespace squash leaves whitespace only as single blanks. */
  lemma {:induction false} SquashSpacesSquashed(s: string)
    ensures Squashed(SquashSpaces(s))
    decreases |s|
  {
    if s == [] {
    } else if IsSpace(s[0]) {
      var t := TrimLeft(s);
      assert t == [] || |t| < |s|;
      SquashSpacesSquashed(t);
      SquashedCons(' ', SquashSpaces(t));
      assert SquashSpaces(s) == [' '] + SquashSpaces(t);
    } else {
      SquashSpacesSquashed(s[1..]);
      SquashedCons(s[0], SquashSpaces(s[1..]));
      assert SquashSpaces(s) == [s[0]] + SquashSpaces(s[1..]);
    }
  }

  lemma {:induction false} TrimLeftKeepsNonSpace(s: string)
    ensures NonSpace(TrimLeft(s)) == NonSpace(s)
  {
    if s != [] && IsSpace(s[0]) { TrimLeftKeepsNonSpace(s[1..]); }
  }

  /** The whitespace squash keeps every other character, in order. */
  lemma {:induction false} SquashSpacesKeepsNonSpace(s: string)
    ensures NonSpace(SquashSpaces(s)) == NonSpace(s)
    decreases |s|
  {
    if s == [] {
    } else if IsSpace(s[0]) {
      var t := TrimLeft(s);
      assert t == [] || |t| < |s|;
      SquashSpacesKeepsNonSpace(t);
      TrimLeftKeepsNonSpace(s);
      var q := SquashSpaces(t);
      assert SquashSpaces(s) == " " + q;
      assert (" " + q)[1..] == q;
    } else {
      SquashSpacesKeepsNonSpace(s[1..]);
      var q := SquashSpaces(s[1..]);
      assert SquashSpaces(s) == [s[0]] + q;
      assert ([s[0]] + q)[1..] == q;
    }
  }

  /** `re.sub(r'\s+', ' ', s.strip())`: empty exactly for blank input, no
      whitespace at either end, no two whitespace characters side by side,
      and the same non-whitespace characters in the same order. */
  function Collapse(s: string): (r: string)
    ensures r == [] <==> IsBlank(s)
    ensures r == [] || (!IsSpace(r[0]) && !IsSpace(r[|r| - 1]))
    ensures Squashed(r)
    ensures NonSpace(r) == NonSpace(s)
  {
    var t := Strip(s);
    SquashSpacesSquashed(t);
    SquashSpacesKeepsNonSpace(t);
    StripKeepsNonSpace(s);
    SquashSpaces(t)
  }

  lemma StripKeepsNonSpace(s: string)
    ensures NonSpace(Strip(s)) == NonSpace(s)
  {
    var r := Strip(s);
    var i := StripStart(s);
    var front, back := s[..i], s[i + |r|..];
    assert s[i..] == s[i..i + |r|] + back;
    assert s == front + s[i..];
    NonSpaceAppend(front, r + back);
    NonSpaceAppend(r, back);
    NonSpaceOfBlank(front);
    NonSpaceOfBlank(back);
  }

  predicate IsAsciiUpper(c: char) {
    'A' <= c <= 'Z'
  }

  /** `str.lower()` on one character; only the ASCII letters are mapped. */
  function LowerChar(c: char): (d: char)
    ensures !IsAsciiUpper(d)
    ensures IsAsciiUpper(c) ==> d as int == c as int + 32
    ensures !IsAsciiUpper(c) ==> d == c
  {
    if IsAsciiUpper(c) then (c as int + 32) as char else c
  }

  /** `s.lower()`, character by character. */
  function Lower(s: string): (r: string)
    ensures |r| == |s|
    ensures forall i :: 0 <= i < |s| ==> r[i] == LowerChar(s[i])
  {
    seq(|s|, i requires 0 <= i < |s| => LowerChar(s[i]))
  }

  /** `s.startswith(p)` */
  predicate StartsWith(s: string, p: string) {
    |p| <= |s| && s[..|p|] == p
  }

  predicate OccursAt(s: string, sub: string, i: int) {
    0 <= i && i + |sub| <= |s| && s[i..i + |sub|] == sub
  }

  /** `sub in s` for two strings. */
  predicate Contains(s: string, sub: string) {
    exists i | 0 <= i <= |s| :: OccursAt(s, sub, i)
  }

  /** `s.replace(pat, "")`: a left-to-right scan that deletes each
      non-overlapping occurrence of `pat` found in the original string. */
  function RemoveAll(s: string, pat: string): (r: string)
    requires pat != []
    ensures |r| <= |s|
    decreases |s|
  {
    if |s| < |pat| then s
    else if s[..|pat|] == pat then RemoveAll(s[|pat|..], pat)
    else [s[0]] + RemoveAll(s[1..], pat)
  }

  /** Deleting a pattern that does not occur changes nothing. */
  lemma {:induction false} RemoveAllAbsent(s: string, pat: string)
    requires pat != []
    requires !Contains(s, pat)
    ensures RemoveAll(s, pat) == s
    decreases |s|
  {
    if |s| >= |pat| {
      assert !OccursAt(s, pat, 0);
      assert s[..|pat|] != pat;
      forall i | 0 <= i <= |s[1..]| ensures !OccursAt(s[1..], pat, i) {
        assert !OccursAt(s, pat, i + 1);
        if i + |pat| <= |s[1..]| {
          assert s[1..][i..i + |pat|] == s[i + 1..i + 1 + |pat|];
        }
      }
      RemoveAllAbsent(s[1..], pat);
    }
  }

  /** `s.replace(a, b)` for single characters. */
  function ReplaceChar(s: string, a: char, b: char): (r: string)
    ensures |r| == |s|
    ensures forall i :: 0 <= i < |s| ==> r[i] == (if s[i] == a then b else s[i])
  {
    seq(|s|, i requires 0 <= i < |s| => if s[i] == a then b else s[i])
  }

  /** Drops the leading run of non-whitespace characters. */
  function DropWord(s: string): (r: string)
    ensures |r| <= |s| && r == s[|s| - |r|..]
    ensures forall i :: 0 <= i < |s| - |r| ==> !IsSpace(s[i])
    ensures r == [] || IsSpace(r[0])
    ensures s != [] && !IsSpace(s[0]) ==> |r| < |s|
  {
    if s != [] && !IsSpace(s[0]) then
      assert forall i :: 1 <= i < |s| ==> s[1..][i - 1] == s[i];
      DropWord(s[1..])
    else s
  }

  /** `len(s.split())`: the number of maximal runs of non-whitespace characters. */
  function WordCount(s: string): (n: nat)
    ensures n == 0 <==> IsBlank(s)
    ensures n <= |s|
    decreases |s|
  {
    var t := TrimLeft(s);
    assert t != [] ==> t[0] == s[|s| - |t|];
    assert t == [] ==> s == s[..|s|];
    if t == [] then 0 else 1 + WordCount(DropWord(t))
  }

  /** A word of `s` starts at `i`: a non-whitespace character at the start of
      `s` or right after whitespace. */
  predicate WordStart(s: string, i: int)
    requires 0 <= i < |s|
  {
    !IsSpace(s[i]) && (i == 0 || IsSpace(s[i - 1]))
  }

  function WordStarts(s: string): set<int> {
    set i | 0 <= i < |s| && WordStart(s, i)
  }

  lemma WordStartsStep(s: string)
    requires s != []
    ensures |WordStarts(s)| == |WordStarts(s[..|s| - 1])| + (if WordStart(s, |s| - 1) then 1 else 0)
  {
    var n := |s| - 1;
    var init := s[..n];
    assert forall i :: 0 <= i < n ==> (WordStart(init, i) <==> WordStart(s, i));
    assert WordStarts(s) == WordStarts(init) + (if WordStart(s, n) then {n} else {});
    assert n !in WordStarts(init);
  }

  /** Joining at whitespace neither merges two words nor splits one. */
  lemma {:induction false} WordStartsConcat(a: string, b: string)
    requires a == [] || IsSpace(a[|a| - 1]) || b == [] || IsSpace(b[0])
    ensures |WordStarts(a + b)| == |WordStarts(a)| + |WordStarts(b)|
    decreases |b|
  {
    if b == [] {
      assert a + b == a;
      assert WordStarts(b) == {};
    } else {
      var n := |b| - 1;
      var init := b[..n];
      WordStartsConcat(a, init);
      assert (a + b)[..|a + b| - 1] == a + init;
      WordStartsStep(a + b);
      WordStartsStep(b);
      assert (a + b)[|a| + n] == b[n];
      if n > 0 {
        assert (a + b)[|a| + n - 1] == b[n - 1];
      }
    }
  }

  lemma BlankHasNoWordStart(s: string)
    requires IsBlank(s)
    ensures WordStarts(s) == {}
  {
  }

  lemma OneWordStart(w: string)
    requires w != []
    requires forall i :: 0 <= i < |w| ==> !IsSpace(w[i])
    ensures WordStarts(w) == {0}
  {
    assert WordStart(w, 0);
  }

  /** Leading whitespace holds no word start. */
  lemma TrimLeftWordStarts(s: string)
    ensures |WordStarts(s)| == |WordStarts(TrimLeft(s))|
  {
    var t := TrimLeft(s);
    var k := |s| - |t|;
    assert s == s[..k] + t;
    BlankHasNoWordStart(s[..k]);
    WordStartsConcat(s[..k], t);
  }

  /** A text starting with a word has that word's start and those after it. */
  lemma DropWordWordStarts(t: string)
    requires t != [] && !IsSpace(t[0])
    ensures |WordStarts(t)| == 1 + |WordStarts(DropWord(t))|
  {
    var u := DropWord(t);
    var m := |t| - |u|;
    assert t == t[..m] + u;
    OneWordStart(t[..m]);
    WordStartsConcat(t[..m], u);
  }

  /** `len(s.split())` counts the positions where a word starts. */
  lemma {:induction false} WordCountIsWordStarts(s: string)
    ensures WordCount(s) == |WordStarts(s)|
    decreases |s|
  {
    var t := TrimLeft(s);
    TrimLeftWordStarts(s);
    if t == [] {
      assert WordStarts(t) == {};
    } else {
      DropWordWordStarts(t);
      WordCountIsWordStarts(DropWord(t));
    }
  }

  /** `sep.join(parts)` */
  function Join(parts: seq<string>, sep: string): (r: string)
    ensures parts == [] ==> r == []
    ensures |parts| == 1 ==> r == parts[0]
  {
    if parts == [] then []
    else if |parts| == 1 then parts[0]
    else parts[0] + sep + Join(parts[1..], sep)
  }
}
