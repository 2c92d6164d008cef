/** The ECMAScript string built-ins the core relies on (ECMA-262): what `\s`
    matches, `String.prototype.trim`, `split` and `indexOf` with a non-empty
    string separator, `Array.prototype.join`, and `substring(0, n)`.
    Here a string is a `seq<char>` and a `char` is a Unicode scalar value.
    ECMAScript counts a character outside the Basic Multilingual Plane as
    two UTF-16 code units, which of these built-ins only `substring` (here
    `Prefix`) can observe. */
module JsStrings {

  /** LineTerminator (ECMA-262, section 12.3). */
  predicate IsLineTerminator(c: char) {
    c == '\n' || c == '\r' || c == '\U{2028}' || c == '\U{2029}'
  }

  /** WhiteSpace or LineTerminator (ECMA-262, sections 12.2 and 12.3): the
      characters the regular-expression class `\s` matches and the ones
      `trim` removes. WhiteSpace is TAB, VT, FF, SP, NBSP, ZWNBSP and the
      Unicode category Zs. */
  predicate IsWs(c: char) {
    IsLineTerminator(c)
    || c == '\t' || c == '\U{000B}' || c == '\U{000C}' || c == ' '
    || c == '\U{00A0}' || c == '\U{FEFF}' || c == '\U{1680}'
    || ('\U{2000}' <= c <= '\U{200A}')
    || c == '\U{202F}' || c == '\U{205F}' || c == '\U{3000}'
  }

  /** Every character is white space (the empty string included). */
  predicate IsBlank(s: string) {
    forall i :: 0 <= i < |s| ==> IsWs(s[i])
  }

  /** Number of white-space characters at the front of `s`. */
  function LeadingWs(s: string): (k: nat)
    ensures k <= |s|
    ensures IsBlank(s[..k])
    ensures k < |s| ==> !IsWs(s[k])
  {
    if s != [] && IsWs(s[0]) then
      var k' := LeadingWs(s[1..]);
      assert s[..1 + k'] == [s[0]] + s[1..][..k'];
      1 + k'
    else 0
  }

  /** Number of white-space characters at the end of `s`. */
  function TrailingWs(s: string): (k: nat)
    ensures k <= |s|
    ensures IsBlank(s[|s| - k..])
    ensures k < |s| ==> !IsWs(s[|s| - 1 - k])
  {
    if s != [] && IsWs(s[|s| - 1]) then
      var s' := s[..|s| - 1];
      var k' := TrailingWs(s');
      assert s[|s| - (1 + k')..] == s'[|s'| - k'..] + [s[|s| - 1]];
      1 + k'
    else 0
  }

  /** `r` is what `s.trim()` leaves: an infix of `s` with blank text on
      both sides, empty exactly when `s` is blank, and otherwise starting and
      ending with a character that is not white space. */
  ghost predicate IsTrimOf(s: string, r: string) {
    && (r == [] || (!IsWs(r[0]) && !IsWs(r[|r| - 1])))
    && (r == [] <==> IsBlank(s))
    && |r| <= |s|
    && (forall c :: c in r ==> c in s)
    && (exists i :: BlankAround(s, r, i))
  }

  /** `r` sits in `s` at index `i` with only white space before and after. */
  predicate BlankAround(s: string, r: string, i: int) {
    0 <= i <= |s| - |r| && r == s[i..i + |r|] && IsBlank(s[..i]) && IsBlank(s[i + |r|..])
  }

  /** `s.trim()`: the infix of `s` left once the white space at both ends is
      removed. */
  function Trim(s: string): (r: string)
    ensures IsTrimOf(s, r)
  {
    var a := LeadingWs(s);
    var b := TrailingWs(s[a..]);
    TrimSlice(s, a, b);
    s[a..|s| - b]
  }

  /** The facts about the infix `Trim` keeps, once the two white-space runs
      are known. */
  lemma TrimSlice(s: string, a: nat, b: nat)
    requires a <= |s| && b <= |s| - a
    requires IsBlank(s[..a]) && (a < |s| ==> !IsWs(s[a]))
    requires IsBlank(s[a..][|s| - a - b..]) && (b < |s| - a ==> !IsWs(s[a..][|s| - a - 1 - b]))
    ensures IsTrimOf(s, s[a..|s| - b])
  {
    TrimSliceBack(s, a, b);
    var r := s[a..|s| - b];
    if r == [] {
      TrimBlank(s, a);
    } else {
      assert r[0] == s[a] && r[|r| - 1] == s[|s| - 1 - b];
      assert !IsBlank(s) by { assert !IsWs(s[a]); }
    }
    TrimSliceChars(s, a, b);
    assert r == s[a..a + |r|];
    assert BlankAround(s, r, a);
  }

  /** The trailing run, measured on `s[a..]`, read back on `s`. */
  lemma TrimSliceBack(s: string, a: nat, b: nat)
    requires a <= |s| && b <= |s| - a
    requires IsBlank(s[a..][|s| - a - b..]) && (b < |s| - a ==> !IsWs(s[a..][|s| - a - 1 - b]))
    ensures IsBlank(s[|s| - b..]) && (b < |s| - a ==> !IsWs(s[|s| - 1 - b]))
  {
    assert s[a..][|s| - a - b..] == s[|s| - b..];
  }

  /** Every character of an infix is a character of the text. */
  lemma TrimSliceChars(s: string, a: nat, b: nat)
    requires a <= |s| && b <= |s| - a
    ensures forall c :: c in s[a..|s| - b] ==> c in s
  {
    var r := s[a..|s| - b];
    forall c | c in r ensures c in s {
      var i :| 0 <= i < |r| && r[i] == c;
      assert s[a + i] == c;
    }
  }

  /** Two blank pieces that meet make a blank text. */
  lemma TrimBlank(s: string, a: nat)
    requires a <= |s| && IsBlank(s[..a]) && IsBlank(s[a..])
    ensures IsBlank(s)
  {
    forall i | 0 <= i < |s| ensures IsWs(s[i]) {
      if i < a { assert s[i] == s[..a][i]; } else { assert s[i] == s[a..][i - a]; }
    }
  }


  /** The separator occurs in `s` starting at index `k`. */
  predicate OccursAt(s: string, sep: string, k: int) {
    0 <= k && k + |sep| <= |s| && s[k..k + |sep|] == sep
  }

  /** `s.indexOf(sep, from)` for a non-empty separator: the first index at or
      after `from` where `sep` occurs, or -1 when there is none. */
  function IndexOfFrom(s: string, sep: string, from: nat): (r: int)
    requires sep != []
    ensures r == -1 || (from <= r && OccursAt(s, sep, r))
    ensures r == -1 ==> forall k :: from <= k ==> !OccursAt(s, sep, k)
    ensures r != -1 ==> forall k :: from <= k < r ==> !OccursAt(s, sep, k)
    decreases |s| - from
  {
    if from + |sep| > |s| then -1
    else if s[from..from + |sep|] == sep then from
    else IndexOfFrom(s, sep, from + 1)
  }

  /** `s.indexOf(sep)`. */
  function IndexOf(s: string, sep: string): (r: int)
    requires sep != []
    ensures r == -1 || OccursAt(s, sep, r)
    ensures r == -1 ==> forall k :: !OccursAt(s, sep, k)
    ensures r != -1 ==> forall k :: k < r ==> !OccursAt(s, sep, k)
  {
    IndexOfFrom(s, sep, 0)
  }

  /** `s.split(sep)` for a non-empty separator: the pieces between the
      occurrences of `sep` found by a left-to-right scan that resumes after
      each occurrence (so overlapping occurrences are not counted twice). */
  function Split(s: string, sep: string): (parts: seq<string>)
    requires sep != []
    ensures |parts| >= 1
    ensures forall p :: p in parts ==> IndexOf(p, sep) == -1
    decreases |s|
  {
    var k := IndexOf(s, sep);
    if k == -1 then [s]
    else
      var head := s[..k];
      assert IndexOf(head, sep) == -1 by {
        forall j | 0 <= j && j + |sep| <= |head| ensures !OccursAt(head, sep, j) {
          assert head[j..j + |sep|] == s[j..j + |sep|];
          assert !OccursAt(s, sep, j);
        }
      }
      [head] + Split(s[k + |sep|..], sep)
  }

  /** `parts.join(sep)`. */
  function Join(parts: seq<string>, sep: string): string {
    if |parts| == 0 then ""
    else if |parts| == 1 then parts[0]
    else parts[0] + sep + Join(parts[1..], sep)
  }

  /** Splitting and re-joining with the same separator gives back the text. */
  lemma {:induction false} JoinSplit(s: string, sep: string)
    requires sep != []
    ensures Join(Split(s, sep), sep) == s
    decreases |s|
  {
    var k := IndexOf(s, sep);
    if k != -1 {
      var rest := s[k + |sep|..];
      var tail := Split(rest, sep);
      JoinSplit(rest, sep);
      var parts := [s[..k]] + tail;
      assert Split(s, sep) == parts;
      assert parts[1..] == tail;
      assert Join(parts, sep) == s[..k] + sep + Join(tail, sep);
      assert s == s[..k] + sep + rest by {
        assert s[k..k + |sep|] == sep;
      }
    }
  }

  /** The first piece of a split is the text before the first occurrence. */
  lemma SplitHead(s: string, sep: string)
    requires sep != []
    ensures IndexOf(s, sep) == -1 ==> Split(s, sep) == [s]
    ensures IndexOf(s, sep) != -1 ==> Split(s, sep)[0] == s[..IndexOf(s, sep)]
  {
  }

  /** When the first occurrence of the separator is the one right after
      `a`, the split is `a` followed by the split of what comes after it. */
  lemma SplitAtFirst(a: string, sep: string, rest: string)
    requires sep != []
    requires IndexOf(a + sep + rest, sep) == |a|
    ensures Split(a + sep + rest, sep) == [a] + Split(rest, sep)
  {
    var s := a + sep + rest;
    assert s[..|a|] == a;
    assert s[|a| + |sep|..] == rest;
  }

  /** When the separator occurs at `i`, the split is the text before the
      first occurrence, which is at or before `i`, followed by the split of
      what comes after that occurrence. */
  lemma SplitUnfold(s: string, sep: string, i: nat)
    requires sep != [] && OccursAt(s, sep, i)
    ensures var k := IndexOf(s, sep);
            0 <= k <= i && Split(s, sep) == [s[..k]] + Split(s[k + |sep|..], sep)
  {
  }

  /** Two occurrences of the separator that do not overlap give at least
      three pieces. */
  lemma TwoOccurrences(s: string, sep: string, i: nat, j: nat)
    requires sep != [] && OccursAt(s, sep, i) && OccursAt(s, sep, j) && i + |sep| <= j
    ensures |Split(s, sep)| >= 3
  {
    SplitUnfold(s, sep, i);
    var k := IndexOf(s, sep);
    var rest := s[k + |sep|..];
    var j' := j - (k + |sep|);
    assert OccursAt(rest, sep, j') by {
      assert rest[j'..j' + |sep|] == s[j..j + |sep|];
    }
    SplitUnfold(rest, sep, j');
  }

  /** A text holding the separator once, with the first occurrence right
      after `before`, splits into the two texts around it. */
  lemma SplitOnce(before: string, sep: string, after: string)
    requires sep != []
    requires IndexOf(before + sep, sep) == |before|
    requires IndexOf(after, sep) == -1
    ensures Split(before + sep + after, sep) == [before, after]
  {
    var s := before + sep + after;
    assert before + sep == s[..|before| + |sep|];
    forall k | 0 <= k < |before| ensures !OccursAt(s, sep, k) {
      assert !OccursAt(before + sep, sep, k);
      assert s[k..k + |sep|] == (before + sep)[k..k + |sep|];
    }
    assert OccursAt(s, sep, |before|) by {
      assert s[|before|..|before| + |sep|] == sep;
    }
    SplitAtFirst(before, sep, after);
    assert Split(after, sep) == [after];
  }

  /** A text without the separator's first character does not hold the
      separator, and the separator appended to it is found at its end. */
  lemma NoLeadNoOccurrence(s: string, sep: string)
    requires sep != [] && sep[0] !in s
    ensures IndexOf(s, sep) == -1
    ensures IndexOf(s + sep, sep) == |s|
  {
    forall k | 0 <= k < |s| ensures !OccursAt(s, sep, k) && !OccursAt(s + sep, sep, k) {
      assert (s + sep)[k] == s[k];
    }
    assert OccursAt(s + sep, sep, |s|) by {
      assert (s + sep)[|s|..|s| + |sep|] == sep;
    }
  }

  /** With a one-character separator that no piece contains, splitting the
      joined pieces gives the pieces back. */
  lemma {:induction false} SplitJoin(parts: seq<string>, c: char)
    requires |parts| >= 1
    requires forall p :: p in parts ==> c !in p
    ensures Split(Join(parts, [c]), [c]) == parts
    decreases |parts|
  {
    if |parts| == 1 {
      NoCharNoOccurrence(parts[0], c);
      assert Join(parts, [c]) == parts[0];
    } else {
      var rest := Join(parts[1..], [c]);
      assert Join(parts, [c]) == parts[0] + [c] + rest;
      FirstOccurrenceOfChar(parts[0], c, rest);
      SplitAtFirst(parts[0], [c], rest);
      SplitJoin(parts[1..], c);
      assert parts == [parts[0]] + parts[1..];
    }
  }

  /** A string without the character has no occurrence of it. */
  lemma NoCharNoOccurrence(s: string, c: char)
    requires c !in s
    ensures IndexOf(s, [c]) == -1
  {
    forall k | 0 <= k < |s| ensures !OccursAt(s, [c], k) {
      assert s[k..k + 1] == [s[k]];
    }
  }

  /** In `a + [c] + b` with `c` not in `a`, the first `c` is at `|a|`. */
  lemma FirstOccurrenceOfChar(a: string, c: char, b: string)
    requires c !in a
    ensures IndexOf(a + [c] + b, [c]) == |a|
  {
    var s := a + [c] + b;
    assert OccursAt(s, [c], |a|) by { assert s[|a|..|a| + 1] == [c]; }
    forall j | 0 <= j < |a| ensures !OccursAt(s, [c], j) {
      assert s[j..j + 1] == [a[j]];
    }
  }

  /** `s.substring(0, n)`: at most the first `n` characters. */
  function Prefix(s: string, n: nat): (r: string)
    ensures |r| == if |s| < n then |s| else n
    ensures r <= s
  {
    if |s| <= n then s else s[..n]
  }

  /** Every character is a decimal digit. */
  predicate IsDigits(s: string) {
    forall i :: 0 <= i < |s| ==> '0' <= s[i] <= '9'
  }

  /** The number a string of decimal digits denotes, most significant
      digit first. */
  function DecimalValue(s: string): nat
    requires IsDigits(s)
  {
    if s == [] then 0
    else DecimalValue(s[..|s| - 1]) * 10 + (s[|s| - 1] as int - '0' as int)
  }

  /** Decimal digits of `n`, as template literals print a non-negative
      integer: the digits denote `n`, and only 0 starts with a zero. */
  function NatToString(n: nat): (r: string)
    ensures r != []
    ensures IsDigits(r) && DecimalValue(r) == n
    ensures r[0] == '0' ==> r == "0"
    decreases n
  {
    var d := [('0' as int + n % 10) as char];
    if n < 10 then d
    else
      var r := NatToString(n / 10) + d;
      assert r[..|r| - 1] == NatToString(n / 10);
      r
  }
}
