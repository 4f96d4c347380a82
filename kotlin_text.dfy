/** The Kotlin standard-library string operations that the application relies
    on (`isBlank`, `trim`, `uppercase`, `equals(ignoreCase = true)`,
    `indexOf`, `lastIndexOf`, `substring`, `removeSurrounding`), with the JVM
    behaviour that matters to their callers. */
module KotlinText {
  import opened Wrappers

  /** `Char.isWhitespace()` on the JVM: `Character.isWhitespace(c) ||
      Character.isSpaceChar(c)`, i.e. the controls U+0009..U+000D and
      U+001C..U+001F plus every space, line and paragraph separator
      (no-break spaces included). */
  predicate IsWhitespace(c: char) {
    || ('\U{9}' <= c <= '\U{D}')
    || ('\U{1C}' <= c <= '\U{1F}')
    || c == ' '
    || c == '\U{A0}'
    || c == '\U{1680}'
    || ('\U{2000}' <= c <= '\U{200A}')
    || c == '\U{2028}' || c == '\U{2029}'
    || c == '\U{202F}' || c == '\U{205F}'
    || c == '\U{3000}'
  }

  /** `CharSequence.isBlank()`: empty or whitespace only. */
  predicate IsBlank(s: string) {
    forall i :: 0 <= i < |s| ==> IsWhitespace(s[i])
  }

  /** Drops the leading whitespace. */
  function TrimStart(s: string): (r: string)
    ensures |r| <= |s| && r == s[|s| - |r|..]
    ensures IsBlank(s[..|s| - |r|])
    ensures r == [] || !IsWhitespace(r[0])
  {
    if s != [] && IsWhitespace(s[0]) then
      var r := TrimStart(s[1..]);
      TrimStartStep(s, r);
      r
    else s
  }

  /** The step of TrimStart: dropping one leading whitespace character and
      then a blank prefix of the rest drops a blank prefix of `s`. */
  lemma TrimStartStep(s: string, r: string)
    requires s != [] && IsWhitespace(s[0])
    requires |r| <= |s| - 1 && r == s[1..][|s| - 1 - |r|..] && IsBlank(s[1..][..|s| - 1 - |r|])
    ensures r == s[|s| - |r|..] && IsBlank(s[..|s| - |r|])
  {
    var k := |s| - |r|;
    assert s[1..][k - 1..] == s[k..];
    forall i | 0 <= i < k ensures IsWhitespace(s[..k][i]) {
      if i > 0 {
        assert s[..k][i] == s[1..][..k - 1][i - 1];
      }
    }
  }

  /** Drops the trailing whitespace. */
  function TrimEnd(s: string): (r: string)
    ensures |r| <= |s| && r == s[..|r|]
    ensures IsBlank(s[|r|..])
    ensures r == [] || !IsWhitespace(r[|r| - 1])
  {
    if s != [] && IsWhitespace(s[|s| - 1]) then
      var r := TrimEnd(s[..|s| - 1]);
      BlankSuffixStep(s, |r|);
      r
    else s
  }

  /** A blank text followed by a whitespace character is blank. */
  lemma BlankSuffixStep(s: string, k: nat)
    requires k < |s| && IsWhitespace(s[|s| - 1]) && IsBlank(s[..|s| - 1][k..])
    ensures IsBlank(s[k..])
  {
    forall i | 0 <= i < |s| - 1 - k ensures IsWhitespace(s[k..][i]) {
      assert s[k..][i] == s[..|s| - 1][k..][i];
    }
  }

  /** `String.trim()`: the longest slice of `s` that neither starts nor ends
      with whitespace; it is empty exactly when `s` is blank. */
  function Trim(s: string): (r: string)
    ensures |r| <= |s|
    ensures r == [] <==> IsBlank(s)
    ensures r != [] ==> !IsWhitespace(r[0]) && !IsWhitespace(r[|r| - 1])
    ensures exists a, b :: 0 <= a <= b <= |s| && r == s[a..b] && IsBlank(s[..a]) && IsBlank(s[b..])
  {
    var t := TrimStart(s);
    var r := TrimEnd(t);
    TrimBlankIff(s, t, r);
    TrimSlice(s, t, r);
    r
  }

  /** A text that starts and ends with a non-whitespace character is its own
      trim. */
  lemma TrimKeeps(s: string)
    requires s != [] && !IsWhitespace(s[0]) && !IsWhitespace(s[|s| - 1])
    ensures Trim(s) == s
  {
    assert TrimStart(s) == s;
    assert TrimEnd(s) == s;
  }

  /** A blank prefix and a blank suffix cut from `s` leave a slice of `s`. */
  lemma TrimSlice(s: string, t: string, r: string)
    requires |t| <= |s| && t == s[|s| - |t|..] && IsBlank(s[..|s| - |t|])
    requires |r| <= |t| && r == t[..|r|] && IsBlank(t[|r|..])
    ensures exists a, b :: 0 <= a <= b <= |s| && r == s[a..b] && IsBlank(s[..a]) && IsBlank(s[b..])
  {
    var a := |s| - |t|;
    var b := a + |r|;
    assert r == s[a..b];
    assert s[b..] == t[|r|..];
  }

  /** `s` splits as blank prefix, `t`, and `t` as `r` and a blank suffix, so
      `r` is empty exactly when `s` is blank. */
  lemma TrimBlankIff(s: string, t: string, r: string)
    requires |t| <= |s| && t == s[|s| - |t|..] && IsBlank(s[..|s| - |t|])
    requires |r| <= |t| && r == t[..|r|] && IsBlank(t[|r|..])
    requires r == [] || !IsWhitespace(r[|r| - 1])
    ensures r == [] <==> IsBlank(s)
  {
    var k := |s| - |t|;
    if r == [] {
      forall i | 0 <= i < |s| ensures IsWhitespace(s[i]) {
        if i < k { assert s[i] == s[..k][i]; }
        else { assert s[i] == t[i - k] == t[|r|..][i - k]; }
      }
    } else {
      assert s[k + |r| - 1] == r[|r| - 1];
    }
  }

  /** A trimmed string is its own trim. */
  lemma TrimIdempotent(s: string)
    ensures Trim(Trim(s)) == Trim(s)
  {
    var r := Trim(s);
    assert TrimStart(r) == r;
    assert TrimEnd(r) == r;
  }

  /** Trimming a string that is not blank leaves a string that is not blank. */
  lemma TrimNotBlank(s: string)
    requires !IsBlank(s)
    ensures !IsBlank(Trim(s)) && Trim(s) != []
  {
    var r := Trim(s);
    assert !IsWhitespace(r[0]);
  }

  /** `Char.uppercaseChar()` as far as it can turn a character into an ASCII
      letter: 'a'..'z', dotless 'ı' (to 'I') and long 'ſ' (to 'S'). Every other
      character is kept; its real upper case is never an ASCII letter. */
  function UpperChar(c: char): char {
    if 'a' <= c <= 'z' then (c as int - 32) as char
    else if c == '\U{131}' then 'I'
    else if c == '\U{17F}' then 'S'
    else c
  }

  /** `String.uppercase()`, character by character. The JVM also expands a
      few ligatures ("ß" to "SS", "ﬁ" to "FI", ...); none of those expansions
      can occur in LOW, MEDIUM, HIGH or URGENT, the only strings compared
      after upper-casing. */
  function Uppercase(s: string): string {
    seq(|s|, i requires 0 <= i < |s| => UpperChar(s[i]))
  }

  /** `String.equals(other, ignoreCase = true)` as far as it matters when
      one side is an ASCII literal ("null", a priority name): same length and
      every pair of characters is equal or has the same upper case. The JVM
      also compares lower cases, which can only matter for characters such
      as the Kelvin sign, whose lower case is an ASCII letter. */
  predicate EqualsIgnoreCase(a: string, b: string) {
    |a| == |b| && forall i :: 0 <= i < |a| ==> a[i] == b[i] || UpperChar(a[i]) == UpperChar(b[i])
  }

  /** `String.indexOf(c)`: the first position of `c`, or -1. */
  function IndexOf(s: string, c: char): (r: int)
    ensures -1 <= r < |s|
    ensures r == -1 <==> c !in s
    ensures r >= 0 ==> s[r] == c && c !in s[..r]
  {
    if s == [] then -1
    else if s[0] == c then 0
    else
      var k := IndexOf(s[1..], c);
      if k == -1 then -1
      else
        assert s[..k + 1] == [s[0]] + s[1..][..k];
        k + 1
  }

  /** `String.lastIndexOf(c)`: the last position of `c`, or -1. */
  function LastIndexOf(s: string, c: char): (r: int)
    ensures -1 <= r < |s|
    ensures r == -1 <==> c !in s
    ensures r >= 0 ==> s[r] == c && c !in s[r + 1..]
  {
    if s == [] then -1
    else if s[|s| - 1] == c then |s| - 1
    else
      var k := LastIndexOf(s[..|s| - 1], c);
      assert s == s[..|s| - 1] + [s[|s| - 1]];
      k
  }

  /** `String.substring(begin, end)`; `None` is the
      `StringIndexOutOfBoundsException` it throws. */
  function Substring(s: string, begin: int, end: int): (r: Option<string>)
    ensures r.Some? <==> 0 <= begin <= end <= |s|
    ensures r.Some? ==> r.value == s[begin..end]
  {
    if 0 <= begin <= end <= |s| then Some(s[begin..end]) else None
  }

  /** `String.removeSurrounding(d)`: strips `d` from both ends when the string
      is long enough to hold both copies and starts and ends with `d`. */
  function RemoveSurrounding(s: string, d: string): (r: string)
    ensures |s| >= 2 * |d| && s[..|d|] == d && s[|s| - |d|..] == d ==> r == s[|d|..|s| - |d|]
    ensures !(|s| >= 2 * |d| && s[..|d|] == d && s[|s| - |d|..] == d) ==> r == s
  {
    if |s| >= |d| + |d| && s[..|d|] == d && s[|s| - |d|..] == d then s[|d|..|s| - |d|] else s
  }
}
