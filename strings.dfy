/** The `str` operations the parsers apply to command output, on `seq<char>`. */
module Strings {
  import opened Common

  /** `char::is_whitespace` restricted to ASCII. */
  predicate IsSpace(c: char) {
    c == ' ' || c == '\t' || c == '\n' || c == '\r' || c == '\U{000B}' || c == '\U{000C}'
  }

  predicate NoSpace(s: string) {
    forall i :: 0 <= i < |s| ==> !IsSpace(s[i])
  }

  predicate IsDigit(c: char) {
    '0' <= c <= '9'
  }

  predicate AllDigits(s: string) {
    forall i :: 0 <= i < |s| ==> IsDigit(s[i])
  }

  predicate StartsWith(s: string, prefix: string) {
    |prefix| <= |s| && s[..|prefix|] == prefix
  }

  predicate EndsWith(s: string, suffix: string) {
    |suffix| <= |s| && s[|s| - |suffix|..] == suffix
  }

  /** `str::contains` with a string pattern. */
  predicate Contains(s: string, pattern: string)
    decreases |s|
  {
    StartsWith(s, pattern) || (s != [] && Contains(s[1..], pattern))
  }

  /** A text shorter than the pattern does not contain it. */
  lemma {:induction false} ContainsShorter(s: string, pattern: string)
    requires |s| < |pattern|
    ensures !Contains(s, pattern)
    decreases |s|
  {
    if s != [] {
      ContainsShorter(s[1..], pattern);
    }
  }

  /** A text without the first character of the pattern does not contain it. */
  lemma {:induction false} ContainsHead(s: string, pattern: string)
    requires pattern != [] && pattern[0] !in s
    ensures !Contains(s, pattern)
    decreases |s|
  {
    if s != [] {
      assert forall k :: 0 <= k < |s| - 1 ==> s[1..][k] == s[k + 1];
      ContainsHead(s[1..], pattern);
    }
  }

  /** A text contains every pattern that starts at one of its positions. */
  lemma {:induction false} ContainsAt(s: string, i: nat, pattern: string)
    requires i <= |s| && StartsWith(s[i..], pattern)
    ensures Contains(s, pattern)
    decreases i
  {
    if i > 0 {
      assert s[1..][i - 1..] == s[i..];
      ContainsAt(s[1..], i - 1, pattern);
    }
  }

  /** A text as long as the pattern contains it only by being it. */
  lemma ContainsSameLength(s: string, pattern: string)
    requires |s| == |pattern| && s != pattern
    ensures !Contains(s, pattern)
  {
    if s != [] {
      ContainsShorter(s[1..], pattern);
    }
  }

  /** `str::find` with a string pattern: the first index where `pattern` occurs. */
  function Find(s: string, pattern: string): (r: Option<nat>)
    decreases |s|
    ensures r.Some? ==> r.value + |pattern| <= |s| && s[r.value..r.value + |pattern|] == pattern
    ensures r.None? <==> !Contains(s, pattern)
  {
    if StartsWith(s, pattern) then Some(0)
    else if s == [] then None
    else match Find(s[1..], pattern)
      case Some(i) => Some(i + 1)
      case None => None
  }

  /** Index of the first `c` in `s`, or `|s|` when there is none. */
  function IndexOfChar(s: string, c: char): (i: nat)
    ensures i <= |s|
    ensures i < |s| ==> s[i] == c
    ensures forall j :: 0 <= j < i ==> s[j] != c
  {
    if s == [] || s[0] == c then 0 else 1 + IndexOfChar(s[1..], c)
  }

  /** A character the string lacks is found at its end. */
  lemma IndexOfCharAbsent(s: string, c: char)
    requires c !in s
    ensures IndexOfChar(s, c) == |s|
  {
  }

  /** `str::rfind` with a character pattern: the index of the last `c`. */
  function RFindChar(s: string, c: char): (r: Option<nat>)
    ensures r.None? <==> c !in s
    ensures r.Some? ==> r.value < |s| && s[r.value] == c && c !in s[r.value + 1..]
  {
    if s == [] then None
    else if s[|s| - 1] == c then Some(|s| - 1)
    else
      var r := RFindChar(s[..|s| - 1], c);
      assert r.Some? ==> s[r.value + 1..] == s[..|s| - 1][r.value + 1..] + [s[|s| - 1]];
      assert s == s[..|s| - 1] + [s[|s| - 1]];
      r
  }

  /** In `x + [c] + y` with no `c` in `y`, the last `c` is at `|x|`. */
  lemma {:induction false} RFindCharAt(x: string, c: char, y: string)
    requires c !in y
    ensures RFindChar(x + [c] + y, c) == Some(|x|)
    decreases |y|
  {
    var s := x + [c] + y;
    if y != [] {
      var n := |y| - 1;
      assert y[n] in y;
      assert s[..|s| - 1] == x + [c] + y[..n];
      RFindCharAt(x, c, y[..n]);
    }
  }

  /** The longest prefix of `s` without whitespace. */
  function Word(s: string): (w: string)
    ensures |w| <= |s| && w == s[..|w|]
    ensures NoSpace(w)
    ensures |w| < |s| ==> IsSpace(s[|w|])
  {
    if s == [] || IsSpace(s[0]) then [] else [s[0]] + Word(s[1..])
  }

  /** Joining two texts without whitespace gives one without whitespace. */
  lemma NoSpaceAppend(a: string, b: string)
    requires NoSpace(a) && NoSpace(b)
    ensures NoSpace(a + b)
  {
    assert forall i :: |a| <= i < |a + b| ==> (a + b)[i] == b[i - |a|];
  }

  /** `str::find` finds a pattern right after a prefix that lacks its first character. */
  lemma {:induction false} FindAfter(x: string, u: string, pattern: string)
    requires pattern != [] && pattern[0] !in x && StartsWith(u, pattern)
    ensures Find(x + u, pattern) == Some(|x|)
    decreases |x|
  {
    if x == [] {
      assert x + u == u;
    } else {
      assert x[0] in x;
      assert (x + u)[1..] == x[1..] + u;
      assert forall c :: c in x[1..] ==> c in x;
      FindAfter(x[1..], u, pattern);
    }
  }

  /** `str::split_whitespace`: the maximal non-empty runs of non-whitespace characters, in order. */
  function SplitWhitespace(s: string): (r: seq<string>)
    decreases |s|
    ensures forall i :: 0 <= i < |r| ==> r[i] != [] && NoSpace(r[i])
  {
    if s == [] then []
    else if IsSpace(s[0]) then SplitWhitespace(s[1..])
    else
      var w := Word(s);
      [w] + SplitWhitespace(s[|w|..])
  }

  /** Removes one trailing '\r' (the line-ending half `str::lines` drops). */
  function StripCR(line: string): string {
    if |line| > 0 && line[|line| - 1] == '\r' then line[..|line| - 1] else line
  }

  /** `str::lines`: the pieces between '\n', with no trailing empty piece; a piece
      that ended in "\r\n" loses its '\r'. */
  function Lines(s: string): (r: seq<string>)
    decreases |s|
    ensures forall i :: 0 <= i < |r| ==> '\n' !in r[i]
  {
    if s == [] then []
    else
      var i := IndexOfChar(s, '\n');
      if i == |s| then [s]
      else
        assert forall j :: 0 <= j < |StripCR(s[..i])| ==> StripCR(s[..i])[j] == s[j];
        [StripCR(s[..i])] + Lines(s[i + 1..])
  }

  /** `Lines(s)` without its first element, as `.lines().skip(1)` gives. */
  function SkipFirst<T>(xs: seq<T>): (r: seq<T>)
    ensures |xs| > 0 ==> r == xs[1..]
    ensures |xs| == 0 ==> r == []
  {
    if |xs| == 0 then [] else xs[1..]
  }

  function TrimStart(s: string): (r: string)
    ensures |r| <= |s| && r == s[|s| - |r|..]
    ensures r == [] || !IsSpace(r[0])
    ensures forall i :: 0 <= i < |s| - |r| ==> IsSpace(s[i])
  {
    if s != [] && IsSpace(s[0]) then TrimStart(s[1..]) else s
  }

  function TrimEnd(s: string): (r: string)
    ensures |r| <= |s| && r == s[..|r|]
    ensures r == [] || !IsSpace(r[|r| - 1])
    ensures forall i :: |r| <= i < |s| ==> IsSpace(s[i])
  {
    if s != [] && IsSpace(s[|s| - 1]) then TrimEnd(s[..|s| - 1]) else s
  }

  /** `str::trim`. */
  function Trim(s: string): (r: string)
    ensures r == [] || (!IsSpace(r[0]) && !IsSpace(r[|r| - 1]))
  {
    TrimEnd(TrimStart(s))
  }

  /** A text with no white space at either end trims to itself. */
  lemma TrimUntouched(s: string)
    requires s != [] && !IsSpace(s[0]) && !IsSpace(s[|s| - 1])
    ensures Trim(s) == s
  {
    assert TrimStart(s) == s;
  }

  /** A word padded with one space on each side trims back to the word. */
  lemma TrimPadded(w: string)
    requires w != [] && !IsSpace(w[0]) && !IsSpace(w[|w| - 1])
    ensures Trim([' '] + w + [' ']) == w
  {
    var padded := [' '] + w + [' '];
    assert padded[1..] == w + [' '];
    assert TrimStart(w + [' ']) == w + [' '];
    assert (w + [' '])[..|w|] == w;
    assert TrimEnd(w) == w;
  }

  /** Value of a string of decimal digits. */
  function DigitsValue(s: string): nat
    requires AllDigits(s)
  {
    if s == [] then 0 else 10 * DigitsValue(s[..|s| - 1]) + (s[|s| - 1] as int - '0' as int)
  }

  /** `str::parse` into an unsigned integer type whose largest value is `max`: an
      optional '+', then one or more ASCII digits denoting at most `max`. */
  function ParseUnsigned(s: string, max: nat): (r: Option<nat>)
    ensures r.Some? ==> r.value <= max
    ensures r.Some? ==> s != [] && s != "+"
  {
    var digits := if |s| > 0 && s[0] == '+' then s[1..] else s;
    if digits != [] && AllDigits(digits) && DigitsValue(digits) <= max then Some(DigitsValue(digits))
    else None
  }

  /** `str::parse` into a signed integer type with range [min, max]. */
  function ParseSigned(s: string, min: int, max: int): (r: Option<int>)
    requires min <= 0 <= max
    ensures r.Some? ==> min <= r.value <= max
  {
    if |s| > 0 && s[0] == '-' then
      var digits := s[1..];
      if digits != [] && AllDigits(digits) && min <= 0 - DigitsValue(digits) as int then Some(0 - DigitsValue(digits) as int)
      else None
    else
      match ParseUnsigned(s, max)
      case Some(v) => if min <= v <= max then Some(v) else None
      case None => None
  }

  const U16_MAX: nat := 0xFFFF
  const U32_MAX: nat := 0xFFFF_FFFF
  const U64_MAX: nat := 0xFFFF_FFFF_FFFF_FFFF
  const I32_MIN: int := -0x8000_0000
  const I32_MAX: int := 0x7FFF_FFFF

  function DigitChar(d: nat): (c: char)
    requires d < 16
    ensures d < 10 ==> IsDigit(c) && c as int - '0' as int == d
  {
    if d < 10 then ('0' as int + d) as char else ('a' as int + d - 10) as char
  }

  /** Decimal rendering of a natural number (`{}` formatting). */
  function NatToString(n: nat): (r: string)
    ensures r != [] && AllDigits(r)
  {
    if n < 10 then [DigitChar(n)] else NatToString(n / 10) + [DigitChar(n % 10)]
  }

  /** Decimal rendering of an integer, with a leading '-' when negative. */
  function IntToString(i: int): (r: string)
    ensures r != [] && (r[0] == '-' <==> i < 0)
  {
    if i < 0 then "-" + NatToString(-i) else NatToString(i)
  }

  /** Lower-case hexadecimal rendering (`{:x}` formatting). */
  function HexString(n: nat): (r: string)
    ensures r != []
  {
    if n < 16 then [DigitChar(n)] else HexString(n / 16) + [DigitChar(n % 16)]
  }

  /** `[..].join(sep)`. */
  function Join(parts: seq<string>, sep: string): string {
    if parts == [] then []
    else if |parts| == 1 then parts[0]
    else parts[0] + sep + Join(parts[1..], sep)
  }

  function UpperChar(c: char): char {
    if 'a' <= c <= 'z' then (c as int - 32) as char else c
  }

  function LowerChar(c: char): char {
    if 'A' <= c <= 'Z' then (c as int + 32) as char else c
  }

  /** `str::to_uppercase` on ASCII letters. */
  function ToUpper(s: string): (r: string)
    ensures |r| == |s| && forall i :: 0 <= i < |s| ==> r[i] == UpperChar(s[i])
  {
    seq(|s|, i requires 0 <= i < |s| => UpperChar(s[i]))
  }

  /** `str::to_lowercase` on ASCII letters. */
  function ToLower(s: string): (r: string)
    ensures |r| == |s| && forall i :: 0 <= i < |s| ==> r[i] == LowerChar(s[i])
  {
    seq(|s|, i requires 0 <= i < |s| => LowerChar(s[i]))
  }

  /** `str::replace`: every non-overlapping occurrence of `from`, scanning left to
      right, becomes `to`. */
  function Replace(s: string, from: string, to: string): (r: string)
    requires from != []
    decreases |s|
    ensures !Contains(s, from) ==> r == s
  {
    if |s| < |from| then s
    else if s[..|from|] == from then to + Replace(s[|from|..], from, to)
    else [s[0]] + Replace(s[1..], from, to)
  }

  /** `str::split_once(c)`. */
  function SplitOnce(s: string, c: char): (r: Option<(string, string)>)
    ensures r.Some? <==> c in s
    ensures r.Some? ==> s == r.value.0 + [c] + r.value.1 && c !in r.value.0
  {
    var i := IndexOfChar(s, c);
    if i == |s| then None
    else
      assert s == s[..i] + [c] + s[i + 1..];
      Some((s[..i], s[i + 1..]))
  }

  /** In `x + u`, with no `c` in `x` and `u` starting with `c`, the first `c` is at `|x|`. */
  lemma IndexOfCharAt(x: string, u: string, c: char)
    requires c !in x && u != [] && u[0] == c
    ensures IndexOfChar(x + u, c) == |x|
  {
    var s := x + u;
    assert s[|x|] == c;
    assert forall j :: 0 <= j < |x| ==> s[j] == x[j];
  }

  /** `split_once` undoes joining two parts with a separator absent from the first. */
  lemma SplitOnceAt(x: string, c: char, u: string)
    requires c !in x
    ensures SplitOnce(x + [c] + u, c) == Some((x, u))
  {
    var s := x + [c] + u;
    assert s == x + ([c] + u);
    IndexOfCharAt(x, [c] + u, c);
    assert s[..|x|] == x && s[|x| + 1..] == u;
  }

  /** `str::strip_prefix` / `str::strip_suffix` combined. */
  function StripAffixes(s: string, prefix: string, suffix: string): (r: Option<string>)
    ensures r.Some? <==> |prefix| + |suffix| <= |s| && StartsWith(s, prefix) && EndsWith(s, suffix)
    ensures r.Some? ==> s == prefix + r.value + suffix
  {
    if |prefix| + |suffix| <= |s| && StartsWith(s, prefix) && EndsWith(s, suffix) then
      assert s == s[..|prefix|] + s[|prefix|..|s| - |suffix|] + s[|s| - |suffix|..];
      Some(s[|prefix|..|s| - |suffix|])
    else None
  }

  // ---------------------------------------------------------------------------
  // Round trips

  lemma {:induction false} DigitsValueAppend(s: string, d: nat)
    requires AllDigits(s) && d < 10
    ensures AllDigits(s + [DigitChar(d)])
    ensures DigitsValue(s + [DigitChar(d)]) == 10 * DigitsValue(s) + d
  {
    var t := s + [DigitChar(d)];
    assert t[..|t| - 1] == s;
  }

  /** Decimal rendering and parsing are inverse. */
  lemma {:induction false} NatToStringValue(n: nat)
    ensures DigitsValue(NatToString(n)) == n
    decreases n
  {
    if n < 10 {
      assert NatToString(n)[..0] == [];
    } else {
      NatToStringValue(n / 10);
      DigitsValueAppend(NatToString(n / 10), n % 10);
    }
  }

  lemma ParseUnsignedOfNatToString(n: nat, max: nat)
    requires n <= max
    ensures ParseUnsigned(NatToString(n), max) == Some(n)
  {
    NatToStringValue(n);
  }

  lemma ParseSignedOfIntToString(i: int, min: int, max: int)
    requires min <= 0 <= max && min <= i <= max
    ensures ParseSigned(IntToString(i), min, max) == Some(i)
  {
    var s := IntToString(i);
    if i < 0 {
      var d := NatToString(-i);
      NatToStringValue(-i);
      assert s == "-" + d;
      assert s[1..] == d;
      assert s[0] == '-';
    } else {
      NatToStringValue(i);
      assert s == NatToString(i);
      assert IsDigit(s[0]);
      assert ParseUnsigned(s, max) == Some(i);
    }
  }

  /** Rendered numbers are single words. */
  lemma NumbersAreWords(n: nat, i: int)
    ensures NatToString(n) != [] && NoSpace(NatToString(n))
    ensures IntToString(i) != [] && NoSpace(IntToString(i))
  {
    if i < 0 {
      var s := IntToString(i);
      assert forall k :: 1 <= k < |s| ==> s[k] == NatToString(-i)[k - 1];
    }
  }

  /** A line without '\n' followed by a newline is the first line. */
  lemma LinesCons(a: string, b: string)
    requires '\n' !in a
    ensures Lines(a + "\n" + b) == [StripCR(a)] + Lines(b)
  {
    var s := a + "\n" + b;
    assert s == a + ("\n" + b);
    IndexOfCharAt(a, "\n" + b, '\n');
    assert s[..|a|] == a && s[|a| + 1..] == b;
  }

  /** A non-empty text without '\n' is one line. */
  lemma LinesSingle(a: string)
    requires a != [] && '\n' !in a
    ensures Lines(a) == [a]
  {
  }

  /** Words joined by single spaces contain no newline. */
  lemma {:induction false} JoinedWordsOneLine(words: seq<string>)
    requires forall i :: 0 <= i < |words| ==> NoSpace(words[i])
    ensures '\n' !in Join(words, " ")
    decreases |words|
  {
    if |words| > 1 {
      JoinedWordsOneLine(words[1..]);
      assert '\n' !in words[0];
    } else if |words| == 1 {
      assert '\n' !in words[0];
    }
  }

  lemma {:induction false} WordOfSpaced(w: string, rest: string)
    requires NoSpace(w)
    requires rest == [] || IsSpace(rest[0])
    ensures Word(w + rest) == w
    decreases |w|
  {
    if w != [] {
      assert (w + rest)[1..] == w[1..] + rest;
      WordOfSpaced(w[1..], rest);
    } else {
      assert w + rest == rest;
    }
  }

  /** Splitting a space-joined list of words gives the words back. */
  lemma {:induction false} SplitJoinedWords(words: seq<string>)
    requires forall i :: 0 <= i < |words| ==> words[i] != [] && NoSpace(words[i])
    ensures SplitWhitespace(Join(words, " ")) == words
    decreases |words|
  {
    if words == [] {
    } else if |words| == 1 {
      WordOfSpaced(words[0], []);
      assert words[0] + [] == words[0];
      assert words[0][|words[0]|..] == [];
    } else {
      var w := words[0];
      var tail := Join(words[1..], " ");
      var s := w + " " + tail;
      assert s == w + (" " + tail);
      WordOfSpaced(w, " " + tail);
      assert s[|w|..] == " " + tail;
      assert s[|w|..][1..] == tail;
      SplitJoinedWords(words[1..]);
    }
  }
}
