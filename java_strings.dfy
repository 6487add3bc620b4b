/**
 * The java.lang.String operations that the processors use, over `string`
 * (a sequence of characters).
 */
module JavaStrings {

  /** `s.startsWith(p)` */
  predicate StartsWith(s: string, p: string)
    ensures StartsWith(s, p) ==> |p| <= |s| && s == p + s[|p|..]
    ensures StartsWith(s, p) <== (|p| <= |s| && forall i | 0 <= i < |p| :: s[i] == p[i])
  {
    |p| <= |s| && s[..|p|] == p
  }

  /** `s.contains(t)`: t occurs in s at some position (the empty string occurs everywhere). */
  predicate Contains(s: string, t: string)
    ensures Contains(s, t) ==> |t| <= |s|
    ensures StartsWith(s, t) ==> Contains(s, t)
  {
    assert s[0..] == s;
    exists i | 0 <= i <= |s| :: StartsWith(s[i..], t)
  }

  /** `s.indexOf(c)`: the first position of c in s, or -1. */
  function IndexOf(s: string, c: char): (r: int)
    ensures -1 <= r < |s|
    ensures r == -1 <==> c !in s
    ensures 0 <= r ==> s[r] == c && c !in s[..r]
  {
    if |s| == 0 then -1
    else if s[0] == c then 0
    else
      var k := IndexOf(s[1..], c);
      if k == -1 then -1
      else
        assert s[..k + 1] == [s[0]] + s[1..][..k];
        k + 1
  }

  /** `s.lastIndexOf(c)`: the last position of c in s, or -1. */
  function LastIndexOf(s: string, c: char): (r: int)
    ensures -1 <= r < |s|
    ensures r == -1 <==> c !in s
    ensures 0 <= r ==> s[r] == c && c !in s[r + 1..]
  {
    if |s| == 0 then -1
    else if s[|s| - 1] == c then |s| - 1
    else
      var k := LastIndexOf(s[..|s| - 1], c);
      assert s[k + 1..] == s[..|s| - 1][k + 1..] + [s[|s| - 1]];
      k
  }

  /**
   * `s.split(String.valueOf(sep), limit)` for a positive limit and a separator that is
   * not a regular-expression metacharacter: the separator splits s at most limit - 1
   * times, left to right, and the last part holds the rest of s; empty parts are kept.
   */
  function Split(s: string, sep: char, limit: nat): (parts: seq<string>)
    requires limit >= 1
    ensures 1 <= |parts| <= limit
    decreases limit
  {
    var i := IndexOf(s, sep);
    if limit == 1 || i == -1 then [s]
    else [s[..i]] + Split(s[i + 1..], sep, limit - 1)
  }

  /** The parts of a split put back together, sep between every two. */
  function Join(parts: seq<string>, sep: char): string
  {
    if |parts| == 0 then ""
    else if |parts| == 1 then parts[0]
    else parts[0] + [sep] + Join(parts[1..], sep)
  }

  /** Joining a first part to at least one more puts the separator between them. */
  lemma JoinCons(first: string, rest: seq<string>, sep: char)
    requires |rest| >= 1
    ensures Join([first] + rest, sep) == first + [sep] + Join(rest, sep)
  {
    var parts := [first] + rest;
    assert parts[0] == first && parts[1..] == rest;
  }

  /** Splitting loses nothing: joining the parts again gives back the string. */
  lemma {:induction false} SplitJoin(s: string, sep: char, limit: nat)
    requires limit >= 1
    ensures Join(Split(s, sep, limit), sep) == s
    decreases limit
  {
    var i := IndexOf(s, sep);
    if limit > 1 && i != -1 {
      var a, rest := s[..i], s[i + 1..];
      assert s == a + [sep] + rest;
      SplitAtFirst(a, rest, sep, limit);
      SplitJoin(rest, sep, limit - 1);
      JoinCons(a, Split(rest, sep, limit - 1), sep);
    }
  }

  /** The last of the joined parts ends the joined string, after one separator per earlier part. */
  lemma {:induction false} JoinLastPart(parts: seq<string>, sep: char)
    requires |parts| >= 1
    ensures |parts[|parts| - 1]| + |parts| - 1 <= |Join(parts, sep)|
    ensures var joined := Join(parts, sep);
            joined[|joined| - |parts[|parts| - 1]|..] == parts[|parts| - 1]
  {
    var joined := Join(parts, sep);
    if |parts| == 1 {
      assert joined[0..] == joined;
    } else {
      var tail := parts[1..];
      JoinLastPart(tail, sep);
      assert joined == parts[0] + [sep] + Join(tail, sep);
      assert joined[|parts[0]| + 1..] == Join(tail, sep);
      SuffixOfDrop(joined, |parts[0]| + 1, |tail[|tail| - 1]|);
    }
  }

  /** The last part of a split ends the string, after one separator per earlier part. */
  lemma SplitLastPart(s: string, sep: char, limit: nat, parts: seq<string>)
    requires limit >= 1 && parts == Split(s, sep, limit)
    ensures |parts[|parts| - 1]| + |parts| - 1 <= |s| && s[|s| - |parts[|parts| - 1]|..] == parts[|parts| - 1]
  {
    SplitJoin(s, sep, limit);
    JoinedLastPart(s, parts, sep);
  }

  /** The last of the parts joined into s ends s. */
  lemma JoinedLastPart(s: string, parts: seq<string>, sep: char)
    requires |parts| >= 1 && Join(parts, sep) == s
    ensures |parts[|parts| - 1]| + |parts| - 1 <= |s| && s[|s| - |parts[|parts| - 1]|..] == parts[|parts| - 1]
  {
    JoinLastPart(parts, sep);
  }

  /** A suffix of s[d..] is the suffix of s of the same length. */
  lemma SuffixOfDrop(s: string, d: nat, n: nat)
    requires d <= |s| && n <= |s| - d
    ensures s[|s| - n..] == s[d..][|s| - d - n..]
  {
  }

  /** A limit of two or more splits a-rest, with a free of the separator, into a and the split of rest. */
  lemma SplitAtFirst(a: string, rest: string, sep: char, limit: nat)
    requires sep !in a && limit >= 2
    ensures Split(a + [sep] + rest, sep, limit) == [a] + Split(rest, sep, limit - 1)
  {
    var s := a + [sep] + rest;
    assert s[..|a|] == a;
    assert s[|a|] == sep;
    assert IndexOf(s, sep) == |a|;
    assert s[|a| + 1..] == rest;
  }

  /** With limit 3, a string a-b-rest whose first two parts are free of '-' splits into a, b, rest. */
  lemma SplitThree(a: string, b: string, rest: string, sep: char)
    requires sep !in a && sep !in b
    ensures Split(a + [sep] + b + [sep] + rest, sep, 3) == [a, b, rest]
  {
    assert a + [sep] + b + [sep] + rest == a + [sep] + (b + [sep] + rest);
    SplitAtFirst(a, b + [sep] + rest, sep, 3);
    SplitAtFirst(b, rest, sep, 2);
  }

  // ---- decimal digits (Integer.toString for non-negative values) ----

  predicate IsDigit(c: char)
  {
    '0' <= c <= '9'
  }

  predicate AllDigits(s: string)
  {
    forall i | 0 <= i < |s| :: IsDigit(s[i])
  }

  function DigitChar(d: nat): (c: char)
    requires d < 10
    ensures IsDigit(c)
  {
    ('0' as int + d) as char
  }

  /** `Integer.toString(n)` for n >= 0: the decimal digits of n, most significant first. */
  function NatToString(n: nat): (s: string)
    ensures |s| >= 1 && AllDigits(s)
  {
    if n < 10 then [DigitChar(n)]
    else NatToString(n / 10) + [DigitChar(n % 10)]
  }

  /** The number a string of decimal digits denotes. */
  function DigitsValue(s: string): nat
    requires AllDigits(s)
  {
    if |s| == 0 then 0
    else DigitsValue(s[..|s| - 1]) * 10 + (s[|s| - 1] as int - '0' as int)
  }

  /** Reading back the decimal digits of n gives n. */
  lemma {:induction false} NatToStringRoundTrip(n: nat)
    ensures DigitsValue(NatToString(n)) == n
  {
    if n >= 10 {
      NatToStringRoundTrip(n / 10);
      var s := NatToString(n);
      assert s[..|s| - 1] == NatToString(n / 10);
    }
  }

  // ---- case-insensitive comparison ----

  predicate IsAscii(s: string)
  {
    forall i | 0 <= i < |s| :: s[i] as int < 128
  }

  /**
   * The character both sides of Java's `equalsIgnoreCase` agree on whenever the other
   * side is ASCII: ASCII letters fold to lower case, and the four non-ASCII characters
   * whose upper or lower case is an ASCII letter fold to that letter (dotted and dotless
   * I, long s, Kelvin sign). Every other character stands for itself.
   */
  function FoldCase(c: char): char
  {
    if 'A' <= c <= 'Z' then (c as int + 32) as char
    else if c == '\U{0130}' || c == '\U{0131}' then 'i'
    else if c == '\U{017F}' then 's'
    else if c == '\U{212A}' then 'k'
    else c
  }

  /** The upper case of an ASCII lower-case letter; every other character is left as it is. */
  function UpperAscii(c: char): char
  {
    if 'a' <= c <= 'z' then (c as int - 32) as char else c
  }

  /**
   * Every character that Java's `equalsIgnoreCase` matches with the ASCII character c:
   * both cases of a letter, plus dotted and dotless I for i, long s for s and the Kelvin
   * sign for k; any other character matches only itself.
   */
  function CaseVariants(c: char): set<char>
    requires c as int < 128
  {
    var lower := if 'A' <= c <= 'Z' then (c as int + 32) as char else c;
    if 'a' <= lower <= 'z' then
      {lower, UpperAscii(lower)}
      + (if lower == 'i' then {'\U{0130}', '\U{0131}'}
         else if lower == 's' then {'\U{017F}'}
         else if lower == 'k' then {'\U{212A}'}
         else {})
    else {c}
  }

  /** `literal.equalsIgnoreCase(s)` for an ASCII literal. */
  predicate EqualsIgnoreCase(literal: string, s: string)
    requires IsAscii(literal)
    ensures EqualsIgnoreCase(literal, s) ==> |s| == |literal|
    ensures literal == s ==> EqualsIgnoreCase(literal, s)
  {
    |literal| == |s| && forall i | 0 <= i < |s| :: FoldCase(literal[i]) == FoldCase(s[i])
  }

  /** Two characters fold alike exactly when the second is a case variant of the ASCII first. */
  lemma FoldCaseVariants(c: char, d: char)
    requires c as int < 128
    ensures FoldCase(c) == FoldCase(d) <==> d in CaseVariants(c)
  {
  }

  /** s equals the ASCII literal ignoring case iff, position by position, it holds a case variant of the literal's character. */
  lemma EqualsIgnoreCaseMeaning(literal: string, s: string)
    requires IsAscii(literal)
    ensures EqualsIgnoreCase(literal, s)
            <==> |s| == |literal| && forall i | 0 <= i < |s| :: s[i] in CaseVariants(literal[i])
  {
    if |s| == |literal| {
      forall i | 0 <= i < |s|
        ensures FoldCase(literal[i]) == FoldCase(s[i]) <==> s[i] in CaseVariants(literal[i])
      {
        FoldCaseVariants(literal[i], s[i]);
      }
    }
  }

  /**
   * The lower case of c as far as a comparison with an ASCII string can tell, in a
   * locale other than Turkish: ASCII capitals and the Kelvin sign become ASCII
   * lower-case letters; every other character is left as it is.
   */
  function LowerCase(c: char): char
  {
    if 'A' <= c <= 'Z' then (c as int + 32) as char
    else if c == '\U{212A}' then 'k'
    else c
  }

  /** `s.toLowerCase()` character by character (see LowerCase). */
  function ToLowerCase(s: string): (r: string)
    ensures |r| == |s|
    ensures forall i | 0 <= i < |s| :: r[i] == LowerCase(s[i])
    ensures forall i | 0 <= i < |r| :: !('A' <= r[i] <= 'Z')
  {
    seq(|s|, i requires 0 <= i < |s| => LowerCase(s[i]))
  }

  /** A string of ASCII characters none of which is a capital letter. */
  predicate IsLowerAscii(t: string)
  {
    forall i | 0 <= i < |t| :: t[i] as int < 128 && !('A' <= t[i] <= 'Z')
  }

  /**
   * n spells the lower-case ASCII string t in some mix of cases: at every position the
   * character of t, its capital, or (for k) the Kelvin sign.
   */
  predicate SpelledInAnyCase(n: string, t: string)
  {
    |n| == |t|
    && forall i | 0 <= i < |t| :: n[i] == t[i] || n[i] == UpperAscii(t[i]) || (t[i] == 'k' && n[i] == '\U{212A}')
  }

  /** One character lowers to the lower-case ASCII character d iff it is d, its capital, or the Kelvin sign for k. */
  lemma LowerCaseMatches(c: char, d: char)
    requires d as int < 128 && !('A' <= d <= 'Z')
    ensures LowerCase(c) == d <==> c == d || c == UpperAscii(d) || (d == 'k' && c == '\U{212A}')
  {
  }

  /** `n.toLowerCase().equals(t)` for a lower-case ASCII t holds exactly when n spells t in any case. */
  lemma ToLowerCaseMatches(n: string, t: string)
    requires IsLowerAscii(t)
    ensures ToLowerCase(n) == t <==> SpelledInAnyCase(n, t)
  {
    var r := ToLowerCase(n);
    if |n| == |t| {
      forall i | 0 <= i < |t|
        ensures r[i] == t[i] <==> n[i] == t[i] || n[i] == UpperAscii(t[i]) || (t[i] == 'k' && n[i] == '\U{212A}')
      {
        LowerCaseMatches(n[i], t[i]);
      }
      if SpelledInAnyCase(n, t) {
        assert r == t;
      }
    }
  }
}
