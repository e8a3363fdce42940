/** The parts of `java.lang.String` the service relies on, over `seq<char>`.
    A Dafny string is a sequence of Unicode scalar values, where a Java string
    is a sequence of UTF-16 code units; `length()` and `compareTo`, the two
    operations where that differs, are modelled through the UTF-16 encoding.
    Case mapping is ASCII-only (`Locale.ROOT` on ASCII text). */
module JavaText {
  import opened Wrappers

  // ---------------------------------------------------------------- trimming

  /** `String.trim` drops characters whose code is at most U+0020. */
  predicate IsTrimmable(c: char) {
    c <= ' '
  }

  function StripLeading(s: string): (r: string)
    ensures |r| <= |s| && r == s[|s| - |r|..]
    ensures forall k :: 0 <= k < |s| - |r| ==> IsTrimmable(s[k])
    ensures r == [] || !IsTrimmable(r[0])
  {
    if s != [] && IsTrimmable(s[0]) then StripLeading(s[1..]) else s
  }

  function StripTrailing(s: string): (r: string)
    ensures |r| <= |s| && r == s[..|r|]
    ensures forall k :: |r| <= k < |s| ==> IsTrimmable(s[k])
    ensures r == [] || !IsTrimmable(r[|r| - 1])
  {
    if s != [] && IsTrimmable(s[|s| - 1]) then StripTrailing(s[..|s| - 1]) else s
  }

  /** `String.trim`. Its properties are stated by `TrimShape` rather than as
      a postcondition, so that the many callers do not pay for them. */
  function Trim(s: string): string {
    StripTrailing(StripLeading(s))
  }

  /** `trim` removes a prefix and a suffix of trimmable characters, leaves a
      non-trimmable character at both ends, and is empty exactly when every
      character is trimmable. */
  lemma TrimShape(s: string)
    ensures var r := Trim(s);
      && |r| <= |s|
      && (r == [] || (!IsTrimmable(r[0]) && !IsTrimmable(r[|r| - 1])))
      && (r == [] <==> forall k :: 0 <= k < |s| ==> IsTrimmable(s[k]))
  {
    var left := StripLeading(s);
    assert left == [] ==> forall k :: 0 <= k < |s| ==> IsTrimmable(s[k]);
  }

  lemma TrimIdentity(s: string)
    requires s == [] || (!IsTrimmable(s[0]) && !IsTrimmable(s[|s| - 1]))
    ensures Trim(s) == s
  {
  }

  lemma TrimIdempotent(s: string)
    ensures Trim(Trim(s)) == Trim(s)
  {
    TrimShape(s);
    TrimIdentity(Trim(s));
  }

  /** The service's `isBlank`: null, or nothing left after `trim`. */
  predicate IsBlank(o: Option<string>) {
    o.None? || Trim(o.value) == []
  }

  predicate HasText(o: Option<string>) {
    !IsBlank(o)
  }

  /** Text with a character above U+0020 is not blank, and conversely. */
  lemma HasTextIff(s: string)
    ensures HasText(Some(s)) <==> exists k :: 0 <= k < |s| && !IsTrimmable(s[k])
  {
    TrimShape(s);
  }

  // ------------------------------------------------------------ case mapping

  function UpperChar(c: char): char {
    if 'a' <= c <= 'z' then (c as int - 32) as char else c
  }

  function LowerChar(c: char): char {
    if 'A' <= c <= 'Z' then (c as int + 32) as char else c
  }

  /** `toUpperCase(Locale.ROOT)` restricted to ASCII letters. */
  function ToUpper(s: string): (r: string)
    ensures |r| == |s|
  {
    if s == [] then [] else [UpperChar(s[0])] + ToUpper(s[1..])
  }

  /** `toLowerCase(Locale.ROOT)` restricted to ASCII letters. */
  function ToLower(s: string): (r: string)
    ensures |r| == |s|
  {
    if s == [] then [] else [LowerChar(s[0])] + ToLower(s[1..])
  }

  lemma {:induction false} ToUpperAt(s: string)
    ensures forall i :: 0 <= i < |s| ==> ToUpper(s)[i] == UpperChar(s[i])
  {
    if s != [] {
      ToUpperAt(s[1..]);
      assert forall i :: 1 <= i < |s| ==> ToUpper(s)[i] == ToUpper(s[1..])[i - 1];
    }
  }

  lemma {:induction false} ToLowerAt(s: string)
    ensures forall i :: 0 <= i < |s| ==> ToLower(s)[i] == LowerChar(s[i])
  {
    if s != [] {
      ToLowerAt(s[1..]);
      assert forall i :: 1 <= i < |s| ==> ToLower(s)[i] == ToLower(s[1..])[i - 1];
    }
  }

  /** Lower-casing forgets an earlier upper-casing. */
  lemma ToLowerOfUpper(s: string)
    ensures ToLower(ToUpper(s)) == ToLower(s)
  {
    ToUpperAt(s);
    ToLowerAt(ToUpper(s));
    ToLowerAt(s);
  }

  /** Upper-casing forgets an earlier lower-casing. */
  lemma ToUpperOfLower(s: string)
    ensures ToUpper(ToLower(s)) == ToUpper(s)
  {
    ToLowerAt(s);
    ToUpperAt(ToLower(s));
    ToUpperAt(s);
  }

  predicate IsAscii(s: string) {
    forall i :: 0 <= i < |s| ==> s[i] < 128 as char
  }

  // ------------------------------------------------------ searching, affixes

  predicate StartsWith(s: string, prefix: string) {
    |prefix| <= |s| && s[..|prefix|] == prefix
  }

  predicate EndsWith(s: string, suffix: string) {
    |suffix| <= |s| && s[|s| - |suffix|..] == suffix
  }

  /** `String.contains`: `t` occurs in `s` at some position. */
  predicate Contains(s: string, t: string) {
    StartsWith(s, t) || (s != [] && Contains(s[1..], t))
  }

  lemma {:induction false} ContainsAt(s: string, t: string, i: nat)
    requires i + |t| <= |s| && s[i..i + |t|] == t
    ensures Contains(s, t)
  {
    if i > 0 {
      assert s[1..][i - 1..i - 1 + |t|] == s[i..i + |t|];
      ContainsAt(s[1..], t, i - 1);
    }
  }

  /** An occurrence needs room: `t` occurs only in text at least as long. */
  lemma {:induction false} ContainsNeedsRoom(s: string, t: string)
    requires Contains(s, t)
    ensures |t| <= |s|
  {
    if !StartsWith(s, t) {
      ContainsNeedsRoom(s[1..], t);
    }
  }

  /** In text of its own length, `t` occurs only as the whole text. */
  lemma ContainsSameLength(s: string, t: string)
    requires |s| == |t|
    ensures Contains(s, t) <==> s == t
  {
    if Contains(s, t) && !StartsWith(s, t) {
      ContainsNeedsRoom(s[1..], t);
    }
    if s == t {
      assert s[..|t|] == t;
    }
  }

  /** `String.indexOf(char)`: the first position of `c`, or -1. */
  function IndexOf(s: string, c: char): (i: int)
    ensures -1 <= i < |s|
    ensures i == -1 <==> c !in s
    ensures i >= 0 ==> s[i] == c && c !in s[..i]
  {
    if s == [] then -1
    else if s[0] == c then 0
    else
      var j := IndexOf(s[1..], c);
      if j == -1 then -1
      else
        assert s[..j + 1] == [s[0]] + s[1..][..j];
        j + 1
  }

  /** `String.equalsIgnoreCase` on ASCII text. */
  predicate EqualsIgnoreCase(a: string, b: string) {
    ToUpper(a) == ToUpper(b)
  }

  // ------------------------------------------------------ splitting, joining

  /** Every piece of `s` between occurrences of `sep` (Java's `split` with a
      single-character separator, before it drops trailing empty pieces; every
      caller here discards empty pieces, so that difference is never visible). */
  function Split(s: string, sep: char): (r: seq<string>)
    ensures |r| >= 1
    ensures forall i :: 0 <= i < |r| ==> sep !in r[i]
  {
    SplitFrom(s, sep, [])
  }

  function SplitFrom(s: string, sep: char, current: string): (r: seq<string>)
    requires sep !in current
    ensures |r| >= 1
    ensures forall i :: 0 <= i < |r| ==> sep !in r[i]
    decreases |s|
  {
    if s == [] then [current]
    else if s[0] == sep then [current] + SplitFrom(s[1..], sep, [])
    else SplitFrom(s[1..], sep, current + [s[0]])
  }

  /** `String.join(sep, parts)`. */
  function Join(parts: seq<string>, sep: string): string {
    if |parts| == 0 then []
    else if |parts| == 1 then parts[0]
    else parts[0] + sep + Join(parts[1..], sep)
  }

  lemma {:induction false} JoinSplitFrom(s: string, sep: char, current: string)
    requires sep !in current
    ensures Join(SplitFrom(s, sep, current), [sep]) == current + s
    decreases |s|
  {
    if s == [] {
    } else if s[0] == sep {
      JoinSplitFrom(s[1..], sep, []);
      assert current + s == current + [sep] + s[1..];
    } else {
      JoinSplitFrom(s[1..], sep, current + [s[0]]);
      assert current + s == current + [s[0]] + s[1..];
    }
  }

  /** Splitting and joining again on the same separator gives back the text. */
  lemma JoinSplit(s: string, sep: char)
    ensures Join(Split(s, sep), [sep]) == s
  {
    JoinSplitFrom(s, sep, []);
  }

  // ------------------------------------------------------------------ UTF-16

  /** The UTF-16 code units of one character: itself inside the Basic
      Multilingual Plane, otherwise a high and a low surrogate. */
  function Units(c: char): (u: seq<int>)
    ensures 1 <= |u| <= 2
  {
    if c as int <= 0xFFFF then [c as int]
    else
      var v := c as int - 0x10000;
      [0xD800 + v / 0x400, 0xDC00 + v % 0x400]
  }

  /** The UTF-16 encoding of a string, Java's view of it. */
  function Utf16(s: string): seq<int> {
    if s == [] then [] else Units(s[0]) + Utf16(s[1..])
  }

  /** `String.length()`: the number of UTF-16 code units. */
  function Utf16Length(s: string): nat {
    |Utf16(s)|
  }

  /** Every character is one or two code units. */
  lemma {:induction false} Utf16LengthBounds(s: string)
    ensures |s| <= Utf16Length(s) <= 2 * |s|
    ensures (forall i :: 0 <= i < |s| ==> s[i] as int <= 0xFFFF) ==> Utf16Length(s) == |s|
    ensures (forall i :: 0 <= i < |s| ==> s[i] as int > 0xFFFF) ==> Utf16Length(s) == 2 * |s|
  {
    if s != [] {
      Utf16LengthBounds(s[1..]);
      assert forall i :: 1 <= i < |s| ==> s[1..][i - 1] == s[i];
    }
  }

  // -------------------------------------------------------------- ordering

  /** Where `compareTo` puts a character among the others. It compares UTF-16
      code units, and the high surrogate of a character outside the Basic
      Multilingual Plane lies in U+D800..U+DBFF: such characters sort after
      U+0000..U+D7FF and before U+E000..U+FFFF, and among themselves by code
      point. */
  function CompareRank(c: char): int {
    if 0xE000 <= c as int <= 0xFFFF then c as int + 0x110000 else c as int
  }

  /** `a.compareTo(b) < 0`: lexicographic by character in `compareTo`'s
      order, a proper prefix first. */
  predicate LexLess(a: string, b: string) {
    if a == [] then b != []
    else if b == [] then false
    else if a[0] != b[0] then CompareRank(a[0]) < CompareRank(b[0])
    else LexLess(a[1..], b[1..])
  }

  /** A character outside the Basic Multilingual Plane sorts before one in
      U+E000..U+FFFF, though its code point is larger. */
  lemma SupplementaryBeforeHighBmp(c: char, d: char)
    requires c as int > 0xFFFF && 0xE000 <= d as int
    requires d as int <= 0xFFFF
    ensures LexLess([c], [d]) && !LexLess([d], [c])
  {
  }

  /** Lexicographic order on code units, what `compareTo` computes. */
  predicate UnitsLess(a: seq<int>, b: seq<int>) {
    if a == [] then b != []
    else if b == [] then false
    else if a[0] != b[0] then a[0] < b[0]
    else UnitsLess(a[1..], b[1..])
  }

  lemma {:induction false} UnitsLessCommonPrefix(p: seq<int>, x: seq<int>, y: seq<int>)
    ensures UnitsLess(p + x, p + y) <==> UnitsLess(x, y)
  {
    if p == [] {
      assert p + x == x && p + y == y;
    } else {
      assert (p + x)[0] == (p + y)[0] == p[0];
      assert (p + x)[1..] == p[1..] + x && (p + y)[1..] == p[1..] + y;
      UnitsLessCommonPrefix(p[1..], x, y);
    }
  }

  /** Two different characters: their code units differ before either ends,
      and the first difference agrees with `CompareRank`. */
  lemma UnitsOfDifferentChars(c: char, d: char, x: seq<int>, y: seq<int>)
    requires c != d
    ensures UnitsLess(Units(c) + x, Units(d) + y) <==> CompareRank(c) < CompareRank(d)
  {
    var u, w := Units(c) + x, Units(d) + y;
    if c as int > 0xFFFF && d as int > 0xFFFF && u[0] == w[0] {
      var vc, vd := c as int - 0x10000, d as int - 0x10000;
      assert vc / 0x400 == vd / 0x400;
      assert vc % 0x400 != vd % 0x400;
      assert vc < vd <==> vc % 0x400 < vd % 0x400;
      assert u[1..][0] == u[1] && w[1..][0] == w[1];
    }
  }

  /** `LexLess` is `compareTo`: the order of the UTF-16 encodings. */
  lemma {:induction false} LexLessIsUnitOrder(a: string, b: string)
    ensures LexLess(a, b) <==> UnitsLess(Utf16(a), Utf16(b))
  {
    if a != [] && b != [] {
      if a[0] == b[0] {
        LexLessIsUnitOrder(a[1..], b[1..]);
        UnitsLessCommonPrefix(Units(a[0]), Utf16(a[1..]), Utf16(b[1..]));
      } else {
        UnitsOfDifferentChars(a[0], b[0], Utf16(a[1..]), Utf16(b[1..]));
      }
    }
  }

  lemma {:induction false} LexLessIrreflexive(a: string)
    ensures !LexLess(a, a)
  {
    if a != [] {
      LexLessIrreflexive(a[1..]);
    }
  }

  lemma {:induction false} LexLessAsymmetric(a: string, b: string)
    requires LexLess(a, b)
    ensures !LexLess(b, a)
  {
    if a != [] && b != [] && a[0] == b[0] {
      LexLessAsymmetric(a[1..], b[1..]);
    }
  }

  lemma {:induction false} LexLessTransitive(a: string, b: string, c: string)
    requires LexLess(a, b) && LexLess(b, c)
    ensures LexLess(a, c)
  {
    if a != [] && b != [] && c != [] && a[0] == b[0] && b[0] == c[0] {
      LexLessTransitive(a[1..], b[1..], c[1..]);
    }
  }

  lemma {:induction false} LexLessTotal(a: string, b: string)
    requires a != b
    ensures LexLess(a, b) || LexLess(b, a)
  {
    if a != [] && b != [] && a[0] == b[0] {
      assert a == [a[0]] + a[1..] && b == [b[0]] + b[1..];
      LexLessTotal(a[1..], b[1..]);
    }
  }

  // -------------------------------------------------------------- decimals

  predicate IsDigit(c: char) {
    '0' <= c <= '9'
  }

  predicate AllDigits(s: string) {
    forall i :: 0 <= i < |s| ==> IsDigit(s[i])
  }

  function DigitValue(c: char): nat
    requires IsDigit(c)
  {
    c as int - '0' as int
  }

  function DigitChar(d: nat): (c: char)
    requires d < 10
    ensures IsDigit(c) && DigitValue(c) == d
  {
    ('0' as int + d) as char
  }

  /** The value of a string of decimal digits. */
  function DigitsValue(s: string): nat
    requires AllDigits(s)
  {
    if s == [] then 0 else DigitsValue(s[..|s| - 1]) * 10 + DigitValue(s[|s| - 1])
  }

  /** `Integer.toString`/`Long.toString` of a non-negative value. */
  function NatToString(n: nat): (r: string)
    ensures r != [] && AllDigits(r)
    ensures DigitsValue(r) == n
    ensures r[0] == '0' ==> n == 0
  {
    if n < 10 then [DigitChar(n)]
    else
      var prefix := NatToString(n / 10);
      assert (prefix + [DigitChar(n % 10)])[..|prefix|] == prefix;
      prefix + [DigitChar(n % 10)]
  }

  /** `Integer.toString`/`Long.toString`. */
  function IntToString(n: int): string {
    if n < 0 then "-" + NatToString(-n) else NatToString(n)
  }
}
