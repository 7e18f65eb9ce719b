/** The Python `str`/`bytes` operations the integration relies on: `find`, `in`, `replace`,
    `split`, `strip`, ASCII `upper`, `str(int)` and `int(str)`. */
module Text {
  import opened Base

  /** `pat` occurs in `s` starting at index `k`. */
  predicate OccursAt<T(==)>(s: seq<T>, pat: seq<T>, k: int) {
    0 <= k && k + |pat| <= |s| && s[k..k + |pat|] == pat
  }

  /** Python `s.find(pat, start)`: the first index at or after `start` where `pat`
      occurs, or -1 when there is none. */
  function Find<T(==)>(s: seq<T>, pat: seq<T>, start: nat): (r: int)
    ensures r == -1 || (start <= r && OccursAt(s, pat, r))
    ensures forall k :: start <= k && (r == -1 || k < r) ==> !OccursAt(s, pat, k)
    decreases |s| - start
  {
    if start + |pat| > |s| then -1
    else if s[start..start + |pat|] == pat then start
    else Find(s, pat, start + 1)
  }

  /** `find` stops at the first occurrence. */
  lemma FindFirst<T>(s: seq<T>, pat: seq<T>, start: nat, k: nat)
    requires start <= k && OccursAt(s, pat, k)
    requires forall j :: start <= j < k ==> !OccursAt(s, pat, j)
    ensures Find(s, pat, start) == k
  {
  }

  /** No occurrence starts where the element `pat[i]` would have to be and is not. */
  lemma NoOccurrence<T>(s: seq<T>, pat: seq<T>, j: int, i: nat)
    requires i < |pat| && 0 <= j + i < |s| && s[j + i] != pat[i]
    ensures !OccursAt(s, pat, j)
  {
    if 0 <= j && j + |pat| <= |s| {
      assert s[j..j + |pat|][i] == s[j + i];
    }
  }

  /** Python `pat in s`. */
  predicate Contains<T(==)>(s: seq<T>, pat: seq<T>) {
    Find(s, pat, 0) != -1
  }

  lemma ContainsIff<T>(s: seq<T>, pat: seq<T>)
    ensures Contains(s, pat) <==> exists k :: OccursAt(s, pat, k)
  {
    if Contains(s, pat) {
      assert OccursAt(s, pat, Find(s, pat, 0));
    }
  }

  lemma OccursLater<T>(s: seq<T>, pat: seq<T>, k: int)
    requires |s| > 0 && OccursAt(s[1..], pat, k)
    ensures OccursAt(s, pat, k + 1)
  {
    assert s[k + 1..k + 1 + |pat|] == s[1..][k..k + |pat|];
  }

  /** Python `s.replace(pat, rep)`: every non-overlapping occurrence of `pat`, scanning
      left to right, is replaced by `rep`. */
  function Replace<T(==)>(s: seq<T>, pat: seq<T>, rep: seq<T>): (r: seq<T>)
    requires pat != []
    ensures !Contains(s, pat) ==> r == s
    decreases |s|
  {
    if |s| < |pat| then s
    else if s[..|pat|] == pat then
      assert OccursAt(s, pat, 0);
      rep + Replace(s[|pat|..], pat, rep)
    else
      assert !Contains(s, pat) ==> !Contains(s[1..], pat) by {
        if !Contains(s, pat) && Contains(s[1..], pat) {
          OccursLater(s, pat, Find(s[1..], pat, 0));
          ContainsIff(s, pat);
        }
      }
      [s[0]] + Replace(s[1..], pat, rep)
  }

  /** The inverse of `Split`: the parts with `sep` between consecutive ones. */
  function Join<T>(parts: seq<seq<T>>, sep: T): seq<T>
    decreases |parts|
  {
    if |parts| == 0 then []
    else if |parts| == 1 then parts[0]
    else parts[0] + [sep] + Join(parts[1..], sep)
  }

  /** Python `s.split(sep)` for a one-character separator: every occurrence of `sep`
      separates two parts, empty parts included. */
  function Split<T(==)>(s: seq<T>, sep: T): (parts: seq<seq<T>>)
    ensures |parts| >= 1
    ensures forall i :: 0 <= i < |parts| ==> sep !in parts[i]
    ensures Join(parts, sep) == s
    decreases |s|
  {
    if |s| == 0 then [[]]
    else if s[0] == sep then
      var rest := Split(s[1..], sep);
      assert s == [sep] + s[1..];
      [[]] + rest
    else
      var rest := Split(s[1..], sep);
      var parts := [[s[0]] + rest[0]] + rest[1..];
      assert parts[1..] == rest[1..];
      assert s == [s[0]] + s[1..];
      parts
  }

  /** The first part of a split is the text up to the first separator. */
  lemma SplitFirst<T>(s: seq<T>, sep: T)
    ensures var p := Split(s, sep)[0];
      |p| <= |s| && s[..|p|] == p && (|p| < |s| ==> s[|p|] == sep)
  {
    var parts := Split(s, sep);
    if |parts| > 1 {
      assert s == parts[0] + [sep] + Join(parts[1..], sep);
    }
  }

  /** A string that lacks one of the pattern's characters does not contain the pattern. */
  lemma NotContains<T>(s: seq<T>, pat: seq<T>, c: T)
    requires c in pat && c !in s
    ensures !Contains(s, pat)
  {
    ContainsIff(s, pat);
  }

  /** `Replace` for a one-element pattern, element by element. */
  function ReplaceChar<T(==)>(s: seq<T>, a: T, rep: seq<T>): (r: seq<T>)
    ensures forall c :: c in r ==> (c in s && c != a) || c in rep
    ensures a !in s ==> r == s
    decreases |s|
  {
    if |s| == 0 then []
    else (if s[0] == a then rep else [s[0]]) + ReplaceChar(s[1..], a, rep)
  }

  lemma {:induction false} ReplaceCharIsReplace<T>(s: seq<T>, a: T, rep: seq<T>)
    ensures Replace(s, [a], rep) == ReplaceChar(s, a, rep)
    decreases |s|
  {
    if |s| >= 1 {
      ReplaceCharIsReplace(s[1..], a, rep);
      assert s[..1] == [s[0]];
    }
  }

  lemma {:induction false} SplitNoSeparator<T>(a: seq<T>, sep: T)
    requires sep !in a
    ensures Split(a, sep) == [a]
    decreases |a|
  {
    if |a| > 0 {
      SplitNoSeparator(a[1..], sep);
      assert [a[0]] + a[1..] == a;
    }
  }

  lemma {:induction false} SplitAfter<T>(a: seq<T>, b: seq<T>, sep: T)
    requires sep !in a
    ensures Split(a + [sep] + b, sep) == [a] + Split(b, sep)
    decreases |a|
  {
    var s := a + [sep] + b;
    if |a| == 0 {
      assert s[1..] == b;
    } else {
      assert s[1..] == a[1..] + [sep] + b;
      SplitAfter(a[1..], b, sep);
      assert [a[0]] + a[1..] == a;
    }
  }

  /** `Split` inverts `Join` when no part holds the separator. */
  lemma {:induction false} SplitJoin<T>(parts: seq<seq<T>>, sep: T)
    requires |parts| >= 1 && forall i :: 0 <= i < |parts| ==> sep !in parts[i]
    ensures Split(Join(parts, sep), sep) == parts
    decreases |parts|
  {
    if |parts| == 1 {
      SplitNoSeparator(parts[0], sep);
    } else {
      SplitJoin(parts[1..], sep);
      SplitAfter(parts[0], Join(parts[1..], sep), sep);
      assert [parts[0]] + parts[1..] == parts;
    }
  }

  /** Python `str.isspace()` for one character. */
  predicate IsPySpace(c: char) {
    || ('\t' <= c <= '\r')
    || ('\U{1C}' <= c <= '\U{1F}')
    || c == ' ' || c == '\U{85}' || c == '\U{A0}' || c == '\U{1680}'
    || ('\U{2000}' <= c <= '\U{200A}')
    || c == '\U{2028}' || c == '\U{2029}' || c == '\U{202F}' || c == '\U{205F}' || c == '\U{3000}'
  }

  /** The white space `int()` skips around the digits of a `bytes` literal. */
  predicate IsAsciiSpace(c: char) {
    c == ' ' || ('\t' <= c <= '\r')
  }

  function LeadingSpaces(s: string, space: char -> bool): (n: nat)
    ensures n <= |s|
    ensures forall k :: 0 <= k < n ==> space(s[k])
    ensures n < |s| ==> !space(s[n])
  {
    if |s| == 0 || !space(s[0]) then 0 else 1 + LeadingSpaces(s[1..], space)
  }

  function TrailingSpaces(s: string, space: char -> bool): (n: nat)
    ensures n <= |s|
    ensures forall k :: |s| - n <= k < |s| ==> space(s[k])
    ensures n < |s| ==> !space(s[|s| - 1 - n])
  {
    if |s| == 0 || !space(s[|s| - 1]) then 0 else 1 + TrailingSpaces(s[..|s| - 1], space)
  }

  /** `s` with its leading and trailing `space` characters removed: the result is the
      slice of `s` that starts and ends with a non-space, everything outside it a space. */
  function StripBy(s: string, space: char -> bool): (r: string)
    ensures r == [] || (!space(r[0]) && !space(r[|r| - 1]))
    ensures var lo := LeadingSpaces(s, space);
              && lo + |r| <= |s| && s[lo..lo + |r|] == r
              && (forall k :: lo + |r| <= k < |s| ==> space(s[k]))
  {
    var lo := LeadingSpaces(s, space);
    var u := s[lo..];
    var t := TrailingSpaces(u, space);
    var r := u[..|u| - t];
    assert forall k :: lo + |r| <= k < |s| ==> s[k] == u[k - lo];
    r
  }

  /** A string that starts and ends with a non-space is its own strip. */
  lemma StripUnchanged(s: string, space: char -> bool)
    requires |s| > 0 && !space(s[0]) && !space(s[|s| - 1])
    ensures StripBy(s, space) == s
  {
    assert LeadingSpaces(s, space) == 0;
    assert s[0..] == s;
    assert TrailingSpaces(s, space) == 0;
  }

  /** Python `str.strip()`. */
  function Strip(s: string): string {
    StripBy(s, IsPySpace)
  }

  function UpperChar(c: char): char {
    if 'a' <= c <= 'z' then (c as int - 32) as char else c
  }

  /** Python `str.upper()` on ASCII letters. */
  function UpperAscii(s: string): string {
    seq(|s|, i requires 0 <= i < |s| => UpperChar(s[i]))
  }

  predicate IsDigit(c: char) {
    '0' <= c <= '9'
  }

  predicate AllDigits(s: string) {
    forall i :: 0 <= i < |s| ==> IsDigit(s[i])
  }

  function DigitChar(d: int): char
    requires 0 <= d < 10
  {
    ('0' as int + d) as char
  }

  /** Python `str(n)` for `n >= 0`. */
  function NatToDecimal(n: nat): (s: string)
    ensures |s| >= 1 && AllDigits(s)
    ensures |s| > 1 ==> s[0] != '0'
    decreases n
  {
    if n < 10 then [DigitChar(n)] else NatToDecimal(n / 10) + [DigitChar(n % 10)]
  }

  /** Python `str(i)`. */
  function IntToDecimal(i: int): (s: string)
    ensures i < 0 <==> (|s| > 0 && s[0] == '-')
  {
    if i < 0 then "-" + NatToDecimal(-i) else NatToDecimal(i)
  }

  /** The value of a string of decimal digits. */
  function DigitsValue(s: string): nat
    requires AllDigits(s)
  {
    if |s| == 0 then 0
    else
      assert IsDigit(s[|s| - 1]);
      DigitsValue(s[..|s| - 1]) * 10 + (s[|s| - 1] as int - '0' as int)
  }

  lemma {:induction false} DecimalRoundTrip(n: nat)
    ensures DigitsValue(NatToDecimal(n)) == n
    decreases n
  {
    if n >= 10 {
      var s := NatToDecimal(n);
      assert s[..|s| - 1] == NatToDecimal(n / 10);
      DecimalRoundTrip(n / 10);
    }
  }

  /** Python `str()` on ints is injective. */
  lemma IntDecimalInjective(i: int, j: int)
    requires IntToDecimal(i) == IntToDecimal(j)
    ensures i == j
  {
    var m: nat := if i < 0 then -i else i;
    var n: nat := if j < 0 then -j else j;
    DecimalRoundTrip(m);
    DecimalRoundTrip(n);
    if i < 0 {
      assert IntToDecimal(i)[1..] == NatToDecimal(m);
      assert IntToDecimal(j)[1..] == NatToDecimal(n);
    }
  }

  /** Python's base-10 digit syntax for `int()`: digits, with single underscores
      allowed between two digits. */
  predicate DigitGroups(s: string) {
    && |s| > 0 && IsDigit(s[0]) && IsDigit(s[|s| - 1])
    && (forall i :: 0 <= i < |s| ==> IsDigit(s[i]) || s[i] == '_')
    && (forall i :: 0 <= i < |s| - 1 ==> s[i] == '_' ==> s[i + 1] != '_')
  }

  /** The digits of a literal in `DigitGroups` syntax, underscores dropped. */
  function DropUnderscores(s: string): (r: string)
    requires forall i :: 0 <= i < |s| ==> IsDigit(s[i]) || s[i] == '_'
    ensures AllDigits(r)
    ensures AllDigits(s) ==> r == s
  {
    if |s| == 0 then []
    else if s[0] == '_' then DropUnderscores(s[1..])
    else [s[0]] + DropUnderscores(s[1..])
  }

  /** CPython's limit on the number of digits `int()` converts from a string. */
  const MaxStrDigits: nat := 4300

  /** The unsigned part of an `int()` literal. */
  function ParseDigits(body: string): (r: Option<nat>)
    ensures AllDigits(body) && 0 < |body| <= MaxStrDigits ==> r == Some(DigitsValue(body))
  {
    if DigitGroups(body) && |DropUnderscores(body)| <= MaxStrDigits then
      Some(DigitsValue(DropUnderscores(body)))
    else
      None
  }

  /** An `int()` literal with the white space already stripped: an optional sign, then
      the digits. */
  function ParseSigned(t: string): (r: Option<int>)
    ensures (|t| == 0 || (t[0] != '-' && t[0] != '+')) ==>
              r == (match ParseDigits(t) case Some(m) => Some(m as int) case None => None)
    ensures |t| > 0 && t[0] == '-' ==>
              r == (match ParseDigits(t[1..]) case Some(m) => Some(-(m as int)) case None => None)
  {
    var negative := |t| > 0 && t[0] == '-';
    var body := if |t| > 0 && (t[0] == '-' || t[0] == '+') then t[1..] else t;
    match ParseDigits(body)
    case Some(m) => Some(if negative then -(m as int) else m as int)
    case None => None
  }

  /** Python `int(s)` in base 10, where `space` is the white space skipped around the
      literal; `None` stands for the `ValueError` it raises. */
  function ParseInt(s: string, space: char -> bool): Option<int> {
    ParseSigned(StripBy(s, space))
  }

  /** `int()` reads back what `str()` writes, whatever white space it skips, as long
      as that is not a digit or a minus sign. */
  lemma {:induction false} ParseIntRoundTrip(i: int, space: char -> bool)
    requires forall c :: IsDigit(c) || c == '-' ==> !space(c)
    requires |NatToDecimal(if i < 0 then -i else i)| <= MaxStrDigits
    ensures ParseInt(IntToDecimal(i), space) == Some(i)
  {
    var n: nat := if i < 0 then -i else i;
    var s := IntToDecimal(i);
    var d := NatToDecimal(n);
    assert IsDigit(d[0]) && IsDigit(d[|d| - 1]);
    assert s[|s| - 1] == d[|d| - 1];
    StripUnchanged(s, space);
    DecimalRoundTrip(n);
    assert ParseDigits(d) == Some(n);
    if i < 0 {
      assert s[1..] == d;
    }
  }
}
