/**
 The string operations of the standard library that the parsers and printers use: trimming,
 splitting, and decimal printing and parsing of unsigned integers.
 */
module Text {
  import opened Wrappers

  /** The characters with the Unicode White_Space property. */
  predicate IsWhitespace(c: char) {
    var n := c as int;
    || 0x09 <= n <= 0x0D || n == 0x20 || n == 0x85 || n == 0xA0 || n == 0x1680
    || 0x2000 <= n <= 0x200A || n == 0x2028 || n == 0x2029 || n == 0x202F || n == 0x205F || n == 0x3000
  }

  function TrimStart(s: string): string {
    if s != [] && IsWhitespace(s[0]) then TrimStart(s[1..]) else s
  }

  function TrimEnd(s: string): string {
    if s != [] && IsWhitespace(s[|s| - 1]) then TrimEnd(s[..|s| - 1]) else s
  }

  function Trim(s: string): string {
    TrimEnd(TrimStart(s))
  }

  /** Splits at every occurrence of a delimiter; there is always at least one part. */
  function Split(s: string, d: char): (parts: seq<string>)
    ensures |parts| >= 1
  {
    if s == [] then [[]]
    else if s[0] == d then [[]] + Split(s[1..], d)
    else
      var rest := Split(s[1..], d);
      [[s[0]] + rest[0]] + rest[1..]
  }

  /** The maximal runs of non-whitespace characters, in order. */
  function SplitWhitespace(s: string): seq<string> {
    if s == [] then []
    else if IsWhitespace(s[0]) then SplitWhitespace(s[1..])
    else
      var rest := SplitWhitespace(s[1..]);
      if |s| > 1 && !IsWhitespace(s[1]) && rest != [] then [[s[0]] + rest[0]] + rest[1..]
      else [[s[0]]] + rest
  }

  predicate StartsWith(s: string, prefix: string) {
    |prefix| <= |s| && s[..|prefix|] == prefix
  }

  // ----- decimal numbers -----------------------------------------------------------------------

  predicate IsDigit(c: char) { '0' <= c <= '9' }

  function Digit(d: int): (c: char)
    requires 0 <= d <= 9
    ensures IsDigit(c) && DigitValue(c) == d
  {
    ('0' as int + d) as char
  }

  function DigitValue(c: char): int
    requires IsDigit(c)
  {
    c as int - '0' as int
  }

  predicate AllDigits(s: string) {
    forall i :: 0 <= i < |s| ==> IsDigit(s[i])
  }

  function DigitsValue(s: string): (n: nat)
    requires AllDigits(s)
  {
    if s == [] then 0 else DigitsValue(s[..|s| - 1]) * 10 + DigitValue(s[|s| - 1])
  }

  function PrintNat(n: nat): (s: string)
    ensures |s| >= 1 && AllDigits(s)
  {
    if n < 10 then [Digit(n)] else PrintNat(n / 10) + [Digit(n % 10)]
  }

  /** Unsigned parsing below a bound: an optional plus sign, then one or more digits. */
  function ParseUnsigned(s: string, bound: nat): (r: Option<nat>)
    ensures r.Some? ==> r.value < bound
  {
    var digits := if s != [] && s[0] == '+' then s[1..] else s;
    if digits != [] && AllDigits(digits) && DigitsValue(digits) < bound then Some(DigitsValue(digits)) else None
  }

  const U32: nat := 0x1_0000_0000

  const U64: nat := 0x1_0000_0000_0000_0000

  // ----- facts ---------------------------------------------------------------------------------

  lemma {:induction false} PrintNatValue(n: nat)
    ensures DigitsValue(PrintNat(n)) == n
  {
    if n >= 10 {
      PrintNatValue(n / 10);
      var s := PrintNat(n);
      assert s[..|s| - 1] == PrintNat(n / 10);
    }
  }

  /** Parsing what was printed gives the number back. */
  lemma ParsePrinted(n: nat, bound: nat)
    requires n < bound
    ensures ParseUnsigned(PrintNat(n), bound) == Some(n)
  {
    PrintNatValue(n);
    assert IsDigit(PrintNat(n)[0]);
  }

  lemma PrintNatInjective(a: nat, b: nat)
    requires PrintNat(a) == PrintNat(b)
    ensures a == b
  {
    PrintNatValue(a);
    PrintNatValue(b);
  }

  lemma {:induction false} SplitSingle(s: string, d: char)
    requires d !in s
    ensures Split(s, d) == [s]
  {
    if s != [] {
      SplitSingle(s[1..], d);
      assert s == [s[0]] + s[1..];
    }
  }

  /** Splitting a delimiter-free part off the front. */
  lemma {:induction false} SplitFirst(a: string, d: char, b: string)
    requires d !in a
    ensures Split(a + [d] + b, d) == [a] + Split(b, d)
  {
    var s := a + [d] + b;
    if a == [] {
      assert s[1..] == b;
    } else {
      SplitFirst(a[1..], d, b);
      assert s[1..] == a[1..] + [d] + b;
      assert [a[0]] + a[1..] == a;
    }
  }

  lemma TrimUnpadded(s: string)
    requires s != [] && !IsWhitespace(s[0]) && !IsWhitespace(s[|s| - 1])
    ensures Trim(s) == s
  {
  }

  /** Trimming removes only a prefix and a suffix of whitespace. */
  lemma {:induction false} TrimStartSuffix(s: string) returns (k: nat)
    ensures k <= |s| && TrimStart(s) == s[k..]
    ensures forall i :: 0 <= i < k ==> IsWhitespace(s[i])
  {
    if s != [] && IsWhitespace(s[0]) {
      var j := TrimStartSuffix(s[1..]);
      k := j + 1;
      forall i | 0 <= i < k ensures IsWhitespace(s[i]) {
        if i > 0 { assert s[i] == s[1..][i - 1]; }
      }
    } else {
      k := 0;
    }
  }

  lemma {:induction false} TrimEndPrefix(s: string) returns (k: nat)
    ensures k <= |s| && TrimEnd(s) == s[..k]
    ensures forall i :: k <= i < |s| ==> IsWhitespace(s[i])
  {
    if s != [] && IsWhitespace(s[|s| - 1]) {
      k := TrimEndPrefix(s[..|s| - 1]);
    } else {
      k := |s|;
    }
  }

  // ----- lexicographic order -------------------------------------------------------------------

  /** The order of strings by code point, which is also the byte order of their UTF-8 encodings. */
  predicate LexLess(s: string, t: string)
    decreases |s|
  {
    t != [] && (s == [] || s[0] < t[0] || (s[0] == t[0] && LexLess(s[1..], t[1..])))
  }

  lemma {:induction false} LexIrreflexive(s: string)
    ensures !LexLess(s, s)
  {
    if s != [] { LexIrreflexive(s[1..]); }
  }

  lemma {:induction false} LexTotal(s: string, t: string)
    ensures s == t || LexLess(s, t) || LexLess(t, s)
    decreases |s|
  {
    if s != [] && t != [] && s[0] == t[0] {
      LexTotal(s[1..], t[1..]);
      if s[1..] == t[1..] {
        assert s == [s[0]] + s[1..] && t == [t[0]] + t[1..];
      }
    }
  }

  lemma {:induction false} LexTransitive(s: string, t: string, u: string)
    requires LexLess(s, t) && LexLess(t, u)
    ensures LexLess(s, u)
    decreases |s|
  {
    if s != [] && s[0] == t[0] && t[0] == u[0] {
      LexTransitive(s[1..], t[1..], u[1..]);
    }
  }

  /** A common prefix and any tails do not matter once two equally long fields differ. */
  lemma {:induction false} LexField(p: string, x: string, y: string, a: string, b: string)
    requires |x| == |y| && LexLess(x, y)
    ensures LexLess(p + x + a, p + y + b)
    decreases |p|, |x|
  {
    var s, t := p + x + a, p + y + b;
    if p != [] {
      LexField(p[1..], x, y, a, b);
      assert s[1..] == p[1..] + x + a && t[1..] == p[1..] + y + b;
    } else if x[0] == y[0] {
      LexField([], x[1..], y[1..], a, b);
      assert s[1..] == [] + x[1..] + a && t[1..] == [] + y[1..] + b;
    }
  }

  // ----- zero-padded numbers -------------------------------------------------------------------

  function Zeros(k: nat): (s: string)
    ensures |s| == k && AllDigits(s)
  {
    if k == 0 then [] else ['0'] + Zeros(k - 1)
  }

  /** Decimal printing padded with zeros to a minimum width. */
  function Padded(n: nat, width: nat): (s: string)
    ensures |s| >= 1 && |s| >= width && AllDigits(s)
  {
    var digits := PrintNat(n);
    if |digits| >= width then digits else Zeros(width - |digits|) + digits
  }

  lemma {:induction false} LeadingZeros(k: nat, s: string)
    requires AllDigits(s)
    ensures DigitsValue(Zeros(k) + s) == DigitsValue(s)
    decreases k + |s|
  {
    var z := Zeros(k) + s;
    if s != [] {
      assert z[..|z| - 1] == Zeros(k) + s[..|s| - 1];
      LeadingZeros(k, s[..|s| - 1]);
    } else if k > 0 {
      ZerosShift(k);
      assert z[..|z| - 1] == Zeros(k - 1) + [];
      LeadingZeros(k - 1, []);
    }
  }

  lemma {:induction false} ZerosShift(k: nat)
    requires k > 0
    ensures Zeros(k) == Zeros(k - 1) + ['0']
  {
    if k > 1 { ZerosShift(k - 1); }
  }

  lemma PaddedValue(n: nat, width: nat)
    ensures DigitsValue(Padded(n, width)) == n
  {
    PrintNatValue(n);
    PaddedSameValue(n, width);
  }

  lemma PaddedSameValue(n: nat, width: nat)
    ensures DigitsValue(Padded(n, width)) == DigitsValue(PrintNat(n))
  {
    var digits := PrintNat(n);
    if |digits| < width {
      assert Padded(n, width) == Zeros(width - |digits|) + digits;
      LeadingZeros(width - |digits|, digits);
    } else {
      assert Padded(n, width) == digits;
    }
  }

  lemma PaddedTwo(n: nat)
    requires n < 100
    ensures |Padded(n, 2)| == 2
  {
    assert |PrintNat(n)| <= 2;
  }

  lemma PaddedFour(n: nat)
    requires n < 10000
    ensures |Padded(n, 4)| == 4
  {
    assert |PrintNat(n / 100)| <= 2;
    assert |PrintNat(n / 10)| <= 3;
    assert |PrintNat(n)| <= 4;
  }

  lemma {:induction false} DigitsBelow(s: string, t: string)
    requires AllDigits(s) && AllDigits(t) && |s| == |t|
    ensures DigitsValue(s) == DigitsValue(t) ==> s == t
    ensures DigitsValue(s) < DigitsValue(t) ==> LexLess(s, t)
    decreases |s|
  {
    if s != [] {
      var n := |s| - 1;
      DigitsBelow(s[..n], t[..n]);
      assert s == s[..n] + [s[n]] + [] && t == t[..n] + [t[n]] + [];
      if DigitsValue(s) < DigitsValue(t) {
        if DigitsValue(s[..n]) < DigitsValue(t[..n]) {
          LexField([], s[..n], t[..n], [s[n]], [t[n]]);
          assert [] + s[..n] + [s[n]] == s && [] + t[..n] + [t[n]] == t;
        } else {
          LexField(s[..n], [s[n]], [t[n]], [], []);
        }
      }
    }
  }

  /** Padded numbers of one width compare like the numbers. */
  lemma PaddedOrder(a: nat, b: nat, width: nat)
    requires a < b && |Padded(a, width)| == |Padded(b, width)|
    ensures LexLess(Padded(a, width), Padded(b, width))
  {
    PaddedValue(a, width);
    PaddedValue(b, width);
    DigitsBelow(Padded(a, width), Padded(b, width));
  }

  // ----- what splitting and trimming undo ------------------------------------------------------

  /** Parts with a delimiter between them. */
  function Joined(parts: seq<string>, d: char): string
    requires parts != []
  {
    if |parts| == 1 then parts[0] else parts[0] + [d] + Joined(parts[1..], d)
  }

  /** Splitting gives back joined parts that do not hold the delimiter. */
  lemma {:induction false} JoinedSplits(parts: seq<string>, d: char)
    requires parts != [] && forall i :: 0 <= i < |parts| ==> d !in parts[i]
    ensures Split(Joined(parts, d), d) == parts
  {
    if |parts| == 1 {
      SplitSingle(parts[0], d);
    } else {
      JoinedSplits(parts[1..], d);
      SplitFirst(parts[0], d, Joined(parts[1..], d));
    }
  }

  predicate Blank(s: string) {
    forall i :: 0 <= i < |s| ==> IsWhitespace(s[i])
  }

  predicate IsWord(s: string) {
    s != [] && forall i :: 0 <= i < |s| ==> !IsWhitespace(s[i])
  }

  /** A gap, a word, a gap, a word, ..., a gap. */
  function Spaced(gaps: seq<string>, words: seq<string>): string
    requires |gaps| == |words| + 1
    decreases |words|
  {
    if words == [] then gaps[0] else gaps[0] + (words[0] + Spaced(gaps[1..], words[1..]))
  }

  /** Words, and gaps of white space that are not empty between words. */
  predicate WellSpaced(gaps: seq<string>, words: seq<string>) {
    && |gaps| == |words| + 1
    && (forall i :: 0 <= i < |words| ==> IsWord(words[i]))
    && (forall i :: 0 <= i < |gaps| ==> Blank(gaps[i]))
    && (forall i :: 0 < i < |words| ==> gaps[i] != [])
  }

  lemma {:induction false} BlankIsSkipped(gap: string, s: string)
    requires Blank(gap)
    ensures SplitWhitespace(gap + s) == SplitWhitespace(s)
  {
    if gap == [] {
      assert gap + s == s;
    } else {
      assert (gap + s)[1..] == gap[1..] + s;
      BlankIsSkipped(gap[1..], s);
    }
  }

  lemma {:induction false} WordIsTaken(word: string, s: string)
    requires IsWord(word) && (s == [] || IsWhitespace(s[0]))
    ensures SplitWhitespace(word + s) == [word] + SplitWhitespace(s)
  {
    var t := word + s;
    assert t[1..] == word[1..] + s;
    if |word| > 1 {
      WordIsTaken(word[1..], s);
      assert [word[0]] + word[1..] == word;
    } else {
      assert word[1..] + s == s && word == [word[0]];
      assert s != [] ==> t[1] == s[0];
    }
  }

  /** Splitting at white space gives back exactly the words, whatever the gaps. */
  lemma {:induction false} WordsAreSplit(gaps: seq<string>, words: seq<string>)
    requires WellSpaced(gaps, words)
    ensures SplitWhitespace(Spaced(gaps, words)) == words
    decreases |words|
  {
    if words == [] {
      assert gaps[0] + [] == gaps[0];
      BlankIsSkipped(gaps[0], []);
    } else {
      var rest := Spaced(gaps[1..], words[1..]);
      WordsAreSplit(gaps[1..], words[1..]);
      BlankIsSkipped(gaps[0], words[0] + rest);
      assert rest == [] || IsWhitespace(rest[0]);
      WordIsTaken(words[0], rest);
    }
  }

  lemma {:induction false} TrimStartSkips(gap: string, s: string)
    requires Blank(gap) && (s == [] || !IsWhitespace(s[0]))
    ensures TrimStart(gap + s) == s
  {
    if gap == [] {
      assert gap + s == s;
    } else {
      assert (gap + s)[1..] == gap[1..] + s;
      TrimStartSkips(gap[1..], s);
    }
  }

  lemma {:induction false} TrimEndSkips(s: string, gap: string)
    requires Blank(gap) && (s == [] || !IsWhitespace(s[|s| - 1]))
    ensures TrimEnd(s + gap) == s
    decreases |gap|
  {
    if gap == [] {
      assert s + gap == s;
    } else {
      assert (s + gap)[..|s + gap| - 1] == s + gap[..|gap| - 1];
      TrimEndSkips(s, gap[..|gap| - 1]);
    }
  }

  /** Trimming takes away exactly the white space around a text. */
  lemma TrimTakesPadding(before: string, s: string, after: string)
    requires Blank(before) && Blank(after) && s != [] && !IsWhitespace(s[0]) && !IsWhitespace(s[|s| - 1])
    ensures Trim(before + s + after) == s
  {
    assert before + s + after == before + (s + after);
    TrimStartSkips(before, s + after);
    TrimEndSkips(s, after);
  }

  /** The 25 white-space characters: tab to carriage return, space, and those beyond ASCII. */
  lemma WhitespaceCharacters(c: char)
    ensures IsWhitespace(c) <==>
              c in "\t\n\U{b}\U{c}\r " + "\U{85}\U{a0}\U{1680}" +
                   "\U{2000}\U{2001}\U{2002}\U{2003}\U{2004}\U{2005}\U{2006}\U{2007}\U{2008}\U{2009}\U{200a}" +
                   "\U{2028}\U{2029}\U{202f}\U{205f}\U{3000}"
  {
  }

  // ----- what parses as a number ---------------------------------------------------------------

  /** A text is the printed n behind zeros. */
  predicate ZerosThen(s: string, n: nat) {
    |PrintNat(n)| <= |s| && s == Zeros(|s| - |PrintNat(n)|) + PrintNat(n)
  }

  /** Digits are the printed form of their value behind zeros. */
  lemma {:induction false} DigitsAreZerosAndPrint(s: string)
    requires AllDigits(s) && s != []
    ensures ZerosThen(s, DigitsValue(s))
  {
    var init, last := s[..|s| - 1], s[|s| - 1];
    assert s == init + [last];
    if init == [] {
      PrintDigit(last);
    } else {
      DigitsAreZerosAndPrint(init);
      ZerosThenAppend(init, DigitsValue(init), last);
    }
  }

  lemma ZerosThenAppend(s: string, u: nat, c: char)
    requires ZerosThen(s, u) && s != [] && IsDigit(c)
    ensures ZerosThen(s + [c], u * 10 + DigitValue(c))
  {
    if u > 0 {
      PrintAppend(u, c);
      Reassociate(Zeros(|s| - |PrintNat(u)|), PrintNat(u), [c]);
    } else {
      OnlyZeros(s, u);
      PrintDigit(c);
    }
  }

  lemma OnlyZeros(s: string, u: nat)
    requires ZerosThen(s, u) && u == 0
    ensures s == Zeros(|s|)
  {
    PrintZero(u);
    ZerosShift(|s|);
  }

  lemma PrintZero(u: nat)
    requires u == 0
    ensures PrintNat(u) == ['0']
  {
  }

  lemma Reassociate(a: string, b: string, c: string)
    ensures a + b + c == a + (b + c)
  {
  }

  lemma PrintDigit(c: char)
    requires IsDigit(c)
    ensures PrintNat(DigitValue(c)) == [c]
  {
  }

  lemma PrintAppend(u: nat, c: char)
    requires u > 0 && IsDigit(c)
    ensures PrintNat(u * 10 + DigitValue(c)) == PrintNat(u) + [c]
  {
    var n := u * 10 + DigitValue(c);
    assert n / 10 == u && n % 10 == DigitValue(c);
  }

  /** A number with an optional plus sign and leading zeros. */
  function Decimal(plus: bool, zeros: nat, n: nat): string {
    if plus then ['+'] + (Zeros(zeros) + PrintNat(n)) else Zeros(zeros) + PrintNat(n)
  }

  lemma {:induction false} ParsedIsDecimal(s: string, bound: nat, n: nat) returns (plus: bool, zeros: nat)
    requires ParseUnsigned(s, bound) == Some(n)
    ensures n < bound && s == Decimal(plus, zeros, n)
  {
    plus := s[0] == '+';
    var digits := if plus then s[1..] else s;
    DigitsAreZerosAndPrint(digits);
    zeros := |digits| - |PrintNat(n)|;
    if plus {
      assert s == ['+'] + digits;
    }
  }

  lemma DecimalParses(plus: bool, zeros: nat, n: nat, bound: nat)
    requires n < bound
    ensures ParseUnsigned(Decimal(plus, zeros, n), bound) == Some(n)
  {
    DecimalValue(zeros, n);
    DigitsParse(Zeros(zeros) + PrintNat(n), plus, bound);
  }

  lemma DigitsParse(digits: string, plus: bool, bound: nat)
    requires AllDigits(digits) && digits != [] && DigitsValue(digits) < bound
    ensures ParseUnsigned(if plus then ['+'] + digits else digits, bound) == Some(DigitsValue(digits))
  {
    if plus {
      assert (['+'] + digits)[1..] == digits;
    } else {
      assert IsDigit(digits[0]);
    }
  }

  lemma DecimalValue(zeros: nat, n: nat)
    ensures AllDigits(Zeros(zeros) + PrintNat(n)) && DigitsValue(Zeros(zeros) + PrintNat(n)) == n
  {
    LeadingZeros(zeros, PrintNat(n));
    PrintNatValue(n);
  }

  /** What parses as n is exactly an optional plus sign, zeros, and the printed n below the bound. */
  lemma ParsesIffDecimal(s: string, bound: nat, n: nat)
    ensures ParseUnsigned(s, bound) == Some(n) <==> n < bound && exists plus, zeros :: s == Decimal(plus, zeros, n)
  {
    if ParseUnsigned(s, bound) == Some(n) {
      var plus, zeros := ParsedIsDecimal(s, bound, n);
    }
    if n < bound && exists plus, zeros :: s == Decimal(plus, zeros, n) {
      var plus, zeros :| s == Decimal(plus, zeros, n);
      DecimalParses(plus, zeros, n, bound);
    }
  }
}
