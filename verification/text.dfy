/** String helpers with JavaScript semantics, shared by the formatting code.

    Strings are `seq<char>`. Whitespace is the set matched by the JavaScript
    regular-expression class `\s` and removed by `String.prototype.trim`.
    Case mapping covers the ASCII letters only.
 */
module Text {

  /** JavaScript WhiteSpace and LineTerminator code points. */
  predicate IsWhitespace(c: char)
  {
    var n := c as int;
    || (9 <= n <= 13)                  // tab, line feed, vertical tab, form feed, carriage return
    || n == 32 || n == 0xA0 || n == 0x1680
    || (0x2000 <= n <= 0x200A)
    || n == 0x2028 || n == 0x2029 || n == 0x202F || n == 0x205F || n == 0x3000 || n == 0xFEFF
  }

  predicate AllWhitespace(s: string)
  {
    forall i | 0 <= i < |s| :: IsWhitespace(s[i])
  }

  predicate NoWhitespace(s: string)
  {
    forall i | 0 <= i < |s| :: !IsWhitespace(s[i])
  }

  // ---------------------------------------------------------------------------
  // Whitespace removal, trimming and word splitting
  // ---------------------------------------------------------------------------

  /** The non-whitespace characters of `s`, in order. */
  function RemoveWhitespace(s: string): string
  {
    if |s| == 0 then [] else (if IsWhitespace(s[0]) then [] else [s[0]]) + RemoveWhitespace(s[1..])
  }

  lemma {:induction false} RemoveWhitespaceAppend(a: string, b: string)
    ensures RemoveWhitespace(a + b) == RemoveWhitespace(a) + RemoveWhitespace(b)
  {
    if |a| > 0 {
      assert (a + b)[1..] == a[1..] + b;
      RemoveWhitespaceAppend(a[1..], b);
    } else {
      assert a + b == b;
    }
  }

  lemma {:induction false} RemoveWhitespaceOfWord(s: string)
    requires NoWhitespace(s)
    ensures RemoveWhitespace(s) == s
  {
    if |s| > 0 {
      RemoveWhitespaceOfWord(s[1..]);
    }
  }

  lemma {:induction false} RemoveWhitespaceOfBlank(s: string)
    ensures AllWhitespace(s) <==> RemoveWhitespace(s) == []
  {
    if |s| > 0 {
      RemoveWhitespaceOfBlank(s[1..]);
      assert AllWhitespace(s) <==> IsWhitespace(s[0]) && AllWhitespace(s[1..]);
    }
  }

  /** The number of whitespace characters `s` starts with. */
  function LeadingBlanks(s: string): (k: nat)
    ensures k <= |s| && AllWhitespace(s[..k])
    ensures k < |s| ==> !IsWhitespace(s[k])
  {
    if |s| > 0 && IsWhitespace(s[0]) then
      var k := LeadingBlanks(s[1..]);
      assert s[..k + 1] == [s[0]] + s[1..][..k];
      k + 1
    else 0
  }

  /** The length of `s` without the whitespace it ends with. */
  function ContentEnd(s: string): (k: nat)
    ensures k <= |s| && AllWhitespace(s[k..])
    ensures k > 0 ==> !IsWhitespace(s[k - 1])
  {
    if |s| > 0 && IsWhitespace(s[|s| - 1]) then
      var k := ContentEnd(s[..|s| - 1]);
      assert s[k..] == s[..|s| - 1][k..] + [s[|s| - 1]];
      k
    else |s|
  }

  /** `String.prototype.trim`: the result is blank exactly when `s` is, and keeps every non-whitespace character. */
  function Trim(s: string): (r: string)
    ensures r == [] <==> AllWhitespace(s)
    ensures |r| > 0 ==> !IsWhitespace(r[0]) && !IsWhitespace(r[|r| - 1])
    ensures RemoveWhitespace(r) == RemoveWhitespace(s)
  {
    var k := LeadingBlanks(s);
    var a := s[k..];
    var e := ContentEnd(a);
    var r := a[..e];
    assert s == s[..k] + (r + a[e..]);
    BlankPadding(s[..k], r, a[e..]);
    r
  }

  /** Whitespace around a string adds no content. */
  lemma BlankPadding(lead: string, r: string, trail: string)
    requires AllWhitespace(lead) && AllWhitespace(trail)
    ensures RemoveWhitespace(lead + (r + trail)) == RemoveWhitespace(r)
    ensures AllWhitespace(lead + (r + trail)) <==> AllWhitespace(r)
  {
    RemoveWhitespaceOfBlank(lead);
    RemoveWhitespaceOfBlank(trail);
    RemoveWhitespaceAppend(lead, r + trail);
    RemoveWhitespaceAppend(r, trail);
    RemoveWhitespaceOfBlank(lead + (r + trail));
    RemoveWhitespaceOfBlank(r);
  }

  /** The length of the leading run of non-whitespace characters. */
  function WordEnd(s: string): (n: nat)
    ensures n <= |s|
    ensures NoWhitespace(s[..n])
    ensures n < |s| ==> IsWhitespace(s[n])
  {
    if |s| == 0 || IsWhitespace(s[0]) then 0
    else
      var n := WordEnd(s[1..]);
      assert s[..n + 1] == [s[0]] + s[1..][..n];
      n + 1
  }

  function Concat(ws: seq<string>): string
  {
    if |ws| == 0 then [] else ws[0] + Concat(ws[1..])
  }

  /** The maximal runs of non-whitespace characters of `s`, in order. */
  function Words(s: string): (r: seq<string>)
    ensures forall k | 0 <= k < |r| :: |r[k]| > 0 && NoWhitespace(r[k])
    ensures Concat(r) == RemoveWhitespace(s)
    ensures |r| == 0 <==> AllWhitespace(s)
    decreases |s|
  {
    if |s| == 0 then []
    else if IsWhitespace(s[0]) then
      var r := Words(s[1..]);
      assert AllWhitespace(s) <==> AllWhitespace(s[1..]);
      r
    else
      var n := WordEnd(s);
      var rest := Words(s[n..]);
      var r := [s[..n]] + rest;
      assert r[1..] == rest;
      assert s == s[..n] + s[n..];
      RemoveWhitespaceAppend(s[..n], s[n..]);
      RemoveWhitespaceOfWord(s[..n]);
      r
  }

  /** Splitting the trimmed string at every run of whitespace: a blank string gives one empty piece, any other string its words. */
  function SplitWords(s: string): (r: seq<string>)
    ensures AllWhitespace(s) ==> r == [""]
    ensures !AllWhitespace(s) ==> r == Words(s)
  {
    var t := Trim(s);
    WordsOfTrim(s);
    if t == "" then [""] else Words(t)
  }

  lemma {:induction false} WordEndAppendBlank(s: string, w: string)
    requires |w| == 0 || IsWhitespace(w[0])
    ensures WordEnd(s + w) == WordEnd(s)
  {
    if |s| == 0 {
      assert s + w == w;
    } else if !IsWhitespace(s[0]) {
      assert (s + w)[1..] == s[1..] + w;
      WordEndAppendBlank(s[1..], w);
    }
  }

  /** Leading whitespace does not change the words. */
  lemma {:induction false} WordsPrependBlank(w: string, s: string)
    requires AllWhitespace(w)
    ensures Words(w + s) == Words(s)
  {
    if |w| > 0 {
      assert (w + s)[1..] == w[1..] + s;
      WordsPrependBlank(w[1..], s);
    } else {
      assert w + s == s;
    }
  }

  /** Trailing whitespace does not change the words. */
  lemma {:induction false} WordsAppendBlank(s: string, w: string)
    requires AllWhitespace(w)
    ensures Words(s + w) == Words(s)
    decreases |s|
  {
    if |s| == 0 {
      assert s + w == w;
    } else if IsWhitespace(s[0]) {
      assert (s + w)[1..] == s[1..] + w;
      WordsAppendBlank(s[1..], w);
    } else {
      WordEndAppendBlank(s, w);
      var n := WordEnd(s);
      assert (s + w)[..n] == s[..n];
      assert (s + w)[n..] == s[n..] + w;
      WordsAppendBlank(s[n..], w);
    }
  }

  /** Trimming does not change the words. */
  lemma WordsOfTrim(s: string)
    ensures Words(Trim(s)) == Words(s)
  {
    var lead, trail := TrimParts(s);
    WordsPrependBlank(lead, Trim(s) + trail);
    WordsAppendBlank(Trim(s), trail);
  }

  /** `s` is its trimmed form with whitespace on either side. */
  lemma TrimParts(s: string) returns (lead: string, trail: string)
    ensures AllWhitespace(lead) && AllWhitespace(trail)
    ensures s == lead + (Trim(s) + trail)
  {
    var k := LeadingBlanks(s);
    var a := s[k..];
    var e := ContentEnd(a);
    assert Trim(s) == a[..e];
    lead, trail := s[..k], a[e..];
    assert s == lead + a;
    assert a == a[..e] + trail;
  }

  /** The first word starts with the first non-whitespace character. */
  lemma FirstWordStart(s: string)
    requires !AllWhitespace(s)
    ensures |Words(s)[0]| > 0 && Words(s)[0][0] == RemoveWhitespace(s)[0]
  {
    var ws := Words(s);
    assert Concat(ws) == ws[0] + Concat(ws[1..]);
  }

  // ---------------------------------------------------------------------------
  // ASCII case mapping
  // ---------------------------------------------------------------------------

  predicate IsLower(c: char) { 'a' <= c <= 'z' }
  predicate IsUpper(c: char) { 'A' <= c <= 'Z' }
  predicate IsDigit(c: char) { '0' <= c <= '9' }

  function ToUpper(c: char): (r: char)
    ensures IsLower(c) ==> IsUpper(r) && r as int == c as int - 32
    ensures !IsLower(c) ==> r == c
  {
    if IsLower(c) then (c as int - 32) as char else c
  }

  function ToLower(c: char): (r: char)
    ensures IsUpper(c) ==> IsLower(r) && r as int == c as int + 32
    ensures !IsUpper(c) ==> r == c
  {
    if IsUpper(c) then (c as int + 32) as char else c
  }

  function UpperString(s: string): (r: string)
    ensures |r| == |s| && forall i | 0 <= i < |s| :: r[i] == ToUpper(s[i])
  {
    seq(|s|, i requires 0 <= i < |s| => ToUpper(s[i]))
  }

  function LowerString(s: string): (r: string)
    ensures |r| == |s| && forall i | 0 <= i < |s| :: r[i] == ToLower(s[i])
  {
    seq(|s|, i requires 0 <= i < |s| => ToLower(s[i]))
  }

  // ---------------------------------------------------------------------------
  // Decimal numerals
  // ---------------------------------------------------------------------------

  predicate IsNumeral(s: string)
  {
    |s| > 0 && forall i | 0 <= i < |s| :: IsDigit(s[i])
  }

  function DigitChar(d: nat): (c: char)
    requires d < 10
    ensures IsDigit(c) && c as int - '0' as int == d
  {
    ('0' as int + d) as char
  }

  /** The decimal numeral of `n`, as JavaScript prints a non-negative integer. */
  function NatToString(n: nat): (s: string)
    ensures IsNumeral(s)
    ensures s[0] == '0' ==> n == 0 && |s| == 1
  {
    if n < 10 then [DigitChar(n)] else NatToString(n / 10) + [DigitChar(n % 10)]
  }

  /** The value of a string of decimal digits. */
  function ParseNat(s: string): nat
    requires forall i | 0 <= i < |s| :: IsDigit(s[i])
  {
    if |s| == 0 then 0
    else
      assert IsDigit(s[|s| - 1]);
      ParseNat(s[..|s| - 1]) * 10 + (s[|s| - 1] as int - '0' as int)
  }

  /** Printing then parsing a count gives it back. */
  lemma {:induction false} ParseNatToString(n: nat)
    ensures ParseNat(NatToString(n)) == n
  {
    if n >= 10 {
      var s := NatToString(n);
      assert s[..|s| - 1] == NatToString(n / 10);
      ParseNatToString(n / 10);
    }
  }

  // ---------------------------------------------------------------------------
  // Splitting on a separator character
  // ---------------------------------------------------------------------------

  /** The pieces between occurrences of a one-character separator, in order: always at least one piece. */
  function Split(s: string, sep: char): (r: seq<string>)
    ensures |r| >= 1
    decreases |s|
  {
    if |s| == 0 then [""]
    else
      var rest := Split(s[1..], sep);
      if s[0] == sep then [""] + rest else [[s[0]] + rest[0]] + rest[1..]
  }

  lemma {:induction false} SplitNoSeparator(a: string, sep: char)
    requires sep !in a
    ensures Split(a, sep) == [a]
  {
    if |a| > 0 {
      assert a[0] != sep && sep !in a[1..];
      SplitNoSeparator(a[1..], sep);
      assert [a[0]] + a[1..] == a;
    }
  }

  /** A separator-free prefix followed by a separator splits off as one piece. */
  lemma {:induction false} SplitAfterPiece(a: string, sep: char, b: string)
    requires sep !in a
    ensures Split(a + [sep] + b, sep) == [a] + Split(b, sep)
  {
    if |a| == 0 {
      assert a + [sep] + b == [sep] + b;
      assert ([sep] + b)[1..] == b;
    } else {
      assert (a + [sep] + b)[1..] == a[1..] + [sep] + b;
      assert a[0] != sep && sep !in a[1..];
      SplitAfterPiece(a[1..], sep, b);
      assert [a[0]] + a[1..] == a;
    }
  }
}
