/** Separators, number formatting and splitting of text. */
module Text {
  import opened Prelude

  /** The first occurrence of a separator splits a text in one way only. */
  lemma SplitUnique<T>(x: seq<T>, y: seq<T>, x': seq<T>, y': seq<T>, sep: T)
    requires sep !in x && sep !in x'
    requires x + [sep] + y == x' + [sep] + y'
    ensures x == x' && y == y'
  {
    var s, s' := x + [sep] + y, x' + [sep] + y';
    assert s[|x|] == sep && s'[|x'|] == sep;
    assert forall i :: 0 <= i < |x| ==> s[i] == x[i];
    assert forall i :: 0 <= i < |x'| ==> s'[i] == x'[i];
    assert |x| == |x'|;
    assert x == s[..|x|] && x' == s'[..|x'|];
    assert y == s[|x| + 1..] && y' == s'[|x'| + 1..];
  }

  lemma SuffixUnique<T>(x: seq<T>, x': seq<T>, tail: seq<T>)
    requires x + tail == x' + tail
    ensures x == x'
  {
    assert x == (x + tail)[..|x|] && x' == (x' + tail)[..|x'|];
    assert |x + tail| == |x' + tail|;
  }

  lemma PrefixUnique<T>(head: seq<T>, x: seq<T>, x': seq<T>)
    requires head + x == head + x'
    ensures x == x'
  {
    assert x == (head + x)[|head|..] && x' == (head + x')[|head|..];
  }

  lemma TwoFieldsUnique<T>(head: seq<T>, x: seq<T>, y: seq<T>, x': seq<T>, y': seq<T>, tail: seq<T>, sep: T)
    requires sep !in x && sep !in x'
    requires head + x + [sep] + y + tail == head + x' + [sep] + y' + tail
    ensures x == x' && y == y'
  {
    SuffixUnique(head + x + [sep] + y, head + x' + [sep] + y', tail);
    assert head + x + [sep] + y == head + (x + [sep] + y);
    assert head + x' + [sep] + y' == head + (x' + [sep] + y');
    PrefixUnique(head, x + [sep] + y, x' + [sep] + y');
    SplitUnique(x, y, x', y', sep);
  }

  // ---------- Numbers ----------

  function Digit(d: nat): (c: char)
    requires d < 16
    ensures d < 10 ==> '0' <= c <= '9'
    ensures 10 <= d ==> 'a' <= c <= 'f'
  {
    "0123456789abcdef"[d]
  }

  lemma DigitInjective(d: nat, e: nat)
    requires d < 16 && e < 16 && Digit(d) == Digit(e)
    ensures d == e
  {
  }

  function Decimal(n: nat): (s: string)
    ensures |s| > 0
    ensures forall i :: 0 <= i < |s| ==> '0' <= s[i] <= '9'
  {
    if n < 10 then [Digit(n)] else Decimal(n / 10) + [Digit(n % 10)]
  }

  lemma DecimalLast(n: nat)
    ensures var s := Decimal(n); s[|s| - 1] == Digit(n % 10) && (|s| == 1 <==> n < 10)
    ensures n >= 10 ==> var s := Decimal(n); s[..|s| - 1] == Decimal(n / 10)
  {
  }

  lemma {:induction false} DecimalInjective(m: nat, n: nat)
    requires Decimal(m) == Decimal(n)
    ensures m == n
    decreases m
  {
    DecimalLast(m);
    DecimalLast(n);
    DigitInjective(m % 10, n % 10);
    if m >= 10 {
      DecimalInjective(m / 10, n / 10);
    }
  }

  predicate IsHexDigit(c: char) { '0' <= c <= '9' || 'a' <= c <= 'f' }

  predicate IsHex(s: string) { forall i :: 0 <= i < |s| ==> IsHexDigit(s[i]) }

  // ---------- White space and case ----------

  /** The white space of `strings.TrimSpace`. */
  predicate IsSpace(c: char) {
    c in " \t\n\r" || c == '\U{b}' || c == '\U{c}' || c == '\U{85}' || c == '\U{A0}' ||
    c == '\U{1680}' || '\U{2000}' <= c <= '\U{200A}' || c == '\U{2028}' || c == '\U{2029}' ||
    c == '\U{202F}' || c == '\U{205F}' || c == '\U{3000}'
  }

  /** `strings.TrimSpace(s) == ""` */
  predicate Blank(s: string) { forall i :: 0 <= i < |s| ==> IsSpace(s[i]) }

  /** Case folding as far as it leads to ASCII letters: besides the capital letters, Unicode folds the
      dotted capital I and the Kelvin sign to them. */
  function FoldedChar(c: char): char {
    if 'A' <= c <= 'Z' then (c as int + 32) as char
    else if c == '\U{130}' then 'i'
    else if c == '\U{212A}' then 'k'
    else c
  }

  /** `strings.ToLower` for the host names that a module contract admits, whose folded form is ASCII. */
  function ToLower(s: string): string { seq(|s|, i requires 0 <= i < |s| => FoldedChar(s[i])) }

  // ---------- Splitting ----------

  /** `strings.Split` for a one-character separator. */
  function Split<T(==)>(s: seq<T>, sep: T): (parts: seq<seq<T>>)
    ensures |parts| > 0
  {
    if s == [] then [[]]
    else
      var rest := Split(s[1..], sep);
      if s[0] == sep then [[]] + rest else [[s[0]] + rest[0]] + rest[1..]
  }

  function Join<T>(parts: seq<seq<T>>, sep: T): seq<T> {
    if parts == [] then []
    else if |parts| == 1 then parts[0]
    else parts[0] + [sep] + Join(parts[1..], sep)
  }

  lemma {:induction false} SplitPrefix<T>(x: seq<T>, y: seq<T>, sep: T)
    requires sep !in x
    ensures Split(x + [sep] + y, sep) == [x] + Split(y, sep)
    ensures Split(x, sep) == [x]
    decreases |x|
  {
    var s := x + [sep] + y;
    if x == [] {
      assert s[1..] == y;
    } else {
      assert s[1..] == x[1..] + [sep] + y;
      SplitPrefix(x[1..], y, sep);
      assert [x[0]] + x[1..] == x;
    }
  }

  lemma {:induction false} SplitJoin<T>(parts: seq<seq<T>>, sep: T)
    requires |parts| > 0
    requires forall p :: p in parts ==> sep !in p
    ensures Split(Join(parts, sep), sep) == parts
    decreases |parts|
  {
    if |parts| == 1 {
      SplitPrefix(parts[0], [], sep);
    } else {
      SplitJoin(parts[1..], sep);
      SplitPrefix(parts[0], Join(parts[1..], sep), sep);
    }
  }

  lemma {:induction false} SplitParts<T>(s: seq<T>, sep: T)
    ensures Join(Split(s, sep), sep) == s
    ensures forall p :: p in Split(s, sep) ==> sep !in p
    decreases |s|
  {
    if s != [] {
      SplitParts(s[1..], sep);
      var rest := Split(s[1..], sep);
      assert s == [s[0]] + s[1..];
      if s[0] != sep {
        assert rest == [rest[0]] + rest[1..];
        var parts := [[s[0]] + rest[0]] + rest[1..];
        assert parts[1..] == rest[1..];
        if |rest| > 1 {
          assert Join(parts, sep) == ([s[0]] + rest[0]) + [sep] + Join(rest[1..], sep);
        }
      } else {
        assert ([[]] + rest)[1..] == rest;
      }
    }
  }
}
