/** The string operations of Go's standard library that the models share: the byte-wise order,
    TrimSpace, Split with its inverse, and decimal numbers. */
module Strings {

  datatype Option<+T> = None | Some(value: T)

  // ---------------------------------------------------------------- order

  /** `a < b` as Go compares strings. */
  predicate Less(a: string, b: string) {
    b != "" && (a == "" || a[0] < b[0] || (a[0] == b[0] && Less(a[1..], b[1..])))
  }

  lemma {:induction false} LessTransitive(a: string, b: string, c: string)
    requires Less(a, b) && Less(b, c)
    ensures Less(a, c)
  {
    if a != "" && a[0] == b[0] && b[0] == c[0] {
      LessTransitive(a[1..], b[1..], c[1..]);
    }
  }

  lemma {:induction false} LessTotal(a: string, b: string)
    ensures Less(a, b) || a == b || Less(b, a)
    ensures !(Less(a, b) && Less(b, a)) && !Less(a, a)
  {
    if a != "" {
      LessTotal(a[1..], a[1..]);
      if b != "" && a[0] == b[0] {
        LessTotal(a[1..], b[1..]);
        if a[1..] == b[1..] {
          assert a == [a[0]] + a[1..];
          assert b == [b[0]] + b[1..];
        }
      }
    }
  }

  // ---------------------------------------------------------------- blanks

  /** unicode.IsSpace. */
  predicate IsSpace(c: char) {
    c in "\t\n\U{b}\U{c}\r \U{85}\U{a0}\U{1680}\U{2028}\U{2029}\U{202f}\U{205f}\U{3000}" || '\U{2000}' <= c <= '\U{200a}'
  }

  function TrimLeft(s: string): (r: string)
    ensures r == "" || !IsSpace(r[0])
    ensures |r| <= |s| && r == s[|s| - |r|..]
  {
    if s != "" && IsSpace(s[0]) then TrimLeft(s[1..]) else s
  }

  function TrimRight(s: string): (r: string)
    ensures r == "" || !IsSpace(r[|r| - 1])
    ensures r <= s
  {
    if s != "" && IsSpace(s[|s| - 1]) then TrimRight(s[..|s| - 1]) else s
  }

  function TrimSpace(s: string): string {
    TrimRight(TrimLeft(s))
  }

  /** Text that neither starts nor ends with a blank is left alone; TrimSpace always gives such text. */
  lemma TrimSpaceTrimmed(s: string)
    ensures TrimSpace(TrimSpace(s)) == TrimSpace(s)
    ensures s != "" && !IsSpace(s[0]) && !IsSpace(s[|s| - 1]) ==> TrimSpace(s) == s
  {
  }

  lemma TrimSpaceKeeps(s: string, c: char)
    requires c in TrimSpace(s)
    ensures c in s
  {
  }

  // ---------------------------------------------------------------- Split

  /** strings.Split with a one-character separator. */
  function Split(s: string, sep: char): (parts: seq<string>)
    ensures parts != []
    ensures forall i :: 0 <= i < |parts| ==> sep !in parts[i]
  {
    if s == "" then [""]
    else
      var rest := Split(s[1..], sep);
      if s[0] == sep then [""] + rest else [[s[0]] + rest[0]] + rest[1..]
  }

  function Join(parts: seq<string>, sep: char): string
    requires parts != []
  {
    if |parts| == 1 then parts[0] else parts[0] + [sep] + Join(parts[1..], sep)
  }

  lemma {:induction false} JoinSplit(s: string, sep: char)
    ensures Join(Split(s, sep), sep) == s
  {
    if s != "" {
      JoinSplit(s[1..], sep);
      var rest := Split(s[1..], sep);
      assert s == [s[0]] + s[1..];
      if s[0] == sep {
        assert ([""] + rest)[1..] == rest;
      } else {
        assert ([[s[0]] + rest[0]] + rest[1..])[1..] == rest[1..];
      }
    }
  }

  lemma {:induction false} SplitPrefix(head: string, tail: string, sep: char)
    requires sep !in head
    ensures Split(head + [sep] + tail, sep) == [head] + Split(tail, sep)
  {
    var s := head + [sep] + tail;
    if head == "" {
      assert s[1..] == tail;
    } else {
      SplitPrefix(head[1..], tail, sep);
      assert s[1..] == head[1..] + [sep] + tail;
      assert head == [head[0]] + head[1..];
    }
  }

  /** The parts of a text with one more character in front. */
  function Push(c: char, parts: seq<string>, sep: char): seq<string>
    requires parts != []
  {
    if c == sep then [""] + parts else [[c] + parts[0]] + parts[1..]
  }

  lemma SplitFirst(s: string, sep: char)
    requires s != ""
    ensures Split(s, sep) == Push(s[0], Split(s[1..], sep), sep)
  {
  }

  lemma PushConcat(c: char, a: seq<string>, b: seq<string>, sep: char)
    requires a != []
    ensures Push(c, a + b, sep) == Push(c, a, sep) + b
  {
    assert (a + b)[0] == a[0] && (a + b)[1..] == a[1..] + b;
  }

  lemma {:induction false} SplitConcat(a: string, b: string, sep: char)
    ensures Split(a + [sep] + b, sep) == Split(a, sep) + Split(b, sep)
  {
    hide Split, Push;
    var s := a + [sep] + b;
    SplitFirst(s, sep);
    if a == "" {
      SeparatorFirst(b, sep);
      assert s[1..] == b && s[0] == sep;
    } else {
      assert s[1..] == a[1..] + [sep] + b && s[0] == a[0];
      SplitConcat(a[1..], b, sep);
      SplitFirst(a, sep);
      PushConcat(a[0], Split(a[1..], sep), Split(b, sep), sep);
    }
  }

  lemma SeparatorFirst(b: string, sep: char)
    ensures Push(sep, Split(b, sep), sep) == Split("", sep) + Split(b, sep)
  {
  }

  lemma {:induction false} SplitWhole(s: string, sep: char)
    requires sep !in s
    ensures Split(s, sep) == [s]
  {
    if s != "" {
      SplitWhole(s[1..], sep);
      assert s == [s[0]] + s[1..];
    }
  }

  // ---------------------------------------------------------------- decimal numbers

  predicate IsDigit(c: char) {
    '0' <= c <= '9'
  }

  predicate AllDigits(s: string) {
    forall i :: 0 <= i < |s| ==> IsDigit(s[i])
  }

  function DigitsValue(s: string): nat
    requires AllDigits(s)
  {
    if s == "" then 0 else 10 * DigitsValue(s[..|s| - 1]) + (s[|s| - 1] as int - '0' as int)
  }

  function Digit(d: nat): (c: char)
    requires d < 10
    ensures IsDigit(c) && c as int - '0' as int == d
  {
    '0' + d as char
  }

  /** strconv.Itoa of a number that is not negative. */
  function Decimal(n: nat): (s: string)
    ensures s != "" && AllDigits(s)
    ensures DigitsValue(s) == n
  {
    if n < 10 then [Digit(n)]
    else
      var front := Decimal(n / 10);
      var s := front + [Digit(n % 10)];
      assert s[..|s| - 1] == front;
      s
  }

  const MAX_INT64 := 0x7fff_ffff_ffff_ffff

  /** strconv.Atoi: an optional sign, digits, and the range of a 64-bit int. */
  function Atoi(s: string): Option<int> {
    var digits := if s != "" && (s[0] == '+' || s[0] == '-') then s[1..] else s;
    if digits == "" || !AllDigits(digits) then None
    else
      var v: int := if s[0] == '-' then 0 - DigitsValue(digits) else DigitsValue(digits);
      if -MAX_INT64 - 1 <= v <= MAX_INT64 then Some(v) else None
  }

  /** Atoi reads back what Itoa prints, and the digits are no blank, separator or sign. */
  lemma DecimalReads(n: nat)
    requires n <= MAX_INT64
    ensures Atoi(Decimal(n)) == Some(n) && TrimSpace(Decimal(n)) == Decimal(n)
    ensures forall c :: c in Decimal(n) ==> IsDigit(c)
    ensures Decimal(n) != "" && IsDigit(Decimal(n)[0]) && IsDigit(Decimal(n)[|Decimal(n)| - 1])
  {
    hide Decimal, TrimSpace, IsSpace;
    var s := Decimal(n);
    assert IsDigit(s[0]) && IsDigit(s[|s| - 1]);
    DigitsNotBlank();
    TrimSpaceTrimmed(s);
  }

  /** A sign is read too; an out-of-range number is not. */
  lemma SignedReads(n: nat)
    ensures Atoi("-" + Decimal(n)) == if n <= MAX_INT64 + 1 then Some(0 - n) else None
    ensures Atoi("+" + Decimal(n)) == if n <= MAX_INT64 then Some(n) else None
  {
    hide Decimal;
    assert ("-" + Decimal(n))[1..] == Decimal(n) && ("+" + Decimal(n))[1..] == Decimal(n);
  }

  lemma DigitsNotBlank()
    ensures forall c :: IsDigit(c) ==> !IsSpace(c)
  {
  }
}
