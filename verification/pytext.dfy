/**
 * The Python `str` operations the mapper and the reducer's driver rely on:
 * `strip()`, `strip(chars)`, `split(sep)`, `split(sep, 1)`, `replace(c, "")`,
 * `", ".join(...)`, `repr()` of a string and `int()` of a string.
 */
module PyText {
  import opened Wrappers

  /** Python's `str.isspace()`, the characters `str.strip()` removes. */
  predicate IsSpace(c: char) {
    c == ' ' || ('\t' <= c <= '\r') || ('\U{1C}' <= c <= '\U{1F}')
    || c == '\U{85}' || c == '\U{A0}' || c == '\U{1680}'
    || ('\U{2000}' <= c <= '\U{200A}') || c == '\U{2028}' || c == '\U{2029}'
    || c == '\U{202F}' || c == '\U{205F}' || c == '\U{3000}'
  }

  /** The character sets the scripts strip: whitespace (`strip()`) and brackets (`strip("[]")`). */
  datatype CharSet = Whitespace | Brackets

  predicate In(c: char, cs: CharSet) {
    match cs
    case Whitespace => IsSpace(c)
    case Brackets => c == '[' || c == ']'
  }

  /** Drops the leading characters that are in `drop`. */
  function TrimLeft(s: string, drop: CharSet): (r: string)
    ensures |r| <= |s| && r == s[|s| - |r|..]
    ensures r == [] || !In(r[0], drop)
    ensures forall i :: 0 <= i < |s| - |r| ==> In(s[i], drop)
  {
    if s != [] && In(s[0], drop) then TrimLeft(s[1..], drop) else s
  }

  /** Drops the trailing characters that are in `drop`. */
  function TrimRight(s: string, drop: CharSet): (r: string)
    ensures |r| <= |s| && r == s[..|r|]
    ensures r == [] || !In(r[|r| - 1], drop)
    ensures forall i :: |r| <= i < |s| ==> In(s[i], drop)
  {
    if s != [] && In(s[|s| - 1], drop) then TrimRight(s[..|s| - 1], drop) else s
  }

  /** `s.strip()` */
  function Strip(s: string): (r: string)
    ensures r == [] || (!IsSpace(r[0]) && !IsSpace(r[|r| - 1]))
  {
    TrimRight(TrimLeft(s, Whitespace), Whitespace)
  }

  /** `s.strip("[]")` */
  function StripBrackets(s: string): (r: string)
    ensures r == [] || (r[0] !in "[]" && r[|r| - 1] !in "[]")
  {
    TrimRight(TrimLeft(s, Brackets), Brackets)
  }

  /** A string that neither starts nor ends with a character in `drop` is its own trim. */
  lemma TrimFixed(s: string, drop: CharSet)
    requires s == [] || (!In(s[0], drop) && !In(s[|s| - 1], drop))
    ensures TrimRight(TrimLeft(s, drop), drop) == s
  {
  }

  /** `sep.join(parts)` */
  function Join(parts: seq<string>, sep: string): string
  {
    if parts == [] then []
    else if |parts| == 1 then parts[0]
    else parts[0] + sep + Join(parts[1..], sep)
  }

  /** `s.split(sep)` for a one-character separator: the pieces between separators. */
  function Split(s: string, sep: char): (parts: seq<string>)
    ensures |parts| >= 1
    ensures forall i :: 0 <= i < |parts| ==> sep !in parts[i]
    ensures Join(parts, [sep]) == s
  {
    if s == [] then [[]]
    else
      var rest := Split(s[1..], sep);
      if s[0] == sep then
        assert ([[]] + rest)[1..] == rest;
        [[]] + rest
      else
        var parts := [[s[0]] + rest[0]] + rest[1..];
        assert parts[1..] == rest[1..];
        assert |rest| > 1 ==> Join(rest, [sep]) == rest[0] + [sep] + Join(rest[1..], [sep]);
        parts
  }

  /** Splitting the joined pieces gives the pieces back, when no piece holds the separator. */
  lemma {:induction false} SplitJoin(parts: seq<string>, sep: char)
    requires |parts| >= 1
    requires forall i :: 0 <= i < |parts| ==> sep !in parts[i]
    ensures Split(Join(parts, [sep]), sep) == parts
  {
    if |parts| == 1 {
      SplitNoSeparator(parts[0], sep);
    } else {
      SplitJoin(parts[1..], sep);
      SplitPrefix(parts[0], Join(parts[1..], [sep]), sep);
      assert [parts[0]] + parts[1..] == parts;
    }
  }

  /** A string without the separator splits into itself. */
  lemma {:induction false} SplitNoSeparator(s: string, sep: char)
    requires sep !in s
    ensures Split(s, sep) == [s]
  {
    if s != [] {
      SplitNoSeparator(s[1..], sep);
      assert [s[0]] + s[1..] == s;
    }
  }

  /** A separator-free prefix becomes the first piece. */
  lemma {:induction false} SplitPrefix(p: string, rest: string, sep: char)
    requires sep !in p
    ensures Split(p + [sep] + rest, sep) == [p] + Split(rest, sep)
  {
    if p == [] {
      assert ([] + [sep] + rest)[1..] == rest;
    } else {
      SplitPrefix(p[1..], rest, sep);
      assert (p + [sep] + rest)[1..] == p[1..] + [sep] + rest;
      assert [p[0]] + p[1..] == p;
    }
  }

  /** `s.split(sep, 1)`: one piece when `sep` does not occur, else the text before and after its first occurrence. */
  function SplitOnce(s: string, sep: char): (parts: seq<string>)
    ensures |parts| == 1 <==> sep !in s
    ensures |parts| == 1 ==> parts[0] == s
    ensures |parts| == 2 ==> sep !in parts[0] && parts[0] + [sep] + parts[1] == s
    ensures 1 <= |parts| <= 2
  {
    if s == [] then [s]
    else if s[0] == sep then [[], s[1..]]
    else
      var rest := SplitOnce(s[1..], sep);
      if |rest| == 1 then
        assert [s[0]] + s[1..] == s;
        [s]
      else
        assert [s[0]] + rest[0] + [sep] + rest[1] == s;
        [[s[0]] + rest[0], rest[1]]
  }

  /** `s.replace(c, "")` */
  function RemoveChar(s: string, c: char): (r: string)
    ensures c !in r
    ensures forall x :: x != c ==> multiset(r)[x] == multiset(s)[x]
  {
    if s == [] then []
    else
      assert s == [s[0]] + s[1..];
      (if s[0] == c then [] else [s[0]]) + RemoveChar(s[1..], c)
  }

  lemma {:induction false} RemoveCharAppend(a: string, b: string, c: char)
    ensures RemoveChar(a + b, c) == RemoveChar(a, c) + RemoveChar(b, c)
  {
    if a != [] {
      RemoveCharAppend(a[1..], b, c);
      assert (a + b)[0] == a[0] && (a + b)[1..] == a[1..] + b;
      assert RemoveChar(a, c) == (if a[0] == c then [] else [a[0]]) + RemoveChar(a[1..], c);
    } else {
      assert a + b == b;
    }
  }

  lemma {:induction false} RemoveCharAbsent(s: string, c: char)
    requires c !in s
    ensures RemoveChar(s, c) == s
  {
    if s != [] {
      RemoveCharAbsent(s[1..], c);
      assert [s[0]] + s[1..] == s;
    }
  }

  /**
   * `repr(t)` for a string: single quotes unless the text holds a single quote
   * and no double quote; backslash, the chosen quote, tab, newline and carriage
   * return are escaped.
   */
  function Repr(t: string): (r: string)
    ensures |r| >= 2 && r[0] == r[|r| - 1] && r[0] in "'\""
    ensures r[0] == '"' <==> ('\'' in t && '"' !in t)
  {
    var q := if '\'' in t && '"' !in t then '"' else '\'';
    [q] + Escape(t, q) + [q]
  }

  function Escape(t: string, q: char): string
  {
    if t == [] then []
    else
      var c := t[0];
      (if c == '\\' || c == q then ['\\', c]
       else if c == '\t' then "\\t"
       else if c == '\n' then "\\n"
       else if c == '\r' then "\\r"
       else [c])
      + Escape(t[1..], q)
  }

  /** Text made only of characters `Escape` copies unchanged is its own escape. */
  lemma {:induction false} EscapePlain(t: string, q: char)
    requires forall i :: 0 <= i < |t| ==> IsDigit(t[i])
    requires !IsDigit(q)
    ensures Escape(t, q) == t
  {
    if t != [] {
      EscapePlain(t[1..], q);
      assert [t[0]] + t[1..] == t;
    }
  }

  predicate IsDigit(c: char) {
    '0' <= c <= '9'
  }

  predicate AllDigits(s: string) {
    forall i :: 0 <= i < |s| ==> IsDigit(s[i])
  }

  /** The digit text `int()` accepts after the sign: digits, with single underscores between digits. */
  predicate DigitText(s: string) {
    && s != []
    && IsDigit(s[0])
    && IsDigit(s[|s| - 1])
    && forall i :: 0 <= i < |s| ==> IsDigit(s[i]) || (s[i] == '_' && i + 1 < |s| && IsDigit(s[i + 1]))
  }

  /** The value of a digit text, read left to right, underscores ignored. */
  function DigitsValue(s: string): nat
  {
    if s == [] then 0
    else
      var last := s[|s| - 1];
      if IsDigit(last) then DigitsValue(s[..|s| - 1]) * 10 + (last - '0') as nat
      else DigitsValue(s[..|s| - 1])
  }

  /** `int(s)` for a Python string: surrounding whitespace, an optional sign, then digit text. */
  function ParseInt(s: string): (r: Option<int>)
  {
    var t := Strip(s);
    if t != [] && (t[0] == '+' || t[0] == '-') then
      var body := t[1..];
      if DigitText(body) then
        var v: int := DigitsValue(body);
        Some(if t[0] == '-' then -v else v)
      else None
    else if DigitText(t) then Some(DigitsValue(t))
    else None
  }

  /** `int()` accepts plain digits, with any surrounding whitespace, as their decimal value. */
  lemma ParseDigits(s: string)
    requires Strip(s) != [] && AllDigits(Strip(s))
    ensures ParseInt(s) == Some(DigitsValue(Strip(s)))
  {
  }

  /** `int()` rejects text that is empty once stripped. */
  lemma ParseBlank(s: string)
    requires Strip(s) == []
    ensures ParseInt(s) == None
  {
  }

  /** Canonical decimal text of a natural number, most significant digit first. */
  function Decimal(n: nat): (s: string)
    ensures s != [] && AllDigits(s)
    decreases n
  {
    if n < 10 then [('0' as int + n) as char]
    else Decimal(n / 10) + [('0' as int + n % 10) as char]
  }

  lemma {:induction false} DecimalValue(n: nat)
    ensures DigitsValue(Decimal(n)) == n
  {
    if n >= 10 {
      DecimalValue(n / 10);
      var s := Decimal(n);
      assert s[..|s| - 1] == Decimal(n / 10);
    }
  }

  /** `int()` reads back the canonical decimal text of every natural number. */
  lemma ParseDecimal(n: nat)
    ensures ParseInt(Decimal(n)) == Some(n)
  {
    var s := Decimal(n);
    TrimFixed(s, Whitespace);
    DecimalValue(n);
  }
}
