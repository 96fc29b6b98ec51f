/** The texts of JSON scalars, and why no two of them can be confused whatever follows. */
module JsonText {
  import opened Texts

  const QUOTE: CodeUnit := 0x22
  const BACKSLASH: CodeUnit := 0x5C
  const COMMA: CodeUnit := 0x2C
  const COLON: CodeUnit := 0x3A
  const MINUS: CodeUnit := 0x2D
  const OPEN_ARRAY: CodeUnit := 0x5B
  const CLOSE_ARRAY: CodeUnit := 0x5D
  const OPEN_OBJECT: CodeUnit := 0x7B
  const CLOSE_OBJECT: CodeUnit := 0x7D
  const LETTER_U: CodeUnit := 0x75

  // ----- Strings

  function HexDigit(d: nat): (u: CodeUnit)
    requires d < 16
  {
    if d < 10 then 0x30 + d else 0x57 + d
  }

  /** Four lower-case hexadecimal digits. */
  function Hex4(u: CodeUnit): (hex: Text)
    ensures |hex| == 4
  {
    var q1 := u / 16;
    var q2 := q1 / 16;
    [HexDigit(q2 / 16), HexDigit(q2 % 16), HexDigit(q1 % 16), HexDigit(u % 16)]
  }

  lemma Hex4IsInjective(u: CodeUnit, v: CodeUnit)
    requires Hex4(u) == Hex4(v)
    ensures u == v
  {
    var a, b := Hex4(u), Hex4(v);
    assert a[0] == b[0] && a[1] == b[1] && a[2] == b[2] && a[3] == b[3];
  }

  /** The letter of a two-character escape, or 0 where there is none. */
  function ShortEscape(u: CodeUnit): CodeUnit {
    if u == 0x22 then 0x22
    else if u == 0x5C then 0x5C
    else if u == 0x08 then 0x62
    else if u == 0x0C then 0x66
    else if u == 0x0A then 0x6E
    else if u == 0x0D then 0x72
    else if u == 0x09 then 0x74
    else 0
  }

  predicate IsSurrogate(u: CodeUnit) {
    IsHighSurrogate(u) || IsLowSurrogate(u)
  }

  predicate StartsWithPair(x: Text) {
    |x| >= 2 && IsHighSurrogate(x[0]) && IsLowSurrogate(x[1])
  }

  /** How many code units of a nonempty text are written together. */
  function ChunkLength(x: Text): (n: nat)
    requires x != []
    ensures 1 <= n <= |x|
  {
    if StartsWithPair(x) then 2 else 1
  }

  /** How they are written: a surrogate pair or an ordinary unit as it is, anything else escaped. */
  function Chunk(x: Text): (text: Text)
    requires x != []
    ensures text != []
  {
    var u := x[0];
    if StartsWithPair(x) then [u, x[1]]
    else if ShortEscape(u) != 0 then [BACKSLASH, ShortEscape(u)]
    else if u < 0x20 || IsSurrogate(u) then [BACKSLASH, LETTER_U] + Hex4(u)
    else [u]
  }

  function Escaped(x: Text): Text {
    if x == [] then [] else Chunk(x) + Escaped(x[ChunkLength(x)..])
  }

  /** `JSON.stringify` of a string. */
  function Quoted(x: Text): (text: Text)
    ensures text != [] && text[0] == QUOTE
  {
    [QUOTE] + Escaped(x) + [QUOTE]
  }

  /** A chunk is not the closing quote, and only the code units it stands for are written so. */
  lemma ChunkDecodes(x: Text, y: Text, s: Text, t: Text)
    requires x != [] && y != [] && Chunk(x) + s == Chunk(y) + t
    ensures x[..ChunkLength(x)] == y[..ChunkLength(y)] && s == t && Chunk(x) == Chunk(y)
  {
    var a, b := Chunk(x), Chunk(y);
    assert (a + s)[0] == a[0] && (b + t)[0] == b[0];
    if a[0] == BACKSLASH {
      assert |a| >= 2 && |b| >= 2;
      assert (a + s)[1] == a[1] && (b + t)[1] == b[1];
      assert |a| == |b|;
    } else {
      assert |a| == |b|;
    }
    assert a == (a + s)[..|a|] && b == (b + t)[..|b|];
    assert s == (a + s)[|a|..] && t == (b + t)[|b|..];
    if |a| == 6 {
      assert a[2..] == Hex4(x[0]) && b[2..] == Hex4(y[0]);
      Hex4IsInjective(x[0], y[0]);
    }
    ChunkIsInjective(x, y);
  }

  lemma ChunkIsInjective(x: Text, y: Text)
    requires x != [] && y != [] && Chunk(x) == Chunk(y)
    ensures x[..ChunkLength(x)] == y[..ChunkLength(y)]
  {
    var a, b := Chunk(x), Chunk(y);
    if |a| == 6 {
      assert a[2..] == Hex4(x[0]) && b[2..] == Hex4(y[0]);
      Hex4IsInjective(x[0], y[0]);
    } else {
      assert a[0] == b[0] && (|a| == 2 ==> a[1] == b[1]);
    }
  }

  lemma ChunkIsNotQuote(x: Text, s: Text)
    requires x != []
    ensures (Chunk(x) + s)[0] != QUOTE
  {
  }

  lemma FirstOfEscaped(x: Text, s: Text)
    ensures (Escaped(x) + [QUOTE] + s)[0] == QUOTE <==> x == []
    ensures x != [] ==>
              Escaped(x) + [QUOTE] + s == Chunk(x) + (Escaped(x[ChunkLength(x)..]) + [QUOTE] + s)
  {
    if x == [] {
      assert Escaped(x) + [QUOTE] + s == [QUOTE] + s;
    } else {
      var rest := Escaped(x[ChunkLength(x)..]) + [QUOTE] + s;
      ChunkIsNotQuote(x, rest);
      assert Escaped(x) + [QUOTE] + s == Chunk(x) + rest;
    }
  }

  lemma {:induction false} EscapedDecodes(x: Text, y: Text, s: Text, t: Text)
    requires Escaped(x) + [QUOTE] + s == Escaped(y) + [QUOTE] + t
    ensures x == y && s == t
    decreases |x|
  {
    FirstOfEscaped(x, s);
    FirstOfEscaped(y, t);
    if x == [] && y == [] {
      assert s == (Escaped(x) + [QUOTE] + s)[1..] && t == (Escaped(y) + [QUOTE] + t)[1..];
    } else if x == [] || y == [] {
      assert false;
    } else {
      var xs, ys := x[ChunkLength(x)..], y[ChunkLength(y)..];
      hide Escaped, Chunk, ChunkLength;
      ChunkDecodes(x, y, Escaped(xs) + [QUOTE] + s, Escaped(ys) + [QUOTE] + t);
      EscapedDecodes(xs, ys, s, t);
      assert x == x[..ChunkLength(x)] + xs && y == y[..ChunkLength(y)] + ys;
    }
  }

  /** A quoted string ends where it ends: what follows cannot change which string was written. */
  lemma QuotedDecodes(x: Text, y: Text, s: Text, t: Text)
    requires Quoted(x) + s == Quoted(y) + t
    ensures x == y && s == t
  {
    assert (Quoted(x) + s)[1..] == Escaped(x) + [QUOTE] + s;
    assert (Quoted(y) + t)[1..] == Escaped(y) + [QUOTE] + t;
    EscapedDecodes(x, y, s, t);
  }

  // ----- Integers

  predicate IsDigit(u: CodeUnit) {
    0x30 <= u <= 0x39
  }

  function Digits(n: nat): (text: Text)
    ensures text != [] && forall i :: 0 <= i < |text| ==> IsDigit(text[i])
  {
    if n < 10 then [0x30 + n] else Digits(n / 10) + [0x30 + n % 10]
  }

  /** `JSON.stringify` of a safe integer. */
  function Decimal(i: int): (text: Text)
    ensures text != [] && (text[0] == MINUS || IsDigit(text[0]))
  {
    if i < 0 then [MINUS] + Digits(-i) else Digits(i)
  }

  function Parsed(text: Text): int {
    if text == [] then 0 else Parsed(text[..|text| - 1]) * 10 + (text[|text| - 1] as int - 0x30)
  }

  lemma {:induction false} DigitsParse(n: nat)
    ensures Parsed(Digits(n)) == n
  {
    if n < 10 {
      assert [0x30 + n][..0] == [];
      assert Parsed([0x30 + n]) == Parsed([]) * 10 + n;
    } else {
      DigitsParse(n / 10);
      assert Digits(n)[..|Digits(n)| - 1] == Digits(n / 10);
    }
  }

  predicate StartsWithDigit(s: Text) {
    s != [] && IsDigit(s[0])
  }

  /** How many digits a text starts with. */
  function DigitCount(x: Text): (n: nat)
    ensures n <= |x|
  {
    if StartsWithDigit(x) then 1 + DigitCount(x[1..]) else 0
  }

  lemma {:induction false} LeadingDigits(digits: Text, s: Text)
    requires (forall i :: 0 <= i < |digits| ==> IsDigit(digits[i])) && !StartsWithDigit(s)
    ensures DigitCount(digits + s) == |digits|
  {
    if digits == [] {
      assert digits + s == s;
    } else {
      assert (digits + s)[1..] == digits[1..] + s;
      LeadingDigits(digits[1..], s);
    }
  }

  lemma DigitsDecode(n: nat, m: nat, s: Text, t: Text)
    requires Digits(n) + s == Digits(m) + t && !StartsWithDigit(s) && !StartsWithDigit(t)
    ensures n == m && s == t
  {
    var a, b := Digits(n), Digits(m);
    hide Digits;
    LeadingDigits(a, s);
    LeadingDigits(b, t);
    assert |a| == |b|;
    assert a == (a + s)[..|a|] && b == (b + t)[..|b|];
    assert s == (a + s)[|a|..] && t == (b + t)[|b|..];
    DigitsParse(n);
    DigitsParse(m);
  }

  /** A decimal that no digit follows ends where it ends. */
  lemma DecimalDecodes(i: int, j: int, s: Text, t: Text)
    requires Decimal(i) + s == Decimal(j) + t && !StartsWithDigit(s) && !StartsWithDigit(t)
    ensures i == j && s == t
  {
    hide Digits;
    assert (Decimal(i) + s)[0] == Decimal(i)[0] && (Decimal(j) + t)[0] == Decimal(j)[0];
    DigitsStartWithDigit(if i < 0 then -i else i);
    DigitsStartWithDigit(if j < 0 then -j else j);
    assert i < 0 <==> j < 0;
    if i < 0 {
      DropMinus(Digits(-i), s);
      DropMinus(Digits(-j), t);
      DigitsDecode(-i, -j, s, t);
    } else {
      DigitsDecode(i, j, s, t);
    }
  }

  lemma DropMinus(digits: Text, s: Text)
    ensures ([MINUS] + digits + s)[1..] == digits + s
  {
  }

  lemma DigitsStartWithDigit(n: nat)
    ensures IsDigit(Digits(n)[0])
  {
  }
}
