/** A reader of JSON texts (RFC 8259), and what it makes of a canonical text. */
module JsonReader {
  import opened Wrappers
  import opened Texts
  import opened Sorting
  import opened JsonText
  import opened CanonicalJson
  import opened CanonicalTheorems

  // ----- The reader

  /** What was read, and the text after it. */
  datatype Read<T> = Read(value: T, rest: Text)

  predicate Begins(x: Text, literal: string) {
    |literal| <= |x| && forall i :: 0 <= i < |literal| ==> x[i] as int == literal[i] as int
  }

  function HexValue(u: CodeUnit): Option<nat> {
    if '0' as int <= u <= '9' as int then Some(u - '0' as int)
    else if 'a' as int <= u <= 'f' as int then Some(u - 'a' as int + 10)
    else if 'A' as int <= u <= 'F' as int then Some(u - 'A' as int + 10)
    else None
  }

  /** The code unit that four hexadecimal digits name. */
  function ReadHex4(x: Text): Option<CodeUnit> {
    if |x| < 4 || HexValue(x[0]).None? || HexValue(x[1]).None? || HexValue(x[2]).None? || HexValue(x[3]).None? then None
    else
      var unit := 4096 * HexValue(x[0]).value + 256 * HexValue(x[1]).value + 16 * HexValue(x[2]).value + HexValue(x[3]).value;
      if unit < 0x1_0000 then Some(unit) else None
  }

  /** The code unit that a backslash and this letter stand for (section 7 of RFC 8259). */
  function Unescaped(u: CodeUnit): Option<CodeUnit> {
    if u == '"' as int || u == '\\' as int || u == '/' as int then Some(u)
    else if u == 'b' as int then Some(8)
    else if u == 'f' as int then Some(12)
    else if u == 'n' as int then Some(10)
    else if u == 'r' as int then Some(13)
    else if u == 't' as int then Some(9)
    else None
  }

  /** The characters of a string up to its closing quote. */
  function ReadCharacters(x: Text): (read: Option<Read<Text>>)
    ensures read.Some? ==> |read.value.rest| < |x|
    decreases |x|
  {
    if x == [] || x[0] < 0x20 then None
    else if x[0] == '"' as int then Some(Read([], x[1..]))
    else if x[0] != '\\' as int then Then(x[0], ReadCharacters(x[1..]))
    else if |x| >= 6 && x[1] == 'u' as int then
      var unit := ReadHex4(x[2..6]);
      if unit.None? then None else Then(unit.value, ReadCharacters(x[6..]))
    else if |x| >= 2 && Unescaped(x[1]).Some? then Then(Unescaped(x[1]).value, ReadCharacters(x[2..]))
    else None
  }

  function Then(unit: CodeUnit, read: Option<Read<Text>>): (r: Option<Read<Text>>)
    ensures r.Some? <==> read.Some?
    ensures r.Some? ==> r.value == Read([unit] + read.value.value, read.value.rest)
  {
    if read.None? then None else Some(Read([unit] + read.value.value, read.value.rest))
  }

  function ReadDigits(x: Text): Option<Read<int>> {
    var n := DigitCount(x);
    if n == 0 then None else Some(Read(Parsed(x[..n]), x[n..]))
  }

  function ReadValue(x: Text): (read: Option<Read<Value>>)
    ensures read.Some? ==> |read.value.rest| < |x|
    decreases |x|, 0
  {
    if x == [] then None
    else if Begins(x, "null") then Some(Read(Null, x[4..]))
    else if Begins(x, "true") then Some(Read(Bool(true), x[4..]))
    else if Begins(x, "false") then Some(Read(Bool(false), x[5..]))
    else if Begins(x, "\"") then
      var text := ReadCharacters(x[1..]);
      if text.None? then None else Some(Read(Str(text.value.value), text.value.rest))
    else if Begins(x, "[]") then Some(Read(Arr([]), x[2..]))
    else if Begins(x, "[") then
      var items := ReadItems(x[1..]);
      if items.None? then None else Some(Read(Arr(items.value.value), items.value.rest))
    else if Begins(x, "{}") then Some(Read(Obj(true, []), x[2..]))
    else if Begins(x, "{") then
      var fields := ReadFields(x[1..]);
      if fields.None? then None else Some(Read(Obj(true, fields.value.value), fields.value.rest))
    else if Begins(x, "-") then
      var digits := ReadDigits(x[1..]);
      if digits.None? then None else Some(Read(Integer(-digits.value.value), digits.value.rest))
    else
      var digits := ReadDigits(x);
      if digits.None? then None else Some(Read(Integer(digits.value.value), digits.value.rest))
  }

  /** One or more values with commas between them, up to a closing bracket. */
  function ReadItems(x: Text): (read: Option<Read<seq<Value>>>)
    ensures read.Some? ==> |read.value.rest| < |x|
    decreases |x|, 1
  {
    var first := ReadValue(x);
    if first.None? then None
    else if Begins(first.value.rest, "]") then Some(Read([first.value.value], first.value.rest[1..]))
    else if Begins(first.value.rest, ",") then
      var others := ReadItems(first.value.rest[1..]);
      if others.None? then None else Some(Read([first.value.value] + others.value.value, others.value.rest))
    else None
  }

  /** One or more members with commas between them, up to a closing brace. */
  function ReadFields(x: Text): (read: Option<Read<seq<Field>>>)
    ensures read.Some? ==> |read.value.rest| < |x|
    decreases |x|, 1
  {
    if !Begins(x, "\"") then None
    else
      var key := ReadCharacters(x[1..]);
      if key.None? || !Begins(key.value.rest, ":") then None
      else
        var value := ReadValue(key.value.rest[1..]);
        if value.None? then None
        else
          var field := Field(key.value.value, value.value.value);
          if Begins(value.value.rest, "}") then Some(Read([field], value.value.rest[1..]))
          else if Begins(value.value.rest, ",") then
            var others := ReadFields(value.value.rest[1..]);
            if others.None? then None else Some(Read([field] + others.value.value, others.value.rest))
          else None
  }

  // ----- Strings read back

  lemma HexReads(u: CodeUnit)
    ensures ReadHex4(Hex4(u)) == Some(u)
  {
    var q1 := u / 16;
    var q2 := q1 / 16;
    DigitReads(q2 / 16);
    DigitReads(q2 % 16);
    DigitReads(q1 % 16);
    DigitReads(u % 16);
  }

  lemma DigitReads(d: nat)
    requires d < 16
    ensures HexValue(HexDigit(d)) == Some(d)
  {
  }

  lemma PairReads(u: CodeUnit, v: CodeUnit, s: Text)
    requires IsHighSurrogate(u) && IsLowSurrogate(v)
    ensures ReadCharacters([u, v] + s) == Together([u, v], ReadCharacters(s))
  {
    var second := [v] + s;
    assert ([u, v] + s)[1..] == second && second[1..] == s;
    assert ReadCharacters(second) == Then(v, ReadCharacters(s));
    if ReadCharacters(s).Some? {
      assert [u] + ([v] + ReadCharacters(s).value.value) == [u, v] + ReadCharacters(s).value.value;
    }
  }

  lemma ShortEscapeReads(u: CodeUnit, s: Text)
    requires ShortEscape(u) != 0
    ensures ReadCharacters([BACKSLASH, ShortEscape(u)] + s) == Together([u], ReadCharacters(s))
  {
    var all := [BACKSLASH, ShortEscape(u)] + s;
    assert all[0] == BACKSLASH && all[1] == ShortEscape(u) && all[2..] == s;
    assert Unescaped(ShortEscape(u)) == Some(u) && ShortEscape(u) != 'u' as int;
  }

  lemma LongEscapeReads(u: CodeUnit, s: Text)
    ensures ReadCharacters([BACKSLASH, LETTER_U] + Hex4(u) + s) == Together([u], ReadCharacters(s))
  {
    var all := [BACKSLASH, LETTER_U] + Hex4(u) + s;
    HexReads(u);
    hide Hex4;
    assert all[0] == BACKSLASH && all[1] == LETTER_U && all[2..6] == Hex4(u) && all[6..] == s;
  }

  /** One chunk of a written string reads back as the code units it stands for. */
  lemma ChunkReads(x: Text, s: Text)
    requires x != []
    ensures ReadCharacters(Chunk(x) + s) == Together(x[..ChunkLength(x)], ReadCharacters(s))
  {
    assert x[..1] == [x[0]];
    if StartsWithPair(x) {
      PairReads(x[0], x[1], s);
      assert x[..2] == [x[0], x[1]];
    } else if ShortEscape(x[0]) != 0 {
      ShortEscapeReads(x[0], s);
    } else if x[0] < 0x20 || IsSurrogate(x[0]) {
      LongEscapeReads(x[0], s);
    } else {
      assert ([x[0]] + s)[1..] == s;
    }
  }

  function Together(units: Text, read: Option<Read<Text>>): Option<Read<Text>> {
    if read.None? then None else Some(Read(units + read.value.value, read.value.rest))
  }

  lemma {:induction false} EscapedReads(x: Text, s: Text)
    ensures ReadCharacters(Escaped(x) + [QUOTE] + s) == Some(Read(x, s))
    decreases |x|
  {
    FirstOfEscaped(x, s);
    if x == [] {
      assert Escaped(x) + [QUOTE] + s == [QUOTE] + s && ([QUOTE] + s)[1..] == s;
    } else {
      var rest := x[ChunkLength(x)..];
      hide Escaped, Chunk, ChunkLength, ReadCharacters;
      ChunkReads(x, Escaped(rest) + [QUOTE] + s);
      EscapedReads(rest, s);
      assert x == x[..ChunkLength(x)] + rest;
    }
  }

  /** A quoted string reads back as its text. */
  lemma QuotedReads(x: Text, s: Text)
    ensures Begins(Quoted(x) + s, "\"") && ReadCharacters((Quoted(x) + s)[1..]) == Some(Read(x, s))
  {
    hide Escaped;
    assert (Quoted(x) + s)[1..] == Escaped(x) + [QUOTE] + s;
    EscapedReads(x, s);
  }

  // ----- Integers read back

  lemma DigitsRead(n: nat, s: Text)
    requires !StartsWithDigit(s)
    ensures ReadDigits(Digits(n) + s) == Some(Read(n as int, s))
  {
    var digits := Digits(n);
    DigitsParse(n);
    LeadingDigits(digits, s);
    hide Digits, DigitCount, Parsed;
    assert (digits + s)[..|digits|] == digits && (digits + s)[|digits|..] == s;
  }

  /** The first code unit decides which kind of value is read. */
  lemma FirstDecides(x: Text)
    requires x != []
    ensures Begins(x, "null") ==> x[0] == 0x6E
    ensures Begins(x, "true") ==> x[0] == 0x74
    ensures Begins(x, "false") ==> x[0] == 0x66
    ensures Begins(x, "\"") <==> x[0] == QUOTE
    ensures Begins(x, "[]") <==> x[0] == OPEN_ARRAY && |x| > 1 && x[1] == CLOSE_ARRAY
    ensures Begins(x, "[") <==> x[0] == OPEN_ARRAY
    ensures Begins(x, "{}") <==> x[0] == OPEN_OBJECT && |x| > 1 && x[1] == CLOSE_OBJECT
    ensures Begins(x, "{") <==> x[0] == OPEN_OBJECT
    ensures Begins(x, "-") <==> x[0] == MINUS
  {
  }

  lemma DecimalReads(i: int, s: Text)
    requires !StartsWithDigit(s)
    ensures ReadValue(Decimal(i) + s) == Some(Read(Integer(i), s))
  {
    hide Digits, ReadDigits, Begins, ReadItems, ReadFields, ReadCharacters;
    var digits := Digits(if i < 0 then -i else i);
    var x := Decimal(i) + s;
    assert x != [] && x == (if i < 0 then [MINUS] + digits else digits) + s;
    FirstDecides(x);
    DigitsRead(if i < 0 then -i else i, s);
    DigitsStartWithDigit(if i < 0 then -i else i);
    if i < 0 {
      DropMinus(digits, s);
      assert x[0] == MINUS;
    } else {
      assert x[0] == digits[0];
    }
  }

  // ----- Every canonical text reads back

  /** What a canonical text is read back as: the same value, up to the order of object keys. */
  ghost predicate ReadsAs(x: Text, v: Value, s: Text) {
    && ReadValue(x).Some? && ReadValue(x).value.rest == s && Same(v, ReadValue(x).value.value)
  }

  lemma LiteralReads(literal: Text, name: string, s: Text)
    requires |literal| == |name| && forall i :: 0 <= i < |name| ==> literal[i] as int == name[i] as int
    ensures Begins(literal + s, name) && (literal + s)[|literal|..] == s
  {
  }

  lemma ScalarReads(v: Value, s: Text)
    requires v.Null? || v.Bool? || v.Str?
    requires Canonical(v).Success?
    ensures ReadsAs(Canonical(v).value + s, v, s)
  {
    hide Begins, ReadItems, ReadFields, ReadCharacters, ReadDigits, Quoted;
    var x := Canonical(v).value + s;
    FirstDecides(x);
    match v
    case Null => LiteralReads(NULL_TEXT, "null", s);
    case Bool(b) =>
      assert x[0] == if b then 0x74 else 0x66;
      LiteralReads(TRUE_TEXT, "true", s);
      LiteralReads(FALSE_TEXT, "false", s);
    case Str(text) => QuotedReads(text, s);
  }

  lemma AfterFirst(first: CodeUnit, text: Text, last: CodeUnit, s: Text)
    ensures ([first] + text + [last] + s)[0] == first && ([first] + text + [last] + s)[1..] == text + ([last] + s)
    ensures ([first] + [last] + s)[2..] == s
  {
  }

  lemma MarkReads(mark: CodeUnit, s: Text)
    ensures ([mark] + s)[0] == mark && ([mark] + s)[1..] == s
    ensures Begins([mark] + s, "]") <==> mark == CLOSE_ARRAY
    ensures Begins([mark] + s, "}") <==> mark == CLOSE_OBJECT
    ensures Begins([mark] + s, ",") <==> mark == COMMA
    ensures Begins([mark] + s, ":") <==> mark == COLON
  {
    assert ([mark] + s)[0] == mark;
  }

  lemma {:induction false} ItemsRead(items: seq<Value>, s: Text)
    requires items != [] && Items(items).Success? && forall i :: 0 <= i < |items| ==> WellFormed(items[i])
    ensures var read := ReadItems(Items(items).value + ([CLOSE_ARRAY] + s));
            && read.Some? && read.value.rest == s && |read.value.value| == |items|
            && forall i :: 0 <= i < |items| ==> Same(items[i], read.value.value[i])
    decreases SizeOfItems(items), 1, 0
  {
    hide Canonical, Same, WellFormed, Begins, ReadValue;
    ItemsUnfold(items, CLOSE_ARRAY, s);
    var others := if |items| == 1 then [] else Items(items[1..]).value + ([CLOSE_ARRAY] + s);
    var after := if |items| == 1 then [CLOSE_ARRAY] + s else [COMMA] + others;
    hide Items;
    ValueReads(items[0], after);
    MarkReads(CLOSE_ARRAY, s);
    MarkReads(COMMA, others);
    if |items| > 1 {
      ItemsRead(items[1..], s);
    }
  }

  lemma {:induction false} FieldsRead(f: seq<Field>, keys: seq<Text>, s: Text)
    requires (forall i :: 0 <= i < |f| ==> WellFormed(f[i].value)) && (forall key :: key in keys ==> HasKey(f, key))
    requires keys != [] && Members(f, keys).Success?
    ensures var read := ReadFields(Members(f, keys).value + ([CLOSE_OBJECT] + s));
            && read.Some? && read.value.rest == s && |read.value.value| == |keys|
            && forall i :: 0 <= i < |keys| ==>
                 read.value.value[i].key == keys[i] && HasKey(f, keys[i]) && Same(Lookup(f, keys[i]), read.value.value[i].value)
    decreases SizeOfFields(f), 1, |keys|
  {
    hide Canonical, Same, WellFormed, Begins, ReadValue, ReadCharacters, Lookup, HasKey, Quoted;
    MembersUnfold(f, keys, s);
    assert keys[0] in keys && forall key :: key in keys[1..] ==> key in keys;
    var others := if |keys| == 1 then [] else Members(f, keys[1..]).value + ([CLOSE_OBJECT] + s);
    var after := if |keys| == 1 then [CLOSE_OBJECT] + s else [COMMA] + others;
    var value := Lookup(f, keys[0]);
    hide Members;
    QuotedReads(keys[0], [COLON] + (Canonical(value).value + after));
    MarkReads(COLON, Canonical(value).value + after);
    FieldReads(f, keys[0], after);
    MarkReads(CLOSE_OBJECT, s);
    MarkReads(COMMA, others);
    if |keys| > 1 {
      FieldsRead(f, keys[1..], s);
    }
  }

  lemma FieldReads(f: seq<Field>, key: Text, after: Text)
    requires (forall i :: 0 <= i < |f| ==> WellFormed(f[i].value)) && HasKey(f, key) && Canonical(Lookup(f, key)).Success?
    requires !StartsWithDigit(after)
    ensures ReadsAs(Canonical(Lookup(f, key)).value + after, Lookup(f, key), after)
    decreases SizeOfFields(f), 1, 0
  {
    var value := Lookup(f, key);
    var i :| 0 <= i < |f| && f[i] == Field(key, value);
    ValueReads(value, after);
  }

  /** Keys in the order they are read, one value each: the same object. */
  lemma ReadFieldsAreSame(plain: bool, f: seq<Field>, g: seq<Field>)
    requires DistinctKeys(f) && plain && |g| == |SortedKeys(f)|
    requires forall i :: 0 <= i < |g| ==>
               g[i].key == SortedKeys(f)[i] && HasKey(f, g[i].key) && Same(Lookup(f, g[i].key), g[i].value)
    ensures Same(Obj(plain, f), Obj(true, g))
  {
    hide Lookup, SortedKeys, CompareText, HasKey;
    KeysAreInOrder(f);
    ReadKeysDiffer(f, g);
    forall i: nat | i < |f| ensures HasKey(g, f[i].key) && Same(f[i].value, Lookup(g, f[i].key)) {
      ReadFieldIsSame(f, g, i);
    }
  }

  lemma ReadKeysDiffer(f: seq<Field>, g: seq<Field>)
    requires DistinctKeys(f) && |g| == |SortedKeys(f)| && forall i :: 0 <= i < |g| ==> g[i].key == SortedKeys(f)[i]
    ensures DistinctKeys(g)
  {
    hide SortedKeys, CompareText;
    KeysAreInOrder(f);
    forall i, j | 0 <= i < j < |g| ensures g[i].key != g[j].key {
      CompareIsAntisymmetric(SortedKeys(f)[i], SortedKeys(f)[j]);
    }
  }

  lemma ReadFieldIsSame(f: seq<Field>, g: seq<Field>, i: nat)
    requires DistinctKeys(f) && DistinctKeys(g) && |g| == |SortedKeys(f)| && i < |f|
    requires forall j :: 0 <= j < |g| ==>
               g[j].key == SortedKeys(f)[j] && HasKey(f, g[j].key) && Same(Lookup(f, g[j].key), g[j].value)
    ensures HasKey(g, f[i].key) && Same(f[i].value, Lookup(g, f[i].key))
  {
    hide Lookup, SortedKeys, Same, DistinctKeys;
    LookupOfField(f, i);
    SortedKeysAreKeys(f);
    hide HasKey;
    assert f[i].key in SortedKeys(f);
    var j :| 0 <= j < |g| && SortedKeys(f)[j] == f[i].key;
    LookupOfField(g, j);
  }

  lemma ArrayReads(items: seq<Value>, s: Text)
    requires WellFormed(Arr(items)) && Canonical(Arr(items)).Success?
    ensures ReadsAs(Canonical(Arr(items)).value + s, Arr(items), s)
    decreases SizeOfItems(items), 2, 0
  {
    ArrayText(items);
    var text := Items(items).value;
    var x := [OPEN_ARRAY] + text + [CLOSE_ARRAY] + s;
    assert Canonical(Arr(items)).value + s == x;
    AfterFirst(OPEN_ARRAY, text, CLOSE_ARRAY, s);
    FirstDecides(x);
    ItemsInitial(items, s);
    assert x[1] == x[1..][0];
    hide Canonical, Begins, ReadFields, ReadCharacters, ReadDigits;
    if items == [] {
      assert text == [] && x == [OPEN_ARRAY] + [CLOSE_ARRAY] + s;
    } else {
      ItemsRead(items, s);
      hide Items, ReadItems;
    }
  }

  lemma ObjectReads(plain: bool, fields: seq<Field>, s: Text)
    requires WellFormed(Obj(plain, fields)) && Canonical(Obj(plain, fields)).Success?
    ensures ReadsAs(Canonical(Obj(plain, fields)).value + s, Obj(plain, fields), s)
    decreases SizeOfFields(fields), 2, 0
  {
    CanonicalObject(plain, fields);
    var keys := SortedKeys(fields);
    var text := Members(fields, keys).value;
    var x := [OPEN_OBJECT] + text + [CLOSE_OBJECT] + s;
    assert Canonical(Obj(plain, fields)).value + s == x;
    AfterFirst(OPEN_OBJECT, text, CLOSE_OBJECT, s);
    FirstDecides(x);
    MembersInitial(fields, keys, s);
    assert x[1] == x[1..][0];
    KeysAreInOrder(fields);
    hide Canonical, Begins, ReadItems, ReadCharacters, ReadDigits, SortedKeys, Lookup, CompareText;
    if keys == [] {
      assert text == [] && x == [OPEN_OBJECT] + [CLOSE_OBJECT] + s;
    } else {
      FieldsRead(fields, keys, s);
      hide Members, ReadFields;
      ReadFieldsAreSame(plain, fields, ReadFields(text + ([CLOSE_OBJECT] + s)).value.value);
    }
  }

  /**
   * Whatever admitted value is written, and whatever follows that is no digit, a reader of JSON reads the same value back,
   * up to the order of object keys, and stops where its text stops.
   */
  lemma {:induction false} ValueReads(v: Value, s: Text)
    requires WellFormed(v) && Canonical(v).Success? && !StartsWithDigit(s)
    ensures ReadsAs(Canonical(v).value + s, v, s)
    decreases Size(v), 0, 0
  {
    match v
    case Integer(i) => DecimalReads(i, s);
    case Arr(items) => ArrayReads(items, s);
    case Obj(plain, fields) => ObjectReads(plain, fields, s);
    case _ => ScalarReads(v, s);
  }

  /** A canonical text is a JSON text, and reads back as its record, up to the order of keys. */
  lemma CanonicalTextsReadBack(v: Value)
    requires WellFormed(v) && Admitted(v)
    ensures Canonical(v).Success? && ReadsAs(Canonical(v).value, v, [])
  {
    CanonicalIffAdmitted(v);
    hide Canonical, ReadValue, Same, Admitted, WellFormed;
    ValueReads(v, []);
    assert Canonical(v).value + [] == Canonical(v).value;
  }

  // ----- How strings are written

  /** The two-character escapes of `JSON.stringify`. */
  function ShortForm(u: CodeUnit): Option<Text> {
    if u == 8 then Some(Ascii("\\b"))
    else if u == 9 then Some(Ascii("\\t"))
    else if u == 10 then Some(Ascii("\\n"))
    else if u == 12 then Some(Ascii("\\f"))
    else if u == 13 then Some(Ascii("\\r"))
    else if u == '"' as int then Some(Ascii("\\\""))
    else if u == '\\' as int then Some(Ascii("\\\\"))
    else None
  }

  predicate IsLowerHex(u: CodeUnit) {
    '0' as int <= u <= '9' as int || 'a' as int <= u <= 'f' as int
  }

  lemma HexIsLowerCase(u: CodeUnit)
    ensures forall i :: 0 <= i < 4 ==> IsLowerHex(Hex4(u)[i])
  {
    var q1 := u / 16;
    var q2 := q1 / 16;
    assert IsLowerHex(HexDigit(q2 / 16)) && IsLowerHex(HexDigit(q2 % 16)) && IsLowerHex(HexDigit(q1 % 16)) && IsLowerHex(HexDigit(u % 16));
  }

  /**
   * Each code unit has one way to be written: a surrogate pair and whatever needs no escape as it is, the seven short
   * escapes short, and control characters and lone surrogates as `u` and four lower-case hexadecimal digits.
   */
  lemma ChunksAreStringified(x: Text)
    requires x != []
    ensures var u := x[0];
            if |x| >= 2 && 0xD800 <= u <= 0xDBFF && 0xDC00 <= x[1] <= 0xDFFF then Chunk(x) == x[..2]
            else if ShortForm(u).Some? then Chunk(x) == ShortForm(u).value
            else if u < 0x20 || 0xD800 <= u <= 0xDFFF then
              && |Chunk(x)| == 6 && Chunk(x)[..2] == Ascii("\\u") && ReadHex4(Chunk(x)[2..]) == Some(u)
              && forall i :: 2 <= i < 6 ==> IsLowerHex(Chunk(x)[i])
            else Chunk(x) == [u]
  {
    var u := x[0];
    if StartsWithPair(x) {
      assert x[..2] == [u, x[1]];
    } else if ShortEscape(u) == 0 && (u < 0x20 || IsSurrogate(u)) {
      HexReads(u);
      HexIsLowerCase(u);
      hide Hex4;
      assert Chunk(x)[2..] == Hex4(u) && Chunk(x)[..2] == [BACKSLASH, LETTER_U];
      assert forall i :: 2 <= i < 6 ==> Chunk(x)[i] == Hex4(u)[i - 2];
    }
  }
}
