/** The canonical text of a change record: independent of key order, and different for different records. */
module CanonicalJson {
  import opened Wrappers
  import opened Texts
  import opened Sorting
  import opened JsonText

  const MAX_SAFE_INTEGER := 0x1F_FFFF_FFFF_FFFF

  datatype Field = Field(key: Text, value: Value)

  /** A JavaScript value. An object keeps its own enumerable fields in insertion order. */
  datatype Value =
    | Null
    | Bool(b: bool)
    | Integer(i: int)
    | Fraction
    | Str(text: Text)
    | Arr(items: seq<Value>)
    | Obj(plain: bool, fields: seq<Field>)
    | Undefined
    | Opaque

  datatype CanonicalError = UnsafeNumber | NotJson | NotPlain | UndefinedField

  // ----- Fields

  function Keys(fields: seq<Field>): (keys: seq<Text>)
    ensures |keys| == |fields| && forall i :: 0 <= i < |fields| ==> keys[i] == fields[i].key
  {
    seq(|fields|, i requires 0 <= i < |fields| => fields[i].key)
  }

  predicate HasKey(fields: seq<Field>, key: Text) {
    exists i :: 0 <= i < |fields| && fields[i].key == key
  }

  function Size(v: Value): (n: nat)
    ensures n >= 1
  {
    match v
    case Arr(items) => 1 + SizeOfItems(items)
    case Obj(_, fields) => 1 + SizeOfFields(fields)
    case _ => 1
  }

  function SizeOfItems(items: seq<Value>): nat {
    if items == [] then 0 else Size(items[0]) + SizeOfItems(items[1..])
  }

  function SizeOfFields(fields: seq<Field>): nat {
    if fields == [] then 0 else Size(fields[0].value) + SizeOfFields(fields[1..])
  }

  lemma HasKeyLater(fields: seq<Field>, key: Text)
    requires HasKey(fields, key) && fields[0].key != key
    ensures HasKey(fields[1..], key)
  {
    var i :| 0 <= i < |fields| && fields[i].key == key;
    assert fields[1..][i - 1].key == key;
  }

  /** The value under a key. */
  function Lookup(fields: seq<Field>, key: Text): (v: Value)
    requires HasKey(fields, key)
    ensures Size(v) <= SizeOfFields(fields)
    ensures Field(key, v) in fields
  {
    if fields[0].key == key then fields[0].value
    else
      HasKeyLater(fields, key);
      Lookup(fields[1..], key)
  }

  /** Object.keys of the object, sorted. */
  function SortedKeys(fields: seq<Field>): seq<Text> {
    SortBy(CompareText, Keys(fields))
  }

  ghost predicate DistinctKeys(fields: seq<Field>) {
    forall i, j :: 0 <= i < j < |fields| ==> fields[i].key != fields[j].key
  }

  /** Every object has one value per key, as JavaScript objects do. */
  ghost predicate WellFormed(v: Value) {
    match v
    case Arr(items) => forall i :: 0 <= i < |items| ==> WellFormed(items[i])
    case Obj(_, fields) => DistinctKeys(fields) && forall i :: 0 <= i < |fields| ==> WellFormed(fields[i].value)
    case _ => true
  }

  /** The values the canonical form is defined on. */
  predicate Admitted(v: Value) {
    match v
    case Null => true
    case Bool(_) => true
    case Str(_) => true
    case Integer(i) => -MAX_SAFE_INTEGER <= i <= MAX_SAFE_INTEGER
    case Arr(items) => forall i :: 0 <= i < |items| ==> Admitted(items[i])
    case Obj(plain, fields) => plain && forall i :: 0 <= i < |fields| ==> Admitted(fields[i].value)
    case _ => false
  }

  /** Equal up to the order of object keys. */
  predicate Same(v: Value, w: Value) {
    match v
    case Arr(items) =>
      w.Arr? && |w.items| == |items| && forall i :: 0 <= i < |items| ==> Same(items[i], w.items[i])
    case Obj(plain, fields) =>
      && w.Obj? && w.plain == plain
      && (forall j :: 0 <= j < |w.fields| ==> HasKey(fields, w.fields[j].key))
      && (forall i :: 0 <= i < |fields| ==>
            HasKey(w.fields, fields[i].key) && Same(fields[i].value, Lookup(w.fields, fields[i].key)))
    case _ => w == v
  }

  // ----- `canonicalChangeJson`

  const NULL_TEXT: Text := [0x6E, 0x75, 0x6C, 0x6C]
  const TRUE_TEXT: Text := [0x74, 0x72, 0x75, 0x65]
  const FALSE_TEXT: Text := [0x66, 0x61, 0x6C, 0x73, 0x65]

  lemma {:induction false} SortedKeysAreKeys(fields: seq<Field>)
    ensures forall key :: key in SortedKeys(fields) <==> HasKey(fields, key)
  {
    SortPermutes(CompareText, Keys(fields));
    forall key ensures key in SortedKeys(fields) <==> HasKey(fields, key) {
      MembersOfPermutation(SortedKeys(fields), Keys(fields), key);
      if HasKey(fields, key) {
        var i :| 0 <= i < |fields| && fields[i].key == key;
        assert Keys(fields)[i] == key;
      }
    }
  }

  function Canonical(v: Value): Result<Text, CanonicalError>
    decreases Size(v), 0, 0
  {
    match v
    case Null => Success(NULL_TEXT)
    case Bool(b) => Success(if b then TRUE_TEXT else FALSE_TEXT)
    case Str(text) => Success(Quoted(text))
    case Integer(i) =>
      :- Need(-MAX_SAFE_INTEGER <= i <= MAX_SAFE_INTEGER, UnsafeNumber);
      Success(Decimal(i))
    case Fraction => Failure(UnsafeNumber)
    case Arr(items) =>
      var text :- Items(items);
      Success([OPEN_ARRAY] + text + [CLOSE_ARRAY])
    case Obj(plain, fields) =>
      :- Need(plain, NotPlain);
      var keys := SortedKeys(fields);
      SortedKeysAreKeys(fields);
      :- Need(forall key :: key in keys ==> !Lookup(fields, key).Undefined?, UndefinedField);
      var text :- Members(fields, keys);
      Success([OPEN_OBJECT] + text + [CLOSE_OBJECT])
    case Undefined => Failure(NotJson)
    case Opaque => Failure(NotJson)
  }

  /** The items of an array, separated by commas. */
  function Items(items: seq<Value>): Result<Text, CanonicalError>
    decreases SizeOfItems(items), 1, 0
  {
    if items == [] then Success([])
    else
      var first :- Canonical(items[0]);
      if |items| == 1 then Success(first)
      else
        var rest :- Items(items[1..]);
        Success(first + [COMMA] + rest)
  }

  /** The members of an object under the given keys, separated by commas. */
  function Members(fields: seq<Field>, keys: seq<Text>): Result<Text, CanonicalError>
    requires forall key :: key in keys ==> HasKey(fields, key)
    decreases SizeOfFields(fields), 1, |keys|
  {
    if keys == [] then Success([])
    else
      var value :- Canonical(Lookup(fields, keys[0]));
      var first := Quoted(keys[0]) + [COLON] + value;
      if |keys| == 1 then Success(first)
      else
        var rest :- Members(fields, keys[1..]);
        Success(first + [COMMA] + rest)
  }

  // ----- Keys are in code unit order

  /** The keys of an object are written once each, in increasing order of UTF-16 code units (section 3.2.3 of RFC 8785). */
  lemma KeysAreInOrder(fields: seq<Field>)
    requires DistinctKeys(fields)
    ensures forall key :: key in SortedKeys(fields) <==> HasKey(fields, key)
    ensures |SortedKeys(fields)| == |fields|
    ensures forall i, j :: 0 <= i < j < |SortedKeys(fields)| ==> CompareText(SortedKeys(fields)[i], SortedKeys(fields)[j]) < 0
  {
    hide SortBy, CompareText;
    TextsAreOrdered();
    SortedKeysAreKeys(fields);
    SortPermutes(CompareText, Keys(fields));
    SortSorts(CompareText, Keys(fields));
    var keys := SortedKeys(fields);
    forall i, j | 0 <= i < j < |keys| ensures CompareText(keys[i], keys[j]) < 0 {
      CompareIsAntisymmetric(keys[i], keys[j]);
      if keys[i] == keys[j] {
        OccursTwice(keys, i, j);
        KeysOccurOnce(fields, keys[i]);
      }
    }
  }

  lemma KeysOccurOnce(fields: seq<Field>, key: Text)
    requires DistinctKeys(fields)
    ensures multiset(Keys(fields))[key] <= 1
  {
    if key in Keys(fields) {
      var i :| 0 <= i < |fields| && Keys(fields)[i] == key;
      OccursOnce(Keys(fields), i);
    }
  }

  // ----- Which values have a canonical form

  lemma {:induction false} LookupOfField(fields: seq<Field>, i: nat)
    requires DistinctKeys(fields) && i < |fields|
    ensures HasKey(fields, fields[i].key) && Lookup(fields, fields[i].key) == fields[i].value
  {
    var v := Lookup(fields, fields[i].key);
    var j :| 0 <= j < |fields| && fields[j] == Field(fields[i].key, v);
  }

  lemma {:induction false} ItemsSucceed(items: seq<Value>)
    ensures Items(items).Success? <==> forall i :: 0 <= i < |items| ==> Canonical(items[i]).Success?
  {
    hide Canonical;
    if items != [] {
      ItemsSucceed(items[1..]);
      if |items| == 1 {
        assert Items(items).Success? == Canonical(items[0]).Success?;
      } else {
        assert forall i :: 1 <= i < |items| ==> items[i] == items[1..][i - 1];
      }
    }
  }

  lemma {:induction false} MembersSucceed(fields: seq<Field>, keys: seq<Text>)
    requires forall key :: key in keys ==> HasKey(fields, key)
    ensures Members(fields, keys).Success? <==> forall key :: key in keys ==> Canonical(Lookup(fields, key)).Success?
    decreases |keys|
  {
    hide Canonical, Lookup;
    if keys != [] {
      MembersSucceed(fields, keys[1..]);
      assert keys[0] in keys && forall key :: key in keys[1..] ==> key in keys;
      if Members(fields, keys).Success? {
        forall key | key in keys ensures Canonical(Lookup(fields, key)).Success? {
          if key != keys[0] {
            assert key in keys[1..];
          }
        }
      }
    }
  }

  /** `canonicalChangeJson` throws exactly on values that are not admitted. */
  lemma {:induction false} CanonicalIffAdmitted(v: Value)
    requires WellFormed(v)
    ensures Canonical(v).Success? <==> Admitted(v)
  {
    match v
    case Arr(items) =>
      forall i | 0 <= i < |items| ensures Canonical(items[i]).Success? <==> Admitted(items[i]) {
        CanonicalIffAdmitted(items[i]);
      }
      ItemsSucceed(items);
    case Obj(plain, fields) =>
      forall i | 0 <= i < |fields| ensures Canonical(fields[i].value).Success? <==> Admitted(fields[i].value) {
        CanonicalIffAdmitted(fields[i].value);
      }
      ObjectSucceeds(plain, fields);
    case _ =>
  }

  /** The canonical text of an object, from the values under its sorted keys. */
  lemma CanonicalObject(plain: bool, fields: seq<Field>)
    ensures forall key :: key in SortedKeys(fields) ==> HasKey(fields, key)
    ensures Canonical(Obj(plain, fields)).Success? <==> plain && Members(fields, SortedKeys(fields)).Success?
    ensures Canonical(Obj(plain, fields)).Success? ==>
              Canonical(Obj(plain, fields)).value == [OPEN_OBJECT] + Members(fields, SortedKeys(fields)).value + [CLOSE_OBJECT]
  {
    SortedKeysAreKeys(fields);
    var keys := SortedKeys(fields);
    hide SortedKeys, Members, Items, Quoted, Decimal, HasKey, SizeOfFields, Size;
    if exists key :: key in keys && Lookup(fields, key).Undefined? {
      var key :| key in keys && Lookup(fields, key).Undefined?;
      assert Canonical(Lookup(fields, key)).Failure?;
    }
    MembersSucceed(fields, keys);
  }

  lemma ObjectSucceeds(plain: bool, fields: seq<Field>)
    requires DistinctKeys(fields)
    ensures Canonical(Obj(plain, fields)).Success?
            <==> plain && forall i :: 0 <= i < |fields| ==> Canonical(fields[i].value).Success?
  {
    hide Lookup, SortedKeys, Members, Canonical;
    var keys := SortedKeys(fields);
    SortedKeysAreKeys(fields);
    CanonicalObject(plain, fields);
    MembersSucceed(fields, keys);
    forall i | 0 <= i < |fields| ensures fields[i].key in keys && Lookup(fields, fields[i].key) == fields[i].value {
      LookupOfField(fields, i);
    }
    forall key | key in keys ensures exists i :: 0 <= i < |fields| && fields[i].value == Lookup(fields, key) {
      var i :| 0 <= i < |fields| && fields[i] == Field(key, Lookup(fields, key));
    }
  }
}
