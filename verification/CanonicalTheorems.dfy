/** The canonical text decides a record: same text exactly when the records are equal up to key order. */
module CanonicalTheorems {
  import opened Wrappers
  import opened Texts
  import opened Sorting
  import opened JsonText
  import opened CanonicalJson

  // ----- Key order does not matter

  lemma KeysOfField(fields: seq<Field>, key: Text)
    ensures key in Keys(fields) <==> HasKey(fields, key)
  {
    if HasKey(fields, key) {
      var i :| 0 <= i < |fields| && fields[i].key == key;
      assert Keys(fields)[i] == key;
    }
  }

  lemma SameKeysSortAlike(f: seq<Field>, g: seq<Field>)
    requires DistinctKeys(f) && DistinctKeys(g) && forall key :: HasKey(f, key) <==> HasKey(g, key)
    ensures SortedKeys(f) == SortedKeys(g)
  {
    hide SortBy, HasKey, CompareText;
    forall key ensures key in Keys(f) <==> key in Keys(g) {
      KeysOfField(f, key);
      KeysOfField(g, key);
    }
    SameMembersPermute(Keys(f), Keys(g));
    TextsAreOrdered();
    TextsAreDistinguished(Keys(f));
    SortIgnoresOrder(CompareText, Keys(f), Keys(g));
  }

  /** The two texts are alike: both fail, or both are the same text. */
  predicate Alike(a: Result<Text, CanonicalError>, b: Result<Text, CanonicalError>) {
    if a.Success? then a == b else b.Failure?
  }

  lemma {:induction false} MembersAlike(f: seq<Field>, g: seq<Field>, keys: seq<Text>)
    requires forall key :: key in keys ==> HasKey(f, key) && HasKey(g, key)
    requires forall key :: key in keys ==> Alike(Canonical(Lookup(f, key)), Canonical(Lookup(g, key)))
    ensures Alike(Members(f, keys), Members(g, keys))
    decreases |keys|
  {
    hide Canonical, Lookup, Quoted;
    if keys != [] {
      assert keys[0] in keys && forall key :: key in keys[1..] ==> key in keys;
      MembersAlike(f, g, keys[1..]);
    }
  }

  lemma {:induction false} ItemsAlike(xs: seq<Value>, ys: seq<Value>)
    requires |xs| == |ys| && forall i :: 0 <= i < |xs| ==> Alike(Canonical(xs[i]), Canonical(ys[i]))
    ensures Alike(Items(xs), Items(ys))
  {
    hide Canonical;
    if xs != [] {
      ItemsAlike(xs[1..], ys[1..]);
    }
  }

  /** Records that are equal up to key order have the same canonical text, or none of them has one. */
  lemma {:induction false} SameHaveSameText(v: Value, w: Value)
    requires WellFormed(v) && WellFormed(w) && Same(v, w)
    ensures Alike(Canonical(v), Canonical(w))
    decreases v
  {
    match v
    case Arr(items) =>
      forall i | 0 <= i < |items| ensures Alike(Canonical(items[i]), Canonical(w.items[i])) {
        SameHaveSameText(items[i], w.items[i]);
      }
      hide Canonical, Same;
      ItemsAlike(items, w.items);
      ArraysAlike(items, w.items);
    case Obj(plain, fields) =>
      var others := w.fields;
      forall i | 0 <= i < |fields| ensures Alike(Canonical(fields[i].value), Canonical(Lookup(others, fields[i].key))) {
        LookupIsWellFormed(w.plain, others, fields[i].key);
        SameHaveSameText(fields[i].value, Lookup(others, fields[i].key));
      }
      hide Canonical;
      ObjectsAlike(plain, fields, others);
    case _ =>
  }

  lemma LookupIsWellFormed(plain: bool, fields: seq<Field>, key: Text)
    requires WellFormed(Obj(plain, fields)) && HasKey(fields, key)
    ensures WellFormed(Lookup(fields, key))
  {
    var i :| 0 <= i < |fields| && fields[i] == Field(key, Lookup(fields, key));
  }

  lemma ArraysAlike(xs: seq<Value>, ys: seq<Value>)
    requires Alike(Items(xs), Items(ys))
    ensures Alike(Canonical(Arr(xs)), Canonical(Arr(ys)))
  {
    hide Items;
  }

  lemma ObjectsAlike(plain: bool, f: seq<Field>, g: seq<Field>)
    requires DistinctKeys(f) && DistinctKeys(g)
    requires forall j :: 0 <= j < |g| ==> HasKey(f, g[j].key)
    requires forall i :: 0 <= i < |f| ==>
               HasKey(g, f[i].key) && Alike(Canonical(f[i].value), Canonical(Lookup(g, f[i].key)))
    ensures Alike(Canonical(Obj(plain, f)), Canonical(Obj(plain, g)))
  {
    hide Canonical, Lookup, Members, SortedKeys;
    forall key ensures HasKey(f, key) <==> HasKey(g, key) {
    }
    SameKeysSortAlike(f, g);
    CanonicalObject(plain, f);
    CanonicalObject(plain, g);
    forall key | key in SortedKeys(f) ensures Alike(Canonical(Lookup(f, key)), Canonical(Lookup(g, key))) {
      var i :| 0 <= i < |f| && f[i].key == key;
      LookupOfField(f, i);
    }
    MembersAlike(f, g, SortedKeys(f));
  }

  // ----- Different records have different texts

  /** What a canonical text of each kind starts with. */
  function Initial(v: Value): CodeUnit {
    match v
    case Null => 0x6E
    case Bool(b) => if b then 0x74 else 0x66
    case Str(_) => QUOTE
    case Arr(_) => OPEN_ARRAY
    case Obj(_, _) => OPEN_OBJECT
    case _ => 0
  }

  lemma TextStartsWithInitial(v: Value)
    requires Canonical(v).Success?
    ensures var text := Canonical(v).value;
            text != [] && if v.Integer? then text[0] == MINUS || IsDigit(text[0]) else text[0] == Initial(v) && Initial(v) != 0
  {
    hide Items, Members, Escaped, Digits;
    if v.Obj? {
      CanonicalObject(v.plain, v.fields);
    }
  }

  lemma TailOf(first: CodeUnit, text: Text, last: CodeUnit, s: Text)
    ensures ([first] + text + [last] + s)[1..] == text + ([last] + s)
  {
  }

  /** A canonical text ends where it ends: what follows cannot change which record was written. */
  lemma {:induction false} TextsDecode(v: Value, w: Value, s: Text, t: Text)
    requires WellFormed(v) && WellFormed(w) && Canonical(v).Success? && Canonical(w).Success?
    requires !StartsWithDigit(s) && !StartsWithDigit(t) && Canonical(v).value + s == Canonical(w).value + t
    ensures Same(v, w) && s == t
    decreases Size(v), 0, 0
  {
    var a, b := Canonical(v).value, Canonical(w).value;
    TextStartsWithInitial(v);
    TextStartsWithInitial(w);
    assert (a + s)[0] == a[0] && (b + t)[0] == b[0];
    match v
    case Null => DropEqual(a, b, s, t);
    case Bool(_) => DropEqual(a, b, s, t);
    case Str(text) => QuotedDecodes(text, w.text, s, t);
    case Integer(i) => DecimalDecodes(i, w.i, s, t);
    case Arr(items) =>
      ArrayText(items);
      ArrayText(w.items);
      hide Canonical, Items;
      TailOf(OPEN_ARRAY, Items(items).value, CLOSE_ARRAY, s);
      TailOf(OPEN_ARRAY, Items(w.items).value, CLOSE_ARRAY, t);
      ItemsDecode(items, w.items, s, t);
    case Obj(plain, fields) =>
      CanonicalObject(plain, fields);
      CanonicalObject(w.plain, w.fields);
      hide Canonical, Members;
      TailOf(OPEN_OBJECT, Members(fields, SortedKeys(fields)).value, CLOSE_OBJECT, s);
      TailOf(OPEN_OBJECT, Members(w.fields, SortedKeys(w.fields)).value, CLOSE_OBJECT, t);
      MembersDecode(fields, SortedKeys(fields), w.fields, SortedKeys(w.fields), s, t);
      SameFields(plain, fields, w.fields);
  }

  lemma DropEqual(a: Text, b: Text, s: Text, t: Text)
    requires a == b && a + s == b + t
    ensures s == t
  {
    assert s == (a + s)[|a|..] && t == (b + t)[|b|..];
  }

  lemma ArrayText(items: seq<Value>)
    requires Canonical(Arr(items)).Success?
    ensures Items(items).Success? && Canonical(Arr(items)).value == [OPEN_ARRAY] + Items(items).value + [CLOSE_ARRAY]
  {
    hide Items;
  }

  lemma SameFields(plain: bool, f: seq<Field>, g: seq<Field>)
    requires DistinctKeys(f) && DistinctKeys(g) && SortedKeys(f) == SortedKeys(g)
    requires forall key :: key in SortedKeys(f) ==> HasKey(f, key) && HasKey(g, key) && Same(Lookup(f, key), Lookup(g, key))
    ensures Same(Obj(plain, f), Obj(plain, g))
  {
    hide Lookup, SortedKeys;
    SortedKeysAreKeys(f);
    SortedKeysAreKeys(g);
    forall i | 0 <= i < |f| ensures HasKey(g, f[i].key) && Same(f[i].value, Lookup(g, f[i].key)) {
      LookupOfField(f, i);
    }
  }

  lemma Regroup3(a: Text, b: Text, c: Text)
    ensures a + b + c == a + (b + c)
  {
  }

  lemma Regroup4(a: Text, b: Text, c: Text, d: Text)
    ensures a + b + c + d == a + (b + (c + d))
  {
    Regroup3(a + b, c, d);
    Regroup3(a, b, c + d);
  }

  lemma ItemsStep(items: seq<Value>)
    requires Items(items).Success? && items != []
    ensures Canonical(items[0]).Success?
    ensures if |items| == 1 then Items(items).value == Canonical(items[0]).value
            else Items(items[1..]).Success? && Items(items).value == Canonical(items[0]).value + [COMMA] + Items(items[1..]).value
  {
    hide Canonical;
  }

  /** A closing bracket or a comma follows a complete value. */
  lemma ItemsUnfold(items: seq<Value>, close: CodeUnit, s: Text)
    requires Items(items).Success? && items != []
    ensures Canonical(items[0]).Success? && (|items| > 1 ==> Items(items[1..]).Success?)
    ensures Items(items).value + ([close] + s)
            == Canonical(items[0]).value
               + (if |items| == 1 then [close] + s else [COMMA] + (Items(items[1..]).value + ([close] + s)))
  {
    ItemsStep(items);
    hide Canonical, Items;
    if |items| > 1 {
      Regroup4(Canonical(items[0]).value, [COMMA], Items(items[1..]).value, [close] + s);
    }
  }

  lemma ItemsInitial(items: seq<Value>, s: Text)
    requires Items(items).Success?
    ensures (Items(items).value + ([CLOSE_ARRAY] + s))[0] == CLOSE_ARRAY <==> items == []
  {
    hide Canonical;
    if items != [] {
      ItemsUnfold(items, CLOSE_ARRAY, s);
      TextStartsWithInitial(items[0]);
      InitialIsNotClosing(items[0]);
    }
  }

  lemma InitialIsNotClosing(v: Value)
    ensures Initial(v) != CLOSE_ARRAY && Initial(v) != CLOSE_OBJECT
  {
  }

  lemma {:induction false} ItemsDecode(xs: seq<Value>, ys: seq<Value>, s: Text, t: Text)
    requires (forall i :: 0 <= i < |xs| ==> WellFormed(xs[i])) && (forall i :: 0 <= i < |ys| ==> WellFormed(ys[i]))
    requires Items(xs).Success? && Items(ys).Success?
    requires Items(xs).value + ([CLOSE_ARRAY] + s) == Items(ys).value + ([CLOSE_ARRAY] + t)
    ensures |xs| == |ys| && (forall i :: 0 <= i < |xs| ==> Same(xs[i], ys[i])) && s == t
    decreases SizeOfItems(xs), 1, 0
  {
    hide Canonical, Same, WellFormed;
    ItemsInitial(xs, s);
    ItemsInitial(ys, t);
    if xs == [] {
      assert s == ([CLOSE_ARRAY] + s)[1..] && t == ([CLOSE_ARRAY] + t)[1..];
      assert Items(xs).value + ([CLOSE_ARRAY] + s) == [CLOSE_ARRAY] + s;
      assert Items(ys).value + ([CLOSE_ARRAY] + t) == [CLOSE_ARRAY] + t;
    } else {
      ItemsUnfold(xs, CLOSE_ARRAY, s);
      ItemsUnfold(ys, CLOSE_ARRAY, t);
      hide Items;
      var restX := if |xs| == 1 then [CLOSE_ARRAY] + s else [COMMA] + (Items(xs[1..]).value + ([CLOSE_ARRAY] + s));
      var restY := if |ys| == 1 then [CLOSE_ARRAY] + t else [COMMA] + (Items(ys[1..]).value + ([CLOSE_ARRAY] + t));
      TextsDecode(xs[0], ys[0], restX, restY);
      assert restX[0] == restY[0];
      if |xs| == 1 {
        assert s == restX[1..] && t == restY[1..];
      } else {
        assert restX[1..] == Items(xs[1..]).value + ([CLOSE_ARRAY] + s);
        assert restY[1..] == Items(ys[1..]).value + ([CLOSE_ARRAY] + t);
        ItemsDecode(xs[1..], ys[1..], s, t);
        forall i | 0 <= i < |xs| ensures Same(xs[i], ys[i]) {
          if i > 0 {
            assert xs[i] == xs[1..][i - 1] && ys[i] == ys[1..][i - 1];
          }
        }
      }
    }
  }

  lemma MembersStep(f: seq<Field>, keys: seq<Text>)
    requires (forall key :: key in keys ==> HasKey(f, key)) && keys != [] && Members(f, keys).Success?
    ensures HasKey(f, keys[0]) && Canonical(Lookup(f, keys[0])).Success?
    ensures var first := Quoted(keys[0]) + [COLON] + Canonical(Lookup(f, keys[0])).value;
            if |keys| == 1 then Members(f, keys).value == first
            else Members(f, keys[1..]).Success? && Members(f, keys).value == first + [COMMA] + Members(f, keys[1..]).value
  {
    hide Canonical, Lookup, Quoted;
    assert keys[0] in keys;
  }

  lemma MembersUnfold(f: seq<Field>, keys: seq<Text>, s: Text)
    requires (forall key :: key in keys ==> HasKey(f, key)) && keys != [] && Members(f, keys).Success?
    ensures HasKey(f, keys[0]) && Canonical(Lookup(f, keys[0])).Success? && (|keys| > 1 ==> Members(f, keys[1..]).Success?)
    ensures Members(f, keys).value + ([CLOSE_OBJECT] + s)
            == Quoted(keys[0])
               + ([COLON] + (Canonical(Lookup(f, keys[0])).value
                             + (if |keys| == 1 then [CLOSE_OBJECT] + s
                                else [COMMA] + (Members(f, keys[1..]).value + ([CLOSE_OBJECT] + s)))))
  {
    MembersStep(f, keys);
    assert forall key :: key in keys[1..] ==> key in keys;
    hide Canonical, Lookup, Quoted, Members;
    var name, value, close := Quoted(keys[0]), Canonical(Lookup(f, keys[0])).value, [CLOSE_OBJECT] + s;
    if |keys| == 1 {
      Regroup4(name, [COLON], value, close);
    } else {
      var rest := Members(f, keys[1..]).value;
      Regroup4(name + [COLON] + value, [COMMA], rest, close);
      Regroup4(name, [COLON], value, [COMMA] + (rest + close));
    }
  }

  lemma MembersInitial(f: seq<Field>, keys: seq<Text>, s: Text)
    requires (forall key :: key in keys ==> HasKey(f, key)) && Members(f, keys).Success?
    ensures (Members(f, keys).value + ([CLOSE_OBJECT] + s))[0] == CLOSE_OBJECT <==> keys == []
  {
    hide Canonical, Lookup, Escaped;
    if keys != [] {
      MembersUnfold(f, keys, s);
    }
  }

  lemma {:induction false} MembersDecode(f: seq<Field>, ks: seq<Text>, g: seq<Field>, ls: seq<Text>, s: Text, t: Text)
    requires (forall i :: 0 <= i < |f| ==> WellFormed(f[i].value)) && (forall i :: 0 <= i < |g| ==> WellFormed(g[i].value))
    requires (forall key :: key in ks ==> HasKey(f, key)) && (forall key :: key in ls ==> HasKey(g, key))
    requires Members(f, ks).Success? && Members(g, ls).Success?
    requires Members(f, ks).value + ([CLOSE_OBJECT] + s) == Members(g, ls).value + ([CLOSE_OBJECT] + t)
    ensures ks == ls && s == t
    ensures forall key :: key in ks ==> HasKey(f, key) && HasKey(g, key) && Same(Lookup(f, key), Lookup(g, key))
    decreases SizeOfFields(f), 1, |ks|
  {
    hide Canonical, Same, WellFormed, Escaped, Lookup;
    MembersInitial(f, ks, s);
    MembersInitial(g, ls, t);
    if ks == [] {
      assert s == ([CLOSE_OBJECT] + s)[1..] && t == ([CLOSE_OBJECT] + t)[1..];
      assert Members(f, ks).value + ([CLOSE_OBJECT] + s) == [CLOSE_OBJECT] + s;
      assert Members(g, ls).value + ([CLOSE_OBJECT] + t) == [CLOSE_OBJECT] + t;
    } else {
      MembersUnfold(f, ks, s);
      MembersUnfold(g, ls, t);
      hide Members;
      assert ks[0] in ks && ls[0] in ls;
      var restF := if |ks| == 1 then [CLOSE_OBJECT] + s else [COMMA] + (Members(f, ks[1..]).value + ([CLOSE_OBJECT] + s));
      var restG := if |ls| == 1 then [CLOSE_OBJECT] + t else [COMMA] + (Members(g, ls[1..]).value + ([CLOSE_OBJECT] + t));
      FirstMember(f, ks[0], g, ls[0], restF, restG);
      assert restF[0] == restG[0];
      if |ks| == 1 {
        assert s == restF[1..] && t == restG[1..];
        assert forall key :: key in ks ==> key == ks[0];
      } else {
        assert restF[1..] == Members(f, ks[1..]).value + ([CLOSE_OBJECT] + s);
        assert restG[1..] == Members(g, ls[1..]).value + ([CLOSE_OBJECT] + t);
        assert (forall key :: key in ks[1..] ==> key in ks) && (forall key :: key in ls[1..] ==> key in ls);
        MembersDecode(f, ks[1..], g, ls[1..], s, t);
        assert ks == [ks[0]] + ks[1..] && ls == [ls[0]] + ls[1..];
        assert forall key :: key in ks ==> key == ks[0] || key in ks[1..];
      }
    }
  }

  /** One member decodes: its quoted key, and then its value. */
  lemma {:induction false} FirstMember(f: seq<Field>, k: Text, g: seq<Field>, l: Text, restF: Text, restG: Text)
    requires (forall i :: 0 <= i < |f| ==> WellFormed(f[i].value)) && (forall i :: 0 <= i < |g| ==> WellFormed(g[i].value))
    requires HasKey(f, k) && HasKey(g, l) && Canonical(Lookup(f, k)).Success? && Canonical(Lookup(g, l)).Success?
    requires !StartsWithDigit(restF) && !StartsWithDigit(restG)
    requires Quoted(k) + ([COLON] + (Canonical(Lookup(f, k)).value + restF)) == Quoted(l) + ([COLON] + (Canonical(Lookup(g, l)).value + restG))
    ensures k == l && Same(Lookup(f, k), Lookup(g, l)) && restF == restG
    decreases SizeOfFields(f), 0, 1
  {
    hide Canonical, Same, Escaped;
    QuotedDecodes(k, l, [COLON] + (Canonical(Lookup(f, k)).value + restF), [COLON] + (Canonical(Lookup(g, l)).value + restG));
    DropOne(COLON, Canonical(Lookup(f, k)).value + restF, Canonical(Lookup(g, l)).value + restG);
    var i :| 0 <= i < |f| && f[i] == Field(k, Lookup(f, k));
    var j :| 0 <= j < |g| && g[j] == Field(l, Lookup(g, l));
    TextsDecode(Lookup(f, k), Lookup(g, l), restF, restG);
  }

  lemma DropOne(u: CodeUnit, s: Text, t: Text)
    requires [u] + s == [u] + t
    ensures s == t
  {
    assert s == ([u] + s)[1..] && t == ([u] + t)[1..];
  }

  /**
   * On admitted records, the canonical text is independent of key insertion order and injective: two records have the
   * same text exactly when they are equal up to key order.
   */
  lemma CanonicalTextIsExact(v: Value, w: Value)
    requires WellFormed(v) && WellFormed(w) && Admitted(v) && Admitted(w)
    ensures Canonical(v).Success? && Canonical(w).Success?
    ensures Canonical(v) == Canonical(w) <==> Same(v, w)
  {
    hide Canonical, Same, WellFormed, Admitted;
    CanonicalIffAdmitted(v);
    CanonicalIffAdmitted(w);
    if Same(v, w) {
      SameHaveSameText(v, w);
    }
    if Canonical(v) == Canonical(w) {
      TextsDecode(v, w, [], []);
    }
  }
}
