/** Records over fixed keys, and lists, as JSON values. */
module JsonRecords {
  import opened Texts
  import opened Sorting
  import opened CanonicalJson

  function Record(keys: seq<Text>, values: seq<Value>): Value
    requires |keys| == |values|
  {
    Obj(true, seq(|keys|, i requires 0 <= i < |keys| => Field(keys[i], values[i])))
  }

  lemma RecordLookup(keys: seq<Text>, values: seq<Value>, i: nat)
    requires NoRepeats(keys) && |keys| == |values| && i < |keys|
    ensures var fields := Record(keys, values).fields;
            DistinctKeys(fields) && HasKey(fields, keys[i]) && Lookup(fields, keys[i]) == values[i]
  {
    hide Lookup;
    LookupOfField(Record(keys, values).fields, i);
  }

  /** Records over the same keys are equal up to key order exactly when their values are. */
  lemma RecordSame(keys: seq<Text>, v: seq<Value>, w: seq<Value>)
    requires NoRepeats(keys) && |keys| == |v| == |w|
    ensures Same(Record(keys, v), Record(keys, w)) <==> forall i :: 0 <= i < |keys| ==> Same(v[i], w[i])
  {
    var f, g := Record(keys, v).fields, Record(keys, w).fields;
    forall i | 0 <= i < |keys| ensures HasKey(f, g[i].key) && HasKey(g, f[i].key) && Lookup(g, f[i].key) == w[i] {
      RecordLookup(keys, v, i);
      RecordLookup(keys, w, i);
    }
    RecordsUnfold(f, g);
    hide Same, Lookup, HasKey, NoRepeats;
    if Same(Record(keys, v), Record(keys, w)) {
      forall i | 0 <= i < |keys| ensures Same(v[i], w[i]) {
        assert f[i].value == v[i] && f[i].key == keys[i];
      }
    }
  }

  lemma RecordsUnfold(f: seq<Field>, g: seq<Field>)
    ensures Same(Obj(true, f), Obj(true, g))
            <==> && (forall j :: 0 <= j < |g| ==> HasKey(f, g[j].key))
                 && (forall i :: 0 <= i < |f| ==> HasKey(g, f[i].key) && Same(f[i].value, Lookup(g, f[i].key)))
  {
  }

  lemma RecordIsWellFormed(keys: seq<Text>, values: seq<Value>)
    requires NoRepeats(keys) && |keys| == |values| && forall i :: 0 <= i < |values| ==> WellFormed(values[i])
    ensures WellFormed(Record(keys, values))
  {
  }

  function ListOf<T>(item: T -> Value, items: seq<T>): Value {
    Arr(seq(|items|, i requires 0 <= i < |items| => item(items[i])))
  }

  lemma ListSame<T>(item: T -> Value, a: seq<T>, b: seq<T>)
    requires Same(ListOf(item, a), ListOf(item, b))
    requires forall x, y :: x in a && y in b && Same(item(x), item(y)) ==> x == y
    ensures a == b
  {
    var v, w := ListOf(item, a), ListOf(item, b);
    assert |v.items| == |w.items|;
    forall i | 0 <= i < |a| ensures a[i] == b[i] {
      assert Same(v.items[i], w.items[i]);
    }
  }

  lemma ListIsAdmitted<T>(item: T -> Value, items: seq<T>)
    ensures (forall i :: 0 <= i < |items| ==> WellFormed(item(items[i]))) ==> WellFormed(ListOf(item, items))
    ensures (forall i :: 0 <= i < |items| ==> Admitted(item(items[i]))) ==> Admitted(ListOf(item, items))
  {
  }

  lemma RecordIsAdmitted(keys: seq<Text>, values: seq<Value>)
    requires |keys| == |values| && forall i :: 0 <= i < |values| ==> Admitted(values[i])
    ensures Admitted(Record(keys, values))
  {
  }
}
