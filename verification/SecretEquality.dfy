// What Python's order-blind `==` on JSON values means for the migration: the tests that skip a
// write are exact, and the order of a dict's keys never matters.
module SecretEquality {
  import opened Results
  import opened JsonValues
  import opened SecretPayloads
  import opened SecretRoundTrips

  // -- The downgrade of any payload --

  // What the downgrade leaves: no current name in any dict it reaches, prefixed references.
  ghost predicate Restored(u: Json)
    decreases u, 1
  {
    match u
    case Arr(items) => forall i :: 0 <= i < |items| ==> Restored(items[i])
    case Obj(es) => Distinct(es) && forall i :: 0 <= i < |es| ==> RestoredIn(es[i].key, es[i].value)
    case _ => true
  }

  ghost predicate RestoredIn(key: string, item: Json)
    decreases item, 2
  {
    && !IsRenamedKey(key)
    && match KindOf(key, item)
       case One => false
       case Many => item.Arr? && forall i :: 0 <= i < |item.items| ==> RestoreRef(item.items[i]) == item.items[i]
       case Bound => item.Obj? && forall i :: 0 <= i < |item.entries| ==> RestoreRef(item.entries[i].value) == item.entries[i].value
       case Plain => Restored(item)
  }

  lemma {:induction false} RestoreLands(v: Json)
    requires Restore(v).Ok?
    ensures Restored(Restore(v).value)
    decreases v, 1
  {
    match v
    case Arr(items) =>
      var outs := RestoreItems(items).value;
      RestoreItemsPointwise(items, outs);
      forall i | 0 <= i < |outs| ensures Restored(outs[i]) {
        RestoreLands(items[i]);
      }
    case Obj(es) => RestoreEntriesLand(es);
    case _ =>
  }

  lemma {:induction false} RestoreEntriesLand(es: seq<Entry>)
    requires RestoreEntries(es).Ok?
    ensures Distinct(RestoreEntries(es).value)
    ensures forall e :: e in RestoreEntries(es).value ==> RestoredIn(e.key, e.value)
    decreases es, 0
  {
    hide RestoredIn, RestoreValue, LegacyKey;
    if es == [] {
    } else {
      var n := |es| - 1;
      RestoreEntriesLand(es[..n]);
      var done := RestoreEntries(es[..n]).value;
      var value := RestoreValue(es[n].key, es[n].value).value;
      RestoreValueLands(es[n].key, es[n].value);
      PutDistinct(done, LegacyKey(es[n].key), value);
      forall e | e in RestoreEntries(es).value ensures RestoredIn(e.key, e.value) {
        assert e in done || e == Entry(LegacyKey(es[n].key), value);
      }
    }
  }

  lemma LegacyRefIsIdempotent(ref: string)
    ensures LegacyRef(LegacyRef(ref)) == LegacyRef(ref)
  {
    assert "secret:" <= "secret:" + ref;
  }

  lemma {:induction false} RestoreValueLands(key: string, item: Json)
    requires RestoreValue(key, item).Ok?
    ensures RestoredIn(LegacyKey(key), RestoreValue(key, item).value)
    decreases item, 2
  {
    KeysInvert(key);
    var u := RestoreValue(key, item).value;
    match KindOf(key, item)
    case One =>
    case Many => forall i | 0 <= i < |u.items| ensures RestoreRef(u.items[i]) == u.items[i] && Restored(u.items[i]) {
        LegacyRefIsIdempotent(Iterated(item).value[i]);
      }
    case Bound => forall i | 0 <= i < |u.entries| ensures RestoreRef(u.entries[i].value) == u.entries[i].value {
        LegacyRefIsIdempotent(PyStr(item.entries[i].value));
      }
    case Plain =>
      RestoreLands(item);
      assert u.Arr? <==> item.Arr?;
  }

  lemma {:induction false} RestoredIsFixed(u: Json)
    requires Restored(u)
    ensures Restore(u) == Ok(u)
    decreases u, 1
  {
    match u
    case Arr(items) =>
      forall i | 0 <= i < |items| ensures Restore(items[i]) == Ok(items[i]) {
        RestoredIsFixed(items[i]);
      }
      RestoreItemsPointwise(items, items);
    case Obj(es) =>
      forall i | 0 <= i < |es|
        ensures LegacyKey(es[i].key) == es[i].key && RestoreValue(es[i].key, es[i].value) == Ok(es[i].value) {
        RestoredFieldIsFixed(es[i].key, es[i].value);
      }
      RestoreEntriesPointwise(es, es);
    case _ =>
  }

  lemma {:induction false} RestoredFieldIsFixed(key: string, item: Json)
    requires RestoredIn(key, item)
    ensures LegacyKey(key) == key && RestoreValue(key, item) == Ok(item)
    decreases item, 2
  {
    match KindOf(key, item)
    case Many => assert RestoreRefs(item).value.items == item.items;
    case Bound => assert RestoreBindings(item.entries) == item.entries;
    case Plain => RestoredIsFixed(item);
  }

  // Restoring twice is restoring once, for every payload the downgrade accepts.
  lemma RestoreIsIdempotent(v: Json)
    requires Restore(v).Ok?
    ensures Restore(Restore(v).value) == Restore(v)
  {
    RestoreLands(v);
    RestoredIsFixed(Restore(v).value);
  }

  // -- Skipping a write when `migrated == payload` loses nothing --

  // Python finds a migrated payload equal to the original, key order aside, only when nothing
  // at all has changed.
  lemma {:induction false} MigrateSkipIsExact(v: Json, resolve: Resolver)
    requires Lawful(resolve) && Sound(v) && Migrate(v, resolve).Ok?
    requires SameValue(v, Migrate(v, resolve).value)
    ensures Migrate(v, resolve).value == v
    decreases v, 1
  {
    match v
    case Arr(items) =>
      var outs := MigrateItems(items, resolve).value;
      ItemsPointwise(items, outs, resolve);
      forall i | 0 <= i < |items| ensures outs[i] == items[i] {
        MigrateSkipIsExact(items[i], resolve);
      }
      assert outs == items;
    case Obj(es) =>
      var outs := MigrateEntries(es, resolve).value;
      EntriesHold(es, resolve);
      MigrateIsCanonical(v, resolve);
      forall i | 0 <= i < |es|
        ensures CurrentKey(es[i].key) == es[i].key && MigrateValue(es[i].key, es[i].value, resolve) == Ok(es[i].value) {
        FindAt(es, i);
        FindIsFirst(outs, es[i].key);
        var j := Find(outs, es[i].key);
        assert outs[j].key == es[i].key && CanonicalField(outs[j].key, outs[j].value, resolve);
        assert FieldMigrated(es[i], outs, resolve);
        FieldSkipIsExact(es[i].key, es[i].value, resolve);
      }
      EntriesPointwise(es, es, resolve);
    case _ =>
  }

  lemma SameTexts(items: seq<Json>, texts: seq<Json>)
    requires SameValue(Arr(items), Arr(texts)) && forall i :: 0 <= i < |texts| ==> texts[i].Str?
    ensures items == texts
  {
    assert forall i :: 0 <= i < |items| ==> SameValue(items[i], texts[i]);
  }

  lemma SameTextFields(es: seq<Entry>, texts: seq<Entry>)
    requires Distinct(es) && |texts| == |es| && SameValue(Obj(es), Obj(texts))
    requires forall i :: 0 <= i < |es| ==> texts[i].key == es[i].key && texts[i].value.Str?
    ensures es == texts
  {
    forall i | 0 <= i < |es| ensures es[i] == texts[i] {
      FindAt(texts, i);
    }
  }

  lemma {:induction false} FieldSkipIsExact(key: string, item: Json, resolve: Resolver)
    requires Lawful(resolve) && Sound(item) && MigrateValue(key, item, resolve).Ok?
    requires SameValue(item, MigrateValue(key, item, resolve).value)
    ensures MigrateValue(key, item, resolve).value == item
    decreases item, 2
  {
    var w := MigrateValue(key, item, resolve).value;
    match KindOf(key, item)
    case One =>
    case Many =>
      RefsPointwise(item.items, w.items, resolve);
      SameTexts(item.items, w.items);
    case Bound =>
      BindingsPointwise(item.entries, w.entries, resolve);
      forall i | 0 <= i < |item.entries| ensures w.entries[i].key == item.entries[i].key && w.entries[i].value.Str? {
        assert BindingMigrates(item.entries[i], w.entries[i], resolve);
      }
      SameTextFields(item.entries, w.entries);
    case Plain => MigrateSkipIsExact(item, resolve);
  }

  lemma {:induction false} RestoreEntriesOk(es: seq<Entry>, i: nat)
    requires RestoreEntries(es).Ok? && i < |es|
    ensures RestoreValue(es[i].key, es[i].value).Ok? && Has(RestoreEntries(es).value, LegacyKey(es[i].key))
  {
    var n := |es| - 1;
    PutGet(RestoreEntries(es[..n]).value, LegacyKey(es[n].key), RestoreValue(es[n].key, es[n].value).value, LegacyKey(es[i].key));
    if i < n {
      RestoreEntriesOk(es[..n], i);
    }
  }

  lemma {:induction false} RestoreSkipIsExact(v: Json)
    requires Sound(v) && Restore(v).Ok? && SameValue(v, Restore(v).value)
    ensures Restore(v).value == v
    decreases v, 1
  {
    match v
    case Arr(items) =>
      var outs := RestoreItems(items).value;
      RestoreItemsPointwise(items, outs);
      forall i | 0 <= i < |items| ensures outs[i] == items[i] {
        RestoreSkipIsExact(items[i]);
      }
      assert outs == items;
    case Obj(es) =>
      var outs := RestoreEntries(es).value;
      RestoreLands(v);
      forall i | 0 <= i < |es| ensures LegacyKey(es[i].key) == es[i].key && RestoreValue(es[i].key, es[i].value).Ok? {
        FindAt(es, i);
        FindIsFirst(outs, es[i].key);
        var j := Find(outs, es[i].key);
        assert outs[j].key == es[i].key && RestoredIn(outs[j].key, outs[j].value);
        RestoreEntriesOk(es, i);
      }
      var us := seq(|es|, i requires 0 <= i < |es| =>
        Entry(es[i].key, match RestoreValue(es[i].key, es[i].value) case Ok(u) => u case Err(_) => Null));
      RestoreEntriesPointwise(es, us);
      forall i | 0 <= i < |es| ensures us[i] == es[i] {
        FindAt(us, i);
        RestoreFieldSkipIsExact(es[i].key, es[i].value);
      }
      assert us == es;
    case _ =>
  }

  lemma {:induction false} RestoreFieldSkipIsExact(key: string, item: Json)
    requires Sound(item) && !IsRenamedKey(key) && RestoreValue(key, item).Ok?
    requires SameValue(item, RestoreValue(key, item).value)
    ensures RestoreValue(key, item).value == item
    decreases item, 2
  {
    var u := RestoreValue(key, item).value;
    match KindOf(key, item)
    case Many => SameTexts(item.items, u.items);
    case Bound => SameTextFields(item.entries, u.entries);
    case Plain => RestoreSkipIsExact(item);
  }

  // -- The order of keys --

  // The entry of one dict with the same key as the j-th entry of another.
  lemma Matching(es: seq<Entry>, fs: seq<Entry>, j: nat) returns (i: nat)
    requires Distinct(es) && Distinct(fs) && j < |fs| && SameValue(Obj(es), Obj(fs))
    ensures i < |es| && es[i].key == fs[j].key && Has(es, es[i].key) && Get(es, es[i].key) == es[i].value
    ensures SameValue(es[i].value, fs[j].value)
  {
    FindAt(fs, j);
    i := Find(es, fs[j].key);
    FindIsFirst(es, fs[j].key);
    FindAt(es, i);
  }

  lemma {:induction false} SameValueIsSymmetric(a: Json, b: Json)
    requires Sound(a) && Sound(b) && SameValue(a, b)
    ensures SameValue(b, a)
  {
    match a
    case Arr(xs) =>
      forall i | 0 <= i < |xs| ensures SameValue(b.items[i], xs[i]) {
        SameValueIsSymmetric(xs[i], b.items[i]);
      }
    case Obj(es) =>
      forall j | 0 <= j < |b.entries|
        ensures Has(es, b.entries[j].key) && SameValue(b.entries[j].value, Get(es, b.entries[j].key)) {
        var i := Matching(es, b.entries, j);
        SameValueIsSymmetric(es[i].value, b.entries[j].value);
      }
    case _ =>
  }

  // A dict migrates when each value does and entries taking the same name agree.
  lemma {:induction false} EntriesSucceed(es: seq<Entry>, resolve: Resolver)
    requires forall i :: 0 <= i < |es| ==> MigrateValue(CurrentKey(es[i].key), es[i].value, resolve).Ok?
    requires forall i, j :: 0 <= i < j < |es| && CurrentKey(es[i].key) == CurrentKey(es[j].key) ==>
      MigrateValue(CurrentKey(es[i].key), es[i].value, resolve) == MigrateValue(CurrentKey(es[j].key), es[j].value, resolve)
    ensures MigrateEntries(es, resolve).Ok?
  {
    hide MigrateValue, CurrentKey;
    if es == [] {
    } else {
      var n := |es| - 1;
      EntriesSucceed(es[..n], resolve);
      var done, key := MigrateEntries(es[..n], resolve).value, CurrentKey(es[n].key);
      if Has(done, key) {
        var i := EntriesHoldOnly(es[..n], resolve, key);
        EntriesHold(es[..n], resolve);
        assert FieldMigrated(es[..n][i], done, resolve);
      }
    }
  }

  // Two different keys that take the same name are a legacy key and its current key, and their
  // migrated values hold no dict.
  lemma CollisionIsFlat(k: string, k': string, item: Json, other: Json, resolve: Resolver)
    requires k != k' && CurrentKey(k) == CurrentKey(k') && MigrateValue(CurrentKey(k), item, resolve).Ok?
    requires SameValue(MigrateValue(CurrentKey(k), item, resolve).value, other)
    ensures MigrateValue(CurrentKey(k), item, resolve).value == other
    ensures IsRenamedKey(CurrentKey(k)) && (IsLegacyKey(k) || IsLegacyKey(k'))
  {
    var w := MigrateValue(CurrentKey(k), item, resolve).value;
    assert KindOf(CurrentKey(k), item).One? || KindOf(CurrentKey(k), item).Many?;
    if KindOf(CurrentKey(k), item).Many? {
      RefsPointwise(item.items, w.items, resolve);
      assert forall i :: 0 <= i < |w.items| ==> w.items[i].Str? && SameValue(w.items[i], other.items[i]);
      assert w.items == other.items;
    }
  }

  // The entry of the same key in the other dict migrates to the same value.
  ghost predicate SameField(e: Entry, fs: seq<Entry>, resolve: Resolver) {
    && MigrateValue(CurrentKey(e.key), e.value, resolve).Ok?
    && Has(fs, e.key)
    && MigrateValue(CurrentKey(e.key), Get(fs, e.key), resolve).Ok?
    && SameValue(MigrateValue(CurrentKey(e.key), e.value, resolve).value, MigrateValue(CurrentKey(e.key), Get(fs, e.key), resolve).value)
  }

  // The entry migrates, to the value `outs` holds under its new name.
  ghost predicate LandsLike(f: Entry, outs: seq<Entry>, resolve: Resolver) {
    && MigrateValue(CurrentKey(f.key), f.value, resolve).Ok?
    && Has(outs, CurrentKey(f.key))
    && SameValue(Get(outs, CurrentKey(f.key)), MigrateValue(CurrentKey(f.key), f.value, resolve).value)
  }

  lemma LandsUnderItsName(f: Entry, outs: seq<Entry>, resolve: Resolver)
    requires LandsLike(f, outs, resolve)
    ensures Has(outs, CurrentKey(f.key)) && MigrateValue(CurrentKey(f.key), f.value, resolve).Ok?
  {
  }

  lemma SameFieldLands(e: Entry, fs: seq<Entry>, outs: seq<Entry>, outs': seq<Entry>, resolve: Resolver)
    requires SameField(e, fs, resolve) && FieldMigrated(e, outs, resolve)
    requires forall j :: 0 <= j < |fs| ==> FieldMigrated(fs[j], outs', resolve)
    ensures Has(outs', CurrentKey(e.key)) && SameValue(Get(outs, CurrentKey(e.key)), Get(outs', CurrentKey(e.key)))
  {
    FindIsFirst(fs, e.key);
    assert FieldMigrated(fs[Find(fs, e.key)], outs', resolve);
  }

  lemma OtherFieldLands(e: Entry, f: Entry, fs: seq<Entry>, outs: seq<Entry>, resolve: Resolver)
    requires SameField(e, fs, resolve) && FieldMigrated(e, outs, resolve)
    requires Has(fs, f.key) && f.key == e.key && Get(fs, f.key) == f.value
    ensures LandsLike(f, outs, resolve)
  {
  }

  lemma LandsEqually(f: Entry, g: Entry, es: seq<Entry>, resolve: Resolver)
    requires f.key != g.key && CurrentKey(f.key) == CurrentKey(g.key)
    requires MigrateEntries(es, resolve).Ok?
    requires LandsLike(f, MigrateEntries(es, resolve).value, resolve) && LandsLike(g, MigrateEntries(es, resolve).value, resolve)
    ensures MigrateValue(CurrentKey(f.key), f.value, resolve) == MigrateValue(CurrentKey(g.key), g.value, resolve)
  {
    var outs, key := MigrateEntries(es, resolve).value, CurrentKey(f.key);
    var i := EntriesHoldOnly(es, resolve, key);
    EntriesHold(es, resolve);
    assert FieldMigrated(es[i], outs, resolve);
    var k' := if es[i].key == f.key then g.key else f.key;
    CollisionIsFlat(es[i].key, k', es[i].value, MigrateValue(key, f.value, resolve).value, resolve);
    CollisionIsFlat(es[i].key, k', es[i].value, MigrateValue(key, g.value, resolve).value, resolve);
  }

  lemma OtherDictMigrates(es: seq<Entry>, fs: seq<Entry>, resolve: Resolver)
    requires Distinct(es) && Distinct(fs) && SameValue(Obj(es), Obj(fs)) && MigrateEntries(es, resolve).Ok?
    requires forall i :: 0 <= i < |es| ==> SameField(es[i], fs, resolve)
    ensures forall j :: 0 <= j < |fs| ==> LandsLike(fs[j], MigrateEntries(es, resolve).value, resolve)
    ensures MigrateEntries(fs, resolve).Ok?
    ensures forall j :: 0 <= j < |fs| ==> FieldMigrated(fs[j], MigrateEntries(fs, resolve).value, resolve)
  {
    hide MigrateValue, CurrentKey, LandsLike, SameField, FieldMigrated;
    var outs := MigrateEntries(es, resolve).value;
    EntriesHold(es, resolve);
    forall j | 0 <= j < |fs|
      ensures LandsLike(fs[j], outs, resolve) && MigrateValue(CurrentKey(fs[j].key), fs[j].value, resolve).Ok? {
      var i := Matching(es, fs, j);
      FindAt(fs, j);
      OtherFieldLands(es[i], fs[j], fs, outs, resolve);
      LandsUnderItsName(fs[j], outs, resolve);
    }
    forall i, j | 0 <= i < j < |fs| && CurrentKey(fs[i].key) == CurrentKey(fs[j].key)
      ensures MigrateValue(CurrentKey(fs[i].key), fs[i].value, resolve) == MigrateValue(CurrentKey(fs[j].key), fs[j].value, resolve) {
      LandsEqually(fs[i], fs[j], es, resolve);
    }
    EntriesSucceed(fs, resolve);
    EntriesHold(fs, resolve);
  }

  lemma DictOrderIsIrrelevant(es: seq<Entry>, fs: seq<Entry>, resolve: Resolver)
    requires Distinct(es) && Distinct(fs) && SameValue(Obj(es), Obj(fs)) && MigrateEntries(es, resolve).Ok?
    requires forall i :: 0 <= i < |es| ==> SameField(es[i], fs, resolve)
    ensures MigrateEntries(fs, resolve).Ok?
    ensures SameValue(Obj(MigrateEntries(es, resolve).value), Obj(MigrateEntries(fs, resolve).value))
  {
    hide MigrateValue, CurrentKey, LandsLike, SameField, FieldMigrated, SameValue;
    var outs := MigrateEntries(es, resolve).value;
    OtherDictMigrates(es, fs, resolve);
    var outs' := MigrateEntries(fs, resolve).value;
    EntriesHold(es, resolve);
    forall k | Has(outs, k) ensures Has(outs', k) && SameValue(Get(outs, k), Get(outs', k)) {
      var i := EntriesHoldOnly(es, resolve, k);
      SameFieldLands(es[i], fs, outs, outs', resolve);
    }
    forall k | Has(outs', k) ensures Has(outs, k) {
      var j := EntriesHoldOnly(fs, resolve, k);
      LandsUnderItsName(fs[j], outs, resolve);
    }
    EntriesHold(fs, resolve);
    SameDicts(outs, outs');
  }

  // Whether a payload migrates, and to what, does not depend on the order of keys in its dicts.
  lemma {:induction false} KeyOrderIsIrrelevant(a: Json, b: Json, resolve: Resolver)
    requires Lawful(resolve) && Sound(a) && Sound(b) && SameValue(a, b) && Migrate(a, resolve).Ok?
    ensures Migrate(b, resolve).Ok? && SameValue(Migrate(a, resolve).value, Migrate(b, resolve).value)
    decreases a, 1
  {
    match a
    case Arr(xs) =>
      var outs := MigrateItems(xs, resolve).value;
      ItemsPointwise(xs, outs, resolve);
      var outs' := ItemOrderIsIrrelevant(xs, b.items, outs, resolve);
      ItemsPointwise(b.items, outs', resolve);
    case Obj(es) =>
      EntriesHold(es, resolve);
      forall i | 0 <= i < |es| ensures SameField(es[i], b.entries, resolve) {
        assert FieldMigrated(es[i], MigrateEntries(es, resolve).value, resolve);
        FindIsFirst(b.entries, es[i].key);
        FieldOrderIsIrrelevant(CurrentKey(es[i].key), es[i].value, Get(b.entries, es[i].key), resolve);
      }
      DictOrderIsIrrelevant(es, b.entries, resolve);
    case _ =>
  }

  lemma {:induction false} ItemOrderIsIrrelevant(xs: seq<Json>, ys: seq<Json>, outs: seq<Json>, resolve: Resolver) returns (outs': seq<Json>)
    requires Lawful(resolve) && |xs| == |ys| == |outs|
    requires forall i :: 0 <= i < |xs| ==> Sound(xs[i]) && Sound(ys[i]) && SameValue(xs[i], ys[i]) && Migrate(xs[i], resolve) == Ok(outs[i])
    ensures |outs'| == |outs|
    ensures forall i :: 0 <= i < |ys| ==> Migrate(ys[i], resolve) == Ok(outs'[i]) && SameValue(outs[i], outs'[i])
    decreases xs, 0
  {
    hide Lawful, Sound, SameValue, Migrate;
    outs' := [];
    for i := 0 to |xs|
      invariant |outs'| == i
      invariant forall j :: 0 <= j < i ==> Migrate(ys[j], resolve) == Ok(outs'[j]) && SameValue(outs[j], outs'[j])
    {
      KeyOrderIsIrrelevant(xs[i], ys[i], resolve);
      outs' := outs' + [Migrate(ys[i], resolve).value];
    }
  }

  lemma KeyOrderNeverMatters(a: Json, b: Json, resolve: Resolver)
    requires Lawful(resolve) && Sound(a) && Sound(b) && SameValue(a, b)
    ensures Migrate(a, resolve).Ok? <==> Migrate(b, resolve).Ok?
    ensures Migrate(a, resolve).Ok? ==> SameValue(Migrate(a, resolve).value, Migrate(b, resolve).value)
  {
    SameValueIsSymmetric(a, b);
    if Migrate(a, resolve).Ok? {
      KeyOrderIsIrrelevant(a, b, resolve);
    } else if Migrate(b, resolve).Ok? {
      KeyOrderIsIrrelevant(b, a, resolve);
    }
  }

  lemma RefsAreTexts(items: seq<Json>, resolve: Resolver)
    requires Lawful(resolve) && MigrateRefs(items, resolve).Ok?
    ensures forall i :: 0 <= i < |items| ==> items[i].Str?
  {
    RefsPointwise(items, MigrateRefs(items, resolve).value, resolve);
    forall i | 0 <= i < |items| ensures items[i].Str? {
      RefMigrates(items[i], resolve);
    }
  }

  lemma DistinctBindings(es: seq<Entry>, outs: seq<Entry>, resolve: Resolver)
    requires Distinct(es) && |outs| == |es| && forall i :: 0 <= i < |es| ==> BindingMigrates(es[i], outs[i], resolve)
    ensures Distinct(outs)
  {
    forall i, j | 0 <= i < j < |outs| ensures outs[i].key != outs[j].key {
      assert BindingMigrates(es[i], outs[i], resolve) && BindingMigrates(es[j], outs[j], resolve);
    }
  }

  lemma SameText(a: Json, b: Json)
    requires SameValue(a, b) && a.Str?
    ensures a == b
  {
  }

  lemma BindingLandsAlike(es: seq<Entry>, fs: seq<Entry>, outs: seq<Entry>, outs': seq<Entry>, resolve: Resolver, k: string)
    requires Lawful(resolve) && Distinct(es) && Distinct(fs) && SameValue(Obj(es), Obj(fs))
    requires |outs| == |es| && forall i :: 0 <= i < |es| ==> BindingMigrates(es[i], outs[i], resolve)
    requires |outs'| == |fs| && forall j :: 0 <= j < |fs| ==> BindingMigrates(fs[j], outs'[j], resolve)
    ensures Has(outs, k) <==> Has(outs', k)
    ensures Has(outs, k) && Has(outs', k) ==> SameValue(Get(outs, k), Get(outs', k))
  {
    hide SameValue;
    SameKeys(es, fs, k);
    SameKeysSameFind(es, outs, k);
    SameKeysSameFind(fs, outs', k);
    if Has(fs, k) {
      var j := Find(fs, k);
      FindIsFirst(fs, k);
      var i := Matching(es, fs, j);
      FindAt(es, i);
      assert BindingMigrates(es[i], outs[i], resolve) && BindingMigrates(fs[j], outs'[j], resolve);
      RefMigrates(es[i].value, resolve);
      SameText(es[i].value, fs[j].value);
      SameValueIsReflexive(outs[i].value);
    }
  }

  lemma BindingOrderIsIrrelevant(es: seq<Entry>, fs: seq<Entry>, resolve: Resolver)
    requires Lawful(resolve) && Distinct(es) && Distinct(fs) && SameValue(Obj(es), Obj(fs)) && MigrateBindings(es, resolve).Ok?
    ensures MigrateBindings(fs, resolve).Ok?
    ensures SameValue(Obj(MigrateBindings(es, resolve).value), Obj(MigrateBindings(fs, resolve).value))
  {
    hide SameValue;
    var outs := MigrateBindings(es, resolve).value;
    BindingsPointwise(es, outs, resolve);
    var outs' := [];
    for j := 0 to |fs|
      invariant |outs'| == j
      invariant forall i :: 0 <= i < j ==> BindingMigrates(fs[i], outs'[i], resolve)
    {
      var i := Matching(es, fs, j);
      assert BindingMigrates(es[i], outs[i], resolve);
      RefMigrates(es[i].value, resolve);
      SameText(es[i].value, fs[j].value);
      outs' := outs' + [Entry(fs[j].key, outs[i].value)];
    }
    BindingsPointwise(fs, outs', resolve);
    DistinctBindings(es, outs, resolve);
    DistinctBindings(fs, outs', resolve);
    forall k
      ensures Has(outs, k) <==> Has(outs', k)
      ensures Has(outs, k) && Has(outs', k) ==> SameValue(Get(outs, k), Get(outs', k)) {
      BindingLandsAlike(es, fs, outs, outs', resolve, k);
    }
    SameDicts(outs, outs');
  }

  lemma {:induction false} FieldOrderIsIrrelevant(key: string, x: Json, y: Json, resolve: Resolver)
    requires Lawful(resolve) && Sound(x) && Sound(y) && SameValue(x, y) && MigrateValue(key, x, resolve).Ok?
    ensures MigrateValue(key, y, resolve).Ok?
    ensures SameValue(MigrateValue(key, x, resolve).value, MigrateValue(key, y, resolve).value)
    decreases x, 2
  {
    match KindOf(key, x)
    case One => RefMigrates(x, resolve);
    case Many =>
      RefsAreTexts(x.items, resolve);
      assert x.items == y.items by {
        assert forall i :: 0 <= i < |x.items| ==> SameValue(x.items[i], y.items[i]);
      }
      RefsPointwise(x.items, MigrateRefs(x.items, resolve).value, resolve);
    case Bound => BindingOrderIsIrrelevant(x.entries, y.entries, resolve);
    case Plain => KeyOrderIsIrrelevant(x, y, resolve);
  }
}
