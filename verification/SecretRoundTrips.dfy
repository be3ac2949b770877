// Idempotence of the migration and the exact round trips between the legacy and the current shape.
module SecretRoundTrips {
  import opened Results
  import opened JsonValues
  import opened SecretPayloads

  // -- The two normal forms --

  // A reference spelled as the migration leaves it: a plain id the resolver accepts.
  ghost predicate LiveRef(item: Json, resolve: Resolver) {
    item.Str? && resolve(item.s) == Ok(item.s)
  }

  // A reference spelled as the downgrade leaves it: `secret:` plus a well-formed id.
  ghost predicate LegacySpelled(item: Json) {
    item.Str? && "secret:" <= item.s && IsSecretId(item.s[7..])
  }

  ghost predicate Canonical(v: Json, resolve: Resolver)
    decreases v, 1
  {
    match v
    case Arr(items) => forall i :: 0 <= i < |items| ==> Canonical(items[i], resolve)
    case Obj(es) => Distinct(es) && forall i :: 0 <= i < |es| ==> CanonicalField(es[i].key, es[i].value, resolve)
    case _ => true
  }

  ghost predicate CanonicalField(key: string, item: Json, resolve: Resolver)
    decreases item, 2
  {
    && !IsLegacyKey(key)
    && match KindOf(key, item)
       case One => LiveRef(item, resolve)
       case Many => item.Arr? && forall i :: 0 <= i < |item.items| ==> LiveRef(item.items[i], resolve)
       case Bound =>
         item.Obj? && Distinct(item.entries) && forall i :: 0 <= i < |item.entries| ==> LiveRef(item.entries[i].value, resolve)
       case Plain => Canonical(item, resolve)
  }

  ghost predicate LegacyNormal(v: Json)
    decreases v, 1
  {
    match v
    case Arr(items) => forall i :: 0 <= i < |items| ==> LegacyNormal(items[i])
    case Obj(es) => Distinct(es) && forall i :: 0 <= i < |es| ==> LegacyField(es[i].key, es[i].value)
    case _ => true
  }

  ghost predicate LegacyField(key: string, item: Json)
    decreases item, 2
  {
    && !IsRenamedKey(key)
    && match KindOf(CurrentKey(key), item)
       case One => LegacySpelled(item)
       case Many => item.Arr? && forall i :: 0 <= i < |item.items| ==> LegacySpelled(item.items[i])
       case Bound =>
         item.Obj? && Distinct(item.entries) && forall i :: 0 <= i < |item.entries| ==> LegacySpelled(item.entries[i].value)
       case Plain => LegacyNormal(item)
  }

  // -- One reference --

  lemma RefMigrates(item: Json, resolve: Resolver)
    requires Lawful(resolve)
    ensures MigrateRef(item, resolve).Ok? ==> LiveRef(MigrateRef(item, resolve).value, resolve)
    ensures MigrateRef(item, resolve).Ok? ==> item.Str?
  {
    assert LawfulAt(resolve, PyStr(item));
    if !item.Str? {
      NonStringNeverResolves(item);
    }
  }

  lemma RefRestores(w: Json, resolve: Resolver)
    requires Lawful(resolve) && LiveRef(w, resolve)
    ensures LegacySpelled(RestoreRef(w)) && MigrateRef(RestoreRef(w), resolve) == Ok(w)
    ensures RestoreRef(RestoreRef(w)) == RestoreRef(w)
  {
    assert LawfulAt(resolve, w.s);
    IdResolves(w.s);
    assert RestoreRef(w).s[7..] == w.s;
  }

  lemma RefRoundTrip(item: Json, resolve: Resolver)
    requires Lawful(resolve) && MigrateRef(item, resolve).Ok?
    ensures RestoreRef(MigrateRef(item, resolve).value) == item <==> LegacySpelled(item)
  {
    var w := MigrateRef(item, resolve).value;
    RefMigrates(item, resolve);
    RefRestores(w, resolve);
    if LegacySpelled(item) {
      assert LawfulAt(resolve, item.s);
      IdResolves(item.s[7..]);
      assert item.s == "secret:" + item.s[7..];
    }
  }

  // -- Lists and dicts, entry by entry --

  lemma {:induction false} RefsPointwise(items: seq<Json>, outs: seq<Json>, resolve: Resolver)
    ensures MigrateRefs(items, resolve) == Ok(outs) <==>
      |outs| == |items| && forall i :: 0 <= i < |items| ==> MigrateRef(items[i], resolve) == Ok(outs[i])
  {
    if items != [] && outs != [] {
      RefsPointwise(items[..|items| - 1], outs[..|outs| - 1], resolve);
      assert outs == outs[..|outs| - 1] + [outs[|outs| - 1]];
    }
  }

  predicate BindingMigrates(before: Entry, after: Entry, resolve: Resolver) {
    after.key == before.key && MigrateRef(before.value, resolve) == Ok(after.value)
  }

  lemma {:induction false} BindingsPointwise(es: seq<Entry>, outs: seq<Entry>, resolve: Resolver)
    ensures MigrateBindings(es, resolve) == Ok(outs) <==>
      |outs| == |es| && forall i :: 0 <= i < |es| ==> BindingMigrates(es[i], outs[i], resolve)
  {
    if es != [] && outs != [] {
      var n, m := |es| - 1, |outs| - 1;
      BindingsPointwise(es[..n], outs[..m], resolve);
      assert outs == outs[..m] + [outs[m]];
    }
  }

  lemma {:induction false} ItemsPointwise(items: seq<Json>, outs: seq<Json>, resolve: Resolver)
    ensures MigrateItems(items, resolve) == Ok(outs) <==>
      |outs| == |items| && forall i :: 0 <= i < |items| ==> Migrate(items[i], resolve) == Ok(outs[i])
  {
    if items != [] && outs != [] {
      ItemsPointwise(items[..|items| - 1], outs[..|outs| - 1], resolve);
      assert outs == outs[..|outs| - 1] + [outs[|outs| - 1]];
    }
  }

  lemma {:induction false} RestoreItemsPointwise(items: seq<Json>, outs: seq<Json>)
    ensures RestoreItems(items) == Ok(outs) <==>
      |outs| == |items| && forall i :: 0 <= i < |items| ==> Restore(items[i]) == Ok(outs[i])
  {
    if items != [] && outs != [] {
      RestoreItemsPointwise(items[..|items| - 1], outs[..|outs| - 1]);
      assert outs == outs[..|outs| - 1] + [outs[|outs| - 1]];
    }
  }

  lemma AbsentFromPrefix(es: seq<Entry>)
    requires Distinct(es) && es != []
    ensures !Has(es[..|es| - 1], es[|es| - 1].key)
    ensures Put(es[..|es| - 1], es[|es| - 1].key, es[|es| - 1].value) == es
  {
    var init := es[..|es| - 1];
    FindIsFirst(init, es[|es| - 1].key);
    assert es == init + [es[|es| - 1]];
  }

  // The dict `out` holds the migrated value of this entry under the entry's new name.
  ghost predicate FieldMigrated(e: Entry, out: seq<Entry>, resolve: Resolver) {
    Has(out, CurrentKey(e.key)) && MigrateValue(CurrentKey(e.key), e.value, resolve) == Ok(Get(out, CurrentKey(e.key)))
  }

  lemma EntriesStep(es: seq<Entry>, resolve: Resolver) returns (done: seq<Entry>, key: string, value: Json)
    requires es != [] && MigrateEntries(es, resolve).Ok?
    ensures MigrateEntries(es[..|es| - 1], resolve) == Ok(done) && key == CurrentKey(es[|es| - 1].key)
    ensures MigrateValue(key, es[|es| - 1].value, resolve) == Ok(value)
    ensures (Has(done, key) ==> Get(done, key) == value) && MigrateEntries(es, resolve) == Ok(Put(done, key, value))
    ensures FieldMigrated(es[|es| - 1], Put(done, key, value), resolve)
  {
    done := MigrateEntries(es[..|es| - 1], resolve).value;
    key := CurrentKey(es[|es| - 1].key);
    value := MigrateValue(key, es[|es| - 1].value, resolve).value;
    PutGet(done, key, value, key);
  }

  lemma PutKeepsField(e: Entry, done: seq<Entry>, key: string, value: Json, resolve: Resolver)
    requires FieldMigrated(e, done, resolve) && (Has(done, key) ==> Get(done, key) == value)
    ensures FieldMigrated(e, Put(done, key, value), resolve)
  {
    PutGet(done, key, value, CurrentKey(e.key));
  }

  // What a successful dict migration holds: the migrated value of every entry, and nothing else.
  lemma {:induction false} EntriesHold(es: seq<Entry>, resolve: Resolver)
    requires MigrateEntries(es, resolve).Ok?
    ensures Distinct(MigrateEntries(es, resolve).value) && |MigrateEntries(es, resolve).value| <= |es|
    ensures forall i :: 0 <= i < |es| ==> FieldMigrated(es[i], MigrateEntries(es, resolve).value, resolve)
  {
    hide FieldMigrated, CurrentKey, MigrateValue;
    if es == [] {
    } else {
      var n := |es| - 1;
      EntriesHold(es[..n], resolve);
      var done, key, value := EntriesStep(es, resolve);
      var out := MigrateEntries(es, resolve).value;
      PutDistinct(done, key, value);
      forall i | 0 <= i < n ensures FieldMigrated(es[i], out, resolve) {
        assert es[..n][i] == es[i];
        PutKeepsField(es[i], done, key, value, resolve);
      }
      assert forall i :: 0 <= i < |es| ==> i < n || es[i] == es[n];
    }
  }

  lemma {:induction false} EntriesHoldOnly(es: seq<Entry>, resolve: Resolver, k: string) returns (i: nat)
    requires MigrateEntries(es, resolve).Ok? && Has(MigrateEntries(es, resolve).value, k)
    ensures i < |es| && CurrentKey(es[i].key) == k
  {
    var n := |es| - 1;
    var done := MigrateEntries(es[..n], resolve).value;
    var key := CurrentKey(es[n].key);
    if k == key {
      i := n;
    } else {
      PutGet(done, key, MigrateValue(key, es[n].value, resolve).value, k);
      i := EntriesHoldOnly(es[..n], resolve, k);
    }
  }

  // When the new names do not collide, a dict is migrated entry by entry.
  lemma {:induction false} EntriesPointwise(es: seq<Entry>, outs: seq<Entry>, resolve: Resolver)
    requires |outs| == |es| && Distinct(outs)
    requires forall i :: 0 <= i < |es| ==> outs[i].key == CurrentKey(es[i].key)
    ensures MigrateEntries(es, resolve) == Ok(outs) <==>
      forall i :: 0 <= i < |es| ==> MigrateValue(outs[i].key, es[i].value, resolve) == Ok(outs[i].value)
  {
    hide CurrentKey, MigrateValue;
    if es == [] {
    } else {
      var n := |es| - 1;
      AbsentFromPrefix(outs);
      assert outs == outs[..n] + [outs[n]];
      EntriesPointwise(es[..n], outs[..n], resolve);
      if MigrateEntries(es, resolve) == Ok(outs) {
        EntriesHold(es[..n], resolve);
        assert MigrateEntries(es[..n], resolve).value == outs[..n];
      }
    }
  }

  lemma {:induction false} RestoreEntriesPointwise(es: seq<Entry>, outs: seq<Entry>)
    requires |outs| == |es| && Distinct(outs)
    requires forall i :: 0 <= i < |es| ==> outs[i].key == LegacyKey(es[i].key)
    ensures (forall i :: 0 <= i < |es| ==> RestoreValue(es[i].key, es[i].value) == Ok(outs[i].value)) ==>
      RestoreEntries(es) == Ok(outs)
  {
    if es == [] {
    } else {
      var n := |es| - 1;
      AbsentFromPrefix(outs);
      RestoreEntriesPointwise(es[..n], outs[..n]);
    }
  }

  // -- The image of the migration is the canonical form --

  lemma RefsAreLive(items: seq<Json>, resolve: Resolver)
    requires Lawful(resolve) && MigrateRefs(items, resolve).Ok?
    ensures forall r :: r in MigrateRefs(items, resolve).value ==> LiveRef(r, resolve)
  {
    var outs := MigrateRefs(items, resolve).value;
    RefsPointwise(items, outs, resolve);
    forall i | 0 <= i < |outs| ensures LiveRef(outs[i], resolve) {
      RefMigrates(items[i], resolve);
    }
  }

  lemma BindingsAreLive(es: seq<Entry>, resolve: Resolver)
    requires Lawful(resolve) && Distinct(es) && MigrateBindings(es, resolve).Ok?
    ensures Distinct(MigrateBindings(es, resolve).value)
    ensures forall e :: e in MigrateBindings(es, resolve).value ==> LiveRef(e.value, resolve)
  {
    var outs := MigrateBindings(es, resolve).value;
    BindingsPointwise(es, outs, resolve);
    forall i | 0 <= i < |outs| ensures outs[i].key == es[i].key && LiveRef(outs[i].value, resolve) {
      assert BindingMigrates(es[i], outs[i], resolve);
      RefMigrates(es[i].value, resolve);
    }
  }

  // Every secret position of a migrated payload holds a plain id the resolver accepts, and no
  // legacy name is left in any dict the recursion reaches.
  lemma {:induction false} MigrateIsCanonical(v: Json, resolve: Resolver)
    requires Lawful(resolve) && Sound(v) && Migrate(v, resolve).Ok?
    ensures Canonical(Migrate(v, resolve).value, resolve)
    decreases v, 1
  {
    match v
    case Arr(items) =>
      var outs := MigrateItems(items, resolve).value;
      ItemsPointwise(items, outs, resolve);
      forall i | 0 <= i < |outs| ensures Canonical(outs[i], resolve) {
        MigrateIsCanonical(items[i], resolve);
      }
    case Obj(es) =>
      var outs := MigrateEntries(es, resolve).value;
      EntriesHold(es, resolve);
      forall j | 0 <= j < |outs| ensures CanonicalField(outs[j].key, outs[j].value, resolve) {
        FindAt(outs, j);
        var i := EntriesHoldOnly(es, resolve, outs[j].key);
        assert FieldMigrated(es[i], outs, resolve);
        KeysInvert(es[i].key);
        FieldIsCanonical(outs[j].key, es[i].value, resolve);
      }
    case _ =>
  }

  lemma {:induction false} FieldIsCanonical(key: string, item: Json, resolve: Resolver)
    requires Lawful(resolve) && Sound(item) && !IsLegacyKey(key) && MigrateValue(key, item, resolve).Ok?
    ensures CanonicalField(key, MigrateValue(key, item, resolve).value, resolve)
    decreases item, 2
  {
    match KindOf(key, item)
    case One => RefMigrates(item, resolve);
    case Many => RefsAreLive(item.items, resolve);
    case Bound => BindingsAreLive(item.entries, resolve);
    case Plain =>
      MigrateIsCanonical(item, resolve);
      assert Migrate(item, resolve).value.Arr? <==> item.Arr?;
  }

  // A canonical payload is left as it is.
  lemma {:induction false} CanonicalIsFixed(w: Json, resolve: Resolver)
    requires Canonical(w, resolve)
    ensures Migrate(w, resolve) == Ok(w)
    decreases w, 1
  {
    match w
    case Arr(items) =>
      forall i | 0 <= i < |items| ensures Migrate(items[i], resolve) == Ok(items[i]) {
        CanonicalIsFixed(items[i], resolve);
      }
      ItemsPointwise(items, items, resolve);
    case Obj(es) =>
      forall i | 0 <= i < |es|
        ensures CurrentKey(es[i].key) == es[i].key
        ensures MigrateValue(es[i].key, es[i].value, resolve) == Ok(es[i].value) {
        CanonicalFieldIsFixed(es[i].key, es[i].value, resolve);
      }
      EntriesPointwise(es, es, resolve);
    case _ =>
  }

  lemma {:induction false} CanonicalFieldIsFixed(key: string, item: Json, resolve: Resolver)
    requires CanonicalField(key, item, resolve)
    ensures CurrentKey(key) == key && MigrateValue(key, item, resolve) == Ok(item)
    decreases item, 2
  {
    match KindOf(key, item)
    case One =>
    case Many => RefsPointwise(item.items, item.items, resolve);
    case Bound =>
      assert forall i :: 0 <= i < |item.entries| ==> BindingMigrates(item.entries[i], item.entries[i], resolve);
      BindingsPointwise(item.entries, item.entries, resolve);
    case Plain => CanonicalIsFixed(item, resolve);
  }

  // Migrating twice is migrating once.
  lemma MigrateIsIdempotent(v: Json, resolve: Resolver)
    requires Lawful(resolve) && Sound(v) && Migrate(v, resolve).Ok?
    ensures Migrate(Migrate(v, resolve).value, resolve) == Migrate(v, resolve)
  {
    MigrateIsCanonical(v, resolve);
    CanonicalIsFixed(Migrate(v, resolve).value, resolve);
  }

  lemma {:induction false} CanonicalIsSound(w: Json, resolve: Resolver)
    requires Canonical(w, resolve)
    ensures Sound(w)
    decreases w, 1
  {
    match w
    case Arr(items) =>
      forall i | 0 <= i < |items| ensures Sound(items[i]) {
        CanonicalIsSound(items[i], resolve);
      }
    case Obj(es) =>
      forall i | 0 <= i < |es| ensures Sound(es[i].value) {
        CanonicalFieldIsSound(es[i].key, es[i].value, resolve);
      }
    case _ =>
  }

  lemma {:induction false} CanonicalFieldIsSound(key: string, item: Json, resolve: Resolver)
    requires CanonicalField(key, item, resolve)
    ensures Sound(item)
    decreases item, 2
  {
    if KindOf(key, item).Plain? {
      CanonicalIsSound(item, resolve);
    }
  }

  // -- The downgrade inverts the upgrade --

  lemma {:induction false} RestoreIsSound(v: Json)
    requires Sound(v) && Restore(v).Ok?
    ensures Sound(Restore(v).value)
    decreases v, 1
  {
    match v
    case Arr(items) =>
      var outs := RestoreItems(items).value;
      RestoreItemsPointwise(items, outs);
      forall i | 0 <= i < |outs| ensures Sound(outs[i]) {
        RestoreIsSound(items[i]);
      }
    case Obj(es) => RestoredEntriesAreSound(es);
    case _ =>
  }

  lemma {:induction false} RestoredEntriesAreSound(es: seq<Entry>)
    requires RestoreEntries(es).Ok? && forall i :: 0 <= i < |es| ==> Sound(es[i].value)
    ensures Distinct(RestoreEntries(es).value)
    ensures forall e :: e in RestoreEntries(es).value ==> Sound(e.value)
    decreases es, 0
  {
    hide RestoreValue, LegacyKey, Sound;
    if es == [] {
    } else {
      var n := |es| - 1;
      RestoredEntriesAreSound(es[..n]);
      RestoredValueIsSound(es[n].key, es[n].value);
      var done, value := RestoreEntries(es[..n]).value, RestoreValue(es[n].key, es[n].value).value;
      PutDistinct(done, LegacyKey(es[n].key), value);
      assert forall e :: e in RestoreEntries(es).value ==> e in done || e == Entry(LegacyKey(es[n].key), value);
    }
  }

  lemma {:induction false} RestoredValueIsSound(key: string, item: Json)
    requires Sound(item) && RestoreValue(key, item).Ok?
    ensures Sound(RestoreValue(key, item).value)
    decreases item, 2
  {
    if KindOf(key, item).Plain? {
      RestoreIsSound(item);
    }
  }

  // `u` is the downgraded form of the canonical dict entry `e`.
  ghost predicate RestoredField(e: Entry, u: Entry, resolve: Resolver) {
    && u.key == LegacyKey(e.key) && CurrentKey(u.key) == e.key
    && RestoreValue(e.key, e.value) == Ok(u.value)
    && LegacyField(u.key, u.value) && Sound(u.value)
    && MigrateValue(e.key, u.value, resolve) == Ok(e.value)
  }

  lemma RestoredDict(es: seq<Entry>, us: seq<Entry>, resolve: Resolver)
    requires Distinct(es) && |us| == |es| && forall i :: 0 <= i < |es| ==> RestoredField(es[i], us[i], resolve)
    ensures Distinct(us) && RestoreEntries(es) == Ok(us) && MigrateEntries(us, resolve) == Ok(es)
  {
    forall i, j | 0 <= i < j < |us| ensures us[i].key != us[j].key {
      assert RestoredField(es[i], us[i], resolve) && RestoredField(es[j], us[j], resolve);
    }
    RestoreEntriesPointwise(es, us);
    EntriesPointwise(us, es, resolve);
  }

  // On a migrated payload the downgrade is total, never overwrites a key (the dicts keep their
  // size), and yields a legacy-normal payload that migrates to where it came from.
  lemma {:induction false} CanonicalRestores(w: Json, resolve: Resolver) returns (u: Json)
    requires Lawful(resolve) && Canonical(w, resolve)
    ensures Restore(w) == Ok(u) && LegacyNormal(u) && Sound(u) && Migrate(u, resolve) == Ok(w)
    ensures w.Obj? ==> u.Obj? && |u.entries| == |w.entries|
    ensures (w.Arr? <==> u.Arr?) && (w.Obj? <==> u.Obj?)
    decreases w, 1
  {
    match w
    case Arr(items) =>
      var us := ItemsRestore(items, resolve);
      RestoreItemsPointwise(items, us);
      ItemsPointwise(us, items, resolve);
      u := Arr(us);
    case Obj(es) =>
      var us := FieldsRestore(es, resolve);
      RestoredDict(es, us, resolve);
      u := Obj(us);
    case _ => u := w;
  }

  lemma {:induction false} ItemsRestore(items: seq<Json>, resolve: Resolver) returns (us: seq<Json>)
    requires Lawful(resolve) && forall i :: 0 <= i < |items| ==> Canonical(items[i], resolve)
    ensures |us| == |items|
    ensures forall i :: 0 <= i < |items| ==> Restore(items[i]) == Ok(us[i]) && LegacyNormal(us[i])
    ensures forall i :: 0 <= i < |items| ==> Sound(us[i]) && Migrate(us[i], resolve) == Ok(items[i])
    decreases items, 0
  {
    hide Restore, Migrate, LegacyNormal, Sound, Canonical, Lawful;
    us := [];
    for i := 0 to |items|
      invariant |us| == i
      invariant forall j :: 0 <= j < i ==> Restore(items[j]) == Ok(us[j]) && LegacyNormal(us[j])
      invariant forall j :: 0 <= j < i ==> Sound(us[j]) && Migrate(us[j], resolve) == Ok(items[j])
    {
      var u := CanonicalRestores(items[i], resolve);
      us := us + [u];
    }
  }

  lemma {:induction false} FieldsRestore(es: seq<Entry>, resolve: Resolver) returns (us: seq<Entry>)
    requires Lawful(resolve) && forall i :: 0 <= i < |es| ==> CanonicalField(es[i].key, es[i].value, resolve)
    ensures |us| == |es| && forall i :: 0 <= i < |es| ==> RestoredField(es[i], us[i], resolve)
    decreases es, 0
  {
    hide RestoredField, CanonicalField;
    us := [];
    if es == [] {
    } else {
      var n := |es| - 1;
      var init := FieldsRestore(es[..n], resolve);
      var last := FieldRestores(es[n].key, es[n].value, resolve);
      assert es[n] == Entry(es[n].key, es[n].value);
      us := init + [last];
      forall i | 0 <= i < |es| ensures RestoredField(es[i], us[i], resolve) {
        assert i < n ==> es[..n][i] == es[i];
      }
    }
  }

  lemma ManyRestore(items: seq<Json>, resolve: Resolver) returns (u: Json)
    requires Lawful(resolve) && forall i :: 0 <= i < |items| ==> LiveRef(items[i], resolve)
    ensures u.Arr? && RestoreRefs(Arr(items)) == Ok(u) && Sound(u) && MigrateRefs(u.items, resolve) == Ok(items)
    ensures forall i :: 0 <= i < |u.items| ==> LegacySpelled(u.items[i])
  {
    u := RestoreRefs(Arr(items)).value;
    forall i | 0 <= i < |items| ensures LegacySpelled(u.items[i]) && MigrateRef(u.items[i], resolve) == Ok(items[i]) {
      RefRestores(items[i], resolve);
    }
    RefsPointwise(u.items, items, resolve);
  }

  lemma BoundRestore(es: seq<Entry>, resolve: Resolver) returns (u: Json)
    requires Lawful(resolve) && Distinct(es) && forall i :: 0 <= i < |es| ==> LiveRef(es[i].value, resolve)
    ensures u == Obj(RestoreBindings(es)) && Sound(u) && MigrateBindings(u.entries, resolve) == Ok(es)
    ensures forall i :: 0 <= i < |u.entries| ==> LegacySpelled(u.entries[i].value)
  {
    u := Obj(RestoreBindings(es));
    forall i | 0 <= i < |es| ensures LegacySpelled(u.entries[i].value) && BindingMigrates(u.entries[i], es[i], resolve) {
      RefRestores(es[i].value, resolve);
    }
    BindingsPointwise(u.entries, es, resolve);
  }

  lemma {:induction false} FieldRestores(key: string, item: Json, resolve: Resolver) returns (u: Entry)
    requires Lawful(resolve) && CanonicalField(key, item, resolve)
    ensures RestoredField(Entry(key, item), u, resolve)
    decreases item, 2
  {
    KeysInvert(key);
    var v: Json;
    match KindOf(key, item) {
      case One =>
        RefRestores(item, resolve);
        v := RestoreRef(item);
      case Many => v := ManyRestore(item.items, resolve);
      case Bound => v := BoundRestore(item.entries, resolve);
      case Plain => v := CanonicalRestores(item, resolve);
    }
    u := Entry(LegacyKey(key), v);
  }

  // The dict entry survives the migration and the way back.
  ghost predicate ReturningField(e: Entry, resolve: Resolver) {
    && LegacyKey(CurrentKey(e.key)) == e.key
    && MigrateValue(CurrentKey(e.key), e.value, resolve).Ok?
    && RestoreValue(CurrentKey(e.key), MigrateValue(CurrentKey(e.key), e.value, resolve).value) == Ok(e.value)
  }

  lemma ReturningDict(es: seq<Entry>, resolve: Resolver)
    requires Distinct(es) && forall i :: 0 <= i < |es| ==> ReturningField(es[i], resolve)
    ensures MigrateEntries(es, resolve).Ok? && RestoreEntries(MigrateEntries(es, resolve).value) == Ok(es)
  {
    hide CurrentKey, LegacyKey, MigrateValue, RestoreValue;
    var outs := seq(|es|, i requires 0 <= i < |es| =>
      Entry(CurrentKey(es[i].key), match MigrateValue(CurrentKey(es[i].key), es[i].value, resolve) case Ok(w) => w case Err(_) => Null));
    forall i, j | 0 <= i < j < |outs| ensures outs[i].key != outs[j].key {
      assert ReturningField(es[i], resolve) && ReturningField(es[j], resolve);
    }
    EntriesPointwise(es, outs, resolve);
    RestoreEntriesPointwise(outs, es);
  }

  // A legacy-normal payload comes back exactly, key order included.
  lemma {:induction false} LegacyComesBack(v: Json, resolve: Resolver)
    requires Lawful(resolve) && LegacyNormal(v) && Migrate(v, resolve).Ok?
    ensures Restore(Migrate(v, resolve).value) == Ok(v)
    decreases v, 1
  {
    match v
    case Arr(items) =>
      var outs := MigrateItems(items, resolve).value;
      ItemsPointwise(items, outs, resolve);
      forall i | 0 <= i < |items| ensures Restore(outs[i]) == Ok(items[i]) {
        LegacyComesBack(items[i], resolve);
      }
      RestoreItemsPointwise(outs, items);
    case Obj(es) =>
      EntriesHold(es, resolve);
      forall i | 0 <= i < |es| ensures ReturningField(es[i], resolve) {
        assert FieldMigrated(es[i], MigrateEntries(es, resolve).value, resolve);
        LegacyFieldComesBack(es[i].key, es[i].value, resolve);
      }
      ReturningDict(es, resolve);
    case _ =>
  }

  lemma {:induction false} LegacyFieldComesBack(key: string, item: Json, resolve: Resolver)
    requires Lawful(resolve) && LegacyField(key, item) && MigrateValue(CurrentKey(key), item, resolve).Ok?
    ensures ReturningField(Entry(key, item), resolve)
    decreases item, 2
  {
    var w := MigrateValue(CurrentKey(key), item, resolve).value;
    KeysInvert(key);
    match KindOf(CurrentKey(key), item)
    case One => RefRoundTrip(item, resolve);
    case Many =>
      RefsPointwise(item.items, w.items, resolve);
      forall i | 0 <= i < |item.items| ensures RestoreRef(w.items[i]) == item.items[i] {
        RefRoundTrip(item.items[i], resolve);
      }
      assert RestoreRefs(w).value.items == item.items;
    case Bound =>
      BindingsPointwise(item.entries, w.entries, resolve);
      forall i | 0 <= i < |item.entries|
        ensures Entry(w.entries[i].key, RestoreRef(w.entries[i].value)) == item.entries[i] {
        assert BindingMigrates(item.entries[i], w.entries[i], resolve);
        RefRoundTrip(item.entries[i].value, resolve);
      }
      assert RestoreBindings(w.entries) == item.entries;
    case Plain => LegacyComesBack(item, resolve);
  }

  // Restoring a migrated payload gives the original back exactly when it was legacy-normal.
  lemma RoundTripExactly(v: Json, resolve: Resolver)
    requires Lawful(resolve) && Sound(v) && Migrate(v, resolve).Ok?
    ensures Restore(Migrate(v, resolve).value) == Ok(v) <==> LegacyNormal(v)
  {
    MigrateIsCanonical(v, resolve);
    var u := CanonicalRestores(Migrate(v, resolve).value, resolve);
    if LegacyNormal(v) {
      LegacyComesBack(v, resolve);
    }
  }

  // Upgrade, downgrade, upgrade is one upgrade.
  lemma MigrateRestoreMigrate(v: Json, resolve: Resolver)
    requires Lawful(resolve) && Sound(v) && Migrate(v, resolve).Ok?
    ensures Restore(Migrate(v, resolve).value).Ok?
    ensures Migrate(Restore(Migrate(v, resolve).value).value, resolve) == Migrate(v, resolve)
  {
    MigrateIsCanonical(v, resolve);
    var _ := CanonicalRestores(Migrate(v, resolve).value, resolve);
  }

  // Two migrated payloads with the same restored form are the same.
  lemma RestoreIsInjective(v: Json, v': Json, resolve: Resolver)
    requires Lawful(resolve) && Sound(v) && Sound(v') && Migrate(v, resolve).Ok? && Migrate(v', resolve).Ok?
    requires Restore(Migrate(v, resolve).value) == Restore(Migrate(v', resolve).value)
    ensures Migrate(v, resolve) == Migrate(v', resolve)
  {
    MigrateRestoreMigrate(v, resolve);
    MigrateRestoreMigrate(v', resolve);
  }
}
