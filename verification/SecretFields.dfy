// The secret fields by name: what a reference looks like, which fields of a dict hold references,
// what they are called before and after, and what becomes of their values in both directions.
module SecretFields {
  import opened Results
  import opened Text
  import opened JsonValues
  import opened SecretPayloads
  import opened SecretRoundTrips
  import opened SecretEquality

  // -- References --

  // A secret id: `sec_`, a letter or digit, and 2 to 124 letters, digits, underscores or dashes.
  lemma SecretIdsAre(s: string)
    ensures IsSecretId(s) <==>
      exists c, rest: string :: s == "sec_" + [c] + rest && IsAlnum(c) && 2 <= |rest| <= 124 && forall d :: d in rest ==> IsIdChar(d)
  {
    if IsSecretId(s) {
      var rest := s[5..];
      assert s == "sec_" + [s[4]] + rest;
      forall d | d in rest ensures IsIdChar(d) {
        var i :| 0 <= i < |rest| && rest[i] == d;
        assert IsIdChar(s[5 + i]);
      }
    }
    if c: char, rest: string :| s == "sec_" + [c] + rest && IsAlnum(c) && 2 <= |rest| <= 124 && forall d :: d in rest ==> IsIdChar(d) {
      forall i | 5 <= i < |s| ensures IsIdChar(s[i]) {
        assert s[i] == rest[i - 5];
      }
    }
  }

  lemma IdCharsAre(c: char)
    ensures IsAlnum(c) <==> 'a' <= c <= 'z' || 'A' <= c <= 'Z' || '0' <= c <= '9'
    ensures IsIdChar(c) <==> IsAlnum(c) || c in "_-"
  {
    assert "_-"[0] == '_' && "_-"[1] == '-';
  }

  // The ids the server generates, `sec_` and 32 hexadecimal digits, are such ids.
  lemma GeneratedIdsAreSecretIds(hex: string)
    requires |hex| == 32 && forall c :: c in hex ==> '0' <= c <= '9' || 'a' <= c <= 'f'
    ensures IsSecretId("sec_" + hex)
  {
    var s := "sec_" + hex;
    forall i | 4 <= i < |s| ensures IsAlnum(s[i]) {
      assert s[i] == hex[i - 4] && hex[i - 4] in hex;
    }
  }

  // What a resolver looks for: the text without one leading `secret:`, then without whitespace.
  lemma CandidatesAre(text: string)
    ensures Candidate("secret:" + text) == Strip(text)
    ensures !("secret:" <= text) ==> Candidate(text) == Strip(text)
  {
    RemovePrefixMeans(text, "secret:");
  }

  lemma LegacyRefsAre(text: string)
    ensures LegacyRef("secret:" + text) == "secret:" + text
    ensures !("secret:" <= text) ==> LegacyRef(text) == "secret:" + text
  {
    assert "secret:" <= "secret:" + text;
  }

  // -- The upgrade --

  // `y` is the id that the reference `x` spells, and the resolver has accepted it.
  ghost predicate IsResolved(x: Json, y: Json, resolve: Resolver) {
    x.Str? && y == Str(Candidate(x.s)) && resolve(x.s) == Ok(Candidate(x.s))
  }

  ghost predicate AreResolved(x: Json, y: Json, resolve: Resolver) {
    x.Arr? && y.Arr? && |x.items| == |y.items| && forall i :: 0 <= i < |x.items| ==> IsResolved(x.items[i], y.items[i], resolve)
  }

  ghost predicate AreBound(x: Json, y: Json, resolve: Resolver) {
    && x.Obj? && y.Obj? && |x.entries| == |y.entries|
    && forall i :: 0 <= i < |x.entries| ==>
         x.entries[i].key == y.entries[i].key && IsResolved(x.entries[i].value, y.entries[i].value, resolve)
  }

  predicate IsSecretField(key: string, item: Json) {
    || key in {"secret_id", "secret_ids", "credential_secret_id", "secret_bindings"}
    || key in {"secret_ref", "secret_refs", "credential_ref"}
    || (key == "secrets" && item.Arr?)
  }

  lemma RefIsResolved(x: Json, y: Json, resolve: Resolver)
    requires Lawful(resolve) && MigrateRef(x, resolve) == Ok(y)
    ensures IsResolved(x, y, resolve)
  {
    RefMigrates(x, resolve);
    assert LawfulAt(resolve, x.s);
  }

  lemma RefsAreResolved(x: Json, y: seq<Json>, resolve: Resolver)
    requires Lawful(resolve) && x.Arr? && MigrateRefs(x.items, resolve) == Ok(y)
    ensures AreResolved(x, Arr(y), resolve)
  {
    RefsPointwise(x.items, y, resolve);
    forall i | 0 <= i < |y| ensures IsResolved(x.items[i], y[i], resolve) {
      RefIsResolved(x.items[i], y[i], resolve);
    }
  }

  lemma BindingsAreResolved(x: Json, y: seq<Entry>, resolve: Resolver)
    requires Lawful(resolve) && x.Obj? && MigrateBindings(x.entries, resolve) == Ok(y)
    ensures AreBound(x, Obj(y), resolve)
  {
    BindingsPointwise(x.entries, y, resolve);
    forall i | 0 <= i < |y| ensures x.entries[i].key == y[i].key && IsResolved(x.entries[i].value, y[i].value, resolve) {
      assert BindingMigrates(x.entries[i], y[i], resolve);
      RefIsResolved(x.entries[i].value, y[i].value, resolve);
    }
  }

  // The field of a dict and the one that holds its migrated value.
  ghost predicate Becomes(es: seq<Entry>, key: string, outs: seq<Entry>, name: string, resolve: Resolver)
    requires Has(es, key)
  {
    Has(outs, name) && MigrateValue(name, Get(es, key), resolve) == Ok(Get(outs, name))
  }

  lemma FieldBecomes(es: seq<Entry>, outs: seq<Entry>, resolve: Resolver, key: string)
    requires Migrate(Obj(es), resolve) == Ok(Obj(outs)) && Has(es, key)
    ensures Becomes(es, key, outs, CurrentKey(key), resolve)
  {
    FindIsFirst(es, key);
    EntriesHold(es, resolve);
    assert FieldMigrated(es[Find(es, key)], outs, resolve);
  }

  // What the migrated value of a field says, by the field's name.
  ghost predicate FieldMeans(key: string, item: Json, resolve: Resolver) {
    MigrateValue(CurrentKey(key), item, resolve).Ok? ==>
      var w := MigrateValue(CurrentKey(key), item, resolve).value;
      && (key in {"secret_id", "secret_ref", "credential_secret_id", "credential_ref"} ==> IsResolved(item, w, resolve))
      && (key in {"secret_ids", "secret_refs"} || (key == "secrets" && item.Arr?) ==> AreResolved(item, w, resolve))
      && (key == "secret_bindings" ==> AreBound(item, w, resolve))
      && (!IsSecretField(key, item) ==> CurrentKey(key) == key && Migrate(item, resolve) == Ok(w))
  }

  lemma ValueMeans(key: string, item: Json, resolve: Resolver)
    requires Lawful(resolve)
    ensures FieldMeans(key, item, resolve)
  {
    hide IsResolved, AreResolved, AreBound, Lawful, Migrate;
    var name := CurrentKey(key);
    if MigrateValue(name, item, resolve).Ok? {
      var w := MigrateValue(name, item, resolve).value;
      match KindOf(name, item)
      case One => RefIsResolved(item, w, resolve);
      case Many => RefsAreResolved(item, w.items, resolve);
      case Bound => BindingsAreResolved(item, w.entries, resolve);
      case Plain =>
    }
  }

  // The same of the field of one dict and the field it becomes in another.
  ghost predicate FieldIs(key: string, es: seq<Entry>, outs: seq<Entry>, resolve: Resolver)
    requires Has(es, key)
  {
    && Has(outs, CurrentKey(key))
    && var item, w := Get(es, key), Get(outs, CurrentKey(key));
       && (key in {"secret_id", "secret_ref", "credential_secret_id", "credential_ref"} ==> IsResolved(item, w, resolve))
       && (key in {"secret_ids", "secret_refs"} || (key == "secrets" && item.Arr?) ==> AreResolved(item, w, resolve))
       && (key == "secret_bindings" ==> AreBound(item, w, resolve))
       && (!IsSecretField(key, item) ==> CurrentKey(key) == key && Migrate(item, resolve) == Ok(w))
  }

  lemma FieldFollows(key: string, es: seq<Entry>, outs: seq<Entry>, resolve: Resolver)
    requires Has(es, key) && Becomes(es, key, outs, CurrentKey(key), resolve) && FieldMeans(key, Get(es, key), resolve)
    ensures FieldIs(key, es, outs, resolve)
  {
    hide IsResolved, AreResolved, AreBound, Migrate, CurrentKey, MigrateValue, IsSecretField;
  }

  lemma OneReference(es: seq<Entry>, outs: seq<Entry>, resolve: Resolver, key: string)
    requires Has(es, key) && FieldIs(key, es, outs, resolve) && key in {"secret_id", "secret_ref", "credential_secret_id", "credential_ref"}
    ensures Has(outs, CurrentKey(key)) && IsResolved(Get(es, key), Get(outs, CurrentKey(key)), resolve)
  {
    hide IsResolved, AreResolved, AreBound, Migrate, IsSecretField, CurrentKey;
  }

  lemma SingleFields(es: seq<Entry>, outs: seq<Entry>, resolve: Resolver)
    requires forall k :: Has(es, k) ==> FieldIs(k, es, outs, resolve)
    ensures Has(es, "secret_id") ==> Has(outs, "secret_id") && IsResolved(Get(es, "secret_id"), Get(outs, "secret_id"), resolve)
    ensures Has(es, "secret_ref") ==> Has(outs, "secret_id") && IsResolved(Get(es, "secret_ref"), Get(outs, "secret_id"), resolve)
    ensures Has(es, "credential_secret_id") ==>
      Has(outs, "credential_secret_id") && IsResolved(Get(es, "credential_secret_id"), Get(outs, "credential_secret_id"), resolve)
    ensures Has(es, "credential_ref") ==>
      Has(outs, "credential_secret_id") && IsResolved(Get(es, "credential_ref"), Get(outs, "credential_secret_id"), resolve)
  {
    hide IsResolved, AreResolved, AreBound, Migrate, IsSecretField, FieldIs;
    if Has(es, "secret_id") { OneReference(es, outs, resolve, "secret_id"); }
    if Has(es, "secret_ref") { OneReference(es, outs, resolve, "secret_ref"); }
    if Has(es, "credential_secret_id") { OneReference(es, outs, resolve, "credential_secret_id"); }
    if Has(es, "credential_ref") { OneReference(es, outs, resolve, "credential_ref"); }
  }

  lemma ListOfReferences(es: seq<Entry>, outs: seq<Entry>, resolve: Resolver, key: string)
    requires Has(es, key) && FieldIs(key, es, outs, resolve)
    requires key in {"secret_ids", "secret_refs"} || (key == "secrets" && Get(es, key).Arr?)
    ensures Has(outs, CurrentKey(key)) && AreResolved(Get(es, key), Get(outs, CurrentKey(key)), resolve)
  {
    hide IsResolved, AreResolved, AreBound, Migrate, IsSecretField, CurrentKey;
  }

  lemma KeptField(es: seq<Entry>, outs: seq<Entry>, resolve: Resolver, key: string)
    requires Has(es, key) && FieldIs(key, es, outs, resolve) && (key == "secret_bindings" || !IsSecretField(key, Get(es, key)))
    ensures Has(outs, key)
    ensures key == "secret_bindings" ==> AreBound(Get(es, key), Get(outs, key), resolve)
    ensures !IsSecretField(key, Get(es, key)) ==> Migrate(Get(es, key), resolve) == Ok(Get(outs, key))
  {
    hide IsResolved, AreResolved, AreBound, Migrate, IsSecretField;
  }

  lemma OtherFields(es: seq<Entry>, outs: seq<Entry>, resolve: Resolver)
    requires forall k :: Has(es, k) ==> FieldIs(k, es, outs, resolve)
    ensures Has(es, "secret_ids") ==> Has(outs, "secret_ids") && AreResolved(Get(es, "secret_ids"), Get(outs, "secret_ids"), resolve)
    ensures Has(es, "secret_refs") ==> Has(outs, "secret_ids") && AreResolved(Get(es, "secret_refs"), Get(outs, "secret_ids"), resolve)
    ensures Has(es, "secrets") && Get(es, "secrets").Arr? ==>
      Has(outs, "secrets") && AreResolved(Get(es, "secrets"), Get(outs, "secrets"), resolve)
    ensures Has(es, "secret_bindings") ==>
      Has(outs, "secret_bindings") && AreBound(Get(es, "secret_bindings"), Get(outs, "secret_bindings"), resolve)
    ensures forall k :: Has(es, k) && !IsSecretField(k, Get(es, k)) ==> Has(outs, k) && Migrate(Get(es, k), resolve) == Ok(Get(outs, k))
  {
    hide IsResolved, AreResolved, AreBound, Migrate, IsSecretField, FieldIs;
    if Has(es, "secret_ids") { ListOfReferences(es, outs, resolve, "secret_ids"); }
    if Has(es, "secret_refs") { ListOfReferences(es, outs, resolve, "secret_refs"); }
    if Has(es, "secrets") && Get(es, "secrets").Arr? { ListOfReferences(es, outs, resolve, "secrets"); }
    forall k | Has(es, k) && (k == "secret_bindings" || !IsSecretField(k, Get(es, k)))
      ensures Has(outs, k)
      ensures k == "secret_bindings" ==> AreBound(Get(es, k), Get(outs, k), resolve)
      ensures !IsSecretField(k, Get(es, k)) ==> Migrate(Get(es, k), resolve) == Ok(Get(outs, k)) {
      KeptField(es, outs, resolve, k);
    }
  }

  // Field by field, by their names: single references, lists of references, bindings, a `secrets`
  // field that holds a list, and all other fields, which are migrated as payloads of their own.
  lemma FieldsMigrate(es: seq<Entry>, outs: seq<Entry>, resolve: Resolver)
    requires Lawful(resolve) && Migrate(Obj(es), resolve) == Ok(Obj(outs))
    ensures Has(es, "secret_id") ==> Has(outs, "secret_id") && IsResolved(Get(es, "secret_id"), Get(outs, "secret_id"), resolve)
    ensures Has(es, "secret_ref") ==> Has(outs, "secret_id") && IsResolved(Get(es, "secret_ref"), Get(outs, "secret_id"), resolve)
    ensures Has(es, "credential_secret_id") ==>
      Has(outs, "credential_secret_id") && IsResolved(Get(es, "credential_secret_id"), Get(outs, "credential_secret_id"), resolve)
    ensures Has(es, "credential_ref") ==>
      Has(outs, "credential_secret_id") && IsResolved(Get(es, "credential_ref"), Get(outs, "credential_secret_id"), resolve)
    ensures Has(es, "secret_ids") ==> Has(outs, "secret_ids") && AreResolved(Get(es, "secret_ids"), Get(outs, "secret_ids"), resolve)
    ensures Has(es, "secret_refs") ==> Has(outs, "secret_ids") && AreResolved(Get(es, "secret_refs"), Get(outs, "secret_ids"), resolve)
    ensures Has(es, "secrets") && Get(es, "secrets").Arr? ==>
      Has(outs, "secrets") && AreResolved(Get(es, "secrets"), Get(outs, "secrets"), resolve)
    ensures Has(es, "secret_bindings") ==>
      Has(outs, "secret_bindings") && AreBound(Get(es, "secret_bindings"), Get(outs, "secret_bindings"), resolve)
    ensures forall k :: Has(es, k) && !IsSecretField(k, Get(es, k)) ==> Has(outs, k) && Migrate(Get(es, k), resolve) == Ok(Get(outs, k))
  {
    hide IsResolved, AreResolved, AreBound, Migrate, Lawful, FieldIs;
    forall k: string | Has(es, k) ensures FieldIs(k, es, outs, resolve) {
      FieldBecomes(es, outs, resolve, k);
      ValueMeans(k, Get(es, k), resolve);
      FieldFollows(k, es, outs, resolve);
    }
    SingleFields(es, outs, resolve);
    OtherFields(es, outs, resolve);
  }

  lemma OneField(key: string, item: Json, resolve: Resolver)
    ensures MigrateValue(CurrentKey(key), item, resolve).Err? ==>
      Migrate(Obj([Entry(key, item)]), resolve) == Err(MigrateValue(CurrentKey(key), item, resolve).error)
  {
    hide MigrateValue, CurrentKey;
    var es := [Entry(key, item)];
    assert es[..0] == [] && MigrateEntries(es[..0], resolve) == Ok([]);
  }

  // Wrong shapes are refused, each with its own error.
  lemma WrongShapesFail(item: Json, resolve: Resolver)
    ensures !item.Arr? ==> Migrate(Obj([Entry("secret_ids", item)]), resolve) == Err(ExpectedList)
    ensures !item.Arr? ==> Migrate(Obj([Entry("secret_refs", item)]), resolve) == Err(ExpectedList)
    ensures !item.Obj? ==> Migrate(Obj([Entry("secret_bindings", item)]), resolve) == Err(ExpectedObject)
  {
    OneField("secret_ids", item, resolve);
    OneField("secret_refs", item, resolve);
    OneField("secret_bindings", item, resolve);
  }

  // -- The downgrade --

  // `y` is the legacy spelling of the reference `x`: `secret:` in front, unless it is there.
  ghost predicate IsPrefixed(x: Json, y: Json) {
    y == Str(if "secret:" <= PyStr(x) then PyStr(x) else "secret:" + PyStr(x))
  }

  ghost predicate ArePrefixed(x: Json, y: Json) {
    x.Arr? ==> y.Arr? && |x.items| == |y.items| && forall i :: 0 <= i < |x.items| ==> IsPrefixed(x.items[i], y.items[i])
  }

  ghost predicate AreBoundPrefixed(x: Json, y: Json) {
    && x.Obj? && y.Obj? && |x.entries| == |y.entries|
    && forall i :: 0 <= i < |x.entries| ==>
         x.entries[i].key == y.entries[i].key && IsPrefixed(x.entries[i].value, y.entries[i].value)
  }

  // Of the fields that take one name the last one counts.
  lemma {:induction false} LastFieldRestores(es: seq<Entry>, i: nat)
    requires i < |es| && RestoreEntries(es).Ok?
    requires forall j :: i < j < |es| ==> LegacyKey(es[j].key) != LegacyKey(es[i].key)
    ensures var outs := RestoreEntries(es).value;
      Has(outs, LegacyKey(es[i].key)) && RestoreValue(es[i].key, es[i].value) == Ok(Get(outs, LegacyKey(es[i].key)))
  {
    hide RestoreValue, LegacyKey;
    var n := |es| - 1;
    PutGet(RestoreEntries(es[..n]).value, LegacyKey(es[n].key), RestoreValue(es[n].key, es[n].value).value, LegacyKey(es[i].key));
    if i < n {
      LastFieldRestores(es[..n], i);
    }
  }

  // The field under its legacy name, if no other field takes that name.
  ghost predicate OnlyOne(es: seq<Entry>, key: string) {
    Has(es, key) && forall k :: Has(es, k) && k != key ==> LegacyKey(k) != LegacyKey(key)
  }

  lemma FieldRestores(es: seq<Entry>, outs: seq<Entry>, key: string)
    requires Distinct(es) && Restore(Obj(es)) == Ok(Obj(outs)) && OnlyOne(es, key)
    ensures Has(outs, LegacyKey(key)) && RestoreValue(key, Get(es, key)) == Ok(Get(outs, LegacyKey(key)))
  {
    hide LegacyKey, RestoreValue;
    FindIsFirst(es, key);
    var i := Find(es, key);
    forall j | i < j < |es| ensures LegacyKey(es[j].key) != LegacyKey(es[i].key) {
      FindAt(es, j);
    }
    LastFieldRestores(es, i);
  }

  lemma LegacyNamesAre(es: seq<Entry>)
    ensures Has(es, "secret_id") && !Has(es, "secret_ref") ==> OnlyOne(es, "secret_id") && LegacyKey("secret_id") == "secret_ref"
    ensures Has(es, "credential_secret_id") && !Has(es, "credential_ref") ==>
      OnlyOne(es, "credential_secret_id") && LegacyKey("credential_secret_id") == "credential_ref"
    ensures Has(es, "secret_ids") && !Has(es, "secret_refs") ==> OnlyOne(es, "secret_ids") && LegacyKey("secret_ids") == "secret_refs"
    ensures Has(es, "secrets") ==> OnlyOne(es, "secrets") && LegacyKey("secrets") == "secrets"
    ensures Has(es, "secret_bindings") ==> OnlyOne(es, "secret_bindings") && LegacyKey("secret_bindings") == "secret_bindings"
  {
  }

  lemma OtherNames(es: seq<Entry>, k: string)
    requires Has(es, k) && !IsSecretField(k, Get(es, k))
    ensures OnlyOne(es, k) && LegacyKey(k) == k
  {
  }

  lemma NoCurrentNames(es: seq<Entry>, outs: seq<Entry>)
    requires Restore(Obj(es)) == Ok(Obj(outs))
    ensures forall k :: Has(outs, k) ==> k !in {"secret_id", "secret_ids", "credential_secret_id"}
  {
    RestoreLands(Obj(es));
    forall k | Has(outs, k) ensures !IsRenamedKey(k) {
      FindIsFirst(outs, k);
      assert RestoredIn(outs[Find(outs, k)].key, outs[Find(outs, k)].value);
    }
  }

  ghost predicate RestoredMeans(key: string, item: Json) {
    RestoreValue(key, item).Ok? ==>
      var u := RestoreValue(key, item).value;
      && (key in {"secret_id", "credential_secret_id"} ==> IsPrefixed(item, u))
      && (key == "secret_ids" || key == "secrets" ==> ArePrefixed(item, u))
      && (key == "secret_bindings" ==> AreBoundPrefixed(item, u))
      && (!IsSecretField(key, item) ==> Restore(item) == Ok(u))
  }

  lemma RestoredValueMeans(key: string, item: Json)
    ensures RestoredMeans(key, item)
  {
  }

  // Field by field, by their names, where a current field does not meet its own legacy field.
  lemma FieldsRestore(es: seq<Entry>, outs: seq<Entry>)
    requires Distinct(es) && Restore(Obj(es)) == Ok(Obj(outs))
    ensures Has(es, "secret_id") && !Has(es, "secret_ref") ==>
      Has(outs, "secret_ref") && IsPrefixed(Get(es, "secret_id"), Get(outs, "secret_ref"))
    ensures Has(es, "credential_secret_id") && !Has(es, "credential_ref") ==>
      Has(outs, "credential_ref") && IsPrefixed(Get(es, "credential_secret_id"), Get(outs, "credential_ref"))
    ensures Has(es, "secret_ids") && !Has(es, "secret_refs") ==>
      Has(outs, "secret_refs") && ArePrefixed(Get(es, "secret_ids"), Get(outs, "secret_refs"))
    ensures Has(es, "secrets") ==> Has(outs, "secrets") && ArePrefixed(Get(es, "secrets"), Get(outs, "secrets"))
    ensures Has(es, "secret_bindings") ==>
      Has(outs, "secret_bindings") && AreBoundPrefixed(Get(es, "secret_bindings"), Get(outs, "secret_bindings"))
    ensures forall k :: Has(es, k) && !IsSecretField(k, Get(es, k)) ==> Has(outs, k) && Restore(Get(es, k)) == Ok(Get(outs, k))
    ensures !Has(outs, "secret_id") && !Has(outs, "secret_ids") && !Has(outs, "credential_secret_id")
  {
    hide OnlyOne, Restore, RestoreValue, IsPrefixed, ArePrefixed, AreBoundPrefixed;
    LegacyNamesAre(es);
    forall k: string | Has(es, k) && OnlyOne(es, k)
      ensures Has(outs, LegacyKey(k)) && RestoreValue(k, Get(es, k)) == Ok(Get(outs, LegacyKey(k))) {
      FieldRestores(es, outs, k);
    }
    forall k: string | Has(es, k) ensures RestoredMeans(k, Get(es, k)) && (!IsSecretField(k, Get(es, k)) ==> OnlyOne(es, k) && LegacyKey(k) == k) {
      RestoredValueMeans(k, Get(es, k));
      if !IsSecretField(k, Get(es, k)) {
        OtherNames(es, k);
      }
    }
    NoCurrentNames(es, outs);
  }

  lemma OneFieldRestores(key: string, item: Json)
    ensures Restore(Obj([Entry(key, item)])) ==
      if RestoreValue(key, item).Ok? then Ok(Obj([Entry(LegacyKey(key), RestoreValue(key, item).value)]))
      else Err(RestoreValue(key, item).error)
  {
    hide RestoreValue, LegacyKey;
    var es := [Entry(key, item)];
    assert es[..0] == [] && RestoreEntries(es[..0]) == Ok([]);
    assert forall k, v :: Put([], k, v) == [Entry(k, v)];
  }

  lemma ShortIsUnprefixed(text: string)
    requires |text| < 7
    ensures LegacyRef(text) == "secret:" + text
  {
  }

  // `y` is the legacy list made of the given texts.
  ghost predicate IsLegacyList(texts: seq<string>, y: Json) {
    y.Arr? && |y.items| == |texts| && forall i :: 0 <= i < |texts| ==> IsPrefixed(Str(texts[i]), y.items[i])
  }

  ghost predicate IsRestoredList(r: Result<Json, Failure>, texts: seq<string>) {
    r.Ok? && r.value.Obj? && |r.value.entries| == 1 && r.value.entries[0].key == "secret_refs"
    && IsLegacyList(texts, r.value.entries[0].value)
  }

  // What Python makes of a `secret_ids` that is no list: it iterates over the characters of a text
  // and the keys of a dict, and fails on anything else, as it does on bindings that are no dict.
  lemma OddShapesRestore(item: Json)
    ensures item.Str? ==>
      IsRestoredList(Restore(Obj([Entry("secret_ids", item)])), seq(|item.s|, i requires 0 <= i < |item.s| => [item.s[i]]))
    ensures item.Obj? ==>
      IsRestoredList(Restore(Obj([Entry("secret_ids", item)])), seq(|item.entries|, i requires 0 <= i < |item.entries| => item.entries[i].key))
    ensures !item.Arr? && !item.Str? && !item.Obj? ==> Restore(Obj([Entry("secret_ids", item)])) == Err(PythonTypeError)
    ensures !item.Obj? ==> Restore(Obj([Entry("secret_bindings", item)])) == Err(PythonTypeError)
  {
    OneFieldRestores("secret_ids", item);
    OneFieldRestores("secret_bindings", item);
    hide Restore;
    if item.Str? || item.Obj? {
      assert RestoreValue("secret_ids", item) == RestoreRefs(item);
    }
  }
}
