// When a dict's legacy and current fields clash, how much merging shrinks it, and what a
// migrated value may depend on.
module SecretConflicts {
  import opened Results
  import opened JsonValues
  import opened SecretPayloads
  import opened SecretRoundTrips
  import opened SecretEquality

  lemma NamesCollideOnlyInPairs(k: string, k': string)
    requires k != k' && CurrentKey(k) == CurrentKey(k')
    ensures (IsLegacyKey(k) && k' == CurrentKey(k)) || (IsLegacyKey(k') && k == CurrentKey(k'))
  {
  }

  ghost predicate Clash(legacy: Entry, current: Entry, resolve: Resolver) {
    && IsLegacyKey(legacy.key) && current.key == CurrentKey(legacy.key)
    && MigrateValue(current.key, legacy.value, resolve) != MigrateValue(current.key, current.value, resolve)
  }

  lemma {:induction false} OnlyConflictsFail(es: seq<Entry>, resolve: Resolver)
    requires forall i :: 0 <= i < |es| ==> MigrateValue(CurrentKey(es[i].key), es[i].value, resolve).Ok?
    ensures MigrateEntries(es, resolve).Ok? || MigrateEntries(es, resolve) == Err(Conflict)
  {
    hide MigrateValue, CurrentKey;
    if es == [] {
    } else {
      OnlyConflictsFail(es[..|es| - 1], resolve);
    }
  }

  lemma NoClashWhenMigrated(es: seq<Entry>, i: nat, j: nat, resolve: Resolver)
    requires i < |es| && j < |es| && MigrateEntries(es, resolve).Ok?
    ensures !Clash(es[i], es[j], resolve)
  {
    hide MigrateValue;
    EntriesHold(es, resolve);
    KeysInvert(es[i].key);
    assert FieldMigrated(es[i], MigrateEntries(es, resolve).value, resolve);
    assert FieldMigrated(es[j], MigrateEntries(es, resolve).value, resolve);
  }

  // A dict whose values all migrate is refused exactly when it holds a legacy field and its
  // current counterpart whose migrated values differ; the refusal is then a conflict.
  lemma ConflictExactly(es: seq<Entry>, resolve: Resolver)
    requires Distinct(es)
    requires forall i :: 0 <= i < |es| ==> MigrateValue(CurrentKey(es[i].key), es[i].value, resolve).Ok?
    ensures MigrateEntries(es, resolve).Err? <==> exists i, j :: 0 <= i < |es| && 0 <= j < |es| && Clash(es[i], es[j], resolve)
    ensures MigrateEntries(es, resolve).Err? ==> MigrateEntries(es, resolve) == Err(Conflict)
  {
    hide MigrateValue;
    OnlyConflictsFail(es, resolve);
    if !exists i, j :: 0 <= i < |es| && 0 <= j < |es| && Clash(es[i], es[j], resolve) {
      forall i, j | 0 <= i < j < |es| && CurrentKey(es[i].key) == CurrentKey(es[j].key)
        ensures MigrateValue(CurrentKey(es[i].key), es[i].value, resolve) == MigrateValue(CurrentKey(es[j].key), es[j].value, resolve) {
        NamesCollideOnlyInPairs(es[i].key, es[j].key);
        assert !Clash(es[i], es[j], resolve) && !Clash(es[j], es[i], resolve);
      }
      EntriesSucceed(es, resolve);
    } else if MigrateEntries(es, resolve).Ok? {
      forall i, j | 0 <= i < |es| && 0 <= j < |es| ensures !Clash(es[i], es[j], resolve) {
        NoClashWhenMigrated(es, i, j, resolve);
      }
    }
  }

  // -- Acceptance at every depth --

  // Which ids are live: what a resolver is asked to look up.
  type Scope = string -> bool

  // The resolver accepts exactly the well-formed ids of the scope, and says which half fails.
  ghost predicate Serves(resolve: Resolver, scope: Scope) {
    forall raw :: resolve(raw) ==
      if !IsSecretId(Candidate(raw)) then Err(InvalidReference)
      else if !scope(Candidate(raw)) then Err(OutOfScope)
      else Ok(Candidate(raw))
  }

  predicate Resolves(item: Json, scope: Scope) {
    IsSecretId(Candidate(PyStr(item))) && scope(Candidate(PyStr(item)))
  }

  // Two values for one renamed field name the same secrets, whatever the spelling.
  predicate SameSecrets(key: string, a: Json, b: Json) {
    match KindOf(key, a)
    case Many =>
      a.Arr? && b.Arr? && |a.items| == |b.items|
      && forall i :: 0 <= i < |a.items| ==> Candidate(PyStr(a.items[i])) == Candidate(PyStr(b.items[i]))
    case _ => Candidate(PyStr(a)) == Candidate(PyStr(b))
  }

  // A legacy field and its current one that name different secrets.
  ghost predicate Disagree(legacy: Entry, current: Entry) {
    IsLegacyKey(legacy.key) && current.key == CurrentKey(legacy.key) && !SameSecrets(current.key, legacy.value, current.value)
  }

  // Every reference names a live secret, every list of secrets is a list and every set of bindings a
  // dict, and no dict the recursion reaches has a legacy field that disagrees with its current one.
  ghost predicate Acceptable(v: Json, scope: Scope)
    decreases v, 1
  {
    match v
    case Arr(items) => forall i :: 0 <= i < |items| ==> Acceptable(items[i], scope)
    case Obj(es) =>
      && (forall i :: 0 <= i < |es| ==> AcceptableIn(CurrentKey(es[i].key), es[i].value, scope))
      && forall i, j :: 0 <= i < |es| && 0 <= j < |es| ==> !Disagree(es[i], es[j])
    case _ => true
  }

  ghost predicate AcceptableIn(key: string, item: Json, scope: Scope)
    decreases item, 2
  {
    if key == "secret_id" || key == "credential_secret_id" then Resolves(item, scope)
    else if key == "secret_ids" || (key == "secrets" && item.Arr?) then
      item.Arr? && forall i :: 0 <= i < |item.items| ==> Resolves(item.items[i], scope)
    else if key == "secret_bindings" then
      item.Obj? && forall i :: 0 <= i < |item.entries| ==> Resolves(item.entries[i].value, scope)
    else Acceptable(item, scope)
  }

  lemma RefMigratesExactly(item: Json, resolve: Resolver, scope: Scope)
    requires Serves(resolve, scope)
    ensures MigrateRef(item, resolve).Ok? <==> Resolves(item, scope)
  {
  }

  lemma {:induction false} RefsMigrate(items: seq<Json>, resolve: Resolver, scope: Scope)
    requires Serves(resolve, scope)
    ensures MigrateRefs(items, resolve).Ok? <==> forall i :: 0 <= i < |items| ==> Resolves(items[i], scope)
  {
    hide Serves, Resolves, MigrateRef;
    if items == [] {
    } else {
      RefsMigrate(items[..|items| - 1], resolve, scope);
      RefMigratesExactly(items[|items| - 1], resolve, scope);
    }
  }

  lemma {:induction false} BindingsMigrate(es: seq<Entry>, resolve: Resolver, scope: Scope)
    requires Serves(resolve, scope)
    ensures MigrateBindings(es, resolve).Ok? <==> forall i :: 0 <= i < |es| ==> Resolves(es[i].value, scope)
  {
    hide Serves, Resolves, MigrateRef;
    if es == [] {
    } else {
      BindingsMigrate(es[..|es| - 1], resolve, scope);
      RefMigratesExactly(es[|es| - 1].value, resolve, scope);
    }
  }

  lemma {:induction false} ItemsMigrate(items: seq<Json>, resolve: Resolver)
    ensures MigrateItems(items, resolve).Ok? <==> forall i :: 0 <= i < |items| ==> Migrate(items[i], resolve).Ok?
  {
    if items == [] {
    } else {
      ItemsMigrate(items[..|items| - 1], resolve);
    }
  }

  // Fields that both migrate clash exactly when they name different secrets.
  lemma ClashExactly(legacy: Entry, current: Entry, resolve: Resolver)
    requires Lawful(resolve) && IsLegacyKey(legacy.key) && current.key == CurrentKey(legacy.key)
    requires MigrateValue(current.key, legacy.value, resolve).Ok? && MigrateValue(current.key, current.value, resolve).Ok?
    ensures Clash(legacy, current, resolve) <==> Disagree(legacy, current)
  {
    hide Candidate, PyStr;
    var a, b := legacy.value, current.value;
    if KindOf(current.key, a).Many? {
      var x, y := MigrateRefs(a.items, resolve).value, MigrateRefs(b.items, resolve).value;
      RefsPointwise(a.items, x, resolve);
      RefsPointwise(b.items, y, resolve);
      forall i | 0 <= i < |a.items| ensures x[i] == Str(Candidate(PyStr(a.items[i]))) {
        assert MigrateRef(a.items[i], resolve) == Ok(x[i]) && LawfulAt(resolve, PyStr(a.items[i]));
      }
      forall i | 0 <= i < |b.items| ensures y[i] == Str(Candidate(PyStr(b.items[i]))) {
        assert MigrateRef(b.items[i], resolve) == Ok(y[i]) && LawfulAt(resolve, PyStr(b.items[i]));
      }
      if SameSecrets(current.key, a, b) {
        assert x == y;
      }
    } else {
      assert LawfulAt(resolve, PyStr(a)) && LawfulAt(resolve, PyStr(b));
    }
  }

  lemma CurrentStays(key: string)
    requires !IsLegacyKey(key)
    ensures CurrentKey(key) == key
  {
  }

  // A dict migrates exactly when its values do and no two of its fields disagree.
  lemma DictMigratesExactly(es: seq<Entry>, resolve: Resolver)
    requires Lawful(resolve) && Distinct(es)
    ensures MigrateEntries(es, resolve).Ok? <==>
      && (forall i :: 0 <= i < |es| ==> MigrateValue(CurrentKey(es[i].key), es[i].value, resolve).Ok?)
      && forall i, j :: 0 <= i < |es| && 0 <= j < |es| ==> !Disagree(es[i], es[j])
  {
    hide MigrateValue, CurrentKey, SameSecrets;
    if MigrateEntries(es, resolve).Ok? {
      EntriesHold(es, resolve);
      forall i | 0 <= i < |es| ensures MigrateValue(CurrentKey(es[i].key), es[i].value, resolve).Ok? {
        assert FieldMigrated(es[i], MigrateEntries(es, resolve).value, resolve);
      }
    }
    if forall i :: 0 <= i < |es| ==> MigrateValue(CurrentKey(es[i].key), es[i].value, resolve).Ok? {
      ConflictExactly(es, resolve);
      forall i, j | 0 <= i < |es| && 0 <= j < |es| ensures Clash(es[i], es[j], resolve) <==> Disagree(es[i], es[j]) {
        if IsLegacyKey(es[i].key) && es[j].key == CurrentKey(es[i].key) {
          KeysInvert(es[i].key);
          CurrentStays(es[j].key);
          ClashExactly(es[i], es[j], resolve);
        }
      }
    }
  }

  // The exact condition under which a payload of any depth migrates.
  lemma {:induction false} MigratesExactly(v: Json, resolve: Resolver, scope: Scope)
    requires Lawful(resolve) && Serves(resolve, scope) && Sound(v)
    ensures Migrate(v, resolve).Ok? <==> Acceptable(v, scope)
    decreases v, 1
  {
    hide Serves, Lawful, MigrateValue, AcceptableIn;
    match v
    case Arr(items) =>
      ItemsMigrate(items, resolve);
      forall i | 0 <= i < |items| ensures Migrate(items[i], resolve).Ok? <==> Acceptable(items[i], scope) {
        MigratesExactly(items[i], resolve, scope);
      }
    case Obj(es) =>
      DictMigratesExactly(es, resolve);
      forall i | 0 <= i < |es|
        ensures MigrateValue(CurrentKey(es[i].key), es[i].value, resolve).Ok? <==> AcceptableIn(CurrentKey(es[i].key), es[i].value, scope) {
        FieldMigratesExactly(CurrentKey(es[i].key), es[i].value, resolve, scope);
      }
    case _ =>
  }

  lemma {:induction false} FieldMigratesExactly(key: string, item: Json, resolve: Resolver, scope: Scope)
    requires Lawful(resolve) && Serves(resolve, scope) && Sound(item)
    ensures MigrateValue(key, item, resolve).Ok? <==> AcceptableIn(key, item, scope)
    decreases item, 2
  {
    hide Serves, Lawful, Resolves, MigrateRef;
    match KindOf(key, item)
    case One => RefMigratesExactly(item, resolve, scope);
    case Many => if item.Arr? { RefsMigrate(item.items, resolve, scope); }
    case Bound => if item.Obj? { BindingsMigrate(item.entries, resolve, scope); }
    case Plain => MigratesExactly(item, resolve, scope);
  }

  // -- The size of a merged dict --

  // The other name of a renamed field, under which it would collide; "" for any other key.
  function OtherName(key: string): string {
    if IsLegacyKey(key) then CurrentKey(key) else if IsRenamedKey(key) then LegacyKey(key) else ""
  }

  // How many fields of the dict appear under both their names.
  function PairCount(es: seq<Entry>): nat {
    if es == [] then 0
    else
      var init, last := es[..|es| - 1], es[|es| - 1].key;
      PairCount(init) + if OtherName(last) != "" && Has(init, OtherName(last)) then 1 else 0
  }

  lemma TakenNames(es: seq<Entry>, resolve: Resolver)
    requires Distinct(es) && es != [] && MigrateEntries(es[..|es| - 1], resolve).Ok?
    ensures var last := es[|es| - 1].key;
      Has(MigrateEntries(es[..|es| - 1], resolve).value, CurrentKey(last)) <==>
        OtherName(last) != "" && Has(es[..|es| - 1], OtherName(last))
  {
    hide MigrateValue;
    var init, last := es[..|es| - 1], es[|es| - 1].key;
    var done := MigrateEntries(init, resolve).value;
    FindIsFirst(init, OtherName(last));
    if Has(done, CurrentKey(last)) {
      var i := EntriesHoldOnly(init, resolve, CurrentKey(last));
      NamesCollideOnlyInPairs(init[i].key, last);
      KeysInvert(init[i].key);
      assert init[i].key == OtherName(last);
    }
    if OtherName(last) != "" && Has(init, OtherName(last)) {
      EntriesHold(init, resolve);
      KeysInvert(last);
      assert FieldMigrated(init[Find(init, OtherName(last))], done, resolve);
    }
  }

  // Merging takes one entry away for every such pair, and no other.
  lemma {:induction false} MergingShrinksByPairs(es: seq<Entry>, resolve: Resolver)
    requires Distinct(es) && MigrateEntries(es, resolve).Ok?
    ensures |MigrateEntries(es, resolve).value| == |es| - PairCount(es)
  {
    hide MigrateValue, CurrentKey, OtherName, FieldMigrated;
    if es == [] {
    } else {
      var n := |es| - 1;
      MergingShrinksByPairs(es[..n], resolve);
      TakenNames(es, resolve);
    }
  }

  // -- What a migrated value depends on --

  // The scope only decides whether a payload is accepted: two resolvers that both accept it
  // produce the same result.
  lemma {:induction false} ScopeOnlyAccepts(v: Json, r: Resolver, r': Resolver)
    requires Lawful(r) && Lawful(r') && Migrate(v, r).Ok? && Migrate(v, r').Ok?
    ensures Migrate(v, r) == Migrate(v, r')
    decreases v, 1
  {
    match v
    case Arr(items) => ItemsScope(items, r, r');
    case Obj(es) => EntriesScope(es, r, r');
    case _ =>
  }

  lemma {:induction false} ItemsScope(items: seq<Json>, r: Resolver, r': Resolver)
    requires Lawful(r) && Lawful(r') && MigrateItems(items, r).Ok? && MigrateItems(items, r').Ok?
    ensures MigrateItems(items, r) == MigrateItems(items, r')
    decreases items, 0
  {
    if items == [] {
    } else {
      ItemsScope(items[..|items| - 1], r, r');
      ScopeOnlyAccepts(items[|items| - 1], r, r');
    }
  }

  lemma {:induction false} EntriesScope(es: seq<Entry>, r: Resolver, r': Resolver)
    requires Lawful(r) && Lawful(r') && MigrateEntries(es, r).Ok? && MigrateEntries(es, r').Ok?
    ensures MigrateEntries(es, r) == MigrateEntries(es, r')
    decreases es, 0
  {
    hide MigrateValue, CurrentKey;
    if es == [] {
    } else {
      EntriesScope(es[..|es| - 1], r, r');
      ValueScope(CurrentKey(es[|es| - 1].key), es[|es| - 1].value, r, r');
    }
  }

  lemma RefScope(item: Json, r: Resolver, r': Resolver)
    requires Lawful(r) && Lawful(r') && MigrateRef(item, r).Ok? && MigrateRef(item, r').Ok?
    ensures MigrateRef(item, r) == MigrateRef(item, r')
  {
    assert LawfulAt(r, PyStr(item)) && LawfulAt(r', PyStr(item));
  }

  lemma {:induction false} ValueScope(key: string, item: Json, r: Resolver, r': Resolver)
    requires Lawful(r) && Lawful(r') && MigrateValue(key, item, r).Ok? && MigrateValue(key, item, r').Ok?
    ensures MigrateValue(key, item, r) == MigrateValue(key, item, r')
    decreases item, 2
  {
    match KindOf(key, item)
    case One => RefScope(item, r, r');
    case Many =>
      var outs := MigrateRefs(item.items, r).value;
      RefsPointwise(item.items, outs, r);
      RefsPointwise(item.items, MigrateRefs(item.items, r').value, r');
      forall i | 0 <= i < |outs| ensures MigrateRef(item.items[i], r') == Ok(outs[i]) {
        RefScope(item.items[i], r, r');
      }
      RefsPointwise(item.items, outs, r');
    case Bound =>
      var outs := MigrateBindings(item.entries, r).value;
      var outs' := MigrateBindings(item.entries, r').value;
      BindingsPointwise(item.entries, outs, r);
      BindingsPointwise(item.entries, outs', r');
      forall i | 0 <= i < |outs| ensures BindingMigrates(item.entries[i], outs[i], r') {
        assert BindingMigrates(item.entries[i], outs[i], r) && BindingMigrates(item.entries[i], outs'[i], r');
        RefScope(item.entries[i].value, r, r');
      }
      BindingsPointwise(item.entries, outs, r');
    case Plain => ScopeOnlyAccepts(item, r, r');
  }
}
