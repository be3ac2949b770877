// Where every part of a payload goes: the migration keeps list lengths, nesting and every
// non-secret leaf at the renamed path, and invents nothing.
module SecretPaths {
  import opened Results
  import opened JsonValues
  import opened SecretPayloads
  import opened SecretRoundTrips

  datatype Step = Key(name: string) | Index(i: nat)

  function At(v: Json, path: seq<Step>): Option<Json>
    decreases |path|
  {
    if path == [] then Some(v)
    else match (v, path[0])
      case (Arr(items), Index(i)) => if i < |items| then At(items[i], path[1..]) else None
      case (Obj(es), Key(k)) => if Has(es, k) then At(Get(es, k), path[1..]) else None
      case _ => None
  }

  // Renaming a path: every field name along it, except the parameter names inside `secret_bindings`.
  function Renamed(path: seq<Step>, parameters: bool): seq<Step>
    decreases |path|
  {
    if path == [] then []
    else match path[0]
      case Index(_) => [path[0]] + Renamed(path[1..], false)
      case Key(k) =>
        if parameters then [path[0]] + Renamed(path[1..], false)
        else [Key(CurrentKey(k))] + Renamed(path[1..], CurrentKey(k) == "secret_bindings")
  }

  // The path leads to a secret reference of the payload: the value of a field that holds one, or
  // an element of one that holds several. `secrets` is such a field only if it holds a list.
  predicate IsSecret(v: Json, path: seq<Step>)
    decreases |path|
  {
    if path == [] then false
    else match (v, path[0])
      case (Arr(items), Index(i)) => i < |items| && IsSecret(items[i], path[1..])
      case (Obj(es), Key(k)) =>
        Has(es, k) &&
        (if k == "secret_id" || k == "secret_ref" || k == "credential_secret_id" || k == "credential_ref" then |path| == 1
         else if k == "secret_ids" || k == "secret_refs" || k == "secret_bindings" || (k == "secrets" && Get(es, k).Arr?) then |path| == 2
         else IsSecret(Get(es, k), path[1..]))
      case _ => false
  }

  // What becomes of the value `x` found at a path, as seen at the renamed path.
  ghost predicate Follows(x: Json, secret: bool, y: Option<Json>) {
    && y.Some?
    && if secret then x.Str? && y.value == Str(Candidate(x.s))
       else match x
         case Arr(items) => y.value.Arr? && |y.value.items| == |items|
         case Obj(_) => y.value.Obj?
         case _ => y.value == x
  }

  lemma PathIntoItem(items: seq<Json>, path: seq<Step>)
    requires path != [] && At(Arr(items), path).Some?
    ensures path[0].Index? && path[0].i < |items| && At(items[path[0].i], path[1..]) == At(Arr(items), path)
  {
  }

  lemma DictField(es: seq<Entry>, k: string, resolve: Resolver)
    requires MigrateEntries(es, resolve).Ok? && Has(es, k) && Sound(Obj(es))
    ensures var outs := MigrateEntries(es, resolve).value;
      Has(outs, CurrentKey(k)) && MigrateValue(CurrentKey(k), Get(es, k), resolve) == Ok(Get(outs, CurrentKey(k)))
    ensures !IsLegacyKey(CurrentKey(k)) && Sound(Get(es, k)) && Get(es, k) < Obj(es)
  {
    FindIsFirst(es, k);
    EntriesHold(es, resolve);
    KeysInvert(k);
    assert FieldMigrated(es[Find(es, k)], MigrateEntries(es, resolve).value, resolve);
  }

  // The same, below a field of the given (current) name.
  predicate IsSecretIn(key: string, item: Json, path: seq<Step>) {
    if key == "secret_id" || key == "credential_secret_id" then path == []
    else if key == "secret_ids" || key == "secret_bindings" || (key == "secrets" && item.Arr?) then |path| == 1
    else IsSecret(item, path)
  }

  lemma SecretBelow(es: seq<Entry>, path: seq<Step>)
    requires path != [] && path[0].Key? && Has(es, path[0].name)
    ensures IsSecret(Obj(es), path) <==> IsSecretIn(CurrentKey(path[0].name), Get(es, path[0].name), path[1..])
  {
  }

  // One step of a path, before and after the renaming.
  lemma StepIntoDict(es: seq<Entry>, outs: seq<Entry>, path: seq<Step>)
    requires path != [] && path[0].Key? && Has(es, path[0].name) && Has(outs, CurrentKey(path[0].name))
    ensures var k := path[0].name;
      && At(Obj(es), path) == At(Get(es, k), path[1..])
      && IsSecret(Obj(es), path) == IsSecretIn(CurrentKey(k), Get(es, k), path[1..])
      && At(Obj(outs), Renamed(path, false)) ==
           At(Get(outs, CurrentKey(k)), Renamed(path[1..], CurrentKey(k) == "secret_bindings"))
  {
    SecretBelow(es, path);
    hide CurrentKey, KindOf, IsSecret, IsSecretIn;
    var k := path[0].name;
    var renamed := Renamed(path, false);
    assert renamed[1..] == Renamed(path[1..], CurrentKey(k) == "secret_bindings");
  }

  lemma RenamedTail(path: seq<Step>)
    requires path != [] && path[0].Index?
    ensures Renamed(path, false)[0] == path[0] && Renamed(path, false)[1..] == Renamed(path[1..], false)
  {
  }

  // Every path of the payload leads, renamed, to the matching part of the migrated payload.
  lemma {:induction false} PathsSurvive(v: Json, path: seq<Step>, resolve: Resolver)
    requires Lawful(resolve) && Sound(v) && Migrate(v, resolve).Ok? && At(v, path).Some?
    ensures Follows(At(v, path).value, IsSecret(v, path), At(Migrate(v, resolve).value, Renamed(path, false)))
    decreases v, 1
  {
    var w := Migrate(v, resolve).value;
    match v
    case Arr(items) =>
      ItemsPointwise(items, w.items, resolve);
      if path != [] {
        PathIntoItem(items, path);
        PathsSurvive(items[path[0].i], path[1..], resolve);
        RenamedTail(path);
      }
    case Obj(es) =>
      if path != [] {
        var k := path[0].name;
        DictField(es, k, resolve);
        PathsSurviveField(CurrentKey(k), Get(es, k), path[1..], resolve);
        StepIntoDict(es, w.entries, path);
      }
    case _ => assert path == [];
  }

  // A migrated reference was a text, with nothing below it.
  lemma RefFollows(item: Json, path: seq<Step>, resolve: Resolver)
    requires Lawful(resolve) && MigrateRef(item, resolve).Ok? && At(item, path).Some?
    ensures path == [] && Follows(item, true, Some(MigrateRef(item, resolve).value))
  {
    RefMigrates(item, resolve);
    assert LawfulAt(resolve, PyStr(item));
  }

  lemma BoundPathSurvives(es: seq<Entry>, outs: seq<Entry>, path: seq<Step>, resolve: Resolver)
    requires Lawful(resolve) && |outs| == |es| && forall i :: 0 <= i < |es| ==> BindingMigrates(es[i], outs[i], resolve)
    requires path != [] && At(Obj(es), path).Some?
    ensures |path| == 1 && Renamed(path, true) == path && Follows(At(Obj(es), path).value, true, At(Obj(outs), path))
  {
    hide Candidate;
    var k := path[0].name;
    FindIsFirst(es, k);
    SameKeysSameFind(es, outs, k);
    var i := Find(es, k);
    assert BindingMigrates(es[i], outs[i], resolve);
    RefFollows(es[i].value, path[1..], resolve);
    assert path == [path[0]];
  }

  lemma {:induction false} PathsSurviveField(key: string, item: Json, path: seq<Step>, resolve: Resolver)
    requires Lawful(resolve) && Sound(item) && MigrateValue(key, item, resolve).Ok? && At(item, path).Some?
    requires !IsLegacyKey(key)
    ensures Follows(At(item, path).value, IsSecretIn(key, item, path),
                    At(MigrateValue(key, item, resolve).value, Renamed(path, key == "secret_bindings")))
    decreases item, 2
  {
    var w := MigrateValue(key, item, resolve).value;
    match KindOf(key, item)
    case One =>
      RefFollows(item, path, resolve);
    case Many =>
      RefsPointwise(item.items, w.items, resolve);
      if path != [] {
        PathIntoItem(item.items, path);
        RefFollows(item.items[path[0].i], path[1..], resolve);
        RenamedTail(path);
      }
    case Bound =>
      BindingsPointwise(item.entries, w.entries, resolve);
      if path != [] {
        BoundPathSurvives(item.entries, w.entries, path, resolve);
      }
    case Plain =>
      PathsSurvive(item, path, resolve);
      assert key != "secret_bindings";
  }

  // Every path of the migrated payload is the renaming of a path of the original.
  lemma {:induction false} NothingInvented(v: Json, path: seq<Step>, resolve: Resolver) returns (origin: seq<Step>)
    requires Lawful(resolve) && Sound(v) && Migrate(v, resolve).Ok? && At(Migrate(v, resolve).value, path).Some?
    ensures At(v, origin).Some? && Renamed(origin, false) == path
    decreases v, 1
  {
    origin := [];
    if path == [] {
    } else {
      match v
      case Arr(items) =>
        var outs := MigrateItems(items, resolve).value;
        ItemsPointwise(items, outs, resolve);
        PathIntoItem(outs, path);
        var rest := NothingInvented(items[path[0].i], path[1..], resolve);
        origin := [path[0]] + rest;
        assert origin[1..] == rest && path == [path[0]] + path[1..];
      case Obj(es) =>
        var outs := MigrateEntries(es, resolve).value;
        var i := EntriesHoldOnly(es, resolve, path[0].name);
        FindAt(es, i);
        DictField(es, es[i].key, resolve);
        var rest := NothingInventedInField(path[0].name, es[i].value, path[1..], resolve);
        origin := [Key(es[i].key)] + rest;
        assert origin[1..] == rest && path == [path[0]] + path[1..];
      case _ => assert false;
    }
  }

  lemma BoundPathWasThere(es: seq<Entry>, outs: seq<Entry>, path: seq<Step>, resolve: Resolver)
    requires |outs| == |es| && forall i :: 0 <= i < |es| ==> BindingMigrates(es[i], outs[i], resolve)
    requires path != [] && At(Obj(outs), path).Some?
    ensures At(Obj(es), path).Some? && Renamed(path, true) == path
  {
    hide Candidate;
    var k := path[0].name;
    SameKeysSameFind(es, outs, k);
    assert BindingMigrates(es[Find(es, k)], outs[Find(es, k)], resolve);
    assert path[1..] == [] && path == [path[0]];
  }

  lemma {:induction false} NothingInventedInField(key: string, item: Json, path: seq<Step>, resolve: Resolver)
    returns (origin: seq<Step>)
    requires Lawful(resolve) && Sound(item) && MigrateValue(key, item, resolve).Ok? && !IsLegacyKey(key)
    requires At(MigrateValue(key, item, resolve).value, path).Some?
    ensures At(item, origin).Some? && Renamed(origin, key == "secret_bindings") == path
    decreases item, 2
  {
    var w := MigrateValue(key, item, resolve).value;
    match KindOf(key, item)
    case One => origin := [];
    case Many =>
      RefsPointwise(item.items, w.items, resolve);
      origin := path;
      if path != [] {
        PathIntoItem(w.items, path);
        assert MigrateRef(item.items[path[0].i], resolve) == Ok(w.items[path[0].i]);
        assert path[1..] == [] && path == [path[0]];
      }
    case Bound =>
      BindingsPointwise(item.entries, w.entries, resolve);
      origin := path;
      if path != [] {
        BoundPathWasThere(item.entries, w.entries, path, resolve);
      }
    case Plain => origin := NothingInvented(item, path, resolve);
  }

  // -- Scope soundness --

  // Wherever a secret stands in a canonical payload, it is an id the resolver accepts.
  lemma {:induction false} SecretsAreLive(w: Json, path: seq<Step>, resolve: Resolver)
    requires Canonical(w, resolve) && At(w, path).Some? && IsSecret(w, path)
    ensures LiveRef(At(w, path).value, resolve)
    decreases |path|
  {
    match w
    case Arr(items) => SecretsAreLive(items[path[0].i], path[1..], resolve);
    case Obj(es) =>
      var k := path[0].name;
      FindIsFirst(es, k);
      var item := es[Find(es, k)].value;
      assert CanonicalField(k, item, resolve);
      match KindOf(k, item) {
        case One =>
        case Many => assert At(item, path[1..]) == Some(item.items[path[1].i]);
        case Bound =>
          FindIsFirst(item.entries, path[1].name);
          assert At(item, path[1..]) == Some(Get(item.entries, path[1].name));
        case Plain => SecretsAreLive(item, path[1..], resolve);
      }
    case _ => assert false;
  }
}
