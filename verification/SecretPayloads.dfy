// The payload rewriting of the scoped-secret migration: legacy secret fields are renamed,
// secret references become plain ids that are live in the row's scope, and the downgrade
// turns the result back.
module SecretPayloads {
  import opened Results
  import opened Text
  import opened JsonValues

  datatype Failure =
    | InvalidReference
    | OutOfScope
    | ExpectedList
    | ExpectedObject
    | Conflict
    | PythonTypeError

  // What `str()` answers for a value that is not a string: "None", "True", digits, "[...", "{...".
  // No such text starts with `s` or with whitespace; nothing else is assumed about it.
  type Shown = s: string | s != "" && s[0] != 's' && !IsSpace(s[0]) witness "None"
  const Show: Json -> Shown

  function PyStr(v: Json): string {
    if v.Str? then v.s else Show(v)
  }

  // -- Field names --

  predicate IsLegacyKey(key: string) {
    key == "secret_ref" || key == "secret_refs" || key == "credential_ref"
  }

  predicate IsRenamedKey(key: string) {
    key == "secret_id" || key == "secret_ids" || key == "credential_secret_id"
  }

  function CurrentKey(key: string): string {
    if key == "secret_ref" then "secret_id"
    else if key == "secret_refs" then "secret_ids"
    else if key == "credential_ref" then "credential_secret_id"
    else key
  }

  function LegacyKey(key: string): string {
    if key == "secret_id" then "secret_ref"
    else if key == "secret_ids" then "secret_refs"
    else if key == "credential_secret_id" then "credential_ref"
    else key
  }

  lemma KeysInvert(key: string)
    ensures !IsLegacyKey(CurrentKey(key)) && !IsRenamedKey(LegacyKey(key))
    ensures LegacyKey(CurrentKey(key)) == key <==> !IsRenamedKey(key)
    ensures CurrentKey(LegacyKey(key)) == key <==> !IsLegacyKey(key)
  {
  }

  // How the value under a (current) key is treated.
  datatype Kind = One | Many | Bound | Plain

  function KindOf(key: string, item: Json): Kind {
    if key == "secret_id" || key == "credential_secret_id" then One
    else if key == "secret_ids" || (key == "secrets" && item.Arr?) then Many
    else if key == "secret_bindings" then Bound
    else Plain
  }

  // -- Secret references --

  predicate IsAlnum(c: char) {
    'A' <= c <= 'Z' || 'a' <= c <= 'z' || '0' <= c <= '9'
  }

  predicate IsIdChar(c: char) {
    IsAlnum(c) || c == '_' || c == '-'
  }

  predicate IsSecretId(s: string) {
    && 7 <= |s| <= 129
    && "sec_" <= s
    && IsAlnum(s[4])
    && forall i {:trigger IsIdChar(s[i])} :: 5 <= i < |s| ==> IsIdChar(s[i])
  }

  function Candidate(raw: string): string {
    Strip(RemovePrefix(raw, "secret:"))
  }

  // What a resolver may be used for: it answers only the candidate of the text it is given, a
  // well-formed id, and then it accepts that id however it is spelled.
  type Resolver = string -> Result<string, Failure>

  ghost predicate LawfulAt(resolve: Resolver, raw: string) {
    resolve(raw).Ok? ==>
      var id := resolve(raw).value;
      IsSecretId(id) && id == Candidate(raw) && resolve(id) == Ok(id) && resolve("secret:" + id) == Ok(id)
  }

  ghost predicate Lawful(resolve: Resolver) {
    forall raw :: LawfulAt(resolve, raw)
  }

  function Resolve(raw: string, live: set<string>): Result<string, Failure> {
    var candidate := Candidate(raw);
    if !IsSecretId(candidate) then Err(InvalidReference)
    else if candidate !in live then Err(OutOfScope)
    else Ok(candidate)
  }

  // The resolver of one row, `live` being the ids of the undeleted secrets of its tenant and workspace.
  function ScopedResolver(live: set<string>): Resolver {
    raw => Resolve(raw, live)
  }

  lemma IdIsUnprefixed(id: string)
    requires IsSecretId(id)
    ensures !("secret:" <= id)
  {
    assert id[3] == "sec_"[3] == '_' && "secret:"[3] == 'r';
  }

  lemma IdStartsWithS(id: string)
    requires IsSecretId(id)
    ensures id[0] == 's'
  {
    assert id[0] == "sec_"[0];
  }

  lemma IdIsTrimmed(id: string)
    requires IsSecretId(id)
    ensures Strip(id) == id
  {
    IdStartsWithS(id);
    assert |id| > 5 && IsIdChar(id[|id| - 1]);
    assert Trimmed(id);
    TrimmedIsStripped(id);
  }

  lemma BareIdResolves(id: string)
    requires IsSecretId(id)
    ensures Candidate(id) == id
  {
    IdIsUnprefixed(id);
    IdIsTrimmed(id);
  }

  function LegacyRef(id: string): string {
    if "secret:" <= id then id else "secret:" + id
  }

  lemma BareIdIsPrefixed(id: string)
    requires IsSecretId(id)
    ensures LegacyRef(id) == "secret:" + id
  {
    IdIsUnprefixed(id);
  }

  lemma PrefixedRef(ref: string)
    requires Strip(ref) == ref
    ensures Candidate("secret:" + ref) == ref && LegacyRef("secret:" + ref) == "secret:" + ref
  {
    RemovePrefixMeans(ref, "secret:");
  }

  lemma LegacyIdResolves(id: string)
    requires IsSecretId(id)
    ensures Candidate("secret:" + id) == id && LegacyRef("secret:" + id) == "secret:" + id
  {
    IdIsTrimmed(id);
    PrefixedRef(id);
  }

  // An id is its own candidate, with or without the legacy prefix.
  lemma IdResolves(id: string)
    requires IsSecretId(id)
    ensures Candidate(id) == id && Candidate("secret:" + id) == id
    ensures LegacyRef(id) == "secret:" + id && LegacyRef("secret:" + id) == "secret:" + id
  {
    BareIdResolves(id);
    BareIdIsPrefixed(id);
    LegacyIdResolves(id);
  }

  lemma ScopedResolverIsLawful(live: set<string>)
    ensures Lawful(ScopedResolver(live))
  {
    forall raw ensures LawfulAt(ScopedResolver(live), raw) {
      if ScopedResolver(live)(raw).Ok? {
        IdResolves(Candidate(raw));
      }
    }
  }

  lemma NonStringNeverResolves(v: Json)
    requires !v.Str?
    ensures !IsSecretId(Candidate(PyStr(v)))
  {
    var s := Show(v);
    assert !("secret:" <= s);
    assert StripLeft(s) == s;
    StripRightCuts(s);
    if IsSecretId(Strip(s)) {
      IdStartsWithS(Strip(s));
    }
  }

  // -- Migration --

  function MigrateRef(item: Json, resolve: Resolver): Result<Json, Failure> {
    var id :- resolve(PyStr(item));
    Ok(Str(id))
  }

  function MigrateRefs(items: seq<Json>, resolve: Resolver): (r: Result<seq<Json>, Failure>)
  {
    if items == [] then Ok([]) else
    var done :- MigrateRefs(items[..|items| - 1], resolve);
    var last :- MigrateRef(items[|items| - 1], resolve);
    Ok(done + [last])
  }

  function MigrateBindings(es: seq<Entry>, resolve: Resolver): (r: Result<seq<Entry>, Failure>)
  {
    if es == [] then Ok([]) else
    var done :- MigrateBindings(es[..|es| - 1], resolve);
    var last :- MigrateRef(es[|es| - 1].value, resolve);
    Ok(done + [Entry(es[|es| - 1].key, last)])
  }

  function Migrate(v: Json, resolve: Resolver): Result<Json, Failure>
    decreases v, 1
  {
    match v
    case Arr(items) =>
      var done :- MigrateItems(items, resolve);
      Ok(Arr(done))
    case Obj(es) =>
      var done :- MigrateEntries(es, resolve);
      Ok(Obj(done))
    case _ => Ok(v)
  }

  function MigrateItems(items: seq<Json>, resolve: Resolver): (r: Result<seq<Json>, Failure>)
    decreases items, 0
  {
    if items == [] then Ok([]) else
    var done :- MigrateItems(items[..|items| - 1], resolve);
    var last :- Migrate(items[|items| - 1], resolve);
    Ok(done + [last])
  }

  // The migrated value of a dict entry, `key` being already the current name.
  function MigrateValue(key: string, item: Json, resolve: Resolver): Result<Json, Failure>
    decreases item, 2
  {
    match KindOf(key, item)
    case One => MigrateRef(item, resolve)
    case Many =>
      if !item.Arr? then Err(ExpectedList) else
      var refs :- MigrateRefs(item.items, resolve);
      Ok(Arr(refs))
    case Bound =>
      if !item.Obj? then Err(ExpectedObject) else
      var bindings :- MigrateBindings(item.entries, resolve);
      Ok(Obj(bindings))
    case Plain => Migrate(item, resolve)
  }

  function MigrateEntries(es: seq<Entry>, resolve: Resolver): Result<seq<Entry>, Failure>
    decreases es, 0
  {
    if es == [] then Ok([]) else
    var done :- MigrateEntries(es[..|es| - 1], resolve);
    var last := es[|es| - 1];
    var key := CurrentKey(last.key);
    var value :- MigrateValue(key, last.value, resolve);
    if Has(done, key) && Get(done, key) != value then Err(Conflict)
    else Ok(Put(done, key, value))
  }

  // -- Downgrade --

  function RestoreRef(item: Json): Json {
    Str(LegacyRef(PyStr(item)))
  }

  // The texts a Python `for` loop over the value yields.
  function Iterated(item: Json): Result<seq<string>, Failure> {
    match item
    case Arr(items) => Ok(seq(|items|, i requires 0 <= i < |items| => PyStr(items[i])))
    case Str(s) => Ok(seq(|s|, i requires 0 <= i < |s| => [s[i]]))
    case Obj(es) => Ok(seq(|es|, i requires 0 <= i < |es| => es[i].key))
    case _ => Err(PythonTypeError)
  }

  function RestoreRefs(item: Json): Result<Json, Failure> {
    var texts :- Iterated(item);
    Ok(Arr(seq(|texts|, i requires 0 <= i < |texts| => Str(LegacyRef(texts[i])))))
  }

  function RestoreBindings(es: seq<Entry>): seq<Entry> {
    seq(|es|, i requires 0 <= i < |es| => Entry(es[i].key, RestoreRef(es[i].value)))
  }

  function Restore(v: Json): Result<Json, Failure>
    decreases v, 1
  {
    match v
    case Arr(items) =>
      var done :- RestoreItems(items);
      Ok(Arr(done))
    case Obj(es) =>
      var done :- RestoreEntries(es);
      Ok(Obj(done))
    case _ => Ok(v)
  }

  function RestoreItems(items: seq<Json>): Result<seq<Json>, Failure>
    decreases items, 0
  {
    if items == [] then Ok([]) else
    var done :- RestoreItems(items[..|items| - 1]);
    var last :- Restore(items[|items| - 1]);
    Ok(done + [last])
  }

  function RestoreValue(key: string, item: Json): Result<Json, Failure>
    decreases item, 2
  {
    match KindOf(key, item)
    case One => Ok(RestoreRef(item))
    case Many => RestoreRefs(item)
    case Bound => if item.Obj? then Ok(Obj(RestoreBindings(item.entries))) else Err(PythonTypeError)
    case Plain => Restore(item)
  }

  // Unlike the migration, an entry overwrites an earlier one of the same name unchecked.
  function RestoreEntries(es: seq<Entry>): Result<seq<Entry>, Failure>
    decreases es, 0
  {
    if es == [] then Ok([]) else
    var done :- RestoreEntries(es[..|es| - 1]);
    var last := es[|es| - 1];
    var value :- RestoreValue(last.key, last.value);
    Ok(Put(done, LegacyKey(last.key), value))
  }

  // -- The recursive procedures, filling one dict key by key --

  // The first failing entry decides the failure of the whole dict.
  lemma {:induction false} PrefixFails(es: seq<Entry>, n: nat, resolve: Resolver)
    requires n <= |es| && MigrateEntries(es[..n], resolve).Err?
    ensures MigrateEntries(es, resolve) == MigrateEntries(es[..n], resolve)
  {
    hide MigrateValue, CurrentKey;
    if n < |es| {
      assert es[..|es| - 1][..n] == es[..n];
      PrefixFails(es[..|es| - 1], n, resolve);
    } else {
      assert es[..n] == es;
    }
  }

  lemma {:induction false} PrefixItemFails(items: seq<Json>, n: nat, resolve: Resolver)
    requires n <= |items| && MigrateItems(items[..n], resolve).Err?
    ensures MigrateItems(items, resolve) == MigrateItems(items[..n], resolve)
  {
    if n < |items| {
      assert items[..|items| - 1][..n] == items[..n];
      PrefixItemFails(items[..|items| - 1], n, resolve);
    } else {
      assert items[..n] == items;
    }
  }

  method MigratePayload(value: Json, resolve: Resolver) returns (r: Result<Json, Failure>)
    ensures r == Migrate(value, resolve)
    decreases value, 0
  {
    if value.Arr? {
      r := MigrateList(value.items, resolve);
      return;
    }
    if !value.Obj? {
      return Ok(value);
    }
    var es := value.entries;
    var migrated: seq<Entry> := [];
    for i := 0 to |es|
      invariant MigrateEntries(es[..i], resolve) == Ok(migrated)
    {
      hide MigrateValue, CurrentKey;
      var targetKey := CurrentKey(es[i].key);
      assert es[..i + 1][..i] == es[..i];
      var migratedValue := MigrateField(targetKey, es[i].value, resolve);
      if migratedValue.Err? {
        PrefixFails(es, i + 1, resolve);
        return Err(migratedValue.error);
      }
      if Has(migrated, targetKey) && Get(migrated, targetKey) != migratedValue.value {
        PrefixFails(es, i + 1, resolve);
        return Err(Conflict);
      }
      migrated := Put(migrated, targetKey, migratedValue.value);
    }
    assert es[..|es|] == es;
    return Ok(Obj(migrated));
  }

  // The chain of branches that computes one `migrated_value`.
  method MigrateField(targetKey: string, item: Json, resolve: Resolver) returns (r: Result<Json, Failure>)
    ensures r == MigrateValue(targetKey, item, resolve)
    decreases item, 1
  {
    if targetKey == "secret_id" || targetKey == "credential_secret_id" {
      r := MigrateRef(item, resolve);
    } else if targetKey == "secret_ids" {
      if !item.Arr? {
        return Err(ExpectedList);
      }
      var refs := MigrateRefs(item.items, resolve);
      r := if refs.Ok? then Ok(Arr(refs.value)) else Err(refs.error);
    } else if targetKey == "secret_bindings" {
      if !item.Obj? {
        return Err(ExpectedObject);
      }
      var bindings := MigrateBindings(item.entries, resolve);
      r := if bindings.Ok? then Ok(Obj(bindings.value)) else Err(bindings.error);
    } else if targetKey == "secrets" && item.Arr? {
      var refs := MigrateRefs(item.items, resolve);
      r := if refs.Ok? then Ok(Arr(refs.value)) else Err(refs.error);
    } else {
      r := MigratePayload(item, resolve);
    }
  }

  method MigrateList(items: seq<Json>, resolve: Resolver) returns (r: Result<Json, Failure>)
    ensures r == Migrate(Arr(items), resolve)
    decreases items, 0
  {
    var done: seq<Json> := [];
    for i := 0 to |items|
      invariant MigrateItems(items[..i], resolve) == Ok(done)
    {
      assert items[..i + 1][..i] == items[..i];
      var item := MigratePayload(items[i], resolve);
      if item.Err? {
        PrefixItemFails(items, i + 1, resolve);
        return Err(item.error);
      }
      done := done + [item.value];
    }
    assert items[..|items|] == items;
    return Ok(Arr(done));
  }

  lemma {:induction false} RestorePrefixFails(es: seq<Entry>, n: nat)
    requires n <= |es| && RestoreEntries(es[..n]).Err?
    ensures RestoreEntries(es) == RestoreEntries(es[..n])
  {
    hide RestoreValue, LegacyKey;
    if n < |es| {
      assert es[..|es| - 1][..n] == es[..n];
      RestorePrefixFails(es[..|es| - 1], n);
    } else {
      assert es[..n] == es;
    }
  }

  lemma {:induction false} RestorePrefixItemFails(items: seq<Json>, n: nat)
    requires n <= |items| && RestoreItems(items[..n]).Err?
    ensures RestoreItems(items) == RestoreItems(items[..n])
  {
    if n < |items| {
      assert items[..|items| - 1][..n] == items[..n];
      RestorePrefixItemFails(items[..|items| - 1], n);
    } else {
      assert items[..n] == items;
    }
  }

  method RestorePayload(value: Json) returns (r: Result<Json, Failure>)
    ensures r == Restore(value)
    decreases value, 0
  {
    if value.Arr? {
      r := RestoreList(value.items);
      return;
    }
    if !value.Obj? {
      return Ok(value);
    }
    var es := value.entries;
    var restored: seq<Entry> := [];
    for i := 0 to |es|
      invariant RestoreEntries(es[..i]) == Ok(restored)
    {
      hide RestoreValue, LegacyKey;
      assert es[..i + 1][..i] == es[..i];
      var restoredValue := RestoreField(es[i].key, es[i].value);
      if restoredValue.Err? {
        RestorePrefixFails(es, i + 1);
        return Err(restoredValue.error);
      }
      restored := Put(restored, LegacyKey(es[i].key), restoredValue.value);
    }
    assert es[..|es|] == es;
    return Ok(Obj(restored));
  }

  method RestoreField(key: string, item: Json) returns (r: Result<Json, Failure>)
    ensures r == RestoreValue(key, item)
    decreases item, 1
  {
    if key == "secret_id" || key == "credential_secret_id" {
      r := Ok(RestoreRef(item));
    } else if key == "secret_ids" || (key == "secrets" && item.Arr?) {
      r := RestoreRefs(item);
    } else if key == "secret_bindings" {
      r := if item.Obj? then Ok(Obj(RestoreBindings(item.entries))) else Err(PythonTypeError);
    } else {
      r := RestorePayload(item);
    }
  }

  method RestoreList(items: seq<Json>) returns (r: Result<Json, Failure>)
    ensures r == Restore(Arr(items))
    decreases items, 0
  {
    var done: seq<Json> := [];
    for i := 0 to |items|
      invariant RestoreItems(items[..i]) == Ok(done)
    {
      assert items[..i + 1][..i] == items[..i];
      var item := RestorePayload(items[i]);
      if item.Err? {
        RestorePrefixItemFails(items, i + 1);
        return Err(item.error);
      }
      done := done + [item.value];
    }
    assert items[..|items|] == items;
    return Ok(Arr(done));
  }
}
