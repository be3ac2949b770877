// JSON documents as Python sees them after `json.loads`: a dict is its entries in
// insertion order, so that both the content and the order of a dict can be spoken of.
module JsonValues {
  datatype Json =
    | Null
    | Bool(b: bool)
    | Int(n: int)
    | Float(r: real)
    | Str(s: string)
    | Arr(items: seq<Json>)
    | Obj(entries: seq<Entry>)

  datatype Entry = Entry(key: string, value: Json)

  predicate Distinct(es: seq<Entry>) {
    forall i, j :: 0 <= i < j < |es| ==> es[i].key != es[j].key
  }

  // A value Python can hold: no dict, at any depth, has the same key twice.
  ghost predicate Sound(v: Json) {
    match v
    case Arr(items) => forall i :: 0 <= i < |items| ==> Sound(items[i])
    case Obj(es) => Distinct(es) && forall i :: 0 <= i < |es| ==> Sound(es[i].value)
    case _ => true
  }

  // The position of a key, or the number of entries when the key is absent.
  function Find(es: seq<Entry>, key: string): (i: nat)
    ensures i <= |es|
  {
    if es == [] || es[0].key == key then 0 else 1 + Find(es[1..], key)
  }

  predicate Has(es: seq<Entry>, key: string) {
    Find(es, key) < |es|
  }

  function Get(es: seq<Entry>, key: string): (v: Json)
    requires Has(es, key)
  {
    es[Find(es, key)].value
  }

  lemma {:induction false} FindIsFirst(es: seq<Entry>, key: string)
    ensures Has(es, key) ==> es[Find(es, key)].key == key
    ensures forall j :: 0 <= j < Find(es, key) ==> es[j].key != key
  {
    if es != [] && es[0].key != key {
      FindIsFirst(es[1..], key);
      assert forall j :: 1 <= j < |es| ==> es[j] == es[1..][j - 1];
    }
  }

  lemma FindAt(es: seq<Entry>, i: nat)
    requires Distinct(es) && i < |es|
    ensures Has(es, es[i].key) && Find(es, es[i].key) == i && Get(es, es[i].key) == es[i].value
  {
    FindIsFirst(es, es[i].key);
  }

  lemma {:induction false} SameKeysSameFind(es: seq<Entry>, outs: seq<Entry>, k: string)
    requires |outs| == |es| && forall i :: 0 <= i < |es| ==> outs[i].key == es[i].key
    ensures Find(outs, k) == Find(es, k)
  {
    if es == [] {
    } else {
      SameKeysSameFind(es[1..], outs[1..], k);
    }
  }

  // `es[key] = value` on a dict: overwrite in place, or append.
  function Put(es: seq<Entry>, key: string, value: Json): (r: seq<Entry>) {
    if Has(es, key) then es[Find(es, key) := Entry(key, value)] else es + [Entry(key, value)]
  }

  // What a dict answers after the assignment, for every key.
  lemma PutGet(es: seq<Entry>, key: string, value: Json, k: string)
    ensures Has(Put(es, key, value), k) <==> k == key || Has(es, k)
    ensures Has(Put(es, key, value), k) ==> Get(Put(es, key, value), k) == if k == key then value else Get(es, k)
  {
    var r := Put(es, key, value);
    var i, x, y := Find(es, key), Find(es, k), Find(r, k);
    FindIsFirst(es, key);
    FindIsFirst(es, k);
    FindIsFirst(r, k);
    if k == key {
      assert r[i].key == key;
      assert y == i;
    } else {
      assert forall j :: 0 <= j < |es| ==> r[j].key == es[j].key;
      assert y == x || (x == |es| && y == |r|);
    }
  }

  lemma PutDistinct(es: seq<Entry>, key: string, value: Json)
    requires Distinct(es)
    ensures Distinct(Put(es, key, value))
  {
    FindIsFirst(es, key);
  }

  // Python's `==` between JSON values: the order of a dict's keys does not count.
  predicate SameValue(a: Json, b: Json) {
    match a
    case Arr(xs) =>
      b.Arr? && |xs| == |b.items| && forall i :: 0 <= i < |xs| ==> SameValue(xs[i], b.items[i])
    case Obj(es) =>
      && b.Obj?
      && (forall j :: 0 <= j < |b.entries| ==> Has(es, b.entries[j].key))
      && forall i :: 0 <= i < |es| ==> Has(b.entries, es[i].key) && SameValue(es[i].value, Get(b.entries, es[i].key))
    case _ => a == b
  }

  // Equal dicts have the same keys.
  lemma SameKeys(es: seq<Entry>, fs: seq<Entry>, k: string)
    requires SameValue(Obj(es), Obj(fs))
    ensures Has(es, k) <==> Has(fs, k)
  {
    FindIsFirst(es, k);
    FindIsFirst(fs, k);
  }

  lemma {:induction false} SameValueIsReflexive(v: Json)
    requires Sound(v)
    ensures SameValue(v, v)
  {
    match v
    case Arr(items) =>
      forall i | 0 <= i < |items| ensures SameValue(items[i], items[i]) {
        SameValueIsReflexive(items[i]);
      }
    case Obj(es) =>
      forall i | 0 <= i < |es| ensures Has(es, es[i].key) && SameValue(es[i].value, Get(es, es[i].key)) {
        FindAt(es, i);
        SameValueIsReflexive(es[i].value);
      }
    case _ =>
  }

  // Dicts with the same keys and equal values are equal.
  lemma SameDicts(es: seq<Entry>, fs: seq<Entry>)
    requires Distinct(es) && Distinct(fs) && forall k :: Has(es, k) <==> Has(fs, k)
    requires forall k :: Has(es, k) && Has(fs, k) ==> SameValue(Get(es, k), Get(fs, k))
    ensures SameValue(Obj(es), Obj(fs))
  {
    forall i | 0 <= i < |es| ensures Has(fs, es[i].key) && SameValue(es[i].value, Get(fs, es[i].key)) {
      FindAt(es, i);
    }
    forall j | 0 <= j < |fs| ensures Has(es, fs[j].key) {
      FindAt(fs, j);
    }
  }
}
