/** A parsed JSON document, as the template engine sees it after JSON.parse.
    Object fields are kept in JavaScript enumeration order; a parsed object
    never holds the same key twice. Numbers are integers (the engine only
    compares and increments ids and order numbers). */
module Json {

  datatype Option<+T> = None | Some(value: T)

  datatype Json =
    | Null
    | Bool(b: bool)
    | Num(n: int)
    | Str(s: string)
    | Arr(items: seq<Json>)
    | Obj(fields: seq<Field>)

  datatype Field = Field(key: string, val: Json)

  /** A value with nothing nested inside it. */
  predicate Scalar(j: Json)
  {
    !j.Arr? && !j.Obj?
  }

  /** `fs[key]` on an object's fields: the value of the first field with that
      key, or None (JavaScript's `undefined`). */
  function Lookup(fs: seq<Field>, key: string): (r: Option<Json>)
    ensures r.Some? <==> KeyIndex(fs, key) < |fs|
    ensures r.Some? ==> r.value == fs[KeyIndex(fs, key)].val
  {
    if fs == [] then None
    else if fs[0].key == key then Some(fs[0].val)
    else Lookup(fs[1..], key)
  }

  /** Property access `j.key`: undefined on anything that is not an object. */
  function Get(j: Json, key: string): Option<Json>
  {
    if j.Obj? then Lookup(j.fields, key) else None
  }

  /** JavaScript truthiness of a possibly-undefined value. */
  predicate Truthy(v: Option<Json>)
  {
    match v
    case None => false
    case Some(Null) => false
    case Some(Bool(b)) => b
    case Some(Num(n)) => n != 0
    case Some(Str(s)) => s != ""
    case Some(Arr(_)) => true
    case Some(Obj(_)) => true
  }

  /** Index of the first field with the given key, or |fs| when there is none. */
  function KeyIndex(fs: seq<Field>, key: string): (k: nat)
    ensures k <= |fs|
    ensures k < |fs| ==> fs[k].key == key
    ensures forall i :: 0 <= i < k ==> fs[i].key != key
  {
    if fs == [] then 0
    else if fs[0].key == key then 0
    else 1 + KeyIndex(fs[1..], key)
  }

  /** The assignment `o.key = v` on an object's fields: an existing key keeps
      its position and takes the new value; a new key is appended. */
  function Assign(fs: seq<Field>, key: string, v: Json): (r: seq<Field>)
    ensures Lookup(r, key) == Some(v)
    ensures forall k :: k != key ==> Lookup(r, k) == Lookup(fs, k)
    ensures KeyIndex(fs, key) < |fs| ==> |r| == |fs|
  {
    var k := KeyIndex(fs, key);
    if k < |fs| then
      var r := fs[k := Field(key, v)];
      LookupUpdate(fs, k, v);
      r
    else
      LookupAppend(fs, Field(key, v));
      fs + [Field(key, v)]
  }

  lemma LookupUpdate(fs: seq<Field>, k: nat, v: Json)
    requires k < |fs| && KeyIndex(fs, fs[k].key) == k
    ensures Lookup(fs[k := Field(fs[k].key, v)], fs[k].key) == Some(v)
    ensures forall key :: key != fs[k].key ==>
      Lookup(fs[k := Field(fs[k].key, v)], key) == Lookup(fs, key)
  {
    LookupUpdateSame(fs, k, v);
    forall key | key != fs[k].key
      ensures Lookup(fs[k := Field(fs[k].key, v)], key) == Lookup(fs, key)
    {
      LookupUpdateOther(fs, k, v, key);
    }
  }

  lemma LookupUpdateSame(fs: seq<Field>, k: nat, v: Json)
    requires k < |fs| && KeyIndex(fs, fs[k].key) == k
    ensures Lookup(fs[k := Field(fs[k].key, v)], fs[k].key) == Some(v)
  {
    var r := fs[k := Field(fs[k].key, v)];
    if k > 0 {
      assert fs[0].key != fs[k].key;
      LookupUpdateSame(fs[1..], k - 1, v);
      assert r[1..] == fs[1..][k - 1 := Field(fs[k].key, v)];
    }
  }

  lemma LookupUpdateOther(fs: seq<Field>, k: nat, v: Json, other: string)
    requires k < |fs| && KeyIndex(fs, fs[k].key) == k && other != fs[k].key
    ensures Lookup(fs[k := Field(fs[k].key, v)], other) == Lookup(fs, other)
  {
    var r := fs[k := Field(fs[k].key, v)];
    assert r[0].key == fs[0].key;
    if fs[0].key != other {
      if k == 0 {
        assert r[1..] == fs[1..];
      } else {
        assert fs[0].key != fs[k].key;
        LookupUpdateOther(fs[1..], k - 1, v, other);
        assert r[1..] == fs[1..][k - 1 := Field(fs[k].key, v)];
      }
    }
  }

  lemma LookupAppend(fs: seq<Field>, f: Field)
    requires KeyIndex(fs, f.key) == |fs|
    ensures Lookup(fs + [f], f.key) == Some(f.val)
    ensures forall key :: key != f.key ==> Lookup(fs + [f], key) == Lookup(fs, key)
  {
    LookupAppendSame(fs, f);
    forall key | key != f.key ensures Lookup(fs + [f], key) == Lookup(fs, key) {
      LookupAppendOther(fs, f, key);
    }
  }

  lemma LookupAppendSame(fs: seq<Field>, f: Field)
    requires KeyIndex(fs, f.key) == |fs|
    ensures Lookup(fs + [f], f.key) == Some(f.val)
  {
    if fs != [] {
      assert fs[0].key != f.key;
      LookupAppendSame(fs[1..], f);
      assert (fs + [f])[1..] == fs[1..] + [f];
    }
  }

  lemma LookupAppendOther(fs: seq<Field>, f: Field, key: string)
    requires key != f.key
    ensures Lookup(fs + [f], key) == Lookup(fs, key)
  {
    if fs != [] && fs[0].key != key {
      LookupAppendOther(fs[1..], f, key);
      assert (fs + [f])[1..] == fs[1..] + [f];
    }
  }

  lemma Associative<T>(a: seq<T>, b: seq<T>, c: seq<T>)
    ensures (a + b) + c == a + (b + c)
  {
  }
}
