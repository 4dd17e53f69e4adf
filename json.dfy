/** JavaScript values as the cross-cutting code sees them: log metadata,
    error contexts and response bodies. Numbers are integers; an object is
    its own enumerable properties in insertion order. */
module Json {

  datatype Json =
    | JUndefined
    | JNull
    | JBool(b: bool)
    | JNum(n: int)
    | JStr(s: string)
    | JArr(items: seq<Json>)
    | JObj(fields: seq<Field>)

  datatype Field = Field(key: string, value: Json)

  /** JavaScript truthiness: `undefined`, `null`, `false`, `0` and `''` are
      falsy; every array and object is truthy. */
  predicate Truthy(v: Json) {
    match v
    case JUndefined => false
    case JNull => false
    case JBool(b) => b
    case JNum(n) => n != 0
    case JStr(s) => s != ""
    case JArr(_) => true
    case JObj(_) => true
  }

  /** `typeof v === 'object'`, which holds for `null` and arrays too. */
  predicate IsObjectType(v: Json) {
    v.JNull? || v.JArr? || v.JObj?
  }

  /** `Object.keys(obj)`. */
  function Keys(fields: seq<Field>): (ks: seq<string>)
    ensures |ks| == |fields|
  {
    if |fields| == 0 then [] else [fields[0].key] + Keys(fields[1..])
  }

  /** The keys of joined property lists are joined in the same order. */
  lemma {:induction false} KeysConcat(a: seq<Field>, b: seq<Field>)
    ensures Keys(a + b) == Keys(a) + Keys(b)
  {
    if |a| > 0 {
      assert (a + b)[1..] == a[1..] + b;
      KeysConcat(a[1..], b);
    } else {
      assert a + b == b;
    }
  }

  /** Reading a property list one property at a time. */
  lemma LookupCons(f: Field, rest: seq<Field>, k: string)
    ensures Keys([f] + rest) == [f.key] + Keys(rest)
    ensures Lookup([f] + rest, k) == if f.key == k then f.value else Lookup(rest, k)
  {
    assert ([f] + rest)[1..] == rest;
  }

  /** `Object.hasOwn(obj, key)`. */
  predicate HasKey(fields: seq<Field>, key: string) {
    key in Keys(fields)
  }

  /** No key appears twice, as in every JavaScript object. */
  predicate DistinctKeys(fields: seq<Field>) {
    |fields| == 0 || (fields[0].key !in Keys(fields[1..]) && DistinctKeys(fields[1..]))
  }

  /** `obj[key]`: a missing key reads as `undefined`. */
  function Lookup(fields: seq<Field>, key: string): (v: Json)
    ensures !HasKey(fields, key) ==> v == JUndefined
    ensures HasKey(fields, key) ==> Field(key, v) in fields
  {
    if |fields| == 0 then JUndefined
    else if fields[0].key == key then fields[0].value
    else Lookup(fields[1..], key)
  }

  /** `delete obj[key]`: the other properties stay, in their order. */
  function Remove(fields: seq<Field>, key: string): (r: seq<Field>)
    ensures !HasKey(r, key)
    ensures forall k :: k != key ==> (HasKey(r, k) <==> HasKey(fields, k))
    ensures forall k :: k != key ==> Lookup(r, k) == Lookup(fields, k)
    ensures DistinctKeys(fields) ==> DistinctKeys(r)
  {
    if |fields| == 0 then []
    else
      var rest := Remove(fields[1..], key);
      assert Keys(fields) == [fields[0].key] + Keys(fields[1..]);
      if fields[0].key == key then rest
      else
        var r := [fields[0]] + rest;
        assert r[1..] == rest;
        assert Keys(r) == [fields[0].key] + Keys(rest);
        assert forall k :: HasKey(r, k) <==> k == fields[0].key || HasKey(rest, k);
        assert forall k :: HasKey(fields, k) <==> k == fields[0].key || HasKey(fields[1..], k);
        assert forall k :: k != fields[0].key ==> Lookup(r, k) == Lookup(rest, k);
        assert DistinctKeys(fields) ==> !HasKey(rest, fields[0].key);
        r
  }

  /** `obj[key] = v`: an existing property keeps its place and takes the
      new value; a new one goes last. */
  function Assign(fields: seq<Field>, key: string, v: Json): (r: seq<Field>)
    ensures HasKey(r, key) && Lookup(r, key) == v
    ensures forall k :: k != key ==> (HasKey(r, k) <==> HasKey(fields, k))
    ensures forall k :: k != key ==> Lookup(r, k) == Lookup(fields, k)
    ensures DistinctKeys(fields) ==> DistinctKeys(r)
  {
    if |fields| == 0 then
      var r := [Field(key, v)];
      assert r[1..] == [];
      r
    else if fields[0].key == key then
      var r := [Field(key, v)] + fields[1..];
      assert r[1..] == fields[1..];
      r
    else
      var rest := Assign(fields[1..], key, v);
      assert Keys(fields) == [fields[0].key] + Keys(fields[1..]);
      var r := [fields[0]] + rest;
      assert r[1..] == rest;
      assert Keys(r) == [fields[0].key] + Keys(rest);
      assert forall k :: HasKey(r, k) <==> k == fields[0].key || HasKey(rest, k);
      assert forall k :: HasKey(fields, k) <==> k == fields[0].key || HasKey(fields[1..], k);
      assert forall k :: k != fields[0].key ==> Lookup(r, k) == Lookup(rest, k);
      assert DistinctKeys(fields) ==> !HasKey(rest, fields[0].key);
      r
  }

  /** `{ ...base, ...over }` and `Object.assign(base, over)`: each property
      of `over` assigned in turn onto `base`. */
  function Spread(base: seq<Field>, over: seq<Field>): (r: seq<Field>)
    ensures forall k :: HasKey(r, k) <==> HasKey(base, k) || HasKey(over, k)
    ensures DistinctKeys(base) ==> DistinctKeys(r)
    decreases |over|
  {
    if |over| == 0 then base
    else Spread(Assign(base, over[0].key, over[0].value), over[1..])
  }

  /** A spread reads, at each key, the value `over` gives it when `over`
      has the key, and otherwise the value of `base`. */
  lemma {:induction false} SpreadLookup(base: seq<Field>, over: seq<Field>, k: string)
    requires DistinctKeys(over)
    ensures Lookup(Spread(base, over), k) == if HasKey(over, k) then Lookup(over, k) else Lookup(base, k)
    decreases |over|
  {
    if |over| > 0 {
      SpreadLookup(Assign(base, over[0].key, over[0].value), over[1..], k);
    }
  }

  /** The properties whose value passes a test, in order. */
  function KeepWhere(fields: seq<Field>, keep: Json -> bool): (r: seq<Field>)
    ensures forall f :: f in r ==> f in fields && keep(f.value)
    ensures forall f :: f in fields && keep(f.value) ==> f in r
    ensures forall k :: HasKey(r, k) ==> HasKey(fields, k)
    ensures DistinctKeys(fields) ==> DistinctKeys(r)
  {
    if |fields| == 0 then []
    else
      var rest := KeepWhere(fields[1..], keep);
      assert Keys(fields) == [fields[0].key] + Keys(fields[1..]);
      if keep(fields[0].value) then
        var r := [fields[0]] + rest;
        assert r[1..] == rest;
        assert Keys(r) == [fields[0].key] + Keys(rest);
        assert forall k :: HasKey(r, k) <==> k == fields[0].key || HasKey(rest, k);
        assert forall k :: HasKey(fields, k) <==> k == fields[0].key || HasKey(fields[1..], k);
        assert DistinctKeys(fields) ==> !HasKey(rest, fields[0].key);
        r
      else
        assert forall k :: HasKey(fields, k) <==> k == fields[0].key || HasKey(fields[1..], k);
        rest
  }

  /** In an object a property's value is what reading its key gives. */
  lemma {:induction false} LookupMember(fields: seq<Field>, k: string, v: Json)
    requires DistinctKeys(fields) && Field(k, v) in fields
    ensures Lookup(fields, k) == v
  {
    assert Keys(fields) == [fields[0].key] + Keys(fields[1..]);
    if fields[0] != Field(k, v) {
      assert Field(k, v) in fields[1..];
      LookupMember(fields[1..], k, v);
      if fields[0].key == k {
        KeyOfMember(fields[1..], Field(k, v));
      }
    }
  }

  lemma {:induction false} KeyOfMember(fields: seq<Field>, f: Field)
    requires f in fields
    ensures HasKey(fields, f.key)
  {
    assert Keys(fields) == [fields[0].key] + Keys(fields[1..]);
    if fields[0] != f {
      KeyOfMember(fields[1..], f);
    }
  }

  /** Reading a key the filter keeps gives what it gave before. */
  lemma KeepLookup(fields: seq<Field>, keep: Json -> bool, k: string)
    requires DistinctKeys(fields) && HasKey(fields, k) && keep(Lookup(fields, k))
    ensures HasKey(KeepWhere(fields, keep), k)
    ensures Lookup(KeepWhere(fields, keep), k) == Lookup(fields, k)
  {
    var v := Lookup(fields, k);
    assert Field(k, v) in KeepWhere(fields, keep);
    KeyOfMember(KeepWhere(fields, keep), Field(k, v));
    LookupMember(KeepWhere(fields, keep), k, v);
  }

  /** `delete obj[k]` for each `k` of `ks` in turn. */
  function RemoveAll(fields: seq<Field>, ks: seq<string>): (r: seq<Field>)
    ensures forall k :: k in ks ==> !HasKey(r, k)
    ensures forall k :: k !in ks ==> (HasKey(r, k) <==> HasKey(fields, k)) && Lookup(r, k) == Lookup(fields, k)
    ensures DistinctKeys(fields) ==> DistinctKeys(r)
    decreases |ks|
  {
    if |ks| == 0 then fields
    else
      var r := RemoveAll(Remove(fields, ks[0]), ks[1..]);
      assert forall k :: k in ks <==> k == ks[0] || k in ks[1..];
      r
  }
}
