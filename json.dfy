/** The JavaScript values the relay passes around: request parameters,
    mock payloads and upstream response bodies. Numbers are integers here. */
module Json {

  datatype Value =
    | Undefined
    | Null
    | Bool(b: bool)
    | Num(n: int)
    | Str(s: string)
    | Arr(items: seq<Value>)
    | Obj(fields: seq<Field>)

  /** One property of an object. An object is its fields in list order; for
      the keys the source uses, none of which looks like an array index, that
      is insertion order, the order `Object.keys` and `JSON.stringify` follow. */
  datatype Field = Field(key: string, value: Value)

  /** JavaScript truthiness, as used by `||` and `if`: `undefined`, `null`,
      `false`, `0` and `""` are falsy; every array and object is truthy. */
  predicate Truthy(v: Value)
    ensures v.Undefined? || v.Null? ==> !Truthy(v)
    ensures v.Str? ==> (Truthy(v) <==> v.s != "")
    ensures v.Num? ==> (Truthy(v) <==> v.n != 0)
    ensures v.Arr? || v.Obj? ==> Truthy(v)
  {
    match v
    case Undefined => false
    case Null => false
    case Bool(b) => b
    case Num(n) => n != 0
    case Str(s) => s != ""
    case Arr(_) => true
    case Obj(_) => true
  }

  function Keys(fields: seq<Field>): (ks: seq<string>)
    ensures |ks| == |fields|
    ensures forall i :: 0 <= i < |fields| ==> ks[i] == fields[i].key
  {
    if fields == [] then [] else [fields[0].key] + Keys(fields[1..])
  }

  /** `obj[key]`: the value under `key`, `Undefined` when there is none. */
  function Lookup(fields: seq<Field>, key: string): (v: Value)
    ensures key !in Keys(fields) ==> v == Undefined
    ensures key in Keys(fields) ==> exists i :: 0 <= i < |fields| && fields[i] == Field(key, v)
  {
    if fields == [] then Undefined
    else if fields[0].key == key then fields[0].value
    else Lookup(fields[1..], key)
  }

  /** The value of a key is the one in its first field. */
  lemma {:induction false} LookupAt(fields: seq<Field>, key: string, i: nat)
    requires i < |fields| && fields[i].key == key
    requires forall j :: 0 <= j < i ==> fields[j].key != key
    ensures Lookup(fields, key) == fields[i].value
  {
    if i > 0 {
      LookupAt(fields[1..], key, i - 1);
    }
  }

  /** `Lookup` on an object value; `Undefined` on anything else. */
  function Get(v: Value, key: string): Value {
    if v.Obj? then Lookup(v.fields, key) else Undefined
  }
}
