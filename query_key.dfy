/** The cache-key builder of the query integration (`createQueryKey`). */
module QueryKey {

  /** The JavaScript values a caller may pass as `params`. NaN and -0 are not modelled. */
  datatype JsValue =
    | Undefined
    | Null
    | Bool(b: bool)
    | Number(n: int)
    | Str(s: string)
    | Object(fields: map<string, string>)
    | Array(items: seq<string>)

  /** JavaScript truthiness: every value is truthy except `undefined`, `null`, `false`, `0` and `''`. */
  predicate Truthy(v: JsValue)
  {
    match v
    case Undefined => false
    case Null => false
    case Bool(b) => b
    case Number(n) => n != 0
    case Str(s) => s != ""
    case Object(_) => true
    case Array(_) => true
  }

  /** The `key` argument: `string | string[]`. */
  datatype Key = Single(name: string) | Many(names: seq<string>)

  /** An element of the resulting key list: a key name or the params. */
  datatype KeyPart = Name(name: string) | Param(value: JsValue)

  /** The names of the key, as a list. */
  function KeyNames(key: Key): seq<string>
  {
    match key
    case Single(name) => [name]
    case Many(names) => names
  }

  function NameParts(names: seq<string>): (r: seq<KeyPart>)
    ensures |r| == |names|
    ensures forall i :: 0 <= i < |names| ==> r[i] == Name(names[i])
  {
    if |names| == 0 then [] else [Name(names[0])] + NameParts(names[1..])
  }

  /** `createQueryKey(key, params)`. */
  function CreateQueryKey(key: Key, params: JsValue): seq<KeyPart>
  {
    var baseKey := NameParts(KeyNames(key));
    if Truthy(params) then baseKey + [Param(params)] else baseKey
  }

  /**
   * The key list is the key's names in order (a string key giving exactly one),
   * followed by the params as last element exactly when they are truthy.
   */
  lemma CreateQueryKeyShape(key: Key, params: JsValue)
    ensures var r := CreateQueryKey(key, params);
      && |r| == |KeyNames(key)| + (if Truthy(params) then 1 else 0)
      && (forall i :: 0 <= i < |KeyNames(key)| ==> r[i] == Name(KeyNames(key)[i]))
      && (Truthy(params) ==> r[|r| - 1] == Param(params))
      && (key.Single? ==> r[0] == Name(key.name))
  {
  }

  /** Truthy params are told apart by the key; all falsy params share the bare key. */
  lemma CreateQueryKeyDistinguishesParams(key: Key, p: JsValue, q: JsValue)
    ensures Truthy(p) && Truthy(q) ==>
      (CreateQueryKey(key, p) == CreateQueryKey(key, q) <==> p == q)
    ensures !Truthy(p) && !Truthy(q) ==> CreateQueryKey(key, p) == CreateQueryKey(key, q)
    ensures Truthy(p) && !Truthy(q) ==> CreateQueryKey(key, p) != CreateQueryKey(key, q)
  {
    var r, s := CreateQueryKey(key, p), CreateQueryKey(key, q);
    if Truthy(p) && Truthy(q) && r == s {
      assert r[|r| - 1] == Param(p);
      assert s[|s| - 1] == Param(q);
    }
    if Truthy(p) && !Truthy(q) {
      assert |r| != |s|;
    }
  }

  /** A string key and the one-element array of it give the same key list. */
  lemma SingleIsOneElementArray(name: string, params: JsValue)
    ensures CreateQueryKey(Single(name), params) == CreateQueryKey(Many([name]), params)
  {
  }
}
