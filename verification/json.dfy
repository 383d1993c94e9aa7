/** The JavaScript values a JSON reply can carry, with the three operations
    the product form applies to them: truthiness, `typeof`, and the own
    enumerable properties that object spread (`{...v}`) copies. Numbers are
    modelled as integers. */
module Json {
  import opened Decimal

  datatype Json =
    | JUndefined
    | JNull
    | JBool(b: bool)
    | JNumber(n: int)
    | JString(s: string)
    | JArray(items: seq<Json>)
    | JObject(fields: map<string, Json>)

  /** The values ToBoolean maps to false (section 7.1.2 of ECMA-262), as far
      as the model has them. */
  const Falsy: set<Json> := {JUndefined, JNull, JBool(false), JNumber(0), JString("")}

  /** JavaScript truthiness: `undefined`, `null`, `false`, `0` and `""` are
      falsy, every array and object is truthy. */
  function Truthy(v: Json): (b: bool)
    ensures b <==> v !in Falsy
    ensures v.JArray? || v.JObject? ==> b
  {
    match v
    case JUndefined => false
    case JNull => false
    case JBool(b) => b
    case JNumber(n) => n != 0
    case JString(s) => s != ""
    case JArray(_) => true
    case JObject(_) => true
  }

  /** The `typeof` operator; note that `typeof null` is "object". */
  function TypeOf(v: Json): (t: string)
    ensures t in {"undefined", "object", "boolean", "number", "string"}
    ensures t == "object" <==> v.JNull? || v.JArray? || v.JObject?
  {
    match v
    case JUndefined => "undefined"
    case JNull => "object"
    case JBool(_) => "boolean"
    case JNumber(_) => "number"
    case JString(_) => "string"
    case JArray(_) => "object"
    case JObject(_) => "object"
  }

  /** The entries of a sequence keyed by the decimal text of their index, as
      spreading an array or a string produces them. */
  function Indexed(items: seq<Json>): map<string, Json> {
    if |items| == 0 then map[]
    else Indexed(items[..|items| - 1])[Show(|items| - 1) := items[|items| - 1]]
  }

  /** The keys of `Indexed(items)` are the decimal texts of the indices. */
  lemma {:induction false} IndexedKeys(items: seq<Json>)
    ensures forall k :: k in Indexed(items) <==> exists i :: 0 <= i < |items| && k == Show(i)
  {
    if |items| > 0 {
      var last := |items| - 1;
      IndexedKeys(items[..last]);
      forall k
        ensures k in Indexed(items) <==> exists i :: 0 <= i < |items| && k == Show(i)
      {
        if i :| 0 <= i < |items| && k == Show(i) {
          if i < last {
            assert k in Indexed(items[..last]);
          }
        }
      }
    }
  }

  /** Each index's text leads to the element at that index. */
  lemma {:induction false} IndexedValues(items: seq<Json>)
    ensures forall i :: 0 <= i < |items| ==> Show(i) in Indexed(items) && Indexed(items)[Show(i)] == items[i]
  {
    if |items| > 0 {
      var last := |items| - 1;
      var front := Indexed(items[..last]);
      IndexedValues(items[..last]);
      ShowDistinctBelow(last);
      assert Indexed(items) == front[Show(last) := items[last]];
      forall i | 0 <= i < last
        ensures Show(i) in Indexed(items) && Indexed(items)[Show(i)] == items[i]
      {
        var k := Show(i);
        assert k != Show(last);
        assert k in front && front[k] == items[..last][i];
        assert items[..last][i] == items[i];
      }
    }
  }

  /** Indices below `n` have decimal texts other than that of `n`. */
  lemma ShowDistinctBelow(n: nat)
    ensures forall i :: 0 <= i < n ==> Show(i) != Show(n)
  {
    forall i | 0 <= i < n
      ensures Show(i) != Show(n)
    {
      if Show(i) == Show(n) {
        ShowInjective(i, n);
      }
    }
  }

  /** The own enumerable properties of `v`, those `{...v}` copies: an
      object's fields, an array's elements or a string's characters by index,
      and nothing for the other values. */
  function Spread(v: Json): (m: map<string, Json>)
    ensures v.JObject? ==> m == v.fields
    ensures v.JArray? ==> forall k :: k in m <==> exists i :: 0 <= i < |v.items| && k == Show(i)
    ensures v.JArray? ==> forall i :: 0 <= i < |v.items| ==> m[Show(i)] == v.items[i]
    ensures !(v.JObject? || v.JArray? || v.JString?) ==> m == map[]
  {
    match v
    case JObject(fields) => fields
    case JArray(items) =>
      IndexedKeys(items);
      IndexedValues(items);
      Indexed(items)
    case JString(s) => Indexed(seq(|s|, i requires 0 <= i < |s| => JString([s[i]])))
    case _ => map[]
  }

  /** The guard "truthy and `typeof` object" admits exactly the arrays and
      the objects. */
  lemma TruthyObjectIsContainer(v: Json)
    ensures Truthy(v) && TypeOf(v) == "object" <==> v.JArray? || v.JObject?
  {
  }
}
