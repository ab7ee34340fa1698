/**
 * `prop` of the utility library, dispatched on how many arguments the
 * caller supplied. An object is a finite map from property names to values.
 */
module PropAccess {
  import opened JsValues

  /** The call shapes of `prop(obj, propName?)`. */
  datatype PropCall<K, V> = PropNoArgs | PropObject(obj: map<K, V>) | PropObjectName(obj: map<K, V>, propName: K)

  /** What `prop` hands back: `prop` itself, a function still waiting for the name, or the property's value. */
  datatype PropResult<!K, V> = PropItself | PropCurried(apply: K -> Maybe<V>) | PropValue(value: Maybe<V>)

  /** `obj[name]`: the value stored under `name`, or `undefined` when `obj` has no such property. */
  function Get<K, V>(obj: map<K, V>, name: K): (r: Maybe<V>)
    ensures r.Defined? <==> name in obj
    ensures r.Defined? ==> r.value == obj[name]
  {
    if name in obj then Defined(obj[name]) else Undefined
  }

  /** `prop`. No argument: itself. The object alone: a lookup into that object. Both: the lookup, done now. */
  function Prop<K, V>(c: PropCall<K, V>): (r: PropResult<K, V>)
    ensures r.PropItself? <==> c.PropNoArgs?
    ensures c.PropObject? ==> r.PropCurried?
    ensures c.PropObjectName? ==>
              r.PropValue? && (r.value.Defined? <==> c.propName in c.obj) &&
              (r.value.Defined? ==> r.value.value == c.obj[c.propName])
  {
    match c
    case PropNoArgs => PropItself
    case PropObject(obj) => PropCurried((subPropName: K) => Get(obj, subPropName))
    case PropObjectName(obj, propName) => PropValue(Get(obj, propName))
  }

  /** `prop(obj)(k) == prop(obj, k)`, and for a name the object has, both are `obj[k]`. */
  lemma PropShapesAgree<K, V>(obj: map<K, V>, k: K)
    ensures Prop(PropObject(obj)).apply(k) == Prop(PropObjectName(obj, k)).value
    ensures k in obj ==> Prop(PropObjectName(obj, k)).value == Defined(obj[k])
  {
  }

  /** `prop({x: 5})('x')` and `prop({x: 5}, 'x')` are both `5`. */
  lemma PropReadsX()
    ensures Prop(PropObject(map["x" := 5])).apply("x") == Defined(5)
    ensures Prop(PropObjectName(map["x" := 5], "x")).value == Defined(5)
  {
  }
}
