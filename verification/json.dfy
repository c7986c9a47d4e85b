/** The JavaScript values that the preferences object and the saved filters are
    made of: JSON values, with `undefined` written as `None` of an `Option`. */
module Json {
  import opened Wrappers

  datatype Value =
    | Null
    | Bool(b: bool)
    | Num(n: int)
    | Str(s: string)
    | Arr(items: seq<Value>)
    | Obj(props: map<string, Value>)

  /** The two exceptions the modelled code can throw. */
  datatype JsError = TypeError | SyntaxError

  /** JavaScript truthiness; `None` is `undefined`. */
  predicate Truthy(v: Option<Value>)
  {
    match v
    case None => false
    case Some(Null) => false
    case Some(Bool(b)) => b
    case Some(Num(n)) => n != 0
    case Some(Str(s)) => s != ""
    case Some(Arr(_)) => true
    case Some(Obj(_)) => true
  }

  /** `v.key`: reading a property of `null` or `undefined` throws a TypeError;
      a property an object lacks, or any property of a primitive, is `undefined`. */
  function Prop(v: Option<Value>, key: string): (r: Result<Option<Value>, JsError>)
    ensures r.Err? <==> v == None || v == Some(Null)
    ensures r.Ok? && r.value.Some? ==> v.value.Obj? && key in v.value.props && r.value.value == v.value.props[key]
  {
    match v
    case None => Err(TypeError)
    case Some(Null) => Err(TypeError)
    case Some(Obj(m)) => Ok(if key in m then Some(m[key]) else None)
    case Some(_) => Ok(None)
  }

  /** The own enumerable properties that `{...v}` copies: those of an object,
      and none for `null`, `undefined` or a boolean or number. */
  function OwnProps(v: Option<Value>): map<string, Value>
  {
    match v
    case Some(Obj(m)) => m
    case _ => map[]
  }
}
