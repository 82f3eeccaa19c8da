/** Normalisation of the options argument, shared by `copy` in both
 *  engines: loose JavaScript values become the booleans and the limit the
 *  engines read. */
module Options {
  import opened Wrappers

  /** The JavaScript values an option may hold, as far as normalisation
   *  tells them apart. */
  datatype JsValue = Undefined | Null | Bool(b: bool) | Num(n: int) | Str(s: string) | Function | RegExp | Object

  /** JavaScript truthiness. */
  predicate Truthy(v: JsValue) {
    match v
    case Undefined => false
    case Null => false
    case Bool(b) => b
    case Num(n) => n != 0
    case Str(s) => s != ""
    case _ => true
  }

  /** The fields of an options object; `limit` is absent or a number. */
  datatype Fields = Fields(
    limit: Option<int>,
    overwrite: JsValue,
    preserveTimestamps: JsValue,
    stopOnError: JsValue,
    dereference: JsValue,
    errors: JsValue,
    filter: JsValue)

  const NoFields: Fields := Fields(None, Undefined, Undefined, Undefined, Undefined, Undefined, Undefined)

  /** What the caller passes in the options position: nothing (or another
   *  falsy value), a filter function, a filter RegExp, or an object. */
  datatype OptionsArg = Falsy | FilterFunction | FilterRegExp | Given(fields: Fields)

  datatype CopyOptions = CopyOptions(
    limit: int,
    overwrite: bool,
    preserveTimestamps: bool,
    stopOnError: bool,
    dereference: bool,
    errors: JsValue,
    filter: JsValue)

  const DefaultLimit: int := 512

  function LimitTruthy(l: Option<int>): bool {
    l.Some? && l.value != 0
  }

  /** The fields once a bare filter has been wrapped as `{filter: options}`
   *  and a falsy argument replaced by `{}`. */
  function FieldsOf(arg: OptionsArg): (f: Fields)
    ensures arg.FilterFunction? ==> f == NoFields.(filter := Function)
    ensures arg.FilterRegExp? ==> f == NoFields.(filter := RegExp)
  {
    match arg
    case Falsy => NoFields
    case FilterFunction => NoFields.(filter := Function)
    case FilterRegExp => NoFields.(filter := RegExp)
    case Given(fields) => fields
  }

  /** The option defaults applied by both engines' `copy`; `fsLimit` is the
   *  `limit` of the injected `enFs` module. */
  function Normalize(arg: OptionsArg, fsLimit: Option<int>): (o: CopyOptions)
    ensures o.overwrite <==> FieldsOf(arg).overwrite == Bool(true)
    ensures o.preserveTimestamps <==> FieldsOf(arg).preserveTimestamps == Bool(true)
    ensures o.dereference <==> FieldsOf(arg).dereference == Bool(true)
    ensures !o.stopOnError <==> FieldsOf(arg).stopOnError == Bool(false)
    ensures o.limit != 0
    ensures LimitTruthy(FieldsOf(arg).limit) ==> o.limit == FieldsOf(arg).limit.value
    ensures !LimitTruthy(FieldsOf(arg).limit) && !LimitTruthy(fsLimit) ==> o.limit == DefaultLimit
    ensures Truthy(o.errors) || o.errors == Null
    ensures o.filter == FieldsOf(arg).filter
  {
    var f := FieldsOf(arg);
    CopyOptions(
      if LimitTruthy(f.limit) then f.limit.value
      else if LimitTruthy(fsLimit) then fsLimit.value
      else DefaultLimit,
      f.overwrite == Bool(true),
      f.preserveTimestamps == Bool(true),
      f.stopOnError != Bool(false),
      f.dereference == Bool(true),
      if Truthy(f.errors) then f.errors else Null,
      f.filter)
  }

  /** Who the asynchronous `copy` will call back: the function passed in
   *  the options position, the one passed as `callback`, or `noop`. */
  datatype Callback = OptionsPositionCallback | GivenCallback | NoopCallback

  /** The asynchronous `copy(src, dst, options, callback)`: a function in
   *  the options position with no callback becomes the callback and the
   *  options become `{}`; only then is a function or RegExp taken as the
   *  filter. */
  function NormalizeAsync(arg: OptionsArg, callbackGiven: bool, fsLimit: Option<int>): (r: (CopyOptions, Callback))
    ensures arg.FilterFunction? && !callbackGiven ==>
      r.1 == OptionsPositionCallback && r.0 == Normalize(Falsy, fsLimit) && r.0.filter == Undefined
    ensures !(arg.FilterFunction? && !callbackGiven) ==> r.0 == Normalize(arg, fsLimit)
    ensures callbackGiven <==> r.1 == GivenCallback
    ensures r.1 == NoopCallback <==> !callbackGiven && !arg.FilterFunction?
  {
    if arg.FilterFunction? && !callbackGiven then
      (Normalize(Given(NoFields), fsLimit), OptionsPositionCallback)
    else
      (Normalize(arg, fsLimit), if callbackGiven then GivenCallback else NoopCallback)
  }
}
