/**
 * The runtime values and the pipeline context the field-level modifiers work
 * on: a value, the key path of that value inside the request, and the rest of
 * the context, which the modelled modifiers carry along without reading.
 */
module PipelineCtx {

  /** One step of a key path: an object key or a vector index. */
  datatype PathItem = Key(key: string) | Index(index: nat)

  type KeyPath = seq<PathItem>

  /** An object of some model; only its model's name matters here. */
  datatype Obj = Obj(modelName: string, fieldValues: seq<(string, Value)>)

  datatype Value =
    | Null
    | Bool(b: bool)
    | Int(i: int)
    | Str(s: string)
    | Vec(items: seq<Value>)
    | Object(obj: Obj)

  /** The parts of a context that neither modifier reads or changes. */
  datatype Env = Env(action: string, stage: string)

  datatype Ctx = Ctx(value: Value, keyPath: KeyPath, env: Env)

  /** The error a modifier reports. */
  datatype Error = InternalServerError(message: string)
}
