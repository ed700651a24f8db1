/**
 * The `isInstanceOf` object item: passes a context through when its value is
 * an object of the named model, and reports an internal server error
 * otherwise.
 */
module IsInstanceOf {
  import opened Wrappers
  import opened PipelineCtx

  datatype IsObjectOfModifier = IsObjectOfModifier(model: string)

  /** `IsObjectOfModifier::new`: keeps the model name it is given. */
  function New(model: string): (m: IsObjectOfModifier)
    ensures m.model == model
  {
    IsObjectOfModifier(model)
  }

  /** Reference meaning: the value is an object whose model is called `model`. */
  predicate IsInstance(v: Value, model: string)
  {
    v.Object? && v.obj.modelName == model
  }

  /** The message reported for an object of another model; it names the expected one. */
  function MismatchMessage(model: string): (msg: string)
    ensures |msg| == |model| + 26 && msg[24..24 + |model|] == model
  {
    "Value is not object of '" + model + "'."
  }

  function Call(m: IsObjectOfModifier, ctx: Ctx): (r: Result<Ctx, Error>)
    ensures r.Success? <==> IsInstance(ctx.value, m.model)
    ensures r.Success? ==> r.value == ctx
    ensures !ctx.value.Object? ==> r == Failure(InternalServerError("Value is not object."))
    ensures ctx.value.Object? && ctx.value.obj.modelName != m.model ==>
      r == Failure(InternalServerError(MismatchMessage(m.model)))
  {
    match ctx.value
    case Object(o) =>
      if o.modelName == m.model then Success(ctx)
      else Failure(InternalServerError(MismatchMessage(m.model)))
    case _ => Failure(InternalServerError("Value is not object."))
  }

  /** Two checks with different model names never both accept the same context. */
  lemma AcceptsAtMostOneModel(m1: IsObjectOfModifier, m2: IsObjectOfModifier, ctx: Ctx)
    requires m1.model != m2.model
    ensures Call(m1, ctx).Failure? || Call(m2, ctx).Failure?
  {
  }
}
