/**
 * The `filter` vector modifier: runs its pipeline on every element of the
 * vector in the context and keeps, in order, the elements the pipeline
 * reports valid.
 */
module Filter {
  import opened Seqs
  import opened PipelineCtx

  /**
   * The pipeline the modifier runs on each element, seen only through the
   * verdict it gives on an element's context.
   */
  datatype Pipeline = Pipeline(accepts: Ctx -> bool)

  datatype FilterModifier = FilterModifier(pipeline: Pipeline)

  /** The modifier's name in the schema language. */
  function Name(m: FilterModifier): (r: string)
    ensures r == "filter"
  {
    "filter"
  }

  /** The context element `i` is evaluated in: its value, the key path extended by `i`. */
  function ItemCtx(ctx: Ctx, items: seq<Value>, i: nat): (r: Ctx)
    requires i < |items|
    ensures r.value == items[i] && r.keyPath == ctx.keyPath + [Index(i)] && r.env == ctx.env
  {
    ctx.(value := items[i], keyPath := ctx.keyPath + [Index(i)])
  }

  /** Which elements the pipeline accepts, position by position. */
  function Verdicts(m: FilterModifier, ctx: Ctx, items: seq<Value>): (r: seq<bool>)
    ensures |r| == |items|
    ensures forall i :: 0 <= i < |items| ==> r[i] == m.pipeline.accepts(ItemCtx(ctx, items, i))
  {
    seq(|items|, i requires 0 <= i < |items| => m.pipeline.accepts(ItemCtx(ctx, items, i)))
  }

  /** The accepted elements, in their original order. */
  function Kept(m: FilterModifier, ctx: Ctx, items: seq<Value>): (r: seq<Value>)
    ensures |r| <= |items|
  {
    Pick(items, Positions(Verdicts(m, ctx, items)))
  }

  /**
   * `FilterModifier::call`: requires a vector value and replaces only the
   * value, with the accepted elements in their original order.
   */
  method Call(m: FilterModifier, ctx: Ctx) returns (r: Ctx)
    requires ctx.value.Vec?
    ensures r == ctx.(value := Vec(Kept(m, ctx, ctx.value.items)))
  {
    var items := ctx.value.items;
    ghost var verdicts := Verdicts(m, ctx, items);
    var retval: seq<Value> := [];
    var i := 0;
    PositionsBounds(verdicts);
    while i < |items|
      invariant 0 <= i <= |items|
      invariant retval == Pick(items, Positions(verdicts[..i]))
    {
      var itemCtx := ItemCtx(ctx, items, i);
      PositionsPrefixStep(verdicts, i);
      assert verdicts[i] == m.pipeline.accepts(itemCtx);
      if m.pipeline.accepts(itemCtx) {
        PickSnoc(items, Positions(verdicts[..i]), i);
        retval := retval + [itemCtx.value];
      }
      i := i + 1;
    }
    r := ctx.(value := Vec(retval));
  }

  /**
   * What the modifier keeps: an element is kept exactly when it occurs at a
   * position the pipeline accepts, and an empty vector stays empty.
   */
  lemma KeptMeaning(m: FilterModifier, ctx: Ctx, items: seq<Value>)
    ensures items == [] ==> Kept(m, ctx, items) == []
    ensures forall x :: x in Kept(m, ctx, items) <==>
      exists i :: 0 <= i < |items| && items[i] == x && m.pipeline.accepts(ItemCtx(ctx, items, i))
  {
    var verdicts := Verdicts(m, ctx, items);
    KeptAreAccepted(items, verdicts);
  }

  /** The picked elements are exactly the elements at selected positions. */
  lemma KeptAreAccepted(items: seq<Value>, verdicts: seq<bool>)
    requires |verdicts| == |items|
    ensures forall x :: x in Pick(items, Positions(verdicts)) <==>
      exists i :: 0 <= i < |items| && items[i] == x && verdicts[i]
  {
    var pos := Positions(verdicts);
    var kept := Pick(items, pos);
    forall x | x in kept
      ensures exists i :: 0 <= i < |items| && items[i] == x && verdicts[i]
    {
      var j :| 0 <= j < |kept| && kept[j] == x;
      assert items[pos[j]] == x && verdicts[pos[j]];
    }
    forall x | exists i :: 0 <= i < |items| && items[i] == x && verdicts[i]
      ensures x in kept
    {
      var i :| 0 <= i < |items| && items[i] == x && verdicts[i];
      PositionsMembership(verdicts, i);
      var j :| 0 <= j < |pos| && pos[j] == i;
      assert kept[j] == x;
    }
  }
}
