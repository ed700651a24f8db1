/**
 * The expressions the group-by planner puts into its `$group` and `$set`
 * stages, and what they evaluate to on a row.
 *
 * The source tests "the column has a value" with
 * `{"$cond": [{"$ifNull": ["$c", false]}, ..., ...]}`. Under MongoDB's
 * truthiness that condition is also false for a stored `0` or `false`, so it
 * does not separate null from zero. The planner here emits the source's
 * condition (`PresenceCount`, `IdComponent`); `Present`, which is true
 * exactly for a non-null value, and the expressions built on it
 * (`NonNullCount`, `SeparatingIdComponent`) are the corrected forms, and the
 * lemmas below compare the two.
 */
module AggregationExprs {
  import opened Wrappers
  import opened Bson
  import opened AggregationNames

  /** The row has a non-null value at `c`. */
  predicate HasValue(row: Document, c: string)
  {
    Lookup(row, c).Some? && Lookup(row, c) != Some(Null)
  }

  /** The source's presence condition, `{"$ifNull": ["$c", false]}`. */
  function PresenceAsWritten(c: string): Value
  {
    Op("$ifNull", Arr([FieldRef(c), Bool(false)]))
  }

  /** A presence condition that is true exactly for a non-null value. */
  function Present(c: string): (v: Value)
    ensures Refs(v) == {c}
  {
    var inner := Op("$ifNull", Arr([FieldRef(c), Null]));
    RefsOfPair(FieldRef(c), Null);
    RefsOfPair(inner, Null);
    Op("$ne", Arr([inner, Null]))
  }

  /** `{"$cond": [cond, 1, 0]}`: a row's contribution to a counter. */
  function Indicator(cond: Value): Value
  {
    Op("$cond", Arr([cond, Int(1), Int(0)]))
  }

  /** The source's counter, `{"$sum": {"$cond": [{"$ifNull": ["$c", false]}, 1, 0]}}`. */
  function PresenceCount(c: string): Value
  {
    Op("$sum", Indicator(PresenceAsWritten(c)))
  }

  /** The corrected counter: `{"$sum": ...}` of `Present`, the number of rows with a value at `c`. */
  function NonNullCount(c: string): Value
  {
    Op("$sum", Indicator(Present(c)))
  }

  /** `{"$count": {}}`: every row of the group. */
  function CountAll(): Value
  {
    Op("$count", Doc([]))
  }

  /** `{"$g": "$c"}`: the accumulator of kind `g` over column `c`. */
  function KindAccumulator(g: Kind, c: string): Value
  {
    Op("$" + KindName(g), FieldRef(c))
  }

  /** The source's component of the group `_id`, `{"$cond": [{"$ifNull": ["$c", false]}, "$c", null]}`. */
  function IdComponent(c: string): Value
  {
    Op("$cond", Arr([PresenceAsWritten(c), FieldRef(c), Null]))
  }

  /** The corrected `_id` component: the value at `c`, or an explicit null when it has none. */
  function SeparatingIdComponent(c: string): Value
  {
    Op("$cond", Arr([Present(c), FieldRef(c), Null]))
  }

  /** The projection of a sum: null when the companion counter is 0, else the sum. */
  function SumProjection(hm: bool, c: string): (v: Value)
    ensures Refs(v) == {CounterName(hm, c), AccumulatorName(hm, Sum, c)}
  {
    var counter, acc := CounterName(hm, c), AccumulatorName(hm, Sum, c);
    var test := Op("$eq", Arr([FieldRef(counter), Int(0)]));
    var es := [Entry("if", test), Entry("then", Null), Entry("else", FieldRef(acc))];
    RefsOfPair(FieldRef(counter), Int(0));
    assert RefsOfDoc(es) == {counter, acc} by {
      assert es[1..] == [Entry("then", Null), Entry("else", FieldRef(acc))];
      assert es[1..][1..] == [Entry("else", FieldRef(acc))];
      assert es[1..][1..][1..] == [];
      assert RefsOfDoc(es[1..][1..]) == {acc} + RefsOfDoc([]);
      assert RefsOfDoc(es[1..]) == Refs(Null) + RefsOfDoc(es[1..][1..]);
      assert RefsOfDoc(es) == Refs(test) + RefsOfDoc(es[1..]);
    }
    Op("$cond", Doc(es))
  }

  /** The `$set` value a request projects. */
  function Projection(hm: bool, g: Kind, c: string): (v: Value)
    ensures Refs(v) == set n | n in Intermediates(hm, g, c)
  {
    if g == Sum then SumProjection(hm, c) else FieldRef(AccumulatorName(hm, g, c))
  }

  /** The intermediate names a request adds to `$group` and schedules for `$unset`, in push order. */
  function Intermediates(hm: bool, g: Kind, c: string): (r: seq<string>)
    ensures 1 <= |r| <= 2 && r[0] == AccumulatorName(hm, g, c)
    ensures |r| == 2 <==> g == Sum
    ensures g == Sum ==> r[1] == CounterName(hm, c)
  {
    [AccumulatorName(hm, g, c)] + (if g == Sum then [CounterName(hm, c)] else [])
  }

  // ---------------------------------------------------------------------------
  // Evaluation on a row

  /** `Present(c)` is true exactly when the row has a non-null value at `c`. */
  lemma PresentMeansHasValue(c: string, row: Document)
    ensures Eval(Present(c), row) == Some(Bool(HasValue(row, c)))
  {
    EvalFieldRef(c, row);
    EvalIfNull(FieldRef(c), Null, row);
    EvalNe(Op("$ifNull", Arr([FieldRef(c), Null])), Null, row);
  }

  /** With `Present`, a row contributes 1 to a counter exactly when it has a value. */
  lemma IndicatorCountsValues(c: string, row: Document)
    ensures Eval(Indicator(Present(c)), row) == Some(Int(if HasValue(row, c) then 1 else 0))
  {
    PresentMeansHasValue(c, row);
    EvalCond(Present(c), Int(1), Int(0), row);
  }

  /** With `Present`, an `_id` component is the row's value, or null when it has none. */
  lemma SeparatingIdComponentValue(c: string, row: Document)
    ensures Eval(SeparatingIdComponent(c), row) == if HasValue(row, c) then Lookup(row, c) else Some(Null)
  {
    PresentMeansHasValue(c, row);
    EvalFieldRef(c, row);
    EvalCond(Present(c), FieldRef(c), Null, row);
  }

  /** Two rows share a corrected `_id` component exactly when their values agree or both have none. */
  lemma SeparatingIdComponentSeparatesNull(c: string, row1: Document, row2: Document)
    ensures Eval(SeparatingIdComponent(c), row1) == Eval(SeparatingIdComponent(c), row2) <==>
      (HasValue(row1, c) && HasValue(row2, c) && Lookup(row1, c) == Lookup(row2, c))
      || (!HasValue(row1, c) && !HasValue(row2, c))
  {
    SeparatingIdComponentValue(c, row1);
    SeparatingIdComponentValue(c, row2);
  }

  /**
   * The projected sum is null when the companion counter is 0 and the
   * accumulated sum otherwise (on a grouped row holding both).
   */
  lemma SumProjectionGuard(hm: bool, c: string, grouped: Document)
    requires '.' !in c
    ensures Eval(SumProjection(hm, c), grouped) ==
      if Get(grouped, CounterName(hm, c)) == Some(Int(0)) then Some(Null)
      else Get(grouped, AccumulatorName(hm, Sum, c))
  {
    var counter, acc := CounterName(hm, c), AccumulatorName(hm, Sum, c);
    assert '.' !in counter && '.' !in acc by {
      assert counter == Prefix(hm) + ("_" + KindName(Sum) + ['_'] + ("count_" + c));
      assert acc == Prefix(hm) + ("_" + KindName(Sum) + ['_'] + c);
    }
    EvalFieldRef(counter, grouped);
    EvalFieldRef(acc, grouped);
    LookupPlain(grouped, counter);
    LookupPlain(grouped, acc);
    var test := Op("$eq", Arr([FieldRef(counter), Int(0)]));
    EvalEq(FieldRef(counter), Int(0), grouped);
    EvalCondDoc(test, Null, FieldRef(acc), grouped);
  }

  // ---------------------------------------------------------------------------
  // The source's presence condition

  /** As written, a row contributes 1 exactly when its value is truthy, not when it is non-null. */
  lemma IndicatorAsWrittenCountsTruthy(c: string, row: Document)
    ensures Eval(Indicator(PresenceAsWritten(c)), row) == Some(Int(if Truthy(Lookup(row, c)) then 1 else 0))
  {
    EvalFieldRef(c, row);
    EvalIfNull(FieldRef(c), Bool(false), row);
    EvalCond(PresenceAsWritten(c), Int(1), Int(0), row);
  }

  /** As written, an `_id` component is the row's value when it is truthy, and null otherwise. */
  lemma IdComponentValue(c: string, row: Document)
    ensures Eval(IdComponent(c), row) == if Truthy(Lookup(row, c)) then Lookup(row, c) else Some(Null)
  {
    EvalFieldRef(c, row);
    EvalIfNull(FieldRef(c), Bool(false), row);
    EvalCond(PresenceAsWritten(c), FieldRef(c), Null, row);
  }

  /** A row holding 0 has a value, yet the written counter does not count it; `Present` does. */
  lemma AsWrittenSkipsZero(c: string)
    requires '.' !in c
    ensures var row := [Entry(c, Int(0))];
      HasValue(row, c)
      && Eval(Indicator(PresenceAsWritten(c)), row) == Some(Int(0))
      && Eval(Indicator(Present(c)), row) == Some(Int(1))
  {
    var row := [Entry(c, Int(0))];
    LookupRowOfOne(c, Int(0));
    IndicatorAsWrittenCountsTruthy(c, row);
    IndicatorCountsValues(c, row);
  }

  /**
   * As written, a row holding `false` gets the same `_id` component as a
   * row holding null, so the two land in one group; with `Present` they do not.
   */
  lemma AsWrittenMergesFalseWithNull(c: string)
    requires '.' !in c
    ensures var rowFalse, rowNull := [Entry(c, Bool(false))], [Entry(c, Null)];
      Eval(IdComponent(c), rowFalse) == Eval(IdComponent(c), rowNull) == Some(Null)
      && Eval(SeparatingIdComponent(c), rowFalse) != Eval(SeparatingIdComponent(c), rowNull)
  {
    var rowFalse, rowNull := [Entry(c, Bool(false))], [Entry(c, Null)];
    LookupRowOfOne(c, Bool(false));
    LookupRowOfOne(c, Null);
    EvalFieldRef(c, rowFalse);
    EvalFieldRef(c, rowNull);
    EvalIfNull(FieldRef(c), Bool(false), rowFalse);
    EvalIfNull(FieldRef(c), Bool(false), rowNull);
    EvalCond(PresenceAsWritten(c), FieldRef(c), Null, rowFalse);
    EvalCond(PresenceAsWritten(c), FieldRef(c), Null, rowNull);
    SeparatingIdComponentValue(c, rowFalse);
    SeparatingIdComponentValue(c, rowNull);
  }

  // ---------------------------------------------------------------------------
  // When two requests' intermediates collide

  /**
   * Two requests share an intermediate name exactly when they are the same
   * request, or both are sums in one namespace and one column is the other
   * prefixed with `count_` (then a sum's accumulator is the other's counter).
   */
  predicate IntermediatesClash(hm1: bool, g1: Kind, c1: string, hm2: bool, g2: Kind, c2: string)
  {
    (hm1 == hm2 && g1 == g2 && c1 == c2)
    || (hm1 == hm2 && g1 == Sum && g2 == Sum && (c1 == "count_" + c2 || c2 == "count_" + c1))
  }

  lemma IntermediatesOverlapIff(hm1: bool, g1: Kind, c1: string, hm2: bool, g2: Kind, c2: string)
    ensures (exists n :: n in Intermediates(hm1, g1, c1) && n in Intermediates(hm2, g2, c2))
      <==> IntermediatesClash(hm1, g1, c1, hm2, g2, c2)
  {
    if exists n :: n in Intermediates(hm1, g1, c1) && n in Intermediates(hm2, g2, c2) {
      var n :| n in Intermediates(hm1, g1, c1) && n in Intermediates(hm2, g2, c2);
      SharedNameClashes(hm1, g1, c1, hm2, g2, c2, n);
    }
    if IntermediatesClash(hm1, g1, c1, hm2, g2, c2) {
      ClashSharesName(hm1, g1, c1, hm2, g2, c2);
    }
  }

  /** A name pushed by both requests comes from one of the collisions `IntermediatesClash` lists. */
  lemma SharedNameClashes(hm1: bool, g1: Kind, c1: string, hm2: bool, g2: Kind, c2: string, n: string)
    requires n in Intermediates(hm1, g1, c1) && n in Intermediates(hm2, g2, c2)
    ensures IntermediatesClash(hm1, g1, c1, hm2, g2, c2)
  {
    var i1, i2 := Intermediates(hm1, g1, c1), Intermediates(hm2, g2, c2);
    if n == i1[0] && n == i2[0] {
      TaggedInjective(hm1, g1, '_', c1, hm2, g2, '_', c2);
    } else if n == i1[0] {
      TaggedInjective(hm1, g1, '_', c1, hm2, Sum, '_', "count_" + c2);
    } else if n == i2[0] {
      TaggedInjective(hm1, Sum, '_', "count_" + c1, hm2, g2, '_', c2);
    } else {
      TaggedInjective(hm1, Sum, '_', "count_" + c1, hm2, Sum, '_', "count_" + c2);
      CancelPrefix("count_", c1, c2);
    }
  }

  /** Each collision `IntermediatesClash` lists makes the two requests push a common name. */
  lemma ClashSharesName(hm1: bool, g1: Kind, c1: string, hm2: bool, g2: Kind, c2: string)
    requires IntermediatesClash(hm1, g1, c1, hm2, g2, c2)
    ensures exists n :: n in Intermediates(hm1, g1, c1) && n in Intermediates(hm2, g2, c2)
  {
    var i1, i2 := Intermediates(hm1, g1, c1), Intermediates(hm2, g2, c2);
    if hm1 == hm2 && g1 == g2 && c1 == c2 {
      assert i1[0] in i1 && i1[0] in i2;
    } else if c1 == "count_" + c2 {
      assert i1[0] == i2[1];
      assert i1[0] in i1 && i1[0] in i2;
    } else {
      assert i1[1] == i2[0];
      assert i1[1] in i1 && i1[1] in i2;
    }
  }

  /** Sums over columns `x` and `count_x`: the accumulator of one is the counter of the other. */
  lemma CountPrefixedColumnCollides()
    ensures AccumulatorName(false, Sum, "count_x") == CounterName(false, "x") == "_sum_count_x"
  {
  }
}
