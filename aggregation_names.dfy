/**
 * The names the group-by planner synthesises. Every accumulator, companion
 * counter and projection name has the shape
 * `{prefix}_{kind}{separator}{tail}`, where the prefix is `_having` for an
 * accumulator computed for a having filter and empty otherwise.
 */
module AggregationNames {

  /** The aggregate kinds; the request keys are `"_" + KindName(g)`. */
  datatype Kind = Count | Sum | Avg | Min | Max

  function KindName(g: Kind): (r: string)
    ensures 3 <= |r| && '_' !in r && '.' !in r
  {
    match g
    case Count => "count"
    case Sum => "sum"
    case Avg => "avg"
    case Min => "min"
    case Max => "max"
  }

  /** The request key of a kind, such as `_sum`; the source strips its leading `_`. */
  function KindKey(g: Kind): (r: string)
    ensures |r| > 0 && r[0] == '_' && r[1..] == KindName(g)
  {
    "_" + KindName(g)
  }

  function Prefix(havingMode: bool): (r: string)
    ensures '.' !in r
  {
    if havingMode then "_having" else ""
  }

  /** `_{kind}{sep}{tail}`. */
  function Unprefixed(g: Kind, sep: char, tail: string): string
  {
    "_" + KindName(g) + [sep] + tail
  }

  /** `{prefix}_{kind}{sep}{tail}`. */
  function Tagged(havingMode: bool, g: Kind, sep: char, tail: string): string
  {
    Prefix(havingMode) + Unprefixed(g, sep, tail)
  }

  /** `{prefix}_{g}_{column}`: the accumulator of kind `g` over a column. */
  function AccumulatorName(havingMode: bool, g: Kind, column: string): string
  {
    Tagged(havingMode, g, '_', column)
  }

  /** `{prefix}_sum_count_{column}`: the companion counter of a sum. */
  function CounterName(havingMode: bool, column: string): string
  {
    Tagged(havingMode, Sum, '_', "count_" + column)
  }

  /** `{prefix}_{g}.{key}`: where the result lands, nested under `{prefix}_{g}` by logical name. */
  function ProjectionName(havingMode: bool, g: Kind, key: string): string
  {
    Tagged(havingMode, g, '.', key)
  }

  /** `{prefix}_{g}`: the top-level field a projection creates. */
  function ProjectionHead(havingMode: bool, g: Kind): (r: string)
    ensures '.' !in r
  {
    Prefix(havingMode) + "_" + KindName(g)
  }

  /** `_having_{g}.{column}`: the field the having filter tests. */
  function MatchKey(g: Kind, column: string): string
  {
    "_having_" + KindName(g) + "." + column
  }

  // ---------------------------------------------------------------------------

  lemma TaggedAt1(havingMode: bool, g: Kind, sep: char, tail: string)
    ensures |Tagged(havingMode, g, sep, tail)| > 2
    ensures Tagged(havingMode, g, sep, tail)[1] == if havingMode then 'h' else KindName(g)[0]
  {
  }

  /** Every synthesised name and head starts with `_`. */
  lemma LeadingUnderscore(havingMode: bool, g: Kind, sep: char, tail: string)
    ensures Tagged(havingMode, g, sep, tail)[0] == '_'
    ensures ProjectionHead(havingMode, g)[0] == '_'
  {
  }

  /** No synthesised name is the group key `_id`. */
  lemma TaggedIsNotId(havingMode: bool, g: Kind, sep: char, tail: string)
    ensures Tagged(havingMode, g, sep, tail) != "_id"
  {
    TaggedAt1(havingMode, g, sep, tail);
    assert "_id"[1] == 'i';
  }

  /** No projection head is the group key `_id`. */
  lemma HeadIsNotId(havingMode: bool, g: Kind)
    ensures ProjectionHead(havingMode, g) != "_id"
  {
    HeadLetters(havingMode, g);
    KindInitialIsNotH(g);
    assert "_id"[1] == 'i';
  }

  /** Two kind names that agree on their first two letters are the same kind. */
  lemma KindFromLetters(g1: Kind, g2: Kind)
    requires KindName(g1)[0] == KindName(g2)[0] && KindName(g1)[1] == KindName(g2)[1]
    ensures g1 == g2
  {
  }

  /** No kind name starts with the `h` of `_having`. */
  lemma KindInitialIsNotH(g: Kind)
    ensures KindName(g)[0] != 'h'
  {
  }

  lemma CancelPrefix(p: string, r1: string, r2: string)
    requires p + r1 == p + r2
    ensures r1 == r2
  {
    assert r1 == (p + r1)[|p|..];
    assert r2 == (p + r2)[|p|..];
  }

  /** `_{kind}{sep}{tail}` determines its kind, separator and tail. */
  lemma UnprefixedInjective(g1: Kind, c1: char, t1: string, g2: Kind, c2: char, t2: string)
    requires Unprefixed(g1, c1, t1) == Unprefixed(g2, c2, t2)
    ensures g1 == g2 && c1 == c2 && t1 == t2
  {
    var r1 := Unprefixed(g1, c1, t1);
    var r2 := Unprefixed(g2, c2, t2);
    assert r1[1] == KindName(g1)[0] && r1[2] == KindName(g1)[1];
    assert r2[1] == KindName(g2)[0] && r2[2] == KindName(g2)[1];
    KindFromLetters(g1, g2);
    var n := |KindName(g1)|;
    assert r1[n + 1] == c1 && r2[n + 1] == c2;
    assert t1 == r1[n + 2..] && t2 == r2[n + 2..];
  }

  /** In one namespace, a tagged name determines its kind, separator and tail. */
  lemma TaggedInjectiveWithin(hm: bool, g1: Kind, c1: char, t1: string, g2: Kind, c2: char, t2: string)
    requires Tagged(hm, g1, c1, t1) == Tagged(hm, g2, c2, t2)
    ensures g1 == g2 && c1 == c2 && t1 == t2
  {
    CancelPrefix(Prefix(hm), Unprefixed(g1, c1, t1), Unprefixed(g2, c2, t2));
    UnprefixedInjective(g1, c1, t1, g2, c2, t2);
  }

  /** A tagged name determines its namespace, kind, separator and tail. */
  lemma TaggedInjective(hm1: bool, g1: Kind, c1: char, t1: string, hm2: bool, g2: Kind, c2: char, t2: string)
    requires Tagged(hm1, g1, c1, t1) == Tagged(hm2, g2, c2, t2)
    ensures hm1 == hm2 && g1 == g2 && c1 == c2 && t1 == t2
  {
    TaggedAt1(hm1, g1, c1, t1);
    TaggedAt1(hm2, g2, c2, t2);
    KindInitialIsNotH(g1);
    KindInitialIsNotH(g2);
    assert hm1 == hm2;
    TaggedInjectiveWithin(hm1, g1, c1, t1, g2, c2, t2);
  }

  /** A projection head is never an accumulator, counter or projection name: it has no tail. */
  lemma HeadIsNotTagged(hm1: bool, g1: Kind, hm2: bool, g2: Kind, c: char, t: string)
    ensures ProjectionHead(hm1, g1) != Tagged(hm2, g2, c, t)
  {
    HeadLetters(hm1, g1);
    TaggedLetters(hm2, g2, c, t);
    KindInitialIsNotH(g1);
    KindInitialIsNotH(g2);
    if hm1 == hm2 && g1 != g2 && KindName(g1)[0] == KindName(g2)[0] && KindName(g1)[1] == KindName(g2)[1] {
      KindFromLetters(g1, g2);
    }
  }

  /** The letters of a projection head that tell its namespace and kind apart, and its length. */
  lemma HeadLetters(hm: bool, g: Kind)
    ensures var h, p := ProjectionHead(hm, g), |Prefix(hm)|;
      && |h| == p + 1 + |KindName(g)|
      && h[1] == (if hm then 'h' else KindName(g)[0])
      && h[p + 1] == KindName(g)[0] && h[p + 2] == KindName(g)[1]
  {
  }

  /** The letters of a tagged name that tell its namespace and kind apart, and its length. */
  lemma TaggedLetters(hm: bool, g: Kind, c: char, t: string)
    ensures var a, p := Tagged(hm, g, c, t), |Prefix(hm)|;
      && |a| == p + 2 + |KindName(g)| + |t|
      && a[1] == (if hm then 'h' else KindName(g)[0])
      && a[p + 1] == KindName(g)[0] && a[p + 2] == KindName(g)[1]
  {
  }

  /** Projection heads of different namespaces or kinds differ. */
  lemma ProjectionHeadInjective(hm1: bool, g1: Kind, hm2: bool, g2: Kind)
    requires ProjectionHead(hm1, g1) == ProjectionHead(hm2, g2)
    ensures hm1 == hm2 && g1 == g2
  {
    var h1, h2 := ProjectionHead(hm1, g1), ProjectionHead(hm2, g2);
    assert h1[1] == if hm1 then 'h' else KindName(g1)[0];
    assert h2[1] == if hm2 then 'h' else KindName(g2)[0];
    var p := |Prefix(hm1)|;
    assert ("_" + KindName(g1))[1] == KindName(g1)[0];
    assert h1[p + 1] == KindName(g1)[0] && h1[p + 2] == KindName(g1)[1];
    assert h2[p + 1] == KindName(g2)[0] && h2[p + 2] == KindName(g2)[1];
    KindFromLetters(g1, g2);
  }

  /** Having accumulators never share a name with direct ones, whatever the columns. */
  lemma HavingNamespaceIsSeparate(g1: Kind, c1: char, t1: string, g2: Kind, c2: char, t2: string)
    ensures Tagged(true, g1, c1, t1) != Tagged(false, g2, c2, t2)
  {
    TaggedAt1(true, g1, c1, t1);
    TaggedAt1(false, g2, c2, t2);
  }

  /** The projected field of a projection name is its head. */
  lemma ProjectionNameHead(hm: bool, g: Kind, key: string)
    ensures ProjectionName(hm, g, key) == ProjectionHead(hm, g) + "." + key
  {
  }

  /**
   * The having filter tests `_having_{g}.{column}` while the projection writes
   * `_having_{g}.{key}`: they name the same field exactly when the column
   * name equals the logical name.
   */
  lemma MatchKeyAgreesIff(g: Kind, key: string, column: string)
    ensures MatchKey(g, column) == ProjectionName(true, g, key) <==> column == key
  {
    assert MatchKey(g, column) == Tagged(true, g, '.', column);
    if MatchKey(g, column) == ProjectionName(true, g, key) {
      TaggedInjective(true, g, '.', column, true, g, '.', key);
    }
  }

  /** `{prefix}_{g}_{column}`, as the builder spells it. */
  lemma AccumulatorSpelling(hm: bool, g: Kind, column: string)
    ensures AccumulatorName(hm, g, column) == Prefix(hm) + "_" + KindName(g) + "_" + column
  {
  }

  /** `{prefix}_{g}_count_{column}` with `g` the sum, as the builder spells it. */
  lemma CounterSpelling(hm: bool, column: string)
    ensures CounterName(hm, column) == Prefix(hm) + "_" + KindName(Sum) + "_count_" + column
  {
  }

  /** `{prefix}_count_{column}` and `{prefix}_count__all`, as the builder spells them. */
  lemma CountSpelling(hm: bool, column: string)
    ensures AccumulatorName(hm, Count, column) == Prefix(hm) + "_count_" + column
    ensures AccumulatorName(hm, Count, "_all") == Prefix(hm) + "_count__all"
  {
    assert "_count_" + column == "_" + "count" + "_" + column;
    assert "_count__all" == "_count_" + "_all";
  }

  /** `{prefix}_{g}.{key}`, as the builder spells it. */
  lemma ProjectionSpelling(hm: bool, g: Kind, key: string)
    ensures ProjectionName(hm, g, key) == Prefix(hm) + "_" + KindName(g) + "." + key
  {
  }

  /** A `$match` key determines its kind and column. */
  lemma MatchKeyInjective(g1: Kind, c1: string, g2: Kind, c2: string)
    requires MatchKey(g1, c1) == MatchKey(g2, c2)
    ensures g1 == g2 && c1 == c2
  {
    HavingSpelling(g1, c1);
    HavingSpelling(g2, c2);
    TaggedInjective(true, g1, '.', c1, true, g2, '.', c2);
  }

  /** The names the having filter spells out. */
  lemma HavingSpelling(g: Kind, key: string)
    ensures ProjectionName(true, g, key) == "_having_" + KindName(g) + "." + key
    ensures ProjectionHead(true, g) == "_having_" + KindName(g)
  {
    assert "_having_" == "_having" + "_";
  }
}
