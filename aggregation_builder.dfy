/**
 * The aggregate and group-by part of the MongoDB pipeline builder, step by
 * step: the loops that fill the `$group` document, the `$set` document and
 * the `$unset` list, the loop that builds the having filter, and the loop
 * that builds the `$sort` document. Each method is proved to compute the
 * corresponding function of `AggregationPipeline`.
 */
module AggregationBuilder {
  import opened Wrappers
  import opened Seqs
  import opened Bson
  import opened Models
  import opened AggregationNames
  import opened AggregationExprs
  import opened AggregationPlan
  import opened AggregationPipeline
  import PipelineCtx

  /**
   * `insert_group_set_unset_for_aggregate`: the accumulator (and, for a sum,
   * its counter) into `$group`, the result into `$set`, the intermediates
   * onto `$unset`.
   */
  method InsertGroupSetUnset(m: Model, group: Document, projection: Document, unset: seq<string>, k: string, g: Kind, havingMode: bool)
    returns (group': Document, projection': Document, unset': seq<string>)
    requires Valid(m) && Aggregatable(m, k)
    ensures Accumulation(group', projection', unset') == Step(Accumulation(group, projection, unset), Resolve(m, havingMode, g, k))
  {
    var prefix := if havingMode then "_having" else "";
    var dbk := if k == "_all" then "_all" else FieldColumn(m, k);
    assert Resolve(m, havingMode, g, k) == Request(havingMode, g, k, dbk);
    group' := InsertAccumulators(group, k, g, havingMode, prefix, dbk);
    projection', unset' := InsertProjection(projection, unset, k, g, havingMode, prefix, dbk);
  }

  /** The `$group` half of `insert_group_set_unset_for_aggregate`. */
  method InsertAccumulators(group: Document, k: string, g: Kind, havingMode: bool, prefix: string, dbk: string) returns (group': Document)
    requires prefix == Prefix(havingMode) && (k == "_all" ==> dbk == "_all")
    ensures group' == InsertAll(group, GroupEntries(Request(havingMode, g, k, dbk)))
  {
    ghost var rq := Request(havingMode, g, k, dbk);
    GroupEntriesInserted(group, rq);
    var gn := KindName(g);
    if g == Kind.Count {
      CountSpelling(havingMode, dbk);
      if k == "_all" {
        group' := Insert(group, prefix + "_count__all", CountAll());
      } else {
        group' := Insert(group, prefix + "_count_" + dbk, PresenceCount(dbk));
      }
    } else {
      AccumulatorSpelling(havingMode, g, dbk);
      group' := Insert(group, prefix + "_" + gn + "_" + dbk, KindAccumulator(g, dbk));
      if g == Kind.Sum {
        CounterSpelling(havingMode, dbk);
        group' := Insert(group', prefix + "_" + gn + "_count_" + dbk, PresenceCount(dbk));
      }
    }
  }

  /** The `$set` and `$unset` half of `insert_group_set_unset_for_aggregate`. */
  method InsertProjection(projection: Document, unset: seq<string>, k: string, g: Kind, havingMode: bool, prefix: string, dbk: string)
    returns (projection': Document, unset': seq<string>)
    requires prefix == Prefix(havingMode)
    ensures projection' == Insert(projection, ProjectionName(havingMode, g, k), Projection(havingMode, g, dbk))
    ensures unset' == unset + Intermediates(havingMode, g, dbk)
  {
    var gn := KindName(g);
    AccumulatorSpelling(havingMode, g, dbk);
    ProjectionSpelling(havingMode, g, k);
    var accName := prefix + "_" + gn + "_" + dbk;
    var projectionName := prefix + "_" + gn + "." + k;
    if g == Kind.Sum {
      CounterSpelling(havingMode, dbk);
      var counterName := prefix + "_" + gn + "_count_" + dbk;
      projection' := Insert(projection, projectionName, SumProjection(havingMode, dbk));
      unset' := unset + [accName];
      unset' := unset' + [counterName];
      assert Intermediates(havingMode, g, dbk) == [accName] + [counterName];
      PushTwo(unset, accName, counterName);
    } else {
      projection' := Insert(projection, projectionName, FieldRef(accName));
      unset' := unset + [accName];
      assert Intermediates(havingMode, g, dbk) == [accName];
    }
  }

  /** `GroupEntries` as the one or two inserts the call performs. */
  lemma GroupEntriesInserted(group: Document, rq: Request)
    ensures InsertAll(group, GroupEntries(rq)) ==
      var g1 := Insert(group, RequestAccumulatorName(rq), GroupValue(rq));
      if rq.kind == Sum then Insert(g1, RequestCounterName(rq), PresenceCount(rq.column)) else g1
  {
    var e0 := Entry(RequestAccumulatorName(rq), GroupValue(rq));
    InsertAllSnoc(group, [], e0);
    assert [] + [e0] == [e0];
    if rq.kind == Sum {
      var e1 := Entry(RequestCounterName(rq), PresenceCount(rq.column));
      assert GroupEntries(rq) == [e0] + [e1];
      InsertAllSnoc(group, [e0], e1);
    } else {
      assert GroupEntries(rq) == [e0];
    }
  }

  /** The group `_id`: one component per group key, as the source writes it, or null. */
  method BuildGroupId(m: Model, groupBy: Option<seq<string>>) returns (id: Value)
    requires ByOnModel(m, groupBy)
    ensures id == GroupId(m, groupBy)
  {
    if groupBy.None? {
      return Null;
    }
    var keys := groupBy.value;
    ghost var es := IdEntries(m, keys);
    var idForGroupBy: Document := [];
    for i := 0 to |keys|
      invariant idForGroupBy == InsertAll([], es[..i])
    {
      var dbk := FieldColumn(m, keys[i]);
      idForGroupBy := Insert(idForGroupBy, dbk, IdComponent(dbk));
      InsertAllStep([], es, i);
    }
    assert es[..|keys|] == es;
    return Doc(idForGroupBy);
  }

  /** The `$set` document before any aggregate: every group key copied out of `_id`. */
  method BuildBySet(m: Model, groupBy: Option<seq<string>>) returns (projection: Document)
    requires ByOnModel(m, groupBy)
    ensures projection == Initial(m, groupBy).projection
  {
    projection := [];
    if groupBy.Some? {
      var keys := groupBy.value;
      ghost var es := ByEntries(m, keys);
      for i := 0 to |keys|
        invariant projection == InsertAll([], es[..i])
      {
        var dbk := FieldColumn(m, keys[i]);
        projection := Insert(projection, keys[i], FieldRef("_id." + dbk));
        InsertAllStep([], es, i);
      }
      assert es[..|keys|] == es;
    }
  }

  /** The calls for one field of the having filter: one per kind it is filtered on. */
  method AccumulateHavingField<M>(m: Model, e: HavingEntry<M>, group: Document, projection: Document, unset: seq<string>)
    returns (group': Document, projection': Document, unset': seq<string>)
    requires Valid(m) && HasField(m, e.key)
    ensures Accumulation(group', projection', unset') == StepAll(Accumulation(group, projection, unset), EntryHavingRequests(m, e))
  {
    ghost var acc0 := Accumulation(group, projection, unset);
    ghost var b := EntryHavingRequests(m, e);
    TakeBounds([], b);
    group', projection', unset' := group, projection, unset;
    for j := 0 to |e.matchers|
      invariant Accumulation(group', projection', unset') == StepAll(acc0, b[..j])
    {
      var g := e.matchers[j].0;
      group', projection', unset' := InsertGroupSetUnset(m, group', projection', unset', e.key, g, true);
      StepAllTake(acc0, b, j);
    }
  }

  /** Every `(field, kind)` of the having filter, accumulated in the having namespace. */
  method AccumulateHaving<M>(m: Model, hs: seq<HavingEntry<M>>, group: Document, projection: Document, unset: seq<string>)
    returns (group': Document, projection': Document, unset': seq<string>)
    requires HavingOnModel(m, Some(hs))
    ensures Accumulation(group', projection', unset') == StepAll(Accumulation(group, projection, unset), Flatten(HavingRequestBlocks(m, hs)))
  {
    ghost var acc0 := Accumulation(group, projection, unset);
    ghost var bs := HavingRequestBlocks(m, hs);
    group', projection', unset' := group, projection, unset;
    for i := 0 to |hs|
      invariant Accumulation(group', projection', unset') == StepAll(acc0, Flatten(bs[..i]))
    {
      group', projection', unset' := AccumulateHavingField(m, hs[i], group', projection', unset');
      StepAllBlock(acc0, bs, i);
    }
    TakeBounds([], bs);
  }

  /** The calls for one kind of the aggregates: one per key it applies to. */
  method AccumulateAggregate(m: Model, e: AggregateEntry, group: Document, projection: Document, unset: seq<string>)
    returns (group': Document, projection': Document, unset': seq<string>)
    requires Valid(m) && forall j :: 0 <= j < |e.keys| ==> Aggregatable(m, e.keys[j])
    ensures Accumulation(group', projection', unset') == StepAll(Accumulation(group, projection, unset), EntryDirectRequests(m, e))
  {
    ghost var acc0 := Accumulation(group, projection, unset);
    ghost var b := EntryDirectRequests(m, e);
    TakeBounds([], b);
    group', projection', unset' := group, projection, unset;
    for j := 0 to |e.keys|
      invariant Accumulation(group', projection', unset') == StepAll(acc0, b[..j])
    {
      group', projection', unset' := InsertGroupSetUnset(m, group', projection', unset', e.keys[j], e.kind, false);
      StepAllTake(acc0, b, j);
    }
  }

  /** Every `(kind, key)` of the aggregates, accumulated in the direct namespace. */
  method AccumulateAggregates(m: Model, aggs: seq<AggregateEntry>, group: Document, projection: Document, unset: seq<string>)
    returns (group': Document, projection': Document, unset': seq<string>)
    requires AggregatesOnModel(m, Some(aggs))
    ensures Accumulation(group', projection', unset') == StepAll(Accumulation(group, projection, unset), Flatten(DirectRequestBlocks(m, aggs)))
  {
    ghost var acc0 := Accumulation(group, projection, unset);
    ghost var bs := DirectRequestBlocks(m, aggs);
    group', projection', unset' := group, projection, unset;
    for i := 0 to |aggs|
      invariant Accumulation(group', projection', unset') == StepAll(acc0, Flatten(bs[..i]))
    {
      group', projection', unset' := AccumulateAggregate(m, aggs[i], group', projection', unset');
      StepAllBlock(acc0, bs, i);
    }
    TakeBounds([], bs);
  }

  /** One more translated matcher: its `$match` entry comes last. */
  lemma MatchEntriesSnoc<M>(ms: seq<Matcher<M>>, vs: seq<Value>, x: Matcher<M>, v: Value)
    requires |vs| == |ms|
    ensures MatchEntries(ms + [x], vs + [v]) == MatchEntries(ms, vs) + [Entry(MatchKey(x.kind, x.column), v)]
  {
  }

  /** One more translated matcher: one more insert into `$match`. */
  lemma MatchStep<M>(ms: seq<Matcher<M>>, vs: seq<Value>, x: Matcher<M>, v: Value)
    requires |vs| == |ms|
    ensures InsertAll([], MatchEntries(ms + [x], vs + [v])) == Insert(InsertAll([], MatchEntries(ms, vs)), MatchKey(x.kind, x.column), v)
  {
    MatchEntriesSnoc(ms, vs, x, v);
    InsertAllSnoc([], MatchEntries(ms, vs), Entry(MatchKey(x.kind, x.column), v));
  }

  /** One more matcher: its namespace is dropped once. */
  lemma HavingHeadsSnoc<M>(ms: seq<Matcher<M>>, x: Matcher<M>)
    ensures HavingHeads(ms + [x]) == if HavingHead(x) in HavingHeads(ms) then HavingHeads(ms) else HavingHeads(ms) + [HavingHead(x)]
  {
    MapConcat(ms, [x], HavingHead);
    DedupSnoc(Map(ms, HavingHead), HavingHead(x));
  }

  /** One more matcher translated: one more `$match` entry, and its namespace dropped once. */
  lemma HavingFilterStep<M, E>(ms: seq<Matcher<M>>, x: Matcher<M>, path: PipelineCtx.KeyPath, translate: (M, PipelineCtx.KeyPath) -> Result<Value, E>)
    requires HavingFilter(ms, path, translate).Success? && Translated(translate, path, x).Success?
    ensures var f := HavingFilter(ms, path, translate).value;
      HavingFilter(ms + [x], path, translate) == Success((
        Insert(f.0, MatchKey(x.kind, x.column), Translated(translate, path, x).value),
        if HavingHead(x) in f.1 then f.1 else f.1 + [HavingHead(x)]))
  {
    TranslateAllSnoc(ms, x, path, translate);
    MatchStep(ms, TranslateAll(ms, path, translate).value, x, Translated(translate, path, x).value);
    HavingHeadsSnoc(ms, x);
  }

  /** A failing `j`-th matcher of a block after `done`, when all before it translate, is the failure of the whole filter. */
  lemma HavingFilterFailsAt<M, E>(done: seq<Matcher<M>>, b: seq<Matcher<M>>, j: nat, path: PipelineCtx.KeyPath, translate: (M, PipelineCtx.KeyPath) -> Result<Value, E>)
    requires j < |b| && HavingFilter(done + b[..j], path, translate).Success?
    requires Translated(translate, path, b[j]).Failure?
    ensures HavingFilter(done + b, path, translate) == Failure(Translated(translate, path, b[j]).error)
  {
    assert TranslateAll(done + b[..j], path, translate).Success?;
    TranslateFailsAt(done, b, j, path, translate);
  }

  /** The translation of `done + b` fails at the `j`-th matcher of `b` when all before it translate. */
  lemma TranslateFailsAt<M, E>(done: seq<Matcher<M>>, b: seq<Matcher<M>>, j: nat, path: PipelineCtx.KeyPath, translate: (M, PipelineCtx.KeyPath) -> Result<Value, E>)
    requires j < |b| && TranslateAll(done + b[..j], path, translate).Success?
    requires Translated(translate, path, b[j]).Failure?
    ensures TranslateAll(done + b, path, translate) == Failure(Translated(translate, path, b[j]).error)
  {
    var pre, all, n := done + b[..j], done + b, |done| + j;
    TranslateAllSucceeds(pre, path, translate);
    forall p | 0 <= p < n ensures Translated(translate, path, all[p]).Success? {
      assert all[p] == pre[p];
    }
    assert all[n] == b[j];
    TranslateAllFirstFailure(all, path, translate, n);
  }

  /** A filter that fails on a prefix fails the same way on the whole. */
  lemma HavingFilterPrefix<M, E>(a: seq<Matcher<M>>, b: seq<Matcher<M>>, path: PipelineCtx.KeyPath, translate: (M, PipelineCtx.KeyPath) -> Result<Value, E>)
    requires HavingFilter(a, path, translate).Failure?
    ensures HavingFilter(a + b, path, translate) == HavingFilter(a, path, translate)
  {
    TranslateAllMeaning(a, path, translate);
    var t := TranslateAll(a, path, translate);
    var n :| 0 <= n < |a| && Translated(translate, path, a[n]) == Failure(t.error)
      && forall p :: 0 <= p < n ==> Translated(translate, path, a[p]).Success?;
    assert forall p :: 0 <= p <= n ==> (a + b)[p] == a[p];
    TranslateAllFirstFailure(a + b, path, translate, n);
  }

  /**
   * The matchers of one having field, each translated at its key path and
   * added to the `$match` document and the `$unset` list built so far.
   */
  method TranslateHavingField<M, E(==)>(m: Model, e: HavingEntry<M>, path: PipelineCtx.KeyPath, translate: (M, PipelineCtx.KeyPath) -> Result<Value, E>,
    ghost done: seq<Matcher<M>>, havingMatch: Document, havingUnset: seq<string>)
    returns (r: Result<(Document, seq<string>), E>)
    requires Valid(m) && HasField(m, e.key)
    requires HavingFilter(done, path, translate) == Success((havingMatch, havingUnset))
    ensures r == HavingFilter(done + EntryMatchers(m, e), path, translate)
  {
    var dbk := FieldColumn(m, e.key);
    ghost var b := EntryMatchers(m, e);
    ghost var cur := done;
    var matchSoFar, unsetSoFar := havingMatch, havingUnset;
    TakeBounds(done, b);
    for j := 0 to |e.matchers|
      invariant cur == done + b[..j]
      invariant HavingFilter(cur, path, translate) == Success((matchSoFar, unsetSoFar))
    {
      var g := e.matchers[j].0;
      ghost var x := b[j];
      var matcherBson := translate(e.matchers[j].1, path + [PipelineCtx.Key("having"), PipelineCtx.Key(e.key), PipelineCtx.Key("_" + KindName(g))]);
      assert matcherBson == Translated(translate, path, x);
      if matcherBson.Failure? {
        HavingFilterFailsAt(done, b, j, path, translate);
        return Failure(matcherBson.error);
      }
      HavingFilterStep(cur, x, path, translate);
      ConcatAt(done, b, j);
      HavingSpelling(g, dbk);
      matchSoFar := Insert(matchSoFar, "_having_" + KindName(g) + "." + dbk, matcherBson.value);
      var havingGroup := "_having_" + KindName(g);
      if havingGroup !in unsetSoFar {
        unsetSoFar := unsetSoFar + [havingGroup];
      }
      cur := cur + [x];
    }
    r := Success((matchSoFar, unsetSoFar));
  }

  /**
   * The having filter: every matcher translated at its key path, then the
   * `$match` of the translated matchers and the `$unset` of the having
   * namespaces; the first failing translation is returned instead.
   */
  method BuildHavingFilter<M, E(==)>(m: Model, hs: seq<HavingEntry<M>>, path: PipelineCtx.KeyPath, translate: (M, PipelineCtx.KeyPath) -> Result<Value, E>)
    returns (r: Result<seq<Stage>, E>)
    requires HavingOnModel(m, Some(hs))
    ensures r == HavingStages(m, Some(hs), path, translate)
  {
    var f := BuildHavingMatch(m, hs, path, translate);
    if f.Failure? {
      return Failure(f.error);
    }
    r := Success([Match(f.value.0), Unset(f.value.1)]);
  }

  /** The `$match` document and the `$unset` list of the having filter, or the first failing translation. */
  method BuildHavingMatch<M, E(==)>(m: Model, hs: seq<HavingEntry<M>>, path: PipelineCtx.KeyPath, translate: (M, PipelineCtx.KeyPath) -> Result<Value, E>)
    returns (r: Result<(Document, seq<string>), E>)
    requires HavingOnModel(m, Some(hs))
    ensures r == HavingFilter(HavingMatchers(m, hs), path, translate)
  {
    ghost var mb := MatcherBlocks(m, hs);
    ghost var done: seq<Matcher<M>> := [];
    var havingMatch: Document := [];
    var havingUnset: seq<string> := [];
    for i := 0 to |hs|
      invariant done == Flatten(mb[..i])
      invariant HavingFilter(done, path, translate) == Success((havingMatch, havingUnset))
    {
      var result := TranslateHavingField(m, hs[i], path, translate, done, havingMatch, havingUnset);
      FlattenPrefix(mb, i);
      if result.Failure? {
        FlattenSplit(mb, i + 1);
        HavingFilterPrefix(Flatten(mb[..i + 1]), Flatten(mb[i + 1..]), path, translate);
        return result;
      }
      havingMatch, havingUnset := result.value.0, result.value.1;
      done := Flatten(mb[..i + 1]);
    }
    TakeBounds([], mb);
    r := Success((havingMatch, havingUnset));
  }

  /** The `$sort` document: every group key ascending. */
  method BuildSort(groupBy: Option<seq<string>>) returns (sort: Document)
    ensures sort == SortDoc(groupBy)
  {
    sort := [];
    if groupBy.Some? {
      var keys := groupBy.value;
      ghost var es := SortEntries(keys);
      for i := 0 to |keys|
        invariant sort == InsertAll([], es[..i])
      {
        sort := Insert(sort, keys[i], Int(1));
        InsertAllStep([], es, i);
      }
      assert es[..|keys|] == es;
    }
  }

  /** `$group`, `$set` and, when something was accumulated, `$unset`, for the aggregates and the having filter. */
  method BuildGroupStages<M>(m: Model, aggs: seq<AggregateEntry>, groupBy: Option<seq<string>>, having: Option<seq<HavingEntry<M>>>)
    returns (stages: seq<Stage>)
    requires ByOnModel(m, groupBy) && HavingOnModel(m, having) && AggregatesOnModel(m, Some(aggs))
    ensures stages == GroupStages(Accumulated(m, aggs, groupBy, having))
  {
    var id := BuildGroupId(m, groupBy);
    var group: Document := [Entry("_id", id)];
    var projection := BuildBySet(m, groupBy);
    var unset: seq<string> := [];
    ghost var acc0 := Accumulation(group, projection, unset);
    assert acc0 == Initial(m, groupBy);
    ghost var h: seq<Request> := [];
    if having.Some? {
      group, projection, unset := AccumulateHaving(m, having.value, group, projection, unset);
      h := Flatten(HavingRequestBlocks(m, having.value));
    }
    ghost var d := Flatten(DirectRequestBlocks(m, aggs));
    group, projection, unset := AccumulateAggregates(m, aggs, group, projection, unset);
    StepAllConcat(acc0, h, d);
    assert Requests(m, having, aggs) == h + d;
    stages := [Group(group), Set(projection)];
    if unset != [] {
      stages := stages + [Unset(unset)];
    } else {
      AppendEmpty(stages);
    }
  }

  /**
   * The aggregate and group-by stages of `build_query_pipeline`: nothing
   * without aggregates or a group key; otherwise `$group`, `$set`, `$unset`
   * when something was accumulated, the having filter, and `$sort` when
   * there are group keys.
   */
  method BuildQueryPipeline<M, E(==)>(
    m: Model, aggregates: Option<seq<AggregateEntry>>, groupBy: Option<seq<string>>, having: Option<seq<HavingEntry<M>>>,
    path: PipelineCtx.KeyPath, translate: (M, PipelineCtx.KeyPath) -> Result<Value, E>)
    returns (r: Result<seq<Stage>, E>)
    requires ByOnModel(m, groupBy) && HavingOnModel(m, having) && AggregatesOnModel(m, aggregates)
    ensures r == Pipeline(m, aggregates, groupBy, having, path, translate)
  {
    var theAggregates := if groupBy.Some? then (if aggregates.None? then Some([]) else aggregates) else aggregates;
    assert theAggregates == TheAggregates(aggregates, groupBy);
    if theAggregates.Some? {
      r := BuildAggregateStages(m, theAggregates.value, groupBy, having, path, translate);
    } else {
      r := Success([]);
    }
  }

  /** The stages once there is something to aggregate, in the order the source pushes them. */
  method BuildAggregateStages<M, E(==)>(
    m: Model, aggs: seq<AggregateEntry>, groupBy: Option<seq<string>>, having: Option<seq<HavingEntry<M>>>,
    path: PipelineCtx.KeyPath, translate: (M, PipelineCtx.KeyPath) -> Result<Value, E>)
    returns (r: Result<seq<Stage>, E>)
    requires ByOnModel(m, groupBy) && HavingOnModel(m, having) && AggregatesOnModel(m, Some(aggs))
    ensures r == AggregateStages(m, aggs, groupBy, having, path, translate)
  {
    var retval := BuildGroupStages(m, aggs, groupBy, having);
    var filter: Result<seq<Stage>, E> := Success([]);
    if having.Some? {
      filter := BuildHavingFilter(m, having.value, path, translate);
    }
    if filter.Failure? {
      return Failure(filter.error);
    }
    retval := retval + filter.value;
    var groupBySort := BuildSort(groupBy);
    if groupBySort != [] {
      retval := retval + [Sort(groupBySort)];
    } else {
      AppendEmpty(retval);
    }
    r := Success(retval);
  }
}
