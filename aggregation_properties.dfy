/**
 * What the aggregate and group-by stages of `build_query_pipeline` promise:
 * which stages appear and in what order, what `$group` computes and `$unset`
 * removes, what `$set` reads and writes, what the having filter tests and
 * which fields a result document keeps.
 */
module AggregationProperties {
  import opened Wrappers
  import opened Seqs
  import opened Bson
  import opened Models
  import opened AggregationNames
  import opened AggregationExprs
  import opened AggregationPlan
  import opened AggregationPipeline
  import PipelineCtx

  // ---------------------------------------------------------------------------
  // The stages

  /** `$unset` of the intermediates is emitted exactly when some request was made. */
  lemma UnsetEmptyIff<M>(m: Model, aggs: seq<AggregateEntry>, groupBy: Option<seq<string>>, having: Option<seq<HavingEntry<M>>>)
    requires ByOnModel(m, groupBy) && HavingOnModel(m, having) && AggregatesOnModel(m, Some(aggs))
    ensures Accumulated(m, aggs, groupBy, having).unset == [] <==> Requests(m, having, aggs) == []
  {
    var rqs := Requests(m, having, aggs);
    StepAllUnset(Initial(m, groupBy), rqs);
    AllIntermediatesEmpty(rqs);
  }

  /** `$sort` orders by every group key once, ascending, in first-mention order. */
  lemma SortKeys(groupBy: seq<string>)
    ensures KeySeq(SortDoc(Some(groupBy))) == Dedup(groupBy)
    ensures forall k :: k in groupBy ==> Get(SortDoc(Some(groupBy)), k) == Some(Int(1))
  {
    var es := SortEntries(groupBy);
    InsertAllKeySeq(es);
    assert KeySeq(es) == groupBy;
    forall k | k in groupBy ensures Get(SortDoc(Some(groupBy)), k) == Some(Int(1)) {
      InsertAllGetAgreeing([], es, k, Int(1));
    }
  }

  /** `$sort` is emitted exactly when there is a non-empty group-by. */
  lemma SortEmptyIff(groupBy: Option<seq<string>>)
    ensures SortDoc(groupBy) == [] <==> groupBy.None? || groupBy.value == []
  {
    if groupBy.Some? {
      SortKeys(groupBy.value);
      DedupProperties(groupBy.value);
      if groupBy.value != [] {
        assert groupBy.value[0] in Dedup(groupBy.value);
      }
    }
  }

  /** The stage operators the pipeline emits, in order. */
  function ExpectedStages(requested: bool, grouped: bool, nonEmptyRequests: bool, filtered: bool, sorted: bool): seq<StageKind>
  {
    if !requested && !grouped then []
    else
      [GroupKind, SetKind] + (if nonEmptyRequests then [UnsetKind] else [])
      + (if filtered then [MatchKind, UnsetKind] else []) + (if sorted then [SortKind] else [])
  }

  lemma GroupStageKinds(acc: Accumulation)
    ensures Map(GroupStages(acc), KindOf) == [GroupKind, SetKind] + (if acc.unset != [] then [UnsetKind] else [])
  {
    var st := GroupStages(acc);
    var ks := [GroupKind, SetKind] + (if acc.unset != [] then [UnsetKind] else []);
    assert |st| == |ks|;
    assert forall i :: 0 <= i < |st| ==> KindOf(st[i]) == ks[i];
  }

  lemma SortStageKinds(groupBy: Option<seq<string>>)
    ensures Map(SortStages(groupBy), KindOf) == if SortDoc(groupBy) != [] then [SortKind] else []
  {
    var d := SortDoc(groupBy);
    if d != [] {
      assert SortStages(groupBy) == [Sort(d)];
      assert KindOf(Sort(d)) == SortKind;
    }
  }

  /** The operators of a successful pipeline, given its `$group` accumulation and whether it filters and sorts. */
  lemma StageNamesOf(acc: Accumulation, tail: seq<Stage>, groupBy: Option<seq<string>>, filtered: bool)
    requires filtered ==> |tail| == 2 && tail[0].Match? && tail[1].Unset?
    requires !filtered ==> tail == []
    ensures Map(GroupStages(acc) + tail + SortStages(groupBy), KindOf)
      == [GroupKind, SetKind] + (if acc.unset != [] then [UnsetKind] else [])
        + (if filtered then [MatchKind, UnsetKind] else []) + (if SortDoc(groupBy) != [] then [SortKind] else [])
  {
    MapConcat3(GroupStages(acc), tail, SortStages(groupBy), KindOf);
    GroupStageKinds(acc);
    SortStageKinds(groupBy);
    assert Map(tail, KindOf) == if filtered then [MatchKind, UnsetKind] else [];
  }

  /**
   * Without aggregates and group-by the pipeline adds nothing; otherwise it
   * is `$group`, `$set`, then `$unset` when a request was made, `$match` and
   * `$unset` when there is a having filter, and `$sort` when the group-by is
   * non-empty.
   */
  lemma PipelineStages<M, E>(
    m: Model, aggregates: Option<seq<AggregateEntry>>, groupBy: Option<seq<string>>, having: Option<seq<HavingEntry<M>>>,
    path: PipelineCtx.KeyPath, translate: (M, PipelineCtx.KeyPath) -> Result<Value, E>)
    requires ByOnModel(m, groupBy) && HavingOnModel(m, having) && AggregatesOnModel(m, aggregates)
    ensures var r := Pipeline(m, aggregates, groupBy, having, path, translate);
      r.Success? ==> Map(r.value, KindOf) == ExpectedStages(aggregates.Some?, groupBy.Some?,
        (aggregates.Some? || groupBy.Some?) && Requests(m, having, TheAggregates(aggregates, groupBy).value) != [],
        having.Some?, groupBy.Some? && groupBy.value != [])
  {
    var theAggs := TheAggregates(aggregates, groupBy);
    if theAggs.Some? {
      AggregateStagesKinds(m, theAggs.value, groupBy, having, path, translate);
    }
  }

  /** The operators of the stages emitted once there is something to aggregate. */
  lemma AggregateStagesKinds<M, E>(
    m: Model, aggs: seq<AggregateEntry>, groupBy: Option<seq<string>>, having: Option<seq<HavingEntry<M>>>,
    path: PipelineCtx.KeyPath, translate: (M, PipelineCtx.KeyPath) -> Result<Value, E>)
    requires ByOnModel(m, groupBy) && HavingOnModel(m, having) && AggregatesOnModel(m, Some(aggs))
    ensures var r := AggregateStages(m, aggs, groupBy, having, path, translate);
      r.Success? ==> Map(r.value, KindOf) == ExpectedStages(true, true, Requests(m, having, aggs) != [],
        having.Some?, groupBy.Some? && groupBy.value != [])
  {
    var r := AggregateStages(m, aggs, groupBy, having, path, translate);
    if r.Success? {
      UnsetEmptyIff(m, aggs, groupBy, having);
      SortEmptyIff(groupBy);
      var acc := Accumulated(m, aggs, groupBy, having);
      var tail := HavingStages(m, having, path, translate).value;
      assert r.value == GroupStages(acc) + tail + SortStages(groupBy);
      StageNamesOf(acc, tail, groupBy, having.Some?);
    }
  }

  /**
   * The pipeline fails exactly when there is something to aggregate, a
   * having filter, and a matcher that does not translate; the error is then
   * that of the first such matcher.
   */
  lemma PipelineFailure<M, E>(
    m: Model, aggregates: Option<seq<AggregateEntry>>, groupBy: Option<seq<string>>, having: Option<seq<HavingEntry<M>>>,
    path: PipelineCtx.KeyPath, translate: (M, PipelineCtx.KeyPath) -> Result<Value, E>)
    requires ByOnModel(m, groupBy) && HavingOnModel(m, having) && AggregatesOnModel(m, aggregates)
    ensures var r := Pipeline(m, aggregates, groupBy, having, path, translate);
      r.Failure? <==> ((aggregates.Some? || groupBy.Some?) && having.Some?
        && exists i :: 0 <= i < |HavingMatchers(m, having.value)| && Translated(translate, path, HavingMatchers(m, having.value)[i]).Failure?)
    ensures var r := Pipeline(m, aggregates, groupBy, having, path, translate);
      r.Failure? ==> exists i :: (0 <= i < |HavingMatchers(m, having.value)|
        && Translated(translate, path, HavingMatchers(m, having.value)[i]) == Failure(r.error)
        && forall j :: 0 <= j < i ==> Translated(translate, path, HavingMatchers(m, having.value)[j]).Success?)
  {
    HavingStagesFailure(m, having, path, translate);
    var theAggs := TheAggregates(aggregates, groupBy);
    if theAggs.Some? {
      assert AggregateStages(m, theAggs.value, groupBy, having, path, translate).Failure?
        <==> HavingStages(m, having, path, translate).Failure?;
    }
  }

  /** The having stages fail exactly when a matcher does not translate, with the error of the first such matcher. */
  lemma HavingStagesFailure<M, E>(m: Model, having: Option<seq<HavingEntry<M>>>, path: PipelineCtx.KeyPath, translate: (M, PipelineCtx.KeyPath) -> Result<Value, E>)
    requires HavingOnModel(m, having)
    ensures var r := HavingStages(m, having, path, translate);
      r.Failure? <==> (having.Some?
        && exists i :: 0 <= i < |HavingMatchers(m, having.value)| && Translated(translate, path, HavingMatchers(m, having.value)[i]).Failure?)
    ensures var r := HavingStages(m, having, path, translate);
      r.Failure? ==> exists i :: (0 <= i < |HavingMatchers(m, having.value)|
        && Translated(translate, path, HavingMatchers(m, having.value)[i]) == Failure(r.error)
        && forall j :: 0 <= j < i ==> Translated(translate, path, HavingMatchers(m, having.value)[j]).Success?)
  {
    if having.Some? {
      var t := TranslateAll(HavingMatchers(m, having.value), path, translate);
      TranslateAllMeaning(HavingMatchers(m, having.value), path, translate);
      assert HavingStages(m, having, path, translate).Failure? <==> t.Failure?;
    }
  }

  // ---------------------------------------------------------------------------
  // `$group` and the first `$unset`

  /** `_id` is never an intermediate name. */
  lemma IdIsNoIntermediate(rqs: seq<Request>)
    ensures "_id" !in AllIntermediates(rqs)
  {
    forall i | 0 <= i < |rqs| ensures "_id" !in RequestIntermediates(rqs[i]) {
      TaggedIsNotId(rqs[i].havingMode, rqs[i].kind, '_', rqs[i].column);
      TaggedIsNotId(rqs[i].havingMode, Sum, '_', "count_" + rqs[i].column);
    }
    AllIntermediatesMembership(rqs, "_id");
  }

  /** A run of calls from a `$group` holding only `_id` and an empty `$unset`. */
  lemma GroupAndUnsetOfRun(init: Accumulation, id: Value, rqs: seq<Request>)
    requires init.group == [Entry("_id", id)] && init.unset == []
    ensures var acc := StepAll(init, rqs);
      && Keys(acc.group) == {"_id"} + Elems(AllIntermediates(rqs))
      && Get(acc.group, "_id") == Some(id)
      && acc.unset == AllIntermediates(rqs)
      && Elems(acc.unset) == Keys(acc.group) - {"_id"}
  {
    StepAllGroup(init, rqs);
    StepAllUnset(init, rqs);
    IdIsNoIntermediate(rqs);
    assert Keys(init.group) == {"_id"};
  }

  /**
   * `$group` holds `_id` and exactly the intermediates of every request;
   * `_id` keeps the group key, and the first `$unset` removes every other
   * key of `$group`, in push order.
   */
  lemma GroupAndUnset<M>(m: Model, aggs: seq<AggregateEntry>, groupBy: Option<seq<string>>, having: Option<seq<HavingEntry<M>>>)
    requires ByOnModel(m, groupBy) && HavingOnModel(m, having) && AggregatesOnModel(m, Some(aggs))
    ensures var acc, rqs := Accumulated(m, aggs, groupBy, having), Requests(m, having, aggs);
      && Keys(acc.group) == {"_id"} + Elems(AllIntermediates(rqs))
      && "_id" !in AllIntermediates(rqs)
      && Get(acc.group, "_id") == Some(GroupId(m, groupBy))
      && acc.unset == AllIntermediates(rqs)
      && Elems(acc.unset) == Keys(acc.group) - {"_id"}
  {
    var rqs := Requests(m, having, aggs);
    GroupAndUnsetOfRun(Initial(m, groupBy), GroupId(m, groupBy), rqs);
    IdIsNoIntermediate(rqs);
  }

  /**
   * When no two requests collide on an intermediate name, `$group` computes
   * every request's accumulator and, for a sum, its counter.
   */
  lemma GroupValues<M>(m: Model, aggs: seq<AggregateEntry>, groupBy: Option<seq<string>>, having: Option<seq<HavingEntry<M>>>, i: nat)
    requires ByOnModel(m, groupBy) && HavingOnModel(m, having) && AggregatesOnModel(m, Some(aggs))
    requires i < |Requests(m, having, aggs)| && ColumnsSeparate(Requests(m, having, aggs))
    ensures var g, rq := Accumulated(m, aggs, groupBy, having).group, Requests(m, having, aggs)[i];
      && Get(g, RequestAccumulatorName(rq)) == Some(GroupValue(rq))
      && (rq.kind == Sum ==> Get(g, RequestCounterName(rq)) == Some(PresenceCount(rq.column)))
  {
    var rqs := Requests(m, having, aggs);
    SeparateMeansDistinctIntermediates(rqs);
    StepAllGroupValues(Initial(m, groupBy), rqs, i);
  }

  /** Keys and values of a document filled by entries whose value is a function of their key. */
  lemma InsertAllOfKeyed(es: Document, f: string -> Value)
    requires forall i :: 0 <= i < |es| ==> es[i].val == f(es[i].key)
    ensures Keys(InsertAll([], es)) == Keys(es)
    ensures forall i :: 0 <= i < |es| ==> Get(InsertAll([], es), es[i].key) == Some(f(es[i].key))
  {
    InsertAllKeys([], es);
    forall i | 0 <= i < |es| ensures Get(InsertAll([], es), es[i].key) == Some(f(es[i].key)) {
      assert KeySeq(es)[i] == es[i].key;
      InsertAllGetAgreeing([], es, es[i].key, f(es[i].key));
    }
  }

  /** The columns of the group keys, in order. */
  function ByColumns(m: Model, groupBy: seq<string>): (cs: seq<string>)
    requires ByOnModel(m, Some(groupBy))
    ensures |cs| == |groupBy| && forall i :: 0 <= i < |groupBy| ==> cs[i] == FieldColumn(m, groupBy[i])
  {
    seq(|groupBy|, i requires 0 <= i < |groupBy| => FieldColumn(m, groupBy[i]))
  }

  /** The group key has one component per group-by column and no other. */
  lemma GroupIdKeys(m: Model, groupBy: seq<string>)
    requires ByOnModel(m, Some(groupBy))
    ensures Keys(InsertAll([], IdEntries(m, groupBy))) == Elems(ByColumns(m, groupBy))
  {
    ComponentsOf(IdEntries(m, groupBy), ByColumns(m, groupBy));
  }

  /** Each component of the group key is the column's value, or null when the row has none. */
  lemma GroupIdValues(m: Model, groupBy: seq<string>)
    requires ByOnModel(m, Some(groupBy))
    ensures forall i :: 0 <= i < |groupBy| ==>
      Get(InsertAll([], IdEntries(m, groupBy)), FieldColumn(m, groupBy[i])) == Some(IdComponent(FieldColumn(m, groupBy[i])))
  {
    ComponentsOf(IdEntries(m, groupBy), ByColumns(m, groupBy));
  }

  /** A document filled with one `_id` component per column holds exactly those columns, each with its component. */
  lemma ComponentsOf(es: Document, cols: seq<string>)
    requires |es| == |cols| && forall i :: 0 <= i < |es| ==> es[i] == Entry(cols[i], IdComponent(cols[i]))
    ensures Keys(InsertAll([], es)) == Elems(cols)
    ensures forall i :: 0 <= i < |cols| ==> Get(InsertAll([], es), cols[i]) == Some(IdComponent(cols[i]))
  {
    InsertAllOfKeyed(es, IdComponent);
    KeysOfKeyed(es, cols);
  }

  // ---------------------------------------------------------------------------
  // `$set`

  /** The group keys, when there is a group-by. */
  function ByKeys(groupBy: Option<seq<string>>): set<string>
  {
    if groupBy.Some? then Elems(groupBy.value) else {}
  }

  /** A document of references `_id.{col(k)}`, filled under the keys `k`, holds each key's reference. */
  lemma CopiesOutOfId(es: Document, keys: seq<string>, col: string -> string)
    requires |es| == |keys| && forall i :: 0 <= i < |es| ==> es[i] == Entry(keys[i], FieldRef("_id." + col(keys[i])))
    ensures forall i :: 0 <= i < |keys| ==> Get(InsertAll([], es), keys[i]) == Some(FieldRef("_id." + col(keys[i])))
  {
    var f := (k: string) => FieldRef("_id." + col(k));
    assert forall i :: 0 <= i < |es| ==> es[i].val == f(es[i].key);
    InsertAllOfKeyed(es, f);
  }

  lemma KeysOfKeyed(es: Document, keys: seq<string>)
    requires |es| == |keys| && forall i :: 0 <= i < |es| ==> es[i].key == keys[i]
    ensures Keys(InsertAll([], es)) == Elems(keys)
  {
    InsertAllKeys([], es);
    assert KeySeq(es) == keys;
  }

  /** The references of such a document are the `_id` components it copies. */
  lemma CopiesOutOfIdRefs(es: Document, keys: seq<string>, col: string -> string)
    requires |es| == |keys| && forall i :: 0 <= i < |es| ==> es[i] == Entry(keys[i], FieldRef("_id." + col(keys[i])))
    ensures forall r :: r in RefsOfDoc(InsertAll([], es)) ==> exists i :: 0 <= i < |keys| && r == "_id." + col(keys[i])
  {
    RefsOfInsertAll([], es);
    assert RefsOfDoc([]) == {};
    forall r | r in RefsOfDoc(es) ensures exists i :: 0 <= i < |keys| && r == "_id." + col(keys[i]) {
      RefsOfDocMembership(es, r);
      var i :| 0 <= i < |es| && r in Refs(es[i].val);
      assert Refs(es[i].val) == {"_id." + col(keys[i])};
    }
  }

    /** The `$set` entries of the group keys write exactly the group keys. */
  lemma ByDocumentKeys(m: Model, groupBy: seq<string>)
    requires ByOnModel(m, Some(groupBy))
    ensures Keys(InsertAll([], ByEntries(m, groupBy))) == Elems(groupBy)
  {
    KeysOfKeyed(ByEntries(m, groupBy), groupBy);
  }

  /** The `$set` entries of the group keys refer only to components of `_id`. */
  lemma ByDocumentRefs(m: Model, groupBy: seq<string>)
    requires ByOnModel(m, Some(groupBy))
    ensures forall r :: r in RefsOfDoc(InsertAll([], ByEntries(m, groupBy))) ==>
      exists i :: 0 <= i < |groupBy| && r == "_id." + FieldColumn(m, groupBy[i])
  {
    var col := (k: string) => if Valid(m) && HasField(m, k) then FieldColumn(m, k) else "";
    CopiesOutOfIdRefs(ByEntries(m, groupBy), groupBy, col);
    assert forall i :: 0 <= i < |groupBy| ==> col(groupBy[i]) == FieldColumn(m, groupBy[i]);
  }

  /** The `$set` entries of the group keys copy each key's column out of `_id`. */
  lemma ByDocumentValues(m: Model, groupBy: seq<string>)
    requires ByOnModel(m, Some(groupBy))
    ensures forall i :: 0 <= i < |groupBy| ==>
      Get(InsertAll([], ByEntries(m, groupBy)), groupBy[i]) == Some(FieldRef("_id." + FieldColumn(m, groupBy[i])))
  {
    var col := (k: string) => if Valid(m) && HasField(m, k) then FieldColumn(m, k) else "";
    CopiesOutOfId(ByEntries(m, groupBy), groupBy, col);
    assert forall i :: 0 <= i < |groupBy| ==> col(groupBy[i]) == FieldColumn(m, groupBy[i]);
  }

  /** `$set` writes the group keys and one projection per request. */
  lemma SetKeys<M>(m: Model, aggs: seq<AggregateEntry>, groupBy: Option<seq<string>>, having: Option<seq<HavingEntry<M>>>)
    requires ByOnModel(m, groupBy) && HavingOnModel(m, having) && AggregatesOnModel(m, Some(aggs))
    ensures Keys(Accumulated(m, aggs, groupBy, having).projection) == ByKeys(groupBy) + ProjectionNames(Requests(m, having, aggs))
  {
    var init := Initial(m, groupBy);
    StepAllProjectionKeys(init, Requests(m, having, aggs));
    if groupBy.Some? {
      ByDocumentKeys(m, groupBy.value);
    } else {
      assert init.projection == [];
    }
    assert Keys(init.projection) == ByKeys(groupBy);
  }

  /** `$set` reads only what `$group` produced: an intermediate, or a component of `_id`. */
  lemma SetRefs<M>(m: Model, aggs: seq<AggregateEntry>, groupBy: Option<seq<string>>, having: Option<seq<HavingEntry<M>>>)
    requires ByOnModel(m, groupBy) && HavingOnModel(m, having) && AggregatesOnModel(m, Some(aggs))
    ensures var acc := Accumulated(m, aggs, groupBy, having);
      forall r :: r in RefsOfDoc(acc.projection) ==>
        (r in Keys(acc.group) - {"_id"}
         || (groupBy.Some? && exists i :: 0 <= i < |groupBy.value| && r == "_id." + FieldColumn(m, groupBy.value[i])))
  {
    var init, rqs := Initial(m, groupBy), Requests(m, having, aggs);
    StepAllProjectionRefs(init, rqs);
    GroupAndUnsetOfRun(init, GroupId(m, groupBy), rqs);
    IdIsNoIntermediate(rqs);
    if groupBy.Some? {
      ByDocumentRefs(m, groupBy.value);
    } else {
      assert RefsOfDoc(init.projection) == {};
    }
  }

  /** Group keys look like field names: no dot, and no leading underscore. */
  predicate FieldLikeKeys(keys: seq<string>)
  {
    forall i :: 0 <= i < |keys| ==> '.' !in keys[i] && (keys[i] == [] || keys[i][0] != '_')
  }

  /** No projection name is a field-like key. */
  lemma ProjectionNameIsNotFieldLike(rq: Request, k: string)
    requires k == [] || k[0] != '_'
    ensures RequestProjectionName(rq) != k
  {
    LeadingUnderscore(rq.havingMode, rq.kind, '.', rq.key);
  }

  /**
   * With distinct arguments, `$set` holds every request's projection and
   * copies every field-like group key out of `_id`.
   */
  lemma SetValues<M>(m: Model, aggs: seq<AggregateEntry>, groupBy: Option<seq<string>>, having: Option<seq<HavingEntry<M>>>)
    requires ByOnModel(m, groupBy) && HavingOnModel(m, having) && AggregatesOnModel(m, Some(aggs))
    requires having.Some? ==> DistinctHaving(having.value)
    requires DistinctAggregates(aggs)
    ensures var acc, rqs := Accumulated(m, aggs, groupBy, having), Requests(m, having, aggs);
      forall i :: 0 <= i < |rqs| ==> Get(acc.projection, RequestProjectionName(rqs[i])) == Some(RequestProjection(rqs[i]))
    ensures groupBy.Some? && FieldLikeKeys(groupBy.value) ==>
      forall i :: 0 <= i < |groupBy.value| ==>
        Get(Accumulated(m, aggs, groupBy, having).projection, groupBy.value[i]) == Some(FieldRef("_id." + FieldColumn(m, groupBy.value[i])))
  {
    var init, rqs := Initial(m, groupBy), Requests(m, having, aggs);
    RequestsDistinct(m, having, aggs);
    forall i | 0 <= i < |rqs| ensures Get(StepAll(init, rqs).projection, RequestProjectionName(rqs[i])) == Some(RequestProjection(rqs[i])) {
      StepAllProjectionValues(init, rqs, i);
    }
    if groupBy.Some? && FieldLikeKeys(groupBy.value) {
      SetGroupKeyValues(m, groupBy.value, rqs);
    }
  }

  /** A run of requests leaves the copies of field-like group keys in `$set` alone. */
  lemma SetGroupKeyValues(m: Model, keys: seq<string>, rqs: seq<Request>)
    requires ByOnModel(m, Some(keys)) && FieldLikeKeys(keys)
    ensures forall i :: 0 <= i < |keys| ==>
      Get(StepAll(Initial(m, Some(keys)), rqs).projection, keys[i]) == Some(FieldRef("_id." + FieldColumn(m, keys[i])))
  {
    var init := Initial(m, Some(keys));
    ByDocumentValues(m, keys);
    StepAllProjectionInserts(init, rqs);
    var es := ProjectionEntries(rqs);
    forall i | 0 <= i < |keys| ensures Get(StepAll(init, rqs).projection, keys[i]) == Some(FieldRef("_id." + FieldColumn(m, keys[i]))) {
      forall j | 0 <= j < |es| ensures KeySeq(es)[j] != keys[i] {
        ProjectionNameIsNotFieldLike(rqs[j], keys[i]);
      }
      InsertAllGetOther(init.projection, es, keys[i]);
    }
  }

  // ---------------------------------------------------------------------------
  // The having filter

  /**
   * `$match` keys a matcher by the field's column, `$set` names the having
   * value by the field's name: a matcher's `$match` key is its having name
   * exactly when the field's column is its name.
   */
  lemma MatchKeyIsHavingNameIff<M>(m: Model, hs: seq<HavingEntry<M>>, vs: seq<Value>)
    requires HavingOnModel(m, Some(hs)) && |vs| == |HavingMatchers(m, hs)|
    ensures var ms := HavingMatchers(m, hs);
      forall i :: 0 <= i < |ms| ==>
        HasField(m, ms[i].key)
        && (MatchEntries(ms, vs)[i].key == ProjectionName(true, ms[i].kind, ms[i].key) <==> FieldColumn(m, ms[i].key) == ms[i].key)
  {
    var ms := HavingMatchers(m, hs);
    HavingMatchersOnModel(m, hs);
    forall i | 0 <= i < |ms| ensures MatchEntries(ms, vs)[i].key == ProjectionName(true, ms[i].kind, ms[i].key) <==> FieldColumn(m, ms[i].key) == ms[i].key {
      MatchKeyAgreesIff(ms[i].kind, ms[i].key, ms[i].column);
    }
  }

  /** When every having field's column is its name, every key the `$match` stage tests is a field `$set` wrote. */
  lemma MatchKeysAreProjected<M>(m: Model, aggs: seq<AggregateEntry>, groupBy: Option<seq<string>>, hs: seq<HavingEntry<M>>, vs: seq<Value>)
    requires ByOnModel(m, groupBy) && HavingOnModel(m, Some(hs)) && AggregatesOnModel(m, Some(aggs))
    requires forall i :: 0 <= i < |hs| ==> FieldColumn(m, hs[i].key) == hs[i].key
    requires |vs| == |HavingMatchers(m, hs)|
    ensures Keys(InsertAll([], MatchEntries(HavingMatchers(m, hs), vs))) <= Keys(Accumulated(m, aggs, groupBy, Some(hs)).projection)
  {
    var ms, h := HavingMatchers(m, hs), Flatten(HavingRequestBlocks(m, hs));
    var rqs := Requests(m, Some(hs), aggs);
    var es := MatchEntries(ms, vs);
    HavingRequestsFollowMatchers(m, hs);
    SetKeys(m, aggs, groupBy, Some(hs));
    InsertAllKeys([], es);
    forall k | k in Keys(es) ensures k in ProjectionNames(rqs) {
      var i :| 0 <= i < |es| && KeySeq(es)[i] == k;
      HavingMatchersMembership(m, hs, ms[i]);
      assert ms[i].column == ms[i].key;
      MatchKeyAgreesIff(ms[i].kind, ms[i].key, ms[i].column);
      assert Map(h, Target)[i] == Map(ms, MatcherTarget)[i];
      assert rqs[i] == h[i];
      assert RequestProjectionName(rqs[i]) == k;
    }
  }

  /** No two fields of a having object share a column. */
  ghost predicate SeparateColumns<M>(m: Model, hs: seq<HavingEntry<M>>)
    requires HavingOnModel(m, Some(hs))
  {
    forall p, q :: 0 <= p < q < |hs| ==> FieldColumn(m, hs[p].key) != FieldColumn(m, hs[q].key)
  }

  /**
   * With a distinct having object on fields of distinct columns, `$match`
   * tests each matcher's translation under that matcher's `$match` key.
   */
  lemma MatchValues<M>(m: Model, hs: seq<HavingEntry<M>>, vs: seq<Value>)
    requires HavingOnModel(m, Some(hs)) && DistinctHaving(hs) && SeparateColumns(m, hs) && |vs| == |HavingMatchers(m, hs)|
    ensures var ms := HavingMatchers(m, hs);
      forall i :: 0 <= i < |ms| ==> Get(InsertAll([], MatchEntries(ms, vs)), MatchKey(ms[i].kind, ms[i].column)) == Some(vs[i])
  {
    var ms := HavingMatchers(m, hs);
    var es := MatchEntries(ms, vs);
    HavingTargetsDistinct(m, hs);
    HavingRequestsFollowMatchers(m, hs);
    forall i | 0 <= i < |ms| ensures Get(InsertAll([], es), es[i].key) == Some(vs[i]) {
      forall j | i < j < |es| ensures es[j].key != es[i].key {
        assert Map(ms, MatcherTarget)[i] != Map(ms, MatcherTarget)[j];
        if es[j].key == es[i].key {
          MatchKeyInjective(ms[i].kind, ms[i].column, ms[j].kind, ms[j].column);
          SameColumnSameKey(m, hs, ms[i], ms[j]);
        }
      }
      InsertAllGetLast([], es, i);
    }
  }

  /** Matchers of a having object on fields of distinct columns share a column only when they share a field. */
  lemma SameColumnSameKey<M>(m: Model, hs: seq<HavingEntry<M>>, x: Matcher<M>, y: Matcher<M>)
    requires HavingOnModel(m, Some(hs)) && SeparateColumns(m, hs)
    requires x in HavingMatchers(m, hs) && y in HavingMatchers(m, hs) && x.column == y.column
    ensures x.key == y.key
  {
    var p := MatcherField(m, hs, x);
    var q := MatcherField(m, hs, y);
    assert !(p < q) && !(q < p);
  }

  lemma SingleMatcher<M>(m: Model, hs: seq<HavingEntry<M>>, k: string, g: Kind, x: M)
    requires Valid(m) && HasField(m, k) && hs == [HavingEntry(k, [(g, x)])]
    ensures HavingMatchers(m, hs) == [Matcher(k, FieldColumn(m, k), g, x)]
  {
    var bs := MatcherBlocks(m, hs);
    assert bs[..0] == [];
    assert |bs[0]| == 1 && bs[0][0] == Matcher(k, FieldColumn(m, k), g, x);
    assert Flatten(bs) == Flatten(bs[..0]) + bs[0];
  }

  lemma SingleRequest<M>(m: Model, hs: seq<HavingEntry<M>>, k: string, g: Kind, x: M)
    requires Valid(m) && HasField(m, k) && hs == [HavingEntry(k, [(g, x)])]
    ensures Requests(m, Some(hs), []) == [Resolve(m, true, g, k)]
  {
    var rb := HavingRequestBlocks(m, hs);
    assert rb[..0] == [];
    assert |rb[0]| == 1 && rb[0][0] == Resolve(m, true, g, k);
    assert Flatten(rb) == Flatten(rb[..0]) + rb[0];
    assert DirectRequestBlocks(m, []) == [];
  }

  /**
   * With a single having matcher on a field whose column differs from its
   * name, the key `$match` tests is none that `$set` wrote.
   */
  lemma MatchMissesRenamedField<M>(m: Model, k: string, g: Kind, x: M, v: Value)
    requires Valid(m) && HasField(m, k) && FieldColumn(m, k) != k
    ensures var hs := [HavingEntry(k, [(g, x)])];
      && HavingMatchers(m, hs) == [Matcher(k, FieldColumn(m, k), g, x)]
      && MatchEntries(HavingMatchers(m, hs), [v])[0].key !in Keys(Accumulated(m, [], None, Some(hs)).projection)
  {
    var hs := [HavingEntry(k, [(g, x)])];
    SingleMatcher(m, hs, k, g, x);
    SingleRequest(m, hs, k, g, x);
    SetKeys(m, [], None, Some(hs));
    MatchKeyAgreesIff(g, k, FieldColumn(m, k));
  }

  /** The namespaces of a run of requests. */
  function RequestHeads(rqs: seq<Request>): (r: set<string>)
    ensures forall x :: x in r <==> exists i :: 0 <= i < |rqs| && x == ProjectionHead(rqs[i].havingMode, rqs[i].kind)
  {
    set i | 0 <= i < |rqs| :: ProjectionHead(rqs[i].havingMode, rqs[i].kind)
  }

  /** Matchers and requests with the same targets have the same namespaces. */
  lemma HeadsFollowTargets<M>(h: seq<Request>, ms: seq<Matcher<M>>)
    requires Map(h, Target) == Map(ms, MatcherTarget)
    ensures Elems(Map(ms, HavingHead)) == RequestHeads(h)
  {
    forall x | x in RequestHeads(h) ensures x in Map(ms, HavingHead) {
      var i :| 0 <= i < |h| && x == ProjectionHead(h[i].havingMode, h[i].kind);
      assert Map(h, Target)[i] == Map(ms, MatcherTarget)[i];
      assert Map(ms, HavingHead)[i] == x;
    }
    forall x | x in Map(ms, HavingHead) ensures x in RequestHeads(h) {
      var i :| 0 <= i < |ms| && Map(ms, HavingHead)[i] == x;
      assert Map(h, Target)[i] == Map(ms, MatcherTarget)[i];
    }
  }

  /** The second `$unset` drops each having namespace once: exactly the namespaces of the having requests. */
  lemma HavingHeadsAreHavingNamespaces<M>(m: Model, hs: seq<HavingEntry<M>>)
    requires HavingOnModel(m, Some(hs))
    ensures NoDup(HavingHeads(HavingMatchers(m, hs)))
    ensures Elems(HavingHeads(HavingMatchers(m, hs))) == RequestHeads(Flatten(HavingRequestBlocks(m, hs)))
  {
    var ms, h := HavingMatchers(m, hs), Flatten(HavingRequestBlocks(m, hs));
    DedupProperties(Map(ms, HavingHead));
    HavingRequestsFollowMatchers(m, hs);
    HeadsFollowTargets(h, ms);
  }

  // ---------------------------------------------------------------------------
  // The fields of a result

  /** The top-level fields that a set of (possibly dotted) `$set` keys creates. */
  function Heads(ks: set<string>): (r: set<string>)
    ensures forall x :: x in r <==> exists k :: k in ks && x == Head(k)
  {
    set k | k in ks :: Head(k)
  }

  /** The namespaces of the aggregate kinds that name at least one key. */
  function DirectHeads(aggs: seq<AggregateEntry>): (r: set<string>)
    ensures forall x :: x in r <==> exists i :: 0 <= i < |aggs| && aggs[i].keys != [] && x == ProjectionHead(false, aggs[i].kind)
  {
    set i | 0 <= i < |aggs| && aggs[i].keys != [] :: ProjectionHead(false, aggs[i].kind)
  }

  /** The namespaces the second `$unset` removes, when there is a having filter. */
  function HavingHeadSet<M>(m: Model, having: Option<seq<HavingEntry<M>>>): set<string>
    requires HavingOnModel(m, having)
  {
    if having.Some? then Elems(HavingHeads(HavingMatchers(m, having.value))) else {}
  }

  lemma HeadsOfProjectionNames(rqs: seq<Request>)
    ensures Heads(ProjectionNames(rqs)) == RequestHeads(rqs)
  {
    forall i | 0 <= i < |rqs| ensures Head(RequestProjectionName(rqs[i])) == ProjectionHead(rqs[i].havingMode, rqs[i].kind) {
      ProjectionNameHead(rqs[i].havingMode, rqs[i].kind, rqs[i].key);
      HeadOfDotted(ProjectionHead(rqs[i].havingMode, rqs[i].kind), rqs[i].key);
    }
  }

  lemma HeadsOfFieldLike(keys: seq<string>)
    requires FieldLikeKeys(keys)
    ensures Heads(Elems(keys)) == Elems(keys)
  {
    forall i | 0 <= i < |keys| ensures Head(keys[i]) == keys[i] {
      HeadOfPlain(keys[i]);
    }
  }

  lemma HeadsUnion(a: set<string>, b: set<string>)
    ensures Heads(a + b) == Heads(a) + Heads(b)
  {
  }

  lemma RequestHeadsConcat(a: seq<Request>, b: seq<Request>)
    ensures RequestHeads(a + b) == RequestHeads(a) + RequestHeads(b)
  {
    forall x | x in RequestHeads(a + b) ensures x in RequestHeads(a) + RequestHeads(b) {
      var i :| 0 <= i < |a + b| && x == ProjectionHead((a + b)[i].havingMode, (a + b)[i].kind);
      if i >= |a| {
        assert (a + b)[i] == b[i - |a|];
      }
    }
    forall i | 0 <= i < |a| ensures ProjectionHead(a[i].havingMode, a[i].kind) in RequestHeads(a + b) {
      assert (a + b)[i] == a[i];
    }
    forall i | 0 <= i < |b| ensures ProjectionHead(b[i].havingMode, b[i].kind) in RequestHeads(a + b) {
      assert (a + b)[|a| + i] == b[i];
    }
  }

  lemma DirectHeadsOf(m: Model, aggs: seq<AggregateEntry>)
    requires AggregatesOnModel(m, Some(aggs))
    ensures RequestHeads(Flatten(DirectRequestBlocks(m, aggs))) == DirectHeads(aggs)
  {
    var d := Flatten(DirectRequestBlocks(m, aggs));
    forall x | x in RequestHeads(d) ensures x in DirectHeads(aggs) {
      var p :| 0 <= p < |d| && x == ProjectionHead(d[p].havingMode, d[p].kind);
      DirectRequestsMembership(m, aggs, d[p]);
    }
    forall i | 0 <= i < |aggs| && aggs[i].keys != [] ensures ProjectionHead(false, aggs[i].kind) in RequestHeads(d) {
      var rq := Resolve(m, false, aggs[i].kind, aggs[i].keys[0]);
      DirectRequestsMembership(m, aggs, rq);
      var p :| 0 <= p < |d| && d[p] == rq;
    }
  }

  /** Having namespaces are never group keys or direct namespaces. */
  lemma HavingHeadsAreSeparate<M>(m: Model, aggs: seq<AggregateEntry>, groupBy: Option<seq<string>>, hs: seq<HavingEntry<M>>)
    requires HavingOnModel(m, Some(hs)) && AggregatesOnModel(m, Some(aggs))
    requires groupBy.Some? ==> FieldLikeKeys(groupBy.value)
    ensures forall x :: x in RequestHeads(Flatten(HavingRequestBlocks(m, hs))) ==> x !in ByKeys(groupBy) && x !in DirectHeads(aggs)
  {
    var h := Flatten(HavingRequestBlocks(m, hs));
    forall x | x in RequestHeads(h) ensures x !in ByKeys(groupBy) && x !in DirectHeads(aggs) {
      var p :| 0 <= p < |h| && x == ProjectionHead(h[p].havingMode, h[p].kind);
      HavingRequestsMembership(m, hs, h[p]);
      LeadingUnderscore(true, h[p].kind, '.', "");
      if x in DirectHeads(aggs) {
        var i :| 0 <= i < |aggs| && aggs[i].keys != [] && x == ProjectionHead(false, aggs[i].kind);
        ProjectionHeadInjective(true, h[p].kind, false, aggs[i].kind);
      }
    }
  }

  /** The top-level fields of `$set`: the group keys and the namespace of every request. */
  lemma SetHeads<M>(m: Model, aggs: seq<AggregateEntry>, groupBy: Option<seq<string>>, having: Option<seq<HavingEntry<M>>>)
    requires ByOnModel(m, groupBy) && HavingOnModel(m, having) && AggregatesOnModel(m, Some(aggs))
    requires groupBy.Some? ==> FieldLikeKeys(groupBy.value)
    ensures Heads(Keys(Accumulated(m, aggs, groupBy, having).projection)) == ByKeys(groupBy) + RequestHeads(Requests(m, having, aggs))
  {
    var rqs := Requests(m, having, aggs);
    SetKeys(m, aggs, groupBy, having);
    HeadsUnion(ByKeys(groupBy), ProjectionNames(rqs));
    HeadsOfProjectionNames(rqs);
    if groupBy.Some? {
      HeadsOfFieldLike(groupBy.value);
    } else {
      assert Heads({}) == {};
    }
  }

  lemma RemoveSeparate<T>(all: set<T>, b: set<T>, hh: set<T>, dh: set<T>)
    requires all == b + (hh + dh)
    requires forall x :: x in hh ==> x !in b && x !in dh
    ensures all - hh == b + dh
  {
  }

  /**
   * Once both `$unset` stages have run, the top-level fields `$set` created
   * are the group keys and one namespace per aggregate kind that names a key.
   */
  lemma OutputFields<M>(m: Model, aggs: seq<AggregateEntry>, groupBy: Option<seq<string>>, having: Option<seq<HavingEntry<M>>>)
    requires ByOnModel(m, groupBy) && HavingOnModel(m, having) && AggregatesOnModel(m, Some(aggs))
    requires groupBy.Some? ==> FieldLikeKeys(groupBy.value)
    ensures Heads(Keys(Accumulated(m, aggs, groupBy, having).projection)) - HavingHeadSet(m, having) == ByKeys(groupBy) + DirectHeads(aggs)
  {
    var h := if having.Some? then Flatten(HavingRequestBlocks(m, having.value)) else [];
    var d := Flatten(DirectRequestBlocks(m, aggs));
    var all := Heads(Keys(Accumulated(m, aggs, groupBy, having).projection));
    assert Requests(m, having, aggs) == h + d;
    SetHeads(m, aggs, groupBy, having);
    RequestHeadsConcat(h, d);
    DirectHeadsOf(m, aggs);
    if having.Some? {
      HavingHeadsAreHavingNamespaces(m, having.value);
      HavingHeadsAreSeparate(m, aggs, groupBy, having.value);
    } else {
      assert RequestHeads(h) == {};
    }
    assert RequestHeads(h) == HavingHeadSet(m, having);
    RemoveSeparate(all, ByKeys(groupBy), HavingHeadSet(m, having), DirectHeads(aggs));
  }

  /** An intermediate name starts with `_`, is not `_id` and is no projection head. */
  lemma IntermediateIsNoHead(hm: bool, g: Kind, c: string, x: string)
    requires x in Intermediates(hm, g, c)
    ensures |x| > 0 && x[0] == '_' && x != "_id"
    ensures forall hm2: bool, g2: Kind :: ProjectionHead(hm2, g2) != x
  {
    var acc := x == AccumulatorName(hm, g, c);
    var g', t := if acc then g else Sum, if acc then c else "count_" + c;
    assert x == Tagged(hm, g', '_', t);
    LeadingUnderscore(hm, g', '_', t);
    TaggedIsNotId(hm, g', '_', t);
    forall hm2: bool, g2: Kind ensures ProjectionHead(hm2, g2) != x {
      HeadIsNotTagged(hm2, g2, hm, g', '_', t);
    }
  }

  /**
   * The top-level fields of a result row once both `$unset` stages have run:
   * the keys `$group` wrote and the top-level fields `$set` created, less the
   * intermediates the first `$unset` names and the having namespaces the
   * second one names.
   */
  ghost function OutputHeads<M>(m: Model, aggs: seq<AggregateEntry>, groupBy: Option<seq<string>>, having: Option<seq<HavingEntry<M>>>): set<string>
    requires ByOnModel(m, groupBy) && HavingOnModel(m, having) && AggregatesOnModel(m, Some(aggs))
  {
    var acc := Accumulated(m, aggs, groupBy, having);
    (Keys(acc.group) + Heads(Keys(acc.projection))) - Elems(acc.unset) - HavingHeadSet(m, having)
  }

  lemma OutputOfParts(acc: Accumulation, h: set<string>, rest: set<string>)
    requires Keys(acc.group) == {"_id"} + Elems(acc.unset) && "_id" !in Elems(acc.unset) && "_id" !in h
    requires Elems(acc.unset) !! Heads(Keys(acc.projection)) && Heads(Keys(acc.projection)) - h == rest
    ensures (Keys(acc.group) + Heads(Keys(acc.projection))) - Elems(acc.unset) - h == {"_id"} + rest
  {
  }

  /**
   * A result row holds exactly `_id`, the group keys and one namespace per
   * aggregate kind that names a key: no intermediate and no having namespace
   * is left.
   */
  lemma OutputRow<M>(m: Model, aggs: seq<AggregateEntry>, groupBy: Option<seq<string>>, having: Option<seq<HavingEntry<M>>>)
    requires ByOnModel(m, groupBy) && HavingOnModel(m, having) && AggregatesOnModel(m, Some(aggs))
    requires groupBy.Some? ==> FieldLikeKeys(groupBy.value)
    ensures OutputHeads(m, aggs, groupBy, having) == {"_id"} + ByKeys(groupBy) + DirectHeads(aggs)
  {
    var acc := Accumulated(m, aggs, groupBy, having);
    UnsetAvoidsHeads(m, aggs, groupBy, having);
    OutputFields(m, aggs, groupBy, having);
    HavingHeadsAvoidId(m, having);
    OutputOfParts(acc, HavingHeadSet(m, having), ByKeys(groupBy) + DirectHeads(aggs));
  }

  /** No intermediate the first `$unset` names is a top-level field of `$set`. */
  lemma UnsetAvoidsHeads<M>(m: Model, aggs: seq<AggregateEntry>, groupBy: Option<seq<string>>, having: Option<seq<HavingEntry<M>>>)
    requires ByOnModel(m, groupBy) && HavingOnModel(m, having) && AggregatesOnModel(m, Some(aggs))
    requires groupBy.Some? ==> FieldLikeKeys(groupBy.value)
    ensures var acc := Accumulated(m, aggs, groupBy, having);
      && Keys(acc.group) == {"_id"} + Elems(acc.unset) && "_id" !in Elems(acc.unset)
      && Elems(acc.unset) !! Heads(Keys(acc.projection))
  {
    var acc, rqs := Accumulated(m, aggs, groupBy, having), Requests(m, having, aggs);
    GroupAndUnset(m, aggs, groupBy, having);
    SetHeads(m, aggs, groupBy, having);
    forall x | x in Elems(acc.unset) ensures x !in ByKeys(groupBy) + RequestHeads(rqs) {
      AllIntermediatesMembership(rqs, x);
      var i :| 0 <= i < |rqs| && x in RequestIntermediates(rqs[i]);
      IntermediateIsNoHead(rqs[i].havingMode, rqs[i].kind, rqs[i].column, x);
      ByKeysAreFieldLike(groupBy, x);
    }
  }

  /** A group key does not start with `_`. */
  lemma ByKeysAreFieldLike(groupBy: Option<seq<string>>, x: string)
    requires groupBy.Some? ==> FieldLikeKeys(groupBy.value)
    ensures x in ByKeys(groupBy) ==> x == [] || x[0] != '_'
  {
    if groupBy.Some? && x in groupBy.value {
      var j :| 0 <= j < |groupBy.value| && groupBy.value[j] == x;
    }
  }

  /** `_id` is no having namespace. */
  lemma HavingHeadsAvoidId<M>(m: Model, having: Option<seq<HavingEntry<M>>>)
    requires HavingOnModel(m, having)
    ensures "_id" !in HavingHeadSet(m, having)
  {
    if having.Some? {
      HavingHeadsAreHavingNamespaces(m, having.value);
      var h := Flatten(HavingRequestBlocks(m, having.value));
      forall p | 0 <= p < |h| ensures ProjectionHead(h[p].havingMode, h[p].kind) != "_id" {
        HeadIsNotId(h[p].havingMode, h[p].kind);
      }
    }
  }
}
