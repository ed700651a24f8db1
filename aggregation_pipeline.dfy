/**
 * The stages `build_query_pipeline` emits for an aggregate or group-by query,
 * as a function of its arguments (the aggregate and group-by part only).
 *
 * The source reads `aggregates` and `having` from JSON objects; here an
 * object is a sequence of entries and its keys are the entry keys. A
 * having matcher is turned into a filter by `translate`, which stands for
 * `parse_bson_where_entry` and is given the key path of the matcher.
 */
module AggregationPipeline {
  import opened Wrappers
  import opened Seqs
  import opened Bson
  import opened Models
  import opened AggregationNames
  import opened AggregationExprs
  import opened AggregationPlan
  import PipelineCtx

  datatype Stage =
    | Group(group: Document)
    | Set(fields: Document)
    | Unset(names: seq<string>)
    | Match(filter: Document)
    | Sort(order: Document)

  datatype StageKind = GroupKind | SetKind | UnsetKind | MatchKind | SortKind

  function KindOf(st: Stage): StageKind
  {
    match st
    case Group(_) => GroupKind
    case Set(_) => SetKind
    case Unset(_) => UnsetKind
    case Match(_) => MatchKind
    case Sort(_) => SortKind
  }

  /** The stage operator each stage document is keyed by. */
  function StageName(k: StageKind): string
  {
    match k
    case GroupKind => "$group"
    case SetKind => "$set"
    case UnsetKind => "$unset"
    case MatchKind => "$match"
    case SortKind => "$sort"
  }

  // ---------------------------------------------------------------------------
  // What the source unwraps

  /** Every `by` key is a field of the model. */
  ghost predicate ByOnModel(m: Model, groupBy: Option<seq<string>>)
  {
    Valid(m) && (groupBy.Some? ==> forall i :: 0 <= i < |groupBy.value| ==> HasField(m, groupBy.value[i]))
  }

  /** Every having key is a field of the model. */
  ghost predicate HavingOnModel<M>(m: Model, having: Option<seq<HavingEntry<M>>>)
  {
    Valid(m) && (having.Some? ==> forall i :: 0 <= i < |having.value| ==> HasField(m, having.value[i].key))
  }

  /** Every aggregate key is a field of the model or `_all`. */
  ghost predicate AggregatesOnModel(m: Model, aggregates: Option<seq<AggregateEntry>>)
  {
    Valid(m) && (aggregates.Some? ==>
      forall i, j :: 0 <= i < |aggregates.value| && 0 <= j < |aggregates.value[i].keys| ==>
        Aggregatable(m, aggregates.value[i].keys[j]))
  }

  /** A group-by without aggregates still groups, with no aggregate. */
  function TheAggregates(aggregates: Option<seq<AggregateEntry>>, groupBy: Option<seq<string>>): (r: Option<seq<AggregateEntry>>)
    ensures r.None? <==> aggregates.None? && groupBy.None?
    ensures aggregates.Some? ==> r == aggregates
    ensures aggregates.None? && groupBy.Some? ==> r == Some([])
  {
    if groupBy.Some? && aggregates.None? then Some([]) else aggregates
  }

  // ---------------------------------------------------------------------------
  // Requests, in the order the source makes its calls

  /** The having requests of one field: one per kind, in the having namespace. */
  function EntryHavingRequests<M>(m: Model, e: HavingEntry<M>): (rqs: seq<Request>)
    requires Valid(m) && HasField(m, e.key)
    ensures |rqs| == |e.matchers|
    ensures forall j :: 0 <= j < |rqs| ==> rqs[j] == Resolve(m, true, e.matchers[j].0, e.key)
  {
    seq(|e.matchers|, j requires 0 <= j < |e.matchers| => Resolve(m, true, e.matchers[j].0, e.key))
  }

  function HavingRequestBlocks<M>(m: Model, hs: seq<HavingEntry<M>>): (bs: seq<seq<Request>>)
    requires HavingOnModel(m, Some(hs))
    ensures |bs| == |hs| && forall i :: 0 <= i < |hs| ==> bs[i] == EntryHavingRequests(m, hs[i])
  {
    seq(|hs|, i requires 0 <= i < |hs| => EntryHavingRequests(m, hs[i]))
  }

  /** The direct requests of one aggregate kind: one per key. */
  function EntryDirectRequests(m: Model, e: AggregateEntry): (rqs: seq<Request>)
    requires Valid(m) && forall j :: 0 <= j < |e.keys| ==> Aggregatable(m, e.keys[j])
    ensures |rqs| == |e.keys|
    ensures forall j :: 0 <= j < |rqs| ==> rqs[j] == Resolve(m, false, e.kind, e.keys[j])
  {
    seq(|e.keys|, j requires 0 <= j < |e.keys| => Resolve(m, false, e.kind, e.keys[j]))
  }

  function DirectRequestBlocks(m: Model, aggs: seq<AggregateEntry>): (bs: seq<seq<Request>>)
    requires AggregatesOnModel(m, Some(aggs))
    ensures |bs| == |aggs| && forall i :: 0 <= i < |aggs| ==> bs[i] == EntryDirectRequests(m, aggs[i])
  {
    seq(|aggs|, i requires 0 <= i < |aggs| => EntryDirectRequests(m, aggs[i]))
  }

  /** Every request of a query: the having ones first, then the direct ones. */
  function Requests<M>(m: Model, having: Option<seq<HavingEntry<M>>>, aggs: seq<AggregateEntry>): seq<Request>
    requires HavingOnModel(m, having) && AggregatesOnModel(m, Some(aggs))
  {
    (if having.Some? then Flatten(HavingRequestBlocks(m, having.value)) else []) + Flatten(DirectRequestBlocks(m, aggs))
  }

  lemma HavingRequestsMembership<M>(m: Model, hs: seq<HavingEntry<M>>, rq: Request)
    requires HavingOnModel(m, Some(hs))
    ensures rq in Flatten(HavingRequestBlocks(m, hs)) <==>
      exists i, j :: 0 <= i < |hs| && 0 <= j < |hs[i].matchers| && rq == Resolve(m, true, hs[i].matchers[j].0, hs[i].key)
  {
    var bs := HavingRequestBlocks(m, hs);
    FlattenMembership(bs, rq);
    if rq in Flatten(bs) {
      var i :| 0 <= i < |bs| && rq in bs[i];
      var j :| 0 <= j < |bs[i]| && bs[i][j] == rq;
      assert rq == Resolve(m, true, hs[i].matchers[j].0, hs[i].key);
    }
    forall i, j | 0 <= i < |hs| && 0 <= j < |hs[i].matchers| ensures Resolve(m, true, hs[i].matchers[j].0, hs[i].key) in Flatten(bs) {
      assert bs[i][j] == Resolve(m, true, hs[i].matchers[j].0, hs[i].key);
      FlattenMembership(bs, bs[i][j]);
    }
  }

  lemma DirectRequestsMembership(m: Model, aggs: seq<AggregateEntry>, rq: Request)
    requires AggregatesOnModel(m, Some(aggs))
    ensures rq in Flatten(DirectRequestBlocks(m, aggs)) <==>
      exists i, j :: 0 <= i < |aggs| && 0 <= j < |aggs[i].keys| && rq == Resolve(m, false, aggs[i].kind, aggs[i].keys[j])
  {
    var bs := DirectRequestBlocks(m, aggs);
    FlattenMembership(bs, rq);
    if rq in Flatten(bs) {
      var i :| 0 <= i < |bs| && rq in bs[i];
      var j :| 0 <= j < |bs[i]| && bs[i][j] == rq;
      assert rq == Resolve(m, false, aggs[i].kind, aggs[i].keys[j]);
    }
    forall i, j | 0 <= i < |aggs| && 0 <= j < |aggs[i].keys| ensures Resolve(m, false, aggs[i].kind, aggs[i].keys[j]) in Flatten(bs) {
      assert bs[i][j] == Resolve(m, false, aggs[i].kind, aggs[i].keys[j]);
      FlattenMembership(bs, bs[i][j]);
    }
  }

  /** A having object has no field twice, and no kind twice under one field. */
  predicate DistinctHaving<M>(hs: seq<HavingEntry<M>>)
  {
    NoDup(Map(hs, (e: HavingEntry<M>) => e.key))
    && forall i :: 0 <= i < |hs| ==> NoDup(Map(hs[i].matchers, (p: (Kind, M)) => p.0))
  }

  /** An aggregates object has no kind twice, and no key twice under one kind. */
  predicate DistinctAggregates(aggs: seq<AggregateEntry>)
  {
    NoDup(Map(aggs, (e: AggregateEntry) => e.kind)) && forall i :: 0 <= i < |aggs| ==> NoDup(aggs[i].keys)
  }

  lemma HavingTargetsDistinct<M>(m: Model, hs: seq<HavingEntry<M>>)
    requires HavingOnModel(m, Some(hs)) && DistinctHaving(hs)
    ensures NoDup(Map(Flatten(HavingRequestBlocks(m, hs)), Target))
  {
    var bs := HavingRequestBlocks(m, hs);
    forall i | 0 <= i < |bs| ensures NoDup(Map(bs[i], Target)) {
      var ks := Map(hs[i].matchers, (p: (Kind, M)) => p.0);
      forall a, b | 0 <= a < b < |bs[i]| ensures Map(bs[i], Target)[a] != Map(bs[i], Target)[b] {
        assert ks[a] != ks[b];
      }
    }
    forall i, j, x, y | 0 <= i < j < |bs| && x in bs[i] && y in bs[j] ensures Target(x) != Target(y) {
      var ks := Map(hs, (e: HavingEntry<M>) => e.key);
      assert ks[i] != ks[j];
      var p :| 0 <= p < |bs[i]| && bs[i][p] == x;
      var q :| 0 <= q < |bs[j]| && bs[j][q] == y;
      assert x.key == hs[i].key && y.key == hs[j].key;
    }
    FlattenMapNoDup(bs, Target);
  }

  lemma DirectTargetsDistinct(m: Model, aggs: seq<AggregateEntry>)
    requires AggregatesOnModel(m, Some(aggs)) && DistinctAggregates(aggs)
    ensures NoDup(Map(Flatten(DirectRequestBlocks(m, aggs)), Target))
  {
    var bs := DirectRequestBlocks(m, aggs);
    forall i | 0 <= i < |bs| ensures NoDup(Map(bs[i], Target)) {
      forall a, b | 0 <= a < b < |bs[i]| ensures Map(bs[i], Target)[a] != Map(bs[i], Target)[b] {
        assert aggs[i].keys[a] != aggs[i].keys[b];
      }
    }
    forall i, j, x, y | 0 <= i < j < |bs| && x in bs[i] && y in bs[j] ensures Target(x) != Target(y) {
      var ks := Map(aggs, (e: AggregateEntry) => e.kind);
      assert ks[i] != ks[j];
      var p :| 0 <= p < |bs[i]| && bs[i][p] == x;
      var q :| 0 <= q < |bs[j]| && bs[j][q] == y;
      assert x.kind == aggs[i].kind && y.kind == aggs[j].kind;
    }
    FlattenMapNoDup(bs, Target);
  }

  /** Distinct arguments make requests with distinct targets. */
  lemma RequestsDistinct<M>(m: Model, having: Option<seq<HavingEntry<M>>>, aggs: seq<AggregateEntry>)
    requires HavingOnModel(m, having) && AggregatesOnModel(m, Some(aggs))
    requires having.Some? ==> DistinctHaving(having.value)
    requires DistinctAggregates(aggs)
    ensures DistinctTargets(Requests(m, having, aggs))
  {
    var h := if having.Some? then Flatten(HavingRequestBlocks(m, having.value)) else [];
    var d := Flatten(DirectRequestBlocks(m, aggs));
    if having.Some? {
      HavingTargetsDistinct(m, having.value);
    }
    DirectTargetsDistinct(m, aggs);
    MapConcat(h, d, Target);
    forall x | x in Map(h, Target) ensures x !in Map(d, Target) {
      var p :| 0 <= p < |h| && Map(h, Target)[p] == x;
      HavingRequestsMembership(m, having.value, h[p]);
      if x in Map(d, Target) {
        var q :| 0 <= q < |d| && Map(d, Target)[q] == x;
        DirectRequestsMembership(m, aggs, d[q]);
      }
    }
    NoDupConcat(Map(h, Target), Map(d, Target));
  }

  /** What a matcher's value is compared against: a having projection. */
  function MatcherTarget<M>(x: Matcher<M>): (bool, Kind, string)
  {
    (true, x.kind, x.key)
  }

  /** The having requests and the having matchers run in step. */
  lemma HavingRequestsFollowMatchers<M>(m: Model, hs: seq<HavingEntry<M>>)
    requires HavingOnModel(m, Some(hs))
    ensures Map(Flatten(HavingRequestBlocks(m, hs)), Target) == Map(HavingMatchers(m, hs), MatcherTarget)
  {
    var rb, mb := HavingRequestBlocks(m, hs), MatcherBlocks(m, hs);
    forall i | 0 <= i < |hs| ensures Map(rb[i], Target) == Map(mb[i], MatcherTarget) {
    }
    FlattenMapAgree(rb, Target, mb, MatcherTarget);
  }

  // ---------------------------------------------------------------------------
  // Group keys and order

  /** The `_id` components, keyed by column. */
  function IdEntries(m: Model, groupBy: seq<string>): (es: Document)
    requires ByOnModel(m, Some(groupBy))
    ensures |es| == |groupBy|
    ensures forall i :: 0 <= i < |groupBy| ==> es[i] == Entry(FieldColumn(m, groupBy[i]), IdComponent(FieldColumn(m, groupBy[i])))
  {
    seq(|groupBy|, i requires 0 <= i < |groupBy| => Entry(FieldColumn(m, groupBy[i]), IdComponent(FieldColumn(m, groupBy[i]))))
  }

  /** The `$set` entries that copy each group key out of `_id`, under its logical name. */
  function ByEntries(m: Model, groupBy: seq<string>): (es: Document)
    requires ByOnModel(m, Some(groupBy))
    ensures |es| == |groupBy|
    ensures forall i :: 0 <= i < |groupBy| ==> es[i] == Entry(groupBy[i], FieldRef("_id." + FieldColumn(m, groupBy[i])))
  {
    seq(|groupBy|, i requires 0 <= i < |groupBy| => Entry(groupBy[i], FieldRef("_id." + FieldColumn(m, groupBy[i]))))
  }

  /** The `$sort` entries: every group key ascending. */
  function SortEntries(groupBy: seq<string>): (es: Document)
    ensures |es| == |groupBy| && forall i :: 0 <= i < |groupBy| ==> es[i] == Entry(groupBy[i], Int(1))
  {
    seq(|groupBy|, i requires 0 <= i < |groupBy| => Entry(groupBy[i], Int(1)))
  }

  function GroupId(m: Model, groupBy: Option<seq<string>>): Value
    requires ByOnModel(m, groupBy)
  {
    if groupBy.Some? then Doc(InsertAll([], IdEntries(m, groupBy.value))) else Null
  }

  /** `$group`, `$set` and `$unset` before the first aggregate is added. */
  function Initial(m: Model, groupBy: Option<seq<string>>): Accumulation
    requires ByOnModel(m, groupBy)
  {
    Accumulation([Entry("_id", GroupId(m, groupBy))], if groupBy.Some? then InsertAll([], ByEntries(m, groupBy.value)) else [], [])
  }

  function SortDoc(groupBy: Option<seq<string>>): Document
  {
    if groupBy.Some? then InsertAll([], SortEntries(groupBy.value)) else []
  }

  // ---------------------------------------------------------------------------
  // The having filter

  /** The matchers of one having field, each with the field's column. */
  function EntryMatchers<M>(m: Model, e: HavingEntry<M>): (ms: seq<Matcher<M>>)
    requires Valid(m) && HasField(m, e.key)
    ensures |ms| == |e.matchers|
    ensures forall j :: 0 <= j < |ms| ==> ms[j] == Matcher(e.key, FieldColumn(m, e.key), e.matchers[j].0, e.matchers[j].1)
  {
    seq(|e.matchers|, j requires 0 <= j < |e.matchers| => Matcher(e.key, FieldColumn(m, e.key), e.matchers[j].0, e.matchers[j].1))
  }

  function MatcherBlocks<M>(m: Model, hs: seq<HavingEntry<M>>): (bs: seq<seq<Matcher<M>>>)
    requires HavingOnModel(m, Some(hs))
    ensures |bs| == |hs| && forall i :: 0 <= i < |hs| ==> bs[i] == EntryMatchers(m, hs[i])
  {
    seq(|hs|, i requires 0 <= i < |hs| => EntryMatchers(m, hs[i]))
  }

  /** Every matcher of a having filter, field by field. */
  function HavingMatchers<M>(m: Model, hs: seq<HavingEntry<M>>): seq<Matcher<M>>
    requires HavingOnModel(m, Some(hs))
  {
    Flatten(MatcherBlocks(m, hs))
  }

  lemma HavingMatchersMembership<M>(m: Model, hs: seq<HavingEntry<M>>, x: Matcher<M>)
    requires HavingOnModel(m, Some(hs))
    ensures x in HavingMatchers(m, hs) <==>
      exists i, j :: 0 <= i < |hs| && 0 <= j < |hs[i].matchers|
        && x == Matcher(hs[i].key, FieldColumn(m, hs[i].key), hs[i].matchers[j].0, hs[i].matchers[j].1)
  {
    var bs := MatcherBlocks(m, hs);
    FlattenMembership(bs, x);
    if x in HavingMatchers(m, hs) {
      var i :| 0 <= i < |bs| && x in bs[i];
      var j :| 0 <= j < |bs[i]| && bs[i][j] == x;
      assert x == Matcher(hs[i].key, FieldColumn(m, hs[i].key), hs[i].matchers[j].0, hs[i].matchers[j].1);
    }
    forall i, j | 0 <= i < |hs| && 0 <= j < |hs[i].matchers|
      ensures Matcher(hs[i].key, FieldColumn(m, hs[i].key), hs[i].matchers[j].0, hs[i].matchers[j].1) in HavingMatchers(m, hs)
    {
      assert bs[i][j] == Matcher(hs[i].key, FieldColumn(m, hs[i].key), hs[i].matchers[j].0, hs[i].matchers[j].1);
      FlattenMembership(bs, bs[i][j]);
    }
  }

  /** The having field a matcher comes from, and its column. */
  lemma MatcherField<M>(m: Model, hs: seq<HavingEntry<M>>, x: Matcher<M>) returns (p: nat)
    requires HavingOnModel(m, Some(hs)) && x in HavingMatchers(m, hs)
    ensures p < |hs| && hs[p].key == x.key && x.column == FieldColumn(m, hs[p].key)
  {
    var bs := MatcherBlocks(m, hs);
    FlattenMembership(bs, x);
    p :| 0 <= p < |bs| && x in bs[p];
    var j :| 0 <= j < |bs[p]| && bs[p][j] == x;
  }

  /** `path + "having" + key + "_{kind}"`: where a matcher sits in the request. */
  function MatcherPath<M>(path: PipelineCtx.KeyPath, x: Matcher<M>): (p: PipelineCtx.KeyPath)
    ensures |p| == |path| + 3 && p[..|path|] == path
  {
    path + [PipelineCtx.Key("having"), PipelineCtx.Key(x.key), PipelineCtx.Key(KindKey(x.kind))]
  }

  /** One matcher through `translate`, at its own key path. */
  function Translated<M, E>(translate: (M, PipelineCtx.KeyPath) -> Result<Value, E>, path: PipelineCtx.KeyPath, x: Matcher<M>): Result<Value, E>
  {
    translate(x.matcher, MatcherPath(path, x))
  }

  /** Every matcher translated, in order, stopping at the first failing translation. */
  function TranslateAll<M, E(==)>(ms: seq<Matcher<M>>, path: PipelineCtx.KeyPath, translate: (M, PipelineCtx.KeyPath) -> Result<Value, E>): (r: Result<seq<Value>, E>)
    ensures r.Success? ==> |r.value| == |ms|
    decreases |ms|
  {
    if ms == [] then Success([])
    else
      var t := Translated(translate, path, ms[0]);
      if t.Failure? then Failure(t.error)
      else
        var rest := TranslateAll(ms[1..], path, translate);
        if rest.Failure? then Failure(rest.error) else Success([t.value] + rest.value)
  }

  /**
   * The translation succeeds exactly when every matcher translates, with the
   * translated matchers in order; otherwise its error is that of the first
   * matcher that does not translate.
   */
  lemma TranslateAllMeaning<M, E>(ms: seq<Matcher<M>>, path: PipelineCtx.KeyPath, translate: (M, PipelineCtx.KeyPath) -> Result<Value, E>)
    ensures var r := TranslateAll(ms, path, translate);
      && (r.Success? <==> forall i :: 0 <= i < |ms| ==> Translated(translate, path, ms[i]).Success?)
      && (r.Success? ==> |r.value| == |ms| && forall i :: 0 <= i < |ms| ==> r.value[i] == Translated(translate, path, ms[i]).value)
      && (r.Failure? ==>
            exists i :: 0 <= i < |ms| && Translated(translate, path, ms[i]) == Failure(r.error)
              && forall j :: 0 <= j < i ==> Translated(translate, path, ms[j]).Success?)
  {
    TranslateAllSucceeds(ms, path, translate);
    TranslateAllValues(ms, path, translate);
    TranslateAllFails(ms, path, translate);
  }

  /** The translation succeeds exactly when every matcher translates. */
  lemma {:induction false} TranslateAllSucceeds<M, E>(ms: seq<Matcher<M>>, path: PipelineCtx.KeyPath, translate: (M, PipelineCtx.KeyPath) -> Result<Value, E>)
    ensures TranslateAll(ms, path, translate).Success? <==> forall i :: 0 <= i < |ms| ==> Translated(translate, path, ms[i]).Success?
    decreases |ms|
  {
    if ms != [] {
      var tail := ms[1..];
      TranslateAllSucceeds(tail, path, translate);
      assert forall i :: 1 <= i < |ms| ==> tail[i - 1] == ms[i];
    }
  }

  /** A successful translation holds the translated matchers in order. */
  lemma TranslateAllValues<M, E>(ms: seq<Matcher<M>>, path: PipelineCtx.KeyPath, translate: (M, PipelineCtx.KeyPath) -> Result<Value, E>)
    ensures var r := TranslateAll(ms, path, translate);
      r.Success? ==> forall i :: 0 <= i < |ms| ==> Translated(translate, path, ms[i]) == Success(r.value[i])
  {
    forall i | 0 <= i < |ms| && TranslateAll(ms, path, translate).Success?
      ensures Translated(translate, path, ms[i]) == Success(TranslateAll(ms, path, translate).value[i])
    {
      TranslateAllValueAt(ms, path, translate, i);
    }
  }

  /** Position `i` of a successful translation is the translation of matcher `i`. */
  lemma {:induction false} TranslateAllValueAt<M, E>(ms: seq<Matcher<M>>, path: PipelineCtx.KeyPath, translate: (M, PipelineCtx.KeyPath) -> Result<Value, E>, i: nat)
    requires i < |ms| && TranslateAll(ms, path, translate).Success?
    ensures Translated(translate, path, ms[i]) == Success(TranslateAll(ms, path, translate).value[i])
    decreases i
  {
    var t, rest := Translated(translate, path, ms[0]), TranslateAll(ms[1..], path, translate);
    assert t.Success? && rest.Success?;
    var all := [t.value] + rest.value;
    assert TranslateAll(ms, path, translate).value == all;
    if i > 0 {
      TranslateAllValueAt(ms[1..], path, translate, i - 1);
      assert ms[1..][i - 1] == ms[i];
      assert all[i] == rest.value[i - 1];
    }
  }

  /** A failed translation carries the error of the first matcher that does not translate. */
  lemma {:induction false} TranslateAllFails<M, E>(ms: seq<Matcher<M>>, path: PipelineCtx.KeyPath, translate: (M, PipelineCtx.KeyPath) -> Result<Value, E>)
    ensures var r := TranslateAll(ms, path, translate);
      r.Failure? ==>
        exists i :: 0 <= i < |ms| && Translated(translate, path, ms[i]) == Failure(r.error)
          && forall j :: 0 <= j < i ==> Translated(translate, path, ms[j]).Success?
    decreases |ms|
  {
    if ms != [] && Translated(translate, path, ms[0]).Success? {
      var tail := ms[1..];
      TranslateAllFails(tail, path, translate);
      var rest := TranslateAll(tail, path, translate);
      if rest.Failure? {
        var k :| 0 <= k < |tail| && Translated(translate, path, tail[k]) == Failure(rest.error)
          && forall j :: 0 <= j < k ==> Translated(translate, path, tail[j]).Success?;
        assert Translated(translate, path, ms[k + 1]) == Failure(rest.error);
        forall j | 0 <= j < k + 1 ensures Translated(translate, path, ms[j]).Success? {
          if j > 0 {
            assert tail[j - 1] == ms[j];
          }
        }
      }
    }
  }

  /** A run of translations that succeeds up to `n` and fails at `n` fails with that failure. */
  lemma TranslateAllFirstFailure<M, E>(ms: seq<Matcher<M>>, path: PipelineCtx.KeyPath, translate: (M, PipelineCtx.KeyPath) -> Result<Value, E>, n: nat)
    requires n < |ms| && forall p :: 0 <= p < n ==> Translated(translate, path, ms[p]).Success?
    requires Translated(translate, path, ms[n]).Failure?
    ensures TranslateAll(ms, path, translate) == Failure(Translated(translate, path, ms[n]).error)
  {
    TranslateAllMeaning(ms, path, translate);
    var r := TranslateAll(ms, path, translate);
    var i :| 0 <= i < |ms| && Translated(translate, path, ms[i]) == Failure(r.error)
      && forall j :: 0 <= j < i ==> Translated(translate, path, ms[j]).Success?;
    assert i == n;
  }

  /** One more successful translation extends the translated values. */
  lemma TranslateAllSnoc<M, E>(ms: seq<Matcher<M>>, x: Matcher<M>, path: PipelineCtx.KeyPath, translate: (M, PipelineCtx.KeyPath) -> Result<Value, E>)
    requires TranslateAll(ms, path, translate).Success? && Translated(translate, path, x).Success?
    ensures TranslateAll(ms + [x], path, translate) == Success(TranslateAll(ms, path, translate).value + [Translated(translate, path, x).value])
  {
    var xs := ms + [x];
    TranslateAllMeaning(ms, path, translate);
    TranslateAllMeaning(xs, path, translate);
    assert forall p :: 0 <= p < |ms| ==> xs[p] == ms[p];
    assert xs[|ms|] == x;
    var r := TranslateAll(xs, path, translate);
    assert r.Success?;
    SnocEq(r.value, TranslateAll(ms, path, translate).value, Translated(translate, path, x).value);
  }

  /**
   * The `$match` entries: each translated matcher under
   * `_having_{kind}.{column}`, keyed by the field's column, while `$set`
   * names the having value `_having_{kind}.{key}` by the field's name.
   */
  function MatchEntries<M>(ms: seq<Matcher<M>>, vs: seq<Value>): (es: Document)
    requires |vs| == |ms|
    ensures |es| == |ms|
    ensures forall i :: 0 <= i < |ms| ==> es[i] == Entry(MatchKey(ms[i].kind, ms[i].column), vs[i])
  {
    seq(|ms|, i requires 0 <= i < |ms| => Entry(MatchKey(ms[i].kind, ms[i].column), vs[i]))
  }

  /** The having namespaces to drop after filtering, each once, in first-use order. */
  function HavingHeads<M>(ms: seq<Matcher<M>>): seq<string>
  {
    Dedup(Map(ms, HavingHead))
  }

  /** `_having_{kind}`: the namespace a matcher's having value lives in. */
  function HavingHead<M>(x: Matcher<M>): string
  {
    ProjectionHead(true, x.kind)
  }

  /** The `$match` document and the `$unset` list for `ms`, or the first translation error. */
  function HavingFilter<M, E(==)>(ms: seq<Matcher<M>>, path: PipelineCtx.KeyPath, translate: (M, PipelineCtx.KeyPath) -> Result<Value, E>): Result<(Document, seq<string>), E>
  {
    var t := TranslateAll(ms, path, translate);
    if t.Failure? then Failure(t.error)
    else Success((InsertAll([], MatchEntries(ms, t.value)), HavingHeads(ms)))
  }

  lemma HavingMatchersOnModel<M>(m: Model, hs: seq<HavingEntry<M>>)
    requires HavingOnModel(m, Some(hs))
    ensures forall i :: 0 <= i < |HavingMatchers(m, hs)| ==>
      HasField(m, HavingMatchers(m, hs)[i].key) && HavingMatchers(m, hs)[i].column == FieldColumn(m, HavingMatchers(m, hs)[i].key)
  {
    var ms := HavingMatchers(m, hs);
    forall i | 0 <= i < |ms| ensures HasField(m, ms[i].key) && ms[i].column == FieldColumn(m, ms[i].key) {
      HavingMatchersMembership(m, hs, ms[i]);
    }
  }

  // ---------------------------------------------------------------------------
  // The pipeline

  /** The `$group`, `$set` and, when something was accumulated, `$unset` stages. */
  function GroupStages(acc: Accumulation): seq<Stage>
  {
    [Group(acc.group), Set(acc.projection)] + (if acc.unset == [] then [] else [Unset(acc.unset)])
  }

  /** The `$sort` stage, when there is a group key. */
  function SortStages(groupBy: Option<seq<string>>): seq<Stage>
  {
    if SortDoc(groupBy) == [] then [] else [Sort(SortDoc(groupBy))]
  }

  /** `$group`, `$set` and `$unset` once every request has been made. */
  function Accumulated<M>(m: Model, aggs: seq<AggregateEntry>, groupBy: Option<seq<string>>, having: Option<seq<HavingEntry<M>>>): Accumulation
    requires ByOnModel(m, groupBy) && HavingOnModel(m, having) && AggregatesOnModel(m, Some(aggs))
  {
    StepAll(Initial(m, groupBy), Requests(m, having, aggs))
  }

  /** `$match` on the translated matchers and `$unset` of the having namespaces, or the first translation error. */
  function HavingStages<M, E(==)>(m: Model, having: Option<seq<HavingEntry<M>>>, path: PipelineCtx.KeyPath, translate: (M, PipelineCtx.KeyPath) -> Result<Value, E>): (r: Result<seq<Stage>, E>)
    requires HavingOnModel(m, having)
    ensures r.Success? && having.None? ==> r.value == []
    ensures r.Success? && having.Some? ==> |r.value| == 2 && r.value[0].Match? && r.value[1].Unset?
  {
    if having.None? then Success([])
    else
      var f := HavingFilter(HavingMatchers(m, having.value), path, translate);
      if f.Failure? then Failure(f.error)
      else Success([Match(f.value.0), Unset(f.value.1)])
  }

  /** The aggregate and group-by stages of `build_query_pipeline`. */
  function Pipeline<M, E(==)>(
    m: Model, aggregates: Option<seq<AggregateEntry>>, groupBy: Option<seq<string>>, having: Option<seq<HavingEntry<M>>>,
    path: PipelineCtx.KeyPath, translate: (M, PipelineCtx.KeyPath) -> Result<Value, E>): Result<seq<Stage>, E>
    requires ByOnModel(m, groupBy) && HavingOnModel(m, having) && AggregatesOnModel(m, aggregates)
  {
    var theAggs := TheAggregates(aggregates, groupBy);
    if theAggs.None? then Success([]) else AggregateStages(m, theAggs.value, groupBy, having, path, translate)
  }

  /** The stages once there is something to aggregate: `$group`, `$set`, `$unset`, the having filter and `$sort`. */
  function AggregateStages<M, E(==)>(
    m: Model, aggs: seq<AggregateEntry>, groupBy: Option<seq<string>>, having: Option<seq<HavingEntry<M>>>,
    path: PipelineCtx.KeyPath, translate: (M, PipelineCtx.KeyPath) -> Result<Value, E>): Result<seq<Stage>, E>
    requires ByOnModel(m, groupBy) && HavingOnModel(m, having) && AggregatesOnModel(m, Some(aggs))
  {
    StagesOf(GroupStages(Accumulated(m, aggs, groupBy, having)), HavingStages(m, having, path, translate), SortDoc(groupBy))
  }

  /** The group stages, then the having filter's stages, then `$sort` when its document is non-empty; or the filter's error. */
  function StagesOf<E>(group: seq<Stage>, filter: Result<seq<Stage>, E>, sort: Document): Result<seq<Stage>, E>
  {
    if filter.Failure? then Failure(filter.error)
    else Success(group + filter.value + (if sort == [] then [] else [Sort(sort)]))
  }
}
