# Aggregation planning for the MongoDB connector of teo, in Dafny

This project models four pieces of the teo ORM and proves properties of the model.

The main piece is the aggregate and group-by part of the MongoDB query pipeline builder:
- `insert_group_set_unset_for_aggregate`, together with the loops of `build_query_pipeline` that call it;
- the having filter;
- the `$sort` stage.

Given a model, an optional `by` list, optional `aggregates` and an optional `having` filter, the builder emits these stages in this order:
- `$group`, whose `_id` has one component per group key: the row's value when it is truthy, else null;
- `$set`, which copies the group keys back out of `_id` and projects every aggregate;
- `$unset` of the intermediates, when there are any;
- `$match` and a second `$unset` of the `_having_{kind}` namespaces, when there is a having filter;
- `$sort` ascending on the group keys, when there are any.

The other three pieces are:
- model metadata: `Model::new` and the derived key lists, the name defaults, the field lookup, the primary field, the index fields and `has_action`;
- the `filter` vector modifier;
- the `isInstanceOf` object item.

Modules:
- `Bson`: documents as ordered key/value lists where insert replaces in place, and a small evaluator for the row expressions the builder writes (`$cond`, `$ifNull`, `$eq`, field paths).
- `AggregationNames`: the intermediate and projection names `{prefix}_{kind}_{column}` and `{prefix}_{kind}.{key}`, and the `$match` key `_having_{kind}.{column}`. Proves they are injective and do not collide.
- `AggregationExprs`: the accumulator, counter, `_id`-component and projection expressions, and what they evaluate to.
- `AggregationPlan`: one builder call as a `Step` on the accumulation (`$group`, `$set`, `$unset`), and runs of calls.
- `AggregationPipeline`: the requests in the order the builder makes them, the having matchers, their translation, and the whole stage list as the function `Pipeline`.
- `AggregationBuilder`: the builder's loops as methods, each proved to compute the corresponding function of `AggregationPipeline`.
- `AggregationProperties`: what the stages promise.
- `Models`, `Filter`, `IsInstanceOf`: the other three pieces.
- `Seqs`, `Wrappers`, `PipelineCtx`: support modules.

Where the code and its design description disagree, the model follows the code:
- The having `$match` tests `_having_{kind}.{column}` while `$set` writes `_having_{kind}.{key}` (aggregation_builder.rs lines 45, 57 and 153).
  - The model keeps this.
  - `AggregationProperties.MatchKeyIsHavingNameIff` proves the two agree exactly when the field's column is its name.
  - `AggregationProperties.MatchMissesRenamedField` shows the mismatch for one matcher.
- The design describes a having filter without `by` as an error. The code raises none: with `aggregates` the filter is applied, and without them nothing is emitted. The model does the same.
- The design counts the non-null values of a column and gives null rows their own group. The code tests presence with `{"$ifNull": ["$c", false]}`, which is also false for a stored 0 or `false` (lines 28, 37 and 108). The model emits the code's test; the Findings section states the difference and proves the corrected form.
- The design calls storage column names unique within a model. The code does not check this, so the model does not assume it. `MatchValues` states it as a precondition.

## Model

| member | source | states |
|---|---|---|
| AggregationBuilder.InsertGroupSetUnset | src/connectors/mongodb/aggregation_builder.rs:19-60 | One call is one `Step` of the request for `(kind, key)` in its namespace, with the key's column looked up on the model (`_all` stays `_all`). |
| AggregationBuilder.InsertAccumulators | src/connectors/mongodb/aggregation_builder.rs:20-43 | `$group` gains the request's accumulator (for a field `count`, the sum of the `$ifNull`-false indicator) and, for `sum`, that counter after it. |
| AggregationBuilder.InsertProjection | src/connectors/mongodb/aggregation_builder.rs:44-59 | `$set` gains the projection under `{prefix}_{kind}.{key}`. `$unset` gains the request's intermediates in push order: two for `sum`, one otherwise. |
| AggregationBuilder.BuildGroupId | src/connectors/mongodb/aggregation_builder.rs:102-114 | `_id` is one component per group key, keyed by its column, or null without `by`. |
| AggregationBuilder.BuildBySet | src/connectors/mongodb/aggregation_builder.rs:115-123 | Before any aggregate, `$set` copies every group key out of `$_id.{column}`. |
| AggregationBuilder.AccumulateHavingField | src/connectors/mongodb/aggregation_builder.rs:125-131 | One having field adds one having-mode request per kind it is filtered on, in order. |
| AggregationBuilder.AccumulateHaving | src/connectors/mongodb/aggregation_builder.rs:124-132 | The having loop runs every having request, field by field. |
| AggregationBuilder.AccumulateAggregate | src/connectors/mongodb/aggregation_builder.rs:133-137 | One aggregate kind adds one direct request per key, in order. |
| AggregationBuilder.AccumulateAggregates | src/connectors/mongodb/aggregation_builder.rs:133-138 | The aggregates loop runs every direct request after the having ones. |
| AggregationBuilder.BuildGroupStages | src/connectors/mongodb/aggregation_builder.rs:101-143 | The first stages are `$group` and `$set` of the accumulation, then `$unset` exactly when it is non-empty. |
| AggregationBuilder.TranslateHavingField | src/connectors/mongodb/aggregation_builder.rs:148-158 | A field's matchers extend the `$match` and namespace list built so far, or return the first translation error. |
| AggregationBuilder.BuildHavingMatch | src/connectors/mongodb/aggregation_builder.rs:145-159 | The having loop computes `HavingFilter` over all matchers, stopping at the first error. |
| AggregationBuilder.BuildHavingFilter | src/connectors/mongodb/aggregation_builder.rs:144-162 | With a having filter, the stages are `$match` then `$unset`, or the translation error. |
| AggregationBuilder.BuildSort | src/connectors/mongodb/aggregation_builder.rs:163-170 | The `$sort` document inserts every `by` key with 1, in order. |
| AggregationBuilder.BuildAggregateStages | src/connectors/mongodb/aggregation_builder.rs:101-173 | With something to aggregate: group stages, having stages, then `$sort` when non-empty; an error stops it. |
| AggregationBuilder.BuildQueryPipeline | src/connectors/mongodb/aggregation_builder.rs:62-176 | The builder computes `Pipeline`. `by` without `aggregates` uses an empty aggregate map. With neither, no stage is emitted. |
| AggregationPipeline.TheAggregates | src/connectors/mongodb/aggregation_builder.rs:90-99 | None exactly when both `aggregates` and `by` are absent. Otherwise `aggregates`, or the empty map when only `by` is given. |
| AggregationPipeline.RequestsDistinct | src/connectors/mongodb/aggregation_builder.rs:124-138 | Key-distinct `having` and `aggregates` maps make requests that never repeat a `(namespace, kind, key)`. |
| AggregationPipeline.HavingRequestsFollowMatchers | src/connectors/mongodb/aggregation_builder.rs:124-131 | The having accumulations and the having matchers both walk the `having` map, in the same order. |
| AggregationPipeline.HavingMatchersMembership | src/connectors/mongodb/aggregation_builder.rs:148-153 | A matcher comes from having field `k` and kind `g` exactly when `having[k]` lists `g`; its column is `k`'s column. |
| AggregationPipeline.TranslateAllMeaning | src/connectors/mongodb/aggregation_builder.rs:152 | Translation succeeds exactly when every matcher translates, with each result at its position. Otherwise the error is that of the first failing matcher. |
| AggregationPipeline.HavingStages | src/connectors/mongodb/aggregation_builder.rs:145-162 | Without having there are no stages. With having, a success is one `$match` followed by one `$unset`. |
| AggregationProperties.PipelineStages | src/connectors/mongodb/aggregation_builder.rs:101-173 | A successful pipeline is empty when neither `aggregates` nor `by` is given. Otherwise it is `$group`, `$set`, `$unset` iff a request was made, `$match` + `$unset` iff `having`, then `$sort` iff `by` is non-empty. |
| AggregationProperties.AggregateStagesKinds | src/connectors/mongodb/aggregation_builder.rs:139-173 | The same operator sequence for the stages emitted once there is something to aggregate. |
| AggregationProperties.PipelineFailure | src/connectors/mongodb/aggregation_builder.rs:101-162 | The pipeline fails iff there is something to aggregate, a having filter, and a matcher that does not translate. The error is that of the first such matcher. |
| AggregationProperties.HavingStagesFailure | src/connectors/mongodb/aggregation_builder.rs:145-162 | The having stages fail iff some matcher fails, with the first failure's error. |
| AggregationProperties.UnsetEmptyIff | src/connectors/mongodb/aggregation_builder.rs:141-143 | The first `$unset` is empty exactly when no request was made. |
| AggregationProperties.SortKeys | src/connectors/mongodb/aggregation_builder.rs:163-170 | The `$sort` keys are the `by` keys once each, in first-mention order, each with value 1. |
| AggregationProperties.SortEmptyIff | src/connectors/mongodb/aggregation_builder.rs:163-173 | `$sort` is emitted exactly when `by` is present and non-empty. |
| AggregationProperties.GroupAndUnset | src/connectors/mongodb/aggregation_builder.rs:19-60 | `$group` keys are `_id` plus every intermediate. `_id` keeps the group key and is no intermediate. `$unset` lists every intermediate in push order and drops every `$group` key but `_id`. |
| AggregationProperties.GroupValues | src/connectors/mongodb/aggregation_builder.rs:22-43 | For column-separate requests, `$group` holds each request's accumulator and, for `sum`, its `$ifNull`-false counter. |
| AggregationProperties.GroupIdKeys | src/connectors/mongodb/aggregation_builder.rs:102-111 | `_id` has exactly one component per group-by column. |
| AggregationProperties.GroupIdValues | src/connectors/mongodb/aggregation_builder.rs:104-109 | Each `_id` component is the source's `$cond`/`$ifNull` component of its column. |
| AggregationProperties.SetKeys | src/connectors/mongodb/aggregation_builder.rs:115-137 | `$set` writes the group keys and one projection name per request, and nothing else. |
| AggregationProperties.SetRefs | src/connectors/mongodb/aggregation_builder.rs:44-59 | Every field `$set` reads was produced by `$group`: an intermediate, or an `_id.{column}` component. |
| AggregationProperties.SetValues | src/connectors/mongodb/aggregation_builder.rs:44-59 | With key-distinct maps, each request's projection name holds its projection. Field-like group keys hold `$_id.{column}`. |
| AggregationProperties.MatchKeyIsHavingNameIff | src/connectors/mongodb/aggregation_builder.rs:148-153 | A matcher's `$match` key is the name `$set` gave its having value exactly when the field's column equals its name. |
| AggregationProperties.MatchKeysAreProjected | src/connectors/mongodb/aggregation_builder.rs:148-153 | When every having field's column is its name, every key `$match` tests is a field `$set` wrote. |
| AggregationProperties.MatchValues | src/connectors/mongodb/aggregation_builder.rs:150-153 | With a key-distinct having map on fields of distinct columns, `$match` holds each matcher's translation under its key. |
| AggregationProperties.MatchMissesRenamedField | src/connectors/mongodb/aggregation_builder.rs:148-153 | One matcher on a field whose column differs from its name: the key `$match` tests is none that `$set` wrote. |
| AggregationProperties.HavingHeadsAreHavingNamespaces | src/connectors/mongodb/aggregation_builder.rs:154-157 | The second `$unset` lists each having namespace once: exactly the namespaces of the having requests. |
| AggregationProperties.HavingHeadsAreSeparate | src/connectors/mongodb/aggregation_builder.rs:124-137 | No having namespace is a field-like group key or a direct namespace. |
| AggregationProperties.SetHeads | src/connectors/mongodb/aggregation_builder.rs:115-137 | The top-level fields `$set` creates are the group keys and the namespace of every request. |
| AggregationProperties.OutputFields | src/connectors/mongodb/aggregation_builder.rs:139-161 | The top-level fields `$set` creates, less the having namespaces the second `$unset` removes, are the group keys and one namespace per aggregate kind that names a key. |
| AggregationProperties.OutputRow | src/connectors/mongodb/aggregation_builder.rs:139-161 | After both `$unset` stages a result row holds exactly `_id`, the group keys and one namespace per aggregate kind that names a key: no intermediate and no having namespace is left. |
| AggregationPlan.StepAllGroup | src/connectors/mongodb/aggregation_builder.rs:22-43 | A run of calls adds exactly its intermediates to `$group` and leaves every other key alone. |
| AggregationPlan.StepAllGroupValues | src/connectors/mongodb/aggregation_builder.rs:22-43 | When no intermediate repeats, each call's accumulator and counter keep the value that call inserted. |
| AggregationPlan.StepAllUnset | src/connectors/mongodb/aggregation_builder.rs:54-58 | A run of calls appends exactly its intermediates to `$unset`, in push order. |
| AggregationPlan.StepAllProjectionKeys | src/connectors/mongodb/aggregation_builder.rs:45-57 | A run of calls adds exactly the requests' projection names to `$set`. |
| AggregationPlan.StepAllProjectionRefs | src/connectors/mongodb/aggregation_builder.rs:45-57 | The projections a run adds read only that run's intermediates. |
| AggregationPlan.StepAllProjectionValues | src/connectors/mongodb/aggregation_builder.rs:45-57 | With distinct targets, each request's projection name holds its projection. |
| AggregationPlan.SeparateMeansDistinctIntermediates | src/connectors/mongodb/aggregation_builder.rs:20-35 | Pairwise column-separate requests push no intermediate twice. |
| AggregationPlan.AccumulatorIsNotCounter | src/connectors/mongodb/aggregation_builder.rs:33-35 | A sum's accumulator and its counter have different names. |
| AggregationNames.HavingNamespaceIsSeparate | src/connectors/mongodb/aggregation_builder.rs:20-33 | A having-namespace name never equals a direct one, whatever the kinds and columns. |
| AggregationNames.TaggedInjective | src/connectors/mongodb/aggregation_builder.rs:20-57 | A generated name determines its namespace, kind, separator and column or key. |
| AggregationNames.TaggedIsNotId | src/connectors/mongodb/aggregation_builder.rs:24-35 | No generated name is `_id`. |
| AggregationNames.ProjectionHeadInjective | src/connectors/mongodb/aggregation_builder.rs:154 | Projection namespaces of different namespaces or kinds differ. |
| AggregationNames.MatchKeyAgreesIff | src/connectors/mongodb/aggregation_builder.rs:153 | `_having_{kind}.{column}` equals `_having_{kind}.{key}` iff column equals key. |
| AggregationNames.MatchKeyInjective | src/connectors/mongodb/aggregation_builder.rs:153 | A `$match` key determines its kind and column. |
| AggregationExprs.Intermediates | src/connectors/mongodb/aggregation_builder.rs:54-58 | A request pushes its accumulator. It pushes a second name, the counter, exactly for `sum`. |
| AggregationExprs.Projection | src/connectors/mongodb/aggregation_builder.rs:44-57 | A projection reads exactly the request's intermediates. |
| AggregationExprs.IntermediatesOverlapIff | src/connectors/mongodb/aggregation_builder.rs:20-43 | Two requests share an intermediate iff either they have the same namespace, kind and column, or both are sums in one namespace and one column is the other prefixed with `count_`. |
| AggregationExprs.CountPrefixedColumnCollides | src/connectors/mongodb/aggregation_builder.rs:33-35 | Sums over columns `x` and `count_x` collide on `_sum_count_x`. |
| AggregationExprs.SumProjectionGuard | src/connectors/mongodb/aggregation_builder.rs:45-53 | The projected sum is null when the counter is 0, and the accumulated sum otherwise. |
| AggregationExprs.PresentMeansHasValue | src/connectors/mongodb/aggregation_builder.rs:26-41 | The corrected presence test is true exactly on a non-null value. |
| AggregationExprs.IndicatorCountsValues | src/connectors/mongodb/aggregation_builder.rs:26-30 | With the corrected test, a row adds 1 to a counter exactly when its column is non-null. |
| AggregationExprs.IdComponentValue | src/connectors/mongodb/aggregation_builder.rs:107-109 | As written, an `_id` component is the row's value when it is truthy, and null otherwise. |
| AggregationExprs.SeparatingIdComponentValue | src/connectors/mongodb/aggregation_builder.rs:107-109 | The corrected `_id` component is the row's value, or null when the row has none. |
| AggregationExprs.SeparatingIdComponentSeparatesNull | src/connectors/mongodb/aggregation_builder.rs:107-109 | Two rows share a corrected `_id` component iff their values agree or both are missing. |
| AggregationExprs.IndicatorAsWrittenCountsTruthy | src/connectors/mongodb/aggregation_builder.rs:26-30 | The written condition adds 1 exactly for a truthy value. |
| AggregationExprs.AsWrittenSkipsZero | src/connectors/mongodb/aggregation_builder.rs:26-30 | A row holding 0 is non-null, yet the written counter adds 0 for it. |
| AggregationExprs.AsWrittenMergesFalseWithNull | src/connectors/mongodb/aggregation_builder.rs:107-109 | The written component maps `false` and null to the same `_id` value. |
| Models.AllowedInputKeys | src/core/model.rs:133-138 | The names of the fields whose write rule is not `NoWrite`, in order. A name is listed iff such a field has it. |
| Models.AllowedSaveKeys | src/core/model.rs:140-145 | The names of the fields stored neither `Calculated` nor `Temp`, in order, with membership iff. |
| Models.AllowedOutputKeys | src/core/model.rs:147-152 | The names of the fields whose read rule is not `NoRead`, in order, with membership iff. |
| Models.GetValueKeys | src/core/model.rs:154-158 | Every field name, position by position. |
| Models.NamesWhereMembership | src/core/model.rs:133-152 | A filtered name list contains exactly the names of the fields that pass the filter. |
| Models.NameOrDefault | src/core/model.rs:54-55 | The given name when it is non-empty, else the default. |
| Models.IndexField | src/core/model.rs:42-51 | One loop turn keeps the loop invariant: name index, last primary field and indexed fields over the fields so far. |
| Models.IndexFieldsVec | src/core/model.rs:39-51 | The name index points each name at its last field. The primary field is the last with `primary`. The index fields are those with an index, in order. |
| Models.New | src/core/model.rs:33-69 | The built model is consistent and copies the builder. Its key lists are the filtered lists. Table and URL-segment names default when empty. Its names are exactly the declared ones. |
| Models.HasFieldIffDeclared | src/core/model.rs:99-103 | A name is found exactly when some field declares it. |
| Models.FieldNamed | src/core/model.rs:99-103 | The field found has the name asked for and is the last declared with it. |
| Models.PrimaryField | src/core/model.rs:105-111 | None iff no field is primary; otherwise the last primary field. |
| Models.IndexFields | src/core/model.rs:113-115 | The indexed fields in declaration order. A field is listed iff it is declared and indexed. |
| Models.HasActionOfBuilt | src/core/model.rs:160-162 | A built model has exactly the builder's actions. |
| Filter.ItemCtx | src/core/pipeline/modifiers/vector/filter.rs:31 | Element `i` is evaluated with its value and the key path extended by `i`, in the same environment. |
| Filter.Call | src/core/pipeline/modifiers/vector/filter.rs:28-37 | The loop keeps, in order, the elements the pipeline accepts, and changes only the value. |
| Filter.KeptMeaning | src/core/pipeline/modifiers/vector/filter.rs:29-36 | A value is kept iff it sits at some position whose element context the pipeline accepts. An empty vector stays empty. |
| IsInstanceOf.Call | src/core/pipeline/items/object/is_instance_of.rs:19-31 | Passes the context through unchanged iff the value is an object of the named model. Otherwise it reports "Value is not object." or the message naming the model. |
| IsInstanceOf.MismatchMessage | src/core/pipeline/items/object/is_instance_of.rs:25-26 | The mismatch message contains the expected model's name. |
| IsInstanceOf.AcceptsAtMostOneModel | src/core/pipeline/items/object/is_instance_of.rs:22 | Checks for two different model names never both accept one context. |

## Left out

- Unused parameters of `build_query_pipeline`: `where`, `order_by`, `cursor`, `take`, `skip`, `page_size`, `page_number`, `include`, `distinct`, `select`, the pipeline type and `mutation_mode`. This part of the builder never reads them, and `cursor_additional_where` is always `None`, so there is no pagination.
- `parse_bson_where_entry` is an arbitrary, possibly failing function `translate` of the matcher and its key path. The graph and the `F64` field type it receives are not modelled.
- `column_name()` is modelled as a field's `column` attribute. The default casing rule behind it is not modelled.
- The `having` and `aggregates` maps are Rust `HashMap`s. They are sequences here, and their order stands for one iteration order. Properties that need distinct keys require them.
- Every `unwrap` is a precondition: fields named in `by`, `having` and `aggregates` exist, and the inputs have the shapes the source casts to. Aggregate kinds form the closed type `Kind`, so the `strip_prefix("_")` unwraps cannot fail.
- `Bson` documents are ordered entry lists: insert replaces in place or appends. The evaluator covers only the row expressions the builder writes.
- MongoDB itself is left out: accumulators across rows, numeric types, and the dotted-path semantics of `$set` and `$unset`.
- `&mut` updates of `group`, `set` and `unset` are methods that take and return values. Nothing else holds these documents, so no aliasing is lost.
- `Models.New`: `Field::new` is the identity on field declarations, and raw field pointers are indices into `fields_vec`. The inflector's lower-case/plural and kebab-case/plural rules are parameters. The getters that return a stored attribute (lines 71-97, 117-131) are the record's fields. The `Send`/`Sync` impls are not modelled.
- `Filter.Call`: the element pipeline is seen only through whether it reports valid. Asynchrony and cloning are not modelled, the `as_vec().unwrap()` is the precondition that the value is a vector, and `FilterModifier::new` and `name` are the datatype constructor and `Filter.Name`.
- `IsInstanceOf.Call`: an object's model name stands for `o.model().name()`. `internal_server_error` is a failure carrying the message. The source's matching arm yields the bare `ctx` where a `Result` is expected, which does not type-check as written; the model reads it as `Ok(ctx)`, that is `Success(ctx)`.
- `AggregationProperties.GroupValues` requires that no two requests collide on an intermediate. Source columns `x` and `count_x` do collide (`CountPrefixedColumnCollides`), so the property cannot hold without this.
- `AggregationProperties.MatchValues` requires distinct columns among the having fields. The source does not check column uniqueness, so two fields sharing a column would share a `$match` key.
- `AggregationProperties.MatchKeysAreProjected` requires every having field's column to equal its name. `MatchMissesRenamedField` shows that the property fails otherwise.
- `AggregationProperties.SetValues`, `AggregationProperties.SetHeads`, `AggregationProperties.OutputFields` and `AggregationProperties.OutputRow` treat group keys as field-like (no dot, no leading underscore) where they state what a group key holds. A dotted or `_`-prefixed key could overlap a projection name.

## Findings

| source | as written | input that shows it | evidently intended | confidence | as-written member | corrected member |
|---|---|---|---|---|---|---|
| src/connectors/mongodb/aggregation_builder.rs:26-30, 35-41 | `{"$cond": [{"$ifNull": ["$c", false]}, 1, 0]}` counts a row only when its value is truthy | a row whose column holds 0 (or `false`) is counted 0, so `count` misses it and a `sum` over only zeros projects null | count the rows whose column is non-null | medium; not executed | AggregationExprs.AsWrittenSkipsZero | AggregationExprs.IndicatorCountsValues |
| src/connectors/mongodb/aggregation_builder.rs:107-109 | `{"$cond": [{"$ifNull": ["$c", false]}, "$c", null]}` yields null for a falsy value | rows holding `false` and null in a group-by column get the same `_id` component | null forms its own group, separate from every present value | medium; not executed | AggregationExprs.AsWrittenMergesFalseWithNull | AggregationExprs.SeparatingIdComponentSeparatesNull |

The pipeline emits the source's test, in `AggregationExprs.PresenceCount` and `AggregationExprs.IdComponent`. The corrected presence test is `AggregationExprs.Present`, with `AggregationExprs.NonNullCount` and `AggregationExprs.SeparatingIdComponent` built on it. Using them at lines 28, 37 and 108 gives the behaviour the lemmas above prove.
