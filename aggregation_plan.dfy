/**
 * What the group-by planner computes, as functions of its inputs.
 *
 * A request is one `(namespace, kind, key)` the planner accumulates: every
 * `(key, kind)` of a having filter in the having namespace, then every
 * `(kind, key)` of the aggregates in the direct namespace. `Step` is the
 * effect of one `insert_group_set_unset_for_aggregate` call on the `$group`
 * document, the `$set` document and the `$unset` list; `StepAll` is a run
 * of such calls.
 */
module AggregationPlan {
  import opened Wrappers
  import opened Seqs
  import opened Bson
  import opened Models
  import opened AggregationNames
  import opened AggregationExprs

  /** The key that aggregates over whole rows rather than one field. */
  const AllRows: string := "_all"

  /** One entry of the `aggregates` argument: a kind and the keys it applies to. */
  datatype AggregateEntry = AggregateEntry(kind: Kind, keys: seq<string>)

  /** One entry of the `having` argument: a field and a matcher per kind. */
  datatype HavingEntry<M> = HavingEntry(key: string, matchers: seq<(Kind, M)>)

  /** One `(field, kind, matcher)` of a having filter, flattened, with the field's column. */
  datatype Matcher<M> = Matcher(key: string, column: string, kind: Kind, matcher: M)

  /** One accumulation the planner performs, with the column its key resolves to. */
  datatype Request = Request(havingMode: bool, kind: Kind, key: string, column: string)

  /** The `$group` document, the `$set` document (`projection`) and the `$unset` list being built. */
  datatype Accumulation = Accumulation(group: Document, projection: Document, unset: seq<string>)

  /** The keys an aggregate may name: a field of the model, or `_all`. */
  predicate Aggregatable(m: Model, key: string)
  {
    key == AllRows || HasField(m, key)
  }

  /** The column of a field; the source unwraps the lookup, so the field must exist. */
  function FieldColumn(m: Model, key: string): string
    requires Valid(m) && HasField(m, key)
  {
    FieldNamed(m, key).column
  }

  /** The column an aggregate reads: `_all` stays `_all`, a field maps to its column. */
  function Column(m: Model, key: string): string
    requires Valid(m) && Aggregatable(m, key)
  {
    if key == AllRows then AllRows else FieldColumn(m, key)
  }

  /** The request for `(namespace, kind, key)`: the key's column is resolved against the model. */
  function Resolve(m: Model, hm: bool, g: Kind, key: string): (rq: Request)
    requires Valid(m) && Aggregatable(m, key)
  {
    Request(hm, g, key, Column(m, key))
  }

  function RequestIntermediates(rq: Request): seq<string>
  {
    Intermediates(rq.havingMode, rq.kind, rq.column)
  }

  /** The accumulator a request puts into `$group` under its accumulator name. */
  function GroupValue(rq: Request): Value
  {
    if rq.kind == Kind.Count then (if rq.key == AllRows then CountAll() else PresenceCount(rq.column))
    else KindAccumulator(rq.kind, rq.column)
  }

  function RequestAccumulatorName(rq: Request): string
  {
    AccumulatorName(rq.havingMode, rq.kind, rq.column)
  }

  function RequestCounterName(rq: Request): string
  {
    CounterName(rq.havingMode, rq.column)
  }

  function RequestProjectionName(rq: Request): string
  {
    ProjectionName(rq.havingMode, rq.kind, rq.key)
  }

  function RequestProjection(rq: Request): Value
  {
    Projection(rq.havingMode, rq.kind, rq.column)
  }

  /** What a request inserts into `$group`, in order: the accumulator, then a sum's counter. */
  function GroupEntries(rq: Request): (es: Document)
    ensures KeySeq(es) == RequestIntermediates(rq)
  {
    var es := [Entry(RequestAccumulatorName(rq), GroupValue(rq))]
      + (if rq.kind == Sum then [Entry(RequestCounterName(rq), PresenceCount(rq.column))] else []);
    assert KeySeq(es) == [es[0].key] + KeySeq(es[1..]);
    es
  }

  /** One `insert_group_set_unset_for_aggregate` call. */
  function Step(acc: Accumulation, rq: Request): Accumulation
  {
    Accumulation(
      InsertAll(acc.group, GroupEntries(rq)),
      Insert(acc.projection, RequestProjectionName(rq), RequestProjection(rq)),
      acc.unset + RequestIntermediates(rq))
  }

  lemma AccumulatorIsNotCounter(hm: bool, c: string)
    ensures AccumulatorName(hm, Sum, c) != CounterName(hm, c)
  {
    assert |AccumulatorName(hm, Sum, c)| < |CounterName(hm, c)|;
  }

  /**
   * One call adds exactly the request's intermediates to `$group`, where the
   * accumulator (and, for a sum, the counter) hold the request's
   * expressions; no other key of `$group` changes.
   */
  lemma StepGroupEffect(acc: Accumulation, rq: Request)
    ensures var g := Step(acc, rq).group;
      && Keys(g) == Keys(acc.group) + Keys(GroupEntries(rq))
      && Get(g, RequestAccumulatorName(rq)) == Some(GroupValue(rq))
      && (rq.kind == Sum ==> Get(g, RequestCounterName(rq)) == Some(PresenceCount(rq.column)))
      && (forall n :: n !in RequestIntermediates(rq) ==> Get(g, n) == Get(acc.group, n))
  {
    InsertAllKeys(acc.group, GroupEntries(rq));
    StepGroupValues(acc, rq);
    StepGroupOthers(acc, rq);
  }

  /** After one call, `$group` holds the request's accumulator and, for a sum, its counter. */
  lemma StepGroupValues(acc: Accumulation, rq: Request)
    ensures var g := Step(acc, rq).group;
      && Get(g, RequestAccumulatorName(rq)) == Some(GroupValue(rq))
      && (rq.kind == Sum ==> Get(g, RequestCounterName(rq)) == Some(PresenceCount(rq.column)))
  {
    var es := GroupEntries(rq);
    AccumulatorIsNotCounter(rq.havingMode, rq.column);
    InsertAllGetLast(acc.group, es, 0);
    if rq.kind == Sum {
      InsertAllGetLast(acc.group, es, 1);
    }
  }

  /** One call leaves every key of `$group` other than the request's intermediates alone. */
  lemma StepGroupOthers(acc: Accumulation, rq: Request)
    ensures forall n :: n !in RequestIntermediates(rq) ==> Get(Step(acc, rq).group, n) == Get(acc.group, n)
  {
    var es := GroupEntries(rq);
    forall n | n !in RequestIntermediates(rq) ensures Get(InsertAll(acc.group, es), n) == Get(acc.group, n) {
      InsertAllGetOther(acc.group, es, n);
    }
  }

  /**
   * One call adds the request's projection to `$set`; it refers only to the
   * request's intermediates, and no other key of `$set` changes.
   */
  lemma StepProjectionEffect(acc: Accumulation, rq: Request)
    ensures var s := Step(acc, rq).projection;
      && Keys(s) == Keys(acc.projection) + {RequestProjectionName(rq)}
      && Get(s, RequestProjectionName(rq)) == Some(RequestProjection(rq))
      && (forall n :: n != RequestProjectionName(rq) ==> Get(s, n) == Get(acc.projection, n))
      && RefsOfDoc(s) <= RefsOfDoc(acc.projection) + Keys(GroupEntries(rq))
  {
    var p, v := RequestProjectionName(rq), RequestProjection(rq);
    InsertKeys(acc.projection, p, v);
    forall n ensures Get(Insert(acc.projection, p, v), n) == if n == p then Some(v) else Get(acc.projection, n) {
      InsertGet(acc.projection, p, v, n);
    }
    RefsOfInsert(acc.projection, p, v);
  }

  /** A run of calls, one per request, in order. */
  function StepAll(acc: Accumulation, rqs: seq<Request>): Accumulation
    decreases |rqs|
  {
    if rqs == [] then acc
    else
      var n := |rqs| - 1;
      Step(StepAll(acc, rqs[..n]), rqs[n])
  }

  /** Each request's intermediates, one block per request. */
  function IntermediateBlocks(rqs: seq<Request>): (bs: seq<seq<string>>)
    ensures |bs| == |rqs| && forall i :: 0 <= i < |rqs| ==> bs[i] == RequestIntermediates(rqs[i])
  {
    seq(|rqs|, i requires 0 <= i < |rqs| => RequestIntermediates(rqs[i]))
  }

  /** The intermediates of a run of requests, in push order. */
  function AllIntermediates(rqs: seq<Request>): seq<string>
  {
    Flatten(IntermediateBlocks(rqs))
  }

  lemma AllIntermediatesSnoc(rqs: seq<Request>)
    requires rqs != []
    ensures AllIntermediates(rqs) == AllIntermediates(rqs[..|rqs| - 1]) + RequestIntermediates(rqs[|rqs| - 1])
  {
    var n := |rqs| - 1;
    assert IntermediateBlocks(rqs)[..n] == IntermediateBlocks(rqs[..n]);
  }

  lemma AllIntermediatesMembership(rqs: seq<Request>, x: string)
    ensures x in AllIntermediates(rqs) <==> exists i :: 0 <= i < |rqs| && x in RequestIntermediates(rqs[i])
  {
    FlattenMembership(IntermediateBlocks(rqs), x);
  }

  lemma AllIntermediatesEmpty(rqs: seq<Request>)
    ensures AllIntermediates(rqs) == [] <==> rqs == []
  {
    if rqs != [] {
      AllIntermediatesMembership(rqs, RequestIntermediates(rqs[0])[0]);
    }
  }

  /** Each request's `$group` entries, one block per request. */
  function GroupEntryBlocks(rqs: seq<Request>): (bs: seq<Document>)
    ensures |bs| == |rqs| && forall i :: 0 <= i < |rqs| ==> bs[i] == GroupEntries(rqs[i])
  {
    seq(|rqs|, i requires 0 <= i < |rqs| => GroupEntries(rqs[i]))
  }

  /** Each request's `$set` entry, in order. */
  function ProjectionEntries(rqs: seq<Request>): (es: Document)
    ensures |es| == |rqs|
    ensures forall i :: 0 <= i < |rqs| ==> es[i] == Entry(RequestProjectionName(rqs[i]), RequestProjection(rqs[i]))
  {
    Map(rqs, ProjectionEntry)
  }

  function ProjectionEntry(rq: Request): Entry
  {
    Entry(RequestProjectionName(rq), RequestProjection(rq))
  }

  /** A run of calls inserts every request's `$group` entries, in request order. */
  lemma {:induction false} StepAllGroupInserts(acc: Accumulation, rqs: seq<Request>)
    ensures StepAll(acc, rqs).group == InsertAll(acc.group, Flatten(GroupEntryBlocks(rqs)))
  {
    if rqs != [] {
      var n := |rqs| - 1;
      var pre := rqs[..n];
      StepAllGroupInserts(acc, pre);
      assert GroupEntryBlocks(rqs)[..n] == GroupEntryBlocks(pre);
      InsertAllConcat(acc.group, Flatten(GroupEntryBlocks(pre)), GroupEntries(rqs[n]));
    }
  }

  /** A run of calls inserts every request's `$set` entry, in request order. */
  lemma {:induction false} StepAllProjectionInserts(acc: Accumulation, rqs: seq<Request>)
    ensures StepAll(acc, rqs).projection == InsertAll(acc.projection, ProjectionEntries(rqs))
  {
    if rqs != [] {
      var n := |rqs| - 1;
      var pre := rqs[..n];
      StepAllProjectionInserts(acc, pre);
      var es := ProjectionEntries(rqs);
      MapPrefix(rqs, ProjectionEntry, n);
      assert InsertAll(acc.projection, es) == Insert(InsertAll(acc.projection, es[..n]), es[n].key, es[n].val);
    }
  }

  /** Over a run of calls, the `$unset` list gains the run's intermediates, in push order. */
  lemma {:induction false} StepAllUnset(acc: Accumulation, rqs: seq<Request>)
    ensures StepAll(acc, rqs).unset == acc.unset + AllIntermediates(rqs)
  {
    if rqs != [] {
      var n := |rqs| - 1;
      StepAllUnset(acc, rqs[..n]);
      AllIntermediatesSnoc(rqs);
    }
  }

  /** The keys of all `$group` entries of a run are the run's intermediates. */
  lemma GroupEntryKeys(rqs: seq<Request>)
    ensures KeySeq(Flatten(GroupEntryBlocks(rqs))) == AllIntermediates(rqs)
  {
    var bs := GroupEntryBlocks(rqs);
    KeySeqFlatten(bs);
    assert seq(|bs|, i requires 0 <= i < |bs| => KeySeq(bs[i])) == IntermediateBlocks(rqs);
  }

  /** Over a run of calls, `$group` gains exactly the run's intermediates and keeps every other key. */
  lemma StepAllGroup(acc: Accumulation, rqs: seq<Request>)
    ensures var g := StepAll(acc, rqs).group;
      && Keys(g) == Keys(acc.group) + Elems(AllIntermediates(rqs))
      && (forall n :: n !in AllIntermediates(rqs) ==> Get(g, n) == Get(acc.group, n))
  {
    var es := Flatten(GroupEntryBlocks(rqs));
    StepAllGroupInserts(acc, rqs);
    GroupEntryKeys(rqs);
    InsertAllKeys(acc.group, es);
    forall n | n !in AllIntermediates(rqs) ensures Get(InsertAll(acc.group, es), n) == Get(acc.group, n) {
      InsertAllGetOther(acc.group, es, n);
    }
  }

  /** The projection names of a run of requests: the keys of its `$set` entries. */
  function ProjectionNames(rqs: seq<Request>): (r: set<string>)
    ensures forall x :: x in r <==> exists i :: 0 <= i < |rqs| && x == RequestProjectionName(rqs[i])
  {
    var es := ProjectionEntries(rqs);
    assert forall x :: x in Keys(es) <==> exists i :: 0 <= i < |rqs| && x == RequestProjectionName(rqs[i]) by {
      forall x | x in Keys(es) ensures exists i :: 0 <= i < |rqs| && x == RequestProjectionName(rqs[i]) {
        var i :| 0 <= i < |es| && es[i].key == x;
      }
      forall i | 0 <= i < |rqs| ensures RequestProjectionName(rqs[i]) in Keys(es) {
        assert KeySeq(es)[i] == RequestProjectionName(rqs[i]);
      }
    }
    Keys(es)
  }

  /** Over a run of calls, `$set` gains exactly the run's projection names. */
  lemma StepAllProjectionKeys(acc: Accumulation, rqs: seq<Request>)
    ensures Keys(StepAll(acc, rqs).projection) == Keys(acc.projection) + ProjectionNames(rqs)
  {
    var es := ProjectionEntries(rqs);
    StepAllProjectionInserts(acc, rqs);
    InsertAllKeys(acc.projection, es);
  }

  /** The projections a run adds to `$set` refer only to the run's intermediates. */
  lemma StepAllProjectionRefs(acc: Accumulation, rqs: seq<Request>)
    ensures RefsOfDoc(StepAll(acc, rqs).projection) <= RefsOfDoc(acc.projection) + Elems(AllIntermediates(rqs))
  {
    var es := ProjectionEntries(rqs);
    StepAllProjectionInserts(acc, rqs);
    RefsOfInsertAll(acc.projection, es);
    forall r | r in RefsOfDoc(es) ensures r in Elems(AllIntermediates(rqs)) {
      RefsOfDocMembership(es, r);
      var i :| 0 <= i < |es| && r in Refs(es[i].val);
      AllIntermediatesMembership(rqs, r);
    }
  }

  /**
   * When no two requests share an intermediate, every request's accumulator
   * (and, for a sum, its counter) survives the whole run.
   */
  lemma StepAllGroupValues(acc: Accumulation, rqs: seq<Request>, i: nat)
    requires i < |rqs| && NoDup(AllIntermediates(rqs))
    ensures var g, rq := StepAll(acc, rqs).group, rqs[i];
      && Get(g, RequestAccumulatorName(rq)) == Some(GroupValue(rq))
      && (rq.kind == Sum ==> Get(g, RequestCounterName(rq)) == Some(PresenceCount(rq.column)))
  {
    var bs := GroupEntryBlocks(rqs);
    var es := Flatten(bs);
    StepAllGroupInserts(acc, rqs);
    GroupEntryKeys(rqs);
    var own := GroupEntries(rqs[i]);
    assert own == bs[i];
    FlattenMembership(bs, own[0]);
    InsertAllGetUnique(acc.group, es, own[0]);
    if rqs[i].kind == Sum {
      FlattenMembership(bs, own[1]);
      InsertAllGetUnique(acc.group, es, own[1]);
    }
  }

  /** What a request writes to: its namespace, kind and key. */
  function Target(rq: Request): (bool, Kind, string)
  {
    (rq.havingMode, rq.kind, rq.key)
  }

  /** No two requests share a target (the source's keys come from maps). */
  predicate DistinctTargets(rqs: seq<Request>)
  {
    NoDup(Map(rqs, Target))
  }

  /** Two requests with the same projection name have the same target. */
  lemma ProjectionNameDeterminesTarget(r1: Request, r2: Request)
    ensures RequestProjectionName(r1) == RequestProjectionName(r2) ==> Target(r1) == Target(r2)
  {
    if RequestProjectionName(r1) == RequestProjectionName(r2) {
      TaggedInjective(r1.havingMode, r1.kind, '.', r1.key, r2.havingMode, r2.kind, '.', r2.key);
    }
  }

  /** When the requests have distinct targets, every request's projection survives the whole run. */
  lemma StepAllProjectionValues(acc: Accumulation, rqs: seq<Request>, i: nat)
    requires i < |rqs| && DistinctTargets(rqs)
    ensures Get(StepAll(acc, rqs).projection, RequestProjectionName(rqs[i])) == Some(RequestProjection(rqs[i]))
  {
    var es := ProjectionEntries(rqs);
    StepAllProjectionInserts(acc, rqs);
    LaterProjectionNamesDiffer(rqs, i);
    InsertAllGetLast(acc.projection, es, i);
  }

  /** With distinct targets, no later request projects under the name of request `i`. */
  lemma LaterProjectionNamesDiffer(rqs: seq<Request>, i: nat)
    requires i < |rqs| && DistinctTargets(rqs)
    ensures var es := ProjectionEntries(rqs); forall j :: i < j < |es| ==> es[j].key != es[i].key
  {
    forall j | i < j < |rqs| ensures RequestProjectionName(rqs[j]) != RequestProjectionName(rqs[i]) {
      assert Map(rqs, Target)[i] != Map(rqs, Target)[j];
      ProjectionNameDeterminesTarget(rqs[i], rqs[j]);
    }
  }

  /** The requests pairwise avoid the collision `IntermediatesClash` describes. */
  predicate ColumnsSeparate(rqs: seq<Request>)
  {
    forall i, j :: 0 <= i < j < |rqs| ==>
      !IntermediatesClash(rqs[i].havingMode, rqs[i].kind, rqs[i].column, rqs[j].havingMode, rqs[j].kind, rqs[j].column)
  }

  /** Pairwise separate requests push no intermediate twice. */
  lemma SeparateMeansDistinctIntermediates(rqs: seq<Request>)
    requires ColumnsSeparate(rqs)
    ensures NoDup(AllIntermediates(rqs))
  {
    var bs := IntermediateBlocks(rqs);
    forall i | 0 <= i < |bs| ensures NoDup(bs[i]) {
      AccumulatorIsNotCounter(rqs[i].havingMode, rqs[i].column);
    }
    forall i, j, x | 0 <= i < j < |bs| && x in bs[i] ensures x !in bs[j] {
      IntermediatesOverlapIff(rqs[i].havingMode, rqs[i].kind, rqs[i].column, rqs[j].havingMode, rqs[j].kind, rqs[j].column);
    }
    FlattenNoDup(bs);
  }

  /** The last call of a run, applied after the rest. */
  lemma StepAllLast(acc: Accumulation, rqs: seq<Request>)
    requires rqs != []
    ensures StepAll(acc, rqs) == Step(StepAll(acc, rqs[..|rqs| - 1]), rqs[|rqs| - 1])
  {
  }

  /** Requests made one run after another accumulate like one run. */
  lemma {:induction false} StepAllConcat(acc: Accumulation, a: seq<Request>, b: seq<Request>)
    ensures StepAll(acc, a + b) == StepAll(StepAll(acc, a), b)
  {
    if b == [] {
      assert a + b == a;
    } else {
      StepAllConcat(acc, a, b[..|b| - 1]);
      ConcatDropLast(a, b);
      StepAllLast(acc, a + b);
      StepAllLast(StepAll(acc, a), b);
    }
  }

  /** One more call of a loop over `b`. */
  lemma StepAllTake(acc: Accumulation, b: seq<Request>, j: nat)
    requires j < |b|
    ensures StepAll(acc, b[..j + 1]) == Step(StepAll(acc, b[..j]), b[j])
  {
    TakeStep(b, j);
    StepAllLast(acc, b[..j + 1]);
  }

  /** One more block of a loop over blocks. */
  lemma StepAllBlock(acc: Accumulation, bs: seq<seq<Request>>, i: nat)
    requires i < |bs|
    ensures StepAll(acc, Flatten(bs[..i + 1])) == StepAll(StepAll(acc, Flatten(bs[..i])), bs[i])
  {
    StepAllConcat(acc, Flatten(bs[..i]), bs[i]);
    FlattenPrefix(bs, i);
  }
}
