/** The metric query set and one polling cycle (pkg/prom/metric_extractor.go).
    The Prometheus client is replaced by an `eval` function giving the outcome
    of each query text at the instant of the cycle; the metric value type is
    left open. */
module Prom {
  import opened Base

  datatype MetricQuery = MetricQuery(field: string, metric: string, resName: string, resNamespace: string)

  datatype MetricResult<V> = MetricResult(resName: string, resNamespace: string, fields: map<string, V>)

  /** What one instant query yields: an error, an empty vector, a vector whose
      first sample is `value`, or a result of another type. */
  datatype Outcome<V> = QueryError | EmptyVector | Sample(value: V) | NonVector

  /** Registered queries, keyed by their rendered query text. */
  type QueryStore = map<string, MetricQuery>

  /** `metric{namespace="<ns>",name="<name>"}` */
  function QueryKey(namespace: string, name: string, metric: string): string {
    metric + "{namespace=\"" + namespace + "\",name=\"" + name + "\"}"
  }

  function KeyTail(namespace: string, name: string): string {
    "namespace=\"" + Join(namespace, '"', KeyRest(name))
  }

  function KeyRest(name: string): string {
    ",name=\"" + name + "\"}"
  }

  /** The query text splits at its first `{` into the metric and the label
      matchers, and the matchers split at their first `"` after the prefix. */
  lemma QueryKeyShape(namespace: string, name: string, metric: string)
    ensures QueryKey(namespace, name, metric) == Join(metric, '{', KeyTail(namespace, name))
  {
    assert "{namespace=\"" == ['{'] + "namespace=\"";
    assert "\",name=\"" == ['"'] + ",name=\"";
    calc {
      QueryKey(namespace, name, metric);
      metric + (['{'] + "namespace=\"") + namespace + (['"'] + ",name=\"") + name + "\"}";
      metric + ['{'] + ("namespace=\"" + (namespace + ['"'] + (",name=\"" + name + "\"}")));
    }
  }

  /** The query text is a faithful dedup key: Prometheus metric names never
      contain `{` and Kubernetes namespaces never contain `"`, and under those
      rules two registrations share a key exactly when they name the same
      namespace, object and metric. */
  lemma QueryKeyIdentifiesQuery(ns1: string, name1: string, metric1: string,
                                ns2: string, name2: string, metric2: string)
    requires '{' !in metric1 && '{' !in metric2
    requires '"' !in ns1 && '"' !in ns2
    ensures QueryKey(ns1, name1, metric1) == QueryKey(ns2, name2, metric2)
        <==> ns1 == ns2 && name1 == name2 && metric1 == metric2
  {
    if QueryKey(ns1, name1, metric1) == QueryKey(ns2, name2, metric2) {
      QueryKeyShape(ns1, name1, metric1);
      QueryKeyShape(ns2, name2, metric2);
      JoinInjectiveLeft(metric1, KeyTail(ns1, name1), metric2, KeyTail(ns2, name2), '{');
      var tail1, tail2 := KeyTail(ns1, name1), KeyTail(ns2, name2);
      assert Join(ns1, '"', KeyRest(name1)) == tail1[11..];
      assert Join(ns2, '"', KeyRest(name2)) == tail2[11..];
      JoinInjectiveLeft(ns1, KeyRest(name1), ns2, KeyRest(name2), '"');
      var rest1, rest2 := KeyRest(name1), KeyRest(name2);
      assert name1 == rest1[7..|rest1| - 2];
      assert name2 == rest2[7..|rest2| - 2];
    }
  }

  /** Every query is stored under the text it renders to. */
  predicate WellKeyed(qs: QueryStore) {
    forall key :: key in qs ==> key == QueryKey(qs[key].resNamespace, qs[key].resName, qs[key].metric)
  }

  /** AddQuery: registers the query unless its text is already present, in
      which case the earlier registration (and its field) is kept. */
  function AddQuery(qs: QueryStore, namespace: string, name: string, field: string, metric: string): (r: QueryStore)
    ensures QueryKey(namespace, name, metric) in r
    ensures QueryKey(namespace, name, metric) !in qs ==>
        && r[QueryKey(namespace, name, metric)] == MetricQuery(field, metric, name, namespace)
        && |r| == |qs| + 1
    ensures QueryKey(namespace, name, metric) in qs ==> r == qs
    ensures forall key :: key != QueryKey(namespace, name, metric) ==>
        (key in r <==> key in qs) && (key in r ==> r[key] == qs[key])
    ensures WellKeyed(qs) ==> WellKeyed(r)
  {
    var query := QueryKey(namespace, name, metric);
    if query in qs then qs
    else qs[query := MetricQuery(field, metric, name, namespace)]
  }

  /** DeleteQuery: removes the query for (namespace, name, metric), whatever
      field it was registered with. */
  function DeleteQuery(qs: QueryStore, namespace: string, name: string, metric: string): (r: QueryStore)
    ensures QueryKey(namespace, name, metric) !in r
    ensures forall key :: key != QueryKey(namespace, name, metric) ==>
        (key in r <==> key in qs) && (key in r ==> r[key] == qs[key])
    ensures QueryKey(namespace, name, metric) !in qs ==> r == qs
    ensures WellKeyed(qs) ==> WellKeyed(r)
  {
    qs - {QueryKey(namespace, name, metric)}
  }

  /** Registering the same query text twice leaves one entry, holding the
      first registration's field. */
  lemma AddQueryIdempotent(qs: QueryStore, namespace: string, name: string, field1: string, field2: string, metric: string)
    ensures AddQuery(AddQuery(qs, namespace, name, field1, metric), namespace, name, field2, metric)
        == AddQuery(qs, namespace, name, field1, metric)
    ensures |AddQuery(AddQuery(qs, namespace, name, field1, metric), namespace, name, field2, metric)|
        == |AddQuery(qs, namespace, name, field1, metric)|
  {
  }

  /** Deleting what was just added restores the query set. */
  lemma DeleteUndoesAdd(qs: QueryStore, namespace: string, name: string, field: string, metric: string)
    requires QueryKey(namespace, name, metric) !in qs
    ensures DeleteQuery(AddQuery(qs, namespace, name, field, metric), namespace, name, metric) == qs
  {
    var r := DeleteQuery(AddQuery(qs, namespace, name, field, metric), namespace, name, metric);
    assert r.Keys == qs.Keys;
  }

  /** `namespace/name`: the grouping key of a cycle's results. */
  function EntityKey(namespace: string, name: string): string {
    Join(namespace, '/', name)
  }

  function EntityOf(q: MetricQuery): string {
    EntityKey(q.resNamespace, q.resName)
  }

  /** A query contributes to the cycle unless it errored or returned an empty
      vector. */
  predicate Contributes<V>(o: Outcome<V>) {
    o.Sample? || o.NonVector?
  }

  /** The recorded value: the first sample of a vector, or the zero value
      for any other result type. */
  function Reading<V>(o: Outcome<V>, zero: V): V {
    if o.Sample? then o.value else zero
  }

  predicate Visits(qs: QueryStore, order: seq<string>) {
    forall i :: 0 <= i < |order| ==> order[i] in qs
  }

  /** The i-th query of the cycle contributed to entity `entity`. */
  predicate ProvidesEntity<V>(qs: QueryStore, order: seq<string>, eval: string -> Outcome<V>, i: int, entity: string)
    requires Visits(qs, order)
  {
    0 <= i < |order| && Contributes(eval(order[i])) && EntityOf(qs[order[i]]) == entity
  }

  /** The i-th query of the cycle contributed field `field` of `entity`. */
  predicate Provides<V>(qs: QueryStore, order: seq<string>, eval: string -> Outcome<V>, i: int, entity: string, field: string)
    requires Visits(qs, order)
  {
    ProvidesEntity(qs, order, eval, i, entity) && qs[order[i]].field == field
  }

  lemma ProvidesOnPrefix<V>(qs: QueryStore, order: seq<string>, eval: string -> Outcome<V>, i: int, entity: string, field: string)
    requires Visits(qs, order) && |order| > 0 && 0 <= i < |order| - 1
    ensures Visits(qs, order[..|order| - 1])
    ensures ProvidesEntity(qs, order, eval, i, entity) == ProvidesEntity(qs, order[..|order| - 1], eval, i, entity)
    ensures Provides(qs, order, eval, i, entity, field) == Provides(qs, order[..|order| - 1], eval, i, entity, field)
  {
  }

  /** The last query of the cycle that contributed `field` of `entity`, or -1:
      with several such queries the one iterated last overwrites the others. */
  function Latest<V>(qs: QueryStore, order: seq<string>, eval: string -> Outcome<V>, entity: string, field: string): (r: int)
    requires Visits(qs, order)
    ensures -1 <= r < |order|
    ensures r >= 0 ==> Provides(qs, order, eval, r, entity, field)
    ensures forall j :: r < j < |order| ==> !Provides(qs, order, eval, j, entity, field)
    decreases |order|
  {
    if |order| == 0 then -1
    else if Provides(qs, order, eval, |order| - 1, entity, field) then |order| - 1
    else
      var r := Latest(qs, order[..|order| - 1], eval, entity, field);
      assert forall j :: r < j < |order| - 1 ==> !Provides(qs, order, eval, j, entity, field) by {
        forall j | r < j < |order| - 1 {
          ProvidesOnPrefix(qs, order, eval, j, entity, field);
        }
      }
      if r >= 0 then ProvidesOnPrefix(qs, order, eval, r, entity, field); r else r
  }

  /** Files one reading under its entity, creating the entity's result on
      first sight and otherwise adding or overwriting one field. */
  function Record<V>(acc: map<string, MetricResult<V>>, q: MetricQuery, value: V): (r: map<string, MetricResult<V>>)
    ensures r.Keys == acc.Keys + {EntityOf(q)}
    ensures forall entity :: entity in acc && entity != EntityOf(q) ==> r[entity] == acc[entity]
    ensures EntityOf(q) in acc ==> r[EntityOf(q)] == acc[EntityOf(q)].(fields := acc[EntityOf(q)].fields[q.field := value])
    ensures EntityOf(q) !in acc ==> r[EntityOf(q)] == MetricResult(q.resName, q.resNamespace, map[q.field := value])
  {
    var entity := EntityOf(q);
    if entity in acc then acc[entity := acc[entity].(fields := acc[entity].fields[q.field := value])]
    else acc[entity := MetricResult(q.resName, q.resNamespace, map[q.field := value])]
  }

  /** `r` is the grouping of the readings of the queries in `order`: one
      result per contributing entity, named after that entity, whose fields
      are exactly the contributed fields, each holding the reading of the
      last query that contributed it. */
  ghost predicate Groups<V>(qs: QueryStore, order: seq<string>, eval: string -> Outcome<V>, zero: V, r: map<string, MetricResult<V>>)
    requires Visits(qs, order)
  {
    && NamedAndNonEmpty(r)
    && GroupsEntities(qs, order, eval, r)
    && GroupsFields(qs, order, eval, zero, r)
  }

  ghost predicate NamedAndNonEmpty<V>(r: map<string, MetricResult<V>>) {
    forall entity :: entity in r ==>
      EntityKey(r[entity].resNamespace, r[entity].resName) == entity && |r[entity].fields| > 0
  }

  ghost predicate GroupsEntities<V>(qs: QueryStore, order: seq<string>, eval: string -> Outcome<V>, r: map<string, MetricResult<V>>)
    requires Visits(qs, order)
  {
    forall entity :: entity in r <==> exists i :: ProvidesEntity(qs, order, eval, i, entity)
  }

  ghost predicate GroupsFields<V>(qs: QueryStore, order: seq<string>, eval: string -> Outcome<V>, zero: V, r: map<string, MetricResult<V>>)
    requires Visits(qs, order)
  {
    && (forall entity, field :: entity in r ==>
          (field in r[entity].fields <==> Latest(qs, order, eval, entity, field) >= 0))
    && (forall entity, field :: entity in r && field in r[entity].fields ==>
          r[entity].fields[field] == Reading(eval(order[Latest(qs, order, eval, entity, field)]), zero))
  }

  /** The loop of doMetric over the queries in iteration order `order`. */
  function Fold<V>(qs: QueryStore, order: seq<string>, eval: string -> Outcome<V>, zero: V): (r: map<string, MetricResult<V>>)
    requires Visits(qs, order)
    ensures Groups(qs, order, eval, zero, r)
    decreases |order|
  {
    if |order| == 0 then map[]
    else
      var acc := Fold(qs, order[..|order| - 1], eval, zero);
      var r := Step(acc, qs[order[|order| - 1]], eval(order[|order| - 1]), zero);
      FoldStep(qs, order[..|order| - 1], order, eval, zero, acc, r);
      r
  }

  /** One iteration of the loop keeps the grouping characterisation. */
  lemma FoldStep<V>(qs: QueryStore, prefix: seq<string>, order: seq<string>, eval: string -> Outcome<V>, zero: V,
                    acc: map<string, MetricResult<V>>, r: map<string, MetricResult<V>>)
    requires Visits(qs, order) && |order| > 0 && prefix == order[..|order| - 1]
    requires Visits(qs, prefix) && Groups(qs, prefix, eval, zero, acc)
    requires r == Step(acc, qs[order[|order| - 1]], eval(order[|order| - 1]), zero)
    ensures Groups(qs, order, eval, zero, r)
  {
    FoldStepEntities(qs, prefix, order, eval, zero, acc, r);
    FoldStepFields(qs, prefix, order, eval, zero, acc, r);
  }

  /** The loop body: a contributing outcome is recorded, any other skipped. */
  function Step<V>(acc: map<string, MetricResult<V>>, q: MetricQuery, o: Outcome<V>, zero: V): (r: map<string, MetricResult<V>>)
    ensures NamedAndNonEmpty(acc) ==> NamedAndNonEmpty(r)
  {
    if Contributes(o) then Record(acc, q, Reading(o, zero)) else acc
  }

  lemma FoldStepEntities<V>(qs: QueryStore, prefix: seq<string>, order: seq<string>, eval: string -> Outcome<V>, zero: V,
                            acc: map<string, MetricResult<V>>, r: map<string, MetricResult<V>>)
    requires Visits(qs, order) && |order| > 0 && prefix == order[..|order| - 1]
    requires Visits(qs, prefix) && GroupsEntities(qs, prefix, eval, acc)
    requires r == Step(acc, qs[order[|order| - 1]], eval(order[|order| - 1]), zero)
    ensures GroupsEntities(qs, order, eval, r)
  {
    var n := |order| - 1;
    forall entity
      ensures entity in r <==> exists i :: ProvidesEntity(qs, order, eval, i, entity)
    {
      if entity in r {
        if entity in acc {
          var i :| ProvidesEntity(qs, prefix, eval, i, entity);
          ProvidesOnPrefix(qs, order, eval, i, entity, "");
          assert ProvidesEntity(qs, order, eval, i, entity);
        } else {
          assert ProvidesEntity(qs, order, eval, n, entity);
        }
      }
      if exists i :: ProvidesEntity(qs, order, eval, i, entity) {
        var i :| ProvidesEntity(qs, order, eval, i, entity);
        if i < n {
          ProvidesOnPrefix(qs, order, eval, i, entity, "");
          assert entity in acc;
        }
      }
    }
  }

  lemma FoldStepFields<V>(qs: QueryStore, prefix: seq<string>, order: seq<string>, eval: string -> Outcome<V>, zero: V,
                          acc: map<string, MetricResult<V>>, r: map<string, MetricResult<V>>)
    requires Visits(qs, order) && |order| > 0 && prefix == order[..|order| - 1]
    requires Visits(qs, prefix) && GroupsEntities(qs, prefix, eval, acc) && GroupsFields(qs, prefix, eval, zero, acc)
    requires r == Step(acc, qs[order[|order| - 1]], eval(order[|order| - 1]), zero)
    ensures GroupsFields(qs, order, eval, zero, r)
  {
    var n := |order| - 1;
    forall entity, field | entity in r
      ensures field in r[entity].fields <==> Latest(qs, order, eval, entity, field) >= 0
      ensures field in r[entity].fields ==>
        r[entity].fields[field] == Reading(eval(order[Latest(qs, order, eval, entity, field)]), zero)
    {
      var latest := Latest(qs, order, eval, entity, field);
      if Provides(qs, order, eval, n, entity, field) {
        assert latest == n;
      } else {
        assert latest == Latest(qs, prefix, eval, entity, field);
        if latest >= 0 {
          assert prefix[latest] == order[latest];
        }
      }
    }
  }

  /** doMetric: evaluates every registered query once, in the map's iteration
      order `order`, and groups the contributing readings into one result per
      `namespace/name`. Nothing is emitted until the whole map is returned,
      and the query set is only read. */
  function DoMetric<V>(qs: QueryStore, order: seq<string>, eval: string -> Outcome<V>, zero: V): (r: map<string, MetricResult<V>>)
    requires IsEnumeration(order, qs.Keys)
    ensures forall entity :: entity in r ==>
        EntityKey(r[entity].resNamespace, r[entity].resName) == entity && |r[entity].fields| > 0
    ensures forall entity :: entity in r <==> exists query :: FeedsEntity(qs, eval, query, entity)
    ensures forall entity, field :: entity in r ==>
        (field in r[entity].fields <==> exists query :: Feeds(qs, eval, query, entity, field))
    ensures forall entity, field :: entity in r && field in r[entity].fields ==>
        exists query :: Feeds(qs, eval, query, entity, field) && Reading(eval(query), zero) == r[entity].fields[field]
  {
    var r := Fold(qs, order, eval, zero);
    forall entity
      ensures entity in r <==> exists query :: FeedsEntity(qs, eval, query, entity)
    {
      if entity in r {
        var i :| ProvidesEntity(qs, order, eval, i, entity);
        assert FeedsEntity(qs, eval, order[i], entity);
      }
      if exists query :: FeedsEntity(qs, eval, query, entity) {
        var query :| FeedsEntity(qs, eval, query, entity);
        var i :| 0 <= i < |order| && order[i] == query;
        assert ProvidesEntity(qs, order, eval, i, entity);
      }
    }
    forall entity, field | entity in r
      ensures field in r[entity].fields <==> exists query :: Feeds(qs, eval, query, entity, field)
      ensures field in r[entity].fields ==>
        exists query :: Feeds(qs, eval, query, entity, field) && Reading(eval(query), zero) == r[entity].fields[field]
    {
      var latest := Latest(qs, order, eval, entity, field);
      if latest >= 0 {
        assert Feeds(qs, eval, order[latest], entity, field);
      }
      if exists query :: Feeds(qs, eval, query, entity, field) {
        var query :| Feeds(qs, eval, query, entity, field);
        var i :| 0 <= i < |order| && order[i] == query;
        assert Provides(qs, order, eval, i, entity, field);
      }
    }
    r
  }

  /** Query `query` is registered, contributed, and belongs to `entity`. */
  predicate FeedsEntity<V>(qs: QueryStore, eval: string -> Outcome<V>, query: string, entity: string) {
    query in qs && Contributes(eval(query)) && EntityOf(qs[query]) == entity
  }

  /** Query `query` is registered, contributed, and fills `field` of `entity`. */
  predicate Feeds<V>(qs: QueryStore, eval: string -> Outcome<V>, query: string, entity: string, field: string) {
    FeedsEntity(qs, eval, query, entity) && qs[query].field == field
  }
}
