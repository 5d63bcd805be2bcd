/** `buildQuery`, `buildUpdate` and `buildDelete`: which parts of a LoopBack
    filter reach the TypeORM query builder. The builder itself is not
    modelled; the result records what each builder call is given. */
module QueryBuilder {
  import opened Wrappers
  import opened JsValues
  import opened OrderBy
  import opened WhereClause
  import opened WhereLaws

  /** The filter properties the assembly reads; an absent property is
      `Undefined` (or `None` for `order`). `skip` is not read. */
  datatype Filter = Filter(
    where: JsValue,
    fields: JsValue,
    order: Option<seq<string>>,
    limit: JsValue,
    offset: JsValue)

  /** The arguments of `limit(...)` and `offset(...)`, passed through as given. */
  datatype Paging = Paging(limit: JsValue, offset: JsValue)

  /** What a select builder has been told: `None` for a call never made. */
  datatype SelectQuery = SelectQuery(
    paging: Option<Paging>,
    select: Option<seq<string>>,
    orderBy: Option<seq<Ordering>>,
    condition: Option<string>)

  /** An update builder: the `set` data and the predicate, if one was attached. */
  datatype UpdateQuery = UpdateQuery(data: JsValue, condition: Option<string>)

  /** A delete builder: the predicate, if one was attached. */
  datatype DeleteQuery = DeleteQuery(condition: Option<string>)

  const Unfiltered := SelectQuery(None, None, None, None)

  /** The predicate step shared by all three builders: a falsy where
      attaches nothing; a truthy one attaches its rendering or throws. */
  function PredicateOf(where: JsValue): Result<Option<string>, TypeError>
  {
    if Truthy(where) then
      var p :- BuildWhere(where);
      Success(Some(p))
    else Success(None)
  }

  /** `buildQuery(filter)`; `None` is a falsy or missing filter. */
  function BuildQuery(filter: Option<Filter>): Result<SelectQuery, TypeError>
  {
    match filter
    case None => Success(Unfiltered)
    case Some(f) =>
      var cond :- PredicateOf(f.where);
      Success(SelectQuery(
        Some(Paging(f.limit, f.offset)),
        if Truthy(f.fields) then Some(OwnKeys(f.fields)) else None,
        if f.order.Some? then Some(BuildOrder(f.order.value)) else None,
        cond))
  }

  /** `buildUpdate(dataObject, where)`. */
  function BuildUpdate(data: JsValue, where: JsValue): Result<UpdateQuery, TypeError>
  {
    var cond :- PredicateOf(where);
    Success(UpdateQuery(data, cond))
  }

  /** `buildDelete(where)`. */
  function BuildDelete(where: JsValue): Result<DeleteQuery, TypeError>
  {
    var cond :- PredicateOf(where);
    Success(DeleteQuery(cond))
  }

  /** A where value attaches a predicate exactly when it is truthy, and the
      attachment throws exactly when a truthy where is not well shaped. */
  lemma PredicateOfSpec(where: JsValue)
    ensures PredicateOf(where).Success? <==> !Truthy(where) || WellShaped(where)
    ensures PredicateOf(where).Success? ==> (PredicateOf(where).value.Some? <==> Truthy(where))
    ensures Truthy(where) && WellShaped(where) ==> PredicateOf(where).value == Some(BuildWhere(where).value)
  {
    BuildWhereSucceedsIff(where);
  }

  /** Without a filter the builder is returned untouched; with one, limit
      and offset are always passed on, a projection is set exactly when
      `fields` is truthy, an ordering exactly when `order` is present and
      a predicate exactly when `where` is truthy. */
  lemma AssemblyIsConditional(filter: Option<Filter>)
    requires BuildQuery(filter).Success?
    ensures filter.None? ==> BuildQuery(filter).value == Unfiltered
    ensures filter.Some? ==>
      var q := BuildQuery(filter).value;
      var f := filter.value;
      && q.paging == Some(Paging(f.limit, f.offset))
      && (q.select.Some? <==> Truthy(f.fields))
      && (q.orderBy.Some? <==> f.order.Some?)
      && (q.condition.Some? <==> Truthy(f.where))
  {
    if filter.Some? {
      PredicateOfSpec(filter.value.where);
    }
  }

  /** `buildQuery` throws exactly when the filter's where is truthy and not well shaped. */
  lemma BuildQuerySucceedsIff(filter: Option<Filter>)
    ensures BuildQuery(filter).Success? <==>
      filter.None? || !Truthy(filter.value.where) || WellShaped(filter.value.where)
  {
    if filter.Some? {
      PredicateOfSpec(filter.value.where);
    }
  }

  /** The projection is the own keys of `fields`, in order, whatever their
      values: `{name: false}` still selects `name`. */
  lemma ProjectionIsKeys(f: Filter)
    requires BuildQuery(Some(f)).Success? && f.fields.Obj?
    ensures var q := BuildQuery(Some(f)).value;
      && q.select.Some?
      && |q.select.value| == |f.fields.props|
      && forall i :: 0 <= i < |f.fields.props| ==> q.select.value[i] == f.fields.props[i].key
  {
  }

  /** The ordering has one entry per field of a matching `order` token, the
      last matching direction for each, in first-seen order. */
  lemma OrderingOfQuery(f: Filter)
    requires BuildQuery(Some(f)).Success? && f.order.Some?
    ensures var q := BuildQuery(Some(f)).value; var ps := Parsed(f.order.value);
      && q.orderBy.Some?
      && DistinctFields(q.orderBy.value)
      && FieldSet(q.orderBy.value) == FieldSet(ps)
      && (forall k :: 0 <= k < |q.orderBy.value| ==>
            LastDirection(ps, q.orderBy.value[k].field) == Some(q.orderBy.value[k].dir))
      && (forall i, j :: 0 <= i < j < |q.orderBy.value| ==>
            FirstIndex(ps, q.orderBy.value[i].field) < FirstIndex(ps, q.orderBy.value[j].field))
  {
    BuildOrderSpec(f.order.value);
  }

  /** Select, update and delete attach the same predicate for the same
      where value, and throw together. */
  lemma SamePredicateEverywhere(f: Filter, data: JsValue)
    ensures BuildQuery(Some(f)).Success? <==> BuildUpdate(data, f.where).Success?
    ensures BuildQuery(Some(f)).Success? <==> BuildDelete(f.where).Success?
    ensures BuildQuery(Some(f)).Success? ==>
      && BuildUpdate(data, f.where).value.condition == BuildQuery(Some(f)).value.condition
      && BuildDelete(f.where).value.condition == BuildQuery(Some(f)).value.condition
    ensures BuildQuery(Some(f)).Failure? ==>
      && BuildUpdate(data, f.where).error == BuildQuery(Some(f)).error
      && BuildDelete(f.where).error == BuildQuery(Some(f)).error
  {
  }

  /** Update and delete attach a predicate exactly when a truthy where is given. */
  lemma UpdateDeleteConditional(data: JsValue, where: JsValue)
    requires !Truthy(where) || WellShaped(where)
    ensures BuildUpdate(data, where).Success? && BuildDelete(where).Success?
    ensures BuildUpdate(data, where).value.data == data
    ensures BuildUpdate(data, where).value.condition.Some? <==> Truthy(where)
    ensures BuildDelete(where).value.condition.Some? <==> Truthy(where)
  {
    PredicateOfSpec(where);
  }

  /** An empty where object is truthy, so it attaches the empty predicate
      string rather than none. */
  lemma EmptyWhereObject(f: Filter)
    requires f.where == Obj([])
    ensures BuildQuery(Some(f)).Success?
    ensures BuildQuery(Some(f)).value.condition == Some("")
  {
    EmptyWhere(f.where);
  }
}
