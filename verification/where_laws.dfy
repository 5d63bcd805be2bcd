/** What `buildWhere` promises: when it throws, which clauses it emits and
    in which order, and what it makes of the smallest inputs. */
module WhereLaws {
  import opened Wrappers
  import opened Joins
  import opened JsValues
  import opened WhereClause

  // ---------------------------------------------------------------------
  // When the renderer throws

  /** A condition renders unless it is `null`/`undefined` or its selected
      operator is `inq` with a value that is not an array. */
  predicate ConditionOk(condition: JsValue)
  {
    && !Nullish(condition)
    && (Selected(condition) == Some(Inq) ==> Slot(condition, Inq).Arr?)
  }

  /** The shape of a where value the renderer accepts: not nullish, every
      truthy `and`/`or` property an array of acceptable where values, and
      every other entry an acceptable condition. */
  predicate WellShaped(w: JsValue)
    decreases w, 1
  {
    && !Nullish(w)
    && GroupOk(w, "and")
    && GroupOk(w, "or")
    && forall k :: 0 <= k < |Entries(w)| ==>
         IsGroupKey(Entries(w)[k].key) || ConditionOk(Entries(w)[k].value)
  }

  predicate GroupOk(w: JsValue, name: string)
    decreases w, 0
  {
    match w
    case Obj(props) =>
      var i := FindKey(props, name);
      i == |props| || !Truthy(props[i].value) ||
      (match props[i].value
       case Arr(children) => forall j :: 0 <= j < |children| ==> WellShaped(children[j])
       case _ => false)
    case _ => true
  }

  lemma ConditionOkIff(key: string, condition: JsValue)
    ensures Clause(key, condition).Success? <==> ConditionOk(condition)
  {
    if !Nullish(condition) {
      ClauseByTable(key, condition);
    }
  }

  /** `buildWhere` returns exactly on the well-shaped where values and throws on all others. */
  lemma {:induction false} BuildWhereSucceedsIff(w: JsValue)
    ensures BuildWhere(w).Success? <==> WellShaped(w)
    decreases w, 3
  {
    ClausesSucceedIff(w);
  }

  lemma {:induction false} ClausesSucceedIff(w: JsValue)
    ensures Clauses(w).Success? <==> WellShaped(w)
    decreases w, 2
  {
    if !Nullish(w) {
      GroupSucceedsIff(w, "and", " AND ");
      GroupSucceedsIff(w, "or", " OR ");
      FieldClausesSucceedIff(Entries(w));
    }
  }

  lemma {:induction false} GroupSucceedsIff(w: JsValue, name: string, sep: string)
    ensures Group(w, name, sep).Success? <==> GroupOk(w, name)
    decreases w, 1
  {
    match w
    case Obj(props) =>
      var i := FindKey(props, name);
      if i < |props| && Truthy(props[i].value) && props[i].value.Arr? {
        var children := props[i].value.items;
        var rs := seq(|children|, j requires 0 <= j < |children| => BuildWhere(children[j]));
        forall j | 0 <= j < |children| ensures rs[j].Success? <==> WellShaped(children[j]) {
          BuildWhereSucceedsIff(children[j]);
        }
      }
    case _ =>
  }

  lemma {:induction false} FieldClausesSucceedIff(es: seq<Prop>)
    ensures FieldClauses(es).Success? <==>
      forall k :: 0 <= k < |es| ==> IsGroupKey(es[k].key) || ConditionOk(es[k].value)
    decreases |es|
  {
    if |es| > 0 {
      FieldClausesSucceedIff(es[1..]);
      ConditionOkIff(es[0].key, es[0].value);
      assert forall k :: 0 < k < |es| ==> es[k] == es[1..][k - 1];
    }
  }

  // ---------------------------------------------------------------------
  // Which clauses, in which order

  /** The entries the `for...in` loop turns into clauses: all but `and`/`or`, in order. */
  function FieldEntries(es: seq<Prop>): (fs: seq<Prop>)
    ensures |fs| <= |es|
  {
    if |es| == 0 then []
    else if IsGroupKey(es[0].key) then FieldEntries(es[1..])
    else [es[0]] + FieldEntries(es[1..])
  }

  /** An entry is kept exactly when its key is not `and` or `or`. */
  lemma {:induction false} FieldEntriesMembers(es: seq<Prop>, p: Prop)
    ensures p in FieldEntries(es) <==> p in es && !IsGroupKey(p.key)
    decreases |es|
  {
    if |es| > 0 {
      FieldEntriesMembers(es[1..], p);
      assert es == [es[0]] + es[1..];
    }
  }

  /** Filtering keeps the entries' relative order. */
  lemma {:induction false} FieldEntriesAppend(a: seq<Prop>, b: seq<Prop>)
    ensures FieldEntries(a + b) == FieldEntries(a) + FieldEntries(b)
    decreases |a|
  {
    if |a| == 0 {
      assert a + b == b;
    } else {
      assert (a + b)[0] == a[0];
      assert (a + b)[1..] == a[1..] + b;
      FieldEntriesAppend(a[1..], b);
    }
  }

  /** One clause per kept entry, in the order of the entries. */
  lemma {:induction false} FieldClausesValue(es: seq<Prop>)
    requires FieldClauses(es).Success?
    ensures |FieldClauses(es).value| == |FieldEntries(es)|
    ensures forall k :: 0 <= k < |FieldEntries(es)| ==>
      Clause(FieldEntries(es)[k].key, FieldEntries(es)[k].value) == Success(FieldClauses(es).value[k])
    decreases |es|
  {
    if |es| > 0 {
      FieldClausesValue(es[1..]);
    }
  }

  /** With no `and`/`or` key among the entries, the loop keeps every one. */
  lemma {:induction false} FieldEntriesAll(es: seq<Prop>)
    requires forall k :: 0 <= k < |es| ==> !IsGroupKey(es[k].key)
    ensures FieldEntries(es) == es
    decreases |es|
  {
    if |es| > 0 {
      FieldEntriesAll(es[1..]);
    }
  }

  /** An array used as a where has no `and`/`or` property, and `for...in`
      visits its indices: it yields one clause per element, keyed by the
      element's index in decimal. */
  lemma ArrayWhereClauses(items: seq<JsValue>)
    requires Clauses(Arr(items)).Success?
    ensures var cs := Clauses(Arr(items)).value;
      && |cs| == |items|
      && forall k :: 0 <= k < |items| ==> Clause(DecimalString(k), items[k]) == Success(cs[k])
  {
    var es := Entries(Arr(items));
    forall k | 0 <= k < |es| ensures !IsGroupKey(es[k].key) {
      IndexKeyIsDigits(k);
    }
    FieldEntriesAll(es);
    FieldClausesValue(es);
  }

  /** The `and` or `or` property is present in the sense the renderer tests: truthy. */
  predicate HasGroup(w: JsValue, name: string)
  {
    !Nullish(w) && Truthy(GetNamed(w, name))
  }

  /** The values the elements of a group render to. */
  function RenderedChildren(children: seq<JsValue>): seq<string>
    requires forall j :: 0 <= j < |children| ==> BuildWhere(children[j]).Success?
  {
    seq(|children|, j requires 0 <= j < |children| => BuildWhere(children[j]).value)
  }

  /** A group contributes one fragment when its property is truthy, none
      otherwise; the fragment is the parenthesised renderings of its
      elements joined by `sep`. */
  lemma GroupValue(w: JsValue, name: string, sep: string)
    requires !Nullish(w) && Group(w, name, sep).Success?
    ensures |Group(w, name, sep).value| == if HasGroup(w, name) then 1 else 0
    ensures HasGroup(w, name) ==>
      && GetNamed(w, name).Arr?
      && (forall j :: 0 <= j < |GetNamed(w, name).items| ==> BuildWhere(GetNamed(w, name).items[j]).Success?)
      && Group(w, name, sep).value[0] == Join(Parenthesise(RenderedChildren(GetNamed(w, name).items)), sep)
  {
    if HasGroup(w, name) {
      var children := GetNamed(w, name).items;
      var rs := seq(|children|, j requires 0 <= j < |children| => BuildWhere(children[j]));
      assert Collect(rs).Success?;
      forall j | 0 <= j < |children| ensures BuildWhere(children[j]).Success? {
        assert rs[j].Success?;
      }
      assert Collect(rs).value == RenderedChildren(children);
    }
  }

  function Count(b: bool): nat
  {
    if b then 1 else 0
  }

  /** The clauses in order: the `and` fragment if `and` is truthy, then the
      `or` fragment if `or` is truthy, then one clause per remaining entry. */
  lemma ClausesLayout(w: JsValue)
    requires Clauses(w).Success?
    ensures var cs := Clauses(w).value;
      var skip := Count(HasGroup(w, "and")) + Count(HasGroup(w, "or"));
      && |cs| == skip + |FieldEntries(Entries(w))|
      && (HasGroup(w, "and") ==> cs[0] == Group(w, "and", " AND ").value[0])
      && (HasGroup(w, "or") ==> cs[Count(HasGroup(w, "and"))] == Group(w, "or", " OR ").value[0])
      && forall k :: 0 <= k < |FieldEntries(Entries(w))| ==>
           Clause(FieldEntries(Entries(w))[k].key, FieldEntries(Entries(w))[k].value) == Success(cs[skip + k])
  {
    GroupValue(w, "and", " AND ");
    GroupValue(w, "or", " OR ");
    FieldClausesValue(Entries(w));
  }

  // ---------------------------------------------------------------------
  // The smallest inputs

  /** `buildWhere(null)` and `buildWhere(undefined)` throw reading `and`. */
  lemma NullishWhereThrows(w: JsValue)
    requires Nullish(w)
    ensures BuildWhere(w) == Failure(ReadOfNullish("and"))
  {
  }

  /** A where value with nothing to enumerate, such as `{}`, renders as the empty string. */
  lemma EmptyWhere(w: JsValue)
    requires !Nullish(w) && |Entries(w)| == 0
    ensures BuildWhere(w) == Success("")
  {
    assert Group(w, "and", " AND ") == Success([]);
    assert Group(w, "or", " OR ") == Success([]);
    assert FieldClauses(Entries(w)) == Success([]);
    assert |Clauses(w).value| == 0;
  }

  // ---------------------------------------------------------------------
  // Conditions with one operator

  /** Position of an operator in the order the chain tries them. */
  function Rank(op: Operator): (i: nat)
    ensures i < |Priority| && Priority[i] == op
  {
    match op
    case Eq => 0
    case Neq => 1
    case Lt => 2
    case Lte => 3
    case Gt => 4
    case Gte => 5
    case Inq => 6
    case Between => 7
  }

  lemma PriorityDistinct()
    ensures Distinct(Priority)
  {
    forall a, b | 0 <= a < b < |Priority| ensures Priority[a] != Priority[b] {
      assert Rank(Priority[a]) == a && Rank(Priority[b]) == b;
    }
  }

  /** The operator a property name selects, if any. */
  function OperatorNamed(name: string): Option<Operator>
  {
    if name == "eq" then Some(Eq)
    else if name == "neq" then Some(Neq)
    else if name == "lt" then Some(Lt)
    else if name == "lte" then Some(Lte)
    else if name == "gt" then Some(Gt)
    else if name == "gte" then Some(Gte)
    else if name == "inq" then Some(Inq)
    else if name == "between" then Some(Between)
    else None
  }

  /** Reading back the property name gives the operator: different
      operators read different properties. */
  lemma OperatorNamedInverse(op: Operator)
    ensures OperatorNamed(SlotName(op)) == Some(op)
  {
  }

  /** A condition with the single truthy property `op` uses that
      operator's template, whatever its rank. */
  lemma SingleOperator(key: string, op: Operator, v: JsValue)
    requires Truthy(v)
    ensures Clause(key, Obj([Prop(SlotName(op), v)])) == Template(key, op, Obj([Prop(SlotName(op), v)]))
  {
    var c := Obj([Prop(SlotName(op), v)]);
    forall other: Operator | other != op ensures !Truthy(Slot(c, other)) {
      OperatorNamedInverse(other);
      OperatorNamedInverse(op);
    }
    PriorityDistinct();
    FirstTruthyIff(c, Priority, Rank(op));
    ClauseByTable(key, c);
  }

  /** A where object with one field key renders as that field's clause,
      and throws what the clause throws. */
  lemma SingleField(key: string, condition: JsValue)
    requires !IsGroupKey(key)
    ensures BuildWhere(Obj([Prop(key, condition)])) == Clause(key, condition)
  {
    var w := Obj([Prop(key, condition)]);
    assert Group(w, "and", " AND ") == Success([]);
    assert Group(w, "or", " OR ") == Success([]);
    assert w.props[1..] == [];
    if Clause(key, condition).Success? {
      assert FieldClauses(w.props[1..]) == Success([]);
      var cs := Clauses(w).value;
      assert |cs| == 1 && cs[0] == Clause(key, condition).value;
      assert cs == [Clause(key, condition).value];
      JoinSingleton(Clause(key, condition).value, " AND ");
    }
  }

  /** `{key: {op: v}}` for a one-operand operator renders as `key <symbol> v`. */
  lemma ComparisonField(key: string, op: Operator, v: JsValue)
    requires !IsGroupKey(key) && Truthy(v) && op != Inq && op != Between
    ensures BuildWhere(Obj([Prop(key, Obj([Prop(SlotName(op), v)]))])) == Success(key + " " + Symbol(op) + " " + Render(v))
  {
    SingleOperator(key, op, v);
    SingleField(key, Obj([Prop(SlotName(op), v)]));
  }

  /** With no truthy operator property the condition itself is the operand:
      a falsy operand such as `{eq: 0}` falls through to an equality with
      the object, which renders as `[object Object]`. */
  lemma ShorthandFallback(key: string, condition: JsValue)
    requires !Nullish(condition)
    requires forall op: Operator :: !Truthy(Slot(condition, op))
    ensures Clause(key, condition) == Success(key + " = " + Render(condition))
  {
    assert forall j :: 0 <= j < |Priority| ==> !Truthy(Slot(condition, Priority[j]));
    FirstTruthyNone(condition, Priority);
    ClauseByTable(key, condition);
    assert key + " " + "=" + " " + Render(condition) == key + " = " + Render(condition);
  }

  /** An empty `and` or `or` array is truthy and contributes the empty
      fragment, so the joined result starts with the separator when other
      clauses follow. */
  lemma EmptyGroup(w: JsValue, name: string, sep: string)
    requires w.Obj? && GetNamed(w, name) == Arr([])
    ensures Group(w, name, sep) == Success([""])
  {
    var i := FindKey(w.props, name);
    assert i < |w.props|;
    var rs := seq(0, j requires 0 <= j < 0 => BuildWhere(Undefined));
    assert Collect(rs) == Success([]);
    assert Parenthesise([]) == [];
  }
}
