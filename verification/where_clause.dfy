/** `buildWhere`: a LoopBack where object rendered as a TypeORM predicate
    string. Operand values are interpolated as JavaScript converts them to
    strings, without escaping or parameters. */
module WhereClause {
  import opened Wrappers
  import opened Joins
  import opened JsValues

  /** The TypeErrors the renderer can throw. */
  datatype TypeError =
    | ReadOfNullish(property: string)  // reading `property` of `null` or `undefined`
    | NotAFunction(callee: string)     // calling `map` or `join` on a value that is not an array

  /** The operator slots of a condition object, in the order they are tried. */
  datatype Operator = Eq | Neq | Lt | Lte | Gt | Gte | Inq | Between

  const Priority: seq<Operator> := [Eq, Neq, Lt, Lte, Gt, Gte, Inq, Between]

  function SlotName(op: Operator): string
  {
    match op
    case Eq => "eq"
    case Neq => "neq"
    case Lt => "lt"
    case Lte => "lte"
    case Gt => "gt"
    case Gte => "gte"
    case Inq => "inq"
    case Between => "between"
  }

  /** The SQL symbol of a one-operand comparison. */
  function Symbol(op: Operator): string
    requires op != Inq && op != Between
  {
    match op
    case Eq => "="
    case Neq => "!="
    case Lt => "<"
    case Lte => "<="
    case Gt => ">"
    case Gte => ">="
  }

  /** `condition[op]` */
  function Slot(condition: JsValue, op: Operator): JsValue
  {
    GetNamed(condition, SlotName(op))
  }

  /** The clause for one field key. Reading `condition.eq` throws on a
      `null` or `undefined` condition; otherwise the slots are tried in the
      order of the `if ... else if` chain and the first truthy one chooses
      the template; with none truthy the condition itself is the operand of
      an equality (the shorthand `{x: 1}`). */
  function Clause(key: string, condition: JsValue): Result<string, TypeError>
  {
    if Nullish(condition) then Failure(ReadOfNullish("eq"))
    else Chain(key, condition, Priority)
  }

  /** The `else if` chain from the first operator of `ops` on. */
  function Chain(key: string, condition: JsValue, ops: seq<Operator>): Result<string, TypeError>
  {
    if |ops| == 0 then Success(Compare(key, "=", condition))
    else if Truthy(Slot(condition, ops[0])) then Template(key, ops[0], condition)
    else Chain(key, condition, ops[1..])
  }

  /** The template of one operator, as the branch for it writes the clause:
      `k = v`, `k != v`, `k < v`, `k <= v`, `k > v`, `k >= v`,
      `k IN (v1, v2, ...)` (`join` throws unless `inq` is an array) and
      `k BETWEEN a AND b` (elements 0 and 1 of `between`). */
  function Template(key: string, op: Operator, condition: JsValue): Result<string, TypeError>
  {
    match op
    case Inq =>
      var inq := Slot(condition, Inq);
      if inq.Arr? then Success(key + " IN (" + JoinValues(inq.items, ", ") + ")")
      else Failure(NotAFunction("join"))
    case Between =>
      var range := Slot(condition, Between);
      Success(key + " BETWEEN " + Render(GetIndex(range, 0)) + " AND " + Render(GetIndex(range, 1)))
    case _ => Success(Compare(key, Symbol(op), Slot(condition, op)))
  }

  /** `${key} <symbol> ${operand}` */
  function Compare(key: string, symbol: string, operand: JsValue): string
  {
    key + " " + symbol + " " + Render(operand)
  }

  /** The results in order, or the first failure among them. */
  function Collect(rs: seq<Result<string, TypeError>>): (r: Result<seq<string>, TypeError>)
    ensures r.Success? <==> forall k :: 0 <= k < |rs| ==> rs[k].Success?
    ensures r.Success? ==> |r.value| == |rs| && forall k :: 0 <= k < |rs| ==> r.value[k] == rs[k].value
    ensures r.Failure? ==>
      exists k :: 0 <= k < |rs| && rs[k] == Failure(r.error) && (forall j :: 0 <= j < k ==> rs[j].Success?)
  {
    if |rs| == 0 then Success([])
    else if rs[0].Failure? then Failure(rs[0].error)
    else
      match Collect(rs[1..])
      case Failure(e) => Failure(e)
      case Success(vs) => Success([rs[0].value] + vs)
  }

  /** Each string wrapped in one pair of parentheses. */
  function Parenthesise(parts: seq<string>): seq<string>
  {
    seq(|parts|, k requires 0 <= k < |parts| => "(" + parts[k] + ")")
  }

  /** `buildWhere(where)`: the clauses joined with `" AND "`. */
  function BuildWhere(w: JsValue): Result<string, TypeError>
    decreases w, 2
  {
    var clauses :- Clauses(w);
    Success(Join(clauses, " AND "))
  }

  /** The clauses `buildWhere` pushes, in order: the `and` fragment, the
      `or` fragment, then one clause per remaining key. */
  function Clauses(w: JsValue): Result<seq<string>, TypeError>
    decreases w, 1
  {
    if Nullish(w) then Failure(ReadOfNullish("and"))
    else
      var andPart :- Group(w, "and", " AND ");
      var orPart :- Group(w, "or", " OR ");
      var fieldPart :- FieldClauses(Entries(w));
      Success(andPart + orPart + fieldPart)
  }

  /** The fragment of a truthy `and`/`or` property: every element rendered
      recursively, parenthesised, joined with `sep`. A falsy or missing
      property contributes no fragment; an empty array contributes `""`. */
  function Group(w: JsValue, name: string, sep: string): (r: Result<seq<string>, TypeError>)
    decreases w, 0
  {
    match w
    case Obj(props) =>
      var i := FindKey(props, name);
      if i == |props| || !Truthy(props[i].value) then Success([])
      else
        (match props[i].value
         case Arr(children) =>
           var rendered :- Collect(seq(|children|, j requires 0 <= j < |children| => BuildWhere(children[j])));
           Success([Join(Parenthesise(rendered), sep)])
         case _ => Failure(NotAFunction("map")))
    case _ => Success([])
  }

  predicate IsGroupKey(key: string)
  {
    key == "and" || key == "or"
  }

  /** The `for...in` loop: one clause per entry whose key is not `and`/`or`. */
  function FieldClauses(es: seq<Prop>): Result<seq<string>, TypeError>
  {
    if |es| == 0 then Success([])
    else if IsGroupKey(es[0].key) then FieldClauses(es[1..])
    else
      var c :- Clause(es[0].key, es[0].value);
      var rest :- FieldClauses(es[1..]);
      Success([c] + rest)
  }

  // ---------------------------------------------------------------------
  // The operator chain against a table-driven reading of it

  /** The first operator in `ops` whose slot in `condition` is truthy. */
  function FirstTruthy(condition: JsValue, ops: seq<Operator>): (r: Option<Operator>)
    ensures r.Some? ==> r.value in ops && Truthy(Slot(condition, r.value))
  {
    if |ops| == 0 then None
    else if Truthy(Slot(condition, ops[0])) then Some(ops[0])
    else FirstTruthy(condition, ops[1..])
  }

  /** The operator whose template the clause uses, `None` for the shorthand. */
  function Selected(condition: JsValue): Option<Operator>
  {
    FirstTruthy(condition, Priority)
  }

  predicate Distinct(ops: seq<Operator>)
  {
    forall a, b :: 0 <= a < b < |ops| ==> ops[a] != ops[b]
  }

  /** `op` is picked exactly when its slot is truthy and every slot tried
      before it is falsy. */
  lemma {:induction false} FirstTruthyIff(condition: JsValue, ops: seq<Operator>, i: nat)
    requires i < |ops| && Distinct(ops)
    ensures FirstTruthy(condition, ops) == Some(ops[i]) <==>
      Truthy(Slot(condition, ops[i])) && forall j :: 0 <= j < i ==> !Truthy(Slot(condition, ops[j]))
    decreases |ops|
  {
    if i == 0 {
      assert ops[0] !in ops[1..] by {
        forall j | 0 <= j < |ops[1..]| ensures ops[1..][j] != ops[0] {
          assert ops[1..][j] == ops[j + 1];
        }
      }
    } else {
      assert ops[0] != ops[i];
      if !Truthy(Slot(condition, ops[0])) {
        assert Distinct(ops[1..]) by {
          forall a, b | 0 <= a < b < |ops[1..]| ensures ops[1..][a] != ops[1..][b] {
            assert ops[1..][a] == ops[a + 1] && ops[1..][b] == ops[b + 1];
          }
        }
        FirstTruthyIff(condition, ops[1..], i - 1);
        forall j | 0 < j < i ensures ops[1..][j - 1] == ops[j] { }
      }
    }
  }

  /** No template is picked exactly when every slot is falsy. */
  lemma {:induction false} FirstTruthyNone(condition: JsValue, ops: seq<Operator>)
    ensures FirstTruthy(condition, ops).None? <==> forall j :: 0 <= j < |ops| ==> !Truthy(Slot(condition, ops[j]))
    decreases |ops|
  {
    if |ops| > 0 {
      FirstTruthyNone(condition, ops[1..]);
      forall j | 0 < j < |ops| ensures ops[1..][j - 1] == ops[j] { }
    }
  }

  /** Operator priority: the operator at position `i` of eq, neq, lt, lte,
      gt, gte, inq, between is selected exactly when its slot is truthy and
      all earlier slots are falsy; with every slot falsy none is selected. */
  lemma SelectedByPriority(condition: JsValue, i: nat)
    requires i < |Priority|
    ensures Selected(condition) == Some(Priority[i]) <==>
      Truthy(Slot(condition, Priority[i])) && forall j :: 0 <= j < i ==> !Truthy(Slot(condition, Priority[j]))
    ensures Selected(condition).None? <==> forall j :: 0 <= j < |Priority| ==> !Truthy(Slot(condition, Priority[j]))
  {
    FirstTruthyIff(condition, Priority, i);
    FirstTruthyNone(condition, Priority);
  }

  /** The clause the table prescribes: the selected operator's template,
      or the shorthand equality when no slot is truthy. */
  function TableClause(key: string, condition: JsValue): Result<string, TypeError>
  {
    match Selected(condition)
    case Some(op) => Template(key, op, condition)
    case None => Success(Compare(key, "=", condition))
  }

  lemma {:induction false} ChainIsFirstTruthy(key: string, condition: JsValue, ops: seq<Operator>)
    ensures Chain(key, condition, ops) ==
      match FirstTruthy(condition, ops)
      case Some(op) => Template(key, op, condition)
      case None => Success(Compare(key, "=", condition))
    decreases |ops|
  {
    if |ops| > 0 && !Truthy(Slot(condition, ops[0])) {
      ChainIsFirstTruthy(key, condition, ops[1..]);
    }
  }

  /** The chain of tests picks the template the table prescribes. */
  lemma ClauseByTable(key: string, condition: JsValue)
    requires !Nullish(condition)
    ensures Clause(key, condition) == TableClause(key, condition)
  {
    ChainIsFirstTruthy(key, condition, Priority);
  }
}
