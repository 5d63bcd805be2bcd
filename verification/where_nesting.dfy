/** Parentheses in a rendered where: as long as no key or value contains
    a parenthesis of its own, every `(` the renderer writes is closed. */
module WhereNesting {
  import opened Wrappers
  import opened Joins
  import opened JsValues
  import opened Grouping
  import opened WhereClause

  /** No string, number text or key inside `v` contains a parenthesis. */
  predicate ParenFreeValue(v: JsValue)
    decreases v
  {
    match v
    case Num(text) => ParenFree(text)
    case Str(s) => ParenFree(s)
    case Arr(items) => forall i :: 0 <= i < |items| ==> ParenFreeValue(items[i])
    case Obj(props) => forall i :: 0 <= i < |props| ==> ParenFree(props[i].key) && ParenFreeValue(props[i].value)
    case _ => true
  }

  lemma ParenFreeConcat(a: string, b: string)
    requires ParenFree(a) && ParenFree(b)
    ensures ParenFree(a + b)
  {
    AvoidsConcat(a, b, '(');
    AvoidsConcat(a, b, ')');
  }

  /** Converting a parenthesis-free value to a string writes no parenthesis. */
  lemma RenderParenFree(v: JsValue)
    requires ParenFreeValue(v)
    ensures ParenFree(Render(v))
    decreases v
  {
    match v
    case Arr(items) =>
      var parts := seq(|items|, i requires 0 <= i < |items| =>
                         if Nullish(items[i]) then "" else Render(items[i]));
      forall k | 0 <= k < |parts| ensures ParenFree(parts[k]) {
        if !Nullish(items[k]) {
          RenderParenFree(items[k]);
        }
      }
      JoinAvoids(parts, ",", '(');
      JoinAvoids(parts, ",", ')');
    case Obj(_) =>
      var s := "[object Object]";
      assert forall i :: 0 <= i < |s| ==> s[i] != '(' && s[i] != ')';
    case _ =>
  }

  lemma JoinValuesParenFree(items: seq<JsValue>, sep: string)
    requires ParenFree(sep)
    requires forall i :: 0 <= i < |items| ==> ParenFreeValue(items[i])
    ensures ParenFree(JoinValues(items, sep))
  {
    var parts := seq(|items|, i requires 0 <= i < |items| => JoinElement(items[i]));
    forall k | 0 <= k < |parts| ensures ParenFree(parts[k]) {
      if !Nullish(items[k]) {
        RenderParenFree(items[k]);
      }
    }
    JoinAvoids(parts, sep, '(');
    JoinAvoids(parts, sep, ')');
  }

  /** Property reads and index reads stay inside a parenthesis-free value. */
  lemma LookupParenFree(v: JsValue, name: string)
    requires ParenFreeValue(v)
    ensures ParenFreeValue(GetNamed(v, name))
  {
  }

  lemma GetIndexParenFree(v: JsValue, i: nat)
    requires ParenFreeValue(v)
    ensures ParenFreeValue(GetIndex(v, i))
  {
    if v.Str? && i < |v.s| {
      assert [v.s[i]][0] == v.s[i];
    }
  }

  /** The keys and values `for...in` visits are parenthesis-free too. */
  lemma EntriesParenFree(v: JsValue)
    requires ParenFreeValue(v)
    ensures forall k :: 0 <= k < |Entries(v)| ==>
      ParenFree(Entries(v)[k].key) && ParenFreeValue(Entries(v)[k].value)
  {
    forall k | 0 <= k < |Entries(v)|
      ensures ParenFree(Entries(v)[k].key) && ParenFreeValue(Entries(v)[k].value)
    {
      if v.Arr? || v.Str? {
        var d := DecimalString(k);
        assert forall i :: 0 <= i < |d| ==> '0' <= d[i] <= '9';
        if v.Str? {
          assert [v.s[k]][0] == v.s[k];
        }
      }
    }
  }

  /** `key IN (vals)` is balanced when the key and the values are parenthesis-free. */
  lemma InListBalanced(key: string, vals: string)
    requires ParenFree(key) && ParenFree(vals)
    ensures Balanced(key + " IN (" + vals + ")")
  {
    var open := key + " IN (";
    ScanParenFree(key, 0);
    ScanAppend(key, " IN (", 0);
    ScanAppend(open, vals, 0);
    ScanParenFree(vals, 1);
    ScanAppend(open + vals, ")", 0);
  }

  /** Every field clause of a parenthesis-free condition is balanced. */
  lemma ClauseBalanced(key: string, condition: JsValue)
    requires ParenFree(key) && ParenFreeValue(condition)
    requires Clause(key, condition).Success?
    ensures Balanced(Clause(key, condition).value)
  {
    ClauseByTable(key, condition);
    match Selected(condition)
    case Some(op) => TemplateBalanced(key, op, condition);
    case None => CompareBalanced(key, "=", condition);
  }

  lemma TemplateBalanced(key: string, op: Operator, condition: JsValue)
    requires ParenFree(key) && ParenFreeValue(condition)
    requires Template(key, op, condition).Success?
    ensures Balanced(Template(key, op, condition).value)
  {
    LookupParenFree(condition, SlotName(op));
    match op
    case Inq =>
      var inq := Slot(condition, Inq);
      JoinValuesParenFree(inq.items, ", ");
      InListBalanced(key, JoinValues(inq.items, ", "));
    case Between =>
      BetweenBalanced(key, Slot(condition, Between));
    case _ =>
      CompareBalanced(key, Symbol(op), Slot(condition, op));
  }

  lemma BetweenBalanced(key: string, range: JsValue)
    requires ParenFree(key) && ParenFreeValue(range)
    ensures Balanced(key + " BETWEEN " + Render(GetIndex(range, 0)) + " AND " + Render(GetIndex(range, 1)))
  {
    var lo, hi := Render(GetIndex(range, 0)), Render(GetIndex(range, 1));
    GetIndexParenFree(range, 0);
    GetIndexParenFree(range, 1);
    RenderParenFree(GetIndex(range, 0));
    RenderParenFree(GetIndex(range, 1));
    ParenFreeConcat(key, " BETWEEN ");
    ParenFreeConcat(key + " BETWEEN ", lo);
    ParenFreeConcat(key + " BETWEEN " + lo, " AND ");
    ParenFreeConcat(key + " BETWEEN " + lo + " AND ", hi);
    ParenFreeIsBalanced(key + " BETWEEN " + lo + " AND " + hi);
  }

  lemma CompareBalanced(key: string, symbol: string, operand: JsValue)
    requires ParenFree(key) && ParenFree(symbol) && ParenFreeValue(operand)
    ensures Balanced(Compare(key, symbol, operand))
  {
    RenderParenFree(operand);
    ParenFreeConcat(key, " ");
    ParenFreeConcat(key + " ", symbol);
    ParenFreeConcat(key + " " + symbol, " ");
    ParenFreeConcat(key + " " + symbol + " ", Render(operand));
    ParenFreeIsBalanced(Compare(key, symbol, operand));
  }

  /** With no parenthesis in any key or value, every parenthesis
      `buildWhere` writes is matched: the group wrappers and the `IN` lists
      nest properly. */
  lemma {:induction false} BuildWhereBalanced(w: JsValue)
    requires ParenFreeValue(w) && BuildWhere(w).Success?
    ensures Balanced(BuildWhere(w).value)
    decreases w, 3
  {
    ClausesBalanced(w);
    BalancedJoin(Clauses(w).value, " AND ");
  }

  lemma {:induction false} ClausesBalanced(w: JsValue)
    requires ParenFreeValue(w) && Clauses(w).Success?
    ensures forall k :: 0 <= k < |Clauses(w).value| ==> Balanced(Clauses(w).value[k])
    decreases w, 2
  {
    GroupBalanced(w, "and", " AND ");
    GroupBalanced(w, "or", " OR ");
    EntriesParenFree(w);
    FieldClausesBalanced(Entries(w));
  }

  lemma {:induction false} GroupBalanced(w: JsValue, name: string, sep: string)
    requires ParenFreeValue(w) && ParenFree(sep) && Group(w, name, sep).Success?
    ensures forall k :: 0 <= k < |Group(w, name, sep).value| ==> Balanced(Group(w, name, sep).value[k])
    decreases w, 1
  {
    match w
    case Obj(props) =>
      var i := FindKey(props, name);
      if i < |props| && Truthy(props[i].value) {
        var children := props[i].value.items;
        var rs := seq(|children|, j requires 0 <= j < |children| => BuildWhere(children[j]));
        var rendered := Collect(rs).value;
        var parts := Parenthesise(rendered);
        forall k | 0 <= k < |parts| ensures Balanced(parts[k]) {
          assert rs[k].Success?;
          BuildWhereBalanced(children[k]);
          BalancedWrap(rendered[k]);
        }
        ParenFreeIsBalanced(sep);
        BalancedJoin(parts, sep);
      }
    case _ =>
  }

  lemma {:induction false} FieldClausesBalanced(es: seq<Prop>)
    requires forall k :: 0 <= k < |es| ==> ParenFree(es[k].key) && ParenFreeValue(es[k].value)
    requires FieldClauses(es).Success?
    ensures forall k :: 0 <= k < |FieldClauses(es).value| ==> Balanced(FieldClauses(es).value[k])
    decreases |es|
  {
    if |es| > 0 {
      FieldClausesBalanced(es[1..]);
      if !IsGroupKey(es[0].key) {
        ClauseBalanced(es[0].key, es[0].value);
      }
    }
  }
}
