/** The `or` fragment of `buildWhere` is pushed without parentheses of its
    own. Joined to the next clause with `AND`, SQL's precedence then binds
    that `AND` to the last alternative only: `{or: [A, B], c: C}` becomes
    `(A) OR (B) AND C`, read as `A OR (B AND C)`, where the filter means
    `(A OR B) AND C`. This module states that of the code as written, and
    gives the renderer with each group fragment enclosed in one pair of
    parentheses, for which every top-level clause is one conjunct. */
module EnclosedGroups {
  import opened Wrappers
  import opened Joins
  import opened JsValues
  import opened Grouping
  import opened WhereClause
  import opened WhereLaws
  import opened WhereNesting

  /** `s` is one parenthesised operand: its first `(` is closed by its last character. */
  predicate Enclosed(s: string)
  {
    |s| >= 2 && s[0] == '(' && s[|s| - 1] == ')' && Balanced(s[1..|s| - 1])
  }

  // ---------------------------------------------------------------------
  // The code as written

  /** With two or more alternatives, the `or` fragment the code pushes is
      not one parenthesised operand: the parenthesis of its first
      alternative closes before the first `OR`. */
  lemma OrFragmentNotEnclosed(w: JsValue)
    requires ParenFreeValue(w) && !Nullish(w)
    requires Group(w, "or", " OR ").Success? && HasGroup(w, "or")
    requires |GetNamed(w, "or").items| >= 2
    ensures !Enclosed(Group(w, "or", " OR ").value[0])
  {
    GroupValue(w, "or", " OR ");
    var children := GetNamed(w, "or").items;
    var rendered := RenderedChildren(children);
    var parts := Parenthesise(rendered);
    var r0 := rendered[0];
    BuildWhereBalanced(children[0]) by {
      ParenFreeChild(w, "or", 0);
    }
    var rest := Join(parts[1..], " OR ");
    assert Group(w, "or", " OR ").value[0] == "(" + r0 + ")" + " OR " + rest;
    ClosesEarly(r0, " OR " + rest);
    assert "(" + r0 + ")" + " OR " + rest == "(" + r0 + ")" + (" OR " + rest);
  }

  /** A balanced operand in parentheses followed by more text is not one
      enclosed operand: the closing parenthesis comes too early. */
  lemma ClosesEarly(r: string, more: string)
    requires Balanced(r) && |more| > 0
    ensures !Enclosed("(" + r + ")" + more)
  {
    var f := "(" + r + ")" + more;
    var t := f[1..|f| - 1];
    var head := r + ")";
    assert t == head + t[|head|..] by {
      forall i | 0 <= i < |head| ensures t[i] == head[i] {
        assert t[i] == f[i + 1];
      }
      assert t[..|head|] == head;
    }
    ScanAppend(r, ")", 0);
    ScanAppend(head, t[|head|..], 0);
  }

  /** The elements of a group inside a parenthesis-free where are parenthesis-free. */
  lemma ParenFreeChild(w: JsValue, name: string, j: nat)
    requires ParenFreeValue(w) && GetNamed(w, name).Arr? && j < |GetNamed(w, name).items|
    ensures ParenFreeValue(GetNamed(w, name).items[j])
  {
    LookupParenFree(w, name);
  }

  /** Without an `and` group, the `or` fragment is followed directly by
      `" AND "` and the field clauses, with nothing around it. (The last
      two requirements follow from the first; they name the parts.) */
  lemma OrFragmentThenAnd(w: JsValue)
    requires BuildWhere(w).Success? && !HasGroup(w, "and") && HasGroup(w, "or")
    requires |FieldEntries(Entries(w))| > 0
    requires Group(w, "or", " OR ").Success? && |Group(w, "or", " OR ").value| == 1
    requires FieldClauses(Entries(w)).Success?
    ensures BuildWhere(w).value ==
      Group(w, "or", " OR ").value[0] + " AND " + Join(FieldClauses(Entries(w)).value, " AND ")
  {
    ClausesLayout(w);
    GroupValue(w, "and", " AND ");
    GroupValue(w, "or", " OR ");
    FieldClausesValue(Entries(w));
    var cs := Clauses(w).value;
    var frag := Group(w, "or", " OR ").value[0];
    var fs := FieldClauses(Entries(w)).value;
    assert cs == [frag] + fs;
    JoinAppend([frag], fs, " AND ");
  }

  /** A field whose condition is a number has no operator property, so it
      takes the shorthand: `key = <number>`. */
  lemma NumberField(key: string, text: string)
    ensures Clause(key, Num(text)) == Success(key + " = " + text)
  {
    ShorthandFallback(key, Num(text));
  }

  /** An `or` of two alternatives followed by one numeric field renders as
      the two parenthesised alternatives, `OR`, then `AND` and the field,
      with nothing enclosing the alternatives. */
  lemma OrOfTwoThenField(x: JsValue, y: JsValue, sx: string, sy: string, key: string, text: string)
    requires BuildWhere(x) == Success(sx) && BuildWhere(y) == Success(sy)
    requires !IsGroupKey(key)
    ensures BuildWhere(Obj([Prop("or", Arr([x, y])), Prop(key, Num(text))])) ==
      Success((("(" + sx + ")") + " OR " + ("(" + sy + ")")) + " AND " + (key + " = " + text))
  {
    var w := Obj([Prop("or", Arr([x, y])), Prop(key, Num(text))]);
    var frag := ("(" + sx + ")") + " OR " + ("(" + sy + ")");
    var clause := key + " = " + text;
    OrGroupOfTwo(w, x, y, sx, sy);
    assert FindKey(w.props, "and") == 2;
    assert Group(w, "and", " AND ") == Success([]);
    OrThenFieldClauses(Arr([x, y]), key, text);
    var cs := [frag, clause];
    assert [] + [frag] + [clause] == cs;
    assert Clauses(w) == Success(cs);
    assert Join(cs, " AND ") == frag + " AND " + clause by {
      assert cs[1..] == [clause];
    }
  }

  /** The `or` fragment of two alternatives that render as `sx` and `sy`. */
  lemma OrGroupOfTwo(w: JsValue, x: JsValue, y: JsValue, sx: string, sy: string)
    requires w.Obj? && |w.props| > 0 && w.props[0] == Prop("or", Arr([x, y]))
    requires BuildWhere(x) == Success(sx) && BuildWhere(y) == Success(sy)
    ensures Group(w, "or", " OR ") == Success([("(" + sx + ")") + " OR " + ("(" + sy + ")")])
  {
    var children := [x, y];
    var rs := seq(|children|, j requires 0 <= j < |children| => BuildWhere(children[j]));
    assert rs[0] == Success(sx) && rs[1] == Success(sy);
    var rendered := Collect(rs).value;
    assert rendered == [sx, sy] by {
      assert |rendered| == 2 && rendered[0] == sx && rendered[1] == sy;
    }
    var parts := Parenthesise(rendered);
    assert parts == ["(" + sx + ")", "(" + sy + ")"];
    assert Join(parts, " OR ") == ("(" + sx + ")") + " OR " + ("(" + sy + ")") by {
      assert parts[1..] == ["(" + sy + ")"];
    }
    assert FindKey(w.props, "or") == 0;
  }

  /** The loop skips the `or` entry and writes the shorthand for the number field. */
  lemma OrThenFieldClauses(v: JsValue, key: string, text: string)
    requires !IsGroupKey(key)
    ensures FieldClauses([Prop("or", v), Prop(key, Num(text))]) == Success([key + " = " + text])
  {
    var es := [Prop("or", v), Prop(key, Num(text))];
    var one := [Prop(key, Num(text))];
    NumberField(key, text);
    assert FieldClauses(one[1..]) == Success([]);
    assert [key + " = " + text] + [] == [key + " = " + text];
    assert FieldClauses(one) == Success([key + " = " + text]);
    assert es[1..] == one;
  }

  /** The input of the finding: `{or: [{a: 1}, {b: 2}], c: 3}` renders as
      `(a = 1) OR (b = 2) AND c = 3`, which SQL groups as
      `a = 1 OR (b = 2 AND c = 3)`. */
  lemma OrPrecedenceExample()
    ensures BuildWhere(Obj([Prop("or", Arr([Obj([Prop("a", Num("1"))]), Obj([Prop("b", Num("2"))])])),
                            Prop("c", Num("3"))]))
         == Success("(a = 1) OR (b = 2) AND c = 3")
  {
    var sa := "a" + " = " + "1";
    var sb := "b" + " = " + "2";
    SingleField("a", Num("1"));
    NumberField("a", "1");
    SingleField("b", Num("2"));
    NumberField("b", "2");
    OrOfTwoThenField(Obj([Prop("a", Num("1"))]), Obj([Prop("b", Num("2"))]), sa, sb, "c", "3");
    ExampleText();
  }

  /** The pieces of the example's rendering, concatenated. */
  lemma ExampleText()
    ensures (("(" + ("a" + " = " + "1") + ")") + " OR " + ("(" + ("b" + " = " + "2") + ")")) + " AND " + ("c" + " = " + "3")
         == "(a = 1) OR (b = 2) AND c = 3"
  {
  }

  // ---------------------------------------------------------------------
  // The renderer with each group fragment enclosed

  /** `buildWhere` with `clauses.push(`(${and})`)` and `clauses.push(`(${or})`)`. */
  function EnclosedWhere(w: JsValue): Result<string, TypeError>
    decreases w, 2
  {
    var clauses :- EnclosedClauses(w);
    Success(Join(clauses, " AND "))
  }

  function EnclosedClauses(w: JsValue): Result<seq<string>, TypeError>
    decreases w, 1
  {
    if Nullish(w) then Failure(ReadOfNullish("and"))
    else
      var andPart :- EnclosedGroup(w, "and", " AND ");
      var orPart :- EnclosedGroup(w, "or", " OR ");
      var fieldPart :- FieldClauses(Entries(w));
      Success(andPart + orPart + fieldPart)
  }

  /** A group fragment as the code builds it, in one more pair of parentheses. */
  function EnclosedGroup(w: JsValue, name: string, sep: string): Result<seq<string>, TypeError>
    decreases w, 0
  {
    match w
    case Obj(props) =>
      var i := FindKey(props, name);
      if i == |props| || !Truthy(props[i].value) then Success([])
      else
        (match props[i].value
         case Arr(children) =>
           var rendered :- Collect(seq(|children|, j requires 0 <= j < |children| => EnclosedWhere(children[j])));
           Success(["(" + Join(Parenthesise(rendered), sep) + ")"])
         case _ => Failure(NotAFunction("map")))
    case _ => Success([])
  }

  /** Enclosing the fragments changes no error: the corrected renderer
      accepts exactly the well-shaped where values, like the code. */
  lemma {:induction false} EnclosedSucceedsIff(w: JsValue)
    ensures EnclosedWhere(w).Success? <==> WellShaped(w)
    decreases w, 3
  {
    EnclosedClausesSucceedIff(w);
  }

  lemma {:induction false} EnclosedClausesSucceedIff(w: JsValue)
    ensures EnclosedClauses(w).Success? <==> WellShaped(w)
    decreases w, 2
  {
    if !Nullish(w) {
      EnclosedGroupSucceedsIff(w, "and", " AND ");
      EnclosedGroupSucceedsIff(w, "or", " OR ");
      FieldClausesSucceedIff(Entries(w));
    }
  }

  lemma {:induction false} EnclosedGroupSucceedsIff(w: JsValue, name: string, sep: string)
    ensures EnclosedGroup(w, name, sep).Success? <==> GroupOk(w, name)
    decreases w, 1
  {
    match w
    case Obj(props) =>
      var i := FindKey(props, name);
      if i < |props| && Truthy(props[i].value) && props[i].value.Arr? {
        var children := props[i].value.items;
        var rs := seq(|children|, j requires 0 <= j < |children| => EnclosedWhere(children[j]));
        forall j | 0 <= j < |children| ensures rs[j].Success? <==> WellShaped(children[j]) {
          EnclosedSucceedsIff(children[j]);
        }
      }
    case _ =>
  }

  /** Every parenthesis the corrected renderer writes is matched too. */
  lemma {:induction false} EnclosedBalanced(w: JsValue)
    requires ParenFreeValue(w) && EnclosedWhere(w).Success?
    ensures Balanced(EnclosedWhere(w).value)
    decreases w, 3
  {
    EnclosedClausesBalanced(w);
    BalancedJoin(EnclosedClauses(w).value, " AND ");
  }

  lemma {:induction false} EnclosedClausesBalanced(w: JsValue)
    requires ParenFreeValue(w) && EnclosedClauses(w).Success?
    ensures forall k :: 0 <= k < |EnclosedClauses(w).value| ==> Balanced(EnclosedClauses(w).value[k])
    decreases w, 2
  {
    EnclosedGroupBalanced(w, "and", " AND ");
    EnclosedGroupBalanced(w, "or", " OR ");
    EntriesParenFree(w);
    FieldClausesBalanced(Entries(w));
  }

  /** A group fragment of the corrected renderer is one enclosed operand. */
  lemma {:induction false} EnclosedGroupBalanced(w: JsValue, name: string, sep: string)
    requires ParenFreeValue(w) && ParenFree(sep) && EnclosedGroup(w, name, sep).Success?
    ensures forall k :: 0 <= k < |EnclosedGroup(w, name, sep).value| ==>
      Balanced(EnclosedGroup(w, name, sep).value[k]) && Enclosed(EnclosedGroup(w, name, sep).value[k])
    decreases w, 1
  {
    match w
    case Obj(props) =>
      var i := FindKey(props, name);
      if i < |props| && Truthy(props[i].value) {
        var children := props[i].value.items;
        var rs := seq(|children|, j requires 0 <= j < |children| => EnclosedWhere(children[j]));
        var rendered := Collect(rs).value;
        var parts := Parenthesise(rendered);
        forall k | 0 <= k < |parts| ensures Balanced(parts[k]) {
          assert rs[k].Success?;
          EnclosedBalanced(children[k]);
          BalancedWrap(rendered[k]);
        }
        ParenFreeIsBalanced(sep);
        BalancedJoin(parts, sep);
        var inner := Join(parts, sep);
        BalancedWrap(inner);
        var e := "(" + inner + ")";
        assert e[1..|e| - 1] == inner;
      }
    case _ =>
  }

  /** The evidently intended shape: the top level is the group fragments,
      each one enclosed operand, followed by the field clauses of the code;
      every clause joined by `" AND "` is a single conjunct. */
  lemma GroupsEnclosed(w: JsValue)
    requires ParenFreeValue(w) && EnclosedClauses(w).Success?
    ensures var cs := EnclosedClauses(w).value;
      var g := Count(HasGroup(w, "and")) + Count(HasGroup(w, "or"));
      && FieldClauses(Entries(w)).Success?
      && |cs| == g + |FieldClauses(Entries(w)).value|
      && (forall k :: 0 <= k < g ==> Enclosed(cs[k]))
      && cs[g..] == FieldClauses(Entries(w)).value
  {
    EnclosedGroupBalanced(w, "and", " AND ");
    EnclosedGroupBalanced(w, "or", " OR ");
    EnclosedGroupCount(w, "and", " AND ");
    EnclosedGroupCount(w, "or", " OR ");
  }

  lemma EnclosedGroupCount(w: JsValue, name: string, sep: string)
    requires !Nullish(w) && EnclosedGroup(w, name, sep).Success?
    ensures |EnclosedGroup(w, name, sep).value| == Count(HasGroup(w, name))
  {
  }

  /** Without a truthy `and` or `or` the correction changes nothing. */
  lemma AgreesWithoutGroups(w: JsValue)
    requires !HasGroup(w, "and") && !HasGroup(w, "or")
    ensures EnclosedWhere(w) == BuildWhere(w)
  {
    if !Nullish(w) {
      assert EnclosedGroup(w, "and", " AND ") == Group(w, "and", " AND ") == Success([]);
      assert EnclosedGroup(w, "or", " OR ") == Group(w, "or", " OR ") == Success([]);
    }
  }
}
