/** `buildOrder`: LoopBack order tokens such as `"age DESC"` turned into a
    TypeORM `OrderByCondition` object mapping field names to directions. */
module OrderBy {
  import opened Wrappers

  datatype Direction = Asc | Desc

  function DirectionText(d: Direction): string
  {
    match d
    case Asc => "ASC"
    case Desc => "DESC"
  }

  /** One property of the resulting object: a field and its direction. */
  datatype Ordering = Ordering(field: string, dir: Direction)

  /** The characters JavaScript's `\s` class matches. */
  predicate IsWhitespace(c: char)
  {
    || c == '\t' || c == '\n' || c == '\U{000B}' || c == '\U{000C}' || c == '\r'
    || c == ' ' || c == '\U{00A0}' || c == '\U{1680}'
    || ('\U{2000}' <= c <= '\U{200A}')
    || c == '\U{2028}' || c == '\U{2029}' || c == '\U{202F}' || c == '\U{205F}'
    || c == '\U{3000}' || c == '\U{FEFF}'
  }

  /** A string the group `([^\s]+)` matches in full. */
  predicate IsFieldName(f: string)
  {
    |f| > 0 && forall i :: 0 <= i < |f| ==> !IsWhitespace(f[i])
  }

  /** The pattern `^([^\s]+)( (ASC|DESC))?$` matches `token` with group 1
      equal to `o.field` and direction `o.dir` (group 3, `ASC` when absent). */
  ghost predicate MatchesAs(token: string, o: Ordering)
  {
    && IsFieldName(o.field)
    && ((token == o.field && o.dir == Asc) || token == o.field + " " + DirectionText(o.dir))
  }

  /** Matching one token against the order pattern. */
  function ParseToken(token: string): Option<Ordering>
  {
    var n := |token|;
    if IsFieldName(token) then Some(Ordering(token, Asc))
    else if n > 4 && token[n - 4..] == " ASC" && IsFieldName(token[..n - 4]) then
      Some(Ordering(token[..n - 4], Asc))
    else if n > 5 && token[n - 5..] == " DESC" && IsFieldName(token[..n - 5]) then
      Some(Ordering(token[..n - 5], Desc))
    else None
  }

  /** `ParseToken` returns an ordering exactly when the pattern matches as
      that ordering; a token the pattern rejects gives `None`. */
  lemma ParseTokenIff(token: string, o: Ordering)
    ensures ParseToken(token) == Some(o) <==> MatchesAs(token, o)
  {
    if MatchesAs(token, o) {
      ParseTokenComplete(token, o);
    }
    if ParseToken(token) == Some(o) {
      ParseTokenSound(token);
    }
  }

  lemma ParseTokenSound(token: string)
    requires ParseToken(token).Some?
    ensures MatchesAs(token, ParseToken(token).value)
  {
    var n := |token|;
    if !IsFieldName(token) {
      if n > 4 && token[n - 4..] == " ASC" && IsFieldName(token[..n - 4]) {
        assert token == token[..n - 4] + " " + DirectionText(Asc);
      } else {
        assert token == token[..n - 5] + " " + DirectionText(Desc);
      }
    }
  }

  /** A token matches as exactly one ordering: the group-1 capture is unique. */
  lemma ParseTokenComplete(token: string, o: Ordering)
    requires MatchesAs(token, o)
    ensures ParseToken(token) == Some(o)
  {
    var n := |token|;
    if token == o.field && o.dir == Asc {
    } else {
      var suffix := " " + DirectionText(o.dir);
      assert token == o.field + suffix;
      assert token[|o.field|] == ' ';
      assert !IsFieldName(token);
      assert token[..|o.field|] == o.field;
      assert token[|o.field|..] == suffix;
      if o.dir == Desc {
        assert token[n - 4..] == suffix[1..];
        assert token[n - 4..] != " ASC";
      }
    }
  }

  /** A field followed by a direction in upper case parses back to that field and direction. */
  lemma FormatParses(field: string, dir: Direction)
    requires IsFieldName(field)
    ensures ParseToken(field + " " + DirectionText(dir)) == Some(Ordering(field, dir))
  {
    ParseTokenComplete(field + " " + DirectionText(dir), Ordering(field, dir));
  }

  /** The orderings of the tokens that match, in token order. */
  function Parsed(order: seq<string>): (ps: seq<Ordering>)
    ensures |ps| <= |order|
  {
    if |order| == 0 then []
    else
      var t := order[|order| - 1];
      match ParseToken(t)
      case None => Parsed(order[..|order| - 1])
      case Some(o) => Parsed(order[..|order| - 1]) + [o]
  }

  /** The fields an object (or a list of orderings) mentions. */
  function FieldSet(os: seq<Ordering>): set<string>
  {
    set i | 0 <= i < |os| :: os[i].field
  }

  /** No field occurs twice: a JavaScript object has each key once. */
  predicate DistinctFields(os: seq<Ordering>)
  {
    forall i, j :: 0 <= i < j < |os| ==> os[i].field != os[j].field
  }

  /** Position of the first ordering for `f`, or `|os|` when there is none. */
  function FirstIndex(os: seq<Ordering>, f: string): (i: nat)
    ensures i <= |os|
    ensures i < |os| ==> os[i].field == f
  {
    if |os| == 0 then 0
    else if os[0].field == f then 0
    else 1 + FirstIndex(os[1..], f)
  }

  lemma FieldSetCons(os: seq<Ordering>)
    requires |os| > 0
    ensures FieldSet(os) == {os[0].field} + FieldSet(os[1..])
  {
    forall g | g in FieldSet(os) ensures g in {os[0].field} + FieldSet(os[1..]) {
      var k :| 0 <= k < |os| && os[k].field == g;
      if k > 0 { assert os[1..][k - 1] == os[k]; }
    }
    forall g | g in FieldSet(os[1..]) ensures g in FieldSet(os) {
      var k :| 0 <= k < |os[1..]| && os[1..][k].field == g;
      assert os[k + 1].field == g;
    }
  }

  /** A field is found exactly when some ordering mentions it. */
  lemma {:induction false} FirstIndexFound(os: seq<Ordering>, f: string)
    ensures FirstIndex(os, f) < |os| <==> f in FieldSet(os)
    decreases |os|
  {
    if |os| > 0 {
      FieldSetCons(os);
      if os[0].field != f {
        FirstIndexFound(os[1..], f);
      }
    }
  }

  /** Appending keeps the first position of a field already present. */
  lemma {:induction false} FirstIndexSnocAt(os: seq<Ordering>, o: Ordering, f: string)
    ensures FirstIndex(os + [o], f) ==
      if FirstIndex(os, f) < |os| then FirstIndex(os, f)
      else if o.field == f then |os| else |os| + 1
    decreases |os|
  {
    if |os| == 0 {
      assert os + [o] == [o];
    } else {
      assert (os + [o])[0] == os[0];
      assert (os + [o])[1..] == os[1..] + [o];
      if os[0].field != f {
        FirstIndexSnocAt(os[1..], o, f);
      }
    }
  }

  /** The direction of the last ordering for `f`, if any. */
  function LastDirection(os: seq<Ordering>, f: string): Option<Direction>
  {
    if |os| == 0 then None
    else if os[|os| - 1].field == f then Some(os[|os| - 1].dir)
    else LastDirection(os[..|os| - 1], f)
  }

  /** `orderBy[o.field] = o.dir`: an existing key keeps its position and
      takes the new direction; a new key is appended. */
  function Assign(obj: seq<Ordering>, o: Ordering): seq<Ordering>
  {
    var i := FirstIndex(obj, o.field);
    if i < |obj| then obj[i := o] else obj + [o]
  }

  /** One iteration of the loop in `buildOrder`: a token that does not
      match is skipped, a matching one is assigned into the object. */
  function Step(obj: seq<Ordering>, token: string): seq<Ordering>
  {
    match ParseToken(token)
    case None => obj
    case Some(o) => Assign(obj, o)
  }

  /** `buildOrder(order)`: the tokens folded, in order, into an initially empty object. */
  function BuildOrder(order: seq<string>): seq<Ordering>
  {
    if |order| == 0 then [] else Step(BuildOrder(order[..|order| - 1]), order[|order| - 1])
  }

  /** The object `buildOrder` returns has one key per field of a matching
      token and no other; each key holds the direction of the last matching
      token for it; keys appear in the order their fields first matched. */
  lemma {:induction false} BuildOrderSpec(order: seq<string>)
    ensures var r := BuildOrder(order); var ps := Parsed(order);
      && DistinctFields(r)
      && FieldSet(r) == FieldSet(ps)
      && (forall k :: 0 <= k < |r| ==> LastDirection(ps, r[k].field) == Some(r[k].dir))
      && (forall i, j :: 0 <= i < j < |r| ==> FirstIndex(ps, r[i].field) < FirstIndex(ps, r[j].field))
    decreases |order|
  {
    if |order| > 0 {
      var init := order[..|order| - 1];
      var t := order[|order| - 1];
      BuildOrderSpec(init);
      StepKeepsSpec(BuildOrder(init), init, t);
      assert init + [t] == order;
    }
  }

  lemma StepKeepsSpec(obj: seq<Ordering>, init: seq<string>, token: string)
    requires Tracks(obj, Parsed(init))
    ensures Tracks(Step(obj, token), Parsed(init + [token]))
  {
    assert (init + [token])[..|init|] == init;
    match ParseToken(token)
    case None =>
    case Some(o) =>
      AssignKeepsSpec(obj, Parsed(init), o);
  }

  /** The fold takes one more token as one more step. */
  lemma BuildOrderSnoc(init: seq<string>, token: string)
    ensures BuildOrder(init + [token]) == Step(BuildOrder(init), token)
  {
    var l := init + [token];
    assert l[..|l| - 1] == init && l[|l| - 1] == token;
  }

  /** A token that does not match may be removed from anywhere in the list
      without changing the object `buildOrder` returns. */
  lemma {:induction false} SkipUnmatched(a: seq<string>, t: string, b: seq<string>)
    requires ParseToken(t).None?
    ensures BuildOrder(a + [t] + b) == BuildOrder(a + b)
    decreases |b|
  {
    if |b| == 0 {
      assert a + [t] + b == a + [t];
      assert a + b == a;
      BuildOrderSnoc(a, t);
    } else {
      var b' := b[..|b| - 1];
      var x := b[|b| - 1];
      SkipUnmatched(a, t, b');
      assert a + [t] + b == (a + [t] + b') + [x];
      assert a + b == (a + b') + [x];
      BuildOrderSnoc(a + [t] + b', x);
      BuildOrderSnoc(a + b', x);
    }
  }

  lemma ExampleTokens()
    ensures ParseToken("a DESC") == Some(Ordering("a", Desc))
    ensures ParseToken("a ASC") == Some(Ordering("a", Asc))
    ensures ParseToken("b") == Some(Ordering("b", Asc))
  {
    assert "a" + " " + DirectionText(Desc) == "a DESC";
    FormatParses("a", Desc);
    assert "a" + " " + DirectionText(Asc) == "a ASC";
    FormatParses("a", Asc);
  }

  lemma ExamplePrefix()
    ensures BuildOrder(["a DESC", "b"]) == [Ordering("a", Desc), Ordering("b", Asc)]
  {
    ExampleTokens();
    BuildOrderSnoc([], "a DESC");
    var s1 := [Ordering("a", Desc)];
    assert FirstIndex(s1, "b") == 1;
    BuildOrderSnoc(["a DESC"], "b");
  }

  /** Last write wins for the direction, but a repeated field keeps the
      position of its first token. */
  lemma RepeatedFieldExample()
    ensures BuildOrder(["a DESC", "b", "a ASC"]) == [Ordering("a", Asc), Ordering("b", Asc)]
  {
    ExampleTokens();
    ExamplePrefix();
    var s2 := [Ordering("a", Desc), Ordering("b", Asc)];
    assert FirstIndex(s2, "a") == 0;
    BuildOrderSnoc(["a DESC", "b"], "a ASC");
  }

  /** A lower-case direction does not match, so the token is dropped. */
  lemma LowerCaseDirectionDropped()
    ensures ParseToken("age desc").None?
  {
    assert !IsFieldName("age desc") by { assert "age desc"[3] == ' '; }
    var p := "age desc"[..4];
    assert p == "age " && !IsFieldName(p) by { assert p[3] == ' '; }
  }

  /** Two spaces before the direction do not match either. */
  lemma DoubleSpaceDropped()
    ensures ParseToken("a  DESC").None?
  {
    assert !IsFieldName("a  DESC") by { assert "a  DESC"[1] == ' '; }
    assert "a  DESC"[..2] == "a ";
    assert !IsFieldName("a ") by { assert "a "[1] == ' '; }
  }

  /** Any run of non-whitespace is a field name, punctuation included. */
  lemma PunctuationIsAField()
    ensures ParseToken("!!!") == Some(Ordering("!!!", Asc))
  {
  }

  /** The invariant that ties an object built by assignments to the orderings
      assigned so far: one key per field, the last direction, first-seen order. */
  ghost predicate Tracks(obj: seq<Ordering>, ps: seq<Ordering>)
  {
    && DistinctFields(obj)
    && FieldSet(obj) == FieldSet(ps)
    && HasLastDirections(obj, ps)
    && InFirstSeenOrder(obj, ps)
  }

  ghost predicate HasLastDirections(obj: seq<Ordering>, ps: seq<Ordering>)
  {
    forall k :: 0 <= k < |obj| ==> LastDirection(ps, obj[k].field) == Some(obj[k].dir)
  }

  ghost predicate InFirstSeenOrder(obj: seq<Ordering>, ps: seq<Ordering>)
  {
    forall i, j :: 0 <= i < j < |obj| ==> FirstIndex(ps, obj[i].field) < FirstIndex(ps, obj[j].field)
  }

  /** One assignment keeps the object in step with the parsed orderings. */
  lemma AssignKeepsSpec(obj: seq<Ordering>, ps: seq<Ordering>, o: Ordering)
    requires Tracks(obj, ps)
    ensures Tracks(Assign(obj, o), ps + [o])
  {
    FieldSetSnoc(ps, o);
    FirstIndexSnoc(ps, o);
    FieldsInSet(obj);
    var i := FirstIndex(obj, o.field);
    if i < |obj| {
      var r := obj[i := o];
      assert forall k :: 0 <= k < |r| ==> r[k].field == obj[k].field;
      assert FieldSet(r) == FieldSet(obj) by { SameFieldsSameSet(r, obj); }
      ExistingLast(obj, ps, o, i);
      ExistingFirst(obj, ps, o, i);
    } else {
      FirstIndexFound(obj, o.field);
      FieldSetSnoc(obj, o);
      NewLast(obj, ps, o);
      KeptBefore(obj, ps, o);
      NewFirst(obj, ps, ps + [o], o, |ps|);
    }
  }

  lemma FieldsInSet(os: seq<Ordering>)
    ensures forall k :: 0 <= k < |os| ==> os[k].field in FieldSet(os)
  {
  }

  lemma SameFieldsSameSet(a: seq<Ordering>, b: seq<Ordering>)
    requires |a| == |b|
    requires forall k :: 0 <= k < |a| ==> a[k].field == b[k].field
    ensures FieldSet(a) == FieldSet(b)
  {
    forall g | g in FieldSet(a) ensures g in FieldSet(b) {
      var k :| 0 <= k < |a| && a[k].field == g;
    }
    forall g | g in FieldSet(b) ensures g in FieldSet(a) {
      var k :| 0 <= k < |b| && b[k].field == g;
      assert a[k].field == g;
    }
  }

  lemma ExistingLast(obj: seq<Ordering>, ps: seq<Ordering>, o: Ordering, i: nat)
    requires DistinctFields(obj) && HasLastDirections(obj, ps)
    requires i < |obj| && obj[i].field == o.field
    ensures HasLastDirections(obj[i := o], ps + [o])
  {
    var r := obj[i := o];
    forall k | 0 <= k < |r| ensures LastDirection(ps + [o], r[k].field) == Some(r[k].dir) {
      LastDirectionSnoc(ps, o, r[k].field);
      if k != i {
        assert r[k] == obj[k];
      }
    }
  }

  lemma ExistingFirst(obj: seq<Ordering>, ps: seq<Ordering>, o: Ordering, i: nat)
    requires InFirstSeenOrder(obj, ps)
    requires forall k :: 0 <= k < |obj| ==> obj[k].field in FieldSet(ps)
    requires forall f :: f in FieldSet(ps) ==> FirstIndex(ps + [o], f) == FirstIndex(ps, f)
    requires i < |obj| && obj[i].field == o.field
    ensures InFirstSeenOrder(obj[i := o], ps + [o])
  {
    var r := obj[i := o];
    forall a, b | 0 <= a < b < |r| ensures FirstIndex(ps + [o], r[a].field) < FirstIndex(ps + [o], r[b].field) {
      assert r[a].field == obj[a].field && r[b].field == obj[b].field;
    }
  }

  lemma NewLast(obj: seq<Ordering>, ps: seq<Ordering>, o: Ordering)
    requires HasLastDirections(obj, ps)
    requires forall k :: 0 <= k < |obj| ==> obj[k].field != o.field
    ensures HasLastDirections(obj + [o], ps + [o])
  {
    var r := obj + [o];
    forall k | 0 <= k < |r| ensures LastDirection(ps + [o], r[k].field) == Some(r[k].dir) {
      LastDirectionSnoc(ps, o, r[k].field);
      if k < |obj| {
        assert r[k] == obj[k];
      }
    }
  }

  /** Appending a field whose first position comes after every kept one
      keeps the object in first-seen order; `later` is the extended list. */
  lemma NewFirst(obj: seq<Ordering>, ps: seq<Ordering>, later: seq<Ordering>, o: Ordering, n: nat)
    requires InFirstSeenOrder(obj, ps)
    requires forall k :: 0 <= k < |obj| ==> FirstIndex(later, obj[k].field) == FirstIndex(ps, obj[k].field) < n
    requires FirstIndex(later, o.field) == n
    ensures InFirstSeenOrder(obj + [o], later)
  {
    var r := obj + [o];
    forall a, b | 0 <= a < b < |r| ensures FirstIndex(later, r[a].field) < FirstIndex(later, r[b].field) {
      assert r[a] == obj[a];
      if b < |obj| {
        assert r[b] == obj[b];
      }
    }
  }

  /** Fields already in the object keep their first positions, all before the appended token. */
  lemma KeptBefore(obj: seq<Ordering>, ps: seq<Ordering>, o: Ordering)
    requires forall k :: 0 <= k < |obj| ==> obj[k].field in FieldSet(ps)
    requires forall f :: f in FieldSet(ps) ==> FirstIndex(ps + [o], f) == FirstIndex(ps, f)
    ensures forall k :: 0 <= k < |obj| ==> FirstIndex(ps + [o], obj[k].field) == FirstIndex(ps, obj[k].field) < |ps|
  {
    forall k | 0 <= k < |obj| ensures FirstIndex(ps + [o], obj[k].field) == FirstIndex(ps, obj[k].field) < |ps| {
      FirstIndexFound(ps, obj[k].field);
    }
  }

  lemma LastDirectionSnoc(ps: seq<Ordering>, o: Ordering, f: string)
    ensures LastDirection(ps + [o], f) == if o.field == f then Some(o.dir) else LastDirection(ps, f)
  {
    assert (ps + [o])[..|ps|] == ps;
  }

  lemma FieldSetSnoc(os: seq<Ordering>, o: Ordering)
    ensures FieldSet(os + [o]) == FieldSet(os) + {o.field}
  {
    var os' := os + [o];
    forall g | g in FieldSet(os') ensures g in FieldSet(os) + {o.field} {
      var k :| 0 <= k < |os'| && os'[k].field == g;
      if k < |os| { assert os'[k] == os[k]; }
    }
    forall g | g in FieldSet(os) ensures g in FieldSet(os') {
      var k :| 0 <= k < |os| && os[k].field == g;
      assert os'[k] == os[k];
    }
    assert os'[|os|] == o;
  }

  lemma FirstIndexSnoc(os: seq<Ordering>, o: Ordering)
    ensures forall f :: f in FieldSet(os) ==> FirstIndex(os + [o], f) == FirstIndex(os, f)
    ensures o.field !in FieldSet(os) ==> FirstIndex(os + [o], o.field) == |os|
  {
    forall f | f in FieldSet(os) ensures FirstIndex(os + [o], f) == FirstIndex(os, f) {
      FirstIndexFound(os, f);
      FirstIndexSnocAt(os, o, f);
    }
    if o.field !in FieldSet(os) {
      FirstIndexFound(os, o.field);
      FirstIndexSnocAt(os, o, o.field);
    }
  }

  // ---------------------------------------------------------------------
  // The four properties determine the object

  lemma FieldSetTail(os: seq<Ordering>)
    requires |os| > 0 && DistinctFields(os)
    ensures FieldSet(os[1..]) == FieldSet(os) - {os[0].field}
  {
    FieldSetCons(os);
    forall g | g in FieldSet(os[1..]) ensures g != os[0].field {
      var k :| 0 <= k < |os[1..]| && os[1..][k].field == g;
      assert os[k + 1].field == g;
    }
  }

  lemma FieldSetEmpty(os: seq<Ordering>)
    ensures |os| == 0 <==> FieldSet(os) == {}
  {
    if |os| > 0 {
      assert os[0].field in FieldSet(os);
    }
  }

  /** Two objects with distinct fields, the same field set and the same
      first-seen order list the same fields in the same order. */
  lemma {:induction false} SameOrderSameFields(a: seq<Ordering>, b: seq<Ordering>, ps: seq<Ordering>)
    requires DistinctFields(a) && DistinctFields(b) && FieldSet(a) == FieldSet(b)
    requires InFirstSeenOrder(a, ps) && InFirstSeenOrder(b, ps)
    ensures |a| == |b|
    ensures forall k :: 0 <= k < |a| ==> a[k].field == b[k].field
    decreases |a|
  {
    FieldSetEmpty(a);
    FieldSetEmpty(b);
    if |a| > 0 {
      assert a[0].field in FieldSet(b);
      assert |b| > 0;
      assert b[0].field in FieldSet(a);
      var j :| 0 <= j < |b| && b[j].field == a[0].field;
      var m :| 0 <= m < |a| && a[m].field == b[0].field;
      assert j == 0;
      FieldSetTail(a);
      FieldSetTail(b);
      SameOrderSameFields(a[1..], b[1..], ps);
      forall k | 0 < k < |a| ensures a[k].field == b[k].field {
        assert a[1..][k - 1] == a[k] && b[1..][k - 1] == b[k];
      }
    }
  }

  /** The properties of `BuildOrderSpec` pin the object down: any object
      with them is the one `buildOrder` returns. */
  lemma BuildOrderUnique(order: seq<string>, r: seq<Ordering>)
    requires DistinctFields(r)
    requires FieldSet(r) == FieldSet(Parsed(order))
    requires forall k :: 0 <= k < |r| ==> LastDirection(Parsed(order), r[k].field) == Some(r[k].dir)
    requires forall i, j :: 0 <= i < j < |r| ==> FirstIndex(Parsed(order), r[i].field) < FirstIndex(Parsed(order), r[j].field)
    ensures r == BuildOrder(order)
  {
    var ps := Parsed(order);
    var b := BuildOrder(order);
    BuildOrderSpec(order);
    SameOrderSameFields(r, b, ps);
    forall k | 0 <= k < |r| ensures r[k] == b[k] {
      assert LastDirection(ps, b[k].field) == Some(b[k].dir);
    }
  }
}
