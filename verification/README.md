# LoopBack filter compiler for TypeORM, in Dafny

The TypeORM repository of this LoopBack 4 example turns a LoopBack filter into calls on a
TypeORM query builder. This project models the pure part of that translation:

- `buildOrder`: a list of order tokens such as `"age DESC"` becomes an object that maps each
  field to `ASC` or `DESC`.
- `buildWhere`: a where object becomes one predicate string. It handles `and`/`or` groups, the
  operators `eq`, `neq`, `lt`, `lte`, `gt`, `gte`, `inq` and `between`, and the shorthand
  `{x: 1}`.
- `buildQuery`, `buildUpdate` and `buildDelete`: decide which parts of a filter (limit, offset,
  field projection, order and where) reach the builder.

The where value is typed `any` in the repository, so the model takes an arbitrary JavaScript
value. It is a `JsValue` datatype: `undefined`, `null`, booleans, numbers (carried as their
string form), strings, arrays, and plain objects (their properties kept in enumeration order).
The model spells out the few language rules the code depends on:

- truthiness;
- template-literal string conversion (arrays are joined with `,`, and null elements become `""`);
- property reads;
- `for...in` and `Object.keys`;
- the `TypeError`s thrown when reading a property of `null`/`undefined` or calling `map`/`join`
  on something that is not an array.

A thrown error is a `Failure` of a `Result`.

An ordering object is a sequence of `Ordering(field, dir)` with distinct fields. It is kept in
insertion order, because assigning to a key the object already has keeps that key's position.
Integer-like keys and `__proto__` are the exceptions; "## Left out" says how.

The builder calls are recorded in a `SelectQuery`, `UpdateQuery` or `DeleteQuery` value. Each
part is `None` when the corresponding call is never made.

Modules and files:

- `wrappers.dfy`: `Option` and `Result`.
- `joins.dfy`: `Array.prototype.join` on strings.
- `js_values.dfy`: the `JsValue` datatype and the language rules above.
- `grouping.dfy`: parenthesis nesting in strings.
- `order_by.dfy`: `buildOrder`.
- `where_clause.dfy`: `buildWhere`.
- `where_laws.dfy`: what `buildWhere` promises.
- `query.dfy`: the assembly, with `buildWhere` as the code has it.
- `where_nesting.dfy`: every parenthesis `buildWhere` writes is matched.
- `where_enclosed.dfy`: the `or` fragment's missing parentheses (see "## Findings"), and a
  renderer that encloses each group fragment.

Behaviour of the code worth knowing, all of it stated in the model:

- `buildOrder` assigns into an object, so a repeated field appears once. Its direction is the
  last one given, and it keeps the position of its first appearance.
- The order pattern `[^\s]+` accepts any run of non-whitespace, so `"!!!"` is a field name.
- A falsy where attaches no predicate at all. An empty where object `{}` is truthy, so it
  attaches the empty string.
- `and` and `or` are both handled when both are present: the `and` fragment comes first, then
  the `or` fragment.

## Model

| member | source | states |
|---|---|---|
| OrderBy.ParseToken | src/repositories/typeorm-repository.ts:180-182 | the regular-expression match of one token and its direction, `ASC` when the suffix is absent; its meaning is stated by `ParseTokenIff`, `ParseTokenSound` and `ParseTokenComplete` against an independent reading of the pattern |
| OrderBy.Assign | src/repositories/typeorm-repository.ts:183 | `orderBy[field] = dir` on an insertion-ordered object; `AssignKeepsSpec` and `FirstIndexFound` state what it does |
| OrderBy.Step | src/repositories/typeorm-repository.ts:179-184 | one iteration of the `for...of` loop: skip a non-matching token, otherwise assign; `StepKeepsSpec` and `SkipUnmatched` state it |
| OrderBy.BuildOrder | src/repositories/typeorm-repository.ts:177-186 | the fold over the tokens; `BuildOrderSpec` states its keys, directions and key order, and `BuildOrderUnique` shows those determine it |
| OrderBy.ParseTokenIff | src/repositories/typeorm-repository.ts:180-182 | a token yields ordering `o` exactly when the order pattern (a run of non-whitespace, optionally one space and `ASC` or `DESC`) matches it with field `o.field` and direction `o.dir`, and the direction is `ASC` when the suffix is absent |
| OrderBy.ParseTokenSound | src/repositories/typeorm-repository.ts:180-182 | every ordering a token yields is a match of the pattern |
| OrderBy.ParseTokenComplete | src/repositories/typeorm-repository.ts:180-182 | a matching token yields exactly the field and direction of its match, so the capture is unique |
| OrderBy.FormatParses | src/repositories/typeorm-repository.ts:180-183 | `field + " " + ASC/DESC` parses back to that field and direction |
| OrderBy.LowerCaseDirectionDropped | src/repositories/typeorm-repository.ts:180-181 | `"age desc"` does not match, so the token is skipped |
| OrderBy.DoubleSpaceDropped | src/repositories/typeorm-repository.ts:180-181 | `"a  DESC"` (two spaces) does not match |
| OrderBy.PunctuationIsAField | src/repositories/typeorm-repository.ts:180-182 | `"!!!"` matches as a field with direction `ASC` |
| OrderBy.BuildOrderSpec | src/repositories/typeorm-repository.ts:177-186 | the result has each field of a matching token exactly once and no other field, each with the direction of the last matching token for it, in the order the fields first matched |
| OrderBy.BuildOrderUnique | src/repositories/typeorm-repository.ts:177-186 | those four properties determine the result: any ordering list that has them is the one `buildOrder` returns |
| OrderBy.StepKeepsSpec | src/repositories/typeorm-repository.ts:179-184 | one loop iteration keeps that invariant for the tokens read so far |
| OrderBy.AssignKeepsSpec | src/repositories/typeorm-repository.ts:183 | `orderBy[field] = dir` keeps the invariant: an existing key is overwritten in place, and a new key is appended |
| OrderBy.SkipUnmatched | src/repositories/typeorm-repository.ts:180-181 | a non-matching token can be removed from anywhere in the list without changing the result |
| OrderBy.BuildOrderSnoc | src/repositories/typeorm-repository.ts:179-184 | the tokens are consumed left to right, one step each |
| OrderBy.RepeatedFieldExample | src/repositories/typeorm-repository.ts:177-186 | `["a DESC", "b", "a ASC"]` gives `{a: ASC, b: ASC}`, with `a` still first |
| OrderBy.ExamplePrefix | src/repositories/typeorm-repository.ts:177-186 | `["a DESC", "b"]` gives `{a: DESC, b: ASC}` |
| OrderBy.FirstIndexFound | src/repositories/typeorm-repository.ts:183 | a key lookup finds a field exactly when some entry has it |
| WhereClause.BuildWhere | src/repositories/typeorm-repository.ts:215-260 | the clauses joined with `" AND "`; specified by `BuildWhereSucceedsIff`, `ClausesLayout` and `BuildWhereBalanced` |
| WhereClause.Clauses | src/repositories/typeorm-repository.ts:216-258 | the `and` fragment, the `or` fragment and the field clauses, or the first error thrown; specified by `ClausesLayout` |
| WhereClause.Group | src/repositories/typeorm-repository.ts:217-228 | one `and`/`or` fragment; specified by `GroupSucceedsIff` and `GroupValue` |
| WhereClause.FieldClauses | src/repositories/typeorm-repository.ts:230-258 | the `for...in` loop over the keys other than `and`/`or`; specified by `FieldClausesSucceedIff` and `FieldClausesValue` |
| WhereClause.Clause | src/repositories/typeorm-repository.ts:233-256 | one field's clause, reading `condition` and throwing when it is null or undefined; specified by `ConditionOkIff` and `ClauseByTable` |
| WhereClause.Chain | src/repositories/typeorm-repository.ts:234-256 | the `else if` chain over the operators in source order; specified by `ChainIsFirstTruthy` |
| WhereClause.Template | src/repositories/typeorm-repository.ts:234-252 | the template of each operator, including the `inq` join that throws on a non-array and the `between` index reads; specified by `ComparisonField` and `ConditionOkIff` |
| WhereClause.Collect | src/repositories/typeorm-repository.ts:218-220 | mapping over the group elements succeeds exactly when every element renders, keeps the elements' order, and otherwise throws the error of the first element that fails |
| WhereClause.SelectedByPriority | src/repositories/typeorm-repository.ts:234-256 | the operator at rank `i` of eq, neq, lt, lte, gt, gte, inq, between is chosen exactly when its property is truthy and every earlier one is falsy; no operator is chosen exactly when all are falsy |
| WhereClause.FirstTruthyIff | src/repositories/typeorm-repository.ts:234-252 | in an `else if` chain over distinct operators, the `i`-th branch is taken exactly when its test is truthy and every earlier test is falsy |
| WhereClause.FirstTruthyNone | src/repositories/typeorm-repository.ts:253-255 | the final `else` is reached exactly when every test is falsy |
| WhereClause.ClauseByTable | src/repositories/typeorm-repository.ts:233-256 | the chain of tests writes the template of the chosen operator, or the shorthand equality when none is chosen |
| WhereClause.ChainIsFirstTruthy | src/repositories/typeorm-repository.ts:234-256 | every tail of the chain writes the template of the first truthy operator in that tail |
| WhereLaws.BuildWhereSucceedsIff | src/repositories/typeorm-repository.ts:215-260 | `buildWhere` returns exactly when the where is well shaped: not null or undefined, every truthy `and`/`or` an array of well-shaped where values, and no other value null, undefined, or with a chosen `inq` that is not an array; otherwise it throws |
| WhereLaws.ConditionOkIff | src/repositories/typeorm-repository.ts:233-256 | one field's clause throws exactly when its condition is null or undefined, or its chosen operator is `inq` with a non-array value |
| WhereLaws.GroupSucceedsIff | src/repositories/typeorm-repository.ts:217-228 | an `and`/`or` group throws exactly when its property is truthy and is either not an array or has an element that throws |
| WhereLaws.FieldClausesSucceedIff | src/repositories/typeorm-repository.ts:230-258 | the `for...in` loop throws exactly when some entry other than `and`/`or` has a condition that throws |
| WhereLaws.ClausesLayout | src/repositories/typeorm-repository.ts:216-259 | the clauses come in this order: the `and` fragment exactly when `and` is truthy, then the `or` fragment exactly when `or` is truthy, then one clause per other entry in enumeration order; nothing else is emitted |
| WhereLaws.GroupValue | src/repositories/typeorm-repository.ts:217-228 | a group yields one fragment when its property is truthy and none otherwise; the fragment is the parenthesised renderings of the elements joined by the separator |
| WhereLaws.FieldClausesValue | src/repositories/typeorm-repository.ts:230-258 | there is one field clause per entry whose key is not `and`/`or`, in entry order, and each is that entry's clause |
| WhereLaws.FieldEntriesMembers | src/repositories/typeorm-repository.ts:232 | an entry reaches the clause template exactly when its key is neither `and` nor `or` |
| WhereLaws.FieldEntriesAppend | src/repositories/typeorm-repository.ts:230-232 | skipping `and`/`or` keeps the other entries in their relative order |
| WhereLaws.ArrayWhereClauses | src/repositories/typeorm-repository.ts:230-258 | an array used as a where yields one clause per element, in order, each keyed by the element's index in decimal |
| WhereLaws.EmptyWhere | src/repositories/typeorm-repository.ts:216-259 | a where with nothing to enumerate, such as `{}`, renders as `""` |
| WhereLaws.NullishWhereThrows | src/repositories/typeorm-repository.ts:217 | a null or undefined where throws when `and` is read |
| WhereLaws.SingleOperator | src/repositories/typeorm-repository.ts:234-256 | a condition with a single truthy operator property uses that operator's template, whatever its rank |
| WhereLaws.SingleField | src/repositories/typeorm-repository.ts:230-259 | a where with one field key renders as that field's clause, and throws what the clause throws |
| WhereLaws.ComparisonField | src/repositories/typeorm-repository.ts:234-245 | `{k: {op: v}}` with truthy `v` and a one-operand operator renders as `k <symbol> v` |
| WhereLaws.ShorthandFallback | src/repositories/typeorm-repository.ts:253-255 | with no truthy operator property, the clause is `key = ` followed by the condition converted to a string, so `{eq: 0}` falls through |
| WhereLaws.EmptyGroup | src/repositories/typeorm-repository.ts:217-221 | an empty `and` array is truthy and yields the empty fragment `""` |
| WhereLaws.OperatorNamedInverse | src/repositories/typeorm-repository.ts:234-252 | each operator reads its own property name, and no two operators share one |
| WhereNesting.RenderParenFree | src/repositories/typeorm-repository.ts:235-255 | converting a value whose strings and keys hold no parenthesis writes no parenthesis, arrays included |
| WhereNesting.InListBalanced | src/repositories/typeorm-repository.ts:246-248 | the `IN (...)` clause closes the one parenthesis it opens |
| WhereNesting.ClauseBalanced | src/repositories/typeorm-repository.ts:233-256 | every field clause has its parentheses matched when its key and condition hold none |
| WhereNesting.GroupBalanced | src/repositories/typeorm-repository.ts:217-228 | each `and`/`or` fragment is balanced: every element's `(` is closed by its `)` |
| WhereNesting.BuildWhereBalanced | src/repositories/typeorm-repository.ts:215-260 | for a where whose keys and values hold no parenthesis, every parenthesis in the rendered predicate is matched, at any nesting depth |
| EnclosedGroups.OrFragmentNotEnclosed | src/repositories/typeorm-repository.ts:223-227 | with two or more alternatives, the `or` fragment is not one parenthesised operand: the first alternative's parenthesis closes before the first `OR` |
| EnclosedGroups.OrFragmentThenAnd | src/repositories/typeorm-repository.ts:223-259 | without an `and` group, the `or` fragment is followed directly by `" AND "` and the field clauses, with no parentheses around it |
| EnclosedGroups.OrOfTwoThenField | src/repositories/typeorm-repository.ts:217-259 | an `or` of two alternatives followed by one numeric field renders as `(x) OR (y) AND key = n`, with nothing around the alternatives |
| EnclosedGroups.OrPrecedenceExample | src/repositories/typeorm-repository.ts:217-259 | `{or: [{a: 1}, {b: 2}], c: 3}` renders as exactly `(a = 1) OR (b = 2) AND c = 3` |
| EnclosedGroups.EnclosedSucceedsIff | src/repositories/typeorm-repository.ts:215-260 | the renderer that encloses each group fragment throws on exactly the same where values as the code |
| EnclosedGroups.EnclosedGroupBalanced | src/repositories/typeorm-repository.ts:217-227 | each enclosed group fragment is balanced and is one parenthesised operand |
| EnclosedGroups.EnclosedBalanced | src/repositories/typeorm-repository.ts:215-260 | the enclosing renderer keeps every parenthesis matched |
| EnclosedGroups.GroupsEnclosed | src/repositories/typeorm-repository.ts:217-259 | with enclosed fragments, the top-level clauses are one enclosed operand per truthy group followed by the code's field clauses, so each clause joined by `AND` is one conjunct |
| EnclosedGroups.AgreesWithoutGroups | src/repositories/typeorm-repository.ts:229-259 | without a truthy `and` or `or`, the enclosing renderer and the code render the same string |
| QueryBuilder.PredicateOf | src/repositories/typeorm-repository.ts:273 | `if (where)` followed by attaching `buildWhere`'s string, shared by the three builders; specified by `PredicateOfSpec` |
| QueryBuilder.BuildQuery | src/repositories/typeorm-repository.ts:192-207 | the select assembly; specified by `AssemblyIsConditional`, `BuildQuerySucceedsIff`, `ProjectionIsKeys` and `OrderingOfQuery` |
| QueryBuilder.BuildUpdate | src/repositories/typeorm-repository.ts:267-275 | the update assembly; specified by `UpdateDeleteConditional` and `SamePredicateEverywhere` |
| QueryBuilder.BuildDelete | src/repositories/typeorm-repository.ts:281-289 | the delete assembly; specified by `UpdateDeleteConditional` and `SamePredicateEverywhere` |
| QueryBuilder.AssemblyIsConditional | src/repositories/typeorm-repository.ts:195-205 | without a filter nothing is set; with one, limit and offset are always passed on, and a projection, ordering and predicate are set exactly when `fields` is truthy, `order` is present and `where` is truthy |
| QueryBuilder.BuildQuerySucceedsIff | src/repositories/typeorm-repository.ts:203-205 | `buildQuery` throws exactly when the filter's where is truthy and not well shaped |
| QueryBuilder.PredicateOfSpec | src/repositories/typeorm-repository.ts:273 | a predicate is attached exactly when the where is truthy, and it is `buildWhere`'s rendering |
| QueryBuilder.ProjectionIsKeys | src/repositories/typeorm-repository.ts:197-199 | the projection is the own keys of `fields` in order, whatever their values |
| QueryBuilder.OrderingOfQuery | src/repositories/typeorm-repository.ts:200-202 | the ordering passed on has one entry per field of a matching token, each with the last direction given for it, in the order the fields first matched, which is the column priority of the ORDER BY |
| QueryBuilder.SamePredicateEverywhere | src/repositories/typeorm-repository.ts:203-289 | select, update and delete attach the same predicate for the same where, and throw the same error |
| QueryBuilder.UpdateDeleteConditional | src/repositories/typeorm-repository.ts:267-289 | update keeps its data and, like delete, attaches a predicate exactly when a truthy where is given |
| QueryBuilder.EmptyWhereObject | src/repositories/typeorm-repository.ts:203-205 | a where of `{}` attaches the empty predicate string, not no predicate |
| JsValues.Truthy | src/repositories/typeorm-repository.ts:217 | JavaScript truthiness as the `if` tests use it; `EmptyGroup` and `EmptyWhereObject` use that an empty array or object is truthy, and `ShorthandFallback` that `0` is falsy |
| JsValues.GetNamed | src/repositories/typeorm-repository.ts:217-218 | a property read such as `where.and` on a value that is not null or undefined; `NullishWhereThrows` covers the null case |
| JsValues.Render | src/repositories/typeorm-repository.ts:235 | template-literal conversion; `RenderParenFree` states that it adds no parenthesis of its own |
| JsValues.GetIndex | src/repositories/typeorm-repository.ts:250-251 | `condition.between[0]` and `[1]`: an element, a one-character string, an index-named property, or `undefined` |
| JsValues.Entries | src/repositories/typeorm-repository.ts:230-233 | the key/value pairs `for...in` visits, with `where[key]`: an object's properties in order; for an array, the pair (index in decimal, element) per element; for a string, the pair (index in decimal, one-character string) per character; nothing for other values |
| JsValues.OwnKeys | src/repositories/typeorm-repository.ts:198 | `Object.keys`: an object's own property names in order, the decimal indices `"0"`, `"1"`, ... of an array or a string, and no key for other values |
| Joins.Join | src/repositories/typeorm-repository.ts:259 | `Array.prototype.join` on strings, used at lines 220, 226 and 259; `JoinAppend` and `JoinLength` state what it writes |
| JsValues.JoinValues | src/repositories/typeorm-repository.ts:247 | `condition.inq.join(', ')` on arbitrary values, with null and undefined elements written as `""`; `InListBalanced` and `JoinValuesParenFree` use it |
| Joins.JoinAppend | src/repositories/typeorm-repository.ts:259 | joining two non-empty lists is joining each and putting the separator between them |
| Joins.JoinLength | src/repositories/typeorm-repository.ts:259 | the joined length is the parts' lengths plus one separator between each neighbouring pair |

## Left out

- The CRUD forwarders (`save`, `update`, `delete`, `findById`, `updateById`, `replaceById`,
  `deleteById`, `exists`, `create`, `createAll`, `count`, `execute`). They only call TypeORM,
  which is not part of this model.
- `init`'s lazy repository fetch and the `await`s. They are asynchronous plumbing with no effect
  on the strings built.
- The `{count: result.raw}` result shaping. The raw value depends on the database driver.
- The datasource, model, application bootstrap and the empty `UserRepository` subclass.
- The query builder itself. The model records the arguments of `limit`, `offset`, `select`,
  `orderBy`, `where` and `set`, and does not model what TypeORM does with them. The target
  entity given to `update(...)` and `from(...)` is not recorded, because it is the same fixed
  entity class for every call; `delete()` takes no argument.
- SQL escaping and parameterisation. Values are interpolated unescaped, exactly as the code does.
- Number-to-string conversion. A number is carried as the string JavaScript prints for it.
  Dates, functions, symbols, class instances and objects with their own `toString` are not
  modelled: every object renders as `[object Object]`.
- Property enumeration order: an object's properties are taken in the order given. The engine's
  rule that integer-like keys come first is not modelled. The `__proto__` key, inherited
  enumerable properties and array holes are not modelled either.
- OrderBy.BuildOrderSpec: the same two rules apply to the object `buildOrder` returns, and the
  model leaves both out. A token such as `"2"` makes an integer-like key, which the engine would
  enumerate before the other keys. A `"__proto__"` token would hit the prototype setter and add
  no key. The model keeps every field in first-seen order, like any other key.
- Objects are taken to have distinct keys, as every JavaScript object does; the `Obj`
  constructor does not enforce it. The loop reads each entry's own value where the code reads
  `where[key]`, and the two agree only when keys are distinct.
- Strings are sequences of Unicode scalar values. JavaScript's `for...in` over a string and
  `s[i]` work on UTF-16 code units, so a string holding a character outside the Basic
  Multilingual Plane would enumerate and index differently. No where value the code renders
  depends on this, except through such a string used as a group or a `between` operand.
- Property reads on arrays, strings, numbers and booleans give `undefined` for the names the
  renderer reads (`and`, `or`, the operator names), because no built-in has such a property.
  `map` and `join` on a non-array always throw, because a where object built from data carries
  no functions.
- `filter.order` is taken to be an array of strings, as the `Filter` type declares. A bare string
  there would be iterated character by character by `for...of`; that is not modelled.
- The `skip` filter property is not read by the code, so the model has no field for it.
- QueryBuilder: the assembly passes on `buildWhere`'s string as the code computes it, not the
  corrected rendering of "## Findings". The corrected renderer is `EnclosedGroups.EnclosedWhere`;
  it agrees with the code on every where without a truthy `and` or `or`.

## Findings

| source | as written | input that shows it | evidently intended | confidence | as-written member | corrected member |
|---|---|---|---|---|---|---|
| src/repositories/typeorm-repository.ts:223-227 | the `or` fragment is pushed as `(A) OR (B)`, with no parentheses around it, and then joined to the other clauses with `AND` | `{or: [{a: 1}, {b: 2}], c: 3}` renders as `(a = 1) OR (b = 2) AND c = 3`, which SQL reads as `a = 1 OR (b = 2 AND c = 3)`; `EnclosedGroups.OrPrecedenceExample` proves this rendering | each group is one conjunct: `((a = 1) OR (b = 2)) AND c = 3` | not executed | EnclosedGroups.OrFragmentNotEnclosed | EnclosedGroups.GroupsEnclosed |
