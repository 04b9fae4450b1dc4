/** Canonical keys of SQL expressions and the facts a guard reads off a statement
    (valibra_agent/sql_grounding/semantic_guard_v0.py). Statements are given parsed. */
module GuardKeys {
  import opened Options
  import opened Text

  datatype Ident = Ident(text: string, quoted: bool)

  /** An identifier's key: its spelling, and whether the spelling is exact. */
  datatype Name = Name(text: string, exact: bool)

  datatype Arithmetic = Add | Sub | Mul | Div

  datatype Comparison = Gt | Ge | Lt | Le | Eq | Ne
  {
    function Inverted(): Comparison
    {
      match this
      case Gt => Lt
      case Ge => Le
      case Lt => Gt
      case Le => Ge
      case Eq => Eq
      case Ne => Ne
    }
  }

  datatype Aggregate = Avg | Sum | Min | Max | Count | Median

  datatype Tag =
    | Column(qualifier: seq<Ident>, name: Ident)
    | Number(digits: string)
    | Negation
    | Arith(op: Arithmetic)
    | Json(scalar: bool, path: Option<seq<string>>)
    | Transparent
    | Not
    | Compare(cmp: Comparison)
    | Aggregated(aggregate: Aggregate)
    | Ordered(descending: bool)
    | WithinGroup(quantile: string)
    | Select
    | Clause
    | Other

  /** A syntax tree. `Transparent` are parentheses, casts and output names, `Clause` are WHERE, HAVING and JOIN, and
      `Other` is every node without a role. */
  datatype Expr = Node(tag: Tag, children: seq<Expr>)
  {
    predicate IsUnary()
    {
      |children| == 1
    }

    predicate IsBinary()
    {
      |children| == 2
    }
  }

  datatype TableRef = TableRef(name: seq<Ident>, alias: Option<Ident>)

  /** A statement: every table reference in it, and its expression tree. */
  datatype Statement = Statement(tables: seq<TableRef>, root: Expr)

  type TableName = seq<Name>

  datatype Key =
    | FieldKey(qualifier: TableName, name: Name)
    | NumberKey(value: string)
    | JsonKey(scalar: bool, base: Key, path: seq<string>)
    | OpKey(op: Arithmetic, left: Key, right: Key)

  /** Decimal normalisation, `None` for text that is not a finite number. */
  type Decimal = string -> Option<string>

  function Folded(s: string): string
  {
    seq(|s|, i requires 0 <= i < |s| => Lower(s[i]))
  }

  /** Quoted spellings are exact; in the contract's own fields a mixed-case spelling is exact too. */
  function IdentKey(id: Ident, canonical: bool): Option<Name>
  {
    if id.text == "" then None
    else
      var exact := id.quoted || (canonical && id.text != Folded(id.text));
      Some(Name(if exact then id.text else Folded(id.text), exact))
  }

  function IdentKeys(ids: seq<Ident>, canonical: bool): Option<TableName>
  {
    if ids == [] then Some([])
    else
      var head, tail := IdentKey(ids[0], canonical), IdentKeys(ids[1..], canonical);
      if head.Some? && tail.Some? then Some([head.value] + tail.value) else None
  }

  function TableKey(t: TableRef): Option<TableName>
  {
    if t.name == [] then None else IdentKeys(t.name, false)
  }

  // ----- aliases

  /** The binding a table reference makes, if any. */
  function Binding(t: TableRef): Option<(Name, TableName)>
  {
    if TableKey(t).None? || t.alias.None? || IdentKey(t.alias.value, false).None? then None
    else Some((IdentKey(t.alias.value, false).value, TableKey(t).value))
  }

  /** A binding that disagrees with the one already held removes it. */
  function Bind(aliases: map<Name, TableName>, b: Option<(Name, TableName)>): map<Name, TableName>
  {
    if b.None? then aliases
    else if b.value.0 in aliases && aliases[b.value.0] != b.value.1 then aliases - {b.value.0}
    else aliases[b.value.0 := b.value.1]
  }

  function AliasMap(tables: seq<TableRef>): map<Name, TableName>
  {
    if tables == [] then map[] else Bind(AliasMap(tables[..|tables| - 1]), Binding(tables[|tables| - 1]))
  }

  method ReadAliases(tables: seq<TableRef>) returns (result: map<Name, TableName>)
    ensures result == AliasMap(tables)
  {
    result := map[];
    for k := 0 to |tables|
      invariant result == AliasMap(tables[..k])
    {
      assert tables[..k + 1][..k] == tables[..k];
      var target := TableKey(tables[k]);
      var alias := tables[k].alias;
      if target.Some? && alias.Some? {
        var key := IdentKey(alias.value, false);
        if key.Some? {
          if key.value in result && result[key.value] != target.value {
            result := result - {key.value};
          } else {
            result := result[key.value := target.value];
          }
        }
      }
    }
    assert tables[..|tables|] == tables;
  }

  /** No alias names two different tables. */
  predicate Consistent(tables: seq<TableRef>)
  {
    forall i, j :: 0 <= i < j < |tables| && Binding(tables[i]).Some? && Binding(tables[j]).Some?
                   && Binding(tables[i]).value.0 == Binding(tables[j]).value.0 ==>
      Binding(tables[i]).value.1 == Binding(tables[j]).value.1
  }

  predicate Binds(tables: seq<TableRef>, alias: Name, target: TableName)
  {
    exists i :: 0 <= i < |tables| && Binding(tables[i]) == Some((alias, target))
  }

  lemma OneTableMore(tables: seq<TableRef>, a: Name, t: TableName)
    requires tables != []
    ensures Binds(tables, a, t)
            <==> Binds(tables[..|tables| - 1], a, t) || Binding(tables[|tables| - 1]) == Some((a, t))
  {
    var rest := tables[..|tables| - 1];
    if Binds(rest, a, t) {
      var i :| 0 <= i < |rest| && Binding(rest[i]) == Some((a, t));
      assert Binding(tables[i]) == Some((a, t));
    }
  }

  /** Consistent aliases are resolved exactly. */
  lemma {:induction false} ConsistentAliases(tables: seq<TableRef>)
    requires Consistent(tables)
    ensures forall a, t :: a in AliasMap(tables) && AliasMap(tables)[a] == t <==> Binds(tables, a, t)
    decreases |tables|
  {
    if tables != [] {
      var rest, last := tables[..|tables| - 1], tables[|tables| - 1];
      ConsistentAliases(rest);
      forall a, t ensures Binds(tables, a, t) <==> Binds(rest, a, t) || Binding(last) == Some((a, t)) {
        OneTableMore(tables, a, t);
      }
      if Binding(last).Some? {
        var b := Binding(last).value;
        if b.0 in AliasMap(rest) {
          var held := AliasMap(rest)[b.0];
          assert Binds(rest, b.0, held);
          var i :| 0 <= i < |rest| && Binding(rest[i]) == Some((b.0, held));
          assert Binding(tables[i]).value.1 == b.1;
        }
      }
    }
  }

  lemma OneName(x: Ident)
    requires x.text != ""
    ensures IdentKeys([x], false) == Some([IdentKey(x, false).value])
  {
    var xs := [x];
    assert xs[1..] == [] && IdentKeys(xs[1..], false) == Some([]);
    var key := IdentKey(xs[0], false).value;
    assert [key] + [] == [key];
  }

  /** An alias bound to two different tables is dropped, but a third binding brings it back. */
  lemma ThirdBindingReturns(a: Ident, x: Ident, y: Ident)
    requires a.text != "" && x.text != "" && y.text != "" && IdentKey(x, false) != IdentKey(y, false)
    ensures var key := IdentKey(a, false).value;
            var tx, ty := TableRef([x], Some(a)), TableRef([y], Some(a));
            && key !in AliasMap([tx, ty])
            && key in AliasMap([tx, ty, ty]) && !Consistent([tx, ty, ty])
  {
    var tx, ty := TableRef([x], Some(a)), TableRef([y], Some(a));
    var all := [tx, ty, ty];
    assert all[..2] == [tx, ty] && [tx, ty][..1] == [tx] && [tx][..0] == [];
    OneName(x);
    OneName(y);
    assert TableKey(tx) == Some([IdentKey(x, false).value]) && TableKey(ty) == Some([IdentKey(y, false).value]);
    assert AliasMap([tx]) == Bind(AliasMap([]), Binding(tx));
    assert AliasMap([tx, ty]) == Bind(AliasMap([tx]), Binding(ty));
    assert AliasMap(all) == Bind(AliasMap([tx, ty]), Binding(ty));
    assert Binding(all[0]).value.1 != Binding(all[1]).value.1;
  }

  // ----- expression keys

  function ColumnKey(column: Tag, aliases: map<Name, TableName>, canonical: bool): Option<Key>
    requires column.Column?
  {
    var name, parts := IdentKey(column.name, canonical), IdentKeys(column.qualifier, canonical);
    if name.None? || parts.None? then None
    else
      var q := parts.value;
      Some(FieldKey(if |q| == 1 && q[0] in aliases then aliases[q[0]] else q, name.value))
  }

  function NumberKeyOf(decimal: Decimal, digits: string): Option<Key>
  {
    var value := decimal(digits);
    if value.Some? then Some(NumberKey(value.value)) else None
  }

  function ExpressionKey(decimal: Decimal, e: Expr, aliases: map<Name, TableName>, canonical: bool): Option<Key>
  {
    match e.tag
    case Column(_, _) => ColumnKey(e.tag, aliases, canonical)
    case Number(digits) => NumberKeyOf(decimal, digits)
    case Transparent => if e.IsUnary() then ExpressionKey(decimal, e.children[0], aliases, canonical) else None
    case Negation =>
      if e.IsUnary() && e.children[0].tag.Number? then NumberKeyOf(decimal, "-" + e.children[0].tag.digits) else None
    case Json(scalar, path) =>
      if !e.IsUnary() || path.None? then None
      else
        var base := ExpressionKey(decimal, e.children[0], aliases, canonical);
        if base.Some? then Some(JsonKey(scalar, base.value, path.value)) else None
    case Arith(op) =>
      if !e.IsBinary() then None
      else
        var l := ExpressionKey(decimal, e.children[0], aliases, canonical);
        var r := ExpressionKey(decimal, e.children[1], aliases, canonical);
        if l.Some? && r.Some? then Some(OpKey(op, l.value, r.value)) else None
    case _ => None
  }

  function Union<T>(sets: seq<set<T>>): set<T>
  {
    set i, x | 0 <= i < |sets| && x in sets[i] :: x
  }

  function OwnField(e: Expr, aliases: map<Name, TableName>): set<Key>
  {
    if e.tag.Column? && ColumnKey(e.tag, aliases, false).Some? then {ColumnKey(e.tag, aliases, false).value} else {}
  }

  /** The field keys of all columns in a subtree. */
  function Fields(e: Expr, aliases: map<Name, TableName>): set<Key>
  {
    OwnField(e, aliases) + Union(seq(|e.children|, i requires 0 <= i < |e.children| => Fields(e.children[i], aliases)))
  }

  lemma OnlyOne(s: set<Key>, x: Key, y: Key)
    requires |s| == 1 && x in s && y in s
    ensures x == y
  {
    var rest := s - {x};
    assert |rest| == 0;
    assert y !in rest;
  }

  function TheOne(s: set<Key>): (k: Key)
    requires |s| == 1
    ensures k in s
  {
    assert s != {};
    assert forall x, y :: x in s && y in s ==> x == y by {
      forall x, y | x in s && y in s ensures x == y {
        OnlyOne(s, x, y);
      }
    }
    var k :| k in s;
    k
  }

  /** The key of an operand: wrappers that SQL needs around it are ignored when one field is left. */
  function OperandKey(decimal: Decimal, e: Expr, aliases: map<Name, TableName>): Option<Key>
  {
    var direct, fields := ExpressionKey(decimal, e, aliases, false), Fields(e, aliases);
    if direct.Some? then direct else if |fields| == 1 then Some(TheOne(fields)) else None
  }

  function FormulaKey(decimal: Decimal, e: Expr, aliases: map<Name, TableName>): Option<Key>
  {
    if e.tag.Transparent? && e.IsUnary() then FormulaKey(decimal, e.children[0], aliases)
    else if e.tag.Arith? then
      if !e.IsBinary() then None
      else
        var l, r := FormulaKey(decimal, e.children[0], aliases), FormulaKey(decimal, e.children[1], aliases);
        if l.Some? && r.Some? then Some(OpKey(e.tag.op, l.value, r.value)) else None
    else OperandKey(decimal, e, aliases)
  }

  // ----- facts

  datatype Fact =
    | Compared(target: Key, cmp: Comparison, literal: string)
    | Computed(formula: Key)
    | Aggregating(target: Key, aggregate: Aggregate)
    | Ordering(target: Key, descending: bool)

  /** What a comparison says about a target, whichever side the literal is on. */
  function ComparisonFacts(decimal: Decimal, cmp: Comparison, left: Expr, right: Expr, aliases: map<Name, TableName>):
    set<Fact>
  {
    var l, r := ExpressionKey(decimal, left, aliases, false), ExpressionKey(decimal, right, aliases, false);
    if l.None? || r.None? then {}
    else if r.value.NumberKey? && !l.value.NumberKey? then {Compared(l.value, cmp, r.value.value)}
    else if l.value.NumberKey? && !r.value.NumberKey? then {Compared(r.value, cmp.Inverted(), l.value.value)}
    else {}
  }

  function FormulaFact(decimal: Decimal, e: Expr, aliases: map<Name, TableName>): set<Fact>
  {
    var formula := FormulaKey(decimal, e, aliases);
    if formula.Some? && formula.value.OpKey? then {Computed(formula.value)} else {}
  }

  /** The facts a node states by its own kind. A median may be written as an ordered-set aggregate. */
  function KindFact(decimal: Decimal, e: Expr, aliases: map<Name, TableName>, negated: bool): set<Fact>
  {
    match e.tag
    case Compare(cmp) =>
      if negated || !e.IsBinary() then {} else ComparisonFacts(decimal, cmp, e.children[0], e.children[1], aliases)
    case Aggregated(aggregate) =>
      if !e.IsUnary() then {}
      else
        var k := ExpressionKey(decimal, e.children[0], aliases, false);
        if k.Some? then {Aggregating(k.value, aggregate)} else {}
    case WithinGroup(quantile) =>
      if decimal(quantile) != Some("0.5") || !e.IsUnary() || !e.children[0].tag.Ordered? || !e.children[0].IsUnary()
      then {}
      else
        var k := ExpressionKey(decimal, e.children[0].children[0], aliases, false);
        if k.Some? then {Aggregating(k.value, Median)} else {}
    case Ordered(descending) =>
      if !e.IsUnary() then {}
      else
        var k := ExpressionKey(decimal, e.children[0], aliases, false);
        if k.Some? then {Ordering(k.value, descending)} else {}
    case _ => {}
  }

  function Own(decimal: Decimal, e: Expr, aliases: map<Name, TableName>, negated: bool): set<Fact>
  {
    FormulaFact(decimal, e, aliases) + KindFact(decimal, e, aliases, negated)
  }

  /** A negation is looked for only up to the next of these. */
  predicate IsScope(tag: Tag)
  {
    tag.Select? || tag.Clause?
  }

  /** Whether what is below a node stands under a negation. */
  predicate Below(tag: Tag, negated: bool)
  {
    tag.Not? || (!IsScope(tag) && negated)
  }

  function Collect(decimal: Decimal, e: Expr, aliases: map<Name, TableName>, negated: bool): set<Fact>
    decreases e, 1
  {
    Own(decimal, e, aliases, negated) + Union(CollectEach(decimal, e, aliases, Below(e.tag, negated)))
  }

  /** The facts of each child's subtree. */
  function CollectEach(decimal: Decimal, e: Expr, aliases: map<Name, TableName>, below: bool): seq<set<Fact>>
    decreases e, 0
  {
    seq(|e.children|, i requires 0 <= i < |e.children| => Collect(decimal, e.children[i], aliases, below))
  }

  /** The facts inside the scopes of a tree, its own one included. */
  function InScopes(decimal: Decimal, e: Expr, aliases: map<Name, TableName>): set<Fact>
  {
    if e.tag.Select? || e.tag.Clause? then Union(CollectEach(decimal, e, aliases, false))
    else Union(seq(|e.children|, i requires 0 <= i < |e.children| => InScopes(decimal, e.children[i], aliases)))
  }

  /** Under a negation exactly those comparisons state a fact that stand in a scope of their own below it: a subquery,
      or a WHERE, HAVING or JOIN. */
  lemma {:induction false} NegationHidesComparisons(decimal: Decimal, e: Expr, aliases: map<Name, TableName>, f: Fact)
    requires f.Compared?
    ensures f in Collect(decimal, e, aliases, true) <==> f in InScopes(decimal, e, aliases)
    decreases e
  {
    OwnHidesComparisons(decimal, e, aliases);
    if !e.tag.Select? && !e.tag.Clause? {
      var parts := CollectEach(decimal, e, aliases, true);
      var scopes := seq(|e.children|, i requires 0 <= i < |e.children| => InScopes(decimal, e.children[i], aliases));
      forall i | 0 <= i < |e.children| ensures f in parts[i] <==> f in scopes[i] {
        NegationHidesComparisons(decimal, e.children[i], aliases, f);
      }
    }
  }

  lemma OwnHidesComparisons(decimal: Decimal, e: Expr, aliases: map<Name, TableName>)
    ensures forall f :: f in Own(decimal, e, aliases, true) ==> !f.Compared?
  {
  }

  function FactsOf(decimal: Decimal, s: Statement): set<Fact>
  {
    Collect(decimal, s.root, AliasMap(s.tables), false)
  }

  function SourcesOf(tables: seq<TableRef>): set<TableName>
  {
    set t | t in tables && TableKey(t).Some? :: TableKey(t).value
  }

  function Sources(s: Statement): set<TableName>
  {
    SourcesOf(s.tables)
  }
}
