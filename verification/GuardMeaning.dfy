/** What the facts of a statement mean: keys stand for values, and a fact says of its key's value what its node says of
    the rows (valibra_agent/sql_grounding/semantic_guard_v0.py). */
module GuardMeaning {
  import opened Options
  import opened Text
  import opened GuardKeys

  /** One row in front of a statement: the value of a column as it is written there, of a table's field, of a number,
      and of the operations. */
  datatype Row = Row(
    column: Tag -> real,
    field: (TableName, Name) -> real,
    number: string -> real,
    apply: (Arithmetic, real, real) -> real,
    json: (bool, real, seq<string>) -> real)

  /** The column names the field `n` of `q`: through an alias of the statement, or by its own qualifier. */
  ghost predicate Names(tables: seq<TableRef>, column: Tag, q: TableName, n: Name)
    requires column.Column?
  {
    && IdentKey(column.name, false) == Some(n)
    && IdentKeys(column.qualifier, false).Some?
    && var written := IdentKeys(column.qualifier, false).value;
    if |written| == 1 && exists t :: Binds(tables, written[0], t) then Binds(tables, written[0], q) else q == written
  }

  /** The row gives columns the value of the fields they name, and equal numbers the same value. */
  ghost predicate RowOk(row: Row, decimal: Decimal, tables: seq<TableRef>)
  {
    && (forall c: Tag, q: TableName, n: Name :: c.Column? && Names(tables, c, q, n) ==> row.column(c) == row.field(q, n))
    && (forall digits: string :: decimal(digits).Some? ==> row.number(decimal(digits).value) == row.number(digits))
    && (forall digits: string :: decimal("-" + digits).Some? ==> row.number("-" + digits) == -row.number(digits))
  }

  /** The value of an expression, for the nodes that have one. */
  function Value(row: Row, e: Expr): Option<real>
  {
    match e.tag
    case Column(_, _) => Some(row.column(e.tag))
    case Number(digits) => Some(row.number(digits))
    case Transparent => if e.IsUnary() then Value(row, e.children[0]) else None
    case Negation =>
      if e.IsUnary() && Value(row, e.children[0]).Some? then Some(-Value(row, e.children[0]).value) else None
    case Json(scalar, path) =>
      if e.IsUnary() && path.Some? && Value(row, e.children[0]).Some?
      then Some(row.json(scalar, Value(row, e.children[0]).value, path.value)) else None
    case Arith(op) =>
      if e.IsBinary() && Value(row, e.children[0]).Some? && Value(row, e.children[1]).Some?
      then Some(row.apply(op, Value(row, e.children[0]).value, Value(row, e.children[1]).value)) else None
    case _ => None
  }

  function KeyValue(row: Row, k: Key): real
  {
    match k
    case FieldKey(q, n) => row.field(q, n)
    case NumberKey(digits) => row.number(digits)
    case JsonKey(scalar, base, path) => row.json(scalar, KeyValue(row, base), path)
    case OpKey(op, l, r) => row.apply(op, KeyValue(row, l), KeyValue(row, r))
  }

  // ----- names

  predicate SameIgnoringCase(a: string, b: string)
  {
    |a| == |b| && forall i :: 0 <= i < |a| ==> Lower(a[i]) == Lower(b[i])
  }

  /** Two identifiers of a statement are the same name if both are quoted and spelt alike, or neither is and they differ
      in case at most. */
  lemma SameName(a: Ident, b: Ident)
    requires a.text != "" && b.text != ""
    ensures IdentKey(a, false) == IdentKey(b, false)
            <==> a.quoted == b.quoted && if a.quoted then a.text == b.text else SameIgnoringCase(a.text, b.text)
  {
    if Folded(a.text) == Folded(b.text) {
      assert forall i :: 0 <= i < |a.text| ==> Folded(a.text)[i] == Lower(a.text[i]) && Folded(b.text)[i] == Lower(b.text[i]);
    }
  }

  /** A contract's name `c`, which carries no quotes, names the same field as a statement's `d`: in lower case it is
      matched without quotes in any case, in mixed case only between quotes and as it is spelt. */
  lemma ContractName(c: Ident, d: Ident)
    requires c.text != "" && d.text != "" && !c.quoted
    ensures IdentKey(c, true) == IdentKey(d, false)
            <==> if (forall i :: 0 <= i < |c.text| ==> Lower(c.text[i]) == c.text[i])
                 then !d.quoted && SameIgnoringCase(c.text, d.text) else d.quoted && c.text == d.text
  {
    assert Folded(c.text) == c.text <==> forall i :: 0 <= i < |c.text| ==> Folded(c.text)[i] == c.text[i];
    SameName(Ident(c.text, false), d);
  }

  /** A column behind an alias is the field of the aliased table, whatever the case of an unquoted alias. */
  lemma AliasIsFollowed(tables: seq<TableRef>, t: TableRef, column: Tag)
    requires Consistent(tables) && t in tables && t.alias.Some? && t.alias.value.text != ""
    requires t.name != [] && forall i :: 0 <= i < |t.name| ==> t.name[i].text != ""
    requires column.Column? && column.name.text != "" && |column.qualifier| == 1 && column.qualifier[0].text != ""
    requires var a, q := t.alias.value, column.qualifier[0];
             a.quoted == q.quoted && if a.quoted then a.text == q.text else SameIgnoringCase(a.text, q.text)
    ensures IdentKeys(t.name, false).Some? && IdentKey(column.name, false).Some?
    ensures ColumnKey(column, AliasMap(tables), false)
            == Some(FieldKey(IdentKeys(t.name, false).value, IdentKey(column.name, false).value))
  {
    NamesAreReadable(t.name, false);
    var a, q := t.alias.value, column.qualifier[0];
    SameName(a, q);
    OneName(q);
    assert column.qualifier == [q];
    var key := IdentKey(q, false).value;
    var i :| 0 <= i < |tables| && tables[i] == t;
    assert Binding(tables[i]) == Some((key, IdentKeys(t.name, false).value));
    assert Binds(tables, key, IdentKeys(t.name, false).value);
    ConsistentAliases(tables);
  }

  lemma {:induction false} NamesAreReadable(ids: seq<Ident>, canonical: bool)
    ensures IdentKeys(ids, canonical).Some? <==> forall i :: 0 <= i < |ids| ==> ids[i].text != ""
    decreases |ids|
  {
    if ids != [] {
      NamesAreReadable(ids[1..], canonical);
      assert ids == [ids[0]] + ids[1..];
    }
  }

  lemma ColumnIsResolved(tables: seq<TableRef>, column: Tag)
    requires Consistent(tables) && column.Column? && ColumnKey(column, AliasMap(tables), false).Some?
    ensures var k := ColumnKey(column, AliasMap(tables), false).value;
            k.FieldKey? && Names(tables, column, k.qualifier, k.name)
  {
    ConsistentAliases(tables);
    var written := IdentKeys(column.qualifier, false).value;
    if |written| == 1 && written[0] in AliasMap(tables) {
      assert Binds(tables, written[0], AliasMap(tables)[written[0]]);
    }
  }

  /** The expression can be read: a name, a finite number, or an operation on what can be read. */
  predicate CanBeRead(decimal: Decimal, e: Expr)
  {
    match e.tag
    case Column(qualifier, name) => name.text != "" && forall i :: 0 <= i < |qualifier| ==> qualifier[i].text != ""
    case Number(digits) => decimal(digits).Some?
    case Negation => |e.children| == 1 && e.children[0].tag.Number? && decimal("-" + e.children[0].tag.digits).Some?
    case Transparent => |e.children| == 1 && CanBeRead(decimal, e.children[0])
    case Json(_, path) => |e.children| == 1 && path.Some? && CanBeRead(decimal, e.children[0])
    case Arith(_) => |e.children| == 2 && CanBeRead(decimal, e.children[0]) && CanBeRead(decimal, e.children[1])
    case _ => false
  }

  /** Exactly the readable expressions have keys, whatever the aliases. */
  lemma {:induction false} KeysExistExactly(decimal: Decimal, e: Expr, aliases: map<Name, TableName>, canonical: bool)
    ensures ExpressionKey(decimal, e, aliases, canonical).Some? <==> CanBeRead(decimal, e)
    decreases e
  {
    match e.tag
    case Column(qualifier, _) =>
      NamesAreReadable(qualifier, canonical);
    case _ =>
      forall i | 0 <= i < |e.children|
        ensures ExpressionKey(decimal, e.children[i], aliases, canonical).Some? <==> CanBeRead(decimal, e.children[i])
      {
        KeysExistExactly(decimal, e.children[i], aliases, canonical);
      }
  }

  /** The row gives columns the value of the fields their keys say. */
  ghost predicate Reads(row: Row, decimal: Decimal, aliases: map<Name, TableName>, canonical: bool)
  {
    && (forall c: Tag :: c.Column? && ColumnKey(c, aliases, canonical).Some? ==>
          row.column(c) == KeyValue(row, ColumnKey(c, aliases, canonical).value))
    && (forall digits: string :: decimal(digits).Some? ==> row.number(decimal(digits).value) == row.number(digits))
    && (forall digits: string :: decimal("-" + digits).Some? ==> row.number("-" + digits) == -row.number(digits))
  }

  lemma {:induction false} KeyReads(row: Row, decimal: Decimal, aliases: map<Name, TableName>, canonical: bool, e: Expr)
    requires Reads(row, decimal, aliases, canonical) && ExpressionKey(decimal, e, aliases, canonical).Some?
    ensures Value(row, e) == Some(KeyValue(row, ExpressionKey(decimal, e, aliases, canonical).value))
    decreases e
  {
    match e.tag
    case Transparent =>
      KeyReads(row, decimal, aliases, canonical, e.children[0]);
    case Negation =>
      assert Value(row, e.children[0]) == Some(row.number(e.children[0].tag.digits));
    case Json(_, _) =>
      KeyReads(row, decimal, aliases, canonical, e.children[0]);
    case Arith(_) =>
      KeyReads(row, decimal, aliases, canonical, e.children[0]);
      KeyReads(row, decimal, aliases, canonical, e.children[1]);
    case _ =>
  }

  /** An expression's key has the expression's value. */
  lemma KeyMeans(row: Row, decimal: Decimal, tables: seq<TableRef>, e: Expr)
    requires Consistent(tables) && RowOk(row, decimal, tables)
    requires ExpressionKey(decimal, e, AliasMap(tables), false).Some?
    ensures Value(row, e) == Some(KeyValue(row, ExpressionKey(decimal, e, AliasMap(tables), false).value))
  {
    forall c: Tag | c.Column? && ColumnKey(c, AliasMap(tables), false).Some?
      ensures row.column(c) == KeyValue(row, ColumnKey(c, AliasMap(tables), false).value)
    {
      ColumnIsResolved(tables, c);
    }
    KeyReads(row, decimal, AliasMap(tables), false, e);
  }

  /** Where an expression has a key, reading it as a formula gives the same one. */
  lemma {:induction false} FormulaKeyAgrees(decimal: Decimal, e: Expr, aliases: map<Name, TableName>)
    requires ExpressionKey(decimal, e, aliases, false).Some?
    ensures FormulaKey(decimal, e, aliases) == ExpressionKey(decimal, e, aliases, false)
    decreases e
  {
    if e.tag.Transparent? {
      FormulaKeyAgrees(decimal, e.children[0], aliases);
    } else if e.tag.Arith? {
      FormulaKeyAgrees(decimal, e.children[0], aliases);
      FormulaKeyAgrees(decimal, e.children[1], aliases);
    }
  }

  // ----- comparisons

  predicate Relates(cmp: Comparison, x: real, y: real)
  {
    match cmp
    case Gt => x > y
    case Ge => x >= y
    case Lt => x < y
    case Le => x <= y
    case Eq => x == y
    case Ne => x != y
  }

  /** The comparison is true of the row. */
  predicate Holds(row: Row, e: Expr)
    requires e.tag.Compare? && e.IsBinary()
  {
    var l, r := Value(row, e.children[0]), Value(row, e.children[1]);
    l.Some? && r.Some? && Relates(e.tag.cmp, l.value, r.value)
  }

  /** A comparison's fact is true of exactly the rows the comparison is true of, whichever side the literal is on. */
  lemma ComparisonMeans(row: Row, decimal: Decimal, tables: seq<TableRef>, e: Expr, f: Fact)
    requires Consistent(tables) && RowOk(row, decimal, tables) && e.tag.Compare? && e.IsBinary()
    requires f in KindFact(decimal, e, AliasMap(tables), false)
    ensures f.Compared? && (Holds(row, e) <==> Relates(f.cmp, KeyValue(row, f.target), row.number(f.literal)))
  {
    KeyMeans(row, decimal, tables, e.children[0]);
    KeyMeans(row, decimal, tables, e.children[1]);
  }

  /** A comparison states a fact exactly when both sides have keys and one of them, but not both, is a number. */
  lemma ComparisonIsRead(decimal: Decimal, e: Expr, aliases: map<Name, TableName>)
    requires e.tag.Compare? && e.IsBinary()
    ensures KindFact(decimal, e, aliases, false) != {}
            <==> var l := ExpressionKey(decimal, e.children[0], aliases, false);
                 var r := ExpressionKey(decimal, e.children[1], aliases, false);
                 l.Some? && r.Some? && l.value.NumberKey? != r.value.NumberKey?
  {
    var l := ExpressionKey(decimal, e.children[0], aliases, false);
    var r := ExpressionKey(decimal, e.children[1], aliases, false);
    if l.Some? && r.Some? && l.value.NumberKey? != r.value.NumberKey? {
      if r.value.NumberKey? {
        assert Compared(l.value, e.tag.cmp, r.value.value) in KindFact(decimal, e, aliases, false);
      } else {
        assert Compared(r.value, e.tag.cmp.Inverted(), l.value.value) in KindFact(decimal, e, aliases, false);
      }
    }
  }

  /** The two say the same of `x` and `y`, one of them with the sides exchanged. */
  ghost predicate Exchanged(a: Comparison, b: Comparison)
  {
    forall x, y :: Relates(a, y, x) <==> Relates(b, x, y)
  }

  lemma InvertedIsExchanged(a: Comparison, b: Comparison)
    ensures Exchanged(a, b) <==> b == a.Inverted()
  {
    assert Exchanged(a, b) ==>
        && (Relates(a, 0.0, 0.0) <==> Relates(b, 0.0, 0.0)) && (Relates(a, 1.0, 0.0) <==> Relates(b, 0.0, 1.0))
        && (Relates(a, 0.0, 1.0) <==> Relates(b, 1.0, 0.0));
  }

  /** The comparison says that what `k` stands for is in the relation to the number, on either side. */
  ghost predicate Says(decimal: Decimal, e: Expr, aliases: map<Name, TableName>, k: Key, cmp: Comparison, literal: string)
  {
    && e.tag.Compare? && e.IsBinary() && !k.NumberKey?
    && var l, r := ExpressionKey(decimal, e.children[0], aliases, false), ExpressionKey(decimal, e.children[1], aliases, false);
    || (l == Some(k) && r == Some(NumberKey(literal)) && e.tag.cmp == cmp)
    || (l == Some(NumberKey(literal)) && r == Some(k) && Exchanged(e.tag.cmp, cmp))
  }

  lemma SidesSay(decimal: Decimal, left: Expr, right: Expr, aliases: map<Name, TableName>, stated: Comparison, k: Key,
                 cmp: Comparison, literal: string)
    ensures Compared(k, cmp, literal) in ComparisonFacts(decimal, stated, left, right, aliases)
            <==> var l, r := ExpressionKey(decimal, left, aliases, false), ExpressionKey(decimal, right, aliases, false);
                 && !k.NumberKey?
                 && ((l == Some(k) && r == Some(NumberKey(literal)) && stated == cmp)
                     || (l == Some(NumberKey(literal)) && r == Some(k) && cmp == stated.Inverted()))
  {
    assert stated.Inverted().Inverted() == stated;
  }

  lemma ComparisonSays(decimal: Decimal, e: Expr, aliases: map<Name, TableName>, k: Key, cmp: Comparison, literal: string)
    requires e.tag.Compare? && e.IsBinary()
    ensures Compared(k, cmp, literal) in ComparisonFacts(decimal, e.tag.cmp, e.children[0], e.children[1], aliases)
            <==> Says(decimal, e, aliases, k, cmp, literal)
  {
    InvertedIsExchanged(e.tag.cmp, cmp);
    SidesSay(decimal, e.children[0], e.children[1], aliases, e.tag.cmp, k, cmp, literal);
  }

  lemma OnlyComparisonsCompare(decimal: Decimal, e: Expr, aliases: map<Name, TableName>, negated: bool, f: Fact)
    requires f.Compared?
    ensures f in Own(decimal, e, aliases, negated)
            <==> && !negated && e.tag.Compare? && e.IsBinary()
                 && f in ComparisonFacts(decimal, e.tag.cmp, e.children[0], e.children[1], aliases)
  {
    assert f !in FormulaFact(decimal, e, aliases);
  }

  lemma SaysExactly(decimal: Decimal, e: Expr, aliases: map<Name, TableName>, negated: bool, k: Key, cmp: Comparison,
                    literal: string)
    ensures Compared(k, cmp, literal) in Own(decimal, e, aliases, negated)
            <==> !negated && Says(decimal, e, aliases, k, cmp, literal)
  {
    OnlyComparisonsCompare(decimal, e, aliases, negated, Compared(k, cmp, literal));
    if e.tag.Compare? && e.IsBinary() {
      ComparisonSays(decimal, e, aliases, k, cmp, literal);
    }
  }

  /** Somewhere in the statement, not under a negation, a comparison says so. */
  ghost predicate SaysSomewhere(decimal: Decimal, s: Statement, k: Key, cmp: Comparison, literal: string)
  {
    exists path :: Leads(s.root, path) && !UnderNegation(s.root, path)
      && Says(decimal, NodeAt(s.root, path), AliasMap(s.tables), k, cmp, literal)
  }

  /** The comparisons a statement is read as making are those it makes. */
  lemma ComparedExactly(decimal: Decimal, s: Statement, k: Key, cmp: Comparison, literal: string)
    ensures Compared(k, cmp, literal) in FactsOf(decimal, s) <==> SaysSomewhere(decimal, s, k, cmp, literal)
  {
    FactsExactly(decimal, s, Compared(k, cmp, literal));
    forall path | Leads(s.root, path)
      ensures Compared(k, cmp, literal) in Own(decimal, NodeAt(s.root, path), AliasMap(s.tables), UnderNegation(s.root, path))
              <==> !UnderNegation(s.root, path) && Says(decimal, NodeAt(s.root, path), AliasMap(s.tables), k, cmp, literal)
    {
      SaysExactly(decimal, NodeAt(s.root, path), AliasMap(s.tables), UnderNegation(s.root, path), k, cmp, literal);
    }
  }

  // ----- orderings and aggregates

  /** The sort key puts the first row before the second. */
  predicate SortsBefore(first: Row, second: Row, e: Expr)
    requires e.tag.Ordered? && e.IsUnary()
  {
    var a, b := Value(first, e.children[0]), Value(second, e.children[0]);
    a.Some? && b.Some? && if e.tag.descending then a.value > b.value else a.value < b.value
  }

  lemma OrderingMeans(first: Row, second: Row, decimal: Decimal, tables: seq<TableRef>, e: Expr, f: Fact, negated: bool)
    requires Consistent(tables) && RowOk(first, decimal, tables) && RowOk(second, decimal, tables)
    requires e.tag.Ordered? && e.IsUnary() && f in KindFact(decimal, e, AliasMap(tables), negated)
    ensures f.Ordering?
    ensures SortsBefore(first, second, e)
            <==> var a, b := KeyValue(first, f.target), KeyValue(second, f.target); if f.descending then a > b else a < b
  {
    KeyMeans(first, decimal, tables, e.children[0]);
    KeyMeans(second, decimal, tables, e.children[0]);
  }

  /** The aggregates over a group of values; the median is the quantile of one half. */
  datatype Statistics = Statistics(of: (Aggregate, seq<real>) -> real, quantile: (real, seq<real>) -> real)
  {
    ghost predicate Ok()
    {
      forall xs :: of(Median, xs) == quantile(0.5, xs)
    }
  }

  function Values(rows: seq<Row>, e: Expr): Option<seq<real>>
  {
    if forall i :: 0 <= i < |rows| ==> Value(rows[i], e).Some?
    then Some(seq(|rows|, i requires 0 <= i < |rows| => Value(rows[i], e).value)) else None
  }

  /** The value of an aggregate, or of an ordered-set quantile, over a group of rows. */
  function AggregateValue(st: Statistics, rows: seq<Row>, e: Expr): Option<real>
  {
    match e.tag
    case Aggregated(aggregate) =>
      if e.IsUnary() && Values(rows, e.children[0]).Some? then Some(st.of(aggregate, Values(rows, e.children[0]).value))
      else None
    case WithinGroup(quantile) =>
      if e.IsUnary() && e.children[0].IsUnary() && rows != [] && Values(rows, e.children[0].children[0]).Some?
      then Some(st.quantile(rows[0].number(quantile), Values(rows, e.children[0].children[0]).value)) else None
    case _ => None
  }

  function KeyValues(rows: seq<Row>, k: Key): seq<real>
  {
    seq(|rows|, i requires 0 <= i < |rows| => KeyValue(rows[i], k))
  }

  lemma ValuesMean(rows: seq<Row>, decimal: Decimal, tables: seq<TableRef>, e: Expr)
    requires Consistent(tables) && forall i :: 0 <= i < |rows| ==> RowOk(rows[i], decimal, tables)
    requires ExpressionKey(decimal, e, AliasMap(tables), false).Some?
    ensures Values(rows, e) == Some(KeyValues(rows, ExpressionKey(decimal, e, AliasMap(tables), false).value))
  {
    forall i | 0 <= i < |rows|
      ensures Value(rows[i], e) == Some(KeyValue(rows[i], ExpressionKey(decimal, e, AliasMap(tables), false).value))
    {
      KeyMeans(rows[i], decimal, tables, e);
    }
    assert Values(rows, e).value == KeyValues(rows, ExpressionKey(decimal, e, AliasMap(tables), false).value);
  }

  /** An aggregate's fact names the aggregate whose value over the target the node computes, a median however it is
      written. */
  lemma AggregateMeans(st: Statistics, rows: seq<Row>, decimal: Decimal, tables: seq<TableRef>, e: Expr, f: Fact,
                       negated: bool)
    requires st.Ok() && rows != [] && rows[0].number("0.5") == 0.5
    requires Consistent(tables) && forall i :: 0 <= i < |rows| ==> RowOk(rows[i], decimal, tables)
    requires (e.tag.Aggregated? || e.tag.WithinGroup?) && f in KindFact(decimal, e, AliasMap(tables), negated)
    ensures f.Aggregating? && AggregateValue(st, rows, e) == Some(st.of(f.aggregate, KeyValues(rows, f.target)))
  {
    if e.tag.Aggregated? {
      ValuesMean(rows, decimal, tables, e.children[0]);
    } else {
      ValuesMean(rows, decimal, tables, e.children[0].children[0]);
      assert RowOk(rows[0], decimal, tables);
    }
  }

  /** An aggregate or an ordering states a fact exactly when its operand can be read, an ordered-set aggregate only as
      the median. */
  lemma OperandIsRead(decimal: Decimal, e: Expr, aliases: map<Name, TableName>, negated: bool)
    requires e.tag.Aggregated? || e.tag.WithinGroup? || e.tag.Ordered?
    ensures KindFact(decimal, e, aliases, negated) != {}
            <==> |e.children| == 1
                 && if e.tag.WithinGroup?
                    then var order := e.children[0];
                         && decimal(e.tag.quantile) == Some("0.5")
                         && order.tag.Ordered? && |order.children| == 1 && CanBeRead(decimal, order.children[0])
                    else CanBeRead(decimal, e.children[0])
  {
    if |e.children| == 1 {
      var operand := e.children[0];
      KeysExistExactly(decimal, operand, aliases, false);
      if operand.tag.Ordered? && |operand.children| == 1 {
        KeysExistExactly(decimal, operand.children[0], aliases, false);
      }
      var k := ExpressionKey(decimal, if e.tag.WithinGroup? && operand.IsUnary() then operand.children[0] else operand,
                             aliases, false);
      if k.Some? {
        assert e.tag.Aggregated? ==> Aggregating(k.value, e.tag.aggregate) in KindFact(decimal, e, aliases, negated);
        assert e.tag.Ordered? ==> Ordering(k.value, e.tag.descending) in KindFact(decimal, e, aliases, negated);
        assert e.tag.WithinGroup? && operand.tag.Ordered? && operand.IsUnary() && decimal(e.tag.quantile) == Some("0.5")
               ==> Aggregating(k.value, Median) in KindFact(decimal, e, aliases, negated);
      }
    }
  }

  // ----- which nodes speak

  /** The path leads from the root to a node. */
  predicate Leads(e: Expr, path: seq<nat>)
    decreases |path|
  {
    path == [] || (path[0] < |e.children| && Leads(e.children[path[0]], path[1..]))
  }

  function NodeAt(e: Expr, path: seq<nat>): Expr
    requires Leads(e, path)
    decreases |path|
  {
    if path == [] then e else NodeAt(e.children[path[0]], path[1..])
  }

  /** The node `i` steps down the path. */
  function Ancestor(e: Expr, path: seq<nat>, i: nat): Expr
    requires Leads(e, path) && i <= |path|
    decreases |path|
  {
    if i == 0 then e else Ancestor(e.children[path[0]], path[1..], i - 1)
  }

  /** No subquery, WHERE, HAVING or JOIN stands on the path from its `k`-th node on. */
  ghost predicate ClearFrom(e: Expr, path: seq<nat>, k: nat)
    requires Leads(e, path)
  {
    forall j :: k <= j < |path| ==> !Ancestor(e, path, j).tag.Select? && !Ancestor(e, path, j).tag.Clause?
  }

  /** Looking up from the node, a negation comes before any subquery, WHERE, HAVING or JOIN. */
  ghost predicate UnderNegation(e: Expr, path: seq<nat>)
    requires Leads(e, path)
  {
    exists i :: 0 <= i < |path| && Ancestor(e, path, i).tag.Not? && ClearFrom(e, path, i + 1)
  }

  /** What stands above a node, for a root that may itself stand under a negation. */
  predicate Negated(e: Expr, path: seq<nat>, outside: bool)
    requires Leads(e, path)
    decreases |path|
  {
    if path == [] then outside else Negated(e.children[path[0]], path[1..], Below(e.tag, outside))
  }

  lemma ClearBelow(e: Expr, path: seq<nat>, k: nat)
    requires Leads(e, path) && path != []
    ensures ClearFrom(e, path, k + 1) <==> ClearFrom(e.children[path[0]], path[1..], k)
    ensures ClearFrom(e, path, 0) <==> !e.tag.Select? && !e.tag.Clause? && ClearFrom(e.children[path[0]], path[1..], 0)
  {
    var child, rest := e.children[path[0]], path[1..];
    assert forall j :: 0 < j < |path| ==> Ancestor(e, path, j) == Ancestor(child, rest, j - 1);
    assert forall j :: 0 <= j < |rest| ==> Ancestor(child, rest, j) == Ancestor(e, path, j + 1);
    assert Ancestor(e, path, 0) == e;
    if !e.tag.Select? && !e.tag.Clause? && ClearFrom(child, rest, 0) {
      forall j | 0 <= j < |path| ensures !Ancestor(e, path, j).tag.Select? && !Ancestor(e, path, j).tag.Clause? {
        assert j > 0 ==> !Ancestor(child, rest, j - 1).tag.Select? && !Ancestor(child, rest, j - 1).tag.Clause?;
      }
    }
  }

  lemma NegationAbove(e: Expr, path: seq<nat>)
    requires Leads(e, path) && path != []
    ensures var child, rest := e.children[path[0]], path[1..];
            UnderNegation(e, path) <==> (e.tag.Not? && ClearFrom(child, rest, 0)) || UnderNegation(child, rest)
  {
    var child, rest := e.children[path[0]], path[1..];
    if i :| 0 <= i < |path| && Ancestor(e, path, i).tag.Not? && ClearFrom(e, path, i + 1) {
      ClearBelow(e, path, i);
      if i > 0 {
        assert Ancestor(child, rest, i - 1).tag.Not? && ClearFrom(child, rest, i - 1 + 1);
      }
    }
    if i :| 0 <= i < |rest| && Ancestor(child, rest, i).tag.Not? && ClearFrom(child, rest, i + 1) {
      ClearBelow(e, path, i + 1);
      assert Ancestor(e, path, i + 1).tag.Not?;
    }
    ClearBelow(e, path, 0);
    assert Ancestor(e, path, 0) == e;
  }

  /** Carrying a negation down and looking for one from below agree. */
  lemma {:induction false} NegatedExactly(e: Expr, path: seq<nat>, outside: bool)
    requires Leads(e, path)
    ensures Negated(e, path, outside) <==> UnderNegation(e, path) || (outside && ClearFrom(e, path, 0))
    decreases |path|
  {
    if path != [] {
      NegatedExactly(e.children[path[0]], path[1..], Below(e.tag, outside));
      NegationAbove(e, path);
      ClearBelow(e, path, 0);
    }
  }

  /** A node of the tree states the fact. */
  ghost predicate StatedAt(decimal: Decimal, e: Expr, aliases: map<Name, TableName>, outside: bool, path: seq<nat>, f: Fact)
  {
    Leads(e, path) && f in Own(decimal, NodeAt(e, path), aliases, Negated(e, path, outside))
  }

  lemma StatedBelow(decimal: Decimal, e: Expr, aliases: map<Name, TableName>, outside: bool, i: nat, rest: seq<nat>, f: Fact)
    requires i < |e.children|
    ensures StatedAt(decimal, e, aliases, outside, [i] + rest, f)
            <==> StatedAt(decimal, e.children[i], aliases, Below(e.tag, outside), rest, f)
  {
    var path := [i] + rest;
    assert path[0] == i && path[1..] == rest;
  }

  lemma PartWith(decimal: Decimal, e: Expr, aliases: map<Name, TableName>, below: bool, f: Fact) returns (i: nat)
    requires f in Union(CollectEach(decimal, e, aliases, below))
    ensures i < |e.children| && f in Collect(decimal, e.children[i], aliases, below)
  {
    var parts := CollectEach(decimal, e, aliases, below);
    i :| i < |parts| && f in parts[i];
  }

  lemma {:induction false} CollectedIsStated(decimal: Decimal, e: Expr, aliases: map<Name, TableName>, outside: bool,
                                             f: Fact) returns (path: seq<nat>)
    requires f in Collect(decimal, e, aliases, outside)
    ensures StatedAt(decimal, e, aliases, outside, path, f)
    decreases e
  {
    if f in Own(decimal, e, aliases, outside) {
      path := [];
    } else {
      var i := PartWith(decimal, e, aliases, Below(e.tag, outside), f);
      var rest := CollectedIsStated(decimal, e.children[i], aliases, Below(e.tag, outside), f);
      path := [i] + rest;
      StatedBelow(decimal, e, aliases, outside, i, rest, f);
    }
  }

  lemma {:induction false} StatedIsCollected(decimal: Decimal, e: Expr, aliases: map<Name, TableName>, outside: bool,
                                             path: seq<nat>, f: Fact)
    requires StatedAt(decimal, e, aliases, outside, path, f)
    ensures f in Collect(decimal, e, aliases, outside)
    decreases |path|
  {
    if path != [] {
      var i, rest := path[0], path[1..];
      assert path == [i] + rest;
      StatedBelow(decimal, e, aliases, outside, i, rest, f);
      StatedIsCollected(decimal, e.children[i], aliases, Below(e.tag, outside), rest, f);
      assert f in CollectEach(decimal, e, aliases, Below(e.tag, outside))[i];
    }
  }

  /** The facts of a statement are exactly those its nodes state, each read under a negation or not as looking up from
      the node says. */
  lemma FactsExactly(decimal: Decimal, s: Statement, f: Fact)
    ensures f in FactsOf(decimal, s)
            <==> exists path :: Leads(s.root, path)
                   && f in Own(decimal, NodeAt(s.root, path), AliasMap(s.tables), UnderNegation(s.root, path))
  {
    var aliases := AliasMap(s.tables);
    if f in FactsOf(decimal, s) {
      var path := CollectedIsStated(decimal, s.root, aliases, false, f);
      NegatedExactly(s.root, path, false);
    }
    if path :| Leads(s.root, path) && f in Own(decimal, NodeAt(s.root, path), aliases, UnderNegation(s.root, path)) {
      NegatedExactly(s.root, path, false);
      StatedIsCollected(decimal, s.root, aliases, false, path, f);
    }
  }

  // ----- formulas

  /** The node at the path is a column with that key. */
  ghost predicate ColumnAt(e: Expr, aliases: map<Name, TableName>, path: seq<nat>, k: Key)
  {
    Leads(e, path) && NodeAt(e, path).tag.Column? && ColumnKey(NodeAt(e, path).tag, aliases, false) == Some(k)
  }

  ghost predicate Mentions(e: Expr, aliases: map<Name, TableName>, k: Key)
  {
    exists path :: ColumnAt(e, aliases, path, k)
  }

  lemma {:induction false} FieldsAreMentioned(e: Expr, aliases: map<Name, TableName>, k: Key)
    ensures k in Fields(e, aliases) <==> Mentions(e, aliases, k)
    decreases e
  {
    var parts := seq(|e.children|, i requires 0 <= i < |e.children| => Fields(e.children[i], aliases));
    forall i | 0 <= i < |e.children| ensures k in parts[i] <==> Mentions(e.children[i], aliases, k) {
      FieldsAreMentioned(e.children[i], aliases, k);
    }
    if k in OwnField(e, aliases) {
      assert ColumnAt(e, aliases, [], k);
    }
    if i, rest :| 0 <= i < |e.children| && ColumnAt(e.children[i], aliases, rest, k) {
      var path := [i] + rest;
      assert path[0] == i && path[1..] == rest;
      assert ColumnAt(e, aliases, path, k);
    }
    if path :| ColumnAt(e, aliases, path, k) {
      if path != [] {
        assert ColumnAt(e.children[path[0]], aliases, path[1..], k);
      }
    }
  }

  /** The key of what stands between the operators of a formula: its own where it can be read, otherwise that of the
      one field it mentions, however often. */
  ghost predicate Stands(decimal: Decimal, e: Expr, aliases: map<Name, TableName>, k: Key)
  {
    if CanBeRead(decimal, e) then ExpressionKey(decimal, e, aliases, false) == Some(k)
    else forall other :: Mentions(e, aliases, other) <==> other == k
  }

  lemma OperandStands(decimal: Decimal, e: Expr, aliases: map<Name, TableName>, k: Key)
    ensures OperandKey(decimal, e, aliases) == Some(k) <==> Stands(decimal, e, aliases, k)
  {
    KeysExistExactly(decimal, e, aliases, false);
    var fields := Fields(e, aliases);
    forall other ensures other in fields <==> Mentions(e, aliases, other) {
      FieldsAreMentioned(e, aliases, other);
    }
    if forall other :: Mentions(e, aliases, other) <==> other == k {
      assert fields == {k};
    }
    if |fields| == 1 {
      forall other | other in fields ensures other == TheOne(fields) {
        OnlyOne(fields, other, TheOne(fields));
      }
    }
  }

  /** The expression is the formula `k`: its operators outside wrappers, over what stands between them. */
  ghost predicate Computes(decimal: Decimal, e: Expr, aliases: map<Name, TableName>, k: Key)
    decreases e
  {
    match e.tag
    case Arith(op) =>
      && |e.children| == 2 && k.OpKey? && k.op == op
      && Computes(decimal, e.children[0], aliases, k.left) && Computes(decimal, e.children[1], aliases, k.right)
    case Transparent =>
      if |e.children| == 1 then Computes(decimal, e.children[0], aliases, k) else Stands(decimal, e, aliases, k)
    case _ => Stands(decimal, e, aliases, k)
  }

  lemma {:induction false} FormulaIsComputed(decimal: Decimal, e: Expr, aliases: map<Name, TableName>, k: Key)
    ensures FormulaKey(decimal, e, aliases) == Some(k) <==> Computes(decimal, e, aliases, k)
    decreases e
  {
    if e.tag.Transparent? && |e.children| == 1 {
      FormulaIsComputed(decimal, e.children[0], aliases, k);
    } else if e.tag.Arith? {
      if |e.children| == 2 && k.OpKey? {
        FormulaIsComputed(decimal, e.children[0], aliases, k.left);
        FormulaIsComputed(decimal, e.children[1], aliases, k.right);
      }
    } else {
      OperandStands(decimal, e, aliases, k);
    }
  }

  ghost predicate ComputesSomewhere(decimal: Decimal, s: Statement, k: Key)
  {
    exists path :: Leads(s.root, path) && Computes(decimal, NodeAt(s.root, path), AliasMap(s.tables), k)
  }

  /** The formulas a statement is read as computing are those some node computes, negated or not. */
  lemma ComputedExactly(decimal: Decimal, s: Statement, k: Key)
    ensures Computed(k) in FactsOf(decimal, s)
            <==> k.OpKey? && ComputesSomewhere(decimal, s, k)
  {
    FactsExactly(decimal, s, Computed(k));
    forall path | Leads(s.root, path)
      ensures Computed(k) in Own(decimal, NodeAt(s.root, path), AliasMap(s.tables), UnderNegation(s.root, path))
              <==> k.OpKey? && Computes(decimal, NodeAt(s.root, path), AliasMap(s.tables), k)
    {
      FormulaIsComputed(decimal, NodeAt(s.root, path), AliasMap(s.tables), k);
      NoFormulaByKind(decimal, NodeAt(s.root, path), AliasMap(s.tables), UnderNegation(s.root, path), k);
    }
  }

  lemma NoFormulaByKind(decimal: Decimal, e: Expr, aliases: map<Name, TableName>, negated: bool, k: Key)
    ensures Computed(k) !in KindFact(decimal, e, aliases, negated)
  {
  }
}
