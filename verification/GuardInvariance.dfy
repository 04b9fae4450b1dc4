/** Renaming table aliases and mirroring comparisons leave every fact of a statement as it is. */
module GuardInvariance {
  import opened Options
  import opened GuardKeys

  /** An edit of a statement: new names for aliases, and which comparisons to write the other way round. */
  datatype Edit = Edit(names: map<Name, Ident>, mirrors: Expr -> bool)

  function EditAlias(edit: Edit, id: Ident): Ident
  {
    var key := IdentKey(id, false);
    if key.Some? && key.value in edit.names then edit.names[key.value] else id
  }

  function EditTable(edit: Edit, t: TableRef): TableRef
  {
    if t.alias.Some? then t.(alias := Some(EditAlias(edit, t.alias.value))) else t
  }

  function EditTables(edit: Edit, tables: seq<TableRef>): seq<TableRef>
  {
    seq(|tables|, i requires 0 <= i < |tables| => EditTable(edit, tables[i]))
  }

  function EditTag(edit: Edit, tag: Tag): Tag
  {
    if tag.Column? && |tag.qualifier| == 1 then tag.(qualifier := [EditAlias(edit, tag.qualifier[0])]) else tag
  }

  predicate IsMirrored(edit: Edit, e: Expr)
  {
    e.tag.Compare? && e.IsBinary() && edit.mirrors(e)
  }

  function EditExpr(edit: Edit, e: Expr): Expr
  {
    if IsMirrored(edit, e) then
      Node(Compare(e.tag.cmp.Inverted()), [EditExpr(edit, e.children[1]), EditExpr(edit, e.children[0])])
    else
      Node(EditTag(edit, e.tag),
           seq(|e.children|, i requires 0 <= i < |e.children| => EditExpr(edit, e.children[i])))
  }

  function EditStatement(edit: Edit, s: Statement): Statement
  {
    Statement(EditTables(edit, s.tables), EditExpr(edit, s.root))
  }

  // ----- when an edit is lawful

  /** The new names as keys. */
  function NewKeys(edit: Edit): set<Name>
  {
    set a | a in edit.names && IdentKey(edit.names[a], false).Some? :: IdentKey(edit.names[a], false).value
  }

  /** The new names are usable and distinct. */
  predicate NamesOk(edit: Edit)
  {
    && (forall a :: a in edit.names ==> IdentKey(edit.names[a], false).Some?)
    && (forall a, b :: a in edit.names && b in edit.names && a != b ==>
          IdentKey(edit.names[a], false) != IdentKey(edit.names[b], false))
  }

  /** No qualifier that is left alone turns into a new name. */
  predicate QualifierFresh(edit: Edit, tag: Tag)
  {
    tag.Column? && |tag.qualifier| == 1 && IdentKey(tag.qualifier[0], false).Some? ==>
      var q := IdentKey(tag.qualifier[0], false).value;
      q in edit.names || q !in NewKeys(edit)
  }

  predicate Fresh(edit: Edit, e: Expr)
  {
    QualifierFresh(edit, e.tag) && forall i :: 0 <= i < |e.children| ==> Fresh(edit, e.children[i])
  }

  /** Every bound alias is renamed, to distinct names fresh in the statement, and no alias names two tables. */
  predicate Lawful(edit: Edit, s: Statement)
  {
    && Consistent(s.tables) && NamesOk(edit) && edit.names.Keys == AliasMap(s.tables).Keys
    && Fresh(edit, s.root)
  }

  /** How the alias maps before and after an edit are related. */
  ghost predicate Related(edit: Edit, before: map<Name, TableName>, after: map<Name, TableName>)
  {
    && NamesOk(edit) && before.Keys == edit.names.Keys && after.Keys == NewKeys(edit)
    && (forall a :: a in before ==> IdentKey(edit.names[a], false).value in after
                                    && after[IdentKey(edit.names[a], false).value] == before[a])
  }

  // ----- the alias maps

  lemma EditedBinding(edit: Edit, t: TableRef)
    requires NamesOk(edit) && (Binding(t).Some? ==> Binding(t).value.0 in edit.names)
    ensures Binding(t).None? ==> Binding(EditTable(edit, t)).None?
    ensures Binding(t).Some? ==>
              Binding(EditTable(edit, t)) == Some((IdentKey(edit.names[Binding(t).value.0], false).value, Binding(t).value.1))
  {
  }

  lemma {:induction false} AliasMapsAreRelated(edit: Edit, tables: seq<TableRef>)
    requires Consistent(tables) && NamesOk(edit) && AliasMap(tables).Keys == edit.names.Keys
    ensures Related(edit, AliasMap(tables), AliasMap(EditTables(edit, tables)))
  {
    var edited := EditTables(edit, tables);
    ConsistentAliases(tables);
    forall i | 0 <= i < |tables| && Binding(tables[i]).Some?
      ensures Binding(tables[i]).value.0 in edit.names
    {
      assert Binds(tables, Binding(tables[i]).value.0, Binding(tables[i]).value.1);
    }
    EditedIsConsistent(edit, tables);
    ConsistentAliases(edited);
    forall a | a in edit.names
      ensures Binds(edited, IdentKey(edit.names[a], false).value, AliasMap(tables)[a])
    {
      assert Binds(tables, a, AliasMap(tables)[a]);
      var i :| 0 <= i < |tables| && Binding(tables[i]) == Some((a, AliasMap(tables)[a]));
      EditedBinding(edit, tables[i]);
      assert edited[i] == EditTable(edit, tables[i]);
    }
    forall k | k in AliasMap(edited) ensures k in NewKeys(edit) {
      assert Binds(edited, k, AliasMap(edited)[k]);
      var i :| 0 <= i < |edited| && Binding(edited[i]) == Some((k, AliasMap(edited)[k]));
      EditedBinding(edit, tables[i]);
    }
  }

  lemma EditedIsConsistent(edit: Edit, tables: seq<TableRef>)
    requires Consistent(tables) && NamesOk(edit)
    requires forall i :: 0 <= i < |tables| && Binding(tables[i]).Some? ==> Binding(tables[i]).value.0 in edit.names
    ensures Consistent(EditTables(edit, tables))
  {
    var edited := EditTables(edit, tables);
    forall i, j | 0 <= i < j < |edited| && Binding(edited[i]).Some? && Binding(edited[j]).Some?
                  && Binding(edited[i]).value.0 == Binding(edited[j]).value.0
      ensures Binding(edited[i]).value.1 == Binding(edited[j]).value.1
    {
      EditedBinding(edit, tables[i]);
      EditedBinding(edit, tables[j]);
    }
  }

  lemma SourcesKept(edit: Edit, tables: seq<TableRef>)
    ensures SourcesOf(EditTables(edit, tables)) == SourcesOf(tables)
  {
    var edited := EditTables(edit, tables);
    assert forall i :: 0 <= i < |tables| ==> TableKey(edited[i]) == TableKey(tables[i]);
    forall k | k in SourcesOf(tables) ensures k in SourcesOf(edited) {
      var t :| t in tables && TableKey(t) == Some(k);
      var i :| 0 <= i < |tables| && tables[i] == t;
      assert edited[i] in edited;
    }
    forall k | k in SourcesOf(edited) ensures k in SourcesOf(tables) {
      var t :| t in edited && TableKey(t) == Some(k);
      var i :| 0 <= i < |edited| && edited[i] == t;
      assert tables[i] in tables;
    }
  }

  // ----- the keys

  lemma ColumnKeyKept(edit: Edit, column: Tag, before: map<Name, TableName>, after: map<Name, TableName>)
    requires column.Column? && Related(edit, before, after) && QualifierFresh(edit, column)
    ensures ColumnKey(EditTag(edit, column), after, false) == ColumnKey(column, before, false)
  {
    if |column.qualifier| == 1 {
      var q, q' := column.qualifier[0], EditAlias(edit, column.qualifier[0]);
      assert column.qualifier == [q];
      OneQualifier(q);
      OneQualifier(q');
    } else if IdentKeys(column.qualifier, false).Some? {
      KeysLength(column.qualifier, false);
    }
  }

  lemma OneQualifier(q: Ident)
    ensures IdentKeys([q], false) == if IdentKey(q, false).Some? then Some([IdentKey(q, false).value]) else None
  {
    if IdentKey(q, false).Some? {
      OneName(q);
    }
  }

  lemma {:induction false} KeysLength(ids: seq<Ident>, canonical: bool)
    ensures IdentKeys(ids, canonical).Some? ==> |IdentKeys(ids, canonical).value| == |ids|
  {
    if ids != [] {
      KeysLength(ids[1..], canonical);
    }
  }

  /** The shape of an edited node. */
  lemma EditedNode(edit: Edit, e: Expr)
    ensures var d := EditExpr(edit, e);
            && |d.children| == |e.children|
            && (IsMirrored(edit, e) ==>
                  d == Node(Compare(e.tag.cmp.Inverted()), [EditExpr(edit, e.children[1]), EditExpr(edit, e.children[0])]))
            && (!IsMirrored(edit, e) ==>
                  d.tag == EditTag(edit, e.tag)
                  && forall i :: 0 <= i < |e.children| ==> d.children[i] == EditExpr(edit, e.children[i]))
  {
  }

  /** Where a child of `n` goes: a mirrored comparison reverses its two sides. */
  function Moved(swap: bool, n: nat, i: nat): nat
    requires i < n
  {
    if swap then n - 1 - i else i
  }

  lemma MovedChild(edit: Edit, e: Expr, i: nat)
    requires i < |e.children|
    ensures var d := EditExpr(edit, e);
            && |d.children| == |e.children|
            && d.children[Moved(IsMirrored(edit, e), |e.children|, i)] == EditExpr(edit, e.children[i])
  {
    EditedNode(edit, e);
  }

  lemma {:induction false} ExpressionKeyKept(decimal: Decimal, edit: Edit, e: Expr, before: map<Name, TableName>,
                                             after: map<Name, TableName>)
    requires Related(edit, before, after) && Fresh(edit, e)
    ensures ExpressionKey(decimal, EditExpr(edit, e), after, false) == ExpressionKey(decimal, e, before, false)
    decreases e
  {
    EditedNode(edit, e);
    if e.tag.Column? {
      ColumnKeyKept(edit, e.tag, before, after);
    } else if e.tag.Arith? && e.IsBinary() {
      ExpressionKeyKept(decimal, edit, e.children[0], before, after);
      ExpressionKeyKept(decimal, edit, e.children[1], before, after);
    } else if e.IsUnary() && (e.tag.Json? || e.tag.Transparent?) {
      ExpressionKeyKept(decimal, edit, e.children[0], before, after);
    } else if e.IsUnary() && e.tag.Negation? {
      EditedNode(edit, e.children[0]);
    }
  }

  lemma {:induction false} FieldsKept(edit: Edit, e: Expr, before: map<Name, TableName>, after: map<Name, TableName>)
    requires Related(edit, before, after) && Fresh(edit, e)
    ensures Fields(EditExpr(edit, e), after) == Fields(e, before)
    decreases e
  {
    var d := EditExpr(edit, e);
    EditedNode(edit, e);
    if e.tag.Column? {
      ColumnKeyKept(edit, e.tag, before, after);
    }
    assert OwnField(d, after) == OwnField(e, before);
    var swap := IsMirrored(edit, e);
    forall i | 0 <= i < |e.children|
      ensures Fields(d.children[Moved(swap, |e.children|, i)], after) == Fields(e.children[i], before)
    {
      MovedChild(edit, e, i);
      FieldsKept(edit, e.children[i], before, after);
    }
    SameUnion(seq(|d.children|, i requires 0 <= i < |d.children| => Fields(d.children[i], after)),
              seq(|e.children|, i requires 0 <= i < |e.children| => Fields(e.children[i], before)), swap);
  }

  /** The union does not depend on the order of its parts. */
  lemma SameUnion<T>(ds: seq<set<T>>, es: seq<set<T>>, swap: bool)
    requires |ds| == |es| && forall i :: 0 <= i < |es| ==> ds[Moved(swap, |es|, i)] == es[i]
    ensures Union(ds) == Union(es)
  {
    var n := |es|;
    forall x | x in Union(ds) ensures x in Union(es) {
      var j :| 0 <= j < n && x in ds[j];
      assert Moved(swap, n, Moved(swap, n, j)) == j;
      assert x in es[Moved(swap, n, j)];
    }
    forall x | x in Union(es) ensures x in Union(ds) {
      var i :| 0 <= i < n && x in es[i];
      assert x in ds[Moved(swap, n, i)];
    }
  }

  lemma OperandKeyKept(decimal: Decimal, edit: Edit, e: Expr, before: map<Name, TableName>, after: map<Name, TableName>)
    requires Related(edit, before, after) && Fresh(edit, e)
    ensures OperandKey(decimal, EditExpr(edit, e), after) == OperandKey(decimal, e, before)
  {
    ExpressionKeyKept(decimal, edit, e, before, after);
    FieldsKept(edit, e, before, after);
  }

  lemma {:induction false} FormulaKeyKept(decimal: Decimal, edit: Edit, e: Expr, before: map<Name, TableName>,
                                          after: map<Name, TableName>)
    requires Related(edit, before, after) && Fresh(edit, e)
    ensures FormulaKey(decimal, EditExpr(edit, e), after) == FormulaKey(decimal, e, before)
    decreases e
  {
    EditedNode(edit, e);
    if e.tag.Transparent? && e.IsUnary() {
      FormulaKeyKept(decimal, edit, e.children[0], before, after);
    } else if e.tag.Arith? {
      if e.IsBinary() {
        FormulaKeyKept(decimal, edit, e.children[0], before, after);
        FormulaKeyKept(decimal, edit, e.children[1], before, after);
      }
    } else {
      OperandKeyKept(decimal, edit, e, before, after);
    }
  }

  // ----- the facts

  lemma MirroredComparison(decimal: Decimal, cmp: Comparison, left: Expr, right: Expr, aliases: map<Name, TableName>)
    ensures ComparisonFacts(decimal, cmp.Inverted(), right, left, aliases)
            == ComparisonFacts(decimal, cmp, left, right, aliases)
  {
  }

  lemma ComparisonKept(decimal: Decimal, edit: Edit, e: Expr, before: map<Name, TableName>, after: map<Name, TableName>,
                       negated: bool)
    requires Related(edit, before, after) && Fresh(edit, e) && e.tag.Compare?
    ensures KindFact(decimal, EditExpr(edit, e), after, negated) == KindFact(decimal, e, before, negated)
  {
    EditedNode(edit, e);
    if e.IsBinary() {
      var left, right := e.children[0], e.children[1];
      ExpressionKeyKept(decimal, edit, left, before, after);
      ExpressionKeyKept(decimal, edit, right, before, after);
      MirroredComparison(decimal, e.tag.cmp, left, right, before);
    }
  }

  lemma KindFactKept(decimal: Decimal, edit: Edit, e: Expr, before: map<Name, TableName>, after: map<Name, TableName>,
                     negated: bool)
    requires Related(edit, before, after) && Fresh(edit, e)
    ensures KindFact(decimal, EditExpr(edit, e), after, negated) == KindFact(decimal, e, before, negated)
  {
    if e.tag.Compare? {
      ComparisonKept(decimal, edit, e, before, after, negated);
    } else {
      EditedNode(edit, e);
      if e.IsUnary() {
        var c := e.children[0];
        ExpressionKeyKept(decimal, edit, c, before, after);
        EditedNode(edit, c);
        if e.tag.WithinGroup? && c.tag.Ordered? && c.IsUnary() {
          ExpressionKeyKept(decimal, edit, c.children[0], before, after);
        }
      }
    }
  }

  lemma OwnKept(decimal: Decimal, edit: Edit, e: Expr, before: map<Name, TableName>, after: map<Name, TableName>,
                negated: bool)
    requires Related(edit, before, after) && Fresh(edit, e)
    ensures Own(decimal, EditExpr(edit, e), after, negated) == Own(decimal, e, before, negated)
  {
    FormulaKeyKept(decimal, edit, e, before, after);
    KindFactKept(decimal, edit, e, before, after, negated);
  }

  lemma {:induction false} CollectKept(decimal: Decimal, edit: Edit, e: Expr, before: map<Name, TableName>,
                                       after: map<Name, TableName>, negated: bool)
    requires Related(edit, before, after) && Fresh(edit, e)
    ensures Collect(decimal, EditExpr(edit, e), after, negated) == Collect(decimal, e, before, negated)
    decreases e, 1
  {
    EditedNode(edit, e);
    OwnKept(decimal, edit, e, before, after, negated);
    CollectEachKept(decimal, edit, e, before, after, Below(e.tag, negated));
  }

  lemma {:induction false} CollectEachKept(decimal: Decimal, edit: Edit, e: Expr, before: map<Name, TableName>,
                                           after: map<Name, TableName>, below: bool)
    requires Related(edit, before, after) && Fresh(edit, e)
    ensures Union(CollectEach(decimal, EditExpr(edit, e), after, below)) == Union(CollectEach(decimal, e, before, below))
    decreases e, 0
  {
    var ds, es := CollectEach(decimal, EditExpr(edit, e), after, below), CollectEach(decimal, e, before, below);
    var swap := IsMirrored(edit, e);
    forall i | 0 <= i < |e.children| ensures |ds| == |es| && ds[Moved(swap, |es|, i)] == es[i] {
      MovedChild(edit, e, i);
      CollectKept(decimal, edit, e.children[i], before, after, below);
    }
    EditedNode(edit, e);
    SameUnion(ds, es, swap);
  }

  /** Renaming every alias to distinct fresh names while mirroring any comparisons changes no fact and no source. */
  lemma FactsKept(decimal: Decimal, edit: Edit, s: Statement)
    requires Lawful(edit, s)
    ensures FactsOf(decimal, EditStatement(edit, s)) == FactsOf(decimal, s)
    ensures Sources(EditStatement(edit, s)) == Sources(s)
  {
    AliasMapsAreRelated(edit, s.tables);
    CollectKept(decimal, edit, s.root, AliasMap(s.tables), AliasMap(EditTables(edit, s.tables)), false);
    SourcesKept(edit, s.tables);
  }
}
