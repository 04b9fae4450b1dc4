/** The semantic guard: a contradiction is reported only for a directly comparable, explicit conflict
    (valibra_agent/sql_grounding/semantic_guard_v0.py). */
module SemanticGuard {
  import opened Options
  import opened GuardKeys
  import opened GuardInvariance
  import opened GuardMeaning

  /** What the guard takes from its surroundings: decimal normalisation, and the order of printed keys. */
  datatype Guard = Guard(decimal: Decimal, arrange: seq<Key> -> seq<Key>)
  {
    ghost predicate Valid()
    {
      forall ks :: multiset(arrange(ks)) == multiset(ks)
    }
  }

  // ----- contract expressions

  /** What the SQL parser makes of a text. A parse error is caught; every other exception, such as the tokenizer's for
      an unbalanced quote, is not. */
  datatype Reading<T> = Read(value: T) | Refused | Broken

  /** A value that is looked up in a set of names; one that cannot be hashed raises there. */
  datatype Part<T> = Given(value: T) | Missing | Unhashable

  /** A contract expression; `Field` holds its parsed text. */
  datatype Term = Field(parsed: Reading<Expr>) | Literal(text: string)
                | Operation(op: Arithmetic, left: Term, right: Term) | UnhashableOperation | Unreadable

  /** Reading the expression raises. */
  predicate Breaks(t: Term)
  {
    match t
    case Field(parsed) => parsed.Broken?
    case Operation(_, left, right) => Breaks(left) || Breaks(right)
    case UnhashableOperation => true
    case _ => false
  }

  predicate PartOf(part: Term, t: Term)
  {
    part == t || (t.Operation? && (PartOf(part, t.left) || PartOf(part, t.right)))
  }

  /** It raises if and only if some part of it does: a text that breaks the tokenizer, or an operator that cannot be
      hashed. */
  lemma {:induction false} BreaksExactly(t: Term)
    ensures Breaks(t) <==> exists part :: PartOf(part, t) && (part.UnhashableOperation? || (part.Field? && part.parsed.Broken?))
  {
    assert PartOf(t, t);
    if t.Operation? {
      BreaksExactly(t.left);
      BreaksExactly(t.right);
    }
  }

  /** A contract expression has a key exactly when all its texts can be read and its literals are finite numbers. */
  predicate TermReadable(g: Guard, t: Term)
  {
    match t
    case Field(parsed) => parsed.Read? && CanBeRead(g.decimal, parsed.value)
    case Literal(text) => g.decimal(text).Some?
    case Operation(_, left, right) => TermReadable(g, left) && TermReadable(g, right)
    case _ => false
  }

  lemma {:induction false} TermKeysExistExactly(g: Guard, t: Term)
    ensures TermKey(g, t).Some? <==> TermReadable(g, t)
  {
    match t
    case Field(parsed) =>
      if parsed.Read? {
        KeysExistExactly(g.decimal, parsed.value, map[], true);
      }
    case Operation(_, left, right) =>
      TermKeysExistExactly(g, left);
      TermKeysExistExactly(g, right);
    case _ =>
  }

  function TermKey(g: Guard, t: Term): Option<Key>
  {
    match t
    case Field(parsed) => if parsed.Read? then ExpressionKey(g.decimal, parsed.value, map[], true) else None
    case Literal(text) => NumberKeyOf(g.decimal, text)
    case Operation(op, left, right) =>
      var l, r := TermKey(g, left), TermKey(g, right);
      if l.Some? && r.Some? then Some(OpKey(op, l.value, r.value)) else None
    case _ => None
  }

  lemma {:induction false} BrokenHasNoKey(g: Guard, t: Term)
    requires Breaks(t)
    ensures TermKey(g, t).None?
  {
    if t.Operation? {
      if Breaks(t.left) {
        BrokenHasNoKey(g, t.left);
      } else {
        BrokenHasNoKey(g, t.right);
      }
    }
  }

  /** Same target: an unqualified field stands for a source's field, and the JSON operator is ignored. */
  predicate Equivalent(expected: Key, candidate: Key, sources: set<TableName>)
  {
    match (expected, candidate)
    case (FieldKey(q, n), FieldKey(q', n')) => n == n' && (q == q' || (q' == [] && q in sources))
    case (JsonKey(_, base, path), JsonKey(_, base', path')) => path == path' && Equivalent(base, base', sources)
    case (OpKey(op, l, r), OpKey(op', l', r')) => op == op' && Equivalent(l, l', sources) && Equivalent(r, r', sources)
    case _ => expected == candidate
  }

  lemma {:induction false} EquivalentIsReflexive(k: Key, sources: set<TableName>)
    ensures Equivalent(k, k, sources)
  {
    match k
    case JsonKey(_, base, _) =>
      EquivalentIsReflexive(base, sources);
    case OpKey(_, l, r) =>
      EquivalentIsReflexive(l, sources);
      EquivalentIsReflexive(r, sources);
    case _ =>
  }

  /** The value of a contract expression. */
  function TermValue(row: Row, t: Term): Option<real>
  {
    match t
    case Field(parsed) => if parsed.Read? then Value(row, parsed.value) else None
    case Literal(text) => Some(row.number(text))
    case Operation(op, left, right) =>
      if TermValue(row, left).Some? && TermValue(row, right).Some?
      then Some(row.apply(op, TermValue(row, left).value, TermValue(row, right).value)) else None
    case _ => None
  }

  /** A contract expression's key has the expression's value. */
  lemma {:induction false} TermMeans(g: Guard, row: Row, t: Term)
    requires Reads(row, g.decimal, map[], true) && TermKey(g, t).Some?
    ensures TermValue(row, t) == Some(KeyValue(row, TermKey(g, t).value))
  {
    match t
    case Field(parsed) =>
      KeyReads(row, g.decimal, map[], true, parsed.value);
    case Operation(_, left, right) =>
      TermMeans(g, row, left);
      TermMeans(g, row, right);
    case _ =>
  }

  /** On a row where an unqualified field is the field of any source that has it and both JSON operators agree,
      equivalent keys have the same value. */
  lemma {:induction false} EquivalentMeans(row: Row, expected: Key, candidate: Key, sources: set<TableName>)
    requires Equivalent(expected, candidate, sources)
    requires forall q: TableName, n: Name :: q in sources ==> row.field([], n) == row.field(q, n)
    requires forall x: real, path: seq<string> :: row.json(true, x, path) == row.json(false, x, path)
    ensures KeyValue(row, expected) == KeyValue(row, candidate)
  {
    match (expected, candidate)
    case (JsonKey(s, base, path), JsonKey(s', base', _)) =>
      EquivalentMeans(row, base, base', sources);
      assert row.json(s, KeyValue(row, base), path) == row.json(s', KeyValue(row, base), path);
    case (OpKey(_, l, r), OpKey(_, l', r')) =>
      EquivalentMeans(row, l, l', sources);
      EquivalentMeans(row, r, r', sources);
    case _ =>
  }

  // ----- invariants

  datatype Band = Band(cmp: Part<Comparison>, literal: string)

  /** A verified invariant; `None` stands for a missing or malformed part. */
  datatype Invariant =
    | Predicate(target: Option<Term>, cmp: Part<Comparison>, literal: Option<string>)
    | Bands(target: Option<Term>, bands: Option<seq<Band>>)
    | Formula(expression: Option<Term>)
    | Aggregation(target: Option<Term>, aggregate: Part<Aggregate>)
    | OrderedBy(target: Option<Term>, descending: Part<bool>)
    | Unknown

  /** What one invariant finds: nothing comparable, a match, a conflict, or an exception. */
  datatype Finding = Silent | Agrees | Conflicts | Raises

  function KeyOf(g: Guard, t: Option<Term>): Option<Key>
  {
    if t.Some? then TermKey(g, t.value) else None
  }

  predicate BreaksAt(t: Option<Term>)
  {
    t.Some? && Breaks(t.value)
  }

  /** The comparisons with the target. */
  function Matches(facts: set<Fact>, target: Key, sources: set<TableName>): set<(Comparison, string)>
  {
    set f | f in facts && f.Compared? && Equivalent(target, f.target, sources) :: (f.cmp, f.literal)
  }

  function PredicateFinding(g: Guard, inv: Invariant, facts: set<Fact>, sources: set<TableName>): Finding
    requires inv.Predicate?
  {
    // Without a readable payload the check returns one value where its caller takes two.
    if inv.target.None? || BreaksAt(inv.target) then Raises
    else
      var target := KeyOf(g, inv.target);
      if target.None? then Silent
      else if inv.cmp.Unhashable? then Raises
      else if inv.cmp.Missing? || inv.literal.None? || g.decimal(inv.literal.value).None? then Silent
      else
        var matches := Matches(facts, target.value, sources);
        if matches == {} then Silent
        else if (inv.cmp.value, g.decimal(inv.literal.value).value) in matches then Agrees
        else Conflicts
  }

  predicate Bounds(g: Guard, b: Band)
  {
    (b.cmp == Given(Lt) || b.cmp == Given(Gt)) && g.decimal(b.literal).Some?
  }

  predicate SameDirection(a: Comparison, b: Comparison)
  {
    (a.Lt? && (b.Lt? || b.Le?)) || (a.Gt? && (b.Gt? || b.Ge?))
  }

  /** A bound of the same direction is implied by the strict one and never holds the other way round too. */
  lemma SameDirectionMeans(a: Comparison, b: Comparison)
    ensures SameDirection(a, b)
            <==> (a == Lt || a == Gt) && forall x, y :: Relates(a, x, y) ==> Relates(b, x, y) && !Relates(b, y, x)
  {
    if (a == Lt || a == Gt) && forall x, y :: Relates(a, x, y) ==> Relates(b, x, y) && !Relates(b, y, x) {
      assert Relates(Lt, 0.0, 1.0) && Relates(Gt, 1.0, 0.0);
      assert Relates(a, 0.0, 1.0) ==> Relates(b, 0.0, 1.0) && !Relates(b, 1.0, 0.0);
      assert Relates(a, 1.0, 0.0) ==> Relates(b, 1.0, 0.0) && !Relates(b, 0.0, 1.0);
    }
  }

  /** A band is missed when its bound is absent while another bound of the same direction is there. */
  predicate Missed(g: Guard, b: Band, matches: set<(Comparison, string)>)
  {
    && Bounds(g, b)
    && (b.cmp.value, g.decimal(b.literal).value) !in matches
    && exists m :: m in matches && SameDirection(b.cmp.value, m.0)
  }

  /** The first band that ends the loop: one that is missed, or one whose operator cannot be looked up. */
  function FirstHalt(g: Guard, bands: seq<Band>, matches: set<(Comparison, string)>, k: nat): (r: nat)
    requires k <= |bands|
    ensures k <= r <= |bands| && (r < |bands| ==> bands[r].cmp.Unhashable? || Missed(g, bands[r], matches))
    ensures forall i :: k <= i < r ==> !bands[i].cmp.Unhashable? && !Missed(g, bands[i], matches)
    decreases |bands| - k
  {
    if k == |bands| || bands[k].cmp.Unhashable? || Missed(g, bands[k], matches) then k
    else FirstHalt(g, bands, matches, k + 1)
  }

  function BandFinding(g: Guard, inv: Invariant, facts: set<Fact>, sources: set<TableName>): Finding
    requires inv.Bands?
  {
    var target := KeyOf(g, inv.target);
    if BreaksAt(inv.target) then Raises
    else if target.None? || inv.bands.None? then Silent
    else
      var matches, bands := Matches(facts, target.value, sources), inv.bands.value;
      var halt := FirstHalt(g, bands, matches, 0);
      if halt < |bands| then (if bands[halt].cmp.Unhashable? then Raises else Conflicts)
      else if && (exists i :: 0 <= i < |bands| && Bounds(g, bands[i]))
              && (forall i :: 0 <= i < |bands| && Bounds(g, bands[i]) ==>
                    (bands[i].cmp.value, g.decimal(bands[i].literal).value) in matches)
           then Agrees else Silent
  }

  /** The loop over the bands stops at the first one that is missed or cannot be read. */
  method CheckBands(g: Guard, inv: Invariant, facts: set<Fact>, sources: set<TableName>) returns (r: Finding)
    requires inv.Bands?
    ensures r == BandFinding(g, inv, facts, sources)
  {
    if BreaksAt(inv.target) {
      return Raises;
    }
    var target := KeyOf(g, inv.target);
    if target.None? || inv.bands.None? {
      return Silent;
    }
    var matches, bands := Matches(facts, target.value, sources), inv.bands.value;
    ghost var halt := FirstHalt(g, bands, matches, 0);
    var expected, absent := false, false;
    for k := 0 to |bands|
      invariant k <= halt
      invariant expected <==> exists i :: 0 <= i < k && Bounds(g, bands[i])
      invariant absent <==> exists i :: 0 <= i < k && Bounds(g, bands[i])
                              && (bands[i].cmp.value, g.decimal(bands[i].literal).value) !in matches
    {
      if bands[k].cmp.Unhashable? {
        return Raises;
      }
      if Bounds(g, bands[k]) {
        expected := true;
        if (bands[k].cmp.value, g.decimal(bands[k].literal).value) !in matches {
          if exists m :: m in matches && SameDirection(bands[k].cmp.value, m.0) {
            assert Missed(g, bands[k], matches);
            return Conflicts;
          }
          absent := true;
        }
      }
    }
    r := if expected && !absent then Agrees else Silent;
  }

  function AggregationFinding(g: Guard, inv: Invariant, facts: set<Fact>, sources: set<TableName>): Finding
    requires inv.Aggregation?
  {
    var target := KeyOf(g, inv.target);
    if BreaksAt(inv.target) then Raises
    else if target.None? then Silent
    else if inv.aggregate.Unhashable? then Raises
    else if inv.aggregate.Missing? || inv.aggregate.value.Median? then Silent
    else
      var calls := set f | f in facts && f.Aggregating? && Equivalent(target.value, f.target, sources) :: f.aggregate;
      if calls == {} then Silent else if inv.aggregate.value in calls then Agrees else Conflicts
  }

  function OrderingFinding(g: Guard, inv: Invariant, facts: set<Fact>, sources: set<TableName>): Finding
    requires inv.OrderedBy?
  {
    var target := KeyOf(g, inv.target);
    if BreaksAt(inv.target) then Raises
    else if target.None? then Silent
    else if inv.descending.Unhashable? then Raises
    else if inv.descending.Missing? then Silent
    else
      var directions := set f | f in facts && f.Ordering? && Equivalent(target.value, f.target, sources) :: f.descending;
      if directions == {} then Silent else if inv.descending.value in directions then Agrees else Conflicts
  }

  // ----- formulas

  /** The fields of a key, in the order the guard prints them. */
  function KeyFields(g: Guard, k: Key): seq<Key>
  {
    match k
    case FieldKey(_, _) => [k]
    case NumberKey(_) => []
    case JsonKey(_, base, _) => g.arrange(KeyFields(g, base))
    case OpKey(_, l, r) => g.arrange(KeyFields(g, l) + KeyFields(g, r))
  }

  function FieldBag(k: Key): multiset<Key>
  {
    match k
    case FieldKey(_, _) => multiset{k}
    case NumberKey(_) => multiset{}
    case JsonKey(_, base, _) => FieldBag(base)
    case OpKey(_, l, r) => FieldBag(l) + FieldBag(r)
  }

  function Literals(k: Key): multiset<string>
  {
    match k
    case FieldKey(_, _) => multiset{}
    case NumberKey(value) => multiset{value}
    case JsonKey(_, base, _) => Literals(base)
    case OpKey(_, l, r) => Literals(l) + Literals(r)
  }

  lemma {:induction false} KeyFieldsAreTheBag(g: Guard, k: Key)
    requires g.Valid()
    ensures multiset(KeyFields(g, k)) == FieldBag(k)
  {
    match k
    case JsonKey(_, base, _) =>
      KeyFieldsAreTheBag(g, base);
    case OpKey(_, l, r) =>
      KeyFieldsAreTheBag(g, l);
      KeyFieldsAreTheBag(g, r);
      assert multiset(KeyFields(g, l) + KeyFields(g, r)) == multiset(KeyFields(g, l)) + multiset(KeyFields(g, r));
    case _ =>
  }

  /** How many fields and numbers a key is made of. */
  function Leaves(k: Key): nat
  {
    match k
    case JsonKey(_, base, _) => Leaves(base)
    case OpKey(_, l, r) => Leaves(l) + Leaves(r)
    case _ => 1
  }

  /** Every leaf is counted once, as a field or as a number. */
  lemma {:induction false} LeavesCounted(k: Key)
    ensures |FieldBag(k)| + |Literals(k)| == Leaves(k)
    ensures forall f :: f in FieldBag(k) ==> f.FieldKey?
  {
    match k
    case JsonKey(_, base, _) =>
      LeavesCounted(base);
    case OpKey(_, l, r) =>
      LeavesCounted(l);
      LeavesCounted(r);
    case _ =>
  }

  function FirstMatch(expected: Key, ks: seq<Key>, sources: set<TableName>): Option<nat>
  {
    if ks == [] then None
    else if Equivalent(expected, ks[0], sources) then Some(0)
    else
      var later := FirstMatch(expected, ks[1..], sources);
      if later.Some? then Some(later.value + 1) else None
  }

  lemma {:induction false} FirstMatchIsFirst(expected: Key, ks: seq<Key>, sources: set<TableName>)
    ensures var m := FirstMatch(expected, ks, sources);
            if m.Some? then
              && m.value < |ks| && Equivalent(expected, ks[m.value], sources)
              && forall i :: 0 <= i < m.value ==> !Equivalent(expected, ks[i], sources)
            else forall i :: 0 <= i < |ks| ==> !Equivalent(expected, ks[i], sources)
  {
    if ks != [] {
      FirstMatchIsFirst(expected, ks[1..], sources);
      assert forall i :: 0 < i < |ks| ==> ks[i] == ks[1..][i - 1];
    }
  }

  /** What is left of `candidates` after each expected field, in turn, has taken its first match. */
  function Unmatched(expected: seq<Key>, candidates: seq<Key>, sources: set<TableName>): Option<seq<Key>>
    decreases |expected|
  {
    if expected == [] then Some(candidates)
    else
      var before := Unmatched(expected[..|expected| - 1], candidates, sources);
      if before.None? then None
      else
        var m := FirstMatch(expected[|expected| - 1], before.value, sources);
        if m.Some? && m.value < |before.value| then Some(before.value[..m.value] + before.value[m.value + 1..]) else None
  }

  predicate Competes(g: Guard, expected: Key, candidate: Key, sources: set<TableName>)
  {
    Unmatched(KeyFields(g, expected), KeyFields(g, candidate), sources) == Some([]) && Literals(candidate) == Literals(expected)
  }

  /** The loop that takes one field after the other out of the remaining ones. */
  method TakesAll(expected: seq<Key>, candidates: seq<Key>, sources: set<TableName>) returns (all: bool)
    ensures all <==> Unmatched(expected, candidates, sources) == Some([])
  {
    var remaining := candidates;
    for k := 0 to |expected|
      invariant Unmatched(expected[..k], candidates, sources) == Some(remaining)
    {
      assert expected[..k + 1][..k] == expected[..k];
      var index := 0;
      while index < |remaining| && !Equivalent(expected[k], remaining[index], sources)
        invariant 0 <= index <= |remaining|
        invariant forall i :: 0 <= i < index ==> !Equivalent(expected[k], remaining[i], sources)
      {
        index := index + 1;
      }
      FirstMatchIsFirst(expected[k], remaining, sources);
      if index == |remaining| {
        assert Unmatched(expected[..k + 1], candidates, sources).None?;
        StaysUnmatched(expected, k + 1, candidates, sources);
        return false;
      }
      remaining := remaining[..index] + remaining[index + 1..];
    }
    assert expected[..|expected|] == expected;
    all := remaining == [];
  }

  lemma {:induction false} StaysUnmatched(expected: seq<Key>, k: nat, candidates: seq<Key>, sources: set<TableName>)
    requires k <= |expected| && Unmatched(expected[..k], candidates, sources).None?
    ensures Unmatched(expected, candidates, sources).None?
    decreases |expected| - k
  {
    if k == |expected| {
      assert expected[..k] == expected;
    } else {
      assert expected[..k + 1][..k] == expected[..k];
      StaysUnmatched(expected, k + 1, candidates, sources);
    }
  }

  function FormulaFinding(g: Guard, inv: Invariant, facts: set<Fact>, sources: set<TableName>): Finding
    requires inv.Formula?
  {
    var expected := KeyOf(g, inv.expression);
    if BreaksAt(inv.expression) then Raises
    else if expected.None? then Silent
    else if exists f :: f in facts && f.Computed? && Equivalent(expected.value, f.formula, sources) then Agrees
    else if exists f :: f in facts && f.Computed? && Competes(g, expected.value, f.formula, sources) then Conflicts
    else Silent
  }

  ghost predicate Aligned(expected: seq<Key>, p: seq<Key>, sources: set<TableName>)
  {
    |p| == |expected| && forall i :: 0 <= i < |p| ==> Equivalent(expected[i], p[i], sources)
  }

  /** A one-to-one correspondence between expected and observed fields. */
  ghost predicate Corresponds(expected: seq<Key>, observed: multiset<Key>, sources: set<TableName>)
  {
    exists p: seq<Key> :: Aligned(expected, p, sources) && multiset(p) == observed
  }

  lemma {:induction false} TakenFieldsCorrespond(expected: seq<Key>, candidates: seq<Key>, sources: set<TableName>)
    returns (p: seq<Key>)
    requires Unmatched(expected, candidates, sources).Some?
    ensures Aligned(expected, p, sources)
    ensures multiset(p) + multiset(Unmatched(expected, candidates, sources).value) == multiset(candidates)
    decreases |expected|
  {
    if expected == [] {
      p := [];
    } else {
      var first, last := expected[..|expected| - 1], expected[|expected| - 1];
      var before := Unmatched(first, candidates, sources).value;
      var q := TakenFieldsCorrespond(first, candidates, sources);
      var m := FirstMatch(last, before, sources).value;
      LastTaken(last, before, m, sources);
      p := q + [before[m]];
      AlignedNext(expected, q, before[m], sources);
    }
  }

  lemma LastTaken(last: Key, before: seq<Key>, m: nat, sources: set<TableName>)
    requires FirstMatch(last, before, sources) == Some(m)
    ensures m < |before| && Equivalent(last, before[m], sources)
    ensures multiset(before) == multiset{before[m]} + multiset(before[..m] + before[m + 1..])
  {
    FirstMatchIsFirst(last, before, sources);
    TakeOne(before, m);
  }

  lemma AlignedNext(expected: seq<Key>, p: seq<Key>, k: Key, sources: set<TableName>)
    requires expected != [] && Aligned(expected[..|expected| - 1], p, sources)
    requires Equivalent(expected[|expected| - 1], k, sources)
    ensures Aligned(expected, p + [k], sources)
  {
  }

  lemma TakeOne(ks: seq<Key>, m: nat)
    requires m < |ks|
    ensures multiset(ks) == multiset{ks[m]} + multiset(ks[..m] + ks[m + 1..])
  {
    assert ks == ks[..m] + [ks[m]] + ks[m + 1..];
  }

  /** A formula contradiction implies that no equivalent subexpression stands anywhere in the statement, and that some
      computed expression uses the same literals and, one to one, the same fields. */
  lemma FormulaContradictionMeans(g: Guard, inv: Invariant, facts: set<Fact>, sources: set<TableName>)
    requires g.Valid() && inv.Formula? && FormulaFinding(g, inv, facts, sources).Conflicts?
    ensures KeyOf(g, inv.expression).Some?
    ensures var expected := KeyOf(g, inv.expression).value;
            && (forall f :: f in facts && f.Computed? ==> !Equivalent(expected, f.formula, sources))
            && exists f :: f in facts && f.Computed? && Literals(f.formula) == Literals(expected)
                           && Corresponds(KeyFields(g, expected), FieldBag(f.formula), sources)
    ensures multiset(KeyFields(g, KeyOf(g, inv.expression).value)) == FieldBag(KeyOf(g, inv.expression).value)
  {
    var expected := KeyOf(g, inv.expression).value;
    KeyFieldsAreTheBag(g, expected);
    var f :| f in facts && f.Computed? && Competes(g, expected, f.formula, sources);
    KeyFieldsAreTheBag(g, f.formula);
    var p := TakenFieldsCorrespond(KeyFields(g, expected), KeyFields(g, f.formula), sources);
  }

  /** No field name stands both with and without a qualifier. */
  ghost predicate Unmixed(fields: multiset<Key>)
  {
    forall a, b :: a in fields && b in fields && a.FieldKey? && b.FieldKey? && a.name == b.name && a.qualifier == [] ==>
      b.qualifier == []
  }

  lemma MatchesAreAlike(expected: Key, a: Key, b: Key, fields: multiset<Key>, sources: set<TableName>)
    requires Unmixed(fields) && a in fields && b in fields && a.FieldKey? && b.FieldKey?
    requires Equivalent(expected, a, sources) && Equivalent(expected, b, sources)
    ensures a == b
  {
  }

  lemma TakesAlike(expected: Key, c: Key, before: seq<Key>, fields: multiset<Key>, sources: set<TableName>)
    requires Unmixed(fields) && multiset(before) <= fields && c in before
    requires (forall f :: f in fields ==> f.FieldKey?) && Equivalent(expected, c, sources)
    ensures var m := FirstMatch(expected, before, sources);
            && m.Some? && m.value < |before|
            && multiset(before) == multiset{c} + multiset(before[..m.value] + before[m.value + 1..])
  {
    FirstMatchIsFirst(expected, before, sources);
    var m := FirstMatch(expected, before, sources).value;
    assert before[m] in multiset(before) && c in multiset(before);
    MatchesAreAlike(expected, before[m], c, fields, sources);
    TakeOne(before, m);
  }

  lemma LastOfBag(p: seq<Key>, before: seq<Key>, fields: multiset<Key>)
    requires p != [] && multiset(p) <= fields && multiset(before) + multiset(p[..|p| - 1]) == fields
    ensures p[|p| - 1] in before && multiset(p[..|p| - 1]) <= fields && multiset(before) <= fields
    ensures multiset(p) == multiset(p[..|p| - 1]) + multiset{p[|p| - 1]}
  {
    var first, last := p[..|p| - 1], p[|p| - 1];
    assert p == first + [last];
    assert multiset(p)[last] == multiset(first)[last] + 1 && multiset(p)[last] <= fields[last];
    assert last in multiset(before);
  }

  /** The last expected field takes its own, or one just like it. */
  lemma GreedyNext(expected: seq<Key>, candidates: seq<Key>, p: seq<Key>, fields: multiset<Key>, sources: set<TableName>)
    requires Unmixed(fields) && forall c :: c in fields ==> c.FieldKey?
    requires expected != [] && Aligned(expected, p, sources) && multiset(p) <= fields
    requires var before := Unmatched(expected[..|expected| - 1], candidates, sources);
             before.Some? && multiset(before.value) + multiset(p[..|p| - 1]) == fields
    ensures var rest := Unmatched(expected, candidates, sources);
            rest.Some? && multiset(rest.value) + multiset(p) == fields
  {
    var k := |p| - 1;
    var before := Unmatched(expected[..k], candidates, sources).value;
    LastOfBag(p, before, fields);
    TakesAlike(expected[k], p[k], before, fields, sources);
  }

  /** Among unmixed fields, taking the first match never takes one that a later field needs. */
  lemma {:induction false} GreedyIsComplete(expected: seq<Key>, candidates: seq<Key>, p: seq<Key>, sources: set<TableName>)
    requires Unmixed(multiset(candidates)) && forall c :: c in multiset(candidates) ==> c.FieldKey?
    requires Aligned(expected, p, sources) && multiset(p) <= multiset(candidates)
    ensures var rest := Unmatched(expected, candidates, sources);
            rest.Some? && multiset(rest.value) + multiset(p) == multiset(candidates)
    decreases |expected|
  {
    if expected != [] {
      var k := |p| - 1;
      PrefixBag(p, k, multiset(candidates));
      GreedyIsComplete(expected[..k], candidates, p[..k], sources);
      GreedyNext(expected, candidates, p, multiset(candidates), sources);
    }
  }

  lemma PrefixBag(p: seq<Key>, k: nat, fields: multiset<Key>)
    requires k <= |p| && multiset(p) <= fields
    ensures multiset(p[..k]) <= fields
  {
    assert p == p[..k] + p[k..];
    assert multiset(p) == multiset(p[..k]) + multiset(p[k..]);
  }

  /** Some computed expression uses the same literals and, one to one, the same fields. */
  ghost predicate Competitor(g: Guard, expected: Key, facts: set<Fact>, sources: set<TableName>)
  {
    exists f :: f in facts && f.Computed? && Literals(f.formula) == Literals(expected)
      && Corresponds(KeyFields(g, expected), FieldBag(f.formula), sources)
  }

  /** Where no computed expression mixes a name with and without a qualifier, a formula is contradicted if and only if
      no equivalent expression is computed anywhere but a competing one is. */
  lemma FormulaContradictsExactly(g: Guard, inv: Invariant, facts: set<Fact>, sources: set<TableName>)
    requires g.Valid() && inv.Formula? && KeyOf(g, inv.expression).Some?
    requires forall f :: f in facts && f.Computed? ==> Unmixed(FieldBag(f.formula))
    ensures var expected := KeyOf(g, inv.expression).value;
            FormulaFinding(g, inv, facts, sources).Conflicts?
            <==> (forall f :: f in facts && f.Computed? ==> !Equivalent(expected, f.formula, sources))
                 && Competitor(g, expected, facts, sources)
  {
    var expected := KeyOf(g, inv.expression).value;
    if BreaksAt(inv.expression) {
      BrokenHasNoKey(g, inv.expression.value);
    } else if FormulaFinding(g, inv, facts, sources).Conflicts? {
      FormulaContradictionMeans(g, inv, facts, sources);
    } else if Competitor(g, expected, facts, sources) {
      CompetitorCompetes(g, expected, facts, sources);
    }
  }

  lemma CompetitorCompetes(g: Guard, expected: Key, facts: set<Fact>, sources: set<TableName>)
    requires g.Valid() && Competitor(g, expected, facts, sources)
    requires forall f :: f in facts && f.Computed? ==> Unmixed(FieldBag(f.formula))
    ensures exists f :: f in facts && f.Computed? && Competes(g, expected, f.formula, sources)
  {
    var f :| f in facts && f.Computed? && Literals(f.formula) == Literals(expected)
             && Corresponds(KeyFields(g, expected), FieldBag(f.formula), sources);
    CorrespondingCompetes(g, expected, f.formula, sources);
  }

  lemma CorrespondingCompetes(g: Guard, expected: Key, candidate: Key, sources: set<TableName>)
    requires g.Valid() && Unmixed(FieldBag(candidate)) && Literals(candidate) == Literals(expected)
    requires Corresponds(KeyFields(g, expected), FieldBag(candidate), sources)
    ensures Competes(g, expected, candidate, sources)
  {
    var fields := KeyFields(g, candidate);
    KeyFieldsAreTheBag(g, candidate);
    LeavesCounted(candidate);
    var p :| Aligned(KeyFields(g, expected), p, sources) && multiset(p) == FieldBag(candidate);
    GreedyIsComplete(KeyFields(g, expected), fields, p, sources);
    var rest := Unmatched(KeyFields(g, expected), fields, sources).value;
    assert |rest| == |multiset(rest)| == 0;
  }

  /** Of a name that stands with and without a qualifier, the first match may be the one a later field needs. */
  lemma GreedyMissesOne(q: TableName, s: TableName, n: Name)
    requires q != [] && s != [] && q != s
    ensures var expected := [FieldKey(q, n), FieldKey(s, n)];
            var observed := [FieldKey([], n), FieldKey(q, n)];
            && Corresponds(expected, multiset(observed), {q, s})
            && Unmatched(expected, observed, {q, s}).None?
  {
    var expected := [FieldKey(q, n), FieldKey(s, n)];
    var observed := [FieldKey([], n), FieldKey(q, n)];
    var p := [FieldKey(q, n), FieldKey([], n)];
    assert multiset(p) == multiset(observed) && Aligned(expected, p, {q, s});
    assert expected[..1] == [FieldKey(q, n)] && expected[..1][..0] == [];
    assert Unmatched(expected[..1][..0], observed, {q, s}) == Some(observed);
    assert observed[..0] + observed[1..] == [FieldKey(q, n)];
    assert Unmatched(expected[..1], observed, {q, s}) == Some([FieldKey(q, n)]);
    FirstMatchIsFirst(FieldKey(s, n), [FieldKey(q, n)], {q, s});
  }

  // ----- evaluation

  function FindingOf(g: Guard, inv: Invariant, facts: set<Fact>, sources: set<TableName>): Finding
  {
    match inv
    case Predicate(_, _, _) => PredicateFinding(g, inv, facts, sources)
    case Bands(_, _) => BandFinding(g, inv, facts, sources)
    case Formula(_) => FormulaFinding(g, inv, facts, sources)
    case Aggregation(_, _) => AggregationFinding(g, inv, facts, sources)
    case OrderedBy(_, _) => OrderingFinding(g, inv, facts, sources)
    case Unknown => Silent
  }

  /** The outcome; a contradiction names the invariant it conflicts with. */
  datatype Verdict = NoContradiction | Contradiction(at: nat) | Undecided | Raised

  predicate Stops(f: Finding)
  {
    f.Conflicts? || f.Raises?
  }

  function FindingsOf(g: Guard, invariants: seq<Invariant>, s: Statement): seq<Finding>
  {
    seq(|invariants|, i requires 0 <= i < |invariants| =>
      FindingOf(g, invariants[i], FactsOf(g.decimal, s), Sources(s)))
  }

  /** The position of the first finding from `k` on that ends the evaluation. */
  function FirstStop(fs: seq<Finding>, k: nat): (r: nat)
    requires k <= |fs|
    ensures k <= r <= |fs| && (r < |fs| ==> Stops(fs[r])) && forall i :: k <= i < r ==> !Stops(fs[i])
    decreases |fs| - k
  {
    if k == |fs| || Stops(fs[k]) then k else FirstStop(fs, k + 1)
  }

  function Verdicts(fs: seq<Finding>): Verdict
  {
    var stop := FirstStop(fs, 0);
    if stop < |fs| then (if fs[stop].Conflicts? then Contradiction(stop) else Raised)
    else if Agrees in fs then NoContradiction
    else Undecided
  }

  function Outcome(g: Guard, invariants: seq<Invariant>, parsed: Reading<Statement>): Verdict
  {
    if parsed.Broken? then Raised
    else if parsed.Refused? || invariants == [] then Undecided
    else Verdicts(FindingsOf(g, invariants, parsed.value))
  }

  function Marked(known: seq<bool>, n: nat): set<nat>
  {
    set i | 0 <= i < n && i < |known| && known[i]
  }

  lemma MarkedNext(known: seq<bool>, k: nat)
    requires k < |known|
    ensures |Marked(known, k + 1)| == |Marked(known, k)| + if known[k] then 1 else 0
  {
    assert Marked(known, k + 1) == Marked(known, k) + if known[k] then {k} else {};
  }

  /** How many invariants a verdict has looked at. */
  function LookedAt(verdict: Verdict, n: nat): nat
  {
    if verdict.Contradiction? then verdict.at + 1 else n
  }

  /** The loop over the invariants, which ends at the first one that stops it. */
  method Scan(known: seq<bool>, find: nat -> Finding) returns (verdict: Verdict, inspected: nat)
    ensures verdict == Verdicts(seq(|known|, i requires 0 <= i < |known| => find(i)))
    ensures !verdict.Raised? ==> inspected == |Marked(known, LookedAt(verdict, |known|))|
  {
    inspected := 0;
    ghost var fs := seq(|known|, i requires 0 <= i < |known| => find(i));
    var comparable := false;
    for k := 0 to |known|
      invariant inspected == |Marked(known, k)|
      invariant forall i :: 0 <= i < k ==> !Stops(fs[i])
      invariant comparable <==> Agrees in fs[..k]
    {
      MarkedNext(known, k);
      if known[k] {
        inspected := inspected + 1;
      }
      var finding := find(k);
      assert fs[k] == finding && fs[..k + 1] == fs[..k] + [finding];
      if Stops(finding) {
        var stop := FirstStop(fs, 0);
        assert stop == k;
        return if finding.Conflicts? then Contradiction(k) else Raised, inspected;
      }
      comparable := comparable || finding.Agrees?;
    }
    assert fs[..|known|] == fs;
    verdict := if comparable then NoContradiction else Undecided;
  }

  /** The invariants of a known kind among the first `n`. */
  function KnownOf(invariants: seq<Invariant>, n: nat): set<nat>
  {
    set i | 0 <= i < n && i < |invariants| && !invariants[i].Unknown?
  }

  /** A candidate text against a contract's invariants, if it has any. A text that is not exactly one statement is
      refused. The invariants of a known kind are counted up to the one that ends the evaluation. */
  method Evaluate(g: Guard, invariants: seq<Invariant>, parsed: Reading<Statement>)
    returns (verdict: Verdict, inspected: nat)
    ensures verdict == Outcome(g, invariants, parsed)
    ensures !verdict.Raised? ==>
              inspected == if parsed.Read? then |KnownOf(invariants, LookedAt(verdict, |invariants|))| else 0
  {
    if parsed.Broken? {
      return Raised, 0;
    }
    if parsed.Refused? || invariants == [] {
      return Undecided, 0;
    }
    var aliases := ReadAliases(parsed.value.tables);
    var facts, sources := Collect(g.decimal, parsed.value.root, aliases, false), Sources(parsed.value);
    var known := seq(|invariants|, i requires 0 <= i < |invariants| => !invariants[i].Unknown?);
    var find := (i: nat) => if i < |invariants| then FindingOf(g, invariants[i], facts, sources) else Silent;
    verdict, inspected := Scan(known, find);
    assert seq(|known|, i requires 0 <= i < |known| => find(i)) == FindingsOf(g, invariants, parsed.value);
    assert Marked(known, LookedAt(verdict, |known|)) == KnownOf(invariants, LookedAt(verdict, |invariants|));
  }

  /** A band that is read: a strict bound with a finite number. */
  ghost predicate IsStrictBound(g: Guard, b: Band)
  {
    b.cmp.Given? && b.cmp.value in {Lt, Gt} && g.decimal(b.literal).Some?
  }

  /** An explicit conflict: the statement says something about the invariant's very target, and nowhere what the
      invariant demands. */
  ghost predicate ExplicitConflict(g: Guard, inv: Invariant, facts: set<Fact>, sources: set<TableName>)
  {
    match inv
    case Predicate(target, cmp, literal) =>
      && KeyOf(g, target).Some? && cmp.Given? && literal.Some? && g.decimal(literal.value).Some?
      && var key := KeyOf(g, target).value;
      && (exists f :: f in facts && f.Compared? && Equivalent(key, f.target, sources))
      && (forall f :: f in facts && f.Compared? && Equivalent(key, f.target, sources) ==>
            f.cmp != cmp.value || f.literal != g.decimal(literal.value).value)
    case Bands(target, bands) =>
      && KeyOf(g, target).Some? && bands.Some?
      && var key := KeyOf(g, target).value;
      && exists b :: b in bands.value && IsStrictBound(g, b)
           && (exists f :: f in facts && f.Compared? && Equivalent(key, f.target, sources)
                           && SameDirection(b.cmp.value, f.cmp))
           && (forall f :: f in facts && f.Compared? && Equivalent(key, f.target, sources) ==>
                 f.cmp != b.cmp.value || f.literal != g.decimal(b.literal).value)
    case Formula(expression) =>
      && KeyOf(g, expression).Some?
      && var key := KeyOf(g, expression).value;
      && (exists f :: f in facts && f.Computed? && Competes(g, key, f.formula, sources))
      && (forall f :: f in facts && f.Computed? ==> !Equivalent(key, f.formula, sources))
    case Aggregation(target, aggregate) =>
      && KeyOf(g, target).Some? && aggregate.Given? && !aggregate.value.Median?
      && var key := KeyOf(g, target).value;
      && (exists f :: f in facts && f.Aggregating? && Equivalent(key, f.target, sources))
      && (forall f :: f in facts && f.Aggregating? && Equivalent(key, f.target, sources) ==> f.aggregate != aggregate.value)
    case OrderedBy(target, descending) =>
      && KeyOf(g, target).Some? && descending.Given?
      && var key := KeyOf(g, target).value;
      && (exists f :: f in facts && f.Ordering? && Equivalent(key, f.target, sources))
      && (forall f :: f in facts && f.Ordering? && Equivalent(key, f.target, sources) ==> f.descending != descending.value)
    case Unknown => false
  }

  /** An invariant raises: its target has no readable text, or the names it is looked up by cannot be hashed. A
      predicate raises also without a target, and a band only if no band before it is missed. */
  ghost predicate RaisesOn(g: Guard, inv: Invariant, facts: set<Fact>, sources: set<TableName>)
  {
    match inv
    case Predicate(target, cmp, _) => target.None? || BreaksAt(target) || (KeyOf(g, target).Some? && cmp.Unhashable?)
    case Bands(target, bands) =>
      || BreaksAt(target)
      || (KeyOf(g, target).Some? && bands.Some?
          && exists i :: 0 <= i < |bands.value| && bands.value[i].cmp.Unhashable?
               && forall j :: 0 <= j < i ==> !Missed(g, bands.value[j], Matches(facts, KeyOf(g, target).value, sources)))
    case Formula(expression) => BreaksAt(expression)
    case Aggregation(target, aggregate) => BreaksAt(target) || (KeyOf(g, target).Some? && aggregate.Unhashable?)
    case OrderedBy(target, descending) => BreaksAt(target) || (KeyOf(g, target).Some? && descending.Unhashable?)
    case Unknown => false
  }

  lemma MatchedExactly(facts: set<Fact>, target: Key, sources: set<TableName>, cmp: Comparison, literal: string)
    ensures (cmp, literal) in Matches(facts, target, sources)
            <==> exists f :: f in facts && f.Compared? && Equivalent(target, f.target, sources)
                   && f.cmp == cmp && f.literal == literal
  {
  }

  lemma PredicateConflictsExactly(g: Guard, inv: Invariant, facts: set<Fact>, sources: set<TableName>)
    requires inv.Predicate?
    requires !RaisesOn(g, inv, facts, sources)
    ensures PredicateFinding(g, inv, facts, sources).Conflicts? <==> ExplicitConflict(g, inv, facts, sources)
  {
    if inv.target.Some? && KeyOf(g, inv.target).Some? && inv.cmp.Given? && inv.literal.Some?
       && g.decimal(inv.literal.value).Some? {
      var key := KeyOf(g, inv.target).value;
      MatchedExactly(facts, key, sources, inv.cmp.value, g.decimal(inv.literal.value).value);
      forall f | f in facts && f.Compared? && Equivalent(key, f.target, sources)
        ensures (f.cmp, f.literal) in Matches(facts, key, sources)
      {
        MatchedExactly(facts, key, sources, f.cmp, f.literal);
      }
      if m :| m in Matches(facts, key, sources) {
        MatchedExactly(facts, key, sources, m.0, m.1);
      }
    }
  }

  lemma MissedExactly(g: Guard, b: Band, facts: set<Fact>, target: Key, sources: set<TableName>)
    requires Bounds(g, b)
    ensures Missed(g, b, Matches(facts, target, sources))
            <==> && (exists f :: f in facts && f.Compared? && Equivalent(target, f.target, sources)
                                 && SameDirection(b.cmp.value, f.cmp))
                 && (forall f :: f in facts && f.Compared? && Equivalent(target, f.target, sources) ==>
                       f.cmp != b.cmp.value || f.literal != g.decimal(b.literal).value)
  {
    var matches := Matches(facts, target, sources);
    MatchedExactly(facts, target, sources, b.cmp.value, g.decimal(b.literal).value);
    forall f | f in facts && f.Compared? && Equivalent(target, f.target, sources) ensures (f.cmp, f.literal) in matches {
      MatchedExactly(facts, target, sources, f.cmp, f.literal);
    }
    if m :| m in matches && SameDirection(b.cmp.value, m.0) {
      MatchedExactly(facts, target, sources, m.0, m.1);
    }
  }

  /** Where the loop over the bands halts decides between a conflict and an exception. */
  lemma HaltDecides(g: Guard, bands: seq<Band>, matches: set<(Comparison, string)>)
    ensures var halt := FirstHalt(g, bands, matches, 0);
            && ((halt < |bands| && bands[halt].cmp.Unhashable?)
                <==> exists i :: 0 <= i < |bands| && bands[i].cmp.Unhashable?
                       && forall j :: 0 <= j < i ==> !Missed(g, bands[j], matches))
            && (halt == |bands| <==> forall i :: 0 <= i < |bands| ==> !bands[i].cmp.Unhashable? && !Missed(g, bands[i], matches))
  {
    var halt := FirstHalt(g, bands, matches, 0);
    if i :| 0 <= i < |bands| && bands[i].cmp.Unhashable? && forall j :: 0 <= j < i ==> !Missed(g, bands[j], matches) {
      assert halt <= i;
    }
  }

  lemma BandConflictsExactly(g: Guard, inv: Invariant, facts: set<Fact>, sources: set<TableName>)
    requires inv.Bands?
    ensures BandFinding(g, inv, facts, sources).Raises? <==> RaisesOn(g, inv, facts, sources)
    ensures BandFinding(g, inv, facts, sources).Conflicts?
            <==> ExplicitConflict(g, inv, facts, sources) && !RaisesOn(g, inv, facts, sources)
  {
    if BreaksAt(inv.target) {
      BrokenHasNoKey(g, inv.target.value);
    } else if KeyOf(g, inv.target).Some? && inv.bands.Some? {
      var key, bands := KeyOf(g, inv.target).value, inv.bands.value;
      HaltDecides(g, bands, Matches(facts, key, sources));
      MissedBandIsExplicit(g, inv, facts, sources, bands, key);
    }
  }

  lemma MissedBandIsExplicit(g: Guard, inv: Invariant, facts: set<Fact>, sources: set<TableName>, bands: seq<Band>, key: Key)
    requires inv.Bands? && KeyOf(g, inv.target) == Some(key) && inv.bands == Some(bands)
    ensures ExplicitConflict(g, inv, facts, sources)
            <==> exists i :: 0 <= i < |bands| && Missed(g, bands[i], Matches(facts, key, sources))
  {
    forall b | b in bands && Bounds(g, b)
      ensures Missed(g, b, Matches(facts, key, sources))
              <==> && (exists f :: f in facts && f.Compared? && Equivalent(key, f.target, sources)
                                   && SameDirection(b.cmp.value, f.cmp))
                   && (forall f :: f in facts && f.Compared? && Equivalent(key, f.target, sources) ==>
                         f.cmp != b.cmp.value || f.literal != g.decimal(b.literal).value)
    {
      MissedExactly(g, b, facts, key, sources);
    }
    if b :| b in bands && Missed(g, b, Matches(facts, key, sources)) {
      var i :| 0 <= i < |bands| && bands[i] == b;
    }
  }

  lemma AggregationConflictsExactly(g: Guard, inv: Invariant, facts: set<Fact>, sources: set<TableName>)
    requires inv.Aggregation? && !RaisesOn(g, inv, facts, sources)
    ensures AggregationFinding(g, inv, facts, sources).Conflicts? <==> ExplicitConflict(g, inv, facts, sources)
  {
    if KeyOf(g, inv.target).Some? && inv.aggregate.Given? {
      var key := KeyOf(g, inv.target).value;
      var calls := set f | f in facts && f.Aggregating? && Equivalent(key, f.target, sources) :: f.aggregate;
      assert forall f :: f in facts && f.Aggregating? && Equivalent(key, f.target, sources) ==> f.aggregate in calls;
    }
  }

  lemma OrderingConflictsExactly(g: Guard, inv: Invariant, facts: set<Fact>, sources: set<TableName>)
    requires inv.OrderedBy? && !RaisesOn(g, inv, facts, sources)
    ensures OrderingFinding(g, inv, facts, sources).Conflicts? <==> ExplicitConflict(g, inv, facts, sources)
  {
    if KeyOf(g, inv.target).Some? && inv.descending.Given? {
      var key := KeyOf(g, inv.target).value;
      var directions := set f | f in facts && f.Ordering? && Equivalent(key, f.target, sources) :: f.descending;
      assert forall f :: f in facts && f.Ordering? && Equivalent(key, f.target, sources) ==> f.descending in directions;
    }
  }

  /** An invariant that raises is no explicit conflict, except for a band missed behind an unreadable one. */
  lemma RaisingIsNoConflict(g: Guard, inv: Invariant, facts: set<Fact>, sources: set<TableName>)
    requires RaisesOn(g, inv, facts, sources) && !inv.Bands?
    ensures FindingOf(g, inv, facts, sources) == Raises && !ExplicitConflict(g, inv, facts, sources)
  {
    var t := match inv
      case Predicate(target, _, _) => target
      case Formula(expression) => expression
      case Aggregation(target, _) => target
      case OrderedBy(target, _) => target
      case _ => None;
    if BreaksAt(t) {
      BrokenHasNoKey(g, t.value);
    }
  }

  /** Every kind of invariant conflicts exactly when the statement explicitly contradicts it, unless reading it
      raises. */
  lemma ConflictsAreExplicit(g: Guard, inv: Invariant, facts: set<Fact>, sources: set<TableName>)
    ensures FindingOf(g, inv, facts, sources).Raises? <==> RaisesOn(g, inv, facts, sources)
    ensures FindingOf(g, inv, facts, sources).Conflicts?
            <==> ExplicitConflict(g, inv, facts, sources) && !RaisesOn(g, inv, facts, sources)
  {
    if inv.Bands? {
      BandConflictsExactly(g, inv, facts, sources);
    } else if RaisesOn(g, inv, facts, sources) {
      RaisingIsNoConflict(g, inv, facts, sources);
    } else {
      match inv
      case Predicate(_, _, _) => PredicateConflictsExactly(g, inv, facts, sources);
      case Formula(_) =>
      case Aggregation(_, _) => AggregationConflictsExactly(g, inv, facts, sources);
      case OrderedBy(_, _) => OrderingConflictsExactly(g, inv, facts, sources);
      case _ =>
    }
  }

  /** An explicit agreement: the statement says what the invariant demands; of bands, it says all of them. */
  ghost predicate ExplicitAgreement(g: Guard, inv: Invariant, facts: set<Fact>, sources: set<TableName>)
  {
    match inv
    case Predicate(target, cmp, literal) =>
      && KeyOf(g, target).Some? && cmp.Given? && literal.Some? && g.decimal(literal.value).Some?
      && exists f :: f in facts && f.Compared? && Equivalent(KeyOf(g, target).value, f.target, sources)
           && f.cmp == cmp.value && f.literal == g.decimal(literal.value).value
    case Bands(target, bands) =>
      && KeyOf(g, target).Some? && bands.Some? && (exists b :: b in bands.value && IsStrictBound(g, b))
      && forall b :: b in bands.value && IsStrictBound(g, b) ==>
           exists f :: f in facts && f.Compared? && Equivalent(KeyOf(g, target).value, f.target, sources)
             && f.cmp == b.cmp.value && f.literal == g.decimal(b.literal).value
    case Formula(expression) =>
      && KeyOf(g, expression).Some?
      && exists f :: f in facts && f.Computed? && Equivalent(KeyOf(g, expression).value, f.formula, sources)
    case Aggregation(target, aggregate) =>
      && KeyOf(g, target).Some? && aggregate.Given? && aggregate.value != Median
      && exists f :: f in facts && f.Aggregating? && Equivalent(KeyOf(g, target).value, f.target, sources)
           && f.aggregate == aggregate.value
    case OrderedBy(target, descending) =>
      && KeyOf(g, target).Some? && descending.Given?
      && exists f :: f in facts && f.Ordering? && Equivalent(KeyOf(g, target).value, f.target, sources)
           && f.descending == descending.value
    case Unknown => false
  }

  lemma BandsAgree(g: Guard, inv: Invariant, facts: set<Fact>, sources: set<TableName>)
    requires inv.Bands? && !RaisesOn(g, inv, facts, sources)
    ensures BandFinding(g, inv, facts, sources).Agrees? <==> ExplicitAgreement(g, inv, facts, sources)
  {
    if KeyOf(g, inv.target).Some? && inv.bands.Some? {
      var key, bands := KeyOf(g, inv.target).value, inv.bands.value;
      var matches := Matches(facts, key, sources);
      HaltDecides(g, bands, matches);
      forall b | b in bands && Bounds(g, b)
        ensures (b.cmp.value, g.decimal(b.literal).value) in matches
                <==> exists f :: f in facts && f.Compared? && Equivalent(key, f.target, sources)
                       && f.cmp == b.cmp.value && f.literal == g.decimal(b.literal).value
      {
        MatchedExactly(facts, key, sources, b.cmp.value, g.decimal(b.literal).value);
      }
      forall i | 0 <= i < |bands| ensures bands[i] in bands {
      }
    }
  }

  lemma PredicateAgrees(g: Guard, inv: Invariant, facts: set<Fact>, sources: set<TableName>)
    requires inv.Predicate? && !RaisesOn(g, inv, facts, sources)
    ensures PredicateFinding(g, inv, facts, sources).Agrees? <==> ExplicitAgreement(g, inv, facts, sources)
  {
    if KeyOf(g, inv.target).Some? && inv.cmp.Given? && inv.literal.Some? && g.decimal(inv.literal.value).Some? {
      MatchedExactly(facts, KeyOf(g, inv.target).value, sources, inv.cmp.value, g.decimal(inv.literal.value).value);
    }
  }

  lemma AggregationAgrees(g: Guard, inv: Invariant, facts: set<Fact>, sources: set<TableName>)
    requires inv.Aggregation? && !RaisesOn(g, inv, facts, sources)
    ensures AggregationFinding(g, inv, facts, sources).Agrees? <==> ExplicitAgreement(g, inv, facts, sources)
  {
    if KeyOf(g, inv.target).Some? {
      var key := KeyOf(g, inv.target).value;
      var calls := set f | f in facts && f.Aggregating? && Equivalent(key, f.target, sources) :: f.aggregate;
      assert forall f :: f in facts && f.Aggregating? && Equivalent(key, f.target, sources) ==> f.aggregate in calls;
    }
  }

  lemma OrderingAgrees(g: Guard, inv: Invariant, facts: set<Fact>, sources: set<TableName>)
    requires inv.OrderedBy? && !RaisesOn(g, inv, facts, sources)
    ensures OrderingFinding(g, inv, facts, sources).Agrees? <==> ExplicitAgreement(g, inv, facts, sources)
  {
    if KeyOf(g, inv.target).Some? {
      var key := KeyOf(g, inv.target).value;
      var directions := set f | f in facts && f.Ordering? && Equivalent(key, f.target, sources) :: f.descending;
      assert forall f :: f in facts && f.Ordering? && Equivalent(key, f.target, sources) ==> f.descending in directions;
    }
  }

  /** Every kind of invariant agrees exactly when the statement explicitly says what it demands. */
  lemma AgreementsAreExplicit(g: Guard, inv: Invariant, facts: set<Fact>, sources: set<TableName>)
    requires !RaisesOn(g, inv, facts, sources)
    ensures FindingOf(g, inv, facts, sources).Agrees? <==> ExplicitAgreement(g, inv, facts, sources)
  {
    match inv
    case Predicate(_, _, _) => PredicateAgrees(g, inv, facts, sources);
    case Bands(_, _) => BandsAgree(g, inv, facts, sources);
    case Aggregation(_, _) => AggregationAgrees(g, inv, facts, sources);
    case OrderedBy(_, _) => OrderingAgrees(g, inv, facts, sources);
    case _ =>
  }

  /** A contradiction is reported for the first invariant the statement explicitly contradicts, and only for one. */
  lemma ContradictionIsExplicit(g: Guard, invariants: seq<Invariant>, s: Statement, k: nat)
    requires Outcome(g, invariants, Read(s)) == Contradiction(k)
    ensures k < |invariants| && ExplicitConflict(g, invariants[k], FactsOf(g.decimal, s), Sources(s))
    ensures forall i :: 0 <= i < k ==> !ExplicitConflict(g, invariants[i], FactsOf(g.decimal, s), Sources(s))
  {
    var fs := FindingsOf(g, invariants, s);
    ConflictsAreExplicit(g, invariants[k], FactsOf(g.decimal, s), Sources(s));
    forall i | 0 <= i < k ensures !ExplicitConflict(g, invariants[i], FactsOf(g.decimal, s), Sources(s)) {
      assert !Stops(fs[i]);
      ConflictsAreExplicit(g, invariants[i], FactsOf(g.decimal, s), Sources(s));
    }
  }

  /** Renaming all table aliases to distinct fresh names while mirroring any comparisons leaves the status and the
      conflicting invariant unchanged. */
  lemma OutcomeIsInvariant(g: Guard, invariants: seq<Invariant>, s: Statement, edit: Edit)
    requires Lawful(edit, s)
    ensures Outcome(g, invariants, Read(EditStatement(edit, s))) == Outcome(g, invariants, Read(s))
  {
    FactsKept(g.decimal, edit, s);
    assert FindingsOf(g, invariants, EditStatement(edit, s)) == FindingsOf(g, invariants, s);
  }

  /** The `i`-th invariant raises, and the statement explicitly contradicts none before it. */
  ghost predicate RaisesFirst(g: Guard, invariants: seq<Invariant>, s: Statement, i: nat)
  {
    && i < |invariants| && RaisesOn(g, invariants[i], FactsOf(g.decimal, s), Sources(s))
    && forall j :: 0 <= j < i ==> !ExplicitConflict(g, invariants[j], FactsOf(g.decimal, s), Sources(s))
  }

  /** The evaluation raises exactly when the candidate breaks the parser, or an invariant raises that no explicit
      conflict comes before. */
  lemma RaisesExactly(g: Guard, invariants: seq<Invariant>, parsed: Reading<Statement>)
    ensures Outcome(g, invariants, parsed).Raised?
            <==> parsed.Broken? || (parsed.Read? && exists i :: RaisesFirst(g, invariants, parsed.value, i))
  {
    if parsed.Read? {
      if i :| RaisesFirst(g, invariants, parsed.value, i) {
        RaisingStops(g, invariants, parsed.value, i);
      }
      if Verdicts(FindingsOf(g, invariants, parsed.value)).Raised? {
        StopRaises(g, invariants, parsed.value);
      }
    }
  }

  lemma FindingAt(g: Guard, invariants: seq<Invariant>, s: Statement, i: nat)
    requires i < |invariants|
    ensures var f, inv, facts, sources := FindingsOf(g, invariants, s)[i], invariants[i], FactsOf(g.decimal, s), Sources(s);
            && (f.Raises? <==> RaisesOn(g, inv, facts, sources))
            && (f.Conflicts? <==> ExplicitConflict(g, inv, facts, sources) && !RaisesOn(g, inv, facts, sources))
  {
    ConflictsAreExplicit(g, invariants[i], FactsOf(g.decimal, s), Sources(s));
  }

  /** Among findings the first one that stops is no later than any that raises. */
  lemma StopsByThen(fs: seq<Finding>, i: nat)
    requires i < |fs| && fs[i].Raises?
    ensures FirstStop(fs, 0) <= i && (Verdicts(fs).Raised? || fs[FirstStop(fs, 0)].Conflicts?)
  {
    assert Stops(fs[i]);
  }

  lemma NothingConflictsBefore(g: Guard, invariants: seq<Invariant>, s: Statement, i: nat, j: nat)
    requires RaisesFirst(g, invariants, s, i) && j <= i
    ensures !FindingsOf(g, invariants, s)[j].Conflicts?
  {
    FindingAt(g, invariants, s, j);
  }

  lemma RaisingFindingRaises(g: Guard, invariants: seq<Invariant>, s: Statement, i: nat)
    requires RaisesFirst(g, invariants, s, i)
    ensures FindingsOf(g, invariants, s)[i].Raises?
  {
    FindingAt(g, invariants, s, i);
  }

  lemma RaisingStops(g: Guard, invariants: seq<Invariant>, s: Statement, i: nat)
    requires RaisesFirst(g, invariants, s, i)
    ensures Verdicts(FindingsOf(g, invariants, s)).Raised?
  {
    var fs := FindingsOf(g, invariants, s);
    RaisingFindingRaises(g, invariants, s, i);
    StopsByThen(fs, i);
    NothingConflictsBefore(g, invariants, s, i, FirstStop(fs, 0));
  }

  lemma StopRaises(g: Guard, invariants: seq<Invariant>, s: Statement)
    requires Verdicts(FindingsOf(g, invariants, s)).Raised?
    ensures RaisesFirst(g, invariants, s, FirstStop(FindingsOf(g, invariants, s), 0))
  {
    var fs := FindingsOf(g, invariants, s);
    var stop := FirstStop(fs, 0);
    FindingAt(g, invariants, s, stop);
    forall j | 0 <= j < stop ensures !ExplicitConflict(g, invariants[j], FactsOf(g.decimal, s), Sources(s)) {
      assert !Stops(fs[j]);
      FindingAt(g, invariants, s, j);
    }
  }

  // ----- what a predicate's verdict says about the statement

  /** A readable predicate. */
  predicate Readable(g: Guard, inv: Invariant)
  {
    && inv.Predicate? && inv.target.Some? && KeyOf(g, inv.target).Some? && inv.cmp.Given? && inv.literal.Some?
    && g.decimal(inv.literal.value).Some?
  }

  /** The statement compares the predicate's target with some number. */
  ghost predicate SpeaksOf(g: Guard, s: Statement, key: Key)
  {
    exists k, cmp, literal :: Equivalent(key, k, Sources(s)) && SaysSomewhere(g.decimal, s, k, cmp, literal)
  }

  /** The statement makes the demanded comparison. */
  ghost predicate MakesDemand(g: Guard, s: Statement, key: Key, cmp: Comparison, literal: string)
  {
    exists k :: Equivalent(key, k, Sources(s)) && SaysSomewhere(g.decimal, s, k, cmp, literal)
  }

  lemma MatchesAreSaid(g: Guard, s: Statement, key: Key, cmp: Comparison, literal: string)
    ensures (cmp, literal) in Matches(FactsOf(g.decimal, s), key, Sources(s)) <==> MakesDemand(g, s, key, cmp, literal)
  {
    var facts, sources := FactsOf(g.decimal, s), Sources(s);
    MatchedExactly(facts, key, sources, cmp, literal);
    if f :| f in facts && f.Compared? && Equivalent(key, f.target, sources) && f.cmp == cmp && f.literal == literal {
      ComparedExactly(g.decimal, s, f.target, cmp, literal);
    }
    if k :| Equivalent(key, k, sources) && SaysSomewhere(g.decimal, s, k, cmp, literal) {
      ComparedExactly(g.decimal, s, k, cmp, literal);
    }
  }

  lemma SomeMatchIsSaid(g: Guard, s: Statement, key: Key)
    ensures Matches(FactsOf(g.decimal, s), key, Sources(s)) != {} <==> SpeaksOf(g, s, key)
  {
    var matches := Matches(FactsOf(g.decimal, s), key, Sources(s));
    if matches != {} {
      var m :| m in matches;
      MatchesAreSaid(g, s, key, m.0, m.1);
    }
    if k, cmp, literal :| Equivalent(key, k, Sources(s)) && SaysSomewhere(g.decimal, s, k, cmp, literal) {
      MatchesAreSaid(g, s, key, cmp, literal);
    }
  }

  /** A candidate against one readable predicate: it agrees if and only if it makes the demanded comparison somewhere,
      contradicts if and only if it compares the target otherwise only, and is undecided if it does not compare it. */
  lemma PredicateVerdict(g: Guard, inv: Invariant, s: Statement)
    requires Readable(g, inv)
    ensures var key, cmp, literal := KeyOf(g, inv.target).value, inv.cmp.value, g.decimal(inv.literal.value).value;
            Outcome(g, [inv], Read(s))
            == if MakesDemand(g, s, key, cmp, literal) then NoContradiction
               else if SpeaksOf(g, s, key) then Contradiction(0) else Undecided
  {
    var key, cmp, literal := KeyOf(g, inv.target).value, inv.cmp.value, g.decimal(inv.literal.value).value;
    MatchesAreSaid(g, s, key, cmp, literal);
    SomeMatchIsSaid(g, s, key);
    if BreaksAt(inv.target) {
      BrokenHasNoKey(g, inv.target.value);
    }
    OneInvariant(g, inv, s);
  }

  lemma OneInvariant(g: Guard, inv: Invariant, s: Statement)
    ensures var f := FindingOf(g, inv, FactsOf(g.decimal, s), Sources(s));
            Outcome(g, [inv], Read(s)) == match f
              case Silent => Undecided
              case Agrees => NoContradiction
              case Conflicts => Contradiction(0)
              case Raises => Raised
  {
    var fs := FindingsOf(g, [inv], s);
    assert fs == [fs[0]];
    assert FirstStop(fs, 0) == if Stops(fs[0]) then 0 else 1;
  }
}
