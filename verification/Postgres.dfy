/** The physical cluster and the operations on it (shared/db_utils.py). Every drop, create and execute on a troubled
    database may fail before or after it takes effect. */
module PostgresCluster {
  import opened Text
  import opened Options
  import opened SqlEngine
  import opened DatabaseNames

  type Cluster = map<string, Db>

  /** The two maps agree on every key outside `touched`. */
  ghost predicate Untouched<V>(before: map<string, V>, after: map<string, V>, touched: set<string>)
  {
    forall n {:trigger n in after} {:trigger after[n]} ::
      n !in touched ==> (n in before <==> n in after) && (n in before ==> after[n] == before[n])
  }

  lemma {:induction false} BlankStatementsDoNothing(e: Engine, db: Db, stmts: seq<string>, last: Option<Rows>)
    requires forall k :: 0 <= k < |stmts| ==> IsBlank(stmts[k])
    ensures ExecuteFrom(e, db, stmts, last, Calm) == Execution(db, Finished(last))
    decreases |stmts|
  {
    if stmts != [] {
      BlankStatementsDoNothing(e, db, stmts[1..], last);
    }
  }

  class Postgres {
    const engine: Engine
    /** The names a fault may strike; an operation on any other name fails only for a reason of its own. */
    const troubled: set<string>
    var databases: Cluster

    constructor (engine: Engine, troubled: set<string>, databases: Cluster)
      ensures this.engine == engine && this.troubled == troubled && this.databases == databases
    {
      this.engine, this.troubled, this.databases := engine, troubled, databases;
    }

    method DropTaskDb(name: string) returns (ok: bool)
      modifies this
      ensures databases == old(databases) || databases == old(databases) - {name}
      ensures ok ==> databases == old(databases) - {name}
      ensures name !in troubled && ValidIdentifier(name) ==> ok
      ensures !ValidIdentifier(name) ==> !ok && databases == old(databases)
    {
      var before, after: bool := *, *;
      if !ValidIdentifier(name) || (before && name in troubled) {
        return false;
      }
      databases := databases - {name};
      ok := !(after && name in troubled);
    }

    /** Drop (if it exists), then create from a template; a database is never its own template. */
    method DropAndCreateDb(name: string, template: string) returns (ok: bool)
      modifies this
      ensures Untouched(old(databases), databases, {name})
      ensures name == template || !ValidIdentifier(name) || !ValidIdentifier(template) ==> !ok && databases == old(databases)
      ensures ok ==> template in old(databases) && databases == old(databases)[name := Clone(old(databases)[template])]
      ensures ok ==> ValidIdentifier(name) && ValidIdentifier(template)
      ensures name !in troubled ==>
                ok == (ValidIdentifier(name) && ValidIdentifier(template) && name != template && template in old(databases))
      ensures name !in troubled && ValidIdentifier(name) && ValidIdentifier(template) && name != template && !ok ==>
                databases == old(databases) - {name}
    {
      var before, between, after: bool := *, *, *;
      if !ValidIdentifier(name) || !ValidIdentifier(template) || name == template || (before && name in troubled) {
        return false;
      }
      databases := databases - {name};
      if template !in databases || (between && name in troubled) {
        return false;
      }
      databases := databases[name := Clone(databases[template])];
      ok := !(after && name in troubled);
    }

    /** Environment SQL that must succeed; a fault may leave any part of it applied. */
    method ExecuteRequired(name: string, stmts: seq<string>) returns (ok: bool)
      modifies this
      ensures Untouched(old(databases), databases, {name})
      ensures ok && name in old(databases) ==>
                var x := Execute(engine, old(databases)[name], stmts, Calm);
                x.outcome.Finished? && databases == old(databases)[name := x.db]
      ensures name !in troubled && name in old(databases) ==>
                ok == Execute(engine, old(databases)[name], stmts, Calm).outcome.Finished?
    {
      var unreachable: bool := *;
      if forall k :: 0 <= k < |stmts| ==> IsBlank(stmts[k]) {
        if name in databases {
          BlankStatementsDoNothing(engine, databases[name], stmts, None);
        }
        return true;
      }
      if name !in databases || (unreachable && name in troubled) {
        return false;
      }
      var strike: Strike := *;
      if name !in troubled {
        strike := Calm;
      }
      var x := ExecuteQueries(engine, databases[name], stmts, strike);
      StrikeIsVisible(engine, databases[name], stmts, None, strike);
      databases := databases[name := x.db];
      ok := x.outcome.Finished?;
    }

    /** Drops every named database, going on after an error: only a name that a fault may strike, or that is no
        identifier, can be left behind. */
    method DropDatabases(names: seq<Option<string>>) returns (ok: bool)
      modifies this
      ensures Untouched(old(databases), databases, set n | n in names && n.Some? :: n.value)
      ensures ok ==> forall n :: n in names && n.Some? ==> n.value !in databases
      ensures forall n :: n in names && n.Some? && n.value !in troubled && ValidIdentifier(n.value) ==> n.value !in databases
      ensures (forall n :: n in names && n.Some? ==> n.value !in troubled && ValidIdentifier(n.value)) ==> ok
    {
      ok := true;
      var seen: set<string> := {};
      for i := 0 to |names|
        invariant Untouched(old(databases), databases, set n | n in names && n.Some? :: n.value)
        invariant seen == set n | n in names[..i] && n.Some? :: n.value
        invariant ok ==> seen !! databases.Keys
        invariant forall n :: n in seen && n !in troubled && ValidIdentifier(n) ==> n !in databases
        invariant (forall n :: n in names && n.Some? ==> n.value !in troubled && ValidIdentifier(n.value)) ==> ok
      {
        if names[i].Some? && names[i].value !in seen {
          assert names[i] in names;
          var dropped := DropTaskDb(names[i].value);
          ok := ok && dropped;
          seen := seen + {names[i].value};
        }
        assert names[..i + 1] == names[..i] + [names[i]];
      }
      assert names[..|names|] == names;
    }
  }
}
