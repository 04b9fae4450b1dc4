/** SQL execution seen from the evaluator (shared/db_utils.py): statements run one by one, each in its
    own transaction, and a fault of the connection can strike before or after the commit of any of them. */
module SqlEngine {
  import opened Options
  import opened Text

  type Rows = seq<seq<string>>

  /** The relational content of a database: table names and their rows. */
  datatype Relations = Relations(tables: map<string, seq<string>>)

  /** A physical database; `stats` are the relations whose cumulative statistics an ANALYZE filled. */
  datatype Db = Db(data: Relations, stats: set<string>)

  /** CREATE DATABASE ... TEMPLATE copies relational content and forgets statistics. */
  function Clone(db: Db): Db
  {
    Db(db.data, {})
  }

  /** One committed statement, or one that was rolled back. */
  datatype Effect = Done(db: Db, rows: Option<Rows>) | Failed | TimedOut

  /** How a custom test ended, and the content it left behind. */
  datatype TestRun = TestRun(db: Db, ok: bool)

  /** Everything the evaluator takes from PostgreSQL and from the benchmark's test code. */
  datatype Engine = Engine(
    run: (Db, string) -> Effect,
    split: string -> seq<string>,
    normalise: seq<string> -> seq<string>,
    sameRows: (bool, Option<Rows>, Option<Rows>) -> bool,
    customTest: (string, Db, seq<string>, seq<string>, Option<Rows>) -> TestRun)

  /** The pattern that selects maintenance statements: optional spaces, then the word ANALYZE. */
  predicate IsAnalyze(s: string)
  {
    var i := SkipSpaces(s, 0);
    MatchesIgnoringCase(s, i, "analyze") && (i + 7 < |s| ==> !IsWordChar(s[i + 7]))
  }

  predicate Spells(s: string, word: string)
  {
    |s| == |word| && forall j :: 0 <= j < |s| ==> Lower(s[j]) == word[j]
  }

  /** `s` is `k` spaces, the word ANALYZE in any case, and no word character behind it. */
  predicate AnalyzeAt(s: string, k: nat)
  {
    k + 7 <= |s| && IsBlank(s[..k]) && Spells(s[k..k + 7], "analyze") && (k + 7 == |s| || !IsWordChar(s[k + 7]))
  }

  lemma WordAt(s: string, k: nat, word: string)
    ensures MatchesIgnoringCase(s, k, word) <==> k + |word| <= |s| && Spells(s[k..k + |word|], word)
  {
    if k + |word| <= |s| {
      var t := s[k..k + |word|];
      assert forall j :: 0 <= j < |word| ==> t[j] == s[k + j];
    }
  }

  lemma SpacesEndAt(s: string, k: nat)
    requires k < |s| && IsBlank(s[..k]) && !IsSpace(s[k])
    ensures SkipSpaces(s, 0) == k
  {
    assert forall j :: 0 <= j < k ==> s[..k][j] == s[j];
  }

  /** The pattern, read without scanning. */
  lemma AnalyzePattern(s: string)
    ensures IsAnalyze(s) <==> exists k :: AnalyzeAt(s, k)
  {
    var i := SkipSpaces(s, 0);
    if k :| AnalyzeAt(s, k) {
      WordAt(s, k, "analyze");
      assert Lower(s[k + 0]) == "analyze"[0] == 'a';
      SpacesEndAt(s, k);
    }
    if IsAnalyze(s) {
      WordAt(s, i, "analyze");
      assert forall j :: 0 <= j < i ==> s[..i][j] == s[j];
      assert AnalyzeAt(s, i);
    }
  }

  /** ANALYZE fills statistics and leaves every row alone. */
  ghost predicate EngineOk(e: Engine)
  {
    forall db, s :: IsAnalyze(s) && e.run(db, s).Done? ==> e.run(db, s).db.data == db.data
  }

  /** Where a fault strikes a statement list: at no statement, or at the `at`-th one that is not blank. */
  datatype Strike = Calm | Hit(at: nat, committed: bool)
  {
    function Next(): Strike
    {
      if Hit? && at > 0 then Hit(at - 1, committed) else this
    }
  }

  datatype Outcome = Finished(rows: Option<Rows>) | Error | Timeout

  datatype Execution = Execution(db: Db, outcome: Outcome)

  /** The effect of one statement when the fault strikes right there. */
  function StruckAt(e: Engine, db: Db, s: string, committed: bool): Db
  {
    if committed && e.run(db, s).Done? then e.run(db, s).db else db
  }

  function ExecuteFrom(e: Engine, db: Db, stmts: seq<string>, last: Option<Rows>, strike: Strike): Execution
    decreases |stmts|
  {
    if stmts == [] then Execution(db, Finished(last))
    else if IsBlank(stmts[0]) then ExecuteFrom(e, db, stmts[1..], last, strike)
    else if strike.Hit? && strike.at == 0 then Execution(StruckAt(e, db, stmts[0], strike.committed), Error)
    else match e.run(db, stmts[0])
      case Done(db', rows) => ExecuteFrom(e, db', stmts[1..], rows, strike.Next())
      case Failed => Execution(db, Error)
      case TimedOut => Execution(db, Timeout)
  }

  /** What a list of statements does to a database. */
  function Execute(e: Engine, db: Db, stmts: seq<string>, strike: Strike): Execution
  {
    ExecuteFrom(e, db, stmts, None, strike)
  }

  method ExecuteQueries(e: Engine, db: Db, stmts: seq<string>, strike: Strike) returns (x: Execution)
    ensures x == Execute(e, db, stmts, strike)
  {
    var current, rows, pending := db, None, strike;
    for i := 0 to |stmts|
      invariant Execute(e, db, stmts, strike) == ExecuteFrom(e, current, stmts[i..], rows, pending)
    {
      assert stmts[i..][0] == stmts[i] && stmts[i..][1..] == stmts[i + 1..];
      if !IsBlank(stmts[i]) {
        if pending.Hit? && pending.at == 0 {
          return Execution(StruckAt(e, current, stmts[i], pending.committed), Error);
        }
        var effect := e.run(current, stmts[i]);
        match effect {
          case Done(db', r) => current, rows, pending := db', r, pending.Next();
          case Failed => return Execution(current, Error);
          case TimedOut => return Execution(current, Timeout);
        }
      }
    }
    x := Execution(current, Finished(rows));
  }

  /** The statements that are sent at all. */
  function Sent(stmts: seq<string>): nat
  {
    if stmts == [] then 0 else (if IsBlank(stmts[0]) then 0 else 1) + Sent(stmts[1..])
  }

  /** The fault is aimed at a statement of the list. */
  predicate Lands(strike: Strike, stmts: seq<string>)
  {
    strike.Hit? && strike.at < Sent(stmts)
  }

  /** A fault aimed past the list changes nothing, one aimed at a list that would finish makes it fail, and a list
      that finishes has done what it does without faults. */
  lemma {:induction false} StrikeIsVisible(e: Engine, db: Db, stmts: seq<string>, last: Option<Rows>, strike: Strike)
    ensures var x, calm := ExecuteFrom(e, db, stmts, last, strike), ExecuteFrom(e, db, stmts, last, Calm);
            && (!Lands(strike, stmts) ==> x == calm)
            && (Lands(strike, stmts) && calm.outcome.Finished? ==> x.outcome == Error)
            && (x.outcome.Finished? ==> x == calm)
    decreases |stmts|
  {
    if stmts == [] {
    } else if IsBlank(stmts[0]) {
      StrikeIsVisible(e, db, stmts[1..], last, strike);
    } else if strike.Hit? && strike.at == 0 {
    } else if e.run(db, stmts[0]).Done? {
      StrikeIsVisible(e, e.run(db, stmts[0]).db, stmts[1..], e.run(db, stmts[0]).rows, strike.Next());
    }
  }

  /** A list of ANALYZE statements keeps the relational content, wherever it stops. */
  lemma {:induction false} AnalyzeKeepsData(e: Engine, db: Db, stmts: seq<string>, last: Option<Rows>, strike: Strike)
    requires EngineOk(e)
    requires forall s :: s in stmts ==> IsAnalyze(s)
    ensures ExecuteFrom(e, db, stmts, last, strike).db.data == db.data
    decreases |stmts|
  {
    if stmts == [] {
    } else if IsBlank(stmts[0]) {
      AnalyzeKeepsData(e, db, stmts[1..], last, strike);
    } else if strike.Hit? && strike.at == 0 {
    } else if e.run(db, stmts[0]).Done? {
      AnalyzeKeepsData(e, e.run(db, stmts[0]).db, stmts[1..], e.run(db, stmts[0]).rows, strike.Next());
    }
  }
}
