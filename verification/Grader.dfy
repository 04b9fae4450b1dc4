/** The stateless judge: what a verdict means, as a function of the task, the base template's content,
    the phase, the SQL that completed Phase 1 and the submitted SQL, and of nothing else. */
module Grader {
  import opened Text
  import opened Options
  import opened SqlEngine

  /** The reference solution and tests of one phase. */
  datatype Case = Case(solSqls: seq<string>, isQuery: bool, tests: seq<string>, ordered: bool)

  datatype Mode = AInteract | CInteract

  /** The static task record; statement lists are already normalised. */
  datatype TaskSpec = TaskSpec(
    base: string,
    preprocess: seq<string>,
    cleanup: seq<string>,
    first: Case,
    followUp: Option<Case>,
    mode: Mode)
  {
    predicate HasFollowUp()
    {
      followUp.Some? && followUp.value.solSqls != []
    }

    function CaseOf(phase: int): Case
    {
      if phase == 2 && followUp.Some? then followUp.value else first
    }
  }

  /** Where faults strike while one submission is judged: in the submitted statements, in their second run
      inside the row comparison, in the reference statements, and inside custom tests (with the way it ends). */
  datatype JudgeFaults = JudgeFaults(first: Strike, again: Strike, reference: Strike, tests: seq<Option<TestRun>>)

  const NO_FAULTS := JudgeFaults(Calm, Calm, Calm, [])

  datatype Judgement = Judgement(passed: bool, db: Db)

  function Judge(e: Engine, c: Case, db: Db, preds: seq<string>, f: JudgeFaults): Judgement
  {
    if c.solSqls == [] then Judgement(false, db)
    else
      var x := Execute(e, db, preds, f.first);
      if !x.outcome.Finished? then Judgement(false, x.db)
      else if c.isQuery || c.tests == [] then CompareRows(e, c, x.db, preds, f)
      else CustomTests(e, c, x.db, preds, x.outcome.rows, f.tests, 0)
  }

  function CompareRows(e: Engine, c: Case, db: Db, preds: seq<string>, f: JudgeFaults): Judgement
  {
    var p, s := e.normalise(preds), e.normalise(c.solSqls);
    if p == [] || s == [] then Judgement(false, db)
    else
      var a := Execute(e, db, p, f.again);
      var b := Execute(e, a.db, s, f.reference);
      Judgement(
        a.outcome.Finished? && b.outcome.Finished? && e.sameRows(c.ordered, a.outcome.rows, b.outcome.rows), b.db)
  }

  function CustomTests(e: Engine, c: Case, db: Db, preds: seq<string>, rows: Option<Rows>,
                       faults: seq<Option<TestRun>>, i: nat): Judgement
    requires i <= |c.tests|
    decreases |c.tests| - i
  {
    if i == |c.tests| then Judgement(true, db)
    else
      var t := if i < |faults| && faults[i].Some? then faults[i].value
               else e.customTest(c.tests[i], db, preds, c.solSqls, rows);
      if !t.ok then Judgement(false, t.db) else CustomTests(e, c, t.db, preds, rows, faults, i + 1)
  }

  /** The custom tests one after the other, up to the first that fails. */
  method RunCustomTests(e: Engine, c: Case, db: Db, preds: seq<string>, rows: Option<Rows>,
                        faults: seq<Option<TestRun>>) returns (j: Judgement)
    ensures j == CustomTests(e, c, db, preds, rows, faults, 0)
  {
    var current := db;
    for i := 0 to |c.tests|
      invariant CustomTests(e, c, db, preds, rows, faults, 0) == CustomTests(e, c, current, preds, rows, faults, i)
    {
      var t := e.customTest(c.tests[i], current, preds, c.solSqls, rows);
      if i < |faults| && faults[i].Some? {
        t := faults[i].value;
      }
      if !t.ok {
        return Judgement(false, t.db);
      }
      current := t.db;
    }
    j := Judgement(true, current);
  }

  method JudgeSubmission(e: Engine, c: Case, db: Db, preds: seq<string>, f: JudgeFaults) returns (j: Judgement)
    ensures j == Judge(e, c, db, preds, f)
  {
    if c.solSqls == [] {
      return Judgement(false, db);
    }
    var x := ExecuteQueries(e, db, preds, f.first);
    if !x.outcome.Finished? {
      return Judgement(false, x.db);
    }
    if !c.isQuery && c.tests != [] {
      j := RunCustomTests(e, c, x.db, preds, x.outcome.rows, f.tests);
      return;
    }
    var p, s := e.normalise(preds), e.normalise(c.solSqls);
    if p == [] || s == [] {
      return Judgement(false, x.db);
    }
    var a := ExecuteQueries(e, x.db, p, f.again);
    var b := ExecuteQueries(e, a.db, s, f.reference);
    j := Judgement(
      a.outcome.Finished? && b.outcome.Finished? && e.sameRows(c.ordered, a.outcome.rows, b.outcome.rows), b.db);
  }

  // ----- what passing means

  /** The `i`-th run is that of the `i`-th test, or what a fault makes of it, on the content the run before left, and
      it is fine. */
  ghost predicate FineRun(e: Engine, c: Case, db: Db, preds: seq<string>, rows: Option<Rows>,
                          faults: seq<Option<TestRun>>, runs: seq<TestRun>, i: nat)
    requires i < |runs| && i < |c.tests|
  {
    var found := if i == 0 then db else runs[i - 1].db;
    && runs[i].ok
    && runs[i] == if i < |faults| && faults[i].Some? then faults[i].value
                  else e.customTest(c.tests[i], found, preds, c.solSqls, rows)
  }

  /** One run per custom test, all of them fine. */
  ghost predicate TestRuns(e: Engine, c: Case, db: Db, preds: seq<string>, rows: Option<Rows>,
                           faults: seq<Option<TestRun>>, runs: seq<TestRun>)
  {
    |runs| == |c.tests| && forall i :: 0 <= i < |runs| ==> FineRun(e, c, db, preds, rows, faults, runs, i)
  }

  /** The submission and the reference, run one after the other on what the submission left, give the same rows. */
  ghost predicate RowsAgree(e: Engine, c: Case, db: Db, preds: seq<string>, f: JudgeFaults)
  {
    var mine := Execute(e, db, e.normalise(preds), f.again);
    var theirs := Execute(e, mine.db, e.normalise(c.solSqls), f.reference);
    && e.normalise(preds) != [] && e.normalise(c.solSqls) != []
    && mine.outcome.Finished? && theirs.outcome.Finished?
    && e.sameRows(c.ordered, mine.outcome.rows, theirs.outcome.rows)
  }

  /** What it means that a submission passes: there is a reference, the submission runs to its end, and then either
      the rows agree or every custom test is fine. */
  ghost predicate Accepts(e: Engine, c: Case, db: Db, preds: seq<string>, f: JudgeFaults)
  {
    && c.solSqls != []
    && var x := Execute(e, db, preds, f.first);
    && x.outcome.Finished?
    && if c.isQuery || c.tests == [] then RowsAgree(e, c, x.db, preds, f)
       else exists runs :: TestRuns(e, c, x.db, preds, x.outcome.rows, f.tests, runs)
  }

  lemma {:induction false} PassingLeavesRuns(e: Engine, c: Case, db: Db, preds: seq<string>, rows: Option<Rows>,
                                             faults: seq<Option<TestRun>>, sofar: seq<TestRun>)
    returns (runs: seq<TestRun>)
    requires |sofar| <= |c.tests|
    requires forall i :: 0 <= i < |sofar| ==> FineRun(e, c, db, preds, rows, faults, sofar, i)
    requires var found := if sofar == [] then db else sofar[|sofar| - 1].db;
             CustomTests(e, c, found, preds, rows, faults, |sofar|).passed
    ensures TestRuns(e, c, db, preds, rows, faults, runs)
    decreases |c.tests| - |sofar|
  {
    var n := |sofar|;
    if n == |c.tests| {
      runs := sofar;
    } else {
      var found := if n == 0 then db else sofar[n - 1].db;
      var t := if n < |faults| && faults[n].Some? then faults[n].value
               else e.customTest(c.tests[n], found, preds, c.solSqls, rows);
      var longer := sofar + [t];
      forall i | 0 <= i < |longer| ensures FineRun(e, c, db, preds, rows, faults, longer, i) {
        if i < n {
          assert FineRun(e, c, db, preds, rows, faults, sofar, i);
        }
      }
      runs := PassingLeavesRuns(e, c, db, preds, rows, faults, longer);
    }
  }

  lemma {:induction false} RunsPass(e: Engine, c: Case, db: Db, preds: seq<string>, rows: Option<Rows>,
                                    faults: seq<Option<TestRun>>, runs: seq<TestRun>, i: nat)
    requires i <= |c.tests| && TestRuns(e, c, db, preds, rows, faults, runs)
    ensures CustomTests(e, c, if i == 0 then db else runs[i - 1].db, preds, rows, faults, i).passed
    decreases |c.tests| - i
  {
    if i < |c.tests| {
      assert FineRun(e, c, db, preds, rows, faults, runs, i);
      RunsPass(e, c, db, preds, rows, faults, runs, i + 1);
    }
  }

  /** The judging accepts exactly what passes. */
  lemma VerdictExactly(e: Engine, c: Case, db: Db, preds: seq<string>, f: JudgeFaults)
    ensures Judge(e, c, db, preds, f).passed <==> Accepts(e, c, db, preds, f)
  {
    var x := Execute(e, db, preds, f.first);
    if c.solSqls != [] && x.outcome.Finished? && !(c.isQuery || c.tests == []) {
      TestsExactly(e, c, x.db, preds, x.outcome.rows, f.tests);
    }
  }

  lemma TestsExactly(e: Engine, c: Case, db: Db, preds: seq<string>, rows: Option<Rows>, faults: seq<Option<TestRun>>)
    ensures CustomTests(e, c, db, preds, rows, faults, 0).passed
            <==> exists runs :: TestRuns(e, c, db, preds, rows, faults, runs)
  {
    if CustomTests(e, c, db, preds, rows, faults, 0).passed {
      var runs := PassingLeavesRuns(e, c, db, preds, rows, faults, []);
    }
    if runs :| TestRuns(e, c, db, preds, rows, faults, runs) {
      RunsPass(e, c, db, preds, rows, faults, runs, 0);
    }
  }

  /** P1 maintenance whose effect database cloning drops. */
  function Maintenance(preds: seq<string>): (m: seq<string>)
    ensures forall s :: s in m ==> s in preds && IsAnalyze(s) && !IsBlank(s)
  {
    if preds == [] then []
    else if IsAnalyze(preds[0]) && !IsBlank(preds[0]) then [preds[0]] + Maintenance(preds[1..])
    else Maintenance(preds[1..])
  }

  /** Maintenance is read off statement by statement, in order: exactly the ANALYZE statements that are not blank. */
  lemma {:induction false} MaintenanceExactly(before: seq<string>, s: string, after: seq<string>)
    ensures Maintenance(before + [s] + after)
            == Maintenance(before) + (if IsAnalyze(s) && !IsBlank(s) then [s] else []) + Maintenance(after)
    decreases |before|
  {
    var all := before + [s] + after;
    if before == [] {
      assert all[0] == s && all[1..] == after;
    } else {
      assert all[0] == before[0] && all[1..] == before[1..] + [s] + after;
      MaintenanceExactly(before[1..], s, after);
    }
  }

  /** The canonical post-preprocess content. */
  function InitialData(e: Engine, spec: TaskSpec, template: Relations): Relations
  {
    Execute(e, Db(template, {}), spec.preprocess, Calm).db.data
  }

  /** cleanup(accepted Phase 1 SQL(initial)). */
  function Phase1Data(e: Engine, spec: TaskSpec, template: Relations, accepted: string): Relations
  {
    var solved := Execute(e, Db(InitialData(e, spec, template), {}), e.split(accepted), Calm).db;
    Execute(e, solved, spec.cleanup, Calm).db.data
  }

  /** The relational content every attempt of a phase starts from. */
  function StartData(e: Engine, spec: TaskSpec, template: Relations, phase: int, accepted: string): Relations
  {
    if phase == 1 then InitialData(e, spec, template) else Phase1Data(e, spec, template, accepted)
  }

  /** The database every attempt of a phase is judged on: a clone, with ANALYZE replayed in Phase 2. */
  function Start(e: Engine, spec: TaskSpec, template: Relations, phase: int, accepted: string): Db
  {
    var clone := Db(StartData(e, spec, template, phase, accepted), {});
    if phase == 1 then clone else Execute(e, clone, Maintenance(e.split(accepted)), Calm).db
  }

  /** The stateless judge's answer when the given faults are aimed at the judging: Phase 2 is judged by the follow-up,
      where there is one. */
  ghost predicate GradeUnder(e: Engine, spec: TaskSpec, template: Relations, phase: int, accepted: string, sql: string,
                             f: JudgeFaults)
  {
    var c := if phase == 1 || spec.followUp.None? then spec.first else spec.followUp.value;
    Accepts(e, c, Start(e, spec, template, phase, accepted), e.split(sql), f)
  }

  /** Replaying maintenance never moves the relational content of a start. */
  lemma StartKeepsData(e: Engine, spec: TaskSpec, template: Relations, phase: int, accepted: string)
    requires EngineOk(e)
    ensures Start(e, spec, template, phase, accepted).data == StartData(e, spec, template, phase, accepted)
  {
    if phase != 1 {
      AnalyzeKeepsData(e, Db(StartData(e, spec, template, phase, accepted), {}), Maintenance(e.split(accepted)), None, Calm);
    }
  }

  // ----- what a fault can do to a verdict

  /** A fault is aimed at a statement of the submission, at one of its second run, or at one of the reference. */
  predicate StrikesRows(e: Engine, c: Case, preds: seq<string>, f: JudgeFaults)
  {
    Lands(f.first, preds) || Lands(f.again, e.normalise(preds)) || Lands(f.reference, e.normalise(c.solSqls))
  }

  /** A fault is aimed at a statement of the submission or at one of the custom tests. */
  predicate StrikesTests(c: Case, preds: seq<string>, f: JudgeFaults)
  {
    Lands(f.first, preds) || exists i :: 0 <= i < |c.tests| && i < |f.tests| && f.tests[i].Some?
  }

  predicate Strikes(e: Engine, c: Case, preds: seq<string>, f: JudgeFaults)
  {
    if c.isQuery || c.tests == [] then StrikesRows(e, c, preds, f) else StrikesTests(c, preds, f)
  }

  lemma {:induction false} CalmCustomTests(e: Engine, c: Case, db: Db, preds: seq<string>, rows: Option<Rows>,
                                           faults: seq<Option<TestRun>>, i: nat)
    requires i <= |c.tests|
    requires forall k :: 0 <= k < |c.tests| && k < |faults| ==> faults[k].None?
    ensures CustomTests(e, c, db, preds, rows, faults, i) == CustomTests(e, c, db, preds, rows, [], i)
    decreases |c.tests| - i
  {
    if i < |c.tests| {
      var t := e.customTest(c.tests[i], db, preds, c.solSqls, rows);
      if t.ok {
        CalmCustomTests(e, c, t.db, preds, rows, faults, i + 1);
      }
    }
  }

  /** With no fault aimed at it, a submission is judged exactly as if there were no faults. */
  lemma UnstruckJudgement(e: Engine, c: Case, db: Db, preds: seq<string>, f: JudgeFaults)
    requires !Strikes(e, c, preds, f)
    ensures Judge(e, c, db, preds, f) == Judge(e, c, db, preds, NO_FAULTS)
  {
    if c.solSqls != [] {
      StrikeIsVisible(e, db, preds, None, f.first);
      var x := Execute(e, db, preds, Calm);
      if x.outcome.Finished? {
        if c.isQuery || c.tests == [] {
          var p, s := e.normalise(preds), e.normalise(c.solSqls);
          StrikeIsVisible(e, x.db, p, None, f.again);
          StrikeIsVisible(e, Execute(e, x.db, p, f.again).db, s, None, f.reference);
        } else {
          CalmCustomTests(e, c, x.db, preds, x.outcome.rows, f.tests, 0);
        }
      }
    }
  }

  /** With row comparison a submission passes if and only if it passes without faults and no fault is aimed at a
      statement of its two runs or of the reference. */
  lemma RowVerdictExact(e: Engine, c: Case, db: Db, preds: seq<string>, f: JudgeFaults)
    requires c.isQuery || c.tests == []
    ensures Judge(e, c, db, preds, f).passed <==> Judge(e, c, db, preds, NO_FAULTS).passed && !StrikesRows(e, c, preds, f)
  {
    StrikeIsVisible(e, db, preds, None, f.first);
    var x, p, s := Execute(e, db, preds, Calm), e.normalise(preds), e.normalise(c.solSqls);
    StrikeIsVisible(e, x.db, p, None, f.again);
    StrikeIsVisible(e, Execute(e, x.db, p, Calm).db, s, None, f.reference);
  }

  /** An engine whose every statement returns one empty row, and on which every comparison agrees. */
  function AgreeingEngine(): Engine
  {
    Engine((db: Db, s: string) => Done(db, Some([[]])), (sql: string) => [sql], (l: seq<string>) => l,
           (o: bool, a: Option<Rows>, b: Option<Rows>) => true,
           (t: string, db: Db, p: seq<string>, s: seq<string>, r: Option<Rows>) => TestRun(db, true))
  }

  /** "Every verdict equals the stateless judge" fails: a connection fault inside the submitted SQL is
      reported as an ordinary wrong answer. */
  lemma FaultBecomesWrongAnswer()
    ensures var e := AgreeingEngine();
            var c := Case(["SELECT 1"], true, [], false);
            var db := Db(Relations(map[]), {});
            && EngineOk(e)
            && Judge(e, c, db, ["SELECT 1"], NO_FAULTS).passed
            && !Judge(e, c, db, ["SELECT 1"], NO_FAULTS.(first := Hit(0, false))).passed
  {
    var e := AgreeingEngine();
    var db := Db(Relations(map[]), {});
    var l := ["SELECT 1"];
    assert !IsSpace(l[0][0]);
    assert !IsBlank(l[0]);
    assert l[1..] == [];
    assert ExecuteFrom(e, db, l, None, Calm) == Execution(db, Finished(Some([[]])));
  }

  /** An accepted submission never fails when it is replayed to build the Phase 1 snapshot: only a fault
      of the infrastructure can stop the transition at that point. */
  lemma AcceptedSqlReplays(e: Engine, c: Case, db: Db, preds: seq<string>, f: JudgeFaults)
    requires Accepts(e, c, db, preds, f)
    ensures Execute(e, db, preds, Calm).outcome.Finished?
  {
    StrikeIsVisible(e, db, preds, None, f.first);
  }
}
