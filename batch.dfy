// The batch loop of the runner (do.py:188-527): every selected project is
// cloned or reused, measured, and appended as one row to the pending output
// file; the file is renamed to its final name only when the loop completes.
module Batch {
  import opened Basics
  import Cli
  import Clone
  import opened ProjectList
  import opened LocCount
  import opened Records

  /** One data row of the output file. */
  datatype Row = Row(name: string, rec: Record)

  /** The rows appended so far and, if the run died, why. */
  datatype BatchResult = BatchResult(rows: seq<Row>, crash: Option<LocError>)

  predicate Ready(e: ProjectEnv)
  {
    Clone.Ready(Clone.Attempt(e.repoExists, e.cloneResults))
  }

  /** What happens to one project: None when its clone was abandoned,
      otherwise its record or the error that ends the run. */
  type Outcome = string -> Option<Result<Record, LocError>>

  /** The outcome of each project under a configuration. */
  function OutcomeOf(cfg: Cli.Config, env: string -> ProjectEnv): Outcome
  {
    name =>
      var e := env(name);
      if Ready(e) then Some(ProjectRecord(cfg.filter, cfg.lang, cfg.timeout, e)) else None
  }

  /** The state of the run after the first `k` projects. */
  function BatchAfter(outcome: Outcome, names: seq<string>, k: nat): BatchResult
    requires k <= |names|
  {
    if k == 0 then BatchResult([], None)
    else
      var prev := BatchAfter(outcome, names, k - 1);
      if prev.crash.Some? then prev
      else match outcome(names[k - 1])
        case None => prev
        case Some(Err(err)) => BatchResult(prev.rows, Some(err))
        case Some(Ok(rec)) => BatchResult(prev.rows + [Row(names[k - 1], rec)], None)
  }

  /** The projects, in order, whose repository is in place after cloning. */
  function ReadyNames(names: seq<string>, outcome: Outcome): seq<string>
  {
    if names == [] then []
    else
      var earlier := ReadyNames(names[..|names| - 1], outcome);
      var last := names[|names| - 1];
      if outcome(last).Some? then earlier + [last] else earlier
  }

  function RowNames(rows: seq<Row>): seq<string>
  {
    if rows == [] then [] else RowNames(rows[..|rows| - 1]) + [rows[|rows| - 1].name]
  }

  /** One iteration: clone or reuse the repository, then, unless the clone
      was abandoned, measure the project. */
  method RunProject(cfg: Cli.Config, env: string -> ProjectEnv, name: string) returns (o: Option<Result<Record, LocError>>)
    ensures o == OutcomeOf(cfg, env)(name)
  {
    var e := env(name);
    var cloned, _ := Clone.CloneRepository(e.repoExists, e.cloneResults);
    if cloned == Clone.Abandoned {
      return None;
    }
    var r := MeasureProject(cfg.filter, cfg.lang, cfg.timeout, e);
    return Some(r);
  }

  /** The project loop over the outcome of each project: a row is appended for
      every project whose repository is in place, and the first error ends the
      run.  `renamed` says whether `.pending` is dropped from the file name at
      the end, which happens only when no project ended the run. */
  method BatchLoop(outcome: Outcome, names: seq<string>)
    returns (rows: seq<Row>, crash: Option<LocError>, renamed: bool)
    ensures BatchResult(rows, crash) == BatchAfter(outcome, names, |names|)
    ensures renamed <==> crash.None?
  {
    rows := [];
    var i := 0;
    while i < |names|
      invariant 0 <= i <= |names|
      invariant BatchAfter(outcome, names, i) == BatchResult(rows, None)
    {
      var o := outcome(names[i]);
      if o.Some? && o.value.Err? {
        CrashSticky(outcome, names, i + 1, |names|);
        return rows, Some(o.value.error), false;
      }
      if o.Some? {
        // The row is appended before the next project starts.
        rows := rows + [Row(names[i], o.value.value)];
      }
      i := i + 1;
    }
    return rows, None, true;
  }

  /** The batch of the selected projects under a configuration. */
  method RunBatch(cfg: Cli.Config, projects: Projects, env: string -> ProjectEnv)
    returns (rows: seq<Row>, crash: Option<LocError>, renamed: bool)
    ensures BatchResult(rows, crash) == BatchAfter(OutcomeOf(cfg, env), projects.names, |projects.names|)
    ensures renamed <==> crash.None?
  {
    rows, crash, renamed := BatchLoop(OutcomeOf(cfg, env), projects.names);
  }

  lemma {:induction false} CrashSticky(outcome: Outcome, names: seq<string>, k: nat, n: nat)
    requires k <= n <= |names|
    requires BatchAfter(outcome, names, k).crash.Some?
    ensures BatchAfter(outcome, names, n) == BatchAfter(outcome, names, k)
    decreases n
  {
    if n > k {
      CrashSticky(outcome, names, k, n - 1);
    }
  }

  /** A row once appended is never lost: later projects only add rows after it,
      even when one of them ends the run. */
  lemma {:induction false} RowsOnlyGrow(outcome: Outcome, names: seq<string>, k: nat, n: nat)
    requires k <= n <= |names|
    ensures var before := BatchAfter(outcome, names, k).rows;
      var after := BatchAfter(outcome, names, n).rows;
      |before| <= |after| && after[..|before|] == before
    decreases n
  {
    if n > k {
      RowsOnlyGrow(outcome, names, k, n - 1);
    }
  }

  /** Without a crash there is one row per project whose repository is in place,
      in project order; an abandoned project has no row. */
  lemma {:induction false} RowsAreReadyProjects(outcome: Outcome, names: seq<string>, k: nat)
    requires k <= |names|
    ensures var b := BatchAfter(outcome, names, k);
      b.crash.None? ==> RowNames(b.rows) == ReadyNames(names[..k], outcome)
  {
    if k > 0 {
      RowsAreReadyProjects(outcome, names, k - 1);
      assert names[..k][..k - 1] == names[..k - 1];
      var prev := BatchAfter(outcome, names, k - 1);
      var b := BatchAfter(outcome, names, k);
      if b.crash.None? && |b.rows| > |prev.rows| {
        assert b.rows[..|b.rows| - 1] == prev.rows;
      }
    }
  }

  /** Every row is the record its project's outcome gives. */
  lemma {:induction false} RowsAreRecords(outcome: Outcome, names: seq<string>, k: nat, j: nat)
    requires k <= |names|
    requires j < |BatchAfter(outcome, names, k).rows|
    ensures var row := BatchAfter(outcome, names, k).rows[j];
      outcome(row.name) == Some(Ok(row.rec)) && row.name in names[..k]
  {
    if k > 0 {
      var prev := BatchAfter(outcome, names, k - 1);
      if j < |prev.rows| {
        RowsAreRecords(outcome, names, k - 1, j);
        assert names[..k - 1] <= names[..k];
      } else {
        assert names[..k][k - 1] == names[k - 1];
      }
    }
  }

  /** A run with the `loc` filter writes rows whose tool columns are all 0. */
  lemma LocOnlyRun(cfg: Cli.Config, names: seq<string>, env: string -> ProjectEnv, j: nat)
    requires cfg.filter == Cli.Loc
    requires j < |BatchAfter(OutcomeOf(cfg, env), names, |names|).rows|
    ensures var rec := BatchAfter(OutcomeOf(cfg, env), names, |names|).rows[j].rec;
      rec.depends == rec.enre == rec.sourceTrail == rec.understand == NotMeasured
  {
    var row := BatchAfter(OutcomeOf(cfg, env), names, |names|).rows[j];
    RowsAreRecords(OutcomeOf(cfg, env), names, |names|, j);
    LocOnlyRecord(cfg.lang, cfg.timeout, env(row.name));
  }

  /** The whole script: validate the command line, select the projects from
      the table, then run the batch. */
  datatype HarnessOutcome =
    | BadArgs(argError: Cli.CliError)
    | BadTable(tableError: SelectError)
    | Finished(rows: seq<Row>, crash: Option<LocError>, renamed: bool)

  method Harness(lang: string, range: string, only: Option<string>, timeout: Option<int>,
                 table: seq<seq<string>>, env: string -> ProjectEnv) returns (o: HarnessOutcome)
    ensures o.BadArgs? <==> Cli.ParseArgs(lang, range, only, timeout).Err?
    ensures o.BadArgs? ==> o.argError == Cli.ParseArgs(lang, range, only, timeout).error
    ensures o.BadTable? <==>
              && Cli.ParseArgs(lang, range, only, timeout).Ok?
              && Select(table, Cli.ParseArgs(lang, range, only, timeout).value.fromLine,
                        Cli.ParseArgs(lang, range, only, timeout).value.endLine, |table|).Err?
    ensures o.BadTable? ==>
              var cfg := Cli.ParseArgs(lang, range, only, timeout).value;
              && o.tableError == Select(table, cfg.fromLine, cfg.endLine, |table|).error
              && exists i :: 0 <= i < |table| && Selected(i, cfg.fromLine, cfg.endLine) && |table[i]| < 4
    ensures o.Finished? ==>
              var cfg := Cli.ParseArgs(lang, range, only, timeout).value;
              var projects := Select(table, cfg.fromLine, cfg.endLine, |table|);
              && projects.Ok?
              && BatchResult(o.rows, o.crash) == BatchAfter(OutcomeOf(cfg, env), projects.value.names, |projects.value.names|)
              && (o.renamed <==> o.crash.None?)
  {
    var args := Cli.ParseArgs(lang, range, only, timeout);
    if args.Err? {
      return BadArgs(args.error);
    }
    var cfg := args.value;
    var projects := SelectProjects(table, cfg.fromLine, cfg.endLine);
    if projects.Err? {
      SelectFailsOnShortRow(table, cfg.fromLine, cfg.endLine, |table|);
      return BadTable(projects.error);
    }
    var rows, crash, renamed := RunBatch(cfg, projects.value, env);
    return Finished(rows, crash, renamed);
  }
}
