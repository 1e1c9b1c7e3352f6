// The per-project record (do.py:225-500) and its CSV layout (do.py:158-170,
// 504-516).  Every tool is run under the sampler and an optional timer; the
// processes themselves are not modelled: each run is given by how long the
// tool would take and the polls the sampler makes of its memory.
module Records {
  import opened Basics
  import opened Text
  import Cli
  import opened Sampler
  import opened LocCount

  /** Time in seconds and peak memory in MB of one tool; 0/0 means "not run"
      and a time of -1 means "killed by the timer". */
  datatype Measure = Measure(time: real, memory: real)

  const NotMeasured: Measure := Measure(0.0, 0.0)

  /** One tool process: the seconds until it ends unless the timer kills it
      first (it finishes, or the sampler kills it above the memory ceiling),
      and the polls of its process tree. */
  datatype ToolRun = ToolRun(seconds: real, samples: seq<Sample>)

  /** Everything the outside world decides for one project. */
  datatype ProjectEnv = ProjectEnv(
    repoExists: bool,
    cloneResults: seq<bool>,
    cloc: ClocRun,
    enre: ToolRun,
    depends: ToolRun,
    understand: ToolRun,
    sourceTrailProject: bool,   // whether `out/sourcetrail/<name>.srctrlprj` exists
    sourceTrail: ToolRun)

  /** The `records` dict with its fixed keys. */
  datatype Record = Record(loc: int, depends: Measure, enre: Measure, sourceTrail: Measure, understand: Measure)

  /** A tool runs when it is the filter or when the filter is empty. */
  predicate ToolSelected(filter: Cli.Filter, tool: Cli.Filter)
  {
    filter == tool || filter == Cli.All
  }

  /** The peak the sampler leaves for a run. */
  function Peak(run: ToolRun): real
  {
    Run(Start(NoPeak), run.samples).peak
  }

  /** The timer fires while the tool still runs: the process would end only
      after the timeout. */
  predicate TimedOut(timeout: Option<int>, run: ToolRun)
  {
    timeout.Some? && run.seconds > timeout.value as real
  }

  /** The record fields of one tool section. */
  function ToolMeasure(selected: bool, timeout: Option<int>, run: ToolRun): Measure
  {
    if !selected then NotMeasured
    else if TimedOut(timeout, run) then Measure(-1.0, Peak(run))
    else Measure(run.seconds, Peak(run))
  }

  /** One tool section: start the sampler on the process, wait for its output to
      end, then read the peak and, unless the timer fired, the elapsed time. */
  method MeasureTool(selected: bool, timeout: Option<int>, run: ToolRun) returns (m: Measure)
    ensures m == ToolMeasure(selected, timeout, run)
    ensures !selected ==> m == NotMeasured
    ensures selected ==> m.memory == Run(Start(NoPeak), run.samples).peak
  {
    if !selected {
      return NotMeasured;
    }
    var memory := new MemoryProfile();
    var _ := memory.Task(run.samples);
    var killed := TimedOut(timeout, run);
    if killed {
      m := Measure(-1.0, memory.peak);
    } else {
      m := Measure(run.seconds, memory.peak);
    }
  }

  /** The sentinels: 0/0 exactly for a tool that was not run, a time of -1
      exactly for a run the timer killed (real durations are never negative). */
  lemma MeasureSentinels(selected: bool, timeout: Option<int>, run: ToolRun)
    requires run.seconds >= 0.0
    ensures ToolMeasure(selected, timeout, run).time == -1.0 <==> selected && TimedOut(timeout, run)
    ensures selected && !TimedOut(timeout, run) ==> ToolMeasure(selected, timeout, run).time == run.seconds
    ensures selected ==> ToolMeasure(selected, timeout, run).memory == Peak(run)
    ensures !selected ==> ToolMeasure(selected, timeout, run) == NotMeasured
  {
  }

  /** A process the sampler killed before the timer keeps the time it ran,
      with the peak reset to 0. */
  lemma SamplerKillRecorded(timeout: Option<int>, run: ToolRun)
    requires exists i :: 0 <= i < Observed(run.samples) && Exceeds(run.samples, i)
    requires !TimedOut(timeout, run)
    ensures ToolMeasure(true, timeout, run) == Measure(run.seconds, 0.0)
  {
    KilledIffExceeds(NoPeak, run.samples);
  }

  /** Without a timeout no run is ever marked as timed out. */
  lemma NoTimeoutNoSentinel(selected: bool, run: ToolRun)
    requires run.seconds >= 0.0
    ensures ToolMeasure(selected, None, run).time >= 0.0
  {
  }

  /** A recorded peak is -1 (nothing sampled), 0 (killed at the ceiling) or a
      real reading no larger than the ceiling. */
  lemma PeakRange(run: ToolRun)
    ensures NoPeak <= Peak(run) <= Ceiling
    ensures Peak(run) == NoPeak || Peak(run) == 0.0 ||
            exists i :: 0 <= i < Observed(run.samples) && run.samples[i].Reading? && Peak(run) == Megabytes(run.samples[i])
  {
    var r := Run(Start(NoPeak), run.samples);
    KilledIffExceeds(NoPeak, run.samples);
    PeakIsMaximum(NoPeak, run.samples);
    PeakNeverDrops(Start(NoPeak), run.samples);
    if !r.killed && r.peak != NoPeak {
      var i :| 0 <= i < Observed(run.samples) && run.samples[i].Reading? && r.peak == Megabytes(run.samples[i]);
      assert !Exceeds(run.samples, i);
    }
  }

  /** The record of a project whose repository is in place, in the order the
      sections run: LoC, ENRE, Depends, Understand, SourceTrail.  A count cloc
      printed that int() cannot read ends the whole run. */
  function ProjectRecord(filter: Cli.Filter, lang: Cli.Lang, timeout: Option<int>, env: ProjectEnv): Result<Record, LocError>
  {
    var loc :- LocRecord(filter, lang, env.cloc);
    var enre := ToolMeasure(ToolSelected(filter, Cli.Enre), timeout, env.enre);
    var depends := ToolMeasure(ToolSelected(filter, Cli.Depends), timeout, env.depends);
    var understand := ToolMeasure(ToolSelected(filter, Cli.Understand), timeout, env.understand);
    var sourceTrail := ToolMeasure(ToolSelected(filter, Cli.SourceTrail) && env.sourceTrailProject, timeout, env.sourceTrail);
    Ok(Record(loc, depends, enre, sourceTrail, understand))
  }

  /** The record filled section by section, as the script does. */
  method MeasureProject(filter: Cli.Filter, lang: Cli.Lang, timeout: Option<int>, env: ProjectEnv) returns (r: Result<Record, LocError>)
    ensures r == ProjectRecord(filter, lang, timeout, env)
  {
    var loc := 0;
    if LocSelected(filter) {
      if ClocFailed(filter, env.cloc) {
        loc := -1;
      } else {
        var counted := CountLines(lang, env.cloc.lines);
        if counted.Err? {
          return Err(counted.error);
        }
        loc := counted.value;
      }
    }
    var enre := MeasureTool(ToolSelected(filter, Cli.Enre), timeout, env.enre);
    var depends := MeasureTool(ToolSelected(filter, Cli.Depends), timeout, env.depends);
    var understand := MeasureTool(ToolSelected(filter, Cli.Understand), timeout, env.understand);
    var sourceTrail := NotMeasured;
    if ToolSelected(filter, Cli.SourceTrail) {
      // Without its project file SourceTrail is skipped with 0/0.
      sourceTrail := MeasureTool(env.sourceTrailProject, timeout, env.sourceTrail);
    }
    r := Ok(Record(loc, depends, enre, sourceTrail, understand));
  }

  /** With the `loc` filter only the LoC column is measured. */
  lemma LocOnlyRecord(lang: Cli.Lang, timeout: Option<int>, env: ProjectEnv)
    requires ProjectRecord(Cli.Loc, lang, timeout, env).Ok?
    ensures var rec := ProjectRecord(Cli.Loc, lang, timeout, env).value;
      && rec.loc == LocRecord(Cli.Loc, lang, env.cloc).value
      && rec.depends == rec.enre == rec.sourceTrail == rec.understand == NotMeasured
  {
  }

  /** With the `clone` filter nothing is measured, yet a row is still written. */
  lemma CloneOnlyRecord(lang: Cli.Lang, timeout: Option<int>, env: ProjectEnv)
    ensures ProjectRecord(Cli.Clone, lang, timeout, env) == Ok(Record(0, NotMeasured, NotMeasured, NotMeasured, NotMeasured))
  {
  }

  /** A single selected tool is the only one measured. */
  lemma SingleToolRecord(tool: Cli.Filter, lang: Cli.Lang, timeout: Option<int>, env: ProjectEnv)
    requires tool in {Cli.Enre, Cli.Depends, Cli.Understand, Cli.SourceTrail}
    ensures var rec := ProjectRecord(tool, lang, timeout, env).value;
      && rec.loc == 0
      && (tool != Cli.Enre ==> rec.enre == NotMeasured)
      && (tool != Cli.Depends ==> rec.depends == NotMeasured)
      && (tool != Cli.Understand ==> rec.understand == NotMeasured)
      && (tool != Cli.SourceTrail ==> rec.sourceTrail == NotMeasured)
  {
  }

  /** SourceTrail without its project file gives 0/0 even when selected. */
  lemma SourceTrailNeedsProject(filter: Cli.Filter, lang: Cli.Lang, timeout: Option<int>, env: ProjectEnv)
    requires !env.sourceTrailProject && ProjectRecord(filter, lang, timeout, env).Ok?
    ensures ProjectRecord(filter, lang, timeout, env).value.sourceTrail == NotMeasured
  {
  }

  /** The output columns, written once as the file's first line. */
  const Header: seq<string> := [
    "project_name", "LoC",
    "Depends-time", "Depends-memory",
    "ENRE-time", "ENRE-memory",
    "SourceTrail-time", "SourceTrail-memory",
    "Understand-time", "Understand-memory"]

  datatype Cell = Label(text: string) | Num(value: real)

  /** The cells of a project's row, in the order the script writes them. */
  function RowCells(name: string, rec: Record): seq<Cell>
  {
    [Label(name), Num(rec.loc as real),
     Num(rec.depends.time), Num(rec.depends.memory),
     Num(rec.enre.time), Num(rec.enre.memory),
     Num(rec.sourceTrail.time), Num(rec.sourceTrail.memory),
     Num(rec.understand.time), Num(rec.understand.memory)]
  }

  /** The record field a column heading names. */
  function Column(rec: Record, heading: string): Option<real>
  {
    match heading
    case "LoC" => Some(rec.loc as real)
    case "Depends-time" => Some(rec.depends.time)
    case "Depends-memory" => Some(rec.depends.memory)
    case "ENRE-time" => Some(rec.enre.time)
    case "ENRE-memory" => Some(rec.enre.memory)
    case "SourceTrail-time" => Some(rec.sourceTrail.time)
    case "SourceTrail-memory" => Some(rec.sourceTrail.memory)
    case "Understand-time" => Some(rec.understand.time)
    case "Understand-memory" => Some(rec.understand.memory)
    case _ => None
  }

  /** Every row has the header's ten columns, and each cell holds the field its
      heading names. */
  lemma RowMatchesHeader(name: string, rec: Record)
    ensures |RowCells(name, rec)| == |Header| == 10
    ensures RowCells(name, rec)[0] == Label(name)
    ensures forall j :: 1 <= j < |Header| ==>
              Column(rec, Header[j]).Some? && RowCells(name, rec)[j] == Num(Column(rec, Header[j]).value)
  {
    var cells := RowCells(name, rec);
    assert Column(rec, Header[1]) == Some(rec.loc as real);
    assert Column(rec, Header[2]) == Some(rec.depends.time);
    assert Column(rec, Header[3]) == Some(rec.depends.memory);
    assert Column(rec, Header[4]) == Some(rec.enre.time);
    assert Column(rec, Header[5]) == Some(rec.enre.memory);
    assert Column(rec, Header[6]) == Some(rec.sourceTrail.time);
    assert Column(rec, Header[7]) == Some(rec.sourceTrail.memory);
    assert Column(rec, Header[8]) == Some(rec.understand.time);
    assert Column(rec, Header[9]) == Some(rec.understand.memory);
  }

  /** A CSV line as the script writes it: the fields joined by `,`. */
  function Line(fields: seq<string>): string
  {
    Join(fields, ',') + "\n"
  }

  /** The text of a row; `show` stands for Python's `str()` of a number. */
  function RowText(name: string, rec: Record, show: real -> string): string
  {
    Line([name] + seq(9, j requires 0 <= j < 9 => show(RowCells(name, rec)[j + 1].value)))
  }

  /** Read back with `split(',')`, a written row gives the name and the nine
      numbers in header order, provided no field contains a comma. */
  lemma RowTextFields(name: string, rec: Record, show: real -> string)
    requires ',' !in name
    requires forall x :: ',' !in show(x)
    ensures var line := RowText(name, rec, show);
      var fields := Split(line[..|line| - 1], ',');
      && |fields| == |Header|
      && fields[0] == name
      && forall j :: 1 <= j < |Header| ==> fields[j] == show(Column(rec, Header[j]).value)
  {
    var fields := [name] + seq(9, j requires 0 <= j < 9 => show(RowCells(name, rec)[j + 1].value));
    var line := Line(fields);
    assert line[..|line| - 1] == Join(fields, ',');
    assert NoneContains(fields, ',') by {
      forall i | 0 <= i < |fields| ensures ',' !in fields[i] {
        if i > 0 {
          assert fields[i] == show(RowCells(name, rec)[i].value);
        }
      }
    }
    SplitJoin(fields, ',');
    RowMatchesHeader(name, rec);
  }
}
