// Lines of code of a project (do.py:227-265): the `cloc --csv` output is read
// line by line and the last field of each 5-field line whose language column
// is one of the target language's categories is added up.  Running cloc is
// not modelled: its exit status, running time and output lines are inputs.
module LocCount {
  import opened Basics
  import opened Text
  import opened Cli

  /** int() of the last field raised ValueError (uncaught for java, python and ts). */
  datatype LocError = BadCount(line: string)

  /** Whether a cloc language category is counted for the target language. */
  predicate Counted(lang: Lang, category: string)
  {
    match lang
    case Java => category == "Java"
    case Cpp => category == "C++" || category == "C/C++ Header"
    case _ => category == "Python"
  }

  /** What one cloc output line adds.  For cpp the conversion sits inside a bare
      `try ... except: pass`, so an unreadable count is skipped there. */
  function LineCount(lang: Lang, line: string): (r: Result<int, LocError>)
    ensures var out := Split(line, ',');
      && (|out| != 5 || !Counted(lang, out[1]) ==> r == Ok(0))
      && (|out| == 5 && Counted(lang, out[1]) && ParseInt(out[4]).Some? ==> r == Ok(ParseInt(out[4]).value))
      && (lang == Cpp && |out| == 5 && Counted(lang, out[1]) && ParseInt(out[4]).None? ==> r == Ok(0))
      && (r.Err? <==> lang != Cpp && |out| == 5 && Counted(lang, out[1]) && ParseInt(out[4]).None?)
      && (r.Err? ==> r.error == BadCount(line))
  {
    var out := Split(line, ',');
    if |out| != 5 || !Counted(lang, out[1]) then Ok(0)
    else match ParseInt(out[4])
      case Some(n) => Ok(n)
      case None => if lang == Cpp then Ok(0) else Err(BadCount(line))
  }

  /** What one output line contributes to the count. */
  function LineOf(lang: Lang): string -> Result<int, LocError>
  {
    line => LineCount(lang, line)
  }

  /** The loop body: add what one output line contributes to the count. */
  function AddLine(lang: Lang): (int, string) -> Result<int, LocError>
  {
    AddEach(LineOf(lang))
  }

  /** The count of the whole output; the first unreadable count aborts. */
  function Total(lang: Lang, lines: seq<string>): Result<int, LocError>
  {
    Fold(AddLine(lang), 0, lines, |lines|)
  }

  /** The accumulator loop of do.py:247-261, adding each line's count in turn. */
  method CountLines(lang: Lang, lines: seq<string>) returns (r: Result<int, LocError>)
    ensures r == Total(lang, lines)
  {
    r := FoldLoop(AddLine(lang), 0, lines);
  }

  /** Counting distributes over a split of the output. */
  lemma TotalAppend(lang: Lang, a: seq<string>, b: seq<string>)
    requires Total(lang, a).Ok? && Total(lang, b).Ok?
    ensures Total(lang, a + b) == Ok(Total(lang, a).value + Total(lang, b).value)
  {
    FoldSumEach(LineOf(lang), a, b);
  }

  lemma SameLineCount(line: string)
    ensures LineCount(Ts, line) == LineCount(Python, line)
  {
  }

  /** ts projects are counted as Python: only the `Python` category is summed. */
  lemma TsCountsPython(lines: seq<string>)
    ensures Total(Ts, lines) == Total(Python, lines)
  {
    forall loc, line ensures AddLine(Ts)(loc, line) == AddLine(Python)(loc, line) {
      SameLineCount(line);
    }
    FoldAgree(AddLine(Ts), AddLine(Python), 0, lines, |lines|);
  }

  lemma {:induction false} CppPrefixOk(lines: seq<string>, k: nat)
    requires k <= |lines|
    ensures Fold(AddLine(Cpp), 0, lines, k).Ok?
  {
    if k > 0 {
      CppPrefixOk(lines, k - 1);
    }
  }

  /** For cpp an unreadable count never aborts the run. */
  lemma CppNeverFails(lines: seq<string>)
    ensures Total(Cpp, lines).Ok?
  {
    CppPrefixOk(lines, |lines|);
  }

  /** A cloc run as the harness sees it. */
  datatype ClocRun = ClocRun(exitOk: bool, seconds: real, lines: seq<string>)

  /** cloc gets a 180-second limit only when every tool is run. */
  function ClocTimeout(filter: Filter): (t: Option<int>)
    ensures t.Some? <==> filter == All
    ensures t.Some? ==> t.value == 180
  {
    if filter == All then Some(180) else None
  }

  /** The run raised TimeoutExpired or CalledProcessError. */
  predicate ClocFailed(filter: Filter, run: ClocRun)
  {
    (ClocTimeout(filter).Some? && run.seconds > ClocTimeout(filter).value as real) || !run.exitOk
  }

  predicate LocSelected(filter: Filter)
  {
    filter == Loc || filter == All
  }

  /** `records['LoC']` as written: the -1 stored on a cloc failure is overwritten
      by the untouched accumulator (0) at do.py:263. */
  function LocAsWritten(filter: Filter, lang: Lang, run: ClocRun): (r: Result<int, LocError>)
    ensures !LocSelected(filter) || ClocFailed(filter, run) ==> r == Ok(0)
    ensures r.Err? ==> LocSelected(filter) && !ClocFailed(filter, run)
  {
    if !LocSelected(filter) then Ok(0)
    else if ClocFailed(filter, run) then Ok(0)
    else Total(lang, run.lines)
  }

  /** `records['LoC']` as evidently intended: a cloc failure keeps the -1 sentinel. */
  function LocRecord(filter: Filter, lang: Lang, run: ClocRun): (r: Result<int, LocError>)
    ensures !LocSelected(filter) ==> r == Ok(0)
    ensures LocSelected(filter) && ClocFailed(filter, run) ==> r == Ok(-1)
    ensures LocSelected(filter) && !ClocFailed(filter, run) ==> r == Total(lang, run.lines)
  {
    if !LocSelected(filter) then Ok(0)
    else if ClocFailed(filter, run) then Ok(-1)
    else Total(lang, run.lines)
  }

  /** As written, a failed cloc run is recorded exactly like a project without a
      single counted line: the failure sentinel never reaches the output. */
  lemma LocFailureLost(lang: Lang)
    ensures LocAsWritten(All, lang, ClocRun(false, 0.0, [])) == Ok(0)
    ensures LocAsWritten(All, lang, ClocRun(true, 0.0, [])) == Ok(0)
    ensures LocRecord(All, lang, ClocRun(false, 0.0, [])) == Ok(-1)
  {
  }

  /** The corrected record differs from the written one only on a cloc failure. */
  lemma LocRecordAgrees(filter: Filter, lang: Lang, run: ClocRun)
    ensures LocSelected(filter) && ClocFailed(filter, run) ==>
              LocAsWritten(filter, lang, run) == Ok(0) && LocRecord(filter, lang, run) == Ok(-1)
    ensures !(LocSelected(filter) && ClocFailed(filter, run)) ==>
              LocAsWritten(filter, lang, run) == LocRecord(filter, lang, run)
  {
  }

  /** cloc fails when it exits with an error, or, only when every tool is run,
      when it takes longer than 180 seconds. */
  lemma ClocFailedWhen(filter: Filter, run: ClocRun)
    ensures ClocFailed(filter, run) <==> !run.exitOk || (filter == All && run.seconds > 180.0)
  {
  }
}
