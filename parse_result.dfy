// The post-processing script parse_result.py: it reads the project table, the
// runner's logs and the set of projects ENRE produced output for, and writes
// the kept projects, extended by time, memory and LoC, and the failed ones.
// Reading and writing files and listing the output directory are not
// modelled: their contents are inputs.
module ParseResult {
  import opened Basics
  import opened Text
  import opened Records
  import Cli
  import RunLog

  type LogMap = map<string, seq<string>>

  /** read_list: the table without its first (header) row. */
  function ReadList(rows: seq<seq<string>>): (r: seq<seq<string>>)
    ensures |r| == if rows == [] then 0 else |rows| - 1
    ensures forall i :: 0 <= i < |r| ==> r[i] == rows[i + 1]
  {
    if rows == [] then [] else rows[1..]
  }

  const TimePrefix: string := "INFO:root:Running ENRE-c on"
  const LocPrefix: string := "INFO:root:LoC for"

  /** A matching line with too few space-separated tokens (IndexError). */
  datatype LogError = ShortTimeLine(line: string) | ShortLocLine(line: string)

  /** `line.strip().split(" ")`. */
  function Tokens(line: string): seq<string>
  {
    Split(Strip(line), ' ')
  }

  predicate IsTimeLine(line: string)
  {
    StartsWith(line, TimePrefix)
  }

  predicate IsLocLine(line: string)
  {
    StartsWith(line, LocPrefix)
  }

  /** One line of the time log: token 3 is the name, 5 the time, 7 the memory;
      a later line for the same name replaces the earlier entry. */
  function TimeStep(m: LogMap, line: string): (r: Result<LogMap, LogError>)
    ensures r.Err? <==> IsTimeLine(line) && |Tokens(line)| < 8
    ensures r.Ok? ==> forall n :: n in r.value <==> n in m || TimeLineFor(line, n)
  {
    if !IsTimeLine(line) then Ok(m)
    else
      var sp := Tokens(line);
      if |sp| < 8 then Err(ShortTimeLine(line))
      else Ok(m[sp[3] := [sp[3], sp[5], sp[7]]])
  }

  /** One line of the LoC log: token 2 is the name, 4 the count, appended only
      to a name that already has a time entry. */
  function LocStep(m: LogMap, line: string): (r: Result<LogMap, LogError>)
    ensures r.Err? <==> IsLocLine(line) && |Tokens(line)| < 5
    ensures r.Ok? ==> r.value.Keys == m.Keys
  {
    if !IsLocLine(line) then Ok(m)
    else
      var sp := Tokens(line);
      if |sp| < 5 then Err(ShortLocLine(line))
      else if sp[2] !in m then Ok(m)
      else Ok(m[sp[2] := m[sp[2]] + [sp[4]]])
  }

  /** The map after the first `k` time lines. */
  function ReadTimes(lines: seq<string>, k: nat): Result<LogMap, LogError>
    requires k <= |lines|
  {
    Fold(TimeStep, map[], lines, k)
  }

  /** The map after the first `k` LoC lines, starting from `m`. */
  function ReadLocs(m: LogMap, lines: seq<string>, k: nat): Result<LogMap, LogError>
    requires k <= |lines|
  {
    Fold(LocStep, m, lines, k)
  }

  function LogOf(timeLines: seq<string>, locLines: seq<string>): Result<LogMap, LogError>
  {
    var m :- ReadTimes(timeLines, |timeLines|);
    ReadLocs(m, locLines, |locLines|)
  }

  /** read_log: first the loop over every time line, then the loop over
      every LoC line on the map the first one built. */
  method ReadLog(timeLines: seq<string>, locLines: seq<string>) returns (r: Result<LogMap, LogError>)
    ensures r == LogOf(timeLines, locLines)
  {
    var times := FoldLoop(TimeStep, map[], timeLines);
    if times.Err? {
      return Err(times.error);
    }
    r := FoldLoop(LocStep, times.value, locLines);
  }

  /** A time line that is read: it matches and has at least eight tokens. */
  predicate TimeLineFor(line: string, name: string)
  {
    IsTimeLine(line) && |Tokens(line)| >= 8 && Tokens(line)[3] == name
  }

  /** The index of the last of the first `k` time lines read for `name`. */
  function LastTimeLine(lines: seq<string>, name: string, k: nat): Option<nat>
    requires k <= |lines|
  {
    LastWhere(lines, line => TimeLineFor(line, name), k)
  }

  /** After the time lines, a name has an entry exactly when a time line was
      read for it, and the entry is the name with the time and memory tokens
      of the LAST such line. */
  lemma {:induction false} TimesEntries(lines: seq<string>, k: nat, name: string)
    requires k <= |lines|
    requires ReadTimes(lines, k).Ok?
    ensures var m := ReadTimes(lines, k).value;
      var j := LastTimeLine(lines, name, k);
      && (name in m <==> j.Some?)
      && (name in m ==> m[name] == [name, Tokens(lines[j.value])[5], Tokens(lines[j.value])[7]])
  {
    if k > 0 {
      TimesEntries(lines, k - 1, name);
      var prev := ReadTimes(lines, k - 1).value;
      FoldNext(TimeStep, map[], lines, k - 1, prev);
      TimeStepEntry(prev, lines[k - 1], name);
      LastTimeLineStep(lines, name, k);
    }
  }

  /** One time line on the entry of `name`: set from the line when it is read
      for `name`, untouched otherwise. */
  lemma TimeStepEntry(m: LogMap, line: string, name: string)
    requires TimeStep(m, line).Ok?
    ensures var m' := TimeStep(m, line).value;
      && (TimeLineFor(line, name) ==> name in m' && m'[name] == [name, Tokens(line)[5], Tokens(line)[7]])
      && (!TimeLineFor(line, name) ==> (name in m' <==> name in m) && (name in m ==> m'[name] == m[name]))
  {
  }

  /** One step back on the last time line read for `name`. */
  lemma LastTimeLineStep(lines: seq<string>, name: string, k: nat)
    requires 0 < k <= |lines|
    ensures LastTimeLine(lines, name, k)
              == if TimeLineFor(lines[k - 1], name) then Some(k - 1) else LastTimeLine(lines, name, k - 1)
  {
  }

  /** A LoC line that is read for `name`: it matches and has at least five tokens. */
  predicate LocLineFor(line: string, name: string)
  {
    IsLocLine(line) && |Tokens(line)| >= 5 && Tokens(line)[2] == name
  }

  /** The count tokens of the first `k` LoC lines read for `name`, in order. */
  function LocCounts(lines: seq<string>, name: string, k: nat): seq<string>
    requires k <= |lines|
  {
    if k == 0 then []
    else LocCounts(lines, name, k - 1) + (if LocLineFor(lines[k - 1], name) then [Tokens(lines[k - 1])[4]] else [])
  }

  /** The LoC lines add no name, and append to an existing entry exactly the
      count tokens of the lines for its name, in order. */
  lemma {:induction false} LocsOnlyAppend(m: LogMap, lines: seq<string>, k: nat, name: string)
    requires k <= |lines|
    requires ReadLocs(m, lines, k).Ok?
    ensures var m' := ReadLocs(m, lines, k).value;
      && m'.Keys == m.Keys
      && (name in m ==> m'[name] == m[name] + LocCounts(lines, name, k))
  {
    if k > 0 {
      LocsOnlyAppend(m, lines, k - 1, name);
      if name in m {
        var prev := ReadLocs(m, lines, k - 1).value;
        var m' := ReadLocs(m, lines, k).value;
        if LocLineFor(lines[k - 1], name) {
          assert m'[name] == prev[name] + [Tokens(lines[k - 1])[4]];
          assert LocCounts(lines, name, k) == LocCounts(lines, name, k - 1) + [Tokens(lines[k - 1])[4]];
        } else {
          assert LocCounts(lines, name, k) == LocCounts(lines, name, k - 1);
        }
      }
    }
  }

  /** read_log as a whole: a name has an entry exactly when some time line was
      read for it; the entry is the name, the time and memory tokens of its
      last time line, then the count tokens of its LoC lines in order. */
  lemma LogEntries(timeLines: seq<string>, locLines: seq<string>, name: string)
    requires LogOf(timeLines, locLines).Ok?
    ensures var m := LogOf(timeLines, locLines).value;
      var j := LastTimeLine(timeLines, name, |timeLines|);
      && (name in m <==> j.Some?)
      && (name in m ==> m[name] == [name, Tokens(timeLines[j.value])[5], Tokens(timeLines[j.value])[7]]
                                   + LocCounts(locLines, name, |locLines|))
  {
    TimesEntries(timeLines, |timeLines|, name);
    LocsOnlyAppend(ReadTimes(timeLines, |timeLines|).value, locLines, |locLines|, name);
  }

  lemma LocLineForm(name: string, loc: int)
    ensures RunLog.LocLine(name, loc) ==
      "INFO:root:LoC" + [' '] + ("for" + [' '] + (name + [' '] + ("is" + [' '] + IntToString(loc))))
  {
    var digits := IntToString(loc);
    assert RunLog.InfoPrefix + "LoC for " == "INFO:root:LoC" + [' '] + "for" + [' '];
    assert " is " + digits == [' '] + ("is" + [' '] + digits);
  }

  lemma LocLineSplit(name: string, loc: int)
    requires ' ' !in name
    ensures Split(RunLog.LocLine(name, loc), ' ') == ["INFO:root:LoC", "for", name, "is", IntToString(loc)]
  {
    var digits := IntToString(loc);
    LocLineForm(name, loc);
    IntToStringNoSpace(loc);
    SplitFree(digits, ' ');
    SplitCons("is", digits, ' ');
    SplitCons(name, "is" + [' '] + digits, ' ');
    SplitCons("for", name + [' '] + ("is" + [' '] + digits), ' ');
    SplitCons("INFO:root:LoC", "for" + [' '] + (name + [' '] + ("is" + [' '] + digits)), ' ');
  }

  /** A LoC message ends in a digit, so stripping removes only the newline. */
  lemma LocLineStripped(name: string, loc: int)
    ensures Strip(RunLog.LocLine(name, loc) + "\n") == RunLog.LocLine(name, loc)
  {
    var digits := IntToString(loc);
    var line := RunLog.LocLine(name, loc);
    assert line[|line| - 1] == digits[|digits| - 1];
    assert IsDigit(digits[|digits| - 1]);
    StripNewline(line);
  }

  /** The tokens of a LoC message as the runner writes it, newline included. */
  lemma LocLineTokens(name: string, loc: int)
    requires ' ' !in name
    ensures Tokens(RunLog.LocLine(name, loc) + "\n") == ["INFO:root:LoC", "for", name, "is", IntToString(loc)]
  {
    LocLineStripped(name, loc);
    LocLineSplit(name, loc);
  }

  /** Any LoC message is a LoC line. */
  lemma LocLineMatches(name: string, loc: int)
    ensures IsLocLine(RunLog.LocLine(name, loc) + "\n")
  {
    var head := RunLog.InfoPrefix + "LoC for " + name + " is ";
    assert head[..|LocPrefix|] == LocPrefix;
    StartsWithExtended(RunLog.LocLine(name, loc), "\n", head, LocPrefix);
  }

  /** The LoC message of the runner, read back: its count is appended to the
      entry of its project, if that project has one. */
  lemma LocLineRoundTrip(m: LogMap, name: string, loc: int)
    requires ' ' !in name
    ensures LocStep(m, RunLog.LocLine(name, loc) + "\n") ==
              Ok(if name in m then m[name := m[name] + [IntToString(loc)]] else m)
  {
    LocLineTokens(name, loc);
    LocLineMatches(name, loc);
  }

  /** The words of an ENRE message for the language tag `c`. */
  function EnreWords(name: string, m: Measure, show: real -> string): seq<string>
  {
    ["INFO:root:Running", "ENRE-c", "on", name, "costs", show(m.time) + "s"]
      + (if m.memory != -1.0 then ["and", show(m.memory) + "MB"] else [])
  }

  /** What follows the time token: ` and <m>MB`, or nothing. */
  function MemorySuffix(m: Measure, show: real -> string): string
  {
    if m.memory != -1.0 then " and " + show(m.memory) + "MB" else ""
  }

  lemma EnreLineForm(name: string, m: Measure, show: real -> string)
    ensures RunLog.EnreLine("c", name, m, show) ==
      "INFO:root:Running" + [' '] + ("ENRE-c" + [' '] + ("on" + [' '] + (name + [' '] + ("costs" + [' '] + (show(m.time) + "s" + MemorySuffix(m, show))))))
  {
  }

  /** The words from the time token on. */
  function TimeWords(m: Measure, show: real -> string): seq<string>
  {
    [show(m.time) + "s"] + (if m.memory != -1.0 then ["and", show(m.memory) + "MB"] else [])
  }

  lemma TimeWordsSplit(m: Measure, show: real -> string)
    requires ' ' !in show(m.time)
    requires m.memory != -1.0 ==> ' ' !in show(m.memory)
    ensures Split(show(m.time) + "s" + MemorySuffix(m, show), ' ') == TimeWords(m, show)
  {
    var t := show(m.time) + "s";
    if m.memory != -1.0 {
      var mb := show(m.memory) + "MB";
      assert t + MemorySuffix(m, show) == t + [' '] + ("and" + [' '] + mb);
      SplitFree(mb, ' ');
      SplitCons("and", mb, ' ');
      SplitCons(t, "and" + [' '] + mb, ' ');
    } else {
      assert t + MemorySuffix(m, show) == t;
      SplitFree(t, ' ');
    }
  }

  /** Five space-free words in front of a rest split off one by one. */
  lemma SplitFiveWords(a: string, b: string, c: string, d: string, e: string, rest: string)
    requires ' ' !in a && ' ' !in b && ' ' !in c && ' ' !in d && ' ' !in e
    ensures Split(a + [' '] + (b + [' '] + (c + [' '] + (d + [' '] + (e + [' '] + rest)))), ' ')
              == [a, b, c, d, e] + Split(rest, ' ')
  {
    SplitCons(e, rest, ' ');
    SplitCons(d, e + [' '] + rest, ' ');
    SplitCons(c, d + [' '] + (e + [' '] + rest), ' ');
    SplitCons(b, c + [' '] + (d + [' '] + (e + [' '] + rest)), ' ');
    SplitCons(a, b + [' '] + (c + [' '] + (d + [' '] + (e + [' '] + rest))), ' ');
  }

  /** An ENRE message neither starts nor ends with white space. */
  lemma EnreLineEnds(name: string, m: Measure, show: real -> string)
    ensures var line := RunLog.EnreLine("c", name, m, show);
      line != [] && line[0] == 'I' && line[|line| - 1] in {'s', 'B'}
  {
  }

  lemma EnreLineStripped(name: string, m: Measure, show: real -> string)
    ensures var line := RunLog.EnreLine("c", name, m, show);
      Tokens(line + "\n") == Split(line, ' ')
  {
    EnreLineEnds(name, m, show);
    StripNewline(RunLog.EnreLine("c", name, m, show));
  }

  lemma EnreLineSplit(name: string, m: Measure, show: real -> string)
    requires ' ' !in name && ' ' !in show(m.time)
    requires m.memory != -1.0 ==> ' ' !in show(m.memory)
    ensures Split(RunLog.EnreLine("c", name, m, show), ' ') == EnreWords(name, m, show)
  {
    EnreLineForm(name, m, show);
    TimeWordsSplit(m, show);
    SplitFiveWords("INFO:root:Running", "ENRE-c", "on", name, "costs", show(m.time) + "s" + MemorySuffix(m, show));
  }

  /** The tokens of an ENRE message for the language tag `c`. */
  lemma EnreLineTokens(name: string, m: Measure, show: real -> string)
    requires ' ' !in name && ' ' !in show(m.time)
    requires m.memory != -1.0 ==> ' ' !in show(m.memory)
    ensures Tokens(RunLog.EnreLine("c", name, m, show) + "\n") == EnreWords(name, m, show)
  {
    EnreLineStripped(name, m, show);
    EnreLineSplit(name, m, show);
  }

  /** Any ENRE message for the language tag `c` is a time line. */
  lemma EnreLineMatches(name: string, m: Measure, show: real -> string)
    ensures IsTimeLine(RunLog.EnreLine("c", name, m, show) + "\n")
  {
    var head := RunLog.InfoPrefix + "Running ENRE-" + "c" + " on " + name + " costs " + show(m.time) + "s";
    assert head[..|TimePrefix|] == TimePrefix;
    StartsWithExtended(RunLog.EnreLine("c", name, m, show), "\n", head, TimePrefix);
  }

  /** The ENRE message of a runner for the language tag `c`, read back: the
      entry of its project becomes its name, time token and memory token. */
  lemma EnreLineRoundTrip(logMap: LogMap, name: string, m: Measure, show: real -> string)
    requires ' ' !in name && ' ' !in show(m.time) && ' ' !in show(m.memory)
    requires m.memory != -1.0
    ensures TimeStep(logMap, RunLog.EnreLine("c", name, m, show) + "\n") ==
              Ok(logMap[name := [name, show(m.time) + "s", show(m.memory) + "MB"]])
  {
    EnreLineTokens(name, m, show);
    EnreLineMatches(name, m, show);
  }

  /** A message without its memory part (peak -1) has six tokens, and reading
      it raises IndexError. */
  lemma EnreLineWithoutMemory(logMap: LogMap, name: string, m: Measure, show: real -> string)
    requires ' ' !in name && ' ' !in show(m.time)
    requires m.memory == -1.0
    ensures TimeStep(logMap, RunLog.EnreLine("c", name, m, show) + "\n").Err?
  {
    EnreLineTokens(name, m, show);
    EnreLineMatches(name, m, show);
  }

  /** The runner's own language tags never match: `ENRE-cpp`, `ENRE-java`,
      `ENRE-python` and `ENRE-ts` are not `ENRE-c on`. */
  lemma RunnerEnreLineIgnored(logMap: LogMap, lang: Cli.Lang, name: string, m: Measure, show: real -> string)
    ensures TimeStep(logMap, RunLog.EnreLine(Cli.LangName(lang), name, m, show) + "\n") == Ok(logMap)
  {
    RunnerEnreLineNotTimeLine(lang, name, m, show);
  }

  lemma RunnerEnreLineNotTimeLine(lang: Cli.Lang, name: string, m: Measure, show: real -> string)
    ensures !IsTimeLine(RunLog.EnreLine(Cli.LangName(lang), name, m, show) + "\n")
  {
    var tag := Cli.LangName(lang);
    var lead := RunLog.InfoPrefix + "Running ENRE-";
    var head := lead + tag + " on " + name + " costs " + show(m.time) + "s";
    var written := RunLog.EnreLine(tag, name, m, show);
    assert |lead| == 23;
    assert written[..|head|] == head;
    assert head[23] == tag[0] && head[24] == tag[1];
    assert (written + "\n")[23] == tag[0] && (written + "\n")[24] == tag[1];
    assert TimePrefix[23] == 'c' && TimePrefix[24] == ' ';
  }

  // ---- filter_and_fill ----

  /** A project row kept in the result: the input row and the three numbers
      appended to it (seconds, GB, thousands of lines); their "{:.3f}"
      formatting is not modelled. */
  datatype Kept = Kept(item: seq<string>, seconds: real, gigabytes: real, kloc: real)

  /** The four ways filter_and_fill raises: an item with no second `/` segment
      in its first column (IndexError), a kept name without a log entry
      (KeyError: the defaultdict has no factory), an entry with too few
      fields (IndexError), a field that is not a number (ValueError). */
  datatype FillError =
    | NoShortName(item: seq<string>)
    | NoLogEntry(name: string)
    | ShortEntry(name: string)
    | BadField(name: string)

  /** What filter_and_fill returns: the header row and the data rows that form
      its result table, and the failed items. */
  datatype Filled = Filled(header: seq<string>, rows: seq<Kept>, failed: seq<seq<string>>)

  const ResultHeader: seq<string> := ["name", "stars", "html url", "clone url", "time (s)", "memory (GB)", "KLoC"]

  /** `item[0].split("/")[1]`. */
  function ShortName(item: seq<string>): (r: Result<string, FillError>)
    ensures r.Ok? <==> item != [] && |Split(item[0], '/')| >= 2
  {
    if item == [] then Err(NoShortName(item))
    else
      var parts := Split(item[0], '/');
      if |parts| < 2 then Err(NoShortName(item))
      else Ok(parts[1])
  }

  /** The short name is column 0's second `/`-segment: it lies between the
      first `/` and the next one (or the end). */
  lemma ShortNameSegment(item: seq<string>)
    requires ShortName(item).Ok?
    ensures var s := item[0];
      var name := ShortName(item).value;
      var a := |Split(s, '/')[0]|;
      var e := a + 1 + |name|;
      && e <= |s| && '/' !in s[..a] && s[a] == '/'
      && s[a + 1..e] == name
      && (e == |s| || s[e] == '/')
  {
    var s := item[0];
    var parts := Split(s, '/');
    var a := |parts[0]|;
    SplitHead(s, '/');
    assert s[..a] == parts[0];
    SplitPiecesFree(s, '/');
    assert '/' !in parts[0];
    var t := s[a + 1..];
    var tail := Split(t, '/');
    assert tail == parts[1..];
    assert tail[0] == parts[1];
    SplitHead(t, '/');
    assert t[..|parts[1]|] == parts[1];
    assert s[a + 1..a + 1 + |parts[1]|] == t[..|parts[1]|];
    if |tail| == 1 {
      SplitOne(t, '/');
    } else {
      assert t[|parts[1]|] == '/';
    }
  }

  /** A short name is one `/`-separated segment, so it holds no `/`. */
  lemma ShortNameNoSlash(item: seq<string>)
    requires ShortName(item).Ok?
    ensures '/' !in ShortName(item).value
  {
    SplitPiecesFree(item[0], '/');
  }

  /** Python's `s[:-n]`: all but the last `n` characters, or "" when there are
      not that many; `s[:-0]` is `s[:0]`, the empty string. */
  function DropLast(s: string, n: nat): (r: string)
    ensures 0 < n <= |s| ==> r + s[|s| - n..] == s
    ensures n == 0 || |s| < n ==> r == ""
  {
    if 0 < n <= |s| then s[..|s| - n] else ""
  }

  /** The three appended numbers, evaluated left to right as Python does;
      `num` stands for `float()`. */
  function Extend(item: seq<string>, name: string, entry: seq<string>, num: string -> Option<real>): (r: Result<Kept, FillError>)
    ensures r.Ok? <==> |entry| >= 4 && num(DropLast(entry[1], 1)).Some? && num(DropLast(entry[2], 2)).Some?
                       && ParseInt(entry[3]).Some?
    ensures r.Ok? ==> r.value.item == item && r.value.kloc == ParseInt(entry[3]).value as real / 1000.0
    ensures r.Ok? ==> r.value.seconds == num(DropLast(entry[1], 1)).value
                      && r.value.gigabytes == num(DropLast(entry[2], 2)).value / 1024.0
    ensures r.Err? ==> r.error in {ShortEntry(name), BadField(name)}
  {
    if |entry| < 2 then Err(ShortEntry(name))
    else if num(DropLast(entry[1], 1)).None? then Err(BadField(name))
    else if |entry| < 3 then Err(ShortEntry(name))
    else if num(DropLast(entry[2], 2)).None? then Err(BadField(name))
    else if |entry| < 4 then Err(ShortEntry(name))
    else if ParseInt(entry[3]).None? then Err(BadField(name))
    else
      Ok(Kept(item, num(DropLast(entry[1], 1)).value, num(DropLast(entry[2], 2)).value / 1024.0,
              ParseInt(entry[3]).value as real / 1000.0))
  }

  /** The loop's state: the failed items, the result names in first-insertion
      order (a dict keeps the position of a re-assigned key), and their rows. */
  datatype Fill = Fill(failed: seq<seq<string>>, names: seq<string>, rows: map<string, Kept>)

  /** One item of the loop. */
  function FillStep(st: Fill, item: seq<string>, enre: set<string>, log: LogMap, num: string -> Option<real>): Result<Fill, FillError>
  {
    var name :- ShortName(item);
    if name !in enre then Ok(st.(failed := st.failed + [item]))
    else if name !in log then Err(NoLogEntry(name))
    else
      var row :- Extend(item, name, log[name], num);
      Ok(Fill(st.failed, if name in st.rows then st.names else st.names + [name], st.rows[name := row]))
  }

  /** The state after the first `k` items. */
  function FillAfter(lists: seq<seq<string>>, enre: set<string>, log: LogMap, num: string -> Option<real>, k: nat): Result<Fill, FillError>
    requires k <= |lists|
  {
    if k == 0 then Ok(Fill([], [], map[]))
    else
      var st :- FillAfter(lists, enre, log, num, k - 1);
      FillStep(st, lists[k - 1], enre, log, num)
  }

  /** An item that goes to the result under `name`. */
  predicate KeptAs(item: seq<string>, enre: set<string>, name: string)
  {
    ShortName(item) == Ok(name) && name in enre
  }

  /** The index of the last of the first `k` items kept under `name`. */
  function LastKept(lists: seq<seq<string>>, enre: set<string>, name: string, k: nat): Option<nat>
    requires k <= |lists|
  {
    LastWhere(lists, KeptUnder(enre, name), k)
  }

  /** The test "kept under `name`" as a value. */
  function KeptUnder(enre: set<string>, name: string): seq<string> -> bool
  {
    item => KeptAs(item, enre, name)
  }

  /** The items that go to `failed`, in input order. */
  function Unmatched(lists: seq<seq<string>>, enre: set<string>, k: nat): seq<seq<string>>
    requires k <= |lists|
  {
    if k == 0 then []
    else
      var earlier := Unmatched(lists, enre, k - 1);
      var item := lists[k - 1];
      if ShortName(item).Ok? && ShortName(item).value !in enre then earlier + [item] else earlier
  }

  lemma FillNext(lists: seq<seq<string>>, enre: set<string>, log: LogMap, num: string -> Option<real>, i: nat, st: Fill)
    requires i < |lists| && FillAfter(lists, enre, log, num, i) == Ok(st)
    ensures FillAfter(lists, enre, log, num, i + 1) == FillStep(st, lists[i], enre, log, num)
  {
  }

  lemma {:induction false} FillErrorSticky(lists: seq<seq<string>>, enre: set<string>, log: LogMap, num: string -> Option<real>, k: nat, n: nat)
    requires k <= n <= |lists|
    requires FillAfter(lists, enre, log, num, k).Err?
    ensures FillAfter(lists, enre, log, num, n) == FillAfter(lists, enre, log, num, k)
    decreases n
  {
    if n > k {
      FillErrorSticky(lists, enre, log, num, k, n - 1);
    }
  }

  /** filter_and_fill: the result table (the header, then
      `list(name_map.values())`) and the failed items. */
  method FilterAndFill(lists: seq<seq<string>>, enre: set<string>, log: LogMap, num: string -> Option<real>)
    returns (r: Result<Filled, FillError>)
    ensures var f := FillAfter(lists, enre, log, num, |lists|);
      && (f.Err? <==> r.Err?)
      && (f.Err? ==> r.error == f.error)
      && (f.Ok? ==>
            && r.value.header == ResultHeader
            && r.value.failed == f.value.failed
            && |r.value.rows| == |f.value.names|
            && forall j :: 0 <= j < |f.value.names| ==>
                 f.value.names[j] in f.value.rows && r.value.rows[j] == f.value.rows[f.value.names[j]])
  {
    var failed: seq<seq<string>> := [];
    var names: seq<string> := [];
    var nameMap: map<string, Kept> := map[];
    var i := 0;
    while i < |lists|
      invariant 0 <= i <= |lists|
      invariant FillAfter(lists, enre, log, num, i) == Ok(Fill(failed, names, nameMap))
    {
      FillNext(lists, enre, log, num, i, Fill(failed, names, nameMap));
      var next := FillStep(Fill(failed, names, nameMap), lists[i], enre, log, num);
      if next.Err? {
        FillErrorSticky(lists, enre, log, num, i + 1, |lists|);
        return Err(next.error);
      }
      failed, names, nameMap := next.value.failed, next.value.names, next.value.rows;
      i := i + 1;
    }
    FillNames(lists, enre, log, num, |lists|);
    var rows := seq(|names|, j requires 0 <= j < |names| => nameMap[names[j]]);
    return Ok(Filled(ResultHeader, rows, failed));
  }

  /** One step on the result: the item's short name joins the keys when the
      item is kept, and joins the names when it is new. */
  lemma FillStepShape(prev: Fill, item: seq<string>, enre: set<string>, log: LogMap, num: string -> Option<real>)
    requires FillStep(prev, item, enre, log, num).Ok?
    ensures ShortName(item).Ok?
    ensures var st := FillStep(prev, item, enre, log, num).value;
      var name := ShortName(item).value;
      && (forall n :: n in st.rows <==> n in prev.rows || KeptAs(item, enre, n))
      && st.names == (if name in enre && name !in prev.rows then prev.names + [name] else prev.names)
  {
  }

  /** The result names are distinct and are exactly the keys of the rows. */
  lemma {:induction false} FillNames(lists: seq<seq<string>>, enre: set<string>, log: LogMap, num: string -> Option<real>, k: nat)
    requires k <= |lists|
    requires FillAfter(lists, enre, log, num, k).Ok?
    ensures var st := FillAfter(lists, enre, log, num, k).value;
      && Distinct(st.names)
      && (forall i :: 0 <= i < |st.names| ==> st.names[i] in st.rows)
      && (forall n :: n in st.rows <==> n in st.names)
  {
    if k > 0 {
      FillNames(lists, enre, log, num, k - 1);
      var prev := FillAfter(lists, enre, log, num, k - 1).value;
      FillNext(lists, enre, log, num, k - 1, prev);
      FillStepNames(prev, lists[k - 1], enre, log, num);
    }
  }

  /** The names stay a duplicate-free listing of exactly the keys. */
  ghost predicate NamesMatchRows(st: Fill)
  {
    && Distinct(st.names)
    && (forall i :: 0 <= i < |st.names| ==> st.names[i] in st.rows)
    && (forall n :: n in st.rows <==> n in st.names)
  }

  lemma FillStepNames(prev: Fill, item: seq<string>, enre: set<string>, log: LogMap, num: string -> Option<real>)
    requires FillStep(prev, item, enre, log, num).Ok?
    requires NamesMatchRows(prev)
    ensures NamesMatchRows(FillStep(prev, item, enre, log, num).value)
  {
    FillStepShape(prev, item, enre, log, num);
    var name := ShortName(item).value;
    if name in enre && name !in prev.rows {
      DistinctAppend(prev.names, name);
    }
  }

  /** The keys of the rows are exactly the short names of the items kept so far. */
  lemma {:induction false} FillKeys(lists: seq<seq<string>>, enre: set<string>, log: LogMap, num: string -> Option<real>, k: nat)
    requires k <= |lists|
    requires FillAfter(lists, enre, log, num, k).Ok?
    ensures var st := FillAfter(lists, enre, log, num, k).value;
      forall n :: n in st.rows <==> exists i :: 0 <= i < k && KeptAs(lists[i], enre, n)
  {
    if k > 0 {
      FillKeys(lists, enre, log, num, k - 1);
      var prev := FillAfter(lists, enre, log, num, k - 1).value;
      FillNext(lists, enre, log, num, k - 1, prev);
      FillStepShape(prev, lists[k - 1], enre, log, num);
      var st := FillAfter(lists, enre, log, num, k).value;
      forall n ensures n in st.rows <==> exists i :: 0 <= i < k && KeptAs(lists[i], enre, n) {
        KeptBeforeStep(lists, enre, n, k);
      }
    }
  }

  /** An item among the first `k` is kept under `n` exactly when one among the
      first `k - 1` is, or item `k - 1` is. */
  lemma KeptBeforeStep(lists: seq<seq<string>>, enre: set<string>, n: string, k: nat)
    requires 0 < k <= |lists|
    ensures (exists i :: 0 <= i < k && KeptAs(lists[i], enre, n))
              <==> (exists i :: 0 <= i < k - 1 && KeptAs(lists[i], enre, n)) || KeptAs(lists[k - 1], enre, n)
  {
    if exists i :: 0 <= i < k && KeptAs(lists[i], enre, n) {
      var i :| 0 <= i < k && KeptAs(lists[i], enre, n);
      if i < k - 1 {
        assert exists i :: 0 <= i < k - 1 && KeptAs(lists[i], enre, n);
      }
    }
  }

  /** `failed` holds exactly the items whose short name has no ENRE output,
      in input order. */
  lemma {:induction false} FillFailed(lists: seq<seq<string>>, enre: set<string>, log: LogMap, num: string -> Option<real>, k: nat)
    requires k <= |lists|
    requires FillAfter(lists, enre, log, num, k).Ok?
    ensures FillAfter(lists, enre, log, num, k).value.failed == Unmatched(lists, enre, k)
  {
    if k > 0 {
      FillFailed(lists, enre, log, num, k - 1);
    }
  }

  /** Every item lands in exactly one place: in `failed` when its short name
      has no ENRE output, under its short name in the result otherwise. */
  lemma {:induction false} FillPartition(lists: seq<seq<string>>, enre: set<string>, log: LogMap, num: string -> Option<real>, k: nat, i: nat)
    requires i < k <= |lists|
    requires FillAfter(lists, enre, log, num, k).Ok?
    ensures ShortName(lists[i]).Ok?
    ensures var st := FillAfter(lists, enre, log, num, k).value;
      var n := ShortName(lists[i]).value;
      && (n in enre ==> n in st.names && lists[i] !in st.failed)
      && (n !in enre ==> lists[i] in st.failed && n !in st.rows)
  {
    if i < k - 1 {
      FillPartition(lists, enre, log, num, k - 1, i);
    }
    FillNames(lists, enre, log, num, k);
    FillKeys(lists, enre, log, num, k);
    FillFailed(lists, enre, log, num, k);
    if lists[i] in Unmatched(lists, enre, k) {
      UnmatchedNotKept(lists, enre, k, lists[i]);
    }
  }

  /** Every failed item has a short name without ENRE output. */
  lemma {:induction false} UnmatchedNotKept(lists: seq<seq<string>>, enre: set<string>, k: nat, item: seq<string>)
    requires k <= |lists|
    requires item in Unmatched(lists, enre, k)
    ensures ShortName(item).Ok? && ShortName(item).value !in enre
  {
    if item in Unmatched(lists, enre, k - 1) {
      UnmatchedNotKept(lists, enre, k - 1, item);
    }
  }

  /** The row under a name is the LAST item kept under it, extended by the
      numbers read from that name's log entry. */
  lemma {:induction false} FillRowIsLast(lists: seq<seq<string>>, enre: set<string>, log: LogMap, num: string -> Option<real>, k: nat, n: string)
    requires k <= |lists|
    requires FillAfter(lists, enre, log, num, k).Ok?
    requires n in FillAfter(lists, enre, log, num, k).value.rows
    ensures n in log && LastKept(lists, enre, n, k).Some?
    ensures Extend(lists[LastKept(lists, enre, n, k).value], n, log[n], num)
              == Ok(FillAfter(lists, enre, log, num, k).value.rows[n])
  {
    var kept := KeptUnder(enre, n);
    FillKeys(lists, enre, log, num, k);
    var i :| 0 <= i < k && KeptAs(lists[i], enre, n);
    assert kept(lists[i]);
    LastWhereIsLast(lists, kept, k);
    var j := LastKept(lists, enre, n, k).value;
    forall i' | j + 1 <= i' < k
      ensures !KeptAs(lists[i'], enre, n)
    {
      assert !kept(lists[i']);
    }
    FillRowSince(lists, enre, log, num, j + 1, k, n);
    FillRowKept(lists, enre, log, num, j + 1, n);
  }

  /** Items not kept under `n` leave the row under `n` as it was. */
  lemma {:induction false} FillRowSince(lists: seq<seq<string>>, enre: set<string>, log: LogMap, num: string -> Option<real>, a: nat, k: nat, n: string)
    requires a <= k <= |lists|
    requires FillAfter(lists, enre, log, num, k).Ok?
    requires n in FillAfter(lists, enre, log, num, k).value.rows
    requires forall i :: a <= i < k ==> !KeptAs(lists[i], enre, n)
    ensures FillAfter(lists, enre, log, num, a).Ok?
    ensures n in FillAfter(lists, enre, log, num, a).value.rows
    ensures FillAfter(lists, enre, log, num, k).value.rows[n] == FillAfter(lists, enre, log, num, a).value.rows[n]
    decreases k
  {
    if k > a {
      FillRowUntouched(lists, enre, log, num, k, n);
      FillRowSince(lists, enre, log, num, a, k - 1, n);
    }
  }

  /** An item kept under `n` sets the row under `n`. */
  lemma FillRowKept(lists: seq<seq<string>>, enre: set<string>, log: LogMap, num: string -> Option<real>, k: nat, n: string)
    requires 0 < k <= |lists|
    requires FillAfter(lists, enre, log, num, k).Ok?
    requires KeptAs(lists[k - 1], enre, n)
    ensures n in log && n in FillAfter(lists, enre, log, num, k).value.rows
    ensures Extend(lists[k - 1], n, log[n], num) == Ok(FillAfter(lists, enre, log, num, k).value.rows[n])
  {
    var prev := FillAfter(lists, enre, log, num, k - 1).value;
    FillNext(lists, enre, log, num, k - 1, prev);
  }

  /** An item not kept under `n` leaves the row under `n` as it was. */
  lemma FillRowUntouched(lists: seq<seq<string>>, enre: set<string>, log: LogMap, num: string -> Option<real>, k: nat, n: string)
    requires 0 < k <= |lists|
    requires FillAfter(lists, enre, log, num, k).Ok?
    requires !KeptAs(lists[k - 1], enre, n)
    requires n in FillAfter(lists, enre, log, num, k).value.rows
    ensures FillAfter(lists, enre, log, num, k - 1).Ok?
    ensures n in FillAfter(lists, enre, log, num, k - 1).value.rows
    ensures FillAfter(lists, enre, log, num, k).value.rows[n] == FillAfter(lists, enre, log, num, k - 1).value.rows[n]
  {
    var prev := FillAfter(lists, enre, log, num, k - 1).value;
    FillNext(lists, enre, log, num, k - 1, prev);
    FillStepRow(prev, lists[k - 1], enre, log, num, n);
  }

  /** One step on the row under `n`: set from the item when the item is kept
      under `n`, untouched otherwise. */
  lemma FillStepRow(prev: Fill, item: seq<string>, enre: set<string>, log: LogMap, num: string -> Option<real>, n: string)
    requires FillStep(prev, item, enre, log, num).Ok?
    requires n in FillStep(prev, item, enre, log, num).value.rows
    ensures var st := FillStep(prev, item, enre, log, num).value;
      && (KeptAs(item, enre, n) ==> n in log && Extend(item, n, log[n], num) == Ok(st.rows[n]))
      && (!KeptAs(item, enre, n) ==> n in prev.rows && st.rows[n] == prev.rows[n])
  {
  }

  /** A result without error means every kept name had a full log entry: a
      kept name without one (a project ENRE produced output for but whose
      time line is missing) makes the whole run raise. */
  lemma {:induction false} FillNeedsLog(lists: seq<seq<string>>, enre: set<string>, log: LogMap, num: string -> Option<real>, k: nat, i: nat, n: string)
    requires i < k <= |lists|
    requires KeptAs(lists[i], enre, n)
    requires n !in log || |log[n]| < 4
    ensures FillAfter(lists, enre, log, num, k).Err?
  {
    if i < k - 1 {
      FillNeedsLog(lists, enre, log, num, k - 1, i, n);
    }
  }

  /** The first failing item decides the error: with no log entry at all it
      is the KeyError of its name. */
  lemma MissingEntryRaises(lists: seq<seq<string>>, enre: set<string>, log: LogMap, num: string -> Option<real>, k: nat, n: string)
    requires k < |lists|
    requires FillAfter(lists, enre, log, num, k).Ok?
    requires KeptAs(lists[k], enre, n) && n !in log
    ensures FillAfter(lists, enre, log, num, |lists|) == Err(NoLogEntry(n))
  {
    FillErrorSticky(lists, enre, log, num, k + 1, |lists|);
  }

  /** The entry read from the runner's ENRE line and then its LoC line. */
  lemma RunnerLogEntry(logMap: LogMap, name: string, m: Measure, loc: int, show: real -> string)
    requires ' ' !in name && ' ' !in show(m.time) && ' ' !in show(m.memory)
    requires m.memory != -1.0
    ensures var afterTime := TimeStep(logMap, RunLog.EnreLine("c", name, m, show) + "\n");
      && afterTime.Ok?
      && LocStep(afterTime.value, RunLog.LocLine(name, loc) + "\n")
           == Ok(logMap[name := [name, show(m.time) + "s", show(m.memory) + "MB", IntToString(loc)]])
  {
    EnreLineRoundTrip(logMap, name, m, show);
    AppendLoc(logMap, name, show(m.time) + "s", show(m.memory) + "MB", loc);
  }

  lemma AppendLoc(logMap: LogMap, name: string, t: string, mb: string, loc: int)
    requires ' ' !in name
    ensures LocStep(logMap[name := [name, t, mb]], RunLog.LocLine(name, loc) + "\n")
              == Ok(logMap[name := [name, t, mb, IntToString(loc)]])
  {
    LocLineRoundTrip(logMap[name := [name, t, mb]], name, loc);
    AppendToEntry(logMap, name, t, mb, IntToString(loc));
  }

  lemma AppendToEntry(logMap: LogMap, name: string, t: string, mb: string, count: string)
    ensures var before := logMap[name := [name, t, mb]];
      name in before && before[name := before[name] + [count]] == logMap[name := [name, t, mb, count]]
  {
    var before := logMap[name := [name, t, mb]];
    assert before[name] + [count] == [name, t, mb, count];
  }

  /** Python's `s[:-n]` undoes appending an `n`-character unit. */
  lemma DropUnit(s: string, unit: string)
    requires unit != ""
    ensures DropLast(s + unit, |unit|) == s
  {
    assert (s + unit)[..|s|] == s;
  }

  /** Stripping the `s` and `MB` units recovers exactly the printed numbers:
      when `float()` reads back the printed time and memory and int() the
      printed count (as it does for `str(loc)`, Text.ParseIntRoundTrip), the
      row carries those seconds, the megabytes over 1024 and the line count
      over 1000. */
  lemma ExtendRunnerEntry(item: seq<string>, name: string, t: string, mb: string, count: string, loc: int, num: string -> Option<real>)
    requires num(t).Some? && num(mb).Some? && ParseInt(count) == Some(loc)
    ensures Extend(item, name, [name, t + "s", mb + "MB", count], num)
              == Ok(Kept(item, num(t).value, num(mb).value / 1024.0, loc as real / 1000.0))
  {
    DropUnit(t, "s");
    DropUnit(mb, "MB");
  }
}
