// Command-line validation of the benchmark runner (do.py:115-149): the target
// language, the `N` / `N-M` row range, the optional single-tool filter and the
// optional timeout.  Each check that fails ends the script with ValueError; the
// model returns the first failure as an error value instead.
module Cli {
  import opened Basics
  import opened Text

  datatype Lang = Cpp | Java | Python | Ts

  /** The tool filter; `All` is the empty filter, meaning "every tool". */
  datatype Filter = Clone | Loc | Depends | Enre | Understand | SourceTrail | All

  datatype CliError =
    | BadLang(lang: string)
    | BadInteger(text: string)
    | BadRangeFormat(range: string)
    | BadTool(tool: string)
    | BadTimeout(seconds: int)

  /** The validated command line. */
  datatype Config = Config(
    lang: Lang,
    fromLine: int,
    endLine: int,
    filter: Filter,
    timeout: Option<int>,
    lowTimeoutWarning: bool)

  const LangNames: set<string> := {"cpp", "java", "python", "ts"}
  const FilterNames: set<string> := {"clone", "loc", "depends", "enre", "understand", "sourcetrail", ""}

  function LangName(l: Lang): string
  {
    match l
    case Cpp => "cpp"
    case Java => "java"
    case Python => "python"
    case Ts => "ts"
  }

  function FilterName(f: Filter): string
  {
    match f
    case Clone => "clone"
    case Loc => "loc"
    case Depends => "depends"
    case Enre => "enre"
    case Understand => "understand"
    case SourceTrail => "sourcetrail"
    case All => ""
  }

  /** The language must be one of the four names, spelled exactly (case matters). */
  function ParseLang(s: string): (r: Result<Lang, CliError>)
    ensures r.Ok? <==> s in LangNames
    ensures r.Ok? ==> LangName(r.value) == s
    ensures r.Err? ==> r.error == BadLang(s)
  {
    if s == "cpp" then Ok(Cpp)
    else if s == "java" then Ok(Java)
    else if s == "python" then Ok(Python)
    else if s == "ts" then Ok(Ts)
    else Err(BadLang(s))
  }

  function ParseNumber(s: string): Result<int, CliError>
  {
    match ParseInt(s)
    case Some(n) => Ok(n)
    case None => Err(BadInteger(s))
  }

  /** `range.split('-')`: one piece gives from = end, two pieces give (from, end),
      anything else is a format error.  from <= end is not checked. */
  function ParseRange(range: string): (r: Result<(int, int), CliError>)
    ensures var parts := Split(range, '-');
      && (|parts| > 2 <==> r == Err(BadRangeFormat(range)))
      && (|parts| == 1 ==>
            && (r.Ok? <==> ParseInt(parts[0]).Some?)
            && (r.Ok? ==> r.value.0 == r.value.1 == ParseInt(parts[0]).value)
            && (r.Err? ==> r.error == BadInteger(parts[0])))
      && (|parts| == 2 ==>
            && (r.Ok? <==> ParseInt(parts[0]).Some? && ParseInt(parts[1]).Some?)
            && (r.Ok? ==> r.value == (ParseInt(parts[0]).value, ParseInt(parts[1]).value))
            && (ParseInt(parts[0]).None? ==> r == Err(BadInteger(parts[0])))
            && (ParseInt(parts[0]).Some? && ParseInt(parts[1]).None? ==> r == Err(BadInteger(parts[1]))))
  {
    var parts := Split(range, '-');
    if |parts| == 1 then
      var n :- ParseNumber(parts[0]);
      Ok((n, n))
    else if |parts| == 2 then
      var a :- ParseNumber(parts[0]);
      var b :- ParseNumber(parts[1]);
      Ok((a, b))
    else Err(BadRangeFormat(range))
  }

  /** The filter is lower-cased first; an absent filter is the empty one. */
  function ParseFilter(only: Option<string>): (r: Result<Filter, CliError>)
    ensures r.Ok? <==> only.None? || Lower(only.value) in FilterNames
    ensures r.Ok? ==> FilterName(r.value) == (if only.None? then "" else Lower(only.value))
    ensures r.Err? ==> r.error == BadTool(Lower(only.value))
  {
    var name := if only.None? then "" else Lower(only.value);
    if name == "clone" then Ok(Clone)
    else if name == "loc" then Ok(Loc)
    else if name == "depends" then Ok(Depends)
    else if name == "enre" then Ok(Enre)
    else if name == "understand" then Ok(Understand)
    else if name == "sourcetrail" then Ok(SourceTrail)
    else if name == "" then Ok(All)
    else Err(BadTool(name))
  }

  /** A timeout, when given, must lie in 0..3600; below 300 it is only warned about. */
  function CheckTimeout(timeout: Option<int>): (r: Result<bool, CliError>)
    ensures r.Ok? <==> timeout.None? || 0 <= timeout.value <= 3600
    ensures r.Ok? ==> (r.value <==> timeout.Some? && timeout.value < 300)
    ensures r.Err? ==> r.error == BadTimeout(timeout.value)
  {
    match timeout
    case None => Ok(false)
    case Some(t) =>
      if t < 0 || t > 3600 then Err(BadTimeout(t)) else Ok(t < 300)
  }

  /** All checks, in the script's order: language, range, tool filter, timeout. */
  function ParseArgs(lang: string, range: string, only: Option<string>, timeout: Option<int>): (r: Result<Config, CliError>)
    ensures r.Ok? <==> lang in LangNames && ParseRange(range).Ok? && ParseFilter(only).Ok? && CheckTimeout(timeout).Ok?
    ensures lang !in LangNames ==> r == Err(BadLang(lang))
    ensures lang in LangNames && ParseRange(range).Err? ==> r == Err(ParseRange(range).error)
    ensures lang in LangNames && ParseRange(range).Ok? && ParseFilter(only).Err? ==> r == Err(ParseFilter(only).error)
    ensures lang in LangNames && ParseRange(range).Ok? && ParseFilter(only).Ok? && CheckTimeout(timeout).Err? ==>
              r == Err(BadTimeout(timeout.value))
    ensures r.Ok? ==>
              && LangName(r.value.lang) == lang
              && r.value.timeout == timeout
              && (r.value.fromLine, r.value.endLine) == ParseRange(range).value
              && r.value.filter == ParseFilter(only).value
              && (r.value.lowTimeoutWarning <==> timeout.Some? && timeout.value < 300)
  {
    var l :- ParseLang(lang);
    var bounds :- ParseRange(range);
    var f :- ParseFilter(only);
    var warn :- CheckTimeout(timeout);
    Ok(Config(l, bounds.0, bounds.1, f, timeout, warn))
  }

  /** `"N"` selects the single row N. */
  lemma RangeSingle(n: nat)
    ensures ParseRange(NatToString(n)) == Ok((n, n))
  {
    DigitsFree(NatToString(n), '-');
    SplitFree(NatToString(n), '-');
    ParseIntRoundTrip(n);
  }

  lemma RangeOfPieces(range: string, a: string, b: string, n: int, m: int)
    requires Split(range, '-') == [a, b]
    requires ParseInt(a) == Some(n) && ParseInt(b) == Some(m)
    ensures ParseRange(range) == Ok((n, m))
  {
  }

  /** `"N-M"` selects rows N through M, whatever their order: N > M is accepted. */
  lemma RangePair(n: nat, m: nat)
    ensures ParseRange(NatToString(n) + "-" + NatToString(m)) == Ok((n, m))
  {
    var a, b := NatToString(n), NatToString(m);
    DigitsFree(a, '-');
    DigitsFree(b, '-');
    SplitTwo(a, b, '-');
    ParseIntRoundTrip(n);
    ParseIntRoundTrip(m);
    RangeOfPieces(a + "-" + b, a, b, n, m);
  }

  /** Three or more `-`-separated pieces are a format error. */
  lemma RangeTooManyParts(range: string)
    requires |Split(range, '-')| > 2
    ensures ParseRange(range) == Err(BadRangeFormat(range))
  {
  }

  lemma ParseIntNoMinus(s: string)
    requires '-' !in s && ParseInt(s).Some?
    ensures ParseInt(s).value >= 0
  {
    var t := Strip(s);
    var u := StripStart(s);
    assert t == u[..|t|];
    assert t[0] == u[0] == s[|s| - |u|];
  }

  /** Since `-` separates the pieces, a parsed range never has a negative bound. */
  lemma RangeNonNegative(range: string)
    requires ParseRange(range).Ok?
    ensures ParseRange(range).value.0 >= 0 && ParseRange(range).value.1 >= 0
  {
    var parts := Split(range, '-');
    SplitPiecesFree(range, '-');
    ParseIntNoMinus(parts[0]);
    if |parts| == 2 {
      ParseIntNoMinus(parts[1]);
    }
  }
}
