// The summary script parse.py: it sorts the result rows into four LoC scopes
// by their KLoC column and reports, per scope, the largest, smallest and
// average analysis time.  Reading the CSV file and printing are not modelled:
// the rows are an input and the reported values an output.
module Scopes {
  import opened Basics

  /** `sys.float_info.max`, the largest finite double, written out exactly. */
  const FloatMax: real := 179769313486231570814527423731704356798070567525844996598917476803157260780028538760589558632766878171540458953514382464234321326889464182768467546703537516986049910576551282076245490090389328944075868508455133942304583236903222948165808559332123348274797826204144723168738177180919299881250404026184124858368.0

  /** The four scopes: under 10, 10 to 100, 100 to 200 and 200 to 300 KLoC. */
  const ScopeCount: nat := 4

  /** Why the script raises: a row too short to have a time or a KLoC column
      (IndexError), a column that is not a number (ValueError), or an empty
      scope (ZeroDivisionError in the average). */
  datatype ScopeError = TooFewColumns(row: seq<string>) | BadFloat(text: string) | EmptyScope

  /** The scope of a KLoC value; the boundaries 10, 100 and 200 themselves,
      and 300 or more, fall in none. */
  function ScopeOf(loc: real): (r: Option<nat>)
    ensures r == Some(0) <==> loc < 10.0
    ensures r == Some(1) <==> 10.0 < loc < 100.0
    ensures r == Some(2) <==> 100.0 < loc < 200.0
    ensures r == Some(3) <==> 200.0 < loc < 300.0
    ensures r.None? <==> loc == 10.0 || loc == 100.0 || loc == 200.0 || loc >= 300.0
    ensures r.Some? ==> r.value < ScopeCount
  {
    if loc < 10.0 then Some(0)
    else if loc > 10.0 && loc < 100.0 then Some(1)
    else if loc > 100.0 && loc < 200.0 then Some(2)
    else if loc > 200.0 && loc < 300.0 then Some(3)
    else None
  }

  /** The scope of one data row: column 4 is read first, then column 6 is
      converted; `num` stands for `float()`. */
  function RowScope(row: seq<string>, num: string -> Option<real>): (r: Result<Option<nat>, ScopeError>)
    ensures |row| < 7 <==> r == Err(TooFewColumns(row))
    ensures r.Err? <==> |row| < 7 || num(row[6]).None?
    ensures r.Ok? ==> r.value == ScopeOf(num(row[6]).value)
  {
    if |row| < 5 then Err(TooFewColumns(row))
    else if |row| < 7 then Err(TooFewColumns(row))
    else if num(row[6]).None? then Err(BadFloat(row[6]))
    else Ok(ScopeOf(num(row[6]).value))
  }

  function EmptyScopes(): seq<seq<seq<string>>>
  {
    [[], [], [], []]
  }

  /** The scopes after the first `k` data rows. */
  function ScopesAfter(data: seq<seq<string>>, num: string -> Option<real>, k: nat): (r: Result<seq<seq<seq<string>>>, ScopeError>)
    requires k <= |data|
    ensures r.Ok? ==> |r.value| == ScopeCount
  {
    if k == 0 then Ok(EmptyScopes())
    else
      var res :- ScopesAfter(data, num, k - 1);
      var s :- RowScope(data[k - 1], num);
      if s.None? then Ok(res) else Ok(res[s.value := res[s.value] + [data[k - 1]]])
  }

  /** The data rows of scope `b` among the first `k`, in file order. */
  function Members(data: seq<seq<string>>, num: string -> Option<real>, b: nat, k: nat): seq<seq<string>>
    requires k <= |data|
  {
    if k == 0 then []
    else
      var earlier := Members(data, num, b, k - 1);
      if RowScope(data[k - 1], num) == Ok(Some(b)) then earlier + [data[k - 1]] else earlier
  }

  /** The rows after the header: `next(reader, None)` skips one row if any. */
  function DataRows(rows: seq<seq<string>>): seq<seq<string>>
  {
    if rows == [] then [] else rows[1..]
  }

  lemma ScopesNext(data: seq<seq<string>>, num: string -> Option<real>, i: nat, res: seq<seq<seq<string>>>)
    requires i < |data| && ScopesAfter(data, num, i) == Ok(res)
    ensures ScopesAfter(data, num, i + 1) ==
      match RowScope(data[i], num)
      case Err(e) => Err(e)
      case Ok(s) => if s.None? then Ok(res) else Ok(res[s.value := res[s.value] + [data[i]]])
  {
  }

  lemma {:induction false} ScopesErrorSticky(data: seq<seq<string>>, num: string -> Option<real>, k: nat, n: nat)
    requires k <= n <= |data|
    requires ScopesAfter(data, num, k).Err?
    ensures ScopesAfter(data, num, n) == ScopesAfter(data, num, k)
    decreases n
  {
    if n > k {
      ScopesErrorSticky(data, num, k, n - 1);
    }
  }

  /** The reading loop: the header is skipped and every data row appended to
      the list of its scope. */
  method SortIntoScopes(rows: seq<seq<string>>, num: string -> Option<real>) returns (r: Result<seq<seq<seq<string>>>, ScopeError>)
    ensures r == ScopesAfter(DataRows(rows), num, |DataRows(rows)|)
  {
    var data := DataRows(rows);
    var res := EmptyScopes();
    var i := 0;
    while i < |data|
      invariant 0 <= i <= |data|
      invariant ScopesAfter(data, num, i) == Ok(res)
    {
      ScopesNext(data, num, i, res);
      var s := RowScope(data[i], num);
      if s.Err? {
        ScopesErrorSticky(data, num, i + 1, |data|);
        return Err(s.error);
      }
      if s.value.Some? {
        res := res[s.value.value := res[s.value.value] + [data[i]]];
      }
      i := i + 1;
    }
    return Ok(res);
  }

  /** Each scope holds exactly its rows, in file order. */
  lemma {:induction false} ScopesAreMembers(data: seq<seq<string>>, num: string -> Option<real>, k: nat, b: nat)
    requires k <= |data| && b < ScopeCount
    requires ScopesAfter(data, num, k).Ok?
    ensures ScopesAfter(data, num, k).value[b] == Members(data, num, b, k)
  {
    if k > 0 {
      ScopesAreMembers(data, num, k - 1, b);
    }
  }

  /** The number of data rows among the first `k` that fall in no scope. */
  function Unscoped(data: seq<seq<string>>, num: string -> Option<real>, k: nat): nat
    requires k <= |data|
  {
    if k == 0 then 0
    else Unscoped(data, num, k - 1) + (if RowScope(data[k - 1], num) == Ok(None) then 1 else 0)
  }

  /** Without an error, every data row is in exactly one scope or in none:
      the scopes and the rows left out add up to the rows read. */
  lemma {:induction false} ScopesPartition(data: seq<seq<string>>, num: string -> Option<real>, k: nat)
    requires k <= |data|
    requires ScopesAfter(data, num, k).Ok?
    ensures |Members(data, num, 0, k)| + |Members(data, num, 1, k)| + |Members(data, num, 2, k)|
            + |Members(data, num, 3, k)| + Unscoped(data, num, k) == k
  {
    if k > 0 {
      ScopesPartition(data, num, k - 1);
    }
  }

  // ---- the per-scope report ----

  /** The times of the first `k` items of a scope (column 4, through `float()`). */
  function TimesOf(scope: seq<seq<string>>, num: string -> Option<real>, k: nat): (r: Result<seq<real>, ScopeError>)
    requires k <= |scope|
    ensures r.Ok? ==> |r.value| == k
  {
    if k == 0 then Ok([])
    else
      var ts :- TimesOf(scope, num, k - 1);
      var item := scope[k - 1];
      if |item| < 5 then Err(TooFewColumns(item))
      else if num(item[4]).None? then Err(BadFloat(item[4]))
      else Ok(ts + [num(item[4]).value])
  }

  /** Reading succeeds exactly when every item has a column 4 that `float()`
      accepts, and then the i-th time is that column's value. */
  lemma {:induction false} TimesAreColumnFour(scope: seq<seq<string>>, num: string -> Option<real>, k: nat)
    requires k <= |scope|
    ensures var r := TimesOf(scope, num, k);
      && (r.Ok? <==> forall i :: 0 <= i < k ==> |scope[i]| >= 5 && num(scope[i][4]).Some?)
      && (r.Ok? ==> forall i :: 0 <= i < k ==> r.value[i] == num(scope[i][4]).value)
  {
    if k > 0 {
      TimesAreColumnFour(scope, num, k - 1);
    }
  }

  /** `max_val`: starts at 0 and is raised by every larger time. */
  function MaxTime(ts: seq<real>): real
  {
    if ts == [] then 0.0
    else
      var m := MaxTime(ts[..|ts| - 1]);
      if m < ts[|ts| - 1] then ts[|ts| - 1] else m
  }

  /** `min_val`: starts at the largest double and is lowered by every smaller time. */
  function MinTime(ts: seq<real>): real
  {
    if ts == [] then FloatMax
    else
      var m := MinTime(ts[..|ts| - 1]);
      if m > ts[|ts| - 1] then ts[|ts| - 1] else m
  }

  function Sum(ts: seq<real>): real
  {
    if ts == [] then 0.0 else Sum(ts[..|ts| - 1]) + ts[|ts| - 1]
  }

  /** What the script prints for one scope. */
  datatype Report = Report(max: real, min: real, avg: real)

  /** The report of a scope, or why computing it raises. */
  function ReportOf(scope: seq<seq<string>>, num: string -> Option<real>): (r: Result<Report, ScopeError>)
    ensures r.Ok? ==> scope != [] && r.value.min <= r.value.avg <= r.value.max
  {
    var ts :- TimesOf(scope, num, |scope|);
    if |ts| == 0 then Err(EmptyScope)
    else
      AverageBetween(ts);
      Ok(Report(MaxTime(ts), MinTime(ts), Sum(ts) / |ts| as real))
  }

  /** The maximum is at least 0 and every time, and it is 0 or one of them. */
  lemma {:induction false} MaxTimeIsMaximum(ts: seq<real>)
    ensures MaxTime(ts) >= 0.0
    ensures forall i :: 0 <= i < |ts| ==> ts[i] <= MaxTime(ts)
    ensures MaxTime(ts) == 0.0 || exists i :: 0 <= i < |ts| && ts[i] == MaxTime(ts)
  {
    if ts != [] {
      var init := ts[..|ts| - 1];
      MaxTimeIsMaximum(init);
      assert forall i :: 0 <= i < |init| ==> ts[i] == init[i];
      if MaxTime(ts) != 0.0 && MaxTime(ts) == MaxTime(init) {
        var i :| 0 <= i < |init| && init[i] == MaxTime(init);
        assert ts[i] == MaxTime(ts);
      }
    }
  }

  /** The minimum is at most the largest double and every time, and it is
      that bound or one of them. */
  lemma {:induction false} MinTimeIsMinimum(ts: seq<real>)
    ensures MinTime(ts) <= FloatMax
    ensures forall i :: 0 <= i < |ts| ==> MinTime(ts) <= ts[i]
    ensures MinTime(ts) == FloatMax || exists i :: 0 <= i < |ts| && ts[i] == MinTime(ts)
  {
    if ts != [] {
      var init := ts[..|ts| - 1];
      MinTimeIsMinimum(init);
      assert forall i :: 0 <= i < |init| ==> ts[i] == init[i];
      if MinTime(ts) != FloatMax && MinTime(ts) == MinTime(init) {
        var i :| 0 <= i < |init| && init[i] == MinTime(init);
        assert ts[i] == MinTime(ts);
      }
    }
  }

  lemma MulMonotone(n: real, a: real, b: real)
    requires n >= 0.0 && a <= b
    ensures n * a <= n * b
  {
  }

  /** One more time keeps a lower bound of `n` times below the sum. */
  lemma LowerStep(n: real, lo: real, lo': real, sum: real, x: real)
    requires n >= 0.0 && n * lo <= sum && lo' <= lo && lo' <= x
    ensures (n + 1.0) * lo' <= sum + x
  {
    MulMonotone(n, lo', lo);
  }

  /** One more time keeps an upper bound of `n` times above the sum. */
  lemma UpperStep(n: real, hi: real, hi': real, sum: real, x: real)
    requires n >= 0.0 && sum <= n * hi && hi <= hi' && x <= hi'
    ensures sum + x <= (n + 1.0) * hi'
  {
    MulMonotone(n, hi, hi');
  }

  lemma MinTimeLast(ts: seq<real>)
    requires ts != []
    ensures MinTime(ts) <= MinTime(ts[..|ts| - 1]) && MinTime(ts) <= ts[|ts| - 1]
  {
  }

  lemma MaxTimeLast(ts: seq<real>)
    requires ts != []
    ensures MaxTime(ts) >= MaxTime(ts[..|ts| - 1]) && MaxTime(ts) >= ts[|ts| - 1]
  {
  }

  /** The sum of the times is at least their count times the minimum. */
  lemma {:induction false} SumAtLeast(ts: seq<real>)
    ensures |ts| as real * MinTime(ts) <= Sum(ts)
  {
    if ts != [] {
      var init := ts[..|ts| - 1];
      SumAtLeast(init);
      MinTimeLast(ts);
      LowerStep(|init| as real, MinTime(init), MinTime(ts), Sum(init), ts[|ts| - 1]);
    }
  }

  /** The sum of the times is at most their count times the maximum. */
  lemma {:induction false} SumAtMost(ts: seq<real>)
    ensures Sum(ts) <= |ts| as real * MaxTime(ts)
  {
    if ts != [] {
      var init := ts[..|ts| - 1];
      SumAtMost(init);
      MaxTimeLast(ts);
      UpperStep(|init| as real, MaxTime(init), MaxTime(ts), Sum(init), ts[|ts| - 1]);
    }
  }

  lemma TimesNext(scope: seq<seq<string>>, num: string -> Option<real>, i: nat, ts: seq<real>)
    requires i < |scope| && TimesOf(scope, num, i) == Ok(ts)
    ensures TimesOf(scope, num, i + 1) ==
      if |scope[i]| < 5 then Err(TooFewColumns(scope[i]))
      else if num(scope[i][4]).None? then Err(BadFloat(scope[i][4]))
      else Ok(ts + [num(scope[i][4]).value])
  {
  }

  lemma {:induction false} TimesErrorSticky(scope: seq<seq<string>>, num: string -> Option<real>, k: nat, n: nat)
    requires k <= n <= |scope|
    requires TimesOf(scope, num, k).Err?
    ensures TimesOf(scope, num, n) == TimesOf(scope, num, k)
    decreases n
  {
    if n > k {
      TimesErrorSticky(scope, num, k, n - 1);
    }
  }

  /** The loop over one scope's items, accumulating total, maximum and minimum. */
  method ScopeReport(scope: seq<seq<string>>, num: string -> Option<real>) returns (r: Result<Report, ScopeError>)
    ensures r == ReportOf(scope, num)
  {
    var maxVal := 0.0;
    var minVal := FloatMax;
    var total := 0.0;
    ghost var ts: seq<real> := [];
    var i := 0;
    while i < |scope|
      invariant 0 <= i <= |scope|
      invariant TimesOf(scope, num, i) == Ok(ts)
      invariant maxVal == MaxTime(ts) && minVal == MinTime(ts) && total == Sum(ts)
    {
      TimesNext(scope, num, i, ts);
      var item := scope[i];
      if |item| < 5 {
        TimesErrorSticky(scope, num, i + 1, |scope|);
        return Err(TooFewColumns(item));
      }
      var t := num(item[4]);
      if t.None? {
        TimesErrorSticky(scope, num, i + 1, |scope|);
        return Err(BadFloat(item[4]));
      }
      var time := t.value;
      total := total + time;
      if maxVal < time {
        maxVal := time;
      }
      if minVal > time {
        minVal := time;
      }
      ts := ts + [time];
      assert ts[..|ts| - 1] == ts[..i];
      i := i + 1;
    }
    if |scope| == 0 {
      return Err(EmptyScope);
    }
    return Ok(Report(maxVal, minVal, total / |scope| as real));
  }

  /** Reading times fails only on a short row or a bad number. */
  lemma {:induction false} TimesErrorKind(scope: seq<seq<string>>, num: string -> Option<real>, k: nat)
    requires k <= |scope|
    requires TimesOf(scope, num, k).Err?
    ensures !TimesOf(scope, num, k).error.EmptyScope?
  {
    if TimesOf(scope, num, k - 1).Err? {
      TimesErrorKind(scope, num, k - 1);
    }
  }

  /** The average raises ZeroDivisionError exactly for an empty scope. */
  lemma EmptyScopeRaises(scope: seq<seq<string>>, num: string -> Option<real>)
    ensures ReportOf(scope, num) == Err(EmptyScope) <==> scope == []
  {
    if TimesOf(scope, num, |scope|).Err? {
      TimesErrorKind(scope, num, |scope|);
    }
  }

  /** The average of non-empty times (total over count) lies between their
      minimum and their maximum. */
  lemma AverageBetween(ts: seq<real>)
    requires ts != []
    ensures (Sum(ts) / |ts| as real) * |ts| as real == Sum(ts)
    ensures MinTime(ts) <= Sum(ts) / |ts| as real <= MaxTime(ts)
  {
    SumAtLeast(ts);
    SumAtMost(ts);
    Average(|ts| as real, MinTime(ts), Sum(ts), MaxTime(ts));
  }

  /** A scope's report: the maximum is at least 0 and every time and is 0 or
      one of them, the minimum is at most every time and is the largest
      double or one of them, and the average is the total over the count;
      every item's time lies between the minimum and the maximum. */
  lemma ReportBounds(scope: seq<seq<string>>, num: string -> Option<real>)
    requires ReportOf(scope, num).Ok?
    ensures var ts := TimesOf(scope, num, |scope|).value;
      var rep := ReportOf(scope, num).value;
      && |ts| == |scope| > 0
      && rep == Report(MaxTime(ts), MinTime(ts), Sum(ts) / |ts| as real)
      && rep.avg * |ts| as real == Sum(ts)
      && rep.min <= rep.avg <= rep.max
    ensures forall i :: 0 <= i < |scope| ==>
              |scope[i]| >= 5 && num(scope[i][4]).Some?
              && ReportOf(scope, num).value.min <= num(scope[i][4]).value <= ReportOf(scope, num).value.max
  {
    ReportShape(scope, num);
    ItemsWithin(scope, num);
  }

  /** The report is the times' maximum, minimum and mean. */
  lemma ReportShape(scope: seq<seq<string>>, num: string -> Option<real>)
    requires ReportOf(scope, num).Ok?
    ensures var ts := TimesOf(scope, num, |scope|).value;
      var rep := ReportOf(scope, num).value;
      && |ts| == |scope| > 0
      && rep == Report(MaxTime(ts), MinTime(ts), Sum(ts) / |ts| as real)
      && rep.avg * |ts| as real == Sum(ts)
      && rep.min <= rep.avg <= rep.max
  {
    AverageBetween(TimesOf(scope, num, |scope|).value);
  }

  /** Every item's time lies between the report's minimum and maximum. */
  lemma ItemsWithin(scope: seq<seq<string>>, num: string -> Option<real>)
    requires ReportOf(scope, num).Ok?
    ensures forall i :: 0 <= i < |scope| ==>
              |scope[i]| >= 5 && num(scope[i][4]).Some?
              && ReportOf(scope, num).value.min <= num(scope[i][4]).value <= ReportOf(scope, num).value.max
  {
    var ts := TimesOf(scope, num, |scope|).value;
    var rep := ReportOf(scope, num).value;
    TimesAreColumnFour(scope, num, |scope|);
    assert rep.max == MaxTime(ts) && rep.min == MinTime(ts);
    MaxTimeIsMaximum(ts);
    MinTimeIsMinimum(ts);
  }

  lemma Average(n: real, lo: real, total: real, hi: real)
    requires n > 0.0 && n * lo <= total <= n * hi
    ensures (total / n) * n == total
    ensures lo <= total / n <= hi
  {
    var avg := total / n;
    assert avg * n == total;
    if avg < lo {
      MulMonotone(n, avg, lo);
    }
    if avg > hi {
      MulMonotone(n, hi, avg);
    }
  }

  /** The report loop over the four scopes: each is reported in turn, and the
      first that raises ends the script. */
  function ReportsAfter(scopes: seq<seq<seq<string>>>, num: string -> Option<real>, k: nat): (r: (seq<Report>, Option<ScopeError>))
    requires k <= |scopes|
    ensures |r.0| <= k
  {
    if k == 0 then ([], None)
    else
      var (reports, err) := ReportsAfter(scopes, num, k - 1);
      if err.Some? then (reports, err)
      else match ReportOf(scopes[k - 1], num)
        case Ok(rep) => (reports + [rep], None)
        case Err(e) => (reports, Some(e))
  }

  method ReportScopes(scopes: seq<seq<seq<string>>>, num: string -> Option<real>) returns (reports: seq<Report>, err: Option<ScopeError>)
    ensures (reports, err) == ReportsAfter(scopes, num, |scopes|)
  {
    reports, err := [], None;
    var index := 0;
    while index < |scopes|
      invariant 0 <= index <= |scopes|
      invariant (reports, err) == ReportsAfter(scopes, num, index)
      invariant err.None?
    {
      var r := ScopeReport(scopes[index], num);
      if r.Err? {
        err := Some(r.error);
        ReportsStop(scopes, num, index + 1, |scopes|);
        return;
      }
      reports := reports + [r.value];
      index := index + 1;
    }
  }

  lemma {:induction false} ReportsStop(scopes: seq<seq<seq<string>>>, num: string -> Option<real>, k: nat, n: nat)
    requires k <= n <= |scopes|
    requires ReportsAfter(scopes, num, k).1.Some?
    ensures ReportsAfter(scopes, num, n) == ReportsAfter(scopes, num, k)
    decreases n
  {
    if n > k {
      ReportsStop(scopes, num, k, n - 1);
    }
  }

  /** A report is printed for every scope before the first one that raises,
      and for no scope after it; with no error, one per scope. */
  lemma {:induction false} ReportsUpToError(scopes: seq<seq<seq<string>>>, num: string -> Option<real>, k: nat)
    requires k <= |scopes|
    ensures var (reports, err) := ReportsAfter(scopes, num, k);
      && (forall i :: 0 <= i < |reports| ==> ReportOf(scopes[i], num) == Ok(reports[i]))
      && (err.None? ==> |reports| == k)
      && (err.Some? ==> |reports| < k && ReportOf(scopes[|reports|], num) == Err(err.value))
  {
    if k > 0 {
      ReportsUpToError(scopes, num, k - 1);
    }
  }

  /** The whole script: sort the rows into scopes, then report them. */
  method Summarize(rows: seq<seq<string>>, num: string -> Option<real>) returns (reports: seq<Report>, err: Option<ScopeError>)
    ensures var sorted := ScopesAfter(DataRows(rows), num, |DataRows(rows)|);
      && (sorted.Err? ==> reports == [] && err == Some(sorted.error))
      && (sorted.Ok? ==> (reports, err) == ReportsAfter(sorted.value, num, ScopeCount))
  {
    var scopes := SortIntoScopes(rows, num);
    if scopes.Err? {
      return [], Some(scopes.error);
    }
    reports, err := ReportScopes(scopes.value, num);
  }
}
