// Project selection (do.py:172-183): the rows of the language's project table
// whose 0-based index lies in the inclusive range become entries of an
// insertion-ordered dictionary from project name to clone URL.
module ProjectList {
  import opened Basics
  import opened Text

  /** A Python dict from project name to clone URL: `names` is its key order. */
  datatype Projects = Projects(names: seq<string>, urls: map<string, string>)

  /** Index `i` selects a row that is too short for `row[0]` or `row[3]` (IndexError). */
  datatype SelectError = ShortRow(index: int)

  /** A dict's key order lists every key exactly once. */
  predicate Valid(p: Projects)
  {
    Distinct(p.names) && p.urls.Keys == set n | n in p.names
  }

  /** `d[name] = url`: a new key goes last, an existing key keeps its place. */
  function Put(p: Projects, name: string, url: string): Projects
  {
    Projects(if name in p.urls then p.names else p.names + [name], p.urls[name := url])
  }

  /** Assigning a key keeps the key order a listing of the keys, each once,
      and changes no other key's URL. */
  lemma PutKeepsValid(p: Projects, name: string, url: string)
    requires Valid(p)
    ensures Valid(Put(p, name, url))
    ensures Put(p, name, url).urls[name] == url
    ensures forall n :: n != name && n in p.urls ==> Put(p, name, url).urls[n] == p.urls[n]
  {
    if name !in p.urls {
      DistinctAppend(p.names, name);
    }
  }

  /** The project name: the last `/`-separated piece of column 0. */
  function ProjectName(row: seq<string>): (name: string)
    ensures |row| > 0 ==> '/' !in name
    ensures |row| > 0 && '/' !in row[0] ==> name == row[0]
  {
    if |row| == 0 then ""
    else
      SplitPiecesFree(row[0], '/');
      if '/' !in row[0] then SplitFree(row[0], '/'); LastPiece(row[0], '/')
      else LastPiece(row[0], '/')
  }

  /** With a `/` in column 0, the project name is what follows its last `/`:
      a `/`-free suffix right after a `/`. */
  lemma ProjectNameSegment(row: seq<string>)
    requires |row| > 0 && '/' in row[0]
    ensures var name := ProjectName(row);
      && |name| < |row[0]|
      && row[0][|row[0]| - |name| - 1] == '/'
      && row[0][|row[0]| - |name|..] == name
  {
    LastPieceSuffix(row[0], '/');
  }

  /** The clone URL: column 3, or column 2 when column 3 is empty. */
  function CloneUrl(row: seq<string>): (url: string)
    ensures |row| >= 4 && row[3] != "" ==> url == row[3]
    ensures |row| >= 4 && row[3] == "" ==> url == row[2]
  {
    if |row| < 4 then "" else if row[3] != "" then row[3] else row[2]
  }

  predicate Selected(i: int, fromLine: int, endLine: int)
  {
    fromLine <= i && i <= endLine
  }

  /** The dictionary after the first `k` rows have been read. */
  function Select(rows: seq<seq<string>>, fromLine: int, endLine: int, k: nat): Result<Projects, SelectError>
    requires k <= |rows|
  {
    if k == 0 then Ok(Projects([], map[]))
    else
      var p :- Select(rows, fromLine, endLine, k - 1);
      if !Selected(k - 1, fromLine, endLine) then Ok(p)
      else if |rows[k - 1]| < 4 then Err(ShortRow(k - 1))
      else Ok(Put(p, ProjectName(rows[k - 1]), CloneUrl(rows[k - 1])))
  }

  /** The loop of do.py:176-183, with `count` the 0-based row index. */
  method SelectProjects(rows: seq<seq<string>>, fromLine: int, endLine: int) returns (r: Result<Projects, SelectError>)
    ensures r == Select(rows, fromLine, endLine, |rows|)
  {
    SelectValid(rows, fromLine, endLine, |rows|);
    var projects := Projects([], map[]);
    var count := 0;
    while count < |rows|
      invariant 0 <= count <= |rows|
      invariant Select(rows, fromLine, endLine, count) == Ok(projects)
      invariant Valid(projects)
    {
      SelectValid(rows, fromLine, endLine, count + 1);
      var row := rows[count];
      if fromLine <= count && count <= endLine {
        if |row| < 4 {
          SelectErrorSticky(rows, fromLine, endLine, count + 1, |rows|);
          return Err(ShortRow(count));
        }
        PutKeepsValid(projects, ProjectName(row), CloneUrl(row));
        projects := Put(projects, ProjectName(row), CloneUrl(row));
      }
      count := count + 1;
    }
    return Ok(projects);
  }

  lemma {:induction false} SelectValid(rows: seq<seq<string>>, fromLine: int, endLine: int, k: nat)
    requires k <= |rows|
    ensures Select(rows, fromLine, endLine, k).Ok? ==> Valid(Select(rows, fromLine, endLine, k).value)
  {
    if k > 0 {
      SelectValid(rows, fromLine, endLine, k - 1);
      var p := Select(rows, fromLine, endLine, k - 1);
      if p.Ok? && Selected(k - 1, fromLine, endLine) && |rows[k - 1]| >= 4 {
        PutKeepsValid(p.value, ProjectName(rows[k - 1]), CloneUrl(rows[k - 1]));
      }
    }
  }

  /** The index of the first of the first `k` rows that is selected and
      carries `name`. */
  function FirstRow(rows: seq<seq<string>>, fromLine: int, endLine: int, name: string, k: nat): (r: Option<nat>)
    requires k <= |rows|
    ensures r.Some? ==> r.value < k && Selected(r.value, fromLine, endLine) && ProjectName(rows[r.value]) == name
    ensures r.Some? ==> forall j :: 0 <= j < r.value && Selected(j, fromLine, endLine) ==> ProjectName(rows[j]) != name
    ensures r.None? ==> forall j :: 0 <= j < k && Selected(j, fromLine, endLine) ==> ProjectName(rows[j]) != name
  {
    if k == 0 then None
    else
      var earlier := FirstRow(rows, fromLine, endLine, name, k - 1);
      if earlier.Some? then earlier
      else if Selected(k - 1, fromLine, endLine) && ProjectName(rows[k - 1]) == name then Some(k - 1)
      else None
  }

  /** The key order is the order in which the names first occur among the
      selected rows: a re-assigned name keeps its first place. */
  lemma {:induction false} SelectOrder(rows: seq<seq<string>>, fromLine: int, endLine: int, k: nat)
    requires k <= |rows|
    requires Select(rows, fromLine, endLine, k).Ok?
    ensures var names := Select(rows, fromLine, endLine, k).value.names;
      && (forall a :: 0 <= a < |names| ==> FirstRow(rows, fromLine, endLine, names[a], k).Some?)
      && (forall a, b :: 0 <= a < b < |names| ==>
            FirstRow(rows, fromLine, endLine, names[a], k).value < FirstRow(rows, fromLine, endLine, names[b], k).value)
  {
    if k > 0 {
      SelectOrder(rows, fromLine, endLine, k - 1);
      var prev := Select(rows, fromLine, endLine, k - 1).value;
      var names := Select(rows, fromLine, endLine, k).value.names;
      forall a | 0 <= a < |prev.names|
        ensures FirstRow(rows, fromLine, endLine, prev.names[a], k) == FirstRow(rows, fromLine, endLine, prev.names[a], k - 1)
      {
      }
      if names != prev.names {
        var n := ProjectName(rows[k - 1]);
        assert names == prev.names + [n];
        SelectValid(rows, fromLine, endLine, k - 1);
        SelectKeys(rows, fromLine, endLine, k - 1, n);
        assert FirstRow(rows, fromLine, endLine, n, k) == Some(k - 1);
      }
    }
  }

  /** Once a selected row is too short, the script stops: later rows change nothing. */
  lemma {:induction false} SelectErrorSticky(rows: seq<seq<string>>, fromLine: int, endLine: int, k: nat, n: nat)
    requires k <= n <= |rows|
    requires Select(rows, fromLine, endLine, k).Err?
    ensures Select(rows, fromLine, endLine, n) == Select(rows, fromLine, endLine, k)
    decreases n
  {
    if n > k {
      SelectErrorSticky(rows, fromLine, endLine, k, n - 1);
    }
  }

  /** Selection fails exactly when some selected row has fewer than four columns. */
  lemma {:induction false} SelectFailsOnShortRow(rows: seq<seq<string>>, fromLine: int, endLine: int, k: nat)
    requires k <= |rows|
    ensures Select(rows, fromLine, endLine, k).Err? <==>
              exists i :: 0 <= i < k && Selected(i, fromLine, endLine) && |rows[i]| < 4
  {
    if k > 0 {
      SelectFailsOnShortRow(rows, fromLine, endLine, k - 1);
    }
  }

  /** A failed selection reports the first selected row that is too short. */
  lemma {:induction false} SelectReportsFirstShortRow(rows: seq<seq<string>>, fromLine: int, endLine: int, k: nat)
    requires k <= |rows|
    requires Select(rows, fromLine, endLine, k).Err?
    ensures var i := Select(rows, fromLine, endLine, k).error.index;
      && 0 <= i < k && Selected(i, fromLine, endLine) && |rows[i]| < 4
      && forall j :: 0 <= j < i && Selected(j, fromLine, endLine) ==> |rows[j]| >= 4
  {
    if Select(rows, fromLine, endLine, k - 1).Err? {
      SelectReportsFirstShortRow(rows, fromLine, endLine, k - 1);
    } else {
      SelectFailsOnShortRow(rows, fromLine, endLine, k - 1);
    }
  }

  /** A name is a key exactly when some selected row carries it. */
  lemma {:induction false} SelectKeys(rows: seq<seq<string>>, fromLine: int, endLine: int, k: nat, name: string)
    requires k <= |rows|
    requires Select(rows, fromLine, endLine, k).Ok?
    ensures name in Select(rows, fromLine, endLine, k).value.urls <==>
              exists i :: 0 <= i < k && Selected(i, fromLine, endLine) && ProjectName(rows[i]) == name
  {
    if k > 0 {
      SelectKeys(rows, fromLine, endLine, k - 1, name);
      SelectValid(rows, fromLine, endLine, k - 1);
      if name in Select(rows, fromLine, endLine, k).value.urls {
        if name !in Select(rows, fromLine, endLine, k - 1).value.urls {
          assert Selected(k - 1, fromLine, endLine) && ProjectName(rows[k - 1]) == name;
        }
      }
    }
  }

  /** The URL kept for a name is that of the LAST selected row with that name. */
  lemma {:induction false} SelectLastWins(rows: seq<seq<string>>, fromLine: int, endLine: int, k: nat, i: nat)
    requires i < k <= |rows|
    requires Select(rows, fromLine, endLine, k).Ok?
    requires Selected(i, fromLine, endLine)
    requires forall j :: i < j < k && Selected(j, fromLine, endLine) ==> ProjectName(rows[j]) != ProjectName(rows[i])
    ensures ProjectName(rows[i]) in Select(rows, fromLine, endLine, k).value.urls
    ensures Select(rows, fromLine, endLine, k).value.urls[ProjectName(rows[i])] == CloneUrl(rows[i])
  {
    SelectValid(rows, fromLine, endLine, k - 1);
    if i < k - 1 {
      SelectLastWins(rows, fromLine, endLine, k - 1, i);
    }
  }
}
