// Cloning (or reusing) a project's repository (do.py:189-223).  `git clone`
// itself is not modelled: attempt k (0-based) is described by whether the
// repository path exists after it, given as `results[k]` (an attempt beyond
// the given outcomes fails).
module Clone {

  /** After the 4th failed attempt the project is abandoned. */
  const MaxFailures: nat := 4

  datatype CloneOutcome =
    | Reused              // the repository path existed already: no clone at all
    | Cloned(attempts: nat)
    | Abandoned           // no row is written for this project

  function AttemptSucceeds(results: seq<bool>, k: nat): bool
  {
    k < |results| && results[k]
  }

  predicate Ready(outcome: CloneOutcome)
  {
    outcome.Reused? || outcome.Cloned?
  }

  /** The outcome the clone loop reaches. */
  function Attempt(repoExists: bool, results: seq<bool>): CloneOutcome
  {
    if repoExists then Reused
    else if AttemptSucceeds(results, 0) then Cloned(1)
    else if AttemptSucceeds(results, 1) then Cloned(2)
    else if AttemptSucceeds(results, 2) then Cloned(3)
    else if AttemptSucceeds(results, 3) then Cloned(4)
    else Abandoned
  }

  /** The clone loop; `cooldowns` counts the two-minute sleeps between attempts. */
  method CloneRepository(repoExists: bool, results: seq<bool>) returns (outcome: CloneOutcome, cooldowns: nat)
    ensures outcome == Attempt(repoExists, results)
    ensures repoExists <==> outcome == Reused
    ensures outcome == Reused ==> cooldowns == 0
    ensures outcome.Cloned? ==>
              && 1 <= outcome.attempts <= MaxFailures
              && AttemptSucceeds(results, outcome.attempts - 1)
              && (forall k :: 0 <= k < outcome.attempts - 1 ==> !AttemptSucceeds(results, k))
              && cooldowns == outcome.attempts - 1
    ensures outcome == Abandoned <==> !repoExists && forall k :: 0 <= k < MaxFailures ==> !AttemptSucceeds(results, k)
    ensures outcome == Abandoned ==> cooldowns == MaxFailures - 1
  {
    cooldowns := 0;
    if repoExists {
      return Reused, 0;
    }
    var failCount := 0;
    var jump := false;
    var present := false;
    while !present
      invariant 0 <= failCount < MaxFailures || (jump && failCount == MaxFailures)
      invariant jump ==> !present
      invariant forall k :: 0 <= k < failCount ==> !AttemptSucceeds(results, k)
      invariant present ==> AttemptSucceeds(results, failCount)
      invariant cooldowns == if jump then failCount - 1 else failCount
      decreases MaxFailures - failCount, if present || jump then 0 else 1
    {
      present := AttemptSucceeds(results, failCount);
      if !present {
        failCount := failCount + 1;
        if failCount < MaxFailures {
          cooldowns := cooldowns + 1;
          continue;
        } else {
          jump := true;
          break;
        }
      }
    }
    if jump {
      return Abandoned, cooldowns;
    }
    return Cloned(failCount + 1), cooldowns;
  }
}
