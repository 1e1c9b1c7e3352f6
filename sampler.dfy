// The peak-memory sampler (do.py:47-101).  psutil is not modelled: each poll
// of the process tree is given as a Sample, and the thread's loop over the
// polls becomes a method of a MemoryProfile object holding the shared `peak`.
module Sampler {

  /** One poll: resident bytes of the process and of each descendant, or the
      loss of the process itself (before `psection` is cleared), or the loss of
      a descendant (after it). */
  datatype Sample =
    | Reading(own: nat, children: seq<nat>)
    | LostMain
    | LostChild

  /** The peak above which the process tree is killed: 20 * 1024 MB. */
  const Ceiling: real := 20480.0

  /** The peak a profile starts from. */
  const NoPeak: real := -1.0

  function SumBytes(xs: seq<nat>): nat
  {
    if xs == [] then 0 else SumBytes(xs[..|xs| - 1]) + xs[|xs| - 1]
  }

  /** The reading in MB: own plus descendants' resident bytes, divided by 1024**2. */
  function Megabytes(s: Sample): real
    requires s.Reading?
  {
    (s.own + SumBytes(s.children)) as real / 1048576.0
  }

  /** The sampler between polls: its peak, whether it still polls, and whether it
      killed the process tree for exceeding the ceiling. */
  datatype State = State(peak: real, running: bool, killed: bool)

  /** One pass of the `while True` body. */
  function Step(st: State, s: Sample): State
  {
    match s
    case LostMain => State(st.peak, false, false)
    case LostChild => st
    case Reading(_, _) =>
      var curr := Megabytes(s);
      var peak := if curr > st.peak then curr else st.peak;
      if peak > Ceiling then State(0.0, false, true) else State(peak, true, false)
  }

  /** The state after the polls, stopping at the first one that ends the loop. */
  function Run(st: State, samples: seq<Sample>): State
    decreases |samples|
  {
    if !st.running || samples == [] then st else Run(Step(st, samples[0]), samples[1..])
  }

  function Start(peak: real): State
  {
    State(peak, true, false)
  }

  /** The polls up to (not including) the first loss of the main process. */
  function Observed(samples: seq<Sample>): (n: nat)
    ensures n <= |samples|
    ensures forall i :: 0 <= i < n ==> !samples[i].LostMain?
    ensures n < |samples| ==> samples[n].LostMain?
  {
    if samples == [] || samples[0].LostMain? then 0 else 1 + Observed(samples[1..])
  }

  predicate Exceeds(samples: seq<Sample>, i: int)
    requires 0 <= i < |samples|
  {
    samples[i].Reading? && Megabytes(samples[i]) > Ceiling
  }

  /** The shared `value` dict of memory_profiling: the caller reads `peak`. */
  class MemoryProfile {
    var peak: real

    constructor ()
      ensures peak == NoPeak
    {
      peak := NoPeak;
    }

    /** The sampling thread's loop, over the polls it gets to make. */
    method Task(samples: seq<Sample>) returns (killed: bool)
      modifies this
      ensures peak == Run(Start(old(peak)), samples).peak
      ensures killed == Run(Start(old(peak)), samples).killed
    {
      var i := 0;
      killed := false;
      while i < |samples|
        invariant 0 <= i <= |samples|
        invariant !killed
        invariant Run(Start(old(peak)), samples) == Run(Start(peak), samples[i..])
      {
        var prev := peak;
        match samples[i] {
          case LostMain =>
            assert Run(Start(peak), samples[i..]) == State(peak, false, false);
            return;
          case LostChild =>
            assert samples[i..][1..] == samples[i + 1..];
          case Reading(_, _) =>
            var curr := Megabytes(samples[i]);
            peak := if curr > prev then curr else prev;
            if peak > Ceiling {
              peak := 0.0;
              assert Run(Start(prev), samples[i..]) == State(0.0, false, true);
              return true;
            }
            assert samples[i..][1..] == samples[i + 1..];
        }
        i := i + 1;
      }
    }
  }

  /** Without a kill the peak never falls below where it started. */
  lemma {:induction false} PeakNeverDrops(st: State, samples: seq<Sample>)
    requires st.running
    ensures !Run(st, samples).killed ==> Run(st, samples).peak >= st.peak
    decreases |samples|
  {
    if samples != [] {
      var next := Step(st, samples[0]);
      if next.running {
        PeakNeverDrops(next, samples[1..]);
      }
    }
  }

  /** Without a kill, the peak is the largest reading taken before the process
      was lost, or the starting value when none was larger. */
  lemma {:induction false} PeakIsMaximum(p: real, samples: seq<Sample>)
    requires p <= Ceiling
    ensures var r := Run(Start(p), samples);
      !r.killed ==>
        && (forall i :: 0 <= i < Observed(samples) && samples[i].Reading? ==> Megabytes(samples[i]) <= r.peak)
        && (r.peak == p || exists i :: 0 <= i < Observed(samples) && samples[i].Reading? && r.peak == Megabytes(samples[i]))
    decreases |samples|
  {
    if samples != [] && !samples[0].LostMain? {
      var next := Step(Start(p), samples[0]);
      if next.running {
        assert next == Start(next.peak);
        PeakIsMaximum(next.peak, samples[1..]);
        var r := Run(Start(p), samples);
        if !r.killed {
          forall i | 0 <= i < Observed(samples) && samples[i].Reading?
            ensures Megabytes(samples[i]) <= r.peak
          {
            if i > 0 {
              assert samples[1..][i - 1] == samples[i];
            } else {
              PeakNeverDrops(next, samples[1..]);
            }
          }
          if r.peak != p && r.peak != next.peak {
            var j :| 0 <= j < Observed(samples[1..]) && samples[1..][j].Reading? && r.peak == Megabytes(samples[1..][j]);
            assert samples[j + 1] == samples[1..][j];
          }
        }
      }
    }
  }

  /** The tree is killed exactly when a reading before the loss of the process
      exceeds the ceiling, and a kill leaves the peak at 0, not at -1. */
  lemma {:induction false} KilledIffExceeds(p: real, samples: seq<Sample>)
    requires p <= Ceiling
    ensures Run(Start(p), samples).killed <==> exists i :: 0 <= i < Observed(samples) && Exceeds(samples, i)
    ensures Run(Start(p), samples).killed ==> Run(Start(p), samples).peak == 0.0
    decreases |samples|
  {
    if samples != [] && !samples[0].LostMain? {
      var next := Step(Start(p), samples[0]);
      var tail := samples[1..];
      assert Run(Start(p), samples) == Run(next, tail);
      assert Observed(samples) == 1 + Observed(tail);
      if next.running {
        assert !Exceeds(samples, 0);
        assert next == Start(next.peak);
        KilledIffExceeds(next.peak, tail);
        assert (exists i :: 0 <= i < Observed(samples) && Exceeds(samples, i)) <==>
               (exists i :: 0 <= i < Observed(tail) && Exceeds(tail, i)) by {
          if exists i :: 0 <= i < Observed(tail) && Exceeds(tail, i) {
            var i :| 0 <= i < Observed(tail) && Exceeds(tail, i);
            assert tail[i] == samples[i + 1];
            assert Exceeds(samples, i + 1);
          }
          if exists i :: 0 <= i < Observed(samples) && Exceeds(samples, i) {
            var i :| 0 <= i < Observed(samples) && Exceeds(samples, i);
            assert i != 0;
            assert tail[i - 1] == samples[i];
            assert Exceeds(tail, i - 1);
          }
        }
      } else {
        assert Exceeds(samples, 0);
      }
    }
  }

  /** Losing the process first leaves the -1 of "no measurement". */
  lemma LostAtOnce(rest: seq<Sample>)
    ensures Run(Start(NoPeak), [LostMain] + rest) == State(NoPeak, false, false)
  {
  }

  /** A lost descendant is skipped: sampling goes on as if it had not happened. */
  lemma LostChildSkipped(st: State, rest: seq<Sample>)
    requires st.running
    ensures Run(st, [LostChild] + rest) == Run(st, rest)
  {
    assert ([LostChild] + rest)[1..] == rest;
  }
}
