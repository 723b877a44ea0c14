/**
 * The three placement strategies as the simulator runs them. A run fills
 * per-process lists preallocated with "not allocated" (-1) and a
 * fragmentation of 0, overwriting entry `i` when process `i` is placed, and
 * shrinks the chosen block in a working copy of the block list. A run is
 * proved to return exactly the outcome of the run specification in module
 * Engine.
 *
 * The scan over the blocks for one process is its own method here (one per
 * rule); it reads the current capacities and returns the chosen index or -1,
 * and the run then records the choice and shrinks the block.
 */
module Strategies {
  import opened Placement
  import opened Engine

  /** The first-fit scan: the lowest index whose capacity fits, stopping there. */
  method FirstFitScan(status: seq<nat>, psize: nat) returns (idx: int)
    ensures idx == -1 ==> NoFit(status, psize)
    ensures idx != -1 ==> IsFirstFit(status, psize, idx)
  {
    for j := 0 to |status|
      invariant forall k :: 0 <= k < j ==> !Fits(status[k], psize)
    {
      if status[j] >= psize {
        return j;
      }
    }
    return -1;
  }

  /**
   * The best-fit scan: keeps the fitting block with the smallest leftover
   * seen so far, replacing it only on a strictly smaller leftover. No
   * candidate yet (`bestIdx == -1`) stands for an infinite `minDiff`.
   */
  method BestFitScan(status: seq<nat>, psize: nat) returns (bestIdx: int)
    ensures bestIdx == -1 ==> NoFit(status, psize)
    ensures bestIdx != -1 ==> IsBestFit(status, psize, bestIdx)
  {
    bestIdx := -1;
    var minDiff: nat := 0;
    for j := 0 to |status|
      invariant bestIdx == -1 ==> NoFit(status[..j], psize)
      invariant bestIdx != -1 ==> IsBestFit(status[..j], psize, bestIdx) && minDiff == status[bestIdx] - psize
    {
      if status[j] >= psize && (bestIdx == -1 || status[j] - psize < minDiff) {
        minDiff := status[j] - psize;
        bestIdx := j;
      }
    }
    assert status[..|status|] == status;
  }

  /**
   * The worst-fit scan: keeps the fitting block with the largest leftover
   * seen so far, replacing it only on a strictly larger leftover; `maxDiff`
   * starts at -1, below every leftover.
   */
  method WorstFitScan(status: seq<nat>, psize: nat) returns (worstIdx: int)
    ensures worstIdx == -1 ==> NoFit(status, psize)
    ensures worstIdx != -1 ==> IsWorstFit(status, psize, worstIdx)
  {
    worstIdx := -1;
    var maxDiff: int := -1;
    for j := 0 to |status|
      invariant worstIdx == -1 ==> NoFit(status[..j], psize) && maxDiff == -1
      invariant worstIdx != -1 ==> IsWorstFit(status[..j], psize, worstIdx) && maxDiff == status[worstIdx] - psize
    {
      if status[j] >= psize && status[j] - psize > maxDiff {
        maxDiff := status[j] - psize;
        worstIdx := j;
      }
    }
    assert status[..|status|] == status;
  }

  /** The scan strategy `s` performs; its result is the reference selection. */
  method Scan(s: Strategy, status: seq<nat>, psize: nat) returns (idx: int)
    ensures idx == Select(s, status, psize)
  {
    match s {
      case FirstFit => idx := FirstFitScan(status, psize);
      case BestFit => idx := BestFitScan(status, psize);
      case WorstFit => idx := WorstFitScan(status, psize);
    }
    SelectIsChosen(s, status, psize, idx);
  }

  /**
   * The state of a run after `i` processes: the first `i` entries agree with
   * the run specification, the rest still hold their preset values.
   */
  ghost predicate Tracks(s: Strategy, blocks: seq<nat>, procs: seq<nat>, i: nat,
                         allocation: seq<int>, fragInternal: seq<nat>, blockStatus: seq<nat>)
    requires i <= |procs|
  {
    && |allocation| == |fragInternal| == |procs|
    && Run(s, blocks, procs[..i]) == Outcome(allocation[..i], fragInternal[..i], blockStatus)
    && (forall k :: i <= k < |procs| ==> allocation[k] == -1 && fragInternal[k] == 0)
  }

  /** Placing process `i` as the run specification does keeps the run state in step. */
  lemma TracksStep(s: Strategy, blocks: seq<nat>, procs: seq<nat>, i: nat,
                   allocation: seq<int>, fragInternal: seq<nat>, blockStatus: seq<nat>)
    requires i < |procs|
    requires Tracks(s, blocks, procs, i, allocation, fragInternal, blockStatus)
    ensures var idx := Select(s, blockStatus, procs[i]);
            if idx == -1 then Tracks(s, blocks, procs, i + 1, allocation, fragInternal, blockStatus)
            else Tracks(s, blocks, procs, i + 1, allocation[i := idx],
                        fragInternal[i := blockStatus[idx] - procs[i]],
                        blockStatus[idx := blockStatus[idx] - procs[i]])
  {
    RunSnoc(s, blocks, procs, i);
    var idx := Select(s, blockStatus, procs[i]);
    if idx == -1 {
      SetPrefix(allocation, i, -1);
      SetPrefix(fragInternal, i, 0);
    } else {
      SetPrefix(allocation, i, idx);
      SetPrefix(fragInternal, i, blockStatus[idx] - procs[i]);
    }
  }

  /** Writing entry `i` of a list extends its first `i` entries by that value. */
  lemma SetPrefix<T>(a: seq<T>, i: nat, x: T)
    requires i < |a|
    ensures a[i := x][..i + 1] == a[..i] + [x]
    ensures a[i] == x ==> a[..i + 1] == a[..i] + [x]
  {
    assert a[i := x][..i + 1] == a[..i] + [x];
    if a[i] == x {
      assert a[i := x] == a;
    }
  }

  /**
   * One run of strategy `s`: every process, in input order, is placed by the
   * strategy's scan over the current capacities of the working copy of
   * `blocks`; -1 and a fragmentation of 0 mark a process left unallocated.
   */
  method Allocate(s: Strategy, blocks: seq<nat>, procs: seq<nat>)
    returns (allocation: seq<int>, fragInternal: seq<nat>, blockStatus: seq<nat>)
    ensures Outcome(allocation, fragInternal, blockStatus) == Run(s, blocks, procs)
  {
    allocation := seq(|procs|, _ => -1);
    blockStatus := blocks;
    fragInternal := seq(|procs|, _ => 0);
    for i := 0 to |procs|
      invariant Tracks(s, blocks, procs, i, allocation, fragInternal, blockStatus)
    {
      TracksStep(s, blocks, procs, i, allocation, fragInternal, blockStatus);
      var psize := procs[i];
      var idx := Scan(s, blockStatus, psize);
      if idx != -1 {
        allocation := allocation[i := idx];
        fragInternal := fragInternal[i := blockStatus[idx] - psize];
        blockStatus := blockStatus[idx := blockStatus[idx] - psize];
      }
    }
    assert procs[..|procs|] == procs;
    assert allocation[..|procs|] == allocation;
    assert fragInternal[..|procs|] == fragInternal;
  }
}
