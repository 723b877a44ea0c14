/**
 * Fragmentation statistics of one run: the total internal fragmentation
 * (the leftovers recorded per process) and the external fragmentation, which
 * counts the ORIGINAL capacity of every block that no process was placed in;
 * a block used even once contributes nothing, whatever is left in it.
 */
module Fragmentation {
  import opened Placement
  import opened Engine

  /** Sum of a list of sizes. */
  function Sum(xs: seq<nat>): nat
    decreases |xs|
  {
    if xs == [] then 0 else Sum(xs[..|xs| - 1]) + xs[|xs| - 1]
  }

  /** Original capacities of the blocks whose index never occurs in `allocation`, added up. */
  function ExternalFragmentation(blocks: seq<nat>, allocation: seq<int>): nat
    decreases |blocks|
  {
    if blocks == [] then 0
    else
      var n := |blocks| - 1;
      ExternalFragmentation(blocks[..n], allocation) + (if n in allocation then 0 else blocks[n])
  }

  /**
   * The statistics the simulator reports for a run: the sum of the internal
   * fragmentation list, and the external fragmentation accumulated over the
   * blocks, skipping those in the set of allocated block indices.
   */
  method FragmentationStats(blocks: seq<nat>, allocation: seq<int>, fragInternal: seq<nat>)
    returns (totalInternal: nat, external: nat)
    ensures totalInternal == Sum(fragInternal)
    ensures external == ExternalFragmentation(blocks, allocation)
  {
    totalInternal := Sum(fragInternal);
    external := 0;
    var allocatedBlocks := set a | a in allocation && a != -1;
    for i := 0 to |blocks|
      invariant external == ExternalFragmentation(blocks[..i], allocation)
    {
      assert blocks[..i + 1][..i] == blocks[..i];
      if i !in allocatedBlocks {
        external := external + blocks[i];
      }
    }
    assert blocks[..|blocks|] == blocks;
  }

  /**
   * The external total depends only on the blocks never allocated: two block
   * lists that agree on those give the same total.
   */
  lemma {:induction false} ExternalOnlyUnused(blocks: seq<nat>, other: seq<nat>, allocation: seq<int>)
    requires |other| == |blocks|
    requires forall i :: 0 <= i < |blocks| && i !in allocation ==> other[i] == blocks[i]
    ensures ExternalFragmentation(other, allocation) == ExternalFragmentation(blocks, allocation)
    decreases |blocks|
  {
    if blocks != [] {
      var n := |blocks| - 1;
      ExternalOnlyUnused(blocks[..n], other[..n], allocation);
    }
  }

  /**
   * What one block contributes: changing the capacity of a block that was
   * allocated to leaves the total as it is, while a block never allocated
   * to counts with its full capacity.
   */
  lemma {:induction false} ExternalContribution(blocks: seq<nat>, allocation: seq<int>, b: nat, c: nat)
    requires b < |blocks|
    ensures b in allocation ==>
              ExternalFragmentation(blocks[b := c], allocation) == ExternalFragmentation(blocks, allocation)
    ensures b !in allocation ==>
              ExternalFragmentation(blocks[b := c], allocation) + blocks[b] == ExternalFragmentation(blocks, allocation) + c
    decreases |blocks|
  {
    var n := |blocks| - 1;
    if b < n {
      ExternalContribution(blocks[..n], allocation, b, c);
      assert blocks[b := c][..n] == blocks[..n][b := c];
    } else {
      assert blocks[b := c][..n] == blocks[..n];
    }
  }

  /** The external total never exceeds the total original capacity. */
  lemma {:induction false} ExternalAtMostTotal(blocks: seq<nat>, allocation: seq<int>)
    ensures ExternalFragmentation(blocks, allocation) <= Sum(blocks)
    decreases |blocks|
  {
    if blocks != [] {
      ExternalAtMostTotal(blocks[..|blocks| - 1], allocation);
    }
  }

  /** When no block was allocated to, the external total is all the memory. */
  lemma {:induction false} ExternalWhenNothingAllocated(blocks: seq<nat>, allocation: seq<int>)
    requires forall i :: 0 <= i < |blocks| ==> i !in allocation
    ensures ExternalFragmentation(blocks, allocation) == Sum(blocks)
    decreases |blocks|
  {
    if blocks != [] {
      ExternalWhenNothingAllocated(blocks[..|blocks| - 1], allocation);
    }
  }

  /** A block never allocated to has had no process size charged against it. */
  lemma {:induction false} SumAssignedUnused(procs: seq<nat>, allocation: seq<int>, b: int)
    requires |allocation| == |procs|
    requires b !in allocation
    ensures SumAssigned(procs, allocation, b) == 0
    decreases |procs|
  {
    if procs != [] {
      var n := |procs| - 1;
      assert allocation[n] in allocation;
      assert forall x :: x in allocation[..n] ==> x in allocation;
      SumAssignedUnused(procs[..n], allocation[..n], b);
    }
  }

  /**
   * After a run, blocks never allocated to still have their original
   * capacity, so measuring them at their final capacity gives the same
   * external total.
   */
  lemma RunExternalAtFinalCapacity(s: Strategy, blocks: seq<nat>, procs: seq<nat>)
    ensures var r := Run(s, blocks, procs);
            ExternalFragmentation(r.blockStatus, r.allocation) == ExternalFragmentation(blocks, r.allocation)
  {
    var r := Run(s, blocks, procs);
    forall i | 0 <= i < |blocks| && i !in r.allocation
      ensures r.blockStatus[i] == blocks[i]
    {
      Conservation(s, blocks, procs, i);
      SumAssignedUnused(procs, r.allocation, i);
    }
    ExternalOnlyUnused(blocks, r.blockStatus, r.allocation);
  }
}
