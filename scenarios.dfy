/**
 * Worked runs of the simulator, computed from the run specification: the
 * tie-break and reuse behaviours on small inputs.
 */
module Scenarios {
  import opened Placement
  import opened Engine
  import opened Fragmentation

  /** First fit takes the first block that is large enough. */
  lemma FirstFitTakesFirstLargeEnough()
    ensures Run(FirstFit, [100, 50], [60]) == Outcome([0], [40], [40, 50])
  {
  }

  /** Best fit takes the block with the smallest leftover. */
  lemma BestFitTakesSmallestLeftover()
    ensures Run(BestFit, [100, 50, 80], [60]) == Outcome([2], [20], [100, 50, 20])
  {
  }

  /** Worst fit takes the block with the largest leftover. */
  lemma WorstFitTakesLargestLeftover()
    ensures Run(WorstFit, [100, 50, 80], [60]) == Outcome([0], [40], [40, 50, 80])
  {
    assert [100, 50, 80][..2] == [100, 50];
    assert [100, 50][..1] == [100];
  }

  /**
   * A process larger than every block is left unallocated with no
   * fragmentation, and the untouched block counts as external fragmentation.
   */
  lemma TooLargeIsUnallocated(s: Strategy)
    ensures Run(s, [50], [100]) == Outcome([-1], [0], [50])
    ensures ExternalFragmentation([50], [-1]) == 50
  {
  }

  /**
   * A shrunk block is reused: both processes go to block 0, the internal
   * fragmentation adds up to 50 and there is no external fragmentation.
   */
  lemma ShrunkBlockIsReused()
    ensures Run(FirstFit, [100], [60, 30]) == Outcome([0, 0], [40, 10], [10])
    ensures Sum([40, 10]) == 50 && ExternalFragmentation([100], [0, 0]) == 0
  {
  }

  /** Only the untouched block counts as external fragmentation, at its original size. */
  lemma UntouchedBlockIsExternal()
    ensures Run(FirstFit, [100, 30], [10]) == Outcome([0], [90], [90, 30])
    ensures ExternalFragmentation([100, 30], [0]) == 30
  {
  }
}
