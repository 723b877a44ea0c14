/**
 * The allocation engine as a specification: one run of a strategy over the
 * initial block capacities and the process sizes, processing the processes
 * strictly in input order against the current (already reduced) capacities.
 */
module Engine {
  import opened Placement

  /**
   * What a strategy returns: per process the chosen block index (-1 when not
   * allocated) and the internal fragmentation, and per block its final
   * capacity.
   */
  datatype Outcome = Outcome(allocation: seq<int>, fragInternal: seq<nat>, blockStatus: seq<nat>)

  /** The outcome after one more process of `size` is considered. */
  function Place(s: Strategy, o: Outcome, size: nat): Outcome {
    var j := Select(s, o.blockStatus, size);
    if j == -1 then
      Outcome(o.allocation + [-1], o.fragInternal + [0], o.blockStatus)
    else
      var leftover := o.blockStatus[j] - size;
      Outcome(o.allocation + [j], o.fragInternal + [leftover], o.blockStatus[j := leftover])
  }

  /** One run of strategy `s`: the processes placed one after another. */
  function Run(s: Strategy, blocks: seq<nat>, procs: seq<nat>): (r: Outcome)
    ensures |r.allocation| == |r.fragInternal| == |procs|
    ensures |r.blockStatus| == |blocks|
    decreases |procs|
  {
    if procs == [] then Outcome([], [], blocks)
    else Place(s, Run(s, blocks, procs[..|procs| - 1]), procs[|procs| - 1])
  }

  /** Every allocation entry is -1 or the index of a block. */
  lemma {:induction false} AllocationInRange(s: Strategy, blocks: seq<nat>, procs: seq<nat>, i: nat)
    requires i < |procs|
    ensures -1 <= Run(s, blocks, procs).allocation[i] < |blocks|
    decreases |procs|
  {
    var n := |procs| - 1;
    if i < n {
      AllocationInRange(s, blocks, procs[..n], i);
    }
  }

  /** The block capacities seen by process `i`, before it is placed. */
  function CapsBefore(s: Strategy, blocks: seq<nat>, procs: seq<nat>, i: nat): (caps: seq<nat>)
    requires i <= |procs|
    ensures |caps| == |blocks|
  {
    Run(s, blocks, procs[..i]).blockStatus
  }

  /** Sum of the sizes of the processes that `allocation` assigns to block `b`. */
  function SumAssigned(procs: seq<nat>, allocation: seq<int>, b: int): nat
    requires |allocation| == |procs|
    decreases |procs|
  {
    if procs == [] then 0
    else
      var n := |procs| - 1;
      SumAssigned(procs[..n], allocation[..n], b) + (if allocation[n] == b then procs[n] else 0)
  }

  /** A run of a prefix of the processes is a prefix of the run. */
  lemma {:induction false} RunPrefix(s: Strategy, blocks: seq<nat>, procs: seq<nat>, i: nat)
    requires i <= |procs|
    ensures Run(s, blocks, procs[..i]).allocation == Run(s, blocks, procs).allocation[..i]
    ensures Run(s, blocks, procs[..i]).fragInternal == Run(s, blocks, procs).fragInternal[..i]
    decreases |procs|
  {
    if i < |procs| {
      var n := |procs| - 1;
      assert procs[..n][..i] == procs[..i];
      RunPrefix(s, blocks, procs[..n], i);
    } else {
      assert procs[..i] == procs;
    }
  }

  /** Running one more process is placing it after the run of the earlier ones. */
  lemma RunSnoc(s: Strategy, blocks: seq<nat>, procs: seq<nat>, i: nat)
    requires i < |procs|
    ensures Run(s, blocks, procs[..i + 1]) == Place(s, Run(s, blocks, procs[..i]), procs[i])
  {
    assert procs[..i + 1][..i] == procs[..i];
  }

  /**
   * Process `i` is left unallocated exactly when no block's current capacity
   * fits it; it then records a fragmentation of 0 and no capacity changes.
   */
  lemma RunUnallocated(s: Strategy, blocks: seq<nat>, procs: seq<nat>, i: nat)
    requires i < |procs|
    ensures var r := Run(s, blocks, procs);
            var caps := CapsBefore(s, blocks, procs, i);
            && (r.allocation[i] == -1 <==> NoFit(caps, procs[i]))
            && (r.allocation[i] == -1 ==> r.fragInternal[i] == 0 && CapsBefore(s, blocks, procs, i + 1) == caps)
  {
    RunSnoc(s, blocks, procs, i);
    RunPrefix(s, blocks, procs, i + 1);
    SelectObeysRule(s, CapsBefore(s, blocks, procs, i), procs[i]);
    var r1 := Run(s, blocks, procs[..i + 1]);
    assert r1.allocation[i] == Run(s, blocks, procs).allocation[i];
    assert r1.fragInternal[i] == Run(s, blocks, procs).fragInternal[i];
  }

  /**
   * When process `i` is placed, its block is the one the strategy's rule
   * names among the current capacities, its internal fragmentation is that
   * block's capacity minus the process size, the block shrinks to exactly
   * that leftover and no other block changes.
   */
  lemma RunPlaced(s: Strategy, blocks: seq<nat>, procs: seq<nat>, i: nat)
    requires i < |procs|
    ensures var r := Run(s, blocks, procs);
            var caps := CapsBefore(s, blocks, procs, i);
            var j := r.allocation[i];
            j != -1 ==>
              && Chosen(s, caps, procs[i], j)
              && r.fragInternal[i] == caps[j] - procs[i]
              && CapsBefore(s, blocks, procs, i + 1) == caps[j := caps[j] - procs[i]]
  {
    RunSnoc(s, blocks, procs, i);
    RunPrefix(s, blocks, procs, i + 1);
    SelectObeysRule(s, CapsBefore(s, blocks, procs, i), procs[i]);
    var r1 := Run(s, blocks, procs[..i + 1]);
    assert r1.allocation[i] == Run(s, blocks, procs).allocation[i];
    assert r1.fragInternal[i] == Run(s, blocks, procs).fragInternal[i];
  }

  /** The run starts from the initial capacities and ends with the final ones. */
  lemma CapsBeforeBounds(s: Strategy, blocks: seq<nat>, procs: seq<nat>)
    ensures CapsBefore(s, blocks, procs, 0) == blocks
    ensures CapsBefore(s, blocks, procs, |procs|) == Run(s, blocks, procs).blockStatus
  {
    assert procs[..|procs|] == procs;
  }

  /**
   * Conservation: every block's initial capacity is its final capacity plus
   * the sizes of the processes placed in it.
   */
  lemma {:induction false} Conservation(s: Strategy, blocks: seq<nat>, procs: seq<nat>, b: nat)
    requires b < |blocks|
    ensures var r := Run(s, blocks, procs);
            blocks[b] == r.blockStatus[b] + SumAssigned(procs, r.allocation, b)
    decreases |procs|
  {
    if procs != [] {
      var n := |procs| - 1;
      var prev := Run(s, blocks, procs[..n]);
      var r := Run(s, blocks, procs);
      Conservation(s, blocks, procs[..n], b);
      assert r == Place(s, prev, procs[n]);
      assert r.allocation[..n] == prev.allocation;
      var j := Select(s, prev.blockStatus, procs[n]);
      assert SumAssigned(procs, r.allocation, b)
          == SumAssigned(procs[..n], prev.allocation, b) + (if j == b then procs[n] else 0);
      if j == b {
        assert r.blockStatus[b] == prev.blockStatus[b] - procs[n];
      } else {
        assert r.blockStatus[b] == prev.blockStatus[b];
      }
    }
  }

  /** Final capacities never exceed the initial ones. */
  lemma FinalAtMostInitial(s: Strategy, blocks: seq<nat>, procs: seq<nat>, b: nat)
    requires b < |blocks|
    ensures Run(s, blocks, procs).blockStatus[b] <= blocks[b]
  {
    Conservation(s, blocks, procs, b);
  }

  /** A block's capacity never grows during a run. */
  lemma {:induction false} CapacityNonIncreasing(s: Strategy, blocks: seq<nat>, procs: seq<nat>, i: nat, k: nat, b: nat)
    requires i <= k <= |procs| && b < |blocks|
    ensures CapsBefore(s, blocks, procs, k)[b] <= CapsBefore(s, blocks, procs, i)[b]
    decreases k - i
  {
    if i < k {
      RunUnallocated(s, blocks, procs, i);
      RunPlaced(s, blocks, procs, i);
      CapacityNonIncreasing(s, blocks, procs, i + 1, k, b);
    }
  }
}
