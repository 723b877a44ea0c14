/**
 * Placement rules of the memory allocation simulator.
 *
 * A placement strategy looks at the current capacities of the blocks (in KB,
 * indexed by their position in the input) and picks one whose capacity is at
 * least the size of the process being placed. This module states the three
 * rules (first fit, best fit, worst fit) as predicates, and gives one
 * reference selection function, proved to obey them, that the run
 * specification in module Engine uses.
 */
module Placement {

  datatype Strategy = FirstFit | BestFit | WorstFit

  /** A block of capacity `cap` can host a process of `size`. */
  predicate Fits(cap: nat, size: nat) {
    cap >= size
  }

  /** No block can host the process: it stays unallocated. */
  predicate NoFit(caps: seq<nat>, size: nat) {
    forall k :: 0 <= k < |caps| ==> !Fits(caps[k], size)
  }

  /** Block `j` fits and every block before it is too small. */
  predicate IsFirstFit(caps: seq<nat>, size: nat, j: int) {
    && 0 <= j < |caps|
    && Fits(caps[j], size)
    && forall k :: 0 <= k < j ==> !Fits(caps[k], size)
  }

  /**
   * Block `j` fits, leaves the smallest leftover among the fitting blocks, and
   * every earlier fitting block leaves a strictly larger one (ties go to the
   * lowest index).
   */
  predicate IsBestFit(caps: seq<nat>, size: nat, j: int) {
    && 0 <= j < |caps|
    && Fits(caps[j], size)
    && (forall k :: 0 <= k < |caps| && Fits(caps[k], size) ==> caps[j] - size <= caps[k] - size)
    && (forall k :: 0 <= k < j && Fits(caps[k], size) ==> caps[k] - size > caps[j] - size)
  }

  /**
   * Block `j` fits, leaves the largest leftover among the fitting blocks, and
   * every earlier fitting block leaves a strictly smaller one (ties go to the
   * lowest index).
   */
  predicate IsWorstFit(caps: seq<nat>, size: nat, j: int) {
    && 0 <= j < |caps|
    && Fits(caps[j], size)
    && (forall k :: 0 <= k < |caps| && Fits(caps[k], size) ==> caps[j] - size >= caps[k] - size)
    && (forall k :: 0 <= k < j && Fits(caps[k], size) ==> caps[k] - size < caps[j] - size)
  }

  /** Block `j` is the one strategy `s` places a process of `size` in. */
  predicate Chosen(s: Strategy, caps: seq<nat>, size: nat, j: int) {
    match s
    case FirstFit => IsFirstFit(caps, size, j)
    case BestFit => IsBestFit(caps, size, j)
    case WorstFit => IsWorstFit(caps, size, j)
  }

  /**
   * Whether a fitting block leaving `leftover` displaces the incumbent
   * candidate leaving `incumbent` during a scan in index order. First fit
   * never displaces the first fitting block it meets; best and worst fit only
   * on a strict improvement.
   */
  predicate Displaces(s: Strategy, leftover: nat, incumbent: nat) {
    match s
    case FirstFit => false
    case BestFit => leftover < incumbent
    case WorstFit => leftover > incumbent
  }

  /**
   * The block strategy `s` chooses for a process of `size`, or -1 when none
   * fits: a scan of `caps` in index order keeping the incumbent candidate.
   * SelectObeysRule proves that the choice is the one the strategy's rule
   * names.
   */
  function Select(s: Strategy, caps: seq<nat>, size: nat): (j: int)
    ensures -1 <= j < |caps|
    ensures j != -1 ==> Fits(caps[j], size)
    decreases |caps|
  {
    if caps == [] then -1
    else
      var last := |caps| - 1;
      var before := Select(s, caps[..last], size);
      if Fits(caps[last], size) && (before == -1 || Displaces(s, caps[last] - size, caps[before] - size))
      then last
      else before
  }

  /**
   * The reference selection leaves a process unallocated exactly when no
   * block fits, and otherwise picks the block the strategy's rule names.
   */
  lemma {:induction false} SelectObeysRule(s: Strategy, caps: seq<nat>, size: nat)
    ensures var j := Select(s, caps, size);
            && (j == -1 <==> NoFit(caps, size))
            && (j != -1 ==> Chosen(s, caps, size, j))
    decreases |caps|
  {
    if caps != [] {
      SelectObeysRule(s, caps[..|caps| - 1], size);
    }
  }

  /** Each rule determines the chosen block uniquely. */
  lemma ChosenUnique(s: Strategy, caps: seq<nat>, size: nat, j1: int, j2: int)
    requires Chosen(s, caps, size, j1) && Chosen(s, caps, size, j2)
    ensures j1 == j2
  {
  }

  /**
   * So the selection is characterised by the rule: a block is the one
   * selected exactly when the rule names it.
   */
  lemma SelectIsChosen(s: Strategy, caps: seq<nat>, size: nat, j: int)
    ensures Select(s, caps, size) == j <==> (Chosen(s, caps, size, j) || (j == -1 && NoFit(caps, size)))
  {
    SelectObeysRule(s, caps, size);
    var sel := Select(s, caps, size);
    if Chosen(s, caps, size, j) && sel != -1 {
      ChosenUnique(s, caps, size, j, sel);
    }
  }
}
