# Memory allocation simulator: placement strategies and fragmentation

This project models the engine of a fixed-partition memory allocation
simulator. A run takes the capacities of a list of memory blocks and the sizes
of a list of processes (all in KB) and places the processes one after another,
in input order, under one of three policies:

- first fit: the lowest-indexed block whose current capacity is large enough;
- best fit: the block with the smallest leftover, lowest index on ties;
- worst fit: the block with the largest leftover, lowest index on ties.

Each placement records the block index (or -1, "not allocated") and the
internal fragmentation (the block's leftover), and shrinks the block in a
working copy of the block list. A block can take several processes while it
still has room. The fragmentation statistics then add up the internal
fragmentation and count, as external fragmentation, the original capacity of
every block that no process went to.

Modules:

- `Placement` (placement.dfy): the three selection rules as predicates
  (`IsFirstFit`, `IsBestFit`, `IsWorstFit`, `NoFit`), a reference selection
  function `Select`, and the proofs that it obeys the rules and that each rule
  fixes the choice uniquely.
- `Engine` (engine.dfy): the specification of a run (`Run`, built from
  `Place`), the capacities each process sees (`CapsBefore`), and the
  properties of a run: the per-process decision (unallocated or placed), conservation of capacity,
  monotone capacities.
- `Strategies` (strategies.dfy): the strategies as imperative code: one scan
  method per rule, with the running best/worst candidate of the source, and
  the run loop `Allocate`, proved equal to `Run`.
- `Fragmentation` (fragmentation.dfy): `FragmentationStats` and the
  properties of the external fragmentation measure.
- `Scenarios` (scenarios.dfy): small worked runs (tie-breaks, reuse of a
  shrunk block, the unallocated path, external fragmentation).

Sizes and capacities are `nat`. The source accepts any integer its parser
reads, including a negative one, and has no check on sizes; the model excludes
negative sizes by type (see "## Left out"). A negative size ought to be
refused with an error, but the code has no such check. Python integers are
unbounded, as Dafny's are, so no width is modelled.

## Model

| member | source | states |
|---|---|---|
| `Placement.Select` | main.py:39-79 | The reference selection returns -1 or a block index, and a chosen block's capacity is at least the process size. |
| `Placement.SelectObeysRule` | main.py:39-79 | The selection is -1 exactly when no block's current capacity fits the process; otherwise it is the block the strategy's rule names: first fit the lowest fitting index; best fit a minimal leftover with every earlier fitting block strictly worse; worst fit a maximal leftover with every earlier fitting block strictly smaller. |
| `Placement.ChosenUnique` | main.py:39-79 | Each rule, with its lowest-index tie-break from the strict comparisons, names at most one block. |
| `Placement.SelectIsChosen` | main.py:39-79 | A block is the selected one if and only if the rule names it, and -1 is selected if and only if nothing fits. |
| `Engine.Run` | main.py:35-80 | A run yields one allocation entry and one fragmentation entry per process and one final capacity per block. |
| `Engine.AllocationInRange` | main.py:35-80 | Every allocation entry is -1 or a valid block index. |
| `Engine.RunPrefix` | main.py:39 | Processes are handled strictly in order: the run of the first i processes is the first i entries of the whole run's lists, later processes never revise earlier decisions. |
| `Engine.RunSnoc` | main.py:39-79 | The run of i+1 processes is the run of the first i followed by placing process i against the capacities they left. |
| `Engine.RunUnallocated` | main.py:39-79 | Process i is left at -1 exactly when no capacity it sees fits it, and then its fragmentation is 0 and every capacity is unchanged for the next process. |
| `Engine.RunPlaced` | main.py:39-79 | When process i is placed, its block is the one the strategy's rule names among the capacities it sees, its fragmentation is that block's capacity minus its size, that block shrinks to exactly that leftover and every other block is unchanged. |
| `Engine.CapsBeforeBounds` | main.py:37-46 | The first process sees the caller's block list; the capacities after the last process are the returned block status. |
| `Engine.Conservation` | main.py:37-80 | For every block, the initial capacity equals the final capacity plus the sizes of all processes placed in it. |
| `Engine.FinalAtMostInitial` | main.py:35-80 | No block's final capacity exceeds its initial capacity. |
| `Engine.CapacityNonIncreasing` | main.py:35-80 | A block's capacity never grows during a run: later processes see at most the capacity earlier ones saw. |
| `Strategies.FirstFitScan` | main.py:40-45 | The first-fit scan returns the lowest index whose capacity fits, or -1 when none fits. |
| `Strategies.BestFitScan` | main.py:53-58 | The best-fit scan, with its running best index and minimal difference, returns a best-fit block (smallest leftover, lowest index on ties) or -1 when none fits. |
| `Strategies.WorstFitScan` | main.py:70-75 | The worst-fit scan, with its running worst index and maximal difference starting at -1, returns a worst-fit block (largest leftover, lowest index on ties) or -1 when none fits. |
| `Strategies.Scan` | main.py:39-75 | The scan each strategy performs returns exactly the reference selection. |
| `Strategies.TracksStep` | main.py:35-80 | Recording the chosen block and its leftover at entry i, and shrinking that block, keeps the lists in step with the run specification; an unallocated process keeps its preset -1 and 0. |
| `Strategies.Allocate` | main.py:35-80 | Running a strategy on preset lists and a working copy of the blocks returns exactly the allocation, fragmentation and final capacities of the run specification. |
| `Fragmentation.FragmentationStats` | main.py:150-157 | The internal total is the sum of the fragmentation list, and the external total is the sum of the original capacities of the blocks whose index never occurs in the allocation. |
| `Fragmentation.ExternalOnlyUnused` | main.py:153-156 | The external total depends only on the capacities of the blocks never allocated to. |
| `Fragmentation.ExternalContribution` | main.py:153-156 | A block used even once contributes nothing to the external total, whatever its capacity; an unused block contributes its full capacity. |
| `Fragmentation.ExternalAtMostTotal` | main.py:152-156 | The external total never exceeds the total original capacity. |
| `Fragmentation.ExternalWhenNothingAllocated` | main.py:153-156 | With nothing allocated, the external total is the whole memory. |
| `Fragmentation.SumAssignedUnused` | main.py:42-44 | A block that never occurs in the allocation has no process size charged against it. |
| `Fragmentation.RunExternalAtFinalCapacity` | main.py:150-157 | After a run, blocks never allocated to still have their original capacity, so the external total is the same measured on the final block status. |
| `Scenarios.FirstFitTakesFirstLargeEnough` | main.py:39-45 | Blocks 100 and 50, a process of 60: first fit takes block 0 and leaves 40. |
| `Scenarios.BestFitTakesSmallestLeftover` | main.py:53-62 | Blocks 100, 50, 80, a process of 60: best fit takes block 2, leftover 20. |
| `Scenarios.WorstFitTakesLargestLeftover` | main.py:70-79 | Same input: worst fit takes block 0, leftover 40. |
| `Scenarios.TooLargeIsUnallocated` | main.py:36-38 | A block of 50 and a process of 100: unallocated, fragmentation 0, block unchanged, external fragmentation 50. |
| `Scenarios.ShrunkBlockIsReused` | main.py:39-46 | A block of 100, processes 60 and 30 under first fit: both go to block 0 (leftovers 40 then 10), internal total 50, external 0. |
| `Scenarios.UntouchedBlockIsExternal` | main.py:150-157 | Blocks 100 and 30, a process of 10 under first fit: block 0 is used, and the external total is the 30 of the untouched block. |

## Left out

- Input reading and parsing (`get_input`, `parse_block`, `parse_process`, main.py:9-25) and the unit table (KB = 1, MB = 1024): console I/O and text-to-integer conversion; the model starts from sizes already in KB.
- The unit tag carried next to every size: after normalisation it is always KB and carries no information, so sizes are plain `nat`.
- `convert_to_str` (main.py:27-31): display formatting only.
- `visualize` (main.py:82-148): graphical rendering and its button callback.
- `main` (main.py:159-183): orchestration and printing. What matters from it, that every strategy starts from the same block list, holds because the model's block list is an immutable value.
- `fragmentation_stats` takes the process list as a parameter and never uses it; `FragmentationStats` omits it.
- Strategies.Allocate: the three strategy functions of the source are one method over a `Strategy` value, and the scan for one process is a separate method that returns the chosen index; first fit's in-loop update and `break` become "return the first fitting index, then update", with the same effect.
- Strategies.Allocate: the per-run lists (`allocation`, `frag_internal` and the copied `block_status`) are sequence variables updated by index rather than Python lists mutated in place. The lists are local to one run and `block_status` is a fresh copy, so no aliasing is lost.
- Negative sizes: `parse_block` and `parse_process` (main.py:9-16) turn text such as "-100 KB" into -100, and `main` (main.py:159-168) passes it on unchecked. In the source a negative process then fits every block (main.py:41, 56, 73) and the block it is placed in grows (main.py:44, 62, 79), so a final capacity can exceed the initial one. The model excludes this case because sizes are `nat`, so `Engine.FinalAtMostInitial` and `Engine.CapacityNonIncreasing` hold only for non-negative sizes.
- Engine.FinalAtMostInitial: holds for non-negative sizes only; with a negative process size the source grows a block past its initial capacity.
- Engine.CapacityNonIncreasing: holds for non-negative sizes only, for the same reason.
