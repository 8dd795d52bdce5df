# LapisMine, modelled in Dafny

LapisMine is a Minecraft server plugin that keeps "mines": boxes of blocks between two corner
locations that are refilled every few minutes from a *composition*. A composition maps
materials to weights that should add up to 1. When a mine resets, players inside it are moved
to its teleport point. The box is then regenerated cell by cell: x outermost, then y, then z.
Options:

- A surface material can make the top layer a single block type.
- "replace only air" leaves every block that is not air alone.

A scheduler runs queued mine tasks for a few milliseconds of each server tick. Once a second
it shrinks or restores that budget according to the measured ticks per second. The plugin
keeps its mines in a list and looks them up by name, ignoring case.

The model has one module per part of the core:

| module | source | form |
|---|---|---|
| `Bounds` (bounds.dfy) | mines/MineBounds.java | a datatype and pure functions |
| `Compositions` (composition.dfy) | mines/Composition.java | classes `Composition` and `RandomCollection`; the weight sums, the sampler's bands and the text form as functions and lemmas |
| `TickHistory` (tickhistory.dfy) | scheduler/TickTimeStorage.java | class `TickTimeStorage` with its loops; `Retained` and `Oldest` specify them |
| `Scheduler` (scheduler.dfy) | scheduler/LapisMineRunnable.java | class `LapisMineRunnable`; `Drain`, `LimitedTps` and `Penalty` specify it |
| `Regeneration` (regeneration.dfy) | mines/Mine.java, regenerateMine | the loop body and loop order as values |
| `Mines` (mine.dfy) | mines/Mine.java | class `Mine` with the three nested loops of regenerateMine as methods |
| `Registry` (registry.dfy) | LapisMine.java | class `LapisMine` |

Shared declarations:

- `Wrappers` holds Option and Result.
- `Host` holds the server's types: a material with its `isBlock` and `isAir` flags, block points, locations, and a `World` class whose blocks are a map.

The regeneration proof works in three layers:

1. `Regeneration.VisitAll` runs the loop body over the cell sequence `LoopOrder`.
2. The three loop methods of `Mines.Mine` are proved to leave the world exactly as `VisitAll` does.
3. `Regeneration.RunRegenerates` turns that into `Regenerated`. That predicate states:
   - every cell of the box is handled once, in loop order;
   - cells outside the box are untouched;
   - skipped cells keep their block;
   - the top layer holds the surface;
   - the i-th drawn cell holds the i-th draw of the composition.

The tick-rate adjustment, as the code computes it:

- The rate is the number of readings times 1000 over the span in milliseconds.
- The readings used are the oldest 20 of the 25 kept, because `getEntries(20)` copies from the head of the queue.
- A single reading gives a zero span, which reads as full speed.
- Every adjustment sets the budget to the maximum less a penalty, so a budget returns to the maximum in one step.

## Model

| member | source | states |
|---|---|---|
| Bounds.FromCorners | src/main/java/net/lapismc/lapismine/mines/MineBounds.java:25-34 | each axis's minimum is at most its maximum, and the two are exactly the two corners' coordinates on that axis |
| Bounds.FromCornersSymmetric | src/main/java/net/lapismc/lapismine/mines/MineBounds.java:28-33 | swapping l1 and l2 gives the same bounds |
| Bounds.CornersInside | src/main/java/net/lapismc/lapismine/mines/MineBounds.java:28-33 | both corner blocks lie inside the box they span |
| Bounds.FromOrderedCorners | src/main/java/net/lapismc/lapismine/mines/MineBounds.java:28-33 | when l1 is the maximum corner and l2 the minimum one (as the Mine constructors document it), the bounds are l1's coordinates above and l2's below |
| Host.MaterialNamed | src/main/java/net/lapismc/lapismine/mines/Composition.java:55 | a name gives a material exactly when the host knows it, and in a consistent catalog that material carries the name |
| Host.World.SetType | src/main/java/net/lapismc/lapismine/mines/Mine.java:323 | only the block at the given point changes, and it becomes the material |
| Compositions.TotalRemove | src/main/java/net/lapismc/lapismine/mines/Composition.java:177-183 | the total loses exactly the removed material's weight, and nothing when it was absent |
| Compositions.TotalUpdate | src/main/java/net/lapismc/lapismine/mines/Composition.java:177-183 | storing w for a material makes the total w plus the other weights, whatever order the sum is taken in |
| Compositions.PositiveTotalAtLeastTotal | src/main/java/net/lapismc/lapismine/mines/Composition.java:212-214 | the total a sampler reaches, which drops weights <= 0, is never below the map's total |
| Compositions.Fill | src/main/java/net/lapismc/lapismine/mines/Composition.java:135-139 | fillMaterial leaves the other weights alone, gives the material 1 minus their sum, and so makes the composition complete |
| Compositions.SetWeight | src/main/java/net/lapismc/lapismine/mines/Composition.java:94-114 | nothing changes unless the weight is stored; it is refused exactly when it does not fit and the fill material's weight is below it; a missing fill weight is its own outcome |
| Compositions.StoreWithinCapacity | src/main/java/net/lapismc/lapismine/mines/Composition.java:109-113 | a weight that fits is stored for the material and nothing else changes |
| Compositions.StealFromFill | src/main/java/net/lapismc/lapismine/mines/Composition.java:97-104 | a weight that fits only by taking from the fill material is stored, and the fill material then takes what is left, making the composition complete |
| Compositions.SetKeepsCapacity | src/main/java/net/lapismc/lapismine/mines/Composition.java:94-114 | setting a non-negative weight never takes a composition with non-negative weights summing to at most 1 over capacity |
| Compositions.LoweringAWeightCanBeRefused | src/main/java/net/lapismc/lapismine/mines/Composition.java:95-98 | the capacity test counts the material's old weight, so in a full composition {a: 0.6, fill: 0.4}, lowering a to 0.5 is refused although the result would fit |
| Compositions.HigherIndex | src/main/java/net/lapismc/lapismine/mines/Composition.java:220 | higherEntry scans for the first key strictly above the value; when there is none, every key is at most the value |
| Compositions.HigherIndexIsHigherEntry | src/main/java/net/lapismc/lapismine/mines/Composition.java:218-221 | over the TreeMap's ascending keys, the first key above the value is the smallest such key |
| Compositions.Scaled | src/main/java/net/lapismc/lapismine/mines/Composition.java:219 | a draw in [0, 1) times a positive total lies in [0, total) |
| Compositions.HigherItem | src/main/java/net/lapismc/lapismine/mines/Composition.java:219-220 | the item returned owns the smallest boundary above the value; when there is none, every boundary is at most the value; below the total there is always one |
| Compositions.RandomCollection.constructor | src/main/java/net/lapismc/lapismine/mines/Composition.java:200-210 | an empty map with total 0 |
| Compositions.RandomCollection.Add | src/main/java/net/lapismc/lapismine/mines/Composition.java:212-216 | a weight <= 0 changes nothing; otherwise the total grows by the weight and the item is filed under the new total, above every earlier key |
| Compositions.RandomCollection.Next | src/main/java/net/lapismc/lapismine/mines/Composition.java:218-221 | the item of the smallest key strictly above draw * total, and always an item when the collection is non-empty and the draw is in [0, 1) |
| Compositions.RandomCollection.NextPicksBand | src/main/java/net/lapismc/lapismine/mines/Composition.java:212-221 | a draw landing in an item's band [previous key, its key) returns that item |
| Compositions.CompileStep | src/main/java/net/lapismc/lapismine/mines/Composition.java:190-193 | each add of compileMaterials keeps the sampler compiled from the keys seen so far: one band per positive weight, as wide as the weight, one item per band, total equal to the sum of the positive weights |
| Compositions.Encode | src/main/java/net/lapismc/lapismine/mines/Composition.java:155-163 | one line per listed material, in the order listed |
| Compositions.Split | src/main/java/net/lapismc/lapismine/mines/Composition.java:54 | String.split(":"): a line without ':' is its own single piece; no piece contains ':'; trailing empty pieces are dropped, so the last piece of a line with ':' is never empty |
| Compositions.ParseEntry | src/main/java/net/lapismc/lapismine/mines/Composition.java:54-57 | in the order the line is evaluated: MissingField exactly when there is no second piece; else BadNumber exactly when the weight text is no number; else UnknownMaterial exactly when the name is unknown; else the named material with the weight |
| Compositions.ParseSucceeds | src/main/java/net/lapismc/lapismine/mines/Composition.java:53-58 | a load succeeds exactly when every one of its lines loads |
| Compositions.ParseFirstError | src/main/java/net/lapismc/lapismine/mines/Composition.java:53-58 | a failed load reports the error of a bad line before which every line loads |
| Compositions.ParseKeys | src/main/java/net/lapismc/lapismine/mines/Composition.java:53-57 | a loaded map holds the material of every line |
| Compositions.ParseLaterLineWins | src/main/java/net/lapismc/lapismine/mines/Composition.java:53-57 | each material of a loaded map has the weight of the last line naming it, so a later line overrides an earlier one |
| Compositions.ParseSnoc | src/main/java/net/lapismc/lapismine/mines/Composition.java:53-58 | the last line (mat, w) puts w under mat in the map of the earlier lines, replacing any weight it had |
| Compositions.SplitEntry | src/main/java/net/lapismc/lapismine/mines/Composition.java:54 | String.split(":") of NAME:weight (neither containing ':') gives back the name and the weight text |
| Compositions.ParseEntryText | src/main/java/net/lapismc/lapismine/mines/Composition.java:54-57 | a saved line parses back to its material and weight, when the number format reads back the weight it writes and writes no ':' |
| Compositions.ParseEncode | src/main/java/net/lapismc/lapismine/mines/Composition.java:53-58 | parsing the NAME:weight lines of parseToStringList of any list of keys rebuilds the weights of exactly those keys, when the number format reads back each of those weights |
| Compositions.SaveLoadRoundTrip | src/main/java/net/lapismc/lapismine/mines/Composition.java:50-60 | loading the output of parseToStringList (lines 155-163) gives back the same material map, when the number format reads back each stored weight |
| Compositions.PrefixFailure | src/main/java/net/lapismc/lapismine/mines/Composition.java:53-58 | once a line fails to load, the load fails with that line's error, whatever follows it |
| Compositions.Composition.constructor | src/main/java/net/lapismc/lapismine/mines/Composition.java:38-42 | no materials and nothing compiled |
| Compositions.Composition.Loaded | src/main/java/net/lapismc/lapismine/mines/Composition.java:57-59 | holds the parsed weights, already compiled |
| Compositions.Composition.FromList | src/main/java/net/lapismc/lapismine/mines/Composition.java:50-60 | succeeds exactly when every line loads, reports the first failing line's error otherwise, and then holds the loaded map compiled |
| Compositions.Composition.GetTotalPercentage | src/main/java/net/lapismc/lapismine/mines/Composition.java:177-183 | the loop over the values computes their sum |
| Compositions.Composition.GetUnassignedPercentage | src/main/java/net/lapismc/lapismine/mines/Composition.java:170-172 | 1 minus the sum of the weights |
| Compositions.Composition.IsValidComposition | src/main/java/net/lapismc/lapismine/mines/Composition.java:146-148 | true exactly when the weights add up to 1 |
| Compositions.Composition.ToStringList | src/main/java/net/lapismc/lapismine/mines/Composition.java:155-163 | the NAME:weight lines of every material once each, in the key set's order |
| Compositions.Composition.SetMaterial | src/main/java/net/lapismc/lapismine/mines/Composition.java:94-114 | the new map and the outcome are SetWeight's, and the cached sampler is dropped exactly when something was stored; a cache that matched the map still does |
| Compositions.Composition.RemoveMaterial | src/main/java/net/lapismc/lapismine/mines/Composition.java:122-128 | true exactly when the material was present; afterwards it is absent, and the cache is dropped only if it was removed; a cache that matched the map still does |
| Compositions.Composition.FillMaterial | src/main/java/net/lapismc/lapismine/mines/Composition.java:135-139 | the map becomes Fill of the old one, and the cache is dropped, so none is out of date |
| Compositions.Composition.CompileMaterials | src/main/java/net/lapismc/lapismine/mines/Composition.java:188-194 | a fresh sampler compiled from the whole map, and the map unchanged |
| Compositions.Composition.GetNextMaterial | src/main/java/net/lapismc/lapismine/mines/Composition.java:68-76 | an incomplete map is completed with the fill material and a complete one is left alone; the result is the compiled sampler's pick for the draw and has a positive weight; a cached sampler is reused |
| TickHistory.Retained | src/main/java/net/lapismc/lapismine/scheduler/TickTimeStorage.java:34-39 | the newest `size` readings, in order |
| TickHistory.Oldest | src/main/java/net/lapismc/lapismine/scheduler/TickTimeStorage.java:41-49 | a prefix of the readings, k of them when there are that many, all of them for k <= 0 |
| TickHistory.AddBelowCapacity | src/main/java/net/lapismc/lapismine/scheduler/TickTimeStorage.java:34-39 | below capacity nothing is evicted |
| TickHistory.AddAtCapacity | src/main/java/net/lapismc/lapismine/scheduler/TickTimeStorage.java:34-39 | a full history loses exactly its oldest reading |
| TickHistory.AddKeepsNewest | src/main/java/net/lapismc/lapismine/scheduler/TickTimeStorage.java:34-39 | the new reading is kept, last |
| TickHistory.RetainedIdempotent | src/main/java/net/lapismc/lapismine/scheduler/TickTimeStorage.java:36-38 | evicting again changes nothing |
| TickHistory.TickTimeStorage.constructor | src/main/java/net/lapismc/lapismine/scheduler/TickTimeStorage.java:29-32 | empty, with the given capacity |
| TickHistory.TickTimeStorage.Add | src/main/java/net/lapismc/lapismine/scheduler/TickTimeStorage.java:34-39 | the readings become the newest `size` of old readings plus the new one, so the history never exceeds its capacity |
| TickHistory.TickTimeStorage.GetEntries | src/main/java/net/lapismc/lapismine/scheduler/TickTimeStorage.java:41-49 | the loop with its break hands out the oldest k readings |
| Scheduler.NanosToMillis | src/main/java/net/lapismc/lapismine/scheduler/LapisMineRunnable.java:60-61 | the whole number of milliseconds, truncated toward zero on both signs |
| Scheduler.NanosToMillisOdd | src/main/java/net/lapismc/lapismine/scheduler/LapisMineRunnable.java:60-61 | the conversion is symmetric around zero |
| Scheduler.LimitedTps | src/main/java/net/lapismc/lapismine/scheduler/LapisMineRunnable.java:62-63 | never above 20; exactly 20 for a zero span; positive for a positive span and negative for a negative one |
| Scheduler.Penalty | src/main/java/net/lapismc/lapismine/scheduler/LapisMineRunnable.java:65-73 | between 0 and 4; 0 exactly from 19 ticks per second on, 4 exactly below 10 |
| Scheduler.PenaltyMonotone | src/main/java/net/lapismc/lapismine/scheduler/LapisMineRunnable.java:65-73 | a faster server is never penalised more |
| Scheduler.HealthyTicksNoPenalty | src/main/java/net/lapismc/lapismine/scheduler/LapisMineRunnable.java:62-73 | readings at least 19 per second cost nothing |
| Scheduler.StalledTicksFullPenalty | src/main/java/net/lapismc/lapismine/scheduler/LapisMineRunnable.java:62-73 | readings under 10 per second cost the full 4 ms |
| Scheduler.Drain | src/main/java/net/lapismc/lapismine/scheduler/LapisMineRunnable.java:51-54 | a prefix of the queue; every task taken was polled at a clock reading within the stop time; it stops early only when the clock passed the stop time |
| Scheduler.DrainUnique | src/main/java/net/lapismc/lapismine/scheduler/LapisMineRunnable.java:51-54 | any run with those three properties is Drain |
| Scheduler.LapisMineRunnable.constructor | src/main/java/net/lapismc/lapismine/scheduler/LapisMineRunnable.java:28-38 | an empty queue, the full 5 ms budget and a fresh history of capacity 25 |
| Scheduler.LapisMineRunnable.AddTask | src/main/java/net/lapismc/lapismine/scheduler/LapisMineRunnable.java:40-42 | the task joins the tail of the queue |
| Scheduler.LapisMineRunnable.Run | src/main/java/net/lapismc/lapismine/scheduler/LapisMineRunnable.java:45-55 | the tick's start reading enters the history; the tasks run are the head of the queue, as Drain gives them for a stop time budget ms after the start; the rest stay queued |
| Scheduler.LapisMineRunnable.RunTasks | src/main/java/net/lapismc/lapismine/scheduler/LapisMineRunnable.java:51-54 | the polling loop runs exactly Drain's tasks and leaves the rest queued |
| Scheduler.LapisMineRunnable.CalculateAdjustment | src/main/java/net/lapismc/lapismine/scheduler/LapisMineRunnable.java:57-75 | nothing for an empty history; otherwise the change that brings the budget to 5 ms less the penalty for the oldest 20 readings |
| Scheduler.LapisMineRunnable.Retune | src/main/java/net/lapismc/lapismine/scheduler/LapisMineRunnable.java:37 | the budget becomes 5 ms less the penalty; the queue is untouched; the budget stays within 1 to 5 ms |
| Scheduler.RetunedBudgetInRange | src/main/java/net/lapismc/lapismine/scheduler/LapisMineRunnable.java:64-74 | whatever the readings, a retuned budget is between 1 and 5 ms |
| Regeneration.ActionCases | src/main/java/net/lapismc/lapismine/mines/Mine.java:298-312 | each cell is kept exactly when only air is replaced and it holds no air block; otherwise it takes the surface exactly when it is on the top layer and a surface other than AIR is set; otherwise it takes a draw |
| Regeneration.VisitEffect | src/main/java/net/lapismc/lapismine/mines/Mine.java:298-312 | the loop body changes at most the block at the cell: a kept cell changes nothing, a surface cell gets the surface, a drawn cell gets the next draw and joins the drawn cells; without a world no block changes |
| Regeneration.VisitAllElsewhere | src/main/java/net/lapismc/lapismine/mines/Mine.java:295-315 | a cell the loops do not visit keeps its block |
| Regeneration.LoopOrderCells | src/main/java/net/lapismc/lapismine/mines/Mine.java:295-297 | the three loops visit exactly the cells of the box, each after every cell before it in x, y, z order |
| Regeneration.VisitAllSwept | src/main/java/net/lapismc/lapismine/mines/Mine.java:295-315 | the loop body run over ascending cells handles exactly those cells: drawn cells in order with their draws, kept cells unchanged, surface cells set |
| Regeneration.RunRegenerates | src/main/java/net/lapismc/lapismine/mines/Mine.java:293-316 | a run over the whole loop order that uses its draws regenerates the box |
| Regeneration.DrawnOnce | src/main/java/net/lapismc/lapismine/mines/Mine.java:295-297 | no cell is drawn for twice |
| Regeneration.OnlyAirReplaced | src/main/java/net/lapismc/lapismine/mines/Mine.java:298-305 | with replaceOnlyAir, no block that is not air changes |
| Mines.ResetSchedule | src/main/java/net/lapismc/lapismine/mines/Mine.java:147-162 | the period (also the timer of line 126) is the frequency in minutes as ticks; a warning or countdown is scheduled exactly when its time is non-zero, that many seconds before the reset |
| Mines.DefaultTeleport | src/main/java/net/lapismc/lapismine/mines/Mine.java:73-75 | in l1's world, two above l1, with x between the corner blocks' x and z between the corners' z |
| Mines.WriteRecord | src/main/java/net/lapismc/lapismine/mines/Mine.java:338-348 | every field saveMine writes is set under its key; Surface is absent exactly when there is none; every other key is untouched |
| Mines.GetString | src/main/java/net/lapismc/lapismine/mines/Mine.java:93-96 | getString gives the value's text whenever the key is present and null only when it is absent: text as itself, a number as Integer.toString, a flag as true or false |
| Mines.NatTextValue | src/main/java/net/lapismc/lapismine/mines/Mine.java:93 | the decimal text of a number reads back as that number |
| Mines.IntText | src/main/java/net/lapismc/lapismine/mines/Mine.java:93 | Integer.toString: never empty, a leading minus exactly for a negative number, and the digits after it read back as its magnitude |
| Mines.NumberNameIsText | src/main/java/net/lapismc/lapismine/mines/Mine.java:93 | a Name that YAML reads as the number 42 is the name "42" |
| Mines.GetLocation | src/main/java/net/lapismc/lapismine/mines/Mine.java:94-96 | a location exactly when the text of the key's value is one the location format reads, and then that location; otherwise BadLocation for that key |
| Mines.ReadRecord | src/main/java/net/lapismc/lapismine/mines/Mine.java:91-100 | fails exactly when the name or one of the three locations cannot be read; otherwise the flag and the frequency are YAML's values or defaults |
| Mines.SaveLoadRecord | src/main/java/net/lapismc/lapismine/mines/Mine.java:91-100 | a mine saved by saveMine (lines 338-348) reads back with every saved field, while replaceOnlyAir comes back as the file held it before |
| Mines.ReplaceOnlyAirLost | src/main/java/net/lapismc/lapismine/mines/Mine.java:338-348 | saved to a new file and read back, a mine with replaceOnlyAir set comes back without it |
| Mines.Mine.constructor | src/main/java/net/lapismc/lapismine/mines/Mine.java:69-83 | every field as given, and the teleport point in the middle above l1 |
| Mines.Mine.Empty | src/main/java/net/lapismc/lapismine/mines/Mine.java:112-114 | a new empty composition, no surface, every 15 minutes, not only air |
| Mines.Mine.Restore | src/main/java/net/lapismc/lapismine/mines/Mine.java:93-100 | the fields of the record read |
| Mines.Mine.Load | src/main/java/net/lapismc/lapismine/mines/Mine.java:91-102 | the record's error when it cannot be read; then success exactly when the composition loads, with every field from the file and the loaded map compiled |
| Mines.Mine.IsPlayerInMine | src/main/java/net/lapismc/lapismine/mines/Mine.java:277-286 | true exactly when the player's block lies in the mine's bounds |
| Mines.Mine.GetBlockAt | src/main/java/net/lapismc/lapismine/mines/Mine.java:326-331 | no block exactly when l1 has no world; otherwise that world's block |
| Mines.Mine.SetBlock | src/main/java/net/lapismc/lapismine/mines/Mine.java:318-324 | in l1's world only that block changes |
| Mines.Mine.RegenerateMine | src/main/java/net/lapismc/lapismine/mines/Mine.java:293-316 | the world ends as the loop body run over every cell in loop order leaves it, which is a regeneration of the box whose i-th draw is the composition's pick for the i-th random number; the map is unchanged |
| Mines.Mine.RegenerateSlices | src/main/java/net/lapismc/lapismine/mines/Mine.java:295 | the outer loop leaves the world as the run over all slices leaves it |
| Mines.Mine.RegenerateSlice | src/main/java/net/lapismc/lapismine/mines/Mine.java:296 | the middle loop adds slice x to the run |
| Mines.Mine.RegenerateRow | src/main/java/net/lapismc/lapismine/mines/Mine.java:297 | the inner loop adds row (x, y) to the run |
| Mines.Mine.RegenerateStep | src/main/java/net/lapismc/lapismine/mines/Mine.java:298-312 | one turn of the inner loop adds one cell to the run |
| Mines.Mine.RegenerateCell | src/main/java/net/lapismc/lapismine/mines/Mine.java:298-312 | per cell: a non-air cell under replaceOnlyAir is kept, the top layer takes the surface, any other cell takes the next draw |
| Mines.Mine.FillCell | src/main/java/net/lapismc/lapismine/mines/Mine.java:306-312 | the surface on the top layer when one is set and is not AIR, the next draw elsewhere |
| Mines.Mine.DrawCell | src/main/java/net/lapismc/lapismine/mines/Mine.java:311 | the cell gets the next draw, and the draws so far stay those of the random numbers in order |
| Mines.Mine.DrawNext | src/main/java/net/lapismc/lapismine/mines/Mine.java:311 | a draw from the sampler compiled on the first draw and reused after |
| Mines.Mine.ResetMine | src/main/java/net/lapismc/lapismine/mines/Mine.java:241-256 | resets exactly when the composition is complete; then every player inside goes to the teleport point and the box is regenerated; otherwise the world and cache are untouched |
| Mines.Mine.SetSurface | src/main/java/net/lapismc/lapismine/mines/Mine.java:371-379 | null clears the surface, a non-block is ignored, a block is set; nothing else changes |
| Mines.Mine.SetResetFrequency | src/main/java/net/lapismc/lapismine/mines/Mine.java:395-397 | only the frequency changes |
| Mines.Mine.SetTeleport | src/main/java/net/lapismc/lapismine/mines/Mine.java:422-424 | only the teleport point changes, and the bounds stay |
| Mines.Mine.SetL1 | src/main/java/net/lapismc/lapismine/mines/Mine.java:440-442 | only l1 changes, and the bounds become those of the new corner and l2 |
| Mines.Mine.SetL2 | src/main/java/net/lapismc/lapismine/mines/Mine.java:458-460 | only l2 changes, and the bounds become those of l1 and the new corner |
| Mines.Mine.SetReplaceOnlyAir | src/main/java/net/lapismc/lapismine/mines/Mine.java:467-469 | only the flag changes |
| Mines.Mine.SaveMine | src/main/java/net/lapismc/lapismine/mines/Mine.java:338-348 | the config gets the mine's fields, with the composition as its lines, once per material |
| Registry.IgnoresCase | src/main/java/net/lapismc/lapismine/LapisMine.java:162 | two names match exactly when they have the same length and the same letters once upper-cased, so every name matches its upper-cased form |
| Registry.EqualsIgnoreCaseSymmetric | src/main/java/net/lapismc/lapismine/LapisMine.java:162 | matching names ignoring case is symmetric |
| Registry.FirstMatch | src/main/java/net/lapismc/lapismine/LapisMine.java:160-167 | the index of a matching mine before which none matches, and nothing exactly when no mine matches |
| Registry.AppendedIsFound | src/main/java/net/lapismc/lapismine/LapisMine.java:127-131 | a mine added under a name no mine had is the one found for it |
| Registry.AppendKeepsMatch | src/main/java/net/lapismc/lapismine/LapisMine.java:140-142 | adding a mine leaves an existing name's lookup unchanged |
| Registry.RemoveFirst | src/main/java/net/lapismc/lapismine/LapisMine.java:151 | List.remove(Object) drops one occurrence of a mine that is there and changes nothing otherwise |
| Registry.RemoveAt | src/main/java/net/lapismc/lapismine/LapisMine.java:151 | removing the first occurrence keeps the mines before and after it, in order |
| Registry.LapisMine.constructor | src/main/java/net/lapismc/lapismine/LapisMine.java:48-57 | no mines, with the fill material |
| Registry.LapisMine.GetMine | src/main/java/net/lapismc/lapismine/LapisMine.java:160-167 | the first mine whose name equals the name ignoring case, null if none |
| Registry.LapisMine.CreateMine | src/main/java/net/lapismc/lapismine/LapisMine.java:127-133 | nothing when the name is taken; otherwise a new mine is appended with that name and those corners, an empty composition with the plugin's fill material, no surface, a 15-minute reset, replaceOnlyAir off and the default teleport; names stay distinct ignoring case |
| Registry.LapisMine.AddMine | src/main/java/net/lapismc/lapismine/LapisMine.java:140-142 | the mine is appended, unchecked |
| Registry.LapisMine.RemoveMine | src/main/java/net/lapismc/lapismine/LapisMine.java:150-152 | the list loses the first occurrence of the mine, the rest in order |

## Left out

- Floating point: weights, totals, draws and tick rates are exact reals. Java's `double` rounding is not modelled.
  - `isValidComposition`'s `== 1` and `getNextMaterial`'s `!= 1` hold or fail here on exact sums, where rounding could tip them.
- Compositions.Composition.GetTotalPercentage: the sum is exact and its order is irrelevant. A `double` sum depends on the HashMap's iteration order.
- Scheduler.LimitedTps: a zero span divides by zero to +Infinity in the source, which Math.min caps at 20; the model returns 20 directly.
- Scheduler.NanosToMillis: `(long) (t / 1E6)` divides in `double`; the model truncates exactly, which differs only above 2^53 nanoseconds.
- Scheduler: `currentMillisPerTick` is modelled as a whole number, because every adjustment keeps it whole. `(int) (currentMillisPerTick * 1E6)` then cannot overflow.
- Mines.DefaultTeleport: the float division `/ 2f` and the double division of the z coordinates are exact real divisions.
- Randomness: `random.nextDouble()` is the parameter `rand` (the k-th draw of a regeneration is `rand(k)` in [0, 1)), or the argument `r` of `Next` and `GetNextMaterial`.
- The clock: `System.nanoTime()` is the sequence `clock` given to `Run`; at most one reading per queued task plus one.
- What a MineTask does when it runs is not modelled: tasks are identities.
- Bukkit scheduling:
  - Out of scope: the timer registration in the LapisMineRunnable and Mine constructors, `restartResetTimer`, `resetWarningTasks`, `warnMineReset`, `startCountdownTask` and the plugin's task handler.
  - `Mines.ResetSchedule` gives the delays those calls would use.
  - `resetMine`'s final call to `resetWarningTasks` is not modelled.
- Mines.ResetSchedule: requires `frequency * 1200` to fit in 32 bits. The source's `int` product would wrap; the model does not show that wrap-around.
- Players, teleports and messages: the online players are the parameter `players`. `ResetMine` returns where each player ends up. `sendMessage` and the configured messages are left out.
- Files and YAML:
  - Left out: `config.save`, `loadMines`, `saveMines`, `deleteMine`, and creating or deleting mine files.
  - A YAML configuration is a flat map from dotted keys to values.
  - `Mines.Mine.Load` models one file's constructor call.
- LocationUtils is not part of this model: a location's text form is the parameter `LocationText`. Double.toString and Double.valueOf are the parameter `DoubleText`. The round trips assume that each reads back what it shows for the values saved.
- Compositions.Parse: an unknown material name is the error UnknownMaterial. The source would store it under a `null` key. A line without ':' (ArrayIndexOutOfBoundsException) and a bad number (NumberFormatException) are errors too. The source throws those out of the constructor.
- A YAML value is text, an int, a boolean or a list of text. Floats and nested sections are not modelled.
- Mines.ReadRecord: a missing name is the error NoName and an unreadable location the error BadLocation. The source would build a mine with a `null` name or location.
- Compositions.SetWeight: when the fill material has no weight, the source's unboxing of `null` throws; the model reports the outcome FillMissing and changes nothing.
- Compositions.RandomCollection.Next: an empty collection, or a draw at or above the total, gives None; the source's `higherEntry(...).getValue()` throws.
- Scheduler.LapisMineRunnable.CalculateAdjustment: an empty history gives None; the source's `get(-1)` throws.
- Mines.Mine.RegenerateMine: requires a complete composition, because its only caller `resetMine` checks that first.
- Registry.EqualsIgnoreCase folds the case of ASCII letters only. Java folds all of Unicode.
- Getters (`getName`, `getL1`, `getL2`, `getTeleport`, `getComposition`, `getMaterialMap`, `getResetFrequency`, `getMines`) are plain field reads.
- Out of scope:
  - the commands and tab completion;
  - the WorldEdit integration and the file watcher;
  - `onEnable`, `onDisable` and `onPlayerJoin`;
  - concurrency: everything runs on the server thread.
- `saveMine` does not write ReplaceOnlyAir; the model keeps that as written, and `Mines.ReplaceOnlyAirLost` states its effect.
