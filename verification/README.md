# Crewlet: the import planner, the boot publish and their neighbours

A Dafny model of the parts of the `crewlet` command whose correctness spans many functions and
many steps, and proofs of what they promise. `dafny verify dfyconfig.toml` checks all of it.

## What is modelled

**The history import** (`cmd/crewlet/codeimport.go`). A repository's whole history is moved into
another as a sequence of atomic pushes, each within the limits of one push.

- `Commits`, `Refs`: a finite commit graph (acyclic by generation), ancestry, first-parent
  histories; a repository's refs, what it reaches, and what a push may do: create, or fast-forward.
- `Plans`: the planner's queue, the walk under way and the walks waiting at merges, as one value;
  the invariant of them all; how each move keeps it; where a carrier goes back. `Nested`: one source's
  plan, move by move.
- `Importing`, `RemoteRefs`, `Planner`: what is asked of git, the settled step, the optimistic copy
  of the repository's refs, and the planner itself, a class with the program's fields and loops. What
  one call answers is `IsTaken`: a relation between the plan before, the answer and the plan after,
  stated of estimates, builds, limits and the ratio, without the loops or what they search by.
- `Imports`: `resume`, and plan after plan until nothing is left; running again after a crash.
- `Search`, `FirstFound`: the galloping search, and the bounded workers' compare-and-set minimum.
- `Executor`: each step planned while the one before it is pushed, in every interleaving.
- `Streams`: the line reader, the pack header's reader, and the tail kept of what git says.

**The boot publish** (`cmd/crewlet/bootpublish.go`). Nodes that boot around one activation pointer,
each deciding by a table and publishing by compare-and-set.

- `BootPublish`: the pointer's register and the table. `BootFleet`: every node, with a crash between
  any two writes, everybody else's writes, and the loss of the pointer. `BootLoop`: the boot's own
  loop over its store and the pointer, the other nodes' turns between its calls, proved to be a run of
  that fleet. `BootConvergence`: a lost pointer, restored by the nodes that boot.

**The signal hold** (`SignalHold`, of `interrupt.go`), **the stored values a command reads**
(`ValueCache`, of `companystore.go`) and **what is quoted for a shell** (`Quoting`, of `code.go` and
`iam.go`).

## What the proofs assume

Of git, of the limits and of the node, in `Importer.Valid`: what the repository already reaches is
estimated at nothing; what is estimated at nothing packs to the empty pack, and that pack fits every
limit; a build stops only past its cap; and a shorter batch takes no more of a push's record. The
estimate is not assumed monotone: only the last clause of `Search.Furthest` needs that.

## What turned out not to hold as written

- `settle` answers 0 for "may be pushed" and computes 0 for an over-limit step estimated at nothing,
  whose repository it has just dropped. It is right exactly where no step past a limit is estimated
  at nothing (`SettleIsRightIffEstimated`); a one-commit repository for which every other assumption
  holds is wrong (`SettleWrongWithoutTheAssumption`).
- A merge's carrier is not always put back "where it stood". With the rest of the queue in the order it
  stood, it is exactly where every ref that stood before it is queued, or none that stood after it
  (`CarrierReturnsIff`). Through the planner's own moves: with a second carrier taken for a merge below
  it and finished, exactly where that one stood after it, or nothing did (`NestedCarrierReturnsIff`). A
  source of seven commits whose import meets it, from its first plan, is `Nested.NestedItNeedNot`.
- A restore lands at the instant it is remembered at exactly where that is a later millisecond than
  the restore it replaces (`RestoreLandsAsRememberedIff`), since the pointer compares milliseconds.
- A lost pointer is not always restored to the newest revision remembered. It is, under every
  interleaving, exactly where every settled course of boots one after another ends there
  (`ConvergesIffEveryCourseDoes`, which assumes nothing of what the nodes hold or remember). Where each
  revision was activated, at one instant, a millisecond from any other, that is exactly where of every
  chain of older nodes, of rising instants and each holding the revision before it, some newest node
  holds every revision (`ConvergesIffHeld`); with one newest node, where it holds what every other
  knows (`ConvergesIffTheNewestHolds`). Each of the conditions fails for three nodes without the rest
  (`WithinAMillisecondItNeedNot` and the three after it). That every interleaving ends needs none of it.
- Rule 1b can take an offer for landed that never was. After a choice, whatever happens, it fires only
  once the pointer has held the choice, exactly where the choice is not of the revision the fleet's row
  has, or is built on no other, or the pointer holds it already as it is made
  (`ConfirmsOnlyALandingIff`). For any other choice, once the pointer is at another revision it is built
  on: a boot plans it over that one and crashes or loses its race; the row is then of the offer and the
  plan's new base is not, so it is confirmed, nothing is published, and the choice is dropped
  (`UntoldItNeedNot`). Choosing the fleet's revision again while a sent offer that landed is unconfirmed
  makes one (`ChoosingBackIsUntold`), and `ChoosingBackFromTheStart` is a whole run of it, from one node
  that boots on the fleet's revision.
- "A second press ends the process" fails for two presses before the first is read: the channel holds
  one, and the second is lost (`PressIsLostIff`, `TwoPressesAtOnceAreOne`). Every signal a channel took
  is answered.
- A name is asked of the store more than once exactly where a call wants it again after requests of it
  that all failed, and the run has not recorded or forgot it since (`AskedAgainIff`, `AskedTwice`); over
  a store that never fails, never (`NoneTwice`).

## Model

| member | source | states |
|---|---|---|
| Search.Furthest | cmd/crewlet/codeimport.go:2248-2310 | the index returned passed and its successor failed or is past the end; the maximum for a downward-closed question; no question outside the range; at most 3 + 2·log2(d + 1) questions, d how far off the clamped guess was, and 2 where the guess and the first both fail |
| Search.BoundaryIsFurthest | cmd/crewlet/codeimport.go:2236-2242 | such a boundary is the maximum wherever the question once false stays false |
| Refs.PushKeepsResumable | cmd/crewlet/codeimport.go:1140-1227 | creates and fast-forwards leave every kept ref absent, at the source's value, or (a branch) at an ancestor of it that the clone holds |
| Refs.HaveGrows | cmd/crewlet/codeimport.go:1070-1080 | a push loses the repository nothing it reached, and gives it what its commands name |
| Refs.PushShrinksWork | cmd/crewlet/codeimport.go:1549-1589 | each push strictly shrinks the commits unreached and refs unfinished, so no run of pushes is longer than that |
| Refs.RunKeeps | cmd/crewlet/codeimport.go:2529-2545 | over any run of pushes: resumability, refs the source does not name untouched, and the length bound |
| RemoteRefs.Remote.Set | cmd/crewlet/codeimport.go:1076-1081 | the one ref moves, and no stale negatives stay cached |
| RemoteRefs.Remote.NegativesNow | cmd/crewlet/codeimport.go:1083-1106 | the cached answer is always the distinct held values of the refs as they are |
| Plans.InHandIsWhatIsLeft | cmd/crewlet/codeimport.go:1512-1538 | conservation: the refs short of their source value are exactly those in the queue, the walk and the suspended walks, each in one place once |
| Plans.NothingLeftIsComplete | cmd/crewlet/codeimport.go:1549-1589 | nothing in hand means every kept ref is planned at the source's value |
| Plans.WalkStepKeeps | cmd/crewlet/codeimport.go:1697-1757 | a walk's step to any commit left is a push the repository takes, and the invariant of queue, walk and suspended walks survives it |
| Plans.SuspendedStays | cmd/crewlet/codeimport.go:1788-1830 | a walk waiting at a merge keeps its remaining commits unreached, and its next a descendant of its ref, while an inner walk advances |
| Plans.BatchStepKeeps | cmd/crewlet/codeimport.go:1990-2008 | a batch of the queue's first refs is one push the repository takes, and keeps the invariant |
| Plans.StartWalkKeeps | cmd/crewlet/codeimport.go:1572-1586 | taking the queue's head into a walk loses and doubles no ref |
| Plans.BringInKeeps | cmd/crewlet/codeimport.go:1812-1829 | suspending a walk for a merge's history on a carrier taken out of the queue keeps the invariant, strictly below the merge |
| Plans.WalkEndedKeeps | cmd/crewlet/codeimport.go:1554-1568 | an ended walk's carrier is back in the queue if and only if it is short of its own value, and the walk it interrupted has commits left |
| Plans.CarrierReturnsIff | cmd/crewlet/codeimport.go:1554-1561 | a carrier taken from a queue, what is left of it in the order it stood, goes back to its place if and only if every ref that stood before it is queued or none that stood after it |
| Plans.CarrierReturnsToItsPlace | cmd/crewlet/codeimport.go:1554-1561 | with the queue as it was when the carrier was taken, it is put back exactly where it stood |
| Plans.NestedCarrierReturnsIff | cmd/crewlet/codeimport.go:1549-1589 | from any valid plan, a carrier brought in, stepped to a merge, a second brought in for that and walked to its own value, and the first walked to its tip: the plan is valid, its walks as before, and the first is back in its place if and only if the second stood after it or nothing did |
| Nested.NestedItNeedNot | cmd/crewlet/codeimport.go:1549-1589 | a source whose plan, by the planner's moves from its start, queues x, c, y in order and then y, c, x finished |
| Nested.CIsTakenForFive | cmd/crewlet/codeimport.go:1788-1830 | the first carrier and its walk there are those the planner takes |
| Nested.XIsTakenForThree | cmd/crewlet/codeimport.go:1788-1830 | and so are the second's |
| Importing.Importer.CutIsZero | cmd/crewlet/codeimport.go:2141-2144 | the range an over-limit step is cut to is 0 exactly where its estimate is |
| Importing.Importer.CutShrinks | cmd/crewlet/codeimport.go:2141-2144 | and below the estimate of what it cuts wherever a limit was passed, so recutting strictly shrinks the range |
| Importing.Importer.MeasuredIs | cmd/crewlet/codeimport.go:2118-2144 | a step measured is its build, or where that may fit the copy its push sends; it fits if and only if that copy is within the push limit and, with 32 bytes an object and 1124, within what one push may store |
| Importing.Importer.CutIs | cmd/crewlet/codeimport.go:2118-2144 | of the two limits the cut is by the one passed furthest: it is the estimate at which, packing alike, a range comes to fifteen sixteenths of that limit and to no more of the other |
| Importing.Importer.SettleIsRightIffEstimated | cmd/crewlet/codeimport.go:2118-2144 | reading a zero cut as "may be pushed" is right for a step if and only if it fits or is estimated above nothing |
| Importing.SettleWrongWithoutTheAssumption | cmd/crewlet/codeimport.go:2118-2144 | a repository of one commit, estimated at nothing and built past the limit, with every other assumption true of it: its branch's step is answered as one to push and does not fit |
| Importing.Importer.NothingNewFits | cmd/crewlet/codeimport.go:2380-2440 | under the assumptions, a push of what is estimated at nothing fits |
| Planner.ImportPlanner.constructor | cmd/crewlet/codeimport.go:1512-1538 | a planner starts from any resumable state, with nothing kept on disk |
| Planner.ImportPlanner.Settle | cmd/crewlet/codeimport.go:2118-2144 | in an import 0 if and only if the copy the push sends and what is stored of it are within their limits, measured at the bytes of that copy wherever its build is within the limit and four bytes an object, its repository kept exactly then, else a cut below its estimate in proportion to the limit passed furthest; the ratio learnt only from a step that fits and is an eighth of the limit; in a dry run its estimate |
| Planner.ImportPlanner.Hold | cmd/crewlet/codeimport.go:2153-2172 | counted exactly where the repository's limit still holds; refused with its repository dropped otherwise; only noted in a dry run |
| Planner.SuffixDescends | cmd/crewlet/codeimport.go:1646-1677 | the first list index met on the ancestry path splits the list: exactly the suffix descends from the held value |
| Planner.FirstInStream | cmd/crewlet/codeimport.go:1655-1677 | the least index met in a stream of commits in any order, or the list's length for none |
| Planner.ImportPlanner.FirstDescendant | cmd/crewlet/codeimport.go:1646-1677 | a commit of the list descends from the held ancestor if and only if it is at or past the answer |
| Planner.SuffixIsWalk | cmd/crewlet/codeimport.go:1604-1628 | the suffix from there is a chain of unreached commits, each a fast-forward of the ref, ending at the tip |
| Planner.ImportPlanner.WalkTo | cmd/crewlet/codeimport.go:1604-1628 | no walk if and only if the repository will reach the tip; otherwise all of the unreached first-parent history to it that descends from where the branch stands |
| Planner.ImportPlanner.Carrier | cmd/crewlet/codeimport.go:1858-1914 | the branch found can carry the parent's history and is preferred (without the merge first, then in queue order) to every other that can; none only where none can |
| Planner.EveryScheduleCarries | cmd/crewlet/codeimport.go:1858-1914 | whatever the bounded workers' interleaving, the minimum they leave is that same carrier |
| Planner.ImportPlanner.BringIn | cmd/crewlet/codeimport.go:1788-1830 | either the first lacking parent any queued branch can carry is walked to on its preferred carrier, strictly below the merge, or the state is as it was and the lacking parents, none of which a queued branch can carry, are answered in order |
| Planner.LackingInOrder | cmd/crewlet/codeimport.go:1789-1803 | the unreached parents stand in the merge's own order |
| Planner.ImportPlanner.Suspend | cmd/crewlet/codeimport.go:1812-1829 | the walk waits, the carrier leaves the queue, and the walk under way is the carrier's chain of unreached commits up to the parent, strictly down the graph; the note is of that carrier, parent and merge |
| Planner.ImportPlanner.PlanWalkTo | cmd/crewlet/codeimport.go:1723-1734 | the walk, the ref and the byte total move by exactly the step answered, or nothing moves and the repository was full |
| Planner.ImportPlanner.WalkStep | cmd/crewlet/codeimport.go:1681-1757 | what is taken (`IsTaken`) of a walk: its commits as far as the search aimed, where the estimate of the range times the ratio is within the limit and of one commit more past it, or cut back from there by tries each measured past a limit, to where the estimate is under the cut; or, its next commit alone past a limit, what is taken of the history of its first carriable unreached parent on the preferred carrier; or that is refused |
| Planner.ImportPlanner.CutWalk | cmd/crewlet/codeimport.go:1701-1757 | the same from the range aimed at: the recutting loop ends, and each range it tries is the furthest under the cut of the one before |
| Planner.ImportPlanner.EndWalk | cmd/crewlet/codeimport.go:1554-1568 | the state becomes that of an ended walk (Plans.WalkEnded), one turn nearer a step |
| Planner.ImportPlanner.StartWalk | cmd/crewlet/codeimport.go:1572-1586 | the head becomes the chain of its unreached commits if and only if the repository will not hold all of it, and is batched otherwise; one turn nearer a step either way |
| Planner.ImportPlanner.RecordHolds | cmd/crewlet/codeimport.go:2051-2082 | the refs answered fit one push's record and one more does not |
| Planner.ImportPlanner.BatchStep | cmd/crewlet/codeimport.go:1952-2021 | what is taken of the queue: its first refs, of as many as count and record allow those whose estimate times the ratio is within the limit and of one more past it, or cut back from there by measurements; or, its first being a branch past the limit alone, what is taken of that branch's walk |
| Planner.ImportPlanner.CutBatch | cmd/crewlet/codeimport.go:1977-2021 | the same from the batch aimed at, of the recutting loop, which ends |
| Planner.ImportPlanner.WalkInstead | cmd/crewlet/codeimport.go:2096-2099 | what is taken is of that branch's walk to its value; it ends, since a branch estimated above nothing has commits to walk |
| Planner.ImportPlanner.Take | cmd/crewlet/codeimport.go:1549-1589 | terminates for every graph, queue and nesting of bring-ins; the step is the one the plan comes to (`IsTaken`): of the innermost walk with commits left, ended walks put away, else of the queue's head, walked to its value where it is marked and unreached, else of the queue's first refs; the plan, the ratio, the note and the counts after it are that step's; it is a push the repository takes, within pack, stored and repository limits in exact mode; a refusal is of the step the plan comes to, past the limit it names |
| Planner.ImportPlanner.Next | cmd/crewlet/codeimport.go:1540-1547 | the same, with the note of the last history brought in, and what is left of the queue in its order; no step left means every kept ref is planned at the source's value; and one call builds no more packs than a batch has refs and, at each merge it goes below, there are commits |
| Planner.StepIsUnder | cmd/crewlet/codeimport.go:1681-1703 | a step of more than one commit, or ref, is estimated within the limit at the ratio there was, cut back or not; and where it was not cut back, one commit or ref more is not, or there is none one push takes |
| Planner.ChoseLeavesOrder | cmd/crewlet/codeimport.go:1549-1589 | wherever the plan comes to for a step, through any bring-ins, what is left of its queue stands in the order it stood |
| FirstFound.EveryScheduleFindsTheFirst | cmd/crewlet/codeimport.go:1305-1340 | under every interleaving the minimum left is the first find in order, and every question up to it is answered, rightly |
| FirstFound.AFindStopsTheQuestionsAfterIt | cmd/crewlet/codeimport.go:1885-1906 | once a find is recorded no question after it is asked but those asked already, in any run |
| FirstFound.AFindAtOnceIsTheLast | cmd/crewlet/codeimport.go:1885-1906 | no question after a find at once is ever asked |
| FirstFound.WorkerAdvances | cmd/crewlet/codeimport.go:1858-1914 | a worker's turn lowers the minimum or brings it, and only it, nearer its end: swaps are retried only as often as others lower it |
| FirstFound.NeverStuck | cmd/crewlet/codeimport.go:1305-1340 | until all is done some worker can go on |
| FirstFound.AnybodyMayGo | cmd/crewlet/codeimport.go:1305-1340 | the next turn is the loop's or any running worker's |
| FirstFound.EveryRunEnds | cmd/crewlet/codeimport.go:1305-1340 | every interleaving of the workers over n questions ends within 2n(n + 4) + 1 turns, retries included |
| Imports.EveryScheduleIsRight | cmd/crewlet/codeimport.go:1305-1340 | whatever the workers' interleaving, each ref up to the first that is not an earlier state of the source's is answered correctly |
| Imports.Resume | cmd/crewlet/codeimport.go:1140-1227 | refuses if and only if some ref is not resumable, and names the first in order, or else if and only if the repository would hold too many; otherwise its queue is a valid plan of the refs short of their value, each once: the branch the repository is declared with, or where the source has none of that name its own, at the head and marked, and the rest unmarked in the source's order |
| Imports.Scan | cmd/crewlet/codeimport.go:1173-1203 | the sequential scan of the workers' answers stops at the first such ref |
| Imports.LeftIsPlan | cmd/crewlet/codeimport.go:1182-1227 | a resumable repository's queue satisfies the planner's whole invariant |
| Imports.PlanAll | cmd/crewlet/codeimport.go:2529-2545 | a whole run: every step a push the repository takes after those before it, the copy it sends and what is stored of it within their limits against the refs those leave, no more steps than work, live bytes plus all stored bytes within the repository's limit, the total theirs; ended without a refusal, every kept ref is at the source's value and every other as it was |
| Imports.RunGrows | cmd/crewlet/codeimport.go:2606-2668 | a run of pushes with one more planned on its end is a run of pushes |
| Imports.ResumesAfterAnyPrefix | cmd/crewlet/codeimport.go:1140-1227 | after any prefix of a run's pushes has landed, a fresh import is accepted and starts from a valid plan of what that prefix did not finish |
| Executor.TakenKeeps | cmd/crewlet/codeimport.go:2606-2668 | every turn of planner, push and executor keeps order, plan, repository, totals and repositories on disk in step |
| Executor.PushStartsWhereItWasPlanned | cmd/crewlet/codeimport.go:2656-2668 | when a push starts the repository's refs are exactly those its step was planned against, and the copy it sends against them is within its limits |
| Executor.EveryInstant | cmd/crewlet/codeimport.go:2606-2668 | at every instant of every interleaving at most two steps' repositories exist, the repository is at a prefix of the plan, each step of it within one push's limits and all that landed with what was there before within the repository's, and an import started again is accepted |
| Executor.EveryReturn | cmd/crewlet/codeimport.go:2606-2668 | on every return no repository is left, nothing is running, counts and totals are those of the landed prefix; it is without an error if and only if no push failed and no planning, and the repository then has every kept ref at the source's value, which is what is checked after it |
| Executor.NothingAfterAFailure | cmd/crewlet/codeimport.go:2625-2650 | nothing is pushed after a push that failed |
| Executor.AFailureCancels | cmd/crewlet/codeimport.go:2626-2650 | a push that failed is heard and ends the planning beside it, whatever that is at |
| Executor.NeitherWaitsForTheOther | cmd/crewlet/codeimport.go:2606-2668 | a planning starts and takes its turns whatever the push is at, and a push ends whatever the planning is at |
| Executor.NeverStuck | cmd/crewlet/codeimport.go:2606-2668 | until it returns the executor can go on |
| Executor.AnyOutcomeMayCome | cmd/crewlet/codeimport.go:2606-2668 | a push may fail having landed or not, and a planning in an error, at any time |
| Executor.EveryRunEnds | cmd/crewlet/codeimport.go:2606-2668 | every interleaving ends, within a planning's builds and a push for each commit and ref to import and one planning more |
| Streams.LineWriter.Write | cmd/crewlet/codeimport.go:2865-2894 | after any write, what was handed over, held and refused is what splitting everything written so far at once gives |
| Streams.LineWriter.Flush | cmd/crewlet/codeimport.go:2897-2904 | a last line without a newline is handed over once |
| Streams.ReadAll | cmd/crewlet/codeimport.go:2859-2904 | however a stream is cut into writes, the lines and the refusal are those of the whole stream |
| Streams.SplitJoins | cmd/crewlet/codeimport.go:2865-2894 | nothing is lost or invented: lines with their newlines and what is held are the stream |
| Streams.RefusesLongLinesOnly | cmd/crewlet/codeimport.go:2870-2879 | refused only where some line has more than the bound's bytes without a newline, and always then unless its reader stopped it before |
| Streams.StopsAtTheFirst | cmd/crewlet/codeimport.go:2865-2894 | the reader is asked of each line as it is handed over, and stops the reading at the first it says so of, then and only then |
| Streams.CountingWriter.Write | cmd/crewlet/codeimport.go:2502-2513 | the first 12 bytes of the stream are kept however it is cut, refused exactly past the limit, and only what is not refused is written on |
| Streams.TailBuffer.Write | cmd/crewlet/code.go:1920-1932 | a suffix of at least the smaller of the total and max, at most twice max, and compactions move no more than was written |
| BootPublish.ActivationIsLater | internal/coord/fleet.go:612-617 | an activation is at the instant asked for where that is a later millisecond than the one it replaces, and else at the first whole millisecond that is; and asking for its instant again changes nothing |
| BootPublish.ActivateLandsIff | internal/coord/fleet.go:726-790 | a request lands if and only if the pointer is at the revision, and where it names one the epoch, it was built on, or there is none where it was built on none; and is refused only where those contradict |
| BootPublish.EachRuleIff | cmd/crewlet/bootpublish.go:145-234 | by pointer and rows alone: an offer is confirmed, an offer published, a restore published, and an offer withheld, each if and only if it is due; and each publish is over exactly the activation read, or over none, at the instant due |
| BootPublish.NoPointerNeverStays | cmd/crewlet/bootpublish.go:145-190 | with no pointer a boot that has a row publishes, or confirms first |
| BootPublish.DecisionIsPinned | cmd/crewlet/bootpublish.go:145-234 | whatever the table decides lands only over the very activation (revision and epoch) it was decided on, or only on none; an offer only over what its Over accepts, a restore only over a restore of a strictly earlier instant of another revision |
| BootPublish.OfferLandsAsPlanned | cmd/crewlet/bootpublish.go:145-190 | a landed offer is at exactly the instant planned, later than what it replaces |
| BootPublish.RestoreLandsAsRememberedIff | internal/coord/fleet.go:612-617 | a restore lands at its remembered instant if and only if that is a later millisecond |
| BootFleet.TakenKeeps | cmd/crewlet/bootpublish.go:255-364 | every turn of any node, of others and of the pointer's loss keeps the fleet's invariant, crashes included |
| BootFleet.AnythingMayCome | cmd/crewlet/bootpublish.go:255-364 | a crash, another's write and the pointer's loss may come at any time, and a boot goes on from any phase at any reading of its clock |
| BootFleet.LandedPublishIsSafe | cmd/crewlet/bootpublish.go:263-364 | in every reachable fleet a landed publish replaces exactly the activation its boot read, where it may |
| BootFleet.RunIsForward | cmd/crewlet/bootpublish.go:145-234 | along any run through which the pointer exists, instants and epochs strictly increase from one activation to the next and no restore follows a choice |
| BootFleet.NextBootConfirms | cmd/crewlet/bootpublish.go:199-209 | wherever the node crashed, if its offer landed and is still in the pointer there, its next boot confirms it and publishes nothing for it, a re-activation built on itself included |
| BootFleet.TookIsConfirmed | cmd/crewlet/bootpublish.go:287-309 | the table's part of that |
| BootFleet.LandingIsRemembered | cmd/crewlet/bootpublish.go:318-364 | what an offer landed as is what its node had recorded before asking |
| BootFleet.ReconciledIsAtRest | internal/store/companyconfig.go:347-411 | a node whose reconciler recorded the pointer knows it at its instant or later, boots on it where it applied it, and booted again over it with no offer left publishes nothing |
| BootFleet.RecordedIsKnown | cmd/crewlet/bootpublish.go:346-364 | what a boot recorded of its landing: an offer is a revision from then on, and a restore is remembered at the instant it landed or later |
| BootFleet.ConfirmIsOfALanding | cmd/crewlet/bootpublish.go:199-209 | in every reachable fleet, for a choice of another revision than the fleet's row has, or built on that alone, rule 1b fires only once the pointer has held the offer since the choice; otherwise only on a planned re-activation whose plan is over another revision |
| BootFleet.ConfirmsOnlyALandingIff | cmd/crewlet/bootpublish.go:199-209 | from any fleet and a choice just made in it: in every run rule 1b fires for that choice only once the pointer has held it, if and only if the choice is such a one or the pointer holds it already |
| BootFleet.UntoldItNeedNot | cmd/crewlet/bootpublish.go:199-209 | for any other choice, a run in which the pointer moves to another revision it is built on, a boot plans it and crashes, the next confirms it though the pointer has not held it, and it is never published |
| BootFleet.ChoosingBackIsUntold | cmd/crewlet/seed.go:327-336 | choosing the fleet's revision again while an offer sent over it has landed unconfirmed is such a choice |
| BootFleet.ChoosingBackFromTheStart | cmd/crewlet/bootpublish.go:199-209 | a whole run from a one-node fleet's start that ends so |
| BootFleet.InstantsOnlyRise | internal/store/companyconfig.go:235-238 | no turn makes a node forget a revision or lowers the instant it has of one |
| BootFleet.BuiltOnWhatItKnew | internal/store/companyconfig.go:642-665 | what a choice is built on always accepts the fleet's revision the node knew |
| BootLoop.PublishBoot | cmd/crewlet/bootpublish.go:255-314 | ends, whatever turns the fleet's other nodes, writers and losses take meanwhile, their restores included; is a run of the fleet's turns; is never refused its own offer; loses no more races than others moved the pointer; what it publishes is owed on what it read, and it publishes nothing only where there is a pointer, or no row, and nothing is owed over it; where nobody else moved the pointer, it publishes if and only if an offer or a restore is owed over the one it found |
| BootLoop.PublishDecided | cmd/crewlet/bootpublish.go:318-364 | plan, compare-and-set and record are the fleet's turns in that order, and only somebody's move of the pointer since the read makes it lose |
| BootLoop.ConfirmOffer | cmd/crewlet/bootpublish.go:368-379 | the confirmation finds the offer it read, always |
| BootLoop.OnlyAMoveRaces | cmd/crewlet/bootpublish.go:331-345 | in a fleet of any size a decided publish is never refused as malformed, and races only where the pointer changed since it was read |
| BootLoop.TheirTurn | cmd/crewlet/bootpublish.go:255-314 | what the other nodes do is the same whatever the booting node is at, and leaves it there |
| BootLoop.Configs.PlanOffer | internal/store/companyconfig.go:562-566 | records base and instant on the unpublished offer alone, and nothing anywhere else |
| BootConvergence.EveryRunConverges | cmd/crewlet/bootpublish.go:211-234 | in a fleet whose memory is in order and whose nodes hold one another's revisions, every interleaving that completes leaves a revision of the greatest instant any node remembers |
| BootConvergence.ConvergesIffEveryCourseDoes | cmd/crewlet/bootpublish.go:211-314 | whatever nodes know and hold: every completed interleaving leaves a newest revision if and only if every settled sequence of boots one after another does |
| BootConvergence.ConvergesIffHeld | cmd/crewlet/bootpublish.go:211-234 | with revisions activated, each at one instant, a millisecond apart: if and only if of every chain of older nodes some newest node holds every revision |
| BootConvergence.ConvergesIffTheNewestHolds | cmd/crewlet/bootpublish.go:211-234 | with one newest node: if and only if it holds what every other node knows |
| BootConvergence.CourseRuns | cmd/crewlet/bootpublish.go:255-314 | each settled course is how some interleaving runs to its end |
| BootConvergence.RunFollows | cmd/crewlet/bootpublish.go:255-314 | each interleaving's landings are a course: each publishes over the one before, and every node done landed or declined one |
| BootConvergence.EveryRunEnds | cmd/crewlet/bootpublish.go:255-314 | every interleaving of nodes that boot without offers ends, whatever they know and hold: a node lands once at most, loses no more races than the others landed, fewer than there are nodes, and takes at most two turns for each and two more |
| BootConvergence.NeverStuck | cmd/crewlet/bootpublish.go:255-314 | until every node is done some node can go on |
| BootConvergence.WithinAMillisecondItNeedNot | internal/coord/fleet.go:612-617 | an interleaving of three nodes, two of them within a millisecond, completed on an older revision |
| BootConvergence.UnactivatedItNeedNot | cmd/crewlet/bootpublish.go:229-234 | one where a revision was never activated |
| BootConvergence.AtTwoInstantsItNeedNot | cmd/crewlet/bootpublish.go:213-227 | one where a revision is remembered at two instants |
| BootConvergence.NotHeldItNeedNot | cmd/crewlet/bootpublish.go:213-227 | one where the restored revision is not held |
| SignalHold.TakenKeeps | cmd/crewlet/interrupt.go:120-208 | every turn keeps the hold's account, of each kind, of every signal its channels took |
| SignalHold.AnythingMayCome | cmd/crewlet/interrupt.go:98-187 | a press, a node's stopping itself and the run's end may come at any time |
| SignalHold.CancelledIsHandedBack | cmd/crewlet/interrupt.go:159-171 | short of the run's end the context is cancelled only after the hand-back is over, and exactly one call is the one that handed back |
| SignalHold.EveryOtherSignalEndsTheProcess | cmd/crewlet/interrupt.go:141-155 | a hold at rest in a live process took no signal but the one that handed back, and none after cancellation, a SIGINT inherited ignored included; and it is cancelled if and only if somebody asked for the hand-back, the node that stops itself included |
| SignalHold.InternalTurnsEnd | cmd/crewlet/interrupt.go:195-208 | the hold's own turns come to rest, or end the process |
| SignalHold.PressIsLostIff | cmd/crewlet/interrupt.go:98-115 | a press is lost exactly where its channel holds one unread, and ends the process exactly where its channel is closed |
| SignalHold.EndsBare | cmd/crewlet/interrupt.go:176-187 | a run that has ended with nothing in hand cancels its context and gives both signals back: a press ends the process, and one of a SIGINT inherited ignored does nothing |
| SignalHold.NothingAfterUnhook | cmd/crewlet/interrupt.go:176-187 | the signals are let go only once the goroutine has returned |
| SignalHold.TwoPressesAtOnceAreOne | cmd/crewlet/interrupt.go:98-155 | two presses before the first is read leave a draining, living process |
| ValueCache.StoredValues.ReadLocked | cmd/crewlet/companystore.go:493-519 | one request or none, and its names, answered or not, are exactly those wanted that are listed, readable, unanswered for and neither recorded nor forgotten; a failed one changes nothing known |
| ValueCache.StoredValues.UnreadIsPending | cmd/crewlet/companystore.go:493-505 | the code's test of what to ask for is: listed, readable, and nothing has answered for it |
| ValueCache.StoredValues.AskedAgainIff | cmd/crewlet/companystore.go:493-519 | a name asked for before is asked for again by a call that wants it if and only if every request of it failed and the run has not recorded or forgot it |
| ValueCache.StoredValues.NoneTwice | cmd/crewlet/companystore.go:405-425 | a name in two requests was in a failed one first: over a store that never fails, none is |
| ValueCache.AskedTwice | cmd/crewlet/companystore.go:547-562 | a store that fails its first request is asked for one name twice |
| ValueCache.StoredValues.KnownIsResolved | cmd/crewlet/companystore.go:405-425 | over unchanging rows, what is known of a name is the run's last word or the store's row, and what is held is known unasked |
| ValueCache.StoredValues.Lookup | cmd/crewlet/companystore.go:452-481 | the store's own answer under the run's writes; one request, for that name alone, exactly where it is pending; said on notes exactly where a value was read here |
| ValueCache.StoredValues.Get | cmd/crewlet/companystore.go:547-562 | the same for a sink, with no panic on a failed read |
| ValueCache.StoredValues.Holding | cmd/crewlet/companystore.go:523-534 | the names held, each once, sorted, with no request |
| ValueCache.StoredValues.ValuesAreHeld | cmd/crewlet/companystore.go:405-425 | every value held is of a held name |
| ValueCache.Run | cmd/crewlet/companystore.go:405-578 | any sequence of reads, records and forgets answers as a store read afresh each time under the run's own writes, or says the store failed; a failed lookup, and only that, ends it; every name in any request was listed and readable, and none is asked for again once answered |
| Names.SortedIs | cmd/crewlet/companystore.go:523-534 | a sort and compaction keeps the same names, each once, in order |
| Names.OneOrder | cmd/crewlet/iam.go:1197-1203 | and the order does not depend on how they came |
| Quoting.QuotedIsOneWord | cmd/crewlet/code.go:1709-1712 | under the Shell Command Language's 2.2.1 and 2.2.2, a string quoted by either function is exactly one word, itself, if and only if it has no NUL |
| Quoting.QuotedReads | cmd/crewlet/iam.go:1213-1224 | the same anywhere in a line a word may begin |
| Quoting.CredentialHelperRunsThis | cmd/crewlet/code.go:1703-1707 | the credential helper's line runs this binary, whatever its path, with its two arguments |
| Quoting.FlagWordsParse | cmd/crewlet/iam.go:1197-1203 | the words written for a query's parameters are read by the flag package as those flags and no stray argument |
| Quoting.LineAsksTheQuery | cmd/crewlet/iam.go:1190-1205 | the line written for a query a listing sends, split and parsed, asks of each name its first value |
| Quoting.More | cmd/crewlet/iam.go:1190-1205 | the next page's line asks the first value of each name asked, with only the cursor moved, whatever order the query's map is walked in; a query of one value each is asked again whole |

## Left out

- git itself: packs, revision walks and transport are functions of the state; an error from a git
  call, or a cancelled context, is a plan that ends (`PlanError`), and `estimate`'s memo is only an
  answer kept.
- RemoteRefs.Remote.NegativesNow: the negatives are a set, not the sorted lines; and
  `importStep.news`'s order, which only has to match git's own, is not modelled.
- `oidList` and the sort with a binary search in `firstDescendant` are a sequence and a lookup;
  `importStep` and the walks are values, so a step settled is returned rather than updated.
- Planner.ImportPlanner.Settle: ratios are reals and sizes unbounded; float64 rounding and int64
  overflow are not modelled.
- FirstFound.EveryScheduleFindsTheFirst: the bound on workers is dropped, which only adds
  interleavings.
- `rest`, `describe`, `tooLarge` and all wording; `inspect`, `listSource`, `checkPushAccess`; the
  reading of a push's porcelain lines, whose outcome is landed or not, reported or not.
- `countingWriter.objects`, `boundedBuffer` and `tailBuffer.String`: single-step members.
- BootFleet.TakenKeeps: the reconciler is taken only as recording and serving what the pointer holds;
  sealing, payloads, origins and the nudge to peers are left out; the epoch is minted from the history
  of activations, the pointer's loss included.
- BootLoop.PublishBoot: the store's writes succeed; one that fails ends the boot there, as a crash
  does in BootFleet. The others' turns are a finite script, so an endless stream of them is left out.
- BootConvergence: the nodes that boot have no offers, and nobody else writes while they do.
- The SIGHUP hold, which nothing reads.
- ValueCache.Run: the lock is not modelled, since every method holds it throughout.
- Quoting.More: `Sendable` and `Sent` say which queries a listing sends. The flags that narrow
  nothing (`-config`, `-api`, `-json`) are not on the line; a number is its decimal digits, and white
  space is the four ASCII characters.
- `keyedwrite.go`, `listeners.go`, the capacity windows, the state log, the HTTP clients and the
  commands that print them.
