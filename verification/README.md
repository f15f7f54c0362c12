# A verified model of TamerLite's planning core

TamerLite is a temporal planner. A front end grounds and encodes a planning
problem, a heuristic search over *events* (the start, the end and the
intermediate happenings of actions) finds a path, and a simple temporal network
turns the path into a timed plan. The model covers the search space and its
incremental temporal network, plan extraction, the pruning of visited states, the
heuristics, the novelty measure, the expression machinery, the search drivers and
the relevance slicing of the encoder. Times are whole ticks and numbers are exact.

What it proves, in one paragraph: the incremental network decides satisfiability
exactly and keeps the earliest times; two kinds of edges per step are enough to
order every pair of events that interfere; every path the search finds has a
schedule, and its network allows exactly the schedules the problem does; the plan
read from the looser plan network is the earliest of all plans and executes in the
order of its times with every condition, duration and effect evaluating as the search
saw it; a state pruned as a duplicate loses
no continuation; hadd, hff and hmax compute the solution of the cost equations of
the delete relaxation, whatever order the queue pops in, and they call a
state a dead end exactly when no sequence of its events, deleting nothing, reaches the
goal; `HMaxExplicit` computes exactly the number of rounds the events of the problem
need; the sparse novelty evaluation answers what the history of its partition says; the expression
compiler and simplifier preserve meaning; relevance slicing preserves plans; and the
search drivers answer that there is no plan only when there is none, and give up only
when their limit is used up.

Pure code of the planner is modelled by functions and lemmas. Code that updates
state (the network, the search state, the fix-point buffers, the visited states, the
novelty tables, the array passes) is modelled by classes and by methods with loops,
each proved against a specification function whose properties the lemmas state.

| area | files |
|---|---|
| temporal network | `Stn` |
| search space | `Expr`, `Temporal`, `SearchSpace`, `TwoEdges`, `ActiveConditions`, `ReachedStates` |
| plan extraction | `PlanNetwork`, `BuildPlan`, `ScheduledPlan`, `PlanCorrect`, `Deordering`, `DurativeDeordering`, `DurativeExact`, `DurativeRace`, `PlanExact` |
| visited states | `Dominance`, `Makespan`, `VisitedStates` |
| delete relaxation | `Costs`, `CostExpressions`, `Relaxation`, `Fixpoint`, `RelaxedPlan`, `RelaxationBound`, `LinearPolynomials`, `HeuristicConditions`, `RelaxedTasks`, `RelaxedLeaves`, `RelaxedTruth`, `RelaxedEvents`, `DeleteRelaxation`, `NumericExact`, `RelaxedReach`, `RelaxedExact`, `RelaxationHeuristic` |
| `HMaxExplicit` | `ValueLayers`, `Combinations`, `HMaxExplicit`, `RelaxedRuns`, `GraphExact` |
| novelty | `Sdist`, `NoveltyTables`, `NoveltyHistory`, `Novelty` |
| expressions | `Postfix`, `Simplify`, `SimplifyArrays` |
| search drivers | `Search`, `SearchComplete` |
| relevance slicing | `Relevance`, `RelevantActions` |
| shared | `Options`, `Collections` |

## Model

| member | source | states |
|---|---|---|
| Stn.DeltaStn.Add | crates/rustamer-base/src/stn.rs:84-101 | adding an edge keeps the network exact: the constraints asked for so far are satisfiable if and only if it says so, and its distances are then their earliest times, although subsumed edges are dropped and propagation is incremental |
| Stn.DeltaStn.Check | crates/rustamer-base/src/stn.rs:103-105 | the answer is whether any schedule satisfies everything ever added |
| Stn.DeltaStn.Consequences | crates/rustamer-base/src/stn.rs:84-121 | a satisfiable network holds the earliest schedule of everything added, over exactly the timepoints mentioned |
| Stn.DeltaStn.GetModelValue | crates/rustamer-base/src/stn.rs:107-109 | a timepoint has a time if and only if it is known, the negated distance |
| Stn.DeltaStn.IsSubsumed | crates/rustamer-base/src/stn.rs:111-121 | an edge is skipped only when a stored one between the same points is at least as tight |
| Stn.DeltaStn.IncCheck | crates/rustamer-base/src/stn.rs:128-158 | from distances closed but for the new edge, propagation terminates, only lowers distances, closes them all when it succeeds, and fails only if no schedule exists |
| SearchSpace.MutexChecker.Check | crates/rustamer-base/src/search_space.rs:118-138 | the remembered answer is the mutex relation: one event writes what the other reads or writes |
| SearchSpace.PrecedenceChecker.Check | crates/rustamer-base/src/search_space.rs:153-175 | the remembered answer is whether the first event matters to a durative condition the second opens or closes |
| Temporal.MutexExact | crates/rustamer-base/src/search_space.rs:118-138 | two events are mutex if and only if they are of one action or one writes a fluent that the other reads or writes; the duration bounds are read by the event that opens |
| Temporal.PrecedenceExact | crates/rustamer-base/src/search_space.rs:153-175 | and the first comes before the second if and only if they are of one action, the first writes what a condition the second opens reads, or the second writes what a condition the first closes reads |
| SearchSpace.AddPastEdges | crates/rustamer-base/src/search_space.rs:641-661 | walking the path backwards adds exactly an edge per mutex event down to the last one, epsilon apart for the mutex ones |
| SearchSpace.AddOpeningConstraints | crates/rustamer-base/src/search_space.rs:740-803 | opening an action adds exactly its duration, its rigid event offsets and its ties to the plan's start and end |
| Temporal.BoundsExact | crates/rustamer-base/src/search_space.rs:740-775 | an action may last exactly what its interval says of the state it opens in, epsilon inside an open end, and nothing without a duration; opening fails on durations only if an end is not a whole number of ticks |
| Temporal.OpeningExact | crates/rustamer-base/src/search_space.rs:740-803 | the opening constraints allow exactly the times at which the action lasts so, has its events at their delays and lies within the plan |
| SearchSpace.SearchState.ExpandEvent | crates/rustamer-base/src/search_space.rs:572-685 | firing an event succeeds exactly when its condition, the conditions in force and the network allow it, yields exactly the state the transition system defines, and leaves the parent untouched |
| SearchSpace.GetSuccessorState | crates/rustamer-base/src/search_space.rs:449-540 | a child exists exactly when the step is possible, is a fresh state with a satisfiable network, and shares nothing mutable with its parent |
| SearchSpace.InitialState | crates/rustamer-base/src/search_space.rs:909-955 | the initial state exists exactly when the timed action can be opened at time 0, and is that state |
| ActiveConditions.ReachedSafe | crates/rustamer-base/src/search_space.rs:572-685 | in every reached state all durative conditions in force hold |
| ActiveConditions.FireExact | crates/rustamer-base/src/search_space.rs:557-640 | the checks before and after an event fires, which skip what cannot have changed, together are the plain ones: its condition holds before, its effects are defined, and everything active holds after |
| ActiveConditions.ActiveIsOpenedMinusClosed | crates/rustamer-base/src/search_space.rs:572-640 | the multiset of active conditions is what the path opened minus what it closed |
| ActiveConditions.SameTodoSameActive | crates/rustamer-base/src/search.rs:431-452 | reached states with the same events pending have the same active conditions, so comparing states may ignore them |
| TwoEdges.TwoEdgesSuffice | crates/rustamer-base/src/search_space.rs:641-661 | stopping at the last mutex event loses nothing: a schedule satisfies the network if and only if it also orders every pair of mutex events of the path |
| BuildPlan.PlanEntailed | crates/rustamer-base/src/search_space.rs:1015-1136 | every schedule of the search state satisfies the looser plan network |
| BuildPlan.ScheduleIsPlan | crates/rustamer-base/src/search_space.rs:1015-1136 | every schedule of the plan network is a plan: mutex events are epsilon apart in path order, durations lie within the bounds as the search evaluated them, and events sit at their offsets |
| BuildPlan.PlanNoLater | crates/rustamer-base/src/search_space.rs:1015-1136 | the extracted plan places every timepoint no later than any schedule of the search network |
| PlanExact.SearchDurations | crates/rustamer-base/src/search_space.rs:740-803 | in every schedule of the search an action lasts as its interval says in the state it was opened in |
| PlanExact.PlanDurations | crates/rustamer-base/src/search_space.rs:826-868 | so does the duration written in the plan |
| PlanExact.PlanExactly | crates/rustamer-base/src/search_space.rs:1015-1136 | the plan network of a complete path has exactly the plans for its schedules: mutex events epsilon apart, events that matter to durative conditions in order, actions lasting as they should, and no further constraint |
| PlanExact.PlanIsEarliest | crates/rustamer-base/src/search_space.rs:1015-1136 | the plan extracted is the earliest of all plans of the path |
| PlanExact.SearchExactly | crates/rustamer-base/src/search_space.rs:572-803 | the search network of a complete path has exactly the schedules that keep the order of the path, the gaps, the durations and the deadline |
| ScheduledPlan.Replay | crates/rustamer-base/src/search_space.rs:1015-1136 | replaying a found path over fresh successor states collects exactly the plan network, and never meets an inapplicable step |
| ScheduledPlan.PlanSatisfiable | crates/rustamer-base/src/search_space.rs:1015-1136 | a found path always has a plan |
| ScheduledPlan.MakePlan | crates/rustamer-base/src/search_space.rs:1015-1136 | the result is a plan with the earliest times, listing every action opened exactly once with its start and, if durative, its duration |
| Deordering.Deorder | crates/rustamer-base/src/search_space.rs:1015-1136 | any reordering that keeps mutex pairs in order executes, ends with the same values and shows each event the values it reads |
| Deordering.DeorderedEvaluates | crates/rustamer-base/src/search_space.rs:282-329 | every condition, duration bound and effect value of an event evaluates in the reordering as it did in the path |
| DurativeDeordering.DurativeHolds | crates/rustamer-base/src/search_space.rs:153-175 | a durative condition whose writers are mutex survives every order the plan allows |
| DurativeExact.DurativeExactly | crates/rustamer-base/src/search_space.rs:153-175 | a durative condition survives every order the plan allows if and only if it holds after each set of span events that is closed under the order the plan keeps |
| DurativeExact.OnlyWritersCount | crates/rustamer-base/src/search_space.rs:153-175 | for that test only which writers of the condition have fired matters |
| DurativeExact.WritersOrderedSuffice | crates/rustamer-base/src/search_space.rs:153-175 | writers that are pairwise mutex meet the exact condition |
| DurativeRace.RacingFound | crates/rustamer-base/src/search_space.rs:1015-1136 | in a concrete problem the search reaches the goal by a path on which two writers that are not mutex happen in one order |
| DurativeRace.KeptOnThePath | crates/rustamer-base/src/search_space.rs:572-685 | along that path the durative condition holds throughout its span |
| DurativeRace.PlanCanBreakDurative | crates/rustamer-base/src/search_space.rs:1015-1136 | in the earliest plan of that path, in every order that follows its times, the condition fails within its span |
| PlanCorrect.PlanExecutes | crates/rustamer-base/src/search_space.rs:1015-1136 | fired in any order that follows the plan's times, however ties fall, the plan executes, ends with the values the search found, and shows each event the values it reads |
| PlanCorrect.PlanKeepsDurative | crates/rustamer-base/src/search_space.rs:153-175 | and it keeps every durative condition that meets the exact condition |
| PlanCorrect.SpanHolds | crates/rustamer-base/src/search_space.rs:572-685 | on the path of the search itself, a condition in force holds after every event of its span |
| PlanCorrect.MeetsDeadline | crates/rustamer-base/src/search_space.rs:740-803 | the last event of every action in the plan comes at least epsilon before the deadline |
| Dominance.SimilarStep | crates/rustamer-base/src/search.rs:473-475 | whatever step the later of two states can take the earlier one can too, and every schedule of the later child carries over, only shifted |
| Dominance.SimilarRun | crates/rustamer-base/src/search.rs:473-475 | so for every run |
| Makespan.MakespanIsLeast | crates/rustamer-base/src/search_space.rs:887-900 | the makespan compared is the least distance of the last event from the plan's start over all schedules |
| Makespan.StateDependentDurations | crates/rustamer-base/src/search_space.rs:296-304 | non-negative durations are asked for only where actions open: a duration read from a fluent that would be negative elsewhere is allowed |
| VisitedStates.MakespanOf | crates/rustamer-base/src/search_space.rs:887-900 | the makespan read from the network is that of the reached state |
| VisitedStates.RedundantLosesNothing | crates/rustamer-base/src/search.rs:388-416 | every continuation of a state dropped as redundant is possible from the recorded one, ends in the same values and pending events, and any schedule of it carries over, without delay under dominance |
| VisitedStates.DroppedExactly | crates/rustamer-base/src/search.rs:377-416 | the states dropped are: without actions in progress and deadline, all seen before; without actions in progress under a deadline or with only the timed one, those seen earlier by epsilon; else none; under weak equality all seen before |
| VisitedStates.VisitedStates.IsRedundant | crates/rustamer-base/src/search.rs:516-531 | answers whether some recorded state makes this one redundant under the rule for its pending events |
| VisitedStates.VisitedStates.Insert | crates/rustamer-base/src/search.rs:533-556 | records exactly the states that are not redundant |
| CostExpressions.ExpressionCost | crates/rustamer-base/src/heuristics.rs:1554-1597 | the postfix stack machine computes the cost of the tree: maximum or sum over AND, minimum over OR |
| Relaxation.SolutionUnique | crates/rustamer-base/src/heuristics.rs:2461-2495 | the cost equations of the relaxation have at most one solution |
| Relaxation.SolutionExists | crates/rustamer-base/src/heuristics.rs:2461-2495 | and they have one |
| Fixpoint.FixpointBuffers.Pop | crates/rustamer-base/src/heuristics.rs:1684-1719 | pops some cheapest entry; nothing more is known about ties |
| Fixpoint.FixpointBuffers.UpdateConditionCost | crates/rustamer-base/src/heuristics.rs:2501-2541 | the condition takes the lower cost and the achiever preferred on ties; every operator that is open or may reopen ends with its true precondition cost and lazy counter, and one that is closed is opened only if it got cheaper |
| Fixpoint.FixpointBuffers.Expand | crates/rustamer-base/src/heuristics.rs:2461-2495 | makes every offer of the operator closed, and nothing else, keeping costs measured against the solution |
| Fixpoint.FixpointBuffers.Propagate | crates/rustamer-base/src/heuristics.rs:2345-2366 | the loop terminates, even when operators reopen, with every offer made, at the goal or with the heap empty |
| Fixpoint.FixpointBuffers.Evaluate | crates/rustamer-base/src/heuristics.rs:2311-2386 | stopping at the goal gives exactly the goal's cost in the unique solution; draining with reopening gives a value no larger, infinite or zero exactly when that cost is |
| Fixpoint.FixpointBuffers.ReachableOperators | crates/rustamer-base/src/heuristics.rs:2367-2373 | draining in any order finds exactly the operators with a finite cost in the solution |
| RelaxedPlan.SupportingConditions | crates/rustamer-base/src/heuristics.rs:1601-1642 | collects exactly the leaves of the cheapest support, the first cheapest branch of each OR |
| RelaxedPlan.ReachedByIsLargest | crates/rustamer-base/src/heuristics.rs:2501-2541 | the recorded achiever is the largest operator attaining the condition's cost, whatever the order of pops |
| RelaxedPlan.EvaluateHff | crates/rustamer-base/src/heuristics.rs:2378-2417 | hff's value is a function of the equations' solution alone: the events left plus those of the actions chosen by backchaining |
| RelaxationBound.GoalAffordable | crates/rustamer-base/src/heuristics.rs:2311-2386 | a run of steps that the relaxation can imitate has a finite goal cost, zero if there is nothing to do, at most its length for hmax without numeric steps |
| RelaxedReach.FiniteIsReached | crates/rustamer-base/src/heuristics.rs:2311-2386 | an operator costs something finite if and only if some sequence of operators, deleting nothing, makes its precondition true |
| LinearPolynomials.PolynomialMeans | crates/rustamer-base/src/heuristics.rs:1154-1237 | the polynomial evaluates to what the expression does, and a product or quotient that is not linear gets none |
| LinearPolynomials.IncreaseAdds | crates/rustamer-base/src/heuristics.rs:919-946 | an effect classified as a constant increase adds that constant to its fluent in every state |
| LinearPolynomials.LinearMeans | crates/rustamer-base/src/heuristics.rs:1105-1130 | the weights of a simple numeric condition decide it: it holds exactly where the weighted sum is below, or at most, zero |
| LinearPolynomials.RepetitionsPositive | crates/rustamer-base/src/heuristics.rs:1376-1410 | an operator said to achieve an unmet condition needs a defined, positive number of repetitions |
| LinearPolynomials.LoweringAchieves | crates/rustamer-base/src/heuristics.rs:1290-1311 | an operator whose effects lower the weighted sum in any state is one said to achieve the condition |
| NumericExact.AchievesExact | crates/rustamer-base/src/heuristics.rs:1290-1311 | an operator is said to achieve a condition if and only if, from some values, its effects lower the weighted sum |
| NumericExact.RepetitionsExact | crates/rustamer-base/src/heuristics.rs:1376-1410 | where effects are increases, the repetitions are the fewest that bring the level down to zero, otherwise one |
| NumericExact.RepetitionsMeet | crates/rustamer-base/src/heuristics.rs:1376-1410 | applied as often, the condition is met up to its margin, and applied once less it is not |
| NumericExact.AffineIsLinear | crates/rustamer-base/src/heuristics.rs:1154-1237 | every affine expression gets a polynomial, and one made of constants a constant |
| NumericExact.ComparisonIsLinear | crates/rustamer-base/src/heuristics.rs:1105-1130 | every comparison of affine expressions is a simple numeric condition |
| NumericExact.IncreaseIsOne | crates/rustamer-base/src/heuristics.rs:919-946 | adding or taking away an amount made of constants is a constant increase, and giving a number an assignment |
| HeuristicConditions.ConvertMeans | crates/rustamer-base/src/heuristics.rs:391-443 | the AND/OR tree of a condition is met exactly where the condition is true |
| HeuristicConditions.NumericMeans | crates/rustamer-base/src/heuristics.rs:575-679 | the rewriting of negated and equality comparisons of numbers keeps their meaning |
| HeuristicConditions.ObjectMeans | crates/rustamer-base/src/heuristics.rs:736-900 | so do the disjunctions over the domain that stand for object equality and its negation |
| HeuristicConditions.LeafMeans | crates/rustamer-base/src/heuristics.rs:519-549 | every leaf of the encoder's normal form is rewritten to a condition met in the same states |
| HeuristicConditions.SimplifyMeans | crates/rustamer-base/src/heuristics.rs:468-500 | and so is a whole condition, in both directions |
| RelaxedLeaves.InternedKnown | crates/rustamer-base/src/heuristics.rs:1891-2016 | every leaf left after the rewriting is of a kind the cost table can initialise and lower, and is interned |
| RelaxedTruth.TreeMeets | crates/rustamer-base/src/heuristics.rs:1498-1531 | a tree of condition numbers is true of the numbers of the true leaves exactly where the condition is met |
| RelaxedTruth.TaskValid | crates/rustamer-base/src/heuristics.rs:1858-2236 | the task built from an encoded problem and a state meets everything the fix-point relies on |
| RelaxedEvents.FollowsSteps | crates/rustamer-base/src/heuristics.rs:1891-2016 | firing any event, with any effects on booleans, objects and numbers, makes true only conditions its operator offers, and only if the operator's precondition is met |
| RelaxedExact.PreconditionExact | crates/rustamer-base/src/heuristics.rs:340-374 | in a state where its conditions evaluate, the precondition of an operator is met if and only if the condition of its event and those it closes hold and the event before it was the last to fire |
| RelaxedExact.OperandsOnce | crates/rustamer-base/src/heuristics.rs:308-323 | the precondition asks for each of these conditions exactly once |
| RelaxedExact.PreparedExact | crates/rustamer-base/src/heuristics.rs:391-549 | converting and rewriting keep which conditions may be met after a sequence of events |
| RelaxedExact.FiringExactly | crates/rustamer-base/src/heuristics.rs:340-374 | after such a sequence an operator applies if and only if its event may fire: its conditions may hold and the event before it has fired |
| RelaxedExact.EffectLeavesExact | crates/rustamer-base/src/heuristics.rs:1891-2016 | an effect offers exactly the conditions that some value of it makes true |
| RelaxedExact.ReachesExact | crates/rustamer-base/src/heuristics.rs:2461-2495 | an operator reaches exactly the conditions its event may make true: its flag, by the value of an effect, or by lowering numbers |
| RelaxedExact.InitialExact | crates/rustamer-base/src/heuristics.rs:2424-2457 | a condition is reached at first if and only if it holds or is only estimated, and costs nothing if and only if it holds |
| RelaxedExact.RepetitionsOfExact | crates/rustamer-base/src/heuristics.rs:1376-1410 | the repetitions used in a state are the fewest for the condition and its margin |
| RelaxedExact.ComparisonsAreSimple | crates/rustamer-base/src/heuristics.rs:575-679 | a comparison of affine expressions, or its negation, is rewritten to simple conditions only |
| RelaxedExact.MarginExact | crates/rustamer-base/src/heuristics.rs:2060-2085 | the margin of strict conditions is half of the smallest amount by which an operator lowers a condition |
| RelaxedExact.SequenceExact | crates/rustamer-base/src/heuristics.rs:1891-2016 | sequences of operators of the task are sequences of events of the problem, deleting nothing |
| RelaxedExact.OperatorExactly | crates/rustamer-base/src/heuristics.rs:2239-2266 | an operator costs something finite if and only if some such sequence lets its event fire |
| RelaxedExact.GoalExactly | crates/rustamer-base/src/heuristics.rs:2311-2386 | the goal does if and only if some such sequence reaches it, with every action complete but for hff |
| DeleteRelaxation.RunIsRelaxed | crates/rustamer-base/src/heuristics.rs:1891-2016 | a run of events is a run of the relaxed task |
| DeleteRelaxation.RunBoundsGoal | crates/rustamer-base/src/heuristics.rs:2311-2386 | an event run ending at the goal with nothing pending makes the relaxed goal affordable |
| DeleteRelaxation.RunFollows | crates/rustamer-base/src/search_space.rs:449-540 | every run of the search from a reached state is such an event run, one event per step |
| DeleteRelaxation.RelaxationIsSafe | crates/rustamer-base/src/heuristics.rs:2311-2386 | from every reached state that has a run to the goal the relaxed goal cost is finite, is 0 at a goal state, and is for hmax without numeric conditions at most the number of events left |
| RelaxationHeuristic.ValueIsSafe | crates/rustamer-base/src/heuristics.rs:2311-2417 | the same for the values of hadd, hff and hmax |
| RelaxationHeuristic.ValueExact | crates/rustamer-base/src/heuristics.rs:2311-2417 | the value is missing if and only if no sequence of events, deleting nothing, reaches the goal |
| RelaxationHeuristic.EventsCounted | crates/rustamer-base/src/heuristics.rs:2378-2417 | what hff counts per action: a run that completes every action takes as many steps of an action as it has events left, and as many as it has events each time it is opened |
| RelaxationHeuristic.ReachedExact | crates/rustamer-base/src/heuristics.rs:2239-2266 | an action is reached if and only if all its events that are not known false can fire in such sequences |
| RelaxationHeuristic.DeleteRelaxationHeuristic.constructor | crates/rustamer-base/src/heuristics.rs:1858-2236 | the operators, conditions and leaves built action by action are those the task is defined by |
| RelaxationHeuristic.DeleteRelaxationHeuristic.InitConditionCosts | crates/rustamer-base/src/heuristics.rs:2424-2457 | every condition that holds costs 0, an unmet complex or interpreted one 1, any other is unreached; raises exactly when a condition does |
| RelaxationHeuristic.DeleteRelaxationHeuristic.DrainHeap | crates/rustamer-base/src/heuristics.rs:1858-2236 | the heap is drained exactly for hmax with a numeric condition that several operators achieve |
| RelaxationHeuristic.DeleteRelaxationHeuristic.EvalTask | crates/rustamer-base/src/heuristics.rs:2311-2417 | the answer is the value of the relaxation, or for a drained hmax at most it, missing and zero in the same states |
| RelaxationHeuristic.DeleteRelaxationHeuristic.Eval | crates/rustamer-base/src/heuristics.rs:2268-2417 | None is answered if and only if no sequence of events, deleting nothing, reaches the goal, so no run does; a goal state gets 0, and hmax without numeric conditions never exceeds the events left |
| RelaxationHeuristic.DeleteRelaxationHeuristic.ReachableActions | crates/rustamer-base/src/heuristics.rs:2239-2266 | exactly the actions whose events, but for those known false, can all fire in some sequence deleting nothing |
| Combinations.Advance | crates/rustamer-base/src/heuristics.rs:2624-2664 | the mixed-radix step goes to the next combination in order, and fails exactly at the last |
| Combinations.ForEachCombination | crates/rustamer-base/src/heuristics.rs:2624-2664 | visits every combination of the ranges exactly once, stops early only on a true value, and raises only if some combination does |
| Combinations.RoundsSplit | crates/rustamer-base/src/heuristics.rs:2677-2736 | the boxes of one semi-naive round split the new combinations by the first position with a new value |
| Combinations.ForEachNewValue | crates/rustamer-base/src/heuristics.rs:2677-2736 | visits exactly once every combination not seen before, and none that was |
| Combinations.TuplesCover | crates/rustamer-base/src/heuristics.rs:2624-2664 | the values found over index combinations are those the expression can take over the value sets |
| HMaxExplicit.ExpCanBeTrue | crates/rustamer-base/src/heuristics.rs:2898-2927 | the incremental, remembered answer is whether the expression can be true over the present value sets |
| HMaxExplicit.CanBeTrue | crates/rustamer-base/src/heuristics.rs:2929-2950 | the same for all conditions of an operator |
| HMaxExplicit.ProcessOperator | crates/rustamer-base/src/heuristics.rs:2972-3101 | after skipping what no changed fluent affects, an applicable operator has still contributed every value its effects can take |
| HMaxExplicit.EvaluateOperators | crates/rustamer-base/src/heuristics.rs:2972-3101 | a round finds exactly the new values, or some expression raises |
| HMaxExplicit.LayerNext | crates/rustamer-base/src/heuristics.rs:2972-3101 | merging what a round found gives the next value layer |
| HMaxExplicit.Heuristic.Round | crates/rustamer-base/src/heuristics.rs:2972-3101 | a round answers the depth exactly when the goal can be true in the layer, and a round without change means it never will |
| HMaxExplicit.Heuristic.Evaluate | crates/rustamer-base/src/heuristics.rs:2972-3101 | the semi-naive rounds return the first layer where the goal can be true, None, given a fluent, only if there is no such layer, and an error only if some layer raises |
| HMaxExplicit.NoFluentsExact | crates/rustamer-base/src/heuristics.rs:3006-3022 | without any fluent there is no layer for the goal if and only if it cannot hold in the first |
| HMaxExplicit.NoFluentsCanFail | crates/rustamer-base/src/heuristics.rs:3006-3022 | a goal that holds without any fluent, for which the loop nevertheless ends at once |
| RelaxedRuns.GraphIsWellFormed | crates/rustamer-base/src/heuristics.rs:2753-2870 | the graph built from a problem meets what the rounds rely on |
| GraphExact.OperatorExact | crates/rustamer-base/src/heuristics.rs:2784-2791 | in the values of a state an operator of the graph applies if and only if the condition of its event and those it closes hold and the event before it was the last to fire |
| GraphExact.EffectsExact | crates/rustamer-base/src/heuristics.rs:2784-2810 | it gives the fluents exactly what the event gives them, and sets the flag of the event |
| GraphExact.GoalExact | crates/rustamer-base/src/heuristics.rs:2810-2870 | all goals of the graph hold in the values of a state if and only if it is a goal state |
| GraphExact.LayersExact | crates/rustamer-base/src/heuristics.rs:2972-3101 | a layer of the graph holds exactly the values, and the events fired, that the problem itself allows in as many rounds |
| GraphExact.GraphGoalExact | crates/rustamer-base/src/heuristics.rs:2972-3101 | the goal can be taken in a layer if and only if the events of the problem make it possible in as many rounds |
| GraphExact.DepthExact | crates/rustamer-base/src/heuristics.rs:2972-3101 | the depth answered is the number of rounds they need |
| RelaxedRuns.RunsAreLayered | crates/rustamer-base/src/heuristics.rs:2753-2870 | a run of the search from a reached state to the goal shows the goal possible in the layer of its length |
| RelaxedRuns.DepthIsAdmissible | crates/rustamer-base/src/heuristics.rs:2972-3101 | the answer never exceeds the events left |
| Sdist.ComputeSdistExact | crates/rustamer-base/src/novelty.rs:237-260 | machine-integer and fraction paths give the same exact signed distance and satisfaction |
| Sdist.CompareExact | crates/rustamer-base/src/novelty.rs:163-190 | mixed representations compare by value |
| NoveltyHistory.FeatureComputed | crates/rustamer-base/src/novelty.rs:237-260 | the feature of a numeric subgoal is the distance and verdict computed from its operands, in either representation |
| NoveltyHistory.FeatureExact | crates/rustamer-base/src/novelty.rs:237-260 | the distance is minus the gap between the operands: l - r, or its absolute value for an equality |
| NoveltyHistory.ProgressExact | crates/rustamer-base/src/novelty.rs:584-846 | against the parent an unmet subgoal improves if and only if its gap got smaller, and one newly met always did |
| NoveltyHistory.ViewExact | crates/rustamer-base/src/novelty.rs:584-846 | the five classes a subgoal is sorted into are: newly met, come closer, met, still met, unmet |
| NoveltyHistory.BeatsExact | crates/rustamer-base/src/novelty.rs:584-846 | a record is beaten if and only if every earlier offer for some key is |
| NoveltyHistory.ClassExact | crates/rustamer-base/src/novelty.rs:584-846 | the tables of a history give every further child the class that the history says |
| NoveltyTables.PassB | crates/rustamer-base/src/novelty.rs:584-846 | a state is novel in the first table exactly when it satisfies a subgoal never satisfied in its partition |
| NoveltyTables.PassRecords | crates/rustamer-base/src/novelty.rs:584-846 | records keep the best distance per unsatisfied subgoal, and report exactly a beaten record |
| NoveltyTables.PassC1 | crates/rustamer-base/src/novelty.rs:584-846 | the pair table gains all pairs with a newly satisfied subgoal, and reports exactly a new pair |
| NoveltyTables.PassC1b | crates/rustamer-base/src/novelty.rs:584-846 | conditional records for newly satisfied subgoals are those of the dense definition |
| NoveltyTables.PassC2 | crates/rustamer-base/src/novelty.rs:584-846 | so are those of subgoals that stayed satisfied against the improved ones |
| Novelty.NoProgress | crates/rustamer-base/src/novelty.rs:584-846 | without newly satisfied or improved subgoals the dense definition changes no table and answers 3, so stopping at once is right |
| Novelty.MergeSorts | crates/rustamer-base/src/novelty.rs:584-846 | the dirty subgoals together with the parent's snapshot of the rest classify every subgoal |
| Novelty.NumericNovelty.Start | crates/rustamer-base/src/novelty.rs:550-562 | starting a search forgets every partition and its history |
| Novelty.NumericNovelty.BeginExpansion | crates/rustamer-base/src/novelty.rs:574-582 | a new generation invalidates the snapshot and keeps tables and history |
| Novelty.NumericNovelty.EnsureSnapshot | crates/rustamer-base/src/novelty.rs:900-934 | the snapshot, made once per expansion, holds the parent's features; it fails only if a subgoal of the parent raises |
| Novelty.NumericNovelty.Eval | crates/rustamer-base/src/novelty.rs:584-846 | over all children of the partition evaluated since the start: 1 if and only if a subgoal is met that none newly met or comes closer than in any that came closer, 2 if and only if only a pair does, else 3; the sparse evaluation computes it, or some subgoal raises |
| Postfix.ShiftFlat | crates/rustamer-base/src/expressions_utils.rs:31-116 | shifting a contiguous array moves it as a whole |
| Postfix.RunFlat | crates/rustamer-base/src/expressions_utils.rs:662-731 | running the postfix array of a tree leaves the tree's value last, and raises exactly when the tree does |
| Postfix.Evaluate | crates/rustamer-base/src/expressions_utils.rs:649-731 | the value of an array is the last one the run leaves |
| Postfix.EvaluateFlat | crates/rustamer-base/src/expressions_utils.rs:649-731 | so evaluating the array of a tree evaluates the tree |
| Postfix.WalkMany | src/tamerlite/converter.py:167-181 | concatenating shifted operand arrays under an operator gives the array of the combined tree |
| Postfix.WalkPair | src/tamerlite/converter.py:251-290 | the same for the binary operators |
| Postfix.Convert | src/tamerlite/converter.py:162-290 | converting an expression gives the contiguous array of its tree |
| Postfix.TermMeans | src/tamerlite/converter.py:167-290 | that tree evaluates to what the expression does, with its comparisons possibly swapped and lone operands unwrapped, provided lone operands of And and Or are boolean |
| Postfix.SingleExact | src/tamerlite/converter.py:167-181 | unwrapping a lone operand of And or Or keeps the value if and only if the operand is boolean |
| Postfix.SingleCanFail | src/tamerlite/converter.py:167-181 | a lone number shows the difference |
| Simplify.FoldConnectiveExact | crates/rustamer-base/src/expressions_utils.rs:337-636 | folding And or Or keeps the value if and only if an operand is the absorbing literal, or not exactly one operand stays open, or the open one is boolean |
| Simplify.FoldMeans | crates/rustamer-base/src/expressions_utils.rs:337-636 | under that condition every operator folds to a term of the same value, in every state that agrees with what is known |
| Simplify.SimplifyMeans | crates/rustamer-base/src/expressions_utils.rs:337-636 | simplifying a whole term keeps its value in every such state |
| Simplify.BooleanCollapsible | crates/rustamer-base/src/expressions_utils.rs:337-636 | boolean operands everywhere meet the exact condition at every node |
| Simplify.SimplifyCanFail | crates/rustamer-base/src/expressions_utils.rs:337-636 | a conjunction of true and a number shows the difference |
| SimplifyArrays.FoldConnectiveArgs | crates/rustamer-base/src/expressions_utils.rs:337-636 | the loop over operand positions folds as the connective is defined to |
| SimplifyArrays.FoldNumericArgs | crates/rustamer-base/src/expressions_utils.rs:262-320 | the accumulator gathers the constants and leaves the open operands as the sum or product is defined to |
| SimplifyArrays.PassFlat | crates/rustamer-base/src/expressions_utils.rs:337-636 | the in-place pass over an array leaves, at the root, a node standing for the simplified tree |
| SimplifyArrays.Rebuild | crates/rustamer-base/src/expressions_utils.rs:337-636 | the depth-first rebuilding turns the scattered nodes into the contiguous array of that tree |
| SimplifyArrays.SimplifyArray | crates/rustamer-base/src/expressions_utils.rs:337-636 | so the two passes compute the array of the simplified tree, and raise exactly when its simplification does |
| SimplifyArrays.SimplifyAndEvaluate | crates/rustamer-base/src/expressions_utils.rs:337-731 | evaluating the simplified array gives what evaluating the original one would |
| SimplifyArrays.ConvertedBare | src/tamerlite/converter.py:162-290 | converted arrays have the shape simplification expects |
| Search.PrioritySearch | crates/rustamer-base/src/search.rs:885-998 | whatever order the open list pops in, and although states are pruned and dead ends dropped: a found state is a reachable goal; no plan is answered only if no goal is reachable; the search gives up only after expanding exactly the limit of states, each generated before and none a goal, with another left, so never with a limit above the states of a finite space |
| Search.FiniteSpace | crates/rustamer-base/src/search.rs:53-63 | without repeats the limit is used up only by as many different states that can be reached and are not goals |
| Search.MultiqueueSearch | crates/rustamer-base/src/multiqueue.rs:140-279 | the same three with several queues, under any switching policy |
| SearchComplete.PruningIsSafe | crates/rustamer-base/src/search.rs:477-560 | the pruning of visited temporal states never drops the last way to a goal |
| SearchComplete.HmaxIsSafe | crates/rustamer-base/src/heuristics.rs:2953-3101 | a heuristic answering None only where `HMaxExplicit` does drops only dead ends of the temporal space |
| SearchComplete.RelaxedIsSafe | crates/rustamer-base/src/heuristics.rs:2268-2417 | so does one answering None only where the delete relaxation does |
| SearchComplete.TemporalSearch | crates/rustamer-base/src/search.rs:885-998 | priority search over the temporal space, with the dominance pruning and a safe heuristic, finds only reached goal states, answers no plan only if no run at all reaches a goal, and gives up only when the limit is used up |
| Relevance.KeptSolves | src/tamerlite/encoder.py:611-709 | dropping irrelevant actions from a plan leaves a plan |
| Relevance.DependsExact | src/tamerlite/encoder.py:573-609 | an action depends on the fluents of its condition and of the values of its effects, and on no others |
| Relevance.WalkBackward | src/tamerlite/encoder.py:611-709 | the backward walk, although it stops early, keeps exactly the least set of actions closed backward from the goal, and a plan keeps solving with only those |
| RelevantActions.PlansAreReached | src/tamerlite/encoder.py:611-709 | every action of every executable plan is reached in the relaxation of the initial state |
| RelevantActions.ApplicableExact | src/tamerlite/encoder.py:611-709 | an action is reached if and only if, deleting nothing, its condition may hold after some sequence of others |
| RelevantActions.ComputeRelevantActions | src/tamerlite/encoder.py:611-709 | the least set closed backward from the goal among the actions that the relaxation reaches; for every plan that solves the problem these actions alone solve it |
| Relevance.ComputeRelevantFluents | src/tamerlite/encoder.py:711-763 | the least set of fluents that the goal, the conditions and the values of kept effects depend on |
| Relevance.CompactionBisimulates | src/tamerlite/encoder.py:711-763 | an action applies if and only if its compacted form does and its dropped effects are defined, and the kept fluents then agree |
| Relevance.CompactionRuns | src/tamerlite/encoder.py:711-763 | the same along whole plans |
| Relevance.CompactionSolves | src/tamerlite/encoder.py:711-763 | a plan solves the problem if and only if it solves the compacted one and its dropped effects are defined along it |
| Relevance.CompactionSamePlans | src/tamerlite/encoder.py:711-763 | with dropped effects that are always defined the plans are the same |
| Relevance.CompactionCanAddPlans | src/tamerlite/encoder.py:711-763 | a dropped division by zero shows a plan gained |

## Findings

Properties one might expect that do not hold as they stand, each with an input and
with the exact condition under which they do.

- *A plan keeps every durative condition over its span.* Not when two events that
  write the condition are not mutex. `build_plan` orders an event against the event
  that opens or closes a condition it writes, but not two writers of one condition
  against each other. `DurativeRace.PlanCanBreakDurative` gives a problem, a path the
  search finds and its earliest schedule, in which the condition `f or not g` fails:
  on the path `f` is set before `g`, in the plan `g` is set first.
  `DurativeExact.DurativeExactly` says exactly when a condition survives: when it holds
  after every set of events of its span that the kept order allows to come first;
  `DurativeExact.OnlyWritersCount` reduces the sets to the writers.
- *Dropping irrelevant fluents leaves the plans as they are.* An effect on a dropped
  fluent is no longer evaluated, so an action whose dropped effect raises becomes
  applicable: `Relevance.CompactionCanAddPlans`, with `x := 1 / y` at `y = 0`.
  `Relevance.CompactionSolves` says exactly which plans are kept, and
  `Relevance.CompactionSamePlans` that nothing changes when dropped effects are total.
- *`HMaxExplicit` answers None only in dead ends.* In a problem without any fluent, and
  so without any event, its loop ends before the goal is looked at, and it answers None
  whatever the goal is (`HMaxExplicit.Heuristic.Evaluate`); `HMaxExplicit.NoFluentsCanFail`
  gives a goal that holds. With a fluent the answer is right, and without one it is right
  if and only if the goal cannot hold at once (`HMaxExplicit.NoFluentsExact`).

Two more equalities hold only for boolean operands. They are not failures of the
planner: Unified Planning builds And and Or over boolean operands only, so the
converter receives no others.

- *A conjunction or disjunction of one operand may be replaced by the operand.*
  `Postfix.SingleExact` says that this is so exactly for a boolean operand,
  `Postfix.SingleCanFail` shows the number 1.
- *Simplification preserves values.* `Simplify.FoldConnectiveExact` gives the exact
  condition at a node, `Simplify.SimplifyCanFail` shows `true and 1`, and
  `Simplify.BooleanCollapsible` that boolean operands meet the condition at every node.

## Left out

Contracts that are weaker than the source, or ask for something it does not check:

- Fixpoint.FixpointBuffers.Evaluate: a drained hmax is bounded, not determined: its value depends on the order in which achievers are expanded, because a numeric condition combines the repetitions of one achiever with the precondition cost of another.
- Makespan.MakespanIsLeast: assumes that no action the search opens can last a negative time; the source does not check it.
- PlanCorrect.MeetsDeadline: the same assumption.
- VisitedStates.RedundantLosesNothing: the same assumption, and that every durative condition opened is closed by its own action, which the encoder arranges.
- SearchComplete.PruningIsSafe: the same assumptions.
- SearchComplete.TemporalSearch: the same assumptions; the heuristic is any safe function of the state, so an evaluation that raises during the search is not modelled.
- HMaxExplicit.Heuristic.Evaluate: takes a limit on the number of rounds, because value sets over the numbers may grow forever; below the limit the answer is exact.
- HeuristicConditions.LeafMeans: on the normal form the encoder produces: negation normal form, typed effects, object equalities with a fluent on the left, no empty sums or products, each number written at most once per event.
- RelaxedEvents.FollowsSteps: on problems in that form (`RelaxedLeaves.Encodable`).
- RelaxedExact.RepetitionsOfExact: exact up to the margin of a strict condition.
- RelaxedExact.PreconditionExact: in states where the conditions of the event evaluate; where one raises, a disjunction may be met leaf by leaf.
- RelaxedExact.GoalExactly: on problems in the encoder's form; no bound below is stated for a value that is not missing, beyond the cost equations.
- PlanExact.PlanExactly: for paths that complete every action.
- PlanExact.SearchExactly: for paths that complete every action.
- Simplify.SimplifyMeans: speaks of states where the original is defined; a term that raises may be simplified to one that does not.
- Relevance.KeptSolves: on classical problems; temporal problems are not sliced by a theorem here.
- RelevantActions.ComputeRelevantActions: the same, on problems in the encoder's form.
- Relevance.CompactionBisimulates: the fluents kept agree; their renumbering is left out.
- Stn.DeltaStn.Add: tolerance 0 and whole ticks; the floating-point use with a tolerance is not modelled.
- Search.PrioritySearch: the open list is any queue and the pruning any safe rule on the states recorded; the keys of the queues are not modelled, nor any optimality of the plan found.

What the repository does that the model does not:

- Floating-point rounding: costs, repetitions and polynomials are exact, integer and rational constants are one kind of number, and a duration must come out at whole ticks.
- An evaluation that raises while a successor is generated, and a duration that is not a whole tick, count as "not applicable" in `Temporal`; the source reports the error and stops.
- The weak equality of visited states, an option that gives up completeness: `VisitedStates.VisitedStates` models it, no theorem says that it is safe.
- Plan compression and symmetry breaking of equivalent objects.
- The non-temporal path of the search space, apart from the classical problems of the relevance slicing.
- The numbering of action instances and the packing of timepoint identifiers.
- Interpreted functions are one deterministic, possibly failing function; their caches are left out.
- Caching of heuristic values, and the membership set beside each value list of `HMaxExplicit`.
- The Bloom filter of the memory-bounded searches, enforced hill climbing and the blind searches.
- Time-outs, metrics and logging of the searches.
- The sorting of the scheduled actions that `build_plan` returns.
- Linear polynomials are built on trees, not on postfix stacks.
- The chunk-pointer comparison of states in the novelty measure is element-wise, its proposition and number caches are one, and the construction of its subgoal catalogue, its partition function and its clamping are left out.
- Bounds of the timed action's events are constants.
- Grounding, parsing, the Python bindings and the encoder beyond the passes above.
