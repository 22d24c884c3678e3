# Flowbench, modelled and proved

Flowbench compiles test flows, checks them, runs them under a pool of virtual users, folds the spans they
leave, and compares and draws the results. This project models the parts of it that are algorithms and state
machines in their own right, and proves what they are for:

* **Running a flow** (`FlowIr`, `Interp`, `Verdicts`, `Scoping`, `Executor`). `Interp` says what a run means as a function of what the
  environment answers; `Executor` is the engine with its objects updated in place, aliased sessions included,
  proved to do that. Every HTTP, gRPC and WebSocket answer, allow-list check, dial, frame, extraction and
  assertion is one `Answer` of an arbitrary world, so each theorem holds for every environment. `Verdicts` and
  `Scoping` say what a step comes to in terms of those answers and of what is in scope.
* **The check against the run** (`Validator`, `Acceptance`, `Sessions`, `Variables`, `Soundness`, `Exactness`,
  `Conduct`, `UseSteps`, `UseOutcomes`, `FieldText`). What is accepted, said position by position; what acceptance
  guarantees about sessions and variables over arbitrarily nested used flows, the exact condition where it
  guarantees less than it says, and what a caller learns of a flow it uses.
* **Loading used flows** (`UseLoader`, `UseWalker`, `LoadFaults`). The depth-first load with its stack, memo and depth.
* **Diffs** (`Lcs`, `Words`, `TextDiff`, `DiffShape`, `JsonPath`, `PathGrammar`, `CompactJson`, `JsonDiff`,
  `DiffPlaces`, `Order`). The alignment is a longest one, rows and pieces read back to both texts, and the paths a
  structural diff prints can be read and followed.
* **Templates in JSON, secrets, capture** (`Template`, `JsonText`, `ExpandJson`, `Secrets`, `Capture`).
* **The pool** (`Fold`, `FoldTree`, `Pool`, `Schedule`, `Pace`). Folding and merging are order-free, every
  interleaving of the users' atomic steps ends in agreeing totals and exact trace budgets, the curve and the
  open-model clock keep their bounds, and the token bucket keeps its rate in every window.
* **Reports** (`Samples`, `Flame`). Budgeted sampling and the flame-graph layout.

Each algorithm that works step by step is a method over the source's own state, proved equal to a specification
function; the lemmas are about those functions. Where the code does less than its comments promise, a lemma
gives a concrete input and another the exact condition.

## Where the code and its documentation part

* The pre-run check (internal/ir/validate.go:256-271) accepts a dotted reference into an extracted variable, an
  extraction on a waiting step, and a flow with inputs of its own as an entry; at run time all three are
  "has no value yet" (`Exactness.AcceptedYetCaught`, exact condition in `Exactness.CaughtExactly`).
* A use step that recorded a failure is said to fail (internal/executor/iteration.go:126-127). When the failure
  is a throttle that aborts the run, its outcome stays throttled (`UseSteps.AbortedThrottleIsNotFailed`). It
  always fails if and only if no step inside, at any depth, aborts the run on a throttle that counts as a failure
  (`UseOutcomes.FailsExactly`).
* The use depth is said to bound how far one flow nests (internal/parser/parser.go:119-121). It bounds the load
  stack: a deeper flow is accepted when an earlier step already compiled its lower part
  (`UseLoader.OrderDecidesDepth`). What loads is exactly what fits step by step in order (`UseLoader.LoadExactly`),
  and it nests deeper exactly when a file already compiled stood for more than there was room for
  (`UseLoader.NestsDeeperExactly`).
* The peak of a plan is its ramp's end even when the ramp goes down (internal/planner/planner.go:117-124), so the
  curve passes it (`Schedule.PeakIsPeakExactly`).
* The open model is said never to offer more than N a second (internal/executor/pool.go:367-373). An overdue job
  waits for no timer, so once every worker has been busy for a while the jobs due since are taken in a burst; and
  the interval is cut to whole nanoseconds. The most that any window can see is `Schedule.Most`, which is never
  passed (`Schedule.WindowHolds`) and reached after one stall (`Schedule.WindowReached`); it is N or less if and
  only if the run is over before job N is due, or nothing lags and N divides the window (`Schedule.CapKeptExactly`).
  Above one job a nanosecond the interval is zero (`Schedule.IntervalVanishesExactly`).
* Everything notable is said to be kept (internal/collector/samples.go:42-44). With exactly as many notable
  flow-runs as the ceiling, an earlier success displaces one (`Samples.NotablesKeptExactly`).
* A structural diff is said to name a place an assertion could be written about (internal/report/diff.go:325-330).
  A key that a dot cannot name is printed under a path that means something else (`JsonDiff.DottedKeyMisleads`,
  exact condition in `JsonPath.PrintReadsBack`).
* An unterminated string in a JSON document is an error only when the document has braces
  (`ExpandJson.UnterminatedExactly`).
* Redacted text is said to hold no secret (internal/secret/secret.go:39-44). A secret survives its own replacement
  in some text if and only if it can start inside the placeholder or run into one that stands for it
  (`Secrets.LeaksExactly`, for a set of one value `Secrets.OneIsCleanExactly`). A set is clean when no value can be
  made by replacing one that is no longer (`Secrets.RedactedIsClean`), as when no value has a bracket in it or is
  part of the placeholder's word (`Secrets.PlainIsClean`). For several values that goes one way: a value that could
  be made may hold a shorter one that never survives. A value that is part of the placeholder is
  never scrubbed, whatever else is registered (`Secrets.PartIsNeverScrubbed`).

## Model

| member | source | states |
|---|---|---|
| Lcs.NoAlignmentKeepsMore | internal/report/diff.go:176-191 | no alignment of two sequences keeps more pairs than the table entry of their start |
| Lcs.SomeAlignmentReaches | internal/report/diff.go:176-191 | some alignment keeps exactly that many, so the entry is the greatest length of a common subsequence |
| Lcs.ScriptSides | internal/report/diff.go:128-172 | the walk along the table loses nothing: its edits give back both sequences |
| Lcs.ScriptKeepsTheMost | internal/report/diff.go:128-172 | the greedy walk emits exactly as many kept pairs as the table promises, and they are equal on both sides |
| Lcs.FirstEdit | internal/report/diff.go:152-163 | where the two sides agree the pair is kept; where they do not, the left item is dropped whenever nothing is lost by that, and else the right one inserted |
| Lcs.Table | internal/report/diff.go:176-191 | the filled two-dimensional table holds, at every (i, j), the greatest common length of the two suffixes |
| Words.TokenizationIsUnique | internal/report/diff.go:236-262 | there is one way only to cut a line into alternating runs of words and white space, and tokenizing finds it |
| Words.Tokenize | internal/report/diff.go:236-262 | the loop cuts a line into that tokenization |
| Words.WordPiecesRejoin | internal/report/diff.go:193-234 | word pieces rejoin to the line on each side; up to 3000 tokens a side the unmarked text is what the best alignment keeps, beyond that there is none |
| Words.WordDiff | internal/report/diff.go:193-234 | the walk over two token lists gives those pieces for both sides |
| Words.SpacesAre | internal/report/diff.go:262 | white space between words is blanks and tabs and nothing else |
| TextDiff.LinesRejoin | internal/report/diff.go:114-119 | the lines of a text joined again are the text with its Windows line breaks made plain |
| DiffShape.BreaksArePlain | internal/report/diff.go:114-119 | a Windows line break becomes a plain one, wherever it is in a text |
| DiffShape.OthersStay | internal/report/diff.go:114-119 | a text without a Windows line break is left as it is |
| DiffShape.LinesAreRead | internal/report/diff.go:114-119 | lines written with either kind of break after each are split into those lines, and the empty text into none |
| TextDiff.HunksAreOptimal | internal/report/diff.go:128-172 | hunks are well grouped, lose no line on either side and keep as many lines as any alignment |
| TextDiff.Hunks | internal/report/diff.go:128-172 | the walk groups its edits into exactly those hunks |
| TextDiff.DiffReadsBack | internal/report/diff.go:59-112 | in all three modes the rows show exactly the lines of both texts, under numbers without gaps |
| TextDiff.KindsAddUp | internal/report/diff.go:59-112 | rows that read back have kinds that add up to both line counts |
| TextDiff.DiffKeepsTheMost | internal/report/diff.go:59-112 | up to 3000 lines a side as many rows are the same as any alignment of the lines could keep |
| TextDiff.AppendChange | internal/report/diff.go:91-109 | a changed hunk becomes paired rows, then what one side has left over, with the counts of each |
| TextDiff.AlignedRows | internal/report/diff.go:78-111 | the rows of the hunks, in order, with the counts that describe them |
| TextDiff.Diff | internal/report/diff.go:59-112 | the whole diff in its three modes: equal, aligned, or wholly replaced past the limit |
| DiffShape.ChangeRowAt | internal/report/diff.go:91-109 | row k of a changed hunk compares line k of both sides word by word as long as both have one; after that the longer side's lines stand alone, wholly marked |
| DiffShape.ModesShow | internal/report/diff.go:59-112 | equal texts show every line unchanged; at most 3000 lines a side are aligned, removed and added lines never side by side; beyond that the left is removed line by line and then the right added |
| Order.OneAscending | internal/report/diff.go:391-398 | two ordered lists of the same strings are the same, so sorting forgets the map order |
| Order.SortKeys | internal/report/diff.go:391-398 | keys collected in any order come out as the one ascending list of them |
| Order.LessExactly | internal/report/diff.go:396 | a string sorts before another exactly when, where they first part, it has the lesser byte or has ended |
| JsonPath.ParsePath | internal/eval/jsonpath.go:20-53 | the index loop reads exactly the segments of a path, or nothing for every malformed one |
| JsonPath.ParseBracket | internal/eval/jsonpath.go:55-86 | a bracket is read as a quoted key or an index that fits an int, with the position after it |
| JsonPath.QueryJson | internal/eval/jsonpath.go:95-133 | following segments one by one, negative indexes from the end, nothing where there is nothing |
| JsonPath.PrintReadsBack | internal/eval/jsonpath.go:20-92 | a printed path reads back as itself if and only if each key is one a dot can name and each index fits |
| JsonPath.QueryThen | internal/eval/jsonpath.go:108-132 | following a longer path is following its prefix and then one more segment |
| PathGrammar.SpelledIsRead | internal/eval/jsonpath.go:20-86 | every path whose segments are written as a dotted name, a key in brackets and quotes, or an integer in brackets with or without white space is read as those segments |
| PathGrammar.ReadIsSpelled | internal/eval/jsonpath.go:20-86 | and whatever is read is a path so written |
| PathGrammar.AtoiExactly | internal/eval/jsonpath.go:81-84 | an index is an optional sign and digits that fit 64 bits, and nothing else |
| PathGrammar.FollowTold | internal/eval/jsonpath.go:109-131 | a key leads to the field of that name, index k to item k, index -k to item |items| - k, and anything else nowhere |
| JsonDiff.DiffsStand | internal/report/diff.go:342-389 | every difference found at a place is what the two documents hold there, and they differ |
| JsonDiff.AllTold | internal/report/diff.go:342-389 | wherever the documents answer a path differently, a difference is reported there, above it or below it, for a rendering that tells values apart |
| JsonDiff.NoneExactly | internal/report/diff.go:342-389 | for such a rendering there are no differences if and only if the documents are equal |
| DiffPlaces.DiffsSharp | internal/report/diff.go:342-389 | differences are reported as far down as both documents go: never two objects or two lists against each other, and what one side lacks at a place both sides have |
| DiffPlaces.DiffsInOrder | internal/report/diff.go:342-389 | in ascending order of keys and indexes, no place twice and none inside another |
| CompactJson.CompactReads | internal/report/diff.go:400-408 | compact JSON is such a rendering: two values written alike, before anything that may follow a value, are the same value |
| CompactJson.CompactTold | internal/report/diff.go:400-408 | how each kind of value is written: words and numbers as they are, strings escaped in quotes, lists and objects with commas, objects by ascending key |
| JsonDiff.CompactNoneExactly | internal/report/diff.go:342-408 | rendered as compact JSON, there are no differences if and only if the documents are equal |
| JsonDiff.ChangesResolve | internal/report/diff.go:325-389 | for keys a dot can name, every reported path reads back and resolves to the old value on the left and the new on the right, or to nothing on the missing side |
| JsonDiff.ReportedAt | internal/report/diff.go:342-389 | each difference is reported once and in its place: its path, whether it was added, removed or changed, and an empty text for a side that lacks it |
| JsonDiff.DottedKeyMisleads | internal/report/diff.go:325-389 | a key with a dot in it is reported under a path that names another place |
| JsonDiff.ChangeList.WalkJson | internal/report/diff.go:342-389 | the recursive walk appends exactly the report of the differences below a path |
| JsonDiff.ChangeList.WalkKeys | internal/report/diff.go:343-364 | objects key by key in ascending order: added, removed, or walked into |
| JsonDiff.ChangeList.WalkItems | internal/report/diff.go:366-383 | lists index by index up to the longer one |
| Validator.CheckRefs | internal/ir/validate.go:254-271 | a step's references give an error exactly when one has no upstream source or no such member |
| Validator.CheckInputs | internal/ir/validate.go:219-252 | inputs pass exactly when their names are identifiers, distinct, and their defaults reach only the environment |
| Validator.CheckUse | internal/ir/validate.go:670-701 | a use step passes exactly when its flow stands on its own, every value passed names an input and every input gets one |
| Validator.CheckStep | internal/ir/validate.go:150-202 | one step's checks pass exactly when the step is right given what the steps before it made known, and what it makes known is carried on |
| Validator.CheckOutputs | internal/ir/validate.go:204-215 | outputs pass exactly when they are distinct identifiers some step extracts |
| Validator.ValidateAs | internal/ir/validate.go:118-217 | the error list is empty if and only if the flow is right, used flows included |
| Acceptance.AcceptedExactly | internal/ir/validate.go:118-271 | a flow is accepted if and only if, said by positions: step ids are distinct, every reference starts with something visible before its step and names a member where the members are fixed, sessions are opened once and before they are worked on, use ids clash with nothing, values passed and inputs match, nothing is extracted over a fixed root, asserted variables are extracted, inputs and outputs are distinct names, outputs are extracted, and the used flows are acceptable |
| Acceptance.NamesAre | internal/ir/validate.go:14 | a name is an ASCII letter or underscore, then letters, digits, underscores and dashes |
| Executor.Scope.Value | internal/executor/scope.go:70-96 | a reference is looked up whole in the environment, the row or the variables, and is without a value otherwise |
| Executor.Scope.Child | internal/executor/scope.go:31-35 | a used flow's scope has the same environment, no row and no variables |
| Executor.Iteration.MarkSession | internal/executor/iteration.go:80-89 | a session is registered under its name, dead or alive, replacing what was there |
| Executor.Runner.Expand | internal/ir/template.go:5-22 | a templated field becomes text exactly when each of its references resolves |
| FieldText.CutExpands | internal/ir/template.go:5-22 | looking up a field's chunks one by one gives exactly the text that replacing its placeholders gives |
| Executor.Runner.Record | internal/executor/iteration.go:373-387 | a failure is appended and its action, or the mode's default, decides whether the flow goes on and whether the run aborts |
| Executor.Runner.RecordThrottle | internal/executor/iteration.go:389-414 | a throttle is flagged always, and is a failure too when the mode or the step says so |
| Executor.Runner.Evaluate | internal/executor/iteration.go:298-331 | extractions in order up to the first that finds nothing, then assertions up to an error or a stop |
| Executor.Runner.RunRequest | internal/executor/iteration.go:209-292 | a request step is built, allowed, signed and sent, classified, and only then read |
| Executor.Runner.OpenWS | internal/executor/ws.go:124-171 | a session is opened only past the allow-list, and registered dead with the reason when that refuses it |
| Executor.Runner.DialWS | internal/executor/ws.go:143-171 | dialling registers the session alive with its connection, or dead with the reason |
| Executor.Runner.RecordWSError | internal/executor/ws.go:310-327 | a failed read or write retires the shared session object, so later steps find it dead |
| Executor.Runner.WorkWS | internal/executor/ws.go:65-119 | working on a session: never opened, dead, send, receive, in that order |
| Executor.Runner.RunWS | internal/executor/ws.go:52-119 | a socket step opens when it should and goes on to work on the session |
| Executor.Runner.CloseSessions | internal/executor/iteration.go:67-78 | every connection of a level is closed once, in any map order, and the level forgets its sessions |
| Executor.Runner.BindInputs | internal/executor/iteration.go:128-145 | inputs are filled in order, passed values in the caller's scope and defaults in the used flow's own |
| Executor.Runner.RunUse | internal/executor/iteration.go:128-185 | a used flow runs as one step in a fresh scope and iteration, and its record and outputs come back |
| Executor.Runner.LeaveUse | internal/executor/iteration.go:146-185 | a used flow's sessions are closed and its record taken over, and the step ends as its failures and aborts say |
| Executor.Runner.RunSteps | internal/executor/iteration.go:104-120 | steps run in order until one errs or stops, the worst outcome kept |
| Executor.Runner.RunFlow | internal/executor/iteration.go:91-102 | one iteration: the steps from a fresh scope, then its sessions closed, does what the interpreter says |
| Verdicts.Defaults | internal/executor/iteration.go:418-428 | a step's own action and its own word on throttles stand; without them a failure ends the flow and a throttle is a failure in integration and system, and both are only data in load, stress and soak |
| Verdicts.AssertTold | internal/executor/iteration.go:313-330 | over the answers alone: the failures added are the details of the assertions answered not ok, in order, up to the first that cannot be evaluated or stops the flow; the step is failed if and only if there is one |
| Verdicts.ExtractTold | internal/executor/iteration.go:298-330 | what is found is bound to the value answered, the latest of a name counting, and nothing else is; the first that finds nothing is the step's one failure; else the assertions are asked |
| Verdicts.TroubleReports | internal/executor/iteration.go:373-414 | an answer that is not ok is flagged when it is a throttle, and is a failure with its own reason unless it is a throttle that does not count |
| Verdicts.RequestTold | internal/executor/iteration.go:239-292 | over the answers of the allow-list and of the call: nothing is sent past a refusal, each kind of refusal is the one failure it should be, and only an ok answer is read |
| Verdicts.OpenTold | internal/executor/ws.go:124-171 | past a refusal nothing is dialled, either refusal leaves the session dead of its reason, and only a session alive on the connection just dialled goes on |
| Verdicts.WorkTold | internal/executor/ws.go:65-119 | a session nothing opened is an error and asks nothing, a dead one fails the step with what ended it, a send or receive that fails retires the session with its reason, and only a frame that came is read |
| Verdicts.SocketTold | internal/executor/ws.go:52-119 | a step that opens works on the session it opened exactly when opening went well |
| Scoping.ScopeTold | internal/executor/scope.go:70-96 | env.x is the environment's x alone, a reference below the pool's name is the row's column, and any other is the variable of exactly that name |
| Scoping.ChildSees | internal/executor/scope.go:31-35 | a used flow sees the environment and no column of the caller's row |
| Scoping.ExpandTold | internal/ir/template.go:5-22 | a field cut in two anywhere is the text of both parts, when both have one; text is itself and a reference what it injects |
| Scoping.InputsTold | internal/executor/iteration.go:131-145 | inputs are bound if and only if each has a text: what was passed, in the caller's scope, else the default in the used flow's own; and then each holds its own and nothing else is changed |
| Scoping.UseTold | internal/executor/iteration.go:128-185 | a use step runs its flow from its inputs and nothing else, and ends as `Left` says: what is taken over, which connections are closed, when the caller goes on and with which outcome |
| Scoping.StepsThen | internal/executor/iteration.go:104-120 | steps cut in two anywhere: the second part runs exactly when the first ran to its end, from what it left |
| Scoping.StepTold | internal/executor/iteration.go:187-205 | one step is noted, run as its kind says, and leaves the worse of its outcome and the one so far |
| Conduct.StepsConducted | internal/executor/iteration.go:104-185 | over any steps at any depth a level takes in exactly the failures, throttles and aborts noted below it, and nothing starts after an abort |
| Conduct.RunLedger | internal/executor/iteration.go:91-185 | a whole run reports each failure once, in order, under its chain of use steps; throttled and aborted exactly when some step was or asked; no step starts after an abort |
| Conduct.FlagsTold | internal/executor/iteration.go:104-185 | what that ledger reads, by the notes' positions: a throttle or an abort is there when one was noted, and a step ran on when it started after an abort was asked for |
| Conduct.FailuresThen | internal/executor/iteration.go:373-378 | failures noted in one part of a run and then those of the rest, each with its path and detail |
| Conduct.MoodTold | internal/executor/scope.go:89-94 | the first note of a reference without a value, or of a flow going on without one, tells which came first |
| Sessions.StepsKept | internal/ir/validate.go:143-167 | accepted steps keep the open connections accounted for and dead sessions dead, whatever the environment answers |
| Sessions.RunClosesOnce | internal/executor/ws.go:63-69 | no accepted run works on a session nothing opened, and every connection dialled is closed exactly once |
| Sessions.DeadStaysDead | internal/executor/ws.go:310-327 | across accepted steps of any level, the entry's or a used flow's, a dead session stays dead of the same cause and gets no new connection |
| Sessions.AliveIsOpen | internal/executor/ws.go:65-119 | before any accepted step of any level, a session that is alive has a connection that was dialled and is not closed |
| Sessions.StepsTidy | internal/executor/ws.go:124-171 | in any flow, accepted or not, no two sessions of a level share a connection |
| Variables.ExtractThrough | internal/executor/iteration.go:298-331 | reading an answer, calm ends only when an extraction finds nothing, the step is passed all the same, and what is missing was not bound before |
| Variables.AssertThrough | internal/executor/iteration.go:313-331 | with everything due bound, assertions that fail and are only recorded change nothing for the references after them |
| Variables.BoundNeverCaught | internal/executor/scope.go:70-96 | when every whole reference names something bound by then, no run answers "has no value yet" unless some flow went on past a step that left a variable due without a value; and none goes on so without a failure or a throttle |
| Soundness.PlainIsBound | internal/ir/validate.go:118-271 | acceptance with bare names gives bound references, through nested used flows |
| Soundness.AcceptedNeverCaught | internal/ir/validate.go:118-271 | the same of every accepted flow with bare names, no extracting wait and no inputs of its own, used flows included, whatever the environment answers |
| Exactness.StepsWell | internal/executor/scope.go:70-96 | where everything goes well a run binds exactly what is due and is caught exactly when some reference is not bound |
| Exactness.CaughtExactly | internal/ir/validate.go:256-271 | an accepted flow, executable up to a first poll step, is never caught in any environment if and only if the whole of every reference up to there is bound by an earlier step |
| Exactness.AcceptedYetCaught | internal/ir/validate.go:256-271 | three accepted flows that are caught: a dotted reference into a variable, a waiting step that extracts, an entry with inputs |
| UseSteps.UseIsolates | internal/executor/iteration.go:122-163 | a use step leaves the caller's sessions alone and changes its variables only at its declared outputs |
| UseSteps.UseDelivers | internal/executor/iteration.go:159-163 | each declared output with a value inside arrives with that value |
| UseOutcomes.FailureShows | internal/executor/iteration.go:165-184 | in every environment a failure inside makes the use step fail, when no step inside aborts the run on a throttle that counts as a failure |
| UseOutcomes.FailsExactly | internal/executor/iteration.go:122-185 | for an accepted use step that executes with its references bound, that condition is exact: with such a step inside, some environment hides the failure |
| UseOutcomes.EndedKeepsCalm | internal/executor/iteration.go:146-163 | a use step leaves an output due behind only when its flow was cut short |
| UseSteps.AbortedThrottleIsNotFailed | internal/executor/iteration.go:126-184 | a throttle counted as a failure that aborts the run leaves the use step throttled |
| UseLoader.CompiledOnce | internal/parser/parser.go:123-132 | no file is compiled twice in one load, and all compiled below the entry are shared |
| UseLoader.NoCycle | internal/parser/parser.go:342-370 | below a flow that matches its files every path of uses visits clean files, none twice |
| UseLoader.LoadSound | internal/parser/parser.go:345-409 | a load without errors gives every use step the flow of the file it names, and the reachable use graph has no cycle and no file with an error |
| UseLoader.LoadComplete | internal/parser/parser.go:345-409 | an entry at most nine files high loads without errors as the flow its files stand for |
| UseLoader.LoadExactly | internal/parser/parser.go:345-409 | a load has no errors if and only if the entry stands for a flow whose steps fit into the depth one after another, each with what those before it have compiled; and then it loads as that flow |
| UseLoader.NestsDeeperExactly | internal/parser/parser.go:371-378 | an accepted flow is more than nine files high if and only if a file already compiled stood for more than the room left |
| UseLoader.LoadCleanExactly | internal/parser/parser.go:345-409 | in terms of the files alone: when no path of uses is too long, loading succeeds if and only if every file reached is clean |
| UseLoader.ErrorsAreReal | internal/parser/parser.go:365-409 | every error is reached by the use steps of its chain and says what is so; a reported cycle is one of use edges |
| LoadFaults.NothingPassedOver | internal/parser/parser.go:345-409 | of every file compiled, every wrong step is reported, and every file it uses is compiled or the reason against it reported |
| UseLoader.OrderDecidesDepth | internal/parser/parser.go:371-378 | the same ten files are refused or accepted depending on which step comes first |
| UseWalker.Walker.Use | internal/parser/parser.go:345-409 | pushing, walking, popping and remembering a file does what the functional load says; the stack never holds a file twice nor more than nine |
| UseWalker.Walker.Scenario | internal/parser/parser.go:135-188 | the steps of a file in order, with their errors and flows |
| Template.MatchInner | internal/ir/validate.go:16 | a placeholder holds no quote and no backslash |
| Template.PlaceholderMatches | internal/ir/validate.go:16 | double braces around a dotted name, with any white space or none on either side, are a placeholder of that name, whatever follows |
| Template.OnlyPlaceholdersMatch | internal/ir/validate.go:16 | and nothing else is |
| Template.ExpandLeftmost | internal/ir/template.go:5-22 | the leftmost placeholder is replaced by what its name resolves to, the text before it stays and the text after it is expanded on its own |
| Template.ExpandNothing | internal/ir/template.go:5-22 | a text in which no placeholder starts stays as it is |
| Template.NoBracesNoChange | internal/ir/template.go:5-22 | a text without double braces is left as it is |
| Template.ExpandTemplates | internal/ir/template.go:5-22 | the scan replaces each placeholder left to right, and fails when one does not resolve |
| JsonText.EscapeDecodes | internal/adapters/http.go:278-290 | whatever a text holds, escaped it is a well-formed string body that stands for that text |
| JsonText.CharWritten | internal/adapters/http.go:278-290 | controls, quote, backslash and the characters of HTML and scripts are escaped, the shortest way there is, and every other character is written as it is |
| JsonText.CodeStandsFor | internal/adapters/http.go:278-290 | a backslash, u and four hexadecimal digits stand for that number |
| JsonText.BodyEnds | internal/adapters/http.go:220-229 | a well-formed body ends at its own closing quote |
| JsonText.BodyLengthExactly | internal/adapters/http.go:221-231 | a string ends at the first quote that no backslash takes away, and otherwise does not end |
| JsonText.LexShown | internal/adapters/http.go:217-230 | sound pieces written one after another are cut into the same pieces |
| ExpandJson.ExpandBody | internal/adapters/http.go:249-254 | a templated body stays well formed and stands for its own characters with each placeholder's text in place |
| ExpandJson.ExpandsPieceByPiece | internal/adapters/http.go:205-257 | a document with well-formed strings becomes one, piece by piece: the rest and plain strings unchanged, a whole non-key template its JSON value, any other string one string |
| ExpandJson.StringMeans | internal/adapters/http.go:249-254 | a templated string that keeps its quotes is exactly one string, meaning what it should |
| ExpandJson.KeyExactly | internal/adapters/http.go:271-276 | a string is a key exactly when a colon comes next, with nothing but white space before it |
| ExpandJson.WholeExactly | internal/adapters/http.go:202-269 | a string is a whole value exactly when it is one placeholder in quotes |
| ExpandJson.WholeStringImage | internal/adapters/http.go:239-254 | such a string becomes its reference's JSON as a value, and stays a string of escaped text as a key or when there is no JSON |
| ExpandJson.UnterminatedExactly | internal/adapters/http.go:210-233 | a string that does not end is an error if and only if the document has double braces |
| ExpandJson.ExpandText | internal/adapters/http.go:210-257 | the index loop over the document builds exactly that image |
| ExpandJson.StringEnd | internal/adapters/http.go:222-228 | the inner loop finds the closing quote, skipping what follows a backslash |
| Secrets.PlainValue | internal/secret/secret.go:14 | a value without brackets that is no part of the placeholder's word overlaps the placeholder nowhere |
| Secrets.OnlyKept | internal/secret/secret.go:39-44 | what occurs after replacing one value occurred before, and is another value, unless it starts inside the placeholder or runs into one |
| Secrets.RedactedIsClean | internal/secret/secret.go:39-44 | when no value can be made by replacing one that is no longer, redacted text contains none and redacting again changes nothing |
| Secrets.PlainIsClean | internal/secret/secret.go:14-44 | when no registered value has a bracket in it or is part of the placeholder's word, redacted text contains none and redacting again changes nothing |
| Secrets.WholeValue | internal/secret/secret.go:60-71 | longest first, a whole secret becomes one placeholder whatever shorter ones it contains |
| Secrets.FirstAfter | internal/secret/secret.go:39-44 | the first occurrence of a value becomes the placeholder, what is before it stays and what is after it is scrubbed on its own |
| Secrets.NothingToScrub | internal/secret/secret.go:39-44 | a text with none of the values in it is left as it is |
| Secrets.ScrubbedInTurn | internal/secret/secret.go:39-44 | values are replaced one after another, each in what the ones before it left |
| Secrets.LeaksExactly | internal/secret/secret.go:39-44 | a value survives its own replacement in some text if and only if it can start inside the placeholder, or run into one that stands for it |
| Secrets.OneIsCleanExactly | internal/secret/secret.go:39-44 | with one value registered every text comes out clean if and only if it cannot |
| Secrets.PartIsNeverScrubbed | internal/secret/secret.go:39-44 | a value that is part of the placeholder stays in every text that has it, whatever else is registered |
| Secrets.SecretSet.Add | internal/secret/secret.go:27-36 | a secret is registered; an empty one is ignored |
| Secrets.SecretSet.Ordered | internal/secret/secret.go:60-71 | the secrets longest first, equally long ones in any order |
| Secrets.SecretSet.Redact | internal/secret/secret.go:38-44 | each registered value replaced in such an order, and no secret left when the set is safe |
| Capture.RedactingScrubs | internal/span/capture.go:87-90 | a safe set scrubs all of its values, whichever of equally long ones comes first in each text |
| Capture.StoredIsClean | internal/span/capture.go:87-138 | no stored request, response, failure or URL contains a scrubbed value, cut or not |
| Capture.PlainStoredIsClean | internal/span/capture.go:87-138 | with such values registered no stored request, response, failure or URL contains one, cut or not |
| Capture.CapHolds | internal/span/capture.go:129-138 | a positive cap holds and truncation is reported exactly; zero does not cut; a negative cap stores no bodies |
| Capture.CapturedTold | internal/span/capture.go:95 | nothing is stored exactly when the span knows no more than the call it was going to make |
| Capture.StoredTells | internal/span/capture.go:96-119 | every field of a payload is what was captured: method, status, status text and Retry-After as they were, both lengths, and reason and URL scrubbed |
| Capture.Span.FinalizedTold | internal/span/capture.go:91-127 | a span that captured something holds all of that and has let it go, and any other is as it was |
| Capture.CutBeforeScrubLeaves | internal/span/capture.go:87-90 | wherever a cut falls inside a secret, cutting first would leave the part before it; scrubbing first leaves the placeholder |
| Capture.Span.Finalize | internal/span/capture.go:91-127 | every span of the tree that captured something gets its payload and lets go of it; the others are left alone |
| Capture.FinalizeTrace | internal/executor/pool.go:509-521 | a kept trace is finalized with what is registered: when that is safe, as values without brackets that are no part of the placeholder's word are, no span of the tree stores a registered value in request, response, failure or URL |
| Fold.FoldedHolds | internal/span/fold.go:43-55 | every node holds exactly the count, total and self time of the spans at its path, and exists where there is one |
| Fold.SameTree | internal/span/fold.go:17-23 | two trees with the same paths and sums are the same tree |
| Fold.FoldAnyOrder | internal/span/fold.go:43-55 | the order of folding is irrelevant |
| Fold.MergeFolds | internal/span/fold.go:57-74 | merging two folds is folding all their traces |
| Fold.MergeAnySplit | internal/span/fold.go:57-74 | however traces are split up and merged, the result is the fold of all of them |
| Fold.RootCounts | internal/span/fold.go:43-55 | the counts of the root's children add up to the traces folded |
| Fold.AtPathAppend | internal/span/fold.go:43-55 | the spans at a path of two lists of traces are those of the one and then those of the other |
| Fold.OneTold | internal/span/span.go:53-64 | a span counts once with all of its time; what its children leave of it is its own, and nothing when they outlast it |
| Fold.TimeIsConserved | internal/span/span.go:53-64 | a node's total falls short of its self time plus its children's totals by what the spans there are outlasted |
| Fold.ConservedExactly | internal/span/span.go:53-64 | they are equal if and only if no span at that path is outlasted by its children |
| FoldTree.GainedIsFolded | internal/span/fold.go:43-55 | a tree grown from nothing by those traces holds their fold at every path |
| FoldTree.FoldedTree.Child | internal/span/fold.go:30-40 | the named child is found, or made empty and linked, and nothing else changes |
| FoldTree.FoldedTree.SelfTime | internal/span/span.go:53-64 | duration less the children's, never below zero |
| FoldTree.FoldedTree.AddSpan | internal/span/fold.go:47-55 | one span and everything below it are counted at their paths and nowhere else |
| FoldTree.FoldedTree.Add | internal/span/fold.go:43-45 | a tree that holds some traces holds one more |
| FoldTree.FoldedTree.MergeNode | internal/span/fold.go:66-74 | children are merged in any map order; the source is unchanged and shares no node |
| FoldTree.FoldedTree.Merge | internal/span/fold.go:57-64 | merging a tree that holds b into one that holds a leaves one that holds both; the source is unchanged and shares no node |
| FoldTree.FoldParts | internal/executor/pool.go:551-559 | each worker's tree built and merged in place holds, at every path, the fold of all traces in whatever order |
| Pool.AlwaysGood | internal/executor/pool.go:405-559 | every reachable state of the pool accounts for every counter, budget, sample, trace and folded span |
| Pool.FinishedRun | internal/executor/pool.go:436-559 | in every interleaving a finished run has the samples of all users, one a flow an iteration, counters that agree with them, and the fold of all traces |
| Pool.TracesKept | internal/executor/pool.go:523-535 | kept traces are of runs that were made: failures up to their budget, and one of every so many others up to theirs |
| Pool.PickedTold | internal/executor/pool.go:523-535 | of so many successes the rounded-up quotient by the sampling rate is picked, all of them for a rate of one, and a budget lets through what there is or all it has |
| Schedule.PlanSustained | internal/planner/planner.go:109-153 | a sustained profile is planned as an optional ramp and a hold at its end, or refused without a duration or users |
| Schedule.PlanLasts | internal/planner/planner.go:127-153 | a plan lasts as long as its ramp and its hold together |
| Schedule.CurveAt | internal/executor/pool.go:572-590 | the loop evaluates the piecewise curve at an elapsed time |
| Schedule.CurveInSegment | internal/executor/pool.go:572-590 | while a segment lasts the curve is its ramp from its start, segments without a duration are passed over, and after the last it stays where that ends |
| Schedule.GoneIsNearest | internal/executor/pool.go:584-585 | an ascending ramp is within half a user of the straight line, halves rounded up; a descending one up to a user and a half above it |
| Schedule.CurveRises | internal/executor/pool.go:572-590 | an ascending plan's curve never falls and never passes its peak |
| Schedule.PeakIsPeakExactly | internal/planner/planner.go:117-124 | the curve stays within the peak if and only if the ramp does not go down |
| Schedule.RunClosed | internal/executor/pool.go:284-325 | in a single pass every user at once; else users are spawned up to the curve at once and at every tick, and never taken back |
| Schedule.SpawnedIsMost | internal/executor/pool.go:299-324 | as many users are spawned as the curve ever asks for at a reading before the end, and no more |
| Schedule.CeilingHolds | internal/planner/planner.go:236-250 | an ascending plan under its ceiling never spawns more users than the target allows |
| Schedule.CeilingsAre | internal/planner/planner.go:240-250 | a plan passes the ceilings exactly when its peak is within the one and its cap asks for no more requests than the other over the same number of nanoseconds; one that is not positive is not set |
| Schedule.RunOpen | internal/executor/pool.go:367-416 | job n is offered when it is due or once the one before it was taken, and no timer is waited for when it is overdue; an uncancelled run offers exactly the rounded-up quotient of its duration |
| Schedule.IntervalIs | internal/executor/pool.go:375-379 | the interval is the window over the count, rounded down to nanoseconds |
| Schedule.WindowHolds | internal/executor/pool.go:367-416 | in a run that lags by at most so much, no window sees more jobs than the rounded-up quotient of the window and the lag |
| Schedule.WindowReached | internal/executor/pool.go:367-416 | one stall at the start of a run is enough for a window to see that many |
| Schedule.CapKeptExactly | internal/executor/pool.go:367-381 | a cap of N is kept in every window by every run of that lag if and only if the run ends before job N is due, or nothing lags and N divides the window |
| Schedule.IntervalVanishesExactly | internal/executor/pool.go:375-379 | the interval is zero if and only if the cap asks for more than a job a nanosecond |
| Pace.ReleasesInOrder | sdk-python/src/flowbench/prompt.py:54-109 | releases are nondecreasing and none comes before its call |
| Pace.FutureHasNoTokens | sdk-python/src/flowbench/prompt.py:100-109 | while the last release is still ahead, nothing is saved up |
| Pace.SpanBound | sdk-python/src/flowbench/prompt.py:100-109 | between two releases there are at most as many as the burst and what the rate allows |
| Pace.WindowBound | sdk-python/src/flowbench/prompt.py:54-109 | any window of length T holds at most burst + rate x T releases, even behind booked waits and through re-rates |
| Pace.WaitsOnlyWhenFull | sdk-python/src/flowbench/prompt.py:100-109 | at one pace no call waits for nothing: it is let go when it comes, or so soon that since some earlier call exactly as many were let go as burst and rate allow |
| Pace.Bucket.Take | sdk-python/src/flowbench/prompt.py:100-109 | one call is let go at once for a token, or books the wait for what is missing |
| Pace.Bucket.Rerate | sdk-python/src/flowbench/prompt.py:95-98 | a later pace takes over and cuts what is saved to its burst |
| Pace.Pacer.WaitForPace | sdk-python/src/flowbench/prompt.py:54-77 | a call is booked on the bucket of its name, made full on first use; other names are not touched |
| Flame.GraphFits | internal/report/flame.go:148-180 | every frame lies in [0, 100] and frames on one row come left to right without overlap |
| Flame.GraphNests | internal/report/flame.go:148-180 | every frame below the first row lies on its parent's frame |
| Flame.GraphPacked | internal/report/flame.go:153-196 | each frame starts where a sibling ends that took more time, or as much under a lesser name, and is no narrower, or else where its parent starts |
| Flame.GraphIsReal | internal/report/flame.go:153-180 | every frame is of a node of the tree: its row, name, dotted path, and the node's total, self time and count |
| Flame.GraphExact | internal/report/flame.go:153-180 | when no node's children sum past it, every width is the frame's percentage of the total |
| Flame.GraphShowsAll | internal/report/flame.go:153-180 | then every node that took time has its frame at its depth |
| Flame.SortedChildren | internal/report/flame.go:182-196 | children taken from the map in any order come out in one order: more time first, then by name |
| Flame.FrameList.LayOut | internal/report/flame.go:153-180 | the loop appends exactly the frames of a node's children in its extent |
| Flame.DrawAll | internal/report/flame.go:46-73 | the whole graph over the sum of the flows' times, or nothing when there is none |
| Samples.BuildSamples | internal/collector/samples.go:42-92 | two passes keep the wanted flow-runs up to the ceiling, with their ordinals and the stride |
| Samples.NotableTold | internal/collector/samples.go:93-98 | a plain success is not notable and everything else is |
| Samples.StrideIsLeast | internal/collector/samples.go:57-66 | no smaller stride would do: with one, more successes would have their turn than there is room for |
| Samples.EvenlySpaced | internal/collector/samples.go:69-78 | from one success that is wanted to the next there are as many successes as the stride says |
| Samples.NotablesAllKept | internal/collector/samples.go:42-92 | below the ceiling all notable flow-runs are kept plus exactly the successes whose turn it is, and the cut-off is never reached |
| Samples.KeptInOrder | internal/collector/samples.go:66-89 | ordinals increase strictly and there are never more records than the ceiling |
| Samples.CompleteExactly | internal/collector/samples.go:40 | every flow-run is present if and only if there are at most as many as the ceiling |
| Samples.NotablesKeptExactly | internal/collector/samples.go:56-89 | all notable flow-runs are kept if and only if they are fewer than the ceiling, or exactly as many with no success before the last of them |

## Left out

- The HTTP, gRPC and WebSocket transports, TLS, cookies, OAuth2 and signing: every answer is a parameter of the run.
- Retries of one call, response capture switches, span timing and the latency legs: a request has one answer.
- The text of error messages and details: errors are named by what is wrong, or are one case.
- Secrets registered while references resolve: `Secrets` stands alone, and the interpreter does not thread the set through.
- Matching received frames: whether an awaited frame came is one answer.
- The YAML syntax tree, reading files and parsing ramp, rate and pace strings: a flow file is its steps' use targets, a profile its parsed values.
- The parser's and the check's rules that no property here needs (auth schemes, retry policies, GraphQL and gRPC specs, thresholds).
- A data pool's rows: a row is a function for the whole of an iteration.
- Malformed placeholders, which the check refuses before a run: fields are lists of text and references.
- Overflow of 64-bit durations and counters, and rounding of floating-point numbers: integers are unbounded and fractions exact.
- JSONDiff's final stable sort of the changes by path, which only reorders them.
- Decoding JSON documents: a number is held by the one text it is written with, and keys are distinct.
- Text is a list of characters and not of UTF-8 bytes; white space around an array index is ASCII white space.
- Zooming into a flame graph, frame kinds, links and details.
- Live progress snapshots, whose counters are read one at a time; self-metrics and the ticker's period.
- Stopping a stress run on thresholds, and the gap a worker leaves when it is cancelled between two jobs.
- The Python flows' own steps, prompt hashing, token usage and run files.
- Schedule.RunClosed: one tick list stands for the ticker until the deadline or a cancellation.
- Capture.Span.Finalize: the children of a finished trace are fixed, since nothing adds spans to it any more.
- Exactness.CaughtExactly: does not decide flows with a poll step inside a used flow, or with a reference to the environment without a variable, which never resolves. The steps after such a use step count all the same: a failure before the poll can cut the used flow short, and the caller goes on. `Soundness.AcceptedNeverCaught` covers these flows one way.
- Validator.CheckInputs: malformed placeholders in a default are not looked for, since a field is already cut at its placeholders.
- Validator.CheckStep: the checks of one kind's own settings (requests, auth, retries, polling, thresholds) and of malformed placeholders are not modelled.
- Validator.ValidateAs: as for one step, what no property here needs is not checked.
- Executor.Scope.Value: an environment value it reads is not registered as a secret here.
- Executor.Runner.Record: the detail is recorded as it came, not redacted.
- Executor.Runner.RecordThrottle: the detail is recorded as it came, not redacted.
- Executor.Runner.Expand: a field is given as chunks; `FieldText.CutExpands` ties them to its text, but not those of a JSON body, where a whole-value reference keeps its type (`ExpandJson` has that on the text).
- Executor.Runner.RunRequest: retries of the call and what its span captures are not modelled.
- Capture.FinalizeTrace: what is registered does not change while one trace is finalized.
