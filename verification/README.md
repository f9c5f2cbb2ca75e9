# ELA: a verified model of its compilers, its consent protocol and its measuring instruments

ELA is a personal assistant that runs tasks, asks its user for consent before it acts, and measures
what its models cost. This project models, in Dafny, the parts of its repository where correctness
is an argument rather than an inspection, and proves what their documentation promises of them.
`dafny verify dfyconfig.toml` checks everything.

- **The design-token compiler** (`Tokens`, `Stylesheet`, `Rendering`, `Meaning`, `Frozen`). A tree
  of tokens, where a value may be an alias of another, is compiled to CSS custom properties. The
  target semantics is the `var()` substitution of section 3 of CSS Custom Properties for Cascading
  Variables Module Level 1: a value resolves where it is declared, and only the computed value is
  inherited. The main theorem says exactly when every element of every document shows what the
  source says in its theme: when the source says one thing of each plain token in both themes. In
  the default theme it always does; a token of any file shows the failing side.
- **The answer protocol of approvals** (`Approvals`, `AnswerProtocol`, `PassedOver`). The answer to a
  request for consent is stored first and the engine moves the task after. Any number of answers are
  interleaved at every await, with new questions, other operations of the engine, and crashes
  anywhere. An invariant of every run says what the store and the tasks can be; repeating an answer
  after any number of crashes, each attempt at its own instant, repairs them, but for the record of
  an operation lost between two writes.
- **The spending cap of the metering gateway** (`Calls`, `Sse`, `Gateway`, `Processes`). A call is
  checked before it is forwarded and counted after it ends. Over every interleaving the calls counted
  are exactly those whose steps lead to an end, each with the last numbers its answer declared, and the
  cap can be passed by the calls in flight and by nothing else. Beside it are the tiered prices, the reader of
  streamed answers, which does not depend on how the text is cut, and the walk over a process tree.
- **An escaping printer** (`Visible`): what it prints can be read back, for texts and for lists.
- **Smaller cores against a specification of their own**: a search with a path-local set of what was
  seen, against reachability (`Outcomes`); a greedy matcher, against the existence of an embedding
  (`Matching`); a budget forecast, against every way the sessions can go (`Forecast`); the
  replacement of generated blocks, as a fixpoint (`Blocks`); a line-driven converter (`Pieces`,
  `Spacing`, `PdfToSpec`, `Decimals`); an acceptor of command lines, against a grammar (`Commands`); a printer
  of durations, against a reader (`Durations`).

What the source changes in place is a class here, each method tied by its `ensures` to a function of
the old state; the theorems are about those functions. A run of a protocol is a sequence of steps in
which a step that cannot be taken does nothing, so that a theorem about all sequences is one about
all interleavings.

## What the proofs found

- The engine checks that an answer is about the task and was stored as it says
  (`src/ela/tasks/engine.py:752-762`), not that it answers the request the task is waiting for
  (`src/ela/tasks/engine.py:1157-1165`). A repeated yes to an earlier question, sent while the task
  waits for a later one, queues the task and leaves the later one PENDING:
  `PassedOver.AQuestionIsPassedOver` is a run that does it, and `AnswerProtocol.WaitEndsOnItsOwnAnswer`
  says exactly when it happens.
- A plain token that aliases a themed one is compiled in the default theme and resolves at the root, so
  it can be wrong in the other theme: inherited from a default root by a light element, composed with
  its alpha on a light root, or aliased by a themed token in either. `Meaning.ShownEverywhereExactly`
  gives the exact condition for all of these at once, which resolving each plain token in both themes
  decides. `Frozen.MarkStaysBlack` is about every file, whatever else it holds, with one token that fails
  it; `Frozen.TheExampleHoldsTheMark` shows that there is such a file among those that pass the checks
  modelled here. Plain groups closed under aliasing meet the condition
  (`Meaning.ClosedIsShownEverywhere`).
- A repeated answer ends where the first attempt would have exactly when the request is as open at the
  instant the answer is given at as it was at the first: PENDING, on time, its task waiting, at both or
  at neither (`AnswerProtocol.TheLastEndsAsTheFirstExactly`, `AnswerProtocol.TheRepeatEndsAsTheFirstExactly`).
  `AnswerProtocol.ALateRetryIsRefused` is a request that expired in between. A crash between the
  engine's save and its event is never repaired in the record of the task
  (`AnswerProtocol.TheRecordIsLostBetweenTheWrites`).
- `descendants` has no record of what it visited. It ends when the root is not its own descendant,
  and never ends when it is (`Processes.RootOfACircleNeverEnds`, `Processes.ItsOwnParentNeverEnds`).
- In a document that holds each opening marker once, replacements of two blocks commute exactly when
  neither is inside the other (`Blocks.ReplacementsCommuteExactlyWhenApart`); of two nested blocks the
  inner one is refused after the outer (`Blocks.NestedBlocksDoNotCommute`).
- `missing` reports only lines the output does not contain at all exactly when the expected lines it
  contains somewhere stand in order (`Matching.ReportedIsAbsentExactly`); otherwise a line that is there
  is reported too (`Matching.ReportsMoreThanTheLeast`).

## Model

| member | source | states |
|---|---|---|
| Tokens.LeavesExact | scripts/generate_design_system.py:141-154 | the leaves of a tree are exactly those a walk reaches without crossing a leaf, a record or a hidden key, each with its own path and token |
| Tokens.LeavesInExact | scripts/generate_design_system.py:151-154 | the same for the children of one object |
| Tokens.NodesAreInTheUniverse | scripts/generate_design_system.py:162-169 | every path that names a node is one of the finitely many a walk can take: the measure of the chase |
| Tokens.ColourOf | scripts/generate_design_system.py:184-198 | the loop over `seen`, `alpha` and `value` ends, and returns what the chase says: the literal and the alpha, or which refusal |
| Tokens.LiteralTrailIsUnique | scripts/generate_design_system.py:184-198 | from one value at most one chain of aliases reaches a literal |
| Tokens.LiteralTrailNeverRepeats | scripts/generate_design_system.py:188-191 | a chain that reaches a literal never repeats a path, so refusing a repeat refuses no literal |
| Tokens.ChaseFollowsATrail | scripts/generate_design_system.py:184-198 | whatever the chase says is what stands at the end of a chain of aliases it followed |
| Tokens.ChaseSucceedsExactly | scripts/generate_design_system.py:184-198 | the chase returns a literal and an alpha if and only if some chain reaches that literal and its alphas multiply to that alpha |
| Tokens.CycleIsSaidExactly | scripts/generate_design_system.py:189-191 | a cycle is refused if and only if the chain comes back to a path it passed |
| Tokens.LassoNeverEnds | scripts/generate_design_system.py:189-191 | a chain that comes back to itself has beginnings of every length: it reaches no literal |
| Stylesheet.WithAlphaIs | scripts/generate_design_system.py:221-223 | the composed colour is the colour in upper case and the rounded alpha in two hexadecimal digits |
| Stylesheet.NameOfOneKey | scripts/generate_design_system.py:212-218 | the property of one key is `--ela-` and the key, character by character: capitals lowered, a hyphen for a space or an underscore, anything else as it is |
| Stylesheet.OneKeyMore | scripts/generate_design_system.py:217-218 | each further key of a path comes at the end of its name, after a hyphen |
| Stylesheet.ANameOfThreeKeys | scripts/generate_design_system.py:217-218 | the name of `color.text.primary`, as the components read it |
| Stylesheet.OneDotMore | scripts/generate_design_system.py:285-285 | the dotted name of a path is its keys in order |
| Stylesheet.DottedKeysAre | scripts/generate_design_system.py:285-289 | the keys compared between the themes are the dotted names of their leaves |
| Stylesheet.KeptExactly | scripts/generate_design_system.py:390-392 | of a group's leaves exactly those under no skipped path become declarations |
| Stylesheet.SkippedExactly | scripts/generate_design_system.py:85-85 | what is never emitted: paths under `motion.pattern`, `presence.rest` and `presence.core.kind` |
| Stylesheet.DeclaredInOrder | scripts/generate_design_system.py:386-400 | one declaration for each leaf, in order, by the name of its path and with the value compiled for it |
| Stylesheet.RefusedEarly | scripts/generate_design_system.py:386-393 | the first leaf refused refuses all the declarations, with its own words |
| Stylesheet.PlainDeclarations | scripts/generate_design_system.py:386-393 | the declarations of the plain groups are those of their kept leaves, in order, compiled in the default theme, or the refusal of the first that fails |
| Stylesheet.DeclarationsOf | scripts/generate_design_system.py:388-393 | the same for any list of groups: the loop over groups |
| Stylesheet.GroupDeclarations | scripts/generate_design_system.py:389-392 | the same for one group after others: the loop over leaves, with the skipped ones |
| Stylesheet.ThemedDeclarations | scripts/generate_design_system.py:396-400 | the declarations of a theme are its color scheme and then one per leaf, or the refusal of the first that fails |
| Stylesheet.LastOfIsNamed | scripts/generate_design_system.py:504-508 | a rule declares a property exactly when one of its declarations has the name |
| Stylesheet.SaidOfTrail | scripts/generate_design_system.py:184-240 | what the source says of a path, computed by the chase, is the literal at the end of its chain with the alphas on it |
| Rendering.PlainIsAccepted | scripts/generate_design_system.py:248-302 | every declared leaf of a plain group is where its path says, and validation has accepted it |
| Rendering.ThemedIsAccepted | scripts/generate_design_system.py:248-302 | every declared leaf of a theme is where its path says inside that theme, and validation has accepted it for that theme |
| Rendering.EmittedIsAccepted | scripts/generate_design_system.py:248-302 | the two together, for the theme a leaf is compiled in |
| Rendering.RootDeclares | scripts/generate_design_system.py:504-508 | on the root, in either theme, the last declaration of an emitted name is the value compiled for that leaf |
| Rendering.BelowDeclares | scripts/generate_design_system.py:506-508 | on an element that names a theme, the last declaration of a themed name is the value compiled in that theme |
| Rendering.BelowIsSilent | scripts/generate_design_system.py:505-508 | below the root nothing declares a plain property |
| Rendering.TheSchemeIsTheTheme | scripts/generate_design_system.py:396-400 | on every element of every document the computed color scheme is the theme the element is in |
| Rendering.PlainTrailHasNoTheme | scripts/generate_design_system.py:162-198 | with the plain groups closed under aliasing, a chain that starts among them is the same in every theme |
| Rendering.CompiledAsSaid | scripts/generate_design_system.py:226-240 | in the theme it is compiled in, a leaf compiles to a `var()` of its target when that says the same, and otherwise to the literal its chain reaches with the alpha of its chain |
| Rendering.CompiledEverywhere | scripts/generate_design_system.py:226-240 | the same in both themes for a token of which the source says one thing |
| Rendering.DottedTellsPathsApart | scripts/generate_design_system.py:285-289 | a dotted name is of one path, when no key holds a dot |
| Rendering.KeyIsInTheOther | scripts/generate_design_system.py:285-289 | the check on keys means that each leaf of one theme has its counterpart at the same path of the other |
| Rendering.TargetIsEmitted | scripts/generate_design_system.py:236-238 | the `var()` of a property declared in a theme names a property declared in that theme |
| Rendering.RootValue | scripts/generate_design_system.py:484-516 | on the root, in the default theme, or in either when the source says one thing of each plain token, the property of an emitted path computes to what its chain of aliases says |
| Rendering.PlainIsInherited | scripts/generate_design_system.py:504-508 | below the root a plain property is the computed value of the root |
| Rendering.ValueBelow | scripts/generate_design_system.py:484-516 | below the root, with the default theme at root and element, or in any themes when the source says one thing of each plain token, the property of an emitted path computes to what its chain says |
| Meaning.CompilationPreservesMeaning | scripts/generate_design_system.py:179-240 | compilation preserves meaning: on every element in the default theme under a default root, and of any document when the source says one thing of each plain token, the property of an emitted path evaluates to the literal `colour_of` reaches, with the alpha it gathers |
| Meaning.ShownEverywhereExactly | scripts/generate_design_system.py:179-240 | every element of every document shows, for every emitted path, what the source says in the theme of the element if and only if the source says one thing of each plain token in both themes |
| Meaning.ClosedIsShownEverywhere | scripts/generate_design_system.py:386-400 | plain groups closed under aliasing are shown rightly everywhere |
| Meaning.ClosedSaysTheSame | scripts/generate_design_system.py:386-393 | of plain groups closed under aliasing the source says one thing in both themes |
| Meaning.AlphaIsTheFirst | scripts/generate_design_system.py:248-262 | the alpha gathered from an emitted path is that of the first token on the way that carries one, 1 if none does, and between 0 and 1 |
| Meaning.EmittedHasOneAlpha | scripts/generate_design_system.py:184-198 | of an emitted path of a file that compiles, in the default theme or with the plain groups closed, `colour_of` gives the literal its aliases reach and the alpha of the first token that carries one |
| Meaning.EmittedResolves | scripts/generate_design_system.py:226-240 | a stylesheet that was derived resolves every emitted path to a literal in the theme it is compiled in |
| Meaning.ColoursKeepTheirAlpha | scripts/generate_design_system.py:184-223 | wherever meaning is preserved, the property of a colour is read as the six digits and the rounded alpha that `colour_of` gives in the theme of the element, if it gives a colour; it does wherever validation has looked |
| Meaning.OneAlphaOnAChain | scripts/generate_design_system.py:248-262 | on a chain of tokens that validation walks, none read in another theme and then going on to a themed one, at most one alpha differs from 1, and the alpha returned is that one |
| Meaning.PlainTokensFreezeAtTheRoot | scripts/generate_design_system.py:386-400 | under a root in the default theme a plain property is the default theme's everywhere, and so is right in another theme if and only if the source says the same in both |
| Frozen.TheExampleHoldsTheMark | scripts/generate_design_system.py:280-302 | there is a file that holds the mark, meets all that the theorem on meaning asks of a file, and compiles |
| Frozen.MarkStaysBlack | scripts/generate_design_system.py:386-400 | in every file in order that compiles, a plain token that aliases an ink, black in the default theme and white in the other, is black on a light element under a default root, where the source says white |
| Frozen.MarkIsInherited | scripts/generate_design_system.py:226-240 | in every such file the property of the token is, on a light element below a default root, what the source says of it in the default theme |
| Approvals.Respond | src/ela/infrastructure/persistence/approval_store.py:89-127 | an answer is written if and only if the request is there, PENDING, and before the instant it expires at; it changes that status and nothing else; otherwise nothing changes, and the refusal says which it was |
| Approvals.WhatMayBeDone | src/ela/tasks/engine.py:180-265 | which operations the engine accepts on a task, state by state |
| Approvals.TheOperationsMakeTheTable | src/ela/tasks/state_machine.py:48-73 | the operations of the engine make the transitions of the state machine, all of them and no other |
| Approvals.Ela.RespondTo | src/ela/infrastructure/persistence/approval_store.py:89-127 | the store after the update, and the reason when there is none |
| Approvals.Ela.MoveTask | src/ela/tasks/engine.py:198-211 | the tasks after the engine was told: a task that waits is QUEUED by a yes and DENIED by a no, with the request recorded, and no other task changes |
| Approvals.Ela.AnswerOnce | src/ela/api/approvals.py:78-102 | store and tasks after one answer handled alone, and what is handed back: an accepted answer to a waiting task leaves it QUEUED with the request GRANTED, or DENIED with the request REJECTED |
| Approvals.Ela.AnsweredAndResumed | src/ela/api/approvals.py:105-138 | a run follows only a yes, with the request GRANTED in the store and the task QUEUED |
| Approvals.AnswerWritesWhatIsShown | src/ela/api/approvals.py:78-102 | an answer changes the store if and only if the request is PENDING and on time and its task waits; then the request is GRANTED and the task QUEUED by a yes, REJECTED and DENIED by a no, and nothing else changes |
| Approvals.AcceptedExactly | src/ela/api/approvals.py:78-102 | an answer is accepted if and only if the request is one of the task and either was answered the same way already, or is PENDING and on time with its task waiting |
| Approvals.AcceptedIsStored | src/ela/api/approvals.py:86-102 | a task handed back means the answer is in the store and the task no longer waits |
| Approvals.ANoDenies | src/ela/api/approvals.py:57-75 | an accepted answer to a waiting task leaves it QUEUED if it is a yes and DENIED if it is a no, and says so; of the other tasks nothing changes |
| Approvals.RepeatingCompletesTheMove | src/ela/api/approvals.py:95-102 | from "answer stored, task still waiting" the same answer completes the move, to QUEUED or to DENIED, and the other is refused with nothing changed |
| Approvals.OppositeIsRefused | src/ela/api/approvals.py:141-157 | a request answered one way is never answered the other way, whatever its task has become |
| Approvals.RepeatsChangeNothing | src/ela/api/approvals.py:86-102 | after an accepted answer any number of repeats, at any instant, is accepted with the same word and changes nothing |
| Approvals.AnswerClosesTheQuestion | src/ela/tasks/engine.py:1142-1165 | an accepted answer leaves the awaited request answered if and only if it is the request named, or had been answered before |
| Approvals.OldYesPassesOverANewQuestion | src/ela/tasks/engine.py:1142-1165 | a world in which a repeated yes queues a task whose awaited request stays PENDING |
| AnswerProtocol.StepGrows | src/ela/infrastructure/persistence/approval_store.py:89-113 | no step of any handler or of the engine rewrites a question, or an answer once stored |
| AnswerProtocol.StepKeepsInv | src/ela/api/approvals.py:78-102 | the invariant of handlers, locks, tasks and log is kept by every step, a crash included |
| AnswerProtocol.RunKeepsInv | src/ela/api/approvals.py:78-102 | and so by every run |
| AnswerProtocol.AnsweredOnce | src/ela/infrastructure/persistence/approval_store.py:89-113 | over every interleaving a request leaves PENDING at most once, and keeps that answer for ever |
| AnswerProtocol.HandedBackIsStored | src/ela/api/approvals.py:86-102 | in every run a request that was answered with a task has its own answer in the store, on a request of that task |
| AnswerProtocol.OppositesAreNeverBothAccepted | src/ela/api/approvals.py:86-102 | two opposite answers to one request are never both accepted, in a run or across a continuation of it, crashes included |
| AnswerProtocol.EngineMovesAfterTheStore | src/ela/api/approvals.py:160-164 | no task is moved by an answer unless the same answer about that task was stored before |
| AnswerProtocol.QueuedIsGranted | src/ela/api/approvals.py:160-164 | a task queued by an answer names a GRANTED request of its own, and one denied a REJECTED one |
| AnswerProtocol.OnlyAnAnswerEndsTheWait | src/ela/tasks/engine.py:180-265 | in every run a waiting task becomes QUEUED or DENIED if and only if the step is the engine's move for an answer about it, stored before: QUEUED for a yes, DENIED for a no |
| AnswerProtocol.AMoveLeavesItThere | src/ela/tasks/engine.py:198-211 | in every run a move by an answer is of a task that waited, leaves it QUEUED for a yes and DENIED for a no, and changes no other task |
| AnswerProtocol.TheEngineDecides | src/ela/tasks/engine.py:1157-1227 | what a handler is told by the engine: a waiting task is moved, one that the same answer moved is handed back, any other is refused |
| AnswerProtocol.StepsFollowTheTable | src/ela/tasks/state_machine.py:48-73 | every step of every handler, of the engine and of a crash moves a task along the table or not at all |
| AnswerProtocol.EndedIsForGood | src/ela/tasks/state_machine.py:43-46 | a task that has ended never leaves its state, whatever comes after |
| AnswerProtocol.WaitEndsOnItsOwnAnswer | src/ela/tasks/engine.py:1142-1165 | in every run an answer that ends a wait leaves the awaited request answered if and only if it names that request, or it had been answered |
| AnswerProtocol.AloneItAnswers | src/ela/api/approvals.py:78-102 | a handler left alone ends, in at most six awaits, where the one-call account of an answer says |
| AnswerProtocol.OneCrash | src/ela/api/approvals.py:86-102 | wherever the process stopped, it left nothing behind, or the same answer given again at any instant leaves the requests and the states of the tasks that the first would have left, with the same word |
| AnswerProtocol.CrashesAreRepaired | src/ela/api/approvals.py:86-102 | after any number of attempts, each stopped anywhere and made at its own instant, the answer that goes through ends as one undisturbed attempt, made when the first of them left anything behind, or else at the last instant |
| AnswerProtocol.TwoInstants | src/ela/api/approvals.py:86-92 | an answer given at two instants ends alike if and only if the request is open at both or at neither |
| AnswerProtocol.TheRepeatEndsAsTheFirstExactly | src/ela/api/approvals.py:86-102 | after one attempt that stopped, the repeat ends where that attempt would have if and only if it left something behind, or the request is as open at the repeat as it was then |
| AnswerProtocol.TheLastEndsAsTheFirstExactly | src/ela/api/approvals.py:86-102 | after any attempts that stopped, the one that goes through ends where the first would have if and only if the request was as open at the instant the answer is given at as at the first |
| AnswerProtocol.ALateRetryIsRefused | src/ela/api/approvals.py:86-92 | a request that expires between an attempt stopped before the store and its repeat is refused, where the first would have been in time |
| AnswerProtocol.TheRecordIsLostBetweenTheWrites | src/ela/tasks/engine.py:1180-1181 | after an attempt that left anything behind, a repeat restores the very world of the undisturbed attempt if and only if the process did not stop between the save and the event, or that operation was already the one recorded |
| PassedOver.AQuestionIsPassedOver | src/ela/tasks/engine.py:752-762 | a run from the empty system reaches a task QUEUED by a repeat of an earlier answer, with the request it waited for PENDING |
| Calls.UpToEighth | src/ela/providers/anthropic/pricing.py:126-126 | rounding up never lowers a price and adds less than one hundred-millionth |
| Calls.FullWindow | scripts/misura_m14_3.py:175-183 | a window full at any split of input and output costs at most what it costs with the output budget full |
| Calls.DearerTier | scripts/misura_m14_3.py:124-133 | the upper tier costs at least as much, for any tokens |
| Calls.WorstIsABound | scripts/misura_m14_3.py:151-183 | no call inside its window, with its output inside the budget, costs more at the list price than `worst_of`, across the tier jump |
| Calls.WorstIsReached | scripts/misura_m14_3.py:175-183 | the bound is met, up to the rounding of the list |
| Calls.OutputAdds | scripts/misura_m14_3.py:330-352 | more output costs more by exactly its price, in both costs |
| Calls.RatesAreListed | scripts/misura_m14_3.py:151-165 | the rates of each model, written out, on either side of the tier |
| Calls.EveryTokenAtItsRate | scripts/misura_m14_3.py:339-352 | every token of input, output, cache read, five-minute write and hour write adds exactly its own rate to the billed cost |
| Calls.EveryTokenInFull | scripts/misura_m14_3.py:316-336 | without the cache every token of whatever kind the model was fed adds the rate of input, and one of output its own |
| Calls.NoTokensCostNothing | scripts/misura_m14_3.py:330-352 | no tokens cost nothing, either way |
| Calls.TheDearerIsCounted | scripts/misura_m14_3.py:355-367 | of a call with its end the dearer of the two costs is counted; of one not forwarded, or without a price, nothing |
| Calls.UnfinishedCoversItsEnd | scripts/misura_m14_3.py:355-367 | what is counted for a call without its end covers a way it could have ended if and only if that way brings no more output, or stays within `max_tokens` |
| Calls.CacheIsNotDearer | scripts/misura_m14_3.py:330-352 | with no cache written, the price with the cache is at most the full price |
| Calls.CountedAsWhole | scripts/misura_m14_3.py:355-367 | what is counted for a call is the dearer cost of that call whole, with its output at `max_tokens` when that is more and it has no end |
| Calls.WorstBoundsWhatIsCounted | scripts/misura_m14_3.py:175-367 | what the cap counts for a call within window and budget, whole or not, with no cache written, is at most `worst_of` |
| Calls.CountedIsNotNegative | scripts/misura_m14_3.py:355-367 | counting a call never lowers what was spent |
| Sse.Break | scripts/misura_m14_3.py:452-453 | the first blank line of a text, or none |
| Sse.CutInTwo | scripts/misura_m14_3.py:450-456 | reading a text and then more of it gives the same events, in order, and the same rest as reading both at once |
| Sse.CutMakesTheText | scripts/misura_m14_3.py:450-456 | the events and the rest make the text again, each event ends at the first blank line after it begins, and none is left |
| Sse.CutIsTheOnlyFraming | scripts/misura_m14_3.py:450-456 | no other list of events and rest makes that text |
| Sse.LinesMakeTheText | scripts/misura_m14_3.py:454-454 | the lines of an event and their ends make its text again, no line holds an end, and only the last may lack its own |
| Sse.NoOtherLines | scripts/misura_m14_3.py:454-454 | no other lines do |
| Sse.StrippedIs | scripts/misura_m14_3.py:456-456 | what is stripped of a data line is the spaces at both ends and nothing else |
| Sse.NumbersStayLast | scripts/misura_m14_3.py:483-495 | one frame more replaces the numbers it declares, those not zero, and leaves the others |
| Sse.FramesTell | scripts/misura_m14_3.py:458-495 | after any frames each number is the last one declared that is not zero, or the one before them; the tools are those named, in order; the reason to stop and the error are the last; and the call has its end if and only if it had it or one came |
| Sse.ToldIsOne | scripts/misura_m14_3.py:458-495 | nothing else is told by the same frames |
| Sse.LinesTell | scripts/misura_m14_3.py:454-495 | the same of the frames of a list of lines |
| Sse.EventsTell | scripts/misura_m14_3.py:450-495 | the same of the frames of a list of events |
| Sse.SseUsage.Feed | scripts/misura_m14_3.py:450-456 | after a chunk the buffer is the unfinished rest, and the call is what the frames of all events completed so far declare: of each number the last one |
| Sse.SseUsage.Drain | scripts/misura_m14_3.py:452-456 | the loop over the buffer dispatches every complete event in order |
| Sse.SseUsage.ReadLines | scripts/misura_m14_3.py:454-456 | the data lines of one event act on the call in order, and the call is what their frames declare |
| Sse.ChunksDoNotMatter | scripts/misura_m14_3.py:450-456 | feeding any list of chunks is feeding the whole text at once: the same call and the same buffer |
| Sse.SameTextSameCost | scripts/misura_m14_3.py:355-456 | two ways to cut one answer count the same dollars |
| Gateway.StepIs | scripts/misura_m14_3.py:615-694 | every step does nothing, goes on with one call, or ends one forwarded call and counts it |
| Gateway.StepKeepsInv | scripts/misura_m14_3.py:551-694 | the invariant of cap, sum, payments and calls is kept by every step |
| Gateway.EveryRun | scripts/misura_m14_3.py:551-555 | in every run the cap is set if and only if what was spent has reached it, the session is stopped once, and what was spent is the sum of calls counted once each, forwarded and ended |
| Gateway.NothingPassesTheCap | scripts/misura_m14_3.py:626-629 | once the cap is set no call that checks after that is forwarded |
| Gateway.OnlyTheCallsInFlight | scripts/misura_m14_3.py:615-694 | after the cap only calls that were in flight then are counted |
| Gateway.CrossingCounts | scripts/misura_m14_3.py:551-555 | the step that sets the cap is the end of a call in flight |
| Gateway.EveryPaymentIsOfALife | scripts/misura_m14_3.py:615-694 | in every run each payment is that of a call that arrived, was checked below the cap, forwarded and ended; the call holds, of each number, the last one its answer or its chunks declared, and its cost is what was counted |
| Gateway.EveryLifeIsPaid | scripts/misura_m14_3.py:615-694 | and every such call is counted, so: exactly these calls are |
| Gateway.ALifeIsCounted | scripts/misura_m14_3.py:551-694 | the step that ends such a call is the one that counts it |
| Gateway.WaitsAsItIs | scripts/misura_m14_3.py:615-694 | between its own steps a call stays as it is, whatever the others do, but for what its chunks declare |
| Gateway.OneAnswerSetsTheCap | scripts/misura_m14_3.py:657-671 | an answer of 300000 and 1000 tokens from Opus 5.5 is counted at 1.22 dollars and sets the cap |
| Gateway.OvershootIsInFlight | scripts/misura_m14_3.py:551-694 | what was spent stays below the cap plus what was counted, each once, of the calls in flight when it was crossed |
| Gateway.SpentIsBounded | scripts/misura_m14_3.py:551-694 | with at most k calls in flight, each at most m, what is spent stays below the cap plus k times m |
| Gateway.SpentIsBoundedByTheWorst | scripts/misura_m14_3.py:175-694 | with at most k calls in flight, all within the bounds of models whose worst case is at most m, what is spent stays below the cap plus k times m |
| Gateway.Meter.CountCall | scripts/misura_m14_3.py:551-555 | the counter after a call, and that the cap stays set exactly when it was reached |
| Processes.ChildrenAreListed | scripts/misura_m14_3.py:1058-1062 | the children of a process are exactly the rows that name it as parent |
| Processes.WalkGoesOn | scripts/misura_m14_3.py:1064-1067 | one turn of the worklist meets no process twice, and loses none |
| Processes.Descendants | scripts/misura_m14_3.py:1056-1068 | the worklist ends and returns every process that descends from the root, each once, and nothing else |
| Processes.AnOwnDescendantNeverEnds | scripts/misura_m14_3.py:1064-1067 | a process that is its own descendant keeps the worklist busy after any number of turns |
| Processes.RootOfACircleNeverEnds | scripts/misura_m14_3.py:1056-1068 | when the root is its own descendant the loop never ends |
| Processes.ItsOwnParentNeverEnds | scripts/misura_m14_3.py:1064-1067 | a process listed as its own parent keeps the loop busy for ever |
| Outcomes.AnyIsExists | scripts/generate_outcomes.py:81-92 | `any` over the parts is the existence of a part |
| Outcomes.Sound | scripts/generate_outcomes.py:76-92 | what the search finds is on a path of fields and type arguments that avoids what was seen |
| Outcomes.Complete | scripts/generate_outcomes.py:76-92 | whatever is on such a path the search finds: cut after its last visit to a model, the path avoids it |
| Outcomes.SeenIsOfThePath | scripts/generate_outcomes.py:76-92 | with any set seen the search is true if and only if such a path exists |
| Outcomes.CarriesIsReachability | scripts/generate_outcomes.py:76-92 | `carries` is true if and only if the state model or a subclass is reachable, however the models refer to one another; and it ends |
| Visible.VisibleIsRead | src/ela/domain.py:2632-2643 | what `visible` prints is read back, in both modes, by one reader |
| Visible.VisibleTellsTextsApart | src/ela/domain.py:2632-2643 | two texts never print alike |
| Visible.NothingDeceives | src/ela/domain.py:2609-2630 | a printed text holds no character of the table but the backslash and, with `lines`, newline and tab |
| Visible.UnchangedExactly | src/ela/domain.py:2609-2630 | a text prints as it is if and only if all its code points are among those the table leaves alone |
| Visible.ItemIsRead | src/ela/domain.py:2675-2675 | a quoted item ends where it ended, whatever follows |
| Visible.ListedIsRead | src/ela/domain.py:2667-2676 | a printed list is read back exactly |
| Visible.ListedTellsListsApart | src/ela/domain.py:2667-2676 | two lists never print alike |
| Matching.FirstFrom | scripts/prova_m6_3c.py:208-208 | the first line from a place on that contains what is wanted |
| Matching.Missing | scripts/prova_m6_3c.py:192-214 | the loop over the expected lines; nothing is absent if and only if they embed in the output in order |
| Matching.GreedyFinds | scripts/prova_m6_3c.py:205-213 | whatever embeds, embeds after the greedy choice too |
| Matching.FoundEmbeds | scripts/prova_m6_3c.py:205-213 | in every case the lines not reported embed in order |
| Matching.ReportedOrFound | scripts/prova_m6_3c.py:205-213 | every expected line is reported or found, and none is both |
| Matching.NothingMissingIsAnEmbedding | scripts/prova_m6_3c.py:183-214 | nothing is reported if and only if a strictly increasing assignment exists |
| Matching.ReportedIsAbsentExactly | scripts/prova_m6_3c.py:205-213 | every line reported is contained in no line of the output if and only if the expected lines that some line contains embed in order |
| Matching.ReportsMoreThanTheLeast | scripts/prova_m6_3c.py:205-213 | an output on the failing side: two lines are reported that it contains |
| Forecast.NeededByStep | scripts/prova_m13_12.py:130-144 | the two loops give, for each step, the most any of its sessions needs on top of all started before |
| Forecast.TheMost | scripts/prova_m13_12.py:147-150 | the step that needs the most, the first on a tie |
| Forecast.EverySessionIsCovered | scripts/prova_m13_12.py:138-143 | a step needs at least what each of its sessions needs |
| Forecast.SomeSessionNeedsIt | scripts/prova_m13_12.py:138-143 | and no more than one of them needs |
| Forecast.EnoughGoesThrough | scripts/prova_m13_12.py:130-150 | with the most free, every session finds its amount free, whatever each earlier one cost up to its price |
| Forecast.LessIsRefused | scripts/prova_m13_12.py:130-150 | with any less, the run at full prices refuses one |
| Forecast.ForecastIsExact | scripts/prova_m13_12.py:130-150 | no run refuses a session if and only if the most is free |
| Forecast.Margin | scripts/prova_m13_12.py:452-452 | the two functions together, on the steps of a section: what they return is exactly what must be free for no run to be refused |
| Forecast.AskingNeedsNoMore | scripts/prova_m13_12.py:142-143 | a session that only asks never raises what the section needs |
| Blocks.Find | scripts/generate_stato.py:522-523 | the first place of a marker |
| Blocks.MarkersStandApart | scripts/generate_stato.py:519-525 | occurrences of two different markers never overlap |
| Blocks.NoMarkerInThePadding | scripts/generate_stato.py:525-525 | no marker straddles the blank lines put around a body |
| Blocks.FoundWhereItWas | scripts/generate_stato.py:522-525 | a marker outside the block is found where it was, moved with the text |
| Blocks.OnlyTheBlockChanges | scripts/generate_stato.py:519-525 | after a replacement the block is found again, holds its body between two blank lines, and every character outside it is as it was |
| Blocks.BodiesAreTold | scripts/generate_stato.py:519-525 | two bodies never give one document |
| Blocks.PutIsIdempotent | scripts/generate_stato.py:519-525 | after a replacement the block holds its body, and replacing it again changes nothing |
| Blocks.PutKeepsOthers | scripts/generate_stato.py:519-525 | a block apart from the one replaced goes on holding its body |
| Blocks.PutKeepsApart | scripts/generate_stato.py:519-525 | blocks that stand apart stand apart after a replacement |
| Blocks.OrderedCommute | scripts/generate_stato.py:519-525 | replacements of two blocks that stand apart commute |
| Blocks.SwallowedIsLost | scripts/generate_stato.py:522-525 | a block inside another is lost when the other is replaced |
| Blocks.ReplacementsCommuteExactlyWhenApart | scripts/generate_stato.py:519-525 | two blocks can be replaced in both orders if and only if neither is inside the other, and then the orders agree |
| Blocks.NestedBlocksDoNotCommute | scripts/generate_stato.py:519-525 | in a document of one block inside another, by any two names, `replace` accepts either block, and refuses the inner one once the outer one was replaced |
| Blocks.RefusedExactly | scripts/generate_stato.py:522-525 | `replace` refuses if and only if a marker does not occur in the document, or a closing one stands before every opening one |
| Blocks.GeneratedHolds | scripts/generate_stato.py:528-531 | after `generate` every block holds its body between two blank lines |
| Blocks.GenerateIsAFixpoint | scripts/generate_stato.py:528-531 | `generate` changes nothing if and only if every block holds its body, and what it made it makes again |
| Blocks.Generate | scripts/generate_stato.py:528-531 | the loop over the blocks, or the refusal of the first that fails; of a document in order every block holds its body after it |
| Blocks.Update | scripts/generate_stato.py:534-550 | the three ends of the program, with and without `--check`, and the document after each: rewritten or up to date, every block holds its body |
| Blocks.RewriteThenCheck | scripts/generate_stato.py:534-550 | a check right after a rewrite passes |
| Pieces.TrimmingLosesNothing | scripts/pdf_to_spec.py:103-107 | dropping the blank lines at the end loses no line that says something, no heading and no fence |
| Pieces.EmittingKeeps | scripts/pdf_to_spec.py:78-95 | an emitted line stands outside every fence and adds its own source line and nothing else |
| Pieces.ClosingKeeps | scripts/pdf_to_spec.py:103-107 | closing a fence leaves none open and loses nothing |
| Pieces.ExtendingKeeps | scripts/pdf_to_spec.py:172-174 | a sentence that goes on is the last prose line of the document, and takes the new line at its end |
| Pieces.ASentenceGoesOn | scripts/pdf_to_spec.py:172-174 | the line it goes on in is the one before, a space and the new line |
| Pieces.SectionKeeps | scripts/pdf_to_spec.py:137-146 | a heading is the next section, with the rest of its title when it takes two lines |
| Pieces.StepKeeps | scripts/pdf_to_spec.py:114-175 | every turn keeps fences, sections and rejoined titles as the fields say, and adds to the document exactly the lines it read |
| Pieces.EveryTurnIsSound | scripts/pdf_to_spec.py:114-175 | the same after any number of turns |
| Pieces.FencesAreOddWhenOpen | scripts/pdf_to_spec.py:97-107 | of lines that are not themselves fences, the fences written are odd in number if and only if one is open |
| Pieces.FencesAtEveryTurn | scripts/pdf_to_spec.py:114-175 | after every turn the fences written are odd exactly inside a block or the diagram, the two are never open together, and a sentence that goes on is the line the document ends with |
| Pieces.SectionsInOrder | scripts/pdf_to_spec.py:137-146 | the sections are numbered from 1 without a hole |
| Pieces.ConvertedIsWhole | scripts/pdf_to_spec.py:111-205 | a conversion that passes its check has every fence closed, sections 1 to the last, the rejoined titles foreseen, and every line of the body that is not blank, once and in order |
| Pieces.SpecificationIsWhole | scripts/pdf_to_spec.py:25-46 | the converted specification has sections 1 to 70 and the four rejoined titles foreseen, all fences closed and no line lost |
| Pieces.PassesExactly | scripts/pdf_to_spec.py:199-205 | a conversion passes its check if and only if the sections and rejoined titles are those foreseen and no fence is left open |
| Pieces.SectionsAreHeaded | scripts/pdf_to_spec.py:144-144 | the number and the title of every section are read back from its line |
| Pieces.SubsectionIsRead | scripts/pdf_to_spec.py:147-150 | a subsection is read with the number of its section |
| Pieces.PointsAreRead | scripts/pdf_to_spec.py:151-158 | points keep their text, after a dash or their number |
| Pieces.HeadingsAreSections | scripts/pdf_to_spec.py:137-146 | when no line of the source begins as a heading does, the headings read in the text are the sections, in order |
| Pieces.TheSpecificationIsRead | scripts/pdf_to_spec.py:137-146 | and those read in the text of the specification are numbered 1 to 70 |
| Pieces.HeldUntil | scripts/pdf_to_spec.py:122-133 | while no line ends it, a block or the diagram holds every line and stays open |
| Pieces.ABlockEndsAtItsEnd | scripts/pdf_to_spec.py:128-133 | a verbatim block ends with the first of its lines that is its end, and holds all of them to there |
| Pieces.TheDiagramEndsBeforeAHeading | scripts/pdf_to_spec.py:122-127 | the diagram ends before the first heading that is the next section |
| Pieces.WhatNeverEndsIsRefused | scripts/pdf_to_spec.py:199-205 | a block or diagram that no line ends is refused |
| Spacing.EmittedIsSpaced | scripts/pdf_to_spec.py:78-95 | the table of gaps keeps apart what Markdown would run together |
| Spacing.AGapWhereItIsNeeded | scripts/pdf_to_spec.py:78-90 | a blank line is put before a piece if and only if it may not stand right below what is written last |
| Spacing.ConvertedIsSpaced | scripts/pdf_to_spec.py:78-175 | in a converted document a paragraph stands only below a blank line or a hard break, a point below its own list or a blank line, a heading and an opening fence below a blank line |
| PdfToSpec.Converter.Emit | scripts/pdf_to_spec.py:78-90 | the lines and the kind after one emission |
| PdfToSpec.Converter.OpenFence | scripts/pdf_to_spec.py:97-101 | the lines after a fence is opened on its first line |
| PdfToSpec.Converter.CloseFence | scripts/pdf_to_spec.py:103-107 | the lines after the blanks at the end are dropped and the fence closed |
| PdfToSpec.Converter.ContinuesWrappedSentence | scripts/pdf_to_spec.py:191-197 | whether a sentence goes on; asked where no fence is open, there is a last line to ask of |
| PdfToSpec.Converter.TakeBody | scripts/pdf_to_spec.py:147-175 | the whole new state after a line of the body |
| PdfToSpec.Converter.Turn | scripts/pdf_to_spec.py:114-175 | the whole new state after one turn of the loop, and whether the next line was taken |
| PdfToSpec.Converter.Convert | scripts/pdf_to_spec.py:111-205 | the lines of the converted document, or which check refused it |
| Commands.Refused | scripts/misura_m13_9.py:347-375 | the pass over the words; nothing is refused if and only if the arguments speak the language of the table |
| Commands.PhrasesAreRead | scripts/misura_m13_9.py:358-367 | the words of allowed phrases are taken apart as they were put together |
| Commands.WordsArePhrases | scripts/misura_m13_9.py:358-367 | words that are taken apart are words of allowed phrases, an option's value with it |
| Commands.RefusesWhatIsNotSpoken | scripts/misura_m13_9.py:347-375 | `None` is returned exactly for the language: allowed options anywhere, a valued option with the next word, objects and value counts respected |
| Commands.LoginCarriesOnlyRaw | scripts/misura_m13_9.py:129-146 | every further word of an accepted `login` or `unlock` is `--raw`, however long it is |
| Commands.TheKeyIsNeverAnArgument | scripts/misura_m13_9.py:353-354 | the session key is in no accepted launch but the question of the version |
| Decimals.DecimalIsRead | src/ela/api/companion.py:255-259 | a printed number is read back, whatever follows that is not a digit |
| Durations.PartIsRead | src/ela/api/companion.py:255-259 | the words of a count and its unit give the count back |
| Durations.PartsAreRead | src/ela/api/companion.py:271-280 | a phrase of any distinct units gives back the count of each, none for those it leaves out |
| Durations.CountsAddUp | src/ela/api/companion.py:269-270 | minutes and seconds below sixty, and the counts add up to the seconds |
| Durations.HowLongIsRead | src/ela/api/companion.py:262-280 | the exact number of seconds is read back from the phrase: no rounding |
| Durations.HowLongTellsTimesApart | src/ela/api/companion.py:262-280 | two lengths of time are never said alike |
| Numerals.PaddedHexReads | scripts/generate_design_system.py:223-223 | the two hexadecimal digits of a byte, in upper case, give the byte back |
| Numerals.RoundStaysBetween | scripts/generate_design_system.py:223-223 | rounding half to even stays between the integers around a number |
| Numerals.RoundIsNearest | scripts/generate_design_system.py:223-223 | rounding gives the nearest integer, and the even one of two as near |

## Left out

- The regular expressions that recognise an alias, a colour, a heading, a bullet or a numbered point, and JSON parsing: values, lines and frames come already recognised, and what a line of data says is a parameter.
- Floating point: alphas and prices are exact reals, and the division of decimals is not cut at 28 digits. Rounding to a byte, half to even, and rounding up to the eighth decimal are modelled.
- Upper and lower case outside ASCII in names and colours.
- The rest of the stylesheet: bands of the grid, pointer targets, reduced motion, key frames and rules of lists; and the checks of validation on lists, states, patterns, texts and contrast pairs.
- A literal that itself contains `var()` is not substituted again.
- Keys that hold a dot, which no alias can name, and leaves of a theme outside the themed groups: `Stylesheet.KeysHoldNoDot` and `Stylesheet.ThemesHoldThemed` exclude them, and validation checks neither.
- A leaf whose chain leaves the emitted paths, or two emitted paths with one name: `Stylesheet.Ready` excludes them, and validation does not check it.
- Meaning.CompilationPreservesMeaning: asks that names tell emitted paths apart and that every alias target is emitted, because a `var()` of a property nobody declares has no value; the source does not check either.
- Meaning.PlainTokensFreezeAtTheRoot: speaks of plain tokens under a root in the default theme only; `Meaning.ShownEverywhereExactly` is the statement for every token and every document.
- Meaning.OneAlphaOnAChain: leaves that validation does not walk, under a hidden key, a record or another leaf, may carry any alpha, and a chain through them is not covered; for emitted paths `Meaning.EmittedHasOneAlpha` asks nothing of the chain.
- Frozen.TheExampleHoldsTheMark: the example passes the checks of validation that are modelled, and lacks the lists and entries that the others ask for.
- AnswerProtocol.CrashesAreRepaired: compares requests and states of tasks, not the operation last recorded of a task, which `AnswerProtocol.TheRecordIsLostBetweenTheWrites` is about.
- The audit record of the engine, its third write, and the operations on steps; the clock appears as a refusal that any move may meet.
- Locks of a second process: a lock is held by one engine, in memory, and a crash releases it.
- What follows an answer: the run of a task, closing the step of a denied one, and the plan it belonged to. `AnsweredAndResumed` says when a run follows.
- Identities, prompts and texts of requests and events.
- Chunks that cut a UTF-8 character, since each is decoded alone: the text is ASCII. Lines that end with a carriage return frame no event, as in the source.
- HTTP, sub-processes, timeouts and signals: a failure before an answer, during it, or a stream that never starts is a step of the gateway, and such a call is not counted.
- The reason to stop, the tools and the error of an answer that is not streamed, which cost nothing: `Gateway` takes its numbers and its end.
- In `Gateway` a frame acts on the call of its handler; the object shared by reader and gateway is modelled in `Sse.LiveCall` for one reader at a time.
- Lone surrogates: a character of `Visible` is a Unicode scalar value.
- Splitting lines into words, and filling the identifiers of a task, before `missing` compares them.
- Reading plans and their prices: a section is given as its sessions, in the order they are met.
- The bodies of the generated blocks, and file reading and writing in the generators.
- The preamble of the converted document, put before its lines; reading the PDF.
- PdfToSpec.Converter.Convert: takes lines of which a page break is blank, as the extraction makes them.
- Negative numbers of seconds in `how_long`.
- The words of each refusal: a refusal is a case of a datatype, with what the message names.
