# Verification of the research agent's state machines

A Dafny model of the parts of this repository whose correctness spans several functions or a
whole run, with proofs. `dafny verify dfyconfig.toml` checks everything.

The central subject is the conversation history. The ReAct loop (`src/core/agent.py`) appends
assistant turns and tool results; four compaction layers (`src/core/context.py`), an in-place pruner
(`src/coordinator/context_prune.py`) and checkpoint, seal and resume
(`src/coordinator/checkpoint.py`, `src/coordinator/orchestrator.py`) rewrite it. All of them have to
keep one property that no single function can see: each `tool_use` is answered by its `tool_result`
in the next message, exactly once, and no result is without its call.

| file | subject |
|---|---|
| `Messages` | messages, blocks, pairing, and what pairing depends on |
| `Context`, `ContextLaws` | compaction layers 1-3 as loops, and their laws |
| `AgentSpec`, `Agent` | a run as a function of its environment, and the classes that carry it out |
| `SummaryLaws`, `ToolLaws`, `TurnLaws` | what a compaction asks for and keeps, which result answers which call, retries, recoveries, nudges and turns counted |
| `RunSafety`, `CompactionCuts` | pairing over whole runs, and exactly which cuts keep it |
| `RegularRuns`, `KeepRecent`, `Conditions` | conditions under which every run keeps it, and that each of them is needed |
| `PrunedRuns` | runs whose tools prune the held list |
| `Resume`, `Restart` | sealing, nudging, cancellation at any await, restarting from disk |
| `ContextPrune`, `ContextPruneLaws` | the in-place pruner on an array of messages |
| `PythonText`, `MessageLog` | the JSON-lines history file, torn lines, interrupted writes |
| `EventBus`, `Hitl`, `Gates` | snapshot dispatch, the human-in-the-loop handshake over all interleavings |
| `IdeaTree`, `IdeaIds`, `TreePersistence`, `Decimal` | the idea tree, minted ids, save and load |
| `Fingerprint` | the build profile canonicaliser |
| `Ledger`, `LedgerLaws`, `Convergence` | the live ledger and the convergence detector |
| `ConfigMerge`, `ResolvedLaws`, `ConfigModel`, `ConfigPrecedence` | layered configuration, flat and nested spellings, the model object |
| `Chart` | the best-so-far frontier |
| `Basics` | shared definitions |

How the model is set up:

- Provider replies, summaries, tool outputs, notes, token estimates and prompt texts are arbitrary
  functions in `Env`; theorems about runs hold for all of them. Retries, cancellation points and saves
  are entries of a log, so a statement about the log is one about every attempt of every turn.
- Code that changes objects or works by loops is a class or a method proved equal to a specification
  function; the theorems are about those functions.
- The human-in-the-loop protocol is a transition system; a run is any list of steps that can be taken.

Where the code and its documentation or intent part ways, the model follows the code:

- Layer 1 is not idempotent: the marker pushes a truncated text over the limit again
  (`ContextLaws.TruncateIdempotentExactly`). It settles by the third application.
- Compaction can split a call from its result: with `keep_recent` not a multiple of 4, after a failed
  summary, behind injected notes, or when emergency truncation runs without a summary. A truncated turn
  with calls that is answered by text is the other way pairing breaks. `CompactionCuts` and `RunSafety`
  give exact conditions, `KeepRecent` and `Conditions` whole runs.
- `prune(prune(m) + s) == prune(m + s)` fails when `s` brings a new anchor and the first pruning
  changed something (`ContextPruneLaws.PruneIncrementalExactly`).
- The two copies of a pending question can end up different when dispatches overlap
  (`Gates.CopiesAgreeExactly`).
- A reply can be passed on after the wait's future has settled, and since Python 3.12 a settled reply
  can be lost to the timer (`Hitl.ReplyCanBeLate`, `Hitl.ReplyCanBeLost`).
- A line of the history file that holds U+0085, U+2028 or U+2029 is torn on reading
  (`MessageLog.ReadUndoesWriteExactly`).
- Writing a setting through its flat name need not read back, and can change another one, because
  the subgroups validate assignments (`ConfigModel.PlainExactly`).
- A proposal of an id already counted in the ledger leaves the counters wrong until the next recount
  (`LedgerLaws.ProposalKeepsCountersExactly`).
- The best score can miss a completed idea: one whose score was stored before the direction changed and
  that completes without reporting it again (`LedgerLaws.BestCoversExactly`).
- Directive keys written inside a role section are not dropped (`ConfigMerge.DirectivesLeakExactly`).
- A flat configuration key beats a nested one of a higher layer, and a null in the role section
  erases the shared value (`ConfigModel`, `ConfigMerge.RoleNullExactly`).
- The chart calls the falling step of the frontier a regression; when minimizing it is what every
  visible improvement draws (`Chart.MinimizingImprovementFalls`).

## Model

| member | source | states |
|---|---|---|
| `Messages.CutIsPairedExactly` | src/coordinator/checkpoint.py:245-256 | Dropping the stretch between two positions of a paired history (every `tool_use` answered once in the next message, no orphan `tool_result`) keeps it paired if and only if the results found after the cut answer the calls left before it. |
| `Messages.ResultTextIrrelevantToPairing` | src/core/context.py:83-227 | Rewriting only the text of tool results never changes whether a history is paired. |
| `Context.TruncateLongToolResults` | src/core/context.py:83-115 | The loop of layer 1 cuts every text result over 15,000 characters to its first 10,000 and last 5,000 around a marker with the number dropped, and touches nothing else. |
| `Context.SnipOldToolResults` | src/core/context.py:122-158 | The loop of layer 2 cuts text results over 500 characters before the boundary to their first 200 plus the snip note; from the boundary on nothing changes. |
| `Context.CollectReadPositions` | src/core/context.py:174-189 | The first pass of layer 3 records, for every path, exactly the positions of the messages that read it, with repetition, in order. |
| `Context.CollectSnipIds` | src/core/context.py:191-206 | The ids collected for discarding are exactly those of superseded reads. |
| `Context.DropRedundantReads` | src/core/context.py:165-227 | The whole of layer 3: results of superseded reads before the boundary are replaced by the re-read note. |
| `Context.AllButLastSuperseded` | src/core/context.py:193-198 | The positions layer 3 condemns (all but the last recorded one) are exactly the superseded ones: the path is read again by a later message, or twice by the same one. |
| `ContextLaws.LayersKeepPairing` | src/core/context.py:83-227 | The three layers keep any history paired, or unpaired, whatever the boundary. |
| `ContextLaws.TruncateTouchesResultTextOnly` | src/core/context.py:83-115 | Layer 1 keeps length, roles, text blocks, `tool_use` blocks, result ids and error flags. |
| `ContextLaws.SnipTouchesResultTextOnly` | src/core/context.py:122-158 | The same for layer 2. |
| `ContextLaws.TruncatedBlock` | src/core/context.py:83-115 | Block by block: every result text over 15,000 characters becomes its first 10,000, the marker with the number dropped and its last 5,000; every other block is unchanged. |
| `ContextLaws.SnippedBlock` | src/core/context.py:122-158 | Block by block: in front of the spared messages every result text over 500 characters becomes its first 200 and the snip note; every other block is unchanged. |
| `ContextLaws.DropTouchesResultTextOnly` | src/core/context.py:165-227 | The same for layer 3. |
| `ContextLaws.SnipIncremental` | src/core/context.py:122-158 | Snipping a history, extending it and snipping again gives what snipping the extended history at once gives, although the boundary has advanced. |
| `ContextLaws.SnipTextExactly` | src/core/context.py:140-152 | Layer 2 changes a result text if and only if it is over 500 characters, keeps its first 200 and leaves at most 500. |
| `ContextLaws.SnipIdempotent` | src/core/context.py:122-158 | Layer 2 twice is layer 2 once. |
| `ContextLaws.TruncationKeepsEnds` | src/core/context.py:83-115 | After any number of applications an oversized result still has its original first 10,000 and last 5,000 characters and is at most 15,000 plus one marker long. |
| `ContextLaws.TruncateIdempotentExactly` | src/core/context.py:83-115 | Layer 1 applied twice equals layer 1 applied once if and only if the text has at most 15,000 characters or exactly 15,030. |
| `ContextLaws.TruncationSettlesByThirdExactly` | src/core/context.py:83-115 | The third application is a fixed point if and only if fewer than 10^71 characters were over the limit (in particular for every text that fits in memory). |
| `ContextLaws.StaleExactly` | src/core/context.py:191-206 | A read is discarded if and only if a later message before the boundary reads the path again or its own message reads it twice, so even a newest read is discarded when its message repeats it. |
| `ContextLaws.NewestReadKept` | src/core/context.py:165-227 | With unique call ids and no message reading a path twice, the newest read of a path before the boundary keeps its result. |
| `ContextLaws.ReadResultReplacedExactly` | src/core/context.py:165-227 | With unique call ids the result of a `Read` call naming a file, made in front of the spared messages, gives way to the re-read note if and only if a later message in front of them, or another call of its own message, reads the file. |
| `ContextLaws.OtherBlocksKept` | src/core/context.py:165-227 | A result whose id belongs to no discarded read is unchanged. |
| `ContextLaws.DropIdempotent` | src/core/context.py:165-227 | Layer 3 twice is layer 3 once. |
| `Agent.ContextManager.SummarizeOldMessages` | src/core/context.py:355-420 | Layer 4: the provider is asked to summarise exactly the messages in front of the last `keep_recent` ones, which follow the summary; the newer half when the call fails, nothing for a short history. |
| `Agent.ContextManager.MaybeCompact` | src/core/context.py:301-353 | The escalation through four layers and emergency truncation, each only while still over the threshold. |
| `Agent.Agent.CallLlmWithRecovery` | src/core/agent.py:451-544 | The retry loop: context errors compact harder on the first and second attempt and give up on the third; transient and other errors retry up to their limits. |
| `Agent.Agent.ExecuteTools` | src/core/agent.py:550-601 | One result per call, each with its own call's id and output, at the place where the call is executed: read-only and unknown tools first, then writing tools in order. |
| `Agent.Agent.Prepare` | src/core/agent.py:286-316 | Draining notes, compacting and saving a checkpoint before a turn. |
| `Agent.Agent.Answer` | src/core/agent.py:349-439 | What a turn does with its reply: recovery prompt up to three times, nudge up to three times, completion, or tool results. |
| `Agent.Agent.Run` | src/core/agent.py:274-443 | The whole run, with the messages, counters and the log of all lists handed out equal to the run function. |
| `SummaryLaws.SummaryAsksForTheRest` | src/core/context.py:360-420 | After a successful summary the list is a numbered message ending with the provider's text, an acknowledgement, and a suffix of the old list; what the provider was asked to summarise is exactly the rest of it. |
| `SummaryLaws.NoSummaryKeepsNewerHalf` | src/core/context.py:398-401 | After a failed summary exactly the newer half is kept. |
| `SummaryLaws.SummariesAreAskedOfTheRest` | src/core/context.py:360-420 | Over every run each summary cut, and each halving, directly follows a request to summarise exactly the messages in front of the last `keep_recent` ones of that list. |
| `SummaryLaws.LayersBlock` | src/core/context.py:83-227 | What layers 1 to 3 together make of any block: results of superseded reads give way to the note, other result texts are shortened by layer 1 and, in front of the spared messages, by layer 2, and nothing else changes. |
| `SummaryLaws.FirstStageThatFits` | src/core/context.py:301-340 | Of the list and its three rewritings the first under the threshold is the result, and nothing is sent, logged or counted. |
| `SummaryLaws.NoStageFits` | src/core/context.py:342-353 | When none is, the compaction is counted once, and the result is what layer 4 makes of the last one or, if that is still over, its first two and last `keep_recent // 2` messages. |
| `ToolLaws.ResultBelongsToItsCall` | src/core/agent.py:550-640 | Every call finds its own result behind as many results as calls had to run before it (earlier calls of its class and, for a writing call, all others): its id with its own output and error flag, or an error naming the unknown tool. |
| `ToolLaws.PlacesDiffer` | src/core/agent.py:550-601 | No two calls are executed at the same place. |
| `ToolLaws.CallsAreTheToolBlocks` | src/core/agent.py:391-391 | The calls of a turn are all its tool blocks, in order. |
| `TurnLaws.CalledTries` | src/core/agent.py:451-544 | The provider is called as often as its failures are tolerated: transient ones up to the configured attempts, other ones twice, context errors three times; the list is the same each time but for the three layers after a first context error and the summary after a second. |
| `TurnLaws.NotesFollow` | src/core/agent.py:283-304 | Notes follow the list in order, those of the user marked and in front of those of the tools, and nothing else changes. |
| `TurnLaws.RunBegins` | src/core/agent.py:274-278 | A run starts its first turn with the given message behind the list, or the list alone for an empty message, and with no nudges. |
| `TurnLaws.FirstThreeRecovered` | src/core/agent.py:363-384 | Of truncated turns in a row, from a start or from a turn that was not truncated, a turn is answered with the recovery prompt if and only if it is among the first three. |
| `TurnLaws.FirstThreeNudged` | src/core/agent.py:391-419 | Of idle turns in a row (no tools, more work promised), from a start or from a turn that called tools, the first three are nudged on while a turn is left, and the next one finishes the run. |
| `TurnLaws.RowsEnd` | src/core/agent.py:383-425 | A turn that is not truncated ends a row of recoveries, and one that calls tools also a row of nudges. |
| `TurnLaws.OtherwiseToolsDecide` | src/core/agent.py:391-439 | Any other turn goes on if and only if it calls tools, and then ends on one user message with their results. |
| `TurnLaws.RunTakesItsTurns` | src/core/agent.py:274-443 | A run saves its list once a turn, takes at most `max_turns` turns, and all of them if it runs out. |
| `RunSafety.SummaryCutExactly` | src/core/context.py:360-420 | The summary cut keeps pairing if and only if the kept part does not start with results. |
| `RunSafety.FallbackCutExactly` | src/core/context.py:398-401 | The blind cut at half after a failed summary keeps pairing if and only if no results stand there. |
| `RunSafety.EmergencyCutExactly` | src/core/context.py:347-351 | Emergency truncation, overlapping or not, keeps pairing under exactly the stated condition on its two cut positions. |
| `RunSafety.TextReplyExactly` | src/core/agent.py:363-375 | Answering a truncated turn with text keeps pairing if and only if the turn made no calls. |
| `RunSafety.ExecutionOrderIsPermutation` | src/core/agent.py:556-571 | Reordering by tool class loses and repeats no call. |
| `RunSafety.ReadsBeforeWrites` | src/core/agent.py:550-601 | No writing tool runs before a read-only one, and the calls of one class keep the order they were made in. |
| `RunSafety.ExecutedAnswers` | src/core/agent.py:550-601 | The results of a turn answer exactly its calls. |
| `RunSafety.NetCutExactly` | src/core/context.py:342-420 | The two parts a compaction keeps of a paired list, behind messages that neither call nor answer, are paired if and only if they do not open with results and the results after the gap answer the calls in front of it. |
| `RunSafety.LastResortExactly` | src/core/context.py:342-420 | The list that comes out of summary, fallback and emergency truncation together is paired if and only if what they keep of the list that went in fits together, so a summary cut that splits a pair may be repaired by the emergency cut behind it. |
| `RunSafety.LoopExact` | src/core/agent.py:274-443 | The loop invariant behind the run theorem, from any state and turn: as long as all was clean every list is paired, and an unclean compaction or text reply shows in the log or in the list in hand. |
| `RunSafety.RunPairedExactly` | src/core/agent.py:274-443 | For every environment and configuration, tools that rewrite the held list without changing its shape included: every list handed to the provider on any attempt, saved, or held at the end of a turn is paired, every list held at an await is paired up to its last turn, and the run ends paired, if and only if each compaction keeps parts that fit together and no truncated turn with calls is answered by text. |
| `RunSafety.RunKeepsPairing` | src/core/agent.py:274-443 | The direction of it that the other theorems use, from any log: a clean run hands out, saves and holds only paired lists and ends paired. |
| `PrunedRuns.PruningIsAllowed` | src/coordinator/orchestrator.py:611-624 | Pruning the held list in the middle of any turns is among those rewritings. |
| `PrunedRuns.PruningRunKeepsPairing` | src/coordinator/orchestrator.py:611-624 | The same, in both directions, for runs in which any choice of turns prunes the held list while its tools execute. |
| `RegularRuns.RegularRunKeepsPairing` | src/core/agent.py:274-443 | With `keep_recent` a positive multiple of 4, successful summaries, no notes, no truncated turn with calls, and every emergency truncation of this run following a summary, the run is clean, so all of the above holds outright, from a fresh or resumed history and for any token estimator. |
| `RegularRuns.FreshRunKeepsPairing` | src/core/agent.py:247-259 | The same for a fresh agent given its first message. |
| `PrunedRuns.PruningRegularRunKeepsPairing` | src/coordinator/orchestrator.py:611-624 | The same when any turns prune the held list. |
| `KeepRecent.WorkerRun` | src/core/context.py:342-420 | For every positive `keep_recent` there is a fresh run meeting all the other conditions that makes a summary cut and, when the value is even, an emergency cut: so regular runs that compact exist for every multiple of 4, and for every other value this run hands an unpaired list to the provider. Its estimator counts messages and each turn calls a tool. |
| `KeepRecent.KeepRecentExactly` | src/core/context.py:342-420 | A positive `keep_recent` keeps every otherwise regular fresh run from handing out an unpaired list if and only if it is a multiple of 4. |
| `Conditions.BreaksAlone` | src/core/agent.py:274-443 | For every `keep_recent` that is a positive multiple of 4 and each other condition (summaries succeed, no user notes, no tool notes, no truncated turn with calls, summary before emergency truncation) a fresh run that meets all the rest and hands an unpaired list to the provider. |
| `Conditions.ConditionsExactly` | src/core/agent.py:274-443 | For such a `keep_recent` a choice of these conditions keeps every fresh run from handing out an unpaired list if and only if it is all of them. |
| `CompactionCuts.FirstSummaryExactly` | src/core/context.py:360-420 | In a history whose turns all call tools, the first summary keeps pairing if and only if `keep_recent` is even. |
| `CompactionCuts.FirstEmergencyExactly` | src/core/context.py:347-351 | After it, emergency truncation keeps pairing if and only if half of `keep_recent` is even. |
| `CompactionCuts.MultiplesOfFourExactly` | src/core/context.py:347-420 | Both together keep pairing if and only if `keep_recent` is a multiple of 4. |
| `CompactionCuts.EmergencyWithoutSummaryBreaks` | src/core/context.py:342-351 | A concrete paired history that emergency truncation without a prior summary leaves unpaired. |
| `CompactionCuts.FallbackBreaks` | src/core/context.py:398-401 | A concrete paired history that the fallback after a failed summary leaves unpaired. |
| `Resume.SealedPaired` | src/coordinator/checkpoint.py:245-277 | Sealing completes any history that is paired up to its last turn. |
| `Resume.SealedIdentityExactly` | src/coordinator/checkpoint.py:245-277 | On such a history sealing is the identity if and only if it was already paired. |
| `Resume.SealedAppends` | src/coordinator/checkpoint.py:245-277 | Sealing adds an error result for each call of a last assistant turn, in order and in one user turn, and otherwise nothing. |
| `Resume.SealedIdempotent` | src/coordinator/checkpoint.py:245-277 | Sealing twice is sealing once, for every history. |
| `Resume.AppendResumeNudge` | src/coordinator/orchestrator.py:680-700 | The nudge is folded into a trailing user turn with string or list content, otherwise appended as a new user turn. |
| `Resume.NudgedPaired` | src/coordinator/orchestrator.py:680-700 | After the nudge the history is still paired and ends on a user turn. |
| `Resume.NudgedKeepsHistory` | src/coordinator/orchestrator.py:680-700 | The nudge is added behind everything there was: behind the text or the blocks of a last user turn, or as a turn of its own. |
| `Resume.NudgedAlternatesExactly` | src/coordinator/orchestrator.py:680-700 | The nudge creates no new pair of adjacent user turns, except exactly when the last turn is a user turn without content. |
| `Resume.CancelledRunResumes` | src/coordinator/checkpoint.py:245-277 | Whatever await a clean run is cancelled at, sealing and nudging what it held gives a paired history ending on a user turn. |
| `Resume.ResumedRunKeepsPairing` | src/coordinator/orchestrator.py:327-349 | A run cancelled at any await, or killed and left with any list it saved, and resumed under possibly other settings meeting the conditions above, again hands out only paired lists. |
| `Restart.TornFileResumes` | src/coordinator/orchestrator.py:327-349 | From any character-prefix of the file of a history that is paired up to its last turn, reading, sealing and nudging give a paired history ending on a user turn; an empty one gives way to the initial prompt. |
| `Restart.RestartKeepsHistory` | src/coordinator/orchestrator.py:327-349 | A restart keeps every message but the last as it was and everything the last one holds; an empty history gives way to the prompt. |
| `Restart.KilledRunResumes` | src/coordinator/orchestrator.py:327-349 | A clean run killed after any file step of any save, and restarted from what the file then holds, goes on from the prompt or from one of the lists it saved, paired and ending on a user turn. |
| `ContextPrune.FindConstraintsAnchor` | src/coordinator/context_prune.py:59-78 | The index of the last assistant turn calling the constraints view, or none. |
| `ContextPrune.CollectSkillToolUseIds` | src/coordinator/context_prune.py:81-108 | Exactly the ids of ideation skill loads after the anchor. |
| `ContextPrune.RewriteAssistantMessage` | src/coordinator/context_prune.py:111-151 | In place on one turn: thinking goes, all text becomes one stub at the place of the first; the flag says exactly whether the turn changed. |
| `ContextPrune.RewriteSkillToolResults` | src/coordinator/context_prune.py:154-174 | In place on one turn: bodies of the given skill loads become the stub; the count is the number of blocks that changed. |
| `ContextPrune.PruneIdeateContext` | src/coordinator/context_prune.py:177-219 | The whole in-place pruning of the list and its three statistics. |
| `ContextPruneLaws.ReasonlessKeepsActions` | src/coordinator/context_prune.py:111-151 | Pruning an assistant turn keeps every other block in order, keeps call and result ids, and leaves one stub text if and only if there was text. |
| `ContextPruneLaws.ElidedExactly` | src/coordinator/context_prune.py:154-174 | Behind the last call of `TreeView` with `format` `constraints`, a block of a user turn is replaced if and only if it answers a `LoadSkill` of one of the two ideation skills made there, and then only its body; elsewhere nothing is. |
| `ContextPruneLaws.ReasoningElidedExactly` | src/coordinator/context_prune.py:111-152 | Behind it an assistant turn keeps its tool calls and other blocks in order, with one stub where its first text stood and none if it had no text; elsewhere it is unchanged. |
| `ContextPruneLaws.StatsExactly` | src/coordinator/context_prune.py:177-215 | The statistics are the position of the last constraints view and the numbers of assistant turns and of user blocks that pruning changes. |
| `ContextPruneLaws.PrunedKeepsPairing` | src/coordinator/context_prune.py:177-219 | Pruning keeps the message count, everything up to the anchor, all roles and ids, and pairing in both directions. |
| `ContextPruneLaws.PruneIncremental` | src/coordinator/context_prune.py:177-219 | Pruning, extending without a new anchor and pruning again equals pruning the extended list at once. |
| `ContextPruneLaws.PruneIncrementalExactly` | src/coordinator/context_prune.py:177-219 | For every extension the law holds if and only if the extension has no anchor or the first pruning changed nothing. |
| `ContextPruneLaws.PruneIdempotent` | src/coordinator/context_prune.py:177-219 | Pruning again changes nothing and reports the same anchor with zero counts. |
| `MessageLog.ReadMessages` | src/coordinator/checkpoint.py:221-242 | The tolerant reader: blank and unparsable lines are skipped, a missing file is an empty history. |
| `MessageLog.SplitLinesExactly` | src/coordinator/checkpoint.py:234-234 | Splitting a text at its first break: the break ends a line, a carriage return together with the line feed behind it, and a text without one is one line or none. |
| `MessageLog.EscapeBreaksExactly` | src/coordinator/checkpoint.py:203-205 | An escaped string holds a line break if and only if the original holds U+0085, U+2028 or U+2029. |
| `MessageLog.UnescapeUndoesEscape` | src/coordinator/checkpoint.py:203-205 | Every string, whatever its characters, reads back from its quoted form as it was. |
| `MessageLog.DumpsBreaksExactly` | src/coordinator/checkpoint.py:203-205 | A message takes exactly one line of the file if and only if its strings are free of those three. |
| `MessageLog.ReadUndoesWrite` | src/coordinator/checkpoint.py:197-242 | Reading back a written history of such messages gives the history. |
| `MessageLog.ReadIsLineSafe` | src/coordinator/checkpoint.py:221-242 | Whatever history was written, each message read back fits on one line, pieces of torn documents included. |
| `MessageLog.ReadUndoesWriteExactly` | src/coordinator/checkpoint.py:197-242 | Reading undoes writing if and only if each message is free of the three breaks. |
| `MessageLog.ReadPrefix` | src/coordinator/checkpoint.py:221-242 | Reading any character-prefix of the file gives a prefix of the messages. |
| `MessageLog.UnsafeMessageTorn` | src/coordinator/checkpoint.py:221-242 | A message with one of the three breaks is torn apart and its first line is lost to the reader. |
| `MessageLog.InterruptedWrite` | src/coordinator/checkpoint.py:197-219 | After any number of its file steps a write has left the new history if the file was replaced, and the old one otherwise. |
| `MessageLog.WriteCompletes` | src/coordinator/checkpoint.py:197-218 | A write that nothing interrupts can carry out its steps, replaces the file and leaves no temporary one. |
| `EventBus.EventBus.OnEvent` | src/events/bus.py:32-34 | Registration appends to the type's subscribers, creating the list if need be. |
| `EventBus.EventBus.OffEvent` | src/events/bus.py:40-52 | Removal takes out the first registration of the callback and tolerates unknown ones. |
| `EventBus.EventBus.Emit` | src/events/bus.py:54-101 | An event reaches exactly the subscribers registered when it was emitted, in order, whatever the callbacks add or remove meanwhile: synchronous ones are called, asynchronous ones only scheduled and only when an event loop runs; the registrations afterwards are the reactions of those called, applied in order. |
| `EventBus.EveryoneReachedOnce` | src/events/bus.py:54-93 | The called and the scheduled ones together are the subscribers of the snapshot, each as often as registered. |
| `EventBus.ReachedInOrder` | src/events/bus.py:54-93 | Each subscriber is reached behind exactly those of its kind that come before it in the snapshot. |
| `EventBus.ReachedAsRegistered` | src/events/bus.py:32-93 | After any sequence of registrations and removals an event reaches a callback as often as it is then registered for the type and for all types, the former first. |
| `EventBus.OffUndoesOnExactly` | src/events/bus.py:32-52 | `off` undoes `on` if and only if nothing else was registered after the first earlier registration of the same callback. |
| `Hitl.InvHolds` | src/coordinator/hitl.py:22-73 | The protocol invariant over every interleaving of coroutine, loop queue, dispatches, timer, cancellation and other subscribers, the time between the timer and the coroutine's wake-up included. |
| `Hitl.SettlesOnce` | src/coordinator/hitl.py:40-42 | Once settled, the future never changes again. |
| `Hitl.LateReplyIsHarmless` | src/coordinator/hitl.py:40-53 | A reply passed on after the future has settled, because it was tested before, changes neither the future nor what the wait returns. |
| `Hitl.ReplyCanBeLate` | src/coordinator/hitl.py:44-53 | A concrete run in which two threads test the open future and the second passes its reply on after the first has settled it. |
| `Hitl.ReturnedValue` | src/coordinator/hitl.py:44-71 | The wait returns the value of the first reply queued, which names this wait's node, or no node, or answers a wait without one, with no fallback emitted; or nothing after exactly one fallback. |
| `Hitl.DeliveredExactly` | src/coordinator/hitl.py:44-53 | A reply reaching the closure of an open wait is passed on to the loop if and only if one side names no node or both name the same; any other reply, and any reply after settling, is done with. |
| `Hitl.OthersAreIgnored` | src/coordinator/hitl.py:44-71 | Over every interleaving in which all replies name other nodes, a wait that names its own queues none of them, is never settled by a result and never returns a value. |
| `Hitl.ReplyReturnedExactly` | src/coordinator/hitl.py:62-71 | A finished wait returns its first queued reply if and only if the timer did not win; if it did, it returns nothing after one fallback, even when a reply had settled the future. |
| `Hitl.ReplyCanBeLost` | src/coordinator/hitl.py:62-71 | A concrete run in which the timer fires between settling and waking up and the settled reply is lost. |
| `Hitl.ExitRestoresSubscribers` | src/coordinator/hitl.py:54-73 | Every exit (reply, timeout, cancellation before or after the timer fires) leaves the subscriber list as if the wait had never registered. |
| `Hitl.CancelEnds` | src/coordinator/hitl.py:54-73 | A wait can be cancelled before and after its timer fires, and then leaves every subscriber list as without it. |
| `Hitl.EveryWaitCanEnd` | src/coordinator/hitl.py:54-73 | From every state that any interleaving leads to, the wait can be brought to its end in at most six steps: it never gets stuck. |
| `Hitl.FallbackNeverReenters` | src/coordinator/hitl.py:65-71 | The fallback event carries no value and is never delivered to the wait that emitted it. |
| `Hitl.FallbackReachesOthers` | src/coordinator/hitl.py:62-71 | After every interleaving that ends in a timeout the fallback goes out to exactly the other subscribers of that moment. |
| `Hitl.FallbackIsSent` | src/coordinator/hitl.py:62-71 | A wait that counts as having fallen back has sent the event. |
| `Hitl.SnapshotFixed` | src/events/bus.py:88-93 | Registering or removing during a dispatch never changes whom that dispatch still reaches. |
| `Gates.CopiesAgree` | src/coordinator/orchestrator.py:924-930 | Without overlapping dispatches the orchestrator's and the dashboard's pending question agree after each dispatch. |
| `Gates.LastDecides` | src/coordinator/orchestrator.py:924-930 | In every run, with any number of overlapping dispatches, each copy is the one left by the last dispatch to reach its observer. |
| `Gates.CopiesAgreeExactly` | src/cli/run_state.py:347-361 | In every run the two copies agree if and only if the last dispatches to reach the two observers left the same. |
| `Gates.OverlapAgreesExactly` | src/cli/run_state.py:347-361 | After two overlapping dispatches they agree if and only if both observers see the same order or the events have the same effect. |
| `Gates.OverlapCanDisagree` | src/coordinator/orchestrator.py:924-930 | A concrete overlap after which the checkpoint has lost a question the dashboard still shows. |
| `IdeaTree.IdeaTree.AddNode` | src/coordinator/idea_tree.py:221-237 | Adding a node: the two errors, the parent's child list extended once, everything else unchanged. |
| `IdeaTree.AddErrorExactly` | src/coordinator/idea_tree.py:221-237 | A taken id is one error, a missing parent the other, and anything else is added. |
| `IdeaTree.IdeaTree.UpdateNode` | src/coordinator/idea_tree.py:239-268 | Fields are written one by one up to the first unknown one, which is an error; no other node changes. |
| `IdeaTree.IdeaTree.GetPathToRoot` | src/coordinator/idea_tree.py:190-198 | The loop up the parents terminates and yields the path, empty for an unknown id. |
| `IdeaTree.IdeaTree.PruneNode` | src/coordinator/idea_tree.py:270-290 | The recursive descent terminates and marks exactly the nodes whose path to the root contains the given one. |
| `IdeaTree.PathEndsAtRoot` | src/coordinator/idea_tree.py:190-198 | Every path ends at the root. |
| `IdeaTree.SubtreeByChildren` | src/coordinator/idea_tree.py:275-288 | A node lies below another by parents if and only if it is that node or lies below one of its children. |
| `IdeaTree.AddKeepsTree` | src/coordinator/idea_tree.py:221-237 | Adding a childless node under a parent keeps the structure a tree with exact parent and child agreement. |
| `IdeaTree.UpdateKeepsTree` | src/coordinator/idea_tree.py:239-268 | Updates keep it a tree. |
| `IdeaTree.LastWriteHolds` | src/coordinator/idea_tree.py:239-268 | Each field named in an update ends with the value given to it last, up to the first unknown field. |
| `IdeaTree.UnwrittenFieldKept` | src/coordinator/idea_tree.py:239-268 | Every other field keeps its value. |
| `IdeaTree.PrunedTreeOk` | src/coordinator/idea_tree.py:270-290 | Pruning keeps it a tree. |
| `IdeaTree.AfterOk` | src/coordinator/idea_tree.py:221-290 | Any run of adds, updates and prunes, failing calls included, leaves a tree. |
| `IdeaTree.PruneDuality` | src/coordinator/idea_tree.py:190-290 | After any such run, pruning marks a node if and only if its path to the root contains the target; no path, no other field, no insight but the target's and no other node changes. |
| `IdeaTree.PrunedInsightExactly` | src/coordinator/idea_tree.py:275-288 | The pruned node keeps its insight with the reason behind it, leading white space aside; without a reason, and below it, nothing but the status changes. |
| `Decimal.ValueOfDigits` | src/coordinator/idea_tree.py:306-329 | Reading back a printed natural number gives the number. |
| `IdeaIds.NextChildId` | src/coordinator/idea_tree.py:306-329 | The loop over the children: one more than the largest number matching the parent's pattern. |
| `IdeaIds.ChildIdInjective` | src/coordinator/idea_tree.py:306-329 | A minted id determines its parent and its number, dots and the special root prefix included. |
| `IdeaIds.NumberExactly` | src/coordinator/idea_tree.py:306-329 | The pattern for children of a parent matches exactly its prefix, if it is not the root, followed by a number. |
| `IdeaIds.NextIdExactly` | src/coordinator/idea_tree.py:306-329 | The next number is one more than the largest among the children's ids, and 1 if there is none. |
| `IdeaIds.NextIdIsFresh` | src/coordinator/idea_tree.py:306-329 | In a tree of minted ids the next id for any parent is absent from the whole tree. |
| `IdeaIds.RunKeepsMinted` | src/coordinator/idea_tree.py:221-329 | Any run of proposals, updates and prunes keeps a tree of minted ids and loses none of them. |
| `IdeaIds.MintedIdsAreFresh` | src/coordinator/idea_tree.py:221-329 | After any such run the next proposal never reuses an id, pruned ones included, and `add_node` does not raise. |
| `TreePersistence.NodeRoundTripExactly` | src/coordinator/idea_tree.py:68-112 | A node survives `to_dict` and `from_dict` if and only if its attempt is not 0 and its evaluation status and stop reason are not the empty string. |
| `TreePersistence.KeysExactly` | src/coordinator/idea_tree.py:68-94 | Six keys are always written and each other one if and only if the field holds something. |
| `TreePersistence.DefaultsExactly` | src/coordinator/idea_tree.py:96-112 | What a dictionary with nothing but an id reads as. |
| `TreePersistence.OldScoreName` | src/coordinator/idea_tree.py:96-112 | The score's old name is read if the new one is missing, and the new one otherwise. |
| `TreePersistence.LoadJson` | src/coordinator/idea_tree.py:361-377 | Loading reads the root first, then every other entry in table order, and fails on any unreadable one. |
| `TreePersistence.LoadFailsExactly` | src/coordinator/idea_tree.py:361-377 | Loading fails if and only if the root is not in the table or some entry names no node. |
| `TreePersistence.LoadAfterSave` | src/coordinator/idea_tree.py:348-377 | Load after save gives the same ids in order, root, depth limit and metadata over the defaults, with every node as `from_dict` restores it. |
| `TreePersistence.TreeRoundTripExactly` | src/coordinator/idea_tree.py:348-377 | Load undoes save if and only if every node survives and the metadata holds all default keys. |
| `TreePersistence.RequeueRunning` | src/coordinator/orchestrator.py:796-801 | Resuming resets running nodes to pending. |
| `TreePersistence.RequeuedTreeOk` | src/coordinator/orchestrator.py:796-801 | The re-queued tree is still a tree. |
| `TreePersistence.ResumeChangesRunningOnly` | src/coordinator/orchestrator.py:774-801 | After load and re-queue no node is running and nothing but running statuses has changed. |
| `Fingerprint.CloseOnce` | apps/ui/fingerprint.config.js:126-138 | One pass of the closure adds only parents of kept profiles and reports a change exactly when the set grew; without a change the set is closed. |
| `Fingerprint.CanonicalizeEasJson` | apps/ui/fingerprint.config.js:79-147 | The loop terminates, also on `extends` cycles, with `build` restricted to the kept profiles and the rest of the document untouched. |
| `Fingerprint.KeepIsLeast` | apps/ui/fingerprint.config.js:112-138 | The kept set is the least one that holds `base` and every profile whose own or inherited environment is the active one, and that is closed under existing `extends` parents of object profiles. |
| `Fingerprint.EffectiveExactly` | apps/ui/fingerprint.config.js:92-120 | A profile's effective environment is that of the first profile on the walk along `extends` that sets one; it has none if and only if no such walk through distinct object profiles exists, cycles included. |
| `Fingerprint.CanonicalKeeps` | apps/ui/fingerprint.config.js:80-158 | The canonical document has exactly the kept profiles, each as it was, and a document without a build object is left alone. |
| `Fingerprint.UnkeptProfilesDoNotInterfere` | apps/ui/fingerprint.config.js:97-146 | Adding, removing or editing any profiles kept neither before nor after leaves the canonical document unchanged. |
| `Fingerprint.CanonicalIdempotent` | apps/ui/fingerprint.config.js:79-147 | Canonicalising twice is canonicalising once. |
| `Ledger.RunState.BumpBest` | src/cli/run_state.py:466-476 | A better score becomes the best and is appended to the history, cut to its last 64 entries. |
| `Ledger.RunState.RecomputeBestScore` | src/cli/run_state.py:485-495 | The best is recomputed from completed ideas and the history restarted from it. |
| `Ledger.RunState.UpdateTreeMeta` | src/cli/run_state.py:497-513 | A change of metric direction recomputes the best. |
| `Ledger.RunState.OnIdeaProposed` | src/cli/run_state.py:449-464 | The proposal handler: a record is created or reset to proposed and the proposal counter moves. |
| `Ledger.RunState.OnIdeaCompleted` | src/cli/run_state.py:530-544 | The completion handler. |
| `Ledger.RunState.OnIdeaPruned` | src/cli/run_state.py:546-556 | The pruning handler. |
| `Ledger.RunState.OnIdeaMerged` | src/cli/run_state.py:558-571 | The merge handler. |
| `Ledger.RunState.OnExecutorStart` | src/cli/run_state.py:573-587 | The executor start handler; an empty branch keeps the known one. |
| `Ledger.RunState.OnExecutorEnd` | src/cli/run_state.py:589-612 | The executor's own classification, unknown ones read as done. |
| `Ledger.RunState.OnConvergence` | src/cli/run_state.py:625-629 | A final score may become the best. |
| `Ledger.RunState.Recount` | src/cli/run_state.py:679-691 | The counters are recomputed from the records. |
| `Ledger.RunState.SeedFromTree` | src/cli/run_state.py:693-735 | Reseeding from a saved tree. |
| `LedgerLaws.HistoryAlways` | src/cli/run_state.py:466-513 | After every event sequence, direction flips and reseeding included, the score history is strictly improving in the current direction, at most 64 long, empty if and only if there is no best, and otherwise ends at it. |
| `LedgerLaws.BumpedExactly` | src/cli/run_state.py:466-483 | A better score is put behind the history, of which the last 64 are kept; any other changes nothing. |
| `LedgerLaws.RecomputedIsBest` | src/cli/run_state.py:485-495 | A recomputed best is the score of a completed idea and no completed idea is better; there is none if and only if no completed idea is scored. |
| `LedgerLaws.HandledCoversExactly` | src/cli/run_state.py:466-612 | One event, reseeding and direction flips included, keeps every completed idea from beating the best score if and only if it does not complete or merge, without reporting a score, an idea whose stored score beats the best. |
| `LedgerLaws.BestCoversExactly` | src/cli/run_state.py:466-612 | Over every event sequence: no completed idea ever beats the best score if and only if no event of the sequence does that. |
| `LedgerLaws.BestCanMissCompleted` | src/cli/run_state.py:485-544 | A concrete sequence of four events after which an idea is done with a score and the best score is missing. |
| `LedgerLaws.ReportedScoreCounts` | src/cli/run_state.py:530-629 | No event leaves the best score worse than it was or than a score the event reports. |
| `LedgerLaws.DirectionExactly` | src/cli/run_state.py:497-513 | The direction is that of the last metadata or reseed naming one. |
| `LedgerLaws.CountsMove` | src/cli/run_state.py:679-691 | Changing one record moves one unit from its old status to its new one. |
| `LedgerLaws.EventTouchesItsIdeaOnly` | src/cli/run_state.py:449-612 | An event other than reseeding adds or changes no record but that of its own idea. |
| `LedgerLaws.EventMovesOneUnit` | src/cli/run_state.py:530-612 | An event about a known idea moves exactly one unit from the idea's old status to the status the event stands for. |
| `LedgerLaws.EventWritesRecord` | src/cli/run_state.py:449-612 | What an event writes into its idea's record: the outcome, a reported score, a proposal's hypothesis and parent, a non-empty branch, and nothing else. |
| `LedgerLaws.SeededExactly` | src/cli/run_state.py:693-735 | Reseeding gives each listed idea the saved node listed last for it and leaves every other record alone. |
| `LedgerLaws.ProposalKeepsCountersExactly` | src/cli/run_state.py:449-464 | A proposal keeps the counters right if and only if the id is new or its record is in no counted state. |
| `LedgerLaws.LedgerInvariant` | src/cli/run_state.py:441-612 | After every event sequence proposing only new ids the order lists each ledger key once and the counters equal the records. |
| `LedgerLaws.CountersCount` | src/cli/run_state.py:679-691 | After every such sequence each counter is the number of ideas with its statuses: done or merged, pruned or failed, merged, running, needing a retry. |
| `LedgerLaws.LedgerConserved` | src/cli/run_state.py:679-792 | Then done, pruned, retry, running and uncounted records add up to the ledger's size and the branch budget used counts exactly the finished statuses. |
| `Convergence.Detector.RebuildState` | src/coordinator/convergence.py:145-180 | The loop computes the streak of the sorted finished experiments and their number. |
| `Convergence.Detector.ComputeVelocity` | src/coordinator/convergence.py:200-238 | The loop computes the best gain within the window over the window's size. |
| `Convergence.Detector.OnExperimentComplete` | src/coordinator/convergence.py:88-143 | What one completed experiment does to the detector and which signal level it raises. |
| `Convergence.StreakIsMaximalSuffix` | src/coordinator/convergence.py:145-198 | The streak is the length of the longest suffix in completion order without a meaningful improvement. |
| `Convergence.ImprovesExactly` | src/coordinator/convergence.py:182-198 | A score is a meaningful improvement if and only if it is on the better side of the trunk by more than the threshold, relative to the trunk or absolute where that would be nothing. |
| `Convergence.MinimizingMirrorsMaximizing` | src/coordinator/convergence.py:145-238 | Minimizing is maximizing with every sign turned, for streak and velocity. |
| `Convergence.StreakBoundsVelocity` | src/coordinator/convergence.py:182-238 | With the streak at least the window, velocity is at most the (non-negative part of the) threshold over the window, in both directions. |
| `Convergence.BestGainIsLargest` | src/coordinator/convergence.py:218-238 | The best gain is the largest of the window in the direction of the metric, or zero. |
| `Convergence.VelocityExactly` | src/coordinator/convergence.py:200-238 | The velocity is the best gain among the last `window_size` experiments divided by their number, and zero for fewer than two. |
| `Convergence.LevelMonotone` | src/coordinator/convergence.py:111-120 | A longer streak never lowers the level, however the three limits are ordered. |
| `Convergence.LevelExactly` | src/coordinator/convergence.py:111-120 | Each level begins exactly at its limit, the stricter ones taking precedence. |
| `Convergence.ExaminedInCompletionOrder` | src/coordinator/convergence.py:160-169 | Once any completion is recorded, the experiments examined are exactly the finished ones in completion order, unrecorded ones last. |
| `Convergence.SortIsStable` | src/coordinator/convergence.py:160-169 | Experiments with the same key keep their order. |
| `Convergence.ExaminedInIdOrder` | src/coordinator/convergence.py:160-169 | Without any recorded completion the experiments are examined in the order of their ids. |
| `Convergence.TextBeforeExactly` | src/coordinator/convergence.py:160-169 | That order of ids: a proper prefix first, otherwise the smaller character at the first difference. |
| `Convergence.DoneExactly` | src/coordinator/convergence.py:150-158 | The experiments examined are exactly the scored nodes other than the root that are completed or merged. |
| `Convergence.KeyIsPosition` | src/coordinator/convergence.py:165-167 | The sort key of a recorded completion is its position. |
| `Convergence.UnrecordedComeLast` | src/coordinator/convergence.py:165-167 | Experiments without a recorded completion share the last key. |
| `ConfigMerge.DeepMerge` | src/core/config_resolve.py:31-43 | The loop of the recursive merge, whatever order the override's keys come in. |
| `ConfigMerge.MergeAt` | src/core/config_resolve.py:31-43 | At every path the merge says what the override says where that settles the path, and what the base says elsewhere. |
| `ConfigMerge.MergeIsOverlayExactly` | src/core/config_resolve.py:31-43 | A document is the merge if and only if it says that at every path. |
| `ConfigMerge.StackAt` | src/core/config_resolve.py:274-311 | Merged layers say at a path exactly what the highest layer settling it says, for all documents, mapping and scalar clashes included. |
| `ConfigMerge.RightmostDefiner` | src/core/config_resolve.py:274-311 | Without such clashes a leaf of the merged configuration is the leaf of the highest layer defining it, and exists if and only if some layer defines it. |
| `ConfigMerge.SplitSection` | src/core/config_resolve.py:61-72 | The shared keys without directives, overlaid by the role's section if that is a mapping. |
| `ConfigMerge.RoleNullExactly` | src/core/config_resolve.py:295-300 | Shared keys and role section act as two null-free layers if and only if the section has no null over a shared value. |
| `ConfigMerge.RoleNullErasesShared` | src/core/config_resolve.py:295-300 | A null in the role section erases the shared value for every path under that key, so a lower layer shows through. |
| `ConfigMerge.MergePlugin` | src/core/config_resolve.py:274-285 | Plugin overrides then profile; an unknown profile is an error. |
| `ConfigMerge.DisabledMeansNone` | src/core/config_resolve.py:253-257 | Disabling plugins on the command line overrules every choice of one. |
| `ConfigMerge.PluginChosenExactly` | src/core/config_resolve.py:259-265 | Otherwise the plugin is the one the command line gives if it gives a value, and the document's if not. |
| `ConfigMerge.ProfileChosenExactly` | src/core/config_resolve.py:253-265 | No profile is chosen once it is cleared or plugins are disabled; otherwise it is the one the command line gives if it gives a value, and the document's if not. |
| `ConfigMerge.DirectivesLeakExactly` | src/core/config_resolve.py:61-72 | Directives never reach the configuration from the command line or the shared keys, but exactly the non-null ones inside the role section do. |
| `ConfigMerge.ResolveConfig` | src/core/config_resolve.py:247-311 | The method yields the resolved document or the first error, which the laws below describe in terms of the documents given. |
| `ResolvedLaws.CommandLineWins` | src/core/config_resolve.py:303-308 | A leaf that the command line gives under any key that is not null, a directive or `_plugin_`-prefixed is the resolved one. |
| `ResolvedLaws.RoleSectionWins` | src/core/config_resolve.py:295-300 | Where the command line is silent, a leaf of the role's section under a key that is not null is. |
| `ResolvedLaws.SharedKeyWins` | src/core/config_resolve.py:295-300 | Where the section is silent too, a leaf under a shared key is: one that is not null and not a directive. |
| `ResolvedLaws.DefaultsWin` | src/core/config_resolve.py:286-293 | Where all of the YAML document is silent, be it by a null in the section, a leaf of the setup defaults under a key that is not null is. |
| `ResolvedLaws.PluginComesLast` | src/core/config_resolve.py:274-311 | Where the defaults are silent as well, the chosen profile decides, or the plugin's overrides; the plugin is recorded under its key. |
| `ResolvedLaws.NothingFromNowhere` | src/core/config_resolve.py:274-311 | Without a plugin nothing is found where every document is silent. |
| `ResolvedLaws.IgnoredKeysChangeNothing` | src/core/config_resolve.py:303-308 | Taking null, directive and private entries off the command line changes nothing unless it changes the names of the plugin or of its profile. |
| `ResolvedLaws.FailsExactly` | src/core/config_resolve.py:274-285 | Resolution fails if and only if the chosen plugin cannot be loaded or does not have the chosen profile. |
| `ResolvedLaws.RaisedExactly` | src/core/config_resolve.py:251-252 | A switch is on for every value but the empty one of its kind. |
| `ResolvedLaws.NamedExactly` | src/core/config_resolve.py:253-281 | A plugin or profile is named by a text that is not empty, and by nothing else. |
| `ConfigModel.RouteFlatKeys` | src/core/config_schema.py:69-95 | The two loops of the routing validator, whatever order the keys come in. |
| `ConfigModel.RoutedReadsBack` | src/core/config_schema.py:69-103 | Reading a routed setting gives the flat key's value if the data holds that key and the nested value otherwise, at every depth. |
| `ConfigModel.RoutedElsewhere` | src/core/config_schema.py:69-95 | Settings without a flat name are left as written. |
| `ConfigModel.SettingExactly` | src/core/config_schema.py:87-103 | After merge and routing the highest layer spelling the setting flat decides it; only when no layer does, the highest one settling the nested spelling decides. |
| `ConfigModel.HighestSpellingReadExactly` | src/core/config_schema.py:87-94 | With both spellings present the highest definer is read if and only if the flat one is not below the nested one or both say the same. |
| `ConfigModel.FlatBeatsHigherNested` | src/core/config_schema.py:87-94 | A flat key of the lowest layer beats a nested key of a layer above it. |
| `ConfigModel.FlatRightmostDefiner` | src/core/config_resolve.py:274-311 | With the flat spelling only, a setting is read from the highest layer defining it. |
| `ConfigModel.NestedRightmostDefiner` | src/core/config_resolve.py:274-311 | With the nested spelling only and no clash, likewise. |
| `ConfigModel.Subgroup.Assign` | src/core/config_schema.py:128-195 | Assignment to a subgroup's field: `none` switches some LLM fields off, the field's type may convert or reject the value, and an OpenAI-like provider picks its model when none was ever given. |
| `ConfigModel.PlainExactly` | src/core/config_schema.py:128-195 | An assignment stores the value as it is and changes no other field if and only if no cleaning or conversion alters it and no model is picked because of it. |
| `ConfigModel.CleanedExactly` | src/core/config_schema.py:160-166 | Exactly a text spelling `none`, in capitals or not, is turned into null, and only in three fields of the LLM group. |
| `ConfigModel.ModelPickedExactly` | src/core/config_schema.py:185-195 | An assignment picks the OpenAI model if and only if none was ever given and the provider then is one of four; it changes no field but that and its own. |
| `ConfigModel.NoneReadsBackNull` | src/core/config_schema.py:160-166 | A concrete assignment that reads back as something else. |
| `ConfigModel.ProviderMovesModel` | src/core/config_schema.py:185-195 | A concrete assignment that changes another field. |
| `ConfigModel.ProxyModel.Put` | src/core/config_schema.py:106-115 | Writing an attribute assigns to the subgroup's field in place, validated, for a flat name, and sets the model's own field otherwise. |
| `ConfigModel.ProxyModel.PutAlone` | src/core/config_schema.py:97-115 | With no subgroup shared under two names, a write that no validator alters is read back and changes no other attribute. |
| `ConfigModel.ProxyModel.ModelCopy` | src/core/config_schema.py:46-67 | Updated subgroups of a copy are fresh objects with the update applied unvalidated; the others are shared with the original, or fresh and equal when the copy is deep, unless the update gave them whole. |
| `ConfigModel.WriteThroughCopy` | src/core/config_schema.py:46-115 | Writing a flat name through a copy reaches the original exactly when the copy is shallow and the update did not touch that name's subgroup. |
| `ConfigPrecedence.YamlLayerExactly` | src/core/config_resolve.py:295-300 | For every document the YAML layer is the shared keys that the role section does not null, under the section's non-null keys. |
| `ConfigPrecedence.ResolvedPrecedence` | src/core/config_resolve.py:274-311 | A leaf of the resolved document is that of the highest definer among plugin, profile, defaults, shared YAML, role section and command line, and exists if and only if one of the six defines it, wherever no layer clashes. |
| `ConfigPrecedence.SettingPrecedence` | src/core/config_schema.py:69-103 | A setting is read from the highest of the six layers defining it, by its flat name, or by its nested name when no layer has the flat one. |
| `Chart.RowIsAntitone` | src/cli/chart.py:98-100 | A higher score is never drawn lower, rounding half to even and clamping included. |
| `Chart.RoundIsNearest` | src/cli/chart.py:98-105 | The rounding used for rows and columns is to the nearest integer, ties to the even one. |
| `Chart.ColIsMonotone` | src/cli/chart.py:102-105 | A later result is never drawn further left. |
| `Chart.DepthExactly` | src/cli/chart.py:98-100 | The ends of the range are the top and bottom rows, and heights are spaced evenly in between. |
| `Chart.AcrossExactly` | src/cli/chart.py:102-105 | The start and the end of the time axis are the first and last columns, and times are spaced evenly in between. |
| `Chart.BoxHoldsItsScores` | src/cli/chart.py:70-105 | Every charted score falls strictly inside the padded range, so its row is never clamped. |
| `Chart.BoxExactly` | src/cli/chart.py:70-97 | The range reaches past the scores by a twentieth of their spread on either side, or by a tenth of their size when they hardly differ, and the time axis to the last attempt and the present. |
| `Chart.ColumnValues` | src/cli/chart.py:164-174 | The loop records, for each column with attempts, the running best there. |
| `Chart.FillRows` | src/cli/chart.py:178-186 | The forward fill gives every column from the first attempt's on its frontier row. |
| `Chart.DrawFrontier` | src/cli/chart.py:161-212 | Each cell of the grid gets exactly its stroke or keeps what it held. |
| `Chart.ValueIsBestSoFar` | src/cli/chart.py:161-186 | The forward-filled value at a column is the best score among all points at or left of it, and missing if and only if there are none. |
| `Chart.FrontierIsMonotone` | src/cli/chart.py:161-186 | Moving right the value never worsens: on screen the frontier never falls when maximizing and never rises when minimizing. |
| `Chart.StrokesAreConnected` | src/cli/chart.py:188-207 | A column's strokes fill exactly the rows between where the line enters and leaves it. |
| `Chart.EnteredWhereLeft` | src/cli/chart.py:188-207 | A column is entered in the row in which the one before it was left, and the first where it is left. |
| `Chart.OneStepPerDirection` | src/cli/chart.py:195-207 | One of the two step branches is unreachable in each direction. |
| `Chart.MinimizingImprovementFalls` | src/cli/chart.py:201-206 | When minimizing, every improvement that changes rows takes the branch commented as a regressed frontier. |

## Left out

- LLM providers, subprocesses, git, worktrees, network and clocks: arbitrary inputs or absent.
- The secrecy, status output, token statistics and heartbeats of the loop: no effect on the history.
- Prompt texts, the premature-stop word list and the classification of exceptions by their text:
  functions or cases of the environment.
- Concurrency of read-only tools: their results are a function of turn and position, so any timing is
  covered, but tools that influence each other through shared state are not distinguished.
- Aliasing of messages and tree nodes: messages and nodes are values in a list, array or map; an
  outside holder of a dictionary that sees later changes is not modelled. After the first compaction
  the pruning hook works on the list the loop held before; what that still changes in blocks shared with
  the new list is one of the shape-keeping rewritings runs are proved to survive, but which one is not
  worked out.
- Message content is a string, a list of blocks or absent; tool inputs are maps from strings to
  strings; tool calls have string ids and names.
- The JSON library: `MessageLog.Codec.Lawful` states what is relied on of it (rendering then parsing,
  punctuation without line breaks, no proper prefix of an object parses, a piece behind an inner break
  quotes nothing but the document's own punctuation). A piece that parses to a value that is no message
  counts as a message with neither role nor content. YAML parsing likewise.
- Asynchronous subscribers are scheduled but their later reactions are not followed; `aemit` awaits them
  in order and is otherwise the same loop.
- Decimal digits other than ASCII in `next_child_id`'s pattern.
- Floating point: scores and times are reals, so rounding of the arithmetic and NaN are not modelled.
- `stableNormalize` and the hashing around the fingerprint: profiles are values of a map, so key
  order plays no role here; the pass would add only easy members.
- The convergence detector's exhausted parents, reason texts and suggestions: output text.
- Events emitted by the tree: one event stands for a whole pruned subtree, so the ledger is not
  claimed to equal the tree after an inner prune.
- The run state's conversation, agents panel, narration and heartbeats: display only.
- Typed validation while the configuration is built, field aliases inside a block and the unknown-key
  warnings: the model ends where the typed model is built. Assignments to the built model are validated;
  what a field's type does to a value is an arbitrary function. `load_layered_defaults` is the same merge
  without the command line.
- The plugin loader is not part of this model; it is a function from names to a plugin or an error.
- The chart's labels, axis, dots and the sort of Python are display or library; the stable sort is a
  function proved to be a sorted permutation.
- ConfigModel.RouteFlatKeys: for registries in which no two flat names share a field and no group is
  itself a flat name, as the program's registries are; otherwise the order of the keys would matter.
- Resume.ResumedRunKeepsPairing: one interruption and one resumption under the regular-run conditions;
  longer chains follow by applying it again.
- RegularRuns.RegularRunKeepsPairing: its conditions are each necessary over all fresh runs
  (`KeepRecent.KeepRecentExactly`, `Conditions.ConditionsExactly`), not for a single run, which may break
  one of them and stay paired; what is exact for a single run is `RunSafety.RunPairedExactly`.
- KeepRecent.KeepRecentExactly: for positive values; zero and negative ones, with which the slices keep
  all messages or cut from the front, are covered by `RunSafety.RunPairedExactly` alone.
- Restart.KilledRunResumes: for histories that fit on their lines, which are exactly those that read back.
