# SagaSmith trust layer

A Dafny model of the deterministic layer of SagaSmith, a single-player role-playing game run by
language-model agents. The agents plan and narrate; the code modelled here decides what is canon,
what a roll means, what the player may see and what may be spent.

| files | component |
|---|---|
| TurnTables, TurnHistory, TurnClose, Retcon, CampaignRun, GraphRuntime | canonical turn history: close, read, retcon, and whole runs refined to one stack per campaign |
| Dice, CombatEngine, CombatRun, TurnOrder, RulesTurn | dice, combat state machine, cyclic turn order, rules turns |
| FtsIndex, Wikilinks, VaultGraph, GraphAgreement, GraphHistory, MemoryCap | text index and page graph against full rebuilds, bounded memory packets |
| VaultPage, Newlines, VaultSync, VaultSecrets, Slug | page text, projection to the player vault, fresh page ids |
| SceneRender | narration: stream, scan, classify, audit, retry |
| Cost | session budget, warnings and preflight |
| Wizard | onboarding phases with interleaved edits |
| Basics, Sorting, Text | option and result types, one sort with uniqueness, strings |

Objects that change state are classes whose methods are proved against functions on values; the
properties of those functions are lemmas. The database keeps a working and a committed copy and the
environment may let any statements and page writes fail. The language model, the classifier, the
budget's answer, YAML, sha256, the directory order and the clock are parameters.

## Assumptions that matter

- Runs of a campaign assume that a closed turn's id is not canonical and has no lines or final
  checkpoints yet, and that times increase. The first is an assumption of the code, not a fact about it:
  `CampaignRun.RetconReissuesId` shows that a rewind makes the turn-id builder issue a removed id again, and
  `CampaignRun.StaleLinesReturn` says exactly when that brings old lines back.
- Order and limit queries leave ties to the database, so the theorems about them ask for distinct
  completion times and for distinct row orders inside a turn.
- Times are numbers because the code compares its UTC stamps by order only.
- Histories of page writes are arbitrary, and so is what their headers read as. Only the theorems that speak of the graph
  page by page ask that a page keeps its place and that no other page has its id (`GraphHistory.OnePlace`), and that a file
  reads as its own id or as nothing (`GraphHistory.OwnIds`).
- Where a theorem says that a header is intact, it holds no separator and the YAML library loads it as it was dumped
  (`VaultSecrets.Intact`, `GraphHistory.HeaderReads`).
- A fault is a set of failing statements, page writes or file operations, each known by its number; the set may be
  infinite, so an engine that fails once, several times or for good is covered. A rollback does not fail.

## Findings

Each with the place in the code and the member that proves it.

- The incremental text index and a rebuild differ at a path exactly when the last page written there does not read back
  (src/sagasmith/memory/fts5.py:72-80, `FtsIndex.IncrementalEqualsRebuild`): reading a file turns carriage returns into
  newlines, a header can hold the separator, and the scan for the visibility takes the first header line that names it.
- That line can be inside the name: a rebuild then indexes the text of a gm_only page, or drops a known one
  (src/sagasmith/memory/fts5.py:136-140, `FtsIndex.RebuildShowsHiddenPage`, `FtsIndex.RebuildDropsKnownPage`).
- With an intact header, a graph load reads other link targets in a body than the update added exactly when one of them
  holds a carriage return (src/sagasmith/memory/graph.py:56, `GraphHistory.BodyLinksReadBack`).
- A header line that ends in `---` ends the header for every reader, and the fields behind it become body text:
  - a load then shows a gm_only page in the graph, its visibility being behind the cut, and the incremental graph lacks it
    (src/sagasmith/memory/graph.py:56-69, `GraphHistory.CutHeaderIsLoaded`, `GraphHistory.SecretCultIsLoaded`);
  - a sync then writes GM fields of a known page to the player vault as body text
    (src/sagasmith/vault/__init__.py:228-234, `VaultSecrets.CutHeaderIsShown`, `VaultSecrets.SecretsAreShown`).
- The incremental graph keeps links that a rewritten page dropped and pages that were hidden later
  (src/sagasmith/persistence/turn_close.py:239-240, `GraphHistory.ReadableUpdatesEqualReload`, `GraphHistory.HiddenPageStays`).
- When the page writes are not kept, the turn leaves canon only if its repair mark is committed: it stays complete exactly
  when one of the next two statements fails, as with a database that stays locked
  (src/sagasmith/persistence/turn_close.py:186-201, `TurnClose.LeavesCanonExactly`, `TurnClose.ApplyVaultWrites`,
  `TurnClose.LockedLosesMark`).
- A sync that fails while it clears the player vault leaves old pages there, also ones that are hidden by now
  (src/sagasmith/vault/__init__.py:153-157, `VaultSync.StoppedClearingShows`, `VaultSync.HiddenPageSurvivesStop`).
- Discarding checks no status, so a complete turn can be taken out of the middle of canon, although the documented
  states (src/sagasmith/schemas/persistence.py:43-56) let only a turn in progress be discarded
  (src/sagasmith/graph/runtime.py:239-256, `CampaignRun.SetAsideKeepsCanonExactly`, `CampaignRun.DiscardFromTheMiddle`).
- A session page that cannot be written re-marks the turn that was just completed, which takes it out of canon
  (src/sagasmith/graph/runtime.py:432-456, `CampaignRun.SessionKeepsCanonExactly`).
- `include_retconned` returns turns of every status, a turn in progress first
  (src/sagasmith/persistence/turn_history.py:41, `CampaignRun.IncludedTurnsExactly`, `CampaignRun.BegunTurnIsIncluded`).
- The commit of a retcon is outside the handler that rolls back, so a granted retcon whose first three statements succeed
  and whose commit fails leaves the transaction open and the retcon visible (src/sagasmith/persistence/retcon.py:156-160, `Retcon.RetconService.Confirm`).
- After combat the phase returns to play for one turn only, because the combat state is never cleared: a turn starts in
  play exactly when no combat was ever started
  (src/sagasmith/turn_start/builder.py:59, `RulesTurn.PlayAfterRunExactly`, `RulesTurn.CombatComesBack`).
- A shown narration can be the fallback text: a blank stream is replaced by it and then passes the gates
  (src/sagasmith/agents/orator/skills/scene_rendering/logic.py:224-226, `SceneRender.FallbackTextShown`).
- The hard stop is a mark that no preflight reads (src/sagasmith/services/cost.py:165, `Cost.HardStopBlocksNothing`), and a
  model without a price passes every preflight within budget (src/sagasmith/services/cost.py:160-162,
  `Cost.UnpricedModelCanOverspend`).
- An edit of the session budget accepts a boolean, while the question itself refuses one
  (src/sagasmith/onboarding/wizard.py:328-337, `Wizard.BudgetEditTakesBooleans`).

## Model

| member | source | states |
|---|---|---|
| TurnHistory.LatestIsTop | src/sagasmith/persistence/turn_history.py:39-52 | sorting newest first and taking one row returns the top of the campaign's stack of canonical turns, or nothing for an empty stack |
| TurnHistory.SessionIsPartOfCanon | src/sagasmith/persistence/turn_history.py:69-87 | a session's turns are the sublist of canon that belongs to the session, in canon order |
| TurnHistory.ScrollbackIsSuffix | src/sagasmith/persistence/turn_history.py:158-190 | for every limit, also zero and negative ones, sort-descending, limit and reverse gives the last lines of all canonical transcripts laid end to end |
| TurnHistory.PriorFinalIsTopFinal | src/sagasmith/persistence/turn_history.py:216-240 | the prior final checkpoint of the turn at place i is the newest final checkpoint of the turns below place i |
| TurnHistory.CanonIsChronological | src/sagasmith/persistence/turn_history.py:39-52 | canon holds exactly the complete turns of the campaign, each completed before the next |
| TurnHistory.ScrollbackReads | src/sagasmith/persistence/turn_history.py:158-190 | row by row: only lines of complete turns of the campaign, by completion time of their turn and then by their order in it, at most as many as the limit; a canonical line is left out only when the limit is reached and the line is before all that are shown |
| TurnHistory.LatestTurnReads | src/sagasmith/persistence/turn_history.py:39-52 | the latest turn is a complete turn of the campaign, none is completed later, and there is none exactly when nothing is complete |
| TurnHistory.PriorFinalReads | src/sagasmith/persistence/turn_history.py:216-240 | the prior final checkpoint belongs to the latest complete turn before the given time that has one, and is the last of that turn; it is missing exactly when no such row exists |
| TurnTables.CampaignDb.Write | src/sagasmith/persistence/repositories.py:27-36 | a writing statement opens a transaction and takes effect whole or not at all; it fails exactly when the engine fails that statement or a key is violated |
| TurnTables.CampaignDb.Commit | src/sagasmith/persistence/turn_close.py:150-153 | a commit makes the working copy the committed one; a failed one changes nothing |
| TurnTables.CampaignDb.Rollback | src/sagasmith/persistence/turn_close.py:151-153 | a rollback returns to the committed copy |
| TurnTables.CampaignDb.UpsertTurn | src/sagasmith/persistence/repositories.py:374-393 | a record replaces the row of the same turn id, if any, and all other rows stay |
| TurnTables.CampaignDb.MarkRetconned | src/sagasmith/persistence/repositories.py:451-460 | exactly the rows of the given ids change, and only in their status; no ids, no statement |
| TurnTables.CampaignDb.AppendRoll | src/sagasmith/persistence/repositories.py:116-131 | a roll is appended unless its id is already in the table |
| TurnTables.CampaignDb.AppendCheckpoint | src/sagasmith/persistence/repositories.py:332-340 | a checkpoint reference is appended unless its id is already in the table |
| TurnTables.CampaignDb.AppendRetconAudit | src/sagasmith/persistence/repositories.py:467-486 | an audit row is appended unless its id is taken or it names no affected turn |
| TurnTables.CampaignDb.SetSyncWarning | src/sagasmith/persistence/turn_close.py:207-212 | the sync warning of one turn is set, nothing else changes |
| TurnClose.InsertBundle | src/sagasmith/persistence/turn_close.py:118-148 | all rows of a bundle are inserted exactly when its primary keys are free and distinct and none of the counted statements fails, and each of the six row tables grows by its own part of the bundle |
| TurnClose.CommitTurn | src/sagasmith/persistence/turn_close.py:117-153 | whatever statements fail, the store ends as every bundle row in its own table with the turn complete, or as the last committed store, and nothing stays open; it commits exactly when the sweep finds nothing, the keys are free and no statement up to the commit fails |
| TurnClose.WriteAndAudit | src/sagasmith/persistence/turn_close.py:175-185 | the writes stop at the first page that cannot be placed, written or audited; the files written are a prefix of the plan, the audited paths a prefix of these, both of exactly known length, and so is the number of statements spent |
| TurnClose.MarkForRepair | src/sagasmith/persistence/turn_close.py:189-200 | the repair mark is committed exactly when the engine fails neither of its two statements, and read by the connection exactly when it does not fail the first; otherwise the committed store stays |
| TurnClose.CommitWrites | src/sagasmith/persistence/turn_close.py:172-201 | the turn is re-marked for repair exactly when a page stops the writes, the refresh fails or the commit does; the mark is committed exactly when neither of the next two statements fails |
| TurnClose.StopIsFirst | src/sagasmith/persistence/turn_close.py:175-185 | the page at which the writes stop is one that cannot be placed, written or audited, and no earlier page is |
| TurnClose.StopWithoutFaults | src/sagasmith/persistence/turn_close.py:175-185 | without faults the writes go through exactly when every page has a place |
| TurnClose.LockedLosesMark | src/sagasmith/persistence/turn_close.py:186-201 | a database that stays locked after the turn was committed keeps no page writes and takes no repair mark |
| TurnClose.DerivedIndices.UpdateFts | src/sagasmith/persistence/turn_close.py:222-234 | the text index is the fold of one update per written page, removals for hidden pages |
| TurnClose.DerivedIndices.UpdateGraph | src/sagasmith/persistence/turn_close.py:236-250 | the graph is the fold of one update per visible page |
| TurnClose.FinishSync | src/sagasmith/persistence/turn_close.py:205-212 | a failed sync keeps the turn complete; the warning is read exactly when its statement succeeds and stored exactly when the commit does too |
| TurnClose.ApplyVaultWrites | src/sagasmith/persistence/turn_close.py:162-212 | for any set of failing statements and page writes: the outcome, decided by the first page that stops the writes and by the two statements that come next, so the repair mark is lost exactly when the writes are not kept and one of these two fails; audited pages are a prefix of the written ones; the derived indices move by the whole plan once it is audited, or not at all; working copy and committed store per outcome |
| TurnClose.CloseTurn | src/sagasmith/persistence/turn_close.py:84-159 | for any set of failing statements and page writes: a close fails exactly when it cannot commit, and then leaves the last committed store, the vault and the indices. After any other the committed store has each of the six row tables grown by its own part of the bundle, the turn with the ids, session, start and version of the bundle, completed now, marked NeedsVaultRepair exactly when the repair mark was stored and Complete otherwise, with the warning of a failed sync; every other turn is untouched, and one audit row per audited page, the audited paths a prefix of the written ones |
| TurnClose.FinishedStores | src/sagasmith/persistence/turn_close.py:162-212 | the same of the stored tables, for each course that the failing statements can take |
| TurnClose.LeavesCanonExactly | src/sagasmith/persistence/turn_close.py:186-201 | after a committed close the stored turn is out of canon if and only if the page writes were not kept and neither of the next two statements fails, and out of what the connection itself reads if and only if the first of them does not fail |
| Retcon.RetconService.MakePreview | src/sagasmith/persistence/retcon.py:81-125 | the preview answers exactly what the tables say, with each veto in the order of the checks |
| Retcon.RetconService.Execute | src/sagasmith/persistence/retcon.py:139-160 | begin, mark, audit and commit: which of the four statements fails decides between the retcon stored, the retcon read but not stored, and the committed store |
| Retcon.VaultPaths | src/sagasmith/persistence/retcon.py:202-209 | the paths in the order they are first met |
| Retcon.FirstMetDistinct | src/sagasmith/persistence/retcon.py:202-209 | every written path once, and no other path |
| Retcon.RetconService.Confirm | src/sagasmith/persistence/retcon.py:127-170 | the result is decided by what is known before the call: the preview's veto, the token, whether a transaction is open or the audit id taken, and which of the four statements fail; the failing commit comes exactly when the first three succeed and the fourth does not. A confirmed retcon marks exactly the previewed turns and adds one audit row with the given id, the service's campaign, the selected turn, the popped ids, the previewed checkpoint, the given token and reason, and the time, in one transaction; a failure before the commit returns to the committed store and closes the transaction, a failing commit leaves it open with that same retcon in it; exactly when a refused confirm leaves the reads as they were |
| Retcon.PreviewMeans | src/sagasmith/persistence/retcon.py:81-125 | each veto in terms of the tables: another campaign, a turn that is not complete, no final checkpoint of an earlier complete turn. A granted preview pops exactly the complete turns of the campaign completed no earlier than the selected one, counts exactly their lines and rolls, names exactly the paths they wrote, and its checkpoint is final and of an earlier canonical turn |
| Retcon.StoredRetcon | src/sagasmith/persistence/retcon.py:139-160 | the statements of a granted confirm change the status of the previewed turns only and add one audit row that says what was given |
| Retcon.SuffixIsTop | src/sagasmith/persistence/repositories.py:427-449 | the affected suffix of a canonical turn is the top of the stack from that turn on, in order |
| Retcon.MarkingPops | src/sagasmith/persistence/repositories.py:451-460 | marking the suffix leaves exactly the turns below the selected one in canon |
| Retcon.MarkingSparesOthers | src/sagasmith/persistence/repositories.py:451-460 | the canon of every other campaign is unchanged |
| CampaignRun.PreviewReadsStack | src/sagasmith/persistence/retcon.py:81-125 | a retcon is refused exactly when the turn is not on the campaign's stack or no final checkpoint lies below it |
| CampaignRun.ClosedTurns | src/sagasmith/persistence/turn_close.py:162-212 | whatever becomes of its vault writes, a close amounts to one upsert of the settled record |
| CampaignRun.ClosedStep | src/sagasmith/persistence/turn_close.py:84-212 | a close pushes one frame on its campaign's stack; a close that needs vault repair leaves every canonical read as it was |
| CampaignRun.BeganStep | src/sagasmith/graph/runtime.py:367-385 | a begun turn is on no stack |
| CampaignRun.SetAsideStep | src/sagasmith/graph/runtime.py:224-296 | setting a turn aside takes exactly its frame out of the stack, wherever it is, also when the turn was complete |
| CampaignRun.SetAsideKeepsCanonExactly | src/sagasmith/graph/runtime.py:239-256 | setting a turn aside leaves a campaign's canon alone if and only if the turn was not complete in it |
| CampaignRun.CheckpointedStep | src/sagasmith/graph/runtime.py:354-365 | a pre-narration checkpoint row changes no stack |
| CampaignRun.SessionStep | src/sagasmith/graph/runtime.py:432-456 | a session page written behind a close leaves the stack alone, unless it fails, when exactly that turn's frame leaves it |
| CampaignRun.SessionKeepsCanonExactly | src/sagasmith/graph/runtime.py:432-456 | so it changes a campaign's canon if and only if it fails for a turn that is canonical in it |
| CampaignRun.DiscardFromTheMiddle | src/sagasmith/graph/runtime.py:224-257 | of two canonical turns the lower can be discarded, and the upper stays canonical |
| CampaignRun.IncludedTurnsExactly | src/sagasmith/persistence/turn_history.py:41 | the reads that include retconned turns see complete and retconned turns only if and only if the campaign has no other |
| CampaignRun.BegunTurnIsIncluded | src/sagasmith/persistence/turn_history.py:39-52 | a turn that just began is the latest turn of those reads, although it is neither |
| CampaignRun.RetconStep | src/sagasmith/persistence/retcon.py:127-170 | a retcon pops the selected turn and everything above it, or changes nothing when refused |
| CampaignRun.PreviewCountsPopped | src/sagasmith/persistence/retcon.py:118-120 | the line count of a preview is the number of lines that canon loses |
| CampaignRun.RunRefinesStack | src/sagasmith/persistence/turn_history.py:36-67 | over every run with an increasing clock and fresh closed ids, each campaign's canonical turns, their lines and final checkpoints are a stack that closes push, retcons pop and set-aside turns leave |
| CampaignRun.ScrollbackOverRuns | src/sagasmith/persistence/turn_history.py:158-190 | in every state such a run reaches, scrollback is the tail of the story the stack tells, after any retcons |
| CampaignRun.RewindSparesRemoved | src/sagasmith/persistence/retcon.py:94-125 | the rewind checkpoint is final and never belongs to a removed turn |
| CampaignRun.RewindIsLatestAfter | src/sagasmith/persistence/retcon.py:94-125 | with one final checkpoint per canonical turn, exactly the turns above the bottom can be retconned, and the rewind goes to the final checkpoint of the turn that is latest afterwards |
| CampaignRun.RetconReissuesId | src/sagasmith/turn_start/builder.py:115-119 | when ids were issued in sequence, the id issued after a retcon is the id of the removed turn |
| CampaignRun.StaleLinesReturn | src/sagasmith/persistence/turn_history.py:158-190 | a turn closed under a used id shows exactly its own lines if and only if the id had none before; otherwise all old lines return to canon |
| GraphRuntime.GraphRuntime.EnsureTurnRecord | src/sagasmith/graph/runtime.py:367-385 | the parent row is created once, as needing repair, with the turn's ids, session and time, and committed, exactly when it is there or neither of the two statements fails; all other rows stay |
| GraphRuntime.GraphRuntime.ResumeAndClose | src/sagasmith/graph/runtime.py:148-222 | for any set of failing statements and page writes, what the connection reads and what is stored afterwards are each the outcome of one close event with exactly one final checkpoint, the one the thread surfaced; the failing statements decide the outcome and whether the stored turn is complete; read and stored close differ only when a repair mark or a warning was lost; without a checkpoint nothing is written |
| GraphRuntime.GraphRuntime.RecordPreNarration | src/sagasmith/graph/runtime.py:354-365 | the checkpoint row is added and committed exactly when the graph surfaced a checkpoint, its id is new and neither of two statements fails |
| GraphRuntime.GraphRuntime.AuthorSession | src/sagasmith/graph/runtime.py:432-456 | for any set of failing statements and page writes: what the connection reads of a session page is one session event, which fails exactly when the page is not kept and the repair mark is read, and what is stored is that, part of it or nothing of it, as the failing statements decide. After a repair mark the turn has one stored record, marked NeedsVaultRepair and else as given; after a failed sync only its warning changed; otherwise no turn row did |
| GraphRuntime.GraphRuntime.DiscardIncompleteTurn | src/sagasmith/graph/runtime.py:224-257 | the thread rewinds to the turn's newest pre-narration checkpoint before anything else is checked; then the record, if there is one and neither of two statements fails, becomes the old one marked discarded now, whatever its status, and no other row changes |
| GraphRuntime.NewestPreNarration | src/sagasmith/graph/runtime.py:224-240 | the checkpoint rewound to is a pre-narration one of the turn, and no later row is another |
| GraphRuntime.GraphRuntime.ConfirmRetcon | src/sagasmith/graph/runtime.py:309-327 | a confirmed retcon moves the thread head to the prior checkpoint; a refused one leaves it, also when a failing commit left the retcon visible; the result is the one the confirm has |
| GraphRuntime.RuntimeKeepsOneFinal | src/sagasmith/graph/runtime.py:193-198 | over every run the runtime drives, each canonical turn has exactly one final checkpoint |
| GraphRuntime.RuntimeRewind | src/sagasmith/graph/runtime.py:309-327 | so in every state such a run reaches, every canonical turn but the first can be retconned, and the rewind goes to the turn that becomes the latest |
| Dice.RollInRange | src/sagasmith/services/dice.py:42-74 | a roll stays on its die and keeps its modifier; only a side count outside 2..1000 fails |
| Dice.RollIdIndex | src/sagasmith/services/dice.py:64 | the index can be read back from a roll id, whatever the purpose and actor contain |
| Dice.RollIdsDiffer | src/sagasmith/services/dice.py:64 | rolls with different indices have different ids |
| Dice.AttackAndDamageDiffer | src/sagasmith/services/combat_engine.py:108-134 | attack and damage rolls never share an id, even at one index |
| Dice.ActorRecovered | src/sagasmith/services/combat_engine.py:273-277 | parsing an initiative roll id gives back the actor, underscores included |
| Dice.DegreeMeans | src/sagasmith/services/pf2e.py:11-35 | each degree in terms of total and difficulty, with a natural 20 one step better and a natural 1 one step worse |
| Dice.DegreeMonotone | src/sagasmith/services/pf2e.py:11-35 | a higher natural roll with the same modifier never gives a lower degree |
| CombatRun.EncounterStarts | src/sagasmith/services/combat_engine.py:30-78 | an encounter of distinct ids starts exactly for at most two enemies, and its order is the sort of the keys that each combatant's own roll gives it |
| CombatRun.InitiativeIsUnique | src/sagasmith/services/combat_engine.py:45-56 | the initiative order is a permutation of the combatants and the only one that is strictly sorted |
| CombatRun.InitiativeOrder | src/sagasmith/services/combat_engine.py:45-70 | each entry of the order holds the total its combatant rolled; of two entries the first has the higher total, or an equal one and the better perception, or both equal and the smaller id; the active combatant is the first and has a highest total |
| CombatRun.InitiativeRolls | src/sagasmith/services/combat_engine.py:223-254 | each combatant rolls a d20 plus its own perception, the character as a perception check against 10 |
| CombatRun.EncounterState | src/sagasmith/services/combat_engine.py:58-77 | the first round, the character near, the first enemy close, the second far, three actions and a reaction for everyone |
| CombatRun.StartSound | src/sagasmith/services/combat_engine.py:30-78 | the starting state has its order, actions and positions for exactly its combatants |
| CombatRun.StartPlacing | src/sagasmith/services/combat_engine.py:58-77 | the character starts near, the first enemy close, the others far, each with three actions and a reaction |
| CombatRun.StrikeOutcome | src/sagasmith/services/combat_engine.py:80-173 | a resolved strike spends one action, replaces only the target's hit points, rolls against armour class plus two for a ranged attack into cover, and rolls damage exactly on a hit |
| CombatRun.StrikeAllowed | src/sagasmith/services/combat_engine.py:91-105 | a strike that resolves had an action left and, for an attack without a range, a close target; one that meets both resolves when its damage can be rolled |
| CombatRun.UnknownsCannotStrike | src/sagasmith/services/combat_engine.py:280-284 | actor and target of a strike that resolves are in the fight |
| CombatRun.AttackRoll | src/sagasmith/services/combat_engine.py:99-115 | a d20 plus the attack's modifier against the armour class, two more exactly for a ranged attack into cover, and the degree of that roll |
| CombatRun.DamageRolled | src/sagasmith/services/combat_engine.py:121-129 | damage is rolled exactly for success and critical success, a d8 plus four or a d6 as the attack says |
| CombatRun.StrikeEffect | src/sagasmith/services/combat_engine.py:130-162 | the target alone loses the damage, doubled on a critical success, down to no less than zero, the actor one action, and nothing else changes |
| CombatRun.StrikeSound | src/sagasmith/services/combat_engine.py:80-173 | a strike keeps a sound state and takes no hit points but the target's |
| CombatRun.MoveSound | src/sagasmith/services/combat_engine.py:175-191 | a move keeps a sound state and its position lookup never fails |
| CombatRun.MoveEffect | src/sagasmith/services/combat_engine.py:175-191 | a move succeeds exactly for a known actor with an action left and another position; it sets that position, spends one action and changes nothing else |
| CombatRun.EndTurnSound | src/sagasmith/services/combat_engine.py:193-214 | ending a turn keeps a sound state and always succeeds in one |
| CombatRun.EndTurnEffect | src/sagasmith/services/combat_engine.py:193-214 | the first living combatant behind the active one, around the order, becomes active with three actions and a reaction, in a new round exactly when the end of the order was passed; with no one alive nothing changes |
| CombatRun.FightSound | src/sagasmith/services/combat_engine.py:80-214 | over every sequence of commands: same combatants and order, hit points in range and never regained, actions in 0..3, rounds never decreasing |
| CombatRun.CriticalTakesDouble | src/sagasmith/services/combat_engine.py:125-137 | a critical hit takes twice a hit's damage, floored at zero hit points |
| CombatRun.HigherNaturalHurtsMore | src/sagasmith/services/combat_engine.py:108-137 | with the same damage roll, a higher natural attack roll never leaves the target more hit points |
| TurnOrder.NextLivingIs | src/sagasmith/services/combat_engine.py:200-204 | from any place, living or not, the modular search finds the first living place ahead, or wraps to the first of all up to its own; otherwise it finds nothing |
| TurnOrder.NextRank | src/sagasmith/services/combat_engine.py:200-205 | a turn ended at any place, also one whose combatant was killed, passes to the next living rank, and wraps exactly when none is left ahead; someone is found exactly when someone lives |
| TurnOrder.EndTurnPasses | src/sagasmith/services/combat_engine.py:193-214 | ending the turn of a living or killed combatant passes it to the next living rank, counts a round exactly when no living rank is left ahead, and renews the actions of the one it comes to; with no one living nothing changes |
| TurnOrder.TurnsFromAnyone | src/sagasmith/services/combat_engine.py:193-214 | turns ended from a killed combatant are turns ended from the living one behind it, so the rows below apply from there |
| TurnOrder.RoundRobin | src/sagasmith/services/combat_engine.py:193-214 | after any number of ended turns with hit points unchanged, rank plus living combatants times rounds passed is the starting rank plus the turns |
| TurnOrder.FullRound | src/sagasmith/services/combat_engine.py:193-214 | as many ended turns as there are living combatants return to the starter, one round later |
| TurnOrder.NoOneTwice | src/sagasmith/services/combat_engine.py:193-214 | within those turns nobody is active twice and nobody dead is active |
| TurnOrder.EveryoneActs | src/sagasmith/services/combat_engine.py:193-214 | within those turns every living combatant is active |
| TurnOrder.TotalIsLiving | src/sagasmith/services/combat_engine.py:196-199 | the number of turns in a round is the number of living combatants |
| RulesTurn.NumberedRollsDiffer | src/sagasmith/rules_turn_resolution/builder.py:97-173 | results numbered by their place have pairwise different roll ids, damage rolls included |
| RulesTurn.CombatUpdateKeeps | src/sagasmith/rules_turn_resolution/builder.py:266-284 | a combat update keeps the run invariant: play with a combat state means that the encounter is over |
| RulesTurn.CompleteStays | src/sagasmith/services/combat_engine.py:216-221 | an encounter that is over stays over, because no hit points are regained |
| RulesTurn.StartKeeps | src/sagasmith/rules_turn_resolution/builder.py:112-131 | starting combat always succeeds for a character that is none of the enemies, and numbers its initiative rolls onward |
| RulesTurn.TurnKeeps | src/sagasmith/rules_turn_resolution/builder.py:54-186 | a rules turn lets no error escape, only adds results and keeps the run invariant, for every ranked list of intents |
| RulesTurn.RunKeeps | src/sagasmith/rules_turn_resolution/builder.py:54-186 | over every run of rules turns, turn starts and foreign narration, the invariant holds and earlier results are a prefix of later ones |
| RulesTurn.RollIdsOfRun | src/sagasmith/rules_turn_resolution/builder.py:97-173 | over every run from empty results, the roll at place i has index i and all roll ids are pairwise different |
| RulesTurn.StrikeReported | src/sagasmith/rules_turn_resolution/builder.py:133-154 | a resolved strike adds one result; its damage roll exists exactly on a hit and is named in the narration and the result |
| RulesTurn.SkillCheckDone | src/sagasmith/services/rules_engine.py:44-80 | a skill turn adds one result: a d20 plus the modifier of the stat, perception or skill, against the difficulty; for naturals 2 to 19 at least success exactly when the total reaches it, critical at ten more or less; an unknown stat is refused |
| RulesTurn.CombatStarted | src/sagasmith/rules_turn_resolution/builder.py:112-129 | starting combat adds the initiative results in order, sets the combat state and the combat phase, and nothing else |
| RulesTurn.FirstEnemies | src/sagasmith/rules/first_slice.py:76-122 | the two enemies of the first slice, with their attacks |
| RulesTurn.StrikeDone | src/sagasmith/rules_turn_resolution/builder.py:131-153 | a strike turn takes over the struck state and adds one result with its damage roll; an encounter that is over, the character or all enemies at zero, says so and returns to play; a failing strike is refused |
| RulesTurn.MoveDone | src/sagasmith/rules_turn_resolution/builder.py:155-164 | a move turn takes over the moved state, for the name of each position, and a failing one is refused |
| RulesTurn.UnknownPosition | src/sagasmith/services/combat_engine.py:182-183 | a position that is none of the four is refused |
| RulesTurn.EndTurnDone | src/sagasmith/rules_turn_resolution/builder.py:166-173 | an end-turn turn takes over the next combatant's state |
| RulesTurn.FightNeeded | src/sagasmith/rules_turn_resolution/builder.py:131-173 | combat commands without a combat are refused, and without their details answered with help |
| RulesTurn.NothingDone | src/sagasmith/rules_turn_resolution/builder.py:57-93 | which turns carry out nothing, and which line, if any, each of them says |
| RulesTurn.PlayExactlyWhenOver | src/sagasmith/rules_turn_resolution/builder.py:266-284 | a combat command returns to play exactly when the encounter is over, with the closing line last |
| RulesTurn.PlayAfterRunExactly | src/sagasmith/turn_start/builder.py:59 | after every run the next turn is a play turn if and only if there was no combat before and no turn of the run carried out a start of combat |
| RulesTurn.CombatComesBack | src/sagasmith/turn_start/builder.py:59 | a witness of the row above: the turn after any turn of a combat, also its last, is a combat turn again |
| VaultPage.FramingExact | src/sagasmith/vault/page.py:155-181 | splitting undoes framing, with the body one newline longer, exactly when the header text lacks the separator |
| FtsIndex.Index.IndexPage | src/sagasmith/memory/fts5.py:33-47 | the path has one row, the new one; other rows stay |
| FtsIndex.Index.RemovePage | src/sagasmith/memory/fts5.py:49-55 | every row of the path goes, other rows stay |
| FtsIndex.Index.RebuildAll | src/sagasmith/memory/fts5.py:57-89 | a rebuild indexes each readable, visible, non-blank file of the scan and counts them |
| FtsIndex.RebuildInSync | src/sagasmith/memory/fts5.py:57-89 | a rebuild over any scan order has one row per path and finds exactly what the vault shows |
| FtsIndex.IndexedEqualsRebuilt | src/sagasmith/persistence/turn_close.py:226-232 | for every page and every header text: indexed and rebuilt text agree if and only if the page reads back, that is, header lines that read gm_only belong to a hidden or blank page, and otherwise the header holds no separator and a page with text is visible and free of carriage returns |
| FtsIndex.PageKeepsSync | src/sagasmith/memory/fts5.py:33-55 | one incremental update changes what is found at its own path only, to the page's stripped text |
| FtsIndex.PageIndexedRows | src/sagasmith/persistence/turn_close.py:222-234 | one update leaves the body of a page at its path once, nothing for a gm_only page, and every other row |
| FtsIndex.IncrementalStaysInSync | src/sagasmith/persistence/turn_close.py:222-232 | over any history of writes the incremental index is in sync with the vault if and only if at every path the last page written there reads back |
| FtsIndex.IncrementalEqualsRebuild | src/sagasmith/memory/fts5.py:57-89 | over any history of writes and any scan of the vault they leave, incremental updates and a full rebuild find the same text at a path if and only if the last page written there, if any, reads back; one row per path in both |
| FtsIndex.IndexedFinds | src/sagasmith/persistence/turn_close.py:222-232 | over any history of writes the incremental index finds at a path the text of the last page written there, and elsewhere what it found before |
| FtsIndex.BrokenIndexable | src/sagasmith/memory/fts5.py:116-141 | a header text with the separator in it is read up to there, and its rest is indexed as text, which is never the body then |
| FtsIndex.NameIsReadFirst | src/sagasmith/memory/fts5.py:136-140 | a visibility line inside a quoted name is read before the page's own |
| FtsIndex.FirstVisibilityMeans | src/sagasmith/memory/fts5.py:125-141 | the visibility read is that of the first header line that starts with the word, without white space and quotes, and there is none exactly when no line does |
| FtsIndex.RebuildShowsHiddenPage | src/sagasmith/memory/fts5.py:78-80 | a gm_only page whose name holds such a line with player_known: the incremental index drops it, a rebuild indexes its text |
| FtsIndex.RebuildDropsKnownPage | src/sagasmith/memory/fts5.py:78-80 | the mirror case: a known page whose name says gm_only is indexed, and a rebuild drops it |
| VaultGraph.VaultGraph.GetNeighbors | src/sagasmith/memory/graph.py:75-98 | the breadth-first frontiers compute the ball around the start without it: exactly the other nodes that a walk of at most that many links reaches, whatever its direction, and nothing for an unknown start or a depth that is not positive |
| VaultGraph.BallIsWithin | src/sagasmith/memory/graph.py:75-98 | the ball holds exactly the nodes that a walk of at most that many edges reaches, in either direction |
| VaultGraph.BallMonotone | src/sagasmith/memory/graph.py:75-98 | a deeper search finds no less |
| VaultGraph.BallSymmetric | src/sagasmith/memory/graph.py:75-98 | neighbourhood is symmetric |
| VaultGraph.EdgesOfPage | src/sagasmith/memory/graph.py:126-177 | a page links to a target exactly by a body link or a reference field of its type, never to itself |
| VaultGraph.LastEdgeLabels | src/sagasmith/memory/graph.py:126-177 | the last edge added to a target decides its label |
| VaultGraph.LinksOfPage | src/sagasmith/memory/graph.py:126-177 | per page type, in terms of the header fields: a page links a target exactly when its body or a reference field of its type names it and it is not the page itself, and the label is the relation read last, a reference before a link of the body |
| VaultGraph.UpdateLinks | src/sagasmith/memory/graph.py:111-177 | so an update sets the node's type and name, adds a node for each such target, sets exactly these edges with these labels, and leaves all other nodes and edges |
| VaultGraph.VaultGraph.UpdatePage | src/sagasmith/memory/graph.py:111-124 | the page's node and edges are added; a page without id is ignored |
| VaultGraph.VaultGraph.LoadFromVault | src/sagasmith/memory/graph.py:44-73 | a load starts empty, reads each file's header and links, adds a node per kept page and then all edges, and counts the pages |
| VaultGraph.LoadedRepresents | src/sagasmith/memory/graph.py:44-73 | a load of pages with distinct ids builds their graph: a node with attributes per page, a bare node per other target, a labelled edge per link |
| VaultGraph.AnyOrderEqualsReload | src/sagasmith/memory/graph.py:44-73 | adding given nodes and links page by page in any order, or all nodes before all links in any other, gives one graph |
| Wikilinks.LinksNormalize | src/sagasmith/memory/graph.py:17 | the links found in a body read from disk are the links of the body with their newlines read |
| Wikilinks.WrittenLinkIsFound | src/sagasmith/memory/graph.py:17 | a link written with or without a label is found behind any text without an opening bracket, and the search goes on behind it |
| Wikilinks.FoundLinkIsWritten | src/sagasmith/memory/graph.py:17 | every target found stands in the text as such a link |
| Wikilinks.TargetsReadBackExactly | src/sagasmith/memory/graph.py:126-132 | stripping the body and reading its newlines leaves its link targets as they were exactly when none holds a carriage return |
| GraphHistory.ParsedPage | src/sagasmith/memory/graph.py:180-195 | reading the file of any written page: the text up to the first separator is read as header, or as none, and the stripped rest as body, with the rest of a header that holds a separator in front of it |
| GraphHistory.PageReadsBack | src/sagasmith/memory/graph.py:126-195 | with a header in one piece that reads as it was dumped, a page without a carriage return in a link target reads back: hidden ones as nothing, others with their node and edges |
| GraphHistory.IntactHeaderReadsBack | src/sagasmith/memory/graph.py:180-195 | with such a header the file of a page reads back if and only if the page is hidden or the links of the stripped body are the added ones |
| GraphAgreement.IncrementalContainsReload | src/sagasmith/memory/graph.py:111-124 | for any pages with an id that were added and any pages read by a load, ids repeated or not: the incremental graph holds all nodes, attributes and labelled edges of the load if and only if every page and link read was added, last with these attributes and this label |
| GraphAgreement.IncrementalEqualsReload | src/sagasmith/memory/graph.py:111-124 | the two graphs are equal if and only if also every page that was added, and every link ever added to one, is read |
| GraphAgreement.OnePassEqualsTwo | src/sagasmith/memory/graph.py:44-73 | adding all nodes and then all edges of pages with an id gives what adding page by page gives, also when ids repeat |
| GraphAgreement.DistinctPagesAgree | src/sagasmith/memory/graph.py:111-124 | with different ids on both sides the graphs are equal if and only if the pages are |
| GraphHistory.UpdatesEqualReload | src/sagasmith/persistence/turn_close.py:236-250 | the same for every history of written pages, whatever their headers read as, and a load of the files they leave, scanned in any order |
| GraphHistory.UpdatesContainReload | src/sagasmith/persistence/turn_close.py:236-250 | and for containment, with no assumption on the pages either |
| GraphHistory.UpdatesAgainstReloadByPage | src/sagasmith/persistence/turn_close.py:236-250 | page by page, when pages keep one place each and their files read as their own id or as nothing: the updates hold all of a load if and only if every page was added last as it is read now, and equal it if and only if also every page and link ever shown is still read |
| GraphHistory.ReadableUpdatesEqualReload | src/sagasmith/persistence/turn_close.py:236-250 | when pages keep one place each and the last file of every place reads back: equal if and only if no page was hidden and no link dropped, and never less than the reload |
| GraphHistory.FreshPagesEqualReload | src/sagasmith/memory/graph.py:44-73 | when every page is written once, to a place of its own, and its file reads as its own id or as nothing, updates in any order and a load of the files in any order agree if and only if each file reads back: hidden pages as nothing, others with their attributes and links |
| GraphHistory.HiddenPageStays | src/sagasmith/persistence/turn_close.py:239-240 | a page that is shown and then rewritten for the GM only stays in the incremental graph with its attributes, and a load gives it some if and only if the hidden file reads as a page with its id |
| GraphHistory.CutHeaderIsLoaded | src/sagasmith/memory/graph.py:56-69 | a gm_only page whose header reads, up to a separator in it, as one with its id and no visibility is skipped by the updates and loaded with its attributes: the incremental graph is less than the load, although no page was hidden and no link dropped |
| GraphHistory.SecretCultIsLoaded | src/sagasmith/memory/graph.py:56-69 | such a page: a gm_only lore page named Secret cult--- |
| MemoryCap.EnforceCap | src/sagasmith/agents/archivist/skills/memory_packet_assembly/logic.py:458-465 | both trimming loops end for every cap, with the turns and the summary that the next three rows describe |
| MemoryCap.TokensAreQuarters | src/sagasmith/schemas/common.py:139-142 | a text costs a quarter of its length, rounded up |
| MemoryCap.CutTakes | src/sagasmith/agents/archivist/skills/memory_packet_assembly/logic.py:463-464 | a cut takes the last 16 characters and the white space before them, and nothing else |
| MemoryCap.KeepsLongestSuffix | src/sagasmith/agents/archivist/skills/memory_packet_assembly/logic.py:461-462 | the kept turns are the longest suffix that fits beside the full summary, and none when the summary alone does not fit |
| MemoryCap.CutsNoMoreThanNeeded | src/sagasmith/agents/archivist/skills/memory_packet_assembly/logic.py:463-464 | cutting stops at the first prefix that fits |
| MemoryCap.FitsEveryCap | src/sagasmith/agents/archivist/skills/memory_packet_assembly/logic.py:458-469 | for every cap the packet fits; the summary is a prefix, shortened exactly when it does not fit alone |
| VaultSync.VaultService.WriteFile | src/sagasmith/vault/writer.py:11-50 | a write is in place exactly when it does not fail, or fails late; otherwise the temporary file is gone or left behind with some text, and nothing else changed |
| VaultSync.TmpOfPage | src/sagasmith/vault/writer.py:32 | the temporary file of a page has its name with .tmp |
| VaultSync.VaultService.ProjectVisiblePages | src/sagasmith/vault/__init__.py:137-151 | the loop computes the projection of the pages in the given order; ProjectsExactly, ProjectIs and PageIsShown say what that is, each without it |
| VaultSync.VaultService.ClearPlayerMarkdown | src/sagasmith/vault/__init__.py:153-157 | the Markdown files are removed one by one up to the first removal that fails; if none does, every one goes and every other file stays |
| VaultSync.VaultService.Sync | src/sagasmith/vault/__init__.py:89-113 | a projection failure leaves the player vault as it was; a clearing stops at the first removal that fails and leaves the files it did not reach; once clearing is done the Markdown files show projected content only, whatever fails later; a sync succeeds exactly when every page can be projected and none of the counted file operations fails; SyncLeaves and SyncGenerates say what is then at each path |
| VaultSync.LeftAfterStop | src/sagasmith/vault/__init__.py:153-157 | a stopped clearing leaves each remaining Markdown file with its old text and adds none |
| VaultSync.StoppedClearingShows | src/sagasmith/vault/__init__.py:153-157 | then the Markdown files show projected content only if and only if the files left were projected content already |
| VaultSync.HiddenPageSurvivesStop | src/sagasmith/vault/__init__.py:153-157 | a page that was shown before and is hidden by now stays in the player vault when its removal fails |
| VaultSync.ProjectIs | src/sagasmith/vault/__init__.py:137-151 | the projection holds exactly the shown pages, strictly sorted by path, and fails exactly when one page is broken |
| VaultSync.SyncedMarkdown | src/sagasmith/vault/__init__.py:89-113 | after a sync each Markdown path holds the shown page, the index or the log, and no other Markdown file exists |
| VaultSync.SyncedAt | src/sagasmith/vault/__init__.py:89-113 | other files stay, but for temporary files of written targets |
| VaultSync.PageIsShown | src/sagasmith/vault/__init__.py:137-151 | a page outside meta that loads: hidden exactly when it is gm_only; a foreshadowed one is shown as the stub text, a known one as its body without GM comments, both with exactly the fields that are not secrets or gm_ |
| VaultSync.OtherViews | src/sagasmith/vault/__init__.py:137-151 | meta files and files without a header are hidden, a file that does not load is broken |
| VaultSync.ProjectsExactly | src/sagasmith/vault/__init__.py:137-151 | a sync gets past the projection exactly when each Markdown file outside meta loads and each page that is not gm_only keeps a valid header |
| VaultSync.SyncLeaves | src/sagasmith/vault/__init__.py:89-113 | a successful sync leaves text at the path of a master page outside meta exactly when the page is not gm_only: the stub with the kept fields for a foreshadowed page, kept fields and body for a known one |
| VaultSync.SyncGenerates | src/sagasmith/vault/__init__.py:89-113 | index and log hold their generated texts, and no Markdown file is left that the master does not have |
| VaultPage.FolderOfKind | src/sagasmith/persistence/turn_close.py:253-264 | each page type has its folder, and no other type has one |
| VaultPage.BackgroundPlace | src/sagasmith/persistence/turn_close.py:253-264 | exactly lore of the three background categories is filed under meta |
| VaultSync.SyncTwice | src/sagasmith/vault/__init__.py:89-113 | a second sync changes nothing |
| VaultSync.ShownIsSafe | src/sagasmith/vault/__init__.py:211-234 | no page that reads as GM-only and no meta page is shown, no secrets or gm_ field is left in the header that was read, and a foreshadowed page shows the fixed stub text; for written pages this is what VaultSecrets.WrittenIsSafe says |
| VaultSync.BackgroundIsHidden | src/sagasmith/persistence/turn_close.py:253-264 | world bible, campaign seed and rolling summary with an id of one path part are filed where no sync projects them, whatever their visibility and text |
| VaultSync.SyncShowsViewsOnly | src/sagasmith/vault/__init__.py:137-151 | two masters with the same view at every path project to the same pages |
| VaultSync.SecretsUnseen | src/sagasmith/vault/__init__.py:204-234 | two texts that read as secret pages, or as pages that differ in GM fields, GM comments or a foreshadowed body only, have the same view |
| VaultSync.SecretsDoNotShow | src/sagasmith/vault/__init__.py:89-113 | two masters whose files, as they read, differ only so, or in secret pages that one of them lacks, leave the same player vault, and one can be projected exactly when the other can |
| VaultSecrets.WrittenLoads | src/sagasmith/vault/page.py:163-181 | reading the file of any written page: the text up to the first separator is loaded as header, and the rest of a header that holds one belongs to the body |
| VaultSecrets.IntactView | src/sagasmith/vault/__init__.py:137-151 | the player's view of the file of a page with an intact header is the view of the page |
| VaultSecrets.WrittenIsSafe | src/sagasmith/vault/__init__.py:204-234 | of a written page with an intact header only its own fields are shown, none of them a GM field, and its own body without GM comments, or the stub; a GM-only or meta page is not shown |
| VaultSecrets.WrittenSecretsDoNotShow | src/sagasmith/vault/__init__.py:89-113 | two vaults of written pages that differ only in GM fields, GM comments, foreshadowed bodies and secret pages, where the pages that differ have intact headers, leave the same player vault |
| VaultSecrets.CutHeaderIsShown | src/sagasmith/vault/__init__.py:228-234 | when a separator cuts a header where the text before it loads as a valid known page, and no GM comment covers the rest, all that stands behind the cut is shown in front of the body, GM fields too |
| VaultSecrets.CutHeadersShowAll | src/sagasmith/vault/__init__.py:228-234 | two pages cut at the same place are shown the same if and only if their header texts behind the cut are the same up to leading white space |
| VaultSecrets.SecretsAreShown | src/sagasmith/vault/__init__.py:228-234 | a known lore page whose gm_notes end in three dashes shows its secrets, when the header up to there loads as a valid known page and no GM comment covers them |
| VaultSecrets.WrittenReadsBack | src/sagasmith/vault/page.py:155-181 | when the YAML library loads an unbroken header as it was dumped: a written page, of the master or the player vault, reads back as its header without nulls and its body behind one newline if and only if the header holds no separator |
| Slug.FindUniqueSlug | src/sagasmith/agents/archivist/skills/vault_page_upsert/logic.py:33-43 | the search ends within one probe more than the directory has files, at the first free name of the plain slug, _2, _3 and so on |
| Slug.TakenAreFew | src/sagasmith/agents/archivist/skills/vault_page_upsert/logic.py:38-43 | distinct candidates that are all taken cannot outnumber the files |
| SceneRender.CheckStreamClean | src/sagasmith/safety_guard/guard.py:251-258 | the scan is clean exactly when no hard-limit pattern matches |
| SceneRender.StreamIntoBuffer | src/sagasmith/agents/orator/skills/scene_rendering/logic.py:155-205 | the stream loop scans the buffer whenever 50 new characters have come and stops at the first hit, failure or completion |
| SceneRender.BufferedIsScanned | src/sagasmith/agents/orator/skills/scene_rendering/logic.py:161-180 | a buffered text has been scanned, and was clean, up to its last 49 characters at most |
| SceneRender.RenderScene | src/sagasmith/agents/orator/skills/scene_rendering/logic.py:119-336 | each attempt is entered with one event per earlier attempt, at most the rewrite limit plus one attempts are made, and the code behind the loop is never reached. All attempts but the last were within budget and hit a hard limit or said what a gate refused; when the last one is over budget or its stream fails or raises, or fails like these as the last one allowed, the fallback text is shown; when what it says passes every gate, that is shown with the beats it resolves |
| SceneRender.SettlesFirst | src/sagasmith/safety_guard/guard.py:278-283 | all attempts before the settling one were rejected, and the settling one is not rejected or is the last; RendersOnce says what is rejected |
| SceneRender.RendersOnce | src/sagasmith/agents/orator/skills/scene_rendering/logic.py:119-336 | when the attempts before k each hit a hard limit inline or say what a gate refuses, and attempt k says what passes every gate, or breaks off, or is the last one, then k + 1 attempts are made, and the narration of attempt k or the fallback is shown |
| SceneRender.StreamEnds | src/sagasmith/agents/orator/skills/scene_rendering/logic.py:155-205 | the stream loop in terms of the events: the text is that of the events before the first completion or failure, a cancelled text has at least 50 characters and a match |
| SceneRender.RejectionSays | src/sagasmith/agents/orator/skills/scene_rendering/logic.py:207-326 | the event of each rejected attempt names the gate, the term and, for an inline hit, the matched text |
| SceneRender.FallbackReason | src/sagasmith/agents/orator/skills/scene_rendering/logic.py:119-336 | the last event of a fallback says why: no budget, the failed stream, or the gate of the last attempt |
| SceneRender.TrialFails | src/sagasmith/agents/orator/skills/scene_rendering/logic.py:119-336 | an attempt is rejected exactly when it is within budget and hits a hard limit while it streams, or says what the scan, the classifier or the audit refuses; it stops the scene exactly when it is over budget or its stream fails or raises |
| SceneRender.NarrationPassed | src/sagasmith/agents/orator/skills/scene_rendering/logic.py:224-326 | a result without fallback passed the hard-limit scan, the classifier and the mechanics audit |
| SceneRender.PassedIsShown | src/sagasmith/agents/orator/skills/scene_rendering/logic.py:224-326 | a narration that passes every gate is shown unchanged |
| SceneRender.FallbackTextShown | src/sagasmith/agents/orator/skills/scene_rendering/logic.py:224-226 | a result without fallback shows the fallback text exactly when the stream was blank or said that text itself |
| SceneRender.FallbackSaysWhy | src/sagasmith/agents/orator/skills/scene_rendering/logic.py:406-414 | a fallback shows the fallback text alone, resolves no beat, and its last event is a fallback event, one or two more than the rejected attempts before |
| SceneRender.EventsNumbered | src/sagasmith/safety_guard/guard.py:285-303 | event i of a result carries number i |
| SceneRender.EventIdsDiffer | src/sagasmith/safety_guard/guard.py:285-303 | the event ids of a result are pairwise different |
| SceneRender.StreamedTextScanned | src/sagasmith/agents/orator/skills/scene_rendering/logic.py:161-180 | the streamed text behind a shown narration was scanned up to its last 49 characters at most |
| SceneRender.DetectResolvedBeats | src/sagasmith/agents/orator/skills/scene_rendering/logic.py:353-384 | the loop resolves the beats that the next row characterises |
| SceneRender.ResolvedBeatsAre | src/sagasmith/agents/orator/skills/scene_rendering/logic.py:353-384 | a resolved id belongs to a matching beat, or is the first id when a long narration matches none; a long narration always resolves something |
| SceneRender.BeatResolved | src/sagasmith/agents/orator/skills/scene_rendering/logic.py:353-384 | a beat matches when a third of its long words, and at least one, are in the narration, or it has none and the narration is long |
| Cost.CostGovernor.RecordUsage | src/sagasmith/services/cost.py:92-138 | spend and token counts add up, unpriced calls are counted, and exactly the newly due warnings are sent |
| Cost.CostGovernor.CheckPreflight | src/sagasmith/services/cost.py:140-200 | a call is blocked exactly when the budget is positive and spend plus the worst-case estimate exceed it; an unpriced model estimates zero; the projection adds the estimate, and the governor does not change |
| Cost.CostGovernor.ApplyHardStop | src/sagasmith/services/cost.py:202-204 | only the mark changes |
| Cost.OpenSession | src/sagasmith/services/cost.py:63-78 | a negative budget is refused; a session starts with nothing spent or sent |
| Cost.EstimateMonotone | src/sagasmith/services/pricing_table.py:43-62 | fewer tokens never cost more, and whether a model is priced does not depend on them |
| Cost.EstimateMeans | src/sagasmith/services/pricing_table.py:43-62 | a model is priced exactly when its provider and name are in the table; prompt and completion tokens each cost their own price by the thousand |
| Cost.UsageMeans | src/sagasmith/services/cost.py:92-138 | one call adds the provider's cost, or else the estimate, or else nothing when it counts as unpriced, and its tokens; seventy and ninety per cent of a positive budget are the limits of the warnings |
| Cost.WarningsDecidedBySpend | src/sagasmith/services/cost.py:122-130 | over every run the warnings sent are [], [70] or [70, 90], decided by the spend alone, and never taken back |
| Cost.EachWarningOnce | src/sagasmith/services/cost.py:122-130 | the warnings fired over a session, one after the other, are exactly those due at the end: each at most once, 70 before 90 |
| Cost.NeverOverBudget | src/sagasmith/services/cost.py:140-200 | when every call follows an unblocked preflight and stays within its estimate, no run spends more than a positive budget |
| Cost.OverspendExactly | src/sagasmith/services/cost.py:164-184 | one checked call overspends exactly when the estimate fits what is left and the charge does not |
| Cost.UnpricedModelCanOverspend | src/sagasmith/services/cost.py:160-162 | a model without a price passes the preflight and can overspend by its reported cost |
| Cost.ZeroBudgetIsUnlimited | src/sagasmith/services/cost.py:165 | a zero budget blocks nothing and warns of nothing |
| Cost.HardStopBlocksNothing | src/sagasmith/services/cost.py:140-204 | the hard stop changes no preflight answer |
| Wizard.ParsePillarBudget | src/sagasmith/onboarding/prompts.py:377-416 | the loop over the four pillars computes the parse that the next two rows describe |
| Wizard.PillarBudgetAccepts | src/sagasmith/onboarding/prompts.py:377-416 | a budget is accepted exactly when it gives ten points in non-negative integers, no booleans, to exactly the four pillars |
| Wizard.PillarWeightsSumToOne | src/sagasmith/onboarding/prompts.py:415-416 | the weights of an accepted budget add up to one and pass the profile's validator |
| Wizard.ParseSoftLimitMap | src/sagasmith/onboarding/prompts.py:419-443 | every entry is checked, and the good ones are stored as the next row says |
| Wizard.LastLimitWins | src/sagasmith/onboarding/prompts.py:431-439 | the limit stored under a name is the value of the last entry whose stripped key is the name; a name is stored exactly when some key strips to it |
| Wizard.ParsedIsStorable | src/sagasmith/onboarding/prompts.py:289-315 | whatever a parser accepts, the models accept too, but for a NaN budget |
| Wizard.OnboardingWizard.Step | src/sagasmith/onboarding/wizard.py:134-183 | a step changes draft and phase together or, with errors, nothing; a complete interview takes no step |
| Wizard.OnboardingWizard.Edit | src/sagasmith/onboarding/wizard.py:199-214 | an edit is kept when its record validates, and otherwise the draft is exactly the old one |
| Wizard.BudgetEditTakesBooleans | src/sagasmith/onboarding/wizard.py:328-337 | an edit of the budget takes exactly what the question takes, and booleans besides |
| Wizard.EditedIsValid | src/sagasmith/onboarding/wizard.py:296-413 | an accepted edit changes one slot of its record, never the combat style, and leaves a valid record |
| Wizard.EditMeans | src/sagasmith/onboarding/wizard.py:296-413 | an accepted edit stores the value, or for the budget what was read from it, under the slot its path names, and touches no other slot |
| Wizard.SlotsOfRecords | src/sagasmith/onboarding/wizard.py:216-260 | which slots each record is built from |
| Wizard.WeightsAccepted | src/sagasmith/schemas/player.py:30-38 | four pillar weights are valid exactly when they add up to one within a hundredth |
| Wizard.PhaseMovesForward | src/sagasmith/onboarding/wizard.py:134-183 | the phase stays or moves one place ahead, only a step moves it, and only a confirmed review ends it |
| Wizard.DoneOnlyAfterReview | src/sagasmith/onboarding/wizard.py:271-294 | a run that ends contains a step that confirmed the review, and phases never go back |
| Wizard.RunKeeps | src/sagasmith/onboarding/wizard.py:134-214 | over every interleaving of steps and edits, each slot asked for so far holds a value the models accept, but for a NaN budget |
| Wizard.RecordsFromReviewOn | src/sagasmith/onboarding/wizard.py:216-260 | from the review on the records can be built if and only if the stored budget is not a NaN that the models reject |
| Wizard.InterviewBuildsRecords | src/sagasmith/onboarding/wizard.py:216-260 | the same for every interleaving from the start |
| Wizard.RecordsAgree | src/sagasmith/onboarding/wizard.py:232-258 | the profile and the house rules carry the same valid dice setting, and the combat style is the fixed one |
| Wizard.PolicyIsComplete | src/sagasmith/onboarding/wizard.py:246-250 | a content policy is built from whatever was answered, missing answers as empty |
| Wizard.RecordFields | src/sagasmith/onboarding/wizard.py:216-260 | each field of the three records holds the answer to its own question, missing policy answers as empty |
| Wizard.StepMeans | src/sagasmith/onboarding/wizard.py:134-183 | a step is taken exactly when every question of the phase parses; it goes one phase ahead, stores each parsed answer under its own slot and leaves the others |
| Wizard.AskedIn | src/sagasmith/onboarding/prompts.py:98-278 | the phase that asks for each slot |
| Wizard.WeightsMean | src/sagasmith/onboarding/prompts.py:415-416 | the weight of each pillar is a tenth of its points |
| Wizard.ChoiceMeans | src/sagasmith/onboarding/prompts.py:350-356 | a choice is taken exactly when its stripped text is one of the words of the question |
| Wizard.TextAnswerMeans | src/sagasmith/onboarding/prompts.py:332-347 | a list answer holds exactly the stripped texts that are not blank; genre, tone and touchstones need one |
| Wizard.BudgetMeans | src/sagasmith/onboarding/prompts.py:446-455 | the budget question takes non-negative numbers and texts that read as one, and no boolean |
| Wizard.BoolMeans | src/sagasmith/onboarding/prompts.py:458-472 | yes and no questions take booleans, 0 and 1, and four words each |
| Wizard.ProfileTarget | src/sagasmith/onboarding/wizard.py:296-380 | which profile slot an edit path names |
| Wizard.OtherTarget | src/sagasmith/onboarding/wizard.py:296-413 | which policy or house rule slot an edit path names, and which paths name nothing |

## Left out

- CampaignRun.RunRefinesStack: asks for fresh ids of closed turns and an increasing clock, which the code does not enforce.
- TurnClose.CloseTurn: rollbacks and the statements of the text index do not fail and are not counted; exceptions inside the two index updates, which the code swallows, are not modelled, and neither is the entity resolver behind the refresh result.
- TurnClose.WriteAndAudit: all audit rows of one close share one time stamp.
- Retcon.RetconService.Confirm: repair of derived layers after a retcon is not modelled.
- GraphRuntime.GraphRuntime.ResumeAndClose: graph nodes and checkpoint payloads are not modelled; a checkpoint is an opaque id; a session page behind the close is a call of its own, and the drafting of its text is left out.
- VaultGraph.VaultGraph.LoadFromVault: a list field that is no list counts as empty where the code would raise, and non-string list elements are not represented.
- FtsIndex.Index.RebuildAll: header lines end at a newline only, white space is the ASCII part of what the code strips, and ranking is not modelled.
- VaultSync.VaultService.Sync: the removal of GM comments from a body and the index and log texts are arbitrary functions, the latter two of the projected pages; a write leaves at most one temporary text behind; directories named like Markdown files are not modelled.
- VaultSync.BackgroundIsHidden: asks for an id without a path separator; an id that climbs out of its folder is filed elsewhere.
- CombatRun.EncounterStarts: asks for distinct combatant ids; a roll id of an unknown actor, which the code reports as a key error, is a value error here and cannot occur for distinct ids.
- CombatRun.StrikeOutcome: effects and state deltas of a result are reduced to its damage roll; levels, saves, conditions and experience are not modelled.
- RulesTurn.TurnKeeps: which text becomes which intent is arbitrary, and so are skill activation and the wording of messages.
- SceneRender.RenderScene: prompts, playback and the safety log are not modelled; a stream raises only at the end of its events.
- Cost.CostGovernor.RecordUsage: money is real, without floating-point rounding; the budget summary for display is left out.
- Wizard.OnboardingWizard.Step: error texts are reduced to whether there are any, answers are keyed by the slot they fill, integers become floats without rounding or overflow, and a soft-limit value that cannot be hashed is an error where the code would raise.
- MemoryCap.EnforceCap: retrieval of what goes into the packet is left out.
- Safety pre-gate routing, the redaction canary's patterns, the language-model clients, the terminal interface and the command line are not modelled.
- Reads that add no harder query: candidate listing, the latest session, sync warnings, session page sources.
