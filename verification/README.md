# Formal model of Teamarr's numbering, reconciliation and expansion

Teamarr turns sports streams into television channels and keeps a second system, Dispatcharr, in step with its own tables.
This project models the parts whose correctness is argued over whole runs and histories, and proves what they promise.

* **Channel numbers** (`Channels`, `SortOrder`, `Slots`, `ResetLayout`, `StickyPlacement`, `Searches`, `RunProgress`,
  `Drift`, `SequentialNumbering`, `ChannelDatabase`, and `GlobalOrder`, `StickyRules`, `SettingsRules`). `ChannelDatabase` is a class over the managed channels; its methods are the
  four allocators, loop by loop, each proved to leave exactly what a specification function says. `GlobalOrder`, `StickyRules` and
  `SettingsRules` say in terms of rows and settings what those functions make of them. The theorems about whole runs are in
  `StickyFacts`, `IncrementalEqualsFull`, `NewEvents`, `GapOrder`, `LateFeeds`, `Histories` and `LateFeedHistories`.
* **The daily re-layout gate** (`ResetGate`): armed flag, last reset and boundary, over traces of events.
* **The number push** (`NumberPush`): the reported changes applied to a mirror of the remote numbers.
* **The reconciler** (`Reconciler`, `Convergence`, `Agreement`): detection and fixing between local rows and remote channels, and what
  one pass leaves for the next.
* **The CREATE TABLE splitter** (`SchemaSplitter`, `SplitRules`, `ColumnLookup`, `ColumnNames`, `ColumnWords`): scanning, lookup by name, and which names it can find.
* **Lifetime statistics** (`LifetimeStats`): totals under pruning.
* **Segment expansion** (`UfcSegments`, `UfcExpansion`, `UfcPlaces`, `UfcListing`, `RacingSegments`, `RacingRules`, `Counting`).

Findings, each with its exact condition in the table below:

* A re-layout that stops on exhaustion can hand out a number that a channel it left behind keeps locked
  (`Histories.StoppedResetCanClash`, `Histories.ResetKeepsLockedDistinctIff`).
* Moving the reset time later on the same day allows a second daily re-layout (`ResetGate.MovedTimeResetsTwice`).
* The push tests the new number for truth, so a move to number 0 is never sent. Only manual mode with a league start of 0 or
  less gets there; the settings screen refuses such a start, the settings route stores it
  (`NumberPush.ZeroIsNeverSent`, `NumberPush.MovesToZeroIff`, `NumberPush.OnePassKeepsAgreementIff`).
* One reconciliation pass does not settle a channel known only by the uuid of a row whose own channel is gone; a second pass
  deletes it (`Convergence.NextPassFindsTheStranded`, `Convergence.OnePassIsNotAlwaysEnough`).
* The column lookup documents its result as exactly the written text, but collapses white space, inside quoted defaults too
  (`ColumnLookup.QuotedBlanksCollapse`, `ColumnLookup.CollapseIsVerbatimIff`).
* A quoted column name with white space in it is never found, and its definition can be returned for another column
  (`ColumnNames.QuotedNameHidesAnother`, `ColumnNames.DeclaresOwnNameIff`).
* The splitter puts nothing in the place of a block comment, so a comment that alone separates a column's name from its type
  hides the column (`ColumnNames.GluedCommentHidesColumn`, `ColumnNames.CommentAfterNameIff`).
* A comment in the allocator says that a re-layout does not shift events that sticky placement already placed. So it is while
  new events sort last, but a late feed makes the next re-layout shift the events behind it
  (`NewEvents.GrownEventShiftsTheNext`, `NewEvents.NewEventsNeverMoveAnyone`).
* Metrics saved for a run that was pruned meanwhile reach no total
  (`LifetimeStats.LateSaveIsLost`, `LifetimeStats.SaveCountsIff`).
* A racing stream named for the sprint carries the sprint's qualifying too, whose code reads as a class of the sprint
  (`RacingRules.SprintCoversItsQualifying`, `RacingRules.CategoryCovers`).
* Estimated UFC windows are out of order when the event starts less than 90 minutes before its main card, and the prelims
  have no length when it does not start before it (`UfcExpansion.EstimatesCanOverlap`, `UfcExpansion.EstimatesTileIff`).

Premises taken from the source: the range starts at 1 or later, ids are unique, and in the statements about convergence no two
undeleted rows are linked to the same remote channel.

## Model

| member | source | states |
|---|---|---|
| `ChannelDatabase.ChannelDatabase.ReassignAll` | teamarr/database/channel_numbers.py:572-609 | dispatches on the settings; afterwards the sorted channels are exactly `Renumbered`, the report is exactly `DriftReport`, a forced re-layout is recorded and disarms the flag, and the global order itself is unchanged |
| `ChannelDatabase.ChannelDatabase.ReassignSticky` | teamarr/database/channel_numbers.py:672-874 | the two-pass, block-by-block loop over `used`, `mine` and the low-water mark leaves exactly the numbers and locks of `StickyRun`, and reports exactly the real changes in order |
| `ChannelDatabase.ChannelDatabase.ReassignReset` | teamarr/database/channel_numbers.py:877-938 | the frontier loop leaves exactly the re-layout `ResetGroups`, and reports exactly the real changes in order |
| `ChannelDatabase.ChannelDatabase.ReassignAuto` | teamarr/database/channel_numbers.py:941-1003 | one pass with a skip loop writes exactly `CompactPlan`, leaves locks alone and reports every number given |
| `ChannelDatabase.ChannelDatabase.ReassignManual` | teamarr/database/channel_numbers.py:1006-1077 | one pass with a counter per league writes exactly `ManualPlan`, leaves locks alone and reports every number given |
| `ChannelDatabase.ChannelDatabase.PlaceLateFeeds` | teamarr/database/channel_numbers.py:811-844 | late feeds of an anchored event, one after the other, follow `PlaceFeeds`: anchored feeds stay, each other one takes the next free slot, the first that finds none ends the run |
| `ChannelDatabase.ChannelDatabase.PlaceNewEvent` | teamarr/database/channel_numbers.py:846-864 | a new event goes as one block where `BlockStart` says, or the run stops with the event untouched |
| `ChannelDatabase.ChannelDatabase.ApplyNumber` | teamarr/database/channel_numbers.py:649-669 | writes number and lock of one channel, and adds a report entry exactly when the number changed |
| `Searches.GroupChannels` | teamarr/database/channel_numbers.py:622-646 | the loop that starts a new run at each change of key computes `GroupConsecutive` |
| `Searches.FindFreeRun` | teamarr/database/channel_numbers.py:738-760 | the search over numbers in use finds the lowest free run below a limit |
| `Searches.FindPlace` | teamarr/database/channel_numbers.py:762-770 | first choice a full step past the mark, else anywhere in the neighbourhood |
| `Searches.FindAppend` | teamarr/database/channel_numbers.py:772-782 | the append fallback, on the grid of steps in gap mode |
| `Searches.NextAnchors` | teamarr/database/channel_numbers.py:723-736 | one backward pass gives every group the anchor its block must stay below |
| `Searches.FindResetStart` | teamarr/database/channel_numbers.py:902-920 | the frontier search of the re-layout, past numbers already handed out |
| `Searches.SkipExternals` | teamarr/database/channel_numbers.py:959-970 | the skip loop ends, at the first number from there on that is not external |
| `Searches.NextInLeague` | teamarr/database/channel_numbers.py:1022-1046 | a league's counter starts past external numbers and is kept when the range is used up |
| `SortOrder.SortIsSortedPermutation` | teamarr/database/channel_numbers.py:438-569 | the order is a permutation of the rows, ascending by the sort key, whose meaning `GlobalOrder.KeyComparesFields` gives |
| `GlobalOrder.OrderFollowsTheFields` | teamarr/database/channel_numbers.py:523-561 | of two channels in the order the earlier one has a followed team if the later has, and then no larger sport rank, league rank, date (none being last), event id and keyword, each compared only when those before it agree; ranks are those of the settings, 9999 without one |
| `GlobalOrder.KeyComparesFields` | teamarr/database/channel_numbers.py:523-561 | the sort key compares exactly these fields of two rows, in exactly this order |
| `GlobalOrder.TiedRowsKeepTheirOrder` | teamarr/database/channel_numbers.py:523-561 | rows that agree on all of these fields keep the order they were fetched in |
| `SortOrder.SortIsStable` | teamarr/database/channel_numbers.py:523-569 | rows with equal keys keep their order |
| `SortOrder.PriorityTeamsLead` | teamarr/database/channel_numbers.py:523-561 | channels of followed teams form a prefix of the order |
| `SortOrder.OneGroupPerEvent` | teamarr/database/channel_numbers.py:523-561 | every event forms exactly one group if and only if no channel of another event sorts between two of its channels |
| `SortOrder.SharedAttributesKeepEventsTogether` | teamarr/database/channel_numbers.py:523-561 | events whose channels agree on tier, priorities and date form exactly one group each |
| `Channels.GroupingFlattens` | teamarr/database/channel_numbers.py:636-646 | grouping concatenates back to the sorted list |
| `Channels.SameGroupIff` | teamarr/database/channel_numbers.py:622-633 | two channels share a group key if and only if they show the same event; without an event a channel is alone |
| `Channels.GroupsAreMaximalRuns` | teamarr/database/channel_numbers.py:622-646 | every group has one key and neighbouring groups have different keys |
| `Channels.OneGroupPerKeyIff` | teamarr/database/channel_numbers.py:622-646 | one group per key if and only if the list holds each key contiguously |
| `Slots.ScanFindsLowest` | teamarr/database/channel_numbers.py:751-760 | the scan returns the lowest free run, and nothing only if there is none |
| `Slots.PlaceBlockFindsFree` | teamarr/database/channel_numbers.py:762-770 | a placement is free and in its neighbourhood; it fails only if no run of that size fits there, whatever the spacing |
| `Slots.AppendIsPastEverything` | teamarr/database/channel_numbers.py:772-782 | an appended block is free and past every number held |
| `Slots.AppendIsFirstFit` | teamarr/database/channel_numbers.py:772-782 | the fallback takes the first fit among the starts it tries, and fails only if none of them starts a free run |
| `ResetLayout.ResetIsLegal` | teamarr/database/channel_numbers.py:907-928 | the re-layout keeps group order, avoids external numbers and leaves a step between blocks |
| `ResetLayout.ResetIsLeast` | teamarr/database/channel_numbers.py:907-928 | against any legal layout of some first groups, every re-layout block starts no later |
| `ResetLayout.FirstGroupsFitIff` | teamarr/database/channel_numbers.py:907-928 | the re-layout places the first n groups if and only if some legal layout of them exists |
| `ResetLayout.ResetGroupsFollowStarts` | teamarr/database/channel_numbers.py:907-928 | each placed group gets consecutive numbers from its start; the groups after the stop are unchanged |
| `StickyFacts.StickyRunIsSteady` | teamarr/database/channel_numbers.py:784-864 | in every run, also one that stops, each channel is unchanged, or was no anchor and is now locked on a usable number nobody held; no two such channels share a number |
| `StickyFacts.StickyKeepsLockedDistinct` | teamarr/database/channel_numbers.py:701-717 | a sticky run keeps locked numbers pairwise distinct, never unlocks, and changes a locked number only if it is external or out of range |
| `StickyFacts.CompleteStickyFullyPlaces` | teamarr/database/channel_numbers.py:796-864 | after a sticky run that placed everything (valid anchors distinct before) all channels are locked, in range, off the external set and pairwise distinct |
| `StickyFacts.CompleteResetFullyPlaces` | teamarr/database/channel_numbers.py:907-928 | the same after a re-layout that placed every group |
| `StickyFacts.StickyIsIdempotent` | teamarr/database/channel_numbers.py:796-864 | once every channel is so placed, a sticky run on the same inputs completes and changes nothing |
| `StickyRules.NewEventGoes` | teamarr/database/channel_numbers.py:762-864 | in any sticky run, a new event that comes after placed ones goes, in gap mode, to the lowest free run that begins a full step past the largest number dealt with so far and stays below the next anchored event, if there is one; else to the lowest free run between the two; else, and always in strict mode, to the first free run on the grid of steps past everything held; without one the run ends there |
| `StickyRules.LateFeedGoes` | teamarr/database/channel_numbers.py:811-844 | in any sticky run, a late feed of an anchored event goes to the lowest free number past all dealt with so far and past the event's anchors, below the next anchored event; else past everything held; without one the run ends there |
| `IncrementalEqualsFull.IncrementalMatchesFull` | teamarr/database/channel_numbers.py:738-782 | without valid anchors sticky placement gives every group that the re-layout places exactly its numbers, in both modes; in strict mode the runs agree entirely, also on where they stop |
| `NewEvents.NewEventsMatchFull` | teamarr/database/channel_numbers.py:738-782 | when the first events hold exactly what the re-layout gives them and the others have no valid anchors, sticky placement gives every event that the re-layout places exactly its numbers; in strict mode the runs agree entirely |
| `NewEvents.NewEventsNeverMoveAnyone` | teamarr/database/channel_numbers.py:902-928 | over any history of sticky runs in which new events sort last, nothing is deleted, no event grows and all have room: every run gives exactly the re-layout's numbers and moves nobody placed before, and a re-layout after it moves nobody |
| `NewEvents.GrownEventShiftsTheNext` | teamarr/database/channel_numbers.py:902-928 | a concrete late feed: the sticky run puts it in the gap, and the next re-layout moves the event behind it |
| `GapOrder.GapRunKeepsOrderIff` | teamarr/database/channel_numbers.py:721-864 | if anchors increase from group to group, a gap-mode run that places everything leaves every earlier event below every later one if and only if no group found a later anchored event and too little room before it |
| `LateFeeds.LateFeedsKeepTheLayout` | teamarr/database/channel_numbers.py:811-844 | a table laid out with gaps, whose events have gained fewer feeds than the gap since the layout, with usable reserved slots: one sticky run places them all, moves no channel, keeps every event one contiguous block and the events in order, however the earlier feeds came to be placed |
| `LateFeedHistories.ResetIsInPlace` | teamarr/database/channel_numbers.py:907-928 | a re-layout that placed every event leaves such a table |
| `LateFeedHistories.LateFeedsNeverMoveAnyone` | teamarr/database/channel_numbers.py:811-864 | over any history of adding feeds to the events of such a table and of sticky runs, while the gaps hold the feeds and every event stays one group of the order: every run places all of them, moves no channel placed before, and leaves every event one contiguous block from its start on, in order |
| `Histories.LockedNumbersStayDistinct` | teamarr/database/channel_numbers.py:701-864 | over any history of adding unlocked channels, deleting, changing priorities, range, gap and external numbers, sticky runs and complete re-layouts, locked channels have pairwise distinct numbers |
| `Histories.ResetKeepsLockedDistinctIff` | teamarr/database/channel_numbers.py:907-938 | a re-layout, even one that stops, keeps locked numbers distinct if and only if no locked channel it leaves behind holds a number it hands out |
| `Histories.LeastLayoutIsTheReset` | teamarr/database/channel_numbers.py:907-928 | the starts the re-layout gives are the one legal layout of first events that no legal layout reaches beyond and none undercuts at any event |
| `Histories.LeastLayoutDecidesClash` | teamarr/database/channel_numbers.py:907-938 | with that layout, which the sizes of the events, the range, the gap and the external numbers fix, a re-layout keeps locked numbers distinct if and only if no locked channel of an event it leaves out holds one of its numbers |
| `Histories.FittingResetKeepsLockedDistinct` | teamarr/database/channel_numbers.py:907-938 | there is no clash whenever some legal layout of all events exists |
| `Histories.StoppedResetCanClash` | teamarr/database/channel_numbers.py:907-938 | a concrete table where a stopped re-layout gives a number that a later locked channel keeps |
| `SettingsRules.SequentialNumbers` | teamarr/database/channel_numbers.py:941-1077 | in compact and manual mode a channel gets exactly the free number of the range that has as many free numbers before it, from the range's start or its league's own, as there are channels before it, of its league in manual mode; the rest of the row stays, and without such a number all of it |
| `SettingsRules.SequentialReport` | teamarr/database/channel_numbers.py:959-1066 | the report of these modes names exactly the channels given a number, with both numbers, also when they are the same |
| `SettingsRules.StickyReport` | teamarr/database/channel_numbers.py:649-669 | in the sticky modes the report names exactly the channels whose number changed, with both numbers |
| `SettingsRules.GridIsDescribed` | teamarr/database/channel_numbers.py:693-695 | the grid of a sticky pass has the range's start, its configured end or 999999, the external numbers, and the gap as step in gap mode if it is 1 or more, else 1 |
| `SettingsRules.UnforcedPassKeepsLocked` | teamarr/database/channel_numbers.py:701-717 | without a re-layout a locked channel whose number is in the range and not external stays as it is |
| `SettingsRules.UnforcedIsSticky` | teamarr/database/channel_numbers.py:672-695 | a pass in a sticky mode without a re-layout is a sticky run over that grid |
| `SettingsRules.ForcedPassLaysOut` | teamarr/database/channel_numbers.py:877-928 | a forced pass in a sticky mode gives the events their places in the least legal layout of as many first events as fit, and leaves the others |
| `SettingsRules.PassForcesIff` | teamarr/database/channel_numbers.py:173-215 | a pass lays out anew if and only if the mode is sticky and the flag is armed, or the daily re-layout is enabled, its time of day has come and none was recorded since |
| `SequentialNumbering.CompactEnumerates` | teamarr/database/channel_numbers.py:959-992 | the i-th channel gets the free number with exactly i free ones before it, and the number placed is the minimum of channels and free numbers in the range |
| `SequentialNumbering.CompactPlaces` | teamarr/database/channel_numbers.py:959-992 | the j-th of k channels gets n if and only if n is the free number of the range with exactly j free ones before it |
| `SequentialNumbering.ManualProjectsToCompact` | teamarr/database/channel_numbers.py:1022-1066 | restricted to any league, a manual pass is the compact pass over that league's channels alone from where the league stands |
| `SequentialNumbering.ManualPlanAt` | teamarr/database/channel_numbers.py:1022-1066 | a channel of a manual pass gets what the compact pass from its league's standing gives at its place in the league |
| `Drift.UpdateCommutesWithSort` | teamarr/database/channel_numbers.py:523-561 | writing a number or a lock changes no place in the global order |
| `ResetGate.AtMostOneDailyReset` | teamarr/database/channel_numbers.py:173-230 | with a fixed reset time and a clock that never runs back, two resets not caused by arming never fall on one day |
| `ResetGate.SecondResetNeedsLaterTime` | teamarr/database/channel_numbers.py:173-230 | two such resets on one day mean that the reset time was moved past the first one |
| `ResetGate.MovedTimeResetsTwice` | teamarr/database/channel_numbers.py:173-230 | a concrete day with two resets after the time was moved |
| `ResetGate.FirstGenerationAfterBoundaryResets` | teamarr/database/channel_numbers.py:173-215 | an enabled, unarmed sticky generation resets if and only if its day's boundary has passed and no reset was recorded since |
| `ResetGate.GenerationResetsIff` | teamarr/database/channel_numbers.py:173-230 | over any history a generation resets if and only if its mode is sticky and an arming is pending, or the daily reset is enabled, the boundary has passed and no reset was recorded since |
| `ResetGate.BoundaryIsOfTheDay` | teamarr/database/channel_numbers.py:196-205 | the boundary lies on the day of the generation at the configured hour and minute, or at 04:00 when these do not read as a time |
| `ResetGate.ArmedIffPending` | teamarr/database/channel_numbers.py:234-278 | the flag is up if and only if some arming was neither cleared nor used by a reset |
| `ResetGate.ArmingCausesOneReset` | teamarr/database/channel_numbers.py:234-278 | an arming resets the next sticky generation and is used up by it |
| `NumberPush.SyncGlobalChannels` | teamarr/consumers/generation.py:959-1014 | one pass decides on the re-layout, reassigns, and leaves the remote numbers exactly as the reported changes applied one by one |
| `NumberPush.DriftReportIsFaithful` | teamarr/database/channel_numbers.py:649-669 | in every mode the report has one entry for every changed number, at most one per channel, each with the numbers before and after |
| `NumberPush.PushedNumber` | teamarr/consumers/generation.py:991-1006 | the push adds and removes no remote channel; each has the number of the last update that reaches it, one with a remote id and a number other than 0 that the remote system accepts, or else the number it had |
| `NumberPush.PushBringsInStepIff` | teamarr/consumers/generation.py:991-1006 | after the push a channel whose update succeeds agrees with the remote if and only if it did not move to number 0, which is never sent |
| `NumberPush.MovesToZeroIff` | teamarr/consumers/generation.py:991-996 | a pass gives 0 to a channel that had another number if and only if the mode is manual, its league starts at or below 0, 0 is in the range and not external, and as many of the league's channels come before it as there are free numbers from the start up to 0 |
| `NumberPush.OnePassKeepsAgreementIff` | teamarr/consumers/generation.py:977-1006 | if the numbers agreed before and every update succeeds they agree after the pass, in every mode, if and only if no remotely known channel with another number is due 0 in that sense |
| `NumberPush.PositiveStartsKeepAgreement` | teamarr/consumers/generation.py:977-1006 | in the automatic modes, and in manual mode with league starts of 1 or more, one pass always keeps agreement |
| `NumberPush.ZeroIsNeverSent` | teamarr/consumers/generation.py:994-996 | a league that starts at 0: its first channel moves there and the remote system keeps the old number |
| `Reconciler.ChannelReconciler.Reconcile` | teamarr/consumers/reconciliation.py:159-217 | one pass finds exactly the local orphans, the remote orphans and the drift among the channels the server tells about, in that order, and leaves both tables as the fixes applied one by one; without fixing it only fills in missing uuids |
| `Reconciler.ChannelReconciler.DetectOrphanLocal` | teamarr/consumers/reconciliation.py:219-287 | reports the linked rows whose channel is confirmed to be gone, never one the server was silent about, live or not, and fills in the missing uuids of those it answered about |
| `Reconciler.ChannelReconciler.DetectOrphanRemote` | teamarr/consumers/reconciliation.py:289-352 | reports, once each, exactly the listed prefixed channels that no undeleted row names by id or uuid |
| `Reconciler.ChannelReconciler.DetectDrift` | teamarr/consumers/reconciliation.py:420-540 | reports exactly the linked rows whose channel the server returns and which differs, with the fields to set |
| `Reconciler.ChannelReconciler.ApplyFixes` | teamarr/consumers/reconciliation.py:542-663 | leaves both tables as the fixes applied one by one, and sorts the issues into fixed, skipped and failed as the server answers |
| `Convergence.PassRemovesOnlyStrays` | teamarr/consumers/reconciliation.py:304-352 | whatever the flags and whatever the server withholds or refuses, a pass removes exactly the listed orphans it may delete, never a channel an undeleted row names by id or uuid |
| `Convergence.PassDeletesOnlyOrphans` | teamarr/consumers/reconciliation.py:219-287 | a pass marks exactly the rows deleted whose channel is confirmed to be gone |
| `Agreement.LinkedChannelAgrees` | teamarr/consumers/reconciliation.py:455-608 | after a pass a linked channel that the server tells about and lets be changed has its row's tvg id, group and streams where the row has any, and its row's profiles if the server reports them; every other field is as before |
| `Agreement.DriftReportedIff` | teamarr/consumers/reconciliation.py:455-530 | drift is reported for exactly the linked rows whose channel the server tells about and which differs in one of these fields, and the fix sets exactly the differing ones to what the row says |
| `Agreement.LocalOrphanReportedIff` | teamarr/consumers/reconciliation.py:219-287 | a local orphan is reported for exactly the undeleted linked rows whose channel is confirmed to be gone |
| `Agreement.RowAfterPass` | teamarr/consumers/reconciliation.py:219-287 | a pass marks exactly these rows deleted, if it may, fills an empty uuid from a channel the server tells about, and changes nothing else in any row |
| `Agreement.LookingFillsIn` | teamarr/consumers/reconciliation.py:159-217 | a pass that only looks fills in missing uuids and changes nothing else |
| `Agreement.ChannelRemovedIff` | teamarr/consumers/reconciliation.py:289-352 | a pass removes exactly the channels with Teamarr's tvg id prefix that the server tells about and lets be deleted and that no undeleted row names by id or uuid, if it may; it adds none |
| `Agreement.OtherChannelsStay` | teamarr/consumers/reconciliation.py:455-608 | a channel that no row is linked to, or that the server does not let be changed, keeps every field while it is there |
| `Agreement.FixesDoNotCollide` | teamarr/consumers/reconciliation.py:542-663 | whatever the flags and whatever the server refuses, the report of a pass sorts what was found, in order, by what may be fixed and what is refused alone: no fix takes away what a later one needs |
| `Convergence.SilentIsUntouched` | teamarr/consumers/reconciliation.py:239-249 | a live channel the server is silent about stays as it is, and so do the rows linked to it |
| `Convergence.EverythingFoundIsFixed` | teamarr/consumers/reconciliation.py:542-663 | with every fix enabled and a server that refuses nothing, all that was found is fixed |
| `Convergence.NextPassFindsTheStranded` | teamarr/consumers/reconciliation.py:184-210 | after a full pass, the next one finds no local orphan and no drift, and as remote orphans exactly the stranded channels: those known only by the uuid of rows whose own channel is gone |
| `Convergence.OnePassConverges` | teamarr/consumers/reconciliation.py:184-210 | if ids and uuids identify the same channel, the pass after a full one finds nothing |
| `Convergence.TwoPassesConverge` | teamarr/consumers/reconciliation.py:184-210 | without that condition the third pass finds nothing |
| `Convergence.OnePassIsNotAlwaysEnough` | teamarr/consumers/reconciliation.py:304-328 | a concrete table with a stranded channel |
| `SchemaSplitter.SplitTopLevel` | teamarr/database/reconciliation.py:29-78 | the scanner ends on every input and returns `Split` |
| `SchemaSplitter.CopyQuoted` | teamarr/database/reconciliation.py:52-63 | a quoted text is copied to its closing quote, or to the end |
| `SplitRules.SplitFollowsTheRules` | teamarr/database/reconciliation.py:29-78 | on any text, also one with open quotes, comments or parentheses: read piece by piece, comments are left out, quoted texts and all other characters kept, and a comma outside all parentheses ends a definition, which is trimmed; the last one counts unless it is empty, and no other list of parts satisfies this |
| `SchemaSplitter.JoinSplitIff` | teamarr/database/reconciliation.py:29-78 | for every list of texts, joining with commas and splitting gives it back if and only if each text is trimmed, free of comments and top-level commas, each but the last is closed and balanced, and the last is not empty |
| `SchemaSplitter.CommentsAreSkipped` | teamarr/database/reconciliation.py:29-78 | joining any texts built of characters, line and block comments, quoted and parenthesized texts with commas and splitting gives each of them, trimmed and without its comments, whatever commas, quotes or parentheses the comments hold; only an empty last one is dropped |
| `SchemaSplitter.DefinitionsRoundTrip` | teamarr/database/reconciliation.py:29-78 | any list of non-empty trimmed definitions, built of characters, quoted and parenthesized texts, survives joining and splitting |
| `ColumnLookup.ExtractColumnDef` | teamarr/database/reconciliation.py:81-100 | the lookup loop returns `ColumnDef` |
| `ColumnLookup.LookupFindsTheDefinition` | teamarr/database/reconciliation.py:81-100 | in a statement made of such texts, comments and all, the lookup returns the first definition that declares the name once its comments are gone, and nothing exactly if none does |
| `ColumnLookup.LookupInSeparable` | teamarr/database/reconciliation.py:81-100 | the same for every list of texts that survives joining and splitting as it is |
| `ColumnNames.DeclaresItsName` | teamarr/database/reconciliation.py:93-97 | a definition that starts with a text without white space, in any quotes or none, declares that text, less the quotes at its ends, in any case, and nothing else |
| `ColumnWords.DeclaresIff` | teamarr/database/reconciliation.py:93-97 | on any text: a part declares exactly the names that are its first word without the quotes and brackets at its ends, letter case aside |
| `ColumnWords.WordsAreSeparated` | teamarr/database/reconciliation.py:93 | the words of a text are what white space separates, and no other list is |
| `ColumnWords.NoBodyNoColumn` | teamarr/database/reconciliation.py:87-90 | a statement without an opening parenthesis before a closing one has no columns |
| `ColumnNames.DeclaresOwnNameIff` | teamarr/database/reconciliation.py:93-97 | a definition that starts with a name, in any quotes or none and followed by white space or the end, declares that name if and only if the name holds no white space and no quote or bracket at its ends |
| `ColumnNames.SpacedNamesAreNotFound` | teamarr/database/reconciliation.py:93-97 | no definition ever declares a name with white space in it |
| `ColumnNames.QuotedNameHidesAnother` | teamarr/database/reconciliation.py:93-100 | the quoted column `a b` is not found, and its definition is returned for a column `a` behind it |
| `ColumnNames.CommentAfterNameIff` | teamarr/database/reconciliation.py:50-54 | a block comment behind a column's name leaves that name intact if and only if white space comes before it, or behind it the text ends or goes on with white space (after quotes at most) |
| `ColumnNames.LineCommentSeparates` | teamarr/database/reconciliation.py:44-49 | a line comment behind a column's name always leaves it intact |
| `ColumnNames.GluedCommentHidesColumn` | teamarr/database/reconciliation.py:50-54 | a statement body of one name and a one-word type with nothing but a block comment between them: the lookup finds no such column |
| `ColumnNames.GluedCommentExample` | teamarr/database/reconciliation.py:50-54 | `a/*x*/INT` is such a body |
| `ColumnLookup.CollapseKeepsWords` | teamarr/database/reconciliation.py:98-99 | collapsing white space loses no word |
| `ColumnWords.CollapsedIff` | teamarr/database/reconciliation.py:98-99 | the text returned is the one with the same words that is written with single blanks |
| `ColumnLookup.CollapseIsVerbatimIff` | teamarr/database/reconciliation.py:98-99 | the definition returned is verbatim if and only if it was written with single blanks, also inside quotes |
| `ColumnLookup.QuotedBlanksCollapse` | teamarr/database/reconciliation.py:98-99 | a default of two blanks comes back as a default of one |
| `LifetimeStats.StatsStore.CleanupOldRuns` | teamarr/database/stats.py:575-585 | folds and deletes the runs before the cutoff; no total changes |
| `LifetimeStats.StatsStore.ClearAllRuns` | teamarr/database/stats.py:588-593 | folds and deletes all runs; no total changes |
| `LifetimeStats.StatsStore.FoldRunsIntoLifetime` | teamarr/database/stats.py:495-572 | every lifetime sum grows by exactly the selected rows' sum, also on the early return |
| `LifetimeStats.StatsStore.CreateRun` | teamarr/database/stats.py:169-210 | adds one running row and leaves all others; its id is at least the counter before and below the counter after, and no row has it |
| `LifetimeStats.StatsStore.SaveRun` | teamarr/database/stats.py:213-269 | the row with the run's id gets status and metrics, every other row is unchanged, and without such a row nothing changes |
| `LifetimeStats.StatsStore.GetCurrentStats` | teamarr/database/stats.py:459-487 | each reported total is the live sum plus the lifetime sum |
| `LifetimeStats.LedgerIsNumbered` | teamarr/database/stats.py:169-210 | over any history the n-th run ever created has id n and the counter is one above them all, so no id is given twice, also not after pruning |
| `LifetimeStats.FoldAdds` | teamarr/database/stats.py:535-536 | the early return drops nothing |
| `LifetimeStats.PruneKeepsTotals` | teamarr/database/stats.py:575-593 | pruning changes no total, whatever it selects |
| `LifetimeStats.TotalsAreConserved` | teamarr/database/stats.py:384-487 | over any history every total is the sum over all runs ever created at their last recorded values, cache hits from event-group runs and all else from full generations |
| `LifetimeStats.RunTotalsCountGenerations` | teamarr/database/stats.py:384-487 | over any history the run totals are the numbers of full generations ever created, of those that completed and of those that failed |
| `LifetimeStats.WhatARunCounts` | teamarr/database/stats.py:384-419 | what each kind of run adds to each counter |
| `LifetimeStats.PruneKeepsTheRecent` | teamarr/database/stats.py:575-593 | pruning keeps exactly the runs created at the cutoff or later; clearing keeps none |
| `LifetimeStats.SaveCountsIff` | teamarr/database/stats.py:213-269 | a save reaches a total if and only if its run was not pruned before, or what the run counts for does not change |
| `LifetimeStats.LateSaveIsLost` | teamarr/database/stats.py:213-269 | a generation cleared away while it runs: it completes with 5 matched streams, and neither is ever counted |
| `UfcSegments.ExpandUfcSegments` | teamarr/consumers/ufc_segments.py:522-673 | the two loops over the nested dictionary return `Expanded`: other matches first, then event by event in order of appearance, segment by segment in card order |
| `UfcExpansion.ToldSegmentWins` | teamarr/consumers/ufc_segments.py:571-608 | a hint, or else the name, decides when the event has that segment or no segment data; only prelims become early prelims, when the clock time is nearer to those |
| `UfcPlaces.SegmentIsWhereItBelongs` | teamarr/consumers/ufc_segments.py:571-608 | a stream's segment is the one it asks for, by hint, name or nearest start within 60 full minutes, else the main card, with prelims turning early by clock time; and if the event has segment data without it, the next segment of the card that it has, else the last before, else the main card or the first it has |
| `UfcExpansion.CombinedIsMainCard` | teamarr/consumers/ufc_segments.py:574-576 | a combined stream goes to the main card, or, when the event has segment data without it, to the last segment the event has before it |
| `UfcExpansion.TimeDecides` | teamarr/consumers/ufc_segments.py:578-587 | without hint and name, a clock time within 60 full minutes of some start decides for the first nearest one |
| `UfcExpansion.DefaultIsMainCard` | teamarr/consumers/ufc_segments.py:589-591 | otherwise the stream goes to the main card, or, when the event has segment data without it, to the last segment the event has before it |
| `UfcSegments.DetermineSegment` | teamarr/consumers/ufc_segments.py:308-338 | the nearest start, unless it is more than 60 full minutes away |
| `UfcExpansion.NearestStartIsMinimal` | teamarr/consumers/ufc_segments.py:308-317 | the start found is a nearest one, the first of those |
| `UfcExpansion.CanonicalExists` | teamarr/consumers/ufc_segments.py:49-105 | an event with segments has the canonical segment; a segment it has is kept |
| `UfcExpansion.CanonicalIsNext` | teamarr/consumers/ufc_segments.py:75-96 | a missing segment gives way to the next one the event has, else to the last one before |
| `UfcExpansion.ExpansionConserves` | teamarr/consumers/ufc_segments.py:542-652 | every match comes out exactly as often as it went in, except excluded streams and segments outside the card order, which do not come out |
| `UfcExpansion.OnlyExcludedDropped` | teamarr/consumers/ufc_segments.py:461-480 | for an event whose segments are all of the provider's card segments only excluded streams are dropped |
| `UfcExpansion.EntriesAreWellPlaced` | teamarr/consumers/ufc_segments.py:618-652 | every entry is its match unchanged, or carries its own segment, one its event has when it has any, with that segment's window |
| `UfcPlaces.EntriesArePlaced` | teamarr/consumers/ufc_segments.py:542-652 | every entry is its match unchanged but for its hint, or a stream that is not excluded, in the segment it belongs to, with the event of that event's first stream and the time its segment is on there |
| `UfcPlaces.WindowIsOnAir` | teamarr/consumers/ufc_segments.py:441-519 | an announced segment is on from its start to that of the next announced one, the last for half the configured length; otherwise by the announced main card with 90 minutes of prelims, or a third of the configured length each from the event's start |
| `UfcPlaces.OffCardWindow` | teamarr/consumers/ufc_segments.py:476-478 | a segment outside the card is on for a third of the configured length |
| `UfcListing.EntriesAreListedInOrder` | teamarr/consumers/ufc_segments.py:542-652 | matches that are no UFC streams come first, then event by event in the order of their first streams, then segment by segment in card order |
| `UfcListing.EachClassKeepsItsOrder` | teamarr/consumers/ufc_segments.py:542-652 | the other matches, and the streams of one event and segment, come out complete and in the order they came in |
| `UfcExpansion.WindowsTileIff` | teamarr/consumers/ufc_segments.py:461-480 | each window ends where the next begins; the windows are positive and disjoint if and only if the starts increase in card order |
| `UfcExpansion.EstimatesTileIff` | teamarr/consumers/ufc_segments.py:491-519 | the estimated windows follow each other; the first is in order if and only if the event starts 90 minutes or more before its main card or announces none, the prelims last at all if and only if it starts before its main card or announces none |
| `UfcExpansion.EstimatesCanOverlap` | teamarr/consumers/ufc_segments.py:491-519 | two concrete events: early prelims that end before they start, and prelims without length |
| `RacingSegments.ExpandRacingSegments` | teamarr/consumers/racing_segments.py:382-510 | the expansion loop returns `Expanded` |
| `RacingSegments.NearestSession` | teamarr/consumers/racing_segments.py:351-379 | the loop returns the code and distance of the first nearest session |
| `RacingSegments.GetSessionTimes` | teamarr/consumers/racing_segments.py:320-348 | the first session with the code, else the event's start |
| `RacingSegments.NearestIsMinimal` | teamarr/consumers/racing_segments.py:365-379 | the session found is a true minimum, the first of those |
| `RacingSegments.NearestIsZeroIff` | teamarr/consumers/racing_segments.py:365-379 | the distance is 0 if and only if the instant lies in some session |
| `RacingSegments.SlotCarriesWhatItMeets` | teamarr/consumers/racing_segments.py:442-454 | a slot that meets some session carries exactly the sessions it meets |
| `RacingSegments.SlotCarriesTheNearest` | teamarr/consumers/racing_segments.py:455-472 | a slot that meets none carries exactly the session that the nearest search finds, if within 90 minutes of its start |
| `RacingSegments.BestIsNearest` | teamarr/consumers/racing_segments.py:459-461 | that session is the one within 90 minutes of the slot start such that none is nearer and none as near is listed before it |
| `RacingSegments.SlotDroppedIff` | teamarr/consumers/racing_segments.py:442-472 | the stream is dropped if and only if every session is disjoint from the slot and further than 90 minutes from its start |
| `RacingSegments.CarriedAscends` | teamarr/consumers/racing_segments.py:404-503 | a stream's sessions come in order of their starts |
| `RacingSegments.CarriedOnce` | teamarr/consumers/racing_segments.py:404-503 | no session comes more often than the event lists it |
| `RacingSegments.ExpansionExact` | teamarr/consumers/racing_segments.py:404-503 | every other match comes out unchanged, and every session a racing stream carries comes out with its own window, exactly as often as the match went in; nothing else comes out |
| `RacingRules.EntriesAreExact` | teamarr/consumers/racing_segments.py:404-503 | an entry comes out exactly as often as its match went in, if it is a match without racing sessions as it was, or a session that the stream carries, by the codes of its category, the sessions its slot overlaps or the nearest within 90 minutes, or all but practice, ending as long after its start as such a session lasts; nothing else comes out |
| `RacingRules.CategoryCovers` | teamarr/consumers/racing_segments.py:284-305 | a numbered practice covers its own code alone, qualifying its classes and hyperpole with its classes, any other category itself and its classes |
| `RacingRules.PracticeIs` | teamarr/consumers/racing_segments.py:308-310 | the codes left out without a category or slot are practice and those that start with fp |
| `RacingRules.DurationLasts` | teamarr/consumers/racing_segments.py:78-148 | a race lasts as long as its name says, else 6 hours in the WEC and 2 hours 45 minutes in IMSA, else as configured; any other session an hour |
| `RacingRules.OverlapsIffShared` | teamarr/consumers/racing_segments.py:448-454 | a slot and a session overlap if and only if they share an instant |
| `RacingRules.AwayIsDistance` | teamarr/consumers/racing_segments.py:365-379 | the distance of an instant from a session is the least one to an instant at which it is on |
| `RacingRules.MatchesKeepTheirOrder` | teamarr/consumers/racing_segments.py:404-503 | the entries of each match come behind those of the matches before it |
| `RacingRules.EntriesInOrder` | teamarr/consumers/racing_segments.py:415-503 | the entries of one match come in order of their starts, those that start together as their sessions are listed |
| `RacingRules.SprintCoversItsQualifying` | teamarr/consumers/racing_segments.py:284-305 | the category of a sprint covers the code of the sprint's qualifying |

## Left out

- HTTP clients, tokens, caches, threads and the SQL text: tables are sequences of records, the remote server a map with the ids it is silent about and those it refuses to change.
- Clocks, time zones and calendars: instants and durations are whole seconds, so rounding below a second is not modelled; days have a fixed length, and a gate event carries the time it saw.
- `get_next_channel_number` and its two helpers: the number of a single new channel before the global pass; the pass renumbers it.
- Channels of disabled groups: the table holds the active rows only, so a row that leaves and comes back is a deletion and an addition.
- Text of stored numbers: a channel's number is the parsed value. Compact and manual mode compare the stored text with a number, so the model reports every number they give as a change, also one that is the same.
- Case folding of names: names that the sort compares without case are held in lower case; column names fold ASCII letters only.
- SortOrder.SortIsStable: relies on Python's `sorted` being stable; the sort itself is modelled as a stable insertion sort, not as Timsort.
- Pushes that fail: `Mirror` drops a refused update as the source does after logging it; nothing retries it before the channel moves again.
- Duplicate detection in the reconciler: it only reports and its fix is always skipped.
- Stream order and channel numbers in drift detection: the source compares streams as sets and leaves numbers to the push.
- Reconciler.ChannelReconciler.DetectOrphanRemote: the server's listing order is any order of its ids; a channel that the listing omits but that answers when asked for by id is not modelled, a silent id is missing from both.
- LateFeedHistories.LateFeedsNeverMoveAnyone: covers feeds that are added; a deleted channel leaves a hole in its block, which the source does not close either.
- History log entries and the `verify_channel` and stale-group reports: they change no table that the model keeps.
- Adding the missing columns with ALTER TABLE, and the fallback definition: they need SQLite's own catalogue.
- Averages, last-24-hours and by-type figures of the statistics: they cover live rows only and promise nothing about pruned ones.
- Regular expressions: the session category, card segment, exclusion, clock time and stated race duration found in a name are inputs.
- Fields that only travel along (display names, matcher fields): an entry carries its whole source match instead.
- UfcExpansion.CanonicalExists: when no known segment fits, the source takes an arbitrary element of a set; the model takes the first listed.
- RacingSegments.SlotCarriesWhatItMeets: assumes distinct session codes, as the source's lookup by code does.
- The scheduler, templates, XMLTV output, settings screens and caches: plumbing around the modelled decisions.
