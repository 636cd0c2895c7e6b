# Foghorn: a verified model

Foghorn shows pop-up alerts on Windows desktops. A sender writes an alert on the
server; every computer keeps a long poll open, is handed the alerts meant for
it, shows them in windows, and reports back what became of them. This project
models that path from end to end and proves what it promises.

| file | what it models |
|---|---|
| `Text.dfy`, `Glob.dfy`, `Targets.dfy` | wildcard patterns, targeting rules, saved groups, flattened targets |
| `Validation.dfy`, `Sending.dfy` | cleaning and checking an alert, who may send it to whom, the reach preview |
| `Deliveries.dfy` | one delivery record per alert and computer: what a receipt, a poll, a recall and the archive do to it |
| `Runs.dfy` | the alert store as a state machine, with logs of everything ever sent and told |
| `Promises.dfy`, `Compaction.dfy`, `Archiving.dfy` | what holds of those logs over every run, and what archiving can and cannot change |
| `Poller.dfy`, `Receipts.dfy`, `LongBatches.dfy` | the client's event queue; queue, network and server together; the limit of 200 events a request |
| `LongPoll.dfy`, `Answers.dfy` | the wake-up channel, polls that park on it, shutdown, and what polls are answered |
| `Screen.dfy`, `Closings.dfy`, `Windows.dfy` | the windows a client shows, what its reports say, and the same as objects |
| `Recalls.dfy` | who recalled what, told from whole runs |
| `Store.dfy` | the store as objects, each method proved to take one step of `Runs.dfy` |
| `Throttle.dfy`, `Sessions.dfy`, `Pbkdf2.dfy`, `Accounts.dfy` | sign-in throttle, sessions, key derivation, accounts and groups |

Code that changes objects or loops over local variables is written as classes and
methods, each proved against a function of the old state; the promises are lemmas
about those functions. Concurrent parts are state machines whose steps are the
sections the program runs under one lock.

Library code is a parameter, constrained only by what is written beside it:
the Unicode tables (`Text.Unicode.Valid`), address ranges and links
(`Targets.Library`), the pseudo-random function (`Pbkdf2.FixedLength`), name
folding and sorting (`Accounts.Names.Valid`). Time is an integer number of
nanoseconds.

## Where the code and its words differ

- A subject that holds a `*` can use up the pattern's star as a literal, so the
  pattern `*` does not match `*x` (`Glob.StarAgainstStar`).
  `Glob.SubjectReadCorrectlyIff` and `Glob.PatternReadCorrectlyIff` say for which
  subjects and which patterns the matcher means what it says.
- "Nothing is lost: events are safe to send twice" (`client/src/Poller.cs:108`)
  holds in every run if and only if batches have at most 200 events
  (`LongBatches.ExactlyOnceIff`). The server reads no more than that and the client
  counts all as sent; `LongBatches.LosesAcknowledgement` is a run that loses one.
- Archiving the records of an alert forgets the recalls it owes, and the recalls it
  would come to owe: an alert that expired can still be recalled, and a computer
  that still shows it is then never told. `Archiving.RecallsSurviveArchivingIff` says
  exactly when no continuation loses a recall, `Archiving.LosesRecall` gives the run.
- A receipt that arrives after the records were archived is not counted, so the
  totals in the history stay too low. `Archiving.TotalsAgreeIff` says for which runs
  they agree with the records, `Archiving.TotalsSurviveArchivingIff` when they do in
  every continuation, `Archiving.LosesReceipt` gives the run that shows the loss.
- An acknowledgement can set the displayed time without flagging the store as
  changed (`server/api_client.go:238-241`). `Deliveries.UnflaggedChangeExists` gives
  such a record; `Deliveries.UnflaggedIsUnchanged` shows that no reachable record is one.
- Deleting a group may empty a sender's list, and an empty list means no
  restriction; `Accounts.RestrictionSurvivesDeletionIff` gives the condition.
- The API documentation asks for exactly one shape of target (`docs/API.md:76`);
  the code takes any combination and reads it as a union (`Targets.FlattenMeaning`).

## Model

| member | source | states |
|---|---|---|
| Glob.WildcardMatch | server/match.go:24-49 | The in-place scan with one remembered star answers exactly what unlimited backtracking under the code's order of cases answers |
| Glob.LastStarSuffices | server/match.go:38-41 | Forgetting every star but the last loses no match |
| Glob.Sound | server/match.go:24-49 | On every input a true answer means that the pattern, read as documented, matches |
| Glob.CompleteWithoutStar | server/match.go:24-49 | A subject without `*` that the pattern matches is found |
| Glob.CompleteLiteral | server/match.go:24-49 | A pattern without `*` that matches is found, whatever the subject |
| Glob.SubjectReadCorrectlyIff | server/match.go:29-35 | The answer is the documented one for every pattern if and only if the subject has no `*` |
| Glob.PatternReadCorrectlyIff | server/match.go:29-35 | The answer is the documented one for every subject if and only if the pattern has no `*` |
| Glob.StarAgainstStar | server/match.go:31-36 | The pattern `*` does not match the subject `*x`, though it should |
| Targets.WildcardMeaning | server/match.go:24-49 | Lower-cased, a pattern means what it says unless both it and the subject hold a star |
| Text.Unicode.TrimMeaning | server/match.go:162 | Trimming takes white space, all of it, off both ends and nothing else |
| Targets.ShortName | server/match.go:70-73 | A directory group's short name is what follows the last backslash |
| Targets.MatchGroups | server/match.go:68-78 | Some group of the computer, in full or by short name, matches |
| Targets.MatchRule | server/match.go:51-87 | One rule against one computer, field by field; empty patterns and unknown fields match nothing |
| Targets.RuleMeaning | server/match.go:51-87 | Field by field, with patterns read as documented: hostname; user alone or with the domain; an OU pattern or an OU part; a group in full or by its short name; an address range or pattern; nothing for an empty pattern or another field |
| Targets.MatchRules | server/match.go:89-96 | Some rule of the list matches |
| Targets.GroupByID | server/store.go:364-371 | Finds a group with that id if and only if there is one |
| Targets.FlattenTarget | server/match.go:108-128 | The rules of the chosen groups that still exist, in order, then the target's own |
| Targets.GroupRulesMeaning | server/match.go:108-128 | The collected rules match a computer if and only if some chosen existing group matches it |
| Targets.FlattenMeaning | server/match.go:99-128 | A flattened target is meant for a computer if and only if it says all, or some chosen existing group matches, or some explicit rule does |
| Validation.CleanTextOpt | server/match.go:146-163 | One pass over the characters gives the same text as normalise, filter, trim, cap, trim |
| Validation.CleanTextIsClean | server/match.go:146-163 | Cleaned text is trimmed, within its length and free of control characters |
| Validation.CleanTextFixedIff | server/match.go:146-163 | Cleaning leaves a text alone if and only if it is clean; cleaning twice is cleaning once |
| Validation.ReplaceMeaning | server/match.go:147 | Every two-character line end becomes one newline, wherever it stands |
| Validation.StripMeaning | server/match.go:150-155 | Filtering works character by character and keeps the order |
| Validation.StripOne | server/match.go:151-155 | Exactly control characters go, newlines kept where asked |
| Validation.CleanMeaning | server/match.go:146-163 | The result is the first max characters kept, without the white space at both ends |
| Validation.CleanRules | server/match.go:130-140 | The usable rules, tidied, in order |
| Validation.TidyRulesAreTidy | server/match.go:130-140 | Every rule kept has a known field and a clean, non-empty pattern |
| Validation.TidyRulesOfTidy | server/match.go:130-140 | Tidy rules are all kept unchanged |
| Validation.TidyRulesMeaning | server/match.go:130-140 | A rule is in the result if and only if it comes from one given, its field trimmed and lowered is known, and its cleaned pattern is not empty |
| Validation.ValidateSpec | server/api_admin.go:264-314 | Cleans, fills defaults and reports the first problem in the code's order |
| Validation.ValidatedIsNormal | server/api_admin.go:264-314 | An accepted alert has a title, lengths within bounds, known level and display, expiry in 1..10080, no auto-close with acknowledgement, and a target |
| Validation.AcceptedUnchangedIff | server/api_admin.go:264-314 | An alert is accepted unchanged if and only if it is in that normal form; what was accepted once is accepted again unchanged |
| Validation.AcceptedIff | server/api_admin.go:264-314 | Exactly which alerts are accepted |
| Validation.AcceptedMeans | server/api_admin.go:264-314 | What is stored of an accepted alert: cleaned texts, defaults for empty choices, everything else as asked |
| Validation.ProblemIs | server/api_admin.go:264-314 | Which problem is reported: the first of seven in order |
| Sending.IsAllowed | server/api_admin.go:317-336 | Restricted senders may use only groups of their own, and neither "all" nor explicit rules |
| Sending.HandleSend | server/api_admin.go:338-371 | Order of refusals, and the cleaned alert and flattened rules that are stored |
| Sending.RefusedIff | server/api_admin.go:317-361 | Exactly when an alert is refused, for which reason, and when it is accepted |
| Sending.Hit | server/match.go:99-104 | Whether an alert is meant for a computer |
| Sending.CountReach | server/api_admin.go:419-446 | Counts exactly the matching computers and the matching ones online |
| Sending.PreviewMeaning | server/api_admin.go:419-446 | The preview counts the computers that a chosen group or a rule matches, and those polling or seen within 45 s |
| Sending.PreviewIsReach | server/api_admin.go:362-446 | On the same store the reach reported for a sent alert equals the preview |
| Sending.RestrictedSenderReachesOwnGroups | server/api_admin.go:317-371 | Every computer an alert of a restricted sender is meant for is matched by one of that sender's allowed groups |
| Deliveries.IndexOf | server/store.go:373-380 | The newest alert with that id |
| Deliveries.ApplyBatchPointwise | server/api_client.go:217-259 | A batch changes each alert by its own events only, in order |
| Deliveries.ApplyKindsKeeps | server/api_client.go:232-254 | Receipts keep a record consistent (acknowledged implies displayed and closed as such; closed if and only if a reason is set), keep set times set, and touch nothing else |
| Deliveries.UnflaggedIsUnchanged | server/api_client.go:232-258 | For a consistent record a change is flagged if and only if the record changes |
| Deliveries.TotalsOrdered | server/store.go:124-138 | acknowledged <= displayed <= sent |
| Deliveries.TotalsGrow | server/store.go:124-138 | No total falls while records only advance |
| Deliveries.AfterPollKeeps | server/api_client.go:264-307 | A poll keeps every record consistent and only advances the alert |
| Deliveries.PollWrites | server/api_client.go:273-307 | What a poll writes: session and time, host and user of a new record, the mark of a told recall, and no other record |
| Deliveries.ArchiveKeeps | server/store.go:330-334 | Archiving keeps the alert consistent and its totals unchanged |
| Runs.StepAlerts | server/api_client.go:217-319 | After any operation each alert comes from one before it, in order; only a send adds one, only a flush drops any |
| Runs.StepDirty | server/store.go:283-287 | Whenever the flag is down the alerts equal the last snapshot |
| Runs.ReachableOK | server/store.go:275-342 | In every reachable store: unique ids, consistent records, ordered totals, alerts a suffix of the history, flag down implies saved |
| Runs.FlushKeepsNewest | server/store.go:283-335 | A flush leaves exactly the newest 300 alerts ever sent, in order, and they are saved |
| Runs.AlertsAdvance | server/api_client.go:217-319 | Over any run: times once set stay set, totals never fall, content never changes |
| Runs.DroppedStaysDropped | server/store.go:321-323 | An alert that was dropped never comes back |
| Recalls.RecalledIff | server/api_admin.go:391-416 | In every run each alert kept was sent by one operation, with what it said, and is recalled if and only if its sender or an administrator recalled it since: when and in whose name the first of them did |
| Recalls.RecalledOnlyBy | server/api_admin.go:400-409 | One operation makes an alert recalled only if it is a recall that names it, from its sender or an administrator, and then always |
| Recalls.RefusedRecall | server/api_admin.go:394-404 | Any other recall changes nothing |
| Recalls.PermittedRecall | server/api_admin.go:405-409 | A permitted recall changes that alert alone |
| Promises.LogStep | server/api_client.go:264-319 | An operation logs a send or a told recall for a computer exactly when the decision says so |
| Promises.ChosenConcat | server/api_client.go:267-317 | A poll is answered in the order of the history |
| Promises.NewSessionSentIff | server/api_client.go:282-293 | Under a new session an alert is sent if and only if it is live, matches, and is not settled |
| Promises.SameSessionSentIff | server/api_client.go:286-288 | Under the same session it is sent again if and only if live, matching, not displayed and more than a minute old |
| Promises.NeverSentAgain | server/api_client.go:217-319 | Over every run, once recalled, acknowledged, archived, or displayed without needing acknowledgement, an alert is never sent to that computer again under any session |
| Promises.RecallToldAtMostOnce | server/api_client.go:273-281 | Over every run a computer is told of a recall at most once, and only if the alert was sent to it |
| Promises.SentAtMostExpiresMinutes | server/api_client.go:282-306 | In every run an alert is sent to a computer only inside its window and at most ExpiresMinutes times, plus once for each change of session between its polls; without such a change the sends are more than 60 s apart |
| Compaction.StepTracks | server/store.go:320-342 | One operation on a store that archives and on one that does not keeps them alike: same sends, no extra recall told, archived totals never above the others |
| Compaction.ArchivingUnseen | server/store.go:320-342 | Over every run, with and without archiving, the same alerts are sent to the same computers at the same times, as many are counted as sent, never more as displayed or acknowledged, and no recall is told that would not have been |
| Compaction.TellsIffOwes | server/api_client.go:273-281 | A poll tells a recall if and only if one is owed |
| Archiving.RecallsSurviveArchivingIff | server/store.go:325-335 | After a flush every continuation tells every computer the same recalls with and without the archiving, if and only if every record it took was closed, told already, or of an alert recalled at least twelve hours before |
| Archiving.LosesRecall | server/store.go:330-334 | For any other record there is a continuation, recall then poll, in which the recall is told without the archiving and not with it |
| Archiving.TotalsAgreeIff | server/api_client.go:223-230 | In any continuation the archived totals are at most those of the kept records, and equal if and only if the records were not taken or no report brought them a display or acknowledgement they lacked |
| Archiving.TotalsSurviveArchivingIff | server/store.go:325-335 | Totals agree in every continuation if and only if every record taken was displayed and acknowledged |
| Archiving.LosesReceipt | server/api_client.go:223-226 | For any other record one late acknowledgement makes the totals differ |
| Poller.Poller.QueueEvent | client/src/Poller.cs:65-76 | Appends, and aborts the open request if there is one |
| Poller.Poller.Snapshot | client/src/Poller.cs:93-94 | Takes the whole queue in order and leaves it empty |
| Poller.Poller.Register | client/src/Poller.cs:185-194 | Starts a request if and only if nothing was queued meanwhile |
| Poller.Poller.Release | client/src/Poller.cs:209-212 | Forgets the request, with or without a reply |
| Poller.Poller.Succeed | client/src/Poller.cs:97-104 | A batch with a reply is done with |
| Poller.Poller.PutBack | client/src/Poller.cs:105-109 | After any failure the batch is back in front of the queue |
| Receipts.AbsorbedIff | server/api_client.go:232-254 | Exactly when applying a receipt again, at any time, changes nothing |
| Receipts.ReplayAbsorbs | server/api_client.go:232-254 | Every receipt that was applied is absorbed from then on, whatever followed |
| Receipts.LateBatchIsHarmless | server/api_client.go:217-259 | A batch that overlaps what was applied, however late or often, leaves the record of one replay in order up to the further end |
| Receipts.ReplayMeaning | server/api_client.go:232-254 | Each stamp a replay leaves was there before or is the time of the first receipt that sets it; the reason is the acknowledgement if there is one, else what first closed the alert |
| Receipts.ClientStep | client/src/Poller.cs:65-135 | History = done ++ sending ++ pending, at every step of queue, abort, loss, retry and reply; an open request is aborted exactly when there is news |
| Receipts.SystemStep | client/src/Poller.cs:65-135 | Every step of client, network or server keeps the whole invariant |
| Receipts.ExactlyOnce | client/src/Poller.cs:108 | Over every interleaving with lost requests, lost replies, retries and late duplicates, with batches of at most 200, the record equals one replay, in order, of a prefix of the client's history that covers every answered batch |
| Receipts.RecordSaysWhatWasReported | server/api_client.go:217-259 | Displayed, acknowledged and closed, their times and the reason are exactly what the applied prefix of the history says, and the prefix covers every answered batch |
| Receipts.StartsOK | client/src/Poller.cs:36-41 | A new client process meets the invariant in any reachable store |
| Receipts.WholeBatchAppliedIff | server/api_client.go:219-221 | No event of a batch is ignored, whatever the store, if and only if the batch has at most 200 |
| LongBatches.ExactlyOnceIff | server/api_client.go:219-221 | Every run with batches of at most n events delivers every receipt exactly once, from every store, if and only if n is at most 200 |
| LongBatches.LosesAcknowledgement | server/api_client.go:219-221 | From any store with an unacknowledged record: 201 queued events go out in one batch, the reply comes, nothing is left to send, and the acknowledgement is lost |
| LongPoll.LookedFoundNothing | server/api_client.go:152-165 | A look that finds nothing changes nothing and leaves no news for that computer |
| LongPoll.StoreStep | server/api_client.go:217-319 | Only a send or a recall can make news for a poll that waits |
| LongPoll.MoveKeepsOK | server/api_client.go:29-47 | Every step of send, recall, wake, poll and shutdown keeps the wake-up invariant |
| Answers.LookAnswers | server/api_client.go:158-165 | A look that marks alerts as sent or recalls as told answers the poll with exactly those in that move; one that marks nothing does not; and every alert that is news is in the answer |
| Answers.EveryMarkIsAnswered | server/api_client.go:152-165 | In every run whatever is marked as sent to a computer, or told to it, is in the answer to a poll of that computer |
| Answers.AnswersStayTrue | server/api_client.go:152-165 | In every run no poll is answered with anything that was not marked for its computer |
| Answers.LookedGoesOn | server/api_client.go:161-168 | After a look that found nothing a poll waits if it asked to and the server stays up, and is answered otherwise |
| Answers.EndsWithNothing | server/api_client.go:161-174 | At the end of a wait the answer is empty; a client that went away gets none |
| Answers.WakeFreesAll | server/api_client.go:42-47 | A wake frees every parked poll |
| Answers.WokenPollGetsNews | server/api_client.go:152-168 | A parked poll for which there is news, once woken, looks again and is answered with it |
| Answers.GrabHoldsOpen | server/api_client.go:155 | A poll takes the channel that is open |
| Answers.WokenOnlyByWake | server/api_client.go:36-47 | From then on nothing frees it but a wake, whatever else happens |
| Answers.ArriveShares | server/api_client.go:136 | A new poll of a computer replaces the attributes every poll of it goes by |
| LongPoll.StartsOK | server/api_client.go:29-34 | A freshly started server meets it |
| LongPoll.NoPollSleepsOverNews | server/api_client.go:152-175 | In every reachable state a poll on the open channel misses nothing but what a publisher is about to announce |
| LongPoll.ParkedMeansNoNews | server/api_client.go:152-175 | With no publisher between store and wake, a parked poll has no undelivered alert and no untold recall; and shutdown leaves no poll parked |
| LongPoll.ChannelMustComeFirst | server/api_client.go:153-155 | Taking the channel after the look would break the invariant |
| Screen.LifeMeaning | client/src/AlertForm.cs:203-232 | The life of an alert, read off its reports: displayed once or more, then at most one closing report of an allowed kind |
| Screen.FillKeeps | client/src/AlertForm.cs:551-558 | Scanning the waiting list while removing from it ends with no waiting alert that has room |
| Screen.ReactKeeps | client/src/AlertForm.cs:499-560 | Every show, recall, button, close and timer keeps the invariant |
| Screen.EveryRun | client/src/AlertForm.cs:488-560 | In every run: at most 4 cards and 1 full-screen alert, open and waiting disjoint and seen, each id opened at most once, nothing waits that has room, alerts of one kind open in arrival order |
| Screen.ReportsInOrder | client/src/AlertForm.cs:176-263 | For every run and alert: nothing, or only displayed while open, or displayed and then one closing report allowed for its kind |
| Closings.ReportedIff | client/src/AlertForm.cs:203-263 | In every run an alert is reported acknowledged if and only if its button was pressed while it was open and it asks for it; likewise dismissed, timed out and recalled |
| Closings.ButtonSays | client/src/AlertForm.cs:263 | The button closes the alert with one report: acknowledged if it asks for that, else dismissed |
| Closings.ClosingSays | client/src/AlertForm.cs:222-232 | Closing the window otherwise dismisses, and does nothing to an alert to be acknowledged |
| Closings.LifeOverSays | client/src/AlertForm.cs:203-209 | The life timer times out alerts set to close themselves, and no other |
| Closings.TakenDownSays | client/src/AlertForm.cs:512-517 | A recall closes an open alert with one report, or takes it off the waiting list without any |
| Closings.ShownAgainSays | client/src/AlertForm.cs:501-506 | An alert asked for again is not opened again; if open, its receipt is repeated |
| Closings.HasRoomIff | client/src/AlertForm.cs:519-525 | Room means fewer than four cards, or no full-screen alert |
| Closings.NothingForgotten | client/src/AlertForm.cs:499-560 | In every run all that was to be shown arrived, and each was opened, still waits, could not be built, or was recalled |
| Closings.OnlyBuiltAreShown | client/src/AlertForm.cs:527-542 | A window that cannot be built is never shown |
| Windows.AlertManager.HasRoom | client/src/AlertForm.cs:519-525 | Counts the open windows of the alert's kind |
| Windows.AlertManager.OpenWindow | client/src/AlertForm.cs:527-542 | Builds, registers and reports a window, or none if it cannot be built |
| Windows.AlertManager.Show | client/src/AlertForm.cs:499-510 | Repeats the receipt for an open alert, opens a new one, or lets it wait |
| Windows.AlertManager.Recall | client/src/AlertForm.cs:512-517 | Removes the alert from the waiting list and closes its window |
| Windows.AlertManager.RemoveWaiting | client/src/AlertForm.cs:514 | Removes every waiting alert with that id and keeps the rest in order |
| Windows.AlertManager.Finish | client/src/AlertForm.cs:212-220 | Closes at most once, however often it is called |
| Windows.AlertManager.OnFinished | client/src/AlertForm.cs:544-560 | Forgets the window, reports the reason, opens what now has room |
| Windows.AlertManager.FillWaiting | client/src/AlertForm.cs:551-558 | The loop that removes at its own index opens exactly the alerts the scan opens |
| Windows.AlertManager.CloseByButton | client/src/AlertForm.cs:263 | Acknowledges or dismisses, as the alert demands |
| Windows.AlertManager.FormClosing | client/src/AlertForm.cs:222-232 | A user's close dismisses, unless acknowledgement is needed |
| Windows.AlertManager.TickLife | client/src/AlertForm.cs:203-209 | A window whose time is over times out |
| Store.AlertObject.CountTotals | server/store.go:124-138 | Archived totals, or counts over the records |
| Store.AlertObject.Active | server/store.go:140-149 | Not recalled and not expired |
| Store.Store.AlertByID | server/store.go:373-380 | Searching from the end finds the newest alert with the id |
| Store.Store.AddAlert | server/api_admin.go:367-374 | Is the send step |
| Store.Store.RecallAlert | server/api_admin.go:391-416 | Is the recall step, and answers whether there is no such alert, it is not the caller's, or it is taken back |
| Store.Store.MarkRecalled | server/api_admin.go:394-409 | The first recall by the sender or an administrator is recorded, and flagged if and only if something changed |
| Store.Store.ApplyEvents | server/api_client.go:217-260 | Is the report step: the first 200 events in order |
| Store.Store.ApplyInTurn | server/api_client.go:222-255 | Applies every event in turn and says whether any was flagged |
| Store.Store.ApplyEvent | server/api_client.go:223-254 | Changes one record of one alert and no other |
| Store.Store.PendingFor | server/api_client.go:264-319 | Is the poll step: chooses what to send and whom to tell, and marks it |
| Store.Store.PollAll | server/api_client.go:264-319 | Goes through all alerts in order, collects the two lists, and leaves the flag as it was unless one of them is not empty |
| Store.Store.PendingAlert | server/api_client.go:267-307 | Decides on one alert and updates its record |
| Store.Store.CompactAlerts | server/store.go:320-335 | Keeps the newest 300 objects in order and archives those before the newest 60 that are no longer live |
| Store.Store.ArchiveOne | server/store.go:330-334 | Archives one alert unless it is live, has no records or is archived |
| Store.Store.Flush | server/store.go:283-296 | Is the flush step: compact, snapshot, lower the flag, only when dirty |
| Store.Store.ForgetClients | server/store.go:336-341 | Forgets exactly the computers not polling and unseen for 45 days |
| Throttle.LoginThrottle.GetBlocked | server/auth.go:178-187 | The remaining lock-out, or none |
| Throttle.LoginThrottle.Sweep | server/auth.go:193-199 | Removes exactly the stale entries of a table over 5000 |
| Throttle.LoginThrottle.Failed | server/auth.go:189-211 | Sweeps and counts one failure, locking at the fifth |
| Throttle.SweepUnobservable | server/auth.go:178-217 | After every sequence of calls the answers with and without the sweep agree |
| Throttle.SuccessClears | server/auth.go:213-217 | After a successful sign-in the key is free and its next failure counts as the first |
| Throttle.KeysApart | server/auth.go:178-217 | What happens to one key never changes the answer for another |
| Throttle.LockRunsItsCourse | server/auth.go:178-217 | Nothing but a successful sign-in shortens a lock-out |
| Throttle.AtMostNine | server/auth.go:178-211 | At most nine failures of a key pass in any half-open five minutes in which that key does not sign in, whatever happens outside the span and to other keys |
| Throttle.NineAttained | server/auth.go:178-211 | Nine can pass |
| Sessions.SessionStore.Create | server/auth.go:121-133 | Purges exactly the expired sessions and adds one for twelve hours |
| Sessions.SessionStore.Lookup | server/auth.go:135-144 | The user of an unexpired session; any other id is forgotten |
| Sessions.SessionStore.DropUser | server/auth.go:152-160 | Forgets exactly the user's sessions |
| Sessions.AnsweredIffSignedIn | server/auth.go:121-160 | After every sequence of calls a session answers for a user if and only if it was created for that user in the last twelve hours and neither it nor the user was dropped since; purges cannot be observed |
| Sessions.RemovedIsOut | server/auth.go:152-160 | A removed user is answered for by no session until signing in again |
| Pbkdf2.BigEndian | server/auth.go:39 | The block number as four octets, most significant first, modulo 2^32 |
| Pbkdf2.Block | server/auth.go:35-50 | XOR in place over the rounds gives T_i of RFC 8018, section 5.2 |
| Pbkdf2.DeriveKey | server/auth.go:30-55 | The first keyLen octets of T_1, T_2, ... |
| Pbkdf2.OctetOfBlocks | server/auth.go:30-55 | Each octet of each block stands at its place in the output |
| Pbkdf2.ShorterKeyIsPrefix | server/auth.go:30-55 | A shorter key is a prefix of a longer one |
| Accounts.SavedAccount | server/api_admin.go:697-727 | A saved account has what was asked for, less the groups that do not exist; nothing else changes |
| Accounts.SaveRefusedIff | server/api_admin.go:684-712 | Exactly when a save is refused for the role, the name, a name taken or an account gone |
| Accounts.SaveRefusedForLastAdminIff | server/api_admin.go:713-719 | A change is refused for the last administrator if and only if it would leave none |
| Accounts.DeleteRefusedForLastAdminIff | server/api_admin.go:746-757 | A deletion is refused for the last administrator if and only if it would leave none |
| Accounts.DeletedUser | server/api_admin.go:746-768 | Exactly that account goes; one's own never does |
| Accounts.StoredPassword | server/api_admin.go:728-734 | The hash and the mark go to the account with that id and to no other |
| Accounts.SavedGroup | server/api_admin.go:531-552 | A saved group has its new name and rules and no other group changes |
| Accounts.GroupRefusedIff | server/api_admin.go:522-546 | Exactly when a group is refused, and for which reason |
| Accounts.DeletedGroup | server/api_admin.go:559-586 | A deleted group is gone from the list and from every account, and nothing else is |
| Accounts.SaveUserKeeps | server/api_admin.go:676-744 | Saving keeps a working administrator, unique ids and names, and existing allowed groups, up to the release for hashing |
| Accounts.SetPasswordKeeps | server/api_admin.go:728-734 | So does the second locked section, even if the account is gone by then |
| Accounts.DeleteUserKeeps | server/api_admin.go:746-772 | So does deleting an account |
| Accounts.SaveGroupKeeps | server/api_admin.go:515-557 | So does saving a group |
| Accounts.DeleteGroupKeeps | server/api_admin.go:559-576 | So does deleting a group |
| Accounts.AccountsStayOK | server/api_admin.go:515-772 | So does every sequence of these sections, at every release of the lock |
| Accounts.RestrictionSurvivesDeletionIff | server/api_admin.go:569-571 | A sender stays restricted after a group is deleted if and only if another allowed group is left |
| Accounts.AccountStore.CountAdmins | server/store.go:382-390 | Counts the enabled administrators |
| Accounts.AccountStore.UserByID | server/store.go:355-362 | The first account with the id, or none |
| Accounts.AccountStore.UsernameTaken | server/store.go:346-353 | Whether a name is in use, ignoring case |
| Accounts.AccountStore.ExistingOnly | server/api_admin.go:721-726 | The requested groups that exist, in order |
| Accounts.AccountStore.Save | server/api_admin.go:697-736 | Changes the store as specified, or refuses and changes nothing |
| Accounts.AccountStore.StorePassword | server/api_admin.go:728-734 | Stores the hash if the account is still there |
| Accounts.AccountStore.Delete | server/api_admin.go:746-768 | Filters the accounts in place, or refuses |
| Accounts.AccountStore.SaveGroupNamed | server/api_admin.go:515-552 | Changes or adds the group and sorts, or refuses |
| Accounts.AccountStore.RemoveGroup | server/api_admin.go:559-572 | Filters the groups and every account's list |
| Accounts.AccountStore.WithoutID | server/api_admin.go:578-586 | The list without that id, in order |

## Left out

- HTTP, JSON, cookies, TLS, logging, file writes and templates, API tokens and settings: plumbing without a hard property.
- Crashes between a change and the flush, and two flushes at once: snapshots are written outside the lock and can land out of order (`server/store.go:297-316`), so a flush here is "snapshot and lower the flag", one at a time.
- `verifyPassword`, base64, password and token hashing (`server/auth.go:57-105`) and the request guard (`server/auth.go:229-303`): they would only add easy members.
- The sample of host names, the target summary and the wire form of an alert: only ids, rules and counts are modelled.
- Cleaning of what a client says about itself and the dirty flag of client records (`server/api_client.go:179-214`): a poll that arrives simply replaces the shared record, and whether they are flagged depends only on the number of groups, not on which.
- Forgetting a computer while its poll is open (`server/api_admin.go:476-480`).
- Window layout, fonts, sounds, the countdown bar and closes that Windows itself starts.
- Pauses and back-off between polls (`client/src/Poller.cs:111-133`).
- Pointer identity of delivery records: an alert object holds a map of record values, so updates through an alias of a record are not captured.
- Object identity of accounts and groups: an `AccountStore` holds sequences of values; `validateSpec` returns the rewritten alert instead of writing through a pointer.
- Problem messages: `Validation.Problem` and `Accounts.Refusal` name the case instead of its text.
- Receipts.ExactlyOnce: one process per computer, alerts whose records are not archived, events only about alerts that were sent; batches of at most 200 events, which is exactly when it holds (`LongBatches.ExactlyOnceIff`).
- Archiving.RecallsSurviveArchivingIff: compares one flush that archives with the same flush that does not; nothing more is archived in the continuation, so that the loss is that flush's own. The same holds of Archiving.TotalsAgreeIff; over runs that archive again and again `Compaction.ArchivingUnseen` bounds both.
- LongPoll.ParkedMeansNoNews: for a computer whose attributes did not change while its poll was parked; news is an alert never delivered or a recall never told, since a resend falls due by the clock alone and waits for the next poll.
- Promises.RecallToldAtMostOnce: at most once, not at least once, because the mark is set before the reply leaves.
- Throttle.AtMostNine: each attempt of the key within the span is a check and a failure in one step; a failure that arrives between another caller's check and failure is a `Race` call.
- The request flag that asks for a new password (`server/api_admin.go:728`): the second locked section may follow any save or none.
- Unique generated ids are assumed (`Accounts.FreshIDs`, `Runs.Legal`).
