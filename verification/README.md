# Verified models of the chat host, the webview and the release scripts

This project models the parts of the repository whose correctness is hardest to see by reading, and
proves what they promise for every input and every run.

* **The chat host** (`ChatSpec`, `ChatInvariants`, `ChatTranscript`, `HostHandOff`, `ChatExact`,
  `ChatAnswers`, `ChatLimit`, `ChatStream`, `ChatProtocol`, `ChatDecisions`, `ChatOutcomes`, `ChatSidebar`,
  `PortableChat`). `ChatSpec` gives the actor as a transition system: its fields, its
  suspended async calls with the values they captured, and one step for each reply, timer fire, agent
  event or user message. Theorems quantify over every interleaving. `PortableChat` is the object itself, a class whose
  methods assign its fields and are proved to carry its state to exactly the state of the system.
* **The composer and the hand-off** (`Composer`, `HandOff`): the sidebar from the click on Send to the
  answer, through timeouts, late answers and reloads, and its composition with the host.
* **The webview** (`Reconcile`, `ConversationEntries`, `Tokenizers`, `Numerals`, `Markdown`,
  `MarkdownLines`): the keyed child-list reconciliation and the entries it is given, the three tokenizers,
  the block parser and its line patterns.
* **The SBOM merge** (`StringOrder`, `DependencyGraph`, `SbomMerge`, `SbomMergeCode`, `SbomOutput`): what
  the merge means as a graph transformation, the script's loops proved against it, and what the document
  that comes out says.
* **Codecs and worklists of the scripts** (`Bytes`, `WebSocket`, `Snapshot`, `ArrayScanner`, `AppGraph`).

Where the code does not keep a promise, the code is modelled as it is, inputs are named, and it is proved
when the promise holds:

* Two tasks can run at a time, because an answered cancel or poll, or a failed session change, frees the
  chat while a submit is still running (`ExposedExactly`, `OverlapExactly`). Among them two `chat.send` calls of one generation can be
  unanswered: exactly when a step sends while one is (`TwoSendsInOneGeneration`, `SecondSendExactly`).
  In runs without such an answer there is one task, and one send, at a time (`OneTaskAtATime`).
* A poll's answer can end another job. That takes exactly a job that starts under an outstanding poll for
  another one; in runs without such a step a poll ends only its own job (`FinishedByAnotherJob`,
  `ForeignExactly`, `PollsEndTheirOwnJob`).
* A new task during a connect leaves the chat connecting with no connect behind it. Nothing but a host
  disconnect or a confirmed CLI dialog releases it (`NewTaskOrphansConnect`, `StuckExactly`,
  `ReleasedExactly`, `StaysOrphaned`).
* An approval's final status can be overwritten. That takes exactly an answer to an approval that has a
  second answer outstanding, or the end of the turn before an answer; in runs without such a step every
  status is written once (`ApprovalOverwritten`, `LateExactly`, `ApprovalsAreWrittenOnce`).
* The transcript has no bound: a pending approval is never evicted, and settling it evicts nothing. For any
  number that an agent can count to, a run shows as many approvals, and keeps them settled after a
  disconnect (`AnyNumberStays`). A step adds an item beyond 200 exactly if it is a new approval prompt
  while at least 200 items are shown and all are pending, and a run keeps to 200 exactly if it has no such step
  (`CrowdsExactly`, `LimitKeptExactly`). Beyond the limit there are only approvals (`TranscriptWellKept`).
* What the agent streams is not always shown: 200 pending approvals leave no room for an answer, which is
  evicted at once (`StreamIsShown`, `FinalAlone`, `EventAdds` say exactly when).
* A task can be sent under another mode than its own. That takes exactly a new session that the agent
  reports in another mode (`SentInItsMode`, `SentInAnotherMode`).
* The sidebar does not always show the chat as it is: while a submit or the report of an error is under way
  it may lag behind. In every other reachable state it is current (`SidebarIsCurrent`).
* `dispose` does not silence everything: a CLI dialog that is confirmed afterwards still disconnects and
  reconnects. It is the only call that does (`DisposeMakesStale`, `DisposedStaysSilent`).
* Attaching orphans misses a cluster that is held up by itself alone, when another orphan stands free
  (`AttachCompleteExactly`, `AcceptableCycleIsMissed`).
* The comment above `reconcileConversation` says that nodes are never detached. The code moves attached
  nodes unless the surviving ones lead the list; dropping the oldest entry moves them
  (`UnmovedExactly`, `DroppingTheOldestMoves`).
* The Markdown parser drops some lines, for instance the opening fence of a code block with a title
  (`DroppedExactly`, `TitledFenceIsDropped`). Its branch for a list that stayed empty is never taken.
* The order of registrations can matter. Two that are handled one after the other may be swapped exactly
  when neither changes what the other gives its child (`SwapExactly`); two names for one child under one
  parent, with no third, always resolve differently when they change places (`SwappedNamesDiffer`).

## Model

| member | source | states |
|---|---|---|
| ChatInvariants.NoStuckBusy | extensions/shared-ui/portable-chat.js:113-200 | In every reachable state, busy implies an outstanding submit, session change or poll of the current generation, or an armed timer for a known job |
| ChatInvariants.DisconnectedIsIdle | extensions/shared-ui/portable-chat.js:68-92 | Without a connection there is no session, job or work; at most one connect of the current generation is outstanding |
| ChatInvariants.GenerationsAdvance | extensions/shared-ui/portable-chat.js:257-290 | Over every run the generation never decreases, and a call of a passed generation stays as it is until it resumes |
| ChatInvariants.StaleIsSilent | extensions/shared-ui/portable-chat.js:291-322 | A call of a passed generation changes no field and sends nothing when it resumes, except exactly for a confirmed CLI dialog |
| ChatInvariants.DisposeMakesStale | extensions/shared-ui/portable-chat.js:323-323 | After dispose every outstanding call is stale and the timer does nothing; a call that resumes is silent if and only if it is no confirmed CLI dialog |
| ChatInvariants.DisposedStaysSilent | extensions/shared-ui/portable-chat.js:314-323 | However many outstanding calls resume after dispose, without such a dialog no field changes and nothing is sent |
| ChatTranscript.EvictDropsOldestSettled | extensions/shared-ui/portable-chat.js:60-65 | The eviction loop removes the oldest settled items, exactly as many as needed and available |
| ChatTranscript.EvictSpec | extensions/shared-ui/portable-chat.js:57-67 | Afterwards at most 200 items remain or all are pending; survivors keep their order; no pending approval is evicted |
| ChatTranscript.TranscriptWellKept | extensions/shared-ui/portable-chat.js:201-232 | In every reachable state item ids and approval ids are distinct, texts fit the limit, and beyond 200 items there are only approvals |
| ChatLimit.CrowdsExactly | extensions/shared-ui/portable-chat.js:57-67 | A step shows more items than before and than 200 if and only if it is a new approval prompt, not shown yet, while at least 200 items are shown, all pending |
| ChatLimit.LimitKeptExactly | extensions/shared-ui/portable-chat.js:57-67 | A run never shows more than 200 items if and only if it has no such step |
| ChatLimit.AnyNumberStays | extensions/shared-ui/portable-chat.js:217-221 | For every number from 200 to the largest sequence number a run shows as many pending approvals, and as many settled ones after a disconnect |
| ChatTranscript.OnlyRecordsMatter | extensions/shared-ui/portable-chat.js:201-207 | Any event stream has the effect of its strict running maxima by sequence number |
| ChatTranscript.ReplayIsSilent | extensions/shared-ui/portable-chat.js:201-207 | Redelivering already delivered events changes nothing |
| ChatStream.StreamIsShown | extensions/shared-ui/portable-chat.js:208-216 | After any deltas of the running job the transcript ends in one open answer that shows their texts one behind the other, cut with the notice beyond 100000 characters; the other items are as they were. Only 200 pending approvals leave no room for it |
| ChatStream.FinalIsShown | extensions/shared-ui/portable-chat.js:208-216 | A final message after deltas leaves its own text, or what was streamed if it has none, and completes the answer |
| ChatStream.FinalAlone | extensions/shared-ui/portable-chat.js:208-216 | A final message that was not streamed is a new answer, unless the transcript ends with the same one |
| ChatStream.EventAdds | extensions/shared-ui/portable-chat.js:217-230 | Which item a prompt, an error or a tool adds at the end, and when none |
| ChatProtocol.StepAsks | extensions/shared-ui/portable-chat.js:68-322 | Every step sends exactly the call that a table of the protocol prescribes for it, in its session and with its mode, or none |
| ChatProtocol.RunFollowsProtocol | extensions/shared-ui/portable-chat.js:68-322 | The calls of a run are those of the table, in order |
| ChatDecisions.AnswersAreSent | extensions/shared-ui/portable-chat.js:233-246 | In every reachable state each outstanding answer was sent in its generation with the decision and the id of its approval, and each decision shown was sent |
| ChatDecisions.AnswersComeFromTheUser | extensions/shared-ui/portable-chat.js:233-241 | Every answer that a run sends tells, for the session of that time, what a message of the user decided about an approval that was pending then |
| ChatDecisions.DecisionWasMade | extensions/shared-ui/portable-chat.js:242-245 | A decision that is shown is one that the user made about this approval |
| ChatDecisions.SentWasTyped | extensions/shared-ui/portable-chat.js:113-148 | Every task that a run sends was brought by a message with this id and instruction, and is acceptable: not empty, no slash command, chat only, a known mode |
| ChatDecisions.ModesAreAsked | extensions/shared-ui/portable-chat.js:129-144 | A session is created in the mode of a task; a mode is changed to that of a task or as the user asked |
| ChatDecisions.SentInItsMode | extensions/shared-ui/portable-chat.js:128-148 | A task is sent under its own mode as far as the agent has reported it, except exactly after a session that came in another mode |
| ChatDecisions.SentInAnotherMode | extensions/shared-ui/portable-chat.js:129-134 | A run that sends a task for review in a session of another mode |
| ChatOutcomes.ConnectsExactly | extensions/shared-ui/portable-chat.js:76-85 | The chat gets connected if and only if a current connect is answered by an agent with the protocol version and the required methods |
| ChatOutcomes.ConnectedIsCapable | extensions/shared-ui/portable-chat.js:76-85 | In every reachable state a connected chat has an agent with the required methods |
| ChatOutcomes.FailedConnectSaysWhy | extensions/shared-ui/portable-chat.js:82-92 | Any other answer releases the connect with the reason |
| ChatOutcomes.TurnEnds | extensions/shared-ui/portable-chat.js:190-200 | The end of a turn completes the open answers, expires the pending approvals, frees the chat and keeps its session unless it was closed |
| ChatOutcomes.DisconnectEnds | extensions/shared-ui/portable-chat.js:279-290 | A lost connection does so too, and says why |
| ChatOutcomes.AnswerIsShown | extensions/shared-ui/portable-chat.js:242-246 | A reply shows the decision at its approval, or that it has expired, and changes nothing else |
| ChatOutcomes.FailedSendTakesBack | extensions/shared-ui/portable-chat.js:147-168 | A failed `chat.send` takes its own message back, reports why and frees the chat |
| ChatOutcomes.NewTaskClears | extensions/shared-ui/portable-chat.js:268-277 | A new task begins with an empty transcript and no session |
| ChatOutcomes.ModeIsSet | extensions/shared-ui/portable-chat.js:299-309 | Without a session the mode of the user holds at once; with one, the mode that the agent reports |
| ChatSidebar.SidebarIsCurrent | extensions/shared-ui/portable-chat.js:30-56 | In every reachable state the last published state shows the chat as it is, unless a submit or the report of an error is under way |
| HostHandOff.HostHandsOffOnce | extensions/shared-ui/portable-chat.js:93-112 | While an id's entry survives, all submits with it cause at most one send and get one and the same answer; a positive one implies the send |
| HostHandOff.SurvivesExactly | extensions/shared-ui/portable-chat.js:97-112 | An id's entry survives a run if and only if fewer than 128 ids get their entries after it and no disconnect or new session follows it |
| HostHandOff.AcceptedIsAlwaysReal | extensions/shared-ui/portable-chat.js:149-170 | The published accepted id names a request sent and answered with a started job in this generation |
| ChatExact.ExposedExactly | extensions/shared-ui/portable-chat.js:247-256 | Exactly which steps free the chat while a submit of its generation is still running |
| ChatExact.OverlapExactly | extensions/shared-ui/portable-chat.js:113-150 | Two submits of one generation overlap if and only if a task starts on such a chat |
| ChatExact.OneTaskAtATime | extensions/shared-ui/portable-chat.js:113-170 | One task and one send at a time in every run that the exact condition admits |
| ChatExact.SecondSendExactly | extensions/shared-ui/portable-chat.js:128-150 | Two `chat.send` calls of one generation become unanswered if and only if a step sends while one is |
| ChatExact.TwoSendsInOneGeneration | extensions/shared-ui/portable-chat.js:247-256 | A run with two unanswered sends in one generation |
| ChatExact.StuckExactly | extensions/shared-ui/portable-chat.js:257-278 | Exactly which step leaves the chat connecting, and unconnected, without a connect to release it |
| ChatExact.NewTaskOrphansConnect | extensions/shared-ui/portable-chat.js:257-278 | A reachable state that is connecting with no connect outstanding |
| ChatExact.ReleasedExactly | extensions/shared-ui/portable-chat.js:279-290 | Without a connection, an orphaned connecting flag is released exactly by a host disconnect or a confirmed CLI dialog |
| ChatExact.StaysOrphaned | extensions/shared-ui/portable-chat.js:68-92 | Over every run without such an input the flag stays orphaned |
| ChatExact.FinishedByAnotherJob | extensions/shared-ui/portable-chat.js:177-180 | A run in which the answer for a cancelled job ends the running one |
| ChatExact.ApprovalOverwritten | extensions/shared-ui/portable-chat.js:244-244 | A run in which an allowed approval turns into a denied one |
| ChatAnswers.LateExactly | extensions/shared-ui/portable-chat.js:190-246 | A step makes an outstanding answer late if and only if it answers an approval that has a second answer outstanding, or ends the turn while an answer is outstanding |
| ChatAnswers.LateAnswerRewrites | extensions/shared-ui/portable-chat.js:242-245 | Every late answer whose approval is still shown changes its final status, for some reply |
| ChatAnswers.ApprovalsAreWrittenOnce | extensions/shared-ui/portable-chat.js:233-246 | In every run without those steps a settled approval keeps its status for as long as it is shown |
| ChatAnswers.ForeignExactly | extensions/shared-ui/portable-chat.js:149-189 | A poll comes to ask about another job than the current one if and only if a job starts under an outstanding poll for another one |
| ChatAnswers.PollsEndTheirOwnJob | extensions/shared-ui/portable-chat.js:171-189 | In every run without such a step a poll ends the current job if and only if it asked about it and the answer is terminal |
| PortableChat.PortableChat.Add | extensions/shared-ui/portable-chat.js:57-67 | Appends the item and evicts in place, to exactly the specified chat |
| PortableChat.PortableChat.Connect | extensions/shared-ui/portable-chat.js:68-75 | The stretch up to the first await carries the state to the specified one |
| PortableChat.PortableChat.ConnectReplied | extensions/shared-ui/portable-chat.js:76-92 | The health check, its failure and the release of the connecting flag |
| PortableChat.PortableChat.Submit | extensions/shared-ui/portable-chat.js:93-112 | The idempotency map in insertion order, bounded at 128 |
| PortableChat.PortableChat.SubmitOnce | extensions/shared-ui/portable-chat.js:113-150 | The checks in their order, then session, mode or send |
| PortableChat.PortableChat.SubmitReplied | extensions/shared-ui/portable-chat.js:128-170 | Every continuation of the submit, stale ones included |
| PortableChat.PortableChat.Finish | extensions/shared-ui/portable-chat.js:190-200 | The loop settles streams and expires approvals, to exactly the specified chat |
| PortableChat.PortableChat.OnEvent | extensions/shared-ui/portable-chat.js:201-232 | Filtering, deduplication and application of one agent event |
| PortableChat.PortableChat.Approve | extensions/shared-ui/portable-chat.js:233-241 | The answer is sent for the first pending approval with the id, or not at all |
| PortableChat.PortableChat.CancelReplied | extensions/shared-ui/portable-chat.js:250-256 | Closed, terminal and other answers to a cancel |
| PortableChat.PortableChat.NewSession | extensions/shared-ui/portable-chat.js:257-278 | The busy check, the cancel of the old session and the clearing |
| PortableChat.PortableChat.Disconnected | extensions/shared-ui/portable-chat.js:279-290 | A new generation with nothing running and no entries |
| PortableChat.PortableChat.Handle | extensions/shared-ui/portable-chat.js:291-322 | Every user message is one step of the transition system |
| PortableChat.PortableChat.Resume | extensions/shared-ui/portable-chat.js:291-322 | Every resumption is one step of the transition system |
| Composer.OneIdOneTask | extensions/shared-ui/startView.js:962-1001 | With fresh ids, posts with one request id carry one instruction, mode and workflow, through timeouts, edits and reloads |
| Composer.AcceptedIsNeverResent | extensions/shared-ui/startView.js:4862-4888 | Once an acceptance is seen, its id is never posted again |
| Composer.RestoredRoundTrip | extensions/shared-ui/startView.js:4841-4861 | Restoring a task before a draft and removing it again gives the draft back |
| Composer.LateAckRestoresDraft | extensions/shared-ui/startView.js:4841-4888 | A late acceptance after a timeout leaves what was typed meanwhile |
| Composer.RetryReusesId | extensions/shared-ui/startView.js:975-980 | An unchanged retry, even after a reload, goes out under its old id |
| Composer.UnansweredComesBack | extensions/shared-ui/startView.js:741-750 | A task that is refused or times out stands in front of what was typed since, nothing is pending, and sent again unchanged it goes out under its old id |
| Composer.AnswerSettles | extensions/shared-ui/startView.js:741-750 | An acceptance leaves the draft alone, and an answer to another task changes nothing |
| Composer.SendPostsDraft | extensions/shared-ui/startView.js:962-1001 | A click posts the trimmed draft exactly if it may, once, under the retained id exactly if the task is the same |
| Composer.ComposerView.Submit | extensions/shared-ui/startView.js:962-1001 | The assignments of the click on Send are one step of the composer |
| Composer.ComposerView.RestorePending | extensions/shared-ui/startView.js:4841-4861 | The restore is the specified one |
| Composer.ComposerView.AcknowledgeAccepted | extensions/shared-ui/startView.js:4862-4888 | The acknowledgement is the specified one |
| HandOff.AtMostOnce | extensions/shared-ui/portable-chat.js:93-112 | End to end, a posted task is sent to the agent at most once, as typed, and every answer for it is the same |
| Reconcile.ConversationView.Reconcile | extensions/shared-ui/startView.js:1289-1339 | The children become exactly the entries' nodes in order, kept records keep their node, and nothing attached is moved exactly when the survivors lead |
| Reconcile.ConversationView.Refresh | extensions/shared-ui/startView.js:1296-1323 | One entry's record is created, kept, updated in place or replaced in place |
| Reconcile.ConversationView.RemoveStale | extensions/shared-ui/startView.js:1330-1338 | Exactly the records and nodes without an entry go |
| Reconcile.PlacedNext | extensions/shared-ui/startView.js:1324-1328 | Inserting after the cursor puts the node behind the placed ones and disturbs nothing else |
| Reconcile.UnmovedExactly | extensions/shared-ui/startView.js:1284-1288 | No attached node is moved if and only if the surviving ids are a prefix of the old ones |
| Reconcile.AppendingMovesNothing | extensions/shared-ui/startView.js:1284-1288 | Appending entries and dropping entries at the end move nothing |
| Reconcile.DroppingTheOldestMoves | extensions/shared-ui/startView.js:1284-1288 | Dropping the oldest of several entries always moves attached nodes |
| ConversationEntries.Group | extensions/shared-ui/startView.js:1783-1823 | Nothing to be seen is lost, repeated or reordered, and runs of tools are maximal groups |
| ConversationEntries.Build | extensions/shared-ui/startView.js:1783-1845 | The groups, with at most one indicator of running work at the end, titled by whether a cancellation is requested |
| ConversationEntries.EntriesAreKeyed | extensions/shared-ui/startView.js:1783-1845 | Distinct plain item ids give distinct entry ids, which the reconciliation needs |
| ConversationEntries.ToolsAreSettled | extensions/shared-ui/startView.js:1806-1813 | A tool that a finished job left at work is shown as stopped or ended, every other item as it is |
| Tokenizers.ClosingQuote | extensions/shared-ui/startView.js:4374-4391 | A string literal ends after its unescaped quote, before the line end that cuts it, or with the code |
| Tokenizers.TokenizeCode | extensions/shared-ui/startView.js:4299-4372 | Lossless, no empty token, every token is of the right kind and extent at its place, and no token begins within plain text |
| Tokenizers.TokenizeCss | extensions/shared-ui/startView.js:4438-4484 | Likewise for style sheets |
| Tokenizers.TokenizeMarkup | extensions/shared-ui/startView.js:4398-4436 | Lossless, no empty token, and every token is, at its place, a comment, a tag's head, a quoted value or all that lies between two in a tag, or the text up to the next bracket |
| Tokenizers.Highlight | extensions/shared-ui/startView.js:4276-4296 | Whatever the language, the text on the page is the code, and its tokens are placed as those of markup, style sheets or program code by its key; long or unlabelled code is one plain token |
| Numerals.NumeralIsRead | extensions/shared-ui/startView.js:4341-4348 | A numeral that does not go on is taken whole, whatever stands around it |
| MarkdownLines.HeadingExactly | extensions/shared-ui/startView.js:3904-3910 | Which lines are headings, of which level and with which text |
| MarkdownLines.ClosingMarksGo | extensions/shared-ui/startView.js:3908-3908 | The text of a heading loses its closing marks and nothing else |
| MarkdownLines.ItemExactly | extensions/shared-ui/startView.js:3953-3956 | Which lines are items of a list, and with which text |
| MarkdownLines.FenceExactly | extensions/shared-ui/startView.js:3886-3890 | Which lines open a fenced block, with which marker and language |
| MarkdownLines.QuotedExactly | extensions/shared-ui/startView.js:3913-3917 | Which lines are quoted, and what is left of them |
| MarkdownLines.RuleExactly | extensions/shared-ui/startView.js:3899-3899 | Which lines are rules |
| MarkdownLines.WidthCounts | extensions/shared-ui/startView.js:3957-3959 | The indent counts every tab for four |
| Markdown.RenderMarkdownBlocks | extensions/shared-ui/startView.js:3878-3951 | Ends on every input; the pieces tile the lines, and each is what its lines have to become |
| Markdown.AppendList | extensions/shared-ui/startView.js:3961-4000 | Consumes at least its first line, loses no item, nests by indent, is ordered as its first item is numbered, and goes on as long as it may; the empty-list branch is dead |
| Markdown.QuoteIsSmaller | extensions/shared-ui/startView.js:3913-3922 | The inside of a quote has fewer characters, so nesting ends |
| Markdown.TableHasDivider | extensions/shared-ui/startView.js:4002-4023 | A table never looks past the lines |
| Markdown.DroppedExactly | extensions/shared-ui/startView.js:3931-3950 | Exactly which lines leave no trace on the page |
| Markdown.TitledFenceIsDropped | extensions/shared-ui/startView.js:3886-3898 | An opening fence with a title is such a line |
| SbomMerge.AliasIsFinal | scripts/release/build_vscode_vsix_sbom.py:351-354 | Every source reference has a final one, so the dangling check cannot fire |
| SbomMerge.OneRepresentativeEach | scripts/release/build_vscode_vsix_sbom.py:301-327 | Retained package identities are distinct, and each component equals its representative up to the reference |
| SbomMerge.ImageIsWithin | scripts/release/build_vscode_vsix_sbom.py:329-354 | Every image of a source edge joins final references |
| SbomMerge.MergePreservesReachability | scripts/release/build_vscode_vsix_sbom.py:334-350 | Reachability in the merged graph is exactly that of the source up to references of one package |
| SbomMerge.MergeIsOrderIndependent | scripts/release/build_vscode_vsix_sbom.py:273-363 | Documents with the same content merge alike: both fail, or both give the same lists |
| SbomMerge.ReorderingKeepsContent | scripts/release/build_vscode_vsix_sbom.py:288-350 | Permuting or repeating components, records or their lists keeps the content |
| DependencyGraph.AttachCompleteExactly | scripts/release/build_vscode_vsix_sbom.py:366-387 | Attaching reaches every component if and only if no orphan is free or no cluster of orphans is held up by itself |
| DependencyGraph.AcyclicIsComplete | scripts/release/build_vscode_vsix_sbom.py:366-387 | If the orphans are acyclic, every component is reached |
| DependencyGraph.PureCycleIsMissed | scripts/release/build_vscode_vsix_sbom.py:386-387 | A pure cycle beside a free orphan is missed |
| StringOrder.SortedUnique | scripts/release/build_vscode_vsix_sbom.py:361-363 | A strictly sorted list is determined by its elements |
| SbomMerge.AcceptableCycleIsMissed | scripts/release/build_vscode_vsix_sbom.py:366-387 | An acceptable document whose merge leaves two components unreachable |
| SbomMergeCode.Reachable | scripts/release/build_vscode_vsix_sbom.py:372-379 | The worklist computes exactly what the CLI reaches |
| SbomMergeCode.AttachUnreachableComponents | scripts/release/build_vscode_vsix_sbom.py:366-387 | Only the CLI's edge set grows, by exactly the orphan roots, or all orphans if there are none |
| SbomMergeCode.CollectComponents | scripts/release/build_vscode_vsix_sbom.py:288-299 | The index by reference, or an error exactly for malformed or conflicting components |
| SbomMergeCode.ResolveAliases | scripts/release/build_vscode_vsix_sbom.py:301-327 | Aliases and retained components as specified, or an error exactly for clashing identities |
| SbomMergeCode.BuildGraph | scripts/release/build_vscode_vsix_sbom.py:328-350 | The graph holds exactly the images of the source edges, or an error exactly for bad records |
| SbomMergeCode.Merge | scripts/release/build_vscode_vsix_sbom.py:273-363 | Succeeds on exactly the acceptable sources and gives the specified document |
| SbomMergeCode.MergedIsReached | scripts/release/build_vscode_vsix_sbom.py:359-363 | When every component of the merged document is reachable from the CLI |
| SbomOutput.ExtensionDependsOnCli | scripts/release/build_vscode_vsix_sbom.py:359-363 | By the lists of the merged document alone: the record of the extension is exactly the CLI, no record lists the extension, and it reaches exactly the components that the CLI reaches |
| SbomOutput.EverythingIsReached | scripts/release/build_vscode_vsix_sbom.py:359-387 | Every component that the document lists is reached from the extension if and only if no orphan is free or no cluster is held up by itself; with acyclic orphans always |
| StringOrder.LessAtFirstDifference | scripts/release/build_vscode_vsix_sbom.py:361-363 | One string comes before another if and only if the first difference says so |
| WebSocket.FrameRoundTrip | scripts/qa/run_vscode_remote_acceptance.py:212-243 | A frame's bytes read back as that frame, whatever follows |
| WebSocket.FrameBytes | scripts/qa/run_vscode_remote_acceptance.py:224-236 | Reading succeeds on nothing but the bytes of a frame |
| WebSocket.PingsAreSkipped | scripts/qa/run_vscode_remote_acceptance.py:239-240 | Pings are skipped, whatever they carry |
| WebSocket.StreamIsReceived | scripts/qa/run_vscode_remote_acceptance.py:224-243 | Messages with pings in between are received in order, and exactly their bytes are consumed |
| WebSocket.ReceivedWasSent | scripts/qa/run_vscode_remote_acceptance.py:224-243 | What is received is what some message sent |
| WebSocket.SentIsWholeAndMinimal | scripts/qa/run_vscode_remote_acceptance.py:212-222 | What is sent is a whole text frame in the shortest length form |
| WebSocket.SentBytes | scripts/qa/run_vscode_remote_acceptance.py:212-222 | The bytes that are sent, one by one: type, mask bit, length with the highest byte first, mask, and the payload, each bit of which is added modulo 2 to that of the mask byte whose turn it is |
| Bytes.XorAdds | scripts/qa/run_vscode_remote_acceptance.py:221-221 | Every bit of an exclusive or is the sum modulo 2 of the two bits |
| Bytes.BigEndianByte | scripts/qa/run_vscode_remote_acceptance.py:216-220 | Which byte of a number stands at which place |
| WebSocket.Connection.ReceiveExact | scripts/qa/run_vscode_remote_acceptance.py:150-159 | Exactly the bytes asked for, however they come in, or none |
| WebSocket.Connection.ReceiveTextMessage | scripts/qa/run_vscode_remote_acceptance.py:224-243 | The loop gives the specified message, close, error or disconnection |
| WebSocket.Connection.SendText | scripts/qa/run_vscode_remote_acceptance.py:212-222 | The header forms and the mask give the specified frame |
| Snapshot.EncodedBytes | scripts/qa/vscode_extension_dogfood.py:475-478 | The bytes of one input: four bytes of length and the path, eight bytes of length and the content |
| Snapshot.DecodeEncode | scripts/qa/vscode_extension_dogfood.py:472-478 | The stream fed to the digest is uniquely decodable |
| Snapshot.EncodeIsInjective | scripts/qa/vscode_extension_dogfood.py:466-480 | Two lists give the same stream if and only if they have the same paths and contents |
| Snapshot.TakeSnapshot | scripts/qa/vscode_extension_dogfood.py:466-480 | The loop feeds that stream and finds the latest change, or fails exactly on no inputs or an overflow |
| ArrayScanner.ScannerFindsArrays | scripts/qa/check_ide_cli_parity.py:808-831 | The scanner stops at an end if and only if the text up to it is a bracketed array |
| ArrayScanner.ArrayIsFound | scripts/qa/check_ide_cli_parity.py:808-831 | The scanner inverts the printer of nested arrays and escaped strings, whatever follows |
| ArrayScanner.FoundIsClosed | scripts/qa/check_ide_cli_parity.py:811-830 | What the scanner consumes parses as the closing of every open bracket |
| ArrayScanner.SlashRegistryArrayText | scripts/qa/check_ide_cli_parity.py:798-831 | The array after the marker, or an error exactly when there is none |
| AppGraph.RegistrationGraph | scripts/qa/check_ide_cli_parity.py:320-358 | Ends, is the specified rounds, and succeeds if and only if every parent is reached from the root and every child has a module |
| AppGraph.Pass | scripts/qa/check_ide_cli_parity.py:334-353 | One round handles in order what has a known parent and puts off the rest; without progress no parent is known |
| AppGraph.ResolutionIsUnique | scripts/qa/check_ide_cli_parity.py:320-358 | Success does not depend on the order of registrations, and if all ways to an app spell one prefix, as without shared children, neither does the result |
| AppGraph.SwapExactly | scripts/qa/check_ide_cli_parity.py:334-351 | Two registrations handled in either order give the same resolution if and only if neither changes what the other gives its child |
| AppGraph.SwapInPass | scripts/qa/check_ide_cli_parity.py:334-351 | Then a pass may swap them in its list |
| AppGraph.SwappedNamesDiffer | scripts/qa/check_ide_cli_parity.py:339-340 | Two names for one child under one parent, with no third: exchanging them always gives the child another prefix |

## Left out

- Settings, DOM details, focus restoration, open disclosures, styling, inline Markdown and cell splitting: they do not touch the state modelled here.
- `retryDeadlines` of the reconciliation: bookkeeping for countdown labels.
- The optimistic pending entries that `renderConversation` appends: two entries with their own id prefix.
- Real timers, sockets, TLS, the WebSocket handshake, subprocesses and files: replies, timer fires and received chunks are arbitrary inputs.
- Digests and signatures: only the bytes fed to a digest matter.
- JavaScript values of unexpected types in RPC replies: a reply is a record of strings in which a missing or falsy field is empty.
- Preview, command, files and expiry of an approval: they are carried unchanged; item objects are identified by their unique number.
- Synchronous re-entrance of `emit` and `publish`: the sidebar is assumed to receive messages asynchronously.
- The fixed parts of the published state: only what depends on the conversation is modelled.
- `dispose` as a step of a run: it ends the object's life, so the invariants speak of the runs before it.
- The format checks on single SBOM fields: a component or record that fails them is one malformed value, and a component's other fields are one canonical text.
- UTF-8 encoding and decoding of payloads and paths: bytes go in and come out.
- The regular expressions: written out as functions on strings, with `\s` and `\w` as JavaScript defines them.
- Walking the syntax tree for `add_typer` calls and listing the release inputs: the lists they give are inputs here.
- The page, release evidence, mock server and policy tables of the scripts: long checks with one branch each.
- Reconcile.ConversationView.Reconcile: requires distinct entry ids, which `EntriesAreKeyed` shows of its caller.
