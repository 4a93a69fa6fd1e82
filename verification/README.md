# A model of the note-taking backend

The repository is a note-taking service with an LLM chat on top. This project models the parts of it whose
correctness spans several functions, and proves what those parts keep:

- **The embedding index** (`TextSplitter`, `EmbeddingIndex`, `IndexSystem`, `SemanticSearch`). Requests write a note or
  a notebook first and publish an embed message afterwards; one consumer reads, renders, splits, embeds and replaces the
  chunks of a note. `EmbeddingIndex` is a state machine in which every database statement that others can observe is a
  step of its own, so requests and consumer interleave freely. `IndexSystem.Backend` is the code of the services between
  those points: each of its methods is proved to be one step of the machine, or a whole undisturbed request.
- **The notebook forest** (`NotebookForest`): acyclicity, breadcrumbs, and what deletions do to them.
- **Quota and entitlement** (`Entitlements`, `ChatQuota`): the subscription scans, the two evaluators of a limit, the
  daily counter over whole runs, and the transaction of a chat.
- **The Lexical renderer** (`Lexical`, `LexicalPrint`, `LexicalNesting`, `LexicalText`,
  `LexicalTable`): mutually recursive methods that
  write to one builder, specified by documents, whose exact text, nesting, kept text and table shape are then proved.
- **Conversation state** (`PromptRouter`, `Grounder`): the prompt parser, the sticky mode, the grounder's session.
- **Money and transactions** (`UnitOfWork`, `Billing`, `Refunds`, `UserPurge`).
- **Notifications** (`Templates`, `Notifications`): the template engine and what a redelivered event can repeat.

Code that updates fields or builds up results in loops is modelled by classes and methods, each proved against a
specification function or predicate; the theorems are lemmas about those.

## What the proofs show about the code

Most properties hold as one would hope. Where one does not, the code is modelled as it is, and the exact condition is
proved, mostly with a concrete run or input that fails it; only for the last point below there is just the example:

- `MoveNotebook` saves the whole copy it read and publishes nothing. A rename that falls between its read and its save
  is undone without any message, and the index then stays stale (`EmbeddingIndex.StaleMoveLeavesIndexStale`;
  `SaveParentKeepsInvIff` is the exact condition).
- Renames and moves save the parent that they read, too. With requests interleaved even a rename can close a cycle
  (`NotebookForest.RenameCanCloseCycle`; `StepKeepsForestIff` is the exact condition).
- A consumer that is overtaken by the deletion of its note leaves live chunks behind
  (`EmbeddingIndex.DeletedNoteCanKeepChunks`; `StepKeepsNoDeadChunksIff` is the exact condition).
- A rename republishes only the notes of the notebook's owner. Nothing stops a note from being placed in another user's
  notebook, and such a note keeps the old name in the index (`EmbeddingIndex.ForeignNoteLeavesIndexStale`;
  `SaveNameKeepsAllIff` is the exact condition).
- `MoveNotebook` does not check for descendants. It keeps the forest exactly when the new parent is not the notebook or
  below it; otherwise `buildBreadcrumb` never returns (`NotebookForest.MoveKeepsAcyclicIff`,
  `MoveIntoSubtreeNeverEnds`).
- The comments of the subscription scans rank "active" before "canceled"; the scans just take the newest usable row
  (`Entitlements.ActivePickedIff`, with `NewerCanceledHidesActive` as an example).
- The usage status resets only the chat counter, so for semantic search it can report a spent limit that the verifier
  would reset: exactly on a later day with a spent positive limit (`Entitlements.SearchStatusWrongIff`).
- A status request saves a reset of the counter that it read earlier. A chat charged in between is lost, and the day
  has room for one more (`ChatQuota.StaleStatusBreaksQuota`; `EndStatusKeepsInvIff` is the exact condition).
- `executePipeline` parses the text as typed for the history, but the router gets it without inline references, also if
  none can be resolved; and it recognises a session mode "NUANCE" that is never stored. So history can be loaded under
  another mode than the router's (`PromptRouter.CommandBehindReference`; `HistoryModeDisagreesIff` is the exact
  condition).
- A text node used directly as a table cell, or below another text, loses its text
  (`LexicalText.NothingIsLostIff`, `TextAsCellIsLost`).
- `Upgrade` records a payment as "paid" while `RequestRefund` accepts only "success", so the subscription that an upgrade
  creates is never refundable on request (`Refunds.UpgradedIsNotRefundable`).
- `Approve` and `Reject` publish before they commit; exactly a failing commit leaves a published decision on a refund
  that is still pending (`Refunds.Approve`, `Refunds.Reject`).
- The purge names no raw message table; raw copies of the purged users' messages stay behind
  (`UserPurge.RawMessagesAreOrphaned`).
- The subscriber names events by their subject, "events." and the code, so the social-proof branch for new subscribers
  is unreachable through it (`Notifications.SubjectIsNeverSocial`). Called with the bare code it broadcasts before it
  can fail, so a redelivery would repeat the broadcast (`FailureHasEffectsIff`).
- With a brace in a payload value a message can depend on Go's map order: here one example shows that the hypothesis of
  `Templates.OrderIsIrrelevant` cannot be dropped (`OrderMattersForBraces`).

## Assumptions

- Identifiers that the code generates are new. A transaction is one step for others; a step that fails has no effect.
- Saving an entity writes all its columns, also if its row was deleted since it was read; it is then live again.
- A chat's verification and its charge each read and save the counter in one step; status requests do not.
- In the index machine publishing and the reads of a request do not fail, and one consumer takes one message at a time;
  messages may be redelivered and arrive in any order.
- Text is a sequence of runes; `len` on it counts UTF-8 bytes. Lower-casing changes ASCII letters only.
- Prices and scores are real numbers. The calendar and the clock are parameters.
- The event stream redelivers a message until it is acknowledged, and an acknowledgement is not lost.
- What a language model, an embedding provider, a similarity score, a lookup or a fault answers is arbitrary.

## Model

| member | source | states |
|---|---|---|
| TextSplitter.SplitText | pkg/utils/text_splitter.go:6-38 | the indexed loop with its early break and byte-length shortcut returns the chunks of the specification `Split`, for any overlap (also negative or too large) |
| TextSplitter.SplitReassembles | pkg/utils/text_splitter.go:6-38 | the first chunk followed by each later chunk without the shared runes is the text: nothing lost, nothing repeated |
| TextSplitter.SplitBounds | pkg/utils/text_splitter.go:6-38 | no chunk exceeds `chunkSize` runes and each later chunk has more than `overlap` |
| TextSplitter.SplitCount | pkg/utils/text_splitter.go:6-38 | one chunk if the runes fit, else one plus the ceiling of the rest over the step |
| TextSplitter.ShortcutAgreesWithLoop | pkg/utils/text_splitter.go:7-9 | the shortcut on the byte length changes the result of the loop exactly for the empty text |
| TextSplitter.SplitOverlaps | pkg/utils/text_splitter.go:22-35 | each chunk begins with the last `overlap` runes of the one before |
| TextSplitter.SplitInjective | pkg/utils/text_splitter.go:6-38 | different texts never have the same chunks |
| EmbeddingIndex.StepKeepsInv | internal/service/consumer_service.go:63-186 | every step of every request and of the consumer, except a notebook move that saves a stale name, keeps: each live note in its owner's notebook agrees with the index, or the consumer's snapshot is current, or a message is queued or owed |
| EmbeddingIndex.RunKeepsInv | internal/service/consumer_service.go:63-186 | the same over any interleaved run |
| EmbeddingIndex.QuiescentIndexAgrees | internal/service/consumer_service.go:63-186 | once the queue is drained and no request runs, the live chunks of every such note are exactly the chunks of its current document, numbered from 0; put together without what neighbours share they spell out title, notebook name or "Unknown", content, and the two times or "-" |
| EmbeddingIndex.AgreeingHoldsText | internal/service/consumer_service.go:100-131 | chunks that agree with a note are numbered from 0, have at most 1500 runes, share 200, and spell out the fields of the note |
| EmbeddingIndex.StepKeepsNoteIff | internal/service/consumer_service.go:63-186 | for each step and each note that the step does not write: a fine note stays fine if and only if the step does not save another notebook name over it, unless the note is going to be reread or, after a rename, republished |
| EmbeddingIndex.StepKeepsAllIff | internal/service/consumer_service.go:63-186 | the same for all live notes together, whoever owns their notebook |
| EmbeddingIndex.QuiescentIndexAgreesForAll | internal/service/consumer_service.go:63-186 | over any run whose steps meet that condition, the same holds in an idle system for every live note |
| EmbeddingIndex.SaveNameKeepsAllIff | internal/service/notebook_service.go:164-190 | the save of a rename keeps all live notes fine if and only if it changes no shown name or every live note of another user in the notebook is going to be reread |
| EmbeddingIndex.SaveParentKeepsInvIff | internal/service/notebook_service.go:270-307 | the save of `MoveNotebook` keeps the invariant if and only if the copy still carries the shown name or every note that shows it is going to be reread |
| EmbeddingIndex.StaleMoveLeavesIndexStale | internal/service/notebook_service.go:270-307 | the condition on moves is not always met: a reachable idle state in which a live note of its notebook's owner does not agree with the index |
| EmbeddingIndex.ForeignNoteLeavesIndexStale | internal/service/notebook_service.go:164-190 | the condition is not always met: a reachable idle state in which a note of another user in a renamed notebook does not agree |
| EmbeddingIndex.StepKeepsNoDeadChunksIff | internal/service/consumer_service.go:155-185 | every step keeps the table free of live chunks of deleted notes, the commit of the consumer if and only if its note is still live or it writes no chunk |
| EmbeddingIndex.RunKeepsNoDeadChunks | internal/service/consumer_service.go:155-185 | the same over any run |
| EmbeddingIndex.DeletedNoteCanKeepChunks | internal/service/consumer_service.go:155-185 | this does happen: a reachable idle state in which a deleted note has live chunks |
| EmbeddingIndex.ConsumeRestoresAgreement | internal/service/consumer_service.go:63-186 | five undisturbed consumer steps bring a note into agreement whatever the index held |
| EmbeddingIndex.ConsumerCanDrain | internal/service/consumer_service.go:48-61 | with no request running the consumer can always reach an idle state in which every note agrees, without changing notes or notebooks |
| IndexSystem.Backend.BeginUpdate | internal/service/note_service.go:170-207 | reading and editing the copy of a visible note; an invisible one changes nothing |
| IndexSystem.Backend.BeginMove | internal/service/note_service.go:239-273 | the same for moving a note |
| IndexSystem.Backend.AddNote | internal/service/note_service.go:57-106 | a whole creation: the row with the given fields and one message |
| IndexSystem.Backend.UpdateNote | internal/service/note_service.go:170-207 | a whole update: the new title, content and time in the row of the owner's note, all else kept, and one message |
| IndexSystem.Backend.MoveNote | internal/service/note_service.go:239-273 | a whole move: the new notebook and time, all else kept, and one message |
| IndexSystem.Backend.DeleteNote | internal/service/note_service.go:209-237 | a note and its chunks are deleted in one transaction, for its owner only |
| IndexSystem.Backend.UpdateNotebook | internal/service/notebook_service.go:149-196 | an undisturbed rename changes one name and queues each of the owner's live notes in the notebook exactly once |
| IndexSystem.Backend.DeleteNotebook | internal/service/notebook_service.go:198-268 | the notebook and its notes are marked deleted, the owner's children become roots, the chunks of the notes are gone, nothing else changes; the loops amount to one transaction and to the deletion of the forest |
| IndexSystem.Backend.MoveNotebook | internal/service/notebook_service.go:270-307 | an undisturbed move changes one parent pointer and nothing else, and only if both notebooks are visible |
| IndexSystem.Backend.EmbedChunks | internal/service/consumer_service.go:131-153 | the loop yields one row for each chunk, numbered from 0, or gives the message back at the first chunk that fails |
| IndexSystem.Backend.CommitRows | internal/service/consumer_service.go:155-185 | old rows deleted and new ones inserted together, or nothing and the message back |
| IndexSystem.Backend.ProcessMessage | internal/service/consumer_service.go:63-186 | an undisturbed message is consumed, and then the live chunks spell out the fields of the note and carry the vectors the provider gave for them; or nothing changed and the message is queued again, as it is after any fault; or its note is gone; one that does not decode is acknowledged without effect; nothing else changes in any case |
| SemanticSearch.Search | internal/service/note_service.go:366-410 | in any state of the index only live notes of the caller come back, each once, in non-increasing order of score, each score the best one of all chunks of the note above the threshold |
| SemanticSearch.BestScores | internal/service/note_service.go:375-386 | the first loop finds every note that is hit, with its best score |
| SemanticSearch.OrderNotes | internal/service/note_service.go:392-410 | the second loop keeps exactly the fetched notes that are hit, each once, best score first |
| SemanticSearch.BestOfAllChunks | internal/repository/implementation/note_embedding_repository_impl.go:136-177 | the limit of the query does not hide a better chunk of a note that is returned |
| SemanticSearch.BetterNotesAreFound | internal/repository/implementation/note_embedding_repository_impl.go:136-177 | a note with a chunk better than some hit is found if and only if it is still visible when the notes are fetched |
| NotebookForest.BuildBreadcrumb | internal/service/note_service.go:142-168 | on an acyclic graph the climb ends, with the chain of parents root first, no notebook twice, and the given notebook last |
| NotebookForest.BreadcrumbUnique | internal/service/note_service.go:142-168 | that chain is determined by the graph |
| NotebookForest.CreateKeepsAcyclic | internal/service/notebook_service.go:103-121 | creating a fresh notebook keeps the graph acyclic |
| NotebookForest.DeleteKeepsAcyclic | internal/service/notebook_service.go:198-268 | so does deleting one |
| NotebookForest.MoveKeepsAcyclicIff | internal/service/notebook_service.go:270-307 | a move keeps the graph acyclic if and only if it is refused or the new parent is neither the notebook nor below it |
| NotebookForest.MoveIntoSubtreeNeverEnds | internal/service/note_service.go:142-168 | otherwise the climb from the notebook passes any length |
| NotebookForest.RunKeepsForest | internal/service/notebook_service.go:103-307 | over any run of whole requests in which no move goes into its own subtree the notebooks stay a forest |
| NotebookForest.StepKeepsForestIff | internal/service/notebook_service.go:103-307 | for interleaved requests that save copies read earlier: each step keeps the graph acyclic if and only if the row that it writes is not above itself by way of its parent |
| NotebookForest.InterleavedRunKeepsForest | internal/service/notebook_service.go:103-307 | over any interleaved run whose steps meet that condition the notebooks stay a forest |
| NotebookForest.RenameCanCloseCycle | internal/service/notebook_service.go:149-171 | a reachable state in which the save of a rename, with the parent it read earlier, closes a cycle |
| NotebookForest.DeleteAndBreadcrumbs | internal/service/notebook_service.go:198-268 | deleting a notebook turns each breadcrumb through it into the part strictly after it and leaves all others unchanged |
| Entitlements.ScansAgree | pkg/rag/access/verifier.go:41-59 | any two scans over the same rows at the same time pick the same subscription, the newest usable one |
| Entitlements.PickedIff | pkg/rag/access/verifier.go:41-59 | a scan picks a row if and only if one that is active, canceled or paid as "success" has not reached its end |
| Entitlements.ActivePickedIff | pkg/rag/access/verifier.go:41-59 | for every list with an active usable row: an active row is picked if and only if no usable row is newer than the first active usable one |
| Entitlements.NewerCanceledHidesActive | pkg/rag/access/verifier.go:41-59 | the two-row example: a canceled row in front of an active one is picked |
| Entitlements.Account.VerifyAccessAndLimits | pkg/rag/access/verifier.go:25-111 | a chat is allowed if and only if an override or the plan enables it and its limit is negative or above what was used today; the counter afterwards, and the denial with limit and usage |
| Entitlements.Account.VerifySemanticSearchAccess | pkg/rag/access/verifier.go:125-202 | the same for semantic search by the plan's own search flag and limit, without override |
| Entitlements.Account.GetUserPlan | internal/service/plan_service.go:246-298 | the plan of the newest usable subscription, or the built-in free plan |
| Entitlements.Account.CheckAndResetDailyUsage | internal/service/plan_service.go:160-182 | only the chat counter is reset, on any change of date |
| Entitlements.Account.GetUserUsageStatus | internal/service/plan_service.go:85-157 | the reported usage, limits and permissions, and the reset it writes |
| Entitlements.ChatVerdictMatchesStatus | internal/service/plan_service.go:121-157 | on the same rows at the same time a chat is allowed if and only if the status says it can be used and the plan or an override enables it |
| Entitlements.SearchStatusIsCautious | internal/service/plan_service.go:121-157 | if the status says that an enabled search can be used, the verification passes |
| Entitlements.SearchStatusWrongIff | internal/service/plan_service.go:121-157 | the exact condition under which the status denies a search that the verification allows |
| ChatQuota.SendChat | internal/service/chatbot_service.go:280-387 | a request goes through only under the limit: question and answer are added to both message tables behind what was there, each citation linked to the answer and each resolved reference to the question, the title from the text the pipeline leaves at the third message, one more unit of usage; denied or failed it changes nothing but the day's counter |
| ChatQuota.QuotaHolds | pkg/rag/access/verifier.go:86-122 | over any run with a forward clock, with status requests that read and save anywhere between the steps, none of them saving a stale reset: the completed chats verified on one date never exceed the limit, and the stored usage counts exactly the completions since the last reset |
| ChatQuota.StepKeepsInv | pkg/rag/access/verifier.go:86-122 | the invariant behind it, for each step |
| ChatQuota.EndStatusKeepsInvIff | internal/service/plan_service.go:160-182 | the save of a status request keeps that invariant if and only if it resets nothing or no chat verified on the date has been completed |
| ChatQuota.UndisturbedStatusIsTimely | internal/service/plan_service.go:160-182 | a status request that nothing overtakes meets the condition and rolls the counter as a verification would |
| ChatQuota.StaleStatusBreaksQuota | internal/service/plan_service.go:160-182 | one that is overtaken need not: two chats on one date under a limit of one |
| ChatQuota.FailedChatIsFree | internal/service/chatbot_service.go:280-387 | a chat that fails after verification leaves the counter of a mere reset |
| ChatQuota.SendChatFollowsRun | internal/service/chatbot_service.go:280-387 | what `SendChat` writes to the counter is what the steps of a run do |
| Lexical.WalkNode | pkg/lexical/parser.go:48-87 | the recursive walk appends to the builder exactly the document of the node, for every node type |
| Lexical.HandleParagraph | pkg/lexical/parser.go:89-107 | a `div` only for an alignment that is neither empty nor "left" |
| Lexical.HandleText | pkg/lexical/parser.go:109-172 | span, code, bold, italic, underline and strike are opened in this order and closed in the opposite one |
| Lexical.HandleLink | pkg/lexical/parser.go:174-181 | the content between brackets, at depth 0, and the address |
| Lexical.HandleList | pkg/lexical/parser.go:183-236 | one marked and indented line for each list item; numbers count list items only, from the start value; nested lists one level deeper |
| Lexical.HandleTable | pkg/lexical/parser.go:238-301 | the buffered rows, padded to the widest one, with separator and final newline; nothing for a table without rows |
| Lexical.Parse | pkg/lexical/parser.go:18-27 | the printed text of the root at depth 0 |
| LexicalPrint.GroupPrints | pkg/lexical/parser.go:48-87 | the root prints each child and a newline, a rule three dashes, other nodes their children |
| LexicalPrint.ParagraphPrints | pkg/lexical/parser.go:89-107 | the exact text of a paragraph, with its alignment |
| LexicalPrint.LeafPrints | pkg/lexical/parser.go:109-172 | the exact text of a text node, by the bits of its mask and its style |
| LexicalPrint.LinkPrints | pkg/lexical/parser.go:174-181 | the exact text of a link |
| LexicalPrint.ListPrints | pkg/lexical/parser.go:183-236 | the exact text of a list: for each list item two blanks a level, then "- [x] " or "- [ ] " as it is checked, or the decimal number that counts list items from the start, or "- ", then its content and a newline; nothing for other children |
| LexicalPrint.TablePrints | pkg/lexical/parser.go:238-301 | the exact text of a table, cell by cell |
| Lexical.CleanPrints | pkg/lexical/parser.go:255-256 | removing newlines write by write is the text replacement that the code does on a cell |
| LexicalNesting.RenderingIsBalanced | pkg/lexical/parser.go:48-301 | for every tree each closing tag matches the tag opened last, nothing outside is closed and nothing stays open, also through the buffers of table cells |
| LexicalText.TextIsKeptInOrder | pkg/lexical/parser.go:48-301 | the leaf texts of the output are, in document order, those of the text nodes that are rendered themselves, with blanks for newlines inside cells; padding drops and repeats no cell |
| LexicalText.NothingIsLostIff | pkg/lexical/parser.go:183-301 | as many leaf texts are written as there are text nodes if and only if each node is rendered itself |
| LexicalText.ConformingTreesLoseNothing | pkg/lexical/parser.go:183-301 | this holds for trees of list items in lists, rows in tables, no text as a cell and nothing below text or rules |
| LexicalText.TextAsCellIsLost | pkg/lexical/parser.go:248-258 | a text that is itself a cell is lost |
| LexicalTable.TableShape | pkg/lexical/parser.go:238-301 | the printed table is the concatenation of one line for each row, a separator after the first and an empty line; each line ends in its only newline, whatever the cells hold, and has one bar more than the widest row has cells, besides the bars inside its own cells |
| PromptRouter.RoundTripIff | pkg/ai/router/parser.go:38-102 | printing a mode, key and prompt and parsing the result gives them back if and only if they are canonical |
| PromptRouter.ParseIsCanonical | pkg/ai/router/parser.go:38-102 | whatever is typed, the parser answers with a canonical triple |
| PromptRouter.PlainIsRAG | pkg/ai/router/parser.go:38-91 | a prompt is in RAG mode if and only if no prefix with its required rest begins it |
| PromptRouter.BypassInAnyCase | pkg/ai/router/parser.go:38-91 | the bypass command is found in any case, and its text is kept as typed |
| PromptRouter.NuanceInAnyCase | pkg/ai/router/parser.go:38-102 | so are both nuance commands, with the key in lower case |
| PromptRouter.SpaceAroundIsIgnored | pkg/ai/router/parser.go:38-91 | space around a command does not matter; a plain prompt keeps it |
| PromptRouter.Execute | pkg/ai/router/router.go:55-152 | which generator answers, from which text, and that the reported mode is the locked one if there is one |
| PromptRouter.ExecutedFollows | pkg/ai/router/router.go:55-152 | for every typed command and plain prompt, without a lock and under each of the three: which generator answers, from which text, with which nuance, when help is shown, and the mode and key reported |
| PromptRouter.ExecuteBypass | pkg/ai/router/router.go:177-208 | the mode and key of a bypass answer, by whether a nuance was found |
| PromptRouter.SessionEntry.ExecutePipeline | internal/service/chatbot_service.go:425-579 | the mode the history is loaded under, the text that reaches the router after inline references are taken out, the stored mode after a turn, and what is reported; a turn with a readable note does not reach the router |
| PromptRouter.ModeIsSticky | internal/service/chatbot_service.go:554-572 | over any conversation the reported modes are RAG turns followed by one other mode for ever |
| PromptRouter.LockedForever | pkg/ai/router/router.go:65-100 | a locked mode is reported at every later turn, whatever is typed |
| PromptRouter.HistoryModeDisagreesIff | internal/service/chatbot_service.go:440-512 | history is loaded under another mode than the router uses if and only if, without a lock, taking references out changes the mode of the text, or, in a nuance session, the text is not typed with its prefix |
| PromptRouter.CommandBehindReference | internal/service/chatbot_service.go:493-512 | a bypass command behind a reference that cannot be resolved: history for RAG, bypass in the router |
| Grounder.EvaluateRelevance | pkg/rag/context/grounder.go:843-915 | the loop over the parts of a response yields its verdict; no model means all candidates |
| Grounder.IndicesInRange | pkg/rag/context/grounder.go:889-912 | every index that is taken from a response names a candidate |
| Grounder.ListingIsUnderstood | pkg/rag/context/grounder.go:843-915 | for every selection, the answer written as the prompt asks is read as that selection |
| Grounder.SearchKeepsChosen | pkg/rag/context/grounder.go:206-262 | after a search the candidates are exactly the results at the chosen numbers, in the order of the answer; a single one is in focus and answered about; none is not found |
| Grounder.SearchKeepsAll | pkg/rag/context/grounder.go:206-315 | with one result, no model, no verdict or as many chosen as found, all results are kept in their order |
| Grounder.AggregateKeepsChosen | pkg/rag/context/grounder.go:395-496 | the same choice for an aggregation without candidates, which answers about the readable ones in their order |
| Grounder.AggregateKeepsCandidates | pkg/rag/context/grounder.go:379-496 | with candidates an aggregation is about all of them |
| Grounder.FocusTakesTarget | pkg/rag/context/grounder.go:318-376 | the candidate at the given place is focused and shown as stored; out of range or unreadable nothing changes |
| Grounder.AnswerShowsFocus | pkg/rag/context/grounder.go:499-572 | an answer shows the note in focus, read again if it has no content, or all candidates as they are |
| Grounder.Store.GroundSearch | pkg/rag/context/grounder.go:107-315 | the session and the result after a search, in each of its branches |
| Grounder.Store.GroundFocus | pkg/rag/context/grounder.go:318-376 | the same for focusing by index |
| Grounder.Store.GroundAggregate | pkg/rag/context/grounder.go:379-496 | the same for aggregating, with or without candidates at hand |
| Grounder.Store.GroundAnswer | pkg/rag/context/grounder.go:499-572 | the same for answering from the focus |
| Grounder.Store.Ground | pkg/rag/context/grounder.go:73-104 | the dispatch over actions |
| Grounder.StepKeepsInv | pkg/rag/context/grounder.go:73-624 | each call keeps: focused if and only if there is a focus, and then there are candidates and the focus is all of them or one; and each result is coherent: an answer if and only if there is context, identifiers in the order of the notes, a positive focus index at the focused candidate |
| Grounder.AnswerFindsItsPlace | pkg/rag/context/grounder.go:530-572 | an answer about one note always knows its place among the candidates |
| Grounder.ConversationIsSound | pkg/rag/context/grounder.go:73-624 | the same at every call of any conversation |
| UnitOfWork.Unit.Begin | internal/repository/unitofwork/unit_of_work_impl.go:31-37 | a second begin fails; a begin that fails leaves the field set |
| UnitOfWork.Unit.Commit | internal/repository/unitofwork/unit_of_work_impl.go:39-46 | the writes become visible, or nothing does, and the field is cleared |
| UnitOfWork.Unit.Rollback | internal/repository/unitofwork/unit_of_work_impl.go:48-55 | nothing becomes visible; after a commit it is an error without effect |
| UnitOfWork.Unit.Exec | internal/repository/unitofwork/unit_of_work_impl.go:24-29 | a write goes to the open transaction, or straight to the database without one |
| UnitOfWork.ReadsOwnWrites | internal/repository/unitofwork/unit_of_work_impl.go:24-55 | a transaction reads its own writes, the database has them only after the commit, and never after a rollback |
| UnitOfWork.AllOrNothing | internal/repository/unitofwork/unit_of_work_impl.go:24-55 | begin, writes until the first failure, commit, deferred rollback: all writes are committed if no call fails, else none, whichever call it is |
| Billing.Upgrade | pkg/admin/subscription/manager.go:44-152 | on success the replaced subscription is canceled and the new one has the given plan, a month or a year, and the billing address of the old; the credit is the price of the rest of the old period, at most the new price, and the rest is due; on any failure nothing changed |
| Billing.ChargeSplitsPrice | pkg/admin/subscription/manager.go:79-106 | credit and amount due are non-negative and sum to the new price |
| Billing.ActiveCountAfterUpgrade | pkg/admin/subscription/manager.go:63-150 | the number of active subscriptions goes from n to max(n, 1), and nobody else's change |
| Billing.ElapsedIsFraction | pkg/admin/subscription/manager.go:79-95 | the elapsed fraction of a period is its time over its length, between 0 and 1 |
| Billing.ChainBalances | pkg/admin/subscription/manager.go:63-129 | over any chain of upgrades with at most one active subscription, the charges and the plan held before are exactly the plan reached, the elapsed part of every replaced plan, and what was forfeited where the rest was worth more than the new plan |
| Billing.ChainPaysForWhatIsUsed | pkg/admin/subscription/manager.go:63-129 | so they pay for the plan reached and the elapsed part of every replaced plan |
| Billing.ChainFromNothing | pkg/admin/subscription/manager.go:63-129 | from no subscription, the charges alone do |
| Refunds.RequestRefund | internal/service/user_service.go:176-266 | granted if and only if the subscription is the user's, active, paid as "success" and without a pending or approved refund; then one pending refund over the plan's price; the refusals come in the order missing, inactive, ineligible, already requested |
| Refunds.Approve | pkg/admin/refund/processor.go:75-140 | refund and subscription change together or not at all, only from pending; a failed approval was published if and only if the refund was pending and the commit failed |
| Refunds.Reject | pkg/admin/refund/processor.go:143-192 | a pending refund is rejected, else nothing changes; a failed rejection was published if and only if the refund was pending and the commit failed |
| Refunds.RefundDirectly | pkg/admin/subscription/manager.go:155-220 | the subscription is paid back and a processed record over the requested amount, or else the plan's price, is added, together or not at all |
| Refunds.RefundsAreSound | pkg/admin/refund/processor.go:75-192 | over any run of requests, decisions, direct refunds and upgrades: at most one pending or approved refund for each subscription, decided refunds never change, approved ones come with a subscription that is paid back |
| Refunds.OpenRefundBlocksRequest | internal/service/user_service.go:199-214 | while a refund is pending or approved every further request is refused |
| Refunds.UpgradedIsNotRefundable | pkg/admin/subscription/manager.go:108-129 | a request for the subscription that an upgrade created is refused as ineligible |
| UserPurge.AdminService.PurgeUsers | internal/service/admin_service.go:245-354 | each requested user is purged from all listed tables or fully intact, the failed list is exactly the requests whose purge failed, in their order, and deleted and failed add up to the requests |
| UserPurge.AdminService.PurgeUser | internal/service/admin_service.go:255-350 | one user's ordered deletes are all or nothing, whichever call fails |
| UserPurge.GrandparentStatement | internal/repository/implementation/chat_message_repository_impl.go:72-79 | the delete of citations that selects through messages and sessions removes exactly the user's |
| UserPurge.PurgeOneMore | internal/service/admin_service.go:245-354 | purging users one after the other is purging them together |
| UserPurge.PurgedIsGone | internal/service/admin_service.go:262-337 | no listed row of a purged user, or below one, is left |
| UserPurge.OthersKeepTheirRows | internal/service/admin_service.go:262-337 | everybody else keeps every row |
| UserPurge.PurgeOrphansNothing | internal/repository/implementation/note_embedding_repository_impl.go:63-67 | no message, citation or embedding is left without its parent |
| UserPurge.SessionsFirstOrphansMessages | internal/repository/implementation/chat_message_repository_impl.go:66-70 | with sessions deleted first exactly the user's messages would be orphaned: the order matters |
| UserPurge.RawMessagesAreOrphaned | internal/service/admin_service.go:262-337 | a raw message is left without its session if and only if the session's owner was purged |
| Templates.BuildMessage | internal/service/notification_service.go:197-206 | the loop of replacements, for whatever order the map is ranged in |
| Templates.SubstituteFills | internal/service/notification_service.go:197-206 | for brace-free entries and braces only in slots, replacing names one after the other in any order is filling all slots at once |
| Templates.OrderIsIrrelevant | internal/service/notification_service.go:202-206 | the message is the same for every map order |
| Templates.OrderMattersForBraces | internal/service/notification_service.go:202-206 | with a brace in a value two orders give two messages |
| Notifications.BuildNotification | internal/service/notification_service.go:197-253 | all fields of a notification, with a link when the payload names an entity |
| Notifications.ResolveRecipients | internal/service/notification_service.go:155-195 | the user of the payload, or everybody with the role, or nobody; an error only from the role lookup |
| Notifications.Service.HandleEvent | internal/service/notification_service.go:56-153 | what is stored, sent and broadcast, in each branch; a row that cannot be stored skips its recipient |
| Notifications.Service.Consume | pkg/nats/subscriber.go:62-90 | acknowledged if and only if the body decodes and the handler succeeds |
| Notifications.Service.Redeliver | pkg/nats/subscriber.go:62-90 | over any number of redeliveries only the acknowledged attempt leaves anything behind |
| Notifications.AtMostOneEach | internal/service/notification_service.go:128-152 | it stores for nobody more notifications than the recipients name them, and exactly those if no row fails |
| Notifications.FailureHasNoEffects | internal/service/notification_service.go:119-126 | through the subscriber a failing handler has stored, sent and broadcast nothing |
| Notifications.FailureHasEffectsIff | internal/service/notification_service.go:73-126 | for any caller it has an effect if and only if the event is the bare code of a new subscriber with a name and a hub is connected |
| Notifications.SubjectIsNeverSocial | pkg/nats/subscriber.go:72-79 | no event of the subscriber reaches the social-proof branch |
| Notifications.SocialProofSays | internal/service/notification_service.go:73-108 | the broadcast is made exactly for the bare code, a name and a connected hub, and names the new subscriber |
| Notifications.EveryoneReadsTheSame | internal/service/notification_service.go:128-152 | all recipients of a slot template read the same, filled message |

## Left out

- HTTP controllers, DTO validation, configuration, command-line tools, mail, OAuth, tokens, logging: foreign calls.
- The websocket hub: only what the handler pushes to it is modelled.
- Cancellation requests: they are processed without a check for a pending state, so no such invariant holds.
- ParseReferences and the reference resolver: the text without references, and whether one is found, are arbitrary.
- Concurrent chats of one user: the counter is read and then saved, so only serialised chats keep the quota.
- Failures between the write and the publish of a request: the message is then lost and the index stays behind.
- TextSplitter.SplitText: a chunk size of zero or less, and text that is not valid UTF-8, are not modelled.
- The literal search branch of SemanticSearch and the rendering of its results: one query without dedup or scores.
- Lexical.Parse: starts from a decoded tree; JSON decoding and the parsing of styles into a span are not modelled.
- LexicalTable.TableShape: counts bars and newlines of the text; it does not escape bars inside cells because the code does not.
- PromptRouter.Execute: the texts of help messages and replies are not modelled, only which generator gets which query.
- Grounder.Store.Ground: the wording of messages, of the aggregated text and of model prompts is a parameter or a tag.
- Entitlements.Account.VerifyAccessAndLimits: errors of the repositories and the reset time in the denial are not modelled.
- ChatQuota.SendChat: explicit references are resolved by an oracle, and its grant is a parameter computed as in Entitlements.
- Billing.ChainPaysForWhatIsUsed: the chain is without faults; with several active subscriptions only the one the query returns is replaced.
- Refunds.RefundsAreSound: whole requests follow each other; two concurrent approvals of one refund are not modelled.
- UserPurge.AdminService.PurgeUsers: only the tables that the purge lists, and raw messages; other tables are not part of the model.
- Notifications.Service.HandleEvent: identifiers and times of notifications, and the JSON of metadata, are not modelled.
- Rounding of floating-point numbers, SQL, GORM hooks and the vector arithmetic of the database.
