# Paper2Slides chat window: generation-session model

Paper2Slides turns uploaded papers into slides or posters. Its web frontend keeps a
list of conversations, each with messages, uploaded files and generated outputs. A
submission goes to the backend. The frontend then polls the session's stage status
(RAG, Summary, Plan, Generate) until every stage is completed or one has failed. It
then fetches the finished result and records it. This model covers five parts:

- **Conversation store** (`store.dfy`, module `Store`). The list operations, each with a
  duplicate rule:
  - appending a message;
  - adding files;
  - appending a generated output;
  - reusing an empty conversation;
  - deleting one and moving the selection;
  - the clean copy written to storage;
  - writing the backend's file URLs into the conversation.
- **Tick reconciliation** (`workflow.dfy`, module `Workflow`). One status poll:
  - backend stage states become local statuses;
  - the current step is derived from the first active stage;
  - the reported values decide whether polling ends and how.
- **Answers** (`responses.dfy`, module `Responses`). How each backend answer is
  classified, and the messages, outputs and preview records built from them. The
  result fetch, the status poll and the submission answers are input values.
- **The chat window** (`chat_window.dfy`, class `ChatWindow.Window`). The state that
  changes in place:
  - the poll registry: session to interval, with the set of live intervals;
  - the pending-fetch guard: the set of sessions being fetched;
  - the scheduled retries;
  - the handlers.

  Each asynchronous handler is split at its request. One method runs up to the request
  (`SendMessage`, `Regenerate`, `BeginFetch`). Another takes the settled answer
  (`SubmitResponded`, `RegenerateResponded`, `CompleteFetch`). A poll interval firing
  is `PollTick`, and a retry timer firing is `FireRetry`. `Valid()` says the registry
  and the live intervals match one to one, so no session is polled by two intervals.
- **The configuration panel** (`config_panel.dfy`, class `ConfigPanel.Panel`). The
  style cards, the custom-style box and the output picker.

`base.dfy` (the `Option` type and JavaScript truthiness of optional strings),
`text.dfy` (trim, ASCII lower-casing, substring tests, join) and `display.dfy` (file
icon, type name and output display name) hold the small pure helpers. `model.dfy`
holds the records.

Ids are opaque strings and timestamps are integer milliseconds. An absent list is the
empty sequence. Both an absent `blobUrl` and `blobUrl: null` are `None`.

Behaviours of the code a reader may not expect:

- `addFilesToConversation` filters only names already in the conversation. Two files of
  the same name in one batch are both kept (`Store.AddFilesKeepsBatchDuplicates`), so a
  conversation's file names stay distinct only for batches without repeated names.
- A poll whose `stages` is missing or `{}` counts as all completed and starts the result
  fetch (`Workflow.EmptyReportIsTerminal`).
- A poll tick updates whatever workflow is shown. It does not check that the workflow
  belongs to the polled session or conversation.
- A 409 is shown with its own text only when that text contains "Another session is
  already running"; any other 409 detail gets the generic apology.

## Model

| member | source | states |
|---|---|---|
| Text.Trim | frontend/src/components/ChatWindow.jsx:556 | the trimmed text starts and ends with non-whitespace |
| Text.TrimBlank | frontend/src/components/ChatWindow.jsx:556 | text trims to empty exactly when every character is whitespace, so the blank-submission test is `AllWhitespace` |
| Text.TrimIsInfix | frontend/src/components/ConfigPanel.jsx:62-64 | what trim keeps is a contiguous piece of the input with only whitespace before and after it |
| Text.TrimIdempotent | frontend/src/components/ConfigPanel.jsx:51-52 | trimming the stored custom style again changes nothing |
| Text.ToLower | frontend/src/components/ChatWindow.jsx:125 | same length; each letter A-Z is lowered and every other character kept |
| Text.LastIndexOf | frontend/src/components/ChatWindow.jsx:125 | the index holds the character and no later index does; absent exactly when the character does not occur |
| Text.Join | frontend/src/components/ChatWindow.jsx:180 | nothing for no parts, the part itself for one, otherwise the first part and the separator come first |
| Text.JoinSnoc | frontend/src/components/ChatWindow.jsx:180 | joining one more part appends the separator and that part |
| Store.FindConversation | frontend/src/components/ChatWindow.jsx:17-18 | the first conversation with the id, absent exactly when no conversation has it |
| Store.UpdateConversation | frontend/src/components/ChatWindow.jsx:184-197 | only conversations with the id change: the patched fields are replaced, `updatedAt` is restamped, all else kept |
| Store.AddMessage | frontend/src/components/ChatWindow.jsx:200-254 | other conversations unchanged; a duplicate leaves the conversation as it was; otherwise the message is appended last and the conversation restamped |
| Store.SelfDuplicateCases | frontend/src/components/ChatWindow.jsx:206-238 | a message duplicates itself exactly when it has a timestamp or is an assistant message with a truthy result URL |
| Store.AddMessageTwice | frontend/src/components/ChatWindow.jsx:205-249 | delivering the same stamped message twice adds it once |
| Store.AddMessageTwiceUnstamped | frontend/src/components/ChatWindow.jsx:221-232 | an unstamped message without a result URL is appended twice |
| Store.SamePptUrlIsDropped | frontend/src/components/ChatWindow.jsx:206-220 | an assistant message sharing a truthy ppt URL with a recorded assistant message leaves the conversation unchanged |
| Store.AddMessageKeepsResultsUnique | frontend/src/components/ChatWindow.jsx:205-249 | no two assistant messages of a conversation share a truthy ppt or poster URL, before and after |
| Store.NewFiles | frontend/src/components/ChatWindow.jsx:261-266 | a file is in the result exactly when it is in the batch and its name is not taken; never longer than the batch |
| Store.NewFilesSingle | frontend/src/components/ChatWindow.jsx:264-266 | one file is kept exactly when its name is free |
| Store.NewFilesAppend | frontend/src/components/ChatWindow.jsx:264-266 | filtering a concatenated batch concatenates the results, so batch order and repeated entries are kept |
| Store.AddFiles | frontend/src/components/ChatWindow.jsx:257-276 | the old file list stays as a prefix, followed by exactly the incoming files whose name was not present; other conversations untouched |
| Store.NewFilesDistinct | frontend/src/components/ChatWindow.jsx:261-266 | from a batch without repeated names the kept files have distinct names, all outside the taken set |
| Store.AddFilesKeepsNamesDistinct | frontend/src/components/ChatWindow.jsx:257-276 | distinct names in the list and in the batch give distinct names after adding |
| Store.AddFilesTwice | frontend/src/components/ChatWindow.jsx:257-276 | adding the same batch again adds nothing |
| Store.AddFilesKeepsBatchDuplicates | frontend/src/components/ChatWindow.jsx:264-266 | a batch holding one file twice adds it twice |
| Store.AppendOutput | frontend/src/components/ChatWindow.jsx:478-518 | an output sharing a truthy ppt or poster URL with a recorded one is dropped; otherwise it is appended last and the conversation restamped |
| Store.AppendOutputKeepsArtifactsUnique | frontend/src/components/ChatWindow.jsx:478-518 | no two recorded outputs share a truthy artifact URL, before and after |
| Store.AppendOutputTwice | frontend/src/components/ChatWindow.jsx:478-518 | two outputs with the same truthy URL appended in turn record one |
| Store.UrllessOutputAlwaysAppended | frontend/src/components/ChatWindow.jsx:484-497 | an output without a truthy URL is never a duplicate |
| Store.FindEmptyConversation | frontend/src/components/ChatWindow.jsx:279-286 | the first conversation without messages, files and outputs; absent when every conversation has something |
| Store.NewConversation | frontend/src/components/ChatWindow.jsx:289-322 | an empty conversation is selected and the list kept; otherwise a blank "New Chat" goes in front and is selected |
| Store.NewConversationSelectsEmpty | frontend/src/components/ChatWindow.jsx:289-322 | afterwards the selection names an empty conversation, and at most one conversation was added in front |
| Store.NewConversationTwice | frontend/src/components/ChatWindow.jsx:289-322 | a second request reuses the conversation the first produced |
| Store.Without | frontend/src/components/ChatWindow.jsx:357 | keeps exactly the conversations with another id; the first kept one is the first such conversation |
| Store.WithoutSingle | frontend/src/components/ChatWindow.jsx:357 | one conversation is kept exactly when its id is another |
| Store.WithoutAppend | frontend/src/components/ChatWindow.jsx:357 | removal from a concatenated list concatenates the results, so the remaining conversations keep their order |
| Store.DeleteConversation | frontend/src/components/ChatWindow.jsx:354-372 | no conversation with the id remains; a deleted current selection moves to the first remaining one; an emptied list clears the selection and the storage; otherwise the selection is kept |
| Store.DeleteKeepsSelectionValid | frontend/src/components/ChatWindow.jsx:354-372 | a selection naming a listed conversation still does after a deletion |
| Store.ForgetHandle | frontend/src/components/ChatWindow.jsx:68-71 | the preview handle is dropped and every other file field kept |
| Store.CleanConversation | frontend/src/components/ChatWindow.jsx:66-81 | no handle remains in the conversation's files or its messages' files; every other field and every other file field is kept |
| Store.PersistedSnapshot | frontend/src/components/ChatWindow.jsx:64-87 | nothing is written for an empty list; otherwise every conversation is kept with no preview handle in its files or its messages' files |
| Store.CleanConversationFixesHandleFree | frontend/src/components/ChatWindow.jsx:68-80 | a conversation with no handles is stored as it is |
| Store.PersistedSnapshotIdempotent | frontend/src/components/ChatWindow.jsx:64-87 | cleaning the written copy again writes the same copy |
| Store.FindUploaded | frontend/src/components/ChatWindow.jsx:843-845 | the first uploaded entry with the file's name, absent when none has it |
| Store.PopulateUploaded | frontend/src/components/ChatWindow.jsx:839-902 | only the conversation with the id changes. Its matched files get the URL, the session and no handle. Its matched message files get the URL and no handle, but no session. Nothing changes for an empty list |
| Store.PopulateUploadedIdempotent | frontend/src/components/ChatWindow.jsx:839-902 | applying the same response twice changes nothing more |
| Store.PopulateUploadedSetsUrls | frontend/src/components/ChatWindow.jsx:843-855 | a file named in the response keeps its name and ends with the response's session, no handle, and the URL of an entry of that name |
| Workflow.InitialStages | frontend/src/components/ChatWindow.jsx:645-676 | four stages rag, summary, plan, generate in that order, all pending |
| Workflow.InitialWorkflow | frontend/src/components/ChatWindow.jsx:645-678 | the initial stages, "Initializing...", no error, owned by the conversation |
| Workflow.LocalStatus | frontend/src/components/ChatWindow.jsx:761-770 | completed, running and failed map to completed, active and failed, each in both directions; anything else or nothing is pending |
| Workflow.ReconcileStages | frontend/src/components/ChatWindow.jsx:760-771 | same length and order; each stage keeps id, name and description and takes the status of its reported value |
| Workflow.FirstActive | frontend/src/components/ChatWindow.jsx:773-775 | the index of an active stage with no active stage before it; absent when none is active |
| Workflow.CurrentStep | frontend/src/components/ChatWindow.jsx:773-778 | with a first active stage the step is its "name: description"; without an active stage it is "Processing..." |
| Workflow.Tick | frontend/src/components/ChatWindow.jsx:750-786 | a cleared workflow stays cleared; otherwise its stages are reconciled, the step derived and the error taken from the report |
| Workflow.TickIdempotent | frontend/src/components/ChatWindow.jsx:750-786 | the same report applied twice is applied once |
| Workflow.TickKeepsStageShape | frontend/src/components/ChatWindow.jsx:760-771 | stage ids, names, descriptions and order survive a tick |
| Workflow.Decide | frontend/src/components/ChatWindow.jsx:789-827 | keep polling exactly when not all values are completed and none failed; fetch exactly when all are completed and no fetch is underway; report exactly when one failed; stop only when all are completed during a fetch |
| Workflow.FailureText | frontend/src/components/ChatWindow.jsx:819 | "Generation failed: " followed by a truthy error, else by "Unknown error occurred" |
| Workflow.EmptyReportIsTerminal | frontend/src/components/ChatWindow.jsx:740-791 | a report without stage values ends polling and fetches the result |
| Workflow.CompletedReportCompletesStages | frontend/src/components/ChatWindow.jsx:760-791 | all stages reported completed leave every stage completed and the generic step |
| Display.AfterLastDot | frontend/src/components/ChatWindow.jsx:125 | the dot-free suffix after the last dot, or the whole name when it has no dot |
| Display.FileIcon | frontend/src/components/ChatWindow.jsx:124-130 | each icon is chosen exactly for its extensions, the clip for all others |
| Display.FileTypeName | frontend/src/components/ChatWindow.jsx:132-140 | the name for each known extension; otherwise the truthy MIME type, else "Document" |
| Display.ExtensionIgnoresCase | frontend/src/components/ChatWindow.jsx:125 | a name in capitals has the same extension as in lower case |
| Display.StripExtension | frontend/src/components/ChatWindow.jsx:156-159 | a prefix of the name; with a final extension (a dot and then no dot or slash up to the end) exactly that is removed; without one the name is kept |
| Display.ExtensionAtUnique | frontend/src/components/ChatWindow.jsx:156-159 | only one position can start the extension the pattern removes |
| Display.DisplayParts | frontend/src/components/ChatWindow.jsx:145-177 | the parts start with the type label |
| Display.OutputDisplayName | frontend/src/components/ChatWindow.jsx:143-181 | the display name starts with "Slides" or "Poster" |
| Display.DisplayNameAllParts | frontend/src/components/ChatWindow.jsx:143-181 | with a file, style, content and size present the name is label - file - style - content - size |
| Display.BlankStyleAndContentSkipped | frontend/src/components/ChatWindow.jsx:163-171 | an empty style and content add no part: "Slides - file - length" |
| Display.ExtensionOnlyFileKeepsPart | frontend/src/components/ChatWindow.jsx:153-160 | a source file named ".pdf" still adds its empty part: "Slides - " |
| Display.PptIgnoresLength | frontend/src/components/ChatWindow.jsx:148-177 | a `ppt` output is labelled Slides, and its length and density never change its name |
| Display.SlidesEndWithLength | frontend/src/components/ChatWindow.jsx:174-180 | a `slides` output with a truthy length ends with " - " and that length |
| Responses.ClassifyResultAsWritten | frontend/src/components/ChatWindow.jsx:437-553 | a result is delivered exactly for a 2xx status with a parsed body. The fetch as written (see Findings) |
| Responses.AsWrittenNeverRetries | frontend/src/components/ChatWindow.jsx:438-531 | the retry outcome is unreachable as written |
| Responses.AsWrittenRecordsNotReady | frontend/src/components/ChatWindow.jsx:438-531 | as written, a 202 is recorded as the result |
| Responses.ClassifyResult | frontend/src/components/ChatWindow.jsx:437-553 | retry exactly on 202; delivered exactly for another 2xx status with a parsed body; every other answer is a failure |
| Responses.ClassifiersAgreeBesideNotReady | frontend/src/components/ChatWindow.jsx:437-553 | apart from 202 the corrected fetch takes the written branch |
| Responses.ResultMessage | frontend/src/components/ChatWindow.jsx:442-458 | an assistant message with the result's text and slides and the configuration; each URL is the result's truthy URL or none, and the message is stamped `now`; the same message value delivered twice is a duplicate of itself, while a second fetch builds a new message that is dropped only by the shared-URL rule or the 3-second rule |
| Responses.SourceFiles | frontend/src/components/ChatWindow.jsx:463-474 | the names of the conversation's files in order, none when it is missing |
| Responses.ResultOutput | frontend/src/components/ChatWindow.jsx:463-476 | the output takes type, style and content from the configuration, a length exactly for slides and a density exactly for posters; each URL is the result's truthy URL or none, the key the output duplicate rule compares |
| Responses.ApplyResult | frontend/src/components/ChatWindow.jsx:441-518 | only the fetched conversation changes: it gains the result message unless a duplicate is recorded, then the output unless one with its URL is recorded, is restamped when either was added, and keeps everything else |
| Responses.ApplyResultTwiceOneOutput | frontend/src/components/ChatWindow.jsx:425-518 | a result with a truthy URL recorded twice leaves the outputs as one recording does |
| Responses.NoticeMessage | frontend/src/components/ChatWindow.jsx:538-551 | a stamped assistant message with the given text and error flag, without files or URLs |
| Responses.StatusReport | frontend/src/components/ChatWindow.jsx:736-829 | a tick acts exactly on a 2xx status with a parsed body; all else is swallowed |
| Responses.NatText | frontend/src/components/ChatWindow.jsx:718 | non-empty decimal digits without a leading zero that denote the status |
| Responses.ClassifySubmit | frontend/src/components/ChatWindow.jsx:702-724 | accepted exactly on 2xx, with its session and stored files; cancelled exactly on abort; a 409 fails with its detail or the conflict text; other statuses fail with the status text |
| Responses.SendErrorText | frontend/src/components/ChatWindow.jsx:926-931 | a message naming the session conflict is shown as it is; anything else becomes the generic apology |
| Responses.ConflictWithoutDetailShown | frontend/src/components/ChatWindow.jsx:709-716 | a 409 without detail shows the conflict text |
| Responses.OtherStatusHidden | frontend/src/components/ChatWindow.jsx:718-935 | any other error status shows the generic apology |
| Responses.Preview | frontend/src/components/ChatWindow.jsx:591-603 | name and size kept; a handle, the file's object URL, exactly for PDFs by type or `.pdf` name; no backend URL or session; a truthy MIME type kept, else "application/pdf" |
| Responses.Previews | frontend/src/components/ChatWindow.jsx:591-603 | one preview per file, in order |
| Responses.UserMessage | frontend/src/components/ChatWindow.jsx:605-612 | a user message stamped `now` with the text, the previews and the configuration, so the same message delivered again adds nothing |
| Responses.Retitle | frontend/src/components/ChatWindow.jsx:629-634 | only the target changes, and only in title and stamp; the title is the first file's name without extension exactly when the list read shows the target without files |
| Responses.Submit | frontend/src/components/ChatWindow.jsx:605-640 | the list keeps its length; the other effects are stated by SubmitChangesOnlyTarget and SubmitTitle |
| Responses.SubmitChangesOnlyTarget | frontend/src/components/ChatWindow.jsx:605-640 | only the target conversation changes: it gains the user message unless a duplicate, exactly the new files and the configuration, keeps its outputs, and is restamped |
| Responses.SubmitTitle | frontend/src/components/ChatWindow.jsx:629-634 | the title becomes the first file's name without its extension exactly when files were sent and the list the test reads shows the conversation without files |
| Responses.SubmitAsWritten | frontend/src/components/ChatWindow.jsx:605-640 | as written: when the last-rendered list lacks the conversation no title changes |
| Responses.Submitted | frontend/src/components/ChatWindow.jsx:605-640 | corrected: the conversation is titled by its first file exactly when files were sent and it had none |
| Responses.FreshConversationKeepsDefaultTitle | frontend/src/components/ChatWindow.jsx:560-634 | as written, a conversation created by the submission keeps "New Chat" (see Findings) |
| Responses.FreshConversationTitledByFile | frontend/src/components/ChatWindow.jsx:560-634 | corrected, it is titled by its first file |
| Responses.CurrentSession | frontend/src/components/ChatWindow.jsx:386-389 | present exactly when the current conversation exists and its first file has a truthy session, and then that session |
| Responses.RegenerateCheck | frontend/src/components/ChatWindow.jsx:949-963 | ignored exactly without a current conversation; for a found one, no files gives the files alert, a first file without a truthy session the session alert, and otherwise it starts on that session |
| Responses.RegenerateMessage | frontend/src/components/ChatWindow.jsx:966-972 | a user message stamped `now` with the regenerate text, no files, no URLs and the configuration |
| ChatWindow.OneIntervalPerSession | frontend/src/components/ChatWindow.jsx:727-835 | under the registry invariant two live intervals never poll the same session |
| ChatWindow.SendTarget | frontend/src/components/ChatWindow.jsx:558-589 | an existing selection is kept; without one the result is Store.NewConversation's, which selects an empty conversation |
| ChatWindow.SendState | frontend/src/components/ChatWindow.jsx:558-640 | the send target's selection with the corrected submission applied to its list; a conversation the send creates is titled by the first file |
| ChatWindow.Window.constructor | frontend/src/components/ChatWindow.jsx:45-61 | loads the stored list and selects its first conversation; the registry, guard and retries start empty |
| ChatWindow.Window.SetConfig | frontend/src/components/ChatWindow.jsx:1383-1393 | the configuration becomes the one the panel's setters chose; nothing else changes |
| ChatWindow.Window.Persist | frontend/src/components/ChatWindow.jsx:64-87 | a non-empty list is stored as its clean copy; an empty one writes nothing |
| ChatWindow.Window.StartPolling | frontend/src/components/ChatWindow.jsx:727-835 | keeps the invariant; the session's previous interval is cleared and a fresh one is registered for it |
| ChatWindow.Window.StopPolling | frontend/src/components/ChatWindow.jsx:798-806 | keeps the invariant; the session has no entry and no live interval afterwards |
| ChatWindow.Window.Teardown | frontend/src/components/ChatWindow.jsx:89-98 | no interval is registered or live |
| ChatWindow.Window.BeginFetch | frontend/src/components/ChatWindow.jsx:425-434 | acquired exactly when the session was not already being fetched; the session is in the guard afterwards |
| ChatWindow.Window.CompleteFetch | frontend/src/components/ChatWindow.jsx:436-553 | the guard is released on every outcome. A result is recorded and the workflow cleared. A 202 schedules exactly one retry after 2000 ms. Anything else appends one error message and clears the workflow |
| ChatWindow.Window.FireRetry | frontend/src/components/ChatWindow.jsx:531 | the oldest retry fires once and runs the guard |
| ChatWindow.Window.PollTick | frontend/src/components/ChatWindow.jsx:733-832 | keeps the invariant. An ignored answer changes nothing. A terminal report removes the session's interval, then fetches only when no fetch is underway, or appends the failure message and clears the workflow |
| ChatWindow.Window.SendMessage | frontend/src/components/ChatWindow.jsx:555-682 | blank input changes nothing; otherwise the target conversation gets the submission's store updates and the initial workflow is shown |
| ChatWindow.Window.SubmitResponded | frontend/src/components/ChatWindow.jsx:684-945 | keeps the invariant. Accepted: the session is polled by one fresh interval and the file URLs are written. Cancelled: a neutral message. Failed: an error message. The last two clear the workflow |
| ChatWindow.Window.Regenerate | frontend/src/components/ChatWindow.jsx:949-1017 | the request starts only as `RegenerateCheck` allows; then the user message and the initial workflow are recorded |
| ChatWindow.Window.RegenerateResponded | frontend/src/components/ChatWindow.jsx:1038-1208 | keeps the invariant. Accepted: the session is polled by one fresh interval. Otherwise the workflow is cleared and a cancel or failure message appended |
| ChatWindow.Window.CancelGeneration | frontend/src/components/ChatWindow.jsx:375-422 | with a request in flight, clears the workflow and stops the current session's interval once the cancel request went through; else nothing |
| ChatWindow.Window.NewConversation | frontend/src/components/ChatWindow.jsx:289-322 | the list and selection become those of `Store.NewConversation` |
| ChatWindow.Window.SelectConversation | frontend/src/components/ChatWindow.jsx:325-352 | selects the id and restores that conversation's configuration when it exists |
| ChatWindow.Window.DeleteConversation | frontend/src/components/ChatWindow.jsx:354-372 | the list and selection become those of `Store.DeleteConversation`; storage is cleared when the list empties |
| ConfigPanel.Panel.constructor | frontend/src/components/ConfigPanel.jsx:24-36 | a preset style selects its card; another non-empty style selects custom with that text; an empty style keeps "academic" and "" |
| ConfigPanel.Panel.SelectOutput | frontend/src/components/ConfigPanel.jsx:38-43 | sets the output and opens the dialog only when not compact |
| ConfigPanel.Panel.SelectStyle | frontend/src/components/ConfigPanel.jsx:45-57 | a preset becomes the style; custom takes the trimmed text when it is not blank, else keeps the style; the selection is then consistent |
| ConfigPanel.Panel.ChangeCustomStyle | frontend/src/components/ConfigPanel.jsx:60-66 | the raw text is kept; the style follows the trimmed text only when it is not blank |

## Left out

- Rendering is not modelled: the JSX, the conversation list, the preview modal and the configuration cards are UI. So are `scrollToBottom`, `openPreview`/`closePreview`, `handleSelectFile` and the console logging.
- I/O is not modelled. `fetch`, `FormData` construction, `AbortController`, `localStorage` and JSON parsing are performed by the browser. Their results are inputs: `ResultResponse`, `StatusResponse`, `SubmitResponse`, the stored list given to the constructor, and the `storage` field. The form fields a request carries are not modelled.
- Timers are not modelled as time. `setInterval`, `setTimeout` and the 1500 ms cadence are entries in the registry and in `retries`. A firing is a call to `PollTick` or `FireRetry`, in any order the caller chooses.
- `URL.createObjectURL` is not called: the object URL a file would get is part of `LocalFile`. `URL.revokeObjectURL` is not modelled.
- `generateId` and the clock are not modelled: ids and timestamps are parameters. ISO timestamp strings are integer milliseconds.
- `formatFileSize` is left out because it uses floating-point `toFixed`.
- The `window.workflowInterval` and `window.statusPollInterval` clears are left out: neither is ever set.
- Closures that read stale React state are not modelled. The configuration, the source files of an output and the selection are read from the current state when the step runs. The conversation an interval or a request belongs to is passed in as `convId`. Queued React updates are applied at once, in order.
- The `filename` copy of a file's name is not stored, because it always equals `name`.
- Text.ToLower: lowers ASCII letters only, not the full Unicode case mapping of `toLowerCase`.
- Ids are never the empty string, so `!convId` and `!currentConversationId` mean "nothing selected".
- ChatWindow.Window.CancelGeneration: the backend's answer to the cancel request is the parameter `cancelDelivered`. An aborted submission is the caller's `SubmitAborted` answer.
- ConfigPanel.Panel.constructor: `Consistent()` is promised only for a preset or an already-trimmed style. An empty style keeps the "academic" card while `style` stays "", and a custom style with surrounding whitespace is stored untrimmed.
- ChatWindow.Window.SelectConversation: a stored conversation is assumed to carry a full configuration, so selecting it replaces the whole configuration. The code restores only the fields that are not `undefined`, and only when a configuration is stored; every configuration this code writes is complete, but a partial one written elsewhere cannot be represented.
- ConfigPanel: the `language` property and the regenerate button are not handled by these handlers and are not modelled.

## Findings

| source | as written | input that shows it | evidently intended | confidence | as-written member | corrected member |
|---|---|---|---|---|---|---|
| frontend/src/components/ChatWindow.jsx:438-531 | `resultResponse.ok` is tested before `status === 202`, and `ok` holds for every 2xx status | the result request answers 202 ("not ready yet") | wait 2000 ms and fetch again, as the 202 branch says | high, not executed | Responses.AsWrittenRecordsNotReady | Responses.ClassifyResult |
| frontend/src/components/ChatWindow.jsx:629-634 | the first-file title test looks the conversation up in the list from the last render | no conversation selected, none empty; send "paper.pdf". The message input is shown only with a current conversation (1402-1404), so this path is latent | the new conversation is titled "paper" | low, not executed | Responses.FreshConversationKeepsDefaultTitle | Responses.FreshConversationTitledByFile |

The first row has these consequences, all following from `Responses.AsWrittenNeverRetries`
and the body test of `Responses.ClassifyResultAsWritten`:

- A 202 whose body parses, during the window between "all stages completed" and
  "artifact materialized", records an assistant message with the body's text (empty
  when it has none) and an output without URLs, then clears the workflow.
- A 202 whose body does not parse falls into the error handler (538-551). It appends
  the fetch-failure message and clears the workflow, again without a retry.
- Outputs without URLs are never duplicates (`Store.UrllessOutputAlwaysAppended`), so
  every parsed 202 adds one.

`ChatWindow.Window.CompleteFetch` uses the corrected classifier. `ChatWindow.Window.SendMessage` uses the corrected title test (`Responses.Submitted`).
