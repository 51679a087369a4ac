# Workflow builder: executor, access control and front-end rules in Dafny

This project models the logic core of a small workflow-builder application. In the application, a workflow is a list of typed nodes (`trigger`, `action`, `logic`, `ai`, `web3`) with canvas positions and connections. The hard part is `WorkflowExecutor`. It sorts a workflow's nodes by vertical position and runs them one by one, storing each result under the node's id. At the first error it records the message and queues one retry job. The executor exists in two builds that behave differently: the TypeScript source and an older compiled JavaScript file. Both are modelled.

Around the executor the model covers:
- the backend's bearer-token middleware, admin gate and `/api/users` access rules;
- the editor's conversion between workflows and graph-editor state;
- the front end's user-form schema and upload-progress counter;
- the AI-node prompt dialog, the list filters, the create/execute guards and the navigation-menu toggle.

Layout, one module per file:
- `wrappers.dfy`, `seqs.dfy`, `strings.dfy`, `json_values.dfy` hold the JavaScript built-ins the code relies on:
  - `split`, `pop`, `indexOf`, `includes`, `replace` with a string pattern, `trim` and ASCII `toLowerCase`;
  - `filter`;
  - JS truthiness and `String(v)`.
- `types.dfy` holds the shared data model.
- `node_order.dfy` is `Array.prototype.sort` over nodes. It is an in-place stable insertion sort on an `array`, parameterised by the comparator.
- `engine.dfy` is the execution loop shared by both builds. It is an imperative `while` loop with `break`, filling the context and appending to a `RetryQueue` object.
- `executor_ts.dfy` and `executor_js.dfy` are the two `runNode` switches and `execute`.
- `auth.dfy` and `users.dfy` are the auth middleware and the user routes.
- `editor_pane.dfy`, `user_form.dfy`, `ai_node_config.dfy`, `user_list.dfy`, `app.dfy` and `nav_menu.dfy` are the front-end components.

State that the source changes in place is modelled as a class with `modifies` clauses:
- the node array reordered by the sort;
- the retry queue;
- the middleware's request/response exchange;
- the form's upload state;
- the list and app pages' state;
- the menu's `isOpen`.

Values and decisions are datatypes and functions.

Outside inputs are parameters:
- the clock: `clock(step)` gives the ISO time at which the node at position `step` runs;
- `JSON.stringify` of the input;
- the chat-completion call, returning the first choice's content or the thrown message;
- the auth service and the `profiles` table, as functions from request to reply;
- the storage upload.

## Model

| member | source | states |
|---|---|---|
| Types.ParseKind | BackEnd/src/types/index.ts:3 | a node's type text is read as a kind whose name is that text; unknown texts become `Other` with that name |
| Types.ParseKindName | BackEnd/src/types/index.ts:3 | parsing a kind's name gives back that kind, so names and parsed kinds correspond one to one |
| NodeOrder.SortKey | BackEnd/src/engine/executor.ts:53 | `a.position?.y ?? 0`: the sort key is y, or 0 without a position (stated through NodeOrder.CompareByYAgreesWithKey) |
| NodeOrder.CompareByY | BackEnd/src/engine/executor.ts:53 | the TypeScript comparator; NodeOrder.CompareByYAgreesWithKey states it is consistent with the key |
| NodeOrder.CompareByYOrEqual | BackEnd/src/engine/executor.js:48 | the compiled comparator, with `NaN \|\| 0` as 0; its three lemmas state soundness, completeness with positions, and inconsistency without |
| Strings.Split | BackEnd/src/middleware/auth.ts:12 | `split(' ')`: at least one field, no field contains the separator, a text without it is one field, a text with it at least two |
| Strings.JoinSplit | BackEnd/src/middleware/auth.ts:12 | joining the fields of a split with the separator gives back the text |
| Strings.SplitAfterFirst | BackEnd/src/middleware/auth.ts:12 | a separator-free first part is the first field, and the rest is split the same way |
| Strings.LastField | FrontEnd/src/components/UserForm.tsx:65 | `split('.').pop()` contains no dot |
| Strings.LastFieldIsSuffix | FrontEnd/src/components/UserForm.tsx:65 | the last field is a suffix of the text, preceded by a separator unless it is the whole text |
| Strings.LastFieldAfterSeparator | FrontEnd/src/components/UserForm.tsx:65 | the text after the last separator is the last field |
| Strings.IndexOfFrom | BackEnd/src/engine/executor.ts:39 | the first occurrence of the pattern at or after `from`, or none when there is none |
| Strings.IncludesMeansOccurs | FrontEnd/src/Pages/UserList.tsx:16 | `includes` holds exactly when the pattern occurs somewhere |
| Strings.ReplaceFirstAtFirstOccurrence | BackEnd/src/engine/executor.ts:39 | `replace` with a string pattern rewrites only the first occurrence and keeps the text around it |
| Strings.ReplaceFirstAbsent | BackEnd/src/engine/executor.ts:39 | without an occurrence, `replace` returns the text unchanged |
| Strings.ReplaceFirst | BackEnd/src/engine/executor.ts:39 | `replace` with a text pattern; its meaning is stated by ReplaceFirstAtFirstOccurrence and ReplaceFirstAbsent |
| Strings.TrimStart | FrontEnd/src/components/UserForm.tsx:19 | removes exactly the leading white space: the result is a suffix that starts with a non-space, or is empty |
| Strings.TrimEnd | FrontEnd/src/components/UserForm.tsx:19 | removes exactly the trailing white space: the result is a prefix that ends with a non-space, or is empty |
| Strings.TrimEmptyIffBlank | FrontEnd/src/components/AiNodeConfigModal.tsx:20 | `trim()` is empty exactly when the text is all white space |
| Strings.Trim | FrontEnd/src/components/UserForm.tsx:19 | `trim()`: TrimStart then TrimEnd; stated by those two and TrimEmptyIffBlank |
| Strings.ToLower | FrontEnd/src/App.js:46 | same length; each letter A to Z is lowered, every other character is kept |
| Strings.EmptyQueryMatches | FrontEnd/src/App.js:46 | every text includes the empty query |
| Strings.IncludesIgnoringCase | FrontEnd/src/App.js:46 | `s.toLowerCase().includes(q.toLowerCase())`; stated by App.VisibleIffNameMatches and Strings.EmptyQueryMatches |
| Seqs.Filter | FrontEnd/src/Pages/UserList.tsx:16 | `filter`: kept elements come from the list and pass; every passing element is kept (how often: Seqs.FilterCounts) |
| Seqs.FilterCounts | FrontEnd/src/Pages/UserList.tsx:16 | every passing element is kept exactly as often as it occurs in the list, and a failing one not at all |
| Seqs.FilterIsSubsequence | FrontEnd/src/App.js:46 | `filter` keeps the original order |
| Seqs.FilterAll | FrontEnd/src/App.js:46 | when every element passes, `filter` returns the list unchanged |
| JsonValues.Get | BackEnd/src/engine/executor.ts:36 | a property read is present exactly when the key is, and then gives its value |
| JsonValues.NatToText | BackEnd/src/engine/executor.js:41 | the decimal text of a number: non-empty, all digits, no leading zero, and denoting the number |
| JsonValues.Truthy | BackEnd/src/engine/executor.ts:36 | JS truthiness of a property read: false for a missing value, null, false, 0 and the empty text; used by ExecutorTs.RunNode's logic case |
| JsonValues.ToText | BackEnd/src/engine/executor.js:41 | `String(v)` in the template literal; used by ExecutorJs.RunNode's ai case |
| NodeOrder.SortInPlace | BackEnd/src/engine/executor.ts:52-54 | `nodes.sort(cmp)` in place. The result is a permutation. When the comparator agrees with the key on the input (it never reports "greater" wrongly and reports every greater key), the result is sorted by key and nodes with equal key keep their order. For any other comparator only the permutation is promised. |
| NodeOrder.SiftLeft | BackEnd/src/engine/executor.ts:53 | one insertion step keeps the multiset and key stability, and extends the sorted prefix by one |
| NodeOrder.SortedStableUnique | BackEnd/src/engine/executor.ts:53 | two sorted, key-stable arrangements of the same nodes are equal, so any stable sort gives the same order |
| NodeOrder.SortOutcomeDeterministic | BackEnd/src/engine/executor.ts:53 | results of the sort guarantee for comparators that order by the key are unique |
| NodeOrder.CompareByYAgreesWithKey | BackEnd/src/engine/executor.ts:53 | `(a.position?.y ?? 0) - (b.position?.y ?? 0)` reports "greater" exactly when `a`'s key is greater |
| NodeOrder.CompareByYOrEqualIsSound | BackEnd/src/engine/executor.js:48 | `a.position?.y - b.position?.y \|\| 0` reports "greater" only when `a`'s y is greater |
| NodeOrder.CompareByYOrEqualCompleteWhenPositioned | BackEnd/src/engine/executor.js:48 | when every node has a position, the compiled comparator orders by y |
| NodeOrder.CompareByYOrEqualInconsistent | BackEnd/src/engine/executor.js:48 | with a node lacking a position, that node compares equal to two nodes that are not equal to each other, so the comparator is inconsistent |
| NodeOrder.CompiledIncompleteWithoutPosition | BackEnd/src/engine/executor.js:48 | a list with a node lacking a position and a node with positive y is not ordered by the compiled comparator, so the sort guarantee leaves its order open |
| NodeOrder.OnlyPermutationWhenIncomplete | BackEnd/src/engine/executor.js:46-49 | for a comparator that does not order the input by the key, every permutation meets the sort guarantee |
| NodeOrder.CompiledSortMatchesWhenPositioned | BackEnd/src/engine/executor.js:46-49 | when every node has a position, the compiled and the TypeScript sort give the same order |
| Engine.RetryQueue.Add | BackEnd/src/engine/executor.ts:56-58 | `workflowQueue.add` appends exactly the given job |
| Engine.RetryQueue.constructor | BackEnd/src/engine/executor.ts:7 | a fresh queue holds no jobs |
| Engine.RetryJobFor | BackEnd/src/engine/executor.ts:57 | the job `retry {node, context}` with 3 attempts and exponential backoff from 1000 ms; stated by Engine.RunStopsAtFirstFailure |
| Engine.Outputs | BackEnd/src/engine/executor.ts:18 | the output map of the nodes run in order; Engine.OutputKeysAreIds, Engine.OutputKeys and Engine.OutputOfLastWithId state its keys and values |
| Engine.Run | BackEnd/src/engine/executor.ts:11-27 | the outcome of `execute` on the sorted list: the input kept, at most one job, and an error exactly when a job is queued; the Run lemmas below state the outputs |
| Engine.FirstFailureFrom | BackEnd/src/engine/executor.ts:16-23 | the first position from `from` whose node throws; every earlier node in range succeeds, and `None` means all succeed |
| Engine.FirstFailureAt | BackEnd/src/engine/executor.ts:16-23 | the node at `k` is the first to throw when it throws and every earlier one succeeds |
| Engine.NoFailure | BackEnd/src/engine/executor.ts:16-24 | when every node succeeds, no node fails |
| Engine.Completed | BackEnd/src/engine/executor.ts:16-22 | the number of nodes the loop ran to completion: every node before it succeeds, and the node at it, if any, throws |
| Engine.RunSorted | BackEnd/src/engine/executor.ts:12-26 | the `for`/`try`/`break` loop returns the context of `Run` and appends exactly `Run`'s jobs to the queue |
| Engine.RunKeepsInput | BackEnd/src/engine/executor.ts:12 | the returned context holds the given input unchanged |
| Engine.RunOutputKeys | BackEnd/src/engine/executor.ts:16-24 | the output keys are the ids of an initial segment of the sorted list. The segment is shorter than the list exactly when an error is recorded. |
| Engine.RunWithoutFailure | BackEnd/src/engine/executor.ts:16-19 | no error and no job exactly when every node succeeds. Then every id is a key, mapped to its node's result unless a later node with the same id overwrote it. |
| Engine.OutputOfLastWithId | BackEnd/src/engine/executor.ts:18 | `context.output[node.id] = …`: the last node with an id determines its entry |
| Engine.OutputKeys | BackEnd/src/engine/executor.ts:18 | when every node succeeds, the output keys are exactly the node ids |
| Engine.OutputKeysAreIds | BackEnd/src/engine/executor.ts:18 | every output key is the id of a node that ran |
| Engine.OutputsOfSamePrefix | BackEnd/src/engine/executor.ts:16-18 | the outputs depend only on the nodes run |
| Engine.RunStopsAtFirstFailure | BackEnd/src/engine/executor.ts:19-23 | at the first throw: the error is its message; exactly one job `retry {node, context}` with 3 attempts and exponential backoff from 1000 ms is queued; the outputs are those of the earlier nodes |
| Engine.RunIgnoresNodesAfterFailure | BackEnd/src/engine/executor.ts:22 | `break`: replacing any node after the failing one leaves the outcome unchanged |
| Engine.RunNoEntryFromFailureOn | BackEnd/src/engine/executor.ts:16-24 | with distinct ids, the failing node and every later node have no output entry |
| Engine.SameRunWhenRunnersAgree | BackEnd/src/engine/executor.ts:16-24 | the outcome depends only on what `runNode` returns for the listed nodes |
| Engine.SameFirstFailure | BackEnd/src/engine/executor.ts:16-23 | runners that agree on the listed nodes fail first at the same node |
| Engine.SameOutputs | BackEnd/src/engine/executor.ts:18 | runners that agree on the listed nodes give the same outputs |
| ExecutorTs.RunNode | BackEnd/src/engine/executor.ts:29-50 | per node type: trigger gives `{triggeredAt}` from the clock, action `{status:'success', data}`, logic `'true'` exactly when `data.condition` is truthy, web3 `{txHash:'0xstub'}`. Any other type throws `Unknown node type: <type>`. An ai node throws the `replace` TypeError for a missing, null or non-text prompt, and passes on an error of the completion call. Otherwise it gives `{response}` from the completion. Only unknown and ai nodes throw. |
| ExecutorTs.ResponseText | BackEnd/src/engine/executor.ts:44 | `content \|\| 'No response'`: never empty, and it is the content exactly when that is present and non-empty |
| ExecutorTs.SentPrompt | BackEnd/src/engine/executor.ts:39 | the prompt sent to the completion call; stated by SentPromptSubstitutes and SentPromptWithoutPlaceholder |
| ExecutorTs.ReplaceError | BackEnd/src/engine/executor.ts:39 | the V8 TypeError message for `replace` on a missing, null or non-text prompt; used by ExecutorTs.RunNode |
| ExecutorTs.SentPromptSubstitutes | BackEnd/src/engine/executor.ts:39 | only the first `{{input}}` is replaced by the stringified input; text before and after, later placeholders included, is sent verbatim |
| ExecutorTs.SentPromptWithoutPlaceholder | BackEnd/src/engine/executor.ts:39 | a prompt without `{{input}}` is sent unchanged |
| ExecutorTs.Execute | BackEnd/src/engine/executor.ts:11-27 | `execute` reorders `workflow.nodes` by the TypeScript comparator, then returns the loop's context and queues its jobs |
| ExecutorTs.SortedByPosition | BackEnd/src/engine/executor.ts:52-54 | the nodes run in ascending `position.y` (absent is 0), ties keep their order, none is lost, and this determines the order |
| ExecutorTs.CompletesWithoutAiOrUnknown | BackEnd/src/engine/executor.ts:30-49 | a workflow without ai and unknown nodes completes with no error, no job and an entry for every id |
| ExecutorJs.RunNode | BackEnd/src/engine/executor.js:29-45 | it throws `Unknown node type: <type>` exactly for web3 and unknown types. The trigger, action and logic cases are as in TypeScript. ai gives `{response: 'AI output for ' + String(prompt)}`. |
| ExecutorJs.Execute | BackEnd/src/engine/executor.js:13-28 | `execute` permutes the nodes by the compiled comparator, sorted and stable when every node has a position, then returns the loop's context and queues its jobs for that order |
| ExecutorJs.StopsAtFirstUnsupported | BackEnd/src/engine/executor.js:17-43 | the run ends at the first web3 or unknown node: its error message, the earlier nodes' outputs and one retry job |
| ExecutorJs.CompletesWithoutUnsupported | BackEnd/src/engine/executor.js:17-27 | without web3 and unknown nodes the run completes with an entry for every id |
| ExecutorJs.AiPromptNotTemplated | BackEnd/src/engine/executor.js:39-41 | an ai prompt comes back verbatim, `{{input}}` included |
| ExecutorJs.BuildsAgreeWhenPositioned | BackEnd/src/engine/executor.js:46-49 | with all positions present, both builds order the nodes alike. On trigger/action/logic workflows they give the same context and jobs. |
| Auth.ExtractToken | BackEnd/src/middleware/auth.ts:12-13 | the truthy second space-separated field of the header: non-empty and space-free; none without a header |
| Auth.TokenOfHeader | BackEnd/src/middleware/auth.ts:12 | `<word> <token>`, with or without further fields, yields `token`, whatever the first word is |
| Auth.NoTokenWithoutSecondField | BackEnd/src/middleware/auth.ts:12-13 | a header without a space, or with an empty second field, yields no token |
| Auth.ExtractedTokenShape | BackEnd/src/middleware/auth.ts:12 | conversely, a token is preceded by one space-free word and a space, and followed by nothing or a space |
| Auth.ResolveRole | BackEnd/src/middleware/auth.ts:26 | `profile?.role \|\| 'user'`: the profile's role when non-empty, else `'user'` |
| Auth.Authenticate | BackEnd/src/middleware/auth.ts:11-31 | 401 `No token provided` exactly without a token. 401 `Invalid token` exactly when the service rejects the token or finds no user. 500 `Auth failed` exactly when a lookup throws. Otherwise the user with id, email and resolved role is passed on. It proceeds exactly when a token is present, the service finds its user and the profile lookup does not throw, and it rejects only with these three replies. |
| Auth.AdminGate | BackEnd/src/middleware/auth.ts:33-36 | passes exactly when the role is `'admin'`, else 403 `Admin access required` |
| Auth.DefaultRoleIsNotAdmin | BackEnd/src/middleware/auth.ts:26-34 | a user without an `admin` profile role gets the default role and is refused by the admin gate |
| Auth.Exchange.constructor | BackEnd/src/middleware/auth.ts:7-9 | a request starts without user, reply or `next` call |
| Auth.Exchange.AuthMiddleware | BackEnd/src/middleware/auth.ts:11-31 | on success `req.user` is set and `next` called; otherwise the error reply is written, `next` is not called and `req.user` stays unset |
| Auth.Exchange.AdminMiddleware | BackEnd/src/middleware/auth.ts:33-36 | either the 403 reply is written or `next` is called |
| Users.Pick | BackEnd/src/routes/users.ts:49 | the payload holds exactly the listed body fields that are defined |
| Users.SelfOrAdmin | BackEnd/src/routes/users.ts:28 | the requester is that user or an admin; used by Users.SelfOrAdminRoutes |
| Users.InsertRow | BackEnd/src/routes/users.ts:49 | the `id`, `email`, `name`, `role` fields of the body; stated by Users.Pick's contract |
| Users.Serve | BackEnd/src/routes/users.ts:9 | authentication in front of every route; stated by Users.EveryRouteAuthenticated |
| Users.UpdateFields | BackEnd/src/routes/users.ts:68 | `name` and `avatar_url` when given. `role` is present exactly when the requester is admin and it was given. Values are copied from the body. |
| Users.Respond | BackEnd/src/routes/users.ts:14-22 | one query. A database error gives 500 with its message; otherwise the route's status with the data. |
| Users.Handle | BackEnd/src/routes/users.ts:12-90 | each route sends at most one query; which one is stated by PermittedRouteQueries, the replies by the route lemmas below |
| Users.EveryRouteAuthenticated | BackEnd/src/routes/users.ts:9 | a request the middleware rejects gets its reply and sends no query, on every route |
| Users.AdminOnlyRoutes | BackEnd/src/routes/users.ts:12-90 | listing, creating and deleting send no query exactly when the requester is not admin, and then reply 403 `Admin access required` |
| Users.SelfOrAdminRoutes | BackEnd/src/routes/users.ts:26-77 | reading and updating `/:id` send no query exactly when the requester is neither that user nor admin, and then reply 403 `Access denied` |
| Users.PermittedRouteQueries | BackEnd/src/routes/users.ts:12-90 | a permitted request sends exactly its route's query: select all, select one by id, insert the picked row, update by id with the allowed fields, delete by id |
| Users.NonAdminCannotChangeRole | BackEnd/src/routes/users.ts:64-70 | a non-admin's update carries no `role` |
| Users.SuccessStatuses | BackEnd/src/routes/users.ts:12-90 | create 201, delete 204 with no body, others 200 with the data; any database error 500 with its message |
| EditorPane.ToEdges | FrontEnd/src/components/EditorPane.tsx:20 | one edge per connection, in order |
| EditorPane.FlowNodes | FrontEnd/src/components/EditorPane.tsx:17 | one flow node per workflow node, in order |
| EditorPane.FlowNode | FrontEnd/src/components/EditorPane.tsx:17 | one node mapped for the editor; stated by EditorPane.FlowNodeShape and EditorPane.FlowNodeIdempotent |
| EditorPane.ToEdge | FrontEnd/src/components/EditorPane.tsx:20 | one connection as an edge; stated by EditorPane.EdgeRoundTrip |
| EditorPane.FromEdge | FrontEnd/src/components/EditorPane.tsx:27 | one edge back as a connection; stated by EditorPane.EdgeRoundTrip |
| EditorPane.FromEdges | FrontEnd/src/components/EditorPane.tsx:27 | one connection per edge, in order |
| EditorPane.SaveWorkflow | FrontEnd/src/components/EditorPane.tsx:23-30 | keeps `id`, `name`, `active`; takes the current nodes; maps each edge to `{from: source, to: target}` |
| EditorPane.EdgeRoundTrip | FrontEnd/src/components/EditorPane.tsx:20-27 | an edge's id is `from-to`, source `from`, target `to`, and mapping back gives the connection |
| EditorPane.ConnectionsRoundTrip | FrontEnd/src/components/EditorPane.tsx:20-27 | saving untouched edges gives the original connections in order |
| EditorPane.SaveUntouched | FrontEnd/src/components/EditorPane.tsx:16-30 | saving the untouched editor state changes only `nodes`, by the flow-node mapping |
| EditorPane.FlowNodeShape | FrontEnd/src/components/EditorPane.tsx:17 | a missing position becomes (0,0), a present one is kept; data gains `label` = name unless it has its own `label`, which wins; other fields are kept |
| EditorPane.FlowNodeIdempotent | FrontEnd/src/components/EditorPane.tsx:17 | mapping a flow node again changes nothing |
| EditorPane.SaveIsStable | FrontEnd/src/components/EditorPane.tsx:16-30 | after one open-and-save, opening and saving again without edits gives the same workflow |
| EditorPane.EdgeIdsCanCollide | FrontEnd/src/components/EditorPane.tsx:20 | two different connections can get the same edge id when node ids contain `-` |
| UserForm.NameIssues | FrontEnd/src/components/UserForm.tsx:10 | no issue exactly for 2 to 50 characters |
| UserForm.PickAvatar | FrontEnd/src/components/UserForm.tsx:16 | no file exactly when the list is absent or empty; otherwise the first file |
| UserForm.AvatarIssues | FrontEnd/src/components/UserForm.tsx:17-18 | the size and image-type checks of the chosen file; stated by UserForm.ValidIff |
| UserForm.Validate | FrontEnd/src/components/UserForm.tsx:9-19 | the schema's issue list; stated by UserForm.ValidIff and UserForm.BlankNameIsRequired |
| UserForm.SubmitEnabled | FrontEnd/src/components/UserForm.tsx:303 | `disabled={uploading \|\| !isValid}` negated: submit is enabled exactly when no upload runs and the form is valid (UserForm.ValidIff) |
| UserForm.ValidIff | FrontEnd/src/components/UserForm.tsx:9-19 | valid exactly when the name has 2 to 50 characters and is not all white space, the email passes, the role is absent or `user`/`admin`, and a chosen file is an image under 5·1024·1024 bytes |
| UserForm.BlankNameIsRequired | FrontEnd/src/components/UserForm.tsx:19 | a white-space name of allowed length gets exactly `Name is required` |
| UserForm.OnlyFirstFileChecked | FrontEnd/src/components/UserForm.tsx:16-18 | files after the first never cause an issue |
| UserForm.UploadFileName | FrontEnd/src/components/UserForm.tsx:65-66 | the name starts with the UUID and a dot |
| UserForm.UploadFileNameExtension | FrontEnd/src/components/UserForm.tsx:65-66 | after the dot comes the text after the original name's last dot, or the whole name when it has no dot |
| UserForm.UploadFileNameSuffix | FrontEnd/src/components/UserForm.tsx:65 | the extension is a dot-free suffix of the original name |
| UserForm.ErrorText | FrontEnd/src/components/UserForm.tsx:82-99 | `err.message \|\| fallback`: the message when non-empty, else the fallback |
| UserForm.SubmittedAvatarUrl | FrontEnd/src/components/UserForm.tsx:92-95 | the uploaded URL when a file was chosen, else the preview; a failed upload yields its error |
| UserForm.NextProgress | FrontEnd/src/components/UserForm.tsx:61 | `Math.min(prev + 10, 90)`: up by 10 below 80, else 90, never above 90 |
| UserForm.TicksFromZero | FrontEnd/src/components/UserForm.tsx:56-62 | from 0, `k` ticks give `min(10k, 90)` |
| UserForm.TicksFrom | FrontEnd/src/components/UserForm.tsx:61 | from a multiple of 10 up to 90, `k` ticks add `10k`, capped at 90 |
| UserForm.Upload.constructor | FrontEnd/src/components/UserForm.tsx:54 | no upload, progress 0, no error, no interval and no pending reset |
| UserForm.Upload.Begin | FrontEnd/src/components/UserForm.tsx:55-62 | uploading, progress 0, error cleared, one more interval running |
| UserForm.Upload.Tick | FrontEnd/src/components/UserForm.tsx:60-62 | progress takes one counter step, so it is at most 90; nothing else changes |
| UserForm.Upload.Returned | FrontEnd/src/components/UserForm.tsx:67-87 | interval cleared, progress 100, error message on failure, upload ended, reset scheduled; result is the public URL or the error |
| UserForm.Upload.Threw | FrontEnd/src/components/UserForm.tsx:64-87 | a throwing upload call sets the error and ends the upload, and its interval is never cleared |
| UserForm.Upload.ResetFires | FrontEnd/src/components/UserForm.tsx:86 | the delayed reset sets progress to 0 |
| UserForm.Upload.SubmitFailed | FrontEnd/src/components/UserForm.tsx:98-99 | the submit error is the message, or `Submission failed` |
| AiNodeConfig.InitialPrompt | FrontEnd/src/components/AiNodeConfigModal.tsx:14 | the node's prompt when truthy, else the empty text |
| AiNodeConfig.IsRendered | FrontEnd/src/components/AiNodeConfigModal.tsx:16 | the dialog renders only when open and given a node |
| AiNodeConfig.HandleSubmit | FrontEnd/src/components/AiNodeConfigModal.tsx:18-23 | one effect (alert or crash) or two (save, close); a prompt that is not text crashes with `prompt.trim is not a function`, and a text prompt never crashes |
| AiNodeConfig.SubmitAcceptsNonBlank | FrontEnd/src/components/AiNodeConfigModal.tsx:18-23 | a blank prompt alerts and neither saves nor closes; any other prompt saves exactly `{prompt}` untrimmed, then closes |
| AiNodeConfig.SaveThenClose | FrontEnd/src/components/AiNodeConfigModal.tsx:21-22 | a save is always the first effect and is followed by the close |
| AiNodeConfig.ResubmitKeepsPrompt | FrontEnd/src/components/AiNodeConfigModal.tsx:14-23 | submitting a node's non-blank prompt unedited saves that prompt |
| AiNodeConfig.MissingPromptCannotBeSaved | FrontEnd/src/components/AiNodeConfigModal.tsx:14-20 | a node without a prompt opens with an empty prompt that only alerts |
| UserList.ShownIffMatches | FrontEnd/src/Pages/UserList.tsx:16 | a loaded user is shown exactly when the lowercased search is in its lowercased name or email, and only loaded users are shown |
| UserList.ShownInLoadedOrder | FrontEnd/src/Pages/UserList.tsx:16 | the shown list is an order-preserving subsequence of the data |
| UserList.EmptySearchShowsAll | FrontEnd/src/Pages/UserList.tsx:16 | an empty search shows every user |
| UserList.NoDataShowsNothing | FrontEnd/src/Pages/UserList.tsx:16 | without data the list is empty |
| UserList.FilteredUsers | FrontEnd/src/Pages/UserList.tsx:16 | the shown users; stated by the three lemmas above |
| UserList.Page.constructor | FrontEnd/src/Pages/UserList.tsx:10-12 | the form is hidden, nothing is edited and nothing was requested |
| UserList.Page.OpenCreate | FrontEnd/src/Pages/UserList.tsx:39 | the create form is shown; nothing else changes |
| UserList.Page.Edit | FrontEnd/src/Pages/UserList.tsx:22 | the given user becomes the one being edited; nothing else changes |
| UserList.Page.CreateOrUpdate | FrontEnd/src/Pages/UserList.tsx:24-32 | with no user being edited, the create mutation gets the data and, when it resolves, the form is hidden. While editing, it throws a ReferenceError and changes nothing. |
| UserList.Page.Delete | FrontEnd/src/Pages/UserList.tsx:18-20 | a delete is requested only when confirmed |
| App.VisibleIffNameMatches | FrontEnd/src/App.js:46 | a workflow is listed exactly when its lowercased name contains the lowercased query, in the original order |
| App.EmptyQueryListsAll | FrontEnd/src/App.js:46 | an empty query lists every workflow |
| App.VisibleWorkflows | FrontEnd/src/App.js:46 | the listed workflows; stated by App.VisibleIffNameMatches and App.EmptyQueryListsAll |
| App.RunEnabledIff | FrontEnd/src/App.js:47 | a Run button is enabled exactly for the selected row, with a non-empty id, when nothing loads |
| App.RunEnabled | FrontEnd/src/App.js:47 | `!selectedId \|\| selectedId !== wf.id \|\| loading` negated; stated by App.RunEnabledIff |
| App.CreateEnabled | FrontEnd/src/App.js:45 | `loading \|\| !name` negated: create is enabled for a non-empty name while nothing loads |
| App.Page.constructor | FrontEnd/src/App.js:9-12 | empty name, no selection, nothing created or executed |
| App.Page.SetName | FrontEnd/src/App.js:45 | the name field becomes the typed text; nothing else changes |
| App.Page.Select | FrontEnd/src/App.js:47 | the chosen workflow becomes selected; nothing else changes |
| App.Page.HandleCreate | FrontEnd/src/App.js:18-22 | `createWorkflow(name)` only for a non-empty name; the name is cleared either way |
| App.Page.HandleExecute | FrontEnd/src/App.js:23-29 | nothing without a selection; otherwise the selected workflow runs on `{sample: 'input'}` |
| NavMenu.Menu.constructor | FrontEnd/src/hooks/useNavMenu.ts:4 | the menu starts closed |
| NavMenu.Menu.ToggleMenu | FrontEnd/src/hooks/useNavMenu.ts:7 | `isOpen` is negated |
| NavMenu.Menu.CloseMenu | FrontEnd/src/hooks/useNavMenu.ts:8 | `isOpen` becomes false |
| NavMenu.ToggleTwiceCloseIdempotent | FrontEnd/src/hooks/useNavMenu.ts:7-8 | two toggles restore the state; closing twice equals closing once |
| NavMenu.TogglesOnly | FrontEnd/src/hooks/useNavMenu.ts:7 | without a close, the menu is open exactly when the start state and the toggle count's parity differ |
| NavMenu.CloseForgetsHistory | FrontEnd/src/hooks/useNavMenu.ts:8 | after a close the earlier history no longer matters |
| NavMenu.Apply | FrontEnd/src/hooks/useNavMenu.ts:7-8 | the state after a sequence of toggles and closes; stated by the three lemmas above and kept by NavMenu.Menu's invariant |

The middleware is commented as reading a `Bearer <token>` header (BackEnd/src/middleware/auth.ts:12). The code takes the second space-separated field of any Authorization header and never checks the scheme word, and the model follows the code (Auth.TokenOfHeader). The shared type at BackEnd/src/types/index.ts:3 lists four node types without `web3`. Both executors still dispatch on `web3` and on any other text, so the model's node kind covers every text.

## Left out

- Redis, BullMQ and the queue processor (BackEnd/src/engine/executor.ts:6-7 and 62-66, BackEnd/src/engine/executor.js:10-11 and 57-63) are external and asynchronous. The queue is a sequence of added jobs, and job delivery, job ids and the `console.log` are not modelled.
- The OpenAI client is a foreign call. `Env.complete` is a parameter returning the first choice's content, or the message of an error it throws. The model name is passed along as a constant.
- `new Date().toISOString()` is nondeterministic. It is the parameter `clock(step)`.
- `JSON.stringify` of the input is the uninterpreted parameter `Env.stringify`.
- `String.prototype.replace`'s `$` patterns in the replacement text are not modelled; the stringified input is inserted literally.
- Numbers in node data and canvas positions are integers. Fractional numbers, NaN and `-0` are not modelled in truthiness or in `String(v)`. For positions, which are fractional after a drag, this leaves the ordering by y unchanged.
- Lengths count Unicode scalar values, not UTF-16 code units. `toLowerCase` is ASCII case folding.
- Zod's email regex is a library check. Whether the email passes is a parameter (`FormInput.emailOk`).
- `setInterval`, `setTimeout` and object URLs are timers and rendering. Their firings are the events `Tick` and `ResetFires` of `UserForm.Upload`; the preview URL effect is not modelled.
- The Supabase queries of the user routes are modelled as `Query` values answered by a `db` parameter. Ordering by `created_at` and the selected columns are not interpreted.
- `req.user` keeps only `id`, `email` and `role`. The other fields spread from the auth service's user are left out.
- The routes' reply writes are modelled as the one `Response` each handler produces, not as an exchange object.
- NodeOrder.SortInPlace: only a permutation is promised when the comparator does not agree with the key on the input. This is the compiled comparator on a list where some node lacks a position, for which ECMAScript leaves the resulting order implementation-defined (NodeOrder.CompiledIncompleteWithoutPosition, NodeOrder.OnlyPermutationWhenIncomplete). For consistent comparators the stable insertion sort gives the same order as any stable sort (NodeOrder.SortedStableUnique), so it stands in for the engine's TimSort.
- ExecutorJs.Execute: inherits the limit above. With missing positions only the permutation is stated, so the order the nodes run in, and with it which outputs are written before a failure, is not fixed by the contract. The engine's TimSort may run them in another order than the insertion sort does.
- Users.Handle: the `DbReply` of a delete is read only for success or error. Returned rows of a delete are ignored, as the source does.
- React rendering, `useState` initial-value semantics, `useNodesState`/`useEdgesState` editing, drag-and-drop and animations are presentation. Only the values and handlers above are modelled.
- UserList's update path is not modelled as working. It calls `updateMutation`, which the component never destructures (FrontEnd/src/Pages/UserList.tsx:9, 26), so that path throws a ReferenceError.
- The fetch-based hooks, `AuthContext`, the workflow and menu routes, the Supabase model functions and the presentation-only components are library plumbing or markup. They are not part of this model.
