# Verified model of GenOS

GenOS is a self-hosted agent platform: an MCP Hub that federates tools for authenticated principals, a
resident agent with a work queue, a Kanban board, a credential store, a device-authorization poller, a
command-line-tool updater, an installer and a backup/restore/update lifecycle.  This project models the
parts of it that are protocols, transformations or state machines, and proves what they promise.
`dafny verify dfyconfig.toml` checks the whole project.

## What is modelled

**The Hub's wire code.**  `Utf8`, `Base64` (sections 3.5 and 4 of RFC 4648) and `HeaderCodec` model the
header codec whose halves live in two files.  `Json`, `Schema`, `SchemaEval` and `SchemaBound` model tool
schemas: the removal of routing annotations, an evaluator for the keywords the code walks, and the bounds;
`SchemaKeywords` states what each keyword means to that evaluator, one law per keyword (sections 10 and 11 of
JSON Schema Core, draft 2020-12).
`HeaderMirror` and `ParameterHeaders` model the annotation walk (header names are tokens, section 5.6.2 of
RFC 9110) and the mirrored headers.  `Sse` models the streaming reader of server-sent events beside the
batch parser.  It follows the code where the code departs from sections 9.2.5 and 9.2.6 of the WHATWG HTML
standard: an unfinished event is dispatched at the end of the stream, and a `data` line without a colon is
ignored.  `SseMessages` says in terms of message fields and rendered events what that reader returns.

**The Hub's state.**  `Continuations` is the bounded, expiring, single-use table; `RateLimit` the sliding
window; `ToolNames` the namespace that listing and routing must agree on; `SchemaCache` paging, the choice
of tools and the per-credential cache; `ToolSchemas` what the checks before the cache guarantee to later calls;
`HubCalls` puts limiter, grant, routing, continuation, audit row and execution together, and ties its history to
a run of the limiter and a run of the continuation table.

**The single agent and the board.**  `AgentWork` interleaves any number of submitters with one worker, one
file operation per step, with crashes between any two.  `Kanban` interleaves owner transitions and agent
ticks; event rows may land late, out of order, or never.

**Lifecycle, credentials, updates.**  `Lifecycle` models file trees, the database, the release link, and
faults that may strike any step and leave anything behind.  `Credentials` interleaves rotations, disables,
reads and crashes over secret files and one database row.  `DeviceAuth` is the poller of section 3.5 of
RFC 8628 with the interval capped at 120 seconds.  `CliUpdate` and `Install` are the updater's links and the
installer's checkpoints.

Code that changes state is a class whose methods have the loops of the original; each is proved against a
specification function or a step system, and the promises are lemmas about those, over all inputs, runs or
interleavings.  In `AgentWork`, `Kanban` and `Credentials` the ghost fields of the class show that the
undisturbed code is a run of the step system.  Clocks, random values, oracles and faults are parameters.

## What the proofs show about the code

- The header decoder accepts the ten-character `=?base64?=`, in which prefix and suffix overlap, as a second
  form of the empty string (`HeaderCodec.OverlapReadsAsEmpty`); all other sentinel headers are canonical.
  A sentinel with a non-ASCII body is answered as an invalid request instead of a header mismatch.
- An annotated schema node whose `type` is a list or an object raises TypeError inside the walk, which the
  listing does not catch (`HeaderMirror.AnnotationWalk.VisitNode`); a tool name with a lone surrogate likewise
  ends the whole listing (`SchemaCache.SelectTools`).
- The listing can contain tools that the transport refuses: the client bounds the remote name to 160 bytes,
  the transport the full name (`ToolNames.ListedReachable` gives the exact condition).
- The compensation in `agent_tick` releases the claim but leaves the queue file
  (`AgentWork.CompensationBreaksClaim`), and a worker crash between unlink and release holds the claim for ever
  (`AgentWork.CrashBlocksForEver`).
- A restore that fails rolls back everything but entries named `backups`, which it deletes at every depth
  (`Lifecycle.RollbackKeeps`); an update without a resolvable previous release reports that it was restored
  although the new release stays current (`Lifecycle.LifecycleService.Update`).  Its backup holds no secrets, so
  the way back leaves the secrets as the started release left them.
- A provider poll can start at or after expiry: `poll` looks at the clock twice before the request and not
  again, so the request is late exactly when a live and due session expires before it starts
  (`DeviceAuth.GoogleDriveDeviceAuthService.Poll`, `DeviceAuth.LatePollHappens`).
- Rotations to the same secret that overlap on one revision, or a fault behind the commit, delete the file of
  the active revision (`Credentials.EqualMaterialsLoseFile`, `Credentials.LateFaultLosesFile`), and nothing else
  does (`Credentials.CarefulExactly`).  A secret may come back later.
- A finished card, or one that waits for the agent, is passed over for as long as 200 older cards share its
  status, whatever those wait for (`Kanban.IdleExactly`).
- An upstream page whose `cacheScope` is a list or an object ends the whole listing of the Hub with a TypeError
  (`SchemaCache.CollectPages`).
- An older command-line tool is installed over a newer one whose version cannot be read
  (`CliUpdate.DowngradeHappens`, and exactly then: `CliUpdate.DowngradedExactly`), and an installer object reused after a lost checkpoint would skip a step
  (`Install.ReusedObjectSkips`).

## Model

| member | source | states |
|---|---|---|
| HeaderCodec.RoundTrip | src/genos/mcp_hub.py:1008-1014 | encoding a value and decoding the header gives the value back, for every value that has a UTF-8 form: empty, spaced, non-ASCII, or looking like the sentinel itself |
| HeaderCodec.EncodeDefined | src/genos/mcp_hub.py:1008-1014 | the encoder fails exactly on values with lone surrogates |
| HeaderCodec.EncodeIsSafe | src/genos/mcp_hub.py:1008-1014 | every encoder output is non-empty printable ASCII without edge spaces |
| HeaderCodec.EncodeInjective | src/genos/mcp_hub.py:1008-1014 | two values never share a header |
| HeaderCodec.SentinelAccepted | src/genos/mcp_transport.py:377-391 | the decoder reads a sentinel header as a value exactly when it is the encoder's canonical base64 of that value, or the ten-character overlap and the value is empty |
| HeaderCodec.OverlapReadsAsEmpty | src/genos/mcp_transport.py:377-391 | the overlap `=?base64?=` is a second header for the empty string, so the decoder is not injective |
| HeaderCodec.NameCheck | src/genos/mcp_transport.py:129-130 | a header passes the name check exactly when it is the plain name or the canonical sentinel of the name |
| HeaderCodec.EncodedForm | src/genos/mcp_hub.py:1008-1014 | a presentable value that does not look wrapped is sent as it is, every other one as `=?base64?`, its base64 and `?=` |
| HeaderCodec.PlainAccepted | src/genos/mcp_transport.py:389-391 | a header that does not look wrapped is read as itself exactly when it is printable ASCII without edge spaces, and is never an invalid request |
| HeaderCodec.NonAsciiBody | src/genos/mcp_transport.py:380-388 | a wrapped header is an invalid request exactly when it is not ASCII |
| HeaderCodec.StripCuts | src/genos/mcp_transport.py:389 | stripping cuts the spaces off both ends and nothing else |
| HeaderCodec.SpacesWrittenOut | src/genos/mcp_transport.py:389 | the 27 characters that Python strips, written out |
| Base64.DecodeEncode | src/genos/mcp_transport.py:384-385 | base64 decoding undoes encoding, for every byte string |
| Base64.EncodeIsGraphic | src/genos/mcp_hub.py:1013-1014 | base64 text is graphic ASCII |
| Base64.Alphabet | src/genos/mcp_hub.py:1013 | the digits are those of RFC 4648, and reading a digit is the inverse of writing it |
| Base64.Vectors | src/genos/mcp_hub.py:1013 | the padded and unpadded encodings of the test vectors of RFC 4648 |
| Base64.DecodesAlphabet | src/genos/mcp_transport.py:384 | decoded text holds nothing but digits and padding |
| Utf8.DecodeEncode | src/genos/mcp_transport.py:387 | strict UTF-8 decoding undoes encoding for every text without surrogates |
| Utf8.EncodeDecode | src/genos/mcp_transport.py:387 | the strict decoder accepts only the encoder's own output |
| Schema.StripIdempotent | src/genos/mcp_hub.py:954-973 | stripping annotations twice is stripping once |
| Schema.StripKeepsNames | src/genos/mcp_hub.py:954-973 | a property, definition or pattern merely named like the annotation stays, with its own schema stripped |
| Schema.StripLeavesNoMark | src/genos/mcp_hub.py:839-854 | stripping keeps every address that the schema walks visit, strips each node, and leaves no annotation at any of them |
| Schema.Keywords | src/genos/mcp_hub.py:816-836 | which keywords hold a map of schemas, one schema or a list of schemas |
| SchemaKeywords.AdditionalProperties | src/genos/mcp_hub.py:758-762 | validation takes `additionalProperties` to judge exactly the members that no name and no pattern covers |
| SchemaKeywords.Contains | src/genos/mcp_hub.py:758-762 | `contains` counts the items it accepts against `minContains`, by default 1, and `maxContains` |
| SchemaKeywords.OneOf | src/genos/mcp_hub.py:758-762 | `oneOf` wants one schema that accepts and no other |
| SchemaKeywords.IfThenElse | src/genos/mcp_hub.py:758-762 | the condition selects the branch that judges; a missing branch accepts |
| SchemaKeywords.UnevaluatedProperties | src/genos/mcp_hub.py:758-762 | `unevaluatedProperties` judges exactly the members that the schemas beside it left unevaluated |
| SchemaKeywords.UnevaluatedItems | src/genos/mcp_hub.py:758-762 | `unevaluatedItems` judges exactly the items that the schemas beside it left unevaluated |
| SchemaKeywords.ListMember | src/genos/mcp_hub.py:758-762 | of a list of schemas those that accept pass on the members they evaluated |
| SchemaKeywords.BranchMember | src/genos/mcp_hub.py:758-762 | the condition, when it holds, and the branch taken pass on the members they evaluated |
| SchemaEval.StripPreservesValidation | src/genos/mcp_hub.py:168-187 | the advertised schema gives every instance the same verdict as the enforced one, including the members and items that count as evaluated |
| SchemaBound.BoundSchema | src/genos/mcp_hub.py:786-803 | the walk with its shared counter passes exactly the schemas whose addresses are at most 64 deep and at most 4096 in number |
| SchemaBound.BoundWalk.Walk | src/genos/mcp_hub.py:789-801 | below one node: each address is counted once, and a refusal means an address too deep or too many addresses |
| Schema.SchemaChildren | src/genos/mcp_hub.py:839-854 | the children of a schema outside the excluded keywords, each reached by exactly one step |
| SchemaBound.RefusedNotBounded | src/genos/mcp_hub.py:792-793 | too deep or too many addresses is never within the bound |
| SchemaBound.StripKeepsBound | src/genos/mcp_hub.py:786-803 | the advertised schema is within the bounds exactly when the enforced one is |
| HeaderMirror.AnnotationWalk.Walk | src/genos/mcp_hub.py:913-951 | the walk succeeds exactly on schemas whose annotations are well placed, typed and distinct, and then appends exactly their annotations; TypeError means that a type is unhashable, ValueError that something else is wrong |
| HeaderMirror.AcceptableTyped | src/genos/mcp_hub.py:920-934 | an accepted schema has no unhashable type at an annotated node, wherever the walk comes |
| HeaderMirror.AnnotationWalk.VisitNode | src/genos/mcp_hub.py:920-934 | one annotated node: when it is accepted, and when its unhashable `type` raises TypeError instead of ValueError |
| HeaderMirror.PathsDistinct | src/genos/mcp_hub.py:913-951 | two annotations with the same path are one annotation |
| HeaderMirror.UnreachableHasNone | src/genos/mcp_hub.py:939-948 | an accepted schema has no annotation outside chains of `properties` |
| HeaderMirror.StrippedHasNone | src/genos/mcp_hub.py:954-973 | the walk finds no annotation in a stripped schema |
| HeaderMirror.StrippedStaysAcceptable | src/genos/mcp_hub.py:954-973 | what the walk accepts it still accepts once stripped |
| HeaderMirror.NamesWrittenOut | src/genos/mcp_hub.py:814 | the characters of a header name, and which `type` names which declared type |
| HeaderMirror.FoldsAlike | src/genos/mcp_hub.py:929-933 | two names clash exactly when they differ at most in the case of ASCII letters |
| ParameterHeaders.HeaderAnnotations | src/genos/mcp_hub.py:913-951 | the list has each annotation once, with pairwise distinct paths and pairwise distinct names ignoring case |
| ParameterHeaders.ParameterHeaders | src/genos/mcp_hub.py:976-1005 | exactly one header per annotation whose path leads to a non-null argument, no other header, each decoding to that argument's text; and exactly when this succeeds |
| ParameterHeaders.MirrorOne | src/genos/mcp_hub.py:978-1004 | one annotation: skipped, refused with its own error or mirrored |
| ParameterHeaders.Follow | src/genos/mcp_hub.py:979-985 | following a path through the arguments |
| ParameterHeaders.TextForms | src/genos/mcp_hub.py:987-1003 | the text of strings, of true and false, and of integers up to 9007199254740991 either way; nothing else has one |
| ParameterHeaders.DigitsStand | src/genos/mcp_hub.py:999 | the decimal digits of a number stand for it, without a leading zero |
| Sse.ReadSseResponse | src/genos/mcp_hub.py:1115-1163 | the streaming reader computes the recursive reading of the stream; the bytes still allowed decrease at every turn |
| Sse.ReturnsFirstAnswer | src/genos/mcp_hub.py:1115-1163 | when CR stands only before LF, a normal return never consumes past the limit, and its message is the first answer among the batch event blocks of the bytes consumed, and of the whole stream when that is text |
| Sse.ReaderRefinesBatch | src/genos/mcp_hub.py:1115-1191 | on a text stream below the limit and in time, the streaming reader returns exactly what the batch event blocks determine, errors included |
| Sse.DecodeSseMessages | src/genos/mcp_hub.py:1169-1191 | the batch parser returns the decoded event blocks in order, or the first error |
| Sse.AnswerAmongMessages | src/genos/mcp_hub.py:1169-1191 | a returned answer is one of the batch messages, and no message before it matches |
| Sse.FirstAnswerIsFirst | src/genos/mcp_hub.py:1143-1158 | all event blocks before the answer pass unmatched |
| Sse.LineIsWhole | src/genos/mcp_hub.py:1130-1133 | a line that the limit did not cut is whole: the reader never parses a truncated line |
| Sse.LineOfText | src/genos/mcp_hub.py:1142-1146 | cutting a line and decoding it commute, for LF and CR LF ends |
| SseMessages.AnswerFields | src/genos/mcp_hub.py:1150-1157 | an event answers exactly when it is an object with the id of the request, version 2.0, one of result and error, and no method |
| SseMessages.PassFields | src/genos/mcp_hub.py:1150-1157 | an event is passed over exactly when it is an object without both result and error that is a notification, another request's response, or no response |
| SseMessages.RejectFields | src/genos/mcp_hub.py:1098-1112 | which messages are refused, with which error |
| SseMessages.ReturnedAnswersRequest | src/genos/mcp_hub.py:1115-1163 | whatever bytes arrive, a returned message has the request's id, version 2.0 and one of result and error |
| SseMessages.FirstResponseReturned | src/genos/mcp_hub.py:1150-1157 | the first block that answers the request is returned when all blocks before it are valid messages of others |
| SseMessages.ResponseReceived | src/genos/mcp_hub.py:1115-1163 | events rendered by a server, in time and below the limit, are understood: the first response to the request is returned |
| SseMessages.RenderedEvents | src/genos/mcp_hub.py:1169-1191 | parsing rendered events gives them back, each once and in order, an unfinished last one included |
| SseMessages.DataLine | src/genos/mcp_hub.py:1160-1162 | a data line carries what stands behind the colon, without one leading space |
| SseMessages.OtherLine | src/genos/mcp_hub.py:1158-1162 | other fields, comments and lines without a colon carry nothing |
| SseMessages.JoinSplits | src/genos/mcp_hub.py:1150 | the data of an event is its lines, joined by line feeds |
| SseMessages.LoneCr | src/genos/mcp_hub.py:1176 | the batch parser ends a line at a lone CR too |
| Continuations.ContinuationTable.Store | src/genos/mcp_hub.py:639-666 | storing drops expired entries, evicts the first earliest-expiring one when full, and appends the new one |
| Continuations.ContinuationTable.Take | src/genos/mcp_hub.py:668-695 | taking delivers and deletes, or deletes an expired entry, or leaves the table alone |
| Continuations.ContinuationTable.Oldest | src/genos/mcp_hub.py:663-664 | the key that `min` selects: the first of those expiring earliest |
| Continuations.EvictsEarliest | src/genos/mcp_hub.py:662-664 | eviction removes exactly one entry, and none that stays expires earlier |
| Continuations.Bounded | src/genos/mcp_hub.py:658-666 | in every run the table holds at most 4096 entries, with distinct handles, in order of expiry |
| Continuations.DeliveredSafely | src/genos/mcp_hub.py:668-695 | a delivered state was stored under this handle by the same principal, for the same upstream, tool and arguments, less than 300 seconds before, and was not delivered since |
| Continuations.DeliveredOnce | src/genos/mcp_hub.py:682-694 | no handle delivers twice |
| Continuations.DeliveredWhenDue | src/genos/mcp_hub.py:668-695 | the owner gets the state whatever others tried in between, unless it was delivered, has expired, or 4096 continuations were stored after it |
| Continuations.Replay | src/genos/mcp_hub.py:639-695 | every sequence of calls has its history |
| Continuations.PlausibleExactly | src/genos/mcp_hub.py:639-695 | what the run theorems ask for: readings of the clock in order, and handles that are new when they are made |
| RateLimit.WindowIsHistory | src/genos/mcp_hub.py:628-637 | with an ordered clock the pruned deque equals the granted history cut to the last 60 seconds |
| RateLimit.PruneIsRecent | src/genos/mcp_hub.py:632-633 | on an ordered history pruning keeps exactly the part behind the cutoff |
| RateLimit.GrantedSpaced | src/genos/mcp_hub.py:628-637 | the call `limit` places later starts at least 60 seconds after |
| RateLimit.AtMostLimitPerMinute | src/genos/mcp_hub.py:628-637 | no half-open minute, closed on either side, holds more than the limit of granted calls of one principal |
| RateLimit.RefusedOnlyWhenFull | src/genos/mcp_hub.py:634-635 | a refused call finds the limit used up within the last minute |
| HubCalls.Hub.constructor | src/genos/mcp_hub.py:343-354 | the configured limit is clamped to 1..10000 |
| HubCalls.Hub.ConsumeToolRateLimit | src/genos/mcp_hub.py:628-637 | the loop over the deque grants exactly below the limit and keeps the other deques |
| HubCalls.Hub.CallTool | src/genos/mcp_hub.py:424-541 | for every call the outcome, the audit rows, whether, what and with which state it executes, and the continuation table it leaves: taken from, stored to, or untouched; the history grows by this call and stays the run that made the table |
| HubCalls.Hub.RunLocal | src/genos/mcp_hub.py:444-468 | a local tool runs once, directly behind its DISPATCH row |
| HubCalls.Hub.RunRemote | src/genos/mcp_hub.py:478-528 | a federated call takes its continuation first, runs at most once behind its DISPATCH row, passes on the taken state, and stores the new one |
| HubCalls.HistoryGrows | src/genos/mcp_hub.py:424-468 | every finished call keeps the history sound: only granted calls execute, at most once, behind their own DISPATCH row |
| HubCalls.ExecutionsBounded | src/genos/mcp_hub.py:424-509 | in every history with an ordered clock no half-open minute sees more executions for a principal than the limit |
| HubCalls.AnswerRight | src/genos/mcp_hub.py:437-509 | a granted call executes exactly when it is routable, audited and not stopped by a continuation, the secret or the client, behind its own DISPATCH row, with the state taken for it |
| HubCalls.StateUsedOnce | src/genos/mcp_hub.py:482-509 | in every history no two calls execute with the state of one handle |
| HubCalls.StateComesFrom | src/genos/mcp_hub.py:482-520 | a state that a call forwards came back from an earlier call of the same caller, under the handle named, less than 300 seconds before |
| HubCalls.NextCallHonoured | src/genos/mcp_hub.py:482-520 | the handle that a reply carries is honoured when its caller names it in the next call within 300 seconds |
| ToolNames.NormalizeScopes | src/genos/mcp_store.py:284-294 | scopes are accepted exactly when at most 256 and all of the scope shape; each is kept once, stripped, in order |
| ToolNames.ScopeAllows | src/genos/mcp_store.py:297-303 | the loop finds a granting scope exactly when there is one |
| ToolNames.ListTools | src/genos/mcp_hub.py:386-422 | the listing holds exactly the local and remote tools the loops let through, without repetition, in order of their names |
| Sorting.SortSorts | src/genos/mcp_store.py:284-294 | sorting puts the keys in order and keeps each element as often as it was |
| ToolNames.ListedExactly | src/genos/mcp_hub.py:386-477 | the listing holds exactly the offered tools that `call_tool` grants and routes back to the same upstream and remote name |
| ToolNames.DistinctNames | src/genos/mcp_hub.py:386-422 | listed names are pairwise distinct |
| ToolNames.PrefilterDropsNothing | src/genos/mcp_hub.py:391-394 | the namespace pre-filter drops no upstream from which a normalized scope allows a tool |
| ToolNames.ResolvesBack | src/genos/mcp_hub.py:470-477 | first-dot splitting of a full name leads back to its upstream and remote name |
| ToolNames.WildcardScope | src/genos/mcp_store.py:297-303 | a wildcard scope grants the names of exactly one namespace |
| ToolNames.ListedReachable | src/genos/mcp_transport.py:119-130 | a listed remote tool can be called exactly when its full name has at most 160 bytes and no NUL |
| ToolNames.ShapesWrittenOut | src/genos/mcp_store.py:35-36 | the shapes of namespaces and scopes, character by character |
| ToolNames.GrantsWrittenOut | src/genos/mcp_store.py:297-303 | a scope grants its own name, and `head.*` grants what begins with `head.` |
| ToolNames.RoutesWrittenOut | src/genos/mcp_hub.py:470-477 | which names are local, unknown, of an unknown namespace, or a remote name of which upstream |
| SchemaCache.CollectPages | src/genos/mcp_hub.py:99-136 | paging succeeds exactly on a complete listing of at most 16 pages and 512 tools, of one scope and without repeated cursors, and returns all tools with the shortest lifetime; an uncaught TypeError escapes exactly when a page it asks for has an unhashable cacheScope |
| SchemaCache.SelectTools | src/genos/mcp_hub.py:141-176 | the tool loop fails exactly on a breaking tool or a repeated name, with the error of the one it meets first, and otherwise keeps the fitting tools in order, stripped for clients |
| SchemaCache.ShortestLifetime | src/genos/mcp_hub.py:138 | the lifetime of a listing is that of one of its pages, and of no page shorter |
| SchemaCache.AdvertisedNames | src/genos/mcp_hub.py:146-164 | advertised names are distinct, non-empty and at most 160 bytes |
| SchemaCache.UpstreamClient.ListTools | src/genos/mcp_hub.py:99-188 | it succeeds exactly on a complete listing whose tools can be selected; an error leaves the cache alone; a success installs this listing, bounded to 300 seconds, in place of all entries of the upstream |
| SchemaCache.UpstreamClient.Install | src/genos/mcp_hub.py:177-187 | the cache is again exactly the most recent listing of every upstream |
| SchemaCache.UpstreamClient.CachedSchema | src/genos/mcp_hub.py:236-255 | a lookup finds a schema exactly when the most recent listing has it, is public or was fetched with this credential, and has not expired or staleness is allowed |
| SchemaCache.UpstreamClient.SchemaForCall | src/genos/mcp_hub.py:201-206 | a call uses a schema of the most recent listing: unexpired, or installed by this very call |
| SchemaCache.ExpectedAfter | src/genos/mcp_hub.py:179-187 | what installing one listing changes for each cache key |
| ToolSchemas.CheckSchema | src/genos/mcp_hub.py:154-157 | a schema passes exactly when it is within the bounds, the meta-schema accepts it and its annotations are acceptable; the TypeError that escapes comes only from a bounded, otherwise valid document with an unhashable type at an annotated node, and always when nothing but such types is wrong with its annotations |
| ToolSchemas.FoundIsAdmitted | src/genos/mcp_hub.py:236-255 | every schema a lookup finds passed these checks, and the listing it comes from advertised it stripped |
| ToolSchemas.AdvertisedEqualsEnforced | src/genos/mcp_hub.py:168-187 | the advertised schema is within the same bounds, has no annotation left, and gives all arguments the verdict of the enforced one |
| ToolSchemas.PrepareCall | src/genos/mcp_hub.py:190-213 | a call judges its arguments exactly as the advertised schema of the latest listing does, never fails in the annotation walk, and otherwise has the headers that mirror the arguments exactly when all of them can be sent |
| AgentWork.SingleAgentWork | src/genos/agent_secure_runtime.py:192-217 | in every run without the compensation: at most one queued task, only under its own claim; the worker's release meets its own claim; no accepted prompt is lost |
| AgentWork.Reachable | src/genos/agent_runtime.py:240-280 | the claim invariant holds after every interleaving of submitters, worker and crashes |
| AgentWork.ResultFirst | src/genos/agent_secure_runtime.py:212-216 | a queue file with a prompt goes only after its result is there |
| AgentWork.ResultsHavePrompts | src/genos/agent_secure_runtime.py:192-217 | results exist only for accepted prompts that are not empty |
| AgentWork.StepsInOrder | src/genos/agent_runtime.py:240-280 | when each step of submitters and worker can happen |
| AgentWork.CrashBlocksForEver | src/genos/agent_secure_runtime.py:216-217 | after a crash between unlink and release the claim stays held and no further claim is created |
| AgentWork.StuckRun | src/genos/agent_secure_runtime.py:192-217 | such a crash is reachable |
| AgentWork.CompensationBreaksClaim | src/genos/kanban.py:155-157 | with the compensation two tasks can be queued at once and the worker's release can meet a foreign claim |
| AgentWork.AgentRuntimeStore.ClaimWork | src/genos/agent_runtime.py:240-256 | claiming succeeds exactly when no claim exists and the payload can be written; it is a run of the step system |
| AgentWork.AgentRuntimeStore.ReleaseWork | src/genos/agent_runtime.py:258-264 | releasing removes the claim exactly when it names the task, and reports a foreign one |
| AgentWork.AgentRuntimeStore.QueueTask | src/genos/agent_runtime.py:266-280 | a task is queued under its claim, or no file changes |
| AgentWork.AgentRuntimeStore.WorkerTurn | src/genos/agent_secure_runtime.py:192-217 | one undisturbed turn ends a queued task with a result, unless its prompt is empty, and with the claim released |
| Kanban.CardHistory | src/genos/kanban.py:19-72 | in every interleaving the statuses of a card form a walk from BACKLOG along TRANSITIONS; its STATUS_CHANGED rows, landed or in flight, are exactly the steps of that walk and balance as a trail |
| Kanban.DoneAbsorbs | src/genos/kanban.py:19-28 | DONE ends a walk and is entered only from VERIFY |
| Kanban.DoneStays | src/genos/kanban_store.py:201-215 | a DONE card stays DONE whatever happens next |
| Kanban.Balanced | src/genos/kanban_store.py:201-215 | departures minus arrivals of each status are one at the start, minus one at the end, zero elsewhere |
| Kanban.EndDetermined | src/genos/kanban_store.py:201-215 | the unordered rows determine the current status |
| Kanban.SwapKeeps | src/genos/kanban_store.py:201-209 | a compare-and-swap along an edge keeps the card invariant, whether or not it hits |
| Kanban.RecordKeeps | src/genos/kanban_store.py:214 | an event row that lands late keeps the balance of rows |
| Kanban.KanbanSystem.Swap | src/genos/kanban_store.py:201-215 | the compare-and-swap and its event row, each outcome |
| Kanban.KanbanSystem.Transition | src/genos/kanban.py:65-72 | an owner transition is taken exactly along an edge and moves only that card |
| Kanban.KanbanSystem.AgentTick | src/genos/kanban.py:83-159 | a tick moves at most one card: the first listed PROCESS card with a result, to VERIFY or FAILED; without one and without a claim, the first listed BACKLOG card of the agent, to PROCESS |
| Kanban.SeenExactly | src/genos/kanban_store.py:181-199 | a tick lists a card exactly when fewer than 200 older cards share its status |
| Kanban.IdleExactly | src/genos/kanban.py:83-159 | a tick is idle exactly when there is no claim and no card in reach of the listings has a result or waits for the agent |
| Kanban.ResultFirst | src/genos/kanban.py:85-133 | the first listed PROCESS card with a result is applied, whatever the claim and the backlog say |
| Kanban.ClaimNext | src/genos/kanban.py:135-136 | without a result in reach a claim means busy |
| Kanban.BacklogNext | src/genos/kanban.py:138-159 | without a result and a claim the first listed BACKLOG card of the agent is tried |
| Kanban.EdgesWrittenOut | src/genos/kanban.py:19-28 | the edges of TRANSITIONS, one by one |
| Kanban.ListedGrows | src/genos/kanban_store.py:181-199 | a listing is extended by the next card of its status until it holds 200 |
| Kanban.KanbanSystem.CreateCard | src/genos/kanban_store.py:136-162 | a card starts in BACKLOG, assigned to the agent or not |
| Lifecycle.BackupRestore | src/genos/lifecycle_hardened.py:40-72 | backup, any mutation, restore: the state outside `backups` and `secrets` and the database are back, and so is the config, which stays as found when there was none; secrets come from the archive exactly when included; backups stay |
| Lifecycle.BackupVerified | src/genos/lifecycle_hardened.py:33-38 | restore accepts a backup exactly when secrets were not asked for or a secrets directory existed |
| Lifecycle.InstanceFound | src/genos/lifecycle.py:529-540 | the identity in the config comes first; one that an uninstall preserved counts only without it |
| Lifecycle.RollbackKeeps | src/genos/lifecycle.py:418-434 | a rolled-back restore keeps every file whose path has no component `backups`, and the config and database |
| Lifecycle.PruneKeepsFiles | src/genos/lifecycle.py:375-382 | the checkpoint holds exactly the files whose path has no component `backups` |
| Lifecycle.LifecycleService.CopyStateSnapshot | src/genos/lifecycle.py:310-324 | the loop copies all entries but `backups`, and `secrets` only when asked |
| Lifecycle.LifecycleService.Backup | src/genos/lifecycle.py:83-123 | the archive is what the host holds; outside `backups` the host is unchanged |
| Lifecycle.BackupAddsOne | src/genos/lifecycle.py:83-123 | a backup adds its own archive and changes no other file |
| Lifecycle.LifecycleService.RestoreFiles | src/genos/lifecycle_hardened.py:40-72 | the loops clear and copy the state, keeping backups and, without archived secrets, the secrets |
| Lifecycle.LifecycleService.Restore | src/genos/lifecycle.py:125-178 | restore succeeds completely, refuses without effect, or rolls back together with all that the started services wrote, for any failing step; and exactly when it succeeds |
| Lifecycle.LifecycleService.Update | src/genos/lifecycle_release.py:22-65 | success means that link, environment file and manifest name the new commit, one backup was added, and everything else, secrets included, is as it was; a restored message means that state, config, database and, given a resolvable previous release, the link were put back, whatever the started release wrote, and that secrets are as that release left them; and exactly which failures lead to which outcome and leave what |
| Lifecycle.LifecycleService.WriteReleaseIdentity | src/genos/lifecycle_release.py:103-142 | on success the environment file and the manifest name the release; nothing else changes in any case |
| Lifecycle.LifecycleService.ReleaseLines | src/genos/lifecycle_release.py:107-117 | every release line is rewritten where it stands, one is added behind the others when there was none, and all other lines stay |
| Lifecycle.NamesOne | src/genos/lifecycle_release.py:107-117 | the rewritten file names this release and no other |
| Credentials.FilesFollowRow | src/genos/auth_service.py:110-160 | in every interleaving in which no two operations overlap on one revision with the same material, and faults come only before the commit: the active revision has the file its fingerprint names, all earlier revisions have files, and it holds the last committed secret |
| Credentials.CarefulExactly | src/genos/auth_service.py:110-160 | the two conditions are exact: behind a run that kept them, the next event keeps them exactly when no continuation that keeps them can lose the file of the active revision |
| Credentials.SecretComesBack | src/genos/auth_service.py:140-160 | rotating away and back to the first secret keeps the conditions |
| Credentials.CommitKeeps | src/genos/product_store.py:268-296 | under these conditions a swap that reaches the database finds its expected revision |
| Credentials.StoreKeeps | src/genos/secret_provider.py:41-59 | storing a revision keeps the invariant, also when the file exists |
| Credentials.DeleteKeeps | src/genos/secret_provider.py:76-83 | the clean-up never deletes a file up to the active revision |
| Credentials.GrantedReadSucceeds | src/genos/auth_service.py:186-201 | a reader that saw the row finds the file of that revision however late it reads |
| Credentials.ReadAcrossRotation | src/genos/auth_service.py:186-201 | a read that began before a rotation still gets the earlier secret after it |
| Credentials.ReaderSeesCommitted | src/genos/auth_service.py:186-201 | what a reader of an active credential gets was committed when it looked |
| Credentials.OrphanBlocks | src/genos/secret_provider.py:51-55 | a file left by a crashed rotation holds the active revision where it is until a rotation to its very secret starts |
| Credentials.OrphanHappens | src/genos/auth_service.py:140-160 | a crash between store and commit leaves such a file |
| Credentials.OrphanAdopted | src/genos/secret_provider.py:51-55 | a rotation to that very secret gets past it |
| Credentials.EqualMaterialsLoseFile | src/genos/auth_service.py:140-160 | two overlapping rotations to the same secret can delete the active revision's file |
| Credentials.LateFaultLosesFile | src/genos/auth_service.py:140-160 | a fault behind the commit deletes the active revision's file |
| Credentials.CredentialService.Add | src/genos/auth_service.py:110-138 | adding stores revision 1 and the row, or leaves no file |
| Credentials.CredentialService.Rotate | src/genos/auth_service.py:140-160 | rotating makes the next revision active and stored, or leaves the row and all files but that revision's as they were |
| Credentials.CredentialService.StoreRevision | src/genos/secret_provider.py:41-59 | an existing file is kept when equal and refused otherwise |
| Credentials.CredentialService.GetSecret | src/genos/auth_service.py:186-201 | a granted read of an active credential returns the last committed secret, under the two conditions; and which error otherwise |
| Credentials.CredentialService.DisableCredential | src/genos/product_store.py:298-308 | disabling changes only the status |
| DeviceAuth.GoogleDriveDeviceAuthService.Poll | src/genos/drive_oauth.py:192-264 | the provider is polled exactly when the session is alive and due at the two readings of the clock, and the poll is late exactly when its request starts at or after expiry all the same; other errors change nothing; a granted token stores one credential and ends the session; whether an error is raised and which status is left is stated for every case; the early hint is at most a millisecond short; the history stays lawful |
| DeviceAuth.GoogleDriveDeviceAuthService.Start | src/genos/drive_oauth.py:162-190 | a session starts exactly for bounded provider values |
| DeviceAuth.GoogleDriveDeviceAuthService.ContinueWaiting | src/genos/drive_oauth.py:272-288 | waiting resumes with the same interval, or five seconds more up to 120, or ends at expiry |
| DeviceAuth.PollKeeps | src/genos/drive_oauth.py:192-222 | a poll keeps the history lawful: patience, back-off and the expiry check |
| DeviceAuth.LatePollHappens | src/genos/drive_oauth.py:192-211 | a late poll is reachable, although both readings of the clock precede expiry |
| DeviceAuth.AtMostOneCredential | src/genos/drive_oauth.py:238-264 | each started session stores at most one credential |
| DeviceAuth.IntervalGrows | src/genos/drive_oauth.py:278-280 | the interval of a session only grows, up to 120 seconds |
| DeviceAuth.RetryIsEnough | src/genos/drive_oauth.py:205-206 | the early-poll hint is at most a millisecond short and less than a second long |
| CliUpdate.AntigravityCliManager.EnsureLatest | src/genos/agent_cli_update.py:117-268 | the update, step by step with its rollback, leaves exactly the store and the outcome of `Latest`, whose properties the next four rows state |
| CliUpdate.LatestKeeps | src/genos/agent_cli_update.py:117-268 | outcomes other than INSTALLED and UPDATED leave both links; a cutover to another directory makes `previous` the old `current`; stored contents stay; the active version does not decrease when it was told and parses |
| CliUpdate.InstalledExactly | src/genos/agent_cli_update.py:117-268 | INSTALLED or UPDATED come exactly when nothing stands in the way of the staged release |
| CliUpdate.OtherOutcomes | src/genos/agent_cli_update.py:124-186 | when an update raises, is deferred or throttled; refused and failed updates change nothing, and a rollback means that a probe failed |
| CliUpdate.DowngradedExactly | src/genos/agent_cli_update.py:169-186 | the active version goes down, in major, minor or patch, exactly when nothing stands in the way of an older release and the running binary does not tell its version |
| CliUpdate.NewerInstalled | src/genos/agent_cli_update.py:166-248 | a release greater in major, minor or patch is installed exactly when it can be stored and both probes pass |
| CliUpdate.OlderRefused | src/genos/agent_cli_update.py:169-184 | a release smaller in that order is refused as CURRENT when the running binary tells its version |
| CliUpdate.AntigravityCliManager.Rollback | src/genos/agent_cli_update.py:270-297 | a successful rollback swaps the links; a failed one puts `current` back if there was one |
| CliUpdate.AntigravityCliManager.StoreCandidate | src/genos/agent_cli_update.py:425-446 | a stored version is kept, an unequal one under its name refused |
| CliUpdate.ContentNeverChanges | src/genos/agent_cli_update.py:425-446 | over any run the content of a stored version never changes |
| CliUpdate.NeverDowngrades | src/genos/agent_cli_update.py:169-186 | over any run of updates whose binaries told parsing versions the active major, minor and patch never decrease in that order |
| CliUpdate.DowngradeHappens | src/genos/agent_cli_update.py:134-186 | when the running binary does not tell its version, an older release is installed over it |
| CliUpdate.RollbackUndoesUpdate | src/genos/agent_cli_update.py:270-297 | one successful rollback undoes an update to another directory |
| CliUpdate.TwoRollbacksCancel | src/genos/agent_cli_update.py:270-297 | two successful rollbacks cancel out exactly when there was a current version |
| Install.NativeProvisioner.Execute | src/genos/install.py:164-206 | another plan's manifest or file stops the install; otherwise it runs exactly the steps behind the recorded prefix up to the first operation that does not end normally, with the outcome, the records and the state on disk that each such ending leaves, and the steps that the object knows as done |
| Install.FineFinishes | src/genos/install.py:177-194 | when every operation works, all steps not recorded yet run in order, all are recorded, and SUCCEEDED is on disk |
| Install.UnfinishedHasCause | src/genos/install.py:177-206 | an install of its own plan that does not finish met an operation that failed |
| Install.NativeProvisioner.RunStep | src/genos/install.py:182-190 | one step and its checkpoint, with every way either can end |
| Install.NativeProvisioner.LoadCompleted | src/genos/install.py:445-447 | exactly the recorded steps count as completed |
| Install.NeverRunAgain | src/genos/install.py:164-206 | over any sequence of installs a recorded step is never run again, the records are a prefix of the plan, and SUCCEEDED means every step passed |
| Install.RecordsGrow | src/genos/install.py:449-469 | over any sequence of installs the recorded prefix only grows |
| Install.ReusedObjectSkips | src/genos/install.py:150-162 | an object reused after a lost checkpoint would skip the step and leave a gap in the records |

## Left out

- Sockets, HTTP handlers, threads and locks: a locked region, an atomic rename and one SQL statement are one step
  each.  A thread that reads the clock before it waits for a lock can hand in readings out of order; the run
  theorems of `Continuations` and `RateLimit` are about ordered readings.
- SQL text, subprocesses, tar, systemd and the network: their outcomes are parameters.
- SHA-256, UUIDs and tokens: hashes are injective, fresh values are required to be fresh.
- Object keys in `Json` are numbers that stand for names, so text that is equal as a name is equal as a key.
- `$ref`, `$dynamicRef` and `$recursiveRef`: schemas are reference-free; `SchemaBound` has no reference check.
- The jsonschema library: `SchemaEval` evaluates the keywords the code walks and takes every other keyword as an
  arbitrary predicate of its value; the meta-schema and the dialect are the parameter `meta` of `ToolSchemas`.
- `str.casefold` in the annotation walk is the folding of ASCII letters, which is all a header token can hold.
- `json.loads` is an arbitrary partial function in `Sse`; the last-match rule of the non-streaming response
  decoder (`src/genos/mcp_hub.py:1081-1095`) is not modelled.
- Audit rows written after an execution, and the health marks of upstreams: they are best-effort and change no
  later decision.
- ToolNames.ListTools: takes the names of each upstream as the client lists them at that moment; an error of one
  upstream is a missing list.
- HubCalls.Hub.CallTool: takes the answer of the local schema check, of the secret store and of the upstream client
  as parameters, because these are the subject of other modules or outside the Hub.
- AgentWork.AgentRuntimeStore.QueueTask: a failed queue write leaves no queue file, as the temporary file is renamed
  last; redaction of prompts is not modelled.
- Runtime status, identity and memory files of the agent, and result payloads beyond their existence.
- Comments, artifacts, Drive mirroring and AGENT_RESULT rows of cards: they do not touch the status.
- Kanban.KanbanSystem.AgentTick: takes the cards in order of creation; a failure while a result is recorded or an
  artifact written ends the tick before the swap, which the step system covers as a crash.
- Progress of the agent and the board: only safety is proved.
- File modes, owners, symbolic links inside backed-up trees, timestamps, and uninstall and purge.
- Lifecycle.LifecycleService.RestoreFiles: archives are taken as `backup` makes them, so without a top-level
  entry `backups`; the original stops with an error when such an entry meets an existing one.
- Lifecycle.LifecycleService.Restore: the database is one value, which a dump restores as a whole; what services
  write after the last step of an operation, so after the health verdict or a rollback, is outside.
- Lifecycle.LifecycleService.Update: extraction checks of the release archive are one step that works or fails.
- Credentials with different ids share nothing, so `Credentials` follows one id; the uniqueness of names is a fault
  of the insert.
- DeviceAuth.GoogleDriveDeviceAuthService.Poll: the shape checks of the token answer are one outcome, `Other`.
- CliUpdate.AntigravityCliManager.EnsureLatest: a throttled check reports the persisted outcome again, which the
  model calls `Throttled`; operating-system errors while links are switched are not modelled.
- Install.NativeProvisioner.Execute: the support gates and the effects of the steps themselves are not modelled.
- Drive and Cloudflare adapters, observability, the CLI, the product API and the user interface.
