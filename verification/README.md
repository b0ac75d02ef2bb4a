# Verification of NInfer's storage, memory and streaming logic

This project models the parts of NInfer where a mistake is hardest to see and proves what they promise. Bytes, text and
integers are mathematical values; threads, power failures and asynchronous copies are explicit steps.

Seven connected pieces are modelled.

- **Tool-call streaming.** An incremental filter decides how much of a model's output may be shown before it is known
  whether a tool call follows. It agrees with the batch parser for every text and every chunking. Before a marker no
  filter could show more (names of at least one character being allowed); after one, another filter could show more exactly
  when no continuation is a tool response any longer. The parser accepts exactly the texts of a declarative grammar, and
  reports the calls they denote. Above it, the Responses and Anthropic event
  encoders are checked against automata of what a client accepts. Two facts about the encoders are exact conditions on the
  engine's deltas: a Responses stream conforms, and no two Anthropic blocks are ever open at once, if and only if no
  reasoning delta comes after content of which something could be shown (`GenerationService.Late`).
- **Paged KV pool.** Promised and mapped pages, a sorted free list, block-table rows, and reservations and resizes over
  several pools. In every reachable state every promise can be kept.
- **Loading an artifact.** Ranges are merged into aligned spans, read through a ring of staging slots and scattered by
  copies that may run at any time. A load succeeds if and only if every read delivers the bytes required of it, and then
  every byte lands once, in its place. `ArtifactRoundTrip` joins writer, reader, binder and loader into one statement.
- **Tensor layouts.** Bit packing, the NVFP4 scale swizzle, row selection, and geometry in unbounded and in checked 64-bit
  integers.
- **Artifact container and migration.** Writer and readers round-trip, whatever the chunking. A writer that refused a
  payload is still right if and only if it had accepted none of that payload's bytes; otherwise a repeated write succeeds
  and the payload is wrong. The in-place migration survives a power failure after any byte, any number of times: nothing
  is lost. It is not always resumed: a run fails if and only if the recovery file is there and incomplete, and then every
  later run refuses too, with the artifact still the original. Any other run finishes if and only if power lasts for the
  effects that are left.
- **Response store.** A bounded LRU whose bytes are counted over shared contexts.
- **Host worker pool.** Every interleaving of workers, producers and destructor: calls are refused only by a stopping pool,
  every other call can be served, accepted tasks run once, and shutdown ends.

`dafny verify dfyconfig.toml` checks the whole project.

## Assumptions about the environment

- JSON encoding and parsing are a pair of functions (`Container.Codec`) of which only what is stated is used: parsing
  undoes encoding, and for the migration no proper prefix of a directory's text parses, nor the text followed by a NUL.
- Digests and the published inventories are a function from a v1 file to its v2 directory (`Migration.Tools`).
- File writes are durable in program order, byte by byte.
- The copy stream is FIFO; an event is reached when all copies before it have run. Copies read their slot when they run.
- A direct read returns file bytes, as many as `supply` says, at most the request and never beyond the end of the file.
- The device arena's base address is a multiple of 256.
- The engine is a list of reasoning and content deltas.

## Model

| member | source | states |
|---|---|---|
| `ToolCallFilter.VisibleSpec` | src/serve/tool_call_parser.cpp:160-194 | the visible part of a text is the right-trimmed text before the first place where a marker may start |
| `ToolCallFilter.VisibleMonotone` | src/serve/tool_call_parser.cpp:160-194 | more input never retracts visible text |
| `ToolCallFilter.LongestSuffixPrefix` | src/serve/tool_call_parser.cpp:42-48 | finds the longest suffix that begins a marker |
| `ToolCallFilter.ScanPending` | src/serve/tool_call_parser.cpp:166-193 | one scan releases exactly the visible part of what is pending and detects the marker |
| `ToolCallFilter.ToolCallStreamFilter.Feed` | src/serve/tool_call_parser.cpp:160-194 | after every chunk the total output is the visible part of everything fed; refused after `finish` |
| `ToolCallFilter.ToolCallStreamFilter.Finish` | src/serve/tool_call_parser.cpp:196-209 | total output is the visible part for a tool response and the whole text otherwise |
| `Text.TrimExact` | src/serve/tool_call_parser.cpp:18-26 | trimming gives the text between leading and trailing white space, and only that |
| `ToolCallParser.ParameterLoop` | src/serve/tool_call_parser.cpp:99-108 | the parameter loop computes the recursive reading of the parameters, rejecting the same texts |
| `ToolCallParser.CallLoop` | src/serve/tool_call_parser.cpp:138-155 | the call loop computes the recursive reading of the calls |
| `ToolCallParser.ParseToolCallOutput` | src/serve/tool_call_parser.cpp:127-158 | the batch parser; a malformed text is returned whole as content |
| `ToolCallGrammar.MeaningDenoted` | src/serve/tool_call_parser.cpp:67-125 | a call has exactly the spelled name and keys, and each value is the raw text of the last parameter with that key, stripped of white space at both ends |
| `ToolCallGrammar.ToolResponseAccepted` | src/serve/tool_call_parser.cpp:67-158 | completeness: a text that spells calls in the grammar parses to exactly those calls, with stripped argument values, and the right-trimmed text before them |
| `ToolCallGrammar.ParserLanguage` | src/serve/tool_call_parser.cpp:67-158 | a text is a tool response if and only if the grammar spells it, and every spelling denotes the content and the calls that are reported |
| `ToolCallTheorems.ContentIsVisible` | src/serve/tool_call_parser.cpp:127-194 | the batch parser's content is the filter's visible part, or the whole text when it is not a tool response, and it reports calls exactly for a tool response |
| `ToolCallTheorems.StreamChunks` | src/serve/tool_call_parser.cpp:127-209 | for every text and every chunking the filter's output is the batch parser's content |
| `ToolCallTheorems.WithheldShape` | src/serve/tool_call_parser.cpp:160-194 | withheld text is a whitespace run and then everything from the first marker on or, without a marker, the longest proper prefix of the marker that ends the text |
| `ToolCallTheorems.CompletionDropsWithheld` | src/serve/tool_call_parser.cpp:127-194 | some continuation makes the parser drop every withheld byte |
| `ToolCallTheorems.VisibleIsOptimal` | src/serve/tool_call_parser.cpp:127-194 | an output is right for all continuations if and only if it is a prefix of the visible part, or of the whole text when no continuation is a tool response; so the filter is as eager as possible if and only if some continuation is one or nothing is withheld, which is always so before a marker if any function name is admissible |
| `ToolCallTheorems.SafeIsOptimal` | src/serve/tool_call_parser.cpp:127-194 | the same for any tags in which a call can be spelled |
| `ToolCallTheorems.RejectedBlock` | src/serve/tool_call_parser.cpp:138-155 | once the first block is closed and is not a call, no continuation is a tool response |
| `ToolCallTheorems.WithheldForNothing` | src/serve/tool_call_parser.cpp:160-194 | such a text, for which all could be shown and the filter shows nothing |
| `ToolCallTheorems.NoNameNoResponse` | src/serve/tool_call_parser.cpp:50-65 | with a name limit of zero no text is a tool response |
| `GenerationService.ServiceOutputSink.Publish` | src/serve/generation_service.cpp:195-205 | the sink's invariant: callbacks carry what the filter released and the byte count is exact |
| `GenerationService.ServiceOutputSink.Finish` | src/serve/generation_service.cpp:207-210 | the reported byte count is the length of all content callbacks |
| `GenerationService.Classify` | src/serve/generation_service.cpp:402-410 | terminal content and calls are those of the batch parser, and the stream ends in the same content |
| `GenerationService.Run` | src/serve/generation_service.cpp:402-414 | content callbacks concatenate to the outcome's text and reasoning callbacks to its reasoning; some reasoning callback follows content if and only if a nonempty reasoning delta came after engine content of which something could be shown |
| `GenerationService.AppendLate` | src/serve/generation_service.cpp:195-205 | when one more delta makes reasoning late |
| `GenerationService.LateExamples` | src/serve/generation_service.cpp:195-205 | `a` then reasoning is late, `<` then reasoning is not: withheld content does not count |
| `GenerationService.NothingUnstreamed` | src/serve/http_server.cpp:97-102 | `streamed content exceeds terminal content` is unreachable, and nothing is left over for a streaming client |
| `ResponsesEvents.SequenceNumbers` | src/serve/responses_schema.cpp:1007-1012 | sequence numbers are 0, 1, 2, … |
| `ResponsesEvents.ItemHistory` | src/serve/responses_schema.cpp:1013-1097 | each item of an accepted log was added once, its deltas concatenate to its text, and it is done at most once |
| `ResponsesEvents.DoneItems` | src/serve/responses_schema.cpp:1032-1097 | each `output_item.done` carries the item recorded at its index |
| `ResponsesEvents.TerminalIsLast` | src/serve/responses_schema.cpp:1254-1265 | nothing follows a terminal event |
| `ResponsesEvents.ConformingStream` | src/serve/responses_schema.cpp:1128-1265 | in a conforming log every added item is done exactly once before the one terminal event, and equals the item at that index of the terminal output |
| `ResponsesEvents.FinishedCompletes` | src/serve/responses_schema.cpp:1032-1097 | a done item completes the item that was added, with its concatenated text |
| `ResponsesEventStream.BuildOutputAnswers` | src/serve/responses_schema.cpp:839-919 | the output lists reasoning, message and calls with their texts, and which status response and items have for each finish reason |
| `ResponsesEventStream.ResponsesEventStream.Emit` | src/serve/responses_schema.cpp:1007-1012 | each event takes the next sequence number |
| `ResponsesEventStream.ResponsesEventStream.EnsureReasoning` | src/serve/responses_schema.cpp:1013-1031 | opens the reasoning item once |
| `ResponsesEventStream.ResponsesEventStream.CloseReasoning` | src/serve/responses_schema.cpp:1032-1054 | closes an open reasoning item with its text |
| `ResponsesEventStream.ResponsesEventStream.EnsureMessage` | src/serve/responses_schema.cpp:1055-1073 | opens the message item once |
| `ResponsesEventStream.ResponsesEventStream.CloseMessage` | src/serve/responses_schema.cpp:1074-1097 | closes an open message item with its text |
| `ResponsesEventStream.ResponsesEventStream.Start` | src/serve/responses_schema.cpp:1128-1135 | starts once |
| `ResponsesEventStream.ResponsesEventStream.ReasoningDelta` | src/serve/responses_schema.cpp:1137-1150 | extends the reasoning text, and tells when a client loses track |
| `ResponsesEventStream.ResponsesEventStream.ContentDelta` | src/serve/responses_schema.cpp:1152-1169 | closes reasoning and extends the message text |
| `ResponsesEventStream.ResponsesEventStream.FinishMessage` | src/serve/responses_schema.cpp:1198-1219 | `streamed content does not match terminal content` is raised exactly when the streamed text is not a prefix of the outcome's text |
| `ResponsesEventStream.ResponsesEventStream.EmitCalls` | src/serve/responses_schema.cpp:1220-1246 | each call is one added and completed item, in order |
| `ResponsesEventStream.ResponsesEventStream.Finish` | src/serve/responses_schema.cpp:1171-1252 | the built output is the list of items the client saw, and it is the answer for the outcome |
| `ResponsesEventStream.ResponsesEventStream.Terminal` | src/serve/responses_schema.cpp:1254-1265 | one terminal event, after `finish`, with the response's status |
| `ResponsesEventStream.RunStream` | src/serve/responses_schema.cpp:1128-1265 | a stream whose deltas concatenate to the outcome conforms if and only if no reasoning follows content, and its terminal event carries the answer |
| `ResponsesEventStream.Serve` | src/serve/responses_schema.cpp:839-919 | from engine deltas to the wire: the log conforms if and only if no reasoning delta comes after content that could be shown; its last event carries the answer item by item, with the parser's text, the rendered calls and the statuses of the finish reason |
| `AnthropicStream.BlockHistory` | src/serve/http_server.cpp:657-732 | blocks are numbered in start order and each is stopped once if the client holds it closed and never otherwise; deltas only reach open blocks |
| `AnthropicStream.EndedHasNoneOpen` | src/serve/http_server.cpp:694-732 | a stream that is ending has no open block |
| `AnthropicStream.StoppedOnce` | src/serve/http_server.cpp:657-732 | in a completed stream every started block, and nothing else, is stopped exactly once |
| `AnthropicStream.JoinedMore` | src/serve/http_server.cpp:666-669 | adding to the last block of a kind adds to what that kind says |
| `AnthropicStream.EndedTold` | src/serve/http_server.cpp:694-728 | the calls are the last blocks, in order, with name and arguments; before them thinking says the reasoning and text the content; only a message that says nothing has an empty block |
| `AnthropicStream.Stream.OnReasoning` | src/serve/http_server.cpp:660-669 | opens a thinking block if none is open and adds the text to what thinking says; overlap arises exactly when a text block is open |
| `AnthropicStream.Stream.OnContent` | src/serve/http_server.cpp:670-683 | closes thinking, opens text once and adds the text to what the text blocks say |
| `AnthropicStream.Stream.Finish` | src/serve/http_server.cpp:694-732 | stops every block, adds the rest and one block per call, in order, and leaves at least one block, all of them closed |
| `AnthropicStream.Serve` | src/serve/http_server.cpp:651-732 | every stream is accepted and each started block is stopped exactly once; the thinking blocks say the reasoning, the text blocks the outcome's text, and the last blocks are the outcome's calls in order; two blocks are open at once if and only if a reasoning delta comes after engine content that could be shown |
| `PagedKVState.SelectSpec` | src/core/paged_kv_cache.cpp:203-253 | the preferred run if it is free, else the lowest run, else the lowest ids |
| `PagedKVState.SelectNext` | src/core/paged_kv_cache.cpp:203-253 | the ids taken are those after the allocation's last page if all are free, else the lowest run of free ids, else the lowest free ids |
| `PagedKVState.AscendingCut` | src/core/paged_kv_cache.cpp:239-253 | taken ids ascend and the free list stays sorted |
| `PagedKVState.InsertAllSpec` | src/core/paged_kv_cache.cpp:255-260 | returned ids are merged into a sorted free list |
| `PagedKVState.PromiseKept` | src/core/paged_kv_cache.cpp:203-207 | what any allocation may still map is free, so an entitlement can always be materialized |
| `PagedKVState.ReserveExact` | src/core/paged_kv_cache.cpp:149-152 | a nonzero reservation is accepted if and only if the pool with it keeps its invariant |
| `PagedKVState.ReplaceExact` | src/core/paged_kv_cache.cpp:154-158 | an entitlement is replaced if and only if the pool with it keeps its invariant |
| `PagedKVState.ReservedSound` | src/core/paged_kv_cache.cpp:160-165 | reserving keeps the invariant |
| `PagedKVState.EntitleSound` | src/core/paged_kv_cache.cpp:330-345 | replacing an entitlement keeps the invariant |
| `PagedKVState.GrownSound` | src/core/paged_kv_cache.cpp:347-359 | materializing keeps the invariant, with the new pages published |
| `PagedKVState.TrimmedSound` | src/core/paged_kv_cache.cpp:365-374 | trimming keeps the invariant |
| `PagedKVState.BoundSound` | src/core/paged_kv_cache.cpp:378-400 | binding keeps the invariant: rows have one owner and show its pages |
| `PagedKVState.UnboundSound` | src/core/paged_kv_cache.cpp:402-406 | unbinding keeps the invariant |
| `PagedKVState.DroppedSound` | src/core/paged_kv_cache.cpp:413-421 | an empty allocation can disappear |
| `PagedKVState.Apply` | src/core/paged_kv_cache.cpp:149-421 | every call keeps the invariant, a failing call changes nothing, and `could not be materialized` is never raised |
| `PagedKVState.ReachableState` | src/core/paged_kv_cache.cpp:149-421 | in every reachable state ids are partitioned, counters are sums, promises fit and can be kept, bound rows show their pages |
| `PagedKVState.ResizeCannotFail` | src/core/paged_kv_cache.cpp:440-469 | once a change passes validation neither its trim nor its entitlement step can fail |
| `PagedKV.PagesForTokens` | src/core/paged_kv_cache.cpp:23-26 | the least number of pages that holds the tokens |
| `PagedKV.Pool.constructor` | src/core/paged_kv_cache.cpp:91-117 | all pages free, no row in use |
| `PagedKV.Pool.IsRun` | src/core/paged_kv_cache.cpp:210-219 | tests for consecutive ids |
| `PagedKV.Pool.ChooseRun` | src/core/paged_kv_cache.cpp:221-237 | finds the position that the order of preference names |
| `PagedKV.Pool.TakePages` | src/core/paged_kv_cache.cpp:203-253 | cuts the chosen pages out of the free list |
| `PagedKV.Pool.ReturnPages` | src/core/paged_kv_cache.cpp:255-260 | merges pages back and lowers the counter |
| `PagedKV.Pool.AcquireRow` | src/core/paged_kv_cache.cpp:268-276 | takes a free row; range and ownership errors in the source's order |
| `PagedKV.Pool.Reserve` | src/core/paged_kv_cache.cpp:149-165 | succeeds exactly when the entitlement fits |
| `PagedKV.Allocation.SetPageEntitlement` | src/core/paged_kv_cache.cpp:330-338 | the effect and the errors of the state function |
| `PagedKV.Allocation.CancelUnmappedEntitlement` | src/core/paged_kv_cache.cpp:340-345 | gives up what is not mapped |
| `PagedKV.Allocation.MaterializePages` | src/core/paged_kv_cache.cpp:347-359 | the effect and the errors of the state function, without the materialization failure; the new pages continue the last one if those ids are free, else are the lowest run, else the lowest free ids |
| `PagedKV.Allocation.MaterializeTokens` | src/core/paged_kv_cache.cpp:361-363 | maps at least the tokens and less than one page more |
| `PagedKV.Allocation.TrimPages` | src/core/paged_kv_cache.cpp:365-374 | returns the tail pages |
| `PagedKV.Allocation.TrimTokens` | src/core/paged_kv_cache.cpp:376-376 | keeps at least the tokens and less than one page more |
| `PagedKV.Allocation.BindRow` | src/core/paged_kv_cache.cpp:378-400 | takes a row and publishes the mapping |
| `PagedKV.Allocation.UnbindRow` | src/core/paged_kv_cache.cpp:402-406 | releases the row |
| `PagedKV.Allocation.Release` | src/core/paged_kv_cache.cpp:413-421 | everything goes back and the allocation is empty |
| `PagedKVBundles.ValidateDistinctPools` | src/core/paged_kv_cache.cpp:28-39 | accepts exactly named pools, nonzero pages, no pool twice |
| `PagedKVBundles.ReserveBundle` | src/core/paged_kv_cache.cpp:423-438 | all or nothing: refused with every pool unchanged, or every reservation made |
| `PagedKVBundles.ValidateChanges` | src/core/paged_kv_cache.cpp:440-460 | accepts exactly bundles whose every change is acceptable, on distinct pools; otherwise the first offending change decides the error |
| `PagedKVBundles.ResizeBundle` | src/core/paged_kv_cache.cpp:440-469 | all or nothing across pools; success exactly when validation passes |
| `ZeroPages.MakeTensor` | src/core/tensor.cpp:50-57 | contiguous strides |
| `ZeroPages.AddressPage` | src/core/tensor.cpp:50-57 | the page computed from a byte offset is the element's coordinate on the page axis, for both plane orders |
| `ZeroPages.Memset2D` | src/core/paged_kv_cache.cpp:186-190 | a pitched memset touches exactly its rows |
| `ZeroPages.ZeroRun` | src/core/paged_kv_cache.cpp:179-192 | one run of pages in one plane, linear or pitched |
| `ZeroPages.NoDuplicate` | src/core/paged_kv_cache.cpp:175-177 | neighbours of the sorted ids decide duplicates |
| `ZeroPages.RunEnd` | src/core/paged_kv_cache.cpp:195-197 | coalesces the longest run of consecutive ids |
| `ZeroPages.Planes.ZeroPages` | src/core/paged_kv_cache.cpp:167-201 | in every plane exactly the bytes of the named pages become zero; stray or repeated ids change nothing |
| `ZeroPages.ZeroedElement` | src/core/paged_kv_cache.cpp:167-201 | every element of a named page is zero, every other element unchanged |
| `CopyStream.DrainHead` | src/artifact/materializer.cpp:220-237 | running the oldest copy does not change what memory will be |
| `CopyStream.DrainRefill` | src/artifact/materializer.cpp:191-200 | filling a slot that no queued copy reads does not change the outcome |
| `CopyStream.Stage.Elapse` | src/artifact/materializer.cpp:220-225 | whenever and however many copies run, the outcome is the same |
| `CopyStream.Stage.Wait` | src/artifact/materializer.cpp:45-50 | after the wait no queued copy reads the slot |
| `CopyStream.Stage.Fill` | src/artifact/materializer.cpp:198-200 | a slot is only filled while no copy from it is pending |
| `CopyStream.Stage.Enqueue` | src/artifact/materializer.cpp:219-225 | copies lie inside slot and device memory |
| `CopyStream.Stage.Record` | src/artifact/materializer.cpp:236-237 | every copy from a slot comes before its event |
| `CopyStream.Stage.Synchronize` | src/artifact/materializer.cpp:246-247 | memory is then the outcome |
| `CopyRanges.SortDisjoint` | src/artifact/materializer.cpp:146-153 | sorting neither makes nor hides an overlap |
| `CopyRanges.NoOverlap` | src/artifact/materializer.cpp:149-153 | comparing neighbours of the sorted ranges decides overlap |
| `CopyRanges.MergeSpans` | src/artifact/materializer.cpp:155-167 | the merge loop: every range lies in one span, spans begin on a block, the blocks of one never reach the next, and no span has a block without a range byte |
| `CopyRanges.SpansCover` | src/artifact/materializer.cpp:155-167 | each range lies inside one merged span |
| `CopyRanges.SpansAreTight` | src/artifact/materializer.cpp:155-167 | every block of a span holds a byte of a range and a span ends where a range ends, so nothing is read for nothing |
| `CopyRanges.BlockBytesBound` | src/artifact/materializer.cpp:168-173 | each span adds exactly its blocks, and the total never exceeds the rounded file size |
| `CopyRanges.LoadedPiece` | src/artifact/materializer.cpp:215-228 | one copied piece extends what is loaded by exactly its bytes, once |
| `CopyRanges.BelowPiece` | src/artifact/materializer.cpp:226-228 | the byte counter counts exactly the copied bytes |
| `Materializer.Scatter` | src/artifact/materializer.cpp:210-235 | one chunk loads every range byte in it |
| `Materializer.RequestSize` | src/artifact/materializer.cpp:194-197 | requests are whole blocks within the slot and the span's blocks |
| `Materializer.Turn` | src/artifact/materializer.cpp:191-237 | one turn of the slot ring; it fails if and only if the read is shorter than required |
| `Materializer.SpanTurn` | src/artifact/materializer.cpp:191-237 | one turn fails if and only if its own read is short; what is left to be met is the rest of the reads |
| `Materializer.LoadSpan` | src/artifact/materializer.cpp:190-244 | a span is read to its end and no further than its blocks; it succeeds if and only if each of its reads delivers what is required |
| `Materializer.LoadSpans` | src/artifact/materializer.cpp:189-245 | all spans are read if and only if every read delivers what is required |
| `Materializer.ReachedEnd` | src/artifact/materializer.cpp:248-250 | the final coverage check cannot fail |
| `Materializer.Load` | src/artifact/materializer.cpp:145-255 | disjoint ranges are loaded if and only if every read delivers at least its required bytes, the smaller of a slot and the rest of its span; whatever the copy timing, every range's device bytes are then its file bytes, each written exactly once, nothing else touched; the other failures are no ranges and overlap |
| `Binder.PackedApart` | src/artifact/binder.cpp:91-98 | placements are disjoint and inside the capacity |
| `Binder.PackedAligned` | src/artifact/binder.cpp:91-92 | placements are aligned |
| `Binder.Binding.Require` | src/artifact/binder.cpp:29-69 | each object is bound at most once; a missing, repeated, wrong-kind or mismatching object gives exactly that error, in this order |
| `Binder.Binding.MaterializeOnDevice` | src/artifact/binder.cpp:82-100 | appends the next aligned placement, or the source's error, including 64-bit overflow |
| `Binder.Binding.RetainOnHost` | src/artifact/binder.cpp:102-113 | resources, at most once |
| `Binder.Binding.ValidateOnly` | src/artifact/binder.cpp:115-122 | any object, at most once |
| `Binder.Binding.Finish` | src/artifact/binder.cpp:124-138 | gives the plan exactly when everything was consumed and placed |
| `ArtifactLoad.DeviceArena.AllocBytes` | src/core/arena.cu:189-214 | bump allocation at aligned addresses |
| `ArtifactLoad.AllocatePlanned` | src/artifact/materializer.cpp:127-135 | the arena hands out the planned offset |
| `ArtifactLoad.PlanRanges` | src/artifact/materializer.cpp:125-153 | a binder's plan passes every check before the load |
| `ArtifactLoad.Materialize` | src/artifact/materializer.cpp:98-256 | a binder's plan is loaded if and only if it has a tensor and every read of its ranges delivers what is required; then every tensor's payload is in place, each byte written once |
| `ArtifactRoundTrip.WriteAndLoad` | src/artifact/materializer.cpp:98-256 | written, opened by the checked reader and loaded by any binder's plan: the load succeeds if and only if every read delivers what is required, and then the device holds what was given to the writer |
| `ArtifactRoundTrip.WrittenOpensChecked` | src/artifact/reader.cpp:272-350 | the reader with 64-bit arithmetic opens every written file that leaves room for rounding |
| `StorageGeometry.GroupsTile` | tools/artifact/layouts.py:189-190 | groups tile the padded row |
| `StorageGeometry.PlanesApart` | tools/artifact/layouts.py:200-204 | planes are aligned, disjoint and inside the payload, with minimal padding |
| `StorageGeometry.Mul64Fits` | src/artifact/storage_layouts.cpp:18-23 | the division test catches exactly the products that do not fit |
| `StorageGeometry.RowSplitAgree` | src/artifact/storage_layouts.cpp:144-168 | whenever the checked geometry returns it is the unbounded one, and it returns whenever there is room |
| `StorageGeometry.BlockScaleAgree` | src/artifact/storage_layouts.cpp:170-197 | the same for NVFP4, with its planes in order |
| `StorageGeometry.RowScaleAgree` | src/artifact/storage_layouts.cpp:199-217 | the same for row-scaled FP8 |
| `StorageGeometry.ContiguousSize` | src/artifact/storage_layouts.cpp:115-127 | the size of a contiguous tensor, or an error exactly when shape or size is not acceptable |
| `QuantCodes.WrappedExact` | tools/artifact/layouts.py:941-946 | a code survives its width if and only if it is in range |
| `QuantCodes.LowRoundTrip` | tools/artifact/layouts.py:590-600 | low nibbles come back |
| `QuantCodes.HighRoundTrip` | tools/artifact/layouts.py:603-624 | high bits come back, for one and for two bits per code |
| `QuantCodes.GroupRoundTrip` | tools/artifact/layouts.py:908-946 | a packed group unpacks to its codes if and only if all are in range |
| `QuantCodes.GroupStored` | tools/artifact/layouts.py:590-639 | the stored bits: even codes in low and odd codes in high nibbles, above them one or two bits per code, lowest first |
| `QuantCodes.DequantizersAgree` | tools/artifact/layouts.py:975-1014 | the specialised dequantizers extract the codes of the generic unpacking |
| `RowSplitLayout.PackLowNibbles` | tools/artifact/layouts.py:590-600 | the result does not depend on the chunk size |
| `RowSplitLayout.PackHighBits` | tools/artifact/layouts.py:603-624 | the result does not depend on the chunk size |
| `RowSplitLayout.PackCodes` | tools/artifact/layouts.py:627-639 | both planes of every width |
| `RowSplitLayout.RowsOfFlat` | tools/artifact/layouts.py:668-674 | flattening and reshaping are inverse |
| `RowSplitLayout.Assemble` | tools/artifact/layouts.py:811-855 | splitting an assembled payload gives the planes back, and padding is zero |
| `RowSplitLayout.Encode` | tools/artifact/layouts.py:642-677 | every group is stored bit by bit at its place in the base, high and scale planes; decoding gives the scales and codes back if and only if every code is in range |
| `RowSplitLayout.GatherFits` | tools/artifact/layouts.py:733-785 | gathered planes have the sizes of a tensor with that many rows |
| `RowSplitLayout.GatherDecodes` | tools/artifact/layouts.py:733-785 | decoding gathered rows gives the selected rows of the decoded tensor |
| `Nvfp4Layout.PermuteTwice` | tools/artifact/layouts.py:466-506 | the axis exchange is undone by its mirror |
| `Nvfp4Layout.SwizzleInverse` | tools/artifact/layouts.py:466-506 | swizzle and unswizzle are inverse in both orders |
| `Nvfp4Layout.SwizzleAt` | tools/artifact/layouts.py:466-506 | where the scale of each row and group is stored, in both directions |
| `Nvfp4Layout.SwizzlePermutes` | tools/artifact/layouts.py:466-482 | the swizzle moves scales: distinct stored positions hold distinct natural positions |
| `Nvfp4Layout.Nvfp4RoundTrip` | tools/artifact/layouts.py:524-587 | exactly the acceptable words are encoded, and decoding returns them |
| `Nvfp4Layout.PayloadAt` | tools/artifact/layouts.py:524-553 | an encoded payload byte by byte: codes, zero padding, each scale at its stored position, divisor |
| `Bytes.WordValue` | tools/artifact/container.py:386-388 | a 64-bit length survives being written and read |
| `ObjectTable.EncodedPositive` | tools/artifact/layouts.py:272-303 | the size of a tensor, computed from format, layout and shape, is positive whenever it is given |
| `ObjectTable.TensorEncodedSize` | src/artifact/storage_layouts.cpp:115-142 | the checked size is the unbounded one of the same format, layout and shape, and is given whenever there is room |
| `ObjectTable.RangesPairwise` | src/artifact/reader.cpp:316-341 | the running cursor makes all extents pairwise disjoint |
| `ObjectTable.RangesTable` | src/artifact/reader.cpp:316-350 | what passes the reader's checks is what binder and loader rely on |
| `Container.ValidateRanges` | tools/artifact/container.py:273-289 | the loop accepts exactly ordered, aligned, bounded extents |
| `Container.ReadEntries` | src/artifact/reader.cpp:316-350 | the checked loop accepts exactly the same extents, with unique names |
| `Container.ReadersAgree` | src/artifact/reader.cpp:272-350 | the two readers agree on every file that leaves room for rounding in 64 bits |
| `Container.OpenedSound` | tools/artifact/container.py:295-331 | an opened file has the v2 prefix, and its objects are aligned, disjoint, uniquely named extents inside the file |
| `Container.PlanObjects` | tools/artifact/container.py:142-178 | accepts exactly inventories with unique names, nonempty resources and tensors that their format and layout admit; each object is as specified and begins at the least aligned offset after the one before |
| `Container.PlannedRanges` | tools/artifact/container.py:142-178 | a plan passes the readers' range checks |
| `Container.ImagePayload` | tools/artifact/container.py:394-414 | each payload lies at its offset |
| `Container.OpenWritten` | tools/artifact/container.py:295-331 | a written file opens as its directory |
| `Container.ArtifactWriter.constructor` | tools/artifact/container.py:375-392 | prefix, directory and padding |
| `Container.ArtifactWriter.Write` | tools/artifact/container.py:394-414 | accepts the next payload of the planned size, however chunked; the file is exactly header, payloads and zero padding, and after a refused payload it still is if and only if none of its bytes were accepted |
| `Container.RetryAfterRefusal` | tools/artifact/container.py:402-414 | a write repeated after a refused one succeeds and leaves the wrong payload |
| `Container.ArtifactWriter.Finish` | tools/artifact/container.py:416-425 | finishes exactly when every payload was written |
| `Container.WriteArtifact` | tools/artifact/container.py:445-454 | an accepted inventory with payloads of the planned sizes reads back exactly |
| `Migration.TornRejected` | tools/artifact/migrate_v1_to_v2.py:341-344 | with the length partly old the file does not open as v2, unless it already is the migrated file |
| `Migration.CompleteBackup` | tools/artifact/migrate_v1_to_v2.py:237-246 | of the recovery files a failure can leave, exactly the complete one is accepted |
| `Migration.Computer.WriteArtifact` | tools/artifact/migrate_v1_to_v2.py:335-344 | an interrupted write leaves a prefix of its bytes, and each byte costs one effect |
| `Migration.Restore` | tools/artifact/migrate_v1_to_v2.py:237-253 | restores the original from a complete recovery file if and only if power lasts for it, and is itself restartable |
| `Migration.Convert` | tools/artifact/migrate_v1_to_v2.py:327-367 | wherever it is interrupted the disk stays recoverable; it ends in v2 if and only if power lasts for its effects |
| `Migration.MigratedOpens` | tools/artifact/migrate_v1_to_v2.py:346-357 | the verification after the writes cannot fail |
| `Migration.VersionOf` | tools/artifact/migrate_v1_to_v2.py:261-276 | no disk a failure can leave is mistaken for a v2 artifact unless it is the migrated one |
| `Migration.Migrate` | tools/artifact/migrate_v1_to_v2.py:279-367 | recoverable again after any interruption; fails if and only if the recovery file is there and incomplete, and otherwise ends in v2 if and only if power lasts for the effects that are left; without a recovery file a v2 file is accepted unchanged if and only if it opens with a known identity, and other or unpublished files are refused unchanged |
| `Migration.BlockedByTornBackup` | tools/artifact/migrate_v1_to_v2.py:229-246 | after a power failure while the recovery file is written every later run refuses |
| `Migration.Runs` | tools/artifact/migrate_v1_to_v2.py:279-367 | after any number of interrupted runs the payload is untouched and the metadata is the original, or v2, or in the recovery file |
| `WorkerPool.StepKeeps` | src/core/host_worker_pool.cpp:40-109 | every step of every thread keeps the invariant |
| `WorkerPool.Reachable` | src/core/host_worker_pool.cpp:52-109 | queue and active workers are bounded, tasks start in order of acceptance, each once; a task is accepted exactly when its call has pushed it, and only a stopping pool has refused a call |
| `WorkerPool.NoLostWakeup` | src/core/host_worker_pool.cpp:52-58 | with work queued and every idle worker asleep, a notification is still to come |
| `WorkerPool.EndKeeps` | src/core/host_worker_pool.cpp:71-75 | the `active == 0` termination is unreachable |
| `WorkerPool.Attempt` | src/core/host_worker_pool.cpp:95-107 | an attempt is refused if and only if the pool is stopping, accepted as the last task if and only if it is not and there is room, and otherwise sleeps |
| `WorkerPool.RefusedWhileStopping` | src/core/host_worker_pool.cpp:95-107 | a refused call made its last attempt while the pool was stopping |
| `WorkerPool.SpaceAnnounced` | src/core/host_worker_pool.cpp:63-63 | taking a task wakes one sleeping call if there is any |
| `WorkerPool.WorkGoesOn` | src/core/host_worker_pool.cpp:52-77 | as long as a task is queued or running a worker or a pending notification can step |
| `WorkerPool.PoolDrains` | src/core/host_worker_pool.cpp:52-77 | left to itself a pool takes boundedly many steps, and when it stops every accepted task has run exactly once |
| `WorkerPool.CallServed` | src/core/host_worker_pool.cpp:52-109 | from every reachable state that is not stopping, every call can still have its task accepted and run |
| `WorkerPool.DestructionDrains` | src/core/host_worker_pool.cpp:40-50 | when the destructor has returned every accepted task has run exactly once |
| `WorkerPool.LoadDrops` | src/core/host_worker_pool.cpp:40-77 | while stopping, every step brings the pool closer to its end |
| `WorkerPool.ShutdownProgress` | src/core/host_worker_pool.cpp:40-77 | a stopping pool can always take a step until the destructor returns |
| `WorkerPool.ShutdownDrains` | src/core/host_worker_pool.cpp:40-77 | after stopping every run is bounded, and one that cannot go on has drained the queue, with every call returned or refused |
| `ResponseStore.FlattenContext` | src/serve/response_store.cpp:60-73 | all turns, oldest first |
| `ResponseStore.ChainSum` | src/serve/response_store.cpp:32-38 | along one chain every node counts once |
| `ResponseStore.StandaloneBytes` | src/serve/response_store.cpp:32-38 | envelope plus chain |
| `ResponseStore.RecomputeBytes` | src/serve/response_store.cpp:136-147 | envelopes plus each reachable node once, in any visiting order |
| `ResponseStore.NewStore` | src/serve/response_store.cpp:75-80 | an empty store, or a refusal exactly when a limit is zero |
| `ResponseStore.ResponseStore.Get` | src/serve/response_store.cpp:82-88 | returns the record and makes it the most recent |
| `ResponseStore.ResponseStore.Erase` | src/serve/response_store.cpp:118-124 | removes the record and keeps the order of the others |
| `ResponseStore.ResponseStore.Evict` | src/serve/response_store.cpp:105-115 | evicts until both bounds hold; the throws in the loop are unreachable |
| `ResponseStore.ResponseStore.Put` | src/serve/response_store.cpp:90-116 | keeps exactly the longest most-recent prefix that fits, new record first; errors change nothing |
| `ResponseStore.KeptExactly` | src/serve/response_store.cpp:105-115 | a prefix fits if and only if it is no longer than the one kept |

## Left out

- CUDA, HTTP, authentication, logging, progress and request-field validation: foreign calls or settled by one branch.
- Floating-point values: scales and codes are words; multiplication and E4M3FN or E2M1 decoding are not modelled.
- ToolCallParser.ParseToolCallOutput: arguments are the trimmed raw text of each parameter, because their JSON reading is a
  function of that text; call identifiers are random and left out.
- ResponsesEventStream.Serve: time stamps, and how item identifiers are made up; they are numbers that the events of an item
  and the terminal output share.
- Responses `failed` events, usage fields and request echo: not part of the item protocol.
- Cancellation and client disconnects in the streams: only streams that reach normal completion are modelled.
- 64-bit overflow checks of the materializer: offsets are unbounded here; `CopyRanges.BlockBytesBound` bounds the aligned
  byte total by the rounded file size, so they could only fire for files near 2^64 bytes.
- Host resources of a plan: copied verbatim, an easy member.
- PagedKV.Pool.constructor: the consistency checks between a layout and its own specification, which concern how device
  memory was bound and not the pool's state.
- PagedKV: moving an allocation object and host memory exhaustion; 32-bit wrap-around of page counts, which the pool's
  size limits exclude.
- ZeroPages: memsets are applied in call order; their asynchronous timing is not modelled.
- ResponseStore: the byte estimates of turns and envelopes are given sizes.
- WorkerPool: failure to create a thread, tasks that throw, checkpoint callbacks, and the use of a pool after its destruction.
- RowSplitLayout.Encode: device placement and dtype checks of the tensors.
- Row-scaled FP8 payloads: their geometry is modelled; their encoding is two verbatim planes, an easy member.
- Migration: errors other than a power failure during a write; the handler for them is modelled but proved unreachable.
- Engine, scheduler, prefix reuse and target packages: not part of this model.
