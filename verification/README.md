# A verified model of the LLM SDK's stateful core

The Go SDK in this repository is a client for many language-model providers. Underneath the HTTP plumbing it has a
number of self-contained algorithms whose promises span several calls, or all interleavings of several goroutines. This
project models them in Dafny and proves those promises for all inputs, all runs and all reachable states.

| file | modules | what it is about |
|---|---|---|
| DeepCopy.dfy, CloneObserved.dfy | DeepCopy, CloneObserved | cycle-safe deep copy of provider metadata, and what a caller can observe of the clone |
| Stream.dfy | StreamLayer, StreamStack | the stream wrapping protocol: one wrapper, and a stack of any height |
| JsonScan.dfy | JsonGrammar, JsonScan | finding JSON values in prose, against the grammar of RFC 8259 |
| Sse.dfy, SseRoundTrip.dfy | Sse, SseRoundTrip | the incremental server-sent-event reader (sections 9.2.5 and 9.2.6 of the WHATWG HTML Standard) |
| SchemaWalk.dfy, SchemaWalkers.dfy | TypeGraph, SchemaWalkers | JSON schemas of Go types, and the lookup of fields by JSON name |
| ResponseCache.dfy | ResponseCache | the bounded response cache with a time to live |
| RunTools.dfy, Batch.dfy, Counting.dfy, Options.dfy | ToolPool, ToolLoop, Batch, Counting, Options | concurrent tool calls, the agent loop, and batch processing; helpers |
| Repair.dfy | Repair | pairing tool results with tool calls |
| Merge.dfy, MergeMessages.dfy | Conversation, MergeMessages | merging neighbouring messages: what it means, and the in-place code |
| GenaiSchema.dfy | GenaiSchema | converting pointer-graph schemas |
| Cost.dfy, CostTracker.dfy | Pricing, Sums, CostTracking | tiered pricing, the derived batch card, and the cost tracker |
| Base64.dfy, Signatures.dfy | Base64, Signatures | signatures and reasoning kept with a session (RFC 4648, section 4) |
| CallIds.dfy | CallIds | call IDs that stay unique over a session |

Code that changes state in place is modelled by classes and methods, each proved against a specification function or an
invariant. Concurrent code is modelled by step machines on values: every goroutine, the clock, cancellation and the
consumer take steps in any order, and the theorems are about every sequence of steps. Rates and costs are real numbers.

Where the code and its documentation differ, or a promise has limits, the code is modelled:

- The stream documentation promises a terminal chunk for every stream. A layer sends one exactly if its last delivery
  does not time out (`StreamLayer.ExitOrder`; a run without one is `StreamStack.ClosesWithoutTerminal`), and after two
  timeouts in a row a truncated stream can end cleanly (`StreamStack.LostErrorLooksClean`).
- Clones keep aliasing exactly if no storage is reachable under two static types (`CloneObserved.SharingKeptExactly`), and
  static types but for defined pointer types (`CloneObserved.TypeKeptExactly`).
- Following pointers does not end on a type declared as a pointer to itself (`TypeGraph.PointersEndExactly`).
- The documentation of `UnpricedRequests` says that estimated costs exclude those requests. A request in an unknown mode
  is counted there and still adds its cost at standard rates; they are included exactly if the model has a standard card
  by which they cost something (`CostTracking.UnpricedCostsExactly`, `CostTracking.EstimateSplits`).
- The batch discount is documented as half price. It is half exactly under the condition of `Pricing.HalfExactlyWhen`
  (`Pricing.NotHalf` is a usage for which it is not).
- Media quantities of different units are said never to mix. Two units can exactly if one ends in a colon and the other
  (`CostTracking.UnitsMixExactly`).
- The event reader returns a buffered event at the end of the stream, and keeps event name and ID across a blank line
  without data, unlike the HTML Standard (`SseRoundTrip.RoundTrip` covers both).

## Model

| member | source | states |
|---|---|---|
| DeepCopy.ReachIsClosed | reasoning.go:139-215 | The set of references reachable from a value contains those in the value and is closed under following them. |
| DeepCopy.ReachIsLeast | reasoning.go:139-215 | It is the smallest such set, so "reachable" means what following references can reach and nothing more. |
| DeepCopy.ImageInjective | reasoning.go:192-196 | Two different values have different copies under an injective memo, so copied map keys never collide. |
| DeepCopy.ProgressTrans | reasoning.go:139-215 | Copying steps compose: finished copies stay finished, old cells stay untouched, and the memo only grows. |
| DeepCopy.Copier.Open | reasoning.go:154-155 | A copy is new storage, recorded in the memo before its content exists; its static type is the original's, or for a pointer the pointer literal; all other storage is unchanged. |
| DeepCopy.Copier.DeepCopyValue | reasoning.go:139-215 | Terminates on every finite graph, cycles included; the result is the copy of the argument under the grown memo, everything recorded by the call is a finished copy, and no storage that existed before has changed. |
| DeepCopy.Copier.CopyPointer | reasoning.go:146-157 | A non-nil pointer already seen under its type gives its earlier copy; any other is entered in the memo before its target is copied, which is what ends cycles. |
| DeepCopy.Copier.CopySlice | reasoning.go:158-171 | Every element of the copy of a non-nil slice is the image of the element at the same index, and a seen slice gives its earlier copy. |
| DeepCopy.Copier.CopyMap | reasoning.go:178-195 | Whatever the iteration order, the copy of a non-nil map has exactly the images of the keys, each mapped to the image of its value, and a seen map gives its earlier copy. |
| DeepCopy.Copier.CopyArray | reasoning.go:172-177 | An array value is copied element by element without a memo entry of its own. |
| DeepCopy.Copier.CopyStruct | reasoning.go:196-211 | Exported fields of composite kind are replaced by their images; unexported ones keep their values. |
| DeepCopy.Copier.CloneMetadataValue | reasoning.go:121-126 | A clone is isomorphic to the original: the memo is a bijection from the reachable references, each a storage and the type it is seen under, to new storage; contents correspond, and the original heap is unchanged. |
| DeepCopy.Copier.CloneMetadata | reasoning.go:101-113 | Every metadata entry is cloned with a memo of its own, and copies of different entries share no storage. |
| CloneObserved.LookupCommutes | reasoning.go:192-194 | Looking up the image of a key in the copied map gives the image of what the key gives in the original. |
| CloneObserved.AccessCommutes | reasoning.go:139-215 | One access step (dereference, index, field, map lookup) leads from a copy to the copy of the original's target. |
| CloneObserved.FollowCommutes | reasoning.go:139-215 | The same holds for access paths of any length: the clone simulates the original. |
| CloneObserved.PlainKept | reasoning.go:192-194 | A value that mentions no reference, as a map key may, is its own copy. |
| CloneObserved.CloneLooksSame | reasoning.go:121-215 | A path whose map keys mention no reference finds something in the clone exactly when it does in the original, and that looks the same: the same scalar, a nil of the same type, an array or struct of the same type and size with the same unexported fields, or a reference of the same kind, length and type (a defined pointer type may become the literal one) to content of the same size. |
| CloneObserved.MetadataLooksSame | reasoning.go:98-113 | The same of every entry of a cloned metadata map. |
| CloneObserved.TypeKeptExactly | reasoning.go:154 | The copy of a reference has its static type if and only if that is not a defined pointer type; of such a pointer the copy has the pointer literal type. |
| CloneObserved.SharingPreserved | reasoning.go:139-215 | Two access paths end at the same value in the clone, but for the static type of a reference, if and only if they do in the original. |
| CloneObserved.SharingKeptExactly | reasoning.go:128-137 | Wherever two paths share storage in the original they share it in the clone, if and only if no storage is reachable under two static types. |
| CloneObserved.TwoViewsSplit | reasoning.go:182-184 | One map listed under a defined map type and under the type it is defined as becomes two unrelated maps in every clone. |
| CloneObserved.FollowFrame | reasoning.go:115-120 | What an access path reaches depends only on the cells of a closed set. |
| CloneObserved.CopiesClosed | reasoning.go:115-120 | The clone's cells refer only to each other. |
| CloneObserved.MutationIsolated | reasoning.go:98-100 | Writing to cells of the clone does not change what any path in the original reaches, and the other way round. |
| CloneObserved.CloneIsFaithful | reasoning.go:98-126 | For one clone: paths lead to copies, sharing is exact under one type and kept for all storage exactly if none has two types, and writing to either side does not show on the other. |
| StreamLayer.StepKeepsInv | streaming.go:485-525 | Every step of a wrapper's goroutine, in every phase, keeps the layer invariant that ties its output to the processed input. |
| StreamLayer.EnvironmentKeepsInv | streaming.go:485-525 | So does every move of its source, its consumer, its draining and its context. |
| StreamLayer.ForwardedWellFormed | streaming.go:115-159 | Forwarded chunks contain a terminal only as the image of the last chunk of a well-formed input. |
| StreamLayer.OutputWellFormed | streaming.go:291-325 | The output is, for each input chunk up to some point, what the processor made of it after those before, followed by at most one terminal of the wrapper's own, and holds no chunk after a terminal. |
| StreamLayer.ExitOrder | streaming.go:588-635 | The output is closed exactly when the goroutine has exited, after the finalizer ran once, and once it has run the output ends in a terminal if and only if the last delivery did not time out; and every terminal of the wrapper's own has a reason. |
| StreamLayer.NothingAfterFinalizer | streaming.go:588-635 | From the finalizer on nothing is sent. |
| StreamLayer.StepHasCause | streaming.go:153-208 | A terminal that a wrapper makes is the processor's view of StreamTimeout after a Send that timed out, of the context's error after a Send that failed on it, and else of the context's error if the context has ended and a plain Done if not. |
| StreamLayer.LeavesNothingReady | streaming.go:485-550 | But for a failed Send, a wrapper stops reading only when nothing is ready in its source, and then because the source or the context has ended. |
| StreamLayer.CleanEndIsWhole | streaming.go:163-208 | With a processor that makes a terminal of a terminal only and drops no error (a clean terminal may become an error), an output that ends cleanly has forwarded the whole input if and only if no error terminal was lost to a timed-out delivery. |
| StreamLayer.NeverStuck | streaming.go:485-550 | A goroutine can always take a step unless it waits on an open, empty source with a live context. |
| StreamStack.NextKeepsInv | streaming.go:485-635 | Every event of a stack of wrappers keeps the invariant of every layer. |
| StreamStack.ExecuteKeepsInv | streaming.go:485-635 | Every interleaving of any length reaches only states that satisfy it. |
| StreamStack.StackForwardsPrefix | streaming.go:485-635 | What a consumer can receive before the terminal is a prefix of the source's chunks put through all processors in order. |
| StreamStack.StackTruncationIsVisible | streaming.go:163-208 | If no processor drops an error and no layer lost an error terminal, a clean end at the consumer means that the source ended cleanly and its whole body was forwarded. |
| StreamStack.StackTheorem | streaming.go:485-635 | For a stack of any height whose processors make terminals of terminals and of nothing else, and every interleaving from the start: every channel is well formed (no chunk after a terminal); every layer sends its terminal, exactly if its last delivery did not time out, then runs its finalizer once, then closes; whatever terminal it makes is a plain Done, its context's error, or StreamTimeout when a Send of it timed out, and the one owed after a failed Send carries the error of that failure; the consumer's body is a prefix of the processed source; and, if moreover no processor drops an error, a clean end is a complete one unless an error terminal was lost. |
| StreamStack.TerminalsMadeForCause | streaming.go:153-208 | Over every interleaving and at each of its events: a terminal that a layer makes there is the context's error if its context had ended by then, a plain Done if it had not, but StreamTimeout where it is owed for a Send that timed out. |
| StreamStack.ErrorHasCause | streaming.go:153-208 | If no processor changes errors, an error that ends any stream of the stack is the source's, or the error of the context of a layer on the way, or StreamTimeout of a layer that ran into one. |
| StreamStack.StackNeverStuck | streaming.go:485-635 | Once the source has closed, some goroutine of the stack can go on until all have exited, whether the consumer reads or not. |
| StreamStack.LostErrorLooksClean | streaming.go:318-323 | The exception is real: a run of thirteen events after which the consumer sees a clean end although a chunk was dropped, because the send and then the delivery of its error both timed out. |
| StreamStack.ClosesWithoutTerminal | streaming.go:291-325 | A run in which nobody receives and both deliveries time out: the stream closes without a terminal. |
| JsonScan.BalancedJSONAt | structured.go:668-699 | The loop returns exactly the text the recursive scan selects: from the bracket to its match, brackets inside strings ignored. |
| JsonScan.ValueSkips | structured.go:668-699 | A complete JSON value leaves the scanner at the depth where it found it, whichever bracket it counts. |
| JsonScan.ScanFindsContainer | structured.go:668-699 | On any RFC 8259 object or array text followed by anything at all, the scanner stops exactly at the end of that text, although it counts only one kind of bracket. |
| JsonScan.ScanEndsAtClose | structured.go:668-699 | Whatever the scanner accepts lies inside the input and ends with the closing bracket. |
| JsonScan.ContainerUnique | structured.go:668-699 | At most one object or array text starts at a position. |
| JsonScan.LeftmostOrdered | structured.go:638-663 | The spans taken from left to right are object or array texts, disjoint and in order. |
| JsonScan.LeftmostCovers | structured.go:638-663 | Every position where an object or array text starts lies inside one of them. |
| JsonScan.WantedIsLeftmost | structured.go:638-663 | Spans that are object or array texts, from left to right without overlap, and inside which every such text of the input starts, are exactly those of the reference definition. |
| JsonScan.ExtractJSONCandidates | structured.go:642-663 | On every input the strings returned are object or array texts of the input, each cut out at its own place, from left to right without overlap, and every object or array text of the input starts inside one of them. |
| JsonScan.ExtractJSON | structured.go:630-635 | The object or array text that starts first, exactly if there is one. |
| JsonScan.BalancedHere | structured.go:642-663 | Where the scanner balances a text, the span is taken if and only if the text is valid JSON. |
| Sse.NextLine | internal/httpclient/sse.go:177-223 | A line read is a terminated line within the size bound and without a terminator inside it, or the whole rest when it has no terminator, or too long; the first and the last consume something. |
| Sse.ReadFrom | internal/httpclient/sse.go:86-170 | An event read from a fresh start consumes at least one byte, so reading all events of a stream ends. |
| Sse.SSEReader.ReadLine | internal/httpclient/sse.go:177-223 | The incremental reader, which defers an LF after a CR to the next call, returns the first line of the bytes it has not consumed and keeps the rest. |
| Sse.SSEReader.Read | internal/httpclient/sse.go:86-170 | A call of the stateful reader gives exactly what reading an event from the remaining bytes gives, and leaves the remaining bytes of that. |
| SseRoundTrip.SplitFirst | internal/httpclient/sse.go:177-223 | The first line read is the first piece of the stream split at CRLF, CR and LF. |
| SseRoundTrip.ReaderSplits | internal/httpclient/sse.go:177-223 | Reading lines to the end gives the same list as splitting the whole stream at CRLF, CR and LF, though the reader never looks ahead. |
| SseRoundTrip.RenderFirst | internal/httpclient/sse.go:177-223 | The first printed line is recovered whatever its terminator, unless a CR-ended line is followed by an empty LF-ended one. |
| SseRoundTrip.FieldLine | internal/httpclient/sse.go:136-152 | A field line gives its name and value whether or not a space follows the colon, and a line without a colon is a name with an empty value. |
| SseRoundTrip.ReadsRecord | internal/httpclient/sse.go:86-170 | Reading the lines of one record from any point inside it builds its event, or, without data, passes its name and ID on to the next record. |
| SseRoundTrip.ReadsCut | internal/httpclient/sse.go:86-170 | When the stream ends inside a record, after whole lines or in the middle of one, what was read is delivered if it has data and the end is no error. |
| SseRoundTrip.ReadsOversized | internal/httpclient/sse.go:110-121 | Lines of one event that pass the bound together make the event fail as too large, after the line with which they do. |
| SseRoundTrip.ReadsOverlong | internal/httpclient/sse.go:177-223 | A line that passes the bound by itself fails as too long, and the bytes read of it are gone. |
| SseRoundTrip.DataSplits | internal/httpclient/sse.go:127-131 | The data of an event, split at LF, gives back the values of its data lines. |
| SseRoundTrip.RoundTrip | internal/httpclient/sse.go:86-170 | Any list of records, printed with any terminators that keep lines apart and any comments and unknown fields within the bound, and then cut off anywhere in a last one, reads back as exactly their events: one for each record with data, with the name and ID that records without data left before it, and one for the cut record if it has data. |
| SseRoundTrip.PrintedEventsRead | internal/httpclient/sse.go:86-170 | Any list of events with name, ID and at least one data line, printed and read back, is the same list. |
| TypeGraph.ClassesDiffer | structured.go:375-440 | The schema walk and the lookup treat a field differently exactly when it embeds a struct of special or custom-decoded form without a name, or an unexported struct under an explicit name. |
| TypeGraph.FlatResolves | structured.go:1107-1122 | In a struct that embeds nothing a name resolves to the exported field whose tag gives that name, or that has it and no other in its tag, if there is exactly one. |
| TypeGraph.PointersEndExactly | structured.go:708-710 | The loops that follow pointers end, after at most as many steps as there are types, if and only if the pointers do not lead round in a circle. |
| TypeGraph.SelfPointer | structured.go:708-710 | A type declared as a pointer to itself is one for which they do not end. |
| TypeGraph.TallyMeaning | structured.go:825-834 | The running tally knows the first candidate of least depth and whether it is the only one of that depth. |
| TypeGraph.TallyPicks | structured.go:823-902 | Keeping names with a count of at most one picks the one strictly shallowest candidate, and nothing when the least depth is ambiguous. |
| SchemaWalkers.SchemaWalker.SchemaForType | structured.go:707-767 | Terminates on every type graph without a circle of pointers, cyclic structs and slices included, restores its path sets, and the schema describes the type down to every leaf: a special schema as it is, a scalar by its kind, a slice by its element, a struct by one property for each name that resolves to a field, which describes that field's type or is a string under the string option; what is being described already, decodes itself or is open is unconstrained. |
| SchemaWalkers.SchemaWalker.SchemaForStructChain | structured.go:813-903 | For every name, the property found is the field the name resolves to, at its depth, and its schema describes that field. |
| SchemaWalkers.SchemaWalker.WalkField | structured.go:836-891 | One field brings exactly its own candidates to the tally of every name, each with a schema that describes it. |
| SchemaWalkers.SchemaWalker.AddAll | structured.go:863-871 | Promoted properties are added with their schemas one level deeper, in any map order, without disturbing other names. |
| SchemaWalkers.SchemaWalker.MergeEmbeddedSchema | structured.go:912-955 | An embedded struct promotes exactly the names that resolve in it, none when it is already on the embedding chain, and is left as a named field otherwise. |
| SchemaWalkers.FieldLookup.StructFieldByJSONNameDepth | structured.go:375-440 | Terminates on every type graph without a circle of pointers and returns the field the name resolves to, with its depth. |
| SchemaWalkers.FieldLookup.FieldCandidate | structured.go:407-435 | One field offers the lookup exactly its candidate, its promoted one, or none. |
| SchemaWalkers.FollowPointers | structured.go:708-710 | Ends where no pointer is left. |
| SchemaWalkers.EveryNameMeansOne | structured.go:375-392 | Where the JSON names of the structs that embedding joins are pairwise distinct up to case, every name looked up means one of them, or only itself. |
| SchemaWalkers.WalksAgree | structured.go:375-440 | On any finite type graph and for every name: if among the structs that embedding joins to the struct (those reached through named fields only do not matter) no field is an embed of ClassesDiffer and the name means one JSON name or none up to case, then the lookup finds a field at a depth if and only if the name meant is a property at that depth, and it is the same field; a name equal to none up to case is found by neither. |
| SchemaWalkers.CaseClashDisagrees | structured.go:369-373 | Without distinctness up to case they disagree: two fields "id" and "ID" are both properties, and the lookup finds neither. |
| SchemaWalkers.LookupIgnoresCase | structured.go:369-373 | For a field "id" the name "Id" is no property, and the lookup of it finds the field. |
| ResponseCache.MemoryResponseCache.constructor | caching_middleware.go:269-276 | A new cache satisfies the invariant with an empty write log. |
| ResponseCache.MemoryResponseCache.Get | caching_middleware.go:279-294 | A hit is the latest value set for the key, strictly inside its lifetime; an unexpired key does hit unless as many other keys as the cache has room for were written at its own instant or later (at any time, if entries never expire). |
| ResponseCache.MemoryResponseCache.Set | caching_middleware.go:297-310 | The write is logged and stored with its expiry, the size never exceeds maxEntries, and no other entry changes except by eviction. |
| ResponseCache.MemoryResponseCache.EvictLocked | caching_middleware.go:320-346 | Every expired entry goes, and nothing else does; or, when that makes no room, exactly one more entry, which expires no later than any that stays. What stays is unchanged. |
| ResponseCache.Earliest | caching_middleware.go:328-343 | The selection loop finds an entry that expires no later than any other, entries without expiry last, in whatever order the map is visited. |
| ResponseCache.LaterIsRival | caching_middleware.go:320-346 | An entry that expires no earlier than another was written at its instant or later. |
| ResponseCache.VictimExcused | caching_middleware.go:320-346 | When a live entry is evicted, maxEntries other keys have been written at its instant or later, on any clock that does not go back. |
| ResponseCache.SetRetains | caching_middleware.go:297-310 | So an unexpired key stays until then. |
| ResponseCache.FewSetSince | caching_middleware.go:297-310 | With strictly increasing times of the Set calls, that is exactly until maxEntries other keys were set after it. |
| ToolPool.NextKeepsInv | runtools.go:176-243 | Every step of the dispatcher and of every call's goroutine keeps the invariant on semaphore, result channel and message slots. |
| ToolPool.ExecuteKeepsInv | runtools.go:176-243 | Every interleaving reaches only states that satisfy it. |
| ToolPool.BoundedConcurrency | runtools.go:176-243 | On every run at most `concurrency` handlers are in flight. |
| ToolPool.SendsNeverBlock | runtools.go:176-243 | A goroutine with a result always finds room in the channel, and one that ends can release the semaphore. |
| ToolPool.NeverStuck | runtools.go:176-243 | If handlers return or panic, some goroutine can go on until all have finished, even if the context never ends. |
| ToolPool.ResultTells | runtools.go:217-235 | The message for a call has the call's ID and name, and the handler's content as it is, or a text marked as an error that ends with what went wrong. |
| ToolPool.SuccessInCallOrder | runtools.go:176-243 | On success message i has the ID and name of call i and tells how its handler ended, with its content or as an error, whatever the order of completion. |
| ToolPool.FailureNeedsCtx | runtools.go:176-243 | An error is returned only when the context has ended. |
| ToolPool.EveryRun | runtools.go:176-243 | For every interleaving from the start: the bound, the absence of deadlock, and on success a message for each call, in order, that tells how the handler of that call ended in the run. |
| ToolLoop.SuccessAnswers | runtools.go:153-168 | What a successful run returns answers the calls it was given, one message per call in order. |
| ToolLoop.RoundAt | runtools.go:135-168 | Where a round stands in the transcript: the model's turn with its content, calls and reasoning, and right after it the tool messages of the round in order. |
| ToolLoop.RunTools | runtools.go:112-169 | The transcript is the caller's messages followed by rounds, each the model's answer to the transcript so far and the tools' results in call order; only the last round may lack results; the loop ends for the reason it reports: no tool was asked for, no iteration was left, or tools failed or the next iteration gave no answer; and the response returned is the latest. |
| Batch.NextKeepsInv | batch.go:179-372 | Every step of the feeder, of every worker and of the environment keeps the accounting exact. |
| Batch.ExecuteKeepsInv | batch.go:179-372 | Every interleaving reaches only states that satisfy it. |
| Batch.AlwaysConserved | batch.go:179-372 | At all times successes plus failures equal the recorded results, every recorded request is recorded once under its ID with its own response or failure, each count of the usage is the sum of that count over the successes, and no progress value is reported twice or out of range. |
| Batch.CostSetExactly | batch.go:352-354 | A total cost is set exactly when there is a success and every success reported one, and is then their sum. |
| Batch.FinishedConserved | batch.go:179-372 | When ProcessBatch returns, every started request is recorded, and progress has reported 1 to the number of results once each. |
| Batch.FinishedComplete | batch.go:179-372 | With ContinueOnError and a live parent context every request has a result; fewer results always have a visible cause. |
| Batch.ErrorExactly | batch.go:368-371 | ProcessBatch returns an error exactly when the parent context has ended and some request never ran. |
| Batch.OutcomesHappened | batch.go:283-330 | An outcome on record for a request is one with which a worker's call for that request ended in the run. |
| Batch.ExecuteKeepsStop | batch.go:283-330 | Without ContinueOnError a failure has cancelled the batch, or a worker is about to. |
| Batch.StartsOnlyLive | batch.go:291-296 | A call starts only while the parent context is live and the batch not cancelled, and neither comes back. |
| Batch.NeverStuck | batch.go:179-372 | Until ProcessBatch returns, the feeder or a worker can go on, if calls in flight end, even if the parent context never does. |
| Batch.EveryRun | batch.go:179-372 | For every interleaving from the start: the absence of deadlock; the accounting while it runs, each result telling how a call for its own request ended in the run; and its completeness, cancellation and error at the end. |
| Batch.ValidateBatchRequestIDs | batch.go:374-383 | Accepts exactly the lists of pairwise distinct IDs. |
| Repair.RepairToolResults | llmadk/request.go:404-448 | The loops give the repaired list and the number of dropped results that the recursive definition gives. |
| Repair.Pair | llmadk/request.go:421-445 | For one assistant message: each call gets the last result with its ID or the pending notice, and results no call asked for are counted. |
| Repair.RepairedWellAnswered | llmadk/request.go:404-448 | Every assistant message with n calls is followed at once by exactly n tool messages with the calls' IDs in order, and no other tool message remains. |
| Repair.RepairedKeepsOthers | llmadk/request.go:404-448 | The messages that are not tool messages are unchanged and in order. |
| Repair.ToolsAccounted | llmadk/request.go:404-448 | Input tool messages are those that answer a call, plus superseded duplicates, plus the dropped count. |
| Repair.AnswersUsed | llmadk/request.go:421-445 | A result counted as answering is what every call with its ID gets, and it is the last one with that ID; a call without any result gets a tool message with its ID and function that says the result is pending. |
| Repair.SecondPass | llmadk/request.go:404-448 | A second pass drops nothing, and changes nothing if and only if no message has two unanswered calls of one ID for differently named functions. |
| Repair.DistinctIdempotent | llmadk/request.go:404-448 | With distinct call IDs per message a second pass changes nothing and drops nothing. |
| Conversation.NormalKeeps | message.go:225-260 | Putting neighbouring texts on lines of one piece changes neither the text nor the media of a message. |
| Conversation.TextOfPieces | vision.go:211-224 | Message.Text depends only on what the message says, not on whether it says it in Content or in Parts. |
| Conversation.TextIsJoined | vision.go:211-224 | Message.Text of parts is their non-empty texts with line breaks between them. |
| Conversation.GroupsPartition | message.go:205-273 | The groups cut the list without loss into runs of messages that may join, and only where messages may not. |
| Conversation.AbsorbMeans | message.go:225-251 | Folding a message into the accumulator says what both said, in order. |
| Conversation.CombinedMeans | message.go:225-260 | So does a whole merged group: same text pieces and media, in order, up to line breaks between texts. |
| Conversation.CombinedFields | message.go:253-260 | A merged group has the role, name, call ID and reasoning of its first message, all tool calls in order, and the last cache breakpoint. |
| Conversation.GroupText | message.go:225-260 | Its Text is the texts of its messages, one per line, and its media are theirs in order. |
| Conversation.MergeKeeps | message.go:189-275 | Merging keeps all tool calls, reasoning and media of non-system messages, in order. |
| Conversation.MergedApart | message.go:205-273 | No two neighbours of the result share a role unless they are tool or system messages or one carries reasoning. |
| Conversation.ApartUnchanged | message.go:205-273 | A list in which nothing joins is left as it is. |
| Conversation.SystemSaysAll | message.go:295-372 | The one system message has all the parts of the system messages in order, or, without media, their texts separated by blank lines; it carries the first of their cache breakpoints and no calls, name or reasoning. |
| Conversation.ConversationKept | message.go:189-275 | MergeConsecutiveMessages keeps the tool calls, reasoning and media of the non-system messages, in order. |
| Conversation.UntouchedKept | message.go:189-275 | Tool messages and messages with reasoning come out as they are, in order. |
| Conversation.GroupsKept | message.go:189-275 | Each message it returns has the text, media, calls and last cache breakpoint of one group, all of its role. |
| Conversation.Shape | message.go:295-337 | The result has at most one system message, in front, followed by the merged rest. |
| Conversation.MergeIdempotent | message.go:189-275 | Merging twice gives what merging once gives; two neighbours of the result differ in role, or are tool messages, or one has reasoning; and no system message follows the first message. |
| MergeMessages.Append | message.go:281-290 | Go's append: in place when there is room, else in new storage; the contents are the old ones and then the new. |
| MergeMessages.CloneMessageSlices | message.go:281-290 | The copy has the same value and shares no storage with anything that existed. |
| MergeMessages.MergeInto | message.go:225-260 | The in-place step gives the folded message and writes to no storage but the accumulator's. |
| MergeMessages.TakeNext | message.go:205-269 | One iteration of the loop, with finished messages keeping their values although the accumulator is written in place. |
| MergeMessages.MergeConsecutiveMessages | message.go:189-275 | The result is the merged list, and no storage that the caller owns is written. |
| MergeMessages.ConsolidateSystemMessages | message.go:295-337 | The result is the consolidated list, and no storage that the caller owns is written. |
| MergeMessages.MergeSystemContent | message.go:344-372 | Content and parts of the merged system message, in storage of its own. |
| MergeMessages.JoinStrings | message.go:374-397 | The loop gives the strings with the separator between neighbours. |
| GenaiSchema.WalkUnfolds | llmadk/schema.go:64-156 | A schema whose unfolding has some height leaves room only for pointer walks of at most that length. |
| GenaiSchema.CycleHasNoUnfolding | llmadk/schema.go:64-156 | A graph with a reachable cycle has no finite unfolding of any height. |
| GenaiSchema.NodeConverted | llmadk/schema.go:75-148 | When the children are converted to their unfoldings, the object built from them is the node's. |
| GenaiSchema.Converter.Convert | llmadk/schema.go:64-156 | Terminates on every finite pointer graph and restores the on-path set; a result is the finite unfolding of the schema, and an error means that a pointer walk leads back to the path. |
| GenaiSchema.Converter.ConvertProperties | llmadk/schema.go:107-121 | Exactly the non-nil properties are converted, each to its unfolding, in whatever map order. |
| GenaiSchema.Converter.ConvertAnyOf | llmadk/schema.go:125-137 | Exactly the non-nil alternatives are converted, in order. |
| GenaiSchema.UnfoldSpells | llmadk/schema.go:64-156 | The finite unfolding says at every node what the graph says there: type name, null, keywords, items, the non-nil properties, and the non-nil alternatives in order. |
| GenaiSchema.Convert | llmadk/schema.go:64-156 | The conversion fails if and only if a cycle is reachable through Items, Properties or AnyOf; otherwise the object says what the graph says, shared acyclic schemas spelled out at each use. |
| Pricing.Clamp | cost.go:159-188 | No count and no charge is negative afterwards, a charge that is not finite becomes zero, and a well-formed usage is unchanged. |
| Pricing.ClampKeeps | cost.go:159-188 | Each count that is not negative is kept whatever the others are, and so is a finite charge. |
| Pricing.TotalInputTokens | cost.go:81-91 | The exact sum where an int can hold it, the largest int where a sum is above that, and a wrapped one below the range; for non-negative counts, the sum capped at the largest int. |
| Pricing.Best | cost.go:101-110 | The tier chosen has the highest threshold reached and is the first with it; none is chosen when none is reached. |
| Pricing.OneApplies | cost.go:101-110 | That description determines the tier. |
| Pricing.Effective | cost.go:97-120 | The loop over unsorted tiers gives the rates of that tier, or the base rates. |
| Pricing.ComputeCost | cost.go:144-154 | The cost of a clamped usage at those rates. |
| Pricing.CostIs | cost.go:97-154 | The cost is each count times its rate in millionths, at the base rates or all the rates of the tier that the input tokens together reach, cache tokens without a rate of their own as input. |
| Pricing.CostMonotone | cost.go:144-154 | If rates, after the fallback to Input, do not fall as thresholds rise, the cost does not fall when any token count grows, across thresholds included. |
| Pricing.FallingTierCostsLess | cost.go:144-154 | Without that condition it can: a cheaper long-context tier. |
| Pricing.MonotoneExactly | cost.go:97-154 | For any card, negative rates and unsorted tiers included: the cost never falls as token counts grow if and only if the rates that apply to some request are not negative and, at each threshold, requests of one kind of input token with no or all possible output tokens do not get cheaper by one more input token of any kind, a finite set of inequalities between rates. |
| Pricing.DeriveAnthropicBatchPricing | modes.go:139-181 | A batch card is derived exactly when a standard card with an input rate is known. |
| Pricing.BatchTiers | modes.go:160-179 | The derived card changes tiers where the standard card does. |
| Pricing.BatchCost | modes.go:139-181 | How far the batch cost is from half the standard cost, exactly, for every usage and tier: unset cache rates bill reads at a tenth and writes at 1.25 of the input rate instead of the input rate. |
| Pricing.HalfExactlyWhen | modes.go:139-181 | It is half if and only if the input rate is not positive or the cache tokens at unset rates are in the ratio 18 writes to 5 reads. |
| Pricing.NotHalf | modes.go:139-181 | It need not be: a million cache-read tokens without a rate of their own cost 4.0 on a standard card and 0.2 on its batch card. |
| Pricing.HalfPrice | modes.go:139-181 | With explicit cache rates it is half for every usage and tier. |
| CostTracking.BatchHalvesPrice | modes.go:195-206 | An Anthropic batch request that no card is set or published for costs half the standard price, for every usage, when the standard card has explicit cache rates. |
| CostTracking.UnpricedCostsExactly | cost.go:667-689 | A price is known exactly if a charge was reported or a card applies to the mode; an unknown price is not zero if and only if the model has a standard card by which the request costs something. |
| CostTracking.UnpricedMayCost | cost.go:667-689 | A request with such a price: an unknown mode, billed at the standard rates. |
| CostTracking.EstimateSplits | cost.go:590-593 | A model's estimated cost is that of its priced requests plus exactly the standard charges of the unpriced ones. |
| CostTracking.ByModelIsByMode | cost.go:698-747 | Grouped by model or by mode, the costs of a log of requests have the same total. |
| CostTracking.UnpricedAmongRequests | cost.go:738-741 | A model never has more unpriced requests than requests. |
| CostTracking.WouldOverflow | cost.go:749-751 | For a counter within the limit: true exactly when the sum would pass it. |
| CostTracking.CountedBalances | cost.go:698-747 | Counting a request keeps every counter and cost equal to what the log adds up to. |
| CostTracking.CardSetApplies | cost.go:667-689 | A card set for a model and mode is what requests of that mode are billed by, before any published or derived one; a standard card set is what the standard mode and all uncovered modes are billed by. |
| CostTracking.PublishedCardApplies | modes.go:190-206 | Without a card set for its mode a request is billed by the published one, before any derived one. |
| CostTracking.OnlyAnthropicBatchDerives | modes.go:139-206 | No card is derived for another provider or mode, nor from a standard card without an input rate: such a request is unpriced, and billed at the standard rates if there are any. |
| CostTracking.OtherCardsDoNot | cost.go:667-689 | Cards under other keys do not change a price. |
| CostTracking.ChargeWins | cost.go:667-675 | A reported charge is the price, whatever the tables hold. |
| CostTracking.CostTracker.RecordMode | cost.go:698-747 | The request is counted if and only if all its model's counters stay within the limit; the invariant that all numbers are exact sums is kept, and the model's last use is now. |
| CostTracking.MediaCost | cost_media.go:118-130 | Media are priced exactly if a charge was reported or there is a rate for the unit used: by the charge, else the quantity times the rate, which is flat without a unit; unpriced media cost nothing. |
| CostTracking.UnitsMixExactly | cost_media.go:146-150 | The documentation says that incompatible quantities never mix. Some models share a key under two different units exactly if one of the units ends in a colon followed by the other. |
| CostTracking.UnitsApart | cost_media.go:146-150 | Units without a colon, as all units that the source defines, never mix, whatever the models are called. |
| CostTracking.CostTracker.RecordMedia | cost_media.go:148-165 | Media are counted under the key of their model and unit and change no other total; the totals stay the sums of what was recorded. |
| CostTracking.CostTracker.Reset | cost.go:859-865 | The log and all counters are empty, the cards stay. |
| CostTracking.CostTracker.SetPricing | cost.go:868-872 | One card changes and no count does. |
| CostTracking.CostTracker.SetModePricing | cost.go:759-767 | One mode card, or the standard card, changes and no count does. |
| CostTracking.CostTracker.GetTotalCost | cost.go:808-820 | The total of all counted costs since the last reset, media included; for tokens it is also the total of the costs by mode. |
| CostTracking.CostTracker.Accounts | cost.go:698-747 | In every reachable state the models' costs and the modes' costs have the same total, each counter of a model is the sum of that count over its requests and within 2^62-1, so is each of a media total, a model's cost is that of its priced requests plus the standard charges of the others, and unpriced requests are among the requests. |
| Base64.RoundTrip | llmadk/envelope.go:114-119 | Decoding gives back the bytes that were encoded. |
| Base64.Vectors | llmadk/envelope.go:114-119 | The test vectors of section 10 of RFC 4648. |
| Base64.CanonicalExactly | llmadk/envelope.go:145-151 | A text that decodes is the encoding of its bytes if and only if it has no line break and no unused bit set before the padding. |
| Signatures.EnvelopeRoundTrip | llmadk/envelope.go:182-196 | An envelope is read back as it was written, unless it is larger than 8 MiB, which makes it invalid. |
| Signatures.EnvelopeIsRead | llmadk/envelope.go:123-136 | So is one stored in a part's metadata, whatever the part's ThoughtSignature holds. |
| Signatures.SignatureForProvider | llmadk/response.go:69-83 | A call stored, read back and prepared for a provider other than Gemini has its original signature if that was unstamped or issued by the provider, and none otherwise; the placeholder never reaches it. |
| Signatures.SignatureForGemini | llmadk/envelope.go:100-111 | Gemini's own signature comes back unchanged if and only if it was canonical base64 or no base64 text of bytes Gemini could have issued. |
| Signatures.OtherSignaturesForGemini | llmadk/response.go:74-83 | For Gemini, unstamped signatures are kept, foreign ones dropped, and a turn's first call without one has the placeholder. |
| Signatures.ThoughtRoundTrip | llmadk/response.go:126-154 | Reasoning of any provider but Gemini that is put in a thought part is read back complete from it, with its text shown or hidden. |
| Signatures.GeminiThought | llmadk/response.go:126-154 | Gemini's reasoning comes back with its canonical signature and the visible text. |
| Signatures.Part.SetEnvelope | llmadk/envelope.go:114-119 | One metadata entry is written and nothing else of the part. |
| Signatures.Part.AttachCallSignature | llmadk/envelope.go:100-111 | The state of a call's part after the signature is attached, for every provider. |
| Signatures.StoreCalls | llmadk/response.go:69-83 | Each call of a turn has its part, the first one with the placeholder when nothing else signs it. |
| Signatures.Convert | llmadk/response.go:48-85 | The parts of a turn, in order: its thought, unless there is none to keep or the turn is hidden and nothing but thought; its text, if any; and its calls. |
| Signatures.PartsInOrder | llmadk/response.go:57-85 | The thought comes first, then the text if there is any, then every call of the turn in order. |
| Signatures.ModelContent | llmadk/request.go:163-214 | The loop over the parts of a session gathers text, thought, first readable signature and calls as the specification does, gives no message if it finds nothing, and fails if and only if a part is of another kind. |
| Signatures.TurnIsRead | llmadk/request.go:163-214 | A whole turn stored and read again has its text and all its calls in order, with their signatures as stored; no signature counts as damaged; and its reasoning is what its thought part gives. |
| Signatures.ReasoningComesBack | llmadk/response.go:57-66 | Reasoning of any provider but Gemini comes back complete with its turn if and only if the turn is not both hidden and nothing but thought; with thoughts hidden no part shows its text. |
| Signatures.DropForeignReplay | provenance.go:136-169 | Every message loses exactly the reasoning and signatures the provider did not issue, messages without any are returned as they were, and no storage of the caller is written. |
| CallIds.MintedNotFromADK | provenance.go:92-103 | A minted ID never starts with "adk-". |
| CallIds.AssignIDs | llmadk/response.go:161-174 | Every ID is the provider's where that is at least nine characters, not ADK's and new, and a minted new one otherwise; the draws are enough whenever as many of them are new as there are calls, and run out only when every one is in the history or already used. |
| CallIds.EnoughDraws | llmadk/response.go:161-174 | Running out of draws means fewer new ones than calls. |
| CallIds.AssignedAreNew | llmadk/response.go:161-174 | The IDs of one response are pairwise distinct, not in the history, at least nine characters long and not ADK's. |
| CallIds.CollectHistoryIDs | llmadk/request.go:103-118 | The set has exactly the non-empty IDs of the calls and responses in the contents, nil ones skipped. |
| CallIds.SessionDistinct | llmadk/response.go:161-174 | Over a session of any length in which each request carries the earlier history, with ADK's own IDs taken out of it, all assigned IDs are pairwise distinct and never start with "adk-". |
| CallIds.NewToHistory | llmadk/response.go:161-174 | When an ID is assigned, no call or response of the whole earlier history has it. |
| CallIds.EnsureToolCallIDs | provenance.go:110-123 | Every call has its own ID where that is non-empty and new within the response, and a minted new one otherwise; the draws are enough whenever as many of them differ as there are calls, and run out only when every one is already used. |
| CallIds.EnsuredMeans | provenance.go:110-123 | So IDs become non-empty and distinct, and the first call with an ID keeps it. |

## Left out

- Provider clients, HTTP transport, multipart code, media handling, the command line and the examples: I/O and library behaviour.
- Pricing, media and capability tables: data only; rate cards and published mode cards are parameters.
- Scalar JSON candidates, typed unmarshalling and repair prompts: they depend on the decoder and on model text.
- Deep copy: unexported struct fields are copied shallowly, as in the code; interior pointers and overlapping subslices are not modelled; allocations of size zero have addresses of their own. Reflection is replaced by a heap of storage and the types it is seen under.
- Streams: identity stamps and adjustments on chunks, panics of processors, and the capacity of the source's channel (the model's source may always send, which allows more runs). Contexts are independent of each other. Goroutines are steps on values and not objects on a shared heap.
- JsonScan.ExtractJSONCandidates: `json.Valid` is a parameter that accepts exactly the texts of the grammar; the nesting limit of encoding/json is ignored.
- Event reader: `Close` during a read, and decoding of bytes other than line breaks and field names.
- Schema walks: descriptions, required lists and the content of special schemas; `strings.EqualFold` is comparison under a folding function; errors for unsupported map keys are not modelled.
- Response cache: cloning of stored responses, and locking (each method is one atomic step). The clock is a parameter that does not go back; which of several earliest-expiring entries is evicted is left open.
- Tool pool and batch: what handlers and providers answer is any answer; the tool name in the text of a panic is quoted without escapes; request timeouts, durations and error texts are not modelled.
- Repair and merge: message texts and call arguments are opaque strings; of a message's parts, only whether they are text or media matters.
- GenaiSchema.Convert: keywords that are copied over as they are, one opaque map; a nil root, which converts to nil.
- Pricing.CostMonotone: rounding of floating point is not modelled; nor is it in the other statements about costs.
- Cost tracker: embeddings, which are recorded like other usage, snapshots of the maps, and locking (each method is one atomic step). A reported media charge is any real number. Request counters do not wrap around.
- Signatures.EnvelopeRoundTrip: `json.Marshal` and `json.Unmarshal` are a parameter that gives back the envelope at hand; metadata that does not marshal is not modelled.
- Signatures.Convert: call names and arguments, usage, finish reasons and grounding; its calls have the IDs assigned to them.
- Signatures.ModelContent: the IDs made up for calls without one, and call arguments.
- CallIds.AssignIDs: that the retry loop ends with probability one is not modelled; the draws are a finite list, enough new draws are shown to suffice, and a loop still looking at the end of the list gives no outcome. The IDs made up for calls without one are any set.
- CallIds.EnsureToolCallIDs: the same for its retry loop.
